/**
 * Square boards stored as a sequence of rows, the shape both revisions
 * build with `Array.from({ length: n }, () => Array(n).fill(v))`.
 */
module Grid {

  datatype Pos = Pos(row: int, col: int)

  predicate IsSquare<T>(g: seq<seq<T>>, n: nat)
  {
    |g| == n && forall r :: 0 <= r < n ==> |g[r]| == n
  }

  predicate Inside(p: Pos, n: nat)
  {
    0 <= p.row < n && 0 <= p.col < n
  }

  predicate InBounds<T>(g: seq<seq<T>>, p: Pos)
  {
    0 <= p.row < |g| && 0 <= p.col < |g[p.row]|
  }

  function At<T>(g: seq<seq<T>>, p: Pos): T
    requires InBounds(g, p)
  {
    g[p.row][p.col]
  }

  /** `g[p.row][p.col] = v`: the one cell changes, the shape and every other cell stay. */
  function Put<T>(g: seq<seq<T>>, p: Pos, v: T): (h: seq<seq<T>>)
    requires InBounds(g, p)
    ensures |h| == |g| && forall r :: 0 <= r < |g| ==> |h[r]| == |g[r]|
    ensures forall q :: InBounds(g, q) ==> At(h, q) == if q == p then v else At(g, q)
  {
    g[p.row := g[p.row][p.col := v]]
  }

  lemma TakeOneMore<T>(s: seq<T>, i: nat)
    requires i < |s|
    ensures s[..i + 1] == s[..i] + [s[i]]
  {
  }

  /** An `n` by `n` board every cell of which holds `v`. */
  function Filled<T>(n: nat, v: T): (g: seq<seq<T>>)
    ensures IsSquare(g, n)
    ensures forall q :: Inside(q, n) ==> At(g, q) == v
  {
    seq(n, _ => seq(n, _ => v))
  }
}
