/**
 * The pure side of the final revision of the game: what a cell holds,
 * where a placement attempt puts a ship, how a guess string is read,
 * and the invariant that ties the board, the placements and the
 * counters together. The class in module Game keeps this invariant.
 */
module Fleet {
  import opened JsText
  import opened Grid

  /** The ship sizes the game places, in placement order; ship `i` has size `ShipSizes[i]`. */
  const ShipSizes: seq<nat> := [2, 3, 3, 4, 5]

  /** A board cell: `" "`, a ship index, `"X"` or `"O"`. */
  datatype Cell = Blank | Ship(index: nat) | HitMark | MissMark

  type Board = seq<seq<Cell>>

  /** What one guess reports: the source's five messages. */
  datatype Outcome = Invalid | AlreadyTried | Hit | Sunk | Miss

  datatype Direction = Horizontal | Vertical

  /** The three values of `Math.random()` one pass of the placement retry loop reads. */
  datatype Draw = Draw(direction: real, row: real, col: real)

  predicate IsDraw(d: Draw)
  {
    IsRandom(d.direction) && IsRandom(d.row) && IsRandom(d.col)
  }

  function DirectionOf(u: real): Direction
  {
    if u < 0.5 then Horizontal else Vertical
  }

  /** The exclusive bounds `[n, n - size + 1]` for row and column, reversed for a vertical ship. */
  function AnchorBounds(dir: Direction, n: int, size: int): (int, int)
  {
    var arrParams := (n, n - size + 1);
    if dir == Horizontal then arrParams else (arrParams.1, arrParams.0)
  }

  /** The anchor a draw chooses for a ship of length `size`. */
  function AnchorOf(d: Draw, n: int, size: int): Pos
  {
    var bounds := AnchorBounds(DirectionOf(d.direction), n, size);
    Pos(RandomIndex(d.row, bounds.0), RandomIndex(d.col, bounds.1))
  }

  /** The `k`-th cell of a run that starts at `anchor`. */
  function RunCell(dir: Direction, anchor: Pos, k: int): Pos
  {
    match dir
    case Horizontal => Pos(anchor.row, anchor.col + k)
    case Vertical => Pos(anchor.row + k, anchor.col)
  }

  function Run(dir: Direction, anchor: Pos, size: nat): (cells: seq<Pos>)
    ensures |cells| == size
    ensures forall k :: 0 <= k < size ==> cells[k] == RunCell(dir, anchor, k)
  {
    seq(size, k => RunCell(dir, anchor, k))
  }

  /** The cells one placement attempt tries for a ship of length `size`. */
  function AttemptRun(d: Draw, n: int, size: nat): seq<Pos>
  {
    Run(DirectionOf(d.direction), AnchorOf(d, n, size), size)
  }

  /** Consecutive cells along one row or along one column. */
  predicate Straight(cells: seq<Pos>)
  {
    |cells| > 0 &&
    ((forall k :: 0 <= k < |cells| ==> cells[k] == Pos(cells[0].row, cells[0].col + k)) ||
     (forall k :: 0 <= k < |cells| ==> cells[k] == Pos(cells[0].row + k, cells[0].col)))
  }

  /** `cells` is where a ship of length `size` may lie on an `n` by `n` board. */
  predicate IsShipRun(cells: seq<Pos>, size: nat, n: nat)
  {
    |cells| == size && Straight(cells) && forall k :: 0 <= k < |cells| ==> Inside(cells[k], n)
  }

  predicate Distinct(cells: seq<Pos>)
  {
    forall a, b :: 0 <= a < b < |cells| ==> cells[a] != cells[b]
  }

  predicate Disjoint(a: seq<Pos>, b: seq<Pos>)
  {
    forall k, l :: 0 <= k < |a| && 0 <= l < |b| ==> a[k] != b[l]
  }

  /**
   * Whatever the three random values, the anchor keeps the whole ship
   * on the board: a horizontal ship gets a row in [0, n) and a column in
   * [0, n - size], a vertical one the other way round.
   */
  lemma AnchorKeepsShipInside(d: Draw, n: nat, size: nat)
    requires IsDraw(d) && 1 <= size <= n
    ensures var a := AnchorOf(d, n, size);
      && (DirectionOf(d.direction) == Horizontal ==> 0 <= a.row < n && 0 <= a.col <= n - size)
      && (DirectionOf(d.direction) == Vertical ==> 0 <= a.row <= n - size && 0 <= a.col < n)
    ensures IsShipRun(AttemptRun(d, n, size), size, n)
  {
    var bounds := AnchorBounds(DirectionOf(d.direction), n, size);
    RandomIndexInRange(d.row, bounds.0);
    RandomIndexInRange(d.col, bounds.1);
  }

  lemma StraightIsDistinct(cells: seq<Pos>)
    requires Straight(cells)
    ensures Distinct(cells)
  {
    if forall k :: 0 <= k < |cells| ==> cells[k] == Pos(cells[0].row, cells[0].col + k) {
      forall a, b | 0 <= a < b < |cells| ensures cells[a] != cells[b] {
        assert cells[a].col == cells[0].col + a && cells[b].col == cells[0].col + b;
      }
    } else {
      forall a, b | 0 <= a < b < |cells| ensures cells[a] != cells[b] {
        assert cells[a].row == cells[0].row + a && cells[b].row == cells[0].row + b;
      }
    }
  }

  predicate AllInBounds(g: Board, cells: seq<Pos>)
  {
    forall k :: 0 <= k < |cells| ==> InBounds(g, cells[k])
  }

  /** Every cell of `cells` is on the board and `" "`. */
  predicate AllBlank(g: Board, cells: seq<Pos>)
  {
    AllInBounds(g, cells) && forall k :: 0 <= k < |cells| ==> At(g, cells[k]) == Blank
  }

  /** The cells of `cells` that still hold ship `i`: the part of the ship not yet hit. */
  function Afloat(g: Board, cells: seq<Pos>, i: nat): (count: nat)
    requires AllInBounds(g, cells)
    ensures count <= |cells|
  {
    if cells == [] then 0
    else (if At(g, cells[0]) == Ship(i) then 1 else 0) + Afloat(g, cells[1..], i)
  }

  /** `cells` painted with `v` one after another, as the placement loop writes them. */
  function Paint(g: Board, cells: seq<Pos>, v: Cell): (h: Board)
    requires AllInBounds(g, cells)
    ensures |h| == |g| && forall r :: 0 <= r < |g| ==> |h[r]| == |g[r]|
    ensures forall q :: InBounds(g, q) ==> At(h, q) == if q in cells then v else At(g, q)
  {
    if cells == [] then g
    else
      var last := cells[|cells| - 1];
      var front := cells[..|cells| - 1];
      assert forall q :: q in cells <==> q in front || q == last;
      Put(Paint(g, front, v), last, v)
  }

  /** Painting one more cell of a run is one `Put` on what the earlier cells left. */
  lemma PaintStep(g: Board, cells: seq<Pos>, k: nat, v: Cell)
    requires AllInBounds(g, cells) && k < |cells|
    ensures InBounds(Paint(g, cells[..k], v), cells[k])
    ensures Paint(g, cells[..k + 1], v) == Put(Paint(g, cells[..k], v), cells[k], v)
  {
    assert cells[..k + 1][..k] == cells[..k];
    assert InBounds(g, cells[k]);
  }

  lemma {:induction false} AfloatAgree(g: Board, h: Board, cells: seq<Pos>, i: nat)
    requires AllInBounds(g, cells) && AllInBounds(h, cells)
    requires forall k :: 0 <= k < |cells| ==> (At(g, cells[k]) == Ship(i)) == (At(h, cells[k]) == Ship(i))
    ensures Afloat(g, cells, i) == Afloat(h, cells, i)
  {
    if cells != [] {
      AfloatAgree(g, h, cells[1..], i);
    }
  }

  /** A hit on a cell of ship `i` that `cells` lists once lowers its afloat count by exactly one. */
  lemma {:induction false} AfloatAfterHit(g: Board, cells: seq<Pos>, i: nat, p: Pos, v: Cell)
    requires AllInBounds(g, cells) && InBounds(g, p)
    requires Distinct(cells) && p in cells
    requires At(g, p) == Ship(i) && v != Ship(i)
    ensures AllInBounds(Put(g, p, v), cells)
    ensures Afloat(Put(g, p, v), cells, i) + 1 == Afloat(g, cells, i)
  {
    var h := Put(g, p, v);
    if cells[0] == p {
      assert p !in cells[1..] by {
        forall k | 0 <= k < |cells[1..]| ensures cells[1..][k] != p {
          assert cells[1..][k] == cells[k + 1];
        }
      }
      AfloatAgree(g, h, cells[1..], i);
    } else {
      assert Distinct(cells[1..]) by {
        forall a, b | 0 <= a < b < |cells[1..]| ensures cells[1..][a] != cells[1..][b] {
          assert cells[1..][a] == cells[a + 1] && cells[1..][b] == cells[b + 1];
        }
      }
      AfloatAfterHit(g, cells[1..], i, p, v);
    }
  }

  lemma {:induction false} AfloatAllHeld(g: Board, cells: seq<Pos>, i: nat)
    requires AllInBounds(g, cells)
    requires forall k :: 0 <= k < |cells| ==> At(g, cells[k]) == Ship(i)
    ensures Afloat(g, cells, i) == |cells|
  {
    if cells != [] {
      AfloatAllHeld(g, cells[1..], i);
    }
  }

  lemma {:induction false} AfloatZero(g: Board, cells: seq<Pos>, i: nat)
    requires AllInBounds(g, cells)
    ensures Afloat(g, cells, i) == 0 <==> forall k :: 0 <= k < |cells| ==> At(g, cells[k]) != Ship(i)
  {
    if cells != [] {
      AfloatZero(g, cells[1..], i);
      assert forall k :: 1 <= k < |cells| ==> cells[k] == cells[1..][k - 1];
    }
  }

  /** The number of ships not yet sunk: `hits[i] < sizes[i]`. */
  function Unsunk(hits: seq<int>, sizes: seq<nat>): (count: nat)
    requires |hits| == |sizes|
    ensures count <= |sizes|
  {
    if sizes == [] then 0
    else (if hits[0] < sizes[0] then 1 else 0) + Unsunk(hits[1..], sizes[1..])
  }

  function Zeros(k: nat): (z: seq<int>)
    ensures |z| == k && forall i :: 0 <= i < k ==> z[i] == 0
  {
    seq(k, _ => 0)
  }

  lemma {:induction false} UnsunkAtStart(sizes: seq<nat>)
    requires forall i :: 0 <= i < |sizes| ==> sizes[i] >= 1
    ensures Unsunk(Zeros(|sizes|), sizes) == |sizes|
  {
    if sizes != [] {
      assert Zeros(|sizes|)[1..] == Zeros(|sizes| - 1);
      UnsunkAtStart(sizes[1..]);
    }
  }

  /** One more hit on an unsunk ship `j` sinks it exactly when the counter reaches its size. */
  lemma {:induction false} UnsunkAfterHit(hits: seq<int>, sizes: seq<nat>, j: nat)
    requires |hits| == |sizes| && j < |sizes| && hits[j] < sizes[j]
    ensures Unsunk(hits[j := hits[j] + 1], sizes) ==
            Unsunk(hits, sizes) - (if hits[j] + 1 == sizes[j] then 1 else 0)
  {
    if j > 0 {
      assert hits[j := hits[j] + 1][1..] == hits[1..][j - 1 := hits[j] + 1];
      UnsunkAfterHit(hits[1..], sizes[1..], j - 1);
    } else {
      assert hits[j := hits[j] + 1][1..] == hits[1..];
    }
  }

  lemma {:induction false} UnsunkZero(hits: seq<int>, sizes: seq<nat>)
    requires |hits| == |sizes|
    ensures Unsunk(hits, sizes) == 0 <==> forall i :: 0 <= i < |sizes| ==> hits[i] >= sizes[i]
  {
    if sizes != [] {
      UnsunkZero(hits[1..], sizes[1..]);
      assert forall i :: 1 <= i < |sizes| ==> hits[i] == hits[1..][i - 1] && sizes[i] == sizes[1..][i - 1];
    }
  }

  predicate SizesFit(sizes: seq<nat>, n: nat)
  {
    forall i :: 0 <= i < |sizes| ==> 1 <= sizes[i] <= n
  }

  /** The placements so far: one straight in-board run per ship, of its size, none sharing a cell. */
  ghost predicate WellPlaced(n: nat, sizes: seq<nat>, placements: seq<seq<Pos>>)
  {
    && |placements| <= |sizes|
    && (forall i :: 0 <= i < |placements| ==> IsShipRun(placements[i], sizes[i], n))
    && (forall i, j :: 0 <= i < j < |placements| ==> Disjoint(placements[i], placements[j]))
  }

  /** Every cell that holds a ship index lies on that ship's recorded run. */
  ghost predicate Owned(n: nat, board: Board, placements: seq<seq<Pos>>)
  {
    && IsSquare(board, n)
    && forall q :: Inside(q, n) && At(board, q).Ship? ==>
         At(board, q).index < |placements| && q in placements[At(board, q).index]
  }

  /** The state while ships are being placed: the runs recorded so far hold exactly their ship. */
  ghost predicate Placing(n: nat, sizes: seq<nat>, board: Board, placements: seq<seq<Pos>>)
  {
    && SizesFit(sizes, n)
    && WellPlaced(n, sizes, placements)
    && Owned(n, board, placements)
    && (forall i, k :: 0 <= i < |placements| && 0 <= k < |placements[i]| ==>
          At(board, placements[i][k]) == Ship(i))
    && (forall q :: Inside(q, n) ==> At(board, q) == Blank || At(board, q).Ship?)
  }

  /**
   * The invariant of a game in play: the board and the runs agree, a
   * ship's cells hold its index until hit and the hit mark after, every
   * placed ship's hit counter plus its cells still afloat is its size,
   * an unplaced ship has no hits, and the remaining-ships counter is the
   * number of unsunk ships.
   */
  ghost predicate Consistent(n: nat, sizes: seq<nat>, board: Board, hits: seq<int>, remaining: int,
                             placements: seq<seq<Pos>>)
  {
    && SizesFit(sizes, n)
    && WellPlaced(n, sizes, placements)
    && Owned(n, board, placements)
    && (forall i, k :: 0 <= i < |placements| && 0 <= k < |placements[i]| ==>
          At(board, placements[i][k]) == Ship(i) || At(board, placements[i][k]) == HitMark)
    && |hits| == |sizes|
    && (forall i :: 0 <= i < |placements| ==> hits[i] + Afloat(board, placements[i], i) == sizes[i])
    && (forall i :: |placements| <= i < |sizes| ==> hits[i] == 0)
    && remaining == Unsunk(hits, sizes)
  }

  /** No hit counter ever leaves [0, size], and the remaining-ships counter stays in [0, ship count]. */
  lemma ConsistentBounds(n: nat, sizes: seq<nat>, board: Board, hits: seq<int>, remaining: int,
                         placements: seq<seq<Pos>>)
    requires Consistent(n, sizes, board, hits, remaining, placements)
    ensures forall i :: 0 <= i < |sizes| ==> 0 <= hits[i] <= sizes[i]
    ensures 0 <= remaining <= |sizes|
  {
  }

  lemma PlacingStart(n: nat, sizes: seq<nat>)
    requires SizesFit(sizes, n)
    ensures Placing(n, sizes, Filled(n, Blank), [])
  {
  }

  /** Every earlier ship's cell holds its index, so none of them lies on a blank run. */
  lemma BlankRunAvoidsPlaced(n: nat, sizes: seq<nat>, board: Board, placements: seq<seq<Pos>>, run: seq<Pos>)
    requires Placing(n, sizes, board, placements)
    requires AllBlank(board, run)
    ensures forall i, k :: 0 <= i < |placements| && 0 <= k < |placements[i]| ==> placements[i][k] !in run
  {
    forall i, k | 0 <= i < |placements| && 0 <= k < |placements[i]| ensures placements[i][k] !in run {
      assert At(board, placements[i][k]) == Ship(i);
    }
  }

  lemma AppendWellPlaced(n: nat, sizes: seq<nat>, placements: seq<seq<Pos>>, run: seq<Pos>)
    requires WellPlaced(n, sizes, placements) && |placements| < |sizes|
    requires IsShipRun(run, sizes[|placements|], n)
    requires forall i, k :: 0 <= i < |placements| && 0 <= k < |placements[i]| ==> placements[i][k] !in run
    ensures WellPlaced(n, sizes, placements + [run])
  {
    var pl' := placements + [run];
    assert forall i :: 0 <= i < |placements| ==> pl'[i] == placements[i];
    forall i, j | 0 <= i < j < |pl'| ensures Disjoint(pl'[i], pl'[j]) {
      if j == |placements| {
        forall k, l | 0 <= k < |pl'[i]| && 0 <= l < |run| ensures pl'[i][k] != run[l] {
          assert placements[i][k] !in run;
        }
      }
    }
  }

  lemma PaintedOwned(n: nat, board: Board, placements: seq<seq<Pos>>, run: seq<Pos>)
    requires Owned(n, board, placements) && AllInBounds(board, run)
    ensures Owned(n, Paint(board, run, Ship(|placements|)), placements + [run])
  {
    var b' := Paint(board, run, Ship(|placements|));
    var pl' := placements + [run];
    forall q | Inside(q, n) && At(b', q).Ship?
      ensures At(b', q).index < |pl'| && q in pl'[At(b', q).index]
    {
      if q !in run {
        assert At(b', q) == At(board, q);
        assert pl'[At(board, q).index] == placements[At(board, q).index];
      }
    }
  }

  lemma PaintedHolds(n: nat, board: Board, placements: seq<seq<Pos>>, run: seq<Pos>)
    requires IsSquare(board, n) && AllInBounds(board, run)
    requires forall i, k :: 0 <= i < |placements| && 0 <= k < |placements[i]| ==>
      Inside(placements[i][k], n) && At(board, placements[i][k]) == Ship(i) && placements[i][k] !in run
    requires forall q :: Inside(q, n) ==> At(board, q) == Blank || At(board, q).Ship?
    ensures IsSquare(Paint(board, run, Ship(|placements|)), n)
    ensures forall i, k :: 0 <= i < |placements| && 0 <= k < |placements[i]| && Inside(placements[i][k], n) ==>
      At(Paint(board, run, Ship(|placements|)), placements[i][k]) == Ship(i)
    ensures forall k :: 0 <= k < |run| ==> At(Paint(board, run, Ship(|placements|)), run[k]) == Ship(|placements|)
    ensures forall q :: Inside(q, n) ==>
      At(Paint(board, run, Ship(|placements|)), q) == Blank || At(Paint(board, run, Ship(|placements|)), q).Ship?
  {
  }

  lemma PaintedPlacing(n: nat, sizes: seq<nat>, board: Board, placements: seq<seq<Pos>>, run: seq<Pos>)
    requires Placing(n, sizes, board, placements) && |placements| < |sizes|
    requires AllBlank(board, run)
    requires forall i, k :: 0 <= i < |placements| && 0 <= k < |placements[i]| ==> placements[i][k] !in run
    requires WellPlaced(n, sizes, placements + [run])
    ensures Placing(n, sizes, Paint(board, run, Ship(|placements|)), placements + [run])
  {
    var idx := |placements|;
    var b' := Paint(board, run, Ship(idx));
    var pl' := placements + [run];
    PaintedOwned(n, board, placements, run);
    PaintedHolds(n, board, placements, run);
    forall i, k | 0 <= i < |pl'| && 0 <= k < |pl'[i]| ensures At(b', pl'[i][k]) == Ship(i) {
      if i < idx {
        assert pl'[i][k] == placements[i][k];
      } else {
        assert pl'[i][k] == run[k];
      }
    }
  }

  /** A run of blank cells painted with the next ship's index keeps the placement invariant. */
  lemma PlaceShipPreserves(n: nat, sizes: seq<nat>, board: Board, placements: seq<seq<Pos>>, run: seq<Pos>)
    requires Placing(n, sizes, board, placements) && |placements| < |sizes|
    requires IsShipRun(run, sizes[|placements|], n)
    requires forall k :: 0 <= k < |run| ==> At(board, run[k]) == Blank
    ensures Placing(n, sizes, Paint(board, run, Ship(|placements|)), placements + [run])
  {
    assert AllBlank(board, run);
    BlankRunAvoidsPlaced(n, sizes, board, placements, run);
    AppendWellPlaced(n, sizes, placements, run);
    PaintedPlacing(n, sizes, board, placements, run);
  }

  /** Once every ship is placed the game starts consistent: no hits, every ship afloat. */
  lemma PlacingIsConsistent(n: nat, sizes: seq<nat>, board: Board, placements: seq<seq<Pos>>)
    requires Placing(n, sizes, board, placements)
    ensures Consistent(n, sizes, board, Zeros(|sizes|), |sizes|, placements)
  {
    forall i | 0 <= i < |placements| ensures Afloat(board, placements[i], i) == sizes[i] {
      AfloatAllHeld(board, placements[i], i);
    }
    UnsunkAtStart(sizes);
  }

  /**
   * The layout the placement retry loop reaches from `board` and
   * `placements` with `draws`: the next ship takes the first draw whose
   * run is blank, each draw before it is a failed attempt that changes
   * nothing, and the later ships go on with the draws after it. Once every
   * ship is placed no further draw is read; when the draws run out the
   * ships placed so far stay.
   */
  function Layout(n: nat, sizes: seq<nat>, board: Board, placements: seq<seq<Pos>>, draws: seq<Draw>)
    : (laid: (Board, seq<seq<Pos>>))
    decreases |draws|
  {
    if |placements| >= |sizes| || draws == [] then (board, placements)
    else
      var run := AttemptRun(draws[0], n, sizes[|placements|]);
      if AllBlank(board, run) then Layout(n, sizes, Paint(board, run, Ship(|placements|)), placements + [run], draws[1..])
      else Layout(n, sizes, board, placements, draws[1..])
  }

  /** The loop only appends: earlier runs stay, at most one ship per draw, and never more ships than sizes. */
  lemma {:induction false} LayoutExtends(n: nat, sizes: seq<nat>, board: Board, placements: seq<seq<Pos>>,
                                         draws: seq<Draw>)
    ensures var laid := Layout(n, sizes, board, placements, draws);
      && |placements| <= |laid.1| && laid.1[..|placements|] == placements
      && |laid.1| <= |placements| + |draws|
      && (|placements| < |sizes| ==> |laid.1| <= |sizes|)
    decreases |draws|
  {
    if |placements| < |sizes| && draws != [] {
      var run := AttemptRun(draws[0], n, sizes[|placements|]);
      if AllBlank(board, run) {
        var pl' := placements + [run];
        LayoutExtends(n, sizes, Paint(board, run, Ship(|placements|)), pl', draws[1..]);
        var laid := Layout(n, sizes, Paint(board, run, Ship(|placements|)), pl', draws[1..]);
        assert laid.1[..|placements|] == laid.1[..|pl'|][..|placements|];
        assert pl'[..|placements|] == placements;
      } else {
        LayoutExtends(n, sizes, board, placements, draws[1..]);
      }
    }
  }

  /** One attempt of the retry loop, with the draws from `k` on. */
  lemma LayoutStep(n: nat, sizes: seq<nat>, board: Board, placements: seq<seq<Pos>>, draws: seq<Draw>, k: nat)
    requires |placements| < |sizes| && k < |draws|
    ensures var run := AttemptRun(draws[k], n, sizes[|placements|]);
      Layout(n, sizes, board, placements, draws[k..]) ==
        if AllBlank(board, run) then Layout(n, sizes, Paint(board, run, Ship(|placements|)), placements + [run], draws[k + 1..])
        else Layout(n, sizes, board, placements, draws[k + 1..])
  {
    assert draws[k..][0] == draws[k];
    assert draws[k..][1..] == draws[k + 1..];
  }

  /** A successful attempt with draw `d`: its run was blank, and the ship now lies on it and is recorded. */
  ghost predicate Wrote(n: nat, sizes: seq<nat>, board: Board, placements: seq<seq<Pos>>, d: Draw,
                        board': Board, placements': seq<seq<Pos>>)
    requires |placements| < |sizes|
  {
    var run := AttemptRun(d, n, sizes[|placements|]);
    && AllBlank(board, run)
    && placements' == placements + [run]
    && board' == Paint(board, run, Ship(|placements|))
  }

  /** Attempts whose runs are not blank change nothing: the layout goes on with the draws after them. */
  lemma {:induction false} LayoutSkipsFailures(n: nat, sizes: seq<nat>, board: Board, placements: seq<seq<Pos>>,
                                               draws: seq<Draw>, start: nat, j: nat)
    requires |placements| < |sizes| && start <= j <= |draws|
    requires forall k :: start <= k < j ==> !AllBlank(board, AttemptRun(draws[k], n, sizes[|placements|]))
    ensures Layout(n, sizes, board, placements, draws[start..]) == Layout(n, sizes, board, placements, draws[j..])
    decreases j - start
  {
    if start < j {
      LayoutStep(n, sizes, board, placements, draws, start);
      LayoutSkipsFailures(n, sizes, board, placements, draws, start + 1, j);
    }
  }

  /**
   * The retry loop for one ship, from draw `start` to draw `next`: every
   * attempt but the last failed, and the last wrote the ship when `placed`.
   * The rest of the layout is then up to the draws from `next` on.
   */
  lemma LayoutAfterShip(n: nat, sizes: seq<nat>, board: Board, placements: seq<seq<Pos>>, draws: seq<Draw>,
                        start: nat, next: nat, placed: bool, board': Board, placements': seq<seq<Pos>>)
    requires |placements| < |sizes| && start <= next <= |draws|
    requires forall k :: start <= k < next - (if placed then 1 else 0) ==>
      !AllBlank(board, AttemptRun(draws[k], n, sizes[|placements|]))
    requires placed ==> start < next && Wrote(n, sizes, board, placements, draws[next - 1], board', placements')
    requires !placed ==> next == |draws| && board' == board && placements' == placements
    ensures Layout(n, sizes, board, placements, draws[start..]) == Layout(n, sizes, board', placements', draws[next..])
  {
    if placed {
      LayoutSkipsFailures(n, sizes, board, placements, draws, start, next - 1);
      LayoutStep(n, sizes, board, placements, draws, next - 1);
    } else {
      LayoutSkipsFailures(n, sizes, board, placements, draws, start, next);
    }
  }

  /** The retry loop keeps the placement invariant, whatever the draws. */
  lemma {:induction false} LayoutKeepsPlacing(n: nat, sizes: seq<nat>, board: Board, placements: seq<seq<Pos>>,
                                              draws: seq<Draw>)
    requires Placing(n, sizes, board, placements)
    requires forall k :: 0 <= k < |draws| ==> IsDraw(draws[k])
    ensures Placing(n, sizes, Layout(n, sizes, board, placements, draws).0, Layout(n, sizes, board, placements, draws).1)
    decreases |draws|
  {
    if |placements| < |sizes| && draws != [] {
      var size := sizes[|placements|];
      var run := AttemptRun(draws[0], n, size);
      AnchorKeepsShipInside(draws[0], n, size);
      if AllBlank(board, run) {
        PlaceShipPreserves(n, sizes, board, placements, run);
        LayoutKeepsPlacing(n, sizes, Paint(board, run, Ship(|placements|)), placements + [run], draws[1..]);
      } else {
        LayoutKeepsPlacing(n, sizes, board, placements, draws[1..]);
      }
    }
  }

  /** Drawing in two batches is drawing once: the loop goes on where the first batch left it. */
  lemma {:induction false} LayoutResumes(n: nat, sizes: seq<nat>, board: Board, placements: seq<seq<Pos>>,
                                         d: seq<Draw>, e: seq<Draw>)
    ensures var mid := Layout(n, sizes, board, placements, d);
      Layout(n, sizes, board, placements, d + e) == Layout(n, sizes, mid.0, mid.1, e)
    decreases |d|
  {
    if |placements| < |sizes| && d != [] {
      assert (d + e)[0] == d[0];
      assert (d + e)[1..] == d[1..] + e;
      var run := AttemptRun(d[0], n, sizes[|placements|]);
      if AllBlank(board, run) {
        LayoutResumes(n, sizes, Paint(board, run, Ship(|placements|)), placements + [run], d[1..], e);
      } else {
        LayoutResumes(n, sizes, board, placements, d[1..], e);
      }
    } else if d == [] {
      assert d + e == e;
    }
  }

  /** On the blank board the first attempt always succeeds: the first ship lies on the first draw's run. */
  lemma FirstDrawPlacesFirstShip(n: nat, sizes: seq<nat>, draws: seq<Draw>)
    requires SizesFit(sizes, n) && |sizes| > 0
    requires |draws| > 0 && IsDraw(draws[0])
    ensures var laid := Layout(n, sizes, Filled(n, Blank), [], draws);
      |laid.1| >= 1 && laid.1[0] == AttemptRun(draws[0], n, sizes[0])
  {
    var blank := Filled(n, Blank);
    var run := AttemptRun(draws[0], n, sizes[0]);
    AnchorKeepsShipInside(draws[0], n, sizes[0]);
    assert AllBlank(blank, run) by {
      forall k | 0 <= k < |run| ensures InBounds(blank, run[k]) && At(blank, run[k]) == Blank {
        assert Inside(run[k], n);
      }
    }
    var empty: seq<seq<Pos>> := [];
    LayoutStep(n, sizes, blank, empty, draws, 0);
    assert draws[0..] == draws && empty + [run] == [run];
    var laid := Layout(n, sizes, Paint(blank, run, Ship(0)), [run], draws[1..]);
    assert Layout(n, sizes, blank, empty, draws) == laid;
    LayoutExtends(n, sizes, Paint(blank, run, Ship(0)), [run], draws[1..]);
    assert laid.1[..1] == [run];
  }

  /** Once no draw can lay the next ship on the board, the loop places no further ship, whatever the draws. */
  lemma {:induction false} LayoutStuck(n: nat, sizes: seq<nat>, board: Board, placements: seq<seq<Pos>>,
                                       draws: seq<Draw>)
    requires |placements| < |sizes|
    requires forall d :: IsDraw(d) ==> !AllBlank(board, AttemptRun(d, n, sizes[|placements|]))
    requires forall k :: 0 <= k < |draws| ==> IsDraw(draws[k])
    ensures Layout(n, sizes, board, placements, draws) == (board, placements)
    decreases |draws|
  {
    if draws != [] {
      assert IsDraw(draws[0]);
      LayoutStuck(n, sizes, board, placements, draws[1..]);
    }
  }

  /**
   * Four draws on the 5 by 5 board that lay ships 0 to 3 on (4,0)-(4,1),
   * (1,4)-(3,4), (2,1)-(2,3) and (0,0)-(0,3): every row and every column
   * then holds a ship cell, so the size-5 ship has no room.
   */
  function BlockingDraws(): seq<Draw>
  {
    [Draw(0.0, 0.8, 0.0), Draw(0.5, 0.5, 0.8), Draw(0.0, 0.4, 0.5), Draw(0.0, 0.0, 0.0)]
  }

  /** Where each blocking draw puts its ship. */
  lemma BlockingRuns(draws: seq<Draw>)
    requires draws == BlockingDraws()
    ensures AttemptRun(draws[0], 5, ShipSizes[0]) == [Pos(4, 0), Pos(4, 1)]
    ensures AttemptRun(draws[1], 5, ShipSizes[1]) == [Pos(1, 4), Pos(2, 4), Pos(3, 4)]
    ensures AttemptRun(draws[2], 5, ShipSizes[2]) == [Pos(2, 1), Pos(2, 2), Pos(2, 3)]
    ensures AttemptRun(draws[3], 5, ShipSizes[3]) == [Pos(0, 0), Pos(0, 1), Pos(0, 2), Pos(0, 3)]
  {
    assert AnchorOf(draws[0], 5, 2) == Pos(4, 0);
    assert AnchorOf(draws[1], 5, 3) == Pos(1, 4);
    assert AnchorOf(draws[2], 5, 3) == Pos(2, 1);
    assert AnchorOf(draws[3], 5, 4) == Pos(0, 0);
  }

  /** Painting `run` keeps blank a blank run that shares no cell with it. */
  lemma PaintKeepsBlank(g: Board, run: seq<Pos>, v: Cell, other: seq<Pos>)
    requires AllInBounds(g, run) && AllBlank(g, other) && Disjoint(run, other)
    ensures AllBlank(Paint(g, run, v), other)
  {
    forall k | 0 <= k < |other| ensures other[k] !in run {
      assert forall l :: 0 <= l < |run| ==> run[l] != other[k];
    }
  }

  /** Every cell of `cells` is on the board and holds something other than `" "`. */
  predicate Taken(g: Board, cells: seq<Pos>)
  {
    AllInBounds(g, cells) && forall k :: 0 <= k < |cells| ==> At(g, cells[k]) != Blank
  }

  /** A board with a ship cell in every one of the first five rows and columns, as the blocking draws leave it. */
  ghost predicate Blocked(b: Board)
  {
    && TakenAt(b, Pos(0, 0)) && TakenAt(b, Pos(0, 1)) && TakenAt(b, Pos(0, 2)) && TakenAt(b, Pos(0, 3))
    && TakenAt(b, Pos(1, 4)) && TakenAt(b, Pos(2, 1)) && TakenAt(b, Pos(3, 4)) && TakenAt(b, Pos(4, 0))
  }

  predicate TakenAt(g: Board, p: Pos)
  {
    InBounds(g, p) && At(g, p) != Blank
  }

  /** Painting a ship keeps taken cells taken and takes the cells it paints. */
  lemma PaintKeepsTaken(g: Board, run: seq<Pos>, i: nat, cells: seq<Pos>)
    requires AllInBounds(g, run) && (Taken(g, cells) || cells == run)
    ensures Taken(Paint(g, run, Ship(i)), cells)
  {
    forall k | 0 <= k < |cells| ensures InBounds(g, cells[k]) {
      if cells == run {
        assert InBounds(g, run[k]);
      }
    }
  }

  /**
   * A draw whose run is blank places the next ship there: the loop goes
   * on from a board on which that run is taken, every taken cell stays
   * taken, and every blank run off the new ship stays blank.
   */
  lemma PlaceNext(n: nat, sizes: seq<nat>, board: Board, placements: seq<seq<Pos>>, draws: seq<Draw>)
    returns (board': Board)
    requires |placements| < |sizes| && draws != []
    requires AllBlank(board, AttemptRun(draws[0], n, sizes[|placements|]))
    ensures var run := AttemptRun(draws[0], n, sizes[|placements|]);
      && Layout(n, sizes, board, placements, draws) == Layout(n, sizes, board', placements + [run], draws[1..])
      && Taken(board', run)
      && (forall cells {:trigger Taken(board', cells)} :: Taken(board, cells) ==> Taken(board', cells))
      && (forall cells {:trigger AllBlank(board', cells)} ::
            AllBlank(board, cells) && Disjoint(run, cells) ==> AllBlank(board', cells))
  {
    var run := AttemptRun(draws[0], n, sizes[|placements|]);
    board' := Paint(board, run, Ship(|placements|));
    PaintKeepsTaken(board, run, |placements|, run);
    forall cells | Taken(board, cells) ensures Taken(board', cells) {
      PaintKeepsTaken(board, run, |placements|, cells);
    }
    forall cells | AllBlank(board, cells) && Disjoint(run, cells) ensures AllBlank(board', cells) {
      PaintKeepsBlank(board, run, Ship(|placements|), cells);
    }
  }

  /** Two draws whose runs are blank and share no cell place the next two ships on those runs. */
  lemma PlaceNextTwo(n: nat, sizes: seq<nat>, board: Board, placements: seq<seq<Pos>>, draws: seq<Draw>,
                     ra: seq<Pos>, rb: seq<Pos>) returns (board': Board)
    requires |placements| + 2 <= |sizes| && |draws| >= 2
    requires ra == AttemptRun(draws[0], n, sizes[|placements|])
    requires rb == AttemptRun(draws[1], n, sizes[|placements| + 1])
    requires AllBlank(board, ra) && AllBlank(board, rb) && Disjoint(ra, rb)
    ensures Layout(n, sizes, board, placements, draws) == Layout(n, sizes, board', placements + [ra, rb], draws[2..])
    ensures Taken(board', ra) && Taken(board', rb)
    ensures forall cells {:trigger Taken(board', cells)} :: Taken(board, cells) ==> Taken(board', cells)
    ensures forall cells {:trigger AllBlank(board', cells)} ::
      AllBlank(board, cells) && Disjoint(ra, cells) && Disjoint(rb, cells) ==> AllBlank(board', cells)
  {
    var mid := PlaceNext(n, sizes, board, placements, draws);
    var rest := draws[1..];
    assert rest[0] == draws[1] && rest[1..] == draws[2..];
    assert |placements + [ra]| == |placements| + 1;
    board' := PlaceNext(n, sizes, mid, placements + [ra], rest);
    assert placements + [ra] + [rb] == placements + [ra, rb];
  }

  /** Four draws whose runs are blank and share no cell lay the first four ships on those runs. */
  lemma FourPlaced(n: nat, sizes: seq<nat>, b0: Board, draws: seq<Draw>,
                   r0: seq<Pos>, r1: seq<Pos>, r2: seq<Pos>, r3: seq<Pos>)
    requires |sizes| == 5 && |draws| == 4
    requires r0 == AttemptRun(draws[0], n, sizes[0]) && r1 == AttemptRun(draws[1], n, sizes[1])
    requires r2 == AttemptRun(draws[2], n, sizes[2]) && r3 == AttemptRun(draws[3], n, sizes[3])
    requires AllBlank(b0, r0) && AllBlank(b0, r1) && AllBlank(b0, r2) && AllBlank(b0, r3)
    requires Disjoint(r0, r1) && Disjoint(r0, r2) && Disjoint(r0, r3)
    requires Disjoint(r1, r2) && Disjoint(r1, r3) && Disjoint(r2, r3)
    ensures var laid := Layout(n, sizes, b0, [], draws);
      && laid.1 == [r0, r1, r2, r3]
      && Taken(laid.0, r0) && Taken(laid.0, r1) && Taken(laid.0, r2) && Taken(laid.0, r3)
  {
    var p0: seq<seq<Pos>> := [];
    var b2 := PlaceNextTwo(n, sizes, b0, p0, draws, r0, r1);
    var rest := draws[2..];
    assert rest[0] == draws[2] && rest[1] == draws[3] && rest[2..] == [];
    assert p0 + [r0, r1] == [r0, r1] && [r0, r1] + [r2, r3] == [r0, r1, r2, r3];
    assert AllBlank(b2, r2) && AllBlank(b2, r3);
    var b4 := PlaceNextTwo(n, sizes, b2, [r0, r1], rest, r2, r3);
    assert Layout(n, sizes, b0, p0, draws) == Layout(n, sizes, b4, [r0, r1, r2, r3], []) == (b4, [r0, r1, r2, r3]);
    assert Taken(b4, r0) && Taken(b4, r1) && Taken(b4, r2) && Taken(b4, r3);
  }

  /** The runs of the four blocking draws lie on a blank 5 by 5 board and share no cell. */
  lemma BlockingRunsFit(b: Board, draws: seq<Draw>)
    requires draws == BlockingDraws()
    requires IsSquare(b, 5) && forall q :: Inside(q, 5) ==> At(b, q) == Blank
    ensures var r0, r1, r2, r3 := AttemptRun(draws[0], 5, ShipSizes[0]), AttemptRun(draws[1], 5, ShipSizes[1]),
                                  AttemptRun(draws[2], 5, ShipSizes[2]), AttemptRun(draws[3], 5, ShipSizes[3]);
      && AllBlank(b, r0) && AllBlank(b, r1) && AllBlank(b, r2) && AllBlank(b, r3)
      && Disjoint(r0, r1) && Disjoint(r0, r2) && Disjoint(r0, r3)
      && Disjoint(r1, r2) && Disjoint(r1, r3) && Disjoint(r2, r3)
  {
    BlockingRuns(draws);
  }

  /** A board on which the runs of the four blocking draws are taken is blocked. */
  lemma BlockedByRuns(b: Board, draws: seq<Draw>)
    requires draws == BlockingDraws()
    requires Taken(b, AttemptRun(draws[0], 5, ShipSizes[0])) && Taken(b, AttemptRun(draws[1], 5, ShipSizes[1]))
    requires Taken(b, AttemptRun(draws[2], 5, ShipSizes[2])) && Taken(b, AttemptRun(draws[3], 5, ShipSizes[3]))
    ensures Blocked(b)
  {
    BlockingRuns(draws);
    var r0, r1, r2, r3 := AttemptRun(draws[0], 5, 2), AttemptRun(draws[1], 5, 3),
                          AttemptRun(draws[2], 5, 3), AttemptRun(draws[3], 5, 4);
    assert TakenAt(b, r3[0]) && TakenAt(b, r3[1]) && TakenAt(b, r3[2]) && TakenAt(b, r3[3]);
    assert TakenAt(b, r1[0]) && TakenAt(b, r2[0]) && TakenAt(b, r1[2]) && TakenAt(b, r0[0]);
  }

  /** Four ships laid by the four blocking draws, leaving a blocked board. */
  lemma BlockingBoard(draws: seq<Draw>)
    requires draws == BlockingDraws()
    ensures var laid := Layout(5, ShipSizes, Filled(5, Blank), [], draws);
      |laid.1| == 4 && Blocked(laid.0)
  {
    var r0, r1, r2, r3 := AttemptRun(draws[0], 5, ShipSizes[0]), AttemptRun(draws[1], 5, ShipSizes[1]),
                          AttemptRun(draws[2], 5, ShipSizes[2]), AttemptRun(draws[3], 5, ShipSizes[3]);
    BlockingRunsFit(Filled(5, Blank), draws);
    FourPlaced(5, ShipSizes, Filled(5, Blank), draws, r0, r1, r2, r3);
    BlockedByRuns(Layout(5, ShipSizes, Filled(5, Blank), [], draws).0, draws);
  }

  /** On a blocked board no draw gives the size-5 ship a blank run: each row and each column holds a ship cell. */
  lemma NoRoomOnBlocked(b: Board)
    requires Blocked(b)
    ensures forall d :: IsDraw(d) ==> !AllBlank(b, AttemptRun(d, 5, ShipSizes[4]))
  {
    forall d | IsDraw(d) ensures !AllBlank(b, AttemptRun(d, 5, 5)) {
      var run := AttemptRun(d, 5, 5);
      AnchorKeepsShipInside(d, 5, 5);
      var a := AnchorOf(d, 5, 5);
      if DirectionOf(d.direction) == Horizontal {
        // the run is the whole row a.row
        var k := if a.row == 1 || a.row == 3 then 4 else if a.row == 2 then 1 else 0;
        assert run[k] == Pos(a.row, k) && TakenAt(b, run[k]);
      } else {
        // the run is the whole column a.col, which holds a ship cell in row 0 or row 1
        var k := if a.col == 4 then 1 else 0;
        assert run[k] == Pos(k, a.col) && TakenAt(b, run[k]);
      }
    }
  }

  /**
   * Placement need not finish on a board of 5 cells a side: after the
   * four blocking draws no further draws, however many, place the
   * size-5 ship, so the fleet stays at four ships.
   */
  lemma FiveByFiveCanStall(e: seq<Draw>)
    requires forall k :: 0 <= k < |e| ==> IsDraw(e[k])
    ensures |Layout(5, ShipSizes, Filled(5, Blank), [], BlockingDraws() + e).1| == 4
  {
    var mid := Layout(5, ShipSizes, Filled(5, Blank), [], BlockingDraws());
    BlockingBoard(BlockingDraws());
    NoRoomOnBlocked(mid.0);
    LayoutResumes(5, ShipSizes, Filled(5, Blank), [], BlockingDraws(), e);
    LayoutStuck(5, ShipSizes, mid.0, mid.1, e);
  }

  /** After a hit on ship `j`'s cell, every placed ship's counter plus its unhit cells is still its size. */
  lemma HitKeepsCounts(n: nat, sizes: seq<nat>, board: Board, hits: seq<int>, remaining: int,
                       placements: seq<seq<Pos>>, p: Pos, j: nat)
    requires Consistent(n, sizes, board, hits, remaining, placements)
    requires Inside(p, n) && At(board, p) == Ship(j)
    ensures j < |placements| && j < |hits|
    ensures forall i :: 0 <= i < |placements| ==>
      && AllInBounds(Put(board, p, HitMark), placements[i])
      && hits[j := hits[j] + 1][i] + Afloat(Put(board, p, HitMark), placements[i], i) == sizes[i]
  {
    var b' := Put(board, p, HitMark);
    var hits' := hits[j := hits[j] + 1];
    assert j < |placements| && p in placements[j];
    StraightIsDistinct(placements[j]);
    forall i | 0 <= i < |placements|
      ensures AllInBounds(b', placements[i])
      ensures hits'[i] + Afloat(b', placements[i], i) == sizes[i]
    {
      if i == j {
        AfloatAfterHit(board, placements[j], j, p, HitMark);
      } else {
        AfloatAgree(board, b', placements[i], i);
      }
    }
  }

  /** A hit on ship `j`'s cell: its counter rises by one, and it sinks when the counter reaches its size. */
  lemma HitShipPreserves(n: nat, sizes: seq<nat>, board: Board, hits: seq<int>, remaining: int,
                         placements: seq<seq<Pos>>, p: Pos, j: nat)
    requires Consistent(n, sizes, board, hits, remaining, placements)
    requires Inside(p, n) && At(board, p) == Ship(j)
    ensures j < |sizes| && hits[j] < sizes[j]
    ensures Consistent(n, sizes, Put(board, p, HitMark), hits[j := hits[j] + 1],
                       remaining - (if hits[j] + 1 == sizes[j] then 1 else 0), placements)
  {
    var b' := Put(board, p, HitMark);
    HitKeepsCounts(n, sizes, board, hits, remaining, placements, p, j);
    forall i, k | 0 <= i < |placements| && 0 <= k < |placements[i]|
      ensures At(b', placements[i][k]) == Ship(i) || At(b', placements[i][k]) == HitMark
    {
      assert Inside(placements[i][k], n);
    }
    forall q | Inside(q, n) && At(b', q).Ship?
      ensures At(b', q).index < |placements| && q in placements[At(b', q).index]
    {
      assert At(b', q) == At(board, q);
    }
    UnsunkAfterHit(hits, sizes, j);
  }

  /** A hit on an `"X"` or `"O"` cell only writes `"X"`: no counter moves. */
  lemma HitMarkPreserves(n: nat, sizes: seq<nat>, board: Board, hits: seq<int>, remaining: int,
                         placements: seq<seq<Pos>>, p: Pos)
    requires Consistent(n, sizes, board, hits, remaining, placements)
    requires Inside(p, n) && (At(board, p) == HitMark || At(board, p) == MissMark)
    ensures Consistent(n, sizes, Put(board, p, HitMark), hits, remaining, placements)
  {
    var b' := Put(board, p, HitMark);
    forall i | 0 <= i < |placements| ensures Afloat(b', placements[i], i) == Afloat(board, placements[i], i) {
      AfloatAgree(board, b', placements[i], i);
    }
    forall q | Inside(q, n) && At(b', q).Ship?
      ensures At(b', q).index < |placements| && q in placements[At(b', q).index]
    {
      assert At(b', q) == At(board, q);
    }
  }

  /** A miss on a blank cell only writes `"O"`; the cell is on no ship's run. */
  lemma MissPreserves(n: nat, sizes: seq<nat>, board: Board, hits: seq<int>, remaining: int,
                      placements: seq<seq<Pos>>, p: Pos)
    requires Consistent(n, sizes, board, hits, remaining, placements)
    requires Inside(p, n) && At(board, p) == Blank
    ensures forall i, k :: 0 <= i < |placements| && 0 <= k < |placements[i]| ==> placements[i][k] != p
    ensures Consistent(n, sizes, Put(board, p, MissMark), hits, remaining, placements)
  {
    var b' := Put(board, p, MissMark);
    forall i | 0 <= i < |placements| ensures Afloat(b', placements[i], i) == Afloat(board, placements[i], i) {
      AfloatAgree(board, b', placements[i], i);
    }
    forall q | Inside(q, n) && At(b', q).Ship?
      ensures At(b', q).index < |placements| && q in placements[At(b', q).index]
    {
      assert At(b', q) == At(board, q);
    }
  }

  /**
   * The effect of striking cell `p` with a new guess: a ship cell turns
   * into `"X"` and its ship's counter rises by one, the ship sinking (and
   * the remaining-ships counter dropping) when the counter reaches its
   * size; an `"X"` or `"O"` cell turns into `"X"` and no counter moves; a
   * blank cell turns into `"O"`.
   */
  ghost predicate Struck(sizes: seq<nat>, board: Board, hits: seq<int>, remaining: int, p: Pos,
                         board': Board, hits': seq<int>, remaining': int, outcome: Outcome)
    requires InBounds(board, p) && |hits| == |sizes|
  {
    match At(board, p)
    case Ship(j) =>
      && j < |sizes|
      && board' == Put(board, p, HitMark)
      && hits' == hits[j := hits[j] + 1]
      && (outcome == Hit || outcome == Sunk)
      && (outcome == Sunk <==> hits[j] + 1 == sizes[j])
      && remaining' == remaining - (if outcome == Sunk then 1 else 0)
    case Blank =>
      board' == Put(board, p, MissMark) && hits' == hits && remaining' == remaining && outcome == Miss
    case _ =>
      board' == Put(board, p, HitMark) && hits' == hits && remaining' == remaining && outcome == Hit
  }

  /** A ship cell of the board belongs to a placed ship that is not yet sunk. */
  lemma HitShipBounded(n: nat, sizes: seq<nat>, board: Board, hits: seq<int>, remaining: int,
                       placements: seq<seq<Pos>>, p: Pos, j: nat)
    requires Consistent(n, sizes, board, hits, remaining, placements)
    requires Inside(p, n) && At(board, p) == Ship(j)
    ensures j < |placements| && hits[j] < sizes[j]
  {
    StraightIsDistinct(placements[j]);
    AfloatAfterHit(board, placements[j], j, p, HitMark);
  }

  /** Striking a cell of a consistent game leaves it consistent. */
  lemma StrikeKeepsConsistent(n: nat, sizes: seq<nat>, board: Board, hits: seq<int>, remaining: int,
                              placements: seq<seq<Pos>>, p: Pos,
                              board': Board, hits': seq<int>, remaining': int, outcome: Outcome)
    requires Consistent(n, sizes, board, hits, remaining, placements) && Inside(p, n)
    requires Struck(sizes, board, hits, remaining, p, board', hits', remaining', outcome)
    ensures Consistent(n, sizes, board', hits', remaining', placements)
  {
    match At(board, p)
    case Ship(j) =>
      HitShipPreserves(n, sizes, board, hits, remaining, placements, p, j);
    case Blank =>
      MissPreserves(n, sizes, board, hits, remaining, placements, p);
    case HitMark =>
      HitMarkPreserves(n, sizes, board, hits, remaining, placements, p);
    case MissMark =>
      HitMarkPreserves(n, sizes, board, hits, remaining, placements, p);
  }

  /**
   * With every ship placed, the game is won (no ships remain) exactly
   * when no cell of the board still holds a ship index.
   */
  lemma WonIffNoShipCellLeft(n: nat, sizes: seq<nat>, board: Board, hits: seq<int>, remaining: int,
                             placements: seq<seq<Pos>>)
    requires Consistent(n, sizes, board, hits, remaining, placements)
    requires |placements| == |sizes|
    ensures remaining == 0 <==> forall q :: Inside(q, n) ==> !At(board, q).Ship?
  {
    UnsunkZero(hits, sizes);
    forall i | 0 <= i < |placements| {
      AfloatZero(board, placements[i], i);
    }
    if remaining == 0 {
      forall q | Inside(q, n) ensures !At(board, q).Ship? {
      }
    } else {
      var i :| 0 <= i < |sizes| && hits[i] < sizes[i];
      assert Afloat(board, placements[i], i) > 0;
      var k :| 0 <= k < |placements[i]| && At(board, placements[i][k]) == Ship(i);
      assert Inside(placements[i][k], n);
    }
  }

  /** What a guess string names: the `charCodeAt(0) - 65` row and the `parseInt(rest) - 1` column. */
  function ParseGuess(input: string): Option<Pos>
  {
    if |input| < 2 || |input| > 3 then None
    else
      match ParseInt(input[1..])
      case None => None
      case Some(v) => Some(Pos(CharCode(input[0]) - 65, v - 1))
  }

  /** `isValidInput`: the guess has two or three characters and names a cell of the board. */
  function IsValidInput(input: string, n: nat): (valid: bool)
    ensures valid <==>
      && 2 <= |input| <= 3
      && 0 <= CharCode(input[0]) - 65 < n
      && ParseInt(input[1..]).Some?
      && 0 <= ParseInt(input[1..]).value - 1 < n
  {
    ParseGuess(input).Some? && Inside(ParseGuess(input).value, n)
  }

  /** The cell a valid guess strikes. */
  function GuessTarget(input: string, n: nat): (p: Pos)
    requires IsValidInput(input, n)
    ensures Inside(p, n)
    ensures p.row == CharCode(input[0]) - 65 && p.col == ParseInt(input[1..]).value - 1
  {
    ParseGuess(input).value
  }

  /** The label the board shows for a cell: a row letter and a 1-based column number. */
  function Label(p: Pos): string
    requires 0 <= p.row < 26 && p.col >= 0
  {
    [(65 + p.row) as char] + Decimal(p.col + 1)
  }

  /** Every cell of a board of up to 26 rows has a label the validator accepts and reads back. */
  lemma LabelRoundTrip(p: Pos, n: nat)
    requires n <= 26 && Inside(p, n)
    ensures IsValidInput(Label(p), n)
    ensures GuessTarget(Label(p), n) == p
  {
    var s := Label(p);
    var digits := Decimal(p.col + 1);
    assert 1 <= |digits| <= 2;
    assert s[1..] == digits + [];
    ParseDecimal(p.col + 1, []);
    assert CharCode(s[0]) - 65 == p.row;
    assert ParseGuess(s) == Some(p);
  }

  lemma {:induction false} StrikesFirstCell(s: string, n: nat)
    requires n >= 1 && 2 <= |s| <= 3 && s[0] == 'A' && ParseInt(s[1..]) == Some(1)
    ensures IsValidInput(s, n) && GuessTarget(s, n) == Pos(0, 0)
  {
  }

  /** "A1", "A01", "A1X" and "A 1" are four different strings that all strike the first cell. */
  lemma SpellingsOfOneCell(n: nat)
    requires n >= 1
    ensures IsValidInput("A1", n) && GuessTarget("A1", n) == Pos(0, 0)
    ensures IsValidInput("A01", n) && GuessTarget("A01", n) == Pos(0, 0)
    ensures IsValidInput("A1X", n) && GuessTarget("A1X", n) == Pos(0, 0)
    ensures IsValidInput("A 1", n) && GuessTarget("A 1", n) == Pos(0, 0)
  {
    assert "A1"[1..] == Decimal(1) + [];
    ParseDecimal(1, []);
    StrikesFirstCell("A1", n);
    assert "A01"[1..] == ['0', '1'];
    ParseLeadingZero('1');
    StrikesFirstCell("A01", n);
    assert "A1X"[1..] == ['1', 'X'];
    ParseTrailingText('1', 'X');
    StrikesFirstCell("A1X", n);
    assert "A 1"[1..] == [' ', '1'];
    ParseLeadingBlank(' ', '1');
    StrikesFirstCell("A 1", n);
  }

  /** On a ten by ten board the four corner labels "A1", "J1", "A10" and "J10" are accepted. */
  lemma TenByTenCorners()
    ensures IsValidInput("A1", 10) && IsValidInput("J10", 10) && IsValidInput("J1", 10) && IsValidInput("A10", 10)
  {
    LabelRoundTrip(Pos(0, 0), 10);
    assert Label(Pos(0, 0)) == "A1";
    LabelRoundTrip(Pos(9, 9), 10);
    assert Label(Pos(9, 9)) == "J10";
    LabelRoundTrip(Pos(9, 0), 10);
    assert Label(Pos(9, 0)) == "J1";
    LabelRoundTrip(Pos(0, 9), 10);
    assert Label(Pos(0, 9)) == "A10";
  }

  /** On a ten by ten board "K1", "A0", "A11" and "A100" name cells off the board and are rejected. */
  lemma TenByTenOutside()
    ensures !IsValidInput("K1", 10) && !IsValidInput("A0", 10) && !IsValidInput("A11", 10) && !IsValidInput("A100", 10)
  {
    assert "A0"[1..] == Decimal(0) + [];
    ParseDecimal(0, []);
    assert "A11"[1..] == Decimal(11) + [];
    ParseDecimal(11, []);
  }

  /** Guesses that do not read as a letter and a number, "1A", "AA" and "", are rejected. */
  lemma TenByTenMalformed()
    ensures !IsValidInput("1A", 10) && !IsValidInput("AA", 10) && !IsValidInput("", 10)
  {
    assert "AA"[1..] == "A";
    ParseNoDigit('A');
  }

  /** What the board shows for a cell: only `"X"` and `"O"` are drawn, never a ship index. */
  function Shown(c: Cell): (s: char)
    ensures s == 'X' <==> c == HitMark
    ensures s == 'O' <==> c == MissMark
    ensures s != 'X' && s != 'O' ==> s == ' '
  {
    if c == HitMark then 'X' else if c == MissMark then 'O' else ' '
  }

  /** A cell hiding a ship looks exactly like an empty one. */
  lemma ShipsAreHidden(i: nat)
    ensures Shown(Ship(i)) == Shown(Blank)
  {
  }
}
