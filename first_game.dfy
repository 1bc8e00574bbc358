/**
 * The first revision's `BattleshipGame`: `shipCount` one-cell ships on
 * a board of booleans, two-character guesses whose letter picks the
 * column and whose digit picks the row, and a remaining-ships counter
 * that each new guess on a ship cell lowers by one. Each `Math.random()`
 * value the source draws is supplied by the caller.
 */
module FirstGame {
  import opened JsText
  import opened Grid

  /** `true` marks a ship. */
  type Board = seq<seq<bool>>

  /** What one guess reports: the source's four messages. */
  datatype Outcome = Invalid | AlreadyTried | Hit | Miss

  function CountRow(row: seq<bool>): (k: nat)
    ensures k <= |row|
  {
    if row == [] then 0 else (if row[0] then 1 else 0) + CountRow(row[1..])
  }

  /** The number of ship cells on the board. */
  function CountMarked(g: Board): nat
  {
    if g == [] then 0 else CountRow(g[0]) + CountMarked(g[1..])
  }

  lemma {:induction false} CountRowFlip(row: seq<bool>, c: int)
    requires 0 <= c < |row| && !row[c]
    ensures CountRow(row[c := true]) == CountRow(row) + 1
  {
    if c > 0 {
      assert row[c := true][1..] == row[1..][c - 1 := true];
      CountRowFlip(row[1..], c - 1);
    } else {
      assert row[c := true][1..] == row[1..];
    }
  }

  /** Turning one `false` cell into `true` adds exactly one ship cell. */
  lemma {:induction false} CountMarkedFlip(g: Board, p: Pos)
    requires InBounds(g, p) && !At(g, p)
    ensures CountMarked(Put(g, p, true)) == CountMarked(g) + 1
  {
    var h := Put(g, p, true);
    if p.row == 0 {
      assert h[0] == g[0][p.col := true];
      assert h[1..] == g[1..];
      CountRowFlip(g[0], p.col);
    } else {
      var p' := Pos(p.row - 1, p.col);
      assert h[0] == g[0];
      assert h[1..] == Put(g[1..], p', true);
      CountMarkedFlip(g[1..], p');
    }
  }

  lemma {:induction false} CountMarkedAtMost(g: Board, m: nat)
    requires forall r :: 0 <= r < |g| ==> |g[r]| <= m
    ensures CountMarked(g) <= |g| * m
  {
    if g != [] {
      CountMarkedAtMost(g[1..], m);
      assert |g| * m == m + (|g| - 1) * m;
    }
  }

  /** An `n` by `n` board has room for at most `n * n` ships. */
  lemma CountMarkedBound(g: Board, n: nat)
    requires IsSquare(g, n)
    ensures CountMarked(g) <= n * n
  {
    CountMarkedAtMost(g, n);
  }

  lemma {:induction false} CountRowNone(row: seq<bool>)
    requires forall c :: 0 <= c < |row| ==> !row[c]
    ensures CountRow(row) == 0
  {
    if row != [] {
      CountRowNone(row[1..]);
    }
  }

  lemma {:induction false} CountMarkedNone(g: Board)
    requires forall r, c :: 0 <= r < |g| && 0 <= c < |g[r]| ==> !g[r][c]
    ensures CountMarked(g) == 0
  {
    if g != [] {
      CountRowNone(g[0]);
      CountMarkedNone(g[1..]);
    }
  }

  /** `initializeBoard` yields a board with no ship on it. */
  lemma EmptyBoardHasNoShips(n: nat)
    ensures CountMarked(Filled(n, false)) == 0
  {
    var g := Filled(n, false);
    forall r, c | 0 <= r < |g| && 0 <= c < |g[r]| ensures !g[r][c] {
      assert At(g, Pos(r, c)) == false;
    }
    CountMarkedNone(g);
  }

  /**
   * `isValidInput`: exactly two characters, a letter naming one of the
   * first `n` columns, and a second character that `Number` reads as a
   * value in 1..n. A blank reads as 0 and anything else as NaN, so the
   * second character must be a digit from 1 to n.
   */
  function IsValidInput(input: string, n: nat): (valid: bool)
    ensures valid <==>
      && |input| == 2
      && 0 <= CharCode(input[0]) - 65 < n
      && IsDigit(input[1]) && 1 <= DigitValue(input[1]) <= n
  {
    && |input| == 2
    && CharCode(input[0]) - 65 < n && CharCode(input[0]) - 65 >= 0
    && match CharToNumber(input[1])
       case Some(v) => v <= n && v > 0
       case None => false
  }

  /** The cell a valid guess names: the letter gives the column, the digit the row. */
  function TargetOf(input: string, n: nat): (p: Pos)
    requires IsValidInput(input, n)
    ensures Inside(p, n)
  {
    Pos(DigitValue(input[1]) - 1, CharCode(input[0]) - 65)
  }

  /** `parseInt(userGuess.charAt(1))` on a valid guess is the digit's value. */
  lemma ParseRowDigit(input: string, n: nat)
    requires IsValidInput(input, n)
    ensures ParseInt(input[1..2]) == Some(DigitValue(input[1]))
  {
    var d := input[1];
    assert Decimal(DigitValue(d)) == [d];
    assert input[1..2] == Decimal(DigitValue(d)) + [];
    ParseDecimal(DigitValue(d), []);
  }

  /** Two valid guesses that strike the same cell are the same string: each cell has one key. */
  lemma TargetInjective(g1: string, g2: string, n: nat)
    requires IsValidInput(g1, n) && IsValidInput(g2, n)
    requires TargetOf(g1, n) == TargetOf(g2, n)
    ensures g1 == g2
  {
    assert g1[0] == g2[0] && g1[1] == g2[1];
    assert forall k :: 0 <= k < 2 ==> g1[k] == g2[k];
  }

  /** On the three by three board the source builds, "A1" to "C3" pass and the rest do not. */
  lemma ThreeByThreeBoundary()
    ensures IsValidInput("A1", 3) && IsValidInput("C3", 3) && IsValidInput("B2", 3)
    ensures !IsValidInput("D1", 3) && !IsValidInput("A4", 3) && !IsValidInput("A0", 3)
    ensures !IsValidInput("A ", 3) && !IsValidInput("AA", 3) && !IsValidInput("1A", 3)
    ensures !IsValidInput("A10", 3) && !IsValidInput("A", 3) && !IsValidInput("", 3)
    ensures TargetOf("C1", 3) == Pos(0, 2)
  {
  }

  /** The guesses in `history` that struck a ship cell. */
  function HitKeys(board: Board, history: set<string>, n: nat): set<string>
    requires IsSquare(board, n)
  {
    set g | g in history && IsValidInput(g, n) && At(board, TargetOf(g, n))
  }

  function Targets(keys: set<string>, n: nat): set<Pos>
    requires forall g :: g in keys ==> IsValidInput(g, n)
  {
    set g | g in keys :: TargetOf(g, n)
  }

  /** Distinct valid guesses strike distinct cells, so counting keys counts cells. */
  lemma {:induction false} TargetsCount(keys: set<string>, n: nat)
    requires forall g :: g in keys ==> IsValidInput(g, n)
    ensures |Targets(keys, n)| == |keys|
    decreases |keys|
  {
    if keys != {} {
      var x :| x in keys;
      var rest := keys - {x};
      TargetsCount(rest, n);
      assert Targets(keys, n) == Targets(rest, n) + {TargetOf(x, n)};
      if TargetOf(x, n) in Targets(rest, n) {
        var y :| y in rest && TargetOf(y, n) == TargetOf(x, n);
        TargetInjective(x, y, n);
        assert false;
      }
    }
  }

  /**
   * The bookkeeping the game keeps: every guess in the history is
   * valid, and the remaining-ships counter is the ship count less the
   * number of guessed keys that struck a ship.
   */
  ghost predicate Tally(n: nat, shipCount: nat, board: Board, remaining: int, history: set<string>)
  {
    && IsSquare(board, n)
    && (forall g :: g in history ==> IsValidInput(g, n))
    && remaining == shipCount - |HitKeys(board, history, n)|
  }

  /** Hence the counter is the ship count less the number of distinct ship cells guessed. */
  lemma RemainingCountsCells(n: nat, shipCount: nat, board: Board, remaining: int, history: set<string>)
    requires Tally(n, shipCount, board, remaining, history)
    ensures remaining == shipCount - |Targets(HitKeys(board, history, n), n)|
    ensures forall q :: q in Targets(HitKeys(board, history, n), n) ==> Inside(q, n) && At(board, q)
  {
    TargetsCount(HitKeys(board, history, n), n);
  }

  /** A new guess joins the history, and lowers the counter exactly when it strikes a ship. */
  lemma NewGuessTally(n: nat, shipCount: nat, board: Board, remaining: int, history: set<string>, g: string)
    requires Tally(n, shipCount, board, remaining, history)
    requires IsValidInput(g, n) && g !in history
    ensures Tally(n, shipCount, board, remaining - (if At(board, TargetOf(g, n)) then 1 else 0), history + {g})
  {
    var before := HitKeys(board, history, n);
    var after := HitKeys(board, history + {g}, n);
    if At(board, TargetOf(g, n)) {
      assert after == before + {g};
    } else {
      assert after == before;
    }
  }

  predicate AllRandom(draws: seq<(real, real)>)
  {
    forall k :: 0 <= k < |draws| ==> IsRandom(draws[k].0) && IsRandom(draws[k].1)
  }

  /** The cell one pass of `placeShips` picks: a random row, then a random column. */
  function DrawnCell(d: (real, real), n: nat): Pos
  {
    Pos(RandomIndex(d.0, n), RandomIndex(d.1, n))
  }

  /**
   * What `placeShips` leaves on `board` with `left` ships still to add
   * and the draws `draws`: a draw on a free cell puts a ship there, a
   * draw on a ship cell is a wasted pass, and drawing stops once no ship
   * is left. The second component is the number of ships still unplaced
   * when the draws ran out.
   */
  function Scatter(n: nat, board: Board, left: nat, draws: seq<(real, real)>): (r: (Board, nat))
    requires IsSquare(board, n) && (n > 0 || left == 0) && AllRandom(draws)
    ensures IsSquare(r.0, n) && r.1 <= left
    decreases |draws|
  {
    if left == 0 || draws == [] then (board, left)
    else
      var p := DrawnCell(draws[0], n);
      RandomIndexInRange(draws[0].0, n);
      RandomIndexInRange(draws[0].1, n);
      if At(board, p) then Scatter(n, board, left, draws[1..])
      else Scatter(n, Put(board, p, true), left - 1, draws[1..])
  }

  /** Ships are only added: no ship cell is cleared, and the count rises by the ships placed. */
  lemma {:induction false} ScatterAdds(n: nat, board: Board, left: nat, draws: seq<(real, real)>)
    requires IsSquare(board, n) && (n > 0 || left == 0) && AllRandom(draws)
    ensures var r := Scatter(n, board, left, draws);
      && (forall q :: Inside(q, n) && At(board, q) ==> At(r.0, q))
      && CountMarked(r.0) == CountMarked(board) + (left - r.1)
    decreases |draws|
  {
    if left > 0 && draws != [] {
      var p := DrawnCell(draws[0], n);
      RandomIndexInRange(draws[0].0, n);
      RandomIndexInRange(draws[0].1, n);
      if At(board, p) {
        ScatterAdds(n, board, left, draws[1..]);
      } else {
        CountMarkedFlip(board, p);
        ScatterAdds(n, Put(board, p, true), left - 1, draws[1..]);
      }
    }
  }

  /** Every ship cell that was not there before is the cell of one of the draws. */
  lemma {:induction false} ScatterCellsDrawn(n: nat, board: Board, left: nat, draws: seq<(real, real)>, q: Pos)
    requires IsSquare(board, n) && (n > 0 || left == 0) && AllRandom(draws)
    requires Inside(q, n) && At(Scatter(n, board, left, draws).0, q) && !At(board, q)
    ensures exists k :: 0 <= k < |draws| && DrawnCell(draws[k], n) == q
    decreases |draws|
  {
    var p := DrawnCell(draws[0], n);
    RandomIndexInRange(draws[0].0, n);
    RandomIndexInRange(draws[0].1, n);
    if p == q {
      assert DrawnCell(draws[0], n) == q;
    } else {
      var b := if At(board, p) then board else Put(board, p, true);
      ScatterCellsDrawn(n, b, if At(board, p) then left else left - 1, draws[1..], q);
      var k :| 0 <= k < |draws[1..]| && DrawnCell(draws[1..][k], n) == q;
      assert draws[1..][k] == draws[k + 1];
    }
  }

  /** On the empty board the first draw always finds a free cell, and a ship stays there. */
  lemma FirstDrawTakesAShip(n: nat, left: nat, draws: seq<(real, real)>)
    requires n > 0 && left > 0 && |draws| > 0 && AllRandom(draws)
    ensures Inside(DrawnCell(draws[0], n), n)
    ensures At(Scatter(n, Filled(n, false), left, draws).0, DrawnCell(draws[0], n))
  {
    var p := DrawnCell(draws[0], n);
    RandomIndexInRange(draws[0].0, n);
    RandomIndexInRange(draws[0].1, n);
    ScatterAdds(n, Put(Filled(n, false), p, true), left - 1, draws[1..]);
  }

  /** Ships left unplaced means every draw was used and every drawn cell holds a ship. */
  lemma {:induction false} ScatterShortOnlyOnShips(n: nat, board: Board, left: nat, draws: seq<(real, real)>)
    requires IsSquare(board, n) && (n > 0 || left == 0) && AllRandom(draws)
    requires Scatter(n, board, left, draws).1 > 0
    ensures forall k :: 0 <= k < |draws| ==>
      Inside(DrawnCell(draws[k], n), n) && At(Scatter(n, board, left, draws).0, DrawnCell(draws[k], n))
    decreases |draws|
  {
    if draws != [] {
      var p := DrawnCell(draws[0], n);
      RandomIndexInRange(draws[0].0, n);
      RandomIndexInRange(draws[0].1, n);
      var b := if At(board, p) then board else Put(board, p, true);
      var l := if At(board, p) then left else left - 1;
      ScatterShortOnlyOnShips(n, b, l, draws[1..]);
      ScatterAdds(n, b, l, draws[1..]);
      forall k | 0 <= k < |draws|
        ensures Inside(DrawnCell(draws[k], n), n) && At(Scatter(n, board, left, draws).0, DrawnCell(draws[k], n))
      {
        if k > 0 {
          assert draws[k] == draws[1..][k - 1];
        }
      }
    }
  }

  class BattleshipGame {
    const boardSize: nat
    const shipCount: nat
    var board: Board
    var remainingShips: int
    var guessedLocations: set<string>

    ghost predicate Valid()
      reads this
    {
      Tally(boardSize, shipCount, board, remainingShips, guessedLocations)
    }

    /** `initializeBoard` runs here; ships are placed when the game starts. */
    constructor (boardSize: nat, shipCount: nat)
      ensures this.boardSize == boardSize && this.shipCount == shipCount
      ensures board == Filled(boardSize, false) && CountMarked(board) == 0
      ensures remainingShips == shipCount && guessedLocations == {}
      ensures Valid()
    {
      this.boardSize := boardSize;
      this.shipCount := shipCount;
      board := Filled(boardSize, false);
      remainingShips := shipCount;
      guessedLocations := {};
      new;
      EmptyBoardHasNoShips(boardSize);
    }

    /**
     * `placeShips`: draw a cell, and if it holds no ship put one there,
     * until `shipCount` ships have been added. The source draws for
     * ever; here the draws can run out, and then the result is false.
     */
    method PlaceShips(draws: seq<(real, real)>) returns (done: bool)
      requires IsSquare(board, boardSize)
      requires boardSize > 0 || shipCount == 0
      requires AllRandom(draws)
      modifies this`board
      ensures IsSquare(board, boardSize)
      ensures forall q :: Inside(q, boardSize) && At(old(board), q) ==> At(board, q)
      ensures done ==> CountMarked(board) == old(CountMarked(board)) + shipCount
      ensures !done ==> CountMarked(board) < old(CountMarked(board)) + shipCount
      ensures old(CountMarked(board)) + shipCount > boardSize * boardSize ==> !done
      ensures board == Scatter(boardSize, old(board), shipCount, draws).0
      ensures done <==> Scatter(boardSize, old(board), shipCount, draws).1 == 0
      ensures forall q :: Inside(q, boardSize) && At(board, q) && !At(old(board), q) ==>
        exists k :: 0 <= k < |draws| && DrawnCell(draws[k], boardSize) == q
      ensures !done ==> forall k :: 0 <= k < |draws| ==>
        Inside(DrawnCell(draws[k], boardSize), boardSize) && At(board, DrawnCell(draws[k], boardSize))
    {
      ghost var scattered := Scatter(boardSize, board, shipCount, draws);
      var ships := 0;
      var next := 0;
      while ships < shipCount && next < |draws|
        invariant 0 <= ships <= shipCount && 0 <= next <= |draws|
        invariant IsSquare(board, boardSize)
        invariant scattered == Scatter(boardSize, board, shipCount - ships, draws[next..])
        decreases |draws| - next
      {
        assert draws[next..][0] == draws[next] && draws[next..][1..] == draws[next + 1..];
        RandomIndexInRange(draws[next].0, boardSize);
        RandomIndexInRange(draws[next].1, boardSize);
        var row := RandomIndex(draws[next].0, boardSize);
        var col := RandomIndex(draws[next].1, boardSize);
        if !board[row][col] {
          board := Put(board, Pos(row, col), true);
          ships := ships + 1;
        }
        next := next + 1;
      }
      assert draws[|draws|..] == [];
      done := ships == shipCount;
      ScatterAdds(boardSize, old(board), shipCount, draws);
      CountMarkedBound(board, boardSize);
      forall q | Inside(q, boardSize) && At(board, q) && !At(old(board), q)
        ensures exists k :: 0 <= k < |draws| && DrawnCell(draws[k], boardSize) == q
      {
        ScatterCellsDrawn(boardSize, old(board), shipCount, draws, q);
      }
      if !done {
        ScatterShortOnlyOnShips(boardSize, old(board), shipCount, draws);
      }
    }

    /** `hitsAndMisses`: a repeated key changes nothing; a new one joins the history and may lower the counter. */
    method HitsAndMisses(userGuess: string, row: int, col: int) returns (outcome: Outcome)
      requires Valid()
      requires IsValidInput(userGuess, boardSize) && TargetOf(userGuess, boardSize) == Pos(row, col)
      modifies this`remainingShips, this`guessedLocations
      ensures Valid()
      ensures userGuess in old(guessedLocations) ==> outcome == AlreadyTried && unchanged(this)
      ensures userGuess !in old(guessedLocations) ==>
        && guessedLocations == old(guessedLocations) + {userGuess}
        && (outcome == Hit <==> board[row][col]) && (outcome == Hit || outcome == Miss)
        && remainingShips == old(remainingShips) - (if board[row][col] then 1 else 0)
    {
      if userGuess in guessedLocations {
        outcome := AlreadyTried;
      } else {
        NewGuessTally(boardSize, shipCount, board, remainingShips, guessedLocations, userGuess);
        guessedLocations := guessedLocations + {userGuess};
        if board[row][col] {
          outcome := Hit;
          remainingShips := remainingShips - 1;
        } else {
          outcome := Miss;
        }
      }
    }

    /** One upper-cased guess from the `playTurn` loop: reject it, or read its column and row and resolve it. */
    method PlayTurn(userGuess: string) returns (outcome: Outcome)
      requires Valid()
      modifies this`remainingShips, this`guessedLocations
      ensures Valid()
      ensures outcome == Invalid <==> !IsValidInput(userGuess, boardSize)
      ensures outcome == Invalid || outcome == AlreadyTried ==> unchanged(this)
      ensures outcome == AlreadyTried <==> IsValidInput(userGuess, boardSize) && userGuess in old(guessedLocations)
      ensures outcome == Hit || outcome == Miss ==>
        var p := TargetOf(userGuess, boardSize);
        && guessedLocations == old(guessedLocations) + {userGuess}
        && (outcome == Hit <==> At(board, p))
        && remainingShips == old(remainingShips) - (if At(board, p) then 1 else 0)
    {
      if !IsValidInput(userGuess, boardSize) {
        return Invalid;
      }
      ParseRowDigit(userGuess, boardSize);
      var col := CharCode(userGuess[0]) - 65;
      var row := ParseInt(userGuess[1..2]).value - 1;
      assert TargetOf(userGuess, boardSize) == Pos(row, col);
      outcome := HitsAndMisses(userGuess, row, col);
    }

    /** The replay branch of `start`: a new empty board, new ships, a full counter and no history. */
    method Replay(draws: seq<(real, real)>) returns (done: bool)
      requires boardSize > 0 || shipCount == 0
      requires AllRandom(draws)
      modifies this`board, this`remainingShips, this`guessedLocations
      ensures Valid()
      ensures remainingShips == shipCount && guessedLocations == {}
      ensures done ==> CountMarked(board) == shipCount
      ensures !done ==> CountMarked(board) < shipCount
      ensures shipCount > boardSize * boardSize ==> !done
      ensures board == Scatter(boardSize, Filled(boardSize, false), shipCount, draws).0
      ensures done <==> Scatter(boardSize, Filled(boardSize, false), shipCount, draws).1 == 0
    {
      board := Filled(boardSize, false);
      EmptyBoardHasNoShips(boardSize);
      done := PlaceShips(draws);
      remainingShips := shipCount;
      guessedLocations := {};
    }
  }
}
