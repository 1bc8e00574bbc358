/**
 * The final revision's `BattleshipGame`: ships of sizes 2, 3, 3, 4 and 5
 * placed at random in straight runs, guesses resolved against the board,
 * per-ship hit counters, and a restart that rebuilds everything.
 * Each `Math.random()` value the source draws is supplied by the caller.
 */
module Game {
  import opened JsText
  import opened Grid
  import opened Fleet

  class BattleshipGame {
    const boardSize: nat
    const shipSizes: seq<nat>
    var board: Board
    var remainingShips: int
    var guessedLocations: set<string>
    var shipHits: seq<int>
    var shipPlacements: seq<seq<Pos>>

    ghost predicate Valid()
      reads this
    {
      Consistent(boardSize, shipSizes, board, shipHits, remainingShips, shipPlacements)
    }

    /** The ships placed so far on their runs, with nothing hit or guessed yet. */
    ghost predicate Laid()
      reads this
    {
      && Placing(boardSize, shipSizes, board, shipPlacements)
      && shipHits == Zeros(|shipSizes|)
      && remainingShips == |shipSizes|
      && guessedLocations == {}
    }

    /** The state `buildGrid` and the counter resets leave for `placeShipsRandomly`. */
    ghost predicate Reset()
      reads this
    {
      && SizesFit(shipSizes, boardSize)
      && board == Filled(boardSize, Blank)
      && shipHits == Zeros(|shipSizes|)
      && remainingShips == |shipSizes|
      && guessedLocations == {}
    }

    constructor (boardSize: nat, draws: seq<Draw>)
      requires boardSize >= 5
      requires forall k :: 0 <= k < |draws| ==> IsDraw(draws[k])
      ensures this.boardSize == boardSize && shipSizes == ShipSizes
      ensures Valid() && Laid()
      ensures (board, shipPlacements) == Layout(boardSize, ShipSizes, Filled(boardSize, Blank), [], draws)
    {
      this.boardSize := boardSize;
      shipSizes := ShipSizes;
      board := Filled(boardSize, Blank);
      remainingShips := |ShipSizes|;
      guessedLocations := {};
      shipHits := Zeros(|ShipSizes|);
      shipPlacements := [];
      new;
      var _ := PlaceShipsRandomly(draws);
    }

    /** Is every cell of the run `" "`? The check loop of one placement attempt. */
    method ClearPath(direction: Direction, row: int, col: int, size: nat) returns (clearPath: bool)
      requires AllInBounds(board, Run(direction, Pos(row, col), size))
      ensures clearPath <==> AllBlank(board, Run(direction, Pos(row, col), size))
    {
      ghost var run := Run(direction, Pos(row, col), size);
      clearPath := true;
      var i := 0;
      while i < size
        invariant 0 <= i <= size
        invariant clearPath <==> forall k :: 0 <= k < i ==> At(board, run[k]) == Blank
        invariant !clearPath ==> i < size
      {
        assert InBounds(board, run[i]);
        if direction == Horizontal && board[row][col + i] != Blank {
          clearPath := false;
          break;
        } else if direction == Vertical && board[row + i][col] != Blank {
          clearPath := false;
          break;
        }
        i := i + 1;
      }
    }

    /** The write loop of a successful attempt: ship `shipIndex` goes on every cell of the run. */
    method WriteShip(shipIndex: nat, direction: Direction, row: int, col: int, size: nat)
      returns (shipPlacement: seq<Pos>)
      requires AllInBounds(board, Run(direction, Pos(row, col), size))
      modifies this`board
      ensures shipPlacement == Run(direction, Pos(row, col), size)
      ensures board == Paint(old(board), shipPlacement, Ship(shipIndex))
    {
      ghost var run := Run(direction, Pos(row, col), size);
      shipPlacement := [];
      var i := 0;
      while i < size
        invariant 0 <= i <= size
        invariant shipPlacement == run[..i]
        invariant board == Paint(old(board), run[..i], Ship(shipIndex))
      {
        PaintStep(old(board), run, i, Ship(shipIndex));
        TakeOneMore(run, i);
        if direction == Horizontal {
          assert run[i] == Pos(row, col + i);
          board := Put(board, Pos(row, col + i), Ship(shipIndex));
          shipPlacement := shipPlacement + [Pos(row, col + i)];
        } else {
          assert run[i] == Pos(row + i, col);
          board := Put(board, Pos(row + i, col), Ship(shipIndex));
          shipPlacement := shipPlacement + [Pos(row + i, col)];
        }
        i := i + 1;
      }
      assert run[..size] == run;
    }

    /**
     * One pass of the retry loop for ship `shipIndex`: pick a direction
     * and an anchor from the draw, and write the ship only if its whole
     * run is blank. A failed attempt changes nothing.
     */
    method TryPlace(shipIndex: nat, draw: Draw) returns (placed: bool)
      requires Placing(boardSize, shipSizes, board, shipPlacements)
      requires shipIndex == |shipPlacements| < |shipSizes|
      requires IsDraw(draw)
      modifies this`board, this`shipPlacements
      ensures IsShipRun(AttemptRun(draw, boardSize, shipSizes[shipIndex]), shipSizes[shipIndex], boardSize)
      ensures placed <==> AllBlank(old(board), AttemptRun(draw, boardSize, shipSizes[shipIndex]))
      ensures placed ==> Wrote(boardSize, shipSizes, old(board), old(shipPlacements), draw, board, shipPlacements)
      ensures !placed ==> board == old(board) && shipPlacements == old(shipPlacements)
      ensures Placing(boardSize, shipSizes, board, shipPlacements)
    {
      var size := shipSizes[shipIndex];
      ghost var run := AttemptRun(draw, boardSize, size);
      AnchorKeepsShipInside(draw, boardSize, size);
      assert AllInBounds(board, run);
      var direction := DirectionOf(draw.direction);
      var params := AnchorBounds(direction, boardSize, size);
      var row := RandomIndex(draw.row, params.0);
      var col := RandomIndex(draw.col, params.1);
      assert run == Run(direction, Pos(row, col), size);
      var clearPath := ClearPath(direction, row, col, size);
      if clearPath {
        var shipPlacement := WriteShip(shipIndex, direction, row, col, size);
        PlaceShipPreserves(boardSize, shipSizes, old(board), old(shipPlacements), run);
        shipPlacements := shipPlacements + [shipPlacement];
      }
      placed := clearPath;
    }

    /**
     * The `forEach` callback of `placeShipsRandomly` for ship `shipIndex`:
     * retry with the draws from `start` on until an attempt succeeds, so
     * the ship lies on the run of the first of them that is blank. When
     * the draws run out first nothing changes.
     */
    method PlaceShip(shipIndex: nat, draws: seq<Draw>, start: nat) returns (placed: bool, next: nat)
      requires Placing(boardSize, shipSizes, board, shipPlacements)
      requires shipIndex == |shipPlacements| < |shipSizes| && start <= |draws|
      requires forall k :: 0 <= k < |draws| ==> IsDraw(draws[k])
      modifies this`board, this`shipPlacements
      ensures start <= next <= |draws|
      ensures Placing(boardSize, shipSizes, board, shipPlacements)
      ensures forall k :: start <= k < next - (if placed then 1 else 0) ==>
        !AllBlank(old(board), AttemptRun(draws[k], boardSize, shipSizes[shipIndex]))
      ensures placed ==>
        start < next && Wrote(boardSize, shipSizes, old(board), old(shipPlacements), draws[next - 1], board, shipPlacements)
      ensures !placed ==> next == |draws| && board == old(board) && shipPlacements == old(shipPlacements)
    {
      next := start;
      while next < |draws|
        invariant start <= next <= |draws|
        invariant board == old(board) && shipPlacements == old(shipPlacements)
        invariant forall k :: start <= k < next ==>
          !AllBlank(old(board), AttemptRun(draws[k], boardSize, shipSizes[shipIndex]))
        decreases |draws| - next
      {
        placed := TryPlace(shipIndex, draws[next]);
        next := next + 1;
        if placed {
          return;
        }
      }
      placed := false;
    }

    /**
     * `placeShipsRandomly`: each ship in order takes the first draw left
     * whose run is blank. The source draws for ever; here the draws can
     * run out, and then the ships placed so far stay and the result is
     * false.
     */
    method PlaceShipsRandomly(draws: seq<Draw>) returns (placedAll: bool)
      requires Reset()
      requires forall k :: 0 <= k < |draws| ==> IsDraw(draws[k])
      modifies this
      ensures Laid() && Valid()
      ensures placedAll <==> |shipPlacements| == |shipSizes|
      ensures (board, shipPlacements) == Layout(boardSize, shipSizes, Filled(boardSize, Blank), [], draws)
    {
      ghost var laid := Layout(boardSize, shipSizes, board, [], draws);
      shipPlacements := [];
      PlacingStart(boardSize, shipSizes);
      var next := 0;
      var shipIndex := 0;
      placedAll := true;
      while shipIndex < |shipSizes| && placedAll
        invariant 0 <= shipIndex <= |shipSizes| && 0 <= next <= |draws|
        invariant |shipPlacements| == shipIndex
        invariant Laid()
        invariant !placedAll ==> shipIndex < |shipSizes| && next == |draws|
        invariant laid == Layout(boardSize, shipSizes, board, shipPlacements, draws[next..])
        decreases |shipSizes| - shipIndex, placedAll
      {
        var placed, start := false, next;
        ghost var board0, placements0 := board, shipPlacements;
        placed, next := PlaceShip(shipIndex, draws, next);
        LayoutAfterShip(boardSize, shipSizes, board0, placements0, draws, start, next, placed, board, shipPlacements);
        if placed {
          shipIndex := shipIndex + 1;
        } else {
          placedAll := false;
        }
      }
      assert draws[|draws|..] == [];
      PlacingIsConsistent(boardSize, shipSizes, board, shipPlacements);
    }

    /** Resolve a new guess on cell (`row`, `col`): the hit-or-miss branch of `playTurn`. */
    method Strike(row: int, col: int) returns (outcome: Outcome)
      requires Valid() && Inside(Pos(row, col), boardSize)
      modifies this`board, this`shipHits, this`remainingShips
      ensures Valid()
      ensures Struck(shipSizes, old(board), old(shipHits), old(remainingShips), Pos(row, col),
                     board, shipHits, remainingShips, outcome)
    {
      var p := Pos(row, col);
      var newBoard, hits, remaining := board, shipHits, remainingShips;
      var cellContent := board[row][col];
      assert cellContent == At(board, p);
      if cellContent != Blank {
        newBoard := Put(board, p, HitMark);
        outcome := Hit;
        if cellContent.Ship? {
          var j := cellContent.index;
          HitShipBounded(boardSize, shipSizes, board, shipHits, remainingShips, shipPlacements, p, j);
          hits := hits[j := hits[j] + 1];
          if hits[j] == shipSizes[j] {
            outcome := Sunk;
            remaining := remaining - 1;
          }
        }
      } else {
        newBoard := Put(board, p, MissMark);
        outcome := Miss;
      }
      assert Struck(shipSizes, board, shipHits, remainingShips, p, newBoard, hits, remaining, outcome);
      StrikeKeepsConsistent(boardSize, shipSizes, board, shipHits, remainingShips, shipPlacements, p,
                            newBoard, hits, remaining, outcome);
      board, shipHits, remainingShips := newBoard, hits, remaining;
    }

    /**
     * One guess, already upper-cased: an invalid string is rejected with
     * no change; a string already in the history changes nothing; any
     * other string joins the history and strikes the cell it names (see
     * `Struck`). Another spelling of a guessed cell ("A01" after "A1") is
     * a new string, so it strikes again, turning an `"X"` or `"O"` into
     * an `"X"` without moving a counter.
     */
    method ApplyGuess(userGuess: string) returns (outcome: Outcome)
      requires Valid()
      modifies this`board, this`shipHits, this`remainingShips, this`guessedLocations
      ensures Valid()
      ensures outcome == Invalid <==> !IsValidInput(userGuess, boardSize)
      ensures outcome == AlreadyTried <==> IsValidInput(userGuess, boardSize) && userGuess in old(guessedLocations)
      ensures outcome == Invalid || outcome == AlreadyTried ==> unchanged(this)
      ensures outcome != Invalid && outcome != AlreadyTried ==>
        && guessedLocations == old(guessedLocations) + {userGuess}
        && Struck(shipSizes, old(board), old(shipHits), old(remainingShips), GuessTarget(userGuess, boardSize),
                  board, shipHits, remainingShips, outcome)
    {
      if !IsValidInput(userGuess, boardSize) {
        return Invalid;
      }
      var row := CharCode(userGuess[0]) - 65;
      var col := ParseInt(userGuess[1..]).value - 1;
      if userGuess in guessedLocations {
        outcome := AlreadyTried;
      } else {
        guessedLocations := guessedLocations + {userGuess};
        outcome := Strike(row, col);
      }
    }

    /** `restart`: a fresh blank board, cleared counters and history, and a new random layout. */
    method Restart(draws: seq<Draw>) returns (placedAll: bool)
      requires SizesFit(shipSizes, boardSize)
      requires forall k :: 0 <= k < |draws| ==> IsDraw(draws[k])
      modifies this
      ensures Valid() && Laid()
      ensures placedAll <==> |shipPlacements| == |shipSizes|
      ensures (board, shipPlacements) == Layout(boardSize, shipSizes, Filled(boardSize, Blank), [], draws)
    {
      board := Filled(boardSize, Blank);
      remainingShips := |shipSizes|;
      guessedLocations := {};
      shipHits := Zeros(|shipSizes|);
      placedAll := PlaceShipsRandomly(draws);
    }
  }
}
