# Battleship, modelled in Dafny

The repository is a terminal Battleship game in two revisions, each one
JavaScript class `BattleshipGame` that keeps an N by N board, a set of
guessed strings and some counters. This project models both revisions'
game logic and proves what each one keeps true.

- **Final revision** (`part2And3.js`, modules `Fleet` and `Game`).
  - Ships of sizes 2, 3, 3, 4 and 5 are placed one after another, in
    straight horizontal or vertical runs chosen from random draws.
  - An attempt is written only if every cell of its run is blank.
    Otherwise the ship retries with the next draw.
  - A guess is a letter for the row and a number for the column, such as
    `"J10"`. It is checked by `isValidInput` and then resolved against
    the board:
    - a hit writes `"X"` and raises the ship's hit counter;
    - a ship sinks when its counter reaches its size, and the
      remaining-ships counter then drops;
    - a miss writes `"O"`.
  - `restart` rebuilds everything.
- **First revision** (`part1.js`, module `FirstGame`).
  - Ships are single `true` cells on a board of booleans.
  - A guess is exactly two characters. Here the letter picks the
    **column** and the digit the **row**, the reverse of the final
    revision.
  - Each new guess on a ship lowers the remaining-ships counter.

Module `JsText` models the JavaScript primitives the game relies on:
`charCodeAt`, `parseInt(s, 10)` (leading blanks, a sign, the longest digit
prefix, NaN as `None`), `Number` on one character, and
`Math.floor(Math.random() * max)`. Module `Grid` models boards as
sequences of rows.

**Randomness.** Every `Math.random()` result is a `real` in [0, 1) that
the caller supplies.
- One placement attempt of the final revision reads one `Draw`:
  direction, row and column.
- The first revision reads a pair per attempt.
- The source retries until it succeeds. The model consumes a finite
  sequence of draws and reports whether they sufficed.

**Game object.** Both games are Dafny classes whose fields are the
source's fields. Each cell write reassigns the board field to a new
sequence with one cell changed.

**The invariant of the final revision** is `Fleet.Consistent`, which
`Game.BattleshipGame.Valid` calls. It says:
- every ship's recorded run is straight, inside the board and of the
  ship's size, and no two runs share a cell;
- a cell holds ship `i` only if it is on run `i`;
- every cell of run `i` holds `i` or `"X"`;
- ship `i`'s hit counter plus its cells still holding `i` equals its size;
- `remainingShips` is the number of ships not yet sunk.

**The invariant of the first revision** is `FirstGame.Tally`:
`remainingShips` is the ship count less the number of guessed strings that
strike a ship. Every valid key names a different cell, so this is also the
ship count less the number of distinct ship cells guessed.

**The repeat check uses the raw string** (`part2And3.js:115-118`), and the
model keeps this as the source has it:
- `"A1"`, `"A01"`, `"A1X"` and `"A 1"` are four different strings that
  all strike cell A1 (`Fleet.SpellingsOfOneCell`);
- a second spelling strikes the cell again. An `"X"` or `"O"` there is not
  blank, so it is reported as a hit and becomes `"X"`, and no counter moves
  (`Fleet.Struck`, last case);
- a missed cell struck again this way therefore shows `"X"`.

## Model

| member | source | states |
|---|---|---|
| JsText.ParseDecimal | part2And3.js:77 | `parseInt` reads back the decimal spelling of any natural number, whatever non-digit text follows it |
| JsText.ParseLeadingZero | part2And3.js:77 | `parseInt("0d")` is the digit `d`: a leading zero is read past |
| JsText.ParseTrailingText | part2And3.js:77 | `parseInt` of a digit followed by a non-digit is the digit: trailing text is ignored |
| JsText.ParseLeadingBlank | part2And3.js:77 | `parseInt` skips leading white space before the digits |
| JsText.ParseInt | part2And3.js:77 | `parseInt` of the empty string is NaN, and a string that starts with a digit reads as a number of at least zero |
| JsText.NumberVersusParseInt | part1.js:36 | `Number` and `parseInt` read a digit as its value and agree on every character except white space, which `Number` reads as 0 and `parseInt` as NaN; so `" "` fails the `> 0` test of the first revision, not a NaN test |
| JsText.RandomIndexInRange | part2And3.js:21-23 | `Math.floor(u * max)` for `u` in [0, 1) and `max >= 1` lies in [0, max) |
| Grid.Filled | part2And3.js:15-19 | `buildGrid` gives an N by N board every cell of which holds the fill value |
| Fleet.AnchorKeepsShipInside | part2And3.js:30-35 | for any draws, a horizontal anchor has row in [0, N) and column in [0, N - size], a vertical one row in [0, N - size] and column in [0, N); the whole run is straight, of the ship's length and on the board |
| Fleet.StraightIsDistinct | part2And3.js:54-62 | the cells of a straight run are pairwise different |
| Fleet.Paint | part2And3.js:55-63 | writing a ship along a run changes exactly the run's cells to the ship's index and keeps the board's shape |
| Fleet.AfloatAfterHit | part2And3.js:122-123 | a hit on a cell that a ship's run lists once lowers the number of that ship's unhit cells by exactly one |
| Fleet.AfloatZero | part2And3.js:124 | a ship has no unhit cell left exactly when no cell of its run holds its index |
| Fleet.UnsunkAtStart | part2And3.js:8-10 | with all counters at zero, every ship counts as unsunk |
| Fleet.UnsunkAfterHit | part2And3.js:123-127 | one more hit on an unsunk ship lowers the number of unsunk ships by one exactly when its counter reaches its size |
| Fleet.UnsunkZero | part2And3.js:124-127 | no ship is unsunk exactly when every counter has reached its ship's size |
| Fleet.ConsistentBounds | part2And3.js:119-127 | in a consistent game every hit counter stays in [0, size] and the remaining-ships counter in [0, number of ships] |
| Fleet.PlacingStart | part2And3.js:25-26 | the blank board with no placements is a valid starting point for placement |
| Fleet.PlaceShipPreserves | part2And3.js:37-64 | writing the next ship on an in-board straight run of blank cells keeps every earlier ship's cells, adds exactly the new run, and keeps the runs disjoint |
| Fleet.LayoutExtends | part2And3.js:25-69 | the retry loop only appends runs: earlier runs stay, each draw places at most one ship, and no more ships are placed than there are sizes |
| Fleet.LayoutSkipsFailures | part2And3.js:29-52 | attempts whose run is not blank change nothing: the layout goes on with the draws after them |
| Fleet.LayoutAfterShip | part2And3.js:27-67 | one ship's retry loop, failed attempts followed by a successful one (or by the end of the draws), leaves the rest of the layout to the remaining draws |
| Fleet.LayoutKeepsPlacing | part2And3.js:25-69 | whatever the draws, the retry loop keeps every placed run straight, inside the board, of its ship's size, painted with its index and disjoint from the others |
| Fleet.LayoutResumes | part2And3.js:25-69 | drawing in two batches gives the layout of drawing once: the loop goes on where the first batch left it |
| Fleet.FirstDrawPlacesFirstShip | part2And3.js:37-65 | on the blank board the first attempt always succeeds, so the first ship lies on the first draw's run |
| Fleet.PlaceNext | part2And3.js:37-65 | an attempt whose run is blank places the next ship there: that run is taken afterwards, taken cells stay taken, and blank runs off the new ship stay blank |
| Fleet.LayoutStuck | part2And3.js:28-66 | once no draw at all can give the next ship a blank run, the retry loop places no further ship, whatever the draws |
| Fleet.BlockingBoard | part2And3.js:24-68 | on the 5 by 5 board the four blocking draws lay ships 0 to 3 and leave a ship cell in every row and every column |
| Fleet.NoRoomOnBlocked | part2And3.js:31-52 | on such a board every draw's run for the size-5 ship meets a ship cell, so every attempt fails |
| Fleet.FiveByFiveCanStall | part2And3.js:24-68 | after the four blocking draws, no finite sequence of further draws places the size-5 ship: the fleet stays at four ships |
| Fleet.PlacingIsConsistent | part2And3.js:4-12 | once ships are placed, zero hits and every ship remaining is a consistent game |
| Fleet.HitShipBounded | part2And3.js:119-123 | a cell holding a ship index belongs to a placed ship whose counter is below its size |
| Fleet.HitKeepsCounts | part2And3.js:119-124 | after a hit on ship `j`'s cell and one more hit counted for `j`, every placed ship's counter plus its unhit cells is still its size |
| Fleet.HitShipPreserves | part2And3.js:119-127 | a hit on ship `j`'s cell, which writes `"X"`, raises `shipHits[j]` by one and lowers `remainingShips` exactly when it reaches the size, keeps the game consistent |
| Fleet.HitMarkPreserves | part2And3.js:120-122 | striking an `"X"` or `"O"` cell again writes `"X"` and keeps the game consistent without moving a counter |
| Fleet.MissPreserves | part2And3.js:128-131 | a blank cell is on no ship's run, and writing `"O"` there keeps the game consistent |
| Fleet.StrikeKeepsConsistent | part2And3.js:119-131 | any strike on a cell of a consistent game, as `Struck` describes it, leaves the game consistent |
| Fleet.WonIffNoShipCellLeft | part2And3.js:119-127 | with every ship placed, no ships remain exactly when no cell of the board still holds a ship index |
| Fleet.IsValidInput | part2And3.js:72-85 | a guess is valid exactly when it has 2 or 3 characters, its first character code minus 65 is in [0, N), and `parseInt` of the rest is a number whose value minus one is in [0, N) |
| Fleet.GuessTarget | part2And3.js:112-113 | a valid guess strikes the board cell whose row is the character code minus 65 and whose column is `parseInt` of the rest minus one |
| Fleet.LabelRoundTrip | part2And3.js:72-85 | on a board of up to 26 rows, every cell's label (row letter, 1-based column number) is accepted and names that cell again |
| Fleet.SpellingsOfOneCell | part2And3.js:72-85 | `"A1"`, `"A01"`, `"A1X"` and `"A 1"` are all valid and all strike the first cell |
| Fleet.TenByTenCorners | part2And3.js:72-85 | on the ten by ten board the corner labels `"A1"`, `"J1"`, `"A10"` and `"J10"` are accepted |
| Fleet.TenByTenOutside | part2And3.js:72-85 | on the ten by ten board `"K1"`, `"A0"`, `"A11"` and `"A100"` are rejected |
| Fleet.TenByTenMalformed | part2And3.js:72-85 | `"1A"`, `"AA"` and `""` are rejected |
| Fleet.Shown | part2And3.js:93 | the board shows `"X"` exactly for hit marks and `"O"` exactly for miss marks, and a blank otherwise |
| Fleet.ShipsAreHidden | part2And3.js:93 | a cell holding a ship looks the same as a blank one |
| Game.BattleshipGame.constructor | part2And3.js:4-13 | a new game has the ship sizes [2, 3, 3, 4, 5], the board and runs that `Fleet.Layout` gives for the draws on the blank board, zero hits, every ship remaining, an empty history, and is consistent |
| Game.BattleshipGame.ClearPath | part2And3.js:37-52 | the check loop reports a clear path exactly when every cell of the run is blank |
| Game.BattleshipGame.WriteShip | part2And3.js:53-63 | the write loop returns the run's cells in order and paints exactly those cells with the ship's index |
| Game.BattleshipGame.TryPlace | part2And3.js:30-66 | one attempt writes the ship exactly when its whole run was blank, and then records that run; a failed attempt changes neither the board nor the placements; the placement invariant holds after it either way |
| Game.BattleshipGame.PlaceShip | part2And3.js:27-67 | one ship's retry loop: every attempt before the last failed; when the ship is placed it lies on the run of the last draw read, which was blank; when the draws run out nothing changed |
| Game.BattleshipGame.PlaceShipsRandomly | part2And3.js:25-69 | placement gives exactly the board and runs of `Fleet.Layout` for the draws on the blank board, with zero hits and every ship remaining, makes the game consistent as far as the ships placed go, and reports success exactly when every ship got a run |
| Game.BattleshipGame.Strike | part2And3.js:119-131 | striking a cell changes the board, the hit counters and the remaining-ships counter as `Struck` says, and keeps the game consistent |
| Game.BattleshipGame.ApplyGuess | part2And3.js:108-132 | an invalid guess is rejected and a repeated string reported, both changing nothing; any other guess joins the history and strikes the cell it names; the game stays consistent |
| Game.BattleshipGame.Restart | part2And3.js:137-145 | restart leaves a consistent game whose board and runs are those `Fleet.Layout` gives for the new draws on a blank board, with zero hits, every ship remaining and an empty history, and reports whether every ship was placed |
| FirstGame.EmptyBoardHasNoShips | part1.js:12-16 | `initializeBoard` gives a board with no ship cell |
| FirstGame.CountMarkedFlip | part1.js:24-26 | putting a ship on a cell without one adds exactly one ship cell |
| FirstGame.CountMarkedBound | part1.js:18-29 | an N by N board holds at most N * N ship cells |
| FirstGame.IsValidInput | part1.js:31-40 | a guess is valid exactly when it has two characters, its first character code minus 65 is in [0, N), and its second character is a digit from 1 to N |
| FirstGame.TargetOf | part1.js:67-68 | a valid guess names a cell on the board, the letter giving its column and the digit its row (see `FirstGame.ThreeByThreeBoundary`) |
| FirstGame.ParseRowDigit | part1.js:68 | `parseInt(userGuess.charAt(1))` of a valid guess is the value of its digit |
| FirstGame.TargetInjective | part1.js:31-40 | two valid guesses that strike the same cell are the same string |
| FirstGame.ThreeByThreeBoundary | part1.js:31-40 | on the three by three board, `"A1"`, `"B2"` and `"C3"` are accepted and `"D1"`, `"A4"`, `"A0"`, `"A "`, `"AA"`, `"1A"`, `"A10"`, `"A"` and `""` are rejected; `"C1"` strikes row 0, column 2 |
| FirstGame.TargetsCount | part1.js:42-49 | a set of valid guesses strikes as many distinct cells as it has strings |
| FirstGame.RemainingCountsCells | part1.js:43-49 | the remaining-ships counter is the ship count less the number of distinct ship cells guessed |
| FirstGame.NewGuessTally | part1.js:45-52 | a new valid guess joining the history keeps the tally, lowering the counter exactly when its cell holds a ship |
| FirstGame.Scatter | part1.js:18-29 | the board `placeShips` leaves stays square, and no more ships are left unplaced than were asked for |
| FirstGame.ScatterAdds | part1.js:18-29 | no ship cell is cleared, and the number of ship cells rises by the number of ships placed |
| FirstGame.ScatterCellsDrawn | part1.js:21-26 | every new ship cell is the cell of one of the draws |
| FirstGame.ScatterShortOnlyOnShips | part1.js:20-26 | when ships are left unplaced, every draw's cell holds a ship by the end |
| FirstGame.FirstDrawTakesAShip | part1.js:21-26 | on the empty board the first draw's cell always receives a ship, which stays |
| FirstGame.BattleshipGame.constructor | part1.js:4-10 | a new game has an all-empty board, every ship remaining, an empty history, and a correct tally |
| FirstGame.BattleshipGame.PlaceShips | part1.js:18-29 | placement leaves exactly the board `FirstGame.Scatter` gives for the draws and succeeds exactly when it placed every ship; it only turns empty cells into ships, each on a drawn cell; on success it added exactly the ship count; on failure every drawn cell holds a ship; it cannot succeed when the ships do not fit on the board |
| FirstGame.BattleshipGame.HitsAndMisses | part1.js:42-54 | a repeated string changes nothing; a new one joins the history and lowers the counter exactly when its cell holds a ship; the board is never written, and the tally is kept |
| FirstGame.BattleshipGame.PlayTurn | part1.js:63-69 | an invalid guess is rejected with no change; otherwise the letter's column and the digit's row are resolved as `HitsAndMisses` says |
| FirstGame.BattleshipGame.Replay | part1.js:85-88 | replay leaves the board `FirstGame.Scatter` gives for the draws on an empty board, every ship remaining and an empty history, with a correct tally |

## Left out

- Terminal I/O is not modelled: `readline-sync` prompts, `keyInPause`, `keyInYNStrict`, `console.log` messages and the `printBoard` layout. A guess enters the model as an already upper-cased string, and an outcome value replaces each message.
- `toUpperCase` is not modelled, because it is applied to the input before the game logic sees it.
- The generator plumbing of `playTurn`, the `start` loops and the recursive `start()` of the final revision are not modelled. One method call stands for one turn.
- Random numbers are caller-supplied reals in [0, 1). Floating-point rounding of `Math.random() * max` is not modelled: the product is taken as exact before `Math.floor`.
- Game.BattleshipGame.PlaceShipsRandomly: the source retries for ever; the model takes a finite sequence of draws and reports failure when they run out, with the ships placed so far kept (`Fleet.Layout`).
- FirstGame.BattleshipGame.PlaceShips: the same holds for the endless `while (ships < shipCount)` loop. It also requires a non-empty board whenever ships are to be placed: on an empty board `row` is 0 and `this.board[0][col]` reads a property of `undefined`, so the source throws a TypeError on the first draw.
- Game.BattleshipGame.constructor: when the draws run out before every ship is placed, the new game starts with only the ships placed so far, and it can then never be won. The source never returns such a game: it either goes on drawing for ever or throws, as the next lines describe.
- Game.BattleshipGame.constructor: a board of 5 or more cells a side does not ensure placement either. On a small board the earlier ships can leave no room for a later one, and the source then loops for ever without throwing. On a 5 by 5 board, for example, the draws `Draw(0.0, 0.8, 0.0)`, `Draw(0.5, 0.5, 0.8)`, `Draw(0.0, 0.4, 0.5)` and `Draw(0.0, 0.0, 0.0)` put ships 0 to 3 on (4,0)-(4,1), (1,4)-(3,4), (2,1)-(2,3) and (0,0)-(0,3). Every row and every column then holds a ship cell, so no attempt can place the size-5 ship (`Fleet.BlockingBoard`, `Fleet.NoRoomOnBlocked`). Whatever finite sequence of draws follows them, the model then places only four ships (`Fleet.FiveByFiveCanStall`): `PlaceShipsRandomly` and `Restart` return `placedAll == false`, and the constructor builds a game with four ships.
- Game.BattleshipGame.constructor: the game requires a board of at least 5 cells a side. On a board of 1 to 4 cells a side, the first ship longer than the side has size n + 1, because the sizes rise by at most one. Its anchor bound n - size + 1 is then 0, so `getRandomNum(0)` gives 0.
  - A horizontal attempt reads along its row. It stops at the first ship cell; when the row is blank to its end, it reads the cell past the end and finds `undefined` rather than `" "`. Either way it retries.
  - A vertical attempt starts at row 0 and reads `this.board[row + i]` down the column. It throws a TypeError at `part2And3.js:47` when the column is blank down to the bottom row, since the next row is `undefined`. Otherwise it stops at the first non-blank cell and retries.
  - So the source either throws or loops for ever, depending on the draws. For example, on a 4 by 4 board with the size-4 ship laid horizontally, every column is blocked, so the source loops for ever.
  - On a board of 0 cells `this.board[row]` is already `undefined` at the first attempt, so the source throws.
- Game.BattleshipGame.ApplyGuess: the source also increments the property `shipHits["X"]` or `shipHits["O"]` of the array, which becomes NaN, when another spelling of a guessed cell is struck. The model keeps only the array's index entries, which that step does not change.
- Characters are Unicode scalar values, not UTF-16 code units. `charCodeAt` on characters outside the Basic Multilingual Plane is not modelled. The length tests of both validators (`part2And3.js:73`, `part1.js:32`) count characters, where JavaScript counts code units. For example, `"A1"` followed by U+1F600 has length 4 in JavaScript and is rejected, but it has 3 characters in the model, where `parseInt` reads 1 and `Fleet.IsValidInput` accepts it.
- The commented-out earlier draft at the end of `part2And3.js` is not modelled, because it is superseded by the active code above it. The top-level `new BattleshipGame(...)` lines are not modelled either; their board sizes appear only in the boundary lemmas.
