# ConnectEm — a Dafny model of the Connect-Four game logic

ConnectEm is a two-player Connect-Four game. The board is a fixed 7 x 6 grid of slots.
Each slot is `EMPTY`, `P1` or `P2`. Column `x` holds rows 0 (top) to 5 (bottom). A click on
a column drops the current player's piece into the lowest empty slot of that column. The
win check then looks in four directions around the new piece:

- vertically, at the piece and the three slots below it, and only when the piece is on row 0, 1 or 2;
- along the whole row;
- along both diagonals, sampled at offsets -3 to +6.

On a win the board is cleared and the menu is shown. In every case the turn passes to the
other player.

The model has five modules:

- `Slots` (`slots.dfy`): the slot states, the scenes, the move coordinate, the board size
  and the turn toggle.
- `RunScan` (`run_scan.dfy`): the four-equal test `CompareTo3` and the run scan `Find4`.
  `Find4` is a loop with a counter, proved equal to the specification `HasRun`: "some four
  consecutive slots hold the player".
- `Board` (`board.dfy`): the board as an `array2<SlotState>`. `Snapshot` gives its value as
  a `Grid` (a sequence of columns). This module holds the gravity drop `UpdateBoard`, which
  works in place, and `Reset`. The specification function `LandingRow` gives the
  highest-index empty slot of a column. The module also defines the gravity invariant.
- `WinCheck` (`win_check.dfy`): `CheckBoard`, written like the source. It gathers the row
  and the two diagonals into lines (off-board samples read as empty) and runs `Find4` over
  each. Its result is the specification function `WinsAt`. `WinsAt` is proved against an
  independent definition of a win, `FourInARow`: four slots of one player in a line
  anywhere on the board.
  - Soundness: every reported win is a real four in a row.
  - Completeness: every four in a row through the piece just dropped is reported.
  - Together: on a gravity board with no four in a row, a drop is reported as a win
    exactly when it creates four in a row.
- `GameLoop` (`game.dfy`): the state kept by the main loop (board, turn, scene) as the
  class `GameState`. `Play` is the menu's PLAY button. `Click` is the per-click step: drop,
  check, reset and show the menu on a win, then toggle the turn. The class invariant
  keeps gravity and "no player has four in a row on the board" across every step.

Three details of the code that the model keeps as written:

- The vertical test compares the placed slot with the three slots below it. It does not
  compare them with the current player (`CompareTo3`, ConnectEm/main.cpp:131). `WinsAt`
  does the same. The soundness lemma states the fact that makes this safe: the placed slot
  holds the current player.
- The source gives no result for a drop into a full column: the loop falls off the end of
  the function. The model returns `None` and leaves the board unchanged. `Click` then
  ignores the click completely: board, turn and scene stay as they were.
- The diagonals are sampled at offsets -3 to +6, not -3 to +3. A run that does not contain
  the new piece but lies on one of its diagonals also counts. `WinsAt` keeps this.
  `DetectsExactlyTheNewFour` shows it never changes the outcome of a game: the class
  invariant guarantees no such run exists before the drop.

## Model

| member | source | states |
|---|---|---|
| `Slots.Opponent` | ConnectEm/main.cpp:104 | the next turn is a player (never `EMPTY`) and differs from the current one |
| `Slots.OpponentInvolution` | ConnectEm/main.cpp:104 | toggling the turn twice gives back the same player |
| `RunScan.CompareTo3` | ConnectEm/main.cpp:194-197 | true exactly when the four slots form a one-element set, i.e. are all equal |
| `RunScan.Find4` | ConnectEm/main.cpp:199-216 | the counting scan with reset on mismatch and early stop at four returns true exactly when some four consecutive entries of the line equal the player |
| `RunScan.ShortLineHasNoRun` | ConnectEm/main.cpp:199-215 | a line shorter than four never gives a win |
| `RunScan.RunAfterOpponentPiece` | ConnectEm/main.cpp:199-215 | `[P1,P1,P2,P1,P1,P1,P1]` holds a run of four for P1 |
| `RunScan.EmptySlotBreaksRun` | ConnectEm/main.cpp:199-215 | `[P1,P1,P1,EMPTY,P1,P1,P1]` holds no run of four for P1 |
| `Board.EmptyGrid` | ConnectEm/main.cpp:55 | the initial board is 7 x 6 and every slot reads as empty |
| `Board.Place` | ConnectEm/main.cpp:187 | writing one slot sets that slot to the player and leaves every other slot as it was |
| `Board.Snapshot` | ConnectEm/main.cpp:25-26 | the value of the array board is 7 columns of 6 slots, slot by slot equal to the array |
| `Board.LandingRow` | ConnectEm/main.cpp:183-188 | the landing slot is empty and every slot below it is filled; there is none exactly when the column is full |
| `Board.UpdateBoard` | ConnectEm/main.cpp:180-192 | writes the player into the column's highest-index empty slot and returns (column, row); every other slot is unchanged; on a full column returns `None` and changes nothing |
| `Board.Reset` | ConnectEm/main.cpp:100 | afterwards every slot is empty |
| `Board.LandingRowIsLowestEmpty` | ConnectEm/main.cpp:183-188 | an empty slot with only filled slots below it is where the piece lands |
| `Board.EmptyColumnLandsAtBottom` | ConnectEm/main.cpp:183-188 | on an empty board a piece lands on row 5, the bottom row |
| `Board.AboveLandingIsEmpty` | ConnectEm/main.cpp:130 | under gravity every slot from the top down to the landing slot is empty, so the dropped piece is the top of its column |
| `Board.DropKeepsGravity` | ConnectEm/main.cpp:183-187 | a drop onto a board that obeys gravity gives a board that obeys gravity |
| `Board.DropRaisesLandingRow` | ConnectEm/main.cpp:183-192 | each drop into a settled column moves the landing slot up one row, and the drop into row 0 fills the column |
| `Board.DropKeepsSettled` | ConnectEm/main.cpp:183-187 | a drop into a column with no gaps leaves it with no gaps |
| `Board.DropsFillColumn` | ConnectEm/main.cpp:183-192 | a settled column whose landing slot is row `y` is full after exactly y + 1 drops |
| `Board.SixDropsFillEmptyColumn` | ConnectEm/main.cpp:183-192 | six drops fill an empty column, so a seventh drop into it finds no landing slot and is refused |
| `Board.EmptyGridSettled` | ConnectEm/main.cpp:55 | the empty board obeys gravity |
| `WinCheck.GatherRow` | ConnectEm/main.cpp:135-137 | the collected row is the seven slots of row `y`, left to right |
| `WinCheck.GatherDiagonal` | ConnectEm/main.cpp:143-173 | the collected diagonal is the ten slots at offsets -3..+6, off-board samples reading as empty, never an out-of-range access |
| `WinCheck.RowRunIsFour` | ConnectEm/main.cpp:135-139 | a run of four of the player in the placed piece's row is a horizontal four in a row on the board |
| `WinCheck.RightDiagRunIsFour` | ConnectEm/main.cpp:143-157 | a run of four of a player among the ten falling-diagonal samples lies wholly on the board and is a four in a row; padding never makes a run |
| `WinCheck.LeftDiagRunIsFour` | ConnectEm/main.cpp:161-175 | the same for the ten rising-diagonal samples |
| `WinCheck.CheckBoard` | ConnectEm/main.cpp:124-178 | reads the board without changing it; reports the vertical test (only when row < 3) or a run of four in the row or either diagonal, i.e. `WinsAt` of the board |
| `WinCheck.WinIsFourInARow` | ConnectEm/main.cpp:124-178 | soundness: a win reported for the piece of `p` at (x, y) means `p` has four in a row on the board |
| `WinCheck.FourThroughPieceIsWin` | ConnectEm/main.cpp:129-175 | completeness: any four in a row of `p` in any direction through the top piece of its column is reported |
| `WinCheck.FourAvoidingSlotWasThere` | ConnectEm/main.cpp:187 | a four in a row that does not use the slot just written was already on the board before |
| `WinCheck.DetectsExactlyTheNewFour` | ConnectEm/main.cpp:95-98 | on a gravity board without a four of `p`, the check after `p`'s drop reports a win if and only if the board now has four of `p` in a row |
| `WinCheck.DropNeverCompletesOtherFour` | ConnectEm/main.cpp:95-98 | a drop by `p` never creates a four in a row for the other player |
| `WinCheck.EmptyGridHasNoFour` | ConnectEm/main.cpp:100 | the cleared board holds no four in a row for either player |
| `WinCheck.VerticalWinExample` | ConnectEm/main.cpp:131 | with three P1 pieces at the bottom of column 0, the fourth lands on row 2 and is reported as a win |
| `WinCheck.DiagonalWinExample` | ConnectEm/main.cpp:161-175 | on a gravity board where P2 at (0,5), (1,4), (2,3), (3,2) rests on P1 pieces, the last P2 piece is reported as a win for P2 on the rising diagonal and not for P1 |
| `WinCheck.HorizontalWinExample` | ConnectEm/main.cpp:135-139 | P2 at (0,5), (1,5), (2,5), (3,5) on the bottom row is reported as a win for P2 |
| `GameLoop.GameState.constructor` | ConnectEm/main.cpp:50-56 | a new game has an empty board, P1 to move and the menu on screen |
| `GameLoop.GameState.Play` | ConnectEm/main.cpp:75-76 | PLAY switches to the board scene, leaving board and turn unchanged |
| `GameLoop.GameState.Click` | ConnectEm/main.cpp:92-105 | drops the current player's piece. It reports a win exactly when the drop made four in a row for that player. On a win the board is empty and the scene is the menu; otherwise the board is the old one with that one slot written. The turn toggles even after a win. Gravity and "no four in a row on the board" are kept. A full column changes nothing |

## Left out

- The raylib window, frame loop, drawing and GUI (ConnectEm/main.cpp:47-78, 107-119, 218-263) are presentation code calling a foreign library. Only the scene change of the PLAY button is modelled (`Play`).
- The mouse-to-tile conversion with float division and `floor`, and the coordinate label (ConnectEm/main.cpp:86-88), are floating-point UI code. The clicked column is a parameter of `Click`, required to lie in 0..6.
- The click-validity test `CheckCollisionPointRec` (ConnectEm/main.cpp:90) is a foreign call over float rectangles. Only its intent, a column of the board, is kept as the precondition of `Click`.
- The `try`/`catch` around `.at()` for off-board diagonal samples (ConnectEm/main.cpp:147-153, 165-171) is replaced by an explicit bounds check that yields `EMPTY` (`Cell`, `GatherDiagonal`).
- The move coordinate is a float `Vector2` in the source: built from the row index at ConnectEm/main.cpp:188 and cast back with `(int)` at ConnectEm/main.cpp:126-127. The model uses `nat` fields of `Move`. Nothing is lost, because the values are small whole numbers that a float holds exactly.
- The winner text built with `std::to_string` (ConnectEm/main.cpp:101) is display formatting.
- `Board.UpdateBoard`: on a full column the source has no defined result. The model returns `None` with the board unchanged, and `GameState.Click` then leaves turn and scene unchanged. This is a choice of the model, not behaviour of the source.
- A full board with no winner is not detected, as in the source. Clicks on full columns are ignored.
