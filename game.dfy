/**
 * The game state kept by the main loop: the board, whose turn it is and which scene is
 * shown, with the two transitions that change it: pressing PLAY on the menu and
 * clicking a column on the board.
 */
module GameLoop {
  import opened Slots
  import opened Board
  import opened WinCheck

  /** No player has four in a row on the board. */
  ghost predicate NoFour(g: Grid)
  {
    !FourInARow(g, P1) && !FourInARow(g, P2)
  }

  class GameState {
    var board: array2<SlotState>
    var turn: SlotState
    var scene: Scene

    /**
     * The board is 7 x 6 and obeys gravity, the turn belongs to a player, and no four
     * in a row is ever left standing on the board.
     */
    ghost predicate Valid()
      reads this, board
    {
      board.Length0 == Columns && board.Length1 == Rows &&
      turn != Empty &&
      Gravity(Snapshot(board)) && NoFour(Snapshot(board))
    }

    /** A new game: an empty board, player one to move, the menu on screen. */
    constructor ()
      ensures Valid() && fresh(board)
      ensures Snapshot(board) == EmptyGrid() && turn == P1 && scene == Menu
    {
      board := new SlotState[Columns, Rows]((_, _) => Empty);
      turn := P1;
      scene := Menu;
      new;
      SameSlotsSameGrid(Snapshot(board), EmptyGrid());
      EmptyGridSettled();
      EmptyGridHasNoFour(P1);
      EmptyGridHasNoFour(P2);
    }

    /** The PLAY button of the menu: switch to the board, leaving board and turn alone. */
    method Play()
      requires Valid() && scene == Menu
      modifies this
      ensures Valid() && board == old(board) && turn == old(turn) && scene == Game
    {
      scene := Game;
    }

    /**
     * A click on column `column` during play. The current player's piece drops into the
     * column; if that makes four in a row the board is emptied and the menu shown; then
     * the turn passes to the other player, after a win too. A click on a full column
     * changes nothing.
     */
    method Click(column: nat) returns (placed: Option<Move>, won: bool)
      requires Valid() && scene == Game && column < Columns
      modifies this, board
      ensures Valid() && board == old(board)
      ensures placed.None? <==> ColumnFull(old(Snapshot(board))[column])
      ensures placed.None? ==>
                !won && Snapshot(board) == old(Snapshot(board)) && turn == old(turn) && scene == Game
      ensures placed.Some? ==>
                placed.value == Move(column, LandingRow(old(Snapshot(board))[column]).value) &&
                turn == Opponent(old(turn)) &&
                (won <==> FourInARow(Place(old(Snapshot(board)), column, placed.value.row, old(turn)), old(turn)))
      ensures placed.Some? && won ==> Snapshot(board) == EmptyGrid() && scene == Menu
      ensures placed.Some? && !won ==>
                Snapshot(board) == Place(old(Snapshot(board)), column, placed.value.row, old(turn)) &&
                scene == Game
    {
      ghost var g := Snapshot(board);
      placed := UpdateBoard(board, turn, column);
      if placed.None? {
        return placed, false;
      }
      var y := placed.value.row;
      won := CheckBoard(board, turn, placed.value);
      DetectsExactlyTheNewFour(g, column, turn);
      if won {
        Reset(board);
        scene := Menu;
        EmptyGridSettled();
        EmptyGridHasNoFour(P1);
        EmptyGridHasNoFour(P2);
      } else {
        DropKeepsGravity(g, column, turn);
        if FourInARow(Snapshot(board), Opponent(turn)) {
          DropNeverCompletesOtherFour(g, column, y, turn, Opponent(turn));
        }
      }
      turn := Opponent(turn);
    }
  }
}
