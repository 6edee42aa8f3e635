/** Slot states, scenes and the fixed board dimensions of the Connect-Four game. */
module Slots {

  /** The content of one slot of the board. */
  datatype SlotState = Empty | P1 | P2

  /** The two screens of the game: the menu and the board. */
  datatype Scene = Menu | Game

  datatype Option<T> = None | Some(value: T)

  /** The resting coordinate of a dropped piece: a column and a row, row 0 being the top. */
  datatype Move = Move(column: nat, row: nat)

  /** The board has 7 columns of 6 slots each. */
  const Columns: nat := 7
  const Rows: nat := 6

  /** The player whose turn comes next: P2 after P1, P1 otherwise. */
  function Opponent(p: SlotState): (r: SlotState)
    ensures r != Empty && r != p
  {
    if p == P1 then P2 else P1
  }

  /** Alternating twice gives back the same player. */
  lemma OpponentInvolution(p: SlotState)
    requires p != Empty
    ensures Opponent(Opponent(p)) == p
  {
  }
}
