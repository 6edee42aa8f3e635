/**
 * Win detection after a drop: vertically below the placed piece, along its whole row,
 * and along both diagonals sampled at offsets -3 to +6 from it.
 */
module WinCheck {
  import opened Slots
  import opened RunScan
  import opened Board

  /** The four axes along which a line of four can lie, each with its step (dx, dy). */
  datatype Direction = Vertical | Horizontal | DownRight | UpRight
  {
    function DX(): int
    {
      if this == Vertical then 0 else 1
    }

    function DY(): int
    {
      match this
      case Vertical => 1
      case Horizontal => 0
      case DownRight => 1
      case UpRight => -1
    }
  }

  /** Four slots holding `p`, all on the board, from (x, y) in steps along `d`. */
  ghost predicate FourAt(g: Grid, p: SlotState, x: int, y: int, d: Direction)
  {
    OnBoard(x, y) && OnBoard(x + 3 * d.DX(), y + 3 * d.DY()) &&
    Cell(g, x, y) == p &&
    Cell(g, x + d.DX(), y + d.DY()) == p &&
    Cell(g, x + 2 * d.DX(), y + 2 * d.DY()) == p &&
    Cell(g, x + 3 * d.DX(), y + 3 * d.DY()) == p
  }

  /** Reference definition of a win: `p` has four in a row somewhere on the board. */
  ghost predicate FourInARow(g: Grid, p: SlotState)
  {
    exists x: int, y: int, d: Direction :: FourAt(g, p, x, y, d)
  }

  /** Slot (cx, cy) is one of the four slots from (x, y) along `d`. */
  ghost predicate Covers(x: int, y: int, d: Direction, cx: int, cy: int)
  {
    (cx == x && cy == y) ||
    (cx == x + d.DX() && cy == y + d.DY()) ||
    (cx == x + 2 * d.DX() && cy == y + 2 * d.DY()) ||
    (cx == x + 3 * d.DX() && cy == y + 3 * d.DY())
  }

  /** The whole row `y`, left to right. */
  function RowLine(g: Grid, y: int): seq<SlotState>
  {
    seq(Columns, i => Cell(g, i, y))
  }

  /** Ten samples of the top-left to bottom-right diagonal through (x, y), offsets -3 to +6. */
  function RightDiagLine(g: Grid, x: int, y: int): seq<SlotState>
  {
    seq(10, i => Cell(g, x + (i - 3), y + (i - 3)))
  }

  /** Ten samples of the top-right to bottom-left diagonal through (x, y), offsets -3 to +6. */
  function LeftDiagLine(g: Grid, x: int, y: int): seq<SlotState>
  {
    seq(10, i => Cell(g, x + (i - 3), y - (i - 3)))
  }

  /**
   * What the win check decides for the piece at (x, y): the slot and the three below it
   * are equal (only when three rows remain below), or the row or either diagonal holds
   * a run of four of `p`.
   */
  function WinsAt(g: Grid, p: SlotState, x: int, y: int): bool
  {
    (y < 3 && CompareTo3(Cell(g, x, y), Cell(g, x, y + 1), Cell(g, x, y + 2), Cell(g, x, y + 3))) ||
    HasRun(RowLine(g, y), p) ||
    HasRun(RightDiagLine(g, x, y), p) ||
    HasRun(LeftDiagLine(g, x, y), p)
  }

  /** Collect row `y` of the array board, left to right. */
  method GatherRow(b: array2<SlotState>, y: int) returns (rowCheck: seq<SlotState>)
    requires b.Length0 == Columns && b.Length1 == Rows && 0 <= y < Rows
    ensures rowCheck == RowLine(Snapshot(b), y)
  {
    ghost var g := Snapshot(b);
    rowCheck := [];
    for i := 0 to Columns
      invariant rowCheck == RowLine(g, y)[..i]
    {
      rowCheck := rowCheck + [b[i, y]];
    }
  }

  /** Collect ten samples along the diagonal through (x, y) with row step `dy`, off-board ones empty. */
  method GatherDiagonal(b: array2<SlotState>, x: int, y: int, dy: int) returns (diag: seq<SlotState>)
    requires b.Length0 == Columns && b.Length1 == Rows
    requires dy == 1 || dy == -1
    ensures dy == 1 ==> diag == RightDiagLine(Snapshot(b), x, y)
    ensures dy == -1 ==> diag == LeftDiagLine(Snapshot(b), x, y)
  {
    ghost var g := Snapshot(b);
    ghost var line := if dy == 1 then RightDiagLine(g, x, y) else LeftDiagLine(g, x, y);
    diag := [];
    for i: int := -3 to 7
      invariant diag == line[..i + 3]
    {
      var element := if OnBoard(x + i, y + dy * i) then b[x + i, y + dy * i] else Empty;
      assert element == Cell(g, x + i, y + dy * i) == line[i + 3];
      diag := diag + [element];
    }
  }

  /**
   * The win check on the array board: gathers the row and the two diagonals into lines,
   * off-board samples reading as empty, and runs the scan over each in turn.
   */
  method CheckBoard(b: array2<SlotState>, p: SlotState, lastMove: Move) returns (won: bool)
    requires b.Length0 == Columns && b.Length1 == Rows
    requires OnBoard(lastMove.column, lastMove.row)
    ensures won == WinsAt(Snapshot(b), p, lastMove.column, lastMove.row)
  {
    var x: int, y: int := lastMove.column, lastMove.row;

    if y < 3 && CompareTo3(b[x, y], b[x, y + 1], b[x, y + 2], b[x, y + 3]) {
      return true;
    }

    var rowCheck := GatherRow(b, y);
    won := Find4(rowCheck, p);
    if won {
      return;
    }

    var rightDiag := GatherDiagonal(b, x, y, 1);
    won := Find4(rightDiag, p);
    if won {
      return;
    }

    var leftDiag := GatherDiagonal(b, x, y, -1);
    won := Find4(leftDiag, p);
  }

  /** A slot that reads as non-empty lies on the board. */
  lemma NonEmptyCellOnBoard(g: Grid, x: int, y: int)
    requires WellShaped(g) && Cell(g, x, y) != Empty
    ensures OnBoard(x, y)
  {
  }

  /** A run of four of `p` in the row of (x, y) is a horizontal four in a row. */
  lemma RowRunIsFour(g: Grid, p: SlotState, y: int)
    requires WellShaped(g) && 0 <= y < Rows && HasRun(RowLine(g, y), p)
    ensures FourInARow(g, p)
  {
    var i :| 0 <= i <= Columns - 4 && RunAt(RowLine(g, y), i, p);
    assert FourAt(g, p, i, y, Horizontal);
  }

  /** A run of four of a player on the falling diagonal sample is a four in a row. */
  lemma RightDiagRunIsFour(g: Grid, p: SlotState, x: int, y: int)
    requires WellShaped(g) && p != Empty && HasRun(RightDiagLine(g, x, y), p)
    ensures FourInARow(g, p)
  {
    var line := RightDiagLine(g, x, y);
    var i :| 0 <= i <= |line| - 4 && RunAt(line, i, p);
    NonEmptyCellOnBoard(g, x + (i - 3), y + (i - 3));
    NonEmptyCellOnBoard(g, x + i, y + i);
    assert FourAt(g, p, x + (i - 3), y + (i - 3), DownRight);
  }

  /** A run of four of a player on the rising diagonal sample is a four in a row. */
  lemma LeftDiagRunIsFour(g: Grid, p: SlotState, x: int, y: int)
    requires WellShaped(g) && p != Empty && HasRun(LeftDiagLine(g, x, y), p)
    ensures FourInARow(g, p)
  {
    var line := LeftDiagLine(g, x, y);
    var i :| 0 <= i <= |line| - 4 && RunAt(line, i, p);
    NonEmptyCellOnBoard(g, x + (i - 3), y - (i - 3));
    NonEmptyCellOnBoard(g, x + i, y - i);
    assert FourAt(g, p, x + (i - 3), y - (i - 3), UpRight);
  }

  /** Soundness: a win reported for the piece of `p` at (x, y) is a real four in a row. */
  lemma WinIsFourInARow(g: Grid, p: SlotState, x: int, y: int)
    requires WellShaped(g) && OnBoard(x, y) && p != Empty && g[x][y] == p
    requires WinsAt(g, p, x, y)
    ensures FourInARow(g, p)
  {
    if y < 3 && CompareTo3(Cell(g, x, y), Cell(g, x, y + 1), Cell(g, x, y + 2), Cell(g, x, y + 3)) {
      assert FourAt(g, p, x, y, Vertical);
    } else if HasRun(RowLine(g, y), p) {
      RowRunIsFour(g, p, y);
    } else if HasRun(RightDiagLine(g, x, y), p) {
      RightDiagRunIsFour(g, p, x, y);
    } else {
      LeftDiagRunIsFour(g, p, x, y);
    }
  }

  /**
   * Completeness: every four in a row of `p` through the top piece (cx, cy) of its
   * column is reported, whatever its axis.
   */
  lemma FourThroughPieceIsWin(g: Grid, p: SlotState, cx: int, cy: int, x: int, y: int, d: Direction)
    requires WellShaped(g) && OnBoard(cx, cy) && p != Empty && g[cx][cy] == p
    requires forall j :: 0 <= j < cy ==> g[cx][j] == Empty
    requires FourAt(g, p, x, y, d) && Covers(x, y, d, cx, cy)
    ensures WinsAt(g, p, cx, cy)
  {
    match d
    case Vertical =>
      assert g[x][y] == p;
      assert CompareTo3(Cell(g, cx, cy), Cell(g, cx, cy + 1), Cell(g, cx, cy + 2), Cell(g, cx, cy + 3));
    case Horizontal =>
      assert RunAt(RowLine(g, cy), x, p);
    case DownRight =>
      assert RunAt(RightDiagLine(g, cx, cy), 3 - (cx - x), p);
    case UpRight =>
      assert RunAt(LeftDiagLine(g, cx, cy), 3 - (cx - x), p);
  }

  /** A line of four that avoids the changed slot was already on the old board. */
  lemma FourAvoidingSlotWasThere(g: Grid, p: SlotState, cx: nat, cy: nat, q: SlotState, x: int, y: int, d: Direction)
    requires WellShaped(g) && OnBoard(cx, cy)
    requires FourAt(Place(g, cx, cy, q), p, x, y, d) && !Covers(x, y, d, cx, cy)
    ensures FourAt(g, p, x, y, d)
  {
  }

  /**
   * After a drop onto a board without a four of `p`, the check reports a win exactly
   * when the board now has four of `p` in a row.
   */
  lemma DetectsExactlyTheNewFour(g: Grid, column: nat, p: SlotState)
    requires WellShaped(g) && Gravity(g) && column < Columns && p != Empty
    requires LandingRow(g[column]).Some?
    requires !FourInARow(g, p)
    ensures var y := LandingRow(g[column]).value;
            WinsAt(Place(g, column, y, p), p, column, y) <==> FourInARow(Place(g, column, y, p), p)
  {
    var y := LandingRow(g[column]).value;
    var h := Place(g, column, y, p);
    if WinsAt(h, p, column, y) {
      WinIsFourInARow(h, p, column, y);
    }
    if FourInARow(h, p) {
      var x0, y0, d :| FourAt(h, p, x0, y0, d);
      if !Covers(x0, y0, d, column, y) {
        FourAvoidingSlotWasThere(g, p, column, y, p, x0, y0, d);
        assert false;
      }
      AboveLandingIsEmpty(g[column], y);
      FourThroughPieceIsWin(h, p, column, y, x0, y0, d);
    }
  }

  /** A drop by `p` never completes a four of another player. */
  lemma DropNeverCompletesOtherFour(g: Grid, column: nat, row: nat, p: SlotState, q: SlotState)
    requires WellShaped(g) && OnBoard(column, row) && p != q
    requires FourInARow(Place(g, column, row, p), q)
    ensures FourInARow(g, q)
  {
    var h := Place(g, column, row, p);
    var x0, y0, d :| FourAt(h, q, x0, y0, d);
    FourAvoidingSlotWasThere(g, q, column, row, p, x0, y0, d);
  }

  /** The empty board holds no four of any player. */
  lemma EmptyGridHasNoFour(p: SlotState)
    requires p != Empty
    ensures !FourInARow(EmptyGrid(), p)
  {
  }

  /** Three pieces of P1 at the bottom of column 0: the fourth lands on row 2 and wins. */
  lemma VerticalWinExample()
    ensures var g := Place(Place(Place(EmptyGrid(), 0, 5, P1), 0, 4, P1), 0, 3, P1);
            LandingRow(g[0]) == Some(2) && WinsAt(Place(g, 0, 2, P1), P1, 0, 2)
  {
    var g := Place(Place(Place(EmptyGrid(), 0, 5, P1), 0, 4, P1), 0, 3, P1);
    LandingRowIsLowestEmpty(g[0], 2);
    var h := Place(g, 0, 2, P1);
    assert Cell(h, 0, 2) == Cell(h, 0, 3) == Cell(h, 0, 4) == Cell(h, 0, 5) == P1;
  }

  /**
   * A reachable board: P2 at (0, 5), (1, 4), (2, 3) and (3, 2), resting on pieces of P1.
   * The last piece of P2 wins along the rising diagonal; P1 has no win there.
   */
  lemma DiagonalWinExample()
    ensures var g := [[Empty, Empty, Empty, Empty, Empty, P2],
                      [Empty, Empty, Empty, Empty, P2, P1],
                      [Empty, Empty, Empty, P2, P1, P1],
                      [Empty, Empty, P2, P1, P1, P1],
                      [Empty, Empty, Empty, Empty, Empty, Empty],
                      [Empty, Empty, Empty, Empty, Empty, Empty],
                      [Empty, Empty, Empty, Empty, Empty, Empty]];
            Gravity(g) && WinsAt(g, P2, 3, 2) && !WinsAt(g, P1, 3, 2)
  {
    var g := [[Empty, Empty, Empty, Empty, Empty, P2],
              [Empty, Empty, Empty, Empty, P2, P1],
              [Empty, Empty, Empty, P2, P1, P1],
              [Empty, Empty, P2, P1, P1, P1],
              [Empty, Empty, Empty, Empty, Empty, Empty],
              [Empty, Empty, Empty, Empty, Empty, Empty],
              [Empty, Empty, Empty, Empty, Empty, Empty]];
    assert RunAt(LeftDiagLine(g, 3, 2), 0, P2);
  }

  /** P2 at (0, 5), (1, 5), (2, 5) and (3, 5): the bottom row holds four and the win is reported. */
  lemma HorizontalWinExample()
    ensures var g := Place(Place(Place(Place(EmptyGrid(), 0, 5, P2), 1, 5, P2), 2, 5, P2), 3, 5, P2);
            Gravity(g) && WinsAt(g, P2, 3, 5)
  {
    var g := Place(Place(Place(Place(EmptyGrid(), 0, 5, P2), 1, 5, P2), 2, 5, P2), 3, 5, P2);
    assert RunAt(RowLine(g, 5), 0, P2);
  }
}
