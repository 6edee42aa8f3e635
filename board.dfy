/**
 * The 7 x 6 board and the gravity drop. Column `x` holds slots 0 (top) to 5 (bottom);
 * a dropped piece comes to rest in the empty slot with the highest row index.
 */
module Board {
  import opened Slots

  /** A value of the board: a sequence of columns, each a sequence of slots from top to bottom. */
  type Grid = seq<seq<SlotState>>

  predicate WellShaped(g: Grid)
  {
    |g| == Columns && forall x :: 0 <= x < |g| ==> |g[x]| == Rows
  }

  predicate OnBoard(x: int, y: int)
  {
    0 <= x < Columns && 0 <= y < Rows
  }

  /** Bounds-checked access: a coordinate off the board reads as an empty slot. */
  function Cell(g: Grid, x: int, y: int): SlotState
  {
    if 0 <= x < |g| && 0 <= y < |g[x]| then g[x][y] else Empty
  }

  /** The board with every slot empty. */
  function EmptyGrid(): (g: Grid)
    ensures WellShaped(g)
    ensures forall x, y :: Cell(g, x, y) == Empty
  {
    seq(Columns, _ => seq(Rows, _ => Empty))
  }

  /** The board with slot (x, y) set to `p` and every other slot as in `g`. */
  function Place(g: Grid, x: nat, y: nat, p: SlotState): (r: Grid)
    requires WellShaped(g) && OnBoard(x, y)
    ensures WellShaped(r)
    ensures r[x][y] == p
    ensures forall x', y' :: (x', y') != (x, y) ==> Cell(r, x', y') == Cell(g, x', y')
  {
    g[x := g[x][y := p]]
  }

  /** The value held by an array board. */
  function Snapshot(b: array2<SlotState>): (g: Grid)
    reads b
    requires b.Length0 == Columns && b.Length1 == Rows
    ensures WellShaped(g)
    ensures forall x, y :: 0 <= x < Columns && 0 <= y < Rows ==> g[x][y] == b[x, y]
  {
    seq(Columns, x reads b requires 0 <= x < Columns =>
      seq(Rows, y reads b requires 0 <= y < Rows => b[x, y]))
  }

  /** Every slot of the column holds a piece. */
  predicate ColumnFull(col: seq<SlotState>)
  {
    forall j :: 0 <= j < |col| ==> col[j] != Empty
  }

  /**
   * Where a piece dropped into `col` comes to rest: the empty slot with the highest
   * index, or None when the column is full.
   */
  function LandingRow(col: seq<SlotState>): (r: Option<nat>)
    ensures r.None? <==> ColumnFull(col)
    ensures r.Some? ==> r.value < |col| && col[r.value] == Empty
    ensures r.Some? ==> forall j :: r.value < j < |col| ==> col[j] != Empty
    decreases |col|
  {
    if |col| == 0 then None
    else if col[|col| - 1] == Empty then Some(|col| - 1)
    else LandingRow(col[..|col| - 1])
  }

  /** Gravity in one column: every slot below a filled slot is filled too. */
  predicate Settled(col: seq<SlotState>)
  {
    forall i, j :: 0 <= i < j < |col| && col[i] != Empty ==> col[j] != Empty
  }

  /** Gravity on the whole board: no piece floats above an empty slot. */
  predicate Gravity(g: Grid)
  {
    forall x :: 0 <= x < |g| ==> Settled(g[x])
  }

  /**
   * Drop `p` into column `column` of the board: write it into the lowest empty slot and
   * return where it came to rest. A full column is left alone and gives None.
   */
  method UpdateBoard(b: array2<SlotState>, p: SlotState, column: nat) returns (r: Option<Move>)
    requires b.Length0 == Columns && b.Length1 == Rows
    requires column < Columns
    modifies b
    ensures r == match LandingRow(old(Snapshot(b))[column])
                 case None => None
                 case Some(y) => Some(Move(column, y))
    ensures r.None? ==> Snapshot(b) == old(Snapshot(b))
    ensures r.Some? ==> r.value.row < Rows &&
                        Snapshot(b) == Place(old(Snapshot(b)), column, r.value.row, p)
  {
    ghost var g := Snapshot(b);
    var i := Rows - 1;
    while i >= 0
      invariant -1 <= i < Rows
      invariant Snapshot(b) == g
      invariant forall j :: i < j < Rows ==> g[column][j] != Empty
    {
      if b[column, i] == Empty {
        b[column, i] := p;
        LandingRowIsLowestEmpty(g[column], i);
        SameSlotsSameGrid(Snapshot(b), Place(g, column, i, p));
        return Some(Move(column, i));
      }
      i := i - 1;
    }
    return None;
  }

  /** Empty every slot of the board. */
  method Reset(b: array2<SlotState>)
    requires b.Length0 == Columns && b.Length1 == Rows
    modifies b
    ensures Snapshot(b) == EmptyGrid()
  {
    forall x, y | 0 <= x < Columns && 0 <= y < Rows {
      b[x, y] := Empty;
    }
    SameSlotsSameGrid(Snapshot(b), EmptyGrid());
  }

  /** Two well-shaped boards with the same slots are the same board. */
  lemma SameSlotsSameGrid(g: Grid, h: Grid)
    requires WellShaped(g) && WellShaped(h)
    requires forall x, y :: 0 <= x < Columns && 0 <= y < Rows ==> Cell(g, x, y) == Cell(h, x, y)
    ensures g == h
  {
    forall x | 0 <= x < Columns ensures g[x] == h[x] {
      forall y | 0 <= y < Rows ensures g[x][y] == h[x][y] {
        assert Cell(g, x, y) == Cell(h, x, y);
      }
    }
  }

  /** LandingRow is determined by its contract: the empty slot below which all are filled. */
  lemma LandingRowIsLowestEmpty(col: seq<SlotState>, y: nat)
    requires y < |col| && col[y] == Empty
    requires forall j :: y < j < |col| ==> col[j] != Empty
    ensures LandingRow(col) == Some(y)
  {
  }

  /** On an empty column a piece comes to rest on the bottom row. */
  lemma EmptyColumnLandsAtBottom(g: Grid, x: nat)
    requires g == EmptyGrid() && x < Columns
    ensures LandingRow(g[x]) == Some(Rows - 1)
  {
    assert Cell(g, x, Rows - 1) == Empty;
    LandingRowIsLowestEmpty(g[x], Rows - 1);
  }

  /** In a settled column, every slot above the landing slot is empty. */
  lemma AboveLandingIsEmpty(col: seq<SlotState>, y: nat)
    requires Settled(col) && LandingRow(col) == Some(y)
    ensures forall j :: 0 <= j <= y ==> col[j] == Empty
  {
  }

  /** A drop keeps the gravity invariant. */
  lemma DropKeepsGravity(g: Grid, x: nat, p: SlotState)
    requires WellShaped(g) && Gravity(g) && x < Columns && p != Empty
    requires LandingRow(g[x]).Some?
    ensures Gravity(Place(g, x, LandingRow(g[x]).value, p))
  {
    var y := LandingRow(g[x]).value;
    var r := Place(g, x, y, p);
    assert r[x] == g[x][y := p];
    forall x' | 0 <= x' < |r| ensures Settled(r[x']) {
      if x' != x {
        assert r[x'] == g[x'];
      }
    }
  }

  /**
   * Each drop into a settled column raises the landing slot by one row; the drop into
   * row 0 fills the column, so a seventh drop into one column is refused.
   */
  lemma DropRaisesLandingRow(col: seq<SlotState>, p: SlotState)
    requires Settled(col) && p != Empty && LandingRow(col).Some?
    ensures var y := LandingRow(col).value;
            LandingRow(col[y := p]) == if y == 0 then None else Some(y - 1)
  {
    var y := LandingRow(col).value;
    AboveLandingIsEmpty(col, y);
    if y > 0 {
      LandingRowIsLowestEmpty(col[y := p], y - 1);
    }
  }

  /** The column after dropping the pieces `ps` into it one after another; a drop into a full column changes nothing. */
  ghost function DropAll(col: seq<SlotState>, ps: seq<SlotState>): seq<SlotState>
    decreases |ps|
  {
    if ps == [] then col
    else match LandingRow(col)
      case None => DropAll(col, ps[1..])
      case Some(y) => DropAll(col[y := ps[0]], ps[1..])
  }

  /** A drop into a settled column leaves it settled. */
  lemma DropKeepsSettled(col: seq<SlotState>, p: SlotState)
    requires Settled(col) && p != Empty && LandingRow(col).Some?
    ensures Settled(col[LandingRow(col).value := p])
  {
  }

  /** A settled column with its landing slot on row `y` is full after exactly y + 1 drops. */
  lemma {:induction false} DropsFillColumn(col: seq<SlotState>, ps: seq<SlotState>)
    requires Settled(col) && LandingRow(col).Some?
    requires |ps| == LandingRow(col).value + 1
    requires forall i :: 0 <= i < |ps| ==> ps[i] != Empty
    ensures ColumnFull(DropAll(col, ps))
    decreases |ps|
  {
    var y := LandingRow(col).value;
    var c := col[y := ps[0]];
    DropRaisesLandingRow(col, ps[0]);
    if y == 0 {
      assert ps[1..] == [];
      assert DropAll(col, ps) == DropAll(c, []) == c;
    } else {
      DropKeepsSettled(col, ps[0]);
      DropsFillColumn(c, ps[1..]);
    }
  }

  /** Six drops fill an empty column, so a seventh drop into it is refused. */
  lemma SixDropsFillEmptyColumn(ps: seq<SlotState>)
    requires |ps| == Rows && forall i :: 0 <= i < |ps| ==> ps[i] != Empty
    ensures LandingRow(DropAll(seq(Rows, _ => Empty), ps)) == None
  {
    var col: seq<SlotState> := seq(Rows, _ => Empty);
    LandingRowIsLowestEmpty(col, Rows - 1);
    DropsFillColumn(col, ps);
  }

  /** The empty board obeys gravity. */
  lemma EmptyGridSettled()
    ensures Gravity(EmptyGrid())
  {
  }
}
