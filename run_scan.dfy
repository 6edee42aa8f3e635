/** The run scan: does a line of slots contain four consecutive slots of one player? */
module RunScan {
  import opened Slots

  /** True when the four slots are all equal to each other. */
  function CompareTo3(a: SlotState, b: SlotState, c: SlotState, d: SlotState): (r: bool)
    ensures r <==> |{a, b, c, d}| == 1
  {
    a == b && a == c && a == d
  }

  /** The four slots of `line` starting at `i` all hold `p`. */
  predicate RunAt(line: seq<SlotState>, i: int, p: SlotState)
  {
    0 <= i && i + 4 <= |line| &&
    line[i] == p && line[i + 1] == p && line[i + 2] == p && line[i + 3] == p
  }

  /** Specification of the scan: some four consecutive slots of `line` hold `p`. */
  predicate HasRun(line: seq<SlotState>, p: SlotState)
  {
    exists i | 0 <= i <= |line| - 4 :: RunAt(line, i, p)
  }

  /**
   * The scan itself: count consecutive slots equal to `p`, reset the count on any
   * other slot, stop as soon as the count reaches four.
   */
  method Find4(line: seq<SlotState>, p: SlotState) returns (found: bool)
    ensures found <==> HasRun(line, p)
  {
    var adjCount := 0;
    for k := 0 to |line|
      invariant 0 <= adjCount < 4 && adjCount <= k
      invariant forall j :: k - adjCount <= j < k ==> line[j] == p
      invariant adjCount < k ==> line[k - adjCount - 1] != p
      invariant forall i :: 0 <= i <= k - 4 ==> !RunAt(line, i, p)
    {
      if line[k] == p {
        adjCount := adjCount + 1;
        if adjCount == 4 {
          assert RunAt(line, k - 3, p);
          break;
        }
      } else {
        adjCount := 0;
      }
    }
    found := adjCount >= 4;
  }

  /** A line shorter than four slots never holds a run. */
  lemma ShortLineHasNoRun(line: seq<SlotState>, p: SlotState)
    requires |line| < 4
    ensures !HasRun(line, p)
  {
  }

  /** A run broken only by the opponent's piece is still found further on. */
  lemma RunAfterOpponentPiece()
    ensures HasRun([P1, P1, P2, P1, P1, P1, P1], P1)
  {
    assert RunAt([P1, P1, P2, P1, P1, P1, P1], 3, P1);
  }

  /** An empty slot breaks a run: three and three do not make four. */
  lemma EmptySlotBreaksRun()
    ensures !HasRun([P1, P1, P1, Empty, P1, P1, P1], P1)
  {
  }
}
