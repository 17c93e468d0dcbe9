/**
 * The admin's number pad, src/components/admin/admin-number-pad.tsx: the
 * board of 1..90 in nine columns, the count of numbers still to call, and
 * the click handler that calls a number at most once at a time.
 *
 * The click handler awaits the call; the model splits it at the await into
 * `BeginCall` (the guard and the flags set before the call) and
 * `FinishCall` (the `finally` block, with the call's outcome as an input).
 * Toast texts and rendering are not modelled.
 */
module NumberPad {
  import opened Seqs
  import opened GameModel
  import Generator

  /** First number of pad column c. */
  function ColStart(c: int): int {
    if c == 0 then 1 else c * 10
  }

  /** Last number of pad column c. */
  function ColEnd(c: int): int {
    if c == 8 then 90 else (c + 1) * 10 - 1
  }

  /** The pad's column ranges are the generator's column ranges. */
  lemma SameRangesAsGenerator(c: int)
    requires 0 <= c < 9
    ensures ColStart(c) == Generator.ColMin(c) && ColEnd(c) == Generator.ColMax(c)
  {
  }

  /** Column c of the board: ColStart(c)..ColEnd(c), ascending. */
  function PadColumn(c: int): (r: seq<int>)
    requires 0 <= c < 9
    ensures |r| == ColEnd(c) - ColStart(c) + 1
    ensures forall k :: 0 <= k < |r| ==> r[k] == ColStart(c) + k
  {
    seq(ColEnd(c) - ColStart(c) + 1, k => ColStart(c) + k)
  }

  /** getNumbersByColumn: the two nested push loops. */
  method NumbersByColumn() returns (columns: seq<seq<int>>)
    ensures |columns| == 9
    ensures forall c :: 0 <= c < 9 ==> columns[c] == PadColumn(c)
  {
    columns := [];
    for col := 0 to 9
      invariant |columns| == col
      invariant forall c :: 0 <= c < col ==> columns[c] == PadColumn(c)
    {
      var start := if col == 0 then 1 else col * 10;
      var end := if col == 8 then 90 else (col + 1) * 10 - 1;
      var nums: seq<int> := [];
      var n := start;
      while n <= end
        invariant start <= n <= end + 1
        invariant nums == seq(n - start, k => start + k)
      {
        nums := nums + [n];
        n := n + 1;
      }
      columns := columns + [nums];
    }
  }

  /** The columns one after another. */
  function Flatten(columns: seq<seq<int>>): seq<int> {
    if columns == [] then []
    else Flatten(columns[..|columns| - 1]) + columns[|columns| - 1]
  }

  /** The board's first c columns, read in order, are exactly 1, 2, …, ColStart(c) - 1. */
  lemma {:induction false} BoardPrefix(columns: seq<seq<int>>, c: int)
    requires |columns| == 9 && forall d :: 0 <= d < 9 ==> columns[d] == PadColumn(d)
    requires 0 <= c <= 9
    ensures Flatten(columns[..c]) == seq(if c == 9 then 90 else ColStart(c) - 1, i => i + 1)
  {
    if c > 0 {
      BoardPrefix(columns, c - 1);
      assert columns[..c][..c - 1] == columns[..c - 1];
      var before := Flatten(columns[..c - 1]);
      var col := columns[c - 1];
      var all := seq(if c == 9 then 90 else ColStart(c) - 1, i => i + 1);
      assert |before| + |col| == |all|;
      forall i | 0 <= i < |all| ensures (before + col)[i] == all[i] {
        if i >= |before| {
          assert col[i - |before|] == ColStart(c - 1) + (i - |before|);
        }
      }
    }
  }

  /** The board partitions 1..90: read column by column it is 1, 2, …, 90, each once. */
  lemma BoardIsOneToNinety(columns: seq<seq<int>>)
    requires |columns| == 9 && forall d :: 0 <= d < 9 ==> columns[d] == PadColumn(d)
    ensures Flatten(columns) == seq(90, i => i + 1)
  {
    BoardPrefix(columns, 9);
    assert columns[..9] == columns;
  }

  /** remainingNumbers */
  function Remaining(drawnNumbers: seq<int>): int {
    90 - |drawnNumbers|
  }

  /**
   * When the drawn numbers are distinct and within 1..90, the count the pad
   * shows is the number of pad numbers not yet drawn.
   */
  lemma RemainingIsUndrawn(drawnNumbers: seq<int>)
    requires Distinct(drawnNumbers) && forall i :: 0 <= i < |drawnNumbers| ==> 1 <= drawnNumbers[i] <= 90
    ensures |Span(1, 90) - (set x | x in drawnNumbers)| == Remaining(drawnNumbers)
  {
    UncoveredSize(drawnNumbers, 1, 90);
  }

  /** The pad's own state: the number being called and whether a call is in progress. */
  class Pad {
    var selectedNumber: Option<int>
    var isCallingNumber: bool

    constructor ()
      ensures selectedNumber == None && !isCallingNumber
    {
      selectedNumber := None;
      isCallingNumber := false;
    }

    /**
     * The start of handleNumberClick: a click is ignored when the pad is
     * disabled, the number is drawn, or a call is in progress; otherwise
     * the number is selected and a call begins.
     */
    method BeginCall(num: int, disabled: bool, drawnNumbers: seq<int>) returns (started: bool)
      modifies this
      ensures started <==> !disabled && num !in drawnNumbers && !old(isCallingNumber)
      ensures started ==> selectedNumber == Some(num) && isCallingNumber
      ensures !started ==> unchanged(this)
    {
      if disabled || num in drawnNumbers || isCallingNumber {
        return false;
      }
      selectedNumber := Some(num);
      isCallingNumber := true;
      started := true;
    }

    /** The `finally` block: whether the call succeeded or failed, the pad is free again. */
    method FinishCall(succeeded: bool) returns (toastSuccess: bool)
      modifies this
      ensures selectedNumber == None && !isCallingNumber
      ensures toastSuccess == succeeded
    {
      selectedNumber := None;
      isCallingNumber := false;
      toastSuccess := succeeded;
    }
  }

  /**
   * Two clicks before any call finishes, from whatever state the pad is in:
   * at most one of them starts a call, and a pad already calling ignores both.
   */
  method TwoClicks(pad: Pad, a: int, b: int, disabled: bool, drawnNumbers: seq<int>) returns (first: bool, second: bool)
    modifies pad
    ensures first <==> !disabled && a !in drawnNumbers && !old(pad.isCallingNumber)
    ensures first ==> !second && pad.selectedNumber == Some(a)
    ensures !first ==> (second <==> !disabled && b !in drawnNumbers && !old(pad.isCallingNumber))
    ensures old(pad.isCallingNumber) ==> !first && !second && unchanged(pad)
  {
    first := pad.BeginCall(a, disabled, drawnNumbers);
    second := pad.BeginCall(b, disabled, drawnNumbers);
  }
}
