/**
 * The pattern matcher of src/lib/winner-logic.ts: pure checks of a ticket
 * grid against the numbers called so far. socket-server.ts carries its own
 * copies (lines 36-107), written as plain function declarations and without
 * the unused array of fixed corner cells that winner-logic.ts builds; they
 * compute the same results on three-row grids, and these functions model
 * both.
 *
 * A ticket is a grid of three rows; a cell is a number or blank (JavaScript
 * `null`). `called` is the `calledNumbers` array; only membership matters.
 */
module Patterns {
  import opened Seqs

  datatype Cell = Blank | Num(value: int)

  type Row = seq<Cell>

  /** `ticket[0]`, `ticket[1]` and `ticket[2]` are always present. */
  type Grid = g: seq<Row> | |g| == 3 witness [[], [], []]

  /** A number cell whose number has been called. */
  predicate Marked(c: Cell, called: seq<int>) {
    c.Num? && c.value in called
  }

  /** `num === null || calledNumbers.includes(num)`: nothing left to mark. */
  predicate Cleared(c: Cell, called: seq<int>) {
    c.Num? ==> c.value in called
  }

  /** Every number of `less` is also in `more`. */
  predicate Includes(more: seq<int>, less: seq<int>) {
    forall x :: x in less ==> x in more
  }

  // ---------------------------------------------------------------------
  // EARLY_FIVE: count the marked cells of the whole ticket.
  // ---------------------------------------------------------------------

  /** Marked cells of one row, counted left to right. */
  function CountRow(row: Row, called: seq<int>): nat {
    if row == [] then 0
    else CountRow(row[..|row| - 1], called) + (if Marked(row[|row| - 1], called) then 1 else 0)
  }

  /** Marked cells of all rows, counted row by row. */
  function CountRows(rows: seq<Row>, called: seq<int>): nat {
    if rows == [] then 0
    else CountRows(rows[..|rows| - 1], called) + CountRow(rows[|rows| - 1], called)
  }

  /** checkEarlyFive: at least five cells of the ticket have been called. */
  predicate EarlyFive(t: Grid, called: seq<int>) {
    CountRows(t, called) >= 5
  }

  /** checkEarlyFive as written: a counter bumped in two nested loops. */
  method CheckEarlyFive(t: Grid, called: seq<int>) returns (won: bool)
    ensures won == EarlyFive(t, called)
    ensures won <==> |Hits(t, called)| >= 5
  {
    var count := 0;
    var r := 0;
    while r < |t|
      invariant 0 <= r <= |t|
      invariant count == CountRows(t[..r], called)
    {
      var row := t[r];
      var c := 0;
      while c < |row|
        invariant 0 <= c <= |row|
        invariant count == CountRows(t[..r], called) + CountRow(row[..c], called)
      {
        if row[c].Num? && row[c].value in called {
          count := count + 1;
        }
        assert row[..c + 1][..c] == row[..c];
        c := c + 1;
      }
      assert row[..c] == row;
      assert t[..r + 1][..r] == t[..r];
      r := r + 1;
    }
    assert t[..r] == t;
    won := count >= 5;
    HitsCount(t, called);
  }

  /** The positions (row, column) of the marked cells. */
  function RowHits(row: Row, called: seq<int>): set<int> {
    set j | 0 <= j < |row| && Marked(row[j], called)
  }

  function Hits(rows: seq<Row>, called: seq<int>): set<(int, int)> {
    set i, j | 0 <= i < |rows| && 0 <= j < |rows[i]| && Marked(rows[i][j], called) :: (i, j)
  }

  lemma {:induction false} RowHitsCount(row: Row, called: seq<int>)
    ensures CountRow(row, called) == |RowHits(row, called)|
  {
    if row != [] {
      var init, n := row[..|row| - 1], |row| - 1;
      RowHitsCount(init, called);
      if Marked(row[n], called) {
        assert RowHits(row, called) == RowHits(init, called) + {n};
      } else {
        assert RowHits(row, called) == RowHits(init, called);
      }
    }
  }

  /** The members of a, each tagged with the row index k. */
  function Tagged<T>(k: int, a: set<T>): set<(int, T)> {
    set j | j in a :: (k, j)
  }

  lemma {:induction false} TaggedSize<T>(k: int, a: set<T>)
    ensures |Tagged(k, a)| == |a|
  {
    if a != {} {
      var x :| x in a;
      TaggedSize(k, a - {x});
      assert Tagged(k, a) == Tagged(k, a - {x}) + {(k, x)};
    }
  }

  /** The marked positions of a grid: those of all rows but the last, then the last row's. */
  lemma HitsSnoc(rows: seq<Row>, called: seq<int>)
    requires rows != []
    ensures Hits(rows, called) ==
      Hits(rows[..|rows| - 1], called) + Tagged(|rows| - 1, RowHits(rows[|rows| - 1], called))
  {
    var init, n := rows[..|rows| - 1], |rows| - 1;
    forall i, j | 0 <= i < n && 0 <= j < |rows[i]| ensures rows[i][j] == init[i][j] {
    }
  }

  /** CountRows counts exactly the marked positions of the grid. */
  lemma {:induction false} HitsCount(rows: seq<Row>, called: seq<int>)
    ensures CountRows(rows, called) == |Hits(rows, called)|
  {
    if rows != [] {
      var init, n := rows[..|rows| - 1], |rows| - 1;
      HitsCount(init, called);
      RowHitsCount(rows[n], called);
      var last := Tagged(n, RowHits(rows[n], called));
      TaggedSize(n, RowHits(rows[n], called));
      HitsSnoc(rows, called);
      assert Hits(init, called) * last == {};
      DisjointUnionSize(Hits(init, called), last);
      assert |last| == CountRow(rows[n], called);
      assert CountRows(rows, called) == CountRows(init, called) + CountRow(rows[n], called);
    }
  }

  // ---------------------------------------------------------------------
  // TOP_LINE, MIDDLE_LINE, BOTTOM_LINE and FULL_HOUSE: early-return scans.
  // ---------------------------------------------------------------------

  /** The row loop: false at the first number not yet called. */
  predicate RowClear(row: Row, called: seq<int>) {
    row == [] || (Cleared(row[0], called) && RowClear(row[1..], called))
  }

  predicate TopLine(t: Grid, called: seq<int>) {
    RowClear(t[0], called)
  }

  predicate MiddleLine(t: Grid, called: seq<int>) {
    RowClear(t[1], called)
  }

  predicate BottomLine(t: Grid, called: seq<int>) {
    RowClear(t[2], called)
  }

  /** The nested loop of checkFullHouse over every row. */
  predicate AllClear(rows: seq<Row>, called: seq<int>) {
    rows == [] || (RowClear(rows[0], called) && AllClear(rows[1..], called))
  }

  predicate FullHouse(t: Grid, called: seq<int>) {
    AllClear(t, called)
  }

  /** A row passes iff each of its number cells has been called; a row of blanks passes. */
  lemma {:induction false} RowClearIff(row: Row, called: seq<int>)
    ensures RowClear(row, called) <==> forall j :: 0 <= j < |row| ==> Cleared(row[j], called)
  {
    if row != [] {
      RowClearIff(row[1..], called);
      assert forall j :: 1 <= j < |row| ==> row[j] == row[1..][j - 1];
    }
  }

  lemma {:induction false} AllClearIff(rows: seq<Row>, called: seq<int>)
    ensures AllClear(rows, called) <==> forall i :: 0 <= i < |rows| ==> RowClear(rows[i], called)
  {
    if rows != [] {
      AllClearIff(rows[1..], called);
      assert forall i :: 1 <= i < |rows| ==> rows[i] == rows[1..][i - 1];
    }
  }

  /** checkFullHouse holds iff every number cell of the ticket has been called. */
  lemma FullHouseIff(t: Grid, called: seq<int>)
    ensures FullHouse(t, called) <==>
      forall i, j :: 0 <= i < 3 && 0 <= j < |t[i]| ==> Cleared(t[i][j], called)
  {
    AllClearIff(t, called);
    RowClearIff(t[0], called);
    RowClearIff(t[1], called);
    RowClearIff(t[2], called);
  }

  /** A full house completes every line. */
  lemma FullHouseHasLines(t: Grid, called: seq<int>)
    requires FullHouse(t, called)
    ensures TopLine(t, called) && MiddleLine(t, called) && BottomLine(t, called)
  {
    AllClearIff(t, called);
  }

  /** ... and, on a ticket with at least five numbers, early five too. */
  lemma FullHouseHasEarlyFive(t: Grid, called: seq<int>)
    requires FullHouse(t, called)
    requires |Numbers(t)| >= 5
    ensures EarlyFive(t, called)
  {
    FullHouseIff(t, called);
    HitsCount(t, called);
    assert Numbers(t) <= Hits(t, called);
    SubsetSize(Numbers(t), Hits(t, called));
  }

  /** The positions of all number cells. */
  function Numbers(rows: seq<Row>): set<(int, int)> {
    set i, j | 0 <= i < |rows| && 0 <= j < |rows[i]| && rows[i][j].Num? :: (i, j)
  }

  // ---------------------------------------------------------------------
  // CORNERS: first and last number of the top and bottom rows.
  // ---------------------------------------------------------------------

  /** The index `row.find(n => n !== null)` stops at; |row| when it finds nothing. */
  function FindIndex(row: Row): (i: nat)
    ensures i <= |row|
    ensures i < |row| ==> row[i].Num?
    ensures forall k :: 0 <= k < i ==> row[k].Blank?
  {
    if row == [] then 0
    else if row[0].Num? then 0
    else 1 + FindIndex(row[1..])
  }

  /** `row.find(n => n !== null)`; Blank stands for `undefined`. */
  function Find(row: Row): Cell {
    var i := FindIndex(row);
    if i < |row| then row[i] else Blank
  }

  /** `[...row].reverse().find(n => n !== null)` */
  function FindLast(row: Row): Cell {
    Find(Reverse(row))
  }

  /** `[...topCorners, ...bottomCorners]` */
  function CornerCells(t: Grid): seq<Cell> {
    [Find(t[0]), FindLast(t[0]), Find(t[2]), FindLast(t[2])]
  }

  predicate Corners(t: Grid, called: seq<int>) {
    forall k :: 0 <= k < 4 ==> Cleared(CornerCells(t)[k], called)
  }

  /** Position i holds the first number of the row. */
  predicate IsFirst(row: Row, i: int) {
    0 <= i < |row| && row[i].Num? && forall k :: 0 <= k < i ==> row[k].Blank?
  }

  /** Position i holds the last number of the row. */
  predicate IsLast(row: Row, i: int) {
    0 <= i < |row| && row[i].Num? && forall k :: i < k < |row| ==> row[k].Blank?
  }

  /** The first and the last number of the row (if any) have been called. */
  predicate EndsCalled(row: Row, called: seq<int>) {
    forall i :: 0 <= i < |row| && (IsFirst(row, i) || IsLast(row, i)) ==> row[i].value in called
  }

  /** find returns the first number of the row, or undefined for a row of blanks. */
  lemma FindIsFirst(row: Row)
    ensures Find(row).Blank? <==> forall k :: 0 <= k < |row| ==> row[k].Blank?
    ensures forall i :: IsFirst(row, i) ==> Find(row) == row[i]
  {
  }

  /** reverse-then-find returns the last number of the row, or undefined. */
  lemma FindLastIsLast(row: Row)
    ensures FindLast(row).Blank? <==> forall k :: 0 <= k < |row| ==> row[k].Blank?
    ensures forall i :: IsLast(row, i) ==> FindLast(row) == row[i]
  {
    var rev := Reverse(row);
    var n := |row|;
    FindIsFirst(rev);
    forall i | IsLast(row, i) ensures FindLast(row) == row[i] {
      assert IsFirst(rev, n - 1 - i) by {
        forall k | 0 <= k < n - 1 - i ensures rev[k].Blank? {
          assert rev[k] == row[n - 1 - k];
        }
      }
    }
    if forall k :: 0 <= k < n ==> rev[k].Blank? {
      forall k | 0 <= k < n ensures row[k].Blank? {
        assert row[k] == rev[n - 1 - k];
      }
    }
  }

  /** checkCorners holds iff the end numbers of the top and bottom rows are called. */
  lemma CornersIff(t: Grid, called: seq<int>)
    ensures Corners(t, called) <==> EndsCalled(t[0], called) && EndsCalled(t[2], called)
  {
    FindIsFirst(t[0]);
    FindIsFirst(t[2]);
    FindLastIsLast(t[0]);
    FindLastIsLast(t[2]);
    var cs := CornerCells(t);
    if Corners(t, called) {
      assert Cleared(cs[0], called) && Cleared(cs[1], called);
      assert Cleared(cs[2], called) && Cleared(cs[3], called);
    }
    if EndsCalled(t[0], called) && EndsCalled(t[2], called) {
      EndFound(t[0], called);
      EndFound(t[2], called);
    }
  }

  lemma EndFound(row: Row, called: seq<int>)
    requires EndsCalled(row, called)
    ensures Cleared(Find(row), called) && Cleared(FindLast(row), called)
  {
    FindIsFirst(row);
    FindLastIsLast(row);
    if Find(row).Num? {
      assert IsFirst(row, FindIndex(row));
    }
    if FindLast(row).Num? {
      LastEndCleared(row, called);
    }
  }

  /** The cell FindLast returns is the row's last number, hence called when the ends are. */
  lemma LastEndCleared(row: Row, called: seq<int>)
    requires EndsCalled(row, called) && FindLast(row).Num?
    ensures Cleared(FindLast(row), called)
  {
    FindLastIsLast(row);
    var rev := Reverse(row);
    var i := FindIndex(rev);
    var n := |row|;
    assert rev[i] == row[n - 1 - i];
    assert IsLast(row, n - 1 - i) by {
      forall k | n - 1 - i < k < n ensures row[k].Blank? {
        assert row[k] == rev[n - 1 - k];
      }
    }
  }

  // ---------------------------------------------------------------------
  // Monotonicity: calling more numbers never undoes a win.
  // ---------------------------------------------------------------------

  lemma {:induction false} CountRowGrows(row: Row, less: seq<int>, more: seq<int>)
    requires Includes(more, less)
    ensures CountRow(row, less) <= CountRow(row, more)
  {
    if row != [] {
      CountRowGrows(row[..|row| - 1], less, more);
    }
  }

  lemma {:induction false} CountRowsGrows(rows: seq<Row>, less: seq<int>, more: seq<int>)
    requires Includes(more, less)
    ensures CountRows(rows, less) <= CountRows(rows, more)
  {
    if rows != [] {
      CountRowsGrows(rows[..|rows| - 1], less, more);
      CountRowGrows(rows[|rows| - 1], less, more);
    }
  }

  lemma RowClearGrows(row: Row, less: seq<int>, more: seq<int>)
    requires Includes(more, less) && RowClear(row, less)
    ensures RowClear(row, more)
  {
    RowClearIff(row, less);
    RowClearIff(row, more);
  }

  lemma EarlyFiveGrows(t: Grid, less: seq<int>, more: seq<int>)
    requires Includes(more, less) && EarlyFive(t, less)
    ensures EarlyFive(t, more)
  {
    CountRowsGrows(t, less, more);
  }

  lemma FullHouseGrows(t: Grid, less: seq<int>, more: seq<int>)
    requires Includes(more, less) && FullHouse(t, less)
    ensures FullHouse(t, more)
  {
    FullHouseIff(t, less);
    FullHouseIff(t, more);
  }

  lemma CornersGrows(t: Grid, less: seq<int>, more: seq<int>)
    requires Includes(more, less) && Corners(t, less)
    ensures Corners(t, more)
  {
    var cs := CornerCells(t);
    assert forall k :: 0 <= k < 4 ==> Cleared(cs[k], less);
  }
}
