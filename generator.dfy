/**
 * generateTicket of src/lib/tambola-generator.ts: a 3 x 9 grid, five
 * numbers per row, each column drawing from its own range without repeats,
 * and a final pass that sorts every column's numbers top to bottom while
 * keeping the blank cells where they are.
 *
 * `Math.random` becomes a choice (`:|`) of an acceptable value. The retry
 * loops (adding a column already in the set, drawing a number the column
 * already holds) only repeat until such a value comes up, so each is one
 * choice here.
 */
module Generator {
  import opened Seqs
  import opened Patterns

  /** getNum's lower bound: 1 for column 0, else 10c. */
  function ColMin(c: int): int {
    c * 10 + (if c == 0 then 1 else 0)
  }

  /** getNum's upper bound: 90 for column 8, else 10c + 9. */
  function ColMax(c: int): int {
    c * 10 + (if c == 8 then 10 else 9)
  }

  /** Every column's range holds at least nine numbers, so a column of three never runs dry. */
  lemma ColumnRangeSize(c: int)
    requires 0 <= c < 9
    ensures ColMax(c) - ColMin(c) + 1 >= 9
    ensures 1 <= ColMin(c) && ColMax(c) <= 90
  {
  }

  predicate InRange(s: seq<int>, lo: int, hi: int) {
    forall i :: 0 <= i < |s| ==> lo <= s[i] <= hi
  }

  /** `cells.filter(n => n !== null)`: the numbers, top to bottom. */
  function Values(cells: seq<Cell>): seq<int> {
    if cells == [] then []
    else
      var n := |cells| - 1;
      Values(cells[..n]) + (if cells[n].Num? then [cells[n].value] else [])
  }

  /** The positions of the number cells. */
  function NumPositions(cells: seq<Cell>): set<int> {
    set j | 0 <= j < |cells| && cells[j].Num?
  }

  /** There are as many numbers as number cells. */
  lemma {:induction false} ValuesCount(cells: seq<Cell>)
    ensures |Values(cells)| == |NumPositions(cells)|
  {
    if cells != [] {
      var n := |cells| - 1;
      ValuesCount(cells[..n]);
      if cells[n].Num? {
        assert NumPositions(cells) == NumPositions(cells[..n]) + {n};
      } else {
        assert NumPositions(cells) == NumPositions(cells[..n]);
      }
    }
  }

  /** Each number cell's value is among the values. */
  lemma {:induction false} ValuesHas(cells: seq<Cell>, i: int)
    requires 0 <= i < |cells| && cells[i].Num?
    ensures cells[i].value in Values(cells)
  {
    var n := |cells| - 1;
    if i < n {
      ValuesHas(cells[..n], i);
    }
  }

  lemma {:induction false} ValuesPrefix(cells: seq<Cell>, k: nat)
    requires k <= |cells|
    ensures |Values(cells[..k])| <= |Values(cells)|
    decreases |cells| - k
  {
    if k < |cells| {
      ValuesPrefix(cells, k + 1);
      assert cells[..k + 1][..k] == cells[..k];
    } else {
      assert cells[..k] == cells;
    }
  }

  /** Filling a blank cell below which there are only blanks appends its number. */
  lemma {:induction false} ValuesFill(cells: seq<Cell>, k: nat, v: int)
    requires k < |cells| && forall i :: k <= i < |cells| ==> cells[i].Blank?
    ensures Values(cells[k := Num(v)]) == Values(cells) + [v]
  {
    var n := |cells| - 1;
    if k < n {
      ValuesFill(cells[..n], k, v);
      assert cells[k := Num(v)][..n] == cells[..n][k := Num(v)];
    } else {
      assert cells[k := Num(v)][..n] == cells[..n];
    }
  }

  /**
   * The rewrite loop of the sort pass: each number cell, top to bottom,
   * takes the next of `nums`; blank cells stay blank.
   */
  function Refill(cells: seq<Cell>, nums: seq<int>): (r: seq<Cell>)
    requires |Values(cells)| <= |nums|
    ensures |r| == |cells|
    ensures forall i :: 0 <= i < |cells| ==> r[i].Num? == cells[i].Num?
    ensures Values(r) == nums[..|Values(cells)|]
  {
    if cells == [] then []
    else
      var n := |cells| - 1;
      ValuesPrefix(cells, n);
      var init := Refill(cells[..n], nums);
      var k := |Values(cells[..n])|;
      var r := init + [if cells[n].Num? then Num(nums[k]) else Blank];
      assert r[..n] == init;
      if cells[n].Num? then
        assert nums[..k + 1] == nums[..k] + [nums[k]];
        r
      else r
  }

  /** A column after the sort pass. */
  function SortedColumn(cells: seq<Cell>): (r: seq<Cell>)
    ensures |r| == |cells|
    ensures forall i :: 0 <= i < |cells| ==> r[i].Num? == cells[i].Num?
    ensures Values(r) == Sort(Values(cells))
  {
    var nums := Sort(Values(cells));
    assert nums[..|nums|] == nums;
    Refill(cells, nums)
  }

  /** The sort pass orders a column and keeps its numbers and its layout. */
  lemma SortedColumnProps(cells: seq<Cell>, lo: int, hi: int)
    requires Distinct(Values(cells)) && InRange(Values(cells), lo, hi)
    ensures StrictlyAscending(Values(SortedColumn(cells)))
    ensures multiset(Values(SortedColumn(cells))) == multiset(Values(cells))
    ensures InRange(Values(SortedColumn(cells)), lo, hi)
  {
    var before, after := Values(cells), Values(SortedColumn(cells));
    DistinctPart(before, after);
    AscendingDistinct(after);
    forall i | 0 <= i < |after| ensures lo <= after[i] <= hi {
      assert after[i] in multiset(before);
    }
  }

  // ---------------------------------------------------------------------
  // The grid as an array.
  // ---------------------------------------------------------------------

  /** `ticket.map(row => row[col])` */
  function ColumnOf(t: array2<Cell>, c: int): (cells: seq<Cell>)
    requires 0 <= c < t.Length1
    reads t
    ensures |cells| == t.Length0
    ensures forall i :: 0 <= i < t.Length0 ==> cells[i] == t[i, c]
  {
    seq(t.Length0, i requires 0 <= i < t.Length0 reads t => t[i, c])
  }

  function RowOf(t: array2<Cell>, r: int): (cells: seq<Cell>)
    requires 0 <= r < t.Length0
    reads t
    ensures |cells| == t.Length1
    ensures forall j :: 0 <= j < t.Length1 ==> cells[j] == t[r, j]
  {
    seq(t.Length1, j requires 0 <= j < t.Length1 reads t => t[r, j])
  }

  /** The column of a grid value; a short row reads as blank. */
  function Column(g: seq<Row>, c: int): (cells: seq<Cell>)
    ensures |cells| == |g|
    ensures forall i :: 0 <= i < |g| && 0 <= c < |g[i]| ==> cells[i] == g[i][c]
  {
    seq(|g|, i requires 0 <= i < |g| => if 0 <= c < |g[i]| then g[i][c] else Blank)
  }

  /** The cell at position i after the rewrite: the next unused number, or blank. */
  function Slot(cells: seq<Cell>, nums: seq<int>, i: int): Cell
    requires 0 <= i < |cells| && |Values(cells)| <= |nums|
  {
    ValuesPrefix(cells, i + 1);
    assert cells[..i + 1][..i] == cells[..i];
    if cells[i].Num? then Num(nums[|Values(cells[..i])|]) else Blank
  }

  /** Refill puts each cell's slot in place. */
  lemma {:induction false} RefillAt(cells: seq<Cell>, nums: seq<int>)
    requires |Values(cells)| <= |nums|
    ensures forall i :: 0 <= i < |cells| ==> Refill(cells, nums)[i] == Slot(cells, nums, i)
  {
    if cells != [] {
      var n := |cells| - 1;
      ValuesPrefix(cells, n);
      RefillAt(cells[..n], nums);
      forall i | 0 <= i < n ensures Refill(cells, nums)[i] == Slot(cells, nums, i) {
        assert cells[..n][..i] == cells[..i];
      }
    }
  }

  /** The rewrite loop: the column's number cells take `nums` in order, top to bottom. */
  method WriteColumn(t: array2<Cell>, col: int, cells: seq<Cell>, nums: seq<int>)
    requires t.Length0 == 3 && 0 <= col < t.Length1
    requires |cells| == 3 && forall i :: 0 <= i < 3 ==> t[i, col] == cells[i]
    requires |Values(cells)| <= |nums|
    modifies t
    ensures forall i :: 0 <= i < 3 ==> t[i, col] == Slot(cells, nums, i)
    ensures forall i, c :: 0 <= i < 3 && 0 <= c < t.Length1 && c != col ==> t[i, c] == old(t[i, c])
  {
    var numIdx := 0;
    for row := 0 to 3
      invariant numIdx == |Values(cells[..row])|
      invariant forall i :: 0 <= i < row ==> t[i, col] == Slot(cells, nums, i)
      invariant forall i :: row <= i < 3 ==> t[i, col] == cells[i]
      invariant forall i, c :: 0 <= i < 3 && 0 <= c < t.Length1 && c != col ==> t[i, c] == old(t[i, c])
    {
      ValuesPrefix(cells, row + 1);
      assert cells[..row + 1][..row] == cells[..row];
      if t[row, col].Num? {
        t[row, col] := Num(nums[numIdx]);
        numIdx := numIdx + 1;
      }
    }
  }

  /** One iteration of the column-sort loop: sort the column's numbers and write them back. */
  method SortColumn(t: array2<Cell>, col: int)
    requires t.Length0 == 3 && 0 <= col < t.Length1
    modifies t
    ensures forall i :: 0 <= i < 3 ==> t[i, col] == SortedColumn(old(ColumnOf(t, col)))[i]
    ensures forall i, c :: 0 <= i < 3 && 0 <= c < t.Length1 && c != col ==> t[i, c] == old(t[i, c])
  {
    var cells := ColumnOf(t, col);
    var nums := Sort(Values(cells));
    WriteColumn(t, col, cells, nums);
    RefillAt(cells, nums);
  }

  /** The final column-sort loop, rewriting the array in place. */
  method SortColumns(t: array2<Cell>)
    requires t.Length0 == 3 && t.Length1 == 9
    modifies t
    ensures forall i, c :: 0 <= i < 3 && 0 <= c < 9 ==> t[i, c] == SortedColumn(old(ColumnOf(t, c)))[i]
  {
    ghost var cols := Columns(t);
    for col := 0 to 9
      invariant forall i, c :: 0 <= i < 3 && 0 <= c < col ==> t[i, c] == SortedColumn(cols[c])[i]
      invariant forall i, c :: 0 <= i < 3 && col <= c < 9 ==> t[i, c] == old(t[i, c])
    {
      assert ColumnOf(t, col) == cols[col];
      SortColumn(t, col);
    }
  }

  // ---------------------------------------------------------------------
  // Placing five numbers in each row.
  // ---------------------------------------------------------------------

  /** A set of fewer values than lo..hi misses one of them. */
  lemma SetMissing(s: set<int>, lo: int, hi: int)
    requires lo <= hi + 1 && |s| < hi - lo + 1
    ensures exists x :: lo <= x <= hi && x !in s
  {
    if forall x :: lo <= x <= hi ==> x in s {
      SpanSize(lo, hi);
      SubsetSize(Span(lo, hi), s);
    }
  }

  /**
   * `columns[c]` lists column c's numbers top to bottom, without repeats and
   * within the column's range; after n rows it holds at most n numbers.
   */
  predicate ColumnsInv(t: array2<Cell>, columns: seq<seq<int>>, n: int)
    requires t.Length0 == 3 && t.Length1 == 9
    reads t
  {
    |columns| == 9 &&
    forall c :: 0 <= c < 9 ==>
      columns[c] == Values(ColumnOf(t, c)) && Distinct(columns[c]) && |columns[c]| <= n &&
      InRange(columns[c], ColMin(c), ColMax(c))
  }

  /** Five distinct column indices, drawn one at a time until there are five. */
  method PickColumns() returns (indices: set<int>)
    ensures |indices| == 5
    ensures forall x :: x in indices ==> 0 <= x < 9
  {
    indices := {};
    while |indices| < 5
      invariant |indices| <= 5
      invariant forall x :: x in indices ==> 0 <= x < 9
      decreases 5 - |indices|
    {
      SetMissing(indices, 0, 8);
      var c :| 0 <= c <= 8 && c !in indices;
      indices := indices + {c};
    }
  }

  /**
   * Puts into cell (row, col) a number of the column's range that the
   * column does not hold yet; `column` lists the column's numbers so far.
   */
  method PlaceNumber(t: array2<Cell>, row: int, col: int, column: seq<int>) returns (column': seq<int>)
    requires t.Length0 == 3 && t.Length1 == 9 && 0 <= row < 3 && 0 <= col < 9
    requires column == Values(ColumnOf(t, col)) && |column| <= row
    requires Distinct(column) && InRange(column, ColMin(col), ColMax(col))
    requires forall i :: row <= i < 3 ==> t[i, col].Blank?
    modifies t
    ensures column' == Values(ColumnOf(t, col)) && |column'| == |column| + 1
    ensures Distinct(column') && InRange(column', ColMin(col), ColMax(col))
    ensures t[row, col].Num?
    ensures forall i, j :: 0 <= i < 3 && 0 <= j < 9 && (i, j) != (row, col) ==> t[i, j] == old(t[i, j])
    ensures forall c :: 0 <= c < 9 && c != col ==> ColumnOf(t, c) == old(ColumnOf(t, c))
  {
    MissingFromRange(column, ColMin(col), ColMax(col));
    var num :| ColMin(col) <= num <= ColMax(col) && num !in column;
    var before := ColumnOf(t, col);
    ValuesFill(before, row, num);
    t[row, col] := Num(num);
    assert ColumnOf(t, col) == before[row := Num(num)];
    column' := column + [num];
    forall c | 0 <= c < 9 && c != col ensures ColumnOf(t, c) == old(ColumnOf(t, c)) {
    }
  }

  /**
   * One pass of the row loop: pick five distinct columns, then give each
   * picked column, left to right, a number of its range it does not hold yet.
   */
  method FillRow(t: array2<Cell>, row: int, columns: seq<seq<int>>) returns (cols: seq<seq<int>>)
    requires t.Length0 == 3 && t.Length1 == 9 && 0 <= row < 3
    requires ColumnsInv(t, columns, row)
    requires forall i, j :: row <= i < 3 && 0 <= j < 9 ==> t[i, j].Blank?
    modifies t
    ensures ColumnsInv(t, cols, row + 1)
    ensures |NumPositions(RowOf(t, row))| == 5
    ensures forall i, j :: 0 <= i < 3 && i != row && 0 <= j < 9 ==> t[i, j] == old(t[i, j])
  {
    var indices := PickColumns();
    cols := columns;
    for col := 0 to 9
      invariant RowFill(t, row, cols, indices, col)
      invariant forall i, j :: 0 <= i < 3 && i != row && 0 <= j < 9 ==> t[i, j] == old(t[i, j])
    {
      cols := FillCell(t, row, col, cols, indices);
    }
    RowPositions(t, row, indices);
  }

  /**
   * The state of the row pass before column `col`: the column lists match
   * the array, stay repeat-free and in range, and the columns already
   * visited gained at most one number; the row's number cells so far are
   * the picked ones, and the rest of the row and the rows below are blank.
   */
  predicate RowFill(t: array2<Cell>, row: int, cols: seq<seq<int>>, indices: set<int>, col: int)
    requires t.Length0 == 3 && t.Length1 == 9 && 0 <= row < 3
    reads t
  {
    |cols| == 9 &&
    (forall c :: 0 <= c < 9 ==>
      cols[c] == Values(ColumnOf(t, c)) && Distinct(cols[c]) && InRange(cols[c], ColMin(c), ColMax(c)) &&
      |cols[c]| <= row + (if c < col then 1 else 0)) &&
    (forall j :: 0 <= j < 9 && j < col ==> (t[row, j].Num? <==> j in indices)) &&
    (forall j :: 0 <= j < 9 && col <= j ==> t[row, j].Blank?) &&
    (forall i, j :: row < i < 3 && 0 <= j < 9 ==> t[i, j].Blank?)
  }

  /** One column of the row pass: a picked column gets a number, any other stays blank. */
  method FillCell(t: array2<Cell>, row: int, col: int, cols: seq<seq<int>>, indices: set<int>)
    returns (cols': seq<seq<int>>)
    requires t.Length0 == 3 && t.Length1 == 9 && 0 <= row < 3 && 0 <= col < 9
    requires RowFill(t, row, cols, indices, col)
    modifies t
    ensures RowFill(t, row, cols', indices, col + 1)
    ensures forall i, j :: 0 <= i < 3 && i != row && 0 <= j < 9 ==> t[i, j] == old(t[i, j])
  {
    cols' := cols;
    if col in indices {
      var column := PlaceNumber(t, row, col, cols[col]);
      cols' := cols[col := column];
    }
  }

  /** A row whose number cells are exactly the picked columns has as many numbers as picks. */
  lemma RowPositions(t: array2<Cell>, row: int, indices: set<int>)
    requires t.Length0 == 3 && t.Length1 == 9 && 0 <= row < 3
    requires forall j :: 0 <= j < 9 ==> (t[row, j].Num? <==> j in indices)
    requires forall x :: x in indices ==> 0 <= x < 9
    ensures NumPositions(RowOf(t, row)) == indices
  {
  }

  /** A column of blanks has no numbers. */
  lemma {:induction false} ValuesBlank(cells: seq<Cell>)
    requires forall i :: 0 <= i < |cells| ==> cells[i].Blank?
    ensures Values(cells) == []
  {
    if cells != [] {
      ValuesBlank(cells[..|cells| - 1]);
    }
  }

  /** The row loop of generateTicket: five numbers placed in each of the three rows. */
  method PlaceNumbers(t: array2<Cell>)
    requires t.Length0 == 3 && t.Length1 == 9
    requires forall i, j :: 0 <= i < 3 && 0 <= j < 9 ==> t[i, j].Blank?
    modifies t
    ensures forall c :: 0 <= c < 9 ==>
      Distinct(Values(ColumnOf(t, c))) && InRange(Values(ColumnOf(t, c)), ColMin(c), ColMax(c))
    ensures forall i :: 0 <= i < 3 ==> |NumPositions(RowOf(t, i))| == 5
  {
    var columns: seq<seq<int>> := seq(9, c => []);
    forall c | 0 <= c < 9 ensures Values(ColumnOf(t, c)) == [] {
      ValuesBlank(ColumnOf(t, c));
    }
    for row := 0 to 3
      invariant ColumnsInv(t, columns, row)
      invariant forall i, j :: row <= i < 3 && 0 <= j < 9 ==> t[i, j].Blank?
      invariant forall i :: 0 <= i < row ==> |NumPositions(RowOf(t, i))| == 5
    {
      label L:
      columns := FillRow(t, row, columns);
      forall i | 0 <= i < row ensures RowOf(t, i) == old@L(RowOf(t, i)) {
      }
    }
  }

  /** The columns of a 3 x 9 array, left to right. */
  function Columns(t: array2<Cell>): (cols: seq<seq<Cell>>)
    requires t.Length0 == 3 && t.Length1 == 9
    reads t
    ensures |cols| == 9
    ensures forall c :: 0 <= c < 9 ==> cols[c] == ColumnOf(t, c)
  {
    seq(9, c requires 0 <= c < 9 reads t => ColumnOf(t, c))
  }

  /** The rows of a 3 x 9 array, top to bottom. */
  function Rows(t: array2<Cell>): (rows: seq<Row>)
    requires t.Length0 == 3 && t.Length1 == 9
    reads t
    ensures |rows| == 3
    ensures forall i :: 0 <= i < 3 ==> rows[i] == RowOf(t, i)
  {
    [RowOf(t, 0), RowOf(t, 1), RowOf(t, 2)]
  }

  /**
   * A ticket as generateTicket builds it: three rows of nine cells, five
   * numbers in each row, every number within its column's range, and each
   * column's numbers strictly ascending top to bottom.
   */
  predicate WellFormed(g: Grid) {
    (forall i :: 0 <= i < 3 ==> |g[i]| == 9) &&
    (forall i :: 0 <= i < 3 ==> |Values(g[i])| == 5) &&
    (forall i, j :: 0 <= i < 3 && 0 <= j < 9 && g[i][j].Num? ==> ColMin(j) <= g[i][j].value <= ColMax(j)) &&
    (forall j :: 0 <= j < 9 ==> StrictlyAscending(Values(Column(g, j))))
  }

  /**
   * generateTicket: a 3 x 9 grid with five numbers in each row, every
   * number within its column's range, and each column's numbers strictly
   * ascending top to bottom (so no column repeats a number).
   */
  method GenerateTicket() returns (g: Grid)
    ensures WellFormed(g)
  {
    var t := new Cell[3, 9]((i, j) => Blank);
    PlaceNumbers(t);
    ghost var rows, cols := Rows(t), Columns(t);
    SortColumns(t);
    g := Rows(t);
    SortedGrid(g, rows, cols);
  }

  /**
   * The grid after the column pass: rows keep their layout (so five numbers
   * each), and each column is its old numbers sorted.
   */
  lemma SortedGrid(g: Grid, rows: seq<Row>, cols: seq<seq<Cell>>)
    requires |rows| == 3 && |cols| == 9
    requires forall i :: 0 <= i < 3 ==> |rows[i]| == 9 && |NumPositions(rows[i])| == 5
    requires forall c :: 0 <= c < 9 ==>
      |cols[c]| == 3 && Distinct(Values(cols[c])) && InRange(Values(cols[c]), ColMin(c), ColMax(c))
    requires forall i, c :: 0 <= i < 3 && 0 <= c < 9 ==> rows[i][c] == cols[c][i]
    requires forall i :: 0 <= i < 3 ==> |g[i]| == 9
    requires forall i, c :: 0 <= i < 3 && 0 <= c < 9 ==> g[i][c] == SortedColumn(cols[c])[i]
    ensures forall i :: 0 <= i < 3 ==> |Values(g[i])| == 5
    ensures forall i, j :: 0 <= i < 3 && 0 <= j < 9 && g[i][j].Num? ==> ColMin(j) <= g[i][j].value <= ColMax(j)
    ensures forall j :: 0 <= j < 9 ==> StrictlyAscending(Values(Column(g, j)))
  {
    forall i | 0 <= i < 3 ensures |Values(g[i])| == 5 {
      forall c | 0 <= c < 9 ensures g[i][c].Num? == rows[i][c].Num? {
        assert g[i][c] == SortedColumn(cols[c])[i];
      }
      assert NumPositions(g[i]) == NumPositions(rows[i]);
      ValuesCount(g[i]);
    }
    forall j | 0 <= j < 9
      ensures StrictlyAscending(Values(Column(g, j)))
      ensures forall i :: 0 <= i < 3 && g[i][j].Num? ==> ColMin(j) <= g[i][j].value <= ColMax(j)
    {
      var after := SortedColumn(cols[j]);
      ColumnIs(g, j, after);
      SortedColumnProps(cols[j], ColMin(j), ColMax(j));
      CellsInRange(after, ColMin(j), ColMax(j));
    }
  }

  lemma ColumnIs(g: Grid, j: int, cells: seq<Cell>)
    requires 0 <= j < 9 && |cells| == 3
    requires forall i :: 0 <= i < 3 ==> |g[i]| == 9 && g[i][j] == cells[i]
    ensures Column(g, j) == cells
  {
  }

  /** When the values lie in lo..hi, so does every number cell. */
  lemma CellsInRange(cells: seq<Cell>, lo: int, hi: int)
    requires InRange(Values(cells), lo, hi)
    ensures forall i :: 0 <= i < |cells| && cells[i].Num? ==> lo <= cells[i].value <= hi
  {
    forall i | 0 <= i < |cells| && cells[i].Num? ensures lo <= cells[i].value <= hi {
      ValuesHas(cells, i);
    }
  }
}
