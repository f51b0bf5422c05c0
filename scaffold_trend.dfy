/** The month-scaffold trend reports (bottom pages, top referrals): the
    monthly dictionary is first given one row per month-end date of the
    scaffold with every tracked category at 0; each response row then
    overwrites its cell when both its month and its category are present,
    and is ignored otherwise. The referral reports finally drop the rows
    whose tracked cells are all 0. */
module ScaffoldTrend {
  import opened Months
  import opened MonthEnds
  import opened Tables

  /** The tracked categories: the first component of each (path, title) or
      (source, medium) pair, in response order. */
  function FirstComponents(pairs: seq<(string, string)>): (tracked: seq<string>)
    ensures |tracked| == |pairs|
    ensures forall i :: 0 <= i < |pairs| ==> tracked[i] == pairs[i].0
  {
    seq(|pairs|, i requires 0 <= i < |pairs| => pairs[i].0)
  }

  /** The dictionary after the initialisation loop over the scaffold. */
  function InitialGrid(months: seq<Month>, tracked: seq<string>): Cells {
    if |months| == 0 then map[]
    else InitialGrid(months[..|months| - 1], tracked)[months[|months| - 1] := Zeroes(tracked)]
  }

  /** Initialisation creates a row for exactly the scaffold months, each with
      every tracked category at 0. */
  lemma {:induction false} InitialGridRows(months: seq<Month>, tracked: seq<string>, m: Month)
    ensures m in InitialGrid(months, tracked) <==> m in months
    ensures m in months ==> InitialGrid(months, tracked)[m] == Zeroes(tracked)
  {
    if |months| > 0 {
      var n := |months| - 1;
      InitialGridRows(months[..n], tracked, m);
      assert months == months[..n] + [months[n]];
    }
  }

  /** The initialisation loop. */
  method InitScaffold(months: seq<Month>, tracked: seq<string>) returns (grid: Cells)
    ensures grid == InitialGrid(months, tracked)
  {
    grid := map[];
    var i := 0;
    while i < |months|
      invariant 0 <= i <= |months|
      invariant grid == InitialGrid(months[..i], tracked)
    {
      assert months[..i + 1][..i] == months[..i];
      grid := grid[months[i] := Zeroes(tracked)];
      i := i + 1;
    }
    assert months[..i] == months;
  }

  /** One turn of the fill loop: the row overwrites its cell when its month
      and its category both have one. */
  function Overwrite(grid: Cells, row: CategoryRow): Cells {
    if row.month in grid && row.category in grid[row.month]
    then grid[row.month := grid[row.month][row.category := row.value]]
    else grid
  }

  function Fill(grid: Cells, rows: seq<CategoryRow>): Cells {
    if |rows| == 0 then grid
    else Overwrite(Fill(grid, rows[..|rows| - 1]), rows[|rows| - 1])
  }

  /** Filling creates no month and no column. */
  lemma {:induction false} FillShape(grid: Cells, rows: seq<CategoryRow>, m: Month, c: string)
    ensures m in Fill(grid, rows) <==> m in grid
    ensures m in grid ==> (c in Fill(grid, rows)[m] <==> c in grid[m])
  {
    if |rows| > 0 {
      FillShape(grid, rows[..|rows| - 1], m, c);
    }
  }

  /** A cell holds the value of the last row for its month and category,
      not their sum, and keeps its initial value when there is none. */
  lemma {:induction false} FillCell(grid: Cells, rows: seq<CategoryRow>, m: Month, c: string)
    requires m in grid && c in grid[m]
    ensures m in Fill(grid, rows) && c in Fill(grid, rows)[m]
    ensures Fill(grid, rows)[m][c] == LastValue(rows, m, c, grid[m][c])
  {
    FillShape(grid, rows, m, c);
    if |rows| > 0 {
      FillCell(grid, rows[..|rows| - 1], m, c);
    }
  }

  /** The fill loop. */
  method FillScaffold(grid: Cells, rows: seq<CategoryRow>) returns (filled: Cells)
    ensures filled == Fill(grid, rows)
  {
    filled := grid;
    var i := 0;
    while i < |rows|
      invariant 0 <= i <= |rows|
      invariant filled == Fill(grid, rows[..i])
    {
      assert rows[..i + 1][..i] == rows[..i];
      var row := rows[i];
      if row.month in filled && row.category in filled[row.month] {
        filled := filled[row.month := filled[row.month][row.category := row.value]];
      }
      i := i + 1;
    }
    assert rows[..i] == rows;
  }

  /** The dictionary the scaffold reports build. */
  function ScaffoldGrid(months: seq<Month>, tracked: seq<string>, rows: seq<CategoryRow>): Cells {
    Fill(InitialGrid(months, tracked), rows)
  }

  /** Initialisation followed by the fill loop. */
  method BuildScaffoldGrid(months: seq<Month>, tracked: seq<string>, rows: seq<CategoryRow>) returns (grid: Cells)
    ensures grid == ScaffoldGrid(months, tracked, rows)
  {
    grid := InitScaffold(months, tracked);
    grid := FillScaffold(grid, rows);
  }

  /** The rows of the grid in scaffold order. */
  function UnsortedGridRows(grid: Cells, months: seq<Month>, cols: seq<string>): (u: seq<Row<seq<int>>>)
    ensures |u| == |months|
    ensures forall a :: 0 <= a < |months| ==> u[a] == Row(months[a], CellValues(if months[a] in grid then grid[months[a]] else map[], cols))
  {
    seq(|months|, a requires 0 <= a < |months| => Row(months[a], CellValues(if months[a] in grid then grid[months[a]] else map[], cols)))
  }

  /** The frame of a scaffold report, latest month first. */
  function ScaffoldTable(months: seq<Month>, tracked: seq<string>, rows: seq<CategoryRow>): Table<seq<int>> {
    var grid := ScaffoldGrid(months, tracked, rows);
    Table([MonthYearColumn] + Dedup(tracked), SortLatestFirst(UnsortedGridRows(grid, months, Dedup(tracked))))
  }

  /** The scaffold row a table row comes from. */
  lemma GridRowOrigin(months: seq<Month>, tracked: seq<string>, rows: seq<CategoryRow>, i: nat) returns (a: nat)
    requires i < |ScaffoldTable(months, tracked, rows).rows|
    ensures a < |months|
    ensures ScaffoldTable(months, tracked, rows).rows[i]
            == UnsortedGridRows(ScaffoldGrid(months, tracked, rows), months, Dedup(tracked))[a]
  {
    var u := UnsortedGridRows(ScaffoldGrid(months, tracked, rows), months, Dedup(tracked));
    var sorted := ScaffoldTable(months, tracked, rows).rows;
    assert sorted == SortLatestFirst(u);
    assert sorted[i] in multiset(u);
    a :| 0 <= a < |u| && u[a] == sorted[i];
  }

  /** Over months without repeats: one row per month, strictly latest month
      first, and every row's month is one of the months. */
  lemma GridTableOrder(months: seq<Month>, tracked: seq<string>, rows: seq<CategoryRow>)
    requires Distinct(months)
    ensures var tab := ScaffoldTable(months, tracked, rows);
            && |tab.rows| == |months|
            && (forall i, j :: 0 <= i < j < |tab.rows| ==> Later(tab.rows[i].month, tab.rows[j].month))
            && (forall i :: 0 <= i < |tab.rows| ==> tab.rows[i].month in months)
  {
    var u := UnsortedGridRows(ScaffoldGrid(months, tracked, rows), months, Dedup(tracked));
    var sorted := ScaffoldTable(months, tracked, rows).rows;
    assert sorted == SortLatestFirst(u);
    assert MonthsDistinct(u);
    SortKeepsMonthsDistinct(u);
    StrictlyLatestFirst(sorted);
    forall i | 0 <= i < |sorted| ensures sorted[i].month in months {
      var a := GridRowOrigin(months, tracked, rows, i);
    }
  }

  /** A cell of the table: the last matching response row's value, or 0. */
  lemma GridTableCell(months: seq<Month>, tracked: seq<string>, rows: seq<CategoryRow>, i: nat, k: nat)
    requires i < |ScaffoldTable(months, tracked, rows).rows| && k < |Dedup(tracked)|
    ensures var row := ScaffoldTable(months, tracked, rows).rows[i];
            |row.values| == |Dedup(tracked)| && row.values[k] == LastValue(rows, row.month, Dedup(tracked)[k], 0)
  {
    var cols := Dedup(tracked);
    var a := GridRowOrigin(months, tracked, rows, i);
    var m := months[a];
    InitialGridRows(months, tracked, m);
    DedupMembers(tracked, cols[k]);
    FillCell(InitialGrid(months, tracked), rows, m, cols[k]);
  }

  /** Over the scaffold from start to end: one row per month-end date in the
      range, strictly latest month first; each tracked cell holds the value
      of the last response row for that month and category, or 0. Rows of
      other months and of untracked categories leave no trace. */
  lemma ScaffoldTableRows(start: Date, end: Date, tracked: seq<string>, rows: seq<CategoryRow>)
    requires ValidDate(start) && ValidDate(end)
    ensures var tab := ScaffoldTable(Scaffold(start, end), tracked, rows);
            && |tab.rows| == |Scaffold(start, end)|
            && (forall i, j :: 0 <= i < j < |tab.rows| ==> Later(tab.rows[i].month, tab.rows[j].month))
            && (forall i :: 0 <= i < |tab.rows| ==>
                  var m := tab.rows[i].month;
                  ValidMonth(m) && NotAfter(start, MonthEndDate(m)) && NotAfter(MonthEndDate(m), end))
            && (forall i, k :: 0 <= i < |tab.rows| && 0 <= k < |Dedup(tracked)| ==>
                  |tab.rows[i].values| == |Dedup(tracked)| && tab.rows[i].values[k] == LastValue(rows, tab.rows[i].month, Dedup(tracked)[k], 0))
  {
    var months := Scaffold(start, end);
    var tab := ScaffoldTable(months, tracked, rows);
    ScaffoldDistinct(start, end);
    GridTableOrder(months, tracked, rows);
    forall i, k | 0 <= i < |tab.rows| && 0 <= k < |Dedup(tracked)|
      ensures |tab.rows[i].values| == |Dedup(tracked)| && tab.rows[i].values[k] == LastValue(rows, tab.rows[i].month, Dedup(tracked)[k], 0)
    {
      GridTableCell(months, tracked, rows, i, k);
    }
  }

  /** Every scaffold month has its row, whether or not any response row
      falls in it: the scaffold fills the gaps. */
  lemma ScaffoldFillsGaps(start: Date, end: Date, tracked: seq<string>, rows: seq<CategoryRow>, m: Month)
    requires ValidDate(start) && ValidDate(end)
    requires ValidMonth(m) && NotAfter(start, MonthEndDate(m)) && NotAfter(MonthEndDate(m), end)
    ensures var tab := ScaffoldTable(Scaffold(start, end), tracked, rows);
            exists i :: 0 <= i < |tab.rows| && tab.rows[i].month == m
  {
    var months := Scaffold(start, end);
    var u := UnsortedGridRows(ScaffoldGrid(months, tracked, rows), months, Dedup(tracked));
    var a :| 0 <= a < |months| && months[a] == m;
    assert u[a] in multiset(ScaffoldTable(months, tracked, rows).rows);
  }

  /** A row with a non-zero tracked cell. */
  predicate HasNonZero(vs: seq<int>) {
    exists k :: 0 <= k < |vs| && vs[k] != 0
  }

  /** `df[~(df[numeric_columns] == 0).all(axis=1)]`. */
  function DropAllZeroRows(rows: seq<Row<seq<int>>>): (kept: seq<Row<seq<int>>>)
    ensures |kept| <= |rows|
    ensures forall i :: 0 <= i < |kept| ==> HasNonZero(kept[i].values)
  {
    if |rows| == 0 then []
    else
      var n := |rows| - 1;
      DropAllZeroRows(rows[..n]) + (if HasNonZero(rows[n].values) then [rows[n]] else [])
  }

  /** A row survives exactly when it has a non-zero tracked cell. */
  lemma {:induction false} DropAllZeroRowsMembers(rows: seq<Row<seq<int>>>, x: Row<seq<int>>)
    ensures x in DropAllZeroRows(rows) <==> x in rows && HasNonZero(x.values)
  {
    if |rows| > 0 {
      var n := |rows| - 1;
      DropAllZeroRowsMembers(rows[..n], x);
      assert rows == rows[..n] + [rows[n]];
    }
  }

  /** The filter works row by row, so it keeps the relative order. */
  lemma {:induction false} DropAllZeroRowsAppend(a: seq<Row<seq<int>>>, b: seq<Row<seq<int>>>)
    ensures DropAllZeroRows(a + b) == DropAllZeroRows(a) + DropAllZeroRows(b)
  {
    if |b| > 0 {
      var n := |b| - 1;
      assert (a + b)[..|a| + n] == a + b[..n];
      DropAllZeroRowsAppend(a, b[..n]);
    } else {
      assert a + b == a;
    }
  }

  /** The surviving rows of a latest-first table are still latest first. */
  lemma {:induction false} DropAllZeroRowsKeepsOrder(rows: seq<Row<seq<int>>>)
    requires forall i, j :: 0 <= i < j < |rows| ==> Later(rows[i].month, rows[j].month)
    ensures var kept := DropAllZeroRows(rows);
            forall i, j :: 0 <= i < j < |kept| ==> Later(kept[i].month, kept[j].month)
  {
    if |rows| > 0 {
      var n := |rows| - 1;
      var front := DropAllZeroRows(rows[..n]);
      DropAllZeroRowsKeepsOrder(rows[..n]);
      forall i | 0 <= i < |front| ensures Later(front[i].month, rows[n].month) {
        DropAllZeroRowsMembers(rows[..n], front[i]);
      }
    }
  }

  /** The referral trend frame: the scaffold table without its all-zero rows. */
  function ReferralTable(months: seq<Month>, tracked: seq<string>, rows: seq<CategoryRow>): Table<seq<int>> {
    var tab := ScaffoldTable(months, tracked, rows);
    Table(tab.columns, DropAllZeroRows(tab.rows))
  }

  /** Every referral row is a scaffold row with a non-zero tracked cell, the
      rows stay strictly latest first, and no scaffold row with a non-zero
      cell is lost. */
  lemma ReferralTableRows(start: Date, end: Date, tracked: seq<string>, rows: seq<CategoryRow>)
    requires ValidDate(start) && ValidDate(end)
    ensures var kept := ReferralTable(Scaffold(start, end), tracked, rows).rows;
            forall i, j :: 0 <= i < j < |kept| ==> Later(kept[i].month, kept[j].month)
    ensures var all := ScaffoldTable(Scaffold(start, end), tracked, rows).rows;
            var kept := ReferralTable(Scaffold(start, end), tracked, rows).rows;
            forall x :: x in kept <==> x in all && HasNonZero(x.values)
  {
    var months := Scaffold(start, end);
    var all := ScaffoldTable(months, tracked, rows).rows;
    var kept := ReferralTable(months, tracked, rows).rows;
    assert forall i, j :: 0 <= i < j < |all| ==> Later(all[i].month, all[j].month) by {
      ScaffoldDistinct(start, end);
      GridTableOrder(months, tracked, rows);
    }
    assert kept == DropAllZeroRows(all);
    DropAllZeroRowsKeepsOrder(all);
    forall x ensures x in kept <==> x in all && HasNonZero(x.values) {
      DropAllZeroRowsMembers(all, x);
    }
  }
}
