/** The monthly top-pages trend: every row of the monthly response is routed
    to one of the tracked path columns (or to none), month rows are created
    the first time a month is seen, and a Total Pageviews column counts every
    row of the month, tracked or not. */
module PageTrend {
  import opened Wrappers
  import opened Months
  import opened Tables
  import opened PagePaths

  /** Where a monthly row's views go: a tracked column, or nowhere. */
  datatype Route = Column(name: string) | Untracked

  const HomeColumn := "/"
  const GlycanSearchColumn := "/glycan-search/"
  const ProteinSearchColumn := "/protein-search/"
  const TotalColumn := "Total Pageviews"

  /** The column a monthly row is added to. The path loses its trailing
      slashes first; the home aliases and the two search families go to their
      group columns whether or not those are tracked; any other row goes to
      the column of its raw path when that path is tracked. */
  function RouteOf(path: string, tracked: seq<string>): (r: Route)
    ensures r.Column? && r.name != HomeColumn && r.name != GlycanSearchColumn && r.name != ProteinSearchColumn
            ==> r.name == path && path in tracked
  {
    var n := RStripSlash(path);
    if n == "/" || n == "/home" then Column(HomeColumn)
    else if StartsWith(n, "/glycan-search") then Column(GlycanSearchColumn)
    else if StartsWith(n, "/protein-search") then Column(ProteinSearchColumn)
    else if path in tracked then Column(path)
    else Untracked
  }

  /** A row whose column does not exist: the update raises KeyError. */
  predicate Misrouted(row: CategoryRow, tracked: seq<string>) {
    var r := RouteOf(row.category, tracked);
    r.Column? && r.name !in tracked
  }

  /** No row of rows is misrouted: the routing loop runs to completion. */
  predicate AllRouted(rows: seq<CategoryRow>, tracked: seq<string>) {
    |rows| == 0 || (AllRouted(rows[..|rows| - 1], tracked) && !Misrouted(rows[|rows| - 1], tracked))
  }

  lemma {:induction false} AllRoutedMeans(rows: seq<CategoryRow>, tracked: seq<string>)
    ensures AllRouted(rows, tracked) <==> forall j :: 0 <= j < |rows| ==> !Misrouted(rows[j], tracked)
  {
    if |rows| > 0 {
      var n := |rows| - 1;
      AllRoutedMeans(rows[..n], tracked);
      assert forall j :: 0 <= j < n ==> rows[..n][j] == rows[j];
    }
  }

  lemma AllRoutedStep(rows: seq<CategoryRow>, i: nat, tracked: seq<string>)
    requires i < |rows|
    ensures AllRouted(rows[..i + 1], tracked) <==> AllRouted(rows[..i], tracked) && !Misrouted(rows[i], tracked)
  {
    assert rows[..i + 1][..i] == rows[..i];
  }

  /** Only the three group columns can be missing. */
  lemma MisroutedIsGroupColumn(row: CategoryRow, tracked: seq<string>)
    requires Misrouted(row, tracked)
    ensures RouteOf(row.category, tracked).name in [HomeColumn, GlycanSearchColumn, ProteinSearchColumn]
  {
  }

  /** Raw "/" strips to "" and so reaches the fallback: it lands in the "/"
      column only when "/" itself is tracked, and never raises. */
  lemma RawRootFallsThrough(tracked: seq<string>)
    ensures RouteOf("/", tracked) == if "/" in tracked then Column("/") else Untracked
  {
    assert RStripSlash("/") == RStripSlash("") == "";
  }

  /** "/home" with any number of trailing slashes goes to the "/" column. */
  lemma HomeAliasesRouteHome(tracked: seq<string>)
    ensures RouteOf("/home", tracked) == Column(HomeColumn)
    ensures RouteOf("/home/", tracked) == Column(HomeColumn)
  {
    assert "/home/"[..5] == "/home";
    assert RStripSlash("/home/") == RStripSlash("/home") == "/home";
  }

  /** Any path of the glycan-search family goes to its group column. */
  lemma GlycanSearchRoutesToGroup(path: string, tracked: seq<string>)
    requires StartsWith(path, "/glycan-search")
    ensures RouteOf(path, tracked) == Column(GlycanSearchColumn)
  {
    var n := RStripSlash(path);
    assert path[13] == "/glycan-search"[13] == 'h';
    RStripSlashKeeps(path, 14);
    assert n[..14] == path[..14];
    assert n != "/" && n != "/home" by {
      assert n[1] == 'g';
    }
  }

  /** One turn of the routing loop: open the row's month if it is new, add
      the views to the row's column (KeyError if that column is missing) and
      to the month's total. */
  function Step(t: Tally, row: CategoryRow, tracked: seq<string>): Result<Tally, string> {
    var m := row.month;
    var u := if m in t.cells then t else Tally(t.months + [m], t.cells[m := Zeroes(tracked)], t.totals[m := 0]);
    var total := (if m in u.totals then u.totals[m] else 0) + row.value;
    match RouteOf(row.category, tracked)
    case Untracked => Success(u.(totals := u.totals[m := total]))
    case Column(c) =>
      if c !in u.cells[m] then Failure(c)
      else Success(Tally(u.months, u.cells[m := u.cells[m][c := u.cells[m][c] + row.value]], u.totals[m := total]))
  }

  /** The routing loop over rows: the first failing turn ends it. */
  function Aggregate(rows: seq<CategoryRow>, tracked: seq<string>): Result<Tally, string> {
    if |rows| == 0 then Success(Tally([], map[], map[]))
    else
      match Aggregate(rows[..|rows| - 1], tracked)
      case Failure(e) => Failure(e)
      case Success(t) => Step(t, rows[|rows| - 1], tracked)
  }

  /** The views of the rows of month m routed to column c. */
  function RoutedViews(rows: seq<CategoryRow>, m: Month, c: string, tracked: seq<string>): int {
    if |rows| == 0 then 0
    else
      var r := rows[|rows| - 1];
      RoutedViews(rows[..|rows| - 1], m, c, tracked)
        + (if r.month == m && RouteOf(r.category, tracked) == Column(c) then r.value else 0)
  }

  /** A failed turn ends the loop: later rows change nothing. */
  lemma {:induction false} FailureSticks(rows: seq<CategoryRow>, k: nat, tracked: seq<string>)
    requires k <= |rows| && Aggregate(rows[..k], tracked).Failure?
    ensures Aggregate(rows, tracked) == Aggregate(rows[..k], tracked)
  {
    if k < |rows| {
      var n := |rows| - 1;
      assert rows[..n][..k] == rows[..k];
      FailureSticks(rows[..n], k, tracked);
    } else {
      assert rows[..k] == rows;
    }
  }

  /** The loop keeps one entry per month seen in both dictionaries. */
  lemma {:induction false} TallyKeys(rows: seq<CategoryRow>, m: Month, tracked: seq<string>)
    requires Aggregate(rows, tracked).Success?
    ensures var t := Aggregate(rows, tracked).value;
            && (m in t.cells <==> m in MonthsOf(rows))
            && (m in t.totals <==> m in MonthsOf(rows))
  {
    if |rows| > 0 {
      var n := |rows| - 1;
      TallyKeys(rows[..n], m, tracked);
      assert MonthsOf(rows) == MonthsOf(rows[..n]) + [rows[n].month];
    }
  }

  /** The months are kept in the order their first row arrives. */
  lemma {:induction false} TallyMonths(rows: seq<CategoryRow>, tracked: seq<string>)
    requires Aggregate(rows, tracked).Success?
    ensures Aggregate(rows, tracked).value.months == MonthsSeen(rows)
  {
    if |rows| > 0 {
      var n := |rows| - 1;
      TallyMonths(rows[..n], tracked);
      TallyKeys(rows[..n], rows[n].month, tracked);
      DedupMembers(MonthsOf(rows[..n]), rows[n].month);
      MonthsOfPrefix(rows, n);
    }
  }

  /** Every month row has exactly the tracked paths as its columns. */
  lemma {:induction false} TallyColumns(rows: seq<CategoryRow>, m: Month, c: string, tracked: seq<string>)
    requires Aggregate(rows, tracked).Success? && m in Aggregate(rows, tracked).value.cells
    ensures c in Aggregate(rows, tracked).value.cells[m] <==> c in tracked
  {
    var n := |rows| - 1;
    if m in Aggregate(rows[..n], tracked).value.cells {
      TallyColumns(rows[..n], m, c, tracked);
    }
  }

  /** The loop fails exactly when some row is routed to a missing column. */
  lemma {:induction false} TallyFails(rows: seq<CategoryRow>, tracked: seq<string>)
    ensures Aggregate(rows, tracked).Failure? <==> !AllRouted(rows, tracked)
  {
    if |rows| > 0 {
      var n := |rows| - 1;
      TallyFails(rows[..n], tracked);
      var row := rows[n];
      var route := RouteOf(row.category, tracked);
      if Aggregate(rows[..n], tracked).Success? && route.Column? && row.month in Aggregate(rows[..n], tracked).value.cells {
        TallyColumns(rows[..n], row.month, route.name, tracked);
      }
    }
  }

  /** The error names the column of the first misrouted row. */
  lemma {:induction false} TallyError(rows: seq<CategoryRow>, tracked: seq<string>)
    requires Aggregate(rows, tracked).Failure?
    ensures exists i :: 0 <= i < |rows| && AllRouted(rows[..i], tracked) && Misrouted(rows[i], tracked)
                        && Aggregate(rows, tracked).error == RouteOf(rows[i].category, tracked).name
  {
    var n := |rows| - 1;
    if Aggregate(rows[..n], tracked).Failure? {
      TallyError(rows[..n], tracked);
      var i :| 0 <= i < n && AllRouted(rows[..n][..i], tracked) && Misrouted(rows[..n][i], tracked)
               && Aggregate(rows[..n], tracked).error == RouteOf(rows[..n][i].category, tracked).name;
      assert rows[..n][..i] == rows[..i];
    } else {
      TallyFails(rows[..n], tracked);
      TallyFails(rows, tracked);
      assert rows[..n + 1] == rows;
      var route := RouteOf(rows[n].category, tracked);
      if route.Column? && rows[n].month in Aggregate(rows[..n], tracked).value.cells {
        TallyColumns(rows[..n], rows[n].month, route.name, tracked);
      }
      assert Misrouted(rows[n], tracked);
    }
  }

  lemma {:induction false} RoutedViewsUnseen(rows: seq<CategoryRow>, m: Month, c: string, tracked: seq<string>)
    requires m !in MonthsOf(rows)
    ensures RoutedViews(rows, m, c, tracked) == 0
  {
    if |rows| > 0 {
      var n := |rows| - 1;
      assert MonthsOf(rows) == MonthsOf(rows[..n]) + [rows[n].month];
      RoutedViewsUnseen(rows[..n], m, c, tracked);
    }
  }

  /** One turn changes a cell only by the views routed to it; a month it
      opens starts at 0. */
  lemma StepCell(t: Tally, row: CategoryRow, tracked: seq<string>, m: Month, c: string)
    requires Step(t, row, tracked).Success?
    requires m in Step(t, row, tracked).value.cells && c in Step(t, row, tracked).value.cells[m]
    requires m in t.cells ==> c in t.cells[m]
    ensures Step(t, row, tracked).value.cells[m][c]
            == (if m in t.cells then t.cells[m][c] else 0)
               + (if row.month == m && RouteOf(row.category, tracked) == Column(c) then row.value else 0)
  {
  }

  /** Each cell holds the views of its month's rows routed to its column. */
  lemma {:induction false} TallyCells(rows: seq<CategoryRow>, m: Month, c: string, tracked: seq<string>)
    requires Aggregate(rows, tracked).Success?
    requires m in Aggregate(rows, tracked).value.cells && c in Aggregate(rows, tracked).value.cells[m]
    ensures Aggregate(rows, tracked).value.cells[m][c] == RoutedViews(rows, m, c, tracked)
  {
    var n := |rows| - 1;
    var before := rows[..n];
    assert Aggregate(before, tracked).Success?;
    var t := Aggregate(before, tracked).value;
    assert Aggregate(rows, tracked) == Step(t, rows[n], tracked);
    TallyKeys(before, m, tracked);
    if m in t.cells {
      TallyColumns(before, m, c, tracked);
      TallyCells(before, m, c, tracked);
    } else {
      RoutedViewsUnseen(before, m, c, tracked);
    }
    StepCell(t, rows[n], tracked, m, c);
  }

  /** Each month's total counts every row of that month, tracked or not. */
  lemma {:induction false} TallyTotals(rows: seq<CategoryRow>, m: Month, tracked: seq<string>)
    requires Aggregate(rows, tracked).Success? && m in Aggregate(rows, tracked).value.totals
    ensures Aggregate(rows, tracked).value.totals[m] == MonthTotal(rows, m)
  {
    var n := |rows| - 1;
    var before := rows[..n];
    TallyKeys(before, m, tracked);
    if m in Aggregate(before, tracked).value.totals {
      TallyTotals(before, m, tracked);
    } else {
      MonthTotalUnseen(before, m);
    }
  }

  /** One turn of the routing loop on the dictionaries: open the month with
      every tracked path at 0 if it is new, add the views to the row's
      column (KeyError if that column is missing) and to the month's total. */
  method RouteRow(t: Tally, row: CategoryRow, tracked: seq<string>) returns (r: Result<Tally, string>)
    requires row.month in t.cells <==> row.month in t.totals
    ensures r == Step(t, row, tracked)
  {
    var monthly, totals, months := t.cells, t.totals, t.months;
    var m := row.month;
    if m !in monthly {
      monthly := monthly[m := Zeroes(tracked)];
      totals := totals[m := 0];
      months := months + [m];
    }
    var route := RouteOf(row.category, tracked);
    if route.Column? {
      if route.name !in monthly[m] {
        return Failure(route.name);
      }
      monthly := monthly[m := monthly[m][route.name := monthly[m][route.name] + row.value]];
    }
    totals := totals[m := totals[m] + row.value];
    r := Success(Tally(months, monthly, totals));
  }

  /** The monthly routing loop: a month row is opened with every tracked
      path at 0 the first time the month is seen; the row's views are added
      to its column, and to the month's total whatever its column. A row
      whose column is missing fails the whole report with KeyError. */
  method AggregatePageViews(rows: seq<CategoryRow>, tracked: seq<string>) returns (r: Result<Tally, string>)
    ensures r == Aggregate(rows, tracked)
  {
    var t := Tally([], map[], map[]);
    var i := 0;
    while i < |rows|
      invariant 0 <= i <= |rows|
      invariant Aggregate(rows[..i], tracked) == Success(t)
    {
      assert Aggregate(rows[..i + 1], tracked) == Step(t, rows[i], tracked) by {
        assert rows[..i + 1][..i] == rows[..i];
      }
      assert rows[i].month in t.cells <==> rows[i].month in t.totals by {
        TallyKeys(rows[..i], rows[i].month, tracked);
      }
      var next := RouteRow(t, rows[i], tracked);
      if next.Failure? {
        FailureSticks(rows, i + 1, tracked);
        return next;
      }
      t := next.value;
      i := i + 1;
    }
    assert rows[..i] == rows;
    r := Success(t);
  }

  /** The views of the rows of month m that reach some column in cols. */
  function RoutedInto(rows: seq<CategoryRow>, m: Month, cols: seq<string>, tracked: seq<string>): int {
    if |rows| == 0 then 0
    else
      var r := rows[|rows| - 1];
      var route := RouteOf(r.category, tracked);
      RoutedInto(rows[..|rows| - 1], m, cols, tracked)
        + (if r.month == m && route.Column? && route.name in cols then r.value else 0)
  }

  /** The views of the rows of month m that reach no column. */
  function UntrackedViews(rows: seq<CategoryRow>, m: Month, tracked: seq<string>): int {
    if |rows| == 0 then 0
    else
      var r := rows[|rows| - 1];
      UntrackedViews(rows[..|rows| - 1], m, tracked)
        + (if r.month == m && RouteOf(r.category, tracked).Untracked? then r.value else 0)
  }

  lemma {:induction false} RoutedIntoNothing(rows: seq<CategoryRow>, m: Month, tracked: seq<string>)
    ensures RoutedInto(rows, m, [], tracked) == 0
  {
    if |rows| > 0 {
      RoutedIntoNothing(rows[..|rows| - 1], m, tracked);
    }
  }

  /** Adding a column adds the views routed to it. */
  lemma {:induction false} RoutedIntoExtend(rows: seq<CategoryRow>, m: Month, cols: seq<string>, c: string, tracked: seq<string>)
    requires c !in cols
    ensures RoutedInto(rows, m, cols + [c], tracked) == RoutedInto(rows, m, cols, tracked) + RoutedViews(rows, m, c, tracked)
  {
    if |rows| > 0 {
      RoutedIntoExtend(rows[..|rows| - 1], m, cols, c, tracked);
    }
  }

  /** Every row of a month reaches a tracked column or none, never both. */
  lemma {:induction false} MonthTotalSplit(rows: seq<CategoryRow>, m: Month, tracked: seq<string>)
    requires AllRouted(rows, tracked)
    ensures MonthTotal(rows, m) == RoutedInto(rows, m, Dedup(tracked), tracked) + UntrackedViews(rows, m, tracked)
  {
    if |rows| > 0 {
      var n := |rows| - 1;
      MonthTotalSplit(rows[..n], m, tracked);
      var route := RouteOf(rows[n].category, tracked);
      if route.Column? {
        DedupMembers(tracked, route.name);
      }
    }
  }

  lemma {:induction false} UntrackedNonNegative(rows: seq<CategoryRow>, m: Month, tracked: seq<string>)
    requires forall j :: 0 <= j < |rows| ==> rows[j].value >= 0
    ensures UntrackedViews(rows, m, tracked) >= 0
  {
    if |rows| > 0 {
      UntrackedNonNegative(rows[..|rows| - 1], m, tracked);
    }
  }

  /** The top-pages frame: Total Pageviews last in the top-20 pages report,
      first in the improved report. */
  function PageTable(t: Tally, tracked: seq<string>, layout: Layout): Table<seq<int>> {
    TallyTable(t, tracked, TotalColumn, layout)
  }

  /** One row per month seen, strictly latest month first. */
  lemma PageTableRows(rows: seq<CategoryRow>, tracked: seq<string>, layout: Layout)
    requires Aggregate(rows, tracked).Success?
    ensures var tab := PageTable(Aggregate(rows, tracked).value, tracked, layout);
            && |tab.rows| == |MonthsSeen(rows)|
            && (forall i, j :: 0 <= i < j < |tab.rows| ==> Later(tab.rows[i].month, tab.rows[j].month))
            && (forall i :: 0 <= i < |tab.rows| ==> tab.rows[i].month in MonthsOf(rows))
            && (forall j :: 0 <= j < |rows| ==> exists i :: 0 <= i < |tab.rows| && tab.rows[i].month == rows[j].month)
  {
    var t := Aggregate(rows, tracked).value;
    var tab := PageTable(t, tracked, layout);
    TallyMonths(rows, tracked);
    TallyTableShape(t, tracked, TotalColumn, layout);
    forall i | 0 <= i < |tab.rows| ensures tab.rows[i].month in MonthsOf(rows) {
      DedupMembers(MonthsOf(rows), tab.rows[i].month);
    }
    forall j | 0 <= j < |rows| ensures exists i :: 0 <= i < |tab.rows| && tab.rows[i].month == rows[j].month {
      assert MonthsOf(rows)[j] == rows[j].month;
      DedupMembers(MonthsOf(rows), rows[j].month);
    }
  }

  /** Each cell of the table holds the views routed to its column in its
      month, and the total holds every view of the month. */
  lemma PageTableCells(rows: seq<CategoryRow>, tracked: seq<string>, layout: Layout, i: nat)
    requires Aggregate(rows, tracked).Success?
    requires i < |PageTable(Aggregate(rows, tracked).value, tracked, layout).rows|
    ensures var row := PageTable(Aggregate(rows, tracked).value, tracked, layout).rows[i];
            var cols := Dedup(tracked);
            && |row.values| == |cols| + 1
            && (layout.TotalLast? ==>
                  && (forall k :: 0 <= k < |cols| ==> row.values[k] == RoutedViews(rows, row.month, cols[k], tracked))
                  && row.values[|cols|] == MonthTotal(rows, row.month))
            && (layout.TotalFirst? ==>
                  && (forall k :: 0 <= k < |cols| ==> row.values[k + 1] == RoutedViews(rows, row.month, cols[k], tracked))
                  && row.values[0] == MonthTotal(rows, row.month))
  {
    var t := Aggregate(rows, tracked).value;
    var cols := Dedup(tracked);
    var a := TallyTableRowOrigin(t, tracked, TotalColumn, layout, i);
    var m := t.months[a];
    assert m in MonthsOf(rows) by {
      TallyMonths(rows, tracked);
      DedupMembers(MonthsOf(rows), m);
    }
    TallyKeys(rows, m, tracked);
    TallyTotals(rows, m, tracked);
    var cells := t.cells[m];
    forall k | 0 <= k < |cols| ensures cols[k] in cells && cells[cols[k]] == RoutedViews(rows, m, cols[k], tracked) {
      DedupMembers(tracked, cols[k]);
      TallyColumns(rows, m, cols[k], tracked);
      TallyCells(rows, m, cols[k], tracked);
    }
    assert CellValues(cells, cols) == ColumnViews(rows, m, cols, tracked);
  }

  /** The views routed to each of cols in month m, in column order. */
  function ColumnViews(rows: seq<CategoryRow>, m: Month, cols: seq<string>, tracked: seq<string>): (vs: seq<int>)
    ensures |vs| == |cols|
    ensures forall k :: 0 <= k < |cols| ==> vs[k] == RoutedViews(rows, m, cols[k], tracked)
  {
    seq(|cols|, k requires 0 <= k < |cols| => RoutedViews(rows, m, cols[k], tracked))
  }

  /** Over distinct columns, the per-column views add up to the views routed
      into the whole set of columns. */
  lemma {:induction false} ColumnViewsSum(rows: seq<CategoryRow>, m: Month, cols: seq<string>, tracked: seq<string>)
    requires Distinct(cols)
    ensures Sum(ColumnViews(rows, m, cols, tracked)) == RoutedInto(rows, m, cols, tracked)
  {
    if |cols| == 0 {
      RoutedIntoNothing(rows, m, tracked);
    } else {
      var n := |cols| - 1;
      var c := cols[n];
      ColumnViewsSum(rows, m, cols[..n], tracked);
      var before := ColumnViews(rows, m, cols[..n], tracked);
      assert ColumnViews(rows, m, cols, tracked) == before + [RoutedViews(rows, m, c, tracked)];
      SumAppend(before, RoutedViews(rows, m, c, tracked));
      assert cols[..n] + [c] == cols;
      RoutedIntoExtend(rows, m, cols[..n], c, tracked);
    }
  }

  /** The tracked cells of a month sum to the views routed into them. */
  lemma CellSum(rows: seq<CategoryRow>, m: Month, cols: seq<string>, tracked: seq<string>)
    requires Aggregate(rows, tracked).Success? && m in Aggregate(rows, tracked).value.cells
    requires Distinct(cols) && forall k :: 0 <= k < |cols| ==> cols[k] in tracked
    ensures Sum(CellValues(Aggregate(rows, tracked).value.cells[m], cols)) == RoutedInto(rows, m, cols, tracked)
  {
    var cells := Aggregate(rows, tracked).value.cells[m];
    forall k | 0 <= k < |cols| ensures cols[k] in cells && cells[cols[k]] == RoutedViews(rows, m, cols[k], tracked) {
      TallyColumns(rows, m, cols[k], tracked);
      TallyCells(rows, m, cols[k], tracked);
    }
    assert CellValues(cells, cols) == ColumnViews(rows, m, cols, tracked);
    ColumnViewsSum(rows, m, cols, tracked);
  }

  /** With non-negative views, a month's Total Pageviews is at least the sum
      of its tracked cells: it also counts the untracked pages. */
  lemma TotalCoversTrackedCells(rows: seq<CategoryRow>, tracked: seq<string>, layout: Layout, i: nat)
    requires Aggregate(rows, tracked).Success?
    requires forall j :: 0 <= j < |rows| ==> rows[j].value >= 0
    requires i < |PageTable(Aggregate(rows, tracked).value, tracked, layout).rows|
    ensures var row := PageTable(Aggregate(rows, tracked).value, tracked, layout).rows[i];
            var n := |Dedup(tracked)|;
            && |row.values| == n + 1
            && if layout.TotalFirst? then Sum(row.values[1..]) <= row.values[0]
               else Sum(row.values[..n]) <= row.values[n]
  {
    var t := Aggregate(rows, tracked).value;
    var cols := Dedup(tracked);
    var a := TallyTableRowOrigin(t, tracked, TotalColumn, layout, i);
    var m := t.months[a];
    var row := TallyRow(t, m, cols, layout);
    TallyMonths(rows, tracked);
    DedupMembers(MonthsOf(rows), m);
    TallyKeys(rows, m, tracked);
    TallyTotals(rows, m, tracked);
    forall k | 0 <= k < |cols| ensures cols[k] in tracked {
      DedupMembers(tracked, cols[k]);
    }
    CellSum(rows, m, cols, tracked);
    TallyFails(rows, tracked);
    MonthTotalSplit(rows, m, tracked);
    UntrackedNonNegative(rows, m, tracked);
    var cells := CellValues(t.cells[m], cols);
    if layout.TotalFirst? {
      assert row.values[1..] == cells;
    } else {
      assert row.values[..|cols|] == cells;
    }
  }
}
