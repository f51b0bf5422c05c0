/** The tables every report builds before writing them to a sheet: a header
    ("Month-Year" first) and one row per month bucket, ordered latest month
    first; and the raw (year, month, category, value) rows they are built from. */
module Tables {
  import opened Months

  /** One analytics response row: a month bucket, a category (page path,
      referral source or country) and its metric value. */
  datatype CategoryRow = CategoryRow(month: Month, category: string, value: int)

  /** One table row: its month bucket (rendered as Label(month) in the
      "Month-Year" column) and the values of the other columns. */
  datatype Row<V> = Row(month: Month, values: V)

  datatype Table<V> = Table(columns: seq<string>, rows: seq<Row<V>>)

  /** The first column of every table: the rendered month label. */
  const MonthYearColumn := "Month-Year"

  predicate Distinct<T(==)>(s: seq<T>) {
    forall i, j :: 0 <= i < j < |s| ==> s[i] != s[j]
  }

  lemma {:induction false} DistinctCountsOne<T>(s: seq<T>, x: T)
    requires Distinct(s)
    ensures multiset(s)[x] <= 1
  {
    if |s| > 0 {
      var n := |s| - 1;
      assert s == s[..n] + [s[n]];
      assert Distinct(s[..n]);
      DistinctCountsOne(s[..n], x);
      if x == s[n] {
        assert x !in s[..n];
      }
    }
  }

  /** A permutation of a list without repeats has no repeats. */
  lemma PermutationOfDistinct<T>(s: seq<T>, t: seq<T>)
    requires Distinct(s) && multiset(t) == multiset(s)
    ensures Distinct(t)
  {
    forall i, j | 0 <= i < j < |t| ensures t[i] != t[j] {
      if t[i] == t[j] {
        var x := t[i];
        assert t == t[..i] + [x] + t[i + 1..j] + [x] + t[j + 1..];
        assert multiset(t)[x] >= 2;
        DistinctCountsOne(s, x);
      }
    }
  }

  /** The distinct elements of s in first-seen order: the key order of a
      Python dict filled from s. */
  function Dedup<T(==)>(s: seq<T>): (r: seq<T>)
    ensures Distinct(r)
  {
    if |s| == 0 then []
    else
      var p := Dedup(s[..|s| - 1]);
      if s[|s| - 1] in p then p else p + [s[|s| - 1]]
  }

  /** Deduplication keeps exactly the elements of s. */
  lemma {:induction false} DedupMembers<T>(s: seq<T>, x: T)
    ensures x in Dedup(s) <==> x in s
  {
    if |s| > 0 {
      var n := |s| - 1;
      DedupMembers(s[..n], x);
      assert s == s[..n] + [s[n]];
    }
  }

  lemma {:induction false} DedupOfDistinct<T>(s: seq<T>)
    requires Distinct(s)
    ensures Dedup(s) == s
  {
    if |s| > 0 {
      DedupOfDistinct(s[..|s| - 1]);
    }
  }

  /** Rows ordered latest month first (no row is later than one before it). */
  predicate LatestFirst<V>(s: seq<Row<V>>) {
    forall i, j :: 0 <= i < j < |s| ==> !Later(s[j].month, s[i].month)
  }

  /** Every row of s is no later than m. */
  predicate NoLaterThan<V>(s: seq<Row<V>>, m: Month) {
    forall j :: 0 <= j < |s| ==> !Later(s[j].month, m)
  }

  lemma NoLaterThanFromMultiset<V>(t: seq<Row<V>>, s: seq<Row<V>>, r: Row<V>, m: Month)
    requires multiset(t) == multiset(s) + multiset{r}
    requires NoLaterThan(s, m) && !Later(r.month, m)
    ensures NoLaterThan(t, m)
  {
    forall j | 0 <= j < |t| ensures !Later(t[j].month, m) {
      assert t[j] in multiset(t);
      if t[j] != r {
        assert t[j] in multiset(s);
        var k :| 0 <= k < |s| && s[k] == t[j];
      }
    }
  }

  function Insert<V(==)>(r: Row<V>, s: seq<Row<V>>): (t: seq<Row<V>>)
    requires LatestFirst(s)
    ensures LatestFirst(t)
    ensures multiset(t) == multiset(s) + multiset{r}
  {
    if |s| == 0 || !Later(s[0].month, r.month) then
      [r] + s
    else
      var t' := Insert(r, s[1..]);
      assert s == [s[0]] + s[1..];
      NoLaterThanFromMultiset(t', s[1..], r, s[0].month);
      [s[0]] + t'
  }

  /** `df.sort_values('Sort_Date', ascending=False)` where Sort_Date is the
      parsed "Month-Year" label: the same rows, latest month first. */
  function SortLatestFirst<V(==)>(s: seq<Row<V>>): (t: seq<Row<V>>)
    ensures LatestFirst(t)
    ensures multiset(t) == multiset(s)
    ensures |t| == |s|
  {
    if |s| == 0 then []
    else
      assert s == [s[0]] + s[1..];
      Insert(s[0], SortLatestFirst(s[1..]))
  }

  /** No two rows share a month bucket. */
  predicate MonthsDistinct<V>(s: seq<Row<V>>) {
    forall i, j :: 0 <= i < j < |s| ==> s[i].month != s[j].month
  }

  /** Sorting rows with distinct months keeps them distinct. */
  lemma SortKeepsMonthsDistinct<V>(s: seq<Row<V>>)
    requires MonthsDistinct(s)
    ensures MonthsDistinct(SortLatestFirst(s))
  {
    var t := SortLatestFirst(s);
    assert Distinct(s) by {
      forall i, j | 0 <= i < j < |s| ensures s[i] != s[j] {
        assert s[i].month != s[j].month;
      }
    }
    PermutationOfDistinct(s, t);
    forall i, j | 0 <= i < j < |t| ensures t[i].month != t[j].month {
      assert t[i] in multiset(s) && t[j] in multiset(s);
      var a :| 0 <= a < |s| && s[a] == t[i];
      var b :| 0 <= b < |s| && s[b] == t[j];
      assert a != b;
    }
  }

  /** Latest first with distinct months is strictly latest first. */
  lemma StrictlyLatestFirst<V>(s: seq<Row<V>>)
    requires LatestFirst(s) && MonthsDistinct(s)
    ensures forall i, j :: 0 <= i < j < |s| ==> Later(s[i].month, s[j].month)
  {
  }

  /** The value of the last row for (m, c), or d when there is none: the
      cell a dictionary holds after `data[m][c] = value` for each row in turn,
      starting from d. */
  function LastValue(rows: seq<CategoryRow>, m: Month, c: string, d: int): int {
    if |rows| == 0 then d
    else
      var r := rows[|rows| - 1];
      if r.month == m && r.category == c then r.value else LastValue(rows[..|rows| - 1], m, c, d)
  }

  /** Without a row for (m, c) the cell keeps its starting value. */
  lemma {:induction false} LastValueAbsent(rows: seq<CategoryRow>, m: Month, c: string, d: int)
    requires forall j :: 0 <= j < |rows| ==> rows[j].month != m || rows[j].category != c
    ensures LastValue(rows, m, c, d) == d
  {
    if |rows| > 0 {
      LastValueAbsent(rows[..|rows| - 1], m, c, d);
    }
  }

  function Sum(s: seq<int>): int {
    if |s| == 0 then 0 else Sum(s[..|s| - 1]) + s[|s| - 1]
  }

  lemma SumAppend(s: seq<int>, x: int)
    ensures Sum(s + [x]) == Sum(s) + x
  {
    assert (s + [x])[..|s|] == s;
  }

  function MonthsOf(rows: seq<CategoryRow>): (ms: seq<Month>)
    ensures |ms| == |rows|
    ensures forall i :: 0 <= i < |rows| ==> ms[i] == rows[i].month
  {
    seq(|rows|, i requires 0 <= i < |rows| => rows[i].month)
  }

  lemma MonthsOfPrefix(rows: seq<CategoryRow>, n: nat)
    requires n <= |rows|
    ensures MonthsOf(rows)[..n] == MonthsOf(rows[..n])
  {
  }

  /** The months in the order their first row arrives. */
  function MonthsSeen(rows: seq<CategoryRow>): seq<Month> {
    Dedup(MonthsOf(rows))
  }

  /** The sum of the values of all rows of month m. */
  function MonthTotal(rows: seq<CategoryRow>, m: Month): int {
    if |rows| == 0 then 0
    else
      var r := rows[|rows| - 1];
      MonthTotal(rows[..|rows| - 1], m) + (if r.month == m then r.value else 0)
  }

  lemma {:induction false} MonthTotalUnseen(rows: seq<CategoryRow>, m: Month)
    requires m !in MonthsOf(rows)
    ensures MonthTotal(rows, m) == 0
  {
    if |rows| > 0 {
      var n := |rows| - 1;
      assert MonthsOf(rows) == MonthsOf(rows[..n]) + [rows[n].month];
      MonthTotalUnseen(rows[..n], m);
    }
  }

  /** The cells of each month row: one per tracked category. */
  type Cells = map<Month, map<string, int>>

  /** `{c: 0 for c in tracked}`: a freshly opened month row. */
  function Zeroes(tracked: seq<string>): (z: map<string, int>)
    ensures forall c :: c in z <==> c in tracked
    ensures forall c :: c in z ==> z[c] == 0
  {
    map c | c in tracked :: 0
  }

  /** The state of a monthly loop that opens month rows lazily and keeps a
      total per month: the months in the order they were opened, the
      `monthly_data` dictionary and the monthly totals dictionary. */
  datatype Tally = Tally(months: seq<Month>, cells: Cells, totals: map<Month, int>)

  /** Where the total column goes: last, or first after Month-Year. */
  datatype Layout = TotalLast | TotalFirst

  /** A month row's cells in column order (a missing cell reads 0). */
  function CellValues(cells: map<string, int>, cols: seq<string>): (vs: seq<int>)
    ensures |vs| == |cols|
    ensures forall k :: 0 <= k < |cols| && cols[k] in cells ==> vs[k] == cells[cols[k]]
  {
    if |cols| == 0 then []
    else
      var n := |cols| - 1;
      CellValues(cells, cols[..n]) + [if cols[n] in cells then cells[cols[n]] else 0]
  }

  /** Every cell of a freshly opened month row is 0, so its cells sum to 0. */
  lemma {:induction false} SumZeroes(tracked: seq<string>, cols: seq<string>)
    ensures Sum(CellValues(Zeroes(tracked), cols)) == 0
  {
    if |cols| > 0 {
      var n := |cols| - 1;
      SumZeroes(tracked, cols[..n]);
      SumAppend(CellValues(Zeroes(tracked), cols[..n]), CellValues(Zeroes(tracked), cols)[n]);
    }
  }

  /** Overwriting one cell changes the sum of the row by the difference,
      once, when the columns are distinct. */
  lemma {:induction false} SumAfterOverwrite(cells: map<string, int>, cols: seq<string>, c: string, v: int)
    requires Distinct(cols) && c in cells
    ensures Sum(CellValues(cells[c := v], cols)) == Sum(CellValues(cells, cols)) + (if c in cols then v - cells[c] else 0)
  {
    if |cols| > 0 {
      var n := |cols| - 1;
      assert Distinct(cols[..n]);
      assert c in cols <==> c in cols[..n] || c == cols[n];
      assert c == cols[n] ==> c !in cols[..n];
      SumAfterOverwrite(cells, cols[..n], c, v);
      SumAppend(CellValues(cells, cols[..n]), CellValues(cells, cols)[n]);
      SumAppend(CellValues(cells[c := v], cols[..n]), CellValues(cells[c := v], cols)[n]);
    }
  }

  /** One table row: the month's cells and its total, in the layout's order. */
  function TallyRow(t: Tally, m: Month, cols: seq<string>, layout: Layout): Row<seq<int>> {
    var cells := CellValues(if m in t.cells then t.cells[m] else map[], cols);
    var total := if m in t.totals then t.totals[m] else 0;
    Row(m, if layout.TotalFirst? then [total] + cells else cells + [total])
  }

  /** The header: with no month rows the frame has only Month-Year and the
      total; otherwise the tracked categories come in their first-seen order. */
  function TallyHeader(t: Tally, tracked: seq<string>, totalName: string, layout: Layout): seq<string> {
    if |t.months| == 0 then [MonthYearColumn, totalName]
    else if layout.TotalFirst? then [MonthYearColumn, totalName] + Dedup(tracked)
    else [MonthYearColumn] + Dedup(tracked) + [totalName]
  }

  /** The rows in dictionary order, one per month. */
  function UnsortedTallyRows(t: Tally, cols: seq<string>, layout: Layout): (u: seq<Row<seq<int>>>)
    ensures |u| == |t.months|
    ensures forall a :: 0 <= a < |u| ==> u[a] == TallyRow(t, t.months[a], cols, layout)
  {
    seq(|t.months|, a requires 0 <= a < |t.months| => TallyRow(t, t.months[a], cols, layout))
  }

  /** The frame written to the sheet, latest month first. */
  function TallyTable(t: Tally, tracked: seq<string>, totalName: string, layout: Layout): Table<seq<int>> {
    Table(TallyHeader(t, tracked, totalName, layout), SortLatestFirst(UnsortedTallyRows(t, Dedup(tracked), layout)))
  }

  /** Each table row is the row of some month of the tally. */
  lemma TallyTableRowOrigin(t: Tally, tracked: seq<string>, totalName: string, layout: Layout, i: nat) returns (a: nat)
    requires i < |TallyTable(t, tracked, totalName, layout).rows|
    ensures a < |t.months|
    ensures TallyTable(t, tracked, totalName, layout).rows[i] == TallyRow(t, t.months[a], Dedup(tracked), layout)
  {
    var u := UnsortedTallyRows(t, Dedup(tracked), layout);
    var sorted := TallyTable(t, tracked, totalName, layout).rows;
    assert sorted[i] in multiset(u);
    var j :| 0 <= j < |u| && u[j] == sorted[i];
    a := j;
  }

  /** Each month of the tally has a table row. */
  lemma TallyTableRowFor(t: Tally, tracked: seq<string>, totalName: string, layout: Layout, a: nat)
    requires a < |t.months|
    ensures exists i :: 0 <= i < |TallyTable(t, tracked, totalName, layout).rows|
                        && TallyTable(t, tracked, totalName, layout).rows[i].month == t.months[a]
  {
    var u := UnsortedTallyRows(t, Dedup(tracked), layout);
    var sorted := TallyTable(t, tracked, totalName, layout).rows;
    assert u[a] in multiset(sorted);
  }

  /** With distinct months, the table has exactly one row per month of the
      tally, strictly latest month first. */
  lemma TallyTableShape(t: Tally, tracked: seq<string>, totalName: string, layout: Layout)
    requires Distinct(t.months)
    ensures var tab := TallyTable(t, tracked, totalName, layout);
            && |tab.rows| == |t.months|
            && (forall i, j :: 0 <= i < j < |tab.rows| ==> Later(tab.rows[i].month, tab.rows[j].month))
            && (forall i :: 0 <= i < |tab.rows| ==> tab.rows[i].month in t.months)
            && (forall a :: 0 <= a < |t.months| ==> exists i :: 0 <= i < |tab.rows| && tab.rows[i].month == t.months[a])
  {
    var u := UnsortedTallyRows(t, Dedup(tracked), layout);
    var sorted := TallyTable(t, tracked, totalName, layout).rows;
    assert MonthsDistinct(u);
    SortKeepsMonthsDistinct(u);
    StrictlyLatestFirst(sorted);
    forall i | 0 <= i < |sorted| ensures sorted[i].month in t.months {
      var a := TallyTableRowOrigin(t, tracked, totalName, layout, i);
    }
    forall a | 0 <= a < |t.months| ensures exists i :: 0 <= i < |sorted| && sorted[i].month == t.months[a] {
      TallyTableRowFor(t, tracked, totalName, layout, a);
    }
  }
}
