/** The monthly top-countries trend: only rows of the tracked countries are
    used; a month row is opened, with every tracked country at 0, when the
    month's first tracked row arrives; each row overwrites its country's
    cell but adds to the month's Total Engaged Sessions. */
module CountryTrend {
  import opened Months
  import opened Tables
  import Charts

  const TotalEngagedColumn := "Total Engaged Sessions"

  /** One turn of the monthly loop. */
  function CountryStep(t: Tally, row: CategoryRow, tracked: seq<string>): Tally {
    if row.category !in tracked then t
    else
      var m := row.month;
      var u := if m in t.cells then t else Tally(t.months + [m], t.cells[m := Zeroes(tracked)], t.totals[m := 0]);
      var total := (if m in u.totals then u.totals[m] else 0) + row.value;
      Tally(u.months, u.cells[m := u.cells[m][row.category := row.value]], u.totals[m := total])
  }

  function CountryAggregate(rows: seq<CategoryRow>, tracked: seq<string>): Tally {
    if |rows| == 0 then Tally([], map[], map[])
    else CountryStep(CountryAggregate(rows[..|rows| - 1], tracked), rows[|rows| - 1], tracked)
  }

  /** The rows of the tracked countries, in response order. */
  function TrackedRows(rows: seq<CategoryRow>, tracked: seq<string>): (r: seq<CategoryRow>)
    ensures |r| <= |rows|
  {
    if |rows| == 0 then []
    else
      var n := |rows| - 1;
      TrackedRows(rows[..n], tracked) + (if rows[n].category in tracked then [rows[n]] else [])
  }

  lemma {:induction false} TrackedRowsMembers(rows: seq<CategoryRow>, tracked: seq<string>, x: CategoryRow)
    ensures x in TrackedRows(rows, tracked) <==> x in rows && x.category in tracked
  {
    if |rows| > 0 {
      var n := |rows| - 1;
      TrackedRowsMembers(rows[..n], tracked, x);
      assert rows == rows[..n] + [rows[n]];
    }
  }

  /** Untracked rows are ignored entirely, in the cells and in the total:
      the loop over all rows ends where the loop over the tracked rows does. */
  lemma {:induction false} UntrackedIgnored(rows: seq<CategoryRow>, tracked: seq<string>)
    ensures CountryAggregate(rows, tracked) == CountryAggregate(TrackedRows(rows, tracked), tracked)
  {
    if |rows| > 0 {
      var n := |rows| - 1;
      var front := TrackedRows(rows[..n], tracked);
      UntrackedIgnored(rows[..n], tracked);
      if rows[n].category in tracked {
        assert (front + [rows[n]])[..|front|] == front;
      } else {
        assert TrackedRows(rows, tracked) == front;
      }
    }
  }

  /** A month has a row, and a total, exactly when a tracked row falls in it. */
  lemma {:induction false} CountryKeys(rows: seq<CategoryRow>, tracked: seq<string>, m: Month)
    ensures var t := CountryAggregate(rows, tracked);
            && (m in t.cells <==> m in MonthsOf(TrackedRows(rows, tracked)))
            && (m in t.totals <==> m in MonthsOf(TrackedRows(rows, tracked)))
  {
    if |rows| > 0 {
      var n := |rows| - 1;
      CountryKeys(rows[..n], tracked, m);
      var front := TrackedRows(rows[..n], tracked);
      if rows[n].category in tracked {
        assert MonthsOf(front + [rows[n]]) == MonthsOf(front) + [rows[n].month];
      } else {
        assert TrackedRows(rows, tracked) == front;
      }
    }
  }

  /** The months are kept in the order of their first tracked row. */
  lemma {:induction false} CountryMonths(rows: seq<CategoryRow>, tracked: seq<string>)
    ensures CountryAggregate(rows, tracked).months == MonthsSeen(TrackedRows(rows, tracked))
  {
    if |rows| > 0 {
      var n := |rows| - 1;
      var front := TrackedRows(rows[..n], tracked);
      CountryMonths(rows[..n], tracked);
      if rows[n].category in tracked {
        CountryKeys(rows[..n], tracked, rows[n].month);
        DedupMembers(MonthsOf(front), rows[n].month);
        assert MonthsOf(front + [rows[n]]) == MonthsOf(front) + [rows[n].month];
      } else {
        assert TrackedRows(rows, tracked) == front;
      }
    }
  }

  /** Every month row has exactly the tracked countries as its columns. */
  lemma {:induction false} CountryColumns(rows: seq<CategoryRow>, tracked: seq<string>, m: Month, c: string)
    requires m in CountryAggregate(rows, tracked).cells
    ensures c in CountryAggregate(rows, tracked).cells[m] <==> c in tracked
  {
    var n := |rows| - 1;
    if m in CountryAggregate(rows[..n], tracked).cells {
      CountryColumns(rows[..n], tracked, m, c);
    }
  }

  /** A country's cell holds its last row of the month: later rows
      overwrite earlier ones. */
  lemma {:induction false} CountryCells(rows: seq<CategoryRow>, tracked: seq<string>, m: Month, c: string)
    requires m in CountryAggregate(rows, tracked).cells && c in tracked
    ensures c in CountryAggregate(rows, tracked).cells[m]
    ensures CountryAggregate(rows, tracked).cells[m][c] == LastValue(rows, m, c, 0)
  {
    CountryColumns(rows, tracked, m, c);
    var n := |rows| - 1;
    var before := rows[..n];
    if m in CountryAggregate(before, tracked).cells {
      CountryCells(before, tracked, m, c);
    } else {
      CountryKeys(before, tracked, m);
      forall j | 0 <= j < |before| ensures before[j].month != m || before[j].category != c {
        TrackedRowsMembers(before, tracked, before[j]);
      }
      LastValueAbsent(before, m, c, 0);
    }
  }

  /** A month's total adds up all its tracked rows. */
  lemma {:induction false} CountryTotals(rows: seq<CategoryRow>, tracked: seq<string>, m: Month)
    requires m in CountryAggregate(rows, tracked).totals
    ensures CountryAggregate(rows, tracked).totals[m] == MonthTotal(TrackedRows(rows, tracked), m)
  {
    var n := |rows| - 1;
    var before := rows[..n];
    var front := TrackedRows(before, tracked);
    CountryKeys(before, tracked, m);
    if rows[n].category in tracked {
      assert (front + [rows[n]])[..|front|] == front;
    } else {
      assert TrackedRows(rows, tracked) == front;
    }
    if m in CountryAggregate(before, tracked).totals {
      CountryTotals(before, tracked, m);
    } else {
      MonthTotalUnseen(front, m);
    }
  }

  /** No (month, country) pair occurs twice. */
  predicate PairsOnce(rows: seq<CategoryRow>) {
    forall i, j :: 0 <= i < j < |rows| ==> rows[i].month != rows[j].month || rows[i].category != rows[j].category
  }

  /** When every (month, country) pair occurs once, the Total of a month is
      the sum of its tracked cells. */
  lemma {:induction false} TotalIsCellSum(rows: seq<CategoryRow>, tracked: seq<string>, m: Month)
    requires PairsOnce(rows)
    requires m in CountryAggregate(rows, tracked).totals && m in CountryAggregate(rows, tracked).cells
    ensures var t := CountryAggregate(rows, tracked);
            t.totals[m] == Sum(CellValues(t.cells[m], Dedup(tracked)))
  {
    var n := |rows| - 1;
    var before := rows[..n];
    var r := rows[n];
    var t0 := CountryAggregate(before, tracked);
    var cols := Dedup(tracked);
    assert PairsOnce(before);
    CountryKeys(before, tracked, m);
    if r.category !in tracked || r.month != m {
      TotalIsCellSum(before, tracked, m);
    } else if m !in t0.cells {
      SumZeroes(tracked, cols);
      DedupMembers(tracked, r.category);
      SumAfterOverwrite(Zeroes(tracked), cols, r.category, r.value);
    } else {
      TotalIsCellSum(before, tracked, m);
      CountryCells(before, tracked, m, r.category);
      LastValueAbsent(before, m, r.category, 0);
      DedupMembers(tracked, r.category);
      SumAfterOverwrite(t0.cells[m], cols, r.category, r.value);
    }
  }

  /** Without that condition the Total and the cells part ways: two rows for
      the same country and month leave the cell at the second value and the
      Total at both. */
  lemma RepeatedPairSplitsTotal()
    ensures var m := Month(2024, 1);
            var t := CountryAggregate([CategoryRow(m, "India", 5), CategoryRow(m, "India", 7)], ["India"]);
            && t.cells[m]["India"] == 7
            && t.totals[m] == 12
            && Sum(CellValues(t.cells[m], Dedup(["India"]))) == 7
  {
    var m := Month(2024, 1);
    var rows := [CategoryRow(m, "India", 5), CategoryRow(m, "India", 7)];
    assert rows[..1] == [CategoryRow(m, "India", 5)];
    assert rows[..1][..0] == [];
    var first := CountryAggregate(rows[..1], ["India"]);
    assert "India" in ["India"];
    assert CountryAggregate(rows[..1][..0], ["India"]) == Tally([], map[], map[]);
    assert first == CountryStep(Tally([], map[], map[]), rows[0], ["India"]);
    assert CountryAggregate(rows, ["India"]) == CountryStep(first, rows[1], ["India"]);
    assert first.cells[m]["India"] == 5 && first.totals[m] == 5;
    assert Dedup(["India"]) == ["India"] by {
      assert ["India"][..0] == [];
    }
    assert CellValues(CountryAggregate(rows, ["India"]).cells[m], ["India"]) == [7] by {
      assert ["India"][..0] == [];
    }
    assert Sum([7]) == Sum([7][..0]) + 7;
  }

  /** The monthly loop of the top-countries reports. */
  method AggregateCountrySessions(rows: seq<CategoryRow>, tracked: seq<string>) returns (t: Tally)
    ensures t == CountryAggregate(rows, tracked)
  {
    var monthly: Cells := map[];
    var totals: map<Month, int> := map[];
    var months: seq<Month> := [];
    var i := 0;
    while i < |rows|
      invariant 0 <= i <= |rows|
      invariant CountryAggregate(rows[..i], tracked) == Tally(months, monthly, totals)
    {
      var row := rows[i];
      ghost var before := Tally(months, monthly, totals);
      assert CountryAggregate(rows[..i + 1], tracked) == CountryStep(before, row, tracked) by {
        assert rows[..i + 1][..i] == rows[..i];
      }
      if row.category in tracked {
        var m := row.month;
        assert m in monthly <==> m in totals by {
          CountryKeys(rows[..i], tracked, m);
        }
        if m !in monthly {
          monthly := monthly[m := Zeroes(tracked)];
          totals := totals[m := 0];
          months := months + [m];
        }
        monthly := monthly[m := monthly[m][row.category := row.value]];
        totals := totals[m := totals[m] + row.value];
      }
      assert CountryStep(before, row, tracked) == Tally(months, monthly, totals);
      i := i + 1;
    }
    assert rows[..i] == rows;
    t := Tally(months, monthly, totals);
  }

  /** The frame: Month-Year, Total Engaged Sessions, then the tracked
      countries; latest month first. */
  function CountryTable(t: Tally, tracked: seq<string>): Table<seq<int>> {
    TallyTable(t, tracked, TotalEngagedColumn, TotalFirst)
  }

  /** One row per month with a tracked row, strictly latest month first; the
      header puts the total right after Month-Year. */
  lemma CountryTableRows(rows: seq<CategoryRow>, tracked: seq<string>)
    ensures var tab := CountryTable(CountryAggregate(rows, tracked), tracked);
            && |tab.rows| == |MonthsSeen(TrackedRows(rows, tracked))|
            && tab.columns[..2] == [MonthYearColumn, TotalEngagedColumn]
            && (|tab.rows| > 0 ==> tab.columns[2..] == Dedup(tracked))
            && (forall i, j :: 0 <= i < j < |tab.rows| ==> Later(tab.rows[i].month, tab.rows[j].month))
            && (forall i :: 0 <= i < |tab.rows| ==> tab.rows[i].month in MonthsOf(TrackedRows(rows, tracked)))
  {
    var t := CountryAggregate(rows, tracked);
    var tab := CountryTable(t, tracked);
    CountryMonths(rows, tracked);
    TallyTableShape(t, tracked, TotalEngagedColumn, TotalFirst);
    forall i | 0 <= i < |tab.rows| ensures tab.rows[i].month in MonthsOf(TrackedRows(rows, tracked)) {
      DedupMembers(MonthsOf(TrackedRows(rows, tracked)), tab.rows[i].month);
    }
  }

  /** The countries chart over the countries table, for k distinct tracked
      countries and at least one month: the table has k + 2 columns; the k
      series read the Total Engaged Sessions column and the first k - 1
      countries' columns, never the last country's; and the chart is anchored
      three columns past the table's last column, leaving two empty columns. */
  lemma CountryChartColumns(rows: seq<CategoryRow>, tracked: seq<string>, k: nat)
    requires Distinct(tracked) && |tracked| == k && k > 0
    requires |CountryTable(CountryAggregate(rows, tracked), tracked).rows| > 0
    ensures var cols := CountryTable(CountryAggregate(rows, tracked), tracked).columns;
            && |cols| == k + 2
            && cols[0] == MonthYearColumn && cols[1] == TotalEngagedColumn
            && (forall c :: c in Charts.ChartedColumns(k) ==>
                  (c == 1 && cols[c] == TotalEngagedColumn) || (2 <= c <= k && cols[c] == tracked[c - 2]))
            && cols[k + 1] == tracked[k - 1] && k + 1 !in Charts.ChartedColumns(k)
            && Charts.AnchorColumn(|cols|) == (|cols| - 1) + 3
  {
    var cols := CountryTable(CountryAggregate(rows, tracked), tracked).columns;
    CountryTableRows(rows, tracked);
    DedupOfDistinct(tracked);
    Charts.ChartSeriesColumns(k);
    assert cols == cols[..2] + cols[2..];
  }

  /** Each row holds its month's total of tracked sessions, then each tracked
      country's last value for the month. */
  lemma CountryTableCells(rows: seq<CategoryRow>, tracked: seq<string>, i: nat)
    requires i < |CountryTable(CountryAggregate(rows, tracked), tracked).rows|
    ensures var row := CountryTable(CountryAggregate(rows, tracked), tracked).rows[i];
            var cols := Dedup(tracked);
            && |row.values| == |cols| + 1
            && row.values[0] == MonthTotal(TrackedRows(rows, tracked), row.month)
            && (forall k :: 0 <= k < |cols| ==> row.values[k + 1] == LastValue(rows, row.month, cols[k], 0))
  {
    var t := CountryAggregate(rows, tracked);
    var cols := Dedup(tracked);
    var a := TallyTableRowOrigin(t, tracked, TotalEngagedColumn, TotalFirst, i);
    var m := t.months[a];
    CountryMonths(rows, tracked);
    DedupMembers(MonthsOf(TrackedRows(rows, tracked)), m);
    CountryKeys(rows, tracked, m);
    CountryTotals(rows, tracked, m);
    forall k | 0 <= k < |cols| ensures cols[k] in t.cells[m] && t.cells[m][cols[k]] == LastValue(rows, m, cols[k], 0) {
      DedupMembers(tracked, cols[k]);
      CountryCells(rows, tracked, m, cols[k]);
    }
  }

  /** One [country, pageviews] row of the overall report. */
  datatype CountryViews = CountryViews(country: string, pageviews: int)

  /** The overall report's loop: one row per response row, in response order. */
  method OverallCountryRows(response: seq<(string, int)>) returns (data: seq<CountryViews>)
    ensures |data| == |response|
    ensures forall i :: 0 <= i < |response| ==> data[i] == CountryViews(response[i].0, response[i].1)
  {
    data := [];
    var i := 0;
    while i < |response|
      invariant 0 <= i <= |response|
      invariant |data| == i
      invariant forall j :: 0 <= j < i ==> data[j] == CountryViews(response[j].0, response[j].1)
    {
      data := data + [CountryViews(response[i].0, response[i].1)];
      i := i + 1;
    }
  }
}
