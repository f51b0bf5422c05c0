/** The numbers the reports compute for their charts: the padded y-axis
    range of the site-metrics chart, and the series columns, colours and
    anchor of the monthly top-countries chart. */
module Charts {
  import opened Wrappers

  /** The smallest value of a non-empty list. */
  function Min(s: seq<real>): (m: real)
    requires |s| > 0
    ensures forall i :: 0 <= i < |s| ==> m <= s[i]
    ensures exists i :: 0 <= i < |s| && m == s[i]
  {
    if |s| == 1 then s[0]
    else
      var rest := Min(s[..|s| - 1]);
      assert forall i :: 0 <= i < |s| - 1 ==> s[..|s| - 1][i] == s[i];
      if s[|s| - 1] < rest then s[|s| - 1] else rest
  }

  /** The largest value of a non-empty list. */
  function Max(s: seq<real>): (m: real)
    requires |s| > 0
    ensures forall i :: 0 <= i < |s| ==> s[i] <= m
    ensures exists i :: 0 <= i < |s| && m == s[i]
  {
    if |s| == 1 then s[0]
    else
      var rest := Max(s[..|s| - 1]);
      assert forall i :: 0 <= i < |s| - 1 ==> s[..|s| - 1][i] == s[i];
      if s[|s| - 1] > rest then s[|s| - 1] else rest
  }

  /** The y-axis range over the user columns' values: 1.1 times the largest
      on top and 0.9 times the smallest, but never below 0, at the bottom.
      With no values there is no usable range: the top is NaN (the bottom,
      `max(0, NaN)`, is 0), which the model represents as None. */
  function AxisRange(values: seq<real>): (r: Option<(real, real)>)
    ensures r.Some? <==> |values| > 0
    ensures r.Some? ==> r.value.0 >= 0.0
  {
    if |values| == 0 then None
    else
      var lo := 0.9 * Min(values);
      Some((if lo > 0.0 then lo else 0.0, 1.1 * Max(values)))
  }

  /** For non-negative data the range covers every value. */
  lemma AxisRangeCovers(values: seq<real>)
    requires |values| > 0
    requires forall i :: 0 <= i < |values| ==> values[i] >= 0.0
    ensures var r := AxisRange(values).value;
            forall i :: 0 <= i < |values| ==> r.0 <= values[i] <= r.1
  {
    var lo := Min(values);
    var hi := Max(values);
    assert lo >= 0.0 && hi >= 0.0;
  }

  /** The number of line colours. */
  const ColorCount := 10

  /** One line of the countries chart: the sheet column range it reads and
      the index of its colour. */
  datatype Series = Series(startColumn: nat, endColumn: nat, color: nat)

  /** `for idx in range(len(top_countries))`: series idx reads column idx+1
      and uses colour idx % 10. */
  function ChartSeries(countries: nat): (s: seq<Series>)
    ensures |s| == countries
    ensures forall idx :: 0 <= idx < countries ==> s[idx] == Series(idx + 1, idx + 2, idx % ColorCount)
  {
    seq(countries, idx requires 0 <= idx < countries => Series(idx + 1, idx + 2, idx % ColorCount))
  }

  /** The sheet columns the chart reads. */
  function ChartedColumns(countries: nat): set<nat> {
    set s | s in ChartSeries(countries) :: s.startColumn
  }

  /** Over the countries table (Month-Year, the total, then k countries in
      columns 2 to k+1) the k series chart the total and the first k-1
      countries: every column from 1 to k, and never the last country. */
  lemma ChartSeriesColumns(k: nat)
    ensures forall c :: c in ChartedColumns(k) <==> 1 <= c <= k
    ensures k + 1 !in ChartedColumns(k)
  {
    forall c | 1 <= c <= k ensures c in ChartedColumns(k) {
      assert ChartSeries(k)[c - 1] in ChartSeries(k);
    }
  }

  /** Colours repeat only after ten series. */
  lemma ChartColorsDistinct(k: nat, i: nat, j: nat)
    requires i < j < k && j - i < ColorCount
    ensures ChartSeries(k)[i].color != ChartSeries(k)[j].color
  {
  }

  /** The chart's anchor column: two columns of padding after the table. */
  function AnchorColumn(columnCount: nat): nat {
    columnCount + 2
  }

  /** Over the countries table (k + 2 columns, indexed from 0) the chart is
      anchored past the table, with two empty columns between the table's
      last column and the chart, so it covers none of the charted columns. */
  lemma AnchorClearsTable(k: nat)
    ensures AnchorColumn(k + 2) == (k + 1) + 3
    ensures forall c :: c in ChartedColumns(k) ==> c + 2 < AnchorColumn(k + 2)
  {
    ChartSeriesColumns(k);
  }
}
