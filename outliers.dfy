/** The five-level outlier classes used to colour every numeric column of
    every report: a value is compared with its column's mean and standard
    deviation, in a fixed order of strict tests. */
module Outliers {
  import opened Wrappers

  datatype ColorClass = PositiveHighOutlier | PositiveMildOutlier | Average | NegativeMildOutlier | NegativeHighOutlier

  /** The class names written to the colour mapping. */
  function ClassName(c: ColorClass): string {
    match c
    case PositiveHighOutlier => "positive-high-outlier"
    case PositiveMildOutlier => "positive-mild-outlier"
    case Average => "average"
    case NegativeMildOutlier => "negative-mild-outlier"
    case NegativeHighOutlier => "negative-high-outlier"
  }

  /** `color_mapper`: more than one deviation above the mean, more than half
      a deviation above, more than one below, more than half below, else
      average; each test strict and tried in that order. */
  function ColorOf(v: real, mean: real, std: real): ColorClass {
    if v > mean + std then PositiveHighOutlier
    else if v > mean + std / 2.0 then PositiveMildOutlier
    else if v < mean - std then NegativeHighOutlier
    else if v < mean - std / 2.0 then NegativeMildOutlier
    else Average
  }

  /** A missing cell (NaN) fails every comparison and so is average. */
  function CellColor(v: Option<real>, mean: real, std: real): ColorClass {
    if v.Some? then ColorOf(v.value, mean, std) else Average
  }

  /** Each class, characterised by where the value lies, for a non-negative
      deviation: the five classes partition the line at m-s, m-s/2, m+s/2
      and m+s, with each boundary point in the class nearer the mean. */
  lemma ColorOfBands(v: real, mean: real, std: real)
    requires std >= 0.0
    ensures ColorOf(v, mean, std) == PositiveHighOutlier <==> v > mean + std
    ensures ColorOf(v, mean, std) == PositiveMildOutlier <==> mean + std / 2.0 < v <= mean + std
    ensures ColorOf(v, mean, std) == Average <==> mean - std / 2.0 <= v <= mean + std / 2.0
    ensures ColorOf(v, mean, std) == NegativeMildOutlier <==> mean - std <= v < mean - std / 2.0
    ensures ColorOf(v, mean, std) == NegativeHighOutlier <==> v < mean - std
  {
  }

  /** A value exactly one deviation above the mean is a mild outlier, not a
      high one; exactly half a deviation away it is average. */
  lemma ColorOfBoundaries(mean: real, std: real)
    requires std > 0.0
    ensures ColorOf(mean + std, mean, std) == PositiveMildOutlier
    ensures ColorOf(mean - std, mean, std) == NegativeMildOutlier
    ensures ColorOf(mean + std / 2.0, mean, std) == Average
    ensures ColorOf(mean - std / 2.0, mean, std) == Average
  {
  }

  /** With a zero deviation nothing is mild: every value above the mean is a
      high outlier, every value below it a low one. */
  lemma ColorOfZeroDeviation(v: real, mean: real)
    ensures ColorOf(v, mean, 0.0) == (if v > mean then PositiveHighOutlier else if v < mean then NegativeHighOutlier else Average)
  {
  }

  /** The classes from lowest to highest. */
  function Level(c: ColorClass): int {
    match c
    case NegativeHighOutlier => 0
    case NegativeMildOutlier => 1
    case Average => 2
    case PositiveMildOutlier => 3
    case PositiveHighOutlier => 4
  }

  /** A larger value never gets a lower class. */
  lemma ColorOfMonotone(v: real, w: real, mean: real, std: real)
    requires std >= 0.0 && v <= w
    ensures Level(ColorOf(v, mean, std)) <= Level(ColorOf(w, mean, std))
  {
    ColorOfBands(v, mean, std);
    ColorOfBands(w, mean, std);
  }

  /** Mirroring a value about the mean mirrors its class. */
  lemma ColorOfSymmetric(v: real, mean: real, std: real)
    requires std >= 0.0
    ensures Level(ColorOf(v, mean, std)) + Level(ColorOf(2.0 * mean - v, mean, std)) == 4
  {
    ColorOfBands(v, mean, std);
    ColorOfBands(2.0 * mean - v, mean, std);
  }

  /** `df[column].apply(color_mapper)`: one class per row. */
  function ColumnColors(cells: seq<seq<Option<real>>>, k: nat, mean: real, std: real): (cs: seq<ColorClass>)
    requires forall i :: 0 <= i < |cells| ==> k < |cells[i]|
    ensures |cs| == |cells|
    ensures forall i :: 0 <= i < |cells| ==> cs[i] == CellColor(cells[i][k], mean, std)
  {
    seq(|cells|, i requires 0 <= i < |cells| => CellColor(cells[i][k], mean, std))
  }

  /** `{col: get_color_class(col) for col in numeric_columns}`: the header's
      columns after Month-Year, each with its column of cells and its
      column's (mean, std). The reports' column names are distinct; for a
      repeated name, where pandas would fail on the duplicated column, the
      model keeps the last such column's classes. */
  function ColorMapping(names: seq<string>, cells: seq<seq<Option<real>>>, stats: seq<(real, real)>): map<string, seq<ColorClass>>
    requires |stats| == |names|
    requires forall i :: 0 <= i < |cells| ==> |cells[i]| >= |names|
  {
    if |names| == 0 then map[]
    else
      var n := |names| - 1;
      ColorMapping(names[..n], cells, stats[..n])[names[n] := ColumnColors(cells, n, stats[n].0, stats[n].1)]
  }

  /** One entry per numeric column, each as long as the table, holding that
      column's classes (the last such column's, for a repeated name). */
  lemma {:induction false} ColorMappingEntries(names: seq<string>, cells: seq<seq<Option<real>>>, stats: seq<(real, real)>, name: string)
    requires |stats| == |names|
    requires forall i :: 0 <= i < |cells| ==> |cells[i]| >= |names|
    ensures name in ColorMapping(names, cells, stats) <==> name in names
    ensures name in names ==>
              exists k :: 0 <= k < |names| && names[k] == name
                          && (forall k' :: k < k' < |names| ==> names[k'] != name)
                          && ColorMapping(names, cells, stats)[name] == ColumnColors(cells, k, stats[k].0, stats[k].1)
  {
    if |names| > 0 {
      var n := |names| - 1;
      assert names == names[..n] + [names[n]];
      ColorMappingEntries(names[..n], cells, stats[..n], name);
      if name in names && name != names[n] {
        var k :| 0 <= k < n && names[..n][k] == name
                 && (forall k' :: k < k' < n ==> names[..n][k'] != name)
                 && ColorMapping(names[..n], cells, stats[..n])[name] == ColumnColors(cells, k, stats[..n][k].0, stats[..n][k].1);
        assert names[k] == name;
      }
    }
  }
}
