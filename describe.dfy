/** `generate_statistics`: `describe(percentiles=[0.25, 0.5, 0.75])` restricted to min, q1, median,
    q3 and max, for one metric column.  Quantiles interpolate linearly between the order
    statistics closest to position (n - 1) * p of the sorted values (pandas' default, Hyndman-Fan
    type 7); the model works on exact reals. */
module Describe {
  import opened Wrappers
  import opened Sorting
  import opened Samples

  datatype Summary = Summary(min: real, q1: real, median: real, q3: real, max: real)

  /** Sort key for plain values. */
  function Id(x: real): real
  {
    x
  }

  /** The smallest value (`Series.min`). */
  function MinOf(s: seq<real>): (m: real)
    requires s != []
    ensures m in s && forall i :: 0 <= i < |s| ==> m <= s[i]
  {
    if |s| == 1 then s[0]
    else
      var rest := MinOf(s[1..]);
      assert forall i :: 1 <= i < |s| ==> s[i] == s[1..][i - 1];
      if s[0] <= rest then s[0] else rest
  }

  /** The largest value (`Series.max`). */
  function MaxOf(s: seq<real>): (m: real)
    requires s != []
    ensures m in s && forall i :: 0 <= i < |s| ==> s[i] <= m
  {
    if |s| == 1 then s[0]
    else
      var rest := MaxOf(s[1..]);
      assert forall i :: 1 <= i < |s| ==> s[i] == s[1..][i - 1];
      if s[0] >= rest then s[0] else rest
  }

  /** The quantile at p = k / 4 of ascending values: position h = (n - 1) * k / 4, split into its
      whole part `lo` and fraction `rem / 4`, interpolated between s[lo] and s[lo + 1]. */
  function QuarterPoint(s: seq<real>, k: nat): (q: real)
    requires s != [] && k <= 4
  {
    var h := (|s| - 1) * k;
    var lo, rem := h / 4, h % 4;
    PositionInRange(|s|, k);
    if rem == 0 then s[lo]
    else s[lo] + (rem as real / 4.0) * (s[lo + 1] - s[lo])
  }

  /** The interpolation position never leaves the sequence. */
  lemma PositionInRange(n: nat, k: nat)
    requires n >= 1 && k <= 4
    ensures ((n - 1) * k) / 4 < n
    ensures ((n - 1) * k) % 4 != 0 ==> ((n - 1) * k) / 4 + 1 < n
  {
    var h := (n - 1) * k;
    assert h <= (n - 1) * 4;
    assert h == 4 * (h / 4) + h % 4;
  }

  /** Linear interpolation stays between its end points and grows with the fraction. */
  lemma Interpolation(a: real, b: real, f: real, g: real)
    requires a <= b && 0.0 <= f <= g <= 1.0
    ensures a <= a + f * (b - a) <= a + g * (b - a) <= b
  {
    assert (g - f) * (b - a) >= 0.0;
    assert (1.0 - g) * (b - a) >= 0.0;
  }

  /** A quarter point lies between the order statistics around its position. */
  lemma QuarterPointBracket(s: seq<real>, k: nat)
    requires s != [] && k <= 4 && SortedBy(s, Id)
    ensures var h := (|s| - 1) * k; var lo := h / 4;
      s[lo] <= QuarterPoint(s, k) && (h % 4 != 0 ==> QuarterPoint(s, k) <= s[lo + 1])
  {
    var h := (|s| - 1) * k;
    var lo, rem := h / 4, h % 4;
    PositionInRange(|s|, k);
    if rem != 0 {
      assert Id(s[lo]) <= Id(s[lo + 1]);
      Interpolation(s[lo], s[lo + 1], rem as real / 4.0, rem as real / 4.0);
    }
  }

  /** Quantiles are monotone in p on sorted values. */
  lemma QuarterPointMonotone(s: seq<real>, k1: nat, k2: nat)
    requires s != [] && k1 <= k2 <= 4 && SortedBy(s, Id)
    ensures QuarterPoint(s, k1) <= QuarterPoint(s, k2)
  {
    var n := |s|;
    var h1, h2 := (n - 1) * k1, (n - 1) * k2;
    var lo1, lo2 := h1 / 4, h2 / 4;
    var rem1, rem2 := h1 % 4, h2 % 4;
    PositionInRange(n, k1);
    PositionInRange(n, k2);
    QuarterPointBracket(s, k1);
    QuarterPointBracket(s, k2);
    assert h1 <= h2;
    assert h1 == 4 * lo1 + rem1 && h2 == 4 * lo2 + rem2;
    if lo1 < lo2 {
      if rem1 != 0 {
        assert lo1 + 1 <= lo2;
        assert lo1 + 1 == lo2 || Id(s[lo1 + 1]) <= Id(s[lo2]);
      } else {
        assert Id(s[lo1]) <= Id(s[lo2]);
      }
    } else {
      assert lo1 == lo2 && rem1 <= rem2;
      if rem1 != 0 {
        assert Id(s[lo1]) <= Id(s[lo1 + 1]);
        Interpolation(s[lo1], s[lo1 + 1], rem1 as real / 4.0, rem2 as real / 4.0);
      }
    }
  }

  /** The end points of the interpolation are the extreme order statistics. */
  lemma QuarterPointEnds(s: seq<real>)
    requires s != []
    ensures QuarterPoint(s, 0) == s[0] && QuarterPoint(s, 4) == s[|s| - 1]
  {
  }

  /** The row labels of the statistics table: `describe`'s `min`, `25%`, `50%`, `75%` and `max`,
      with the three percentiles renamed. */
  const StatNames: seq<string> := ["min", "q1", "median", "q3", "max"]

  /** The statistic a summary reports under the label `name`, if `name` is one of its labels. */
  function Stat(s: Summary, name: string): (r: Option<real>)
    ensures r.Some? <==> name in StatNames
  {
    if name == "min" then Some(s.min)
    else if name == "q1" then Some(s.q1)
    else if name == "median" then Some(s.median)
    else if name == "q3" then Some(s.q3)
    else if name == "max" then Some(s.max)
    else None
  }

  /** The five statistics of one column; `None` for an empty column, where pandas reports NaN. */
  function DescribeColumn(values: seq<real>): (r: Option<Summary>)
    ensures r.None? <==> values == []
    ensures r.Some? ==> r.value.min in values && r.value.max in values
  {
    if values == [] then None
    else
      var s := SortBy(values, Id);
      Some(Summary(MinOf(values), QuarterPoint(s, 1), QuarterPoint(s, 2), QuarterPoint(s, 3), MaxOf(values)))
  }

  /** For a non-empty column: min and max are its smallest and largest values, the quartiles are
      the linear-interpolation quantiles of the sorted column, and min <= q1 <= median <= q3 <= max. */
  lemma DescribeOrdered(values: seq<real>)
    ensures DescribeColumn(values).Some? <==> values != []
    ensures values != [] ==>
      var r := DescribeColumn(values).value;
      var s := SortBy(values, Id);
      && r.min <= r.q1 <= r.median <= r.q3 <= r.max
      && r.min in values && r.max in values
      && (forall i :: 0 <= i < |values| ==> r.min <= values[i] <= r.max)
      && r.q1 == QuarterPoint(s, 1) && r.median == QuarterPoint(s, 2) && r.q3 == QuarterPoint(s, 3)
  {
    if values != [] {
      var s := SortBy(values, Id);
      MinIsFirstOrderStatistic(values);
      QuarterPointMonotone(s, 0, 1);
      QuarterPointMonotone(s, 1, 2);
      QuarterPointMonotone(s, 2, 3);
      QuarterPointMonotone(s, 3, 4);
      QuarterPointEnds(s);
    }
  }

  /** Min and max of a column are the first and last element of its sorted copy. */
  lemma MinIsFirstOrderStatistic(values: seq<real>)
    requires values != []
    ensures MinOf(values) == SortBy(values, Id)[0]
    ensures MaxOf(values) == SortBy(values, Id)[|values| - 1]
  {
    var s := SortBy(values, Id);
    assert multiset(s) == multiset(values) && SortedBy(s, Id);
    SortedPermutationEnds(values, s);
  }

  lemma SortedPermutationEnds(values: seq<real>, s: seq<real>)
    requires values != [] && multiset(values) == multiset(s) && SortedBy(s, Id)
    ensures |s| == |values|
    ensures MinOf(values) == s[0] && MaxOf(values) == s[|s| - 1]
  {
    assert |s| == |multiset(s)| == |values|;
    var lo, hi := MinOf(values), MaxOf(values);
    SameElements(values, s);
    assert s[0] in s && s[|s| - 1] in s;
    var i :| 0 <= i < |values| && values[i] == s[0];
    var j :| 0 <= j < |values| && values[j] == s[|s| - 1];
    SortedEnds(s, Id, lo);
    SortedEnds(s, Id, hi);
  }

  lemma SameElements(values: seq<real>, s: seq<real>)
    requires multiset(values) == multiset(s)
    ensures forall x :: x in values <==> x in s
  {
    forall x ensures x in values <==> x in s {
      assert x in values <==> x in multiset(values);
      assert x in s <==> x in multiset(s);
    }
  }

  /** The worked example: 1..10 gives q1 = 3.25, median = 5.5, q3 = 7.75. */
  lemma DescribeOneToTen()
    ensures var s := [1.0, 2.0, 3.0, 4.0, 5.0, 6.0, 7.0, 8.0, 9.0, 10.0];
      QuarterPoint(s, 1) == 3.25 && QuarterPoint(s, 2) == 5.5 && QuarterPoint(s, 3) == 7.75
  {
  }

  /** The statistics table of `generate_statistics`: one summary per metric column, present
      exactly when the scope has readings, with that column's extremes among its values. */
  function Statistics(rows: seq<Sample>): (r: seq<Option<Summary>>)
    ensures |r| == 3
    ensures forall k :: 0 <= k < 3 ==> (r[k].None? <==> rows == [])
    ensures forall k :: 0 <= k < 3 && r[k].Some? ==>
      r[k].value.min in Column(rows, k + 1) && r[k].value.max in Column(rows, k + 1)
  {
    seq(3, k requires 0 <= k < 3 => DescribeColumn(Column(rows, k + 1)))
  }
}
