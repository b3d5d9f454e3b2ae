/** Per-date aggregation of the readings: the daily-average series
    (`df.groupby('date_only')[cols].mean()`) and the daily spread (`.std()`, sample standard
    deviation with n - 1 in the denominator, NaN for a single reading). */
module Daily {
  import opened Wrappers
  import opened Seqs
  import opened Sorting
  import opened Grouping
  import opened Samples
  import opened Describe

  /** The arithmetic mean of a non-empty column. */
  function Mean(values: seq<real>): real
    requires values != []
  {
    Sum(values) / (|values| as real)
  }

  /** Sum of squared deviations from `m`. */
  function SquaredDeviations(values: seq<real>, m: real): (r: real)
    ensures r >= 0.0
  {
    if values == [] then 0.0
    else
      SquareNonNegative(values[0] - m);
      (values[0] - m) * (values[0] - m) + SquaredDeviations(values[1..], m)
  }

  lemma SquareNonNegative(d: real)
    ensures d * d >= 0.0
  {
    if d < 0.0 {
      assert d * d == (-d) * (-d);
    }
  }

  /** Dividing both sides of `n * c <= a` (or `>=`) by a positive `n`. */
  lemma DivideBounds(a: real, n: real, lo: real, hi: real)
    requires n > 0.0 && n * lo <= a <= n * hi
    ensures lo <= a / n <= hi
  {
    var m := a / n;
    assert a == m * n;
    assert n * (m - lo) >= 0.0 && n * (hi - m) >= 0.0;
  }

  /** The sample variance, the square of pandas' `std()`; absent (NaN in pandas) below two
      readings.  The square root itself is not modelled. */
  function SampleVariance(values: seq<real>): (v: Option<real>)
    ensures v.Some? <==> |values| >= 2
    ensures v.Some? ==> v.value >= 0.0
  {
    if |values| < 2 then None
    else Some(SquaredDeviations(values, Mean(values)) / ((|values| - 1) as real))
  }

  lemma {:induction false} SquaredDeviationsAppend(a: seq<real>, b: seq<real>, m: real)
    ensures SquaredDeviations(a + b, m) == SquaredDeviations(a, m) + SquaredDeviations(b, m)
  {
    if a != [] {
      assert (a + b)[1..] == a[1..] + b;
      SquaredDeviationsAppend(a[1..], b, m);
    } else {
      assert a + b == b;
    }
  }

  lemma {:induction false} SquaredDeviationsPermutation(a: seq<real>, b: seq<real>, m: real)
    requires multiset(a) == multiset(b)
    ensures SquaredDeviations(a, m) == SquaredDeviations(b, m)
    decreases |a|
  {
    if a == [] {
      assert |b| == |multiset(b)| == 0;
    } else {
      var j := RemoveFirst(a, b);
      var front, back := b[..j], b[j + 1..];
      SquaredDeviationsPermutation(a[1..], front + back, m);
      SquaredDeviationsAppend(front, back, m);
      assert b == front + ([b[j]] + back);
      SquaredDeviationsAppend(front, [b[j]] + back, m);
      assert ([b[j]] + back)[1..] == back;
      assert a == [a[0]] + a[1..];
      SquaredDeviationsAppend([a[0]], a[1..], m);
      SquaredDeviationsAppend([b[j]], back, m);
    }
  }

  /** The sample variance does not depend on the order of the values. */
  lemma VariancePermutation(a: seq<real>, b: seq<real>)
    requires multiset(a) == multiset(b)
    ensures SampleVariance(a) == SampleVariance(b)
  {
    assert |a| == |multiset(a)| == |multiset(b)| == |b|;
    if |a| >= 2 {
      SumPermutation(a, b);
      SquaredDeviationsPermutation(a, b, Mean(a));
    }
  }

  /** One row of the daily-average series: the date and the mean of each metric. */
  datatype DayMeans = DayMeans(date: int, mean1: real, mean2: real, mean3: real)

  /** One row of the daily spread: the date and each metric's variance, if defined. */
  datatype DaySpread = DaySpread(date: int, var1: Option<real>, var2: Option<real>, var3: Option<real>)

  function MeanAt(d: DayMeans, k: int): real
    requires 1 <= k <= 3
  {
    if k == 1 then d.mean1 else if k == 2 then d.mean2 else d.mean3
  }

  function VarianceAt(d: DaySpread, k: int): Option<real>
    requires 1 <= k <= 3
  {
    if k == 1 then d.var1 else if k == 2 then d.var2 else d.var3
  }

  /** The readings grouped by calendar day, in ascending date order. */
  function Days(rows: seq<Sample>): seq<seq<Sample>>
  {
    GroupBy(rows, DateKey)
  }

  function MeansOf(g: seq<Sample>): DayMeans
    requires g != []
  {
    DayMeans(DateOf(g[0].ts), Mean(Column(g, 1)), Mean(Column(g, 2)), Mean(Column(g, 3)))
  }

  function SpreadOf(g: seq<Sample>): DaySpread
    requires g != []
  {
    DaySpread(DateOf(g[0].ts), SampleVariance(Column(g, 1)), SampleVariance(Column(g, 2)),
              SampleVariance(Column(g, 3)))
  }

  function DailyMeans(rows: seq<Sample>): (r: seq<DayMeans>)
    ensures |r| == |Days(rows)|
  {
    var days := Days(rows);
    seq(|days|, i requires 0 <= i < |days| => MeansOf(days[i]))
  }

  function DailySpreads(rows: seq<Sample>): (r: seq<DaySpread>)
    ensures |r| == |Days(rows)|
  {
    var days := Days(rows);
    seq(|days|, i requires 0 <= i < |days| => SpreadOf(days[i]))
  }

  /** The reference definition: the readings whose calendar day is `d`, in row order. */
  predicate OnDate(r: Sample, d: int)
  {
    DateOf(r.ts) == d
  }

  function ReadingsOn(rows: seq<Sample>, d: int): seq<Sample>
  {
    Select(rows, OnDate, d)
  }

  /** The daily series has one entry per distinct calendar day, in strictly ascending order, and
      the averages and spreads line up date by date. */
  lemma DailyDates(rows: seq<Sample>)
    ensures forall i, j :: 0 <= i < j < |DailyMeans(rows)| ==> DailyMeans(rows)[i].date < DailyMeans(rows)[j].date
    ensures forall i :: 0 <= i < |DailyMeans(rows)| ==> DailyMeans(rows)[i].date == DailySpreads(rows)[i].date
  {
    var days := Days(rows);
    var means := DailyMeans(rows);
    forall i, j | 0 <= i < j < |means| ensures means[i].date < means[j].date {
      assert KeyOf(days[i], DateKey) < KeyOf(days[j], DateKey);
    }
  }

  /** Every reading's date has an entry in the daily series ... */
  lemma EveryDateHasAnEntry(rows: seq<Sample>, r: Sample)
    requires r in rows
    ensures exists i :: 0 <= i < |DailyMeans(rows)| && DailyMeans(rows)[i].date == DateOf(r.ts)
  {
    var days := Days(rows);
    ExactlyOneGroup(rows, DateKey, r);
    var i :| 0 <= i < |days| && r in days[i];
    var a :| 0 <= a < |days[i]| && days[i][a] == r;
    DayMembersShareDate(rows, i, a);
  }

  /** Every reading of the `i`-th day has that day's date. */
  lemma DayMembersShareDate(rows: seq<Sample>, i: nat, a: nat)
    requires i < |Days(rows)| && a < |Days(rows)[i]|
    ensures DateOf(Days(rows)[i][a].ts) == DailyMeans(rows)[i].date
  {
    var g := Days(rows)[i];
    assert DateKey(g[a]) == DateKey(g[0]);
    assert DailyMeans(rows)[i] == MeansOf(g);
  }

  /** ... and every entry is the date of some reading. */
  lemma EveryEntryHasAReading(rows: seq<Sample>, i: nat)
    requires i < |DailyMeans(rows)|
    ensures ReadingsOn(rows, DailyMeans(rows)[i].date) != []
  {
    var days := Days(rows);
    var r := days[i][0];
    FlattenMember(days, r);
    assert r in multiset(Flatten(days));
    assert r in rows;
    SelectMember(rows, OnDate, DateOf(r.ts), r);
  }

  /** The `i`-th day holds the same readings as the reference selection for its date. */
  lemma DayIsReadingsOn(rows: seq<Sample>, i: nat)
    requires i < |Days(rows)|
    ensures Days(rows)[i] != []
    ensures var g := Days(rows)[i];
      multiset(g) == multiset(ReadingsOn(rows, DateOf(g[0].ts))) && |g| == |ReadingsOn(rows, DateOf(g[0].ts))|
  {
    var g := Days(rows)[i];
    var d := DateOf(g[0].ts);
    GroupContents(rows, DateKey, i);
    SelectSameMask(rows, HasKey, (DateKey, KeyOf(g, DateKey)), OnDate, d);
    var on := ReadingsOn(rows, d);
    assert |g| == |multiset(g)| == |multiset(on)| == |on|;
  }

  /** Each daily average is the arithmetic mean of that date's readings for the metric. */
  lemma DailyMeanIsMeanOfDay(rows: seq<Sample>, i: nat, k: int)
    requires i < |DailyMeans(rows)| && 1 <= k <= 3
    ensures var d := DailyMeans(rows)[i].date;
      ReadingsOn(rows, d) != [] && MeanAt(DailyMeans(rows)[i], k) == Mean(Column(ReadingsOn(rows, d), k))
  {
    var g := Days(rows)[i];
    DayIsReadingsOn(rows, i);
    var on := ReadingsOn(rows, DateOf(g[0].ts));
    assert DailyMeans(rows)[i] == MeansOf(g);
    ColumnSumPermutation(g, on, k);
  }

  /** A day's spread depends only on which readings the day holds, not on their order. */
  lemma SpreadOfPermutation(g: seq<Sample>, on: seq<Sample>, k: int)
    requires g != [] && 1 <= k <= 3
    requires multiset(g) == multiset(on)
    ensures VarianceAt(SpreadOf(g), k) == SampleVariance(Column(on, k))
  {
    SpreadOfColumn(g, k);
    ColumnPermutation(g, on, k);
    VariancePermutation(Column(g, k), Column(on, k));
  }

  lemma SpreadOfColumn(g: seq<Sample>, k: int)
    requires g != [] && 1 <= k <= 3
    ensures VarianceAt(SpreadOf(g), k) == SampleVariance(Column(g, k))
  {
  }

  /** Each spread is present iff the date has at least two readings, and is then the sample
      variance of that date's readings. */
  lemma DailySpreadDefinedIffTwoReadings(rows: seq<Sample>, i: nat, k: int)
    requires i < |DailySpreads(rows)| && 1 <= k <= 3
    ensures var d := DailySpreads(rows)[i].date;
      VarianceAt(DailySpreads(rows)[i], k).Some? <==> |ReadingsOn(rows, d)| >= 2
    ensures var d := DailySpreads(rows)[i].date;
      VarianceAt(DailySpreads(rows)[i], k) == SampleVariance(Column(ReadingsOn(rows, d), k))
  {
    var g := Days(rows)[i];
    DayIsReadingsOn(rows, i);
    assert DailySpreads(rows)[i] == SpreadOf(g);
    SpreadOfPermutation(g, ReadingsOn(rows, DateOf(g[0].ts)), k);
  }

  /** A mean lies between the smallest and the largest value. */
  lemma MeanBetweenExtremes(values: seq<real>)
    requires values != []
    ensures MinOf(values) <= Mean(values) <= MaxOf(values)
  {
    SumBounds(values, MinOf(values), MaxOf(values));
    DivideBounds(Sum(values), |values| as real, MinOf(values), MaxOf(values));
  }

  lemma {:induction false} SumBounds(values: seq<real>, lo: real, hi: real)
    requires forall i :: 0 <= i < |values| ==> lo <= values[i] <= hi
    ensures (|values| as real) * lo <= Sum(values) <= (|values| as real) * hi
  {
    if values != [] {
      SumBounds(values[1..], lo, hi);
    }
  }

  /** Two equal readings: mean 10, variance defined and 0.  One reading: mean 10, no variance. */
  lemma SpreadExamples()
    ensures Mean([10.0, 10.0]) == 10.0 && SampleVariance([10.0, 10.0]) == Some(0.0)
    ensures Mean([10.0]) == 10.0 && SampleVariance([10.0]).None?
  {
    assert Sum([10.0, 10.0]) == 20.0;
  }
}
