/** A sample row: a timestamp and three numeric readings, plus any further columns of the file. */
module Samples {
  import opened Wrappers
  import opened Seqs

  const SecondsPerHour: int := 3600
  const SecondsPerDay: int := 86400

  /** Timestamps are whole seconds since the epoch, without time zone (pandas naive datetimes).
      `extra` holds the cells of columns 4 and beyond, `None` where pandas reads NaN. */
  datatype Sample = Sample(ts: int, m1: real, m2: real, m3: real, extra: seq<Option<string>>)

  /** The calendar day of a timestamp, as a day number (`.dt.date`). */
  function DateOf(ts: int): (d: int)
    ensures d * SecondsPerDay <= ts < (d + 1) * SecondsPerDay
  {
    ts / SecondsPerDay
  }

  /** Seconds since midnight (`.dt.time`). */
  function SecondOfDay(ts: int): (r: int)
    ensures 0 <= r < SecondsPerDay
    ensures ts == DateOf(ts) * SecondsPerDay + r
  {
    ts % SecondsPerDay
  }

  /** The hour of the day (`.dt.hour`). */
  function HourOf(ts: int): (h: int)
    ensures 0 <= h < 24
    ensures h * SecondsPerHour <= SecondOfDay(ts) < (h + 1) * SecondsPerHour
  {
    SecondOfDay(ts) / SecondsPerHour
  }

  /** Metric column k (1, 2 or 3) of a row, as `df.columns[1:4]` numbers them. */
  function Metric(r: Sample, k: int): real
    requires 1 <= k <= 3
  {
    if k == 1 then r.m1 else if k == 2 then r.m2 else r.m3
  }

  /** The values of metric column k, in row order (`df[col]`). */
  function Column(rows: seq<Sample>, k: int): (c: seq<real>)
    requires 1 <= k <= 3
    ensures |c| == |rows|
    ensures forall i :: 0 <= i < |rows| ==> c[i] == Metric(rows[i], k)
  {
    if rows == [] then [] else [Metric(rows[0], k)] + Column(rows[1..], k)
  }

  /** Reordering the rows does not change the sum of a column. */
  lemma {:induction false} ColumnSumPermutation(a: seq<Sample>, b: seq<Sample>, k: int)
    requires 1 <= k <= 3
    requires multiset(a) == multiset(b)
    ensures Sum(Column(a, k)) == Sum(Column(b, k))
    decreases |a|
  {
    if a == [] {
      assert |b| == |multiset(b)| == 0;
    } else {
      var j := RemoveFirst(a, b);
      ColumnSumPermutation(a[1..], b[..j] + b[j + 1..], k);
      ColumnAppend(b[..j], [b[j]] + b[j + 1..], k);
      ColumnAppend(b[..j], b[j + 1..], k);
      var c1, c2 := Column(b[..j], k), Column(b[j + 1..], k);
      assert ([b[j]] + b[j + 1..])[1..] == b[j + 1..];
      assert Column([b[j]] + b[j + 1..], k) == [Metric(a[0], k)] + c2;
      SumAppend(c1, [Metric(a[0], k)] + c2);
      SumAppend(c1, c2);
      assert ([Metric(a[0], k)] + c2)[1..] == c2;
    }
  }

  /** Reordering the rows reorders each column the same way. */
  lemma {:induction false} ColumnPermutation(a: seq<Sample>, b: seq<Sample>, k: int)
    requires 1 <= k <= 3
    requires multiset(a) == multiset(b)
    ensures multiset(Column(a, k)) == multiset(Column(b, k))
    decreases |a|
  {
    if a == [] {
      assert |b| == |multiset(b)| == 0;
    } else {
      var j := RemoveFirst(a, b);
      ColumnPermutation(a[1..], b[..j] + b[j + 1..], k);
      ColumnAppend(b[..j], [b[j]] + b[j + 1..], k);
      ColumnAppend(b[..j], b[j + 1..], k);
      assert ([b[j]] + b[j + 1..])[1..] == b[j + 1..];
      assert Column([b[j]] + b[j + 1..], k) == [Metric(a[0], k)] + Column(b[j + 1..], k);
      assert Column(a, k) == [Metric(a[0], k)] + Column(a[1..], k);
    }
  }

  lemma {:induction false} ColumnAppend(a: seq<Sample>, b: seq<Sample>, k: int)
    requires 1 <= k <= 3
    ensures Column(a + b, k) == Column(a, k) + Column(b, k)
  {
  }

  /** Sort and group keys: the timestamp, and the calendar day. */
  function TsKey(r: Sample): real
  {
    r.ts as real
  }

  function DateKey(r: Sample): real
  {
    DateOf(r.ts) as real
  }
}
