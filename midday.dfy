/** The two scopes of the report in both analysis scripts: readings before midday
    (`dt.time < 12:00`) and from midday on (`dt.time >= 12:00`). */
module Midday {
  import opened Seqs
  import opened Sorting
  import opened Samples

  const Noon: int := 12 * SecondsPerHour

  predicate TimeBefore(r: Sample, t: int)
  {
    SecondOfDay(r.ts) < t
  }

  predicate TimeAtOrAfter(r: Sample, t: int)
  {
    SecondOfDay(r.ts) >= t
  }

  function BeforeMidday(rows: seq<Sample>): seq<Sample>
  {
    Select(rows, TimeBefore, Noon)
  }

  function AfterMidday(rows: seq<Sample>): seq<Sample>
  {
    Select(rows, TimeAtOrAfter, Noon)
  }

  /** The two scopes partition the rows: together they hold every row as often as the input, and
      each row goes to the scope its time of day selects and not to the other. */
  lemma MiddaySplitPartition(rows: seq<Sample>, x: Sample)
    ensures multiset(BeforeMidday(rows)) + multiset(AfterMidday(rows)) == multiset(rows)
    ensures x in BeforeMidday(rows) <==> x in rows && SecondOfDay(x.ts) < Noon
    ensures x in AfterMidday(rows) <==> x in rows && SecondOfDay(x.ts) >= Noon
    ensures !(x in BeforeMidday(rows) && x in AfterMidday(rows))
  {
    SelectMember(rows, TimeBefore, Noon, x);
    SelectMember(rows, TimeAtOrAfter, Noon, x);
    var b, a := multiset(BeforeMidday(rows)), multiset(AfterMidday(rows));
    forall y ensures (b + a)[y] == multiset(rows)[y] {
      SelectCount(rows, TimeBefore, Noon, y);
      SelectCount(rows, TimeAtOrAfter, Noon, y);
    }
    MultisetExt(b + a, multiset(rows));
  }

  /** Both scopes keep the timestamp order of the filtered data. */
  lemma MiddaySplitKeepsOrder(rows: seq<Sample>)
    requires SortedBy(rows, TsKey)
    ensures SortedBy(BeforeMidday(rows), TsKey) && SortedBy(AfterMidday(rows), TsKey)
  {
    SelectSorted(rows, TimeBefore, Noon, TsKey);
    SelectSorted(rows, TimeAtOrAfter, Noon, TsKey);
  }
}
