/** `filter_and_sort_data` (identical in analise_csv.py and analize_csv.py): keep the rows inside
    the optional inclusive bounds, then sort them by timestamp. */
module RangeFilter {
  import opened Wrappers
  import opened Seqs
  import opened Sorting
  import opened Samples

  /** A bound as `pd.to_datetime` reads the argument: a bare date `YYYY-MM-DD` is midnight at the
      start of that day; a date with a time is that instant.  An absent or empty argument
      (`if start_date:` is false) is `None`. */
  datatype Bound = DateOnly(day: int) | At(ts: int)

  function BoundInstant(b: Bound): int
  {
    match b
    case DateOnly(d) => d * SecondsPerDay
    case At(t) => t
  }

  /** The mask `df[datetime_col] >= pd.to_datetime(start_date)`, or no mask. */
  predicate NotBefore(r: Sample, start: Option<Bound>)
  {
    start.None? || r.ts >= BoundInstant(start.value)
  }

  /** The mask `df[datetime_col] <= pd.to_datetime(end_date)`, or no mask. */
  predicate NotAfter(r: Sample, end: Option<Bound>)
  {
    end.None? || r.ts <= BoundInstant(end.value)
  }

  /** The rows inside both bounds, ordered by timestamp. */
  function FilterAndSort(rows: seq<Sample>, start: Option<Bound>, end: Option<Bound>): seq<Sample>
  {
    SortBy(Select(Select(rows, NotBefore, start), NotAfter, end), TsKey)
  }

  /** The result is sorted by timestamp and holds each row of the input exactly as often as the
      input does when the row lies within the bounds, and not at all otherwise. */
  lemma FilterAndSortSpec(rows: seq<Sample>, start: Option<Bound>, end: Option<Bound>, x: Sample)
    ensures SortedBy(FilterAndSort(rows, start, end), TsKey)
    ensures multiset(FilterAndSort(rows, start, end))[x] ==
      if NotBefore(x, start) && NotAfter(x, end) then multiset(rows)[x] else 0
  {
    SelectCount(rows, NotBefore, start, x);
    SelectCount(Select(rows, NotBefore, start), NotAfter, end, x);
  }

  /** A row is kept iff it is in the input and inside both bounds. */
  lemma FilterKeepsExactlyInRange(rows: seq<Sample>, start: Option<Bound>, end: Option<Bound>, x: Sample)
    ensures x in FilterAndSort(rows, start, end) <==>
      x in rows && (start.None? || x.ts >= BoundInstant(start.value)) && (end.None? || x.ts <= BoundInstant(end.value))
  {
    FilterAndSortSpec(rows, start, end, x);
  }

  /** Without bounds the result is a sorted permutation of the input. */
  lemma NoBoundsOnlySorts(rows: seq<Sample>)
    ensures multiset(FilterAndSort(rows, None, None)) == multiset(rows)
  {
    forall x ensures multiset(FilterAndSort(rows, None, None))[x] == multiset(rows)[x] {
      FilterAndSortSpec(rows, None, None, x);
    }
    MultisetExt(multiset(FilterAndSort(rows, None, None)), multiset(rows));
  }

  /** A bare start date admits the whole of its day. */
  lemma StartDateAdmitsWholeDay(r: Sample, d: int)
    ensures NotBefore(r, Some(DateOnly(d))) <==> DateOf(r.ts) >= d
  {
    var s := SecondOfDay(r.ts);
  }

  /** As written: a bare end date is midnight, so a reading later on the end date itself is
      dropped although the option is documented as an inclusive date. */
  lemma EndDateExcludesLaterReadings(rows: seq<Sample>, d: int, r: Sample)
    requires r in rows && DateOf(r.ts) == d && SecondOfDay(r.ts) > 0
    ensures r !in FilterAndSort(rows, None, Some(DateOnly(d)))
  {
    FilterKeepsExactlyInRange(rows, None, Some(DateOnly(d)), r);
  }

  /** Concrete instance: end date 2025-06-01 (day 20240) and a reading at 08:00 that day. */
  lemma EndDateCounterexample()
    ensures var r := Sample(20240 * SecondsPerDay + 8 * SecondsPerHour, 120.0, 80.0, 60.0, []);
      DateOf(r.ts) == 20240 && r !in FilterAndSort([r], None, Some(DateOnly(20240)))
  {
    var r := Sample(20240 * SecondsPerDay + 8 * SecondsPerHour, 120.0, 80.0, 60.0, []);
    EndDateExcludesLaterReadings([r], 20240, r);
  }

  // ---------------------------------------------------------------------------------------------
  // Corrected end bound: a bare end date includes its whole day.

  /** The end mask with a bare date read as "on or before that calendar day". */
  predicate NotAfterDay(r: Sample, end: Option<Bound>)
  {
    match end
    case None => true
    case Some(DateOnly(d)) => r.ts < (d + 1) * SecondsPerDay
    case Some(At(t)) => r.ts <= t
  }

  function FilterAndSortWholeDays(rows: seq<Sample>, start: Option<Bound>, end: Option<Bound>): seq<Sample>
  {
    SortBy(Select(Select(rows, NotBefore, start), NotAfterDay, end), TsKey)
  }

  /** With bare dates for both bounds, the corrected filter keeps exactly the readings whose
      calendar day lies in the inclusive date range, sorted by timestamp. */
  lemma WholeDaysKeepsDateRange(rows: seq<Sample>, d1: int, d2: int, x: Sample)
    ensures SortedBy(FilterAndSortWholeDays(rows, Some(DateOnly(d1)), Some(DateOnly(d2))), TsKey)
    ensures x in FilterAndSortWholeDays(rows, Some(DateOnly(d1)), Some(DateOnly(d2))) <==>
      x in rows && d1 <= DateOf(x.ts) <= d2
  {
    var start, end := Some(DateOnly(d1)), Some(DateOnly(d2));
    SelectMember(rows, NotBefore, start, x);
    SelectMember(Select(rows, NotBefore, start), NotAfterDay, end, x);
    StartDateAdmitsWholeDay(x, d1);
    var s := SecondOfDay(x.ts);
    assert NotAfterDay(x, end) <==> DateOf(x.ts) <= d2;
    var kept := Select(Select(rows, NotBefore, start), NotAfterDay, end);
    assert x in kept <==> x in multiset(kept);
    assert x in SortBy(kept, TsKey) <==> x in multiset(SortBy(kept, TsKey));
  }
}
