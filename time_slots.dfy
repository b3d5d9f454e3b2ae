/** The debug script: each reading gets a time slot from its hour (`get_time_slot`), the readings
    are counted per (day, slot), and each group's spread is reported only when it has more than
    one reading. */
module TimeSlots {
  import opened Wrappers
  import opened Seqs
  import opened Grouping
  import opened Samples
  import opened Daily

  datatype Period = Morning | Midday | Evening

  /** `get_time_slot`: before 10 is morning, before 16 midday, anything else evening. */
  function TimeSlot(h: int): Period
  {
    if h < 10 then Morning
    else if h < 16 then Midday
    else Evening
  }

  /** The slots in the order of the day. */
  function Chronological(p: Period): (n: nat)
    ensures n <= 2
  {
    match p
    case Morning => 0
    case Midday => 1
    case Evening => 2
  }

  /** Every hour gets exactly the slot its range selects. */
  lemma TimeSlotRanges(h: int)
    ensures TimeSlot(h) == Morning <==> h < 10
    ensures TimeSlot(h) == Midday <==> 10 <= h < 16
    ensures TimeSlot(h) == Evening <==> h >= 16
  {
  }

  lemma TimeSlotBoundaries()
    ensures TimeSlot(9) == Morning && TimeSlot(10) == Midday && TimeSlot(15) == Midday && TimeSlot(16) == Evening
  {
  }

  /** A later hour never gets an earlier slot. */
  lemma TimeSlotMonotone(h1: int, h2: int)
    requires h1 <= h2
    ensures Chronological(TimeSlot(h1)) <= Chronological(TimeSlot(h2))
  {
  }

  /** The label the script stores in the `Period` column. */
  function PeriodName(p: Period): string
  {
    match p
    case Morning => "morning"
    case Midday => "midday"
    case Evening => "evening"
  }

  /** Lexicographic order of strings, as `groupby` sorts the labels. */
  predicate LexLess(a: string, b: string)
  {
    (a != [] && b != [] && (a[0] < b[0] || (a[0] == b[0] && LexLess(a[1..], b[1..])))) || (a == [] && b != [])
  }

  /** The position of a label in sorted order: evening, midday, morning. */
  function Alphabetical(p: Period): (n: nat)
    ensures n <= 2
  {
    match p
    case Evening => 0
    case Midday => 1
    case Morning => 2
  }

  /** `Alphabetical` is the order of the labels as strings, and distinct slots have distinct
      labels. */
  lemma AlphabeticalIsLabelOrder(p: Period, q: Period)
    ensures Alphabetical(p) < Alphabetical(q) <==> LexLess(PeriodName(p), PeriodName(q))
    ensures PeriodName(p) == PeriodName(q) <==> p == q
  {
    assert LexLess("evening", "midday") && LexLess("evening", "morning");
    assert LexLess("midday", "morning") by { assert LexLess("idday", "orning"); }
    assert !LexLess("morning", "midday") by { assert !LexLess("orning", "idday"); }
    assert !LexLess("midday", "evening") && !LexLess("morning", "evening");
    LexLessIrreflexive("midday");
    LexLessIrreflexive("morning");
    LexLessIrreflexive("evening");
  }

  /** No string is lexicographically below itself. */
  lemma {:induction false} LexLessIrreflexive(s: string)
    ensures !LexLess(s, s)
  {
    if s != [] {
      LexLessIrreflexive(s[1..]);
    }
  }

  /** The slot of a reading, from the hour of its timestamp (`dt.hour`). */
  function SlotOf(r: Sample): Period
  {
    TimeSlot(HourOf(r.ts))
  }

  /** The (Day, Period) grouping key, with days first and labels in string order within a
      day. */
  function SlotKey(r: Sample): real
  {
    (DateOf(r.ts) * 3 + Alphabetical(SlotOf(r))) as real
  }

  /** Two readings share a key iff they share day and slot, and keys order pairs
      lexicographically: by day, then by label. */
  lemma SlotKeyIsDayAndPeriod(a: Sample, b: Sample)
    ensures SlotKey(a) == SlotKey(b) <==> DateOf(a.ts) == DateOf(b.ts) && SlotOf(a) == SlotOf(b)
    ensures SlotKey(a) < SlotKey(b) <==>
      DateOf(a.ts) < DateOf(b.ts) || (DateOf(a.ts) == DateOf(b.ts) && Alphabetical(SlotOf(a)) < Alphabetical(SlotOf(b)))
  {
    var da, db := DateOf(a.ts), DateOf(b.ts);
    var pa, pb := Alphabetical(SlotOf(a)), Alphabetical(SlotOf(b));
    if da < db {
      assert da * 3 + pa < db * 3 + pb;
    } else if da > db {
      assert da * 3 + pa > db * 3 + pb;
    }
    if pa == pb {
      assert SlotOf(a) == SlotOf(b);
    }
  }

  /** `df.groupby(['Day', 'Period'])`. */
  function SlotGroups(rows: seq<Sample>): seq<seq<Sample>>
  {
    GroupBy(rows, SlotKey)
  }

  /** Every reading lies in exactly one group, all members of a group share its day and slot, and
      the group sizes (`size()`) add up to the number of readings. */
  lemma SlotGroupsPartition(rows: seq<Sample>, x: Sample)
    requires x in rows
    ensures InExactlyOne(SlotGroups(rows), x)
    ensures TotalLength(SlotGroups(rows)) == |rows|
  {
    ExactlyOneGroup(rows, SlotKey, x);
    GroupSizesSum(rows, SlotKey);
  }

  lemma SlotGroupsHomogeneous(rows: seq<Sample>, i: nat, k: nat)
    requires i < |SlotGroups(rows)| && k < |SlotGroups(rows)[i]|
    ensures DateOf(SlotGroups(rows)[i][k].ts) == DateOf(SlotGroups(rows)[i][0].ts)
    ensures SlotOf(SlotGroups(rows)[i][k]) == SlotOf(SlotGroups(rows)[i][0])
  {
    SlotKeyIsDayAndPeriod(SlotGroups(rows)[i][k], SlotGroups(rows)[i][0]);
  }

  /** What the script prints for one group: its day, slot and count, and the three metrics'
      spreads only when the group has more than one reading. */
  datatype GroupReport = GroupReport(day: int, period: Period, count: nat, spreads: Option<seq<Option<real>>>)

  /** The spreads of one group, `group.iloc[:, 1:4].std()`. */
  function GroupSpreads(g: seq<Sample>): seq<Option<real>>
  {
    [SampleVariance(Column(g, 1)), SampleVariance(Column(g, 2)), SampleVariance(Column(g, 3))]
  }

  /** `rep` is what the script reports for group `g`. */
  predicate Reports(rep: GroupReport, g: seq<Sample>)
  {
    && g != []
    && rep.day == DateOf(g[0].ts) && rep.period == SlotOf(g[0])
    && rep.count == |g|
    && (rep.spreads.Some? <==> |g| > 1)
    && (rep.spreads.Some? ==> rep.spreads.value == GroupSpreads(g))
  }

  /** The report loop: one entry per group in group order, with spreads only for groups of more
      than one reading ("Single value, std=NaN" otherwise). */
  method ReportGroups(rows: seq<Sample>) returns (reports: seq<GroupReport>)
    ensures |reports| == |SlotGroups(rows)|
    ensures forall i :: 0 <= i < |reports| ==> Reports(reports[i], SlotGroups(rows)[i])
  {
    var groups := SlotGroups(rows);
    reports := [];
    var i := 0;
    while i < |groups|
      invariant 0 <= i <= |groups|
      invariant |reports| == i
      invariant forall j :: 0 <= j < i ==> Reports(reports[j], groups[j])
    {
      var g := groups[i];
      assert g != [];
      var spreads: Option<seq<Option<real>>> := None;
      if |g| > 1 {
        spreads := Some(GroupSpreads(g));
      }
      reports := reports + [GroupReport(DateOf(g[0].ts), SlotOf(g[0]), |g|, spreads)];
      i := i + 1;
    }
  }

  /** For readings whose cells are all present, reported spreads are always defined: a group that
      gets spreads has at least two readings, so none of its variances is missing, and a
      single-reading group reports none at all rather than 0. */
  lemma ReportedSpreadsDefined(g: seq<Sample>)
    requires |g| > 1
    ensures forall k :: 0 <= k < 3 ==> GroupSpreads(g)[k].Some? && GroupSpreads(g)[k].value >= 0.0
  {
  }
}
