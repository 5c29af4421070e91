/**
 The weekly columns of an exported report. Dates are day numbers counted so that
 the multiples of seven are Mondays.
 */
module ReportExport {
  import opened Seconds
  import opened Ordering
  import opened Worklogs

  const WEEK_DAYS := 7

  datatype ReportWeek = ReportWeek(start: int, end: int) {
    predicate Contains(date: int) { start <= date <= end }
  }

  predicate IsMonday(date: int) { date % 7 == 0 }

  function MondayOf(date: int): int { date - date % WEEK_DAYS }

  function ClippedWeek(monday: int, periodStart: int, periodEnd: int): ReportWeek {
    var sunday := monday + WEEK_DAYS - 1;
    ReportWeek(
      if monday < periodStart then periodStart else monday,
      if periodEnd < sunday then periodEnd else sunday)
  }

  /** How many Mondays the loop visits. */
  function WeekCount(start: int, end: int): nat {
    if MondayOf(start) > end then 0 else (end - MondayOf(start)) / WEEK_DAYS + 1
  }

  /** The week of each visited Monday, clipped to the period. */
  function ReportWeeks(start: int, end: int): (weeks: seq<ReportWeek>) {
    seq(WeekCount(start, end), i => ClippedWeek(MondayOf(start) + WEEK_DAYS * i, start, end))
  }

  method BuildReportWeeks(start: int, end: int) returns (weeks: seq<ReportWeek>)
    ensures weeks == ReportWeeks(start, end)
  {
    var monday := start - start % WEEK_DAYS;
    weeks := [];
    while monday <= end
      invariant monday == MondayOf(start) + WEEK_DAYS * |weeks|
      invariant |weeks| <= WeekCount(start, end)
      invariant weeks == ReportWeeks(start, end)[..|weeks|]
      decreases end - monday
    {
      weeks := weeks + [ClippedWeek(monday, start, end)];
      monday := monday + WEEK_DAYS;
    }
  }

  // ----- What the weeks are for -----

  /**
   The period cut into pieces: non-empty, in order, without gaps or overlaps, from its
   first day to its last, and cut exactly where a Monday begins.
   */
  ghost predicate CutsAtMondays(weeks: seq<ReportWeek>, start: int, end: int) {
    && |weeks| > 0
    && weeks[0].start == start
    && weeks[|weeks| - 1].end == end
    && (forall i :: 0 <= i < |weeks| ==> weeks[i].start <= weeks[i].end)
    && (forall i :: 0 < i < |weeks| ==> weeks[i].start == weeks[i - 1].end + 1 && IsMonday(weeks[i].start))
    && (forall i, date :: 0 <= i < |weeks| && weeks[i].start < date <= weeks[i].end ==> !IsMonday(date))
  }

  /** What clipping leaves of the i-th week: only the ends of the period are cut off. */
  lemma WeekAt(start: int, end: int, i: nat)
    requires start <= end && i < WeekCount(start, end)
    ensures var week, monday := ReportWeeks(start, end)[i], MondayOf(start) + WEEK_DAYS * i;
            && IsMonday(monday)
            && week.start == (if i == 0 then start else monday)
            && week.end == (if i == WeekCount(start, end) - 1 then end else monday + WEEK_DAYS - 1)
            && monday <= week.start <= week.end < monday + WEEK_DAYS
  {
    LastMonday(end - MondayOf(start), i);
  }

  lemma LastMonday(days: nat, i: nat)
    requires i <= days / WEEK_DAYS
    ensures WEEK_DAYS * i <= days
    ensures i == days / WEEK_DAYS <==> days < WEEK_DAYS * i + WEEK_DAYS
  {}

  lemma WeekFollows(start: int, end: int, i: nat)
    requires start <= end && 0 < i < WeekCount(start, end)
    ensures ReportWeeks(start, end)[i].start == ReportWeeks(start, end)[i - 1].end + 1
    ensures IsMonday(ReportWeeks(start, end)[i].start)
  {
    WeekAt(start, end, i - 1);
    WeekAt(start, end, i);
  }

  lemma ReportWeeksCutAtMondays(start: int, end: int)
    requires start <= end
    ensures CutsAtMondays(ReportWeeks(start, end), start, end)
  {
    var weeks := ReportWeeks(start, end);
    WeekAt(start, end, 0);
    WeekAt(start, end, |weeks| - 1);
    forall i | 0 <= i < |weeks| ensures weeks[i].start <= weeks[i].end {
      WeekAt(start, end, i);
    }
    forall i | 0 < i < |weeks| ensures weeks[i].start == weeks[i - 1].end + 1 && IsMonday(weeks[i].start) {
      WeekFollows(start, end, i);
    }
    forall i, date | 0 <= i < |weeks| && weeks[i].start < date <= weeks[i].end ensures !IsMonday(date) {
      WeekAt(start, end, i);
      NoMondayInside(MondayOf(start) + WEEK_DAYS * i, date);
    }
  }

  lemma NoMondayInside(monday: int, date: int)
    requires IsMonday(monday) && monday < date < monday + WEEK_DAYS
    ensures !IsMonday(date)
  {}

  /** Two ways to cut the same period at its Mondays agree on every piece both have. */
  lemma {:induction false} CutsAgree(a: seq<ReportWeek>, b: seq<ReportWeek>, start: int, end: int, i: nat)
    requires CutsAtMondays(a, start, end) && CutsAtMondays(b, start, end)
    requires i < |a| && i < |b|
    ensures a[i] == b[i]
  {
    if i > 0 { CutsAgree(a, b, start, end, i - 1); }
    EndsAgree(a, b, start, end, i);
    EndsAgree(b, a, start, end, i);
  }

  lemma EndsAgree(a: seq<ReportWeek>, b: seq<ReportWeek>, start: int, end: int, i: nat)
    requires CutsAtMondays(a, start, end) && CutsAtMondays(b, start, end)
    requires i < |a| && i < |b| && a[i].start == b[i].start
    ensures a[i].end >= b[i].end
  {
    EndsAreInPeriod(b, start, end, i);
    if i < |a| - 1 {
      assert IsMonday(a[i + 1].start);
    }
  }

  lemma {:induction false} EndsAreInPeriod(weeks: seq<ReportWeek>, start: int, end: int, i: nat)
    requires CutsAtMondays(weeks, start, end) && i < |weeks|
    ensures weeks[i].end <= end && (weeks[i].end == end <==> i == |weeks| - 1)
    decreases |weeks| - i
  {
    if i < |weeks| - 1 {
      EndsAreInPeriod(weeks, start, end, i + 1);
      assert weeks[i + 1].start == weeks[i].end + 1;
    }
  }

  /** The report's weeks are the one and only way to cut the period at its Mondays. */
  lemma ReportWeeksAreTheCut(weeks: seq<ReportWeek>, start: int, end: int)
    requires start <= end
    ensures CutsAtMondays(weeks, start, end) <==> weeks == ReportWeeks(start, end)
  {
    var expected := ReportWeeks(start, end);
    ReportWeeksCutAtMondays(start, end);
    if CutsAtMondays(weeks, start, end) {
      forall i | 0 <= i < |weeks| && i < |expected| ensures weeks[i] == expected[i] {
        CutsAgree(weeks, expected, start, end, i);
      }
      if |weeks| < |expected| {
        EndsAreInPeriod(expected, start, end, |weeks| - 1);
      }
      if |expected| < |weeks| {
        EndsAreInPeriod(weeks, start, end, |expected| - 1);
      }
    }
  }

  /** Which week a date belongs to. */
  function WeekOf(start: int): Entry -> int {
    (e: Entry) => (e.date - MondayOf(start)) / WEEK_DAYS
  }

  /** A date lies in exactly one week when it is in the period, and in none otherwise. */
  lemma ExactlyOneWeek(start: int, end: int, date: int, i: nat)
    requires start <= end && i < WeekCount(start, end)
    ensures ReportWeeks(start, end)[i].Contains(date)
       <==> start <= date <= end && i == (date - MondayOf(start)) / WEEK_DAYS
  {}

  // ----- The cells -----

  function During(week: ReportWeek): Entry -> bool {
    (e: Entry) => week.Contains(e.date)
  }

  function InWeek(es: seq<Entry>, week: ReportWeek): seq<Entry> { Only(es, During(week), true) }

  /** One cell: a saturating fold over the week's entries. */
  function WeekSeconds(es: seq<Entry>, week: ReportWeek): u32 {
    SaturatingSum(Durations(InWeek(es, week)))
  }

  /** One row of cells. */
  function WeekCells(es: seq<Entry>, weeks: seq<ReportWeek>): seq<u32> {
    seq(|weeks|, i requires 0 <= i < |weeks| => WeekSeconds(es, weeks[i]))
  }

  /** The true totals the cells stand for. */
  function WeekTotals(es: seq<Entry>, weeks: seq<ReportWeek>): seq<nat> {
    seq(|weeks|, i requires 0 <= i < |weeks| => Total(InWeek(es, weeks[i])))
  }

  function InPeriod(es: seq<Entry>, start: int, end: int): seq<Entry> {
    InWeek(es, ReportWeek(start, end))
  }

  lemma CellsAreClamped(es: seq<Entry>, weeks: seq<ReportWeek>)
    ensures WeekCells(es, weeks)
         == ClampAll(WeekTotals(es, weeks))
  {
    forall i | 0 <= i < |weeks| ensures WeekCells(es, weeks)[i] == Clamp(WeekTotals(es, weeks)[i]) {
      SaturatingSumIsClamped(Durations(InWeek(es, weeks[i])));
    }
  }

  lemma InWeekByIndex(es: seq<Entry>, start: int, end: int, i: nat)
    requires start <= end && i < WeekCount(start, end)
    ensures InWeek(es, ReportWeeks(start, end)[i]) == Only(InPeriod(es, start, end), WeekOf(start), i)
  {
    var week, period := ReportWeeks(start, end)[i], ReportWeek(start, end);
    forall e | e in es ensures During(week)(e) <==> During(period)(e) && WeekOf(start)(e) == i {
      ExactlyOneWeek(start, end, e.date, i);
    }
    OnlyWithin(es, During(week), During(period), WeekOf(start), i);
  }

  function Indices(n: nat): (ks: seq<int>)
    ensures Distinct(ks) && |ks| == n && (forall k :: 0 <= k < n ==> ks[k] == k)
    ensures forall k :: k in ks <==> 0 <= k < n
  {
    var ks := seq(n, i => i);
    assert forall k :: 0 <= k < n ==> ks[k] == k;
    assert forall k :: 0 <= k < n ==> k in ks by {
      forall k: int | 0 <= k < n ensures k in ks { assert ks[k] == k; }
    }
    ks
  }

  /** The weeks share out everything in the period: the true week totals add up to it. */
  lemma WeekTotalsAddUp(es: seq<Entry>, start: int, end: int)
    requires start <= end
    ensures Sum(WeekTotals(es, ReportWeeks(start, end))) == Total(InPeriod(es, start, end))
  {
    var n, inside := WeekCount(start, end), InPeriod(es, start, end);
    forall i | 0 <= i < n
      ensures WeekTotals(es, ReportWeeks(start, end))[i] == Shares(inside, WeekOf(start), Indices(n))[i]
    {
      InWeekByIndex(es, start, end, i);
    }
    assert WeekTotals(es, ReportWeeks(start, end)) == Shares(inside, WeekOf(start), Indices(n));
    forall e | e in inside ensures WeekOf(start)(e) in Indices(n) {
      assert During(ReportWeek(start, end))(e);
    }
    Conservation(inside, WeekOf(start), Indices(n));
  }

  /**
   The cells of a row never add up to more than the period's total, and add up to it
   exactly when no single week overflows 32 bits.
   */
  lemma WeekCellsBalance(es: seq<Entry>, start: int, end: int)
    requires start <= end
    ensures var weeks := ReportWeeks(start, end);
            && Sum(WeekCells(es, weeks)) <= Total(InPeriod(es, start, end))
            && (Sum(WeekCells(es, weeks)) == Total(InPeriod(es, start, end))
                <==> forall i :: 0 <= i < |weeks| ==> Total(InWeek(es, weeks[i])) <= MAXIMUM)
  {
    var weeks := ReportWeeks(start, end);
    WeekTotalsAddUp(es, start, end);
    ClampedPartsAddUp(WeekTotals(es, weeks));
    CellsAreClamped(es, weeks);
    assert forall i :: 0 <= i < |weeks| ==> WeekTotals(es, weeks)[i] == Total(InWeek(es, weeks[i]));
  }
}
