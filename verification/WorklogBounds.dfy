/**
 The time bounds sent to Jira for a period of local dates, and the filter applied to what
 comes back. An instant is a number of nanoseconds since the start of 1970-01-01 in UTC.
 */
module WorklogBounds {
  import opened Wrappers
  import opened Dates
  import opened JiraClient
  import opened Ordering

  /** Seconds east of UTC; less than 26 hours either way. */
  type UtcOffset = s: int | -93_600 < s < 93_600 witness 0

  function Checked64(n: int): Result<int, JiraError> {
    if -0x8000_0000_0000_0000 <= n < 0x8000_0000_0000_0000 then Success(n) else Failure(InvalidDate)
  }

  function NextDay(day: Day): Result<Day, JiraError> {
    if day == LAST_DAY then Failure(InvalidDate) else Success(day + 1)
  }

  /** The local midnight that starts a day, in milliseconds. */
  function MidnightMillis(day: Day, offset: UtcOffset): Result<int, JiraError> {
    Checked64((day * 86_400 - offset) * 1_000)
  }

  datatype Bounds = Bounds(startedAfter: int, startedBefore: int) {
    /** The instants the server is asked for. */
    predicate Admit(instant: int) { startedAfter * 1_000_000 <= instant < startedBefore * 1_000_000 }
  }

  function BoundsOf(period: DateRange, offset: UtcOffset): Result<Bounds, JiraError> {
    match NextDay(period.end)
    case Failure(error) => Failure(error)
    case Success(end) =>
      match (MidnightMillis(period.start, offset), MidnightMillis(end, offset))
      case (Success(after), Success(before)) => Success(Bounds(after, before))
      case (Failure(error), _) => Failure(error)
      case (_, Failure(error)) => Failure(error)
  }

  /** The date a clock with this offset shows at an instant. */
  function LocalDay(instant: int, offset: UtcOffset): int {
    (instant + offset * 1_000_000_000) / 86_400_000_000_000
  }

  /** East of Greenwich the new day begins before it does in UTC, and west of it later. */
  lemma DayBeginsAt(day: int, offset: UtcOffset, instant: int)
    ensures LocalDay(instant, offset) >= day <==> instant >= (day * 86_400 - offset) * 1_000_000_000
    ensures LocalDay(86_399_999_999_999, 0) == 0 && LocalDay(86_400_000_000_000, 0) == 1
    ensures LocalDay(86_399_999_999_999, 3_600) == 1 && LocalDay(0, -3_600) == -1
  {}

  /** Bounds exist for every period but one that ends on the last day there is. */
  lemma BoundsExist(period: DateRange, offset: UtcOffset)
    ensures BoundsOf(period, offset).Success? <==> period.end != LAST_DAY
    ensures BoundsOf(period, offset).Failure? ==> BoundsOf(period, offset).error == InvalidDate
  {}

  /** The bounds admit exactly the instants whose local date lies in the period. */
  lemma BoundsAreThePeriod(period: DateRange, offset: UtcOffset, instant: int)
    requires BoundsOf(period, offset).Success?
    ensures BoundsOf(period, offset).value.Admit(instant) <==> period.Contains(LocalDay(instant, offset))
  {
    var bounds := BoundsOf(period, offset).value;
    assert bounds.startedAfter == (period.start * 86_400 - offset) * 1_000;
    assert bounds.startedBefore == ((period.end + 1) * 86_400 - offset) * 1_000;
    var local := instant + offset * 1_000_000_000;
    var day := LocalDay(instant, offset);
    assert day * 86_400_000_000_000 <= local < (day + 1) * 86_400_000_000_000;
  }

  /** Periods that follow each other have bounds that meet, and the bounds are as long as the days. */
  lemma BoundsTile(period: DateRange, next: DateRange, offset: UtcOffset)
    requires period.Valid() && BoundsOf(period, offset).Success?
    ensures BoundsOf(period, offset).value.startedBefore - BoundsOf(period, offset).value.startedAfter
              == period.DayCount() * 86_400_000
    ensures BoundsOf(next, offset).Success? ==>
              (next.start == period.end + 1 <==>
               BoundsOf(period, offset).value.startedBefore == BoundsOf(next, offset).value.startedAfter)
  {}

  // ----- The filter on what comes back -----

  /** What the filter looks at: whose entry it is, and when the work started. */
  datatype TimeEntry = TimeEntry(owner: string, started: int)

  /** What a server that respects the bounds sends. */
  function Fetched(entries: seq<TimeEntry>, bounds: Bounds): seq<TimeEntry> {
    Filter(entries, Admitted(bounds))
  }

  function Admitted(bounds: Bounds): TimeEntry -> bool {
    (entry: TimeEntry) => bounds.Admit(entry.started)
  }

  /** The test that an entry passes to be kept: its owner, and its local date. */
  function IsOwn(subject: string, period: DateRange, offset: UtcOffset): TimeEntry -> bool {
    (entry: TimeEntry) => entry.owner == subject && period.Contains(LocalDay(entry.started, offset))
  }

  method LoadOwnEntries(fetched: seq<TimeEntry>, subject: string, period: DateRange,
                        offset: UtcOffset) returns (kept: seq<TimeEntry>)
    ensures kept == Filter(fetched, IsOwn(subject, period, offset))
  {
    kept := [];
    for i := 0 to |fetched|
      invariant kept == Filter(fetched[..i], IsOwn(subject, period, offset))
    {
      assert fetched[..i + 1] == fetched[..i] + [fetched[i]];
      FilterLast(fetched[..i], fetched[i], IsOwn(subject, period, offset));
      if fetched[i].owner == subject && period.Contains(LocalDay(fetched[i].started, offset)) {
        kept := kept + [fetched[i]];
      }
    }
    assert fetched[..|fetched|] == fetched;
  }

  /**
   Asking for the bounds and then filtering by local date gives exactly the subject's
   entries of the period: the bounds cut off none of them.
   */
  lemma {:induction false} NothingIsCutOff(entries: seq<TimeEntry>, subject: string, period: DateRange,
                                           offset: UtcOffset)
    requires BoundsOf(period, offset).Success?
    ensures Filter(Fetched(entries, BoundsOf(period, offset).value), IsOwn(subject, period, offset))
              == Filter(entries, IsOwn(subject, period, offset))
  {
    if entries != [] {
      var init, last := entries[..|entries| - 1], entries[|entries| - 1];
      var bounds := BoundsOf(period, offset).value;
      NothingIsCutOff(init, subject, period, offset);
      BoundsAreThePeriod(period, offset, last.started);
      if bounds.Admit(last.started) {
        assert Fetched(entries, bounds) == Fetched(init, bounds) + [last];
        FilterLast(Fetched(init, bounds), last, IsOwn(subject, period, offset));
      } else {
        assert Fetched(entries, bounds) == Fetched(init, bounds);
      }
    }
  }
}
