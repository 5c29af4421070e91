/**
 A whole team report: every view of the worklogs side by side, and the exported table
 of members by weeks. All of them must account for the same seconds.
 */
module TeamReport {
  import opened Wrappers
  import opened Ordering
  import opened Seconds
  import opened Worklogs
  import opened TopSlices
  import opened ReportExport
  import Members = TeamMembers
  import Tasks = TeamTasks
  import Categories = TeamCategories

  datatype TaskSlice = TaskSlice(issueKey: Option<string>, seconds: u32, percentage: u32)

  datatype MemberSlice = MemberSlice(displayName: Option<string>, seconds: u32)

  datatype DailyHours = DailyHours(date: int, seconds: u32)

  datatype TrendPoint = TrendPoint(date: int, seconds: u32, cumulative: u32)

  datatype TeamAnalytics = TeamAnalytics(
    loadedSeconds: u32,
    members: seq<Members.MemberAnalytics>,
    tasks: seq<Tasks.TaskHours>,
    taskSlices: seq<TaskSlice>,
    issueTypes: seq<Categories.CategorySlice>,
    issueStatuses: seq<Categories.CategorySlice>,
    trend: seq<TrendPoint>)

  function TaskSliceSeconds(slice: TaskSlice): u32 { slice.seconds }

  function TaskSlicePercentage(slice: TaskSlice): u32 { slice.percentage }

  function TaskSliceKey(slice: TaskSlice): Option<string> { slice.issueKey }

  function MemberSliceSeconds(slice: MemberSlice): u32 { slice.seconds }

  function DaySeconds(day: DailyHours): u32 { day.seconds }

  // ----- Task and member slices -----

  function MakeTaskSlice(task: Tasks.TaskHours, total: u32): TaskSlice {
    TaskSlice(Some(task.issueKey), task.seconds, Percentage(task.seconds, total))
  }

  function TaskSlices(tasks: seq<Tasks.TaskHours>, total: u32, maximum: nat): seq<TaskSlice> {
    var slots := Slots(maximum);
    if |tasks| <= slots then
      seq(|tasks|, i requires 0 <= i < |tasks| => MakeTaskSlice(tasks[i], total))
    else
      var merged := WrappingSum(KeysOf(tasks[slots - 1..], Tasks.SecondsOf));
      seq(slots - 1, i requires 0 <= i < slots - 1 => MakeTaskSlice(tasks[i], total))
      + [TaskSlice(None, merged, Percentage(merged, total))]
  }

  function MemberSlices(members: seq<Members.MemberAnalytics>, maximum: nat): seq<MemberSlice> {
    var slots := Slots(maximum);
    if |members| <= slots then
      seq(|members|, i requires 0 <= i < |members| => MemberSlice(Some(members[i].displayName), members[i].seconds))
    else
      seq(slots - 1, i requires 0 <= i < slots - 1 => MemberSlice(Some(members[i].displayName), members[i].seconds))
      + [MemberSlice(None, WrappingSum(KeysOf(members[slots - 1..], Members.SecondsOf)))]
  }

  lemma TaskSlicesAreDistinct(tasks: seq<Tasks.TaskHours>, total: u32, maximum: nat)
    requires Distinct(KeysOf(tasks, Tasks.IssueOf))
    ensures Distinct(KeysOf(TaskSlices(tasks, total, maximum), TaskSliceKey))
  {}

  lemma TaskSliceValues(tasks: seq<Tasks.TaskHours>, total: u32, maximum: nat)
    ensures KeysOf(TaskSlices(tasks, total, maximum), TaskSliceSeconds)
              == TopSeconds(KeysOf(tasks, Tasks.SecondsOf), maximum)
  {
    var slots := Slots(maximum);
    if |tasks| > slots {
      var slices, top := TaskSlices(tasks, total, maximum), TopSeconds(KeysOf(tasks, Tasks.SecondsOf), maximum);
      assert KeysOf(tasks[slots - 1..], Tasks.SecondsOf) == KeysOf(tasks, Tasks.SecondsOf)[slots - 1..];
      assert |slices| == |top| == slots;
      assert slices[slots - 1] == TaskSlice(None, top[slots - 1], Percentage(top[slots - 1], total));
      SameTaskSeconds(slices, top);
    }
  }

  lemma SameTaskSeconds(slices: seq<TaskSlice>, seconds: seq<u32>)
    requires |slices| == |seconds| && forall i :: 0 <= i < |slices| ==> slices[i].seconds == seconds[i]
    ensures KeysOf(slices, TaskSliceSeconds) == seconds
  {}

  /** Slicing ranked tasks names the first ones, keeps keys apart, and acts on the seconds as every chart does. */
  lemma TaskSlicesAreTop(tasks: seq<Tasks.TaskHours>, total: u32, maximum: nat)
    requires Distinct(KeysOf(tasks, Tasks.IssueOf))
    ensures var slices := TaskSlices(tasks, total, maximum);
            forall i :: 0 <= i < |slices| ==>
              slices[i].issueKey
                == if i < |slices| - 1 || |tasks| <= Slots(maximum) then Some(tasks[i].issueKey) else None
    ensures var slices := TaskSlices(tasks, total, maximum);
            && Distinct(KeysOf(slices, TaskSliceKey))
            && KeysOf(slices, TaskSliceSeconds) == TopSeconds(KeysOf(tasks, Tasks.SecondsOf), maximum)
            && KeysOf(slices, TaskSlicePercentage) == Percentages(KeysOf(slices, TaskSliceSeconds), total)
  {
    TaskSlicesAreDistinct(tasks, total, maximum);
    TaskSliceValues(tasks, total, maximum);
    var slices := TaskSlices(tasks, total, maximum);
    assert forall i :: 0 <= i < |slices| ==> slices[i].percentage == Percentage(slices[i].seconds, total);
  }

  /** The same for members; display names may repeat, so no names are kept apart. */
  lemma MemberSlicesAreTop(members: seq<Members.MemberAnalytics>, maximum: nat)
    ensures var slices := MemberSlices(members, maximum);
            forall i :: 0 <= i < |slices| ==>
              slices[i].displayName
                == if i < |slices| - 1 || |members| <= Slots(maximum) then Some(members[i].displayName) else None
    ensures KeysOf(MemberSlices(members, maximum), MemberSliceSeconds)
         == TopSeconds(KeysOf(members, Members.SecondsOf), maximum)
  {
    var slots := Slots(maximum);
    if |members| > slots {
      var slices, top := MemberSlices(members, maximum), TopSeconds(KeysOf(members, Members.SecondsOf), maximum);
      assert KeysOf(members[slots - 1..], Members.SecondsOf) == KeysOf(members, Members.SecondsOf)[slots - 1..];
      assert |slices| == |top| == slots && slices[slots - 1] == MemberSlice(None, top[slots - 1]);
      SameSeconds(slices, top);
    }
  }

  lemma SameSeconds(slices: seq<MemberSlice>, seconds: seq<u32>)
    requires |slices| == |seconds| && forall i :: 0 <= i < |slices| ==> slices[i].seconds == seconds[i]
    ensures KeysOf(slices, MemberSliceSeconds) == seconds
  {}

  /** Ranked tasks and ranked members stand in order of their seconds. */
  lemma RankingsDescend(tasks: seq<Tasks.TaskHours>, members: seq<Members.MemberAnalytics>,
                        roster: seq<Members.TeamMember>, es: seq<Entry>)
    requires Tasks.SummarizesTasks(tasks, es) && Members.SummarizesMembers(members, roster, es)
    ensures Descending(KeysOf(tasks, Tasks.SecondsOf)) && Descending(KeysOf(members, Members.SecondsOf))
  {}

  /** The task chart and the member chart of a report whose total fits 32 bits. */
  lemma TasksAndMembersChart(tasks: seq<Tasks.TaskHours>, members: seq<Members.MemberAnalytics>,
                             roster: seq<Members.TeamMember>, es: seq<Entry>, maximum: nat)
    requires Total(es) <= MAXIMUM
    requires Tasks.SummarizesTasks(tasks, es) && Members.SummarizesMembers(members, roster, es)
    ensures var slices := TaskSlices(tasks, Total(es), maximum);
            && Charts(KeysOf(slices, TaskSliceSeconds), KeysOf(tasks, Tasks.SecondsOf), Total(es), maximum)
            && KeysOf(slices, TaskSlicePercentage) == Percentages(KeysOf(slices, TaskSliceSeconds), Total(es))
    ensures Charts(KeysOf(MemberSlices(members, maximum), MemberSliceSeconds), KeysOf(members, Members.SecondsOf),
                   Total(es), maximum)
  {
    RankingsDescend(tasks, members, roster, es);
    Tasks.TasksAddUp(tasks, es);
    TaskSlicesAreTop(tasks, Total(es), maximum);
    TopSecondsChart(KeysOf(tasks, Tasks.SecondsOf), Total(es), maximum);
    Members.MembersAddUp(members, roster, es);
    MemberSlicesAreTop(members, maximum);
    TopSecondsChart(KeysOf(members, Members.SecondsOf), Total(es), maximum);
  }

  // ----- Days and trend -----

  function SummarizeTeamDays(start: int, end: int, es: seq<Entry>): seq<DailyHours>
    requires start <= end
  {
    seq(end - start + 1, i requires 0 <= i < end - start + 1 =>
      DailyHours(start + i, WrappingSum(Durations(Only(es, Date, start + i)))))
  }

  function RunningTotal(days: seq<DailyHours>, n: nat): u32
    requires n <= |days|
  {
    Clamp(Sum(KeysOf(days[..n], DaySeconds)))
  }

  lemma OneMoreDay(days: seq<DailyHours>, n: nat)
    requires n < |days|
    ensures RunningTotal(days, n + 1) == SaturatingAdd(RunningTotal(days, n), days[n].seconds)
  {
    assert KeysOf(days[..n + 1], DaySeconds)[..n] == KeysOf(days[..n], DaySeconds);
  }

  /** The days with their running total, which stops at the maximum. */
  ghost predicate IsTrend(points: seq<TrendPoint>, days: seq<DailyHours>) {
    && |points| == |days|
    && forall i :: 0 <= i < |days| ==>
         points[i] == TrendPoint(days[i].date, days[i].seconds, RunningTotal(days, i + 1))
  }

  /** One point a day from the first to the last, each with what was worked on that day. */
  ghost predicate TrendShows(trend: seq<TrendPoint>, es: seq<Entry>, start: int, end: int) {
    && |trend| == end - start + 1
    && (forall i :: 0 <= i < |trend| ==>
          && trend[i].date == start + i
          && trend[i].seconds == Wrap(Total(Only(es, Date, start + i))))
    && (forall i :: 0 <= i < |trend| ==>
          trend[i].cumulative == SaturatingAdd(if i == 0 then 0 else trend[i - 1].cumulative, trend[i].seconds))
  }

  lemma TrendIsShown(trend: seq<TrendPoint>, es: seq<Entry>, start: int, end: int)
    requires start <= end && IsTrend(trend, SummarizeTeamDays(start, end, es))
    ensures TrendShows(trend, es, start, end)
  {
    var days := SummarizeTeamDays(start, end, es);
    forall i | 0 <= i < |trend| ensures trend[i].seconds == Wrap(Total(Only(es, Date, start + i))) {
      WrappingSumIsModular(Durations(Only(es, Date, start + i)));
    }
    forall i | 0 <= i < |trend|
      ensures trend[i].cumulative == SaturatingAdd(if i == 0 then 0 else trend[i - 1].cumulative, trend[i].seconds)
    {
      OneMoreDay(days, i);
      if i == 0 { assert RunningTotal(days, 0) == 0 by { assert days[..0] == []; } }
    }
  }

  method TrendPoints(days: seq<DailyHours>) returns (points: seq<TrendPoint>)
    ensures IsTrend(points, days)
  {
    var cumulative: u32 := 0;
    points := [];
    for i := 0 to |days|
      invariant |points| == i
      invariant cumulative == RunningTotal(days, i)
      invariant forall k :: 0 <= k < i ==>
                  points[k] == TrendPoint(days[k].date, days[k].seconds, RunningTotal(days, k + 1))
    {
      OneMoreDay(days, i);
      cumulative := SaturatingAdd(cumulative, days[i].seconds);
      points := points + [TrendPoint(days[i].date, days[i].seconds, cumulative)];
    }
  }

  lemma {:induction false} OnlyEverything<K>(es: seq<Entry>, key: Entry -> K, k: K)
    requires forall e :: e in es ==> key(e) == k
    ensures Only(es, key, k) == es
  {
    if es != [] {
      assert es == es[..|es| - 1] + [es[|es| - 1]];
      OnlyEverything(es[..|es| - 1], key, k);
    }
  }

  function Days(start: int, end: int): (days: seq<int>)
    requires start <= end
    ensures Distinct(days) && |days| == end - start + 1
    ensures forall i :: 0 <= i < |days| ==> days[i] == start + i
    ensures forall d :: d in days <==> start <= d <= end
  {
    var days := seq(end - start + 1, i => start + i);
    assert forall d :: start <= d <= end ==> d in days by {
      forall d | start <= d <= end ensures d in days { assert days[d - start] == d; }
    }
    days
  }

  lemma DayIsInside(es: seq<Entry>, start: int, end: int, day: int)
    requires start <= day <= end
    ensures Only(InPeriod(es, start, end), Date, day) == Only(es, Date, day)
  {
    var inside := During(ReportWeek(start, end));
    OnlyCommutes(es, inside, true, Date, day);
    forall e | e in Only(es, Date, day) ensures inside(e) {
      assert e.date == Date(e) == day;
    }
    OnlyEverything(Only(es, Date, day), inside, true);
  }

  /** The days share out everything in the period when its total fits 32 bits. */
  lemma DaysAddUp(es: seq<Entry>, start: int, end: int)
    requires start <= end && Total(InPeriod(es, start, end)) <= MAXIMUM
    ensures Sum(KeysOf(SummarizeTeamDays(start, end, es), DaySeconds)) == Total(InPeriod(es, start, end))
  {
    var inside, days := InPeriod(es, start, end), Days(start, end);
    forall e | e in inside ensures Date(e) in days {
      assert During(ReportWeek(start, end))(e);
    }
    Conservation(inside, Date, days);
    var daily := SummarizeTeamDays(start, end, es);
    forall i | 0 <= i < |days| ensures daily[i].seconds == Shares(inside, Date, days)[i] {
      DayIsInside(es, start, end, days[i]);
      OnlyAtMost(inside, Date, days[i]);
      WrappingSumIsModular(Durations(Only(es, Date, days[i])));
    }
    assert KeysOf(daily, DaySeconds) == Shares(inside, Date, days);
  }

  // ----- The whole report -----

  /** Every view accounts for the same seconds as the list of worklogs. */
  ghost predicate Conserves(report: TeamAnalytics, es: seq<Entry>, start: int, end: int) {
    && report.loadedSeconds == Total(es)
    && Sum(KeysOf(report.members, Members.SecondsOf)) == Total(es)
    && Sum(KeysOf(report.tasks, Tasks.SecondsOf)) == Total(es)
    && Sum(KeysOf(report.taskSlices, TaskSliceSeconds)) == Total(es)
    && Sum(KeysOf(report.issueTypes, Categories.SecondsOf)) == Total(es)
    && Sum(KeysOf(report.issueStatuses, Categories.SecondsOf)) == Total(es)
    && |report.trend| == end - start + 1 > 0
    && report.trend[|report.trend| - 1].cumulative == Total(InPeriod(es, start, end))
  }

  /** The first tasks by name, and the rest as one more slice. */
  ghost predicate TaskSlicesShow(slices: seq<TaskSlice>, tasks: seq<Tasks.TaskHours>, total: u32, maximum: nat) {
    var all := |tasks| <= 2 || |tasks| <= maximum;
    && |slices| == (if all then |tasks| else if maximum < 2 then 2 else maximum)
    && (forall i :: 0 <= i < |slices| && (all || i < |slices| - 1) ==>
          slices[i] == TaskSlice(Some(tasks[i].issueKey), tasks[i].seconds, Percentage(tasks[i].seconds, total)))
    && (!all ==>
          var rest := Wrap(Sum(KeysOf(tasks[|slices| - 1..], Tasks.SecondsOf)));
          slices[|slices| - 1] == TaskSlice(None, rest, Percentage(rest, total)))
  }

  lemma TaskSlicesAreShown(tasks: seq<Tasks.TaskHours>, total: u32, maximum: nat)
    ensures TaskSlicesShow(TaskSlices(tasks, total, maximum), tasks, total, maximum)
  {
    SlotsAre(maximum);
    if |tasks| > Slots(maximum) { WrappingSumIsModular(KeysOf(tasks[Slots(maximum) - 1..], Tasks.SecondsOf)); }
  }

  /** What the views of the report show, down to the fields of the worklogs. */
  ghost predicate Shows(report: TeamAnalytics, start: int, end: int, roster: seq<Members.TeamMember>, es: seq<Entry>,
                        maximum: nat)
  {
    && Members.TableShows(report.members, roster, es)
    && Tasks.ListShows(report.tasks, es)
    && TaskSlicesShow(report.taskSlices, report.tasks, report.loadedSeconds, maximum)
    && (forall e :: Categories.IssueType(e) == e.issueType && Categories.IssueStatus(e) == e.issueStatus)
    && Categories.ChartShows(report.issueTypes, es, report.loadedSeconds, maximum, Categories.IssueType)
    && Categories.ChartShows(report.issueStatuses, es, report.loadedSeconds, maximum, Categories.IssueStatus)
    && TrendShows(report.trend, es, start, end)
  }

  lemma ReportShows(report: TeamAnalytics, start: int, end: int, roster: seq<Members.TeamMember>, es: seq<Entry>,
                    maximum: nat)
    requires start <= end
    requires Members.SummarizesMembers(report.members, roster, es) && Tasks.SummarizesTasks(report.tasks, es)
    requires report.taskSlices == TaskSlices(report.tasks, report.loadedSeconds, maximum)
    requires Categories.LimitsCategories(report.issueTypes, es, report.loadedSeconds, maximum, Categories.IssueType)
    requires Categories.LimitsCategories(report.issueStatuses, es, report.loadedSeconds, maximum,
                                         Categories.IssueStatus)
    requires IsTrend(report.trend, SummarizeTeamDays(start, end, es))
    ensures Shows(report, start, end, roster, es, maximum)
  {
    Members.RowsShow(report.members, roster, es);
    Tasks.TasksShow(report.tasks, es);
    TaskSlicesAreShown(report.tasks, report.loadedSeconds, maximum);
    Categories.ChartIsShown(report.issueTypes, es, report.loadedSeconds, maximum, Categories.IssueType);
    Categories.ChartIsShown(report.issueStatuses, es, report.loadedSeconds, maximum, Categories.IssueStatus);
    TrendIsShown(report.trend, es, start, end);
  }

  method Calculate(start: int, end: int, roster: seq<Members.TeamMember>, es: seq<Entry>, maximum: nat)
    returns (report: TeamAnalytics)
    requires start <= end
    ensures report.loadedSeconds == Wrap(Total(es))
    ensures Members.SummarizesMembers(report.members, roster, es)
    ensures Tasks.SummarizesTasks(report.tasks, es)
    ensures report.taskSlices == TaskSlices(report.tasks, report.loadedSeconds, maximum)
    ensures Categories.LimitsCategories(report.issueTypes, es, report.loadedSeconds, maximum, Categories.IssueType)
    ensures Categories.LimitsCategories(report.issueStatuses, es, report.loadedSeconds, maximum, Categories.IssueStatus)
    ensures IsTrend(report.trend, SummarizeTeamDays(start, end, es))
    ensures Shows(report, start, end, roster, es, maximum)
    ensures Total(es) <= MAXIMUM ==> Conserves(report, es, start, end)
  {
    var loaded := WrappingSum(Durations(es));
    WrappingSumIsModular(Durations(es));
    var tasks := Tasks.SummarizeTeamTasks(es);
    var types := Categories.CategorySlices(es, loaded, maximum, Categories.IssueType);
    var statuses := Categories.CategorySlices(es, loaded, maximum, Categories.IssueStatus);
    var members := Members.SummarizeMembers(roster, es);
    var days := SummarizeTeamDays(start, end, es);
    var trend := TrendPoints(days);
    report := TeamAnalytics(loaded, members, tasks, TaskSlices(tasks, loaded, maximum), types, statuses, trend);

    ReportShows(report, start, end, roster, es, maximum);
    if Total(es) <= MAXIMUM {
      TasksConserve(tasks, es, maximum);
      Members.MembersAddUp(members, roster, es);
      TrendEndsAt(trend, es, start, end);
    }
  }

  lemma TasksConserve(tasks: seq<Tasks.TaskHours>, es: seq<Entry>, maximum: nat)
    requires Total(es) <= MAXIMUM && Tasks.SummarizesTasks(tasks, es)
    ensures Sum(KeysOf(tasks, Tasks.SecondsOf)) == Total(es)
    ensures Sum(KeysOf(TaskSlices(tasks, Total(es), maximum), TaskSliceSeconds)) == Total(es)
  {
    Tasks.TasksAddUp(tasks, es);
    TaskSlicesAreTop(tasks, Total(es), maximum);
    TopSecondsConserve(KeysOf(tasks, Tasks.SecondsOf), maximum);
  }

  lemma TrendEndsAt(trend: seq<TrendPoint>, es: seq<Entry>, start: int, end: int)
    requires start <= end && Total(es) <= MAXIMUM && IsTrend(trend, SummarizeTeamDays(start, end, es))
    ensures |trend| == end - start + 1 && trend[|trend| - 1].cumulative == Total(InPeriod(es, start, end))
  {
    var days := SummarizeTeamDays(start, end, es);
    OnlyAtMost(es, During(ReportWeek(start, end)), true);
    DaysAddUp(es, start, end);
    assert days[..|days|] == days;
  }

  // ----- The table of members by weeks -----

  /** One cell of the exported table. */
  function MemberWeekSeconds(es: seq<Entry>, account: string, week: ReportWeek): u32 {
    WeekSeconds(Only(es, Author, account), week)
  }

  /** The cells of one member, week after week. */
  function MemberCells(es: seq<Entry>, account: string, weeks: seq<ReportWeek>): seq<u32> {
    WeekCells(Only(es, Author, account), weeks)
  }

  /** The cells of one week, member after member. */
  function WeekColumn(es: seq<Entry>, accounts: seq<string>, week: ReportWeek): seq<u32> {
    seq(|accounts|, i requires 0 <= i < |accounts| => MemberWeekSeconds(es, accounts[i], week))
  }

  /** A row adds up to the member's seconds when the member worked inside the period and fits. */
  lemma RowBalances(es: seq<Entry>, account: string, start: int, end: int)
    requires start <= end
    requires forall e :: e in es && e.author == account ==> start <= e.date <= end
    requires Total(Only(es, Author, account)) <= MAXIMUM
    ensures Sum(MemberCells(es, account, ReportWeeks(start, end))) == Total(Only(es, Author, account))
  {
    var mine, weeks := Only(es, Author, account), ReportWeeks(start, end);
    forall e | e in mine ensures During(ReportWeek(start, end))(e) { assert Author(e) == account; }
    OnlyEverything(mine, During(ReportWeek(start, end)), true);
    WeekCellsBalance(mine, start, end);
    forall i | 0 <= i < |weeks| ensures Total(InWeek(mine, weeks[i])) <= MAXIMUM {
      OnlyAtMost(mine, During(weeks[i]), true);
    }
  }

  /** A column adds up to the week's total over the team, for any members that cover the authors. */
  lemma ColumnBalances(es: seq<Entry>, accounts: seq<string>, week: ReportWeek)
    requires Distinct(accounts) && forall e :: e in es ==> e.author in accounts
    requires Total(InWeek(es, week)) <= MAXIMUM
    ensures Sum(WeekColumn(es, accounts, week)) == WeekSeconds(es, week) == Total(InWeek(es, week))
  {
    var inside := InWeek(es, week);
    forall e | e in inside ensures Author(e) in accounts {}
    forall i | 0 <= i < |accounts|
      ensures WeekColumn(es, accounts, week)[i] == SaturatingSum(Durations(Only(inside, Author, accounts[i])))
    {
      OnlyCommutes(es, Author, accounts[i], During(week), true);
    }
    GroupsAddUp(inside, Author, accounts, WeekColumn(es, accounts, week));
    SaturatingSumIsClamped(Durations(inside));
  }

  /** No cell, row or column total is cut off: each is the true total of its worklogs. */
  ghost predicate NothingSaturated(rows: seq<Members.MemberAnalytics>, es: seq<Entry>, weeks: seq<ReportWeek>) {
    && (forall row :: row in rows ==> row.seconds == Total(Only(es, Author, row.accountId)))
    && (forall week :: week in weeks ==> WeekSeconds(es, week) == Total(InWeek(es, week)))
    && (forall row, week :: row in rows && week in weeks ==>
          MemberWeekSeconds(es, row.accountId, week) == Total(InWeek(Only(es, Author, row.accountId), week)))
  }

  /** Each cell stands in its member's row and in its week's column, and shows what was worked then. */
  lemma CellsAreInPlace(rows: seq<Members.MemberAnalytics>, es: seq<Entry>, weeks: seq<ReportWeek>, i: nat, j: nat)
    requires i < |rows| && j < |weeks|
    requires NothingSaturated(rows, es, weeks)
    ensures |MemberCells(es, rows[i].accountId, weeks)| == |weeks|
    ensures |WeekColumn(es, KeysOf(rows, Members.AccountOf), weeks[j])| == |rows|
    ensures MemberCells(es, rows[i].accountId, weeks)[j]
         == WeekColumn(es, KeysOf(rows, Members.AccountOf), weeks[j])[i]
         == Total(InWeek(Only(es, Author, rows[i].accountId), weeks[j]))
    ensures WeekCells(es, weeks)[j] == Total(InWeek(es, weeks[j]))
    ensures forall e :: e in InWeek(es, weeks[j]) <==> e in es && weeks[j].start <= e.date <= weeks[j].end
  {
    assert rows[i] in rows && weeks[j] in weeks;
  }

  lemma CellIsExact(es: seq<Entry>, week: ReportWeek)
    requires Total(es) <= MAXIMUM
    ensures WeekSeconds(es, week) == Total(InWeek(es, week))
  {
    OnlyAtMost(es, During(week), true);
    SaturatingSumIsClamped(Durations(InWeek(es, week)));
  }

  lemma CellsAreExact(rows: seq<Members.MemberAnalytics>, roster: seq<Members.TeamMember>, es: seq<Entry>,
                      weeks: seq<ReportWeek>)
    requires Total(es) <= MAXIMUM && Members.SummarizesMembers(rows, roster, es)
    ensures NothingSaturated(rows, es, weeks)
  {
    forall week | week in weeks ensures WeekSeconds(es, week) == Total(InWeek(es, week)) {
      CellIsExact(es, week);
    }
    forall row | row in rows ensures row.seconds == Total(Only(es, Author, row.accountId)) {
      OnlyAtMost(es, Author, row.accountId);
      SaturatingSumIsClamped(Durations(Only(es, Author, row.accountId)));
    }
    forall row, week | row in rows && week in weeks
      ensures MemberWeekSeconds(es, row.accountId, week) == Total(InWeek(Only(es, Author, row.accountId), week))
    {
      OnlyAtMost(es, Author, row.accountId);
      CellIsExact(Only(es, Author, row.accountId), week);
    }
  }

  /** Everything the exported table promises about its rows, columns and grand total. */
  ghost predicate Balanced(rows: seq<Members.MemberAnalytics>, loaded: u32, es: seq<Entry>, weeks: seq<ReportWeek>) {
    && (forall row :: row in rows ==> Sum(MemberCells(es, row.accountId, weeks)) == row.seconds)
    && (forall week :: week in weeks ==>
          Sum(WeekColumn(es, KeysOf(rows, Members.AccountOf), week)) == WeekSeconds(es, week))
    && Sum(KeysOf(rows, Members.SecondsOf)) == loaded
    && Sum(WeekCells(es, weeks)) == loaded
    && NothingSaturated(rows, es, weeks)
  }

  /**
   The table balances: with every worklog inside the period and a total that fits 32
   bits, each row adds up to its member's seconds, each column to the team's week, and
   rows and weeks alike to the seconds loaded; nothing saturated on the way.
   */
  lemma TableBalances(rows: seq<Members.MemberAnalytics>, roster: seq<Members.TeamMember>, es: seq<Entry>,
                      start: int, end: int)
    requires start <= end && Total(es) <= MAXIMUM
    requires forall e :: e in es ==> start <= e.date <= end
    requires Members.SummarizesMembers(rows, roster, es)
    ensures Balanced(rows, WrappingSum(Durations(es)), es, ReportWeeks(start, end))
  {
    var weeks := ReportWeeks(start, end);
    forall row | row in rows ensures Sum(MemberCells(es, row.accountId, weeks)) == row.seconds {
      MemberRowBalances(rows, roster, es, start, end, row);
    }
    forall week | week in weeks
      ensures Sum(WeekColumn(es, KeysOf(rows, Members.AccountOf), week)) == WeekSeconds(es, week)
    {
      MemberColumnBalances(rows, roster, es, week);
    }
    Members.MembersAddUp(rows, roster, es);
    CellsAreExact(rows, roster, es, weeks);
    WeeksBalance(es, start, end);
    WrappingSumIsModular(Durations(es));
  }

  lemma MemberRowBalances(rows: seq<Members.MemberAnalytics>, roster: seq<Members.TeamMember>, es: seq<Entry>,
                          start: int, end: int, row: Members.MemberAnalytics)
    requires start <= end && Total(es) <= MAXIMUM
    requires forall e :: e in es ==> start <= e.date <= end
    requires Members.SummarizesMembers(rows, roster, es) && row in rows
    ensures Sum(MemberCells(es, row.accountId, ReportWeeks(start, end))) == row.seconds
  {
    OnlyAtMost(es, Author, row.accountId);
    RowBalances(es, row.accountId, start, end);
    SaturatingSumIsClamped(Durations(Only(es, Author, row.accountId)));
  }

  lemma MemberColumnBalances(rows: seq<Members.MemberAnalytics>, roster: seq<Members.TeamMember>, es: seq<Entry>,
                             week: ReportWeek)
    requires Total(es) <= MAXIMUM
    requires Members.SummarizesMembers(rows, roster, es)
    ensures Sum(WeekColumn(es, KeysOf(rows, Members.AccountOf), week)) == WeekSeconds(es, week)
  {
    var accounts := KeysOf(rows, Members.AccountOf);
    forall e | e in es ensures e.author in accounts { assert e.author in Members.Authors(es); }
    OnlyAtMost(es, During(week), true);
    ColumnBalances(es, accounts, week);
  }

  lemma WeeksBalance(es: seq<Entry>, start: int, end: int)
    requires start <= end && Total(es) <= MAXIMUM
    requires forall e :: e in es ==> start <= e.date <= end
    ensures Sum(WeekCells(es, ReportWeeks(start, end))) == Total(es)
  {
    var weeks := ReportWeeks(start, end);
    forall i | 0 <= i < |weeks| ensures Total(InWeek(es, weeks[i])) <= MAXIMUM {
      OnlyAtMost(es, During(weeks[i]), true);
    }
    OnlyEverything(es, During(ReportWeek(start, end)), true);
    WeekCellsBalance(es, start, end);
  }
}
