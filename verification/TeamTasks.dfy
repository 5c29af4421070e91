/** The tasks of a team report: worklogs accumulated issue by issue, longest first. */
module TeamTasks {
  import opened Ordering
  import opened Seconds
  import opened Worklogs

  datatype TaskHours = TaskHours(issueKey: string, summary: string, seconds: u32, entries: nat)

  function IssueOf(task: TaskHours): string { task.issueKey }

  function SecondsOf(task: TaskHours): u32 { task.seconds }

  function Issues(es: seq<Entry>): set<string> { set e | e in es :: e.issueKey }

  /** A task as its worklogs make it; the first of them gives the summary. */
  function TaskOf(es: seq<Entry>, key: string): TaskHours
    requires key in Issues(es)
  {
    var mine := Only(es, Issue, key);
    assert mine != [] by {
      var e :| e in es && e.issueKey == key;
      assert Issue(e) == key;
    }
    TaskHours(key, mine[0].issueSummary, SaturatingSum(Durations(mine)), |mine|)
  }

  function AddWorklog(task: TaskHours, e: Entry): TaskHours {
    task.(seconds := SaturatingAdd(task.seconds, e.seconds), entries := task.entries + 1)
  }

  predicate MoreSeconds(a: TaskHours, b: TaskHours) { a.seconds >= b.seconds }

  predicate ByIssue(a: TaskHours, b: TaskHours) { StringLe(a.issueKey, b.issueKey) }

  /** One task for every issue, holding exactly its worklogs, ranked, ties in key order. */
  ghost predicate SummarizesTasks(tasks: seq<TaskHours>, es: seq<Entry>) {
    && Distinct(KeysOf(tasks, IssueOf))
    && (forall k :: k in KeysOf(tasks, IssueOf) <==> k in Issues(es))
    && (forall task :: task in tasks ==> task.issueKey in Issues(es) && task == TaskOf(es, task.issueKey))
    && SortedWithTies(tasks, MoreSeconds, ByIssue)
  }

  /** What a task shows, in terms of its own worklogs; the first of them gives the summary. */
  ghost predicate TaskShows(task: TaskHours, es: seq<Entry>) {
    var mine := Only(es, Issue, task.issueKey);
    && mine != []
    && task.summary == mine[0].issueSummary
    && task.seconds == Clamp(Total(mine))
    && task.entries == |mine|
  }

  /** Longest first, then by key. */
  ghost predicate Precedes(a: TaskHours, b: TaskHours) {
    a.seconds > b.seconds || (a.seconds == b.seconds && StringLe(a.issueKey, b.issueKey))
  }

  ghost predicate ListShows(tasks: seq<TaskHours>, es: seq<Entry>) {
    && (forall task :: task in tasks ==> TaskShows(task, es))
    && (forall i, j :: 0 <= i < j < |tasks| ==> Precedes(tasks[i], tasks[j]))
  }

  lemma TasksShow(tasks: seq<TaskHours>, es: seq<Entry>)
    requires SummarizesTasks(tasks, es)
    ensures ListShows(tasks, es)
  {
    forall task | task in tasks ensures TaskShows(task, es) {
      SaturatingSumIsClamped(Durations(Only(es, Issue, task.issueKey)));
    }
  }

  ghost predicate Collected(tasks: map<string, TaskHours>, es: seq<Entry>) {
    && tasks.Keys == Issues(es)
    && forall k :: k in tasks ==> tasks[k] == TaskOf(es, k)
  }

  lemma IssuesAppend(es: seq<Entry>, e: Entry)
    ensures Issues(es + [e]) == Issues(es) + {e.issueKey}
  {}

  lemma TaskStep(es: seq<Entry>, e: Entry, key: string)
    requires key in Issues(es + [e])
    ensures key in Issues(es) && key != e.issueKey ==> TaskOf(es + [e], key) == TaskOf(es, key)
    ensures key == e.issueKey && key in Issues(es) ==> TaskOf(es + [e], key) == AddWorklog(TaskOf(es, key), e)
    ensures key == e.issueKey && key !in Issues(es)
       ==> TaskOf(es + [e], key) == AddWorklog(TaskHours(key, e.issueSummary, 0, 0), e)
  {
    OnlyAppend(es, e, Issue, key);
    var before, after := Only(es, Issue, key), Only(es + [e], Issue, key);
    SaturatingAppend(es, e, Issue, key);
    if key == e.issueKey {
      if key !in Issues(es) {
        NothingFiled(es, Issue, key);
      } else {
        var x :| x in es && x.issueKey == key;
        assert Issue(x) == key && x in before;
      }
    }
  }

  lemma EntryStep(tasks: map<string, TaskHours>, es: seq<Entry>, e: Entry, task: TaskHours)
    requires Collected(tasks, es)
    requires task == if e.issueKey in tasks then tasks[e.issueKey] else TaskHours(e.issueKey, e.issueSummary, 0, 0)
    ensures Collected(tasks[e.issueKey := AddWorklog(task, e)], es + [e])
  {
    var updated := tasks[e.issueKey := AddWorklog(task, e)];
    IssuesAppend(es, e);
    assert updated.Keys == Issues(es + [e]);
    forall k | k in updated ensures updated[k] == TaskOf(es + [e], k) {
      TaskStep(es, e, k);
    }
  }

  method CollectTasks(es: seq<Entry>) returns (tasks: map<string, TaskHours>)
    ensures Collected(tasks, es)
  {
    tasks := map[];
    for i := 0 to |es|
      invariant Collected(tasks, es[..i])
    {
      assert es[..i + 1] == es[..i] + [es[i]];
      var key := es[i].issueKey;
      var task := if key in tasks then tasks[key] else TaskHours(key, es[i].issueSummary, 0, 0);
      EntryStep(tasks, es[..i], es[i], task);
      tasks := tasks[key := AddWorklog(task, es[i])];
    }
    assert es[..|es|] == es;
  }

  method SummarizeTeamTasks(es: seq<Entry>) returns (tasks: seq<TaskHours>)
    ensures SummarizesTasks(tasks, es)
  {
    var collected := CollectTasks(es);
    StringOrder();
    var keys := InOrder(collected.Keys, StringLe);
    var unranked := seq(|keys|, i requires 0 <= i < |keys| && keys[i] in collected => collected[keys[i]]);
    tasks := SortBy(unranked, MoreSeconds);
    RankTasks(unranked, keys, es);
  }

  lemma RankTasks(unranked: seq<TaskHours>, keys: seq<string>, es: seq<Entry>)
    requires Distinct(keys) && Sorted(keys, StringLe)
    requires forall k :: k in keys <==> k in Issues(es)
    requires |unranked| == |keys|
    requires forall i :: 0 <= i < |keys| ==> keys[i] in Issues(es) && unranked[i] == TaskOf(es, keys[i])
    ensures SummarizesTasks(SortBy(unranked, MoreSeconds), es)
  {
    assert KeysOf(unranked, IssueOf) == keys;
    Ranking(unranked, IssueOf, MoreSeconds, ByIssue);
  }

  /** The tasks' seconds add up to the whole report, unless a task overflows 32 bits. */
  lemma TasksAddUp(tasks: seq<TaskHours>, es: seq<Entry>)
    requires SummarizesTasks(tasks, es)
    ensures Sum(KeysOf(tasks, SecondsOf)) <= Total(es)
    ensures Sum(KeysOf(tasks, SecondsOf)) == Total(es)
       <==> forall i :: 0 <= i < |tasks| ==> Total(Only(es, Issue, tasks[i].issueKey)) <= MAXIMUM
    ensures Total(es) <= MAXIMUM ==> Sum(KeysOf(tasks, SecondsOf)) == Total(es)
  {
    forall i | 0 <= i < |tasks|
      ensures tasks[i].seconds == SaturatingSum(Durations(Only(es, Issue, tasks[i].issueKey)))
    {
      assert tasks[i] in tasks;
    }
    GroupsAddUp(es, Issue, KeysOf(tasks, IssueOf), KeysOf(tasks, SecondsOf));
  }
}
