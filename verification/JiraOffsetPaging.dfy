/**
 The Jira collections that follow numeric offsets: boards and the worklogs of an issue.
 The next offset is computed from what the server reports, and there is no page counter.
 */
module JiraOffsetPaging {
  import opened Wrappers
  import opened JiraClient
  import Seconds

  datatype OffsetPage<+T> = OffsetPage(startAt: Seconds.u32, total: Seconds.u32, items: seq<T>)

  /** The answer to the n-th request, for every offset. */
  type OffsetServer<T> = (nat, nat) -> Result<OffsetPage<T>, JiraError>

  function NextOffset(startAt: Seconds.u32, pageSize: nat): Result<Seconds.u32, JiraError> {
    if startAt + pageSize <= Seconds.MAXIMUM then Success(startAt + pageSize) else Failure(InvalidPagination)
  }

  function OffsetPageFinished(startAt: Seconds.u32, total: Seconds.u32, pageSize: nat, collected: nat,
                              maximum: nat): Result<bool, JiraError> {
    if pageSize == 0 then Success(true)
    else
      match NextOffset(startAt, pageSize)
      case Success(next) => Success(next >= total || collected == maximum)
      case Failure(error) => Failure(error)
  }

  // ----- What the server says -----

  /** The offset of the i-th request when every page is followed. */
  function StartAt<T>(server: OffsetServer<T>, i: nat): nat {
    if i == 0 then 0
    else
      match server(i - 1, StartAt(server, i - 1))
      case Success(page) => page.startAt + |page.items|
      case Failure(_) => 0
  }

  function OffsetsUpTo<T>(server: OffsetServer<T>, n: nat): seq<nat> {
    if n == 0 then [] else OffsetsUpTo(server, n - 1) + [StartAt(server, n - 1)]
  }

  function PageAt<T>(server: OffsetServer<T>, i: nat): Result<OffsetPage<T>, JiraError> {
    server(i, StartAt(server, i))
  }

  function Collected<T>(server: OffsetServer<T>, n: nat): seq<T> {
    if n == 0 then []
    else
      Collected(server, n - 1)
      + match PageAt(server, n - 1)
        case Success(page) => page.items
        case Failure(_) => []
  }

  /** Why page n is refused, if it is: the checks in the order in which they are made. */
  ghost function Refusal<T(!new)>(server: OffsetServer<T>, valid: T -> bool, maximum: nat, n: nat): Option<JiraError> {
    match PageAt(server, n)
    case Failure(error) => Some(error)
    case Success(page) =>
      if exists item :: item in page.items && !valid(item) then Some(InvalidWorklog)
      else if page.total > maximum || |Collected(server, n + 1)| > maximum then Some(CollectionLimitReached)
      else if page.items != [] && page.startAt + |page.items| > Seconds.MAXIMUM then Some(InvalidPagination)
      else None
  }

  /** Page n ends the collection: it is empty, it reaches the total, or the limit is full. */
  ghost predicate Ends<T>(server: OffsetServer<T>, maximum: nat, n: nat) {
    PageAt(server, n).Success? &&
    var page := PageAt(server, n).value;
    page.items == [] || page.startAt + |page.items| >= page.total || |Collected(server, n + 1)| == maximum
  }

  ghost predicate Follows<T(!new)>(server: OffsetServer<T>, valid: T -> bool, maximum: nat, n: nat) {
    Refusal(server, valid, maximum, n).None? && !Ends(server, maximum, n)
  }

  ghost predicate FollowsUpTo<T(!new)>(server: OffsetServer<T>, valid: T -> bool, maximum: nat, n: nat) {
    forall i :: 0 <= i < n ==> Follows(server, valid, maximum, i)
  }

  /** Pages 0 to n-1 are accepted and only the last of them ends the collection. */
  ghost predicate CompleteRead<T(!new)>(server: OffsetServer<T>, valid: T -> bool, maximum: nat, n: nat) {
    && n > 0
    && FollowsUpTo(server, valid, maximum, n - 1)
    && Refusal(server, valid, maximum, n - 1).None?
    && Ends(server, maximum, n - 1)
  }

  /** The answer after n requests: a complete read and its items, or the first refusal. */
  ghost predicate RightAnswer<T(!new)>(server: OffsetServer<T>, valid: T -> bool, maximum: nat,
                                       result: Result<seq<T>, JiraError>, n: nat) {
    match result
    case Success(items) => CompleteRead(server, valid, maximum, n) && items == Collected(server, n)
    case Failure(error) =>
      n > 0 && FollowsUpTo(server, valid, maximum, n - 1) && Refusal(server, valid, maximum, n - 1) == Some(error)
  }

  // ----- Any server -----

  lemma PageStep<T>(server: OffsetServer<T>, n: nat)
    ensures PageAt(server, n) == server(n, StartAt(server, n))
    ensures OffsetsUpTo(server, n + 1) == OffsetsUpTo(server, n) + [StartAt(server, n)]
    ensures PageAt(server, n).Success? ==>
              && StartAt(server, n + 1) == PageAt(server, n).value.startAt + |PageAt(server, n).value.items|
              && Collected(server, n + 1) == Collected(server, n) + PageAt(server, n).value.items
  {}

  /** Every page that is followed brings something, so there are fewer of them than items allowed. */
  lemma {:induction false} PagesBringItems<T(!new)>(server: OffsetServer<T>, valid: T -> bool, maximum: nat, n: nat)
    requires FollowsUpTo(server, valid, maximum, n) && maximum > 0
    ensures n <= |Collected(server, n)| < maximum
  {
    if n > 0 {
      PagesBringItems(server, valid, maximum, n - 1);
      assert Follows(server, valid, maximum, n - 1);
      PageStep(server, n - 1);
    }
  }

  /** A server, a validity test and a limit allow one answer only, after one number of requests. */
  lemma AnswerIsUnique<T(!new)>(server: OffsetServer<T>, valid: T -> bool, maximum: nat,
                                a: Result<seq<T>, JiraError>, m: nat, b: Result<seq<T>, JiraError>, n: nat)
    requires RightAnswer(server, valid, maximum, a, m) && RightAnswer(server, valid, maximum, b, n)
    ensures a == b && m == n
  {
    assert m < n ==> Follows(server, valid, maximum, m - 1);
    assert n < m ==> Follows(server, valid, maximum, n - 1);
  }

  method ValidateWorklogs<T(!new)>(items: seq<T>, valid: T -> bool) returns (outcome: Outcome<JiraError>)
    ensures outcome == if exists item :: item in items && !valid(item) then Fail(InvalidWorklog) else Pass
  {
    for i := 0 to |items|
      invariant forall j :: 0 <= j < i ==> valid(items[j])
    {
      if !valid(items[i]) { return Fail(InvalidWorklog); }
    }
    return Pass;
  }

  /** The checks on one page, in the order in which they are made; on success, whether it is the end. */
  method TakePage<T(!new)>(server: OffsetServer<T>, valid: T -> bool, maximum: nat, ghost n: nat, items: seq<T>,
                           page: OffsetPage<T>)
    returns (taken: Result<(seq<T>, bool), JiraError>)
    requires PageAt(server, n) == Success(page) && items == Collected(server, n) && |items| < maximum
    ensures match taken
            case Failure(error) => Refusal(server, valid, maximum, n) == Some(error)
            case Success((all, finished)) =>
              && Refusal(server, valid, maximum, n).None?
              && all == Collected(server, n + 1)
              && (finished <==> Ends(server, maximum, n))
  {
    var checked := ValidateWorklogs(page.items, valid);
    if checked.Fail? { return Failure(checked.error); }
    if page.total > maximum { return Failure(CollectionLimitReached); }
    var appended := AppendWithLimit(items, page.items, maximum);
    PageStep(server, n);
    if appended.Failure? { return Failure(appended.error); }
    var finished := OffsetPageFinished(page.startAt, page.total, |page.items|, |appended.value|, maximum);
    if finished.Failure? { return Failure(finished.error); }
    taken := Success((appended.value, finished.value));
  }

  /** The state of the loop before request n. */
  ghost predicate AtPage<T(!new)>(server: OffsetServer<T>, valid: T -> bool, maximum: nat, n: nat, startAt: nat,
                                  items: seq<T>, offsets: seq<nat>) {
    && FollowsUpTo(server, valid, maximum, n)
    && startAt == StartAt(server, n)
    && items == Collected(server, n)
    && offsets == OffsetsUpTo(server, n)
    && |offsets| == n
    && |items| < maximum
  }

  /** A page that is neither refused nor the end leads to the next one. */
  lemma NextPage<T(!new)>(server: OffsetServer<T>, valid: T -> bool, maximum: nat, n: nat, items: seq<T>,
                          offsets: seq<nat>)
    requires maximum > 0 && AtPage(server, valid, maximum, n, StartAt(server, n), items, offsets)
    requires PageAt(server, n).Success? && Refusal(server, valid, maximum, n).None? && !Ends(server, maximum, n)
    ensures var page := PageAt(server, n).value;
            && NextOffset(page.startAt, |page.items|) == Success(page.startAt + |page.items|)
            && n + 1 < maximum
            && AtPage(server, valid, maximum, n + 1, page.startAt + |page.items|, items + page.items,
                      offsets + [StartAt(server, n)])
  {
    PageStep(server, n);
    assert Follows(server, valid, maximum, n);
    PagesBringItems(server, valid, maximum, n + 1);
  }

  /** Collects boards, whose items are always valid, or worklogs. Reports the offsets asked for. */
  method CollectOffsets<T(!new)>(server: OffsetServer<T>, valid: T -> bool, maximum: nat)
    returns (result: Result<seq<T>, JiraError>, offsets: seq<nat>)
    requires maximum > 0
    ensures |offsets| <= maximum && offsets == OffsetsUpTo(server, |offsets|)
    ensures result.Success? ==> |result.value| <= maximum
    ensures RightAnswer(server, valid, maximum, result, |offsets|)
  {
    var items: seq<T> := [];
    var startAt: nat := 0;
    offsets := [];
    while true
      invariant |offsets| < maximum && AtPage(server, valid, maximum, |offsets|, startAt, items, offsets)
      decreases maximum - |offsets|
    {
      ghost var n, asked := |offsets|, offsets;
      PageStep(server, n);
      var reply := server(|offsets|, startAt);
      offsets := offsets + [startAt];
      if reply.Failure? { return Failure(reply.error), offsets; }
      var page := reply.value;
      var taken := TakePage(server, valid, maximum, n, items, page);
      if taken.Failure? { return Failure(taken.error), offsets; }
      if taken.value.1 { return Success(taken.value.0), offsets; }
      NextPage(server, valid, maximum, n, items, asked);
      items := taken.value.0;
      var next := NextOffset(page.startAt, |page.items|);
      if next.Failure? { return Failure(next.error), offsets; }
      startAt := next.value;
    }
  }

  // ----- A server with a list -----

  /** The server holds this list: it echoes the offset, reports the true total and sends what is there, if anything. */
  ghost predicate Serves<T(!new)>(server: OffsetServer<T>, all: seq<T>) {
    && |all| <= Seconds.MAXIMUM
    && forall i: nat, s: nat :: s <= |all| ==> ServesAt(server, all, i, s)
  }

  ghost predicate ServesAt<T(!new)>(server: OffsetServer<T>, all: seq<T>, i: nat, s: nat)
    requires s <= |all|
  {
    && server(i, s).Success?
    && server(i, s).value.startAt == s
    && server(i, s).value.total == |all|
    && server(i, s).value.items <= all[s..]
  }

  /** No page that is asked for before the end is empty. */
  ghost predicate NeverStalls<T(!new)>(server: OffsetServer<T>, all: seq<T>) {
    forall i: nat :: StartAt(server, i) < |all| ==> PageAt(server, i).Success? && PageAt(server, i).value.items != []
  }

  /** Such a server is read from the front without gaps. */
  lemma {:induction false} ReadsPrefix<T(!new)>(server: OffsetServer<T>, all: seq<T>, n: nat)
    requires Serves(server, all)
    ensures StartAt(server, n) <= |all| && Collected(server, n) == all[..StartAt(server, n)]
  {
    if n > 0 {
      ReadsPrefix(server, all, n - 1);
      var s := StartAt(server, n - 1);
      assert ServesAt(server, all, n - 1, s);
      PageStep(server, n - 1);
      var items := PageAt(server, n - 1).value.items;
      assert all[..s + |items|] == all[..s] + all[s..][..|items|];
    }
  }

  /** A page of such a server is refused only because the list is too long. */
  lemma NothingToRefuse<T(!new)>(server: OffsetServer<T>, valid: T -> bool, maximum: nat, all: seq<T>, n: nat)
    requires Serves(server, all) && forall item :: item in all ==> valid(item)
    ensures Refusal(server, valid, maximum, n) == if |all| > maximum then Some(CollectionLimitReached) else None
    ensures PageAt(server, n).Success? && PageAt(server, n).value.startAt == StartAt(server, n)
    ensures PageAt(server, n).value.total == |all|
  {
    ReadsPrefix(server, all, n);
    ReadsPrefix(server, all, n + 1);
    var s := StartAt(server, n);
    assert ServesAt(server, all, n, s);
    var items := PageAt(server, n).value.items;
    forall item | item in items ensures item in all {
      var k :| 0 <= k < |items| && items[k] == item;
      assert item == all[s..][k] == all[s + k];
    }
  }

  /**
   What comes back from a server that holds a list: an error when the list is too long,
   otherwise a prefix of it. It is the whole list exactly when the server never sends an
   empty page before the end; otherwise the list is cut short without an error.
   */
  lemma CollectsTheList<T(!new)>(server: OffsetServer<T>, valid: T -> bool, maximum: nat,
                                 all: seq<T>, result: Result<seq<T>, JiraError>, n: nat)
    requires maximum > 0 && Serves(server, all) && forall item :: item in all ==> valid(item)
    requires RightAnswer(server, valid, maximum, result, n)
    ensures |all| > maximum ==> result == Failure(CollectionLimitReached)
    ensures |all| <= maximum ==> result.Success? && result.value <= all
    ensures |all| <= maximum ==> (result == Success(all) <==> NeverStalls(server, all))
  {
    NothingToRefuse(server, valid, maximum, all, n - 1);
    if |all| <= maximum {
      ReadsPrefix(server, all, n);
      PageStep(server, n - 1);
      var last := PageAt(server, n - 1).value;
      assert Ends(server, maximum, n - 1);
      if result == Success(all) {
        WholeListNeverStalls(server, valid, maximum, all, n);
      } else {
        assert all[..|all|] == all;
        assert StartAt(server, n) < |all|;
        assert last.items == [];
      }
    }
  }

  lemma WholeListNeverStalls<T(!new)>(server: OffsetServer<T>, valid: T -> bool, maximum: nat, all: seq<T>, n: nat)
    requires Serves(server, all) && CompleteRead(server, valid, maximum, n) && Collected(server, n) == all
    ensures NeverStalls(server, all)
  {
    ReadsPrefix(server, all, n);
    forall i: nat | StartAt(server, i) < |all|
      ensures PageAt(server, i).Success? && PageAt(server, i).value.items != []
    {
      ReadsPrefix(server, all, i);
      assert ServesAt(server, all, i, StartAt(server, i));
      if i < n - 1 {
        assert Follows(server, valid, maximum, i);
      } else if i == n - 1 {
        PageStep(server, i);
      } else {
        StartAtGrows(server, all, n, i);
      }
    }
  }

  lemma {:induction false} StartAtGrows<T(!new)>(server: OffsetServer<T>, all: seq<T>, m: nat, n: nat)
    requires Serves(server, all) && m <= n
    ensures StartAt(server, m) <= StartAt(server, n)
  {
    if m < n {
      StartAtGrows(server, all, m, n - 1);
      ReadsPrefix(server, all, n - 1);
      assert ServesAt(server, all, n - 1, StartAt(server, n - 1));
      PageStep(server, n - 1);
    }
  }

  /** One item, and a server that answers with an empty page first. */
  function Stalling(i: nat, s: nat): Result<OffsetPage<int>, JiraError> {
    Success(OffsetPage(if s <= 1 then s else 0, 1, []))
  }

  /** An empty page ends the collection, although the server says that one item is missing. */
  lemma EmptyPageCutsShort(maximum: nat)
    requires maximum > 0
    ensures Serves(Stalling, [7])
    ensures RightAnswer(Stalling, (item: int) => true, maximum, Success([]), 1)
  {}
}
