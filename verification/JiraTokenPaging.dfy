/**
 The Jira collections that follow page tokens: complete collections with a page budget,
 the bounded search, and the search for one issue.
 */
module JiraTokenPaging {
  import opened Wrappers
  import opened PageChain
  import opened JiraClient

  type TokenServer<T> = PageServer<T, string, JiraError>

  /** The token of the next page: present, not empty and never used before. */
  function NextToken(token: Option<string>, seen: set<string>): Result<string, JiraError> {
    if token.None? || token.value == "" || token.value in seen then Failure(InvalidPagination)
    else Success(token.value)
  }

  function RemainingPageSize<T>(values: seq<T>, limits: PageLimits): Result<nat, JiraError> {
    var remaining := if |values| <= limits.maxItems then limits.maxItems - |values| else 0;
    var pageSize := if remaining < limits.pageSize then remaining else limits.pageSize;
    if 0 < pageSize <= 0xFFFF then Success(pageSize) else Failure(InvalidPagination)
  }

  // ----- What a loop may accept -----

  /** The token of request n is there, not empty, and was not used before. */
  ghost predicate UsableToken<T>(server: TokenServer<T>, n: nat) {
    IsNew(server, None, 1, n) && CursorAt(server, None, n) != Some("")
  }

  /** Tokens 1 to n are there, not empty and all different. */
  ghost predicate UsableTokens<T>(server: TokenServer<T>, n: nat) {
    forall i :: 0 < i <= n ==> UsableToken(server, i)
  }

  /** The loop's own test of a token is this one. */
  lemma TokenTest<T>(server: TokenServer<T>, n: nat)
    ensures NextToken(CursorAt(server, None, n), Seen(server, None, 1, n)).Success? <==> UsableToken(server, n)
    ensures UsableToken(server, n) && n > 0 ==>
              Seen(server, None, 1, n + 1) == Seen(server, None, 1, n) + {CursorAt(server, None, n).value}
  {}

  /** Page n-1 arrived within the limit, was not the last, and led to a usable token. */
  ghost predicate GoesOn<T>(server: TokenServer<T>, maximum: nat, stopWhenFull: bool, n: nat)
    requires n > 0
  {
    && ReplyAt(server, None, n - 1).Success?
    && !ReplyAt(server, None, n - 1).value.last
    && |ItemsAfter(server, None, n)| <= maximum
    && (stopWhenFull ==> |ItemsAfter(server, None, n)| < maximum)
    && UsableToken(server, n)
  }

  /** After n pages the loop is still going. */
  ghost predicate StillReading<T>(server: TokenServer<T>, maximum: nat, stopWhenFull: bool, n: nat) {
    forall i :: 0 < i <= n ==> GoesOn(server, maximum, stopWhenFull, i)
  }

  /**
   A complete read in n requests: the chain ends after page n, its tokens were usable, it
   fits the item limit, and it took no more requests than the limit. Where a full but
   unfinished collection is an error, every earlier prefix has to stay below the limit.
   */
  ghost predicate CompleteRead<T>(server: TokenServer<T>, maximum: nat, stopWhenFull: bool, n: nat) {
    && EndsAfter(server, None, n)
    && n <= maximum
    && UsableTokens(server, n - 1)
    && |ItemsAfter(server, None, n)| <= maximum
    && (stopWhenFull ==> forall i :: 0 < i < n ==> |ItemsAfter(server, None, i)| < maximum)
  }

  /** The loop reads on just when the next token passes its test. */
  lemma ReadsOn<T>(server: TokenServer<T>, maximum: nat, stopWhenFull: bool, n: nat)
    requires StillReading(server, maximum, stopWhenFull, n)
    requires ReplyAt(server, None, n).Success? && !ReplyAt(server, None, n).value.last
    requires |ItemsAfter(server, None, n + 1)| <= maximum
    requires stopWhenFull ==> |ItemsAfter(server, None, n + 1)| < maximum
    ensures var next := NextToken(ReplyAt(server, None, n).value.next, Seen(server, None, 1, n + 1));
            if next.Success? then
              && StillReading(server, maximum, stopWhenFull, n + 1)
              && Seen(server, None, 1, n + 2) == Seen(server, None, 1, n + 1) + {next.value}
            else !UsableToken(server, n + 1)
  {
    TokenTest(server, n + 1);
    PageStep(server, None, n);
    if UsableToken(server, n + 1) { assert GoesOn(server, maximum, stopWhenFull, n + 1); }
  }

  /** What getting through n pages means for the chain and for the requests made. */
  lemma ReadingMeans<T>(server: TokenServer<T>, maximum: nat, stopWhenFull: bool, n: nat)
    requires StillReading(server, maximum, stopWhenFull, n)
    ensures Open(server, None, n) && UsableTokens(server, n) && RequestsDiffer(server, None, n + 1)
  {
    forall i | 0 <= i < n ensures ReplyAt(server, None, i).Success? && !ReplyAt(server, None, i).value.last {
      assert GoesOn(server, maximum, stopWhenFull, i + 1);
    }
    forall i | 0 < i <= n ensures UsableToken(server, i) {
      assert GoesOn(server, maximum, stopWhenFull, i);
    }
    forall i, j | 0 <= i < j <= n ensures CursorAt(server, None, i) != CursorAt(server, None, j) {
      assert GoesOn(server, maximum, stopWhenFull, j);
      assert i == 0 ==> CursorAt(server, None, i).None?;
    }
  }

  lemma {:induction false} PrefixFits<T>(server: TokenServer<T>, m: nat, n: nat)
    requires m <= n
    ensures |ItemsAfter(server, None, m)| <= |ItemsAfter(server, None, n)|
  {
    ItemsGrow(server, None, m, n);
  }

  /** A complete read, seen from the loop. */
  lemma CompleteReadIs<T>(server: TokenServer<T>, maximum: nat, stopWhenFull: bool, n: nat)
    ensures CompleteRead(server, maximum, stopWhenFull, n) <==>
              && 0 < n <= maximum
              && StillReading(server, maximum, stopWhenFull, n - 1)
              && ReplyAt(server, None, n - 1).Success?
              && ReplyAt(server, None, n - 1).value.last
              && |ItemsAfter(server, None, n)| <= maximum
  {
    if n > 0 {
      forall i: nat | i <= n ensures |ItemsAfter(server, None, i)| <= |ItemsAfter(server, None, n)| {
        PrefixFits(server, i, n);
      }
      if CompleteRead(server, maximum, stopWhenFull, n) {
        forall i | 0 < i <= n - 1 ensures GoesOn(server, maximum, stopWhenFull, i) {
          assert ReplyAt(server, None, i - 1).Success?;
        }
      } else if StillReading(server, maximum, stopWhenFull, n - 1) {
        ReadingMeans(server, maximum, stopWhenFull, n - 1);
        forall i | 0 < i < n && stopWhenFull ensures |ItemsAfter(server, None, i)| < maximum {
          assert GoesOn(server, maximum, stopWhenFull, i);
        }
      }
    }
  }

  /** Why page n, once asked for, ends the loop with an error, if it does: the tests in their order. */
  ghost function PageError<T>(server: TokenServer<T>, maximum: nat, stopWhenFull: bool, n: nat): Option<JiraError> {
    match ReplyAt(server, None, n)
    case Failure(error) => Some(error)
    case Success(page) =>
      var count := |ItemsAfter(server, None, n + 1)|;
      if count > maximum then Some(CollectionLimitReached)
      else if page.last then None
      else if stopWhenFull && count == maximum then Some(CollectionLimitReached)
      else if !UsableToken(server, n + 1) then Some(InvalidPagination)
      else None
  }

  /** The loop gives up after n requests: its budget is spent, or the last page asked for is the reason. */
  ghost predicate GivesUp<T>(server: TokenServer<T>, maximum: nat, stopWhenFull: bool, n: nat, error: JiraError) {
    || (n >= maximum && StillReading(server, maximum, stopWhenFull, n) && error == InvalidPagination)
    || (0 < n <= maximum
        && StillReading(server, maximum, stopWhenFull, n - 1)
        && PageError(server, maximum, stopWhenFull, n - 1) == Some(error))
  }

  /** A complete read runs through every page the loop is still reading. */
  lemma CompleteReadGoesOn<T>(server: TokenServer<T>, maximum: nat, stopWhenFull: bool, i: nat, n: nat)
    requires StillReading(server, maximum, stopWhenFull, i)
    requires CompleteRead(server, maximum, stopWhenFull, n)
    ensures i < n && ReplyAt(server, None, i).Success? && |ItemsAfter(server, None, i + 1)| <= maximum
    ensures n == i + 1 ==> ReplyAt(server, None, i).value.last
    ensures n > i + 1 ==> GoesOn(server, maximum, stopWhenFull, i + 1)
  {
    CompleteReadIs(server, maximum, stopWhenFull, n);
    assert n <= i ==> GoesOn(server, maximum, stopWhenFull, n);
    PrefixFits(server, i + 1, n);
  }

  /**
   The right answer after n requests. A collection is returned just when there is a
   complete read, and then it is that read's items; otherwise the loop gives up there and
   then, with that error.
   */
  ghost predicate RightAnswer<T>(server: TokenServer<T>, maximum: nat, stopWhenFull: bool,
                                 result: Result<seq<T>, JiraError>, n: nat) {
    && (forall m: nat :: CompleteRead(server, maximum, stopWhenFull, m) ==> result.Success? && m == n)
    && match result
       case Success(items) => CompleteRead(server, maximum, stopWhenFull, n) && items == ItemsAfter(server, None, n)
       case Failure(error) => GivesUp(server, maximum, stopWhenFull, n, error)
  }

  /** A loop that has to give up could not have succeeded: no complete read exists. */
  lemma FailureIsFinal<T>(server: TokenServer<T>, maximum: nat, stopWhenFull: bool, n: nat, error: JiraError)
    requires GivesUp(server, maximum, stopWhenFull, n, error)
    ensures forall m: nat :: !CompleteRead(server, maximum, stopWhenFull, m)
    ensures RightAnswer(server, maximum, stopWhenFull, Failure(error), n) && RequestsDiffer(server, None, n)
  {
    ReadingMeans(server, maximum, stopWhenFull, if StillReading(server, maximum, stopWhenFull, n) then n else n - 1);
    forall m: nat | CompleteRead(server, maximum, stopWhenFull, m) ensures false {
      if n >= maximum && StillReading(server, maximum, stopWhenFull, n) {
        CompleteReadGoesOn(server, maximum, stopWhenFull, n, m);
      } else {
        CompleteReadGoesOn(server, maximum, stopWhenFull, n - 1, m);
      }
    }
  }

  lemma ReadIsComplete<T>(server: TokenServer<T>, maximum: nat, stopWhenFull: bool, i: nat)
    requires StillReading(server, maximum, stopWhenFull, i) && i < maximum
    requires ReplyAt(server, None, i).Success? && ReplyAt(server, None, i).value.last
    requires |ItemsAfter(server, None, i + 1)| <= maximum
    ensures forall n: nat :: CompleteRead(server, maximum, stopWhenFull, n) <==> n == i + 1
    ensures RightAnswer(server, maximum, stopWhenFull, Success(ItemsAfter(server, None, i + 1)), i + 1)
    ensures RequestsDiffer(server, None, i + 1)
  {
    ReadingMeans(server, maximum, stopWhenFull, i);
    CompleteReadIs(server, maximum, stopWhenFull, i + 1);
    forall n: nat | CompleteRead(server, maximum, stopWhenFull, n) ensures n == i + 1 {
      CompleteReadGoesOn(server, maximum, stopWhenFull, i, n);
    }
  }

  /** The budget is spent. */
  lemma NothingLeft<T>(server: TokenServer<T>, maximum: nat, stopWhenFull: bool)
    requires StillReading(server, maximum, stopWhenFull, maximum)
    ensures RightAnswer<T>(server, maximum, stopWhenFull, Failure(InvalidPagination), maximum)
    ensures RequestsDiffer(server, None, maximum)
  {
    FailureIsFinal(server, maximum, stopWhenFull, maximum, InvalidPagination);
  }

  /** Page n is the reason to give up. */
  lemma PageRefused<T>(server: TokenServer<T>, maximum: nat, stopWhenFull: bool, n: nat, error: JiraError)
    requires StillReading(server, maximum, stopWhenFull, n) && n < maximum
    requires PageError(server, maximum, stopWhenFull, n) == Some(error)
    ensures RightAnswer<T>(server, maximum, stopWhenFull, Failure(error), n + 1) && RequestsDiffer(server, None, n + 1)
  {
    FailureIsFinal(server, maximum, stopWhenFull, n + 1, error);
  }

  // ----- Complete collections -----

  /** The state of a loop before request n. */
  ghost predicate AtPage<T>(server: TokenServer<T>, maximum: nat, stopWhenFull: bool, n: nat, token: Option<string>,
                            seen: set<string>, issues: seq<T>, requests: seq<Option<string>>) {
    && StillReading(server, maximum, stopWhenFull, n)
    && token == CursorAt(server, None, n)
    && seen == Seen(server, None, 1, n + 1)
    && issues == ItemsAfter(server, None, n)
    && |issues| <= maximum
    && requests == CursorsUpTo(server, None, n)
    && |requests| == n
  }

  /** The next token is tested, and the loop goes on to its page. */
  lemma NextPage<T>(server: TokenServer<T>, maximum: nat, stopWhenFull: bool, n: nat, seen: set<string>,
                    issues: seq<T>, requests: seq<Option<string>>)
    requires AtPage(server, maximum, stopWhenFull, n, CursorAt(server, None, n), seen, issues, requests)
    requires ReplyAt(server, None, n).Success? && !ReplyAt(server, None, n).value.last
    requires |ItemsAfter(server, None, n + 1)| <= maximum
    requires stopWhenFull ==> |ItemsAfter(server, None, n + 1)| < maximum
    ensures var page := ReplyAt(server, None, n).value;
            var next := NextToken(page.next, seen);
            if next.Success? then
              AtPage(server, maximum, stopWhenFull, n + 1, Some(next.value), seen + {next.value}, issues + page.items,
                     requests + [CursorAt(server, None, n)])
            else !UsableToken(server, n + 1)
  {
    PageStep(server, None, n);
    ReadsOn(server, maximum, stopWhenFull, n);
  }

  /**
   Every board issue, searched issue or board issue document. `stopWhenFull` is set for
   board issues only: there a full collection that is not finished is an error at once.
   The requests made are reported beside the result.
   */
  method CollectIssues<T>(server: TokenServer<T>,
                          maximum: nat, stopWhenFull: bool)
    returns (result: Result<seq<T>, JiraError>, requests: seq<Option<string>>)
    ensures |requests| <= maximum
    ensures requests == CursorsUpTo(server, None, |requests|)
    ensures RequestsDiffer(server, None, |requests|)
    ensures RightAnswer(server, maximum, stopWhenFull, result, |requests|)
  {
    var issues: seq<T> := [];
    var token: Option<string> := None;
    var seen: set<string> := {};
    requests := [];
    while true
      invariant AtPage(server, maximum, stopWhenFull, |requests|, token, seen, issues, requests)
      invariant |requests| <= maximum
      decreases maximum - |requests|
    {
      ghost var n, asked := |requests|, requests;
      PageStep(server, None, n);
      if |requests| >= maximum {
        NothingLeft(server, maximum, stopWhenFull);
        return Failure(InvalidPagination), requests;
      }
      var reply := server(|requests|, token);
      requests := requests + [token];
      if reply.Failure? {
        PageRefused(server, maximum, stopWhenFull, n, reply.error);
        return Failure(reply.error), requests;
      }
      var appended := AppendWithLimit(issues, reply.value.items, maximum);
      if appended.Failure? {
        PageRefused(server, maximum, stopWhenFull, n, CollectionLimitReached);
        return Failure(appended.error), requests;
      }
      if reply.value.last {
        ReadIsComplete(server, maximum, stopWhenFull, n);
        return Success(appended.value), requests;
      }
      if stopWhenFull && |appended.value| == maximum {
        PageRefused(server, maximum, stopWhenFull, n, CollectionLimitReached);
        return Failure(CollectionLimitReached), requests;
      }
      NextPage(server, maximum, stopWhenFull, n, seen, issues, asked);
      issues := appended.value;
      var next := NextToken(reply.value.next, seen);
      if next.Failure? {
        PageRefused(server, maximum, stopWhenFull, n, InvalidPagination);
        return Failure(next.error), requests;
      }
      seen, token := seen + {next.value}, Some(next.value);
    }
  }

  // ----- Looking for one issue -----

  /** The loop got as far as receiving page n-1. */
  ghost predicate ReadSoFar<T>(server: TokenServer<T>, maximum: nat, n: nat) {
    && 0 < n <= maximum
    && StillReading(server, maximum, false, n - 1)
    && ReplyAt(server, None, n - 1).Success?
    && |ItemsAfter(server, None, n)| <= maximum
  }

  /** The whole chain can be read and the key is nowhere in it. */
  ghost predicate Absent(server: TokenServer<string>, key: string, maximum: nat) {
    exists n: nat :: CompleteRead(server, maximum, false, n) && key !in ItemsAfter(server, None, n)
  }

  /** A page that can be read has the key. */
  ghost predicate Present(server: TokenServer<string>, key: string, maximum: nat) {
    exists n: nat :: ReadSoFar(server, maximum, n) && key in ItemsAfter(server, None, n)
  }

  /** What the answer after n requests rests on: the page with the key, the whole chain, or the reason to give up. */
  ghost predicate RightFinding(server: TokenServer<string>, key: string, maximum: nat,
                               found: Result<bool, JiraError>, n: nat) {
    match found
    case Success(true) =>
      ReadSoFar(server, maximum, n) && key in ItemsAfter(server, None, n) && key !in ItemsAfter(server, None, n - 1)
    case Success(false) => CompleteRead(server, maximum, false, n) && key !in ItemsAfter(server, None, n)
    case Failure(error) =>
      && GivesUp(server, maximum, false, n, error)
      && (ReadSoFar(server, maximum, n) ==> key !in ItemsAfter(server, None, n))
      && (n > 0 ==> key !in ItemsAfter(server, None, n - 1))
  }

  /**
   Whether a board holds an issue; of an issue only its key is modelled. The answer is no
   exactly when the whole chain was read without the key, and yes exactly when a page that
   could be read has it.
   */
  method FindBoardIssue(server: TokenServer<string>, key: string, maximum: nat)
    returns (found: Result<bool, JiraError>, requests: seq<Option<string>>)
    ensures |requests| <= maximum
    ensures requests == CursorsUpTo(server, None, |requests|)
    ensures found == Success(false) <==> Absent(server, key, maximum)
    ensures found == Success(true) <==> Present(server, key, maximum)
    ensures RightFinding(server, key, maximum, found, |requests|)
  {
    var issues: seq<string> := [];
    var token: Option<string> := None;
    var seen: set<string> := {};
    requests := [];
    while |requests| < maximum
      invariant AtPage(server, maximum, false, |requests|, token, seen, issues, requests)
      invariant |requests| <= maximum && key !in issues
    {
      ghost var n, asked := |requests|, requests;
      PageStep(server, None, n);
      var reply := server(|requests|, token);
      requests := requests + [token];
      if reply.Failure? {
        SearchRefused(server, key, maximum, n, reply.error);
        return Failure(reply.error), requests;
      }
      var appended := AppendWithLimit(issues, reply.value.items, maximum);
      if appended.Failure? {
        SearchRefused(server, key, maximum, n, CollectionLimitReached);
        return Failure(appended.error), requests;
      }
      if key in appended.value {
        SearchHits(server, key, maximum, n);
        return Success(true), requests;
      }
      if reply.value.last {
        SearchMisses(server, key, maximum, n);
        return Success(false), requests;
      }
      NextPage(server, maximum, false, n, seen, issues, asked);
      issues := appended.value;
      var next := NextToken(reply.value.next, seen);
      if next.Failure? {
        SearchRefused(server, key, maximum, n, InvalidPagination);
        return Failure(next.error), requests;
      }
      seen, token := seen + {next.value}, Some(next.value);
    }
    SearchFails(server, key, maximum, |requests|, InvalidPagination);
    found := Failure(InvalidPagination);
  }

  /** Page n, which does not bring the key, is the reason to give up. */
  lemma SearchRefused(server: TokenServer<string>, key: string, maximum: nat, n: nat, error: JiraError)
    requires StillReading(server, maximum, false, n) && n < maximum && key !in ItemsAfter(server, None, n)
    requires PageError(server, maximum, false, n) == Some(error)
    requires ReplyAt(server, None, n).Success? && |ItemsAfter(server, None, n + 1)| <= maximum ==>
               key !in ItemsAfter(server, None, n + 1)
    ensures !Absent(server, key, maximum) && !Present(server, key, maximum)
    ensures RightFinding(server, key, maximum, Failure(error), n + 1)
  {
    SearchFails(server, key, maximum, n + 1, error);
  }

  lemma SearchFails(server: TokenServer<string>, key: string, maximum: nat, n: nat, error: JiraError)
    requires GivesUp(server, maximum, false, n, error) && n <= maximum
    requires n > 0 ==> key !in ItemsAfter(server, None, n - 1)
    requires ReadSoFar(server, maximum, n) ==> key !in ItemsAfter(server, None, n)
    ensures !Absent(server, key, maximum) && !Present(server, key, maximum)
    ensures RightFinding(server, key, maximum, Failure(error), n)
  {
    FailureIsFinal(server, maximum, false, n, error);
    assert StillReading(server, maximum, false, n) && n > 0 ==> GoesOn(server, maximum, false, n);
    forall m: nat | ReadSoFar(server, maximum, m) && key in ItemsAfter(server, None, m) ensures false {
      if n >= maximum && StillReading(server, maximum, false, n) {
        KeyIsAhead(server, key, maximum, n, m);
      } else {
        KeyIsAhead(server, key, maximum, n - 1, m);
      }
    }
  }

  /** A readable page with the key can only lie behind the page being read. */
  lemma KeyIsAhead(server: TokenServer<string>, key: string,
                   maximum: nat, i: nat, n: nat)
    requires StillReading(server, maximum, false, i) && key !in ItemsAfter(server, None, i)
    requires ReadSoFar(server, maximum, n) && key in ItemsAfter(server, None, n)
    ensures i < n && ReplyAt(server, None, i).Success? && |ItemsAfter(server, None, i + 1)| <= maximum
    ensures n > i + 1 ==> GoesOn(server, maximum, false, i + 1)
  {
    if n <= i { ItemsGrow(server, None, n, i); }
    assert n > i + 1 ==> GoesOn(server, maximum, false, i + 1);
    PrefixFits(server, i + 1, n);
  }

  lemma SearchHits(server: TokenServer<string>, key: string, maximum: nat, i: nat)
    requires StillReading(server, maximum, false, i) && i < maximum
    requires ReplyAt(server, None, i).Success? && |ItemsAfter(server, None, i + 1)| <= maximum
    requires key in ItemsAfter(server, None, i + 1)
    requires key !in ItemsAfter(server, None, i)
    ensures !Absent(server, key, maximum) && Present(server, key, maximum)
    ensures RightFinding(server, key, maximum, Success(true), i + 1)
  {
    assert ReadSoFar(server, maximum, i + 1);
    forall n: nat | CompleteRead(server, maximum, false, n) ensures key in ItemsAfter(server, None, n) {
      CompleteReadGoesOn(server, maximum, false, i, n);
      ItemsGrow(server, None, i + 1, n);
    }
  }

  lemma SearchMisses(server: TokenServer<string>, key: string, maximum: nat, i: nat)
    requires StillReading(server, maximum, false, i) && i < maximum
    requires ReplyAt(server, None, i).Success? && ReplyAt(server, None, i).value.last
    requires |ItemsAfter(server, None, i + 1)| <= maximum
    requires key !in ItemsAfter(server, None, i + 1)
    ensures Absent(server, key, maximum) && !Present(server, key, maximum)
    ensures RightFinding(server, key, maximum, Success(false), i + 1)
  {
    ReadIsComplete(server, maximum, false, i);
    assert key !in ItemsAfter(server, None, i);
    forall n: nat | ReadSoFar(server, maximum, n) && key in ItemsAfter(server, None, n) ensures false {
      KeyIsAhead(server, key, maximum, i, n);
    }
  }

  // ----- The bounded search -----

  datatype SearchResult<+T> = SearchResult(issues: seq<T>, hasMore: bool)

  /** A bounded read in n requests: it stopped at the end of the chain or at a full result. */
  ghost predicate BoundedRead<T>(server: TokenServer<T>, maximum: nat, n: nat) {
    && n > 0
    && StillReading(server, maximum, true, n - 1)
    && ReplyAt(server, None, n - 1).Success?
    && |ItemsAfter(server, None, n)| <= maximum
    && (ReplyAt(server, None, n - 1).value.last || |ItemsAfter(server, None, n)| == maximum)
  }

  /** Why page n ends the bounded search with an error, if it does; a full result is none. */
  ghost function SearchError<T>(server: TokenServer<T>, maximum: nat, n: nat): Option<JiraError> {
    if ReplyAt(server, None, n).Success? && |ItemsAfter(server, None, n + 1)| == maximum then None
    else PageError(server, maximum, false, n)
  }

  /**
   The right answer of the bounded search after n requests: there is a result just when
   there is a bounded read; it is marked when a full result left the chain unfinished. An
   error is that of the last page asked for.
   */
  ghost predicate RightSearch<T>(server: TokenServer<T>, maximum: nat, result: Result<SearchResult<T>, JiraError>,
                                 n: nat) {
    && (forall m: nat :: BoundedRead(server, maximum, m) ==> result.Success? && m == n)
    && (result.Success? ==>
          && BoundedRead(server, maximum, n)
          && result.value.issues == ItemsAfter(server, None, n)
          && (result.value.hasMore ==> |result.value.issues| == maximum)
          && (result.value.hasMore <==> !EndsAfter(server, None, n)))
    && (result.Failure? ==>
          && n > 0
          && StillReading(server, maximum, true, n - 1)
          && SearchError(server, maximum, n - 1) == Some(result.error))
  }

  /** The bounded search stops at page n, with a result or an error. */
  ghost predicate StopsAt<T>(server: TokenServer<T>, maximum: nat, n: nat) {
    && StillReading(server, maximum, true, n)
    && (BoundedRead(server, maximum, n + 1) || SearchError(server, maximum, n).Some?)
  }

  /**
   When the bounded search ends, on any server: it stops at some page exactly if there is a
   horizon at which it is not still reading. Otherwise no bounded read exists at all.
   */
  lemma SearchEndsIff<T>(server: TokenServer<T>, maximum: nat)
    requires maximum > 0
    ensures (exists n: nat :: StopsAt(server, maximum, n)) <==>
              (exists horizon: nat :: !StillReading(server, maximum, true, horizon))
    ensures (forall n: nat :: StillReading(server, maximum, true, n)) ==>
              forall n: nat :: !BoundedRead(server, maximum, n) && !StopsAt(server, maximum, n)
  {
    forall n: nat ensures StopsAt(server, maximum, n) ==> !StillReading(server, maximum, true, n + 1) {
      assert StillReading(server, maximum, true, n + 1) ==> GoesOn(server, maximum, true, n + 1);
    }
    forall n: nat ensures BoundedRead(server, maximum, n) ==> !StillReading(server, maximum, true, n) {
      assert StillReading(server, maximum, true, n) && n > 0 ==> GoesOn(server, maximum, true, n);
    }
    if horizon: nat :| !StillReading(server, maximum, true, horizon) {
      var n := StopIsFound(server, maximum, horizon);
    }
  }

  lemma {:induction false} StopIsFound<T>(server: TokenServer<T>, maximum: nat, horizon: nat) returns (n: nat)
    requires maximum > 0 && !StillReading(server, maximum, true, horizon)
    ensures n < horizon && StopsAt(server, maximum, n)
  {
    if StillReading(server, maximum, true, horizon - 1) {
      n := horizon - 1;
      assert !GoesOn(server, maximum, true, n + 1);
    } else {
      n := StopIsFound(server, maximum, horizon - 1);
    }
  }

  /** On a server with finitely many tokens the search takes at most one request more than there are tokens. */
  lemma FewRequests<T(!new)>(server: TokenServer<T>, maximum: nat, tokens: set<string>,
                             result: Result<SearchResult<T>, JiraError>, n: nat)
    requires OnlyTokens(server, tokens) && RightSearch(server, maximum, result, n)
    ensures n <= |tokens| + 1
  {
    TokensRunOut(server, maximum, n - 1, tokens);
  }

  /** Every token the server ever sends is one of these. */
  ghost predicate OnlyTokens<T(!new)>(server: TokenServer<T>, tokens: set<string>) {
    forall i: nat, cursor :: server(i, cursor).Success? && server(i, cursor).value.next.Some? ==>
      server(i, cursor).value.next.value in tokens
  }

  /** Every page read uses up one of the server's tokens. */
  lemma {:induction false} TokensRunOut<T(!new)>(server: TokenServer<T>, maximum: nat, n: nat, tokens: set<string>)
    requires StillReading(server, maximum, true, n) && OnlyTokens(server, tokens)
    ensures Seen(server, None, 1, n + 1) <= tokens && |Seen(server, None, 1, n + 1)| == n <= |tokens|
  {
    if n > 0 {
      TokensRunOut(server, maximum, n - 1, tokens);
      assert GoesOn(server, maximum, true, n);
      TokenTest(server, n);
      PageStep(server, None, n - 1);
    }
    SubsetIsNoLarger(Seen(server, None, 1, n + 1), tokens);
  }

  /** With finitely many tokens the loop cannot still be reading after one page more than there are tokens. */
  lemma FiniteTokensEnd<T(!new)>(server: TokenServer<T>, maximum: nat, tokens: set<string>)
    requires OnlyTokens(server, tokens)
    ensures !StillReading(server, maximum, true, |tokens| + 1)
  {
    if StillReading(server, maximum, true, |tokens| + 1) {
      TokensRunOut(server, maximum, |tokens| + 1, tokens);
    }
  }

  /** How many issues are still wanted after n pages. */
  ghost function LeftAfter<T>(server: TokenServer<T>, limits: PageLimits, n: nat): int {
    limits.maxItems - |ItemsAfter(server, None, n)|
  }

  /** Each request asks for a full page, or for what is still wanted if that is less. */
  ghost predicate AreSizes<T>(server: TokenServer<T>, limits: PageLimits, sizes: seq<nat>) {
    forall i :: 0 <= i < |sizes| ==> IsSize(sizes[i], limits.pageSize, LeftAfter(server, limits, i))
  }

  ghost predicate IsSize(size: nat, pageSize: nat, left: int) {
    0 < size <= pageSize && size <= left && (size == pageSize || size == left)
  }

  lemma SizeFits<T>(values: seq<T>, limits: PageLimits)
    requires limits.Valid() && |values| < limits.maxItems
    ensures RemainingPageSize(values, limits).Success?
    ensures IsSize(RemainingPageSize(values, limits).value, limits.pageSize, limits.maxItems - |values|)
  {}

  /**
   At most `maxItems` issues, with a mark when there are more. There is no page budget
   here, so the search ends only on a server for which the loop is not still reading after
   some number of pages, the ghost horizon; it makes no more requests than that.
   */
  method SearchLimited<T>(server: TokenServer<T>, limits: PageLimits, ghost horizon: nat)
    returns (result: Result<SearchResult<T>, JiraError>, requests: seq<Option<string>>, sizes: seq<nat>)
    requires limits.Valid()
    requires !StillReading(server, limits.maxItems, true, horizon)
    ensures |requests| <= horizon && |sizes| == |requests|
    ensures requests == CursorsUpTo(server, None, |requests|)
    ensures AreSizes(server, limits, sizes)
    ensures RightSearch(server, limits.maxItems, result, |requests|)
  {
    var issues: seq<T> := [];
    var token: Option<string> := None;
    var seen: set<string> := {};
    requests, sizes := [], [];
    while true
      invariant AtPage(server, limits.maxItems, true, |requests|, token, seen, issues, requests)
      invariant |issues| < limits.maxItems && |requests| == |sizes| < horizon
      invariant AreSizes(server, limits, sizes)
      decreases horizon - |requests|
    {
      ghost var n, asked := |requests|, requests;
      PageStep(server, None, n);
      var size := RemainingPageSize(issues, limits);
      SizeFits(issues, limits);
      var reply := server(|requests|, token);
      requests, sizes := requests + [token], sizes + [size.value];
      if reply.Failure? {
        BoundedFails(server, limits.maxItems, n, reply.error);
        return Failure(reply.error), requests, sizes;
      }
      var appended := AppendWithLimit(issues, reply.value.items, limits.maxItems);
      if appended.Failure? {
        BoundedFails(server, limits.maxItems, n, appended.error);
        return Failure(appended.error), requests, sizes;
      }
      if reply.value.last || |appended.value| == limits.maxItems {
        BoundedEnds(server, limits.maxItems, n);
        return Success(SearchResult(appended.value, !reply.value.last)), requests, sizes;
      }
      NextPage(server, limits.maxItems, true, n, seen, issues, asked);
      issues := appended.value;
      var next := NextToken(reply.value.next, seen);
      if next.Failure? {
        BoundedFails(server, limits.maxItems, n, next.error);
        return Failure(next.error), requests, sizes;
      }
      seen, token := seen + {next.value}, Some(next.value);
    }
  }

  lemma BoundedGoesOn<T>(server: TokenServer<T>, maximum: nat, i: nat, n: nat)
    requires StillReading(server, maximum, true, i) && BoundedRead(server, maximum, n) && maximum > 0
    ensures i < n && ReplyAt(server, None, i).Success?
    ensures |ItemsAfter(server, None, i + 1)| <= maximum
    ensures n > i + 1 ==> GoesOn(server, maximum, true, i + 1)
  {
    assert n <= i ==> GoesOn(server, maximum, true, n);
    assert n > i + 1 ==> GoesOn(server, maximum, true, i + 1);
    PrefixFits(server, i + 1, n);
  }

  lemma BoundedFails<T>(server: TokenServer<T>, maximum: nat, i: nat, error: JiraError)
    requires StillReading(server, maximum, true, i) && maximum > 0
    requires SearchError(server, maximum, i) == Some(error)
    ensures RightSearch<T>(server, maximum, Failure(error), i + 1)
  {
    forall n: nat | BoundedRead(server, maximum, n) ensures false {
      BoundedGoesOn(server, maximum, i, n);
    }
  }

  lemma BoundedEnds<T>(server: TokenServer<T>, maximum: nat, i: nat)
    requires StillReading(server, maximum, true, i) && maximum > 0
    requires ReplyAt(server, None, i).Success? && |ItemsAfter(server, None, i + 1)| <= maximum
    requires ReplyAt(server, None, i).value.last || |ItemsAfter(server, None, i + 1)| == maximum
    ensures var hasMore := !ReplyAt(server, None, i).value.last;
            RightSearch(server, maximum, Success(SearchResult(ItemsAfter(server, None, i + 1), hasMore)), i + 1)
  {
    ReadingMeans(server, maximum, true, i);
    assert BoundedRead(server, maximum, i + 1);
    forall n: nat | BoundedRead(server, maximum, n) ensures n == i + 1 {
      BoundedGoesOn(server, maximum, i, n);
    }
  }

  /** A server that answers every request with an empty page and a token never seen before. */
  function Drip(i: nat, cursor: Option<string>): Result<Page<int, string>, JiraError> {
    Success(Page([], false, Some(Tally(i + 1))))
  }

  function Tally(n: nat): (s: string)
    ensures |s| == n
  {
    seq(n, _ => 'x')
  }

  /** Without finitely many tokens the bounded search need not end: here it reads on forever. */
  lemma BoundedSearchMayNotEnd(maximum: nat, n: nat)
    requires maximum > 0
    ensures StillReading(Drip, maximum, true, n)
    ensures !BoundedRead(Drip, maximum, n)
  {
    forall i | 0 < i <= n ensures GoesOn(Drip, maximum, true, i) {
      forall j: nat | 0 < j <= i ensures CursorAt(Drip, None, j) == Some(Tally(j)) {
        assert CursorAt(Drip, None, j) == Some(Tally(j - 1 + 1));
      }
      DripIsEmpty(i);
    }
    DripIsEmpty(n);
  }

  lemma {:induction false} DripIsEmpty(n: nat)
    ensures ItemsAfter(Drip, None, n) == []
  {
    if n > 0 { DripIsEmpty(n - 1); }
  }
}
