/**
 The Bitbucket collections, which follow the address of the next page that each page
 carries. Addresses come from the server, so they are checked before they are used.
 */
module BitbucketPaging {
  import opened Wrappers
  import opened PageChain

  datatype BitbucketError = InvalidPageLimits | InvalidPagination | RequestFailed(status: nat)

  datatype CollectionLimitPolicy = RejectOverflow | Truncate

  datatype PageLimits = PageLimits(pageSize: nat, maximumItems: nat, policy: CollectionLimitPolicy) {
    /** What the constructor of page limits accepts. */
    predicate Valid() { pageSize > 0 && maximumItems > 0 }
  }

  datatype Url = Url(scheme: string, username: string, password: Option<string>, host: Option<string>,
                     port: Option<nat>, path: string, query: Option<string>, fragment: Option<string>)

  /** One page as it arrives: the next address is text from the server. */
  datatype RawPage<+T> = RawPage(values: seq<T>, next: Option<string>)

  type RawServer<T> = (nat, Url) -> Result<RawPage<T>, BitbucketError>

  type UrlChain<T> = PageServer<T, Url, BitbucketError>

  /** The base address of the client, and the address parser of the URL library. */
  datatype Client = Client(baseUrl: Url, parse: string -> Option<Url>)

  // ----- Addresses -----

  function PortOrKnownDefault(url: Url): Option<nat> {
    match url.port
    case Some(port) => Some(port)
    case None =>
      if url.scheme in {"http", "ws"} then Some(80)
      else if url.scheme in {"https", "wss"} then Some(443)
      else if url.scheme == "ftp" then Some(21)
      else None
  }

  predicate SameOrigin(candidate: Url, expected: Url) {
    && candidate.scheme == expected.scheme
    && candidate.host == expected.host
    && PortOrKnownDefault(candidate) == PortOrKnownDefault(expected)
  }

  /** An address in the collection that started the read, on the configured server, that hides nothing. */
  predicate IsSafe(client: Client, collectionPath: string, url: Url) {
    && url.fragment.None?
    && url.username == ""
    && url.password.None?
    && SameOrigin(url, client.baseUrl)
    && url.path == collectionPath
  }

  function SafePageUrl(client: Client, collectionPath: string, value: string): Result<Url, BitbucketError> {
    match client.parse(value)
    case Some(url) => if IsSafe(client, collectionPath, url) then Success(url) else Failure(InvalidPagination)
    case None => Failure(InvalidPagination)
  }

  // ----- What the server says -----

  function LoadPage<T>(server: RawServer<T>, client: Client, collectionPath: string,
                       i: nat, url: Url): Result<Page<T, Url>, BitbucketError> {
    match server(i, url)
    case Failure(error) => Failure(error)
    case Success(raw) =>
      if raw.next.None? then Success(Page(raw.values, true, None))
      else
        match SafePageUrl(client, collectionPath, raw.next.value)
        case Success(next) => Success(Page(raw.values, false, Some(next)))
        case Failure(error) => Failure(error)
  }

  /** The server as a chain of pages; without an address there is nothing to load. */
  function Chain<T>(server: RawServer<T>, client: Client, collectionPath: string): UrlChain<T> {
    (i: nat, url: Option<Url>) =>
      if url.Some? then LoadPage(server, client, collectionPath, i, url.value) else Failure(InvalidPagination)
  }

  /** A page is the last one when it carries no address. */
  ghost predicate LastHasNoNext<T>(chain: UrlChain<T>) {
    forall i: nat, url :: chain(i, url).Success? ==> (chain(i, url).value.last <==> chain(i, url).value.next.None?)
  }

  /** Too many items, or a full collection with more to come, where that is an error. */
  predicate Overflows(count: nat, hasNext: bool, maximum: nat, policy: CollectionLimitPolicy) {
    policy == RejectOverflow && (count > maximum || (count == maximum && hasNext))
  }

  /** Page n-1 arrived from an address not used before, was not the last, and left room. */
  ghost predicate GoesOn<T>(chain: UrlChain<T>, initial: Url, maximum: nat, n: nat)
    requires n > 0
  {
    && n <= maximum
    && IsNew(chain, Some(initial), 0, n - 1)
    && ReplyAt(chain, Some(initial), n - 1).Success?
    && !ReplyAt(chain, Some(initial), n - 1).value.last
    && |ItemsAfter(chain, Some(initial), n)| < maximum
  }

  ghost predicate StillReading<T>(chain: UrlChain<T>, initial: Url, maximum: nat, n: nat) {
    forall i :: 0 < i <= n ==> GoesOn(chain, initial, maximum, i)
  }

  /**
   A read in n requests, seen from the chain: the addresses all differ, no earlier page
   ended it or filled it, and page n-1 does. Overflow or an unfinished full collection is
   no read when the policy rejects it.
   */
  ghost predicate Readable<T>(chain: UrlChain<T>, initial: Url,
                              maximum: nat, policy: CollectionLimitPolicy, n: nat) {
    && 0 < n <= maximum
    && Open(chain, Some(initial), n - 1)
    && (forall i :: 0 < i < n ==> |ItemsAfter(chain, Some(initial), i)| < maximum)
    && RequestsDiffer(chain, Some(initial), n)
    && ReplyAt(chain, Some(initial), n - 1).Success?
    && var count := |ItemsAfter(chain, Some(initial), n)|;
       var last := ReplyAt(chain, Some(initial), n - 1).value.last;
       match policy
       case RejectOverflow => last && count <= maximum
       case Truncate => last || count >= maximum
  }

  function FirstItems<T>(items: seq<T>, maximum: nat): seq<T> {
    if |items| <= maximum then items else items[..maximum]
  }

  /** Page i did not arrive or, where that is an error, did not fit. */
  ghost predicate Unusable<T>(chain: UrlChain<T>, initial: Url, maximum: nat, policy: CollectionLimitPolicy, i: nat,
                              error: BitbucketError) {
    var reply := ReplyAt(chain, Some(initial), i);
    || reply == Failure(error)
    || (reply.Success? && error == InvalidPagination
        && Overflows(|ItemsAfter(chain, Some(initial), i + 1)|, !reply.value.last, maximum, policy))
  }

  /**
   The loop gives up after n requests: the next address cannot be asked for, because the
   budget is spent or it was asked for before, or the last page asked for cannot be used.
   */
  ghost predicate GivesUp<T>(chain: UrlChain<T>, initial: Url, maximum: nat, policy: CollectionLimitPolicy, n: nat,
                             error: BitbucketError) {
    || (StillReading(chain, initial, maximum, n)
        && CursorAt(chain, Some(initial), n).Some?
        && (n >= maximum || !IsNew(chain, Some(initial), 0, n))
        && error == InvalidPagination)
    || (n > 0
        && StillReading(chain, initial, maximum, n - 1)
        && IsNew(chain, Some(initial), 0, n - 1)
        && Unusable(chain, initial, maximum, policy, n - 1, error))
  }

  /**
   The right answer after n requests, all different: a collection is returned just when
   there is a read; otherwise the loop gives up there and then, with that error.
   */
  ghost predicate RightAnswer<T>(chain: UrlChain<T>, initial: Url,
                                 maximum: nat, policy: CollectionLimitPolicy,
                                 result: Result<seq<T>, BitbucketError>, n: nat) {
    && RequestsDiffer(chain, Some(initial), n)
    && (forall m: nat :: Readable(chain, initial, maximum, policy, m) ==> result.Success? && m == n)
    && match result
       case Success(items) =>
         && Readable(chain, initial, maximum, policy, n)
         && items == FirstItems(ItemsAfter(chain, Some(initial), n), maximum)
       case Failure(error) => GivesUp(chain, initial, maximum, policy, n, error)
  }

  /** With the rejecting policy a success is the whole chain. */
  lemma RejectingIsComplete<T>(chain: UrlChain<T>, initial: Url, maximum: nat, result: Result<seq<T>, BitbucketError>,
                               n: nat)
    requires RightAnswer(chain, initial, maximum, RejectOverflow, result, n) && result.Success?
    ensures EndsAfter(chain, Some(initial), n) && result.value == ItemsAfter(chain, Some(initial), n)
  {}

  /** With either policy a success is the first items of the whole chain, however long that is. */
  lemma SuccessIsPrefix<T>(chain: UrlChain<T>, initial: Url, maximum: nat, policy: CollectionLimitPolicy,
                           result: Result<seq<T>, BitbucketError>, n: nat, end: nat)
    requires RightAnswer(chain, initial, maximum, policy, result, n) && result.Success?
    requires EndsAfter(chain, Some(initial), end)
    ensures n <= end && result.value == FirstItems(ItemsAfter(chain, Some(initial), end), maximum)
  {
    if n < end {
      assert !ReplyAt(chain, Some(initial), n - 1).value.last;
      ItemsGrow(chain, Some(initial), n, end);
      FirstItemsOfPrefix(ItemsAfter(chain, Some(initial), n), ItemsAfter(chain, Some(initial), end), maximum);
    }
  }

  lemma FirstItemsOfPrefix<T>(part: seq<T>, whole: seq<T>, maximum: nat)
    requires part <= whole && |part| >= maximum
    ensures FirstItems(part, maximum) == FirstItems(whole, maximum)
  {}

  // ----- The loop -----

  lemma ReadingMeans<T>(chain: UrlChain<T>, initial: Url, maximum: nat, n: nat)
    requires StillReading(chain, initial, maximum, n)
    ensures Open(chain, Some(initial), n) && RequestsDiffer(chain, Some(initial), n)
    ensures IsNew(chain, Some(initial), 0, n) ==> RequestsDiffer(chain, Some(initial), n + 1)
    ensures forall i :: 0 < i <= n ==> |ItemsAfter(chain, Some(initial), i)| < maximum
  {
    forall i | 0 <= i < n
      ensures ReplyAt(chain, Some(initial), i).Success? && !ReplyAt(chain, Some(initial), i).value.last
      ensures IsNew(chain, Some(initial), 0, i) && |ItemsAfter(chain, Some(initial), i + 1)| < maximum
    {
      assert GoesOn(chain, initial, maximum, i + 1);
    }
    forall i, j | 0 <= i < j < n ensures CursorAt(chain, Some(initial), i) != CursorAt(chain, Some(initial), j) {
      assert GoesOn(chain, initial, maximum, j + 1);
    }
    forall i | 0 < i <= n ensures |ItemsAfter(chain, Some(initial), i)| < maximum {
      assert GoesOn(chain, initial, maximum, i);
    }
  }

  /** A read runs through every page the loop is still reading. */
  lemma ReadableGoesOn<T>(chain: UrlChain<T>, initial: Url,
                          maximum: nat, policy: CollectionLimitPolicy, i: nat, n: nat)
    requires StillReading(chain, initial, maximum, i) && Readable(chain, initial, maximum, policy, n)
    ensures i < n && (CursorAt(chain, Some(initial), i).Some? ==> IsNew(chain, Some(initial), 0, i))
    ensures n > i + 1 ==> ReplyAt(chain, Some(initial), i).Success? && !ReplyAt(chain, Some(initial), i).value.last
    ensures n > i + 1 ==> |ItemsAfter(chain, Some(initial), i + 1)| < maximum
  {
    assert n <= i ==> GoesOn(chain, initial, maximum, n);
  }

  /** There is no read when page i cannot be asked for any more. */
  lemma CannotAsk<T>(chain: UrlChain<T>, initial: Url, maximum: nat, policy: CollectionLimitPolicy, i: nat)
    requires StillReading(chain, initial, maximum, i) && CursorAt(chain, Some(initial), i).Some?
    requires i >= maximum || !IsNew(chain, Some(initial), 0, i)
    ensures RightAnswer<T>(chain, initial, maximum, policy, Failure(InvalidPagination), i)
  {
    ReadingMeans(chain, initial, maximum, i);
    forall m: nat | Readable(chain, initial, maximum, policy, m) ensures false {
      ReadableGoesOn(chain, initial, maximum, policy, i, m);
    }
  }

  /** There is no read when page i does not arrive or, if that is an error, does not fit. */
  lemma CannotKeep<T>(chain: UrlChain<T>, initial: Url, maximum: nat, policy: CollectionLimitPolicy, i: nat,
                      error: BitbucketError)
    requires StillReading(chain, initial, maximum, i) && IsNew(chain, Some(initial), 0, i)
    requires Unusable(chain, initial, maximum, policy, i, error)
    ensures RightAnswer<T>(chain, initial, maximum, policy, Failure(error), i + 1)
  {
    ReadingMeans(chain, initial, maximum, i);
    forall m: nat | Readable(chain, initial, maximum, policy, m) ensures false {
      ReadableGoesOn(chain, initial, maximum, policy, i, m);
    }
  }

  lemma ReadsOn<T>(chain: UrlChain<T>, initial: Url, maximum: nat, i: nat)
    requires StillReading(chain, initial, maximum, i) && i < maximum && IsNew(chain, Some(initial), 0, i)
    requires ReplyAt(chain, Some(initial), i).Success? && !ReplyAt(chain, Some(initial), i).value.last
    requires |ItemsAfter(chain, Some(initial), i + 1)| < maximum
    ensures StillReading(chain, initial, maximum, i + 1)
  {}

  lemma ReadIsComplete<T>(chain: UrlChain<T>, initial: Url,
                          maximum: nat, policy: CollectionLimitPolicy, i: nat)
    requires StillReading(chain, initial, maximum, i) && i < maximum && IsNew(chain, Some(initial), 0, i)
    requires ReplyAt(chain, Some(initial), i).Success?
    requires var count := |ItemsAfter(chain, Some(initial), i + 1)|;
             var last := ReplyAt(chain, Some(initial), i).value.last;
             if policy == RejectOverflow then last && count <= maximum else last || count >= maximum
    ensures RightAnswer(chain, initial, maximum, policy,
                        Success(FirstItems(ItemsAfter(chain, Some(initial), i + 1), maximum)), i + 1)
  {
    ReadingMeans(chain, initial, maximum, i);
    assert Readable(chain, initial, maximum, policy, i + 1);
    forall m: nat | Readable(chain, initial, maximum, policy, m) ensures m == i + 1 {
      ReadableGoesOn(chain, initial, maximum, policy, i, m);
    }
  }

  /** The address is in the collection that started the read, on the configured server, and hides nothing. */
  ghost predicate StaysInCollection(client: Client, collectionPath: string, url: Url) {
    && url.scheme == client.baseUrl.scheme
    && url.host == client.baseUrl.host
    && PortOrKnownDefault(url) == PortOrKnownDefault(client.baseUrl)
    && url.path == collectionPath
    && url.username == "" && url.password == None && url.fragment == None
  }

  /** A next address is followed exactly if it can be read as an address that stays in the collection. */
  lemma FollowedIff(client: Client, collectionPath: string, value: string)
    ensures SafePageUrl(client, collectionPath, value).Success? <==>
              client.parse(value).Some? && StaysInCollection(client, collectionPath, client.parse(value).value)
    ensures SafePageUrl(client, collectionPath, value).Success? ==>
              Some(SafePageUrl(client, collectionPath, value).value) == client.parse(value)
    ensures SafePageUrl(client, collectionPath, value).Failure? ==>
              SafePageUrl(client, collectionPath, value).error == InvalidPagination
  {}

  /** The port that counts: the one in the address, or the usual one of its scheme. */
  lemma PortsAre(url: Url)
    ensures url.port.Some? ==> PortOrKnownDefault(url) == url.port
    ensures url.port.None? && url.scheme == "https" ==> PortOrKnownDefault(url) == Some(443)
    ensures url.port.None? && url.scheme == "http" ==> PortOrKnownDefault(url) == Some(80)
    ensures url.port.None? && url.scheme == "wss" ==> PortOrKnownDefault(url) == Some(443)
    ensures url.port.None? && url.scheme == "ws" ==> PortOrKnownDefault(url) == Some(80)
    ensures url.port.None? && url.scheme == "ftp" ==> PortOrKnownDefault(url) == Some(21)
    ensures url.port.None? && url.scheme !in {"http", "https", "ws", "wss", "ftp"} ==> PortOrKnownDefault(url) == None
  {}

  /** After the first request every address is one that passed the check. */
  lemma NextIsSafe<T>(server: RawServer<T>, client: Client, collectionPath: string, initial: Url, i: nat)
    requires i > 0 && CursorAt(Chain(server, client, collectionPath), Some(initial), i).Some?
    ensures var url := CursorAt(Chain(server, client, collectionPath), Some(initial), i).value;
            StaysInCollection(client, collectionPath, url)
  {}

  // ----- What was read, in terms of the server alone -----

  /** The server's answer to the i-th request. */
  ghost function RawReply<T>(server: RawServer<T>, requests: seq<Option<Url>>, i: nat):
    Result<RawPage<T>, BitbucketError>
    requires i < |requests| && requests[i].Some?
  {
    server(i, requests[i].value)
  }

  /** The values that the server sent, page after page. */
  ghost function RawValues<T>(server: RawServer<T>, requests: seq<Option<Url>>, n: nat): seq<T>
    requires n <= |requests|
    requires forall i :: 0 <= i < n ==> requests[i].Some? && RawReply(server, requests, i).Success?
  {
    if n == 0 then []
    else RawValues(server, requests, n - 1) + RawReply(server, requests, n - 1).value.values
  }

  /** The page at an address, asked for in request i, gives the next address, which is safe to follow. */
  ghost predicate LeadsTo<T>(server: RawServer<T>, client: Client, collectionPath: string, i: nat, from: Url,
                             next: Option<Url>) {
    && server(i, from).Success?
    && server(i, from).value.next.Some?
    && client.parse(server(i, from).value.next.value) == next
    && next.Some? && StaysInCollection(client, collectionPath, next.value)
  }

  /** The first request is for the initial address, and each later one for the address on the page before it. */
  ghost predicate FollowsAddresses<T>(server: RawServer<T>, client: Client, initial: Url, requests: seq<Option<Url>>) {
    && (forall i :: 0 <= i < |requests| ==> requests[i].Some?)
    && (requests != [] ==> requests[0] == Some(initial))
    && forall i :: 0 < i < |requests| ==>
         LeadsTo(server, client, initial.path, i - 1, requests[i - 1].value, requests[i])
  }

  /** All pages arrived, and what was returned is the first of what they hold. */
  ghost predicate ReturnsValues<T>(server: RawServer<T>, requests: seq<Option<Url>>, maximum: nat, items: seq<T>) {
    && (forall i :: 0 <= i < |requests| ==> requests[i].Some? && RawReply(server, requests, i).Success?)
    && items == FirstItems(RawValues(server, requests, |requests|), maximum)
    && requests != []
    && (|items| < maximum ==> RawReply(server, requests, |requests| - 1).value.next.None?)
  }

  /** An error that is not about paging is the server's answer to the last request. */
  ghost predicate HasCause<T>(server: RawServer<T>, requests: seq<Option<Url>>, error: BitbucketError) {
    error == InvalidPagination
    || (requests != [] && requests[|requests| - 1].Some?
        && RawReply(server, requests, |requests| - 1) == Failure(error))
  }

  /** What the client makes of one answer of the server. */
  ghost predicate Mirrors<T>(reply: Result<Page<T, Url>, BitbucketError>, raw: Result<RawPage<T>, BitbucketError>,
                             client: Client, collectionPath: string) {
    match (reply, raw)
    case (Success(page), Success(raw)) =>
      && page.items == raw.values
      && page.last == raw.next.None?
      && if raw.next.None? then page.next == None
         else
           && page.next.Some?
           && client.parse(raw.next.value) == page.next
           && StaysInCollection(client, collectionPath, page.next.value)
    case (Failure(error), Failure(cause)) => error == cause
    case (Failure(error), Success(raw)) =>
      && error == InvalidPagination && raw.next.Some?
      && (client.parse(raw.next.value).Some? ==>
            !StaysInCollection(client, collectionPath, client.parse(raw.next.value).value))
    case _ => false
  }

  ghost predicate MirrorsServer<T>(chain: UrlChain<T>, server: RawServer<T>, client: Client, collectionPath: string) {
    forall i: nat, url: Url :: Mirrors(chain(i, Some(url)), server(i, url), client, collectionPath)
  }

  lemma ChainMirrors<T>(server: RawServer<T>, client: Client, collectionPath: string)
    ensures MirrorsServer(Chain(server, client, collectionPath), server, client, collectionPath)
  {
    var chain := Chain(server, client, collectionPath);
    forall i: nat, url: Url ensures Mirrors(chain(i, Some(url)), server(i, url), client, collectionPath) {
      var raw := server(i, url);
      if raw.Success? && raw.value.next.Some? { FollowedIff(client, collectionPath, raw.value.next.value); }
    }
  }

  /** The requests are those of the chain. */
  ghost predicate AreRequests<T>(chain: UrlChain<T>, initial: Url, requests: seq<Option<Url>>) {
    forall i :: 0 <= i < |requests| ==> requests[i] == CursorAt(chain, Some(initial), i)
  }

  lemma {:induction false} CursorsAreThere<T>(chain: UrlChain<T>, server: RawServer<T>, client: Client, initial: Url,
                                              n: nat)
    requires MirrorsServer(chain, server, client, initial.path) && Open(chain, Some(initial), n)
    ensures CursorAt(chain, Some(initial), n).Some?
  {
    if n > 0 {
      CursorsAreThere(chain, server, client, initial, n - 1);
      var url := CursorAt(chain, Some(initial), n - 1).value;
      assert Mirrors(chain(n - 1, Some(url)), server(n - 1, url), client, initial.path);
      assert !ReplyAt(chain, Some(initial), n - 1).value.last;
    }
  }

  lemma RawAddresses<T>(chain: UrlChain<T>, server: RawServer<T>, client: Client, initial: Url,
                        requests: seq<Option<Url>>)
    requires MirrorsServer(chain, server, client, initial.path) && AreRequests(chain, initial, requests)
    requires requests != [] ==> Open(chain, Some(initial), |requests| - 1)
    ensures FollowsAddresses(server, client, initial, requests)
  {
    forall i: nat | i < |requests| ensures requests[i].Some? {
      CursorsAreThere(chain, server, client, initial, i);
    }
    forall i: nat | 0 < i < |requests|
      ensures LeadsTo(server, client, initial.path, i - 1, requests[i - 1].value, requests[i])
    {
      var url := requests[i - 1].value;
      assert Mirrors(chain(i - 1, Some(url)), server(i - 1, url), client, initial.path);
      assert !ReplyAt(chain, Some(initial), i - 1).value.last;
    }
  }

  lemma {:induction false} RawItems<T>(chain: UrlChain<T>, server: RawServer<T>, client: Client, initial: Url,
                                       requests: seq<Option<Url>>, n: nat)
    requires MirrorsServer(chain, server, client, initial.path) && AreRequests(chain, initial, requests)
    requires n <= |requests|
    requires forall i :: 0 <= i < n ==> requests[i].Some? && ReplyAt(chain, Some(initial), i).Success?
    ensures forall i :: 0 <= i < n ==> RawReply(server, requests, i).Success?
    ensures RawValues(server, requests, n) == ItemsAfter(chain, Some(initial), n)
    ensures n > 0 && !ReplyAt(chain, Some(initial), n - 1).value.last ==>
              RawReply(server, requests, n - 1).value.next.Some?
    ensures n > 0 && ReplyAt(chain, Some(initial), n - 1).value.last ==>
              RawReply(server, requests, n - 1).value.next.None?
  {
    if n > 0 {
      RawItems(chain, server, client, initial, requests, n - 1);
      var url := requests[n - 1].value;
      assert Mirrors(chain(n - 1, Some(url)), server(n - 1, url), client, initial.path);
      assert ReplyAt(chain, Some(initial), n - 1) == chain(n - 1, Some(url));
      assert RawReply(server, requests, n - 1).Success?;
    }
  }

  /** Appends what fits; the flag says whether the collection is full. */
  method AppendPage<T>(target: seq<T>, values: seq<T>, limits: PageLimits, hasNext: bool)
    returns (appended: Result<(seq<T>, bool), BitbucketError>)
    requires |target| <= limits.maximumItems
    ensures appended.Failure? <==> Overflows(|target| + |values|, hasNext, limits.maximumItems, limits.policy)
    ensures appended.Failure? ==> appended.error == InvalidPagination
    ensures appended.Success? ==>
              && appended.value.0 == FirstItems(target + values, limits.maximumItems)
              && (appended.value.1 <==> |target| + |values| >= limits.maximumItems)
  {
    var remaining := limits.maximumItems - |target|;
    if |values| > remaining && limits.policy == RejectOverflow { return Failure(InvalidPagination); }
    var items := target + FirstItems(values, remaining);
    assert items == FirstItems(target + values, limits.maximumItems);
    var limitReached := |items| == limits.maximumItems;
    if limitReached && hasNext && limits.policy == RejectOverflow { return Failure(InvalidPagination); }
    appended := Success((items, limitReached));
  }

  /** The state of the loop before request n. */
  ghost predicate AtPage<T>(chain: UrlChain<T>, initial: Url, maximum: nat, n: nat, next: Url, seen: set<Url>,
                            items: seq<T>, requests: seq<Option<Url>>) {
    && StillReading(chain, initial, maximum, n)
    && CursorAt(chain, Some(initial), n) == Some(next)
    && seen == Seen(chain, Some(initial), 0, n)
    && |seen| == n <= maximum
    && items == ItemsAfter(chain, Some(initial), n)
    && |items| < maximum
    && requests == CursorsUpTo(chain, Some(initial), n)
    && |requests| == n
  }

  /** A fresh address is asked for, and it is remembered. */
  lemma Ask<T>(chain: UrlChain<T>, initial: Url, maximum: nat, policy: CollectionLimitPolicy, n: nat, next: Url,
               seen: set<Url>, items: seq<T>, requests: seq<Option<Url>>)
    requires AtPage(chain, initial, maximum, n, next, seen, items, requests)
    ensures if |seen| >= maximum || next in seen
            then RightAnswer<T>(chain, initial, maximum, policy, Failure(InvalidPagination), n)
            else
              && IsNew(chain, Some(initial), 0, n)
              && seen + {next} == Seen(chain, Some(initial), 0, n + 1)
  {
    UnseenMeansNew(chain, Some(initial), 0, n);
    SeenGrows(chain, Some(initial), 0, n);
    if |seen| >= maximum || next in seen { CannotAsk(chain, initial, maximum, policy, n); }
  }

  lemma NextPage<T>(chain: UrlChain<T>, initial: Url, maximum: nat, n: nat, next: Url, seen: set<Url>, items: seq<T>,
                    requests: seq<Option<Url>>)
    requires AtPage(chain, initial, maximum, n, next, seen, items, requests)
    requires n < maximum && next !in seen && IsNew(chain, Some(initial), 0, n)
    requires seen + {next} == Seen(chain, Some(initial), 0, n + 1)
    requires var reply := ReplyAt(chain, Some(initial), n);
             reply.Success? && !reply.value.last && reply.value.next.Some?
    requires |ItemsAfter(chain, Some(initial), n + 1)| < maximum
    ensures var page := ReplyAt(chain, Some(initial), n).value;
            AtPage(chain, initial, maximum, n + 1, page.next.value, seen + {next}, items + page.items,
                   requests + [Some(next)])
  {
    PageStep(chain, Some(initial), n);
    ReadsOn(chain, initial, maximum, n);
  }

  /** The loop, for any way of loading a page. The requests made are reported beside the result. */
  method FollowPages<T>(chain: UrlChain<T>, initial: Url, limits: PageLimits)
    returns (result: Result<seq<T>, BitbucketError>, requests: seq<Option<Url>>)
    requires limits.Valid() && LastHasNoNext(chain)
    ensures |requests| <= limits.maximumItems
    ensures requests == CursorsUpTo(chain, Some(initial), |requests|)
    ensures RightAnswer(chain, initial, limits.maximumItems, limits.policy, result, |requests|)
  {
    var maximum, policy := limits.maximumItems, limits.policy;
    var items: seq<T> := [];
    var url := initial;
    var seen: set<Url> := {};
    requests := [];
    while true
      invariant AtPage(chain, initial, maximum, |requests|, url, seen, items, requests)
      decreases maximum - |requests|
    {
      ghost var n, asked := |requests|, requests;
      PageStep(chain, Some(initial), n);
      Ask(chain, initial, maximum, policy, n, url, seen, items, requests);
      if |seen| >= maximum || url in seen { return Failure(InvalidPagination), requests; }
      var page := chain(|requests|, Some(url));
      requests := requests + [Some(url)];
      if page.Failure? {
        CannotKeep(chain, initial, maximum, policy, n, page.error);
        return Failure(page.error), requests;
      }
      var appended := AppendPage(items, page.value.items, limits, page.value.next.Some?);
      if appended.Failure? {
        CannotKeep(chain, initial, maximum, policy, n, InvalidPagination);
        return Failure(appended.error), requests;
      }
      if appended.value.1 || page.value.next.None? {
        ReadIsComplete(chain, initial, maximum, policy, n);
        return Success(appended.value.0), requests;
      }
      NextPage(chain, initial, maximum, n, url, seen, items, asked);
      items, seen, url := appended.value.0, seen + {url}, page.value.next.value;
    }
  }

  /** A right answer for the chain, seen at the server. */
  lemma RawAnswer<T>(server: RawServer<T>, client: Client, initial: Url, limits: PageLimits,
                     result: Result<seq<T>, BitbucketError>, requests: seq<Option<Url>>)
    requires requests == CursorsUpTo(Chain(server, client, initial.path), Some(initial), |requests|)
    requires RightAnswer(Chain(server, client, initial.path), initial, limits.maximumItems, limits.policy, result,
                         |requests|)
    ensures FollowsAddresses(server, client, initial, requests)
    ensures result.Success? ==> ReturnsValues(server, requests, limits.maximumItems, result.value)
    ensures result.Failure? ==> HasCause(server, requests, result.error)
  {
    var chain, n := Chain(server, client, initial.path), |requests|;
    ChainMirrors(server, client, initial.path);
    forall i | 0 <= i < n ensures requests[i] == CursorAt(chain, Some(initial), i) {
      CursorListed(chain, Some(initial), n, i);
    }
    if result.Failure? {
      OpenWhenGivingUp(chain, initial, limits.maximumItems, limits.policy, n, result.error);
      RawAddresses(chain, server, client, initial, requests);
      if result.error != InvalidPagination {
        var url := requests[n - 1].value;
        assert Mirrors(chain(n - 1, Some(url)), server(n - 1, url), client, initial.path);
      }
    } else {
      RawSuccess(chain, server, client, initial, limits, result.value, requests);
    }
  }

  lemma RawSuccess<T>(chain: UrlChain<T>, server: RawServer<T>, client: Client, initial: Url, limits: PageLimits,
                      items: seq<T>, requests: seq<Option<Url>>)
    requires MirrorsServer(chain, server, client, initial.path) && AreRequests(chain, initial, requests)
    requires Readable(chain, initial, limits.maximumItems, limits.policy, |requests|)
    requires items == FirstItems(ItemsAfter(chain, Some(initial), |requests|), limits.maximumItems)
    ensures FollowsAddresses(server, client, initial, requests)
    ensures ReturnsValues(server, requests, limits.maximumItems, items)
  {
    var n := |requests|;
    RawAddresses(chain, server, client, initial, requests);
    RawItems(chain, server, client, initial, requests, n);
  }

  lemma OpenWhenGivingUp<T>(chain: UrlChain<T>, initial: Url, maximum: nat, policy: CollectionLimitPolicy, n: nat,
                            error: BitbucketError)
    requires GivesUp(chain, initial, maximum, policy, n, error)
    ensures n > 0 ==> Open(chain, Some(initial), n - 1)
  {
    if StillReading(chain, initial, maximum, n) {
      ReadingMeans(chain, initial, maximum, n);
    } else {
      ReadingMeans(chain, initial, maximum, n - 1);
    }
  }

  /**
   Every page of a collection, read from the server and from nowhere else: the values of
   the pages in their order, each page found at the address that the one before it gives.
   */
  method CollectPages<T>(server: RawServer<T>, client: Client, initial: Url, limits: PageLimits)
    returns (result: Result<seq<T>, BitbucketError>, requests: seq<Option<Url>>)
    requires limits.Valid()
    ensures |requests| <= limits.maximumItems
    ensures requests == CursorsUpTo(Chain(server, client, initial.path), Some(initial), |requests|)
    ensures FollowsAddresses(server, client, initial, requests)
    ensures result.Success? ==> ReturnsValues(server, requests, limits.maximumItems, result.value)
    ensures result.Failure? ==> HasCause(server, requests, result.error)
    ensures RightAnswer(Chain(server, client, initial.path), initial, limits.maximumItems, limits.policy, result,
                        |requests|)
  {
    result, requests := FollowPages(Chain(server, client, initial.path), initial, limits);
    RawAnswer(server, client, initial, limits, result, requests);
  }

  // ----- Lists with a requested length -----

  function NewLimits(pageSize: nat, maximumItems: nat): Result<PageLimits, BitbucketError> {
    if pageSize == 0 || maximumItems == 0 then Failure(InvalidPageLimits)
    else Success(PageLimits(pageSize, maximumItems, RejectOverflow))
  }

  function AtMost(a: nat, b: nat): nat { if a <= b then a else b }

  /** Fewer items were asked for than are configured. */
  predicate AsksForFewer(requested: Option<nat>, configured: nat) { requested.Some? && requested.value < configured }

  /** Asking for fewer items than configured cuts the list off there; any other list has to fit. */
  function ListLimits(requested: Option<nat>, pageSize: nat, configured: nat): Result<PageLimits, BitbucketError> {
    var maximum := AtMost(Or(requested, configured), configured);
    match NewLimits(AtMost(pageSize, maximum), maximum)
    case Failure(error) => Failure(error)
    case Success(limits) =>
      Success(if AsksForFewer(requested, configured) then limits.(policy := Truncate) else limits)
  }

  /**
   The limits of a list: as many items as were asked for and are configured, pages no
   larger than that, and an overflow is cut off exactly if fewer items were asked for.
   */
  lemma ListLimitsAre(requested: Option<nat>, pageSize: nat, configured: nat)
    ensures ListLimits(requested, pageSize, configured).Success? <==>
              pageSize > 0 && configured > 0 && requested != Some(0)
    ensures var limits := ListLimits(requested, pageSize, configured);
            && (limits.Failure? ==> limits.error == InvalidPageLimits)
            && (limits.Success? ==>
                  && limits.value.maximumItems <= configured
                  && (requested.Some? ==> limits.value.maximumItems <= requested.value)
                  && (limits.value.maximumItems == configured || Some(limits.value.maximumItems) == requested)
                  && limits.value.pageSize <= limits.value.maximumItems
                  && limits.value.pageSize <= pageSize
                  && (limits.value.pageSize == limits.value.maximumItems || limits.value.pageSize == pageSize)
                  && (limits.value.policy == Truncate <==> requested.Some? && requested.value < configured))
  {}

  /**
   The list that was asked for, after n requests: its first items if it was asked for
   with a length, whatever lies behind them; otherwise the whole list.
   */
  ghost predicate IsAskedList<T>(chain: UrlChain<T>, initial: Url, requested: Option<nat>, configured: nat,
                                 items: seq<T>, n: nat) {
    if requested.Some? && requested.value < configured then
      && items == FirstItems(ItemsAfter(chain, Some(initial), n), requested.value)
      && (|items| < requested.value ==> EndsAfter(chain, Some(initial), n))
      && forall end: nat :: EndsAfter(chain, Some(initial), end) ==>
           items == FirstItems(ItemsAfter(chain, Some(initial), end), requested.value)
    else
      && EndsAfter(chain, Some(initial), n)
      && items == ItemsAfter(chain, Some(initial), n)
      && |items| <= configured
  }

  lemma AskedListIs<T>(chain: UrlChain<T>, initial: Url, requested: Option<nat>, pageSize: nat, configured: nat,
                       result: Result<seq<T>, BitbucketError>, n: nat)
    requires ListLimits(requested, pageSize, configured).Success? && result.Success?
    requires var limits := ListLimits(requested, pageSize, configured).value;
             RightAnswer(chain, initial, limits.maximumItems, limits.policy, result, n)
    ensures IsAskedList(chain, initial, requested, configured, result.value, n)
  {
    var limits := ListLimits(requested, pageSize, configured).value;
    if AsksForFewer(requested, configured) {
      forall end: nat | EndsAfter(chain, Some(initial), end)
        ensures result.value == FirstItems(ItemsAfter(chain, Some(initial), end), requested.value)
      {
        SuccessIsPrefix(chain, initial, limits.maximumItems, Truncate, result, n, end);
      }
    } else {
      RejectingIsComplete(chain, initial, limits.maximumItems, result, n);
    }
  }

  /** A list of the service, from the address that belongs to the page size. */
  method ListItems<T>(server: RawServer<T>, client: Client, address: nat -> Url,
                      requested: Option<nat>, pageSize: nat, configured: nat)
    returns (result: Result<seq<T>, BitbucketError>, requests: seq<Option<Url>>)
    ensures pageSize == 0 || configured == 0 || requested == Some(0) ==>
              result == Failure(InvalidPageLimits) && requests == []
    ensures pageSize > 0 && configured > 0 && requested != Some(0) ==>
              var limits := ListLimits(requested, pageSize, configured);
              && limits.Success?
              && var initial := address(limits.value.pageSize);
                 var chain := Chain(server, client, initial.path);
                 && |requests| <= limits.value.maximumItems
                 && RightAnswer(chain, initial, limits.value.maximumItems, limits.value.policy, result, |requests|)
                 && FollowsAddresses(server, client, initial, requests)
                 && (result.Failure? ==> HasCause(server, requests, result.error))
                 && (result.Success? ==>
                       && ReturnsValues(server, requests, limits.value.maximumItems, result.value)
                       && IsAskedList(chain, initial, requested, configured, result.value, |requests|))
  {
    var limits := ListLimits(requested, pageSize, configured);
    if limits.Failure? { return Failure(limits.error), []; }
    var initial := address(limits.value.pageSize);
    result, requests := CollectPages(server, client, initial, limits.value);
    if result.Success? {
      AskedListIs(Chain(server, client, initial.path), initial, requested, pageSize, configured, result, |requests|);
    }
  }
}
