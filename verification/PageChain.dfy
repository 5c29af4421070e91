/**
 Following a chain of pages on a server that is not trusted. The server is any
 function of the request number and the cursor, so it may change its answers from one
 request to the next. The chain below is what the server says, independent of any loop.
 */
module PageChain {
  import opened Wrappers

  /** One page: its items, whether the server calls it the last one, and the next cursor. */
  datatype Page<+T, +K> = Page(items: seq<T>, last: bool, next: Option<K>)

  /** The answer to the n-th request, for every cursor. */
  type PageServer<T, !K, E> = (nat, Option<K>) -> Result<Page<T, K>, E>

  /** The cursor of the i-th request when every page is followed. */
  function CursorAt<T, K, E>(server: PageServer<T, K, E>, first: Option<K>, i: nat): Option<K> {
    if i == 0 then first
    else
      match server(i - 1, CursorAt(server, first, i - 1))
      case Success(page) => page.next
      case Failure(_) => None
  }

  function ReplyAt<T, K, E>(server: PageServer<T, K, E>, first: Option<K>, i: nat): Result<Page<T, K>, E> {
    server(i, CursorAt(server, first, i))
  }

  /** The cursors of the first `n` requests. */
  function CursorsUpTo<T, K, E>(server: PageServer<T, K, E>, first: Option<K>, n: nat): seq<Option<K>> {
    if n == 0 then [] else CursorsUpTo(server, first, n - 1) + [CursorAt(server, first, n - 1)]
  }

  /** The items of the first `n` pages, in order. */
  function ItemsAfter<T, K, E>(server: PageServer<T, K, E>, first: Option<K>, n: nat): seq<T> {
    if n == 0 then []
    else
      ItemsAfter(server, first, n - 1)
      + match ReplyAt(server, first, n - 1)
        case Success(page) => page.items
        case Failure(_) => []
  }

  /** The first `n` pages arrived and none of them was the last. */
  ghost predicate Open<T, K, E>(server: PageServer<T, K, E>, first: Option<K>, n: nat) {
    forall i :: 0 <= i < n ==> ReplyAt(server, first, i).Success? && !ReplyAt(server, first, i).value.last
  }

  /** The chain ends: pages 0 to n-1 arrived and only page n-1 was the last. */
  ghost predicate EndsAfter<T, K, E>(server: PageServer<T, K, E>, first: Option<K>, n: nat) {
    && n > 0
    && Open(server, first, n - 1)
    && ReplyAt(server, first, n - 1).Success?
    && ReplyAt(server, first, n - 1).value.last
  }

  /** Request n has a cursor, and no request from `from` on had the same one. */
  ghost predicate IsNew<T, K, E>(server: PageServer<T, K, E>, first: Option<K>, from: nat, n: nat) {
    && CursorAt(server, first, n).Some?
    && forall i :: from <= i < n ==> CursorAt(server, first, i) != CursorAt(server, first, n)
  }

  /** The first n requests all ask for something different. */
  ghost predicate RequestsDiffer<T, K, E>(server: PageServer<T, K, E>, first: Option<K>, n: nat) {
    forall i, j :: 0 <= i < j < n ==> CursorAt(server, first, i) != CursorAt(server, first, j)
  }

  /** The cursors of requests from..upTo, as the set a loop remembers. */
  ghost function Seen<T, K, E>(server: PageServer<T, K, E>, first: Option<K>, from: nat, upTo: nat): set<K> {
    set i | from <= i < upTo && CursorAt(server, first, i).Some? :: CursorAt(server, first, i).value
  }

  lemma SeenGrows<T, K, E>(server: PageServer<T, K, E>, first: Option<K>, from: nat, n: nat)
    requires from <= n && CursorAt(server, first, n).Some?
    ensures Seen(server, first, from, n + 1) == Seen(server, first, from, n) + {CursorAt(server, first, n).value}
  {}

  /** Remembering the cursors in a set finds every repetition. */
  lemma UnseenMeansNew<T, K, E>(server: PageServer<T, K, E>, first: Option<K>, from: nat, n: nat)
    requires CursorAt(server, first, n).Some?
    ensures CursorAt(server, first, n).value !in Seen(server, first, from, n) <==> IsNew(server, first, from, n)
  {}

  /** What one more request adds. */
  lemma PageStep<T, K, E>(server: PageServer<T, K, E>, first: Option<K>, n: nat)
    ensures CursorsUpTo(server, first, n + 1) == CursorsUpTo(server, first, n) + [CursorAt(server, first, n)]
    ensures ReplyAt(server, first, n) == server(n, CursorAt(server, first, n))
    ensures ReplyAt(server, first, n).Success? ==>
              && CursorAt(server, first, n + 1) == ReplyAt(server, first, n).value.next
              && ItemsAfter(server, first, n + 1)
                 == ItemsAfter(server, first, n) + ReplyAt(server, first, n).value.items
  {}

  lemma {:induction false} CursorListed<T, K, E>(server: PageServer<T, K, E>, first: Option<K>, n: nat, i: nat)
    requires i < n
    ensures |CursorsUpTo(server, first, n)| == n && CursorsUpTo(server, first, n)[i] == CursorAt(server, first, i)
  {
    if n > 1 { CursorListed(server, first, n - 1, if i < n - 1 then i else 0); }
  }

  lemma {:induction false} ItemsGrow<T, K, E>(server: PageServer<T, K, E>, first: Option<K>, m: nat, n: nat)
    requires m <= n
    ensures ItemsAfter(server, first, m) <= ItemsAfter(server, first, n)
  {
    if m < n { ItemsGrow(server, first, m, n - 1); }
  }

  lemma {:induction false} SubsetIsNoLarger<K>(a: set<K>, b: set<K>)
    requires a <= b
    ensures |a| <= |b|
  {
    if a != {} {
      var k :| k in a;
      SubsetIsNoLarger(a - {k}, b - {k});
    }
  }
}
