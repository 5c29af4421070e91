/**
 Orders and stable sorting. `SortBy` models the standard library's stable `sort_by`:
 elements that compare equal keep the order they had in the input.
 */
module Ordering {

  // ----- The order of strings -----

  /** Lexicographic order by code point, the order of Rust strings. */
  predicate StringLe(a: string, b: string) {
    if a == [] then true
    else if b == [] then false
    else if a[0] != b[0] then a[0] < b[0]
    else StringLe(a[1..], b[1..])
  }

  lemma {:induction false} StringLeTotal(a: string, b: string)
    ensures StringLe(a, b) || StringLe(b, a)
    ensures StringLe(a, b) && StringLe(b, a) ==> a == b
  {
    if a != [] && b != [] && a[0] == b[0] {
      StringLeTotal(a[1..], b[1..]);
      assert a == [a[0]] + a[1..] && b == [b[0]] + b[1..];
    }
  }

  lemma {:induction false} StringLeTransitive(a: string, b: string, c: string)
    requires StringLe(a, b) && StringLe(b, c)
    ensures StringLe(a, c)
  {
    if a != [] && b != [] && c != [] && a[0] == b[0] == c[0] {
      StringLeTransitive(a[1..], b[1..], c[1..]);
    }
  }

  /** Which of two different strings comes first: a prefix, or the one with the smaller character where they part. */
  lemma {:induction false} StringLeIs(a: string, b: string)
    ensures StringLe(a, b) <==>
              a <= b || exists k :: 0 <= k < |a| && k < |b| && a[..k] == b[..k] && a[k] < b[k]
  {
    if a != [] && b != [] && a[0] == b[0] {
      StringLeIs(a[1..], b[1..]);
      assert a == [a[0]] + a[1..] && b == [b[0]] + b[1..];
      if k :| 0 <= k < |a[1..]| && k < |b[1..]| && a[1..][..k] == b[1..][..k] && a[1..][k] < b[1..][k] {
        assert a[..k + 1] == [a[0]] + a[1..][..k] && b[..k + 1] == [b[0]] + b[1..][..k];
        assert a[k + 1] < b[k + 1];
      }
      if k :| 0 <= k < |a| && k < |b| && a[..k] == b[..k] && a[k] < b[k] {
        assert k > 0 && a[1..][..k - 1] == a[..k][1..] == b[..k][1..] == b[1..][..k - 1];
        assert a[1..][k - 1] < b[1..][k - 1];
      }
    } else if a != [] && b != [] {
      assert a[..0] == b[..0];
    }
  }

  /** The three laws of a total order, for strings, in quantified form. */
  lemma StringOrder()
    ensures TotalPreorder(StringLe)
    ensures forall a, b :: StringLe(a, b) && StringLe(b, a) ==> a == b
  {
    forall a: string, b: string
      ensures StringLe(a, b) || StringLe(b, a)
      ensures StringLe(a, b) && StringLe(b, a) ==> a == b
    {
      StringLeTotal(a, b);
    }
    forall a: string, b: string, c: string | StringLe(a, b) && StringLe(b, c)
      ensures StringLe(a, c)
    {
      StringLeTransitive(a, b, c);
    }
  }

  // ----- Orders in general -----

  ghost predicate TotalPreorder<T(!new)>(le: (T, T) -> bool) {
    && (forall x, y :: le(x, y) || le(y, x))
    && (forall x, y, z :: le(x, y) && le(y, z) ==> le(x, z))
  }

  ghost predicate Sorted<T>(s: seq<T>, le: (T, T) -> bool) {
    forall i, j :: 0 <= i < j < |s| ==> le(s[i], s[j])
  }

  predicate Distinct<T(==)>(s: seq<T>) {
    forall i, j :: 0 <= i < j < |s| ==> s[i] != s[j]
  }

  // ----- Stable sorting -----

  /** Puts `x` behind every element it does not come before. */
  function InsertBy<T>(s: seq<T>, x: T, le: (T, T) -> bool): (r: seq<T>)
    ensures multiset(r) == multiset(s) + multiset{x}
  {
    if s == [] || le(s[|s| - 1], x) then s + [x]
    else
      var last := s[|s| - 1];
      assert s == s[..|s| - 1] + [last];
      InsertBy(s[..|s| - 1], x, le) + [last]
  }

  function SortBy<T>(s: seq<T>, le: (T, T) -> bool): (r: seq<T>)
    ensures multiset(r) == multiset(s)
  {
    if s == [] then []
    else
      assert s == s[..|s| - 1] + [s[|s| - 1]];
      InsertBy(SortBy(s[..|s| - 1], le), s[|s| - 1], le)
  }

  /** Sorted, and elements that compare equal related by `tie`. */
  ghost predicate SortedWithTies<T>(s: seq<T>, le: (T, T) -> bool, tie: (T, T) -> bool) {
    forall i, j :: 0 <= i < j < |s| ==> le(s[i], s[j]) && (le(s[j], s[i]) ==> tie(s[i], s[j]))
  }

  lemma {:induction false} InsertKeepsOrder<T(!new)>(s: seq<T>, x: T, le: (T, T) -> bool, tie: (T, T) -> bool)
    requires TotalPreorder(le)
    requires SortedWithTies(s, le, tie)
    requires forall y :: y in s ==> tie(y, x)
    ensures SortedWithTies(InsertBy(s, x, le), le, tie)
  {
    if s != [] {
      var init, last := s[..|s| - 1], s[|s| - 1];
      if le(last, x) {
        forall i | 0 <= i < |s| ensures le(s[i], x) {}
      } else {
        InsertKeepsOrder(init, x, le, tie);
        var r := InsertBy(init, x, le);
        forall y | y in r ensures le(y, last) && (le(last, y) ==> tie(y, last)) {
          assert y in multiset(r);
          if y != x {
            assert y in multiset(init);
            var i :| 0 <= i < |init| && init[i] == y;
            assert le(s[i], s[|s| - 1]);
          }
        }
      }
    }
  }

  /** Stability: the output is sorted, and ties keep a relation the input was arranged by. */
  lemma {:induction false} SortIsStable<T(!new)>(s: seq<T>, le: (T, T) -> bool, tie: (T, T) -> bool)
    requires TotalPreorder(le)
    requires Sorted(s, tie)
    ensures SortedWithTies(SortBy(s, le), le, tie)
  {
    if s != [] {
      var init, last := s[..|s| - 1], s[|s| - 1];
      SortIsStable(init, le, tie);
      forall y | y in SortBy(init, le) ensures tie(y, last) {
        assert y in multiset(SortBy(init, le));
        assert y in multiset(init);
        var i :| 0 <= i < |init| && init[i] == y;
        assert tie(s[i], s[|s| - 1]);
      }
      InsertKeepsOrder(SortBy(init, le), last, le, tie);
    }
  }

  // ----- Subsequences -----

  /** The elements that pass a test, in the order they have. */
  function Filter<T>(s: seq<T>, p: T -> bool): seq<T> {
    if s == [] then [] else Filter(s[..|s| - 1], p) + if p(s[|s| - 1]) then [s[|s| - 1]] else []
  }

  lemma {:induction false} FilterAll<T>(s: seq<T>, p: T -> bool)
    requires forall i :: 0 <= i < |s| ==> p(s[i])
    ensures Filter(s, p) == s
  {
    if s != [] { FilterAll(s[..|s| - 1], p); }
  }

  lemma {:induction false} FilterCounts<T>(s: seq<T>, p: T -> bool, x: T)
    ensures multiset(Filter(s, p))[x] == if p(x) then multiset(s)[x] else 0
  {
    if s != [] {
      FilterCounts(s[..|s| - 1], p, x);
      assert s == s[..|s| - 1] + [s[|s| - 1]];
    }
  }

  function Tied<T>(x: T, le: (T, T) -> bool): T -> bool { (y: T) => le(x, y) && le(y, x) }

  /** The elements that pass the test are all tied with each other. */
  ghost predicate AllTied<T(!new)>(p: T -> bool, le: (T, T) -> bool) {
    forall x, y :: p(x) && p(y) ==> le(x, y)
  }

  lemma FilterLast<T>(s: seq<T>, y: T, p: T -> bool)
    ensures Filter(s + [y], p) == Filter(s, p) + if p(y) then [y] else []
  {
    assert (s + [y])[..|s|] == s;
  }

  lemma {:induction false} InsertKeepsTies<T(!new)>(s: seq<T>, y: T, le: (T, T) -> bool, p: T -> bool)
    requires AllTied(p, le)
    ensures Filter(InsertBy(s, y, le), p) == Filter(s, p) + if p(y) then [y] else []
  {
    if s == [] || le(s[|s| - 1], y) {
      FilterLast(s, y, p);
    } else {
      InsertKeepsTies(s[..|s| - 1], y, le, p);
      FilterLast(InsertBy(s[..|s| - 1], y, le), s[|s| - 1], p);
    }
  }

  /** Sorting keeps the order of any elements that are tied with each other. */
  lemma {:induction false} SortKeepsTies<T(!new)>(s: seq<T>, le: (T, T) -> bool, p: T -> bool)
    requires AllTied(p, le)
    ensures Filter(SortBy(s, le), p) == Filter(s, p)
  {
    if s != [] {
      SortKeepsTies(s[..|s| - 1], le, p);
      InsertKeepsTies(SortBy(s[..|s| - 1], le), s[|s| - 1], le, p);
    }
  }

  /** The same elements in each class of ties. */
  ghost predicate SameClasses<T(!new)>(s: seq<T>, t: seq<T>, le: (T, T) -> bool) {
    forall x :: Filter(s, Tied(x, le)) == Filter(t, Tied(x, le))
  }

  /** Sorted sequences that have the same tied elements in the same order are equal. */
  lemma {:induction false} SortedAreEqual<T(!new)>(s: seq<T>, t: seq<T>, le: (T, T) -> bool)
    requires TotalPreorder(le) && Sorted(s, le) && Sorted(t, le)
    requires SameClasses(s, t, le)
    ensures s == t
  {
    if s == [] && t != [] {
      var i := LastIsFound(t, s, le);
    } else if s != [] {
      var i := LastIsFound(s, t, le);
      LastIsShared(s, t, le);
      SortedAreEqual(s[..|s| - 1], t[..|t| - 1], le);
      assert s == s[..|s| - 1] + [s[|s| - 1]];
      assert t == t[..|t| - 1] + [t[|t| - 1]];
    }
  }

  lemma LastIsShared<T(!new)>(s: seq<T>, t: seq<T>, le: (T, T) -> bool)
    requires TotalPreorder(le) && Sorted(s, le) && Sorted(t, le)
    requires s != [] && t != [] && SameClasses(s, t, le)
    ensures s[|s| - 1] == t[|t| - 1]
    ensures SameClasses(s[..|s| - 1], t[..|t| - 1], le)
  {
    var a, b := s[|s| - 1], t[|t| - 1];
    LastsAreTied(s, t, le);
    SameLast(s, t, Tied(a, le));
    forall x ensures Filter(s[..|s| - 1], Tied(x, le)) == Filter(t[..|t| - 1], Tied(x, le)) {
      SameLast(s, t, Tied(x, le));
    }
  }

  lemma LastsAreTied<T(!new)>(s: seq<T>, t: seq<T>, le: (T, T) -> bool)
    requires TotalPreorder(le) && Sorted(s, le) && Sorted(t, le)
    requires s != [] && t != [] && SameClasses(s, t, le)
    ensures le(s[|s| - 1], t[|t| - 1]) && le(t[|t| - 1], s[|s| - 1])
  {
    var i := LastIsFound(s, t, le);
    var j := LastIsFound(t, s, le);
  }

  lemma SameLast<T>(s: seq<T>, t: seq<T>, p: T -> bool)
    requires s != [] && t != [] && Filter(s, p) == Filter(t, p)
    requires p(s[|s| - 1]) <==> p(t[|t| - 1])
    ensures p(s[|s| - 1]) ==> s[|s| - 1] == t[|t| - 1]
    ensures Filter(s[..|s| - 1], p) == Filter(t[..|t| - 1], p)
  {
    var u, v := Filter(s[..|s| - 1], p), Filter(t[..|t| - 1], p);
    if p(s[|s| - 1]) { SameEnd(u, s[|s| - 1], v, t[|t| - 1]); }
  }

  lemma SameEnd<T>(u: seq<T>, a: T, v: seq<T>, b: T)
    requires u + [a] == v + [b]
    ensures u == v && a == b
  {
    assert (u + [a])[|u|] == a && (v + [b])[|v|] == b;
    assert (u + [a])[..|u|] == u && (v + [b])[..|v|] == v;
  }

  lemma LastIsFound<T(!new)>(s: seq<T>, t: seq<T>, le: (T, T) -> bool) returns (i: nat)
    requires TotalPreorder(le) && s != []
    requires SameClasses(s, t, le)
    ensures i < |t| && t[i] == s[|s| - 1]
  {
    var x := s[|s| - 1];
    FilterCounts(s, Tied(x, le), x);
    FilterCounts(t, Tied(x, le), x);
    assert x in multiset(s);
    assert x in multiset(t);
    i :| 0 <= i < |t| && t[i] == x;
  }

  /** A permutation of distinct elements is made of distinct elements. */
  lemma PermutationDistinct<T>(s: seq<T>, r: seq<T>)
    requires multiset(s) == multiset(r) && Distinct(s)
    ensures Distinct(r) && (forall x :: x in s <==> x in r)
  {
    forall x ensures x in s <==> x in r {
      assert x in s <==> x in multiset(s);
      assert x in r <==> x in multiset(r);
    }
    forall i, j | 0 <= i < j < |r| ensures r[i] != r[j] {
      if r[i] == r[j] {
        TwiceInMultiset(r, i, j);
        OnceInMultiset(s, r[i]);
        assert false;
      }
    }
  }

  lemma TwiceInMultiset<T>(s: seq<T>, i: nat, j: nat)
    requires i < j < |s| && s[i] == s[j]
    ensures multiset(s)[s[i]] >= 2
  {
    assert s == s[..j] + [s[j]] + s[j + 1..];
    assert s[i] in s[..j];
  }

  lemma {:induction false} OnceInMultiset<T>(s: seq<T>, x: T)
    requires Distinct(s)
    ensures multiset(s)[x] <= 1
  {
    if s != [] {
      var init := s[..|s| - 1];
      OnceInMultiset(init, x);
      assert s == init + [s[|s| - 1]];
      if s[|s| - 1] == x {
        assert x !in init;
      }
    }
  }

  // ----- Ranking rows that carry a key -----

  function KeysOf<T, K>(rows: seq<T>, key: T -> K): (ks: seq<K>)
    ensures |ks| == |rows| && forall i :: 0 <= i < |rows| ==> ks[i] == key(rows[i])
  {
    seq(|rows|, i requires 0 <= i < |rows| => key(rows[i]))
  }

  /**
   Sorting rows that were enumerated by distinct keys: the same rows and keys come out,
   each key once, in order, with ties as they were enumerated.
   */
  lemma Ranking<T(!new), K>(rows: seq<T>, key: T -> K, le: (T, T) -> bool, tie: (T, T) -> bool)
    requires Distinct(KeysOf(rows, key)) && TotalPreorder(le) && Sorted(rows, tie)
    ensures Distinct(KeysOf(SortBy(rows, le), key))
    ensures forall row :: row in SortBy(rows, le) <==> row in rows
    ensures forall k :: k in KeysOf(SortBy(rows, le), key) <==> k in KeysOf(rows, key)
    ensures SortedWithTies(SortBy(rows, le), le, tie)
  {
    var ranked := SortBy(rows, le);
    SortIsStable(rows, le, tie);
    forall i, j | 0 <= i < j < |rows| ensures rows[i] != rows[j] {
      assert KeysOf(rows, key)[i] != KeysOf(rows, key)[j];
    }
    PermutationDistinct(rows, ranked);
    SameKeys(rows, ranked, key);
    SameKeys(ranked, rows, key);
    forall i, j | 0 <= i < j < |ranked| ensures key(ranked[i]) != key(ranked[j]) {
      KeyIdentifies(rows, key, ranked[i], ranked[j]);
    }
  }

  lemma KeyIdentifies<T, K>(rows: seq<T>, key: T -> K, x: T, y: T)
    requires Distinct(KeysOf(rows, key))
    requires x in rows && y in rows && x != y
    ensures key(x) != key(y)
  {}

  lemma SameKeys<T, K>(from: seq<T>, to: seq<T>, key: T -> K)
    requires forall row :: row in from ==> row in to
    ensures forall k :: k in KeysOf(from, key) ==> k in KeysOf(to, key)
  {
    forall k | k in KeysOf(from, key) ensures k in KeysOf(to, key) {
      var i :| 0 <= i < |from| && KeysOf(from, key)[i] == k;
      assert from[i] in to;
      var j :| 0 <= j < |to| && to[j] == from[i];
      assert KeysOf(to, key)[j] == k;
    }
  }

  // ----- Enumerating a set in order -----

  /** How a BTreeMap hands out its keys: each once, ascending. */
  method InOrder<T(==, !new)>(keys: set<T>, le: (T, T) -> bool) returns (ks: seq<T>)
    requires TotalPreorder(le)
    ensures Distinct(ks) && Sorted(ks, le)
    ensures forall k :: k in ks <==> k in keys
  {
    ks := [];
    var rest := keys;
    while rest != {}
      invariant rest <= keys
      invariant forall k :: k in ks <==> k in keys && k !in rest
      invariant Distinct(ks) && Sorted(ks, le)
      decreases |rest|
    {
      var k :| k in rest;
      assert Distinct(ks + [k]);
      assert SortedWithTies(ks, le, (x: T, y: T) => true);
      InsertKeepsOrder(ks, k, le, (x: T, y: T) => true);
      var next := InsertBy(ks, k, le);
      assert multiset(ks + [k]) == multiset(next);
      PermutationDistinct(ks + [k], next);
      ks, rest := next, rest - {k};
    }
  }
}
