/**
 The worklogs a team report is made of, and the one counting argument behind all
 of its views: grouping entries by a key loses nothing and counts nothing twice.
 */
module Worklogs {
  import opened Seconds
  import opened Ordering
  import opened Wrappers

  /** A worklog with its author's display name and the classification of its issue. */
  datatype Entry = Entry(
    author: string,
    authorName: string,
    issueKey: string,
    issueSummary: string,
    issueType: Option<string>,
    issueStatus: Option<string>,
    date: int,
    seconds: u32)

  function Author(e: Entry): string { e.author }
  function Issue(e: Entry): string { e.issueKey }
  function Date(e: Entry): int { e.date }

  /** The durations, in the order of the entries. */
  function Durations(es: seq<Entry>): (s: seq<u32>)
    ensures |s| == |es| && forall i :: 0 <= i < |es| ==> s[i] == es[i].seconds
  {
    seq(|es|, i requires 0 <= i < |es| => es[i].seconds)
  }

  function Total(es: seq<Entry>): nat { Sum(Durations(es)) }

  /** The entries filed under one key, in their original order. */
  function Only<K(==)>(es: seq<Entry>, key: Entry -> K, k: K): (r: seq<Entry>)
    ensures forall e :: e in r <==> e in es && key(e) == k
  {
    if es == [] then []
    else
      assert es == es[..|es| - 1] + [es[|es| - 1]];
      var rest := Only(es[..|es| - 1], key, k);
      if key(es[|es| - 1]) == k then rest + [es[|es| - 1]] else rest
  }

  /** What each of several keys holds. */
  function Shares<K(==)>(es: seq<Entry>, key: Entry -> K, ks: seq<K>): (shares: seq<nat>)
    ensures |shares| == |ks|
  {
    seq(|ks|, i requires 0 <= i < |ks| => Total(Only(es, key, ks[i])))
  }

  lemma TotalAppend(es: seq<Entry>, e: Entry)
    ensures Total(es + [e]) == Total(es) + e.seconds
  {
    assert Durations(es + [e])[..|es|] == Durations(es);
  }

  lemma OnlyAppend<K>(es: seq<Entry>, e: Entry, key: Entry -> K, k: K)
    ensures Only(es + [e], key, k) == if key(e) == k then Only(es, key, k) + [e] else Only(es, key, k)
  {
    assert (es + [e])[..|es|] == es;
  }

  lemma NothingFiled<K>(es: seq<Entry>, key: Entry -> K, k: K)
    requires forall e :: e in es ==> key(e) != k
    ensures Only(es, key, k) == []
  {
    assert Only(es, key, k) != [] ==> Only(es, key, k)[0] in Only(es, key, k);
  }

  /** Filing by a finer test is filing by a coarser one and then by a key. */
  lemma {:induction false} OnlyWithin<K>(es: seq<Entry>, fine: Entry -> bool, coarse: Entry -> bool, key: Entry -> K,
                                         k: K)
    requires forall e :: e in es ==> (fine(e) <==> coarse(e) && key(e) == k)
    ensures Only(es, fine, true) == Only(Only(es, coarse, true), key, k)
  {
    if es != [] {
      var init, last := es[..|es| - 1], es[|es| - 1];
      assert es == init + [last];
      OnlyWithin(init, fine, coarse, key, k);
      if coarse(last) { OnlyAppend(Only(init, coarse, true), last, key, k); }
    }
  }

  lemma ShareAppend<K>(es: seq<Entry>, e: Entry, key: Entry -> K, k: K)
    ensures Total(Only(es + [e], key, k)) == Total(Only(es, key, k)) + (if key(e) == k then e.seconds else 0)
  {
    OnlyAppend(es, e, key, k);
    TotalAppend(Only(es, key, k), e);
  }

  /** One entry more adds its seconds to its own key, saturating, and to no other. */
  lemma SaturatingAppend<K>(es: seq<Entry>, e: Entry, key: Entry -> K, k: K)
    ensures SaturatingSum(Durations(Only(es + [e], key, k)))
         == if key(e) == k then SaturatingAdd(SaturatingSum(Durations(Only(es, key, k))), e.seconds)
            else SaturatingSum(Durations(Only(es, key, k)))
  {
    OnlyAppend(es, e, key, k);
    if key(e) == k {
      var before, after := Only(es, key, k), Only(es + [e], key, k);
      assert Durations(after)[..|before|] == Durations(before);
    }
  }

  lemma SharesUnfold<K>(es: seq<Entry>, key: Entry -> K, ks: seq<K>)
    requires ks != []
    ensures Sum(Shares(es, key, ks)) == Sum(Shares(es, key, ks[..|ks| - 1])) + Total(Only(es, key, ks[|ks| - 1]))
  {
    assert Shares(es, key, ks)[..|ks| - 1] == Shares(es, key, ks[..|ks| - 1]);
  }

  lemma {:induction false} SharesAppend<K>(es: seq<Entry>, e: Entry, key: Entry -> K, ks: seq<K>)
    requires Distinct(ks)
    ensures Sum(Shares(es + [e], key, ks)) == Sum(Shares(es, key, ks)) + (if key(e) in ks then e.seconds else 0)
  {
    if ks != [] {
      var init, last := ks[..|ks| - 1], ks[|ks| - 1];
      assert ks == init + [last];
      SharesAppend(es, e, key, init);
      ShareAppend(es, e, key, last);
      assert key(e) == last ==> key(e) !in init;
      SharesUnfold(es, key, ks);
      SharesUnfold(es + [e], key, ks);
    }
  }

  lemma {:induction false} SharesOfNothing<K>(key: Entry -> K, ks: seq<K>)
    ensures Sum(Shares([], key, ks)) == 0
  {
    if ks != [] {
      SharesOfNothing(key, ks[..|ks| - 1]);
      SharesUnfold([], key, ks);
    }
  }

  /** Conservation: distinct keys that cover every entry share out the whole total. */
  lemma {:induction false} Conservation<K>(es: seq<Entry>, key: Entry -> K, ks: seq<K>)
    requires Distinct(ks)
    requires forall e :: e in es ==> key(e) in ks
    ensures Sum(Shares(es, key, ks)) == Total(es)
  {
    if es == [] {
      SharesOfNothing(key, ks);
    } else {
      var init, last := es[..|es| - 1], es[|es| - 1];
      assert es == init + [last];
      Conservation(init, key, ks);
      SharesAppend(init, last, key, ks);
      TotalAppend(init, last);
    }
  }

  /**
   Saturating group totals never exceed the true total, and add up to it exactly when
   every group fits in 32 bits, in particular whenever the total does.
   */
  lemma GroupsAddUp<K>(es: seq<Entry>, key: Entry -> K, ks: seq<K>, groups: seq<u32>)
    requires Distinct(ks) && |groups| == |ks|
    requires forall e :: e in es ==> key(e) in ks
    requires forall i :: 0 <= i < |ks| ==> groups[i] == SaturatingSum(Durations(Only(es, key, ks[i])))
    ensures Sum(groups) <= Total(es)
    ensures Sum(groups) == Total(es) <==> forall i :: 0 <= i < |ks| ==> Total(Only(es, key, ks[i])) <= MAXIMUM
    ensures Total(es) <= MAXIMUM ==> Sum(groups) == Total(es)
  {
    var shares := Shares(es, key, ks);
    Conservation(es, key, ks);
    ClampedPartsAddUp(shares);
    GroupsAreClamped(es, key, ks, groups);
    if Total(es) <= MAXIMUM {
      forall i | 0 <= i < |ks| ensures shares[i] <= MAXIMUM { OnlyAtMost(es, key, ks[i]); }
    }
  }

  lemma GroupsAreClamped<K>(es: seq<Entry>, key: Entry -> K, ks: seq<K>, groups: seq<u32>)
    requires |groups| == |ks|
    requires forall i :: 0 <= i < |ks| ==> groups[i] == SaturatingSum(Durations(Only(es, key, ks[i])))
    ensures groups == ClampAll(Shares(es, key, ks))
    ensures forall i :: 0 <= i < |ks| ==> Shares(es, key, ks)[i] == Total(Only(es, key, ks[i]))
  {
    forall i | 0 <= i < |ks| ensures groups[i] == Clamp(Total(Only(es, key, ks[i]))) {
      SaturatingSumIsClamped(Durations(Only(es, key, ks[i])));
    }
  }

  /** Grouping by one key and then by another is the same in either order. */
  lemma {:induction false} OnlyCommutes<K, L>(es: seq<Entry>, key: Entry -> K, k: K, other: Entry -> L, l: L)
    ensures Only(Only(es, key, k), other, l) == Only(Only(es, other, l), key, k)
  {
    if es != [] {
      var init, last := es[..|es| - 1], es[|es| - 1];
      assert es == init + [last];
      OnlyCommutes(init, key, k, other, l);
      OnlyAppend(init, last, key, k);
      OnlyAppend(init, last, other, l);
      if key(last) == k { OnlyAppend(Only(init, key, k), last, other, l); }
      if other(last) == l { OnlyAppend(Only(init, other, l), last, key, k); }
    }
  }

  /** One key's share is never more than the whole. */
  lemma {:induction false} OnlyAtMost<K>(es: seq<Entry>, key: Entry -> K, k: K)
    ensures Total(Only(es, key, k)) <= Total(es)
  {
    if es != [] {
      var init, last := es[..|es| - 1], es[|es| - 1];
      assert es == init + [last];
      OnlyAtMost(init, key, k);
      ShareAppend(init, last, key, k);
      TotalAppend(init, last);
    }
  }
}
