/** Issue types and statuses: seconds grouped by label, ranked, the smallest merged. */
module TeamCategories {
  import opened Wrappers
  import opened Ordering
  import opened Seconds
  import opened Worklogs
  import opened TopSlices
  import opened Text

  datatype CategoryLabel = Value(name: string) | Unspecified | Other

  datatype CategorySlice = CategorySlice(category: CategoryLabel, seconds: u32, percentage: u32)

  function IssueType(e: Entry): Option<string> { e.issueType }

  function IssueStatus(e: Entry): Option<string> { e.issueStatus }

  function LabelOf(value: Option<string>): CategoryLabel {
    if value.None? || IsBlank(value.value) then Unspecified else Value(value.value)
  }

  function Labelled(selector: Entry -> Option<string>): Entry -> CategoryLabel {
    (e: Entry) => LabelOf(selector(e))
  }

  function CategoryOf(slice: CategorySlice): CategoryLabel { slice.category }

  function SecondsOf(slice: CategorySlice): u32 { slice.seconds }

  function PercentageOf(slice: CategorySlice): u32 { slice.percentage }

  function MakeSlice(category: CategoryLabel, seconds: u32, total: u32): CategorySlice {
    CategorySlice(category, seconds, Percentage(seconds, total))
  }

  /** Named labels by name, then the unspecified one, then the merged one. */
  predicate LabelLe(a: CategoryLabel, b: CategoryLabel) {
    match a
    case Value(x) => b.Value? ==> StringLe(x, b.name)
    case Unspecified => !b.Value?
    case Other => b.Other?
  }

  predicate SliceOrder(a: CategorySlice, b: CategorySlice) {
    a.seconds > b.seconds || (a.seconds == b.seconds && LabelLe(a.category, b.category))
  }

  predicate Any(a: CategorySlice, b: CategorySlice) { true }

  lemma LabelOrder()
    ensures TotalPreorder(LabelLe) && TotalPreorder(SliceOrder)
  {
    StringOrder();
  }

  ghost predicate Grouped<K(!new)>(groups: map<K, u32>, es: seq<Entry>, key: Entry -> K) {
    && groups.Keys == (set e | e in es :: key(e))
    && forall k :: k in groups ==> groups[k] == SaturatingSum(Durations(Only(es, key, k)))
  }

  lemma GroupStep<K(!new)>(groups: map<K, u32>, es: seq<Entry>, key: Entry -> K, e: Entry, before: u32)
    requires Grouped(groups, es, key)
    requires before == if key(e) in groups then groups[key(e)] else 0
    ensures Grouped(groups[key(e) := SaturatingAdd(before, e.seconds)], es + [e], key)
  {
    var updated := groups[key(e) := SaturatingAdd(before, e.seconds)];
    assert updated.Keys == (set x | x in es + [e] :: key(x)) by { LabelsAppend(es, key, e); }
    forall k | k in updated ensures updated[k] == SaturatingSum(Durations(Only(es + [e], key, k))) {
      SaturatingAppend(es, e, key, k);
      if k !in groups { NothingFiled(es, key, k); }
    }
  }

  lemma LabelsAppend<K(!new)>(es: seq<Entry>, key: Entry -> K, e: Entry)
    ensures (set x | x in es + [e] :: key(x)) == (set x | x in es :: key(x)) + {key(e)}
  {}

  method GroupCategorySeconds(es: seq<Entry>, selector: Entry -> Option<string>)
    returns (groups: map<CategoryLabel, u32>)
    ensures Grouped(groups, es, Labelled(selector))
  {
    groups := map[];
    for i := 0 to |es|
      invariant Grouped(groups, es[..i], Labelled(selector))
    {
      assert es[..i + 1] == es[..i] + [es[i]];
      var category := LabelOf(selector(es[i]));
      var before: u32 := if category in groups then groups[category] else 0;
      GroupStep(groups, es[..i], Labelled(selector), es[i], before);
      groups := groups[category := SaturatingAdd(before, es[i].seconds)];
    }
    assert es[..|es|] == es;
  }

  /** Every label that occurs, once, with its seconds and share, in the order of the chart. */
  ghost predicate RanksCategories(slices: seq<CategorySlice>, es: seq<Entry>, total: u32,
                                  selector: Entry -> Option<string>) {
    && Distinct(KeysOf(slices, CategoryOf))
    && (forall k :: k in KeysOf(slices, CategoryOf) <==> exists e :: e in es && Labelled(selector)(e) == k)
    && (forall slice :: slice in slices ==>
          slice == MakeSlice(slice.category, SaturatingSum(Durations(Only(es, Labelled(selector), slice.category))),
                             total))
    && Sorted(slices, SliceOrder)
  }

  /** Nothing to file a worklog under. */
  ghost predicate IsMissing(value: Option<string>) {
    value.Some? ==> forall c :: c in value.value ==> IsWhitespace(c)
  }

  /** A worklog is filed under its value, unless that is missing or blank. */
  lemma FiledUnder(value: Option<string>)
    ensures LabelOf(value) == if IsMissing(value) then Unspecified else Value(value.value)
  {
    if value.Some? { BlankIff(value.value); }
  }

  /** What a slice before limiting shows, in terms of the worklogs' own values. */
  ghost predicate SliceShows(slice: CategorySlice, es: seq<Entry>, total: u32, selector: Entry -> Option<string>) {
    && slice.seconds == Clamp(Total(Only(es, Labelled(selector), slice.category)))
    && slice.percentage == Percentage(slice.seconds, total)
    && match slice.category
       case Value(name) => exists e :: e in es && selector(e) == Some(name) && !IsMissing(selector(e))
       case Unspecified => exists e :: e in es && IsMissing(selector(e))
       case Other => false
  }

  /** Every value that occurs has a slice of that name, and so has the lack of one. */
  ghost predicate Covers(slices: seq<CategorySlice>, es: seq<Entry>, selector: Entry -> Option<string>) {
    forall e :: e in es ==>
      (if IsMissing(selector(e)) then Unspecified else Value(selector(e).value)) in KeysOf(slices, CategoryOf)
  }

  /** Most seconds first, then by name, and the unspecified last. */
  ghost predicate Precedes(a: CategorySlice, b: CategorySlice) {
    || a.seconds > b.seconds
    || (a.seconds == b.seconds
        && (b.category == Unspecified
            || (a.category.Value? && b.category.Value? && StringLe(a.category.name, b.category.name))))
  }

  /** Every value that occurs and nothing else, once, in the order of the chart. */
  ghost predicate RankingShows(ranked: seq<CategorySlice>, es: seq<Entry>, total: u32,
                               selector: Entry -> Option<string>) {
    && Covers(ranked, es, selector)
    && Distinct(KeysOf(ranked, CategoryOf))
    && (forall i :: 0 <= i < |ranked| ==> SliceShows(ranked[i], es, total, selector))
    && (forall i, j :: 0 <= i < j < |ranked| ==> Precedes(ranked[i], ranked[j]))
  }

  lemma SliceHasEntry(slices: seq<CategorySlice>, es: seq<Entry>, total: u32, selector: Entry -> Option<string>, i: nat)
    requires RanksCategories(slices, es, total, selector) && i < |slices|
    ensures SliceShows(slices[i], es, total, selector)
  {
    var slice := slices[i];
    assert slice in slices;
    SaturatingSumIsClamped(Durations(Only(es, Labelled(selector), slice.category)));
    assert KeysOf(slices, CategoryOf)[i] == slice.category;
    assert slice.category in KeysOf(slices, CategoryOf);
    var e :| e in es && Labelled(selector)(e) == slice.category;
    FiledUnder(selector(e));
  }

  lemma InChartOrder(slices: seq<CategorySlice>, es: seq<Entry>, total: u32, selector: Entry -> Option<string>,
                     i: nat, j: nat)
    requires RanksCategories(slices, es, total, selector) && i < j < |slices|
    ensures Precedes(slices[i], slices[j])
  {
    RankedSlice(slices, es, total, selector, i);
    RankedSlice(slices, es, total, selector, j);
    assert SliceOrder(slices[i], slices[j]);
  }

  lemma EveryValueIsRanked(slices: seq<CategorySlice>, es: seq<Entry>, total: u32, selector: Entry -> Option<string>)
    requires RanksCategories(slices, es, total, selector)
    ensures Covers(slices, es, selector)
  {
    forall e | e in es
      ensures (if IsMissing(selector(e)) then Unspecified else Value(selector(e).value)) in KeysOf(slices, CategoryOf)
    {
      FiledUnder(selector(e));
      assert Labelled(selector)(e) in KeysOf(slices, CategoryOf);
    }
  }

  /** The ranking shows every value that occurs and nothing else, each with the worklogs that have it. */
  lemma SlicesShow(slices: seq<CategorySlice>, es: seq<Entry>, total: u32, selector: Entry -> Option<string>)
    requires RanksCategories(slices, es, total, selector)
    ensures RankingShows(slices, es, total, selector)
  {
    EveryValueIsRanked(slices, es, total, selector);
    forall i | 0 <= i < |slices| ensures SliceShows(slices[i], es, total, selector) {
      SliceHasEntry(slices, es, total, selector, i);
    }
    forall i, j | 0 <= i < j < |slices| ensures Precedes(slices[i], slices[j]) {
      InChartOrder(slices, es, total, selector, i, j);
    }
  }

  method RankCategories(es: seq<Entry>, total: u32, selector: Entry -> Option<string>)
    returns (slices: seq<CategorySlice>)
    ensures RanksCategories(slices, es, total, selector)
  {
    var groups := GroupCategorySeconds(es, selector);
    LabelOrder();
    var labels := InOrder(groups.Keys, LabelLe);
    var unranked := seq(|labels|, i requires 0 <= i < |labels| && labels[i] in groups =>
                          MakeSlice(labels[i], groups[labels[i]], total));
    slices := SortBy(unranked, SliceOrder);
    RankedSlices(unranked, labels, es, total, selector);
  }

  lemma RankedSlices(unranked: seq<CategorySlice>, labels: seq<CategoryLabel>, es: seq<Entry>, total: u32,
                     selector: Entry -> Option<string>)
    requires Distinct(labels) && |unranked| == |labels|
    requires forall k :: k in labels <==> exists e :: e in es && Labelled(selector)(e) == k
    requires forall i :: 0 <= i < |labels| ==>
               unranked[i]
                 == MakeSlice(labels[i], SaturatingSum(Durations(Only(es, Labelled(selector), labels[i]))), total)
    ensures RanksCategories(SortBy(unranked, SliceOrder), es, total, selector)
  {
    LabelOrder();
    assert KeysOf(unranked, CategoryOf) == labels;
    Ranking(unranked, CategoryOf, SliceOrder, Any);
  }

  function LimitCategorySlices(slices: seq<CategorySlice>, total: u32, maximum: nat): seq<CategorySlice> {
    var slots := Slots(maximum);
    if |slices| <= slots then slices
    else
      var merged := slices[slots - 1..];
      slices[..slots - 1] + [MakeSlice(Other, WrappingSum(KeysOf(merged, SecondsOf)), total)]
  }

  /** The slices are the limited ranking of one classification. */
  ghost predicate LimitsCategories(slices: seq<CategorySlice>, es: seq<Entry>, total: u32, maximum: nat,
                                   selector: Entry -> Option<string>) {
    exists ranked ::
      RanksCategories(ranked, es, total, selector) && slices == LimitCategorySlices(ranked, total, maximum)
  }

  /** The chart shows the first of the ranking as they are, and the rest as one more slice. */
  ghost predicate CutsOff(slices: seq<CategorySlice>, ranked: seq<CategorySlice>, total: u32, maximum: nat) {
    if |ranked| <= 2 || |ranked| <= maximum then slices == ranked
    else
      && |slices| == (if maximum < 2 then 2 else maximum)
      && slices[..|slices| - 1] == ranked[..|slices| - 1]
      && var rest := Wrap(Sum(KeysOf(ranked[|slices| - 1..], SecondsOf)));
         slices[|slices| - 1] == CategorySlice(Other, rest, Percentage(rest, total))
  }

  /** What a chart of a classification shows, down to the worklogs' own values. */
  ghost predicate ChartShows(slices: seq<CategorySlice>, es: seq<Entry>, total: u32, maximum: nat,
                             selector: Entry -> Option<string>) {
    exists ranked :: CutsOff(slices, ranked, total, maximum) && RankingShows(ranked, es, total, selector)
  }

  lemma ChartIsShown(slices: seq<CategorySlice>, es: seq<Entry>, total: u32, maximum: nat,
                     selector: Entry -> Option<string>)
    requires LimitsCategories(slices, es, total, maximum, selector)
    ensures ChartShows(slices, es, total, maximum, selector)
  {
    var ranked :|
      && RanksCategories(ranked, es, total, selector)
      && slices == LimitCategorySlices(ranked, total, maximum);
    SlicesShow(ranked, es, total, selector);
    LimitCutsOff(ranked, total, maximum);
  }

  lemma LimitCutsOff(ranked: seq<CategorySlice>, total: u32, maximum: nat)
    ensures CutsOff(LimitCategorySlices(ranked, total, maximum), ranked, total, maximum)
  {
    SlotsAre(maximum);
    if |ranked| > Slots(maximum) { WrappingSumIsModular(KeysOf(ranked[Slots(maximum) - 1..], SecondsOf)); }
  }

  /** The chart of one classification is the limited ranking. */
  method CategorySlices(es: seq<Entry>, total: u32, maximum: nat, selector: Entry -> Option<string>)
    returns (slices: seq<CategorySlice>)
    ensures LimitsCategories(slices, es, total, maximum, selector)
    ensures Distinct(KeysOf(slices, CategoryOf)) && |slices| <= Slots(maximum)
    ensures Total(es) <= MAXIMUM ==> Sum(KeysOf(slices, SecondsOf)) == Total(es)
    ensures KeysOf(slices, PercentageOf) == Percentages(KeysOf(slices, SecondsOf), total)
  {
    var ranked := RankCategories(es, total, selector);
    slices := LimitCategorySlices(ranked, total, maximum);
    LimitedCategories(ranked, es, total, maximum, selector);
  }

  lemma LimitedCategories(ranked: seq<CategorySlice>, es: seq<Entry>, total: u32, maximum: nat,
                          selector: Entry -> Option<string>)
    requires RanksCategories(ranked, es, total, selector)
    ensures var slices := LimitCategorySlices(ranked, total, maximum);
            forall i :: 0 <= i < |slices| ==>
              slices[i].category == if i < |slices| - 1 || |ranked| <= Slots(maximum) then ranked[i].category else Other
    ensures var slices := LimitCategorySlices(ranked, total, maximum);
            && Distinct(KeysOf(slices, CategoryOf))
            && KeysOf(slices, SecondsOf) == TopSeconds(KeysOf(ranked, SecondsOf), maximum)
            && Descending(KeysOf(ranked, SecondsOf))
            && KeysOf(slices, PercentageOf) == Percentages(KeysOf(slices, SecondsOf), total)
            && |slices| <= Slots(maximum)
            && (Total(es) <= MAXIMUM ==> Sum(KeysOf(slices, SecondsOf)) == Total(es))
  {
    LimitedLabels(ranked, total, maximum);
    LimitedSlices(ranked, es, total, maximum, selector);
    CategoriesAddUp(ranked, es, total, selector);
    TopSecondsConserve(KeysOf(ranked, SecondsOf), maximum);
  }

  lemma LimitedLabels(ranked: seq<CategorySlice>, total: u32, maximum: nat)
    ensures var slices := LimitCategorySlices(ranked, total, maximum);
            forall i :: 0 <= i < |slices| ==>
              slices[i].category == if i < |slices| - 1 || |ranked| <= Slots(maximum) then ranked[i].category else Other
  {}

  /** The chart of a classification charts its ranking, and shows the percentages of what it shows. */
  lemma CategoryChart(slices: seq<CategorySlice>, es: seq<Entry>, maximum: nat, selector: Entry -> Option<string>)
    requires Total(es) <= MAXIMUM && LimitsCategories(slices, es, Total(es), maximum, selector)
    ensures exists ranked :: RanksCategories(ranked, es, Total(es), selector)
                          && Charts(KeysOf(slices, SecondsOf), KeysOf(ranked, SecondsOf), Total(es), maximum)
    ensures KeysOf(slices, PercentageOf) == Percentages(KeysOf(slices, SecondsOf), Total(es))
  {
    var ranked :|
      && RanksCategories(ranked, es, Total(es), selector)
      && slices == LimitCategorySlices(ranked, Total(es), maximum);
    LimitedCategories(ranked, es, Total(es), maximum, selector);
    CategoriesAddUp(ranked, es, Total(es), selector);
    TopSecondsChart(KeysOf(ranked, SecondsOf), Total(es), maximum);
  }

  lemma RankedSlice(ranked: seq<CategorySlice>, es: seq<Entry>, total: u32, selector: Entry -> Option<string>, i: nat)
    requires RanksCategories(ranked, es, total, selector) && i < |ranked|
    ensures ranked[i].category != Other
    ensures forall j :: i < j < |ranked| ==> ranked[i].category != ranked[j].category
    ensures forall j :: i < j < |ranked| ==> ranked[i].seconds >= ranked[j].seconds
    ensures ranked[i].percentage == Percentage(ranked[i].seconds, total)
    ensures ranked[i].seconds == SaturatingSum(Durations(Only(es, Labelled(selector), ranked[i].category)))
  {
    assert ranked[i] in ranked;
    var labels := KeysOf(ranked, CategoryOf);
    assert labels[i] in labels;
    forall j | i < j < |ranked| ensures ranked[i].category != ranked[j].category {
      assert labels[i] != labels[j];
    }
  }

  /** Limiting acts on the seconds alone and keeps labels apart: the merged label is a new one. */
  lemma LimitedSlices(ranked: seq<CategorySlice>, es: seq<Entry>, total: u32, maximum: nat,
                      selector: Entry -> Option<string>)
    requires RanksCategories(ranked, es, total, selector)
    ensures var slices := LimitCategorySlices(ranked, total, maximum);
            && Distinct(KeysOf(slices, CategoryOf))
            && KeysOf(slices, SecondsOf) == TopSeconds(KeysOf(ranked, SecondsOf), maximum)
            && Descending(KeysOf(ranked, SecondsOf))
            && KeysOf(slices, PercentageOf) == Percentages(KeysOf(slices, SecondsOf), total)
  {
    forall i | 0 <= i < |ranked|
      ensures ranked[i].category != Other && ranked[i].percentage == Percentage(ranked[i].seconds, total)
      ensures forall j :: i < j < |ranked| ==>
                ranked[i].category != ranked[j].category && ranked[i].seconds >= ranked[j].seconds
    {
      RankedSlice(ranked, es, total, selector, i);
    }
    LimitedValues(ranked, total, maximum);
    var slots := Slots(maximum);
    if |ranked| > slots {
      var merged := MakeSlice(Other, WrappingSum(KeysOf(ranked[slots - 1..], SecondsOf)), total);
      MergedLabelIsNew(ranked[..slots - 1], merged);
    }
  }

  lemma LimitedValues(ranked: seq<CategorySlice>, total: u32, maximum: nat)
    requires forall i :: 0 <= i < |ranked| ==> ranked[i].percentage == Percentage(ranked[i].seconds, total)
    ensures var slices := LimitCategorySlices(ranked, total, maximum);
            && KeysOf(slices, SecondsOf) == TopSeconds(KeysOf(ranked, SecondsOf), maximum)
            && KeysOf(slices, PercentageOf) == Percentages(KeysOf(slices, SecondsOf), total)
  {
    var slots := Slots(maximum);
    if |ranked| > slots {
      var slices, top := LimitCategorySlices(ranked, total, maximum), TopSeconds(KeysOf(ranked, SecondsOf), maximum);
      assert KeysOf(ranked[slots - 1..], SecondsOf) == KeysOf(ranked, SecondsOf)[slots - 1..];
      assert |slices| == |top| == slots;
      forall i | 0 <= i < slots ensures KeysOf(slices, SecondsOf)[i] == top[i] {
        if i == slots - 1 { assert slices[i] == MakeSlice(Other, top[i], total); }
      }
    }
  }

  lemma MergedLabelIsNew(named: seq<CategorySlice>, merged: CategorySlice)
    requires forall i, j :: 0 <= i < j < |named| ==> named[i].category != named[j].category
    requires forall i :: 0 <= i < |named| ==> named[i].category != merged.category
    ensures Distinct(KeysOf(named + [merged], CategoryOf))
  {}

  /** Before limiting, the labels share out the whole report. */
  lemma CategoriesAddUp(ranked: seq<CategorySlice>, es: seq<Entry>, total: u32, selector: Entry -> Option<string>)
    requires RanksCategories(ranked, es, total, selector)
    ensures Sum(KeysOf(ranked, SecondsOf)) <= Total(es)
    ensures Total(es) <= MAXIMUM ==> Sum(KeysOf(ranked, SecondsOf)) == Total(es)
  {
    forall i | 0 <= i < |ranked|
      ensures ranked[i].seconds == SaturatingSum(Durations(Only(es, Labelled(selector), ranked[i].category)))
    {
      RankedSlice(ranked, es, total, selector, i);
    }
    GroupsAddUp(es, Labelled(selector), KeysOf(ranked, CategoryOf), KeysOf(ranked, SecondsOf));
  }
}
