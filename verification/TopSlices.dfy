/**
 The arithmetic shared by every chart: the largest values by name, the rest merged
 into one slice, and whole percentages of the total.
 */
module TopSlices {
  import opened Seconds

  const MAX_PERCENT: u32 := 100

  /** Every chart has room for two. */
  function Slots(maximum: nat): nat { if maximum < 2 then 2 else maximum }

  /** The values of the slices: all of them when they fit, else the first ones and the rest merged. */
  function TopSeconds(values: seq<u32>, maximum: nat): seq<u32> {
    var slots := Slots(maximum);
    if |values| <= slots then values
    else values[..slots - 1] + [WrappingSum(values[slots - 1..])]
  }

  function Percentage(value: u32, total: u32): u32 {
    if total == 0 then 0 else SaturatingMul(value, MAX_PERCENT) / total
  }

  function Percentages(values: seq<u32>, total: u32): seq<u32> {
    seq(|values|, i requires 0 <= i < |values| => Percentage(values[i], total))
  }

  ghost predicate Descending(values: seq<u32>) {
    forall i, j :: 0 <= i < j < |values| ==> values[i] >= values[j]
  }

  // ----- Conservation and order -----

  /** The slices add up to the input exactly when nothing is merged or the merged tail fits. */
  lemma TopSecondsConserve(values: seq<u32>, maximum: nat)
    ensures var slots := Slots(maximum);
            Sum(TopSeconds(values, maximum)) == Sum(values)
            <==> (|values| <= slots || Sum(values[slots - 1..]) <= MAXIMUM)
    ensures Sum(values) <= MAXIMUM ==> Sum(TopSeconds(values, maximum)) == Sum(values)
  {
    var slots := Slots(maximum);
    if |values| > slots {
      var named, merged := values[..slots - 1], values[slots - 1..];
      assert values == named + merged;
      SumOfConcat(named, merged);
      WrappingSumIsModular(merged);
      SumOfConcat(named, [WrappingSum(merged)]);
      assert Sum([WrappingSum(merged)]) == WrappingSum(merged) by {
        assert [WrappingSum(merged)][..0] == [];
      }
    }
  }

  /** Never more slices than allowed; every named slice at least as large as every merged value. */
  lemma TopSecondsAreTheLargest(values: seq<u32>, maximum: nat)
    requires Descending(values)
    ensures var top := TopSeconds(values, maximum);
            && |top| == (if |values| <= Slots(maximum) then |values| else Slots(maximum))
            && (forall i :: 0 <= i < |top| && (i < |top| - 1 || |values| <= Slots(maximum)) ==> top[i] == values[i])
            && (|values| > Slots(maximum) ==>
                  forall i, j :: 0 <= i < |top| - 1 <= j < |values| ==> top[i] >= values[j])
  {}

  /** The bound in plain numbers: never fewer than two slices, else as many as allowed. */
  lemma SlotsAre(maximum: nat)
    ensures Slots(maximum) >= 2 && Slots(maximum) >= maximum
    ensures Slots(maximum) == 2 || Slots(maximum) == maximum
  {}

  /** What was named, and the merged rest as its true total modulo 2^32. */
  lemma TopSecondsAre(values: seq<u32>, maximum: nat)
    ensures var top := TopSeconds(values, maximum);
            if |values| <= 2 || |values| <= maximum then top == values
            else
              && |top| == (if maximum < 2 then 2 else maximum)
              && top[..|top| - 1] == values[..|top| - 1]
              && top[|top| - 1] == Wrap(Sum(values[|top| - 1..]))
  {
    SlotsAre(maximum);
    if |values| > Slots(maximum) { WrappingSumIsModular(values[Slots(maximum) - 1..]); }
  }

  // ----- Percentages -----

  lemma PercentageBounds(value: u32, total: u32)
    requires total > 0
    ensures Percentage(value, total) * total <= 100 * value
    ensures 100 * value <= MAXIMUM ==> 100 * value < (Percentage(value, total) + 1) * total
  {}

  lemma DivisionBounds(n: nat, d: nat)
    requires d > 0
    ensures (n / d) * d <= n < (n / d + 1) * d
  {}

  /** Rounding down never makes the percentages of parts of the total exceed one hundred. */
  lemma {:induction false} PercentagesScaled(values: seq<u32>, total: u32)
    requires total > 0
    ensures Sum(Percentages(values, total)) * total <= 100 * Sum(values)
    ensures (forall i :: 0 <= i < |values| ==> 100 * values[i] <= MAXIMUM) && values != []
       ==> 100 * Sum(values) < (Sum(Percentages(values, total)) + |values|) * total
  {
    if values != [] {
      var init, last := values[..|values| - 1], values[|values| - 1];
      PercentagesScaled(init, total);
      PercentageBounds(last, total);
      assert Percentages(values, total)[..|init|] == Percentages(init, total);
      var p: nat, q: nat := Sum(Percentages(init, total)), Percentage(last, total);
      Distribute(p, q, total);
      Distribute(p + |init|, q + 1, total);
      assert (p + |init|) + (q + 1) == Sum(Percentages(values, total)) + |values|;
    }
  }

  lemma Distribute(a: nat, b: nat, c: nat)
    ensures (a + b) * c == a * c + b * c
  {}

  /**
   Percentages of slices that make up the total lose less than one point each: they add
   up to at most 100, and to more than 100 - k for k slices while 100 times the total fits.
   */
  lemma PercentagesAddUp(values: seq<u32>, total: u32)
    requires Sum(values) == total
    ensures Sum(Percentages(values, total)) <= 100
    ensures total > 0 && 100 * total <= MAXIMUM ==> Sum(Percentages(values, total)) > 100 - |values|
  {
    if total == 0 {
      NoPercentages(values);
    } else {
      PercentagesScaled(values, total);
      var p := Sum(Percentages(values, total));
      CancelAtMost(p, 100, total);
      if 100 * total <= MAXIMUM {
        forall i | 0 <= i < |values| ensures 100 * values[i] <= MAXIMUM { ElementAtMostSum(values, i); }
        CancelLess(100, p + |values|, total);
      }
    }
  }

  /**
   What a chart of a ranking owes its reader: it shows the whole total, in no more slices
   than allowed, with percentages that lose less than one point each, and no named slice
   is smaller than a merged value.
   */
  ghost predicate Charts(top: seq<u32>, values: seq<u32>, total: u32, maximum: nat) {
    && Sum(top) == total
    && (|top| <= 2 || |top| <= maximum)
    && Sum(Percentages(top, total)) <= 100
    && (total > 0 && 100 * total <= MAXIMUM ==> Sum(Percentages(top, total)) > 100 - |top|)
    && (|values| > 2 && |values| > maximum ==>
          forall i, j :: 0 <= i < |top| - 1 <= j < |values| ==> top[i] >= values[j])
  }

  lemma TopSecondsChart(values: seq<u32>, total: u32, maximum: nat)
    requires Descending(values) && Sum(values) == total
    ensures Charts(TopSeconds(values, maximum), values, total, maximum)
  {
    TopSecondsConserve(values, maximum);
    TopSecondsAreTheLargest(values, maximum);
    PercentagesAddUp(TopSeconds(values, maximum), total);
  }

  lemma {:induction false} NoPercentages(values: seq<u32>)
    ensures Sum(Percentages(values, 0)) == 0
  {
    if values != [] {
      NoPercentages(values[..|values| - 1]);
      assert Percentages(values, 0)[..|values| - 1] == Percentages(values[..|values| - 1], 0);
    }
  }

  lemma CancelAtMost(a: nat, b: nat, c: nat)
    requires c > 0 && a * c <= b * c
    ensures a <= b
  {}

  lemma CancelLess(a: nat, b: nat, c: nat)
    requires c > 0 && a * c < b * c
    ensures a < b
  {}

  /**
   The whole is shown as one hundred per cent exactly while the multiplication does not
   saturate: above 42,949,672 seconds the full total is reported as less than 100.
   */
  lemma WholeIsOneHundredPercent(total: u32)
    ensures Percentage(total, total) == 100 <==> 0 < total && 100 * total <= MAXIMUM
    ensures Percentage(42_949_673, 42_949_673) == 99
  {
    if total > 0 {
      DivisionBounds(SaturatingMul(total, MAX_PERCENT), total);
      var p := Percentage(total, total);
      if 100 * total <= MAXIMUM {
        CancelAtMost(p, 100, total);
        CancelLess(100, p + 1, total);
      } else {
        CancelLess(p, 100, total);
      }
    }
  }
}
