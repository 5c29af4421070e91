/** Which points of a trend get a label: the first, the last, and every so many between. */
module ReportTrend {
  import opened TopSlices

  function CeilingDivide(a: nat, b: nat): nat
    requires b > 0
  {
    (a + b - 1) / b
  }

  function LastIndex(count: nat): nat { if count == 0 then 0 else count - 1 }

  function Interval(count: nat, maximum: nat): nat {
    CeilingDivide(LastIndex(count), Slots(maximum) - 1)
  }

  predicate IsVisible(index: nat, last: nat, interval: nat) {
    index == 0 || index == last || index % (if interval == 0 then 1 else interval) == 0
  }

  /** The first `n` points with the hidden ones filtered out. */
  function VisibleAmong<T>(points: seq<T>, last: nat, interval: nat, n: nat): seq<T>
    requires n <= |points|
  {
    if n == 0 then []
    else
      var rest := VisibleAmong(points, last, interval, n - 1);
      if IsVisible(n - 1, last, interval) then rest + [points[n - 1]] else rest
  }

  function VisibleTrendPoints<T>(points: seq<T>, maximum: nat): seq<T> {
    VisibleAmong(points, LastIndex(|points|), Interval(|points|, maximum), |points|)
  }

  function TrendLabels<T>(points: seq<T>, maximum: nat, format: T -> string): seq<string> {
    seq(|points|, i requires 0 <= i < |points| =>
      if IsVisible(i, LastIndex(|points|), Interval(|points|, maximum)) then format(points[i]) else "")
  }

  /** The positions of the visible points among the first `n`. */
  function VisibleIndices(last: nat, interval: nat, n: nat): seq<nat> {
    if n == 0 then []
    else
      var rest := VisibleIndices(last, interval, n - 1);
      if IsVisible(n - 1, last, interval) then rest + [n - 1] else rest
  }

  // ----- An ordered selection with both ends -----

  lemma {:induction false} IndicesAreOrdered(last: nat, interval: nat, n: nat)
    ensures forall i, j :: 0 <= i < j < |VisibleIndices(last, interval, n)| ==>
              VisibleIndices(last, interval, n)[i] < VisibleIndices(last, interval, n)[j]
    ensures forall i :: i in VisibleIndices(last, interval, n) <==> 0 <= i < n && IsVisible(i, last, interval)
  {
    if n > 0 {
      var rest, indices := VisibleIndices(last, interval, n - 1), VisibleIndices(last, interval, n);
      IndicesAreOrdered(last, interval, n - 1);
      if IsVisible(n - 1, last, interval) {
        assert indices == rest + [n - 1];
        assert forall i :: 0 <= i < |rest| ==> rest[i] in rest;
        assert forall i :: i in indices <==> i in rest || i == n - 1;
      } else {
        assert indices == rest;
      }
    }
  }

  lemma {:induction false} VisibleByIndex<T>(points: seq<T>, last: nat, interval: nat, n: nat)
    requires n <= |points|
    ensures |VisibleAmong(points, last, interval, n)| == |VisibleIndices(last, interval, n)|
    ensures forall i :: 0 <= i < |VisibleIndices(last, interval, n)| ==>
              && VisibleIndices(last, interval, n)[i] < n
              && VisibleAmong(points, last, interval, n)[i] == points[VisibleIndices(last, interval, n)[i]]
  {
    if n > 0 { VisibleByIndex(points, last, interval, n - 1); }
  }

  // ----- How many are visible -----

  lemma CeilingBounds(a: nat, b: nat)
    requires b > 0
    ensures a <= CeilingDivide(a, b) * b < a + b
  {}

  /** The ceiling of a quotient is the least number of steps of size `b` that reach `a`. */
  lemma CeilingIsLeast(a: nat, b: nat, steps: nat)
    requires b > 0
    ensures CeilingDivide(a, b) <= steps <==> a <= steps * b
  {
    CeilingBounds(a, b);
    var c := CeilingDivide(a, b);
    if c <= steps { MultiplyMonotone(c, steps, b); }
    if steps < c { MultiplyMonotone(steps + 1, c, b); assert (steps + 1) * b == steps * b + b; }
  }

  lemma MultiplyMonotone(a: nat, b: nat, c: nat)
    requires a <= b
    ensures a * c <= b * c
  {}

  lemma CeilingIs(n: nat, b: nat, c: nat)
    requires b > 0 && n <= c * b
    requires c > 0 ==> (c - 1) * b < n
    ensures CeilingDivide(n, b) == c
  {
    CeilingIsLeast(n, b, c);
    if c > 0 { CeilingIsLeast(n, b, c - 1); }
  }

  lemma CeilingStep(n: nat, b: nat)
    requires b > 0
    ensures CeilingDivide(n + 1, b) == CeilingDivide(n, b) + (if n % b == 0 then 1 else 0)
  {
    var q, r := n / b, n % b;
    assert n == q * b + r;
    assert (q + 1) * b == q * b + b;
    CeilingIs(n + 1, b, q + 1);
    if r > 0 {
      CeilingIs(n, b, q + 1);
    } else {
      assert q > 0 ==> (q - 1) * b == q * b - b;
      CeilingIs(n, b, q);
    }
  }

  lemma {:induction false} CountBefore(last: nat, interval: nat, n: nat)
    requires interval > 0 && n <= last
    ensures |VisibleIndices(last, interval, n)| == CeilingDivide(n, interval)
  {
    if n > 0 {
      CountBefore(last, interval, n - 1);
      CeilingStep(n - 1, interval);
    }
  }

  /** One point per interval before the last one, and the last one. */
  lemma VisibleCount(count: nat, interval: nat)
    requires count > 0 && (interval > 0 || count == 1)
    ensures |VisibleIndices(count - 1, interval, count)|
         == (if count == 1 then 1 else CeilingDivide(count - 1, interval) + 1)
  {
    if count == 1 {
      assert VisibleIndices(0, interval, 0) == [];
    } else {
      CountBefore(count - 1, interval, count - 1);
    }
  }

  /**
   The chosen interval is the least one that keeps within its slots: it shows at most
   `maximum` points (two at the very least), and any smaller interval would show more.
   */
  lemma IntervalIsLeast(count: nat, maximum: nat, interval: nat)
    requires count > 1 && interval > 0
    ensures |VisibleIndices(count - 1, interval, count)| <= Slots(maximum)
       <==> Interval(count, maximum) <= interval
  {
    var last, gaps := count - 1, Slots(maximum) - 1;
    VisibleCount(count, interval);
    CeilingIsLeast(last, interval, gaps);
    CeilingIsLeast(last, gaps, interval);
  }

  lemma WithinSlots(count: nat, maximum: nat)
    ensures |VisibleIndices(LastIndex(count), Interval(count, maximum), count)| <= Slots(maximum)
  {
    if count == 1 {
      VisibleCount(count, Interval(count, maximum));
    } else if count > 1 {
      CeilingIsLeast(count - 1, Slots(maximum) - 1, 0);
      IntervalIsLeast(count, maximum, Interval(count, maximum));
    }
  }

  lemma {:induction false} FirstIsVisible(last: nat, interval: nat, n: nat)
    requires n > 0
    ensures VisibleIndices(last, interval, n) != [] && VisibleIndices(last, interval, n)[0] == 0
  {
    if n > 1 {
      FirstIsVisible(last, interval, n - 1);
    } else {
      assert VisibleIndices(last, interval, 0) == [];
    }
  }

  lemma LastIsVisible(last: nat, interval: nat)
    ensures var indices := VisibleIndices(last, interval, last + 1);
            indices != [] && indices[|indices| - 1] == last
  {}

  /**
   The visible points of any trend: an ordered selection within its slots that holds
   the first and the last point.
   */
  lemma VisibleTrend<T>(points: seq<T>, maximum: nat)
    ensures var visible := VisibleTrendPoints(points, maximum);
            var indices := VisibleIndices(LastIndex(|points|), Interval(|points|, maximum), |points|);
            && |visible| == |indices| <= Slots(maximum)
            && (forall i, j :: 0 <= i < j < |indices| ==> indices[i] < indices[j])
            && (forall i :: 0 <= i < |indices| ==> indices[i] < |points| && visible[i] == points[indices[i]])
            && (points != [] ==>
                  && |visible| > 0
                  && visible[0] == points[0]
                  && visible[|visible| - 1] == points[|points| - 1])
  {
    var count, last, interval := |points|, LastIndex(|points|), Interval(|points|, maximum);
    WithinSlots(count, maximum);
    IndicesAreOrdered(last, interval, count);
    VisibleByIndex(points, last, interval, count);
    if count > 0 {
      FirstIsVisible(last, interval, count);
      LastIsVisible(last, interval);
    }
  }

  /** A label is the format of its point, or nothing. */
  lemma LabelIs<T>(points: seq<T>, maximum: nat, format: T -> string, i: nat)
    requires i < |points|
    ensures |TrendLabels(points, maximum, format)| == |points|
    ensures TrendLabels(points, maximum, format)[i]
         == if i in VisibleIndices(LastIndex(|points|), Interval(|points|, maximum), |points|) then format(points[i])
            else ""
  {
    IndicesAreOrdered(LastIndex(|points|), Interval(|points|, maximum), |points|);
  }

  /** Labels stand exactly at the visible points, given that dates never format to nothing. */
  lemma LabelsMarkVisiblePoints<T>(points: seq<T>, maximum: nat, format: T -> string, i: nat)
    requires i < |points| && format(points[i]) != ""
    ensures TrendLabels(points, maximum, format)[i] != ""
       <==> i in VisibleIndices(LastIndex(|points|), Interval(|points|, maximum), |points|)
  {
    IndicesAreOrdered(LastIndex(|points|), Interval(|points|, maximum), |points|);
  }
}
