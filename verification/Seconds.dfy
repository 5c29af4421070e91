/**
 Unsigned 32-bit seconds, and the two ways the reports add them up: folds of
 `saturating_add`, which stop at the maximum, and `Iterator::sum`, which wraps
 around in a release build.
 */
module Seconds {
  const MAXIMUM: nat := 0xFFFF_FFFF

  type u32 = n: nat | n <= MAXIMUM

  function SaturatingAdd(a: u32, b: u32): u32 {
    if a + b <= MAXIMUM then a + b else MAXIMUM
  }

  function SaturatingMul(a: u32, b: u32): u32 {
    if a * b <= MAXIMUM then a * b else MAXIMUM
  }

  function Clamp(n: nat): u32 {
    if n <= MAXIMUM then n else MAXIMUM
  }

  function Wrap(n: nat): u32 {
    n % 0x1_0000_0000
  }

  /** The true total, which no machine word has to hold. */
  function Sum(s: seq<nat>): nat {
    if s == [] then 0 else Sum(s[..|s| - 1]) + s[|s| - 1]
  }

  function SaturatingSum(s: seq<u32>): u32 {
    if s == [] then 0 else SaturatingAdd(SaturatingSum(s[..|s| - 1]), s[|s| - 1])
  }

  function WrappingSum(s: seq<u32>): u32 {
    if s == [] then 0 else Wrap(WrappingSum(s[..|s| - 1]) + s[|s| - 1])
  }

  /** A saturating fold is the true total cut off at the maximum, whatever the order. */
  lemma {:induction false} SaturatingSumIsClamped(s: seq<u32>)
    ensures SaturatingSum(s) == Clamp(Sum(s))
  {
    if s != [] { SaturatingSumIsClamped(s[..|s| - 1]); }
  }

  lemma WrapAgain(a: nat, b: nat)
    ensures Wrap(Wrap(a) + b) == Wrap(a + b)
  {}

  /** A wrapping sum is the true total modulo 2^32; it is exact just when the total fits. */
  lemma {:induction false} WrappingSumIsModular(s: seq<u32>)
    ensures WrappingSum(s) == Wrap(Sum(s))
    ensures WrappingSum(s) == Sum(s) <==> Sum(s) <= MAXIMUM
  {
    if s != [] {
      WrappingSumIsModular(s[..|s| - 1]);
      WrapAgain(Sum(s[..|s| - 1]), s[|s| - 1]);
    }
  }

  lemma {:induction false} SumOfConcat(a: seq<nat>, b: seq<nat>)
    ensures Sum(a + b) == Sum(a) + Sum(b)
  {
    if b == [] {
      assert a + b == a;
    } else {
      assert (a + b)[..|a + b| - 1] == a + b[..|b| - 1];
      SumOfConcat(a, b[..|b| - 1]);
    }
  }

  lemma {:induction false} ElementAtMostSum(s: seq<nat>, i: nat)
    requires i < |s|
    ensures s[i] <= Sum(s)
  {
    if i < |s| - 1 { ElementAtMostSum(s[..|s| - 1], i); }
  }

  function ClampAll(parts: seq<nat>): seq<u32> {
    seq(|parts|, i requires 0 <= i < |parts| => Clamp(parts[i]))
  }

  /** Clamping the parts keeps their sum exactly when no part had to be clamped. */
  lemma {:induction false} ClampedPartsAddUp(parts: seq<nat>)
    ensures Sum(ClampAll(parts)) <= Sum(parts)
    ensures Sum(ClampAll(parts)) == Sum(parts) <==> forall i :: 0 <= i < |parts| ==> parts[i] <= MAXIMUM
  {
    if parts != [] {
      var init := parts[..|parts| - 1];
      ClampedPartsAddUp(init);
      assert ClampAll(parts)[..|parts| - 1] == ClampAll(init);
      if i :| 0 <= i < |init| && init[i] > MAXIMUM {
        assert parts[i] > MAXIMUM;
      }
    }
  }
}
