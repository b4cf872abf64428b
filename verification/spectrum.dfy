/**
 Values shared by both analysis scripts: the error kinds the numeric core can
 raise, the global maximum of a magnitude spectrum (numpy's `max`), and the
 ordering facts about index lists that the peak detector's results obey.

 Magnitudes and frequencies are exact reals: the model does not follow the
 floating-point rounding of the scripts.
 */
module Spectrum {

  /** The failures the modelled functions can raise. */
  datatype Error =
    | EmptySpectrum   // `max` of an empty magnitude array raises
    | ZeroSamples     // `fs / N` with N == 0 raises a division error

  datatype Result<+T> = Ok(value: T) | Err(error: Error)

  /** The largest magnitude in a non-empty spectrum. */
  function Max(m: seq<real>): (r: real)
    requires |m| > 0
    ensures forall i :: 0 <= i < |m| ==> m[i] <= r
    ensures exists i :: 0 <= i < |m| && m[i] == r
    decreases |m|
  {
    if |m| == 1 then m[0]
    else
      var rest := Max(m[1..]);
      assert forall i :: 1 <= i < |m| ==> m[i] == m[1..][i - 1];
      if m[0] >= rest then m[0] else rest
  }

  /** An upper bound that is attained is the maximum: `Max` is the only value with both properties. */
  lemma MaxUnique(m: seq<real>, v: real)
    requires |m| > 0
    requires forall i :: 0 <= i < |m| ==> m[i] <= v
    requires exists i :: 0 <= i < |m| && m[i] == v
    ensures Max(m) == v
  {
    var i :| 0 <= i < |m| && m[i] == v;
    var j :| 0 <= j < |m| && m[j] == Max(m);
    assert v <= Max(m) && Max(m) <= v;
  }

  /** Indices in strictly ascending order, hence free of duplicates. */
  predicate StrictlyIncreasing(s: seq<int>) {
    forall j, k :: 0 <= j < k < |s| ==> s[j] < s[k]
  }

  /** Putting a value below every element in front keeps a sequence strictly ascending. */
  lemma PrependKeepsIncreasing(a: int, s: seq<int>)
    requires StrictlyIncreasing(s)
    requires forall x :: x in s ==> a < x
    ensures StrictlyIncreasing([a] + s)
  {
    forall j, k | 0 <= j < k < |[a] + s|
      ensures ([a] + s)[j] < ([a] + s)[k]
    {
      assert s[k - 1] in s;
    }
  }

  /**
   Two strictly ascending sequences holding the same elements are equal:
   an ascending index list is determined by its set of indices.
   */
  lemma {:induction false} AscendingDeterminedByElements(a: seq<int>, b: seq<int>)
    requires StrictlyIncreasing(a) && StrictlyIncreasing(b)
    requires forall x :: x in a <==> x in b
    ensures a == b
    decreases |a| + |b|
  {
    assert |a| > 0 ==> a[0] in a && a[0] in b;
    assert |b| > 0 ==> b[0] in b && b[0] in a;
    if |a| == 0 {
      assert |b| == 0;
    } else {
      assert |b| > 0;
      assert a[0] == b[0];
      forall x
        ensures x in a[1..] <==> x in b[1..]
      {
        if x in a[1..] {
          var k :| 1 <= k < |a| && a[k] == x;
          assert x != a[0];
        }
        if x in b[1..] {
          var k :| 1 <= k < |b| && b[k] == x;
          assert x != b[0];
        }
        if x in a && x != a[0] {
          var k :| 0 <= k < |a| && a[k] == x;
          assert a[1..][k - 1] == x;
        }
        if x in b && x != b[0] {
          var k :| 0 <= k < |b| && b[k] == x;
          assert b[1..][k - 1] == x;
        }
      }
      AscendingDeterminedByElements(a[1..], b[1..]);
      assert a == [a[0]] + a[1..];
      assert b == [b[0]] + b[1..];
    }
  }
}
