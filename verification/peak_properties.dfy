/**
 Properties of the peak detector that relate several calls or fix concrete
 outcomes: when nothing can be reported, how the two scripts' variants relate,
 how the threshold acts, and the worked scenarios.
 */
module PeakProperties {
  import opened Spectrum
  import opened PeakDetector
  import ExamenP1
  import ExamenP2

  /** The elements of `s` that are not in `drop`, in their original order. */
  function Without(s: seq<nat>, drop: set<int>): (r: seq<nat>)
    ensures forall x :: x in r <==> x in s && x !in drop
    ensures StrictlyIncreasing(s) ==> StrictlyIncreasing(r)
  {
    if |s| == 0 then []
    else
      var rest := Without(s[1..], drop);
      assert forall x :: x in s[1..] ==> x in s;
      assert StrictlyIncreasing(s) ==> StrictlyIncreasing(s[1..]) && forall k :: 0 <= k < |s[1..]| ==> s[0] < s[1..][k];
      if s[0] in drop then rest
      else
        assert StrictlyIncreasing(s) ==> StrictlyIncreasing([s[0]] + rest) by {
          if StrictlyIncreasing(s) {
            PrependKeepsIncreasing(s[0], rest);
          }
        }
        [s[0]] + rest
  }

  /** A scan over bins none of which is a peak reports nothing. */
  lemma {:induction false} NoPeakInRangeFrom(m: seq<real>, lo: nat, hi: int, level: real)
    requires forall i :: lo <= i < hi ==> !IsPeakAt(m, i, level)
    ensures PeakIndicesFrom(m, lo, hi, level) == []
    decreases hi - lo
  {
    if lo < hi {
      NoPeakInRangeFrom(m, lo + 1, hi, level);
    }
  }

  /** A spectrum too short to hold a scanned bin yields no peaks. */
  lemma ShortSpectrumHasNoPeaks(m: seq<real>, margin: nat, level: real)
    requires margin >= 1
    requires |m| <= 2 * margin
    ensures PeakIndices(m, margin, level) == []
  {
  }

  /** Equal neighbours never make a peak, so a flat spectrum yields none. */
  lemma ConstantSpectrumHasNoPeaks(m: seq<real>, margin: nat, level: real)
    requires margin >= 1
    requires forall i :: 0 <= i < |m| ==> m[i] == m[0]
    ensures PeakIndices(m, margin, level) == []
  {
    forall i | margin <= i < |m| - margin
      ensures !IsPeakAt(m, i, level)
    {
      assert m[i] == m[i - 1];
    }
    NoPeakInRangeFrom(m, margin, |m| - margin, level);
  }

  /**
   Neither script reports anything for a flat spectrum; the noisy-signal
   detector reports nothing below five bins, the first script's below three.
   */
  lemma FlatOrShortSpectrumReportsNothing(m: seq<real>, f: seq<real>, threshold: real)
    requires |m| == |f| && |m| > 0
    ensures (forall i :: 0 <= i < |m| ==> m[i] == m[0]) || |m| < 5 ==>
      ExamenP2.FindPeaksWithNoise(m, f, threshold) == Ok(Peaks([], []))
    ensures (forall i :: 0 <= i < |m| ==> m[i] == m[0]) || |m| < 3 ==>
      ExamenP1.FindSpectralPeaks(m, f, threshold) == Ok(Peaks([], []))
  {
    var level := Level(m, threshold);
    if forall i :: 0 <= i < |m| ==> m[i] == m[0] {
      ConstantSpectrumHasNoPeaks(m, 1, level);
      ConstantSpectrumHasNoPeaks(m, 2, level);
    }
    if |m| < 5 {
      ShortSpectrumHasNoPeaks(m, 2, level);
    }
    if |m| < 3 {
      ShortSpectrumHasNoPeaks(m, 1, level);
    }
  }

  /**
   The noisy-signal detector's margin-2 scan reports what the first script's
   margin-1 scan reports, with bins 1 and N-2 removed.
   */
  lemma NoiseVariantDropsInnerEdges(m: seq<real>, level: real)
    ensures PeakIndices(m, 2, level) == Without(PeakIndices(m, 1, level), {1, |m| - 2})
  {
    var one := PeakIndices(m, 1, level);
    var dropped := Without(one, {1, |m| - 2});
    forall k | 0 <= k < |dropped|
      ensures InScan(m, 2, dropped[k]) && IsPeakAt(m, dropped[k], level)
    {
      assert dropped[k] in dropped;
      assert dropped[k] in one;
      var j :| 0 <= j < |one| && one[j] == dropped[k];
    }
    forall i | InScan(m, 2, i) && IsPeakAt(m, i, level)
      ensures i in dropped
    {
      assert InScan(m, 1, i);
    }
    PeakListUnique(m, 2, level, dropped, PeakIndices(m, 2, level));
  }

  /** The same relation between the two scripts' detectors, for any threshold. */
  lemma NoiseDetectorDropsInnerEdges(m: seq<real>, threshold: real)
    requires |m| > 0
    ensures FindPeakIndices(m, 2, threshold).value
         == Without(FindPeakIndices(m, 1, threshold).value, {1, |m| - 2})
  {
    NoiseVariantDropsInnerEdges(m, Level(m, threshold));
  }

  /** Raising the level can only remove peaks. */
  lemma RaisingLevelRemovesPeaks(m: seq<real>, margin: nat, low: real, high: real)
    requires margin >= 1
    requires low <= high
    ensures forall i :: i in PeakIndices(m, margin, high) ==> i in PeakIndices(m, margin, low)
  {
    var hi := PeakIndices(m, margin, high);
    forall i | i in hi
      ensures i in PeakIndices(m, margin, low)
    {
      var k :| 0 <= k < |hi| && hi[k] == i;
      assert IsPeakAt(m, i, low);
    }
  }

  /** Multiplying by a non-negative factor keeps the order of two reals. */
  lemma ScaleKeepsOrder(low: real, high: real, factor: real)
    requires low <= high && factor >= 0.0
    ensures low * factor <= high * factor
  {
    assert high * factor - low * factor == (high - low) * factor;
  }

  /** With a non-negative maximum, a larger threshold gives a larger level. */
  lemma LevelMonotone(m: seq<real>, low: real, high: real)
    requires |m| > 0 && Max(m) >= 0.0
    requires low <= high
    ensures Level(m, low) <= Level(m, high)
  {
    ScaleKeepsOrder(low, high, Max(m));
  }

  /**
   For a spectrum whose maximum is not negative (every magnitude spectrum),
   raising the threshold can only remove peaks.
   */
  lemma RaisingThresholdRemovesPeaks(m: seq<real>, margin: nat, low: real, high: real)
    requires margin >= 1
    requires |m| > 0 && Max(m) >= 0.0
    requires low <= high
    ensures forall i :: i in FindPeakIndices(m, margin, high).value ==> i in FindPeakIndices(m, margin, low).value
  {
    LevelMonotone(m, low, high);
    RaisingLevelRemovesPeaks(m, margin, Level(m, low), Level(m, high));
  }

  /**
   The maximum ranges over the edge bins too: a large edge bin that can never
   be reported still raises the level, and so hides an interior local maximum.
   */
  lemma EdgeBinRaisesLevel()
    ensures IsPeakAt([10.0, 0.0, 1.0, 0.0, 0.0], 2, 0.0)
    ensures FindPeakIndices([10.0, 0.0, 1.0, 0.0, 0.0], 1, 0.5) == Ok([])
  {
    var m := [10.0, 0.0, 1.0, 0.0, 0.0];
    assert m[0] == 10.0;
    MaxUnique(m, 10.0);
    assert Level(m, 0.5) == 5.0;
    forall i | 1 <= i < |m| - 1
      ensures !IsPeakAt(m, i, 5.0)
    {
      assert i == 1 || i == 2 || i == 3;
    }
    assert PeakIndices(m, 1, 5.0) == [];
  }

  /** On `m`, bin 2 is the only strict local maximum above 0.5, whatever the margin up to 2. */
  lemma SinglePeakIndices(m: seq<real>, margin: nat)
    requires m == [0.0, 1.0, 5.0, 1.0, 0.0]
    requires 1 <= margin <= 2
    ensures PeakIndices(m, margin, 0.5) == [2]
  {
    forall i | InScan(m, margin, i) && IsPeakAt(m, i, 0.5)
      ensures i in [2]
    {
      assert i == 1 || i == 2 || i == 3;
    }
    assert IsPeakList(m, margin, 0.5, [2]);
    PeakListUnique(m, margin, 0.5, [2], PeakIndices(m, margin, 0.5));
  }

  /**
   One clear peak in the middle of a five-bin spectrum is found by both
   detectors; 0.1 is also the first script's default threshold.
   */
  lemma SinglePeakScenario()
    ensures ExamenP1.FindSpectralPeaks([0.0, 1.0, 5.0, 1.0, 0.0], [0.0, 1.0, 2.0, 3.0, 4.0])
         == Ok(Peaks([2.0], [5.0]))
    ensures ExamenP2.FindPeaksWithNoise([0.0, 1.0, 5.0, 1.0, 0.0], [0.0, 1.0, 2.0, 3.0, 4.0], 0.1)
         == Ok(Peaks([2.0], [5.0]))
  {
    var m := [0.0, 1.0, 5.0, 1.0, 0.0];
    var f := [0.0, 1.0, 2.0, 3.0, 4.0];
    assert m[2] == 5.0;
    MaxUnique(m, 5.0);
    assert Level(m, 0.1) == 0.5;
    SinglePeakIndices(m, 1);
    SinglePeakIndices(m, 2);
    assert Gather(f, [2]) == [2.0];
    assert Gather(m, [2]) == [5.0];
  }
}
