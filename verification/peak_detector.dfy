/**
 The spectral peak detector shared by both analysis scripts.

 Both scripts scan a magnitude spectrum from index `margin` up to, but not
 including, `|m| - margin` (Python's `range(margin, len(m) - margin)`), and
 keep an index when its magnitude is strictly above both immediate neighbours
 and strictly above `threshold * max(m)`, the maximum being taken over the
 whole spectrum, edge bins included. The first script uses margin 1, the
 second margin 2. The detector yields the kept indices in scan order; the
 reported frequencies and amplitudes are read off at those indices.
 */
module PeakDetector {
  import opened Spectrum

  /** Index `i` has both neighbours, is a strict local maximum and exceeds `level`. */
  predicate IsPeakAt(m: seq<real>, i: int, level: real) {
    && 1 <= i < |m| - 1
    && m[i] > m[i - 1]
    && m[i] > m[i + 1]
    && m[i] > level
  }

  /** The magnitude a peak must exceed: `threshold` times the global maximum, edge bins included. */
  function Level(m: seq<real>, threshold: real): real
    requires |m| > 0
  {
    threshold * Max(m)
  }

  /** Index `i` is visited by a scan that leaves `margin` bins out at each end. */
  predicate InScan(m: seq<real>, margin: nat, i: int) {
    margin <= i < |m| - margin
  }

  /**
   The reference description of a detector result: `idx` lists, in strictly
   ascending order, exactly the scanned indices that are peaks above `level`.
   */
  ghost predicate IsPeakList(m: seq<real>, margin: nat, level: real, idx: seq<nat>) {
    && (forall k :: 0 <= k < |idx| ==> InScan(m, margin, idx[k]) && IsPeakAt(m, idx[k], level))
    && (forall i :: InScan(m, margin, i) && IsPeakAt(m, i, level) ==> i in idx)
    && StrictlyIncreasing(idx)
  }

  /** The indices in `lo .. hi - 1` that are peaks above `level`, in the order a scan meets them. */
  function PeakIndicesFrom(m: seq<real>, lo: nat, hi: int, level: real): (r: seq<nat>)
    ensures forall k :: 0 <= k < |r| ==> lo <= r[k] < hi && IsPeakAt(m, r[k], level)
    ensures forall i :: lo <= i < hi && IsPeakAt(m, i, level) ==> i in r
    ensures StrictlyIncreasing(r)
    decreases hi - lo
  {
    if hi <= lo then []
    else if IsPeakAt(m, lo, level) then [lo] + PeakIndicesFrom(m, lo + 1, hi, level)
    else PeakIndicesFrom(m, lo + 1, hi, level)
  }

  /** The peak list of a scan with the given margin, against a fixed level. */
  function PeakIndices(m: seq<real>, margin: nat, level: real): (r: seq<nat>)
    requires margin >= 1
    ensures IsPeakList(m, margin, level, r)
  {
    PeakIndicesFrom(m, margin, |m| - margin, level)
  }

  /**
   The detector with an explicit margin: `EmptySpectrum` for an empty
   spectrum (the maximum is undefined), otherwise the peak list above
   `threshold` times the global maximum.
   */
  function FindPeakIndices(m: seq<real>, margin: nat, threshold: real): (r: Result<seq<nat>>)
    requires margin >= 1
    ensures r.Err? <==> |m| == 0
    ensures r.Err? ==> r.error == EmptySpectrum
    ensures r.Ok? ==> IsPeakList(m, margin, Level(m, threshold), r.value)
  {
    if |m| == 0 then Err(EmptySpectrum)
    else Ok(PeakIndices(m, margin, Level(m, threshold)))
  }

  /** The peak list is the only list meeting the reference description. */
  lemma PeakListUnique(m: seq<real>, margin: nat, level: real, a: seq<nat>, b: seq<nat>)
    requires IsPeakList(m, margin, level, a) && IsPeakList(m, margin, level, b)
    ensures a == b
  {
    forall x: int
      ensures x in a <==> x in b
    {
      if x in a {
        var k :| 0 <= k < |a| && a[k] == x;
      }
      if x in b {
        var k :| 0 <= k < |b| && b[k] == x;
      }
    }
    AscendingDeterminedByElements(a, b);
  }

  /** Any list meeting the reference description is what the detector returns. */
  lemma FindPeakIndicesCharacterized(m: seq<real>, margin: nat, threshold: real, idx: seq<nat>)
    requires margin >= 1 && |m| > 0
    ensures IsPeakList(m, margin, Level(m, threshold), idx) <==> FindPeakIndices(m, margin, threshold) == Ok(idx)
  {
    if IsPeakList(m, margin, Level(m, threshold), idx) {
      PeakListUnique(m, margin, Level(m, threshold), idx, FindPeakIndices(m, margin, threshold).value);
    }
  }

  /** Reads `xs` at each index of `idx`, as numpy's integer-array indexing `xs[idx]` does. */
  function Gather(xs: seq<real>, idx: seq<nat>): (r: seq<real>)
    requires forall k :: 0 <= k < |idx| ==> idx[k] < |xs|
    ensures |r| == |idx|
    ensures forall k :: 0 <= k < |idx| ==> r[k] == xs[idx[k]]
  {
    if |idx| == 0 then []
    else [xs[idx[0]]] + Gather(xs, idx[1..])
  }

  /** The pair of arrays each script returns: peak frequencies and peak amplitudes. */
  datatype Peaks = Peaks(freqs: seq<real>, amps: seq<real>)

  /**
   The whole detector: peak indices projected onto the frequency and the
   magnitude arrays. Both arrays must have the same length; the scripts never
   check it.
   */
  function FindPeaks(m: seq<real>, f: seq<real>, margin: nat, threshold: real): (r: Result<Peaks>)
    requires margin >= 1
    requires |f| == |m|
    ensures r.Err? <==> |m| == 0
    ensures r.Err? ==> r.error == EmptySpectrum
    ensures r.Ok? ==>
      var idx := FindPeakIndices(m, margin, threshold).value;
      && |r.value.freqs| == |idx| && |r.value.amps| == |idx|
      && forall j :: 0 <= j < |idx| ==>
           && r.value.freqs[j] == f[idx[j]]
           && r.value.amps[j] == m[idx[j]]
           && r.value.amps[j] > Level(m, threshold)
  {
    if |m| == 0 then Err(EmptySpectrum)
    else
      var idx := FindPeakIndices(m, margin, threshold).value;
      assert forall k :: 0 <= k < |idx| ==> IsPeakAt(m, idx[k], Level(m, threshold));
      Ok(Peaks(Gather(f, idx), Gather(m, idx)))
  }

  /** The global maximum computed by a left-to-right pass; over exact reals the order of the pass does not change the result. */
  method MaxMagnitude(m: seq<real>) returns (mx: real)
    requires |m| > 0
    ensures forall k :: 0 <= k < |m| ==> m[k] <= mx
    ensures mx in m
    ensures mx == Max(m)
  {
    mx := m[0];
    var j := 1;
    while j < |m|
      invariant 1 <= j <= |m|
      invariant forall k :: 0 <= k < j ==> m[k] <= mx
      invariant exists k :: 0 <= k < j && m[k] == mx
    {
      if m[j] > mx {
        mx := m[j];
      }
      j := j + 1;
    }
    MaxUnique(m, mx);
  }

  /** The scan loop: visits `margin .. |m| - margin - 1` in order, appending each peak above `level`. */
  method ScanIndices(m: seq<real>, margin: nat, level: real) returns (peakIndices: seq<nat>)
    requires margin >= 1
    ensures IsPeakList(m, margin, level, peakIndices)
    ensures peakIndices == PeakIndices(m, margin, level)
  {
    peakIndices := [];
    var i := margin;
    while i < |m| - margin
      invariant margin <= i
      invariant forall k :: 0 <= k < |peakIndices| ==>
        margin <= peakIndices[k] < i && peakIndices[k] < |m| - margin && IsPeakAt(m, peakIndices[k], level)
      invariant forall q :: margin <= q < i && q < |m| - margin && IsPeakAt(m, q, level) ==> q in peakIndices
      invariant StrictlyIncreasing(peakIndices)
      decreases |m| - margin - i
    {
      if m[i] > m[i - 1] && m[i] > m[i + 1] && m[i] > level {
        peakIndices := peakIndices + [i];
      }
      i := i + 1;
    }
    PeakListUnique(m, margin, level, peakIndices, PeakIndices(m, margin, level));
  }

  /**
   The detector written as the scripts write it: one pass for the maximum,
   then one pass over the scanned indices appending each peak.
   */
  method ScanPeaks(m: seq<real>, margin: nat, threshold: real) returns (r: Result<seq<nat>>)
    requires margin >= 1
    ensures r.Err? <==> |m| == 0
    ensures r.Ok? ==> IsPeakList(m, margin, Level(m, threshold), r.value)
    ensures r == FindPeakIndices(m, margin, threshold)
  {
    if |m| == 0 {
      return Err(EmptySpectrum);
    }
    var maxMagnitude := MaxMagnitude(m);
    var level := threshold * maxMagnitude;
    assert level == Level(m, threshold);
    var peakIndices := ScanIndices(m, margin, level);
    return Ok(peakIndices);
  }
}
