/**
 The second analysis script's detector for noisy spectra: the same rule as
 the first script's, with two bins left out at each end instead of one.
 */
module ExamenP2 {
  import opened Spectrum
  import opened PeakDetector

  /** The script's default relative threshold. */
  const DefaultThreshold: real := 0.15

  /**
   Margin-2 detector: bins 0, 1, N-2 and N-1 are never candidates; a
   candidate is reported when it is a strict local maximum above `threshold`
   times the global maximum, which still ranges over every bin.
   */
  function FindPeaksWithNoise(magnitude: seq<real>, frequencies: seq<real>, threshold: real := DefaultThreshold): (r: Result<Peaks>)
    requires |frequencies| == |magnitude|
    ensures r.Err? <==> |magnitude| == 0
    ensures r.Ok? ==>
      var idx := FindPeakIndices(magnitude, 2, threshold).value;
      && |r.value.freqs| == |idx| && |r.value.amps| == |idx|
      && forall j :: 0 <= j < |idx| ==>
           && 2 <= idx[j] <= |magnitude| - 3
           && magnitude[idx[j]] > magnitude[idx[j] - 1]
           && magnitude[idx[j]] > magnitude[idx[j] + 1]
           && r.value.freqs[j] == frequencies[idx[j]]
           && r.value.amps[j] == magnitude[idx[j]]
           && r.value.amps[j] > Level(magnitude, threshold)
  {
    FindPeaks(magnitude, frequencies, 2, threshold)
  }
}
