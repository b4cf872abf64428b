/**
 The first analysis script: frequency resolution of an N-point transform and
 the margin-1 spectral peak detector. The magnitudes are taken as given (the
 script computes them as the absolute value of its transform output).
 */
module ExamenP1 {
  import opened Spectrum
  import opened PeakDetector

  /** The script's default relative threshold. */
  const DefaultThreshold: real := 0.1

  /**
   Spacing between adjacent frequency bins of an `n`-point transform sampled
   at `fs`: the `n` bins together span exactly `fs`. Dividing by zero samples
   raises.
   */
  function FrequencyResolution(fs: real, n: int): (r: Result<real>)
    ensures r.Err? <==> n == 0
    ensures r.Err? ==> r.error == ZeroSamples
    ensures r.Ok? ==> r.value * (n as real) == fs
    ensures r.Ok? && fs > 0.0 && n > 0 ==> r.value > 0.0
  {
    if n == 0 then Err(ZeroSamples) else Ok(fs / (n as real))
  }

  /**
   Margin-1 detector: every bin except the first and the last is a
   candidate; a candidate is reported when it is a strict local maximum above
   `threshold` times the global maximum.
   */
  function FindSpectralPeaks(magnitude: seq<real>, frequencies: seq<real>, threshold: real := DefaultThreshold): (r: Result<Peaks>)
    requires |frequencies| == |magnitude|
    ensures r.Err? <==> |magnitude| == 0
    ensures r.Ok? ==>
      var idx := FindPeakIndices(magnitude, 1, threshold).value;
      && |r.value.freqs| == |idx| && |r.value.amps| == |idx|
      && forall j :: 0 <= j < |idx| ==>
           && 1 <= idx[j] <= |magnitude| - 2
           && magnitude[idx[j]] > magnitude[idx[j] - 1]
           && magnitude[idx[j]] > magnitude[idx[j] + 1]
           && r.value.freqs[j] == frequencies[idx[j]]
           && r.value.amps[j] == magnitude[idx[j]]
           && r.value.amps[j] > Level(magnitude, threshold)
  {
    FindPeaks(magnitude, frequencies, 1, threshold)
  }
}
