# Spectral peak detection, modelled in Dafny

The repository is a pair of teaching scripts for a digital-signal-processing
course. Each computes a direct DFT of a test signal, plots its spectrum and
then lists the spectral peaks. This project models the one piece of discrete
logic in them, the **spectral peak detector**, plus the one-line frequency
resolution `fs / N`.

Both scripts use the same detector rule. It computes the global maximum of
the magnitude spectrum. It scans the bins from `margin` to `N - margin - 1`
(margin 1 in `find_spectral_peaks`, margin 2 in `find_peaks_with_noise`). It
keeps a bin when its magnitude is strictly greater than both neighbours and
strictly greater than `threshold * max`. It returns the frequencies and
magnitudes at the kept bins, in bin order.

Modules:

- `Spectrum` (`spectrum.dfy`): the error kinds, the global maximum `Max`,
  and ascending index lists.
- `PeakDetector` (`peak_detector.dfy`): the detector, parameterised by margin
  and threshold. `IsPeakList` is the reference description: exactly the
  scanned strict local maxima above the level, in ascending order. The
  functional detector and a loop-based version that mirrors the scripts are
  both proved to produce the unique list meeting it.
- `ExamenP1` / `ExamenP2` (`examen_p1.dfy`, `examen_p2.dfy`): the two
  scripts' entry points as instances of the detector with margins 1 and 2,
  the scripts' default thresholds (0.1 and 0.15), and the frequency
  resolution.
- `PeakProperties` (`peak_properties.dfy`): results that relate several
  calls. These cover flat and short spectra, how the margin-2 detector
  relates to the margin-1 detector, threshold monotonicity, and worked
  scenarios.

Magnitudes and frequencies are exact `real`s. The model takes the magnitude
array as an input: the first script computes it as `np.abs(X)` of its DFT
output. The model accepts any real magnitudes, negative ones included.

Error cases follow the code:

- The code never checks that `magnitude` and `frequencies` have the same
  length, so the model requires it.
- `np.max` of an empty array raises (src/examen_p1.py:25,
  src/examen_p2.py:73), so the model returns `Err(EmptySpectrum)`.
- The code accepts any threshold, and so does the model.

## Model

| member | source | states |
|---|---|---|
| Spectrum.Max | src/examen_p1.py:25 | the maximum of a non-empty spectrum is at least every bin and equals some bin |
| Spectrum.AscendingDeterminedByElements | src/examen_p2.py:75-80 | two strictly ascending index lists with the same elements are equal, so a peak list is determined by which bins it holds |
| PeakDetector.PeakIndicesFrom | src/examen_p2.py:76-80 | a scan of bins lo..hi-1 returns only peaks above the level from that range, returns every such peak, and returns them strictly ascending |
| PeakDetector.PeakIndices | src/examen_p1.py:27-32 | the scan with a margin yields a list meeting the reference description (sound, complete, ascending) |
| PeakDetector.FindPeakIndices | src/examen_p2.py:72-80 | `EmptySpectrum` exactly when the spectrum is empty; otherwise the peak list for level threshold × global maximum, edge bins included in the maximum |
| PeakDetector.PeakListUnique | src/examen_p2.py:75-80 | at most one list meets the reference description for given magnitudes, margin and level |
| PeakDetector.FindPeakIndicesCharacterized | src/examen_p1.py:27-32 | for a non-empty spectrum, the detector returns idx if and only if idx meets the reference description |
| PeakDetector.Gather | src/examen_p2.py:82-83 | integer-array indexing: the result has one entry per index, and entry j is the array's value at the j-th index |
| PeakDetector.FindPeaks | src/examen_p2.py:72-85 | error exactly on an empty spectrum; otherwise the frequency and amplitude lists have the index list's length, are read at the same index, and every amplitude exceeds threshold × maximum |
| PeakDetector.MaxMagnitude | src/examen_p2.py:73 | a left-to-right pass finds a bin value that bounds every bin, which is the global maximum |
| PeakDetector.ScanIndices | src/examen_p2.py:75-80 | the append loop over bins margin..N-margin-1 produces the reference peak list, equal to the functional scan |
| PeakDetector.ScanPeaks | src/examen_p1.py:25-32 | the imperative detector errs exactly on an empty spectrum and otherwise returns the same result as the functional detector |
| ExamenP1.FrequencyResolution | src/examen_p1.py:15-16 | division by zero samples is an error; otherwise N resolutions add up to fs, and the resolution is positive when fs and N are |
| ExamenP1.FindSpectralPeaks | src/examen_p1.py:23-37 | errs exactly on an empty spectrum; each reported pair comes from one bin in 1..N-2 that is a strict local maximum above threshold × maximum, with equal-length outputs |
| ExamenP2.FindPeaksWithNoise | src/examen_p2.py:72-85 | errs exactly on an empty spectrum; each reported pair comes from one bin in 2..N-3 that is a strict local maximum above threshold × maximum, with equal-length outputs |
| PeakProperties.NoPeakInRangeFrom | src/examen_p2.py:76-80 | a scan over a range without peaks reports nothing |
| PeakProperties.ShortSpectrumHasNoPeaks | src/examen_p2.py:76 | a spectrum of at most 2 × margin bins has no scanned bin and yields no peaks |
| PeakProperties.ConstantSpectrumHasNoPeaks | src/examen_p2.py:77-78 | equal neighbours never form a peak, so a flat spectrum yields no peaks |
| PeakProperties.FlatOrShortSpectrumReportsNothing | src/examen_p2.py:76-78 | both scripts report no peaks for a flat spectrum; the noisy-signal detector reports none below 5 bins, the first script's below 3 |
| PeakProperties.NoiseVariantDropsInnerEdges | src/examen_p2.py:76 | at any level, the margin-2 peak list equals the margin-1 peak list with bins 1 and N-2 removed |
| PeakProperties.NoiseDetectorDropsInnerEdges | src/examen_p2.py:72-80 | the same relation between the two scripts' detectors for the same magnitudes and threshold |
| PeakProperties.RaisingLevelRemovesPeaks | src/examen_p2.py:79 | every peak reported against a higher level is also reported against a lower one |
| PeakProperties.RaisingThresholdRemovesPeaks | src/examen_p1.py:31 | when the maximum is not negative, a higher threshold reports a subset of the peaks of a lower one |
| PeakProperties.EdgeBinRaisesLevel | src/examen_p1.py:25 | the maximum includes unreported edge bins: [10, 0, 1, 0, 0] at threshold 0.5 reports nothing, though bin 2 is a strict local maximum |
| PeakProperties.SinglePeakScenario | src/examen_p1.py:23-37 | magnitudes [0, 1, 5, 1, 0] with frequencies [0, 1, 2, 3, 4] and threshold 0.1 (the first script's default) give the single peak (2, 5) under both detectors |

## Left out

- `dft_implementation` (both scripts): complex exponentials with
  floating-point accumulation have no exact model over Dafny reals. The
  detector takes the magnitude spectrum as an input.
- `np.abs` of the transform output and `np.fft.fftfreq`: library calls. Their
  results are the detector's `seq<real>` inputs.
- Signal generators (`generate_modulated_signal`, `generate_clean_signal`,
  `add_noise_signal`): trigonometric floating-point numerics.
- All plotting and console output (`plot_signal_and_spectrum`,
  `compare_spectra`, both `mostrar` functions, `src/utils/Grapher.py`).
  The callers' filtering of peaks to non-negative frequencies lives in
  `mostrar`, so it is left out as well.
- `main.py`: command-line dispatch to modules that are not part of this
  model.
- Floating-point rounding: `threshold * max` and `fs / N` are exact real
  operations here. NaN magnitudes, which numpy's comparisons and `max`
  treat specially, do not exist in the model.
- Margins other than 1 and 2 are accepted by the general detector, but
  margin 0 is excluded. In Python it would read `m[-1]` at `i = 0`, wrapping
  to the last bin, and at `i = len(m) - 1` it would read `m[i + 1]`, which
  raises `IndexError` whenever the left comparison holds. Neither script
  uses margin 0.
