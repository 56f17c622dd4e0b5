# Album side analysis (`spectrograms.py`) in Dafny

`spectrograms.py` walks over the `.wav` recordings of vinyl album sides.
For each recording it:

- down-mixes the samples to one channel;
- splits a spectrogram's magnitude grid into a band at or below 100 Hz and a
  band above, and sums each band per time frame;
- turns the ratio of the two totals into a loudness curve in [0, 1]. The
  curve is clipped, its edges are zeroed, and it is normalised by the maximum
  of a window that leaves out twenty seconds at each end;
- cuts the gaps between tracks out of the signal and concatenates them into a
  16-bit "silence" buffer, which it writes to `silence/<name>_silence.wav`;
- formats every detected track boundary as an `MM:SS` marker;
- measures the mean square of the signal and of the silence buffer and turns
  each into a level in dB;
- appends an entry (name, signal-to-noise, record volume, number of tracks,
  markers) to a result list.

The model takes the outputs of the numerical library steps as given data.
These are the spectrogram's axes and magnitude grid, the Gaussian-smoothed
ratio curve, and the peak frames with their half-height positions. The
down-mix, the curve post-processing, the silence buffer, the markers, the
mean squares and the loop are modelled and connected in `Pipeline`. The band
split, the band totals and the raw ratio are modelled and proved on their
own: the smoothing that turns them into the curve is a library step, so
`Pipeline` takes the smoothed curve as given. The map from a mean square to a
level in dB (`sqrt`, the reference tone and `20 * log10`) is the parameter
`decibels`.

Modules, one per stage of the loop body:

- `Common`: `Option`, `Result`, the `Failure` kinds, Python's `int()` truncation
  (`Trunc`) and the 16-bit sample range.
- `PySlice`: Python's `s[start:stop]` with negative and out-of-range bounds.
- `DownMix`: `signal.sum(axis=1)/2`.
- `Bands`: the band masks, the per-frame totals with a masked-sum reference,
  and the raw ratio.
- `Curve`: the clip, the in-place edge zeroing (an `array` method), the window
  maximum and the normalisation. `BuildCurve` is the imperative pass over the
  buffer; `CurveSpec` is its specification.
- `Silence`: the slice list, `np.concatenate` and the `int16` cast.
- `Markers`: `strftime("%M:%S")` of `epoch + t`, and a parser that reads a
  marker back.
- `Level`: the mean squares inside `rms`. The signal's squares are
  modelled as exact reals. The silence buffer is `int16`, and `np.power` keeps that
  type, so every square of a sample of magnitude 182 or more wraps around to
  16 bits and the mean square can be negative (`WrappedSquareExample`).
- `Pipeline`: one recording (`Extract` up to the silence file, `Analyse` for
  the whole loop body, and the imperative `ExtractRecording` and `Step`) and
  the loop over all recordings (`Run`, specified by `RunSpec`).

Each failure the model represents is a `Failure` value:

- a mono file (`sum(axis=1)` raises);
- a signal of 1 to 2048 samples (`spectrogram` shortens the segment to the
  signal's length, and the overlap of 2048 is then not below it);
- a time axis of fewer than two frames (`time_ax[1]` raises). This is also
  the failure of an empty signal: `spectrogram` returns empty arrays for it
  before it checks the overlap;
- an empty curve (`relative_loudness[0] = 0` raises);
- an empty normalisation window (`.max()` of an empty array raises);
- a zero window maximum;
- no peaks (`np.concatenate` of an empty list raises);
- an empty silence buffer;
- a negative mean square of the silence buffer (`sqrt` raises);
- a zero mean square of the signal or of the silence buffer (`log10(0)` raises).

All but two of these are exceptions the script raises. A zero window maximum
and an empty silence buffer are floating-point divisions by zero, after which
the script goes on with inf or NaN values. The model ends `Run` at them all.

The script has no exception handler, so `Run` stops at the first failing
recording. By then the silence files of the earlier recordings are written,
and that of the failing recording too when it fails only at its levels; the
result list is not.

## Model

| member | source | states |
|---|---|---|
| DownMix.DownMixWav | spectrograms.py:21 | a one-dimensional (mono) sample array fails and nothing else does; a frame array gives the per-frame down-mix |
| DownMix.Mix | spectrograms.py:21 | one mono sample per frame, and twice each sample is the sum of the frame's channels |
| DownMix.TwoChannelMixIsMean | spectrograms.py:21 | with two 16-bit channels each mono sample is the channels' mean, lies between the two channel samples and stays in the 16-bit range |
| DownMix.MixIsNotMeanForThreeChannels | spectrograms.py:21 | with three equal non-zero channels, half of the channel sum is not the channels' mean |
| Bands.BandRows | spectrograms.py:28-29 | the masked selection keeps only rows of the grid and never more rows than the grid has; `BandRowsMaskedSum` says which |
| Bands.MaskedSum | spectrograms.py:28-31 | no contract: the reference sum over every bin of the grid value at frame `t` where the bin's mask is set |
| Bands.BandRowsMaskedSum | spectrograms.py:28-31 | the selected rows keep the frame, and summing frame `t` over them gives exactly the masked sum of the band |
| Bands.BandsPartitionBins | spectrograms.py:28-29 | every bin is in exactly one band: the two bands' sizes add up to the number of bins |
| Bands.BandRowsInherit | spectrograms.py:28-29 | the selected rows keep the grid's width and its non-negativity |
| Bands.BandTotals | spectrograms.py:30-31 | one total per time frame; the total of frame `t` is the sum of the grid values at `t` of the bins in the band (at or below 100 Hz, or above); non-negative when the magnitudes are |
| Bands.ColumnTotal | spectrograms.py:30-31 | no contract of its own: `np.sum(..., axis=0)` at frame `t`, the sum of the selected rows' values at `t`; `BandRowsMaskedSum` ties it to the masked sum |
| Bands.ColumnTotalNonNegative | spectrograms.py:30-31 | a column sum over non-negative rows is non-negative |
| Bands.BandTotalsPartitionColumn | spectrograms.py:28-31 | for every frame, low total plus high total equals the sum of the whole grid column |
| Bands.ColumnSplit | spectrograms.py:28-31 | the column sum splits into the low-band and the high-band sums |
| Bands.MaskedSumSplit | spectrograms.py:28-31 | the low and the high masked sums of a frame add up to the whole column |
| Bands.RawRatio | spectrograms.py:32 | the ratio is defined exactly when `high` and `low + high` are non-zero, and then times the denominator it gives back `low` |
| Bands.RawRatioBounds | spectrograms.py:32 | non-negative totals with some high-band energy give a defined, non-negative ratio at most `1 / high` |
| Common.Trunc | spectrograms.py:37 | `int()` truncates toward zero: within one unit of its argument and never past it away from zero |
| PySlice.Slice | spectrograms.py:37 | a slice has length `max(0, stop' - start')` of the clamped bounds, and element `j` is element `start' + j` of the sequence |
| PySlice.SymmetricSlice | spectrograms.py:37 | `s[k:-k]` is non-empty exactly when `k >= 1` and `len(s) > 2k`, and is then the middle part |
| PySlice.SliceNonNegative | spectrograms.py:46 | with non-negative bounds the slice is clamped to the length, and empty when start is not below stop |
| Curve.Clip | spectrograms.py:32-34 | length is kept, every value lies in [lo, hi], in-range values are unchanged, values below or above are set to the nearer bound |
| Curve.ClipMonotone | spectrograms.py:34 | clipping keeps the order of any two elements |
| Curve.EdgesZeroed | spectrograms.py:35-36 | the first and last elements become 0 and every other element is unchanged |
| Curve.ZeroEdges | spectrograms.py:35-36 | the in-place writes leave the buffer equal to the edges-zeroed curve |
| Curve.SeqMax | spectrograms.py:37 | `.max()` is an element of the sequence and no element exceeds it |
| Curve.WindowMax | spectrograms.py:37 | no contract of its own; `WindowMaxIsMax` states what it is |
| Curve.WindowMaxIsMax | spectrograms.py:37 | the maximum of the Python slice `s[k:-k]` is an element of the window and no window element exceeds it |
| Curve.ShareFacts | spectrograms.py:37 | division by a positive maximum keeps order and sign, and values up to the maximum map into [0, 1] |
| Curve.Scale | spectrograms.py:37 | the division of the curve by the window maximum: the length is kept and element `i` is `s[i] / m` |
| Curve.Normalize | spectrograms.py:37 | the window fails as empty exactly when the Python slice `s[k:-k]` is empty; a zero window maximum fails, and each ends only in its own case; it succeeds exactly when the window is non-empty and its maximum is non-zero; a result keeps the length and lies in [0, 1] |
| Curve.NormalizeWindowPeak | spectrograms.py:37 | the window's maximum element maps to exactly 1 |
| Curve.NormalizeKeepsZero | spectrograms.py:37 | a zero element stays zero |
| Curve.NormalizeValues | spectrograms.py:37 | on a non-negative curve the window maximum is positive, window elements are at most it, and element `i` becomes `s[i] / m` when `s[i] <= m` and 1 otherwise: the final clip changes only elements outside the window |
| Curve.NormalizeMonotone | spectrograms.py:37 | normalisation keeps order, and keeps it strict below the window maximum |
| Curve.CurveSpec | spectrograms.py:32-37 | an empty curve and an empty window fail as such, and the only failures are an empty curve, an empty window and a zero window maximum; a curve keeps its length, lies in [0, 1] and has zero first and last elements |
| Curve.CurveSilentWindow | spectrograms.py:32-37 | the window maximum is zero exactly when every smoothed value in the window is at most 0 |
| Curve.CurveSucceeds | spectrograms.py:32-37 | the curve succeeds exactly when the smoothed curve is non-empty, its window is non-empty and some smoothed value in the window is positive |
| Curve.CurvePeak | spectrograms.py:32-37 | some window element of the curve is exactly 1, and each window element is its clipped value over the window maximum |
| Curve.BuildCurve | spectrograms.py:32-37 | the clip, the in-place edge writes into the buffer and the normalisation together give the curve's specification |
| Silence.SampleIndex | spectrograms.py:46 | the sample index is the frame position times `dt` times the sample rate, truncated toward zero |
| Silence.Slices | spectrograms.py:45-48 | one slice per pair `zip` yields (the shorter list decides), slice `i` is the signal between the truncated sample indices of gap `i` |
| Silence.Concat | spectrograms.py:44-49 | the concatenation's length is the sum of the part lengths |
| Silence.ConcatAt | spectrograms.py:44-49 | element `j` of part `i` is at the part's offset plus `j` |
| Silence.ConcatCovers | spectrograms.py:44-49 | every position of the concatenation is an element of some part at that part's offset |
| Silence.Wrap16 | spectrograms.py:50 | the 16-bit reduction lands in the 16-bit range, differs from its argument by a multiple of 65536, and leaves in-range values alone |
| Silence.ToInt16 | spectrograms.py:50 | the cast of one sample is a 16-bit value that differs from the truncated sample by a multiple of 65536 |
| Silence.ToInt16InRange | spectrograms.py:50 | a sample inside the 16-bit range is only truncated, so it moves by less than one |
| Silence.CastInt16 | spectrograms.py:50 | the cast buffer keeps its length, holds 16-bit values only, and casts sample by sample |
| Silence.SilenceOf | spectrograms.py:44-50 | no peaks fails with `NoPeaks` and nothing else fails; the buffer's length is the sum of the slice lengths and its samples are 16-bit |
| Silence.SilenceSource | spectrograms.py:44-50 | sample `j` of gap `i` sits at the gap's offset plus `j` and is the cast of the signal sample at the slice start plus `j` |
| Silence.SilenceFromSignal | spectrograms.py:44-50 | every silence sample is the cast of some sample of some gap's slice |
| Silence.SilenceCastExact | spectrograms.py:44-50 | when the signal is within the 16-bit range, every silence sample is a signal sample truncated toward zero |
| Silence.GapSliceLength | spectrograms.py:46 | for non-negative positions the indices are non-negative and the slice is `signal[a:b]` clamped to the length |
| Markers.SecondOfMinute | spectrograms.py:42 | `%S` is below 60 |
| Markers.MinuteOfHour | spectrograms.py:42 | `%M` is below 60: the minute of the hour, not the number of minutes |
| Markers.PeakTime | spectrograms.py:42 | the time `peak * dt` of a peak is never negative for a non-negative frame step |
| Markers.TwoDigits | spectrograms.py:42 | a zero-padded number is two characters |
| Markers.Marker | spectrograms.py:42 | a marker is five characters with the colon in the middle |
| Markers.TwoDigitsRoundTrip | spectrograms.py:42 | the two digits read back as the tens and the units |
| Markers.MarkerRoundTrip | spectrograms.py:42 | a marker reads back as the minute of the hour and the second of the minute |
| Markers.HourPosition | spectrograms.py:42 | minute and second together are the whole seconds modulo one hour |
| Markers.MarkerEqualIff | spectrograms.py:42 | two times get the same marker exactly when their whole seconds agree modulo 3600: minutes wrap at 60 |
| Markers.MarkerExample | spectrograms.py:42 | 125.4 seconds is marked "02:05" |
| Markers.TrackMarkers | spectrograms.py:42 | one marker per peak, in peak order, each the marker of the peak's time |
| Level.Square | spectrograms.py:15 | a float64 square is never negative, and positive unless the value is zero |
| Level.SumSquaresFacts | spectrograms.py:15 | a sum of squares is non-negative, zero when every value is zero, and positive when some value is not |
| Level.MeanSquare | spectrograms.py:15 | `np.average(np.power(signal, 2))` of the float64 signal is non-negative, zero exactly for an all-zero signal, positive otherwise |
| Level.WrappedSquares | spectrograms.py:15 | `np.power` of the int16 buffer keeps the length, holds 16-bit values and each differs from the true square by a multiple of 65536 |
| Level.MeanSquareInt16 | spectrograms.py:15 | no contract of its own: the average of the wrapped squares; `SmallSamplesMeanSquare` and `WrappedSquareExample` state what it is |
| Level.SmallSquaresExact | spectrograms.py:15 | while no sample exceeds 181 in magnitude the wrapped squares sum to the exact sum of squares |
| Level.SmallSamplesMeanSquare | spectrograms.py:15 | while no sample exceeds 181 in magnitude the int16 mean square is the exact mean square |
| Level.WrappedSquareExample | spectrograms.py:15 | the one-sample buffer `[200]` has the wrapped square -25536 and a negative mean square |
| Level.Levels | spectrograms.py:53-60 | the song's mean square fails only when zero; an empty silence, a negative and a zero silence mean square each fail with their own failure and only then; both mean squares of a result are positive, and the result is the level of each |
| Pipeline.FrameStep | spectrograms.py:25 | the frame step of an increasing time axis is positive |
| Pipeline.WindowFrames | spectrograms.py:37 | `int(20/dt)` is the whole number of frames in twenty seconds: at most `20/dt` and more than `20/dt - 1` |
| Pipeline.SilencePath | spectrograms.py:51 | the path is `silence/`, then the name, then `_silence.wav` |
| Pipeline.Extract | spectrograms.py:20-50 | a successful extraction is of a frame array with more than 2048 frames and carries its down-mix |
| Pipeline.MakeEntry | spectrograms.py:60-69 | the entry has the name and markers, as many tracks as markers, the song level as record volume and song level minus silence level as signal-to-noise |
| Pipeline.Analyse | spectrograms.py:20-70 | no contract of its own; `AnalyseProperties` states what it is |
| Pipeline.ExtractProperties | spectrograms.py:20-50 | the extraction fails exactly when the file is mono, has at most 2048 samples, has fewer than two time frames, its curve fails or it has no peaks, each with its own failure: an empty signal fails as too few time frames, and a failing curve passes on the curve's own failure (an empty curve, an empty window, a zero window maximum); a result holds exactly `CurveSpec`'s curve, which lies in [0, 1], has zero edges and one value per frame, one marker per peak in peak order, and the silence cut from the down-mixed signal |
| Pipeline.AnalyseProperties | spectrograms.py:20-70 | a recording fails exactly when its extraction or its levels fail, with the extraction's failure first; a result has the file's name, one marker per peak as its number of tracks, positive mean squares, the level of the signal's mean square as record volume, and that minus the level of the silence's wrapped mean square as signal-to-noise |
| Pipeline.TwoChannelSilenceExact | spectrograms.py:21-50 | for a two-channel 16-bit recording the silence file holds down-mixed samples truncated toward zero, without wrap-around |
| Pipeline.ExtractRecording | spectrograms.py:20-50 | the step-by-step pass, with the curve built in its buffer, gives the extraction |
| Pipeline.StepOf | spectrograms.py:20-70 | the loop body writes the silence file exactly when the extraction succeeds, with the silence under its path; it yields exactly the analysis's failure or entry; no entry without a file |
| Pipeline.Step | spectrograms.py:20-70 | the loop body as performed gives the file and the entry of `StepOf` |
| Pipeline.Steps | spectrograms.py:18 | one step per recording, each of which writes its file before giving an entry |
| Pipeline.StepsAt | spectrograms.py:18 | step `i` is the step of recording `i` |
| Pipeline.FirstFailure | spectrograms.py:18-70 | every step before the returned index succeeds and the one at it fails |
| Pipeline.RunFrom | spectrograms.py:18-70 | no contract of its own: the rest of the loop from step `i`, given the files written and the entries collected so far; `RunFromProperties` states what it is |
| Pipeline.RunFromProperties | spectrograms.py:18-70 | after `i` successful steps, the rest of the loop writes the files up to the first failure, that one's own too when it wrote it, reports that failure, or collects every entry in order |
| Pipeline.RunSpec | spectrograms.py:17-70 | no contract of its own: the whole loop over the recordings from an empty result list; `RunSpecProperties` states what it is |
| Pipeline.RunSpecProperties | spectrograms.py:17-70 | a run writes the silence files of the recordings before the first failing analysis, in order and under their paths, and that of the failing one when its extraction succeeded; it gives the result list, one entry per recording in order, exactly when no analysis fails, and otherwise reports the first failure |
| Pipeline.Run | spectrograms.py:17-70 | the loop as performed, one step per recording, leaves the outcome `RunSpec` describes |

## Left out

- File discovery (`Path.glob`), `wavfile.read` and `wavfile.write`, and writing `results.json`. These are I/O. A recording's contents are a `Recording` value, and a written file is a (path, samples) pair in `Run`'s outcome.
- `spectrogram`, `gaussian_filter1d` and `find_peaks`. These are library numerics. Their outputs are fields of `Recording`: the time axis, the smoothed curve, the peak frames and the left and right half-height positions. The band functions take the frequency axis and the magnitude grid as arguments. The model claims nothing about how peaks are chosen. Of `spectrogram`'s own behaviour only two cases are modelled: it refuses a signal of 1 to 2048 samples, and it gives an empty signal an empty time axis.
- The numeric link from the band totals to the smoothed curve: the smoothing is a library step, so `Pipeline` takes the smoothed curve as given.
- Floating point. All values are exact reals, so rounding, inf and NaN are not modelled.
- Bands.RawRatio: the division by a zero denominator, which gives inf or NaN, is `None` here.
- Curve.Normalize: division by a zero window maximum gives inf or NaN, and the script goes on to `find_peaks` with that curve. The model reports `ZeroWindowMax` instead, and `Run` stops there.
- Level.Levels: an empty silence buffer gives a NaN mean, and the script goes on with NaN levels. The model reports `EmptySilence` instead, and `Run` stops there.
- `sqrt`, the reference sine tone, `rms_ref`, `db_ref` and `20 * log10`. These are transcendental numerics. Every level depends on its buffer only through the mean square, so the map from a positive mean square to a level in dB is the function parameter `decibels`. The two ways these raise are modelled: `sqrt` of a negative mean square and `log10(0)`.
- Silence.Wrap16: a float-to-`int16` cast of an out-of-range value is platform-defined in numpy. The model takes the common two's-complement reading. `SilenceCastExact` shows that a two-channel 16-bit recording never reaches that case.
- Markers.Marker: the microsecond rounding inside `timedelta` is not modelled. Seconds are taken as `floor(t)`, and hours and days do not appear in `%M:%S`.
- The `matplotlib` import and `np.set_printoptions` have no effect on the results.
- The down-mix is meant to be the mean of the two channels. The code divides the channel sum by two for any channel count, which is the mean only for two channels and differs from it for three or more. The model follows the code, and `MixIsNotMeanForThreeChannels` shows the difference.
- A recording without detected peaks is meant to give an empty silence buffer. The code fails in `np.concatenate` instead. The model follows the code (`NoPeaks`).
- The silence level is meant to be the RMS of the silence samples. The code squares the `int16` buffer with `np.power`, which keeps the `int16` type, so every square of a sample of magnitude 182 or more wraps around and the mean square can be negative. The model follows the code, and `WrappedSquareExample` shows the difference. `SmallSamplesMeanSquare` shows that the two agree for samples of magnitude at most 181.
- A marker's minutes are meant to count all minutes from the start. `%M` is the minute of the hour, so markers wrap after an hour. The model follows the code (`MarkerEqualIff`).
