/**
 * The per-recording analysis and the loop over all recordings. The outputs
 * of the library steps (spectrogram axes, the smoothed ratio curve, the peak
 * frames and their half-height positions) are fields of a `Recording`; the
 * map from a mean square to a level in dB is the parameter `decibels`.
 */
module Pipeline {
  import opened Common
  import DownMix
  import Curve
  import Silence
  import Markers
  import Level

  /** One recording: what is read from its file, and what the library steps return for it. */
  datatype Recording = Recording(
    name: string,           // the file name without directory and extension
    sampleRate: int,
    wav: DownMix.WavData,
    timeAxis: seq<real>,    // the spectrogram's time axis, in seconds
    smoothed: seq<real>,    // the Gaussian-smoothed raw ratio, one value per time frame
    peaks: seq<nat>,        // the frames of the detected peaks, ascending
    leftIps: seq<real>,     // left half-height position of each peak, in frames
    rightIps: seq<real>)    // right half-height position of each peak, in frames

  /** One element of the result list. */
  datatype Entry = Entry(
    name: string,
    signalToNoise: real,
    recordVolume: real,
    numberOfTracks: nat,
    trackingMarkers: seq<string>)

  /** What one recording yields up to its silence file. */
  datatype Extraction = Extraction(signal: seq<real>, curve: seq<real>, markers: seq<string>, silence: seq<int>)

  /** The entry together with the curve and the silence buffer it was computed from. */
  datatype Analysis = Analysis(entry: Entry, curve: seq<real>, silence: seq<int>)

  /**
   * What the library steps guarantee: the time axis increases, smoothing
   * keeps one value per time frame, and peak finding reports one left and
   * one right position per peak.
   */
  predicate WellFormed(rec: Recording)
  {
    (forall i :: 0 < i < |rec.timeAxis| ==> rec.timeAxis[i - 1] < rec.timeAxis[i]) &&
    |rec.smoothed| == |rec.timeAxis| &&
    |rec.leftIps| == |rec.peaks| && |rec.rightIps| == |rec.peaks|
  }

  /** `noverlap = 8192 * 0.25`: a shorter signal cuts the segment length to at most this and `spectrogram` refuses it. */
  const SegmentOverlap: nat := 2048

  /** `dt = time_ax[1] - time_ax[0]`: positive on an increasing axis. */
  function FrameStep(timeAxis: seq<real>): (dt: real)
    requires |timeAxis| >= 2
    ensures timeAxis[0] < timeAxis[1] ==> dt > 0.0
  {
    timeAxis[1] - timeAxis[0]
  }

  /** `int(20/dt)`: the number of frames in twenty seconds, truncated. */
  function WindowFrames(dt: real): (k: nat)
    requires dt > 0.0
    ensures k as real <= Curve.WindowSeconds / dt < k as real + 1.0
  {
    Curve.ShareFacts(0.0, Curve.WindowSeconds, dt);
    Curve.UnitShares(dt);
    Trunc(Curve.WindowSeconds / dt)
  }

  /** `f"silence/{stem}_silence.wav"`: the name sits between the fixed prefix and suffix. */
  function SilencePath(name: string): (path: string)
    ensures |path| == |name| + 20
    ensures path[..8] == "silence/" && path[8..8 + |name|] == name && path[8 + |name|..] == "_silence.wav"
  {
    "silence/" + name + "_silence.wav"
  }

  /**
   * Lines 20 to 50 of the loop body, up to the silence file, with the
   * failures in the order the script meets them. An empty signal passes
   * `spectrogram`, which returns an empty time axis, and fails at
   * `time_ax[1]`; a signal of 1 to 2048 samples is refused by `spectrogram`.
   */
  function Extract(rec: Recording): (r: Result<Extraction>)
    requires WellFormed(rec)
    ensures r.Ok? ==> rec.wav.Frames? && r.value.signal == DownMix.Mix(rec.wav.frames)
    ensures r.Ok? ==> |r.value.signal| > SegmentOverlap
  {
    match DownMix.DownMixWav(rec.wav)
    case Err(f) => Err(f)
    case Ok(signal) =>
      if |signal| == 0 then Err(TooFewTimeFrames)
      else if |signal| <= SegmentOverlap then Err(SignalTooShort)
      else if |rec.timeAxis| < 2 then Err(TooFewTimeFrames)
      else
        var dt := FrameStep(rec.timeAxis);
        match Curve.CurveSpec(rec.smoothed, WindowFrames(dt))
        case Err(f) => Err(f)
        case Ok(curve) =>
          match Silence.SilenceOf(signal, rec.leftIps, rec.rightIps, dt, rec.sampleRate)
          case Err(f) => Err(f)
          case Ok(silence) => Ok(Extraction(signal, curve, Markers.TrackMarkers(rec.peaks, dt), silence))
  }

  /** The result entry of a recording, from its markers and its two levels. */
  function MakeEntry(name: string, markers: seq<string>, levels: (real, real)): (e: Entry)
    ensures e.name == name && e.trackingMarkers == markers && e.numberOfTracks == |markers|
    ensures e.recordVolume == levels.0 && e.signalToNoise == levels.0 - levels.1
  {
    Entry(name, levels.0 - levels.1, levels.0, |markers|, markers)
  }

  /** The whole loop body: the extraction, then the levels of lines 53 to 59 and the entry. */
  function Analyse(rec: Recording, decibels: real -> real): Result<Analysis>
    requires WellFormed(rec)
  {
    match Extract(rec)
    case Err(f) => Err(f)
    case Ok(x) =>
      match Level.Levels(x.signal, x.silence, decibels)
      case Err(f) => Err(f)
      case Ok(levels) => Ok(Analysis(MakeEntry(rec.name, x.markers, levels), x.curve, x.silence))
  }

  /**
   * A recording fails before its silence file exactly when it is mono, has
   * at most 2048 samples, has fewer than two time frames, its curve fails,
   * or it has no peaks; each with its own failure, an empty signal as too
   * few time frames and a failing curve with the curve's own failure. A
   * successful extraction holds the down-mixed signal, the curve of
   * `CurveSpec` (in [0, 1] with zero edges), one marker per peak in peak
   * order, and the silence cut from the signal.
   */
  lemma ExtractProperties(rec: Recording)
    requires WellFormed(rec)
    ensures Extract(rec).Err? <==>
      rec.wav.Mono? || |rec.wav.frames| <= SegmentOverlap || |rec.timeAxis| < 2 ||
      Curve.CurveSpec(rec.smoothed, WindowFrames(FrameStep(rec.timeAxis))).Err? ||
      |rec.peaks| == 0
    ensures rec.wav.Mono? ==> Extract(rec) == Err(NotMultiChannel)
    ensures rec.wav.Frames? && 0 < |rec.wav.frames| <= SegmentOverlap ==> Extract(rec) == Err(SignalTooShort)
    ensures rec.wav.Frames? && |rec.wav.frames| == 0 ==> Extract(rec) == Err(TooFewTimeFrames)
    ensures rec.wav.Frames? && |rec.wav.frames| > SegmentOverlap && |rec.timeAxis| < 2 ==> Extract(rec) == Err(TooFewTimeFrames)
    ensures
      (rec.wav.Frames? && |rec.wav.frames| > SegmentOverlap && |rec.timeAxis| >= 2 &&
       Curve.CurveSpec(rec.smoothed, WindowFrames(FrameStep(rec.timeAxis))).Err?) ==>
      Extract(rec) == Err(Curve.CurveSpec(rec.smoothed, WindowFrames(FrameStep(rec.timeAxis))).failure)
    ensures
      (rec.wav.Frames? && |rec.wav.frames| > SegmentOverlap && |rec.timeAxis| >= 2 &&
       Curve.CurveSpec(rec.smoothed, WindowFrames(FrameStep(rec.timeAxis))).Ok? && |rec.peaks| == 0) ==>
      Extract(rec) == Err(NoPeaks)
    ensures Extract(rec).Ok? ==> Extract(rec).value.curve == Curve.CurveSpec(rec.smoothed, WindowFrames(FrameStep(rec.timeAxis))).value
    ensures Extract(rec).Ok? ==> |Extract(rec).value.curve| == |rec.timeAxis|
    ensures Extract(rec).Ok? ==> forall i :: 0 <= i < |Extract(rec).value.curve| ==> 0.0 <= Extract(rec).value.curve[i] <= 1.0
    ensures Extract(rec).Ok? ==>
      Extract(rec).value.curve[0] == 0.0 && Extract(rec).value.curve[|Extract(rec).value.curve| - 1] == 0.0
    ensures Extract(rec).Ok? ==> |Extract(rec).value.markers| == |rec.peaks|
    ensures Extract(rec).Ok? ==> forall i :: 0 <= i < |rec.peaks| ==>
      Extract(rec).value.markers[i] == Markers.Marker(Markers.PeakTime(rec.peaks[i], FrameStep(rec.timeAxis)))
    ensures Extract(rec).Ok? ==>
      Silence.SilenceOf(DownMix.Mix(rec.wav.frames), rec.leftIps, rec.rightIps, FrameStep(rec.timeAxis), rec.sampleRate)
        == Ok(Extract(rec).value.silence)
  {
  }

  /**
   * A recording fails exactly when its extraction fails or its levels do. A
   * successful analysis has the file's name, one marker per peak as its
   * number of tracks, the level of the signal's mean square as record
   * volume, and that minus the level of the silence's wrapped mean square as
   * signal-to-noise; both mean squares are positive.
   */
  lemma AnalyseProperties(rec: Recording, decibels: real -> real)
    requires WellFormed(rec)
    ensures Analyse(rec, decibels).Err? <==>
      Extract(rec).Err? || Level.Levels(Extract(rec).value.signal, Extract(rec).value.silence, decibels).Err?
    ensures Extract(rec).Err? ==> Analyse(rec, decibels) == Err(Extract(rec).failure)
    ensures Analyse(rec, decibels).Ok? ==>
      Extract(rec).Ok? &&
      Analyse(rec, decibels).value.curve == Extract(rec).value.curve &&
      Analyse(rec, decibels).value.silence == Extract(rec).value.silence &&
      Analyse(rec, decibels).value.entry.trackingMarkers == Extract(rec).value.markers
    ensures Analyse(rec, decibels).Ok? ==> Analyse(rec, decibels).value.entry.name == rec.name
    ensures Analyse(rec, decibels).Ok? ==>
      Analyse(rec, decibels).value.entry.numberOfTracks == |Analyse(rec, decibels).value.entry.trackingMarkers| == |rec.peaks|
    ensures Analyse(rec, decibels).Ok? ==>
      |Analyse(rec, decibels).value.silence| > 0 &&
      Level.MeanSquare(DownMix.Mix(rec.wav.frames)) > 0.0 &&
      Level.MeanSquareInt16(Analyse(rec, decibels).value.silence) > 0.0
    ensures Analyse(rec, decibels).Ok? ==>
      Analyse(rec, decibels).value.entry.recordVolume == decibels(Level.MeanSquare(DownMix.Mix(rec.wav.frames)))
    ensures Analyse(rec, decibels).Ok? ==>
      Analyse(rec, decibels).value.entry.signalToNoise ==
        Analyse(rec, decibels).value.entry.recordVolume - decibels(Level.MeanSquareInt16(Analyse(rec, decibels).value.silence))
  {
    ExtractProperties(rec);
  }

  /** How the analysis follows from the extraction and the levels, one case at a time. */
  lemma AnalyseCases(rec: Recording, decibels: real -> real)
    requires WellFormed(rec)
    ensures Extract(rec).Err? ==> Analyse(rec, decibels) == Err(Extract(rec).failure)
    ensures Extract(rec).Ok? ==>
      var x := Extract(rec).value;
      var levels := Level.Levels(x.signal, x.silence, decibels);
      (levels.Err? ==> Analyse(rec, decibels) == Err(levels.failure)) &&
      (levels.Ok? ==> Analyse(rec, decibels) == Ok(Analysis(MakeEntry(rec.name, x.markers, levels.value), x.curve, x.silence)))
  {
  }

  /**
   * For a two-channel 16-bit recording the silence file holds signal samples
   * truncated toward zero: the cast to 16 bits never wraps around.
   */
  lemma TwoChannelSilenceExact(rec: Recording, p: nat)
    requires WellFormed(rec)
    requires rec.wav.Frames? && DownMix.TwoChannel16Bit(rec.wav.frames)
    requires Extract(rec).Ok?
    requires p < |Extract(rec).value.silence|
    ensures exists k ::
      (0 <= k < |rec.wav.frames| && Extract(rec).value.silence[p] == Trunc(DownMix.Mix(rec.wav.frames)[k]))
  {
    var signal := DownMix.Mix(rec.wav.frames);
    ExtractProperties(rec);
    DownMix.TwoChannelMixIsMean(rec.wav.frames);
    Silence.SilenceCastExact(signal, rec.leftIps, rec.rightIps, FrameStep(rec.timeAxis), rec.sampleRate, p);
  }

  /** Lines 20 to 50 step by step, with the curve built in its buffer. */
  method ExtractRecording(rec: Recording) returns (r: Result<Extraction>)
    requires WellFormed(rec)
    ensures r == Extract(rec)
  {
    if rec.wav.Mono? {
      return Err(NotMultiChannel);
    }
    var signal := DownMix.Mix(rec.wav.frames);
    assert DownMix.DownMixWav(rec.wav) == Ok(signal);
    if |signal| == 0 {
      return Err(TooFewTimeFrames);
    }
    if |signal| <= SegmentOverlap {
      return Err(SignalTooShort);
    }
    if |rec.timeAxis| < 2 {
      return Err(TooFewTimeFrames);
    }
    var dt := FrameStep(rec.timeAxis);
    var curve := Curve.BuildCurve(rec.smoothed, WindowFrames(dt));
    if curve.Err? {
      return Err(curve.failure);
    }
    var markers := Markers.TrackMarkers(rec.peaks, dt);
    var silence := Silence.SilenceOf(signal, rec.leftIps, rec.rightIps, dt, rec.sampleRate);
    if silence.Err? {
      return Err(silence.failure);
    }
    assert Extract(rec).Ok?;
    assert Extract(rec).value.signal == signal;
    assert Extract(rec).value.curve == curve.value;
    assert Extract(rec).value.markers == markers;
    assert Extract(rec).value.silence == silence.value;
    r := Ok(Extraction(signal, curve.value, markers, silence.value));
  }

  /** What one pass of the loop body leaves: the silence file it writes, if any, and the entry or the failure. */
  datatype StepResult = StepResult(file: Option<(string, seq<int>)>, entry: Result<Entry>)

  /** A step that produces an entry has written its silence file first. */
  predicate Coherent(s: StepResult)
  {
    s.entry.Ok? ==> s.file.Some?
  }

  /**
   * One pass of the loop body: it writes the silence file once the
   * extraction succeeds, and then yields the entry or the failure of the
   * whole analysis.
   */
  function StepOf(rec: Recording, decibels: real -> real): (s: StepResult)
    requires WellFormed(rec)
    ensures Coherent(s)
    ensures s.file.Some? <==> Extract(rec).Ok?
    ensures s.file.Some? ==> s.file.value == (SilencePath(rec.name), Extract(rec).value.silence)
    ensures s.entry.Err? <==> Analyse(rec, decibels).Err?
    ensures s.entry.Err? ==> s.entry.failure == Analyse(rec, decibels).failure
    ensures s.entry.Ok? ==> s.entry.value == Analyse(rec, decibels).value.entry
  {
    AnalyseCases(rec, decibels);
    match Extract(rec)
    case Err(f) => StepResult(None, Err(f))
    case Ok(x) =>
      var file := Some((SilencePath(rec.name), x.silence));
      match Level.Levels(x.signal, x.silence, decibels)
      case Err(f) => StepResult(file, Err(f))
      case Ok(levels) => StepResult(file, Ok(MakeEntry(rec.name, x.markers, levels)))
  }

  /** The loop body as the script performs it. */
  method Step(rec: Recording, decibels: real -> real) returns (file: Option<(string, seq<int>)>, entry: Result<Entry>)
    requires WellFormed(rec)
    ensures StepResult(file, entry) == StepOf(rec, decibels)
  {
    var x := ExtractRecording(rec);
    if x.Err? {
      return None, Err(x.failure);
    }
    file := Some((SilencePath(rec.name), x.value.silence));
    var levels := Level.Levels(x.value.signal, x.value.silence, decibels);
    if levels.Err? {
      return file, Err(levels.failure);
    }
    entry := Ok(MakeEntry(rec.name, x.value.markers, levels.value));
  }

  /** The step of every recording, in order. */
  function Steps(recs: seq<Recording>, decibels: real -> real): (steps: seq<StepResult>)
    requires forall i :: 0 <= i < |recs| ==> WellFormed(recs[i])
    ensures |steps| == |recs|
    ensures forall i :: 0 <= i < |steps| ==> Coherent(steps[i])
  {
    if recs == [] then [] else [StepOf(recs[0], decibels)] + Steps(recs[1..], decibels)
  }

  lemma {:induction false} StepsAt(recs: seq<Recording>, decibels: real -> real, i: nat)
    requires forall j :: 0 <= j < |recs| ==> WellFormed(recs[j])
    requires i < |recs|
    ensures Steps(recs, decibels)[i] == StepOf(recs[i], decibels)
  {
    if i > 0 {
      StepsAt(recs[1..], decibels, i - 1);
    }
  }

  /** The index of the first step at or after `from` that fails, or `|steps|`. */
  function FirstFailure(steps: seq<StepResult>, from: nat): (f: nat)
    requires from <= |steps|
    ensures from <= f <= |steps|
    ensures forall i :: from <= i < f ==> steps[i].entry.Ok?
    ensures f < |steps| ==> steps[f].entry.Err?
    decreases |steps| - from
  {
    if from == |steps| then from
    else if steps[from].entry.Err? then from
    else FirstFailure(steps, from + 1)
  }

  /** The number of silence files a run writes: those before the first failure, and that one's own if it wrote it. */
  function FilesWritten(steps: seq<StepResult>): nat
  {
    var f := FirstFailure(steps, 0);
    if f < |steps| && steps[f].file.Some? then f + 1 else f
  }

  /**
   * What a run leaves behind: the silence files written so far, in order, the
   * result list if every recording was analysed, and otherwise the failure
   * that stopped the run.
   */
  datatype RunOutcome = RunOutcome(
    written: seq<(string, seq<int>)>,
    results: Option<seq<Entry>>,
    failure: Option<Failure>)

  /**
   * The loop from step `i` on, given the files already written and the
   * entries already collected. Nothing catches a failure, so the first
   * failing step ends the run, after the file it may have written; the
   * result list is only produced when every step succeeded.
   */
  function RunFrom(steps: seq<StepResult>, i: nat, written: seq<(string, seq<int>)>, results: seq<Entry>): RunOutcome
    requires i <= |steps|
    requires forall j :: 0 <= j < |steps| ==> Coherent(steps[j])
    decreases |steps| - i
  {
    if i == |steps| then RunOutcome(written, Some(results), None)
    else
      var s := steps[i];
      assert Coherent(s);
      if s.file.None? then RunOutcome(written, None, Some(s.entry.failure))
      else
        var written' := written + [s.file.value];
        if s.entry.Err? then RunOutcome(written', None, Some(s.entry.failure))
        else RunFrom(steps, i + 1, written', results + [s.entry.value])
  }

  /**
   * Started after `i` successful steps whose files and entries have been
   * collected, the run writes the files of the steps up to the first
   * failure, and that one's own when it wrote it; it reports that failure,
   * or gives every entry in order.
   */
  lemma {:induction false} RunFromProperties(steps: seq<StepResult>, i: nat,
                                             written: seq<(string, seq<int>)>, results: seq<Entry>)
    requires i <= |steps|
    requires forall j :: 0 <= j < |steps| ==> Coherent(steps[j])
    requires forall j :: 0 <= j < i ==> steps[j].entry.Ok?
    requires FirstFailure(steps, i) == FirstFailure(steps, 0)
    requires |written| == i && |results| == i
    requires forall j :: 0 <= j < i ==> steps[j].file == Some(written[j]) && steps[j].entry == Ok(results[j])
    ensures var out := RunFrom(steps, i, written, results);
      |out.written| == FilesWritten(steps) &&
      forall j :: 0 <= j < |out.written| ==> steps[j].file == Some(out.written[j])
    ensures var out := RunFrom(steps, i, written, results);
      var f := FirstFailure(steps, 0);
      (out.results.Some? <==> f == |steps|) &&
      (out.failure.Some? <==> f < |steps|) &&
      (f < |steps| ==> out.failure.value == steps[f].entry.failure)
    ensures var out := RunFrom(steps, i, written, results);
      out.results.Some? ==>
        |out.results.value| == |steps| &&
        forall j :: 0 <= j < |steps| ==> steps[j].entry == Ok(out.results.value[j])
    decreases |steps| - i
  {
    if i == |steps| {
      assert FirstFailure(steps, i) == i;
    } else {
      var s := steps[i];
      if s.file.None? {
        assert FirstFailure(steps, i) == i;
      } else {
        var written' := written + [s.file.value];
        forall j | 0 <= j <= i
          ensures steps[j].file == Some(written'[j])
        {
          if j < i {
            assert written'[j] == written[j];
          }
        }
        if s.entry.Err? {
          assert FirstFailure(steps, i) == i;
        } else {
          var results' := results + [s.entry.value];
          forall j | 0 <= j <= i
            ensures steps[j].entry == Ok(results'[j])
          {
            if j < i {
              assert results'[j] == results[j];
            }
          }
          assert FirstFailure(steps, i) == FirstFailure(steps, i + 1);
          RunFromProperties(steps, i + 1, written', results');
        }
      }
    }
  }

  /** What a whole run over the recordings leaves behind. */
  function RunSpec(recs: seq<Recording>, decibels: real -> real): RunOutcome
    requires forall i :: 0 <= i < |recs| ==> WellFormed(recs[i])
  {
    RunFrom(Steps(recs, decibels), 0, [], [])
  }

  /**
   * With `f` the first recording whose analysis fails (or `|recs|`): the run
   * writes the silence files of the recordings before `f`, in order, and that
   * of `f` itself when only its levels fail; it reports the failure of `f`,
   * or returns the entries of all recordings in order.
   */
  lemma RunSpecProperties(recs: seq<Recording>, decibels: real -> real)
    requires forall i :: 0 <= i < |recs| ==> WellFormed(recs[i])
    ensures var f := FirstFailure(Steps(recs, decibels), 0);
      (forall i :: 0 <= i < f ==> Analyse(recs[i], decibels).Ok?) &&
      (f < |recs| ==> Analyse(recs[f], decibels).Err?)
    ensures var out := RunSpec(recs, decibels);
      var f := FirstFailure(Steps(recs, decibels), 0);
      |out.written| == (if f < |recs| && Extract(recs[f]).Ok? then f + 1 else f) &&
      forall i :: 0 <= i < |out.written| ==>
        Extract(recs[i]).Ok? && out.written[i] == (SilencePath(recs[i].name), Extract(recs[i]).value.silence)
    ensures var out := RunSpec(recs, decibels);
      var f := FirstFailure(Steps(recs, decibels), 0);
      (out.results.Some? <==> f == |recs|) &&
      (out.failure.Some? <==> f < |recs|) &&
      (f < |recs| ==> out.failure.value == Analyse(recs[f], decibels).failure)
    ensures var out := RunSpec(recs, decibels);
      out.results.Some? ==>
        |out.results.value| == |recs| &&
        forall i :: 0 <= i < |recs| ==> out.results.value[i] == Analyse(recs[i], decibels).value.entry
  {
    var steps := Steps(recs, decibels);
    RunFromProperties(steps, 0, [], []);
    forall i | 0 <= i < |recs|
      ensures steps[i] == StepOf(recs[i], decibels)
    {
      StepsAt(recs, decibels, i);
    }
  }

  /** Lines 18 and 62 to 70: the loop over the recordings. */
  method Run(recs: seq<Recording>, decibels: real -> real) returns (out: RunOutcome)
    requires forall i :: 0 <= i < |recs| ==> WellFormed(recs[i])
    ensures out == RunSpec(recs, decibels)
  {
    var written: seq<(string, seq<int>)> := [];
    var resList: seq<Entry> := [];
    var i := 0;
    while i < |recs|
      invariant 0 <= i <= |recs|
      invariant RunFrom(Steps(recs, decibels), i, written, resList) == RunSpec(recs, decibels)
    {
      var file, entry := Step(recs[i], decibels);
      StepsAt(recs, decibels, i);
      if file.None? {
        return RunOutcome(written, None, Some(entry.failure));
      }
      written := written + [file.value];
      if entry.Err? {
        return RunOutcome(written, None, Some(entry.failure));
      }
      resList := resList + [entry.value];
      i := i + 1;
    }
    out := RunOutcome(written, Some(resList), None);
  }
}
