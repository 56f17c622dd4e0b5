/**
 * Shared vocabulary of the model: optional values, per-recording results and
 * the ways the processing of one recording stops.
 */
module Common {

  datatype Option<+T> = None | Some(value: T)

  /**
   * The ways the processing of one recording stops in the model. All but
   * `ZeroWindowMax` and `EmptySilence` are exceptions the script raises; those
   * two are floating-point divisions by zero after which the script goes on
   * with inf or NaN.
   */
  datatype Failure =
    | NotMultiChannel     // `signal.sum(axis=1)` on a one-dimensional (mono) sample array
    | SignalTooShort      // `spectrogram` with 1 to 2048 samples: the overlap is not below the segment length
    | TooFewTimeFrames    // `time_ax[1]` on a time axis with fewer than two frames, as for an empty signal
    | EmptyCurve          // `relative_loudness[0] = 0` on an empty curve
    | EmptyWindow         // `.max()` of an empty normalisation window
    | ZeroWindowMax       // division by a zero window maximum (inf/NaN in the script)
    | NoPeaks             // `np.concatenate` of an empty list of silence slices
    | EmptySilence        // the mean square of an empty silence buffer (NaN in the script)
    | NegativeMeanSquare  // `sqrt` of a negative mean of wrapped 16-bit squares
    | ZeroLevel           // `log10(0)` for a buffer whose mean square is zero

  datatype Result<+T> = Ok(value: T) | Err(failure: Failure)

  /** Python's `int()` applied to a float: truncation toward zero. */
  function Trunc(x: real): (r: int)
    ensures 0.0 <= x ==> 0 <= r && r as real <= x < r as real + 1.0
    ensures x < 0.0 ==> r <= 0 && r as real - 1.0 < x <= r as real
  {
    if x >= 0.0 then x.Floor else -((-x).Floor)
  }

  /** The range of a 16-bit signed sample. */
  const Int16Min: int := -32768
  const Int16Max: int := 32767

  /** Integer samples as the floating-point values arithmetic on them sees. */
  function AsReals(s: seq<int>): (r: seq<real>)
    ensures |r| == |s|
    ensures forall i :: 0 <= i < |r| ==> r[i] == s[i] as real
  {
    seq(|s|, i requires 0 <= i < |s| => s[i] as real)
  }

  /** The sum of a sequence of integers. */
  function SumInt(s: seq<int>): int
  {
    if s == [] then 0 else s[0] + SumInt(s[1..])
  }

  /**
   * The product of two positive reals. As a function its sign is a fact about
   * one term, which the solver uses more reliably than a fact about `a * b`.
   */
  function PositiveProduct(a: real, b: real): (r: real)
    requires a > 0.0 && b > 0.0
    ensures r > 0.0
  {
    a * b
  }

  lemma NonNegativeProduct(a: real, b: real)
    requires a >= 0.0 && b >= 0.0
    ensures a * b >= 0.0
  {
  }

  lemma NonZeroProduct(a: real, b: real)
    requires a != 0.0 && b != 0.0
    ensures a * b != 0.0
  {
    if a > 0.0 && b > 0.0 { assert a * b > 0.0; }
    else if a > 0.0 { assert a * -b > 0.0; }
    else if b > 0.0 { assert -a * b > 0.0; }
    else { assert -a * -b > 0.0; }
  }

  function Min(a: int, b: int): int { if a <= b then a else b }

  function Max(a: int, b: int): int { if a >= b then a else b }
}
