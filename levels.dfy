/**
 * The two loudness figures of a recording. `rms(x)` is the square root of the
 * mean of `np.power(x, 2)`, and each figure is `20 * log10(rms(x) / rms_ref)`
 * for the fixed reference tone, so a figure depends on its buffer only
 * through that mean square. The model keeps the mean square exact and takes
 * the map from a positive mean square to decibels as the parameter
 * `decibels`. The down-mixed signal's squares are modelled as exact reals;
 * the silence buffer is int16, and `np.power` keeps the int16 type, so each
 * of its squares keeps only its low 16 bits.
 */
module Level {
  import opened Common
  import Silence

  /** The square of a float64 value: never negative, and positive unless the value is zero. */
  function Square(x: real): (r: real)
    ensures r == x * x
    ensures r >= 0.0
    ensures x != 0.0 ==> r > 0.0
  {
    if x > 0.0 then PositiveProduct(x, x)
    else if x < 0.0 then PositiveProduct(-x, -x)
    else 0.0
  }

  function SumSquares(s: seq<real>): real
  {
    if s == [] then 0.0 else Square(s[0]) + SumSquares(s[1..])
  }

  /** A sum of squares is non-negative, zero when every term is, and positive otherwise. */
  lemma {:induction false} SumSquaresFacts(s: seq<real>)
    ensures SumSquares(s) >= 0.0
    ensures (forall i :: 0 <= i < |s| ==> s[i] == 0.0) ==> SumSquares(s) == 0.0
    ensures (exists i :: 0 <= i < |s| && s[i] != 0.0) ==> SumSquares(s) > 0.0
  {
    if s != [] {
      SumSquaresFacts(s[1..]);
      if forall i :: 0 <= i < |s| ==> s[i] == 0.0 {
        assert forall i :: 0 <= i < |s[1..]| ==> s[1..][i] == s[i + 1];
      }
      if exists i :: 0 <= i < |s| && s[i] != 0.0 {
        var i :| 0 <= i < |s| && s[i] != 0.0;
        if i > 0 {
          assert s[1..][i - 1] != 0.0;
        }
      }
    }
  }

  /** `np.average(np.power(signal, 2))` of a float64 buffer. */
  function MeanSquare(s: seq<real>): (r: real)
    requires |s| > 0
    ensures r >= 0.0
    ensures (forall i :: 0 <= i < |s| ==> s[i] == 0.0) ==> r == 0.0
    ensures (exists i :: 0 <= i < |s| && s[i] != 0.0) ==> r > 0.0
  {
    SumSquaresFacts(s);
    SumSquares(s) / |s| as real
  }

  /** `np.power(silence, 2)` of an int16 buffer: each square wrapped to 16 bits. */
  function WrappedSquares(s: seq<int>): (r: seq<int>)
    ensures |r| == |s|
    ensures forall i :: 0 <= i < |r| ==> Int16Min <= r[i] <= Int16Max
    ensures forall i :: 0 <= i < |r| ==> (r[i] - s[i] * s[i]) % 65536 == 0
  {
    seq(|s|, i requires 0 <= i < |s| => Silence.Wrap16(s[i] * s[i]))
  }

  /** `np.average(np.power(silence, 2))` of an int16 buffer. */
  function MeanSquareInt16(s: seq<int>): real
    requires |s| > 0
  {
    SumInt(WrappedSquares(s)) as real / |s| as real
  }

  lemma SquareBound(x: int)
    requires -181 <= x <= 181
    ensures 0 <= x * x <= 32761
  {
    var a := if x < 0 then -x else x;
    assert x * x == a * a;
    ScaleBound(a, 181, a);
    ScaleBound(a, 181, 181);
  }

  /** Squaring commutes with the conversion from integer to real. */
  lemma IntSquare(x: int)
    ensures Square(x as real) == (x * x) as real
  {
  }

  lemma ScaleBound(a: int, b: int, c: int)
    requires 0 <= a <= b && 0 <= c
    ensures 0 <= a * c <= b * c
  {
  }

  lemma {:induction false} SmallSquaresExact(s: seq<int>)
    requires forall i :: 0 <= i < |s| ==> -181 <= s[i] <= 181
    ensures SumInt(WrappedSquares(s)) as real == SumSquares(AsReals(s))
  {
    if s != [] {
      SquareBound(s[0]);
      assert WrappedSquares(s)[0] == s[0] * s[0];
      assert WrappedSquares(s)[1..] == WrappedSquares(s[1..]);
      assert AsReals(s)[1..] == AsReals(s[1..]);
      SmallSquaresExact(s[1..]);
      IntSquare(s[0]);
    }
  }

  /**
   * While every silence sample has magnitude at most 181 no square reaches
   * the 16-bit limit, and the mean square is the exact one.
   */
  lemma SmallSamplesMeanSquare(s: seq<int>)
    requires |s| > 0
    requires forall i :: 0 <= i < |s| ==> -181 <= s[i] <= 181
    ensures MeanSquareInt16(s) == MeanSquare(AsReals(s))
  {
    SmallSquaresExact(s);
  }

  /**
   * A silence buffer holding the one sample 200 has the wrapped square
   * -25536 and so a negative mean square, on which `sqrt` fails.
   */
  lemma WrappedSquareExample()
    ensures WrappedSquares([200]) == [-25536]
    ensures MeanSquareInt16([200]) < 0.0
  {
    assert Silence.Wrap16(200 * 200) == -25536;
    assert SumInt([-25536]) == -25536 + SumInt([]);
  }

  /**
   * `db_song` and `db_silence`. The song's mean square is never negative, so
   * it fails only as `log10(0)`; an empty silence buffer has no mean; the
   * silence's wrapped mean square fails `sqrt` when negative and `log10`
   * when zero.
   */
  function Levels(signal: seq<real>, silence: seq<int>, decibels: real -> real): (r: Result<(real, real)>)
    requires |signal| > 0
    ensures r.Err? <==> MeanSquare(signal) == 0.0 || |silence| == 0 || MeanSquareInt16(silence) <= 0.0
    ensures (forall i :: 0 <= i < |signal| ==> signal[i] == 0.0) ==> r == Err(ZeroLevel)
    ensures r == Err(EmptySilence) <==> MeanSquare(signal) > 0.0 && |silence| == 0
    ensures r == Err(NegativeMeanSquare) <==> MeanSquare(signal) > 0.0 && |silence| > 0 && MeanSquareInt16(silence) < 0.0
    ensures MeanSquare(signal) > 0.0 && |silence| > 0 && MeanSquareInt16(silence) == 0.0 ==> r == Err(ZeroLevel)
    ensures r.Ok? ==> MeanSquare(signal) > 0.0 && MeanSquareInt16(silence) > 0.0
    ensures r.Ok? ==> r.value == (decibels(MeanSquare(signal)), decibels(MeanSquareInt16(silence)))
  {
    var songSquare := MeanSquare(signal);
    if songSquare == 0.0 then Err(ZeroLevel)
    else if |silence| == 0 then Err(EmptySilence)
    else
      var silenceSquare := MeanSquareInt16(silence);
      if silenceSquare < 0.0 then Err(NegativeMeanSquare)
      else if silenceSquare == 0.0 then Err(ZeroLevel)
      else Ok((decibels(songSquare), decibels(silenceSquare)))
  }
}
