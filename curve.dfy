/**
 * Post-processing of the smoothed gap-likelihood curve: clip it to
 * [0, 0.01], force its first and last frame to 0 in place, then divide it by
 * the maximum of the window that drops `k` frames at each end and clip the
 * result to [0, 1].
 */
module Curve {
  import opened Common
  import PySlice

  const SmoothedCeiling: real := 0.01
  const WindowSeconds: real := 20.0

  /** `np.clip` of one value: `min(max(x, lo), hi)`. */
  function ClipValue(x: real, lo: real, hi: real): real
  {
    var raised := if x < lo then lo else x;
    if raised > hi then hi else raised
  }

  /** `s.clip(lo, hi)`. */
  function Clip(s: seq<real>, lo: real, hi: real): (r: seq<real>)
    ensures |r| == |s|
    ensures lo <= hi ==> forall i :: 0 <= i < |r| ==> lo <= r[i] <= hi
    ensures forall i :: 0 <= i < |r| && lo <= s[i] <= hi ==> r[i] == s[i]
    ensures lo <= hi ==> forall i :: 0 <= i < |r| && s[i] < lo ==> r[i] == lo
    ensures forall i :: 0 <= i < |r| && hi < s[i] ==> r[i] == hi
  {
    seq(|s|, i requires 0 <= i < |s| => ClipValue(s[i], lo, hi))
  }

  /** Clipping keeps the order of any two elements (it is monotone). */
  lemma ClipMonotone(s: seq<real>, lo: real, hi: real, i: nat, j: nat)
    requires lo <= hi
    requires i < |s| && j < |s| && s[i] <= s[j]
    ensures Clip(s, lo, hi)[i] <= Clip(s, lo, hi)[j]
  {
  }

  /** The curve after `c[0] = 0` and `c[-1] = 0`. */
  function EdgesZeroed(s: seq<real>): (r: seq<real>)
    requires |s| > 0
    ensures |r| == |s|
    ensures r[0] == 0.0 && r[|s| - 1] == 0.0
    ensures forall i :: 0 < i < |s| - 1 ==> r[i] == s[i]
  {
    s[0 := 0.0][|s| - 1 := 0.0]
  }

  /** The in-place writes of the first and the last element of the curve buffer. */
  method ZeroEdges(a: array<real>)
    requires a.Length > 0
    modifies a
    ensures a[..] == EdgesZeroed(old(a[..]))
  {
    a[0] := 0.0;
    a[a.Length - 1] := 0.0;
  }

  /** The largest element of a non-empty sequence (numpy's `.max()`). */
  function SeqMax(s: seq<real>): (m: real)
    requires |s| > 0
    ensures m in s
    ensures forall i :: 0 <= i < |s| ==> s[i] <= m
  {
    if |s| == 1 then s[0]
    else
      var rest := SeqMax(s[1..]);
      if s[0] >= rest then s[0] else rest
  }

  /** `s[k:-k]`, the normalisation window. */
  function Window(s: seq<real>, k: nat): seq<real>
  {
    PySlice.Slice(s, k, -(k as int))
  }

  /** The window `s[k:-k]` is non-empty. */
  predicate HasWindow(n: nat, k: nat)
  {
    1 <= k && 2 * k < n
  }

  /** `s[k:-k].max()`. */
  function WindowMax(s: seq<real>, k: nat): real
    requires HasWindow(|s|, k)
  {
    SeqMax(s[k..|s| - k])
  }

  /**
   * The maximum of the Python slice `s[k:-k]` is an element of the window
   * and no element of the window exceeds it.
   */
  lemma WindowMaxIsMax(s: seq<real>, k: nat)
    requires HasWindow(|s|, k)
    ensures SeqMax(Window(s, k)) == WindowMax(s, k)
    ensures exists i :: k <= i < |s| - k && s[i] == WindowMax(s, k)
    ensures forall i :: k <= i < |s| - k ==> s[i] <= WindowMax(s, k)
  {
    PySlice.SymmetricSlice(s, k);
    var w := s[k..|s| - k];
    var j :| 0 <= j < |w| && w[j] == WindowMax(s, k);
    assert s[k + j] == w[j];
    forall i | k <= i < |s| - k ensures s[i] <= WindowMax(s, k) {
      assert s[i] == w[i - k];
    }
  }

  function Scale(s: seq<real>, m: real): (r: seq<real>)
    requires m != 0.0
    ensures |r| == |s|
    ensures forall i :: 0 <= i < |s| ==> r[i] == s[i] / m
  {
    seq(|s|, i requires 0 <= i < |s| => s[i] / m)
  }

  lemma UnitShares(m: real)
    requires m != 0.0
    ensures m / m == 1.0 && 0.0 / m == 0.0
  {
  }

  /** Facts about dividing by the window maximum, kept apart from the sequence reasoning. */
  lemma ShareFacts(x: real, y: real, m: real)
    requires m > 0.0
    ensures x <= y ==> x / m <= y / m
    ensures x < y ==> x / m < y / m
    ensures 0.0 <= x ==> 0.0 <= x / m
    ensures x <= m ==> x / m <= 1.0
    ensures m < x ==> 1.0 < x / m
  {
  }

  /**
   * `(s / s[k:-k].max()).clip(0, 1)`. An empty window makes `.max()` fail; a
   * zero maximum makes the division produce inf and NaN, which the model
   * reports as a failure.
   */
  function Normalize(s: seq<real>, k: nat): (r: Result<seq<real>>)
    ensures r == Err(EmptyWindow) <==> |Window(s, k)| == 0
    ensures r == Err(EmptyWindow) <==> !HasWindow(|s|, k)
    ensures r == Err(ZeroWindowMax) <==> HasWindow(|s|, k) && WindowMax(s, k) == 0.0
    ensures r.Ok? <==> HasWindow(|s|, k) && WindowMax(s, k) != 0.0
    ensures r.Ok? ==> |r.value| == |s|
    ensures r.Ok? ==> forall i :: 0 <= i < |s| ==> 0.0 <= r.value[i] <= 1.0
  {
    PySlice.SymmetricSlice(s, k);
    if !HasWindow(|s|, k) then Err(EmptyWindow)
    else
      var m := WindowMax(s, k);
      if m == 0.0 then Err(ZeroWindowMax)
      else Ok(Clip(Scale(s, m), 0.0, 1.0))
  }

  /** A successful normalisation is the clipped quotient by a non-zero window maximum. */
  lemma NormalizeShape(s: seq<real>, k: nat)
    requires Normalize(s, k).Ok?
    ensures HasWindow(|s|, k) && WindowMax(s, k) != 0.0
    ensures Normalize(s, k).value == Clip(Scale(s, WindowMax(s, k)), 0.0, 1.0)
  {
  }

  /** The window's largest element is mapped to exactly 1. */
  lemma NormalizeWindowPeak(s: seq<real>, k: nat)
    requires Normalize(s, k).Ok?
    ensures HasWindow(|s|, k)
    ensures exists i :: k <= i < |s| - k && s[i] == WindowMax(s, k) && Normalize(s, k).value[i] == 1.0
  {
    NormalizeShape(s, k);
    WindowMaxIsMax(s, k);
    var m := WindowMax(s, k);
    var i :| k <= i < |s| - k && s[i] == m;
    UnitShares(m);
    var scaled := Scale(s, m);
    assert scaled[i] == 1.0;
    assert Clip(scaled, 0.0, 1.0)[i] == 1.0;
  }

  /** A silent frame stays silent. */
  lemma NormalizeKeepsZero(s: seq<real>, k: nat, i: nat)
    requires Normalize(s, k).Ok?
    requires i < |s| && s[i] == 0.0
    ensures Normalize(s, k).value[i] == 0.0
  {
    NormalizeShape(s, k);
    var m := WindowMax(s, k);
    UnitShares(m);
    var scaled := Scale(s, m);
    assert scaled[i] == 0.0;
    assert Clip(scaled, 0.0, 1.0)[i] == 0.0;
  }

  /**
   * For a non-negative curve the maximum is positive, every element becomes
   * its share of the maximum, and the final clip only changes elements that
   * exceed the maximum, which lie outside the window.
   */
  lemma NormalizeValues(s: seq<real>, k: nat)
    requires Normalize(s, k).Ok?
    requires forall i :: 0 <= i < |s| ==> s[i] >= 0.0
    ensures HasWindow(|s|, k) && WindowMax(s, k) > 0.0
    ensures forall i :: k <= i < |s| - k ==> s[i] <= WindowMax(s, k)
    ensures forall i :: 0 <= i < |s| ==>
      Normalize(s, k).value[i] == if s[i] <= WindowMax(s, k) then s[i] / WindowMax(s, k) else 1.0
  {
    NormalizeShape(s, k);
    WindowMaxIsMax(s, k);
    var m := WindowMax(s, k);
    var scaled := Scale(s, m);
    var r := Clip(scaled, 0.0, 1.0);
    forall i | 0 <= i < |s| ensures r[i] == if s[i] <= m then s[i] / m else 1.0 {
      ShareFacts(s[i], s[i], m);
      assert scaled[i] == s[i] / m;
    }
  }

  /**
   * Normalisation keeps the order of frames: it never inverts two frames, and
   * it keeps two different frames different unless both are clipped to 1.
   */
  lemma NormalizeMonotone(s: seq<real>, k: nat, i: nat, j: nat)
    requires Normalize(s, k).Ok?
    requires forall x :: 0 <= x < |s| ==> s[x] >= 0.0
    requires i < |s| && j < |s| && s[i] <= s[j]
    ensures Normalize(s, k).value[i] <= Normalize(s, k).value[j]
    ensures s[i] < s[j] && s[i] < WindowMax(s, k) ==> Normalize(s, k).value[i] < Normalize(s, k).value[j]
  {
    NormalizeValues(s, k);
    var m := WindowMax(s, k);
    ShareFacts(s[i], s[j], m);
    ShareFacts(s[i], m, m);
  }

  /**
   * The whole post-processing: clip, zero the edges, normalise. The curve
   * must not be empty, since the edge writes index it.
   */
  function CurveSpec(smoothed: seq<real>, k: nat): (r: Result<seq<real>>)
    ensures r == Err(EmptyCurve) <==> |smoothed| == 0
    ensures r == Err(EmptyWindow) <==> |smoothed| > 0 && !HasWindow(|smoothed|, k)
    ensures r.Err? ==> r.failure == EmptyCurve || r.failure == EmptyWindow || r.failure == ZeroWindowMax
    ensures r.Ok? ==> |r.value| == |smoothed|
    ensures r.Ok? ==> forall i :: 0 <= i < |smoothed| ==> 0.0 <= r.value[i] <= 1.0
    ensures r.Ok? ==> r.value[0] == 0.0 && r.value[|smoothed| - 1] == 0.0
  {
    var clipped := Clip(smoothed, 0.0, SmoothedCeiling);
    if |clipped| == 0 then Err(EmptyCurve)
    else
      var zeroed := EdgesZeroed(clipped);
      var r := Normalize(zeroed, k);
      if r.Ok? then
        NormalizeKeepsZero(zeroed, k, 0);
        NormalizeKeepsZero(zeroed, k, |zeroed| - 1);
        r
      else r
  }

  /**
   * Normalisation fails on a zero maximum exactly when the smoothed curve is
   * nowhere positive inside the window.
   */
  lemma {:induction false} CurveSilentWindow(smoothed: seq<real>, k: nat)
    ensures CurveSpec(smoothed, k) == Err(ZeroWindowMax) <==>
      |smoothed| > 0 && HasWindow(|smoothed|, k) && forall i :: k <= i < |smoothed| - k ==> smoothed[i] <= 0.0
  {
    var n := |smoothed|;
    if n > 0 && HasWindow(n, k) {
      var z := EdgesZeroed(Clip(smoothed, 0.0, SmoothedCeiling));
      assert CurveSpec(smoothed, k) == Normalize(z, k);
      WindowMaxIsMax(z, k);
      var m := WindowMax(z, k);
      var silent := forall i :: k <= i < n - k ==> smoothed[i] <= 0.0;
      if silent {
        var j :| k <= j < n - k && z[j] == m;
        assert z[j] == ClipValue(smoothed[j], 0.0, SmoothedCeiling);
      } else {
        var i :| k <= i < n - k && smoothed[i] > 0.0;
        assert z[i] == ClipValue(smoothed[i], 0.0, SmoothedCeiling);
      }
    }
  }

  /**
   * The curve post-processing succeeds exactly when the curve is long enough
   * for a non-empty window and some smoothed value inside the window is
   * positive.
   */
  lemma CurveSucceeds(smoothed: seq<real>, k: nat)
    ensures CurveSpec(smoothed, k).Ok? <==>
      |smoothed| > 0 && HasWindow(|smoothed|, k) && exists i :: k <= i < |smoothed| - k && smoothed[i] > 0.0
  {
    CurveSilentWindow(smoothed, k);
  }

  /**
   * A successful curve reaches exactly 1 inside the window, and inside the
   * window is the clipped smoothed curve divided by its window maximum.
   */
  lemma CurvePeak(smoothed: seq<real>, k: nat)
    requires CurveSpec(smoothed, k).Ok?
    ensures HasWindow(|smoothed|, k)
    ensures exists i :: k <= i < |smoothed| - k && CurveSpec(smoothed, k).value[i] == 1.0
    ensures var z := EdgesZeroed(Clip(smoothed, 0.0, SmoothedCeiling));
      WindowMax(z, k) > 0.0 &&
      forall i :: k <= i < |smoothed| - k ==>
        CurveSpec(smoothed, k).value[i] == ClipValue(smoothed[i], 0.0, SmoothedCeiling) / WindowMax(z, k)
  {
    var z := EdgesZeroed(Clip(smoothed, 0.0, SmoothedCeiling));
    assert CurveSpec(smoothed, k) == Normalize(z, k);
    NormalizeWindowPeak(z, k);
    NormalizeValues(z, k);
  }

  /**
   * The curve post-processing as the script performs it: the clipped curve
   * is copied into a buffer whose first and last element are overwritten.
   */
  method BuildCurve(smoothed: seq<real>, k: nat) returns (r: Result<seq<real>>)
    ensures r == CurveSpec(smoothed, k)
  {
    var clipped := Clip(smoothed, 0.0, SmoothedCeiling);
    if |clipped| == 0 {
      return Err(EmptyCurve);
    }
    var buffer := new real[|clipped|](i requires 0 <= i < |clipped| => clipped[i]);
    assert buffer[..] == clipped;
    ZeroEdges(buffer);
    r := Normalize(buffer[..], k);
  }
}
