/**
 * The silence buffer: for every detected gap the samples between its left and
 * right half-height positions, converted from frames to sample indices, cut
 * out of the signal with Python's slice rules and concatenated in peak order.
 */
module Silence {
  import opened Common
  import PySlice

  /** `int(ips * dt * sample_rate)`: the sample index of a fractional frame position. */
  function SampleIndex(ips: real, dt: real, sampleRate: int): (r: int)
    ensures var x := ips * dt * sampleRate as real;
      (0.0 <= x ==> 0 <= r && r as real <= x < r as real + 1.0) &&
      (x < 0.0 ==> r <= 0 && r as real - 1.0 < x <= r as real)
  {
    Trunc(ips * dt * sampleRate as real)
  }

  /** The number of pairs `zip(left_ips, right_ips)` yields: it stops at the shorter list. */
  function PairCount(lefts: seq<real>, rights: seq<real>): nat
  {
    Min(|lefts|, |rights|)
  }

  /** The slice of the signal for gap `i`. */
  function GapSlice(signal: seq<real>, lefts: seq<real>, rights: seq<real>, dt: real, sampleRate: int, i: nat): seq<real>
    requires i < PairCount(lefts, rights)
  {
    PySlice.Slice(signal, SampleIndex(lefts[i], dt, sampleRate), SampleIndex(rights[i], dt, sampleRate))
  }

  /** The list comprehension of slices, one per gap, in peak order. */
  function Slices(signal: seq<real>, lefts: seq<real>, rights: seq<real>, dt: real, sampleRate: int): (parts: seq<seq<real>>)
    ensures |parts| == PairCount(lefts, rights)
    ensures forall i :: 0 <= i < |parts| ==> parts[i] == GapSlice(signal, lefts, rights, dt, sampleRate, i)
  {
    var n := PairCount(lefts, rights);
    seq(n, i requires 0 <= i < n => GapSlice(signal, lefts, rights, dt, sampleRate, i))
  }

  /** The sum of the lengths of the parts. */
  function TotalLength(parts: seq<seq<real>>): nat
  {
    if parts == [] then 0 else |parts[0]| + TotalLength(parts[1..])
  }

  /** The position in the concatenation where part `i` begins. */
  function Offset(parts: seq<seq<real>>, i: nat): nat
    requires i <= |parts|
  {
    if i == 0 then 0 else |parts[0]| + Offset(parts[1..], i - 1)
  }

  /** `np.concatenate` of a list of one-dimensional arrays. */
  function Concat(parts: seq<seq<real>>): (r: seq<real>)
    ensures |r| == TotalLength(parts)
  {
    if parts == [] then [] else parts[0] + Concat(parts[1..])
  }

  /** Element `j` of part `i` sits at position `Offset(parts, i) + j` of the concatenation. */
  lemma {:induction false} ConcatAt(parts: seq<seq<real>>, i: nat, j: nat)
    requires i < |parts| && j < |parts[i]|
    ensures Offset(parts, i) + j < |Concat(parts)|
    ensures Concat(parts)[Offset(parts, i) + j] == parts[i][j]
  {
    if i > 0 {
      ConcatAt(parts[1..], i - 1, j);
      assert parts[1..][i - 1] == parts[i];
    }
  }

  /** Every position of the concatenation belongs to some element of some part. */
  lemma {:induction false} ConcatCovers(parts: seq<seq<real>>, p: nat)
    requires p < |Concat(parts)|
    ensures exists i, j :: 0 <= i < |parts| && 0 <= j < |parts[i]| && p == Offset(parts, i) + j && Concat(parts)[p] == parts[i][j]
  {
    if p < |parts[0]| {
      assert Offset(parts, 0) + p == p;
      assert Concat(parts)[p] == parts[0][p];
    } else {
      ConcatCovers(parts[1..], p - |parts[0]|);
      var i, j :| 0 <= i < |parts[1..]| && 0 <= j < |parts[1..][i]| && p - |parts[0]| == Offset(parts[1..], i) + j
        && Concat(parts[1..])[p - |parts[0]|] == parts[1..][i][j];
      assert Offset(parts, i + 1) == |parts[0]| + Offset(parts[1..], i);
      assert Concat(parts)[p] == parts[i + 1][j];
    }
  }

  /** An integer reduced to its low 16 bits, read as a two's-complement value. */
  function Wrap16(n: int): (r: int)
    ensures Int16Min <= r <= Int16Max
    ensures (r - n) % 65536 == 0
    ensures Int16Min <= n <= Int16Max ==> r == n
  {
    (n - Int16Min) % 65536 + Int16Min
  }

  /** `astype('int16')` on one sample: truncation toward zero, then the low 16 bits. */
  function ToInt16(x: real): (r: int)
    ensures Int16Min <= r <= Int16Max
    ensures (r - Trunc(x)) % 65536 == 0
  {
    Wrap16(Trunc(x))
  }

  /** `astype('int16')` on a buffer, sample by sample. */
  function CastInt16(s: seq<real>): (r: seq<int>)
    ensures |r| == |s|
    ensures forall i :: 0 <= i < |r| ==> Int16Min <= r[i] <= Int16Max
    ensures forall i :: 0 <= i < |r| ==> r[i] == ToInt16(s[i])
  {
    seq(|s|, i requires 0 <= i < |s| => ToInt16(s[i]))
  }

  /** A sample inside the 16-bit range is only truncated: no wrap-around occurs. */
  lemma ToInt16InRange(x: real)
    requires Int16Min as real <= x <= Int16Max as real
    ensures ToInt16(x) == Trunc(x)
    ensures x - 1.0 < ToInt16(x) as real < x + 1.0
  {
  }

  /**
   * The silence buffer: the slices concatenated, then cast to 16-bit samples.
   * With no peaks the list of slices is empty and `np.concatenate` fails.
   */
  function SilenceOf(signal: seq<real>, lefts: seq<real>, rights: seq<real>, dt: real, sampleRate: int): (r: Result<seq<int>>)
    ensures r.Err? <==> PairCount(lefts, rights) == 0
    ensures r.Err? ==> r.failure == NoPeaks
    ensures r.Ok? ==> |r.value| == TotalLength(Slices(signal, lefts, rights, dt, sampleRate))
    ensures r.Ok? ==> forall p :: 0 <= p < |r.value| ==> Int16Min <= r.value[p] <= Int16Max
  {
    var parts := Slices(signal, lefts, rights, dt, sampleRate);
    if |parts| == 0 then Err(NoPeaks) else Ok(CastInt16(Concat(parts)))
  }

  /**
   * The samples of gap `i` appear, in order, at the gap's offset in the
   * silence buffer; each is the cast of the signal sample at the slice start
   * plus its position in the slice.
   */
  lemma SilenceSource(signal: seq<real>, lefts: seq<real>, rights: seq<real>, dt: real, sampleRate: int, i: nat, j: nat)
    requires i < PairCount(lefts, rights)
    requires j < |GapSlice(signal, lefts, rights, dt, sampleRate, i)|
    ensures var parts := Slices(signal, lefts, rights, dt, sampleRate);
      var start := PySlice.Bound(SampleIndex(lefts[i], dt, sampleRate), |signal|);
      SilenceOf(signal, lefts, rights, dt, sampleRate).Ok? &&
      start + j < |signal| &&
      Offset(parts, i) + j < |SilenceOf(signal, lefts, rights, dt, sampleRate).value| &&
      SilenceOf(signal, lefts, rights, dt, sampleRate).value[Offset(parts, i) + j] == ToInt16(signal[start + j])
  {
    var parts := Slices(signal, lefts, rights, dt, sampleRate);
    ConcatAt(parts, i, j);
    var start := PySlice.Bound(SampleIndex(lefts[i], dt, sampleRate), |signal|);
    assert parts[i][j] == signal[start + j];
    assert SilenceOf(signal, lefts, rights, dt, sampleRate) == Ok(CastInt16(Concat(parts)));
  }

  /**
   * Every sample of the silence buffer is the cast of sample `j` of the slice
   * of some gap `i`.
   */
  lemma SilenceFromSignal(signal: seq<real>, lefts: seq<real>, rights: seq<real>, dt: real, sampleRate: int, p: nat)
    requires SilenceOf(signal, lefts, rights, dt, sampleRate).Ok?
    requires p < |SilenceOf(signal, lefts, rights, dt, sampleRate).value|
    ensures exists i, j ::
      (0 <= i < PairCount(lefts, rights) && 0 <= j < |GapSlice(signal, lefts, rights, dt, sampleRate, i)| &&
       SilenceOf(signal, lefts, rights, dt, sampleRate).value[p] == ToInt16(GapSlice(signal, lefts, rights, dt, sampleRate, i)[j]))
  {
    var parts := Slices(signal, lefts, rights, dt, sampleRate);
    ConcatCovers(parts, p);
    var i, j :| 0 <= i < |parts| && 0 <= j < |parts[i]| && p == Offset(parts, i) + j && Concat(parts)[p] == parts[i][j];
    assert parts[i] == GapSlice(signal, lefts, rights, dt, sampleRate, i);
  }

  /**
   * When every signal sample lies in the 16-bit range, every silence sample
   * is a signal sample truncated toward zero: the cast never wraps.
   */
  lemma SilenceCastExact(signal: seq<real>, lefts: seq<real>, rights: seq<real>, dt: real, sampleRate: int, p: nat)
    requires forall k :: 0 <= k < |signal| ==> Int16Min as real <= signal[k] <= Int16Max as real
    requires SilenceOf(signal, lefts, rights, dt, sampleRate).Ok?
    requires p < |SilenceOf(signal, lefts, rights, dt, sampleRate).value|
    ensures exists k :: 0 <= k < |signal| && SilenceOf(signal, lefts, rights, dt, sampleRate).value[p] == Trunc(signal[k])
  {
    SilenceFromSignal(signal, lefts, rights, dt, sampleRate, p);
    var i, j :| 0 <= i < PairCount(lefts, rights) && 0 <= j < |GapSlice(signal, lefts, rights, dt, sampleRate, i)| &&
      SilenceOf(signal, lefts, rights, dt, sampleRate).value[p] == ToInt16(GapSlice(signal, lefts, rights, dt, sampleRate, i)[j]);
    var k := PySlice.Bound(SampleIndex(lefts[i], dt, sampleRate), |signal|) + j;
    assert GapSlice(signal, lefts, rights, dt, sampleRate, i)[j] == signal[k];
    ToInt16InRange(signal[k]);
  }

  /**
   * For a gap at non-negative frame positions (as peak detection reports
   * them) the indices are non-negative, so the slice is `signal[a:b]` clamped
   * to the signal's length and empty when `a >= b`.
   */
  lemma GapSliceLength(signal: seq<real>, lefts: seq<real>, rights: seq<real>, dt: real, sampleRate: int, i: nat)
    requires i < PairCount(lefts, rights)
    requires lefts[i] >= 0.0 && rights[i] >= 0.0 && dt > 0.0 && sampleRate > 0
    ensures var a, b := SampleIndex(lefts[i], dt, sampleRate), SampleIndex(rights[i], dt, sampleRate);
      0 <= a && 0 <= b &&
      |GapSlice(signal, lefts, rights, dt, sampleRate, i)| == Max(0, Min(b, |signal|) - Min(a, |signal|)) &&
      forall j :: 0 <= j < |GapSlice(signal, lefts, rights, dt, sampleRate, i)| ==>
        a + j < |signal| && GapSlice(signal, lefts, rights, dt, sampleRate, i)[j] == signal[a + j]
  {
    NonNegativeProduct(lefts[i], dt);
    NonNegativeProduct(lefts[i] * dt, sampleRate as real);
    NonNegativeProduct(rights[i], dt);
    NonNegativeProduct(rights[i] * dt, sampleRate as real);
    var a, b := SampleIndex(lefts[i], dt, sampleRate), SampleIndex(rights[i], dt, sampleRate);
    PySlice.SliceNonNegative(signal, a, b);
  }
}
