/**
 * Python's slice `s[start:stop]` on a sequence (step 1): negative bounds
 * count from the end, every bound is clamped into [0, len], and a slice whose
 * start is not below its stop is empty.
 */
module PySlice {
  import opened Common

  /** The position a slice bound `i` denotes in a sequence of length `n`. */
  function Bound(i: int, n: nat): (r: nat)
    ensures r <= n
  {
    if i < 0 then (if i + n < 0 then 0 else i + n)
    else if i > n then n
    else i
  }

  function Slice<T>(s: seq<T>, start: int, stop: int): (r: seq<T>)
    ensures |r| == Max(0, Bound(stop, |s|) - Bound(start, |s|))
    ensures forall j :: 0 <= j < |r| ==> Bound(start, |s|) + j < |s| && r[j] == s[Bound(start, |s|) + j]
  {
    var a, b := Bound(start, |s|), Bound(stop, |s|);
    if a < b then s[a..b] else []
  }

  /** With non-negative bounds only the clamp to the length remains. */
  lemma SliceNonNegative<T>(s: seq<T>, start: nat, stop: nat)
    ensures |Slice(s, start, stop)| == Max(0, Min(stop, |s|) - Min(start, |s|))
    ensures forall j :: 0 <= j < |Slice(s, start, stop)| ==> start + j < |s| && Slice(s, start, stop)[j] == s[start + j]
  {
    assert Bound(start, |s|) == Min(start, |s|) && Bound(stop, |s|) == Min(stop, |s|);
  }

  /**
   * The symmetric slice `s[k:-k]` that drops `k` elements at each end is
   * non-empty exactly when `k >= 1` and `|s| > 2k`; `s[0:-0]` is `s[0:0]`.
   */
  lemma SymmetricSlice<T>(s: seq<T>, k: nat)
    ensures |Slice(s, k, -(k as int))| > 0 <==> 1 <= k && 2 * k < |s|
    ensures 1 <= k && 2 * k < |s| ==> Slice(s, k, -(k as int)) == s[k..|s| - k]
  {
  }
}
