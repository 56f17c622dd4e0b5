/**
 * The band partition of the magnitude grid and the per-frame band totals.
 * The grid has one row per frequency bin and one column per time frame; bins
 * at or below the cut-off form the low band, the others the high band.
 */
module Bands {
  import opened Common

  const CutoffHz: real := 100.0

  predicate IsLow(freq: real) { freq <= CutoffHz }

  /** The grid's shape as the spectrogram returns it: `|freq|` rows of `frames` columns. */
  predicate Shaped(freq: seq<real>, grid: seq<seq<real>>, frames: nat)
  {
    |freq| == |grid| && forall i :: 0 <= i < |grid| ==> |grid[i]| == frames
  }

  predicate NonNegative(grid: seq<seq<real>>)
  {
    forall i, t :: 0 <= i < |grid| && 0 <= t < |grid[i]| ==> grid[i][t] >= 0.0
  }

  /** `spec[freq_ax <= 100, :]` (low) or `spec[freq_ax > 100, :]` (high): the rows whose mask is set, in order. */
  function BandRows(freq: seq<real>, grid: seq<seq<real>>, low: bool): (rows: seq<seq<real>>)
    requires |freq| == |grid|
    ensures |rows| <= |grid|
    ensures forall r :: r in rows ==> r in grid
  {
    if grid == [] then []
    else (if IsLow(freq[0]) == low then [grid[0]] else []) + BandRows(freq[1..], grid[1..], low)
  }

  /** The number of bins whose frequency falls in the chosen band. */
  function BinCount(freq: seq<real>, low: bool): nat
  {
    if freq == [] then 0 else (if IsLow(freq[0]) == low then 1 else 0) + BinCount(freq[1..], low)
  }

  /** The sum of column `t` over the given rows; `np.sum` of no rows is 0. */
  function ColumnTotal(rows: seq<seq<real>>, t: nat): real
    requires forall i :: 0 <= i < |rows| ==> t < |rows[i]|
  {
    if rows == [] then 0.0 else rows[0][t] + ColumnTotal(rows[1..], t)
  }

  /**
   * The reference for a band total: the sum over every bin of the grid value
   * in column `t` where the bin's mask is set, and 0 where it is not.
   */
  function MaskedSum(freq: seq<real>, grid: seq<seq<real>>, t: nat, low: bool): real
    requires |freq| == |grid|
    requires forall i :: 0 <= i < |grid| ==> t < |grid[i]|
  {
    if grid == [] then 0.0
    else (if IsLow(freq[0]) == low then grid[0][t] else 0.0) + MaskedSum(freq[1..], grid[1..], t, low)
  }

  /** `np.sum(band_rows, axis=0)`: one total per time frame. */
  function BandTotals(freq: seq<real>, grid: seq<seq<real>>, frames: nat, low: bool): (r: seq<real>)
    requires Shaped(freq, grid, frames)
    ensures |r| == frames
    ensures forall t :: 0 <= t < frames ==> r[t] == MaskedSum(freq, grid, t, low)
    ensures NonNegative(grid) ==> forall t :: 0 <= t < frames ==> r[t] >= 0.0
  {
    var rows := BandRows(freq, grid, low);
    BandRowsInherit(freq, grid, frames, low);
    assert NonNegative(grid) ==> forall t :: 0 <= t < frames ==> ColumnTotal(rows, t) >= 0.0 by {
      forall t | 0 <= t < frames { ColumnTotalNonNegative(rows, t); }
    }
    assert forall t :: 0 <= t < frames ==> ColumnTotal(rows, t) == MaskedSum(freq, grid, t, low) by {
      forall t | 0 <= t < frames { BandRowsMaskedSum(freq, grid, t, low); }
    }
    seq(frames, t requires 0 <= t < frames => ColumnTotal(rows, t))
  }

  /** Summing a column over the selected rows adds exactly the grid values of the bins in the band. */
  lemma {:induction false} BandRowsMaskedSum(freq: seq<real>, grid: seq<seq<real>>, t: nat, low: bool)
    requires |freq| == |grid|
    requires forall i :: 0 <= i < |grid| ==> t < |grid[i]|
    ensures forall i :: 0 <= i < |BandRows(freq, grid, low)| ==> t < |BandRows(freq, grid, low)[i]|
    ensures ColumnTotal(BandRows(freq, grid, low), t) == MaskedSum(freq, grid, t, low)
  {
    if grid != [] {
      BandRowsMaskedSum(freq[1..], grid[1..], t, low);
      var rest := BandRows(freq[1..], grid[1..], low);
      if IsLow(freq[0]) == low {
        var rows := [grid[0]] + rest;
        assert BandRows(freq, grid, low) == rows;
        assert rows[0] == grid[0] && rows[1..] == rest;
        assert ColumnTotal(rows, t) == grid[0][t] + ColumnTotal(rest, t);
      } else {
        assert BandRows(freq, grid, low) == rest;
      }
    }
  }

  /** The selected rows keep the grid's width and its non-negativity. */
  lemma {:induction false} BandRowsInherit(freq: seq<real>, grid: seq<seq<real>>, frames: nat, low: bool)
    requires Shaped(freq, grid, frames)
    ensures forall i :: 0 <= i < |BandRows(freq, grid, low)| ==> |BandRows(freq, grid, low)[i]| == frames
    ensures NonNegative(grid) ==> NonNegative(BandRows(freq, grid, low))
  {
    if grid != [] {
      BandRowsInherit(freq[1..], grid[1..], frames, low);
      var rest := BandRows(freq[1..], grid[1..], low);
      if IsLow(freq[0]) == low {
        assert BandRows(freq, grid, low) == [grid[0]] + rest;
      } else {
        assert BandRows(freq, grid, low) == rest;
      }
    }
  }

  lemma {:induction false} ColumnTotalNonNegative(rows: seq<seq<real>>, t: nat)
    requires forall i :: 0 <= i < |rows| ==> t < |rows[i]|
    ensures NonNegative(rows) ==> ColumnTotal(rows, t) >= 0.0
  {
    if rows != [] {
      ColumnTotalNonNegative(rows[1..], t);
      if NonNegative(rows) {
        assert rows[0][t] >= 0.0;
        assert NonNegative(rows[1..]) by {
          forall i, u | 0 <= i < |rows[1..]| && 0 <= u < |rows[1..][i]| ensures rows[1..][i][u] >= 0.0 {
            assert rows[1..][i] == rows[i + 1];
          }
        }
      }
    }
  }

  /** Every bin is in exactly one band: the two band sizes add up to the bin count. */
  lemma {:induction false} BandsPartitionBins(freq: seq<real>, grid: seq<seq<real>>)
    requires |freq| == |grid|
    ensures |BandRows(freq, grid, true)| == BinCount(freq, true)
    ensures |BandRows(freq, grid, false)| == BinCount(freq, false)
    ensures BinCount(freq, true) + BinCount(freq, false) == |grid|
  {
    if grid != [] {
      BandsPartitionBins(freq[1..], grid[1..]);
    }
  }

  /** For every frame, the two band totals add up to the total of the whole column. */
  lemma {:induction false} BandTotalsPartitionColumn(freq: seq<real>, grid: seq<seq<real>>, frames: nat, t: nat)
    requires Shaped(freq, grid, frames)
    requires t < frames
    ensures BandTotals(freq, grid, frames, true)[t] + BandTotals(freq, grid, frames, false)[t] == ColumnTotal(grid, t)
  {
    ColumnSplit(freq, grid, t);
  }

  lemma {:induction false} ColumnSplit(freq: seq<real>, grid: seq<seq<real>>, t: nat)
    requires |freq| == |grid|
    requires forall i :: 0 <= i < |grid| ==> t < |grid[i]|
    ensures forall i :: 0 <= i < |BandRows(freq, grid, true)| ==> t < |BandRows(freq, grid, true)[i]|
    ensures forall i :: 0 <= i < |BandRows(freq, grid, false)| ==> t < |BandRows(freq, grid, false)[i]|
    ensures ColumnTotal(BandRows(freq, grid, true), t) + ColumnTotal(BandRows(freq, grid, false), t) == ColumnTotal(grid, t)
  {
    BandRowsMaskedSum(freq, grid, t, true);
    BandRowsMaskedSum(freq, grid, t, false);
    MaskedSumSplit(freq, grid, t);
  }

  /** Every bin's value goes to exactly one of the two masked sums. */
  lemma {:induction false} MaskedSumSplit(freq: seq<real>, grid: seq<seq<real>>, t: nat)
    requires |freq| == |grid|
    requires forall i :: 0 <= i < |grid| ==> t < |grid[i]|
    ensures MaskedSum(freq, grid, t, true) + MaskedSum(freq, grid, t, false) == ColumnTotal(grid, t)
  {
    if grid != [] {
      MaskedSumSplit(freq[1..], grid[1..], t);
    }
  }

  /**
   * The raw ratio `low / (high * (low + high))` of one frame. It is defined
   * exactly when the denominator is non-zero; otherwise floating point gives
   * inf or NaN, which the model leaves out.
   */
  function RawRatio(low: real, high: real): (r: Option<real>)
    ensures r.Some? <==> high != 0.0 && low + high != 0.0
    ensures r.Some? ==> r.value * (high * (low + high)) == low
  {
    if high == 0.0 || low + high == 0.0 then None
    else NonZeroProduct(high, low + high); Some(low / (high * (low + high)))
  }

  /**
   * With non-negative totals and some high-band energy the ratio is defined,
   * non-negative, and at most `1 / high`, since `low / (low + high)` is a
   * fraction.
   */
  lemma RawRatioBounds(low: real, high: real)
    requires low >= 0.0 && high > 0.0
    ensures RawRatio(low, high).Some?
    ensures 0.0 <= RawRatio(low, high).value
    ensures RawRatio(low, high).value * high <= 1.0
  {
    var total := low + high;
    assert PositiveProduct(high, total) > 0.0;
    var q := RawRatio(low, high).value;
    assert q * (high * total) == low;
    var p := q * high;
    assert p * total == low;
  }
}
