/**
 * The down-mix of a multi-channel recording to one channel: each mono sample
 * is the sum of the frame's channel samples divided by two, which is the mean
 * of the channels when there are exactly two of them.
 */
module DownMix {
  import opened Common

  /** The sample array a wav reader returns: one-dimensional for a mono file. */
  datatype WavData =
    | Mono(samples: seq<int>)
    | Frames(frames: seq<seq<int>>)   // frames[i][c]: channel c of frame i

  /** The arithmetic mean of a non-empty frame, the reference for the down-mix. */
  function Mean(s: seq<int>): real
    requires |s| > 0
  {
    SumInt(s) as real / |s| as real
  }

  /** `signal.sum(axis=1)/2` on a two-dimensional sample array. */
  function Mix(frames: seq<seq<int>>): (r: seq<real>)
    ensures |r| == |frames|
    ensures forall i :: 0 <= i < |r| ==> 2.0 * r[i] == SumInt(frames[i]) as real
  {
    seq(|frames|, i requires 0 <= i < |frames| => SumInt(frames[i]) as real / 2.0)
  }

  /** Summing along axis 1 fails on the one-dimensional array of a mono file. */
  function DownMixWav(w: WavData): (r: Result<seq<real>>)
    ensures r.Err? <==> w.Mono?
    ensures r.Err? ==> r.failure == NotMultiChannel
    ensures w.Frames? ==> r == Ok(Mix(w.frames))
  {
    match w
    case Mono(_) => Err(NotMultiChannel)
    case Frames(frames) => Ok(Mix(frames))
  }

  predicate TwoChannel16Bit(frames: seq<seq<int>>)
  {
    forall i :: 0 <= i < |frames| ==>
      |frames[i]| == 2 && Int16Min <= frames[i][0] <= Int16Max && Int16Min <= frames[i][1] <= Int16Max
  }

  /**
   * For a two-channel recording the down-mix is the channel mean, lies between
   * the two channel samples, and so stays within the 16-bit sample range.
   */
  lemma {:induction false} TwoChannelMixIsMean(frames: seq<seq<int>>)
    requires TwoChannel16Bit(frames)
    ensures forall i :: 0 <= i < |frames| ==> Mix(frames)[i] == Mean(frames[i])
    ensures forall i :: 0 <= i < |frames| ==>
      Min(frames[i][0], frames[i][1]) as real <= Mix(frames)[i] <= Max(frames[i][0], frames[i][1]) as real
    ensures forall i :: 0 <= i < |frames| ==> Int16Min as real <= Mix(frames)[i] <= Int16Max as real
  {
    forall i | 0 <= i < |frames|
      ensures SumInt(frames[i]) == frames[i][0] + frames[i][1]
    {
      var f := frames[i];
      assert f[1..][1..] == [];
      assert SumInt(f[1..]) == f[1] + SumInt(f[1..][1..]);
    }
  }

  /**
   * With three channels, half of the sum is not the mean: a frame of three
   * equal non-zero samples is mixed to one and a half times its mean.
   */
  lemma MixIsNotMeanForThreeChannels(x: int)
    requires x != 0
    ensures Mix([[x, x, x]])[0] != Mean([x, x, x])
  {
    var f := [x, x, x];
    assert f[1..] == [x, x] && f[1..][1..] == [x] && f[1..][1..][1..] == [];
    assert SumInt([x]) == x;
    assert SumInt([x, x]) == x + SumInt([x]);
    assert SumInt(f) == x + SumInt([x, x]);
  }
}
