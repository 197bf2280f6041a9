/** Media timestamps as CoreMedia writes them: a rational `value / timescale` seconds. */
module MediaTime {

  /** CMTimeMake(value, timescale). */
  datatype CMTime = CMTime(value: int, timescale: int)

  /** kCMTimeZero. */
  const Zero: CMTime := CMTime(0, 1)

  function Seconds(t: CMTime): real
    requires t.timescale > 0
  {
    t.value as real / t.timescale as real
  }

  /** The presentation time of frame number `n` at `frameRate` frames per second. */
  function FrameTime(n: nat, frameRate: int): (t: CMTime)
    requires frameRate > 0
    ensures t.timescale > 0 && Seconds(t) * frameRate as real == n as real
  {
    CMTime(n, frameRate)
  }

  /** The times of frames 0, 1, ..., n-1. */
  function FrameTimes(n: nat, frameRate: int): (ts: seq<CMTime>)
    requires frameRate > 0
    ensures |ts| == n
    ensures forall i :: 0 <= i < n ==> ts[i] == FrameTime(i, frameRate)
  {
    if n == 0 then [] else FrameTimes(n - 1, frameRate) + [FrameTime(n - 1, frameRate)]
  }

  /** Later frames have later times, one frame interval apart. */
  lemma FrameTimesIncrease(i: nat, j: nat, frameRate: int)
    requires frameRate > 0 && i < j
    ensures Seconds(FrameTime(i, frameRate)) < Seconds(FrameTime(j, frameRate))
    ensures Seconds(FrameTime(i + 1, frameRate)) - Seconds(FrameTime(i, frameRate)) == 1.0 / frameRate as real
  {
    var f := frameRate as real;
    assert Seconds(FrameTime(i, frameRate)) == i as real / f;
    assert Seconds(FrameTime(j, frameRate)) == j as real / f;
    assert Seconds(FrameTime(i + 1, frameRate)) == (i + 1) as real / f;
    assert (i + 1) as real / f - i as real / f == 1.0 / f;
  }
}
