/** The bounded FIFO history of recent frame predictions
    (`predictionBuffer` in the camera view model). */
module PredictionBuffer {
  import opened Predictions

  type Buffer = seq<Prediction>

  function Min(a: nat, b: nat): nat {
    if a <= b then a else b
  }

  /** The last `MaxBufferSize` elements of `xs` (all of them when there are fewer):
      the reference definition of a sliding window. */
  function Recent<T>(xs: seq<T>): (r: seq<T>)
    ensures |r| == Min(|xs|, MaxBufferSize)
  {
    xs[|xs| - Min(|xs|, MaxBufferSize)..]
  }

  /** Appends one prediction and, if the buffer then holds more than
      `MaxBufferSize` entries, drops the first (oldest) one. */
  function Push(buf: Buffer, p: Prediction): (r: Buffer)
    // bounded: a buffer within capacity stays within capacity
    ensures |buf| <= MaxBufferSize ==> |r| <= MaxBufferSize
    // the newest prediction is always at the end
    ensures |r| > 0 && r[|r| - 1] == p
    // below capacity nothing is evicted
    ensures |buf| < MaxBufferSize ==> r == buf + [p]
    // at capacity exactly the oldest entry is evicted, the rest keep their order
    ensures |buf| >= MaxBufferSize ==> |buf| > 0 && r == buf[1..] + [p]
  {
    var appended := buf + [p];
    if |appended| > MaxBufferSize then appended[1..] else appended
  }

  /** Pushes a sequence of predictions, oldest first. */
  function PushAll(buf: Buffer, ps: seq<Prediction>): Buffer
    decreases |ps|
  {
    if |ps| == 0 then buf else PushAll(Push(buf, ps[0]), ps[1..])
  }

  /** Keeping only the recent part of a history does not change the recent part
      of any extension of it. */
  lemma {:induction false} RecentOfRecent<T>(xs: seq<T>, ys: seq<T>)
    ensures Recent(Recent(xs) + ys) == Recent(xs + ys)
  {
    var w := Recent(xs);
    var a := Recent(w + ys);
    var b := Recent(xs + ys);
    assert |a| == |b|;
    forall i | 0 <= i < |a|
      ensures a[i] == b[i]
    {
      var k := |w + ys| - |a| + i;
      var k' := |xs + ys| - |b| + i;
      if k < |w| {
        assert (w + ys)[k] == w[k];
        assert w[k] == xs[|xs| - |w| + k];
        assert k' == |xs| - |w| + k;
      } else {
        assert (w + ys)[k] == ys[k - |w|];
        assert (xs + ys)[k'] == ys[k' - |xs|];
      }
    }
  }

  /** Whatever the buffer's length, a push evicts at most one entry, and only
      the oldest: the old buffer followed by the new prediction is the evicted
      prefix followed by the new buffer. */
  lemma PushEvictsOnlyOldest(buf: Buffer, p: Prediction)
    ensures var r := Push(buf, p);
      && |buf| <= |r| <= |buf| + 1
      && buf + [p] == buf[..|buf| + 1 - |r|] + r
  {
    var r := Push(buf, p);
    if |buf| + 1 > MaxBufferSize {
      assert buf + [p] == buf[..1] + r;
    } else {
      assert buf[..0] == [];
    }
  }

  /** One push on a buffer within capacity is the sliding window of the
      buffer extended by the new prediction. */
  lemma PushIsRecent(buf: Buffer, p: Prediction)
    requires |buf| <= MaxBufferSize
    ensures Push(buf, p) == Recent(buf + [p])
  {
  }

  /** FIFO window: pushing any number of predictions onto a buffer within
      capacity keeps exactly the last `MaxBufferSize` of the buffer followed by
      the new predictions, in arrival order. */
  lemma {:induction false} PushAllIsRecent(buf: Buffer, ps: seq<Prediction>)
    requires |buf| <= MaxBufferSize
    ensures PushAll(buf, ps) == Recent(buf + ps)
    ensures |PushAll(buf, ps)| <= MaxBufferSize
    decreases |ps|
  {
    if |ps| > 0 {
      var p, rest := ps[0], ps[1..];
      var next := Push(buf, p);
      PushIsRecent(buf, p);
      assert next == Recent(buf + [p]);
      PushAllIsRecent(next, rest);
      RecentOfRecent(buf + [p], rest);
      assert (buf + [p]) + rest == buf + ps by {
        assert ps == [p] + rest;
      }
      calc {
        PushAll(buf, ps);
        PushAll(next, rest);
        Recent(Recent(buf + [p]) + rest);
        Recent((buf + [p]) + rest);
      }
    } else {
      assert buf + ps == buf;
    }
  }

  /** Starting from an empty buffer, the buffer holds the last (at most ten)
      predictions received. */
  lemma {:induction false} FromEmptyKeepsLastTen(ps: seq<Prediction>)
    ensures PushAll([], ps) == ps[|ps| - Min(|ps|, MaxBufferSize)..]
  {
    PushAllIsRecent([], ps);
    assert [] + ps == ps;
  }
}
