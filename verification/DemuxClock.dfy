/**
 The media clock against the sound itself (connector_service/live/_demux.py): how long the bytes of a
 participant last, and how close the timestamps stay to that.
 */
module DemuxClock {
  import opened Demux

  lemma FlooredQuotient(a: int, b: int)
    requires b != 0
    ensures var rest := a - b * FloorDiv(a, b);
            if b > 0 then 0 <= rest < b else b < rest <= 0
  {
    if b > 0 {
      Euclid(a, b);
    } else {
      Euclid(-a, -b);
      assert b * FloorDiv(a, b) == -(-b * FloorDiv(a, b));
    }
  }

  lemma Euclid(a: int, b: int)
    requires b > 0
    ensures 0 <= a - b * (a / b) < b
  {
  }

  /** A sample is two bytes for each channel, and only whole samples count; the quotient is Python's. */
  lemma SamplesOfBytes(df: DemuxedFrame)
    ensures df.channels == 0 ==> Samples(df) == 0
    ensures df.channels > 0 ==> 2 * df.channels * Samples(df) <= |df.payload| < 2 * df.channels * (Samples(df) + 1)
    ensures df.channels < 0 ==> 2 * df.channels < |df.payload| - 2 * df.channels * Samples(df) <= 0
  {
    if df.channels != 0 {
      FlooredQuotient(|df.payload|, 2 * df.channels);
    }
  }

  /** Without a rate a frame lasts nothing; with one, its samples divided by it, in whole milliseconds,
      whatever the signs. */
  lemma DurationOfSamples(df: DemuxedFrame)
    ensures df.sampleRateHz == 0 ==> DurationMs(df) == 0
    ensures df.sampleRateHz != 0 ==>
              var exact, rest := 1000 * Samples(df), 1000 * Samples(df) - df.sampleRateHz * DurationMs(df);
              && (exact >= 0 ==> 0 <= rest) && (exact <= 0 ==> rest <= 0)
              && rest < Magnitude(df.sampleRateHz) && -rest < Magnitude(df.sampleRateHz)
  {
    if df.sampleRateHz != 0 {
      TruncatedQuotient(Samples(df) * 1000, df.sampleRateHz);
    }
  }

  function Magnitude(a: int): int { if a >= 0 then a else -a }

  lemma TruncatedQuotient(a: int, b: int)
    requires b != 0
    ensures var rest := a - b * TruncDiv(a, b);
            (a >= 0 ==> 0 <= rest) && (a <= 0 ==> rest <= 0) && rest < Magnitude(b) && -rest < Magnitude(b)
  {
    DivisionBounds(Magnitude(a), Magnitude(b));
    var q := Magnitude(a) / Magnitude(b);
    assert TruncDiv(a, b) == if (a >= 0) == (b > 0) then q else -q;
    assert b * q == if b > 0 then Magnitude(b) * q else -(Magnitude(b) * q);
    assert b * -q == -(b * q);
  }

  function Bytes(dfs: seq<DemuxedFrame>): nat {
    if dfs == [] then 0 else Bytes(dfs[..|dfs| - 1]) + |dfs[|dfs| - 1].payload|
  }

  lemma ScaledBounds(u: int, x: int, r: int)
    requires u > 0 && 0 <= x < r
    ensures 0 <= u * x <= u * (r - 1)
  {
  }

  /** How far one frame's bytes are ahead of its duration, in units of which a millisecond has `unit * rate`:
      never behind, and ahead by less than a sample and a millisecond; by less than a millisecond when the
      bytes are whole samples. */
  lemma FrameLag(df: DemuxedFrame, unit: int, rate: int)
    requires df.channels > 0 && unit == 2 * df.channels && rate > 0 && df.sampleRateHz == rate
    ensures var lag := 1000 * |df.payload| - unit * rate * DurationMs(df);
            && 0 <= lag <= 1000 * (unit - 1) + unit * (rate - 1)
            && (|df.payload| % unit == 0 ==> lag <= unit * (rate - 1))
  {
    var n, ms := Samples(df), DurationMs(df);
    SamplesOfBytes(df);
    DurationOfSamples(df);
    DurationIsNatural(df);
    var bytes, exact := |df.payload| - unit * n, 1000 * n - rate * ms;
    assert 0 <= bytes < unit;
    assert 0 <= exact < rate;
    ScaledBounds(unit, exact, rate);
    LagSplits(|df.payload|, unit, rate, n, ms);
    if |df.payload| % unit == 0 {
      WholeSamples(|df.payload|, unit, n);
    }
  }

  lemma LagSplits(bytes: int, unit: int, rate: int, n: int, ms: int)
    ensures 1000 * bytes - unit * rate * ms == 1000 * (bytes - unit * n) + unit * (1000 * n - rate * ms)
  {
    assert unit * (1000 * n - rate * ms) == unit * (1000 * n) - unit * (rate * ms);
    assert unit * (rate * ms) == unit * rate * ms;
    assert unit * (1000 * n) == 1000 * (unit * n);
  }

  lemma SmallMultiple(u: int, d: int)
    requires u > 0 && 0 <= u * d < u
    ensures d == 0
  {
  }

  lemma WholeSamples(bytes: int, unit: int, n: int)
    requires unit > 0 && bytes % unit == 0 && unit * n <= bytes < unit * n + unit
    ensures bytes == unit * n
  {
    var q := bytes / unit;
    assert bytes == unit * q;
    assert unit * (q - n) == unit * q - unit * n;
    SmallMultiple(unit, q - n);
  }

  ghost predicate Steady(own: seq<DemuxedFrame>, unit: int, rate: int) {
    forall df :: df in own ==> df.channels > 0 && unit == 2 * df.channels && df.sampleRateHz == rate
  }

  ghost predicate WholeFrames(own: seq<DemuxedFrame>, unit: int)
    requires unit > 0
  {
    forall df :: df in own ==> |df.payload| % unit == 0
  }

  /** Every frame's bytes are ahead of its duration by at most that much. */
  ghost predicate LagsWithin(own: seq<DemuxedFrame>, scale: int, most: int) {
    forall df :: df in own ==> 0 <= 1000 * |df.payload| - scale * DurationMs(df) <= most
  }

  lemma LagStep(n: int, bytes: int, total: int, more: int, ms: int, scale: int, most: int)
    requires 0 <= 1000 * bytes - scale * total <= n * most && 0 <= 1000 * more - scale * ms <= most
    ensures 0 <= 1000 * (bytes + more) - scale * (total + ms) <= (n + 1) * most
  {
    Distribute(scale, total, ms);
    assert (n + 1) * most == n * most + most;
  }

  lemma {:induction false} TotalLag(own: seq<DemuxedFrame>, scale: int, most: int)
    requires LagsWithin(own, scale, most)
    ensures 0 <= 1000 * Bytes(own) - scale * TotalMs(own) <= |own| * most
  {
    if own != [] {
      var n := |own| - 1;
      assert own[n] in own && forall df :: df in own[..n] ==> df in own;
      TotalLag(own[..n], scale, most);
      LagStep(n, Bytes(own[..n]), TotalMs(own[..n]), |own[n].payload|, DurationMs(own[n]), scale, most);
    }
  }

  lemma SteadyLags(own: seq<DemuxedFrame>, unit: int, rate: int)
    requires unit > 0 && rate > 0 && Steady(own, unit, rate)
    ensures LagsWithin(own, unit * rate, 1000 * (unit - 1) + unit * (rate - 1))
    ensures WholeFrames(own, unit) ==> LagsWithin(own, unit * rate, unit * (rate - 1))
  {
    forall df | df in own
      ensures var lag := 1000 * |df.payload| - unit * rate * DurationMs(df);
              && 0 <= lag <= 1000 * (unit - 1) + unit * (rate - 1)
              && (|df.payload| % unit == 0 ==> lag <= unit * (rate - 1))
    {
      FrameLag(df, unit, rate);
    }
  }

  /** The k-th frame out is dated by the durations of the k own frames before it. */
  lemma DatedByOwn(dfs: seq<DemuxedFrame>, wall: nat -> string, p: string, k: nat)
    requires k < |OutputOf(Yielded(dfs, wall), p)|
    ensures |FramesOf(dfs, p)| == |OutputOf(Yielded(dfs, wall), p)|
    ensures OutputOf(Yielded(dfs, wall), p)[k].mediaTimestampMs == TotalMs(FramesOf(dfs, p)[..k])
  {
    OutputIsOwnSequence(dfs, wall, p);
    assert IsKth(OutputOf(Yielded(dfs, wall), p)[k], FramesOf(dfs, p), k);
  }

  /** The emitted clock against the bytes that came before: at a constant rate, and with `unit` bytes a
      sample, frame k is dated no later than the bytes of the k frames before it last, and earlier by less
      than a sample and a millisecond a frame; by less than a millisecond a frame when frames hold whole
      samples. The bytes last 1000 * Bytes / (unit * rate) milliseconds. */
  lemma TimestampsFollowBytes(dfs: seq<DemuxedFrame>, wall: nat -> string, p: string, k: nat, unit: int, rate: int)
    requires unit > 0 && rate > 0 && k < |FramesOf(dfs, p)| && Steady(FramesOf(dfs, p), unit, rate)
    ensures |OutputOf(Yielded(dfs, wall), p)| == |FramesOf(dfs, p)|
    ensures var own, ts := FramesOf(dfs, p)[..k], OutputOf(Yielded(dfs, wall), p)[k].mediaTimestampMs;
            var lag := 1000 * Bytes(own) - unit * rate * ts;
            && 0 <= lag <= k * (1000 * (unit - 1) + unit * (rate - 1))
            && (WholeFrames(own, unit) ==> lag <= k * (unit * (rate - 1)))
  {
    OutputIsOwnSequence(dfs, wall, p);
    DatedByOwn(dfs, wall, p, k);
    var own := FramesOf(dfs, p)[..k];
    assert forall df :: df in own ==> df in FramesOf(dfs, p);
    SteadyLags(own, unit, rate);
    TotalLag(own, unit * rate, 1000 * (unit - 1) + unit * (rate - 1));
    if WholeFrames(own, unit) {
      TotalLag(own, unit * rate, unit * (rate - 1));
    }
  }
}
