/**
 Demultiplexed live audio: each participant gets its own sequence numbers and its own media clock,
 made up from the frames alone (connector_service/live/_demux.py).
 */
module Demux {

  datatype DemuxedFrame = DemuxedFrame(
    participantId: string,
    payload: seq<bv8>,
    sampleRateHz: int,
    channels: int,
    participantName: string,
    trackId: string)

  datatype RawFrame = RawFrame(
    participantId: string,
    payload: seq<bv8>,
    sequenceNumber: int,
    mediaTimestampMs: int,
    wallClockTimestamp: string,
    participantName: string,
    trackId: string,
    sampleRateHz: int,
    channels: int)

  /** Python's `//`. */
  function FloorDiv(a: int, b: int): int
    requires b != 0
  {
    if b > 0 then a / b else (-a) / (-b)
  }

  /** Python's `int(a / b)`: towards zero. */
  function TruncDiv(a: int, b: int): int
    requires b != 0
  {
    if a >= 0 then (if b > 0 then a / b else -(a / (-b)))
    else (if b > 0 then -((-a) / b) else (-a) / (-b))
  }

  /** Two bytes a sample, channels interleaved. */
  function Samples(df: DemuxedFrame): int {
    if df.channels != 0 then FloorDiv(|df.payload|, 2 * df.channels) else 0
  }

  function DurationMs(df: DemuxedFrame): int {
    if df.sampleRateHz != 0 then TruncDiv(Samples(df) * 1000, df.sampleRateHz) else 0
  }

  datatype Clocks = Clocks(seqs: map<string, int>, elapsedMs: map<string, int>) {
    function SeqOf(p: string): int { if p in seqs then seqs[p] else -1 }

    function ElapsedOf(p: string): int { if p in elapsedMs then elapsedMs[p] else 0 }
  }

  function Advance(c: Clocks, df: DemuxedFrame): Clocks {
    var p := df.participantId;
    Clocks(c.seqs[p := c.SeqOf(p) + 1],
           if df.sampleRateHz != 0 then c.elapsedMs[p := c.ElapsedOf(p) + DurationMs(df)] else c.elapsedMs)
  }

  function TrackOf(df: DemuxedFrame): string {
    if df.trackId != "" then df.trackId else "track-" + df.participantId
  }

  function Stamp(c: Clocks, df: DemuxedFrame, wall: string): RawFrame {
    var p := df.participantId;
    RawFrame(p, df.payload, c.SeqOf(p) + 1, c.ElapsedOf(p), wall, df.participantName,
             TrackOf(df), df.sampleRateHz, df.channels)
  }

  function ClocksAfter(dfs: seq<DemuxedFrame>): Clocks {
    if dfs == [] then Clocks(map[], map[]) else Advance(ClocksAfter(dfs[..|dfs| - 1]), dfs[|dfs| - 1])
  }

  /** What the source yields; `wall(i)` is the time of arrival of frame i. */
  function Yielded(dfs: seq<DemuxedFrame>, wall: nat -> string): (out: seq<RawFrame>)
    ensures |out| == |dfs|
  {
    if dfs == [] then [] else
      var n := |dfs| - 1;
      Yielded(dfs[..n], wall) + [Stamp(ClocksAfter(dfs[..n]), dfs[n], wall(n))]
  }

  method Frames(dfs: seq<DemuxedFrame>, wall: nat -> string) returns (out: seq<RawFrame>)
    ensures out == Yielded(dfs, wall)
  {
    var seqs: map<string, int>, elapsedMs: map<string, int> := map[], map[];
    out := [];
    for i := 0 to |dfs|
      invariant Clocks(seqs, elapsedMs) == ClocksAfter(dfs[..i])
      invariant out == Yielded(dfs[..i], wall)
    {
      assert dfs[..i + 1][..i] == dfs[..i];
      var df := dfs[i];
      ghost var before := Clocks(seqs, elapsedMs);
      var p := df.participantId;
      var n := (if p in seqs then seqs[p] else -1) + 1;
      seqs := seqs[p := n];
      var mediaTs := if p in elapsedMs then elapsedMs[p] else 0;
      if df.sampleRateHz != 0 {
        elapsedMs := elapsedMs[p := mediaTs + DurationMs(df)];
      }
      assert Clocks(seqs, elapsedMs) == Advance(before, df);
      var raw := RawFrame(p, df.payload, n, mediaTs, wall(i), df.participantName, TrackOf(df),
                          df.sampleRateHz, df.channels);
      assert raw == Stamp(before, df, wall(i));
      out := out + [raw];
    }
    assert dfs[..|dfs|] == dfs;
  }

  /** One frame out for each frame in, of the same participant, stamped with the time it arrived at. */
  lemma {:induction false} FramesComeInOrder(dfs: seq<DemuxedFrame>, wall: nat -> string, i: nat)
    requires i < |dfs|
    ensures var r := Yielded(dfs, wall)[i];
            r.participantId == dfs[i].participantId && r.wallClockTimestamp == wall(i)
  {
    if i < |dfs| - 1 {
      FramesComeInOrder(dfs[..|dfs| - 1], wall, i);
    }
  }

  // ---------------------------------------------------------------------------
  // One participant at a time
  // ---------------------------------------------------------------------------

  function FramesOf(dfs: seq<DemuxedFrame>, p: string): seq<DemuxedFrame> {
    if dfs == [] then [] else
      var n := |dfs| - 1;
      if dfs[n].participantId == p then FramesOf(dfs[..n], p) + [dfs[n]] else FramesOf(dfs[..n], p)
  }

  function OutputOf(out: seq<RawFrame>, p: string): seq<RawFrame> {
    if out == [] then [] else
      var n := |out| - 1;
      if out[n].participantId == p then OutputOf(out[..n], p) + [out[n]] else OutputOf(out[..n], p)
  }

  function TotalMs(dfs: seq<DemuxedFrame>): int {
    if dfs == [] then 0 else TotalMs(dfs[..|dfs| - 1]) + DurationMs(dfs[|dfs| - 1])
  }

  function TotalSamples(dfs: seq<DemuxedFrame>): int {
    if dfs == [] then 0 else TotalSamples(dfs[..|dfs| - 1]) + Samples(dfs[|dfs| - 1])
  }

  /** A participant's clocks depend on its own frames only: their number and their durations. */
  lemma {:induction false} ClocksCountOwnFrames(dfs: seq<DemuxedFrame>, p: string)
    ensures ClocksAfter(dfs).SeqOf(p) == |FramesOf(dfs, p)| - 1
    ensures ClocksAfter(dfs).ElapsedOf(p) == TotalMs(FramesOf(dfs, p))
  {
    if dfs != [] {
      var n := |dfs| - 1;
      ClocksCountOwnFrames(dfs[..n], p);
      var before := FramesOf(dfs[..n], p);
      if dfs[n].participantId == p {
        assert (before + [dfs[n]])[..|before|] == before;
      }
    }
  }

  /** r is what the k-th of a participant's own frames becomes: its sound, its names and its format as they
      came, a track named after the participant if it has no name, number k, and the durations of the
      frames before it for a date. */
  ghost predicate IsKth(r: RawFrame, own: seq<DemuxedFrame>, k: nat) {
    && k < |own|
    && r.participantId == own[k].participantId
    && r.payload == own[k].payload
    && r.participantName == own[k].participantName
    && r.trackId == (if own[k].trackId != "" then own[k].trackId else "track-" + own[k].participantId)
    && r.sampleRateHz == own[k].sampleRateHz && r.channels == own[k].channels
    && r.sequenceNumber == k
    && r.mediaTimestampMs == TotalMs(own[..k])
  }

  /** The k-th frame a participant gets is its own k-th input, numbered k and dated by the durations
      of its own earlier frames, whatever is interleaved with them. */
  lemma {:induction false} OutputIsOwnSequence(dfs: seq<DemuxedFrame>, wall: nat -> string, p: string)
    ensures var out, own := OutputOf(Yielded(dfs, wall), p), FramesOf(dfs, p);
            |out| == |own| && forall k :: 0 <= k < |out| ==> out[k].participantId == p && IsKth(out[k], own, k)
  {
    if dfs != [] {
      var n := |dfs| - 1;
      OutputIsOwnSequence(dfs[..n], wall, p);
      ClocksCountOwnFrames(dfs[..n], p);
      var out, own := OutputOf(Yielded(dfs[..n], wall), p), FramesOf(dfs[..n], p);
      var r := Stamp(ClocksAfter(dfs[..n]), dfs[n], wall(n));
      assert Yielded(dfs, wall)[..n] == Yielded(dfs[..n], wall);
      if dfs[n].participantId == p {
        var own' := own + [dfs[n]];
        assert own'[..|own|] == own;
        forall k | 0 <= k < |out| ensures IsKth(out[k], own', k) {
          assert own'[..k] == own[..k];
        }
        assert IsKth(r, own', |own|);
      }
    }
  }

  function Unclocked(r: RawFrame): RawFrame { r.(wallClockTimestamp := "") }

  lemma {:induction false} OwnFramesOfOwn(dfs: seq<DemuxedFrame>, p: string)
    ensures FramesOf(FramesOf(dfs, p), p) == FramesOf(dfs, p)
    ensures forall df :: df in FramesOf(dfs, p) ==> df.participantId == p
  {
    if dfs != [] {
      var n := |dfs| - 1;
      OwnFramesOfOwn(dfs[..n], p);
      var before := FramesOf(dfs[..n], p);
      if dfs[n].participantId == p {
        assert (before + [dfs[n]])[..|before|] == before;
      }
    }
  }

  /** Demultiplexing ignores interleaving: up to the wall clock, a participant gets the same frames
      as if it were alone. */
  lemma InterleavingIsInvisible(dfs: seq<DemuxedFrame>, wall: nat -> string, alone: nat -> string, p: string)
    ensures var mixed, single := OutputOf(Yielded(dfs, wall), p), OutputOf(Yielded(FramesOf(dfs, p), alone), p);
            |mixed| == |single| && forall k :: 0 <= k < |mixed| ==> Unclocked(mixed[k]) == Unclocked(single[k])
  {
    OutputIsOwnSequence(dfs, wall, p);
    OutputIsOwnSequence(FramesOf(dfs, p), alone, p);
    OwnFramesOfOwn(dfs, p);
    var own := FramesOf(dfs, p);
    var mixed, single := OutputOf(Yielded(dfs, wall), p), OutputOf(Yielded(own, alone), p);
    forall k | 0 <= k < |mixed| ensures Unclocked(mixed[k]) == Unclocked(single[k]) {
      assert IsKth(mixed[k], own, k) && IsKth(single[k], own, k);
    }
  }

  // ---------------------------------------------------------------------------
  // The media clock
  // ---------------------------------------------------------------------------

  lemma {:induction false} TotalNeverDrops(own: seq<DemuxedFrame>, j: nat, k: nat)
    requires forall df :: df in own ==> df.sampleRateHz >= 0 && df.channels >= 0
    requires j <= k <= |own|
    ensures TotalMs(own[..j]) <= TotalMs(own[..k])
  {
    if j < k {
      TotalNeverDrops(own, j, k - 1);
      assert own[..k][..k - 1] == own[..k - 1];
      assert own[k - 1] in own;
      DurationIsNatural(own[k - 1]);
    }
  }

  /** The media timestamps a participant's frames are emitted with never go back. */
  lemma ClockNeverGoesBack(dfs: seq<DemuxedFrame>, wall: nat -> string, p: string, j: nat, k: nat)
    requires forall df :: df in FramesOf(dfs, p) ==> df.sampleRateHz >= 0 && df.channels >= 0
    requires j <= k < |OutputOf(Yielded(dfs, wall), p)|
    ensures var out := OutputOf(Yielded(dfs, wall), p);
            out[j].mediaTimestampMs <= out[k].mediaTimestampMs
  {
    OutputIsOwnSequence(dfs, wall, p);
    var out, own := OutputOf(Yielded(dfs, wall), p), FramesOf(dfs, p);
    assert IsKth(out[j], own, j) && IsKth(out[k], own, k);
    TotalNeverDrops(own, j, k);
  }

  lemma DivisionBounds(a: int, b: int)
    requires a >= 0 && b > 0
    ensures 0 <= a / b && b * (a / b) <= a < b * (a / b) + b
  {
  }

  lemma DurationIsNatural(df: DemuxedFrame)
    requires df.sampleRateHz >= 0 && df.channels >= 0
    ensures Samples(df) >= 0 && DurationMs(df) >= 0
    ensures df.sampleRateHz > 0 ==>
              var exact, rounded := 1000 * Samples(df), df.sampleRateHz * DurationMs(df);
              rounded <= exact < rounded + df.sampleRateHz
  {
    if df.channels > 0 {
      DivisionBounds(|df.payload|, 2 * df.channels);
    }
    if df.sampleRateHz > 0 {
      DivisionBounds(Samples(df) * 1000, df.sampleRateHz);
    }
  }

  lemma Distribute(r: int, a: int, b: int)
    ensures r * (a + b) == r * a + r * b
  {
  }

  /** At a constant rate the media clock lags the exact sample clock by less than a millisecond a
      frame, and never leads it. */
  lemma {:induction false} DriftIsBounded(own: seq<DemuxedFrame>, rate: int)
    requires rate > 0 && forall df :: df in own ==> df.sampleRateHz == rate && df.channels >= 0
    ensures rate * TotalMs(own) <= 1000 * TotalSamples(own)
    ensures own != [] ==> 1000 * TotalSamples(own) < rate * TotalMs(own) + rate * |own|
  {
    if own != [] {
      var n := |own| - 1;
      assert own[n] in own && forall df :: df in own[..n] ==> df in own;
      DriftIsBounded(own[..n], rate);
      DurationIsNatural(own[n]);
      Distribute(rate, TotalMs(own[..n]), DurationMs(own[n]));
      Distribute(rate, n, 1);
    }
  }
}
