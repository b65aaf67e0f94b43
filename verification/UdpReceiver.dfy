/**
The v1 receiver's handling of one UDP source (engine/internal/transport/receiver.go):
track, fill gaps with silence, write to the stream's jitter buffer.
*/
module UdpReceiver {
  import opened Arithmetic
  import opened Common
  import opened Bytes
  import opened JitterSpec
  import opened UdpCodec
  import opened JitterBuffers
  import FT = FrameTracker

  /** One source: its tracker, its stream's buffer, what has been written to the
      stream, and what the receiver has counted. */
  datatype Source = Source(
    tracker: FT.Tracker,
    buffer: JState,
    written: seq<byte>,
    delivered: nat,
    accepted: nat,
    staleFrames: nat,
    gaps: nat)

  const NEW_SOURCE := Source(FT.NEW_TRACKER, EMPTY, [], 0, 0, 0, 0)

  function Silent(frames: nat, bpf: nat): (s: seq<byte>)
    ensures |s| == frames * bpf && forall i :: 0 <= i < |s| ==> s[i] == 0
  {
    MulNonNegative(frames, bpf);
    Repeat(0, frames * bpf)
  }

  /** handleUDPAudio */
  function Handled(cfg: Config, s: Source, f: Frame): (r: Source)
    requires cfg.Valid()
  {
    if |f.payload| % cfg.bpf != 0 then s
    else
      var (t, res) := FT.AcceptStep(s.tracker, f.frameSeq, f.captureFrame, |f.payload| / cfg.bpf);
      if res.stale then s.(tracker := t, delivered := s.delivered + 1, staleFrames := s.staleFrames + 1)
      else
        var out := Silent(Max(0, res.gapFrames), cfg.bpf) + f.payload;
        Source(t, Write(cfg, s.buffer, out), s.written + out,
               s.delivered + 1, s.accepted + 1, s.staleFrames, s.gaps + res.missingPackets)
  }

  class UdpSource {
    const tracker: FT.FrameTracker
    const stream: JitterBuffer
    var delivered: nat
    var accepted: nat
    var staleFrames: nat
    var gaps: nat
    ghost var written: seq<byte>

    ghost predicate Valid()
      reads this, stream
    {
      stream.Valid()
    }

    ghost function View(): (s: Source)
      requires Valid()
      reads this, tracker, stream, stream.buf
    {
      Source(tracker.View(), stream.View(), written, delivered, accepted, staleFrames, gaps)
    }

    constructor (cfg: Config)
      requires cfg.Valid()
      ensures Valid() && View() == NEW_SOURCE && stream.cfg == cfg
      ensures fresh(tracker) && fresh(stream) && fresh(stream.buf)
    {
      tracker := new FT.FrameTracker(0);
      stream := new JitterBuffer(cfg);
      delivered, accepted, staleFrames, gaps, written := 0, 0, 0, 0, [];
    }

    /** writeSilence: in chunks of at most one packet's payload. */
    method WriteSilence(frames: int)
      requires Valid()
      modifies stream, stream.buf
      ensures Valid() && stream.View() == Write(stream.cfg, old(stream.View()), Silent(Max(0, frames), stream.cfg.bpf))
    {
      if frames <= 0 {
        return;
      }
      var bytesPerFrame := stream.cfg.bpf;
      var chunkFrames := ChunkFrames(bytesPerFrame);
      ghost var before := stream.View();
      var left, done := frames, 0;
      while left > 0
        invariant 0 <= left <= frames && done == frames - left
        invariant Valid() && stream.View() == Write(stream.cfg, before, Silent(done, bytesPerFrame))
      {
        var n := Min(left, chunkFrames);
        SilenceAdds(stream.cfg, before, done, n);
        var _ := stream.Write(Silent(n, bytesPerFrame));
        left, done := left - n, done + n;
      }
    }

    /** handleUDPAudio */
    method HandleUDPAudio(f: Frame)
      requires Valid()
      modifies this, tracker, stream, stream.buf
      ensures Valid() && View() == Handled(stream.cfg, old(View()), f)
    {
      var bytesPerFrame := stream.cfg.bpf;
      if |f.payload| % bytesPerFrame != 0 {
        return;
      }
      var packetFrames := |f.payload| / bytesPerFrame;
      var result := tracker.Accept(f.frameSeq, f.captureFrame, packetFrames);
      delivered := delivered + 1;
      if result.stale {
        staleFrames := staleFrames + 1;
        return;
      }
      gaps := gaps + result.missingPackets;
      accepted := accepted + 1;
      WriteGapAndPayload(result.gapFrames, f.payload);
      written := written + (Silent(Max(0, result.gapFrames), bytesPerFrame) + f.payload);
    }

    method WriteGapAndPayload(gapFrames: int, payload: seq<byte>)
      requires Valid()
      modifies stream, stream.buf
      ensures Valid()
      ensures stream.View() ==
              Write(stream.cfg, old(stream.View()), Silent(Max(0, gapFrames), stream.cfg.bpf) + payload)
    {
      ghost var before, silence := stream.View(), Silent(Max(0, gapFrames), stream.cfg.bpf);
      WriteSilence(gapFrames);
      MultipleOf(Max(0, gapFrames), stream.cfg.bpf);
      WriteWrite(stream.cfg, before, silence, payload);
      var _ := stream.Write(payload);
    }
  }

  /** Silence written in two pieces is silence written in one. */
  lemma SilenceAdds(cfg: Config, j: JState, a: nat, b: nat)
    requires Consistent(cfg, j)
    ensures Write(cfg, Write(cfg, j, Silent(a, cfg.bpf)), Silent(b, cfg.bpf)) == Write(cfg, j, Silent(a + b, cfg.bpf))
  {
    MultipleOf(a, cfg.bpf);
    assert (a + b) * cfg.bpf == a * cfg.bpf + b * cfg.bpf;
    assert Silent(a, cfg.bpf) + Silent(b, cfg.bpf) == Silent(a + b, cfg.bpf);
    WriteWrite(cfg, j, Silent(a, cfg.bpf), Silent(b, cfg.bpf));
  }

  // ---- the writes one by one

  /** The writes of writeSilence: at most a packet's frames at a time. */
  function SilenceWrites(cfg: Config, frames: nat): (ws: seq<seq<byte>>)
    requires cfg.Valid()
    decreases frames
  {
    if frames == 0 then []
    else
      var n := Min(frames, ChunkFrames(cfg.bpf));
      [Silent(n, cfg.bpf)] + SilenceWrites(cfg, frames - n)
  }

  /** The writes that handling an accepted packet makes to its stream. */
  function Writes(cfg: Config, frames: nat, payload: seq<byte>): (ws: seq<seq<byte>>)
    requires cfg.Valid()
  {
    SilenceWrites(cfg, frames) + [payload]
  }

  function Joined(ws: seq<seq<byte>>): (b: seq<byte>)
  {
    if ws == [] then [] else ws[0] + Joined(ws[1..])
  }

  lemma {:induction false} JoinedAppend(ws: seq<seq<byte>>, w: seq<byte>)
    ensures Joined(ws + [w]) == Joined(ws) + w
  {
    if ws == [] {
      assert [w][1..] == [];
    } else {
      assert (ws + [w])[1..] == ws[1..] + [w];
      JoinedAppend(ws[1..], w);
    }
  }

  ghost predicate AllWhole(cfg: Config, ws: seq<seq<byte>>)
    requires cfg.Valid()
  {
    forall i :: 0 <= i < |ws| ==> |ws[i]| % cfg.bpf == 0
  }

  lemma {:induction false} SilenceJoined(cfg: Config, frames: nat)
    requires cfg.Valid()
    ensures Joined(SilenceWrites(cfg, frames)) == Silent(frames, cfg.bpf) && AllWhole(cfg, SilenceWrites(cfg, frames))
    decreases frames
  {
    MulAdd(0, 0, cfg.bpf);
    if frames > 0 {
      var n := Min(frames, ChunkFrames(cfg.bpf));
      SilenceJoined(cfg, frames - n);
      MultipleOf(n, cfg.bpf);
      MulAdd(n, frames - n, cfg.bpf);
      assert Silent(n, cfg.bpf) + Silent(frames - n, cfg.bpf) == Silent(frames, cfg.bpf);
      assert SilenceWrites(cfg, frames)[1..] == SilenceWrites(cfg, frames - n);
    }
  }

  /** Together they are the gap's silence and the payload. */
  lemma WritesJoined(cfg: Config, frames: nat, payload: seq<byte>)
    requires cfg.Valid() && |payload| % cfg.bpf == 0
    ensures Joined(Writes(cfg, frames, payload)) == Silent(frames, cfg.bpf) + payload
    ensures AllWhole(cfg, Writes(cfg, frames, payload))
  {
    SilenceJoined(cfg, frames);
    JoinedAppend(SilenceWrites(cfg, frames), payload);
  }

  /** THEOREM (what is written), for any packet. One that is not frame-aligned is ignored, a
      stale one only counted; any other is written behind as many frames of silence as the
      stamps or the missing packets call for, up to the limit of 576000. */
  lemma HandledWrites(cfg: Config, s: Source, f: Frame)
    requires cfg.Valid() && s.tracker.maxGapFrames == 0
    ensures var r, stale := Handled(cfg, s, f), s.tracker.seen && f.frameSeq < s.tracker.expectedSeq;
            if |f.payload| % cfg.bpf != 0 then r == s
            else if stale then r == s.(delivered := s.delivered + 1, staleFrames := s.staleFrames + 1)
            else
              var gap := if !s.tracker.seen then 0
                         else Min(FT.GapBefore(s.tracker, f.frameSeq, f.captureFrame, |f.payload| / cfg.bpf), 576000);
              && gap >= 0 && r.written == s.written + Silent(gap, cfg.bpf) + f.payload
              && r.buffer == Write(cfg, s.buffer, Silent(gap, cfg.bpf) + f.payload)
  {
    if |f.payload| % cfg.bpf == 0 {
      FT.AcceptExact(s.tracker, f.frameSeq, f.captureFrame, |f.payload| / cfg.bpf);
      var gap := Max(0, FT.AcceptStep(s.tracker, f.frameSeq, f.captureFrame, |f.payload| / cfg.bpf).1.gapFrames);
      assert s.written + (Silent(gap, cfg.bpf) + f.payload) == s.written + Silent(gap, cfg.bpf) + f.payload;
    }
  }

  // ---- accounting, for any packets

  function Deliver(cfg: Config, fs: seq<Frame>): (s: Source)
    requires cfg.Valid()
  {
    if fs == [] then NEW_SOURCE else Handled(cfg, Deliver(cfg, fs[..|fs| - 1]), fs[|fs| - 1])
  }

  /** The number of the first accepted packet. */
  function FirstSeq(cfg: Config, fs: seq<Frame>): (s: u64)
    requires cfg.Valid()
  {
    if fs == [] then 0
    else if !Deliver(cfg, fs[..|fs| - 1]).tracker.seen then fs[|fs| - 1].frameSeq
    else FirstSeq(cfg, fs[..|fs| - 1])
  }

  /** How many whole-frame packets carry the last 64-bit number. */
  function Wraps(cfg: Config, fs: seq<Frame>): (n: nat)
    requires cfg.Valid()
  {
    if fs == [] then 0
    else Wraps(cfg, fs[..|fs| - 1]) + if IsWrap(cfg, fs[|fs| - 1]) then 1 else 0
  }

  predicate IsWrap(cfg: Config, f: Frame)
    requires cfg.Valid()
  {
    |f.payload| % cfg.bpf == 0 && f.frameSeq == MAX_U64
  }

  ghost predicate Counted(cfg: Config, fs: seq<Frame>)
    requires cfg.Valid()
  {
    var s := Deliver(cfg, fs);
    && s.delivered == s.accepted + s.staleFrames
    && (s.tracker.seen <==> s.accepted > 0)
    && (if s.tracker.seen
        then s.gaps + s.accepted == s.tracker.expectedSeq + Wraps(cfg, fs) * (MAX_U64 + 1) - FirstSeq(cfg, fs)
        else s.gaps == 0 && Wraps(cfg, fs) == 0)
  }

  lemma {:induction false} CountedAlways(cfg: Config, fs: seq<Frame>)
    requires cfg.Valid()
    ensures Counted(cfg, fs)
  {
    if fs != [] {
      CountedAlways(cfg, fs[..|fs| - 1]);
      CountedNext(cfg, fs);
    }
  }

  lemma CountedNext(cfg: Config, fs: seq<Frame>)
    requires cfg.Valid() && fs != [] && Counted(cfg, fs[..|fs| - 1])
    ensures Counted(cfg, fs)
  {
    var s, f := Deliver(cfg, fs[..|fs| - 1]), fs[|fs| - 1];
    if |f.payload| % cfg.bpf == 0 {
      HandledCounts(cfg, s, f);
    }
  }

  /** Which packet was accepted last. */
  function LastAt(cfg: Config, fs: seq<Frame>): (i: nat)
    requires cfg.Valid()
  {
    if fs == [] then 0
    else if Deliver(cfg, fs).accepted > Deliver(cfg, fs[..|fs| - 1]).accepted then |fs| - 1
    else LastAt(cfg, fs[..|fs| - 1])
  }

  lemma {:induction false} LastExpected(cfg: Config, fs: seq<Frame>)
    requires cfg.Valid() && Deliver(cfg, fs).accepted > 0
    ensures LastAt(cfg, fs) < |fs|
    ensures Deliver(cfg, fs).tracker.expectedSeq == FT.Next(fs[LastAt(cfg, fs)].frameSeq)
    ensures |fs[LastAt(cfg, fs)].payload| % cfg.bpf == 0
  {
    var before, f := fs[..|fs| - 1], fs[|fs| - 1];
    CountedAlways(cfg, before);
    if |f.payload| % cfg.bpf == 0 {
      HandledCounts(cfg, Deliver(cfg, before), f);
    }
    if Deliver(cfg, fs).accepted == Deliver(cfg, before).accepted {
      LastExpected(cfg, before);
      assert before[LastAt(cfg, before)] == fs[LastAt(cfg, before)];
    }
  }

  /** THEOREM (gap accounting), for every delivery of any packets: every aligned packet
      is accepted or stale; and the missing packets reported are exactly the numbers
      between the first and the last accepted one that were not accepted, if and only
      if no aligned packet but the one accepted last carried the number 2^64 - 1. */
  lemma GapAccounting(cfg: Config, fs: seq<Frame>)
    requires cfg.Valid()
    ensures var s, last := Deliver(cfg, fs), LastAt(cfg, fs);
            && s.delivered == s.accepted + s.staleFrames
            && (s.accepted > 0 ==>
                 && last < |fs|
                 && (s.gaps == (fs[last].frameSeq - FirstSeq(cfg, fs) + 1) - s.accepted <==>
                     forall i :: 0 <= i < |fs| && i != last ==> !IsWrap(cfg, fs[i])))
  {
    CountedAlways(cfg, fs);
    if Deliver(cfg, fs).accepted > 0 {
      LastExpected(cfg, fs);
      WrapsBut(cfg, fs, LastAt(cfg, fs));
    }
  }

  lemma DeliverNext(cfg: Config, fs: seq<Frame>, f: Frame)
    requires cfg.Valid()
    ensures Deliver(cfg, fs + [f]) == Handled(cfg, Deliver(cfg, fs), f)
    ensures LastAt(cfg, fs + [f]) ==
            if Handled(cfg, Deliver(cfg, fs), f).accepted > Deliver(cfg, fs).accepted then |fs| else LastAt(cfg, fs)
  {
    assert (fs + [f])[..|fs|] == fs;
  }

  /** The failing family is not empty: after the last number the tracker starts again at
      zero, and the span of the accepted numbers is no longer what it counts. */
  lemma WrapMiscounts(cfg: Config, f: Frame, g: Frame)
    requires cfg.Valid() && |f.payload| % cfg.bpf == 0 && |g.payload| % cfg.bpf == 0
    requires f.frameSeq == MAX_U64 && g.frameSeq == 0
    ensures var s, last := Deliver(cfg, [f, g]), LastAt(cfg, [f, g]);
            && last == 1 && s.accepted == 2
            && s.gaps != (g.frameSeq - FirstSeq(cfg, [f, g]) + 1) - s.accepted
  {
    var fs := [f, g];
    assert fs == [] + [f] + [g];
    DeliverNext(cfg, [], f);
    DeliverNext(cfg, [] + [f], g);
    HandledCounts(cfg, NEW_SOURCE, f);
    HandledCounts(cfg, Handled(cfg, NEW_SOURCE, f), g);
    assert fs[0] == f && fs[1] == g;
    assert IsWrap(cfg, fs[0]);
    GapAccounting(cfg, fs);
  }

  lemma {:induction false} WrapsBut(cfg: Config, fs: seq<Frame>, last: nat)
    requires cfg.Valid()
    ensures Wraps(cfg, fs) >= if last < |fs| && IsWrap(cfg, fs[last]) then 1 else 0
    ensures Wraps(cfg, fs) == (if last < |fs| && IsWrap(cfg, fs[last]) then 1 else 0) <==>
            forall i :: 0 <= i < |fs| && i != last ==> !IsWrap(cfg, fs[i])
  {
    if fs != [] {
      var before := fs[..|fs| - 1];
      WrapsBut(cfg, before, last);
      assert forall i :: 0 <= i < |before| ==> before[i] == fs[i];
    }
  }

  /** What one aligned packet does to the counters. */
  lemma HandledCounts(cfg: Config, s: Source, f: Frame)
    requires cfg.Valid() && |f.payload| % cfg.bpf == 0
    ensures var r := Handled(cfg, s, f);
            && r.delivered == s.delivered + 1
            && if s.tracker.seen && f.frameSeq < s.tracker.expectedSeq then
                 && r.tracker == s.tracker && r.accepted == s.accepted && r.gaps == s.gaps
                 && r.staleFrames == s.staleFrames + 1
               else
                 && r.accepted == s.accepted + 1 && r.staleFrames == s.staleFrames
                 && r.tracker.seen && r.tracker.expectedSeq == (if f.frameSeq == MAX_U64 then 0 else f.frameSeq + 1)
                 && r.gaps == s.gaps + if s.tracker.seen then f.frameSeq - s.tracker.expectedSeq else 0
  {
  }

  /** THEOREM. However the writes were cut up, the buffer holds what one write of
      everything written would leave. */
  lemma {:induction false} BufferIsOneWrite(cfg: Config, fs: seq<Frame>)
    requires cfg.Valid()
    ensures var s := Deliver(cfg, fs);
            |s.written| % cfg.bpf == 0 && s.buffer == Write(cfg, EMPTY, s.written)
  {
    MultipleOf(0, cfg.bpf);
    if fs != [] {
      var s, f := Deliver(cfg, fs[..|fs| - 1]), fs[|fs| - 1];
      BufferIsOneWrite(cfg, fs[..|fs| - 1]);
      var res := FT.AcceptStep(s.tracker, f.frameSeq, f.captureFrame, |f.payload| / cfg.bpf).1;
      if |f.payload| % cfg.bpf == 0 && !res.stale {
        AddsOut(cfg, s.written, Max(0, res.gapFrames), f.payload);
      }
    }
  }

  lemma AddsOut(cfg: Config, written: seq<byte>, gap: nat, payload: seq<byte>)
    requires cfg.Valid() && |written| % cfg.bpf == 0 && |payload| % cfg.bpf == 0
    ensures var out := Silent(gap, cfg.bpf) + payload;
            && |written + out| % cfg.bpf == 0
            && Write(cfg, Write(cfg, EMPTY, written), out) == Write(cfg, EMPTY, written + out)
  {
    var silence := Silent(gap, cfg.bpf);
    MultipleOf(gap, cfg.bpf);
    MultipleOf(0, cfg.bpf);
    AlignedSum(|silence|, |payload|, cfg.bpf);
    AlignedSum(|written|, |silence + payload|, cfg.bpf);
    WriteWrite(cfg, EMPTY, written, silence + payload);
  }
}
