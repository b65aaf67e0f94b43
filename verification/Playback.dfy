/**
From several senders' captures to the samples one playback callback puts out: the
timelines of the streams (engine/internal/transport/receiver.go) under the mixer
(engine/internal/mixer/mixer.go).
*/
module Playback {
  import opened Common
  import opened DropOldest
  import opened JitterSpec
  import opened JitterRuns
  import opened MixerSpec
  import opened Mixers
  import opened SenderStream
  import opened Timeline
  import opened UdpSender

  /** The first n bytes are `line` from `from` on, and the rest is silence. */
  ghost predicate Part(line: seq<byte>, from: int, bytes: seq<byte>, n: nat)
  {
    && 0 <= from && from + n <= |line| && n <= |bytes| && bytes[..n] == line[from..from + n]
    && forall i :: n <= i < |bytes| ==> bytes[i] == 0
  }

  ghost predicate PlaysFrom(line: seq<byte>, from: int, bytes: seq<byte>)
  {
    exists n: nat :: Part(line, from, bytes, n)
  }

  /** Where the next byte to be played stands in what was written. */
  function Unplayed(h: History): (from: int)
  {
    |h.written| - |h.j.queue|
  }

  /** A callback plays on from the first byte not yet played, in order and without a gap,
      until it falls silent. */
  lemma FeedPlays(cfg: Config, frames: nat, scratch: nat, h: History, locks: nat -> bool, c: nat)
    requires cfg.Valid() && BufferInv(cfg, h) && 0 < scratch <= cfg.target && NoContention(locks)
    ensures PlaysFrom(h.written, Unplayed(h), Chunks(cfg, frames, scratch, h.j, locks, c).bytes)
  {
    PrefixThenSilenceOnly(cfg, frames, scratch, h.j, locks, c);
    var f := Chunks(cfg, frames, scratch, h.j, locks, c);
    var n: nat :| PrefixOf(h.j.queue, f.bytes, f.j.queue, n);
    assert f.bytes[..n] == h.written[Unplayed(h)..Unplayed(h) + n];
    assert Part(h.written, Unplayed(h), f.bytes, n);
  }

  /** One source: the capture, its sender's run and what became of the packets. */
  datatype Origin = Origin(tape: seq<byte>, ses: seq<SendEvent>, es: seq<NetEvent>)

  ghost predicate Sound(sh: Shape, cfg: Config, o: Origin)
  {
    Agreed(sh, cfg, o.tape) && WholeReads(sh, o.tape, o.ses) && FromSent(SendRun(sh, o.tape, o.ses).sent, o.es)
  }

  ghost function SessionOf(sh: Shape, cfg: Config, o: Origin): (x: Session)
    requires Sound(sh, cfg, o)
  {
    Net(cfg, SendRun(sh, o.tape, o.ses).sent, o.es)
  }

  /** The capture from the first accepted packet to the end of the last, holes silenced. */
  ghost function Line(sh: Shape, cfg: Config, o: Origin): (line: seq<byte>)
    requires Sound(sh, cfg, o)
  {
    var sent := SendRun(sh, o.tape, o.ses).sent;
    EndToEnd(sh, cfg, o.tape, o.ses, sent, o.es);
    TimelineOf(sh, o.tape, sent, Newest(o.es))
  }

  ghost predicate AllGapsFit(sh: Shape, cfg: Config, o: Origin)
    requires Sound(sh, cfg, o)
  {
    var sent := SendRun(sh, o.tape, o.ses).sent;
    EndToEnd(sh, cfg, o.tape, o.ses, sent, o.es);
    GapsFit(sh, sent, Newest(o.es))
  }

  /** What was written of a source whose gaps fit is the beginning of its timeline. */
  lemma WrittenIsLine(sh: Shape, cfg: Config, o: Origin)
    requires Sound(sh, cfg, o)
    ensures BufferInv(cfg, SessionOf(sh, cfg, o).h)
    ensures AllGapsFit(sh, cfg, o) ==> SessionOf(sh, cfg, o).h.written <= Line(sh, cfg, o)
  {
    EndToEnd(sh, cfg, o.tape, o.ses, SendRun(sh, o.tape, o.ses).sent, o.es);
  }

  lemma PlaysLonger(line: seq<byte>, longer: seq<byte>, from: int, bytes: seq<byte>)
    requires PlaysFrom(line, from, bytes) && line <= longer
    ensures PlaysFrom(longer, from, bytes)
  {
    var n: nat :| Part(line, from, bytes, n);
    assert line[from..from + n] == longer[from..from + n];
    assert Part(longer, from, bytes, n);
  }

  /** Stream s of the mixer is fed by origin o. */
  ghost predicate FedBy(sh: Shape, cfg: Config, s: Stream, o: Origin)
  {
    Sound(sh, cfg, o) && s.buffer == SessionOf(sh, cfg, o).h.j
  }

  /** The bytes are what comes next of what was written for o, then silence; and where all
      gaps fit, what comes next of its timeline. */
  ghost predicate PlaysOf(sh: Shape, cfg: Config, o: Origin, bytes: seq<byte>)
    requires Sound(sh, cfg, o)
  {
    var h := SessionOf(sh, cfg, o).h;
    && PlaysFrom(h.written, Unplayed(h), bytes)
    && (AllGapsFit(sh, cfg, o) ==> PlaysFrom(Line(sh, cfg, o), Unplayed(h), bytes))
  }

  lemma OneFeed(sh: Shape, cfg: Config, frames: nat, scratch: nat, locks: nat -> bool, c: nat, o: Origin)
    requires cfg.Valid() && Sound(sh, cfg, o) && 0 < scratch <= cfg.target && NoContention(locks)
    ensures PlaysOf(sh, cfg, o, Chunks(cfg, frames, scratch, SessionOf(sh, cfg, o).h.j, locks, c).bytes)
  {
    WrittenIsLine(sh, cfg, o);
    var h := SessionOf(sh, cfg, o).h;
    FeedPlays(cfg, frames, scratch, h, locks, c);
    if AllGapsFit(sh, cfg, o) {
      PlaysLonger(h.written, Line(sh, cfg, o), Unplayed(h), Chunks(cfg, frames, scratch, h.j, locks, c).bytes);
    }
  }

  ghost predicate AllFedBy(sh: Shape, cfg: Config, start: seq<Stream>, origins: seq<Origin>)
  {
    |origins| == |start| && forall s :: 0 <= s < |start| ==> FedBy(sh, cfg, start[s], origins[s])
  }

  ghost predicate FeedPlaysOf(sh: Shape, cfg: Config, o: Origin, f: Feed)
  {
    Sound(sh, cfg, o) && PlaysOf(sh, cfg, o, f.bytes)
  }

  ghost predicate AllPlay(sh: Shape, cfg: Config, origins: seq<Origin>, feeds: seq<Feed>)
  {
    |origins| == |feeds| && forall s :: 0 <= s < |feeds| ==> FeedPlaysOf(sh, cfg, origins[s], feeds[s])
  }

  ghost predicate NobodyContends(locks: seq<nat -> bool>)
  {
    forall s :: 0 <= s < |locks| ==> NoContention(locks[s])
  }

  /** What a callback takes from streams fed by senders. */
  lemma FeedsPlay(
      sh: Shape, cfg: Config, frames: nat, scratch: nat, start: seq<Stream>, locks: seq<nat -> bool>, c: nat,
      feeds: seq<Feed>, now: seq<Stream>, origins: seq<Origin>)
    requires cfg.Valid() && Fed(cfg, frames, scratch, start, locks, c, feeds, now) && 0 < scratch <= cfg.target
    requires AllFedBy(sh, cfg, start, origins) && NobodyContends(locks)
    ensures AllPlay(sh, cfg, origins, feeds)
  {
    forall s | 0 <= s < |start| ensures FeedPlaysOf(sh, cfg, origins[s], feeds[s]) {
      assert FedBy(sh, cfg, start[s], origins[s]);
      assert FedOne(cfg, frames, scratch, start[s], locks[s], c, feeds[s], now[s]);
      OneFeed(sh, cfg, frames, scratch, locks[s], c, origins[s]);
    }
  }

  /** THEOREM (capture to playback). The receiver's Pull over streams fed by senders, with
      scratch no longer than the target and no contention: every sample put out is the
      rounded gain-weighted sum of the feeds, and each feed is what comes next of its
      sender's timeline, from the first byte not yet played on, followed only by silence. */
  method Pull(mixer: Mixer, out: array<byte>, frameCount: int, locks: seq<nat -> bool>,
              ghost sh: Shape, ghost origins: seq<Origin>)
    returns (chunks: nat, ghost feeds: seq<Feed>)
    requires mixer.Valid() && |locks| == |mixer.streams|
    requires mixer.scratchFrames <= mixer.cfg.target && NobodyContends(locks)
    requires AllFedBy(sh, mixer.cfg, mixer.streams, origins)
    modifies mixer`streams, mixer.acc, out
    ensures frameCount <= 0 || out.Length == 0 ==> out[..] == old(out[..])
    ensures frameCount > 0 && old(mixer.streams) == [] ==> forall p :: 0 <= p < out.Length ==> out[p] == 0
    ensures frameCount > 0 && out.Length > 0 && old(mixer.streams) != [] ==>
      var frames := Min(frameCount, out.Length / mixer.cfg.bpf);
      && AllPlay(sh, mixer.cfg, origins, feeds) && Even(mixer.cfg, feeds, frames)
      && |feeds| == |old(mixer.streams)|
      && MixedUpTo(out[..], BytesOf(feeds), Gains(mixer.masterGain, old(mixer.streams)), frames * mixer.channels)
      && forall p :: frames * mixer.cfg.bpf <= p < out.Length ==> out[p] == 0
  {
    ghost var start := mixer.streams;
    chunks, feeds := mixer.ReadInto(out, frameCount, locks);
    if frameCount > 0 && out.Length > 0 {
      ghost var frames := Min(frameCount, out.Length / mixer.cfg.bpf);
      FramesFit(frames, out.Length, mixer.cfg.bpf);
      FeedsPlay(sh, mixer.cfg, frames, mixer.scratchFrames, start, locks, chunks, feeds, mixer.streams, origins);
    }
  }
}
