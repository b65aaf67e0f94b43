/**
The v1 path end to end: capture, packetiser, wire, tracker, jitter buffer
(engine/internal/transport/sender.go, engine/internal/protocol/udp.go,
engine/internal/transport/receiver.go, engine/internal/mixer/jitterbuffer.go).

Any subset of the packets sent arrives, in any order and any number of times, with
reads of the stream's buffer in between, also between the writes of one packet.
*/
module Timeline {
  import opened Arithmetic
  import opened Common
  import opened Bytes
  import opened JitterSpec
  import opened JitterRuns
  import opened UdpCodec
  import opened UdpSender
  import opened SenderStream
  import opened UdpReceiver
  import FT = FrameTracker

  /** Packet k arrives; the receiver makes the next write it still has to make for the
      packet before; or the mixer reads from the stream. */
  datatype NetEvent = Arrives(k: nat) | WriteNext | Pull(dstLen: nat, frameCount: int, locked: bool)

  /** todo: the writes still to be made for the packet accepted last. */
  datatype Session = Session(tracker: FT.Tracker, h: History, todo: seq<seq<byte>>)

  const NEW_SESSION := Session(FT.NEW_TRACKER, NO_HISTORY, [])

  /** What the receiver makes of a packet put on the wire. */
  function OverWire(f: Frame): (r: Option<Frame>)
  {
    match Encode(Audio(f))
    case Err(_) => None
    case Ok(packet) =>
      match DecodeUDPDatagram(packet)
      case Ok(Audio(g)) => Some(g)
      case _ => None
  }

  /** handleUDPAudio up to its first write. */
  function HandleFrame(cfg: Config, x: Session, f: Frame): (r: Session)
    requires cfg.Valid()
  {
    if |f.payload| % cfg.bpf != 0 then x
    else
      var (t, res) := FT.AcceptStep(x.tracker, f.frameSeq, f.captureFrame, |f.payload| / cfg.bpf);
      if res.stale then x.(tracker := t)
      else x.(tracker := t, todo := Writes(cfg, Max(0, res.gapFrames), f.payload))
  }

  function WriteOne(cfg: Config, x: Session): (r: Session)
    requires cfg.Valid() && x.todo != []
  {
    x.(h := Record(cfg, x.h, WriteOp(x.todo[0])), todo := x.todo[1..])
  }

  /** The receiver takes a packet only when it has done with the one before. */
  function Settled(cfg: Config, x: Session): (r: Session)
    requires cfg.Valid()
    ensures r.todo == [] && r.tracker == x.tracker
    decreases |x.todo|
  {
    if x.todo == [] then x else Settled(cfg, WriteOne(cfg, x))
  }

  function NetStep(cfg: Config, sent: seq<Frame>, x: Session, e: NetEvent): (r: Session)
    requires cfg.Valid() && (e.Arrives? ==> e.k < |sent|)
  {
    match e
    case Arrives(k) =>
      (match OverWire(sent[k])
       case Some(f) => HandleFrame(cfg, Settled(cfg, x), f)
       case None => x)
    case WriteNext => if x.todo == [] then x else WriteOne(cfg, x)
    case Pull(dstLen, n, locked) => x.(h := Record(cfg, x.h, ReadOp(dstLen, n, locked)))
  }

  ghost predicate FromSent(sent: seq<Frame>, es: seq<NetEvent>)
  {
    forall i :: 0 <= i < |es| && es[i].Arrives? ==> es[i].k < |sent|
  }

  function Net(cfg: Config, sent: seq<Frame>, es: seq<NetEvent>): (x: Session)
    requires cfg.Valid() && FromSent(sent, es)
  {
    if es == [] then NEW_SESSION
    else NetStep(cfg, sent, Net(cfg, sent, es[..|es| - 1]), es[|es| - 1])
  }

  /** The arrivals that are newer than everything before them. */
  function Newest(es: seq<NetEvent>): (ks: seq<nat>)
  {
    if es == [] then [] else NewestNext(Newest(es[..|es| - 1]), es[|es| - 1])
  }

  predicate IsNewest(ks: seq<nat>, k: nat)
  {
    ks == [] || k > ks[|ks| - 1]
  }

  function NewestNext(ks: seq<nat>, e: NetEvent): (r: seq<nat>)
  {
    if e.Arrives? && IsNewest(ks, e.k) then ks + [e.k] else ks
  }

  // ---- the timeline

  function At(sh: Shape, sent: seq<Frame>, k: nat): (n: nat)
    requires k < |sent|
  {
    Offset(sh, sent[k])
  }

  /** Position p of the capture lies in one of the packets ks. */
  ghost predicate Covered(sh: Shape, sent: seq<Frame>, ks: seq<nat>, p: nat)
    requires forall i :: 0 <= i < |ks| ==> ks[i] < |sent|
  {
    exists i :: 0 <= i < |ks| && At(sh, sent, ks[i]) <= p < At(sh, sent, ks[i]) + sh.packetBytes
  }

  ghost predicate Picks(sent: seq<Frame>, ks: seq<nat>)
  {
    && (forall i :: 0 <= i < |ks| ==> ks[i] < |sent|)
    && (forall i, j :: 0 <= i < j < |ks| ==> ks[i] < ks[j])
  }

  /** The capture's byte at p, or zero when no packet reaches it. */
  ghost function ByteAt(sh: Shape, tape: seq<byte>, sent: seq<Frame>, ks: seq<nat>, p: nat): (b: byte)
    requires forall i :: 0 <= i < |ks| ==> ks[i] < |sent|
  {
    if p < |tape| && Covered(sh, sent, ks, p) then tape[p] else 0
  }

  /** The capture from the first of the packets ks to the end of the last, with zeros
      where none of them reaches. */
  ghost function TimelineOf(sh: Shape, tape: seq<byte>, sent: seq<Frame>, ks: seq<nat>): (r: seq<byte>)
    requires sh.Valid() && Stream(sh, tape, sent) && Picks(sent, ks)
    ensures ks != [] ==> |r| == At(sh, sent, ks[|ks| - 1]) + sh.packetBytes - At(sh, sent, ks[0])
  {
    if ks == [] then []
    else
      var start := At(sh, sent, ks[0]);
      var n := At(sh, sent, ks[|ks| - 1]) + sh.packetBytes - start;
      assert |ks| > 1 ==> ks[0] < ks[|ks| - 1];
      seq<byte>(n, x requires 0 <= x < n => ByteAt(sh, tape, sent, ks, start + x))
  }

  lemma TimelineFirst(sh: Shape, tape: seq<byte>, sent: seq<Frame>, k: nat)
    requires sh.Valid() && Stream(sh, tape, sent) && k < |sent|
    ensures Picks(sent, [k]) && TimelineOf(sh, tape, sent, [k]) == sent[k].payload
  {
    var ks := [k];
    var r := TimelineOf(sh, tape, sent, ks);
    assert Carries(sh, tape, sent[k]);
    forall x | 0 <= x < sh.packetBytes ensures r[x] == sent[k].payload[x] {
      var p := At(sh, sent, k) + x;
      assert Covered(sh, sent, ks, p) by {
        assert At(sh, sent, ks[0]) <= p < At(sh, sent, ks[0]) + sh.packetBytes;
      }
      assert r[x] == ByteAt(sh, tape, sent, ks, p) == tape[p];
    }
    assert |r| == |sent[k].payload|;
  }

  lemma TimelineNext(sh: Shape, tape: seq<byte>, sent: seq<Frame>, ks: seq<nat>, k: nat)
    requires sh.Valid() && Stream(sh, tape, sent) && Picks(sent, ks) && ks != []
    requires ks[|ks| - 1] < k < |sent|
    ensures Picks(sent, ks + [k])
    ensures var gap := At(sh, sent, k) - At(sh, sent, ks[|ks| - 1]) - sh.packetBytes;
            gap >= 0 &&
            TimelineOf(sh, tape, sent, ks + [k]) == TimelineOf(sh, tape, sent, ks) + Repeat(0, gap) + sent[k].payload
  {
    var ks' := ks + [k];
    var last, start := ks[|ks| - 1], At(sh, sent, ks[0]);
    var r, r' := TimelineOf(sh, tape, sent, ks), TimelineOf(sh, tape, sent, ks');
    var gap := At(sh, sent, k) - At(sh, sent, last) - sh.packetBytes;
    var parts := r + Repeat(0, gap) + sent[k].payload;
    assert ks'[0] == ks[0] && ks'[|ks|] == k;
    assert Carries(sh, tape, sent[k]) && |r'| == |parts|;
    forall x | 0 <= x < |r'| ensures r'[x] == parts[x] {
      var p, y := start + x, x - |r| - gap;
      NextByte(sh, tape, sent, ks, k, p, y);
      TimelineAt(sh, tape, sent, ks', x, p);
      if x < |r| { TimelineAt(sh, tape, sent, ks, x, p); }
      PartsAt(r, gap, sent[k].payload, x, y);
    }
  }

  lemma TimelineAt(sh: Shape, tape: seq<byte>, sent: seq<Frame>, ks: seq<nat>, x: nat, p: nat)
    requires sh.Valid() && Stream(sh, tape, sent) && Picks(sent, ks) && x < |TimelineOf(sh, tape, sent, ks)|
    requires ks != [] && p == At(sh, sent, ks[0]) + x
    ensures TimelineOf(sh, tape, sent, ks)[x] == ByteAt(sh, tape, sent, ks, p)
  {
  }

  lemma PartsAt(r: seq<byte>, gap: nat, payload: seq<byte>, x: nat, y: int)
    requires x < |r| + gap + |payload| && y == x - |r| - gap
    ensures (r + Repeat(0, gap) + payload)[x] == if x < |r| then r[x] else if y < 0 then 0 else payload[y]
  {
  }

  /** Up to the end of the last packet nothing changes, then comes the hole, then packet k. */
  lemma NextByte(sh: Shape, tape: seq<byte>, sent: seq<Frame>, ks: seq<nat>, k: nat, p: nat, y: int)
    requires Stream(sh, tape, sent) && Picks(sent, ks) && ks != [] && ks[|ks| - 1] < k < |sent|
    requires At(sh, sent, ks[0]) <= p < At(sh, sent, k) + sh.packetBytes && y == p - At(sh, sent, k)
    ensures |sent[k].payload| == sh.packetBytes && forall i :: 0 <= i < |ks + [k]| ==> (ks + [k])[i] < |sent|
    ensures ByteAt(sh, tape, sent, ks + [k], p) ==
            if p < At(sh, sent, ks[|ks| - 1]) + sh.packetBytes then ByteAt(sh, tape, sent, ks, p)
            else if y < 0 then 0 else sent[k].payload[y]
  {
    assert Carries(sh, tape, sent[k]);
    CoveredNext(sh, tape, sent, ks, k, p);
    if p >= At(sh, sent, ks[|ks| - 1]) + sh.packetBytes {
      NotCovered(sh, tape, sent, ks, p);
    }
  }

  lemma CoveredNext(sh: Shape, tape: seq<byte>, sent: seq<Frame>, ks: seq<nat>, k: nat, p: nat)
    requires Picks(sent, ks) && k < |sent|
    ensures forall i :: 0 <= i < |ks + [k]| ==> (ks + [k])[i] < |sent|
    ensures Covered(sh, sent, ks + [k], p) <==>
            Covered(sh, sent, ks, p) || At(sh, sent, k) <= p < At(sh, sent, k) + sh.packetBytes
  {
    var ks' := ks + [k];
    if Covered(sh, sent, ks, p) {
      var i :| 0 <= i < |ks| && At(sh, sent, ks[i]) <= p < At(sh, sent, ks[i]) + sh.packetBytes;
      assert ks'[i] == ks[i];
    }
    if At(sh, sent, k) <= p < At(sh, sent, k) + sh.packetBytes {
      assert ks'[|ks|] == k;
    }
  }

  lemma NotCovered(sh: Shape, tape: seq<byte>, sent: seq<Frame>, ks: seq<nat>, p: nat)
    requires Stream(sh, tape, sent) && Picks(sent, ks) && ks != []
    requires p >= At(sh, sent, ks[|ks| - 1]) + sh.packetBytes
    ensures !Covered(sh, sent, ks, p)
  {
    forall i | 0 <= i < |ks| ensures p >= At(sh, sent, ks[i]) + sh.packetBytes {
      assert i < |ks| - 1 ==> ks[i] < ks[|ks| - 1];
    }
  }

  // ---- the tracker on the sender's packets

  /** The formats both sides agree on: 1 to 8 channels of 16-bit samples. */
  ghost predicate Agreed(sh: Shape, cfg: Config, tape: seq<byte>)
  {
    && cfg.Valid() && sh.Valid() && sh.bpf == cfg.bpf && sh == ShapeOf(cfg.bpf)
    && cfg.bpf % 2 == 0 && MIN_CHANNELS <= cfg.bpf / 2 <= MAX_CHANNELS
    && |tape| / cfg.bpf < TWO64
  }

  lemma WireKeepsFrame(sh: Shape, cfg: Config, tape: seq<byte>, f: Frame)
    requires Agreed(sh, cfg, tape) && Carries(sh, tape, f)
    ensures OverWire(f) == Some(f.(frameType := FRAME_TYPE_AUDIO))
    ensures |f.payload| % cfg.bpf == 0 && |f.payload| / cfg.bpf == sh.chunk
  {
    SenderPacketAccepted(cfg.bpf / 2, f);
    MultipleOf(sh.chunk, sh.bpf);
  }

  /** Capture positions stay below 2^64. */
  lemma PositionFits(sh: Shape, cfg: Config, tape: seq<byte>, f: Frame)
    requires Agreed(sh, cfg, tape) && Carries(sh, tape, f)
    ensures f.captureFrame + sh.chunk <= MAX_U64
    ensures (f.captureFrame + sh.chunk) * sh.bpf == Offset(sh, f) + sh.packetBytes
  {
    MulAdd(f.captureFrame, sh.chunk, sh.bpf);
    MultipleOf(f.captureFrame + sh.chunk, sh.bpf);
    DivMonotone(Offset(sh, f) + sh.packetBytes, |tape|, sh.bpf);
  }

  /** Where the tracker stands after accepting the packets ks. */
  ghost predicate Ready(sh: Shape, sent: seq<Frame>, ks: seq<nat>, t: FT.Tracker)
    requires Picks(sent, ks)
  {
    && t.maxGapFrames == 0
    && if ks == [] then !t.seen
       else
         var last := ks[|ks| - 1];
         t.seen && t.expectedSeq == last + 1 && t.expectedCaptureFrame == sent[last].captureFrame + sh.chunk
  }

  /** Frames of capture between the packets `last` and k. */
  ghost function GapFrames(sh: Shape, sent: seq<Frame>, last: nat, k: nat): (n: int)
    requires last < |sent| && k < |sent|
  {
    sent[k].captureFrame - sent[last].captureFrame - sh.chunk
  }

  lemma GapBytes(sh: Shape, tape: seq<byte>, sent: seq<Frame>, last: nat, k: nat)
    requires sh.Valid() && Stream(sh, tape, sent) && last < k < |sent|
    ensures GapFrames(sh, sent, last, k) * sh.bpf == At(sh, sent, k) - At(sh, sent, last) - sh.packetBytes
    ensures GapFrames(sh, sent, last, k) >= 0
  {
    var a, b := sent[k].captureFrame, sent[last].captureFrame;
    MulAdd(b, sh.chunk, sh.bpf);
    UnitsCompare(b + sh.chunk, a, sh.bpf);
    MulAdd(a - b - sh.chunk, b + sh.chunk, sh.bpf);
  }

  /** THEOREM. On the sender's packets the tracker drops exactly those that are not
      newer, counts exactly the packets between, takes the gap from the capture stamps,
      never sees them move backward and never falls back on the packet count. */
  lemma TrackerOnStream(sh: Shape, cfg: Config, tape: seq<byte>, sent: seq<Frame>, ks: seq<nat>, t: FT.Tracker, k: nat)
    requires Agreed(sh, cfg, tape) && Stream(sh, tape, sent) && |sent| <= MAX_U64
    requires Picks(sent, ks) && Ready(sh, sent, ks, t) && k < |sent|
    ensures var (t', res) := FT.AcceptStep(t, sent[k].frameSeq, sent[k].captureFrame, sh.chunk);
            if ks == [] then Ready(sh, sent, [k], t') && res == FT.NO_GAP
            else
              var last := ks[|ks| - 1];
              if k <= last then res.stale && t' == t
              else
                && !res.stale && Ready(sh, sent, ks + [k], t')
                && res.missingPackets == k - last - 1
                && res.captureGapFrames == GapFrames(sh, sent, last, k) && !res.captureMovedBackward
                && res.gapFrames == Min(GapFrames(sh, sent, last, k), FT.DEFAULT_MAX_GAP_FRAMES)
  {
    PositionFits(sh, cfg, tape, sent[k]);
    if ks != [] {
      var last := ks[|ks| - 1];
      PositionFits(sh, cfg, tape, sent[last]);
      if last < k {
        GapBytes(sh, tape, sent, last, k);
        if last + 1 < k {
          // the packets between take up room in the capture
          GapBytes(sh, tape, sent, last, last + 1);
          GapBytes(sh, tape, sent, last + 1, k);
        }
      }
    }
  }

  // ---- end to end

  /** The gap before accepted packet i is not longer than the receiver will fill. */
  ghost predicate GapFits(sh: Shape, sent: seq<Frame>, ks: seq<nat>, i: nat)
    requires Picks(sent, ks) && 0 < i < |ks|
  {
    GapFrames(sh, sent, ks[i - 1], ks[i]) <= FT.DEFAULT_MAX_GAP_FRAMES
  }

  ghost predicate GapsFit(sh: Shape, sent: seq<Frame>, ks: seq<nat>)
    requires Picks(sent, ks)
  {
    forall i :: 0 < i < |ks| ==> GapFits(sh, sent, ks, i)
  }

  lemma GapsFitNext(sh: Shape, sent: seq<Frame>, ks: seq<nat>, k: nat)
    requires ks != [] && k < |sent| && Picks(sent, ks) && Picks(sent, ks + [k])
    ensures GapsFit(sh, sent, ks + [k]) <==>
            GapsFit(sh, sent, ks) && GapFrames(sh, sent, ks[|ks| - 1], k) <= FT.DEFAULT_MAX_GAP_FRAMES
  {
    var ks' := ks + [k];
    assert ks'[|ks|] == k && ks'[|ks| - 1] == ks[|ks| - 1];
    assert GapFits(sh, sent, ks', |ks|) <==> GapFrames(sh, sent, ks[|ks| - 1], k) <= FT.DEFAULT_MAX_GAP_FRAMES;
    forall i | 0 < i < |ks| ensures GapFits(sh, sent, ks', i) <==> GapFits(sh, sent, ks, i) {
      assert ks'[i] == ks[i] && ks'[i - 1] == ks[i - 1];
    }
  }

  /** What has been written against the timeline: the timeline itself if every gap
      fits, and otherwise too little. */
  ghost predicate WrittenMatches(sh: Shape, tape: seq<byte>, sent: seq<Frame>, ks: seq<nat>, written: seq<byte>)
    requires sh.Valid() && Stream(sh, tape, sent) && Picks(sent, ks)
  {
    var line := TimelineOf(sh, tape, sent, ks);
    if GapsFit(sh, sent, ks) then written == line else |written| < |line|
  }

  /** Frames of silence written before packet k, after the packets ks. */
  ghost function Fill(sh: Shape, sent: seq<Frame>, ks: seq<nat>, k: nat): (n: nat)
    requires Picks(sent, ks) && k < |sent|
  {
    if ks == [] then 0 else Max(0, Min(GapFrames(sh, sent, ks[|ks| - 1], k), FT.DEFAULT_MAX_GAP_FRAMES))
  }

  ghost function Out(sh: Shape, sent: seq<Frame>, ks: seq<nat>, k: nat): (out: seq<byte>)
    requires Picks(sent, ks) && k < |sent|
  {
    Silent(Fill(sh, sent, ks, k), sh.bpf) + sent[k].payload
  }

  lemma WrittenNext(sh: Shape, tape: seq<byte>, sent: seq<Frame>, ks: seq<nat>, k: nat, written: seq<byte>)
    requires sh.Valid() && Stream(sh, tape, sent) && Picks(sent, ks) && ks != [] && ks[|ks| - 1] < k < |sent|
    requires WrittenMatches(sh, tape, sent, ks, written)
    ensures Picks(sent, ks + [k])
    ensures WrittenMatches(sh, tape, sent, ks + [k], written + Out(sh, sent, ks, k))
  {
    var last := ks[|ks| - 1];
    var full, fill := GapFrames(sh, sent, last, k), Fill(sh, sent, ks, k);
    TimelineNext(sh, tape, sent, ks, k);
    GapBytes(sh, tape, sent, last, k);
    GapsFitNext(sh, sent, ks, k);
    UnitsCompare(fill, full, sh.bpf);
    UnitsCompare(full, fill, sh.bpf);
    Extends(GapsFit(sh, sent, ks), fill == full, TimelineOf(sh, tape, sent, ks), written,
            full * sh.bpf, Silent(fill, sh.bpf), sent[k].payload);
  }

  /** A part that matches, extended by silence of at most the right length. */
  lemma Extends(
      fits: bool, exact: bool, line: seq<byte>, written: seq<byte>, full: nat, silence: seq<byte>, payload: seq<byte>)
    requires if fits then written == line else |written| < |line|
    requires |silence| <= full && (exact <==> |silence| == full) && forall i :: 0 <= i < |silence| ==> silence[i] == 0
    ensures if fits && exact then written + (silence + payload) == line + Repeat(0, full) + payload
            else |written + (silence + payload)| < |line + Repeat(0, full) + payload|
  {
    assert exact ==> silence == Repeat(0, full);
  }

  /** A stale arrival changes nothing once the packet before is done with. */
  lemma StaleArrival(sh: Shape, cfg: Config, tape: seq<byte>, sent: seq<Frame>, ks: seq<nat>, x: Session, k: nat)
    requires Agreed(sh, cfg, tape) && Stream(sh, tape, sent) && |sent| <= MAX_U64
    requires Picks(sent, ks) && Ready(sh, sent, ks, x.tracker) && k < |sent| && !IsNewest(ks, k)
    ensures NetStep(cfg, sent, x, Arrives(k)) == Settled(cfg, x)
  {
    WireKeepsFrame(sh, cfg, tape, sent[k]);
    TrackerOnStream(sh, cfg, tape, sent, ks, x.tracker, k);
  }

  /** A newer one has its gap and its payload to write. */
  lemma NewArrival(sh: Shape, cfg: Config, tape: seq<byte>, sent: seq<Frame>, ks: seq<nat>, x: Session, k: nat)
    requires Agreed(sh, cfg, tape) && Stream(sh, tape, sent) && |sent| <= MAX_U64
    requires Picks(sent, ks) && Ready(sh, sent, ks, x.tracker) && k < |sent| && IsNewest(ks, k)
    ensures Picks(sent, ks + [k]) && Ready(sh, sent, ks + [k], NetStep(cfg, sent, x, Arrives(k)).tracker)
    ensures var r := NetStep(cfg, sent, x, Arrives(k));
            r.h == Settled(cfg, x).h && Joined(r.todo) == Out(sh, sent, ks, k) && AllWhole(cfg, r.todo)
  {
    WireKeepsFrame(sh, cfg, tape, sent[k]);
    NewAccepted(sh, cfg, tape, sent, ks, x.tracker, k);
    WritesJoined(cfg, Fill(sh, sent, ks, k), sent[k].payload);
  }

  lemma NewAccepted(sh: Shape, cfg: Config, tape: seq<byte>, sent: seq<Frame>, ks: seq<nat>, t: FT.Tracker, k: nat)
    requires Agreed(sh, cfg, tape) && Stream(sh, tape, sent) && |sent| <= MAX_U64
    requires Picks(sent, ks) && Ready(sh, sent, ks, t) && k < |sent| && IsNewest(ks, k)
    ensures Picks(sent, ks + [k])
    ensures var (t', res) := FT.AcceptStep(t, sent[k].frameSeq, sent[k].captureFrame, sh.chunk);
            !res.stale && Ready(sh, sent, ks + [k], t') && Max(0, res.gapFrames) == Fill(sh, sent, ks, k)
  {
    TrackerOnStream(sh, cfg, tape, sent, ks, t, k);
    if ks == [] {
      assert ks + [k] == [k];
    } else {
      GapBytes(sh, tape, sent, ks[|ks| - 1], k);
    }
  }

  /** The buffer's side of the invariant: nothing lost, nothing out of order. */
  ghost predicate BufferInv(cfg: Config, h: History)
    requires cfg.Valid()
  {
    Consistent(cfg, h.j) && InOrder(h) && Conserved(cfg, h)
  }

  lemma BufferWrite(cfg: Config, h: History, pcm: seq<byte>)
    requires cfg.Valid() && BufferInv(cfg, h)
    ensures BufferInv(cfg, Record(cfg, h, WriteOp(pcm)))
  {
    WriteConsistent(cfg, h.j, pcm);
    WriteInOrder(cfg, h, pcm);
    WriteConserved(cfg, h, pcm);
  }

  lemma BufferRead(cfg: Config, h: History, dstLen: nat, n: int, locked: bool)
    requires cfg.Valid() && BufferInv(cfg, h)
    ensures BufferInv(cfg, Record(cfg, h, ReadOp(dstLen, n, locked)))
  {
    ReadConsistent(cfg, h.j, dstLen, n, locked);
    ReadInOrder(cfg, h, dstLen, n, locked);
    ReadConserved(cfg, h, dstLen, n, locked);
  }

  /** The packets ks have been accepted; what was written, with what is still to be written
      for the last of them, matches their timeline. */
  ghost predicate EndInv(sh: Shape, cfg: Config, tape: seq<byte>, sent: seq<Frame>, ks: seq<nat>, x: Session)
    requires Agreed(sh, cfg, tape) && Stream(sh, tape, sent) && Picks(sent, ks)
  {
    && Ready(sh, sent, ks, x.tracker) && BufferInv(cfg, x.h) && AllWhole(cfg, x.todo)
    && WrittenMatches(sh, tape, sent, ks, x.h.written + Joined(x.todo))
  }

  lemma WrittenWhole(cfg: Config, h: History, pcm: seq<byte>)
    requires cfg.Valid() && |pcm| % cfg.bpf == 0
    ensures Record(cfg, h, WriteOp(pcm)).written == h.written + pcm
  {
    AlignedSum(|pcm|, 0, cfg.bpf);
  }

  /** One write moves a piece from what is left to what is written. */
  lemma WriteOneMoves(cfg: Config, x: Session)
    requires cfg.Valid() && AllWhole(cfg, x.todo) && x.todo != []
    ensures var r := WriteOne(cfg, x);
            AllWhole(cfg, r.todo) && r.h.written + Joined(r.todo) == x.h.written + Joined(x.todo)
  {
    WrittenWhole(cfg, x.h, x.todo[0]);
    assert x.h.written + x.todo[0] + Joined(x.todo[1..]) == x.h.written + Joined(x.todo);
  }

  lemma WriteOneKeeps(sh: Shape, cfg: Config, tape: seq<byte>, sent: seq<Frame>, ks: seq<nat>, x: Session)
    requires Agreed(sh, cfg, tape) && Stream(sh, tape, sent) && Picks(sent, ks)
    requires EndInv(sh, cfg, tape, sent, ks, x) && x.todo != []
    ensures EndInv(sh, cfg, tape, sent, ks, WriteOne(cfg, x))
  {
    BufferWrite(cfg, x.h, x.todo[0]);
    WriteOneMoves(cfg, x);
  }

  lemma {:induction false} SettledKeeps(
      sh: Shape, cfg: Config, tape: seq<byte>, sent: seq<Frame>, ks: seq<nat>, x: Session)
    requires Agreed(sh, cfg, tape) && Stream(sh, tape, sent) && Picks(sent, ks)
    requires EndInv(sh, cfg, tape, sent, ks, x)
    ensures EndInv(sh, cfg, tape, sent, ks, Settled(cfg, x))
    ensures WrittenMatches(sh, tape, sent, ks, Settled(cfg, x).h.written)
    decreases |x.todo|
  {
    if x.todo != [] {
      WriteOneKeeps(sh, cfg, tape, sent, ks, x);
      SettledKeeps(sh, cfg, tape, sent, ks, WriteOne(cfg, x));
    } else {
      assert x.h.written + Joined([]) == x.h.written;
    }
  }

  /** EndInv as a value, for OverEvents. */
  ghost function Delivery(sh: Shape, cfg: Config, tape: seq<byte>, sent: seq<Frame>): (P: (seq<nat>, Session) -> bool)
    requires Agreed(sh, cfg, tape) && Stream(sh, tape, sent)
  {
    (ks: seq<nat>, x: Session) => Picks(sent, ks) && EndInv(sh, cfg, tape, sent, ks, x)
  }

  /** Induction over the events, for any property that each of them keeps. */
  lemma {:induction false} OverEvents(cfg: Config, sent: seq<Frame>, es: seq<NetEvent>, P: (seq<nat>, Session) -> bool)
    requires cfg.Valid() && FromSent(sent, es) && P([], NEW_SESSION)
    requires forall ks, x, e: NetEvent :: P(ks, x) && (e.Arrives? ==> e.k < |sent|) ==>
               P(NewestNext(ks, e), NetStep(cfg, sent, x, e))
    ensures P(Newest(es), Net(cfg, sent, es))
  {
    if es != [] {
      var es' := es[..|es| - 1];
      assert forall i :: 0 <= i < |es'| ==> es'[i] == es[i];
      OverEvents(cfg, sent, es', P);
    }
  }

  lemma EventKeeps(sh: Shape, cfg: Config, tape: seq<byte>, sent: seq<Frame>, ks: seq<nat>, x: Session, e: NetEvent)
    requires Agreed(sh, cfg, tape) && Stream(sh, tape, sent) && |sent| <= MAX_U64
    requires Delivery(sh, cfg, tape, sent)(ks, x) && (e.Arrives? ==> e.k < |sent|)
    ensures Delivery(sh, cfg, tape, sent)(NewestNext(ks, e), NetStep(cfg, sent, x, e))
  {
    match e
    case Pull(dstLen, n, locked) => BufferRead(cfg, x.h, dstLen, n, locked);
    case WriteNext => if x.todo != [] { WriteOneKeeps(sh, cfg, tape, sent, ks, x); }
    case Arrives(k) =>
      SettledKeeps(sh, cfg, tape, sent, ks, x);
      if IsNewest(ks, k) {
        NewArrival(sh, cfg, tape, sent, ks, x, k);
        OutMatches(sh, tape, sent, ks, k, Settled(cfg, x).h.written);
      } else {
        StaleArrival(sh, cfg, tape, sent, ks, x, k);
      }
  }

  lemma OutMatches(sh: Shape, tape: seq<byte>, sent: seq<Frame>, ks: seq<nat>, k: nat, written: seq<byte>)
    requires sh.Valid() && Stream(sh, tape, sent) && Picks(sent, ks) && k < |sent| && IsNewest(ks, k)
    requires WrittenMatches(sh, tape, sent, ks, written)
    ensures Picks(sent, ks + [k])
    ensures WrittenMatches(sh, tape, sent, ks + [k], written + Out(sh, sent, ks, k))
  {
    if ks == [] {
      FirstWritten(sh, tape, sent, k, written);
      assert ks + [k] == [k];
    } else {
      WrittenNext(sh, tape, sent, ks, k, written);
    }
  }

  lemma FirstWritten(sh: Shape, tape: seq<byte>, sent: seq<Frame>, k: nat, written: seq<byte>)
    requires sh.Valid() && Stream(sh, tape, sent) && k < |sent| && written == []
    ensures WrittenMatches(sh, tape, sent, [k], written + Out(sh, sent, [], k))
  {
    TimelineFirst(sh, tape, sent, k);
    assert Silent(0, sh.bpf) == [];
    assert written + ([] + sent[k].payload) == sent[k].payload;
  }

  lemma StartsInv(sh: Shape, cfg: Config, tape: seq<byte>, sent: seq<Frame>)
    requires Agreed(sh, cfg, tape) && Stream(sh, tape, sent)
    ensures Delivery(sh, cfg, tape, sent)([], NEW_SESSION)
  {
    MultipleOf(0, cfg.bpf);
    assert BufferInv(cfg, NO_HISTORY);
    assert GapsFit(sh, sent, []) && NO_HISTORY.written + Joined([]) == [];
    assert TimelineOf(sh, tape, sent, []) == [];
  }

  /** THEOREM (timeline). For every delivery of a sender's packets -- any subset, order
      or duplication, with reads in between -- the accepted packets are the running
      maxima; if no gap exceeds the receiver's limit then what was written to the stream,
      with what is still to be written for the last of them, is, byte for byte, the
      capture from the first accepted packet to the end of the last with zeros where no
      accepted packet reaches, and otherwise it is shorter; and what the mixer was served
      is an in-order subsequence of it, all of it accounted for as served, queued or
      discarded. */
  lemma TimelineDelivered(sh: Shape, cfg: Config, tape: seq<byte>, sent: seq<Frame>, es: seq<NetEvent>)
    requires Agreed(sh, cfg, tape) && Stream(sh, tape, sent) && |sent| <= MAX_U64
    requires FromSent(sent, es)
    ensures Picks(sent, Newest(es)) && EndInv(sh, cfg, tape, sent, Newest(es), Net(cfg, sent, es))
    ensures WrittenMatches(sh, tape, sent, Newest(es), Settled(cfg, Net(cfg, sent, es)).h.written)
  {
    var P := Delivery(sh, cfg, tape, sent);
    StartsInv(sh, cfg, tape, sent);
    forall ks, x, e: NetEvent | P(ks, x) && (e.Arrives? ==> e.k < |sent|)
      ensures P(NewestNext(ks, e), NetStep(cfg, sent, x, e))
    {
      EventKeeps(sh, cfg, tape, sent, ks, x, e);
    }
    OverEvents(cfg, sent, es, P);
    assert P(Newest(es), Net(cfg, sent, es));
    SettledKeeps(sh, cfg, tape, sent, Newest(es), Net(cfg, sent, es));
  }

  /** THEOREM (end to end). The same from the sender's own run: capture, packetiser with
      reconnects, wire, tracker and buffer together. */
  lemma EndToEnd(sh: Shape, cfg: Config, tape: seq<byte>, ses: seq<SendEvent>, sent: seq<Frame>, es: seq<NetEvent>)
    requires Agreed(sh, cfg, tape) && WholeReads(sh, tape, ses)
    requires sent == SendRun(sh, tape, ses).sent && FromSent(sent, es)
    ensures Stream(sh, tape, sent) && Picks(sent, Newest(es))
    ensures EndInv(sh, cfg, tape, sent, Newest(es), Net(cfg, sent, es))
    ensures WrittenMatches(sh, tape, sent, Newest(es), Settled(cfg, Net(cfg, sent, es)).h.written)
  {
    SenderMakesStream(sh, tape, ses);
    TimelineDelivered(sh, cfg, tape, sent, es);
  }

  /** What the writes one by one come to is what the receiver's method for a packet does. */
  lemma SettledIsHandled(cfg: Config, x: Session, f: Frame)
    requires cfg.Valid() && x.todo == [] && Consistent(cfg, x.h.j)
    ensures var s := Handled(cfg, Source(x.tracker, x.h.j, x.h.written, 0, 0, 0, 0), f);
            var r := Settled(cfg, HandleFrame(cfg, x, f));
            r.tracker == s.tracker && r.h.j == s.buffer && r.h.written == s.written
  {
    var r := HandleFrame(cfg, x, f);
    if |f.payload| % cfg.bpf == 0 && r.todo != [] {
      var res := FT.AcceptStep(x.tracker, f.frameSeq, f.captureFrame, |f.payload| / cfg.bpf).1;
      WritesJoined(cfg, Max(0, res.gapFrames), f.payload);
      SettledWrites(cfg, r);
    }
  }

  lemma {:induction false} SettledWrites(cfg: Config, x: Session)
    requires cfg.Valid() && Consistent(cfg, x.h.j) && AllWhole(cfg, x.todo) && x.todo != []
    ensures Settled(cfg, x).h.j == Write(cfg, x.h.j, Joined(x.todo))
    ensures Settled(cfg, x).h.written == x.h.written + Joined(x.todo)
    decreases |x.todo|
  {
    var y := WriteOne(cfg, x);
    AlignedSum(|x.todo[0]|, 0, cfg.bpf);
    WriteConsistent(cfg, x.h.j, x.todo[0]);
    if y.todo == [] {
      assert x.todo[0] + Joined([]) == x.todo[0];
    } else {
      SettledWrites(cfg, y);
      WriteWrite(cfg, x.h.j, x.todo[0], Joined(y.todo));
      assert x.h.written + x.todo[0] + Joined(y.todo) == x.h.written + Joined(x.todo);
    }
  }

  // ---- gaps that do not fit

  lemma {:induction false} FarApart(sh: Shape, tape: seq<byte>, sent: seq<Frame>, k: nat)
    requires sh.Valid() && Stream(sh, tape, sent) && k < |sent|
    ensures k > 0 ==> GapFrames(sh, sent, 0, k) >= k - 1
  {
    if k > 1 {
      FarApart(sh, tape, sent, k - 1);
      GapBytes(sh, tape, sent, k - 1, k);
    } else if k == 1 {
      GapBytes(sh, tape, sent, 0, 1);
    }
  }

  lemma NewestTwo(a: nat, b: nat)
    requires a < b
    ensures Newest([Arrives(a), Arrives(b)]) == [a, b]
  {
    var es := [Arrives(a), Arrives(b)];
    assert es[..1] == [Arrives(a)] && es[..1][..0] == [];
    assert Newest(es[..1]) == [a];
    assert [a] + [b] == [a, b];
  }

  /** The failing family is not empty: of 576003 packets sent only the first and the last
      arrive, and what is written is shorter than their timeline. */
  lemma LongLossShortens(sh: Shape, cfg: Config, tape: seq<byte>, ses: seq<SendEvent>, sent: seq<Frame>)
    requires Agreed(sh, cfg, tape) && WholeReads(sh, tape, ses) && sent == SendRun(sh, tape, ses).sent
    requires |sent| == FT.DEFAULT_MAX_GAP_FRAMES + 3
    ensures var ks, es := [0, |sent| - 1], [Arrives(0), Arrives(|sent| - 1)];
            && Stream(sh, tape, sent) && Picks(sent, ks)
            && |Settled(cfg, Net(cfg, sent, es)).h.written| < |TimelineOf(sh, tape, sent, ks)|
  {
    var ks: seq<nat>, es := [0, |sent| - 1], [Arrives(0), Arrives(|sent| - 1)];
    EndToEnd(sh, cfg, tape, ses, sent, es);
    NewestTwo(0, |sent| - 1);
    FarApart(sh, tape, sent, |sent| - 1);
    assert !GapFits(sh, sent, ks, 1);
  }
}
