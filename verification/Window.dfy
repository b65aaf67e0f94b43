/**
The v2 receiver's reorder and concealment window (engine/internal/engine/media.go).

`Win` is the value of the window's state after some calls and `Accept`, `Tick`
and `Flush` are the specification of one call. Class `ClientMedia` in
MediaPipeline.dfy holds the same state in mutable fields and is proved to
compute these functions.
*/
module Window {
  import opened Common

  const SEQ_MOD: int := 0x1_0000_0000
  const HALF: int := 0x8000_0000
  const WINDOW_CAP := 64

  type Seq32 = x: int | 0 <= x < 0x1_0000_0000

  /** A byte buffer: a wire frame, or the PCM decoded from one. */
  datatype Buf = Buf(data: seq<byte>)
  type Wire = Buf
  type Pcm = Buf

  /** `s - from` as the uint32 subtraction of the source. */
  function Dist(s: Seq32, from: Seq32): (d: nat)
    ensures d < SEQ_MOD
  {
    (s - from) % SEQ_MOD
  }

  /** `int32(s - from)`. */
  function Delta(s: Seq32, from: Seq32): (d: int)
    ensures -HALF <= d < HALF
  {
    var d := Dist(s, from);
    if d < HALF then d else d - SEQ_MOD
  }

  function Succ(s: Seq32): (r: Seq32)
  {
    (s + 1) % SEQ_MOD
  }

  /** What was emitted for one sequence number. Slots are numbered by position:
      slot i of a run belongs to sequence number first + i. A `Plc` slot remembers
      the frame whose FEC decode was tried and failed, so that a slot history
      determines every call the decoder has seen. */
  datatype Slot =
    | Real(wire: Wire)
    | Fec(wire: Wire)
    | Plc(failed: Option<Wire>)
  {
    predicate Lost() { !Real? }
  }

  /** The decoder: any total function of the calls it has seen so far. `fec` is
      consulted only when the codec has the optional FEC capability. `None` is
      a decode error. */
  datatype Codec = Codec(
    hasFec: bool,
    decode: (seq<Slot>, Slot) -> Option<Pcm>,
    fec: (seq<Slot>, Wire) -> Option<Pcm>)

  /** The slots emitted so far, the PCM handed to the consumer and the counters. */
  datatype Sink = Sink(
    slots: seq<Slot>,
    pcm: seq<Pcm>,
    lossPackets: nat,
    totalLossFrames: nat,
    concealedFrames: nat,
    fecRecoveredFrames: nat,
    burstLoss: nat,
    maxBurstLoss: nat)

  const EMPTY_SINK := Sink([], [], 0, 0, 0, 0, 0, 0)

  /** Arrivals by outcome. The source does not count `overflowed`. */
  datatype Counts = Counts(packetsSeen: nat, latePackets: nat, reorderedPackets: nat, overflowed: nat)

  const EMPTY_COUNTS := Counts(0, 0, 0, 0)

  function Saw(n: Counts): (r: Counts)
  {
    n.(packetsSeen := n.packetsSeen + 1)
  }

  function SawLate(n: Counts): (r: Counts)
  {
    n.(latePackets := n.latePackets + 1)
  }

  function SawFuture(n: Counts, kept: bool): (r: Counts)
  {
    n.(reorderedPackets := n.reorderedPackets + 1, overflowed := n.overflowed + if kept then 0 else 1)
  }

  datatype Win = Win(
    seen: bool,
    first: Seq32,
    nextSeq: Seq32,
    held: map<Seq32, Wire>,
    sink: Sink,
    counts: Counts)

  const EMPTY_WIN := Win(false, 0, 0, map[], EMPTY_SINK, EMPTY_COUNTS)

  function Chunk(p: Option<Pcm>): (r: seq<Pcm>)
  {
    if p.None? then [] else [p.value]
  }

  /** emit(buf, false) */
  function EmitReal(c: Codec, k: Sink, wire: Wire): (r: Sink)
  {
    k.(slots := k.slots + [Real(wire)],
       pcm := k.pcm + Chunk(c.decode(k.slots, Real(wire))),
       burstLoss := 0)
  }

  /** emit(nil, true) */
  function EmitPlc(c: Codec, k: Sink, failed: Option<Wire>): (r: Sink)
  {
    var p := c.decode(k.slots, Plc(failed));
    CountLoss(k).(slots := k.slots + [Plc(failed)],
                  pcm := k.pcm + Chunk(p),
                  concealedFrames := k.concealedFrames + if p.Some? then |p.value.data| / 4 else 0)
  }

  function CountLoss(k: Sink): (r: Sink)
  {
    k.(lossPackets := k.lossPackets + 1,
       totalLossFrames := k.totalLossFrames + 1,
       burstLoss := k.burstLoss + 1,
       maxBurstLoss := if k.burstLoss + 1 > k.maxBurstLoss then k.burstLoss + 1 else k.maxBurstLoss)
  }

  /** Whether emitFEC(wire) succeeds. */
  predicate FecWorks(c: Codec, k: Sink, wire: Wire)
  {
    |wire.data| > 0 && c.hasFec && c.fec(k.slots, wire).Some? && |c.fec(k.slots, wire).value.data| > 0
  }

  /** Conceal one missing frame, `following` being the held frame right after it. */
  function Conceal(c: Codec, k: Sink, following: Option<Wire>): (r: Sink)
  {
    if following.Some? && FecWorks(c, k, following.value) then
      CountLoss(k).(slots := k.slots + [Fec(following.value)],
                    pcm := k.pcm + Chunk(c.fec(k.slots, following.value)),
                    fecRecoveredFrames := k.fecRecoveredFrames + 1)
    else
      var tried := if following.Some? && |following.value.data| > 0 && c.hasFec then following else None;
      EmitPlc(c, k, tried)
  }

  function Following(w: Win): (r: Option<Wire>)
  {
    if Succ(w.nextSeq) in w.held then Some(w.held[Succ(w.nextSeq)]) else None
  }

  /** How far the farthest held number reaches past nextSeq. */
  ghost function Span(w: Win): (n: nat)
  {
    Bound(set s | s in w.held :: Dist(s, w.nextSeq))
  }

  /** One iteration of the loop of flush, taken when something is held and
      either the next frame is held or concealment is forced. */
  function Advance(c: Codec, w: Win): (r: Win)
  {
    if w.nextSeq in w.held then
      w.(held := w.held - {w.nextSeq}, nextSeq := Succ(w.nextSeq),
         sink := EmitReal(c, w.sink, w.held[w.nextSeq]))
    else
      w.(nextSeq := Succ(w.nextSeq), sink := Conceal(c, w.sink, Following(w)))
  }

  predicate Stops(w: Win, force: bool)
  {
    w.nextSeq !in w.held && (|w.held| == 0 || !force)
  }

  function FlushLoop(c: Codec, w: Win, force: bool): (r: Win)
    decreases Span(w)
  {
    if Stops(w, force) then w
    else
      SpanAdvance(c, w);
      FlushLoop(c, Advance(c, w), force)
  }

  /** flush: `due` says that the hold period since the last flush has expired. */
  function Flush(c: Codec, w: Win, due: bool, force: bool): (r: Win)
  {
    if !w.seen || (!force && !due) then w else FlushLoop(c, w, force)
  }

  /** The frame that is due goes straight out. */
  function Take(c: Codec, w: Win, wire: Wire): (r: Win)
  {
    w.(sink := EmitReal(c, w.sink, wire), nextSeq := Succ(w.nextSeq))
  }

  /** A future frame is kept while fewer than 64 are held. */
  function Hold(w: Win, s: Seq32, wire: Wire): (r: Win)
  {
    var kept := |w.held| < WINDOW_CAP;
    w.(held := if kept then w.held[s := wire] else w.held, counts := SawFuture(w.counts, kept))
  }

  function Accept(c: Codec, w: Win, s: Seq32, wire: Wire, due: bool): (r: Win)
  {
    var w := w.(counts := Saw(w.counts));
    if !w.seen then
      Take(c, w.(seen := true, first := s, nextSeq := s), wire)
    else if Delta(s, w.nextSeq) < 0 then
      w.(counts := SawLate(w.counts))
    else if Delta(s, w.nextSeq) == 0 then
      Flush(c, Take(c, w, wire), due, false)
    else
      Flush(c, Hold(w, s, wire), due, false)
  }

  function Tick(c: Codec, w: Win): (r: Win)
  {
    Flush(c, w, true, true)
  }

  // ---- modular distances and the termination measure

  lemma DistSucc(s: Seq32, n: Seq32)
    requires s != n
    ensures 0 < Dist(s, n) && Dist(s, Succ(n)) == Dist(s, n) - 1
  {
  }

  /** Every iteration shortens the span by exactly one. */
  lemma SpanAdvance(c: Codec, w: Win)
    requires |w.held| > 0
    ensures Span(w) > 0 && Span(Advance(c, w)) == Span(w) - 1
  {
    var ds := set s | s in w.held :: Dist(s, w.nextSeq);
    var s0 :| s0 in w.held;
    assert Dist(s0, w.nextSeq) in ds;
    var w' := Advance(c, w);
    var ds' := set s | s in w'.held :: Dist(s, w'.nextSeq);
    forall d | d in ds' ensures d + 1 in ds {
      var s :| s in w'.held && Dist(s, w'.nextSeq) == d;
      DistSucc(s, w.nextSeq);
      assert Dist(s, w.nextSeq) in ds;
    }
    forall d | d in ds && d > 0 ensures d - 1 in ds' {
      var s :| s in w.held && Dist(s, w.nextSeq) == d;
      DistSucc(s, w.nextSeq);
      assert s in w'.held && Dist(s, w'.nextSeq) in ds';
    }
  }
}
