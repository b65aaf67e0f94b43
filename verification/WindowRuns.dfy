/**
What holds of the reorder window over every run of `accept` and `tick`.
*/
module WindowRuns {
  import opened Common
  import opened Window

  datatype Event = Packet(s: Seq32, wire: Wire, due: bool) | TickEvent

  function Step(c: Codec, w: Win, e: Event): (r: Win)
  {
    match e
    case Packet(s, wire, due) => Accept(c, w, s, wire, due)
    case TickEvent => Tick(c, w)
  }

  function Run(c: Codec, es: seq<Event>): (r: Win)
  {
    if es == [] then EMPTY_WIN else Step(c, Run(c, es[..|es| - 1]), es[|es| - 1])
  }

  /** The numbered frames that have been delivered. */
  function Arrivals(es: seq<Event>): (r: set<(Seq32, Wire)>)
  {
    set i | 0 <= i < |es| && es[i].Packet? :: (es[i].s, es[i].wire)
  }

  // ---- reference meanings of the counters, read off the slot history

  function CountLost(slots: seq<Slot>): (n: nat)
    ensures n <= |slots|
  {
    if slots == [] then 0
    else CountLost(slots[..|slots| - 1]) + if slots[|slots| - 1].Lost() then 1 else 0
  }

  function CountFec(slots: seq<Slot>): (n: nat)
    ensures n <= CountLost(slots)
  {
    if slots == [] then 0
    else CountFec(slots[..|slots| - 1]) + if slots[|slots| - 1].Fec? then 1 else 0
  }

  /** What the decoder returned for the last slot of a history. */
  function Decoded(c: Codec, slots: seq<Slot>): (r: Option<Pcm>)
    requires slots != []
  {
    var before, last := slots[..|slots| - 1], slots[|slots| - 1];
    if last.Fec? then c.fec(before, last.wire) else c.decode(before, last)
  }

  /** Everything the consumer was handed, in order; decode errors hand over nothing. */
  function Delivered(c: Codec, slots: seq<Slot>): (r: seq<Pcm>)
  {
    if slots == [] then []
    else
      var d := Decoded(c, slots);
      Delivered(c, slots[..|slots| - 1]) + if d.Some? then [d.value] else []
  }

  function PlcFrames(c: Codec, slots: seq<Slot>): (n: nat)
  {
    if slots == [] then 0
    else
      var d := Decoded(c, slots);
      PlcFrames(c, slots[..|slots| - 1]) +
      if slots[|slots| - 1].Plc? && d.Some? then |d.value.data| / 4 else 0
  }

  ghost predicate AllLost(slots: seq<Slot>, i: int, j: int)
  {
    0 <= i <= j <= |slots| && forall k :: i <= k < j ==> slots[k].Lost()
  }

  /** n is the length of the longest run of consecutive lost slots. */
  ghost predicate LongestLostRun(slots: seq<Slot>, n: nat)
  {
    && (exists i, j :: AllLost(slots, i, j) && j - i == n)
    && forall i, j :: AllLost(slots, i, j) ==> j - i <= n
  }

  /** n is the length of the run of lost slots the history ends with. */
  ghost predicate TrailingLost(slots: seq<Slot>, n: nat)
  {
    && AllLost(slots, |slots| - n, |slots|)
    && (n < |slots| ==> slots[|slots| - n - 1].Real?)
  }

  ghost predicate SinkMatches(c: Codec, k: Sink)
  {
    && k.lossPackets == k.totalLossFrames == CountLost(k.slots)
    && k.fecRecoveredFrames == CountFec(k.slots)
    && k.pcm == Delivered(c, k.slots)
    && k.concealedFrames == PlcFrames(c, k.slots)
    && TrailingLost(k.slots, k.burstLoss)
    && LongestLostRun(k.slots, k.maxBurstLoss)
  }

  // ---- the run invariant

  ghost predicate Numbered(w: Win)
  {
    && (w.seen ==> w.sink.slots != [] && w.nextSeq == (w.first + |w.sink.slots|) % SEQ_MOD)
    && (!w.seen ==> w.sink.slots == [] && w.held == map[])
    && |w.held| <= WINDOW_CAP
  }

  /** Each real slot carries a frame that arrived under that slot's number. */
  ghost predicate FromArrivals(w: Win, a: set<(Seq32, Wire)>)
  {
    && (forall i :: 0 <= i < |w.sink.slots| && w.sink.slots[i].Real? ==>
          ((w.first + i) % SEQ_MOD, w.sink.slots[i].wire) in a)
    && (forall s :: s in w.held ==> (s, w.held[s]) in a)
  }

  /** An FEC slot is decoded from the frame of the next slot, which follows as a
      real slot; inside the flush loop it may still be the next one to go out. */
  ghost predicate FecSlot(w: Win, i: int)
    requires 0 <= i < |w.sink.slots|
  {
    var slots := w.sink.slots;
    slots[i].Fec? ==>
      if i + 1 < |slots| then slots[i + 1] == Real(slots[i].wire)
      else w.nextSeq in w.held && w.held[w.nextSeq] == slots[i].wire
  }

  ghost predicate FecFromNext(w: Win)
  {
    forall i :: 0 <= i < |w.sink.slots| ==> FecSlot(w, i)
  }

  ghost predicate LastNotFec(w: Win)
  {
    w.sink.slots != [] ==> !w.sink.slots[|w.sink.slots| - 1].Fec?
  }

  ghost predicate Traced(w: Win, a: set<(Seq32, Wire)>)
  {
    Numbered(w) && FromArrivals(w, a) && FecFromNext(w)
  }

  lemma LongestRunExtends(slots: seq<Slot>, x: Slot, trailing: nat, longest: nat)
    requires TrailingLost(slots, trailing) && LongestLostRun(slots, longest)
    ensures var t := if x.Lost() then trailing + 1 else 0;
            TrailingLost(slots + [x], t) && LongestLostRun(slots + [x], Max(t, longest))
  {
    var slots' := slots + [x];
    var t := if x.Lost() then trailing + 1 else 0;
    assert TrailingLost(slots', t);
    assert t < |slots'| ==> slots'[|slots'| - t - 1].Real?;
    var i0, j0 :| AllLost(slots, i0, j0) && j0 - i0 == longest;
    assert AllLost(slots', i0, j0);
    assert AllLost(slots', |slots'| - t, |slots'|);
    forall i, j | AllLost(slots', i, j) ensures j - i <= Max(t, longest) {
      if j <= |slots| {
        assert forall k :: i <= k < j ==> slots[k] == slots'[k];
        assert AllLost(slots, i, j);
      } else if i < j {
        assert slots'[j - 1] == x;
      }
    }
  }

  lemma EmitRealMatches(c: Codec, k: Sink, wire: Wire)
    requires SinkMatches(c, k)
    ensures SinkMatches(c, EmitReal(c, k, wire))
  {
    var k' := EmitReal(c, k, wire);
    assert k'.slots[..|k.slots|] == k.slots;
    LongestRunExtends(k.slots, Real(wire), k.burstLoss, k.maxBurstLoss);
  }

  lemma ConcealMatches(c: Codec, k: Sink, following: Option<Wire>)
    requires SinkMatches(c, k)
    ensures SinkMatches(c, Conceal(c, k, following))
  {
    var k' := Conceal(c, k, following);
    ConcealSlots(c, k, following);
    assert k'.slots == k.slots + [k'.slots[|k.slots|]];
    LongestRunExtends(k.slots, k'.slots[|k.slots|], k.burstLoss, k.maxBurstLoss);
  }

  /** What concealing does to the slot history alone. */
  lemma ConcealSlots(c: Codec, k: Sink, following: Option<Wire>)
    ensures var k' := Conceal(c, k, following);
            && |k'.slots| == |k.slots| + 1 && k'.slots[..|k.slots|] == k.slots
            && k'.slots[|k.slots|].Lost() && k'.lossPackets == k.lossPackets + 1
            && (k'.slots[|k.slots|].Fec? ==> following == Some(k'.slots[|k.slots|].wire))
  {
  }

  lemma {:induction false} FlushLoopMatches(c: Codec, w: Win, force: bool)
    requires SinkMatches(c, w.sink)
    ensures SinkMatches(c, FlushLoop(c, w, force).sink)
    decreases Span(w)
  {
    if !Stops(w, force) {
      SpanAdvance(c, w);
      if w.nextSeq in w.held {
        EmitRealMatches(c, w.sink, w.held[w.nextSeq]);
      } else {
        ConcealMatches(c, w.sink, Following(w));
      }
      FlushLoopMatches(c, Advance(c, w), force);
    }
  }

  lemma StepMatches(c: Codec, w: Win, e: Event)
    requires SinkMatches(c, w.sink)
    ensures SinkMatches(c, Step(c, w, e).sink)
  {
    if e.TickEvent? {
      FlushLoopMatches(c, w, true);
    } else {
      EmitRealMatches(c, w.sink, e.wire);
      var w1 := w.(counts := Saw(w.counts));
      if w.seen && Delta(e.s, w.nextSeq) == 0 {
        FlushLoopMatches(c, Take(c, w1, e.wire), false);
      } else if w.seen && Delta(e.s, w.nextSeq) > 0 {
        FlushLoopMatches(c, Hold(w1, e.s, e.wire), false);
      }
    }
  }

  lemma RealSlotTraced(w: Win, w': Win, wire: Wire, a: set<(Seq32, Wire)>)
    requires w.seen && Traced(w, a) && (w.nextSeq, wire) in a
    requires LastNotFec(w) || (w.nextSeq in w.held && w.held[w.nextSeq] == wire)
    requires w'.seen && w'.first == w.first && w'.nextSeq == Succ(w.nextSeq)
    requires w'.held == w.held || w'.held == w.held - {w.nextSeq}
    requires w'.sink.slots == w.sink.slots + [Real(wire)]
    ensures Traced(w', a) && LastNotFec(w')
  {
    assert w'.held.Keys <= w.held.Keys;
    SubsetSize(w'.held.Keys, w.held.Keys);
    forall i | 0 <= i < |w'.sink.slots| ensures FecSlot(w', i) {
      if i < |w.sink.slots| { assert FecSlot(w, i); }
    }
  }

  lemma AdvanceTraced(c: Codec, w: Win, a: set<(Seq32, Wire)>, force: bool)
    requires w.seen && Traced(w, a) && !Stops(w, force)
    ensures Traced(Advance(c, w), a)
  {
    if w.nextSeq in w.held {
      RealSlotTraced(w, Advance(c, w), w.held[w.nextSeq], a);
    } else {
      var w' := Advance(c, w);
      ConcealSlots(c, w.sink, Following(w));
      forall i | 0 <= i < |w'.sink.slots| ensures FecSlot(w', i) {
        if i < |w.sink.slots| { assert FecSlot(w, i); }
      }
    }
  }

  lemma {:induction false} FlushLoopTraced(c: Codec, w: Win, a: set<(Seq32, Wire)>, force: bool)
    requires w.seen && Traced(w, a)
    ensures Traced(FlushLoop(c, w, force), a) && LastNotFec(FlushLoop(c, w, force))
    decreases Span(w)
  {
    if !Stops(w, force) {
      SpanAdvance(c, w);
      AdvanceTraced(c, w, a, force);
      FlushLoopTraced(c, Advance(c, w), a, force);
    } else {
      assert w.sink.slots != [] ==> FecSlot(w, |w.sink.slots| - 1);
    }
  }

  lemma AcceptTraced(c: Codec, w: Win, a: set<(Seq32, Wire)>, s: Seq32, wire: Wire, due: bool)
    requires Traced(w, a) && LastNotFec(w)
    ensures Traced(Accept(c, w, s, wire, due), a + {(s, wire)}) && LastNotFec(Accept(c, w, s, wire, due))
  {
    var a' := a + {(s, wire)};
    var w1 := w.(counts := Saw(w.counts));
    SameTrace(w, w1, a, a');
    if !w.seen {
      FirstTraced(c, w1, a', s, wire);
    } else if Delta(s, w.nextSeq) == 0 {
      assert s == w.nextSeq;
      var w2 := Take(c, w1, wire);
      RealSlotTraced(w1, w2, wire, a');
      if due { FlushLoopTraced(c, w2, a', false); }
    } else if Delta(s, w.nextSeq) < 0 {
      SameTrace(w, w1.(counts := SawLate(w1.counts)), a, a');
    } else {
      HoldTraced(w1, a', s, wire);
      if due { FlushLoopTraced(c, Hold(w1, s, wire), a', false); }
    }
  }

  lemma SameTrace(w: Win, w': Win, a: set<(Seq32, Wire)>, a': set<(Seq32, Wire)>)
    requires Traced(w, a) && LastNotFec(w) && a <= a'
    requires w'.seen == w.seen && w'.first == w.first && w'.nextSeq == w.nextSeq
    requires w'.held == w.held && w'.sink.slots == w.sink.slots
    ensures Traced(w', a') && LastNotFec(w')
  {
    forall i | 0 <= i < |w'.sink.slots| ensures FecSlot(w', i) {
      assert FecSlot(w, i);
    }
  }

  lemma FirstTraced(c: Codec, w: Win, a: set<(Seq32, Wire)>, s: Seq32, wire: Wire)
    requires !w.seen && Traced(w, a) && (s, wire) in a
    ensures var r := Take(c, w.(seen := true, first := s, nextSeq := s), wire);
            Traced(r, a) && LastNotFec(r)
  {
  }

  lemma HoldTraced(w: Win, a: set<(Seq32, Wire)>, s: Seq32, wire: Wire)
    requires w.seen && Traced(w, a) && LastNotFec(w) && (s, wire) in a
    ensures Traced(Hold(w, s, wire), a) && LastNotFec(Hold(w, s, wire))
  {
    var w' := Hold(w, s, wire);
    if |w.held| < WINDOW_CAP {
      assert w.held[s := wire].Keys == w.held.Keys + {s};
    }
    forall i | 0 <= i < |w'.sink.slots| ensures FecSlot(w', i) {
      assert FecSlot(w, i);
    }
  }

  lemma ArrivalsExtend(es: seq<Event>, e: Event)
    ensures Arrivals(es + [e]) == if e.Packet? then Arrivals(es) + {(e.s, e.wire)} else Arrivals(es)
  {
    var es' := es + [e];
    forall i | 0 <= i < |es| ensures es'[i] == es[i] {}
    assert es'[|es|] == e;
    forall x | x in Arrivals(es) ensures x in Arrivals(es') {
      var i :| 0 <= i < |es| && es[i].Packet? && (es[i].s, es[i].wire) == x;
      assert es'[i].Packet? && (es'[i].s, es'[i].wire) == x;
    }
  }

  /** THEOREM (slot trace). After any run whatsoever the emitted slots are numbered
      first, first+1, ..., nextSeq-1 modulo 2^32; every real slot carries a frame
      delivered under its own number; and every FEC slot was decoded from the frame
      of the slot right after it, which went out as a real slot. */
  lemma {:induction false} SlotTrace(c: Codec, es: seq<Event>)
    ensures Traced(Run(c, es), Arrivals(es)) && LastNotFec(Run(c, es))
  {
    if es != [] {
      var es', e := es[..|es| - 1], es[|es| - 1];
      SlotTrace(c, es');
      assert es == es' + [e];
      ArrivalsExtend(es', e);
      var w := Run(c, es');
      if e.Packet? {
        AcceptTraced(c, w, Arrivals(es'), e.s, e.wire, e.due);
      } else if w.seen {
        FlushLoopTraced(c, w, Arrivals(es'), true);
      }
    }
  }

  /** THEOREM (loss statistics). After any run the loss, FEC and burst counters and
      the PCM handed to the consumer are the stated functions of the slot history;
      in particular maxBurstLoss is the longest run of consecutive lost slots. */
  lemma {:induction false} SinkTrace(c: Codec, es: seq<Event>)
    ensures SinkMatches(c, Run(c, es).sink)
  {
    if es == [] {
      assert AllLost([], 0, 0);
    } else {
      SinkTrace(c, es[..|es| - 1]);
      StepMatches(c, Run(c, es[..|es| - 1]), es[|es| - 1]);
    }
  }

  // ---- the forced flush

  function At(w: Win, k: int): (s: Seq32)
  {
    (w.nextSeq + k) % SEQ_MOD
  }

  /** What slot k past the current end is, once everything held has gone out. */
  ghost predicate SlotFor(w: Win, k: nat, emitted: seq<Slot>)
    requires k < |emitted|
  {
    var x := emitted[k];
    if At(w, k) in w.held then x == Real(w.held[At(w, k)])
    else x.Lost() && (x.Fec? ==> At(w, k + 1) in w.held && x.wire == w.held[At(w, k + 1)])
  }

  lemma {:induction false} ForcedFlushEnds(c: Codec, w: Win)
    requires w.seen
    ensures var r, n := Tick(c, w), Span(w);
            && r.held == map[] && r.nextSeq == At(w, n)
            && |r.sink.slots| == |w.sink.slots| + n && r.sink.slots[..|w.sink.slots|] == w.sink.slots
            && r.sink.lossPackets + |w.held| == w.sink.lossPackets + n
    decreases Span(w)
  {
    if !Stops(w, true) {
      SpanAdvance(c, w);
      var w' := Advance(c, w);
      if w.nextSeq in w.held {
        assert w'.held.Keys == w.held.Keys - {w.nextSeq};
        assert |w'.held| == |w.held| - 1;
      } else {
        ConcealSlots(c, w.sink, Following(w));
      }
      assert w'.sink.slots[..|w.sink.slots|] == w.sink.slots;
      ForcedFlushEnds(c, w');
      AtShift(w, w', Span(w'));
      assert Tick(c, w).sink.slots[..|w.sink.slots|] == Tick(c, w).sink.slots[..|w'.sink.slots|][..|w.sink.slots|];
    } else {
      assert |w.held| == 0;
    }
  }

  /** What a tick appends to the slots. */
  ghost function Emitted(c: Codec, w: Win): (r: seq<Slot>)
    requires w.seen
    ensures |r| == Span(w) && Tick(c, w).sink.slots == w.sink.slots + r
  {
    ForcedFlushEnds(c, w);
    Tick(c, w).sink.slots[|w.sink.slots|..]
  }

  lemma EmittedSplits(c: Codec, w: Win)
    requires w.seen && |w.held| > 0
    ensures var w' := Advance(c, w);
            && |w'.sink.slots| == |w.sink.slots| + 1
            && Emitted(c, w) == [w'.sink.slots[|w.sink.slots|]] + Emitted(c, w')
  {
    var w', r := Advance(c, w), Tick(c, w);
    ConcealSlots(c, w.sink, Following(w));
    assert w'.sink.slots == w.sink.slots + [w'.sink.slots[|w.sink.slots|]];
    assert Tick(c, w') == r;
    calc {
      w.sink.slots + Emitted(c, w);
      r.sink.slots;
      w'.sink.slots + Emitted(c, w');
      w.sink.slots + ([w'.sink.slots[|w.sink.slots|]] + Emitted(c, w'));
    }
    assert (w.sink.slots + Emitted(c, w))[|w.sink.slots|..] == Emitted(c, w);
  }

  lemma FirstSlotFor(c: Codec, w: Win, emitted: seq<Slot>)
    requires |Advance(c, w).sink.slots| == |w.sink.slots| + 1
    requires emitted != [] && emitted[0] == Advance(c, w).sink.slots[|w.sink.slots|]
    ensures SlotFor(w, 0, emitted)
  {
    assert At(w, 0) == w.nextSeq && At(w, 1) == Succ(w.nextSeq);
    ConcealSlots(c, w.sink, Following(w));
  }

  lemma {:induction false} ForcedFlushSlots(c: Codec, w: Win, k: nat)
    requires w.seen && k < Span(w)
    ensures SlotFor(w, k, Emitted(c, w))
    decreases k
  {
    assert |w.held| > 0;
    var w' := Advance(c, w);
    EmittedSplits(c, w);
    if k == 0 {
      FirstSlotFor(c, w, Emitted(c, w));
    } else {
      SpanAdvance(c, w);
      ForcedFlushSlots(c, w', k - 1);
      SlotForShift(c, w, k - 1, Emitted(c, w), Emitted(c, w'));
    }
  }

  /** THEOREM (forced flush), for every window state: the loop ends, having emitted
      exactly as many slots as the farthest held number is away; each held frame went
      out under its own number, exactly the missing numbers were concealed, and the
      window is empty with nextSeq one past the farthest number. */
  lemma ForcedFlush(c: Codec, w: Win)
    requires w.seen
    ensures var r, n := Tick(c, w), Span(w);
            && r.held == map[] && r.nextSeq == At(w, n)
            && r.sink.slots == w.sink.slots + Emitted(c, w)
            && (forall k :: 0 <= k < n ==> SlotFor(w, k, Emitted(c, w)))
            && r.sink.lossPackets + |w.held| == w.sink.lossPackets + n
  {
    ForcedFlushEnds(c, w);
    forall k | 0 <= k < Span(w) ensures SlotFor(w, k, Emitted(c, w)) {
      ForcedFlushSlots(c, w, k);
    }
  }

  lemma SlotForShift(c: Codec, w: Win, k: nat, emitted: seq<Slot>, emitted': seq<Slot>)
    requires |w.held| > 0 && k + 1 < Span(w) == |emitted| && emitted' == emitted[1..]
    requires SlotFor(Advance(c, w), k, emitted')
    ensures SlotFor(w, k + 1, emitted)
  {
    AtShift(w, Advance(c, w), k);
    AtShift(w, Advance(c, w), k + 1);
    SpanBelowModulus(w);
    assert At(w, k + 1) != w.nextSeq;
  }

  lemma AtShift(w: Win, w': Win, k: int)
    requires w'.nextSeq == Succ(w.nextSeq)
    ensures At(w', k) == At(w, k + 1)
  {
  }

  lemma SpanBelowModulus(w: Win)
    ensures Span(w) <= SEQ_MOD
  {
    var ds := set s | s in w.held :: Dist(s, w.nextSeq);
    if Span(w) > 0 {
      var s :| s in w.held && Dist(s, w.nextSeq) == Span(w) - 1;
    }
  }
}
