/**
What the reorder window sends when it is not forced, and what it conceals with when it
is (engine/internal/engine/media.go), said without the loop that does it.
*/
module WindowFlush {
  import opened Common
  import opened Window
  import opened WindowRuns

  /** The first n numbers from nextSeq on. */
  ghost function Numbers(w: Win, n: nat): (ns: set<Seq32>)
  {
    set i | 0 <= i < n :: At(w, i)
  }

  /** All of them are held. */
  ghost predicate AllHeld(w: Win, n: nat)
  {
    forall i :: 0 <= i < n ==> At(w, i) in w.held
  }

  /** Their frames, as slots. */
  ghost function Reals(w: Win, n: nat): (r: seq<Slot>)
    requires AllHeld(w, n)
    ensures |r| == n
  {
    seq(n, i requires 0 <= i < n => Real(w.held[At(w, i)]))
  }

  /** No counter of losses has moved. */
  ghost predicate NoLoss(k: Sink, k': Sink)
  {
    && k'.lossPackets == k.lossPackets && k'.totalLossFrames == k.totalLossFrames
    && k'.concealedFrames == k.concealedFrames && k'.fecRecoveredFrames == k.fecRecoveredFrames
    && k'.maxBurstLoss == k.maxBurstLoss
  }

  /** r is w after the n held frames that are next in order have gone out, and no more of
      what is held is next. */
  ghost predicate Releases(w: Win, n: nat, r: Win)
  {
    && AllHeld(w, n) && r.seen == w.seen && r.first == w.first && r.counts == w.counts
    && r.nextSeq == At(w, n) && r.nextSeq !in r.held && r.held == w.held - Numbers(w, n)
    && r.sink.slots == w.sink.slots + Reals(w, n)
    && NoLoss(w.sink, r.sink) && r.sink.burstLoss == if n == 0 then w.sink.burstLoss else 0
  }

  lemma {:induction false} LoopReleases(c: Codec, w: Win) returns (n: nat)
    ensures Releases(w, n, FlushLoop(c, w, false))
    decreases Span(w)
  {
    assert At(w, 0) == w.nextSeq;
    if w.nextSeq !in w.held {
      n := 0;
      assert Numbers(w, 0) == {} && w.held - {} == w.held;
      assert w.sink.slots + Reals(w, 0) == w.sink.slots;
    } else {
      SpanAdvance(c, w);
      var m := LoopReleases(c, Advance(c, w));
      n := m + 1;
      OneRelease(c, w, m, FlushLoop(c, Advance(c, w), false));
    }
  }

  /** One frame sent, and then m more. */
  lemma OneRelease(c: Codec, w: Win, m: nat, r: Win)
    requires w.nextSeq in w.held && Releases(Advance(c, w), m, r)
    ensures Releases(w, m + 1, r)
  {
    var w' := Advance(c, w);
    Shifted(w, w', m);
    assert w.held - Numbers(w, m + 1) == w'.held - Numbers(w', m);
    assert w'.sink.slots == w.sink.slots + [Real(w.held[w.nextSeq])];
    assert w.sink.slots + Reals(w, m + 1) == w'.sink.slots + Reals(w', m);
  }

  lemma Shifted(w: Win, w': Win, m: nat)
    requires w.nextSeq in w.held && w'.nextSeq == Succ(w.nextSeq) && w'.held == w.held - {w.nextSeq}
    requires AllHeld(w', m)
    ensures AllHeld(w, m + 1) && At(w', m) == At(w, m + 1)
    ensures Numbers(w, m + 1) == {w.nextSeq} + Numbers(w', m)
    ensures Reals(w, m + 1) == [Real(w.held[w.nextSeq])] + Reals(w', m)
  {
    assert At(w, 0) == w.nextSeq;
    AtShift(w, w', m);
    forall i | 0 < i <= m ensures At(w, i) == At(w', i - 1) && At(w, i) in w.held && At(w, i) in w'.held {
      AtShift(w, w', i - 1);
    }
    forall x | x in Numbers(w', m) ensures x in Numbers(w, m + 1) {
      var i :| 0 <= i < m && At(w', i) == x;
      assert At(w, i + 1) == x;
    }
  }

  /** THEOREM (unforced flush), for every window state. With the hold period run out it
      sends exactly the held frames that are next in order, each once and under its own
      number, counts no loss and leaves the rest as it was; before that it does nothing. */
  lemma UnforcedFlush(c: Codec, w: Win, due: bool) returns (n: nat)
    requires w.seen
    ensures due ==> Releases(w, n, Flush(c, w, due, false))
    ensures !due ==> Flush(c, w, due, false) == w
  {
    n := LoopReleases(c, w);
  }

  /** w with the counters of arrivals set. */
  ghost predicate Counted(w: Win, r: Win, late: nat, reordered: nat, overflowed: nat)
  {
    r.counts == Counts(w.counts.packetsSeen + 1, w.counts.latePackets + late,
                       w.counts.reorderedPackets + reordered, w.counts.overflowed + overflowed)
  }

  /** w with the frame that is due sent. */
  ghost predicate Sends(w: Win, wire: Wire, r: Win)
  {
    && r.seen && r.first == w.first && r.nextSeq == At(w, 1) && r.held == w.held && Counted(w, r, 0, 0, 0)
    && r.sink.slots == w.sink.slots + [Real(wire)] && NoLoss(w.sink, r.sink) && r.sink.burstLoss == 0
  }

  /** w with frame s held back, if fewer than 64 are held. */
  ghost predicate Keeps(w: Win, s: Seq32, wire: Wire, r: Win)
  {
    && r.seen && r.first == w.first && r.nextSeq == w.nextSeq && r.sink == w.sink
    && if |w.held| < 64 then r.held == w.held[s := wire] && Counted(w, r, 0, 1, 0)
       else r.held == w.held && Counted(w, r, 0, 1, 1)
  }

  /** THEOREM (one arrival), for every window state that has seen a frame. A frame behind
      nextSeq is counted and dropped; the one that is due goes out, one ahead is held back
      while there is room; and then, if the hold period has run out, all that is next in
      order follows, with no loss counted. */
  lemma Arrival(c: Codec, w: Win, s: Seq32, wire: Wire, due: bool) returns (mid: Win, n: nat)
    requires w.seen
    ensures var r, d := Accept(c, w, s, wire, due), Delta(s, w.nextSeq);
            if d < 0 then r == w.(counts := r.counts) && Counted(w, r, 1, 0, 0)
            else
              && (if d == 0 then Sends(w, wire, mid) else Keeps(w, s, wire, mid))
              && (if due then Releases(mid, n, r) else r == mid)
  {
    var w1 := w.(counts := Saw(w.counts));
    mid := if Delta(s, w.nextSeq) == 0 then Take(c, w1, wire) else Hold(w1, s, wire);
    n := UnforcedFlush(c, mid, due);
  }

  /** THEOREM (the first frame) goes out at once and sets the numbers going. */
  lemma FirstArrival(c: Codec, w: Win, s: Seq32, wire: Wire, due: bool)
    requires !w.seen
    ensures var r := Accept(c, w, s, wire, due);
            && r.seen && r.first == s && r.nextSeq == (s + 1) % 0x1_0000_0000 && r.held == w.held
            && r.sink.slots == w.sink.slots + [Real(wire)] && NoLoss(w.sink, r.sink) && Counted(w, r, 0, 0, 0)
  {
  }

  /** The smallest run: packet 2 is held, and packet 1 brings both out. */
  lemma HoleFilled(c: Codec, x: Wire)
    ensures var w := Run(c, [Packet(0, x, false), Packet(2, x, false), Packet(1, x, true)]);
            w.nextSeq == 3 && w.held == map[] && w.sink.slots == [Real(x), Real(x), Real(x)]
  {
    var e0, e1, e2 := Packet(0, x, false), Packet(2, x, false), Packet(1, x, true);
    assert [e0, e1, e2][..2] == [e0, e1] && [e0, e1][..1] == [e0] && [e0][..0] == [];
    var w1 := Step(c, EMPTY_WIN, e0);
    assert Run(c, [e0]) == w1;
    var w2 := Step(c, w1, e1);
    assert Run(c, [e0, e1]) == w2 && w2.held == map[2 := x] && w2.nextSeq == 1;
    var mid, n := Arrival(c, w2, 1, x, true);
    assert At(mid, 0) == 2 && At(mid, 1) == 3;
    assert n == 1 && Numbers(mid, 1) == {At(mid, 0)};
  }

  // ---- what a missing frame is concealed with

  /** Slot x stands for a missing frame, `before` being the slots so far and `following` the
      frame right after it, if that is held: FEC if the codec has it and recovers
      something from that frame, and otherwise concealment, after the attempt at FEC if
      there was one. */
  ghost predicate ConcealedWith(c: Codec, before: seq<Slot>, following: Option<Wire>, x: Slot)
  {
    var tried := following.Some? && c.hasFec && following.value.data != [];
    var got := if tried then c.fec(before, following.value) else None;
    x == if got.Some? && got.value.data != [] then Fec(following.value) else Plc(if tried then following else None)
  }

  lemma ConcealPicks(c: Codec, k: Sink, following: Option<Wire>)
    ensures var k' := Conceal(c, k, following);
            && |k'.slots| == |k.slots| + 1 && k'.slots[..|k.slots|] == k.slots
            && ConcealedWith(c, k.slots, following, k'.slots[|k.slots|])
  {
  }

  ghost function HeldAt(w: Win, k: int): (o: Option<Wire>)
  {
    if At(w, k) in w.held then Some(w.held[At(w, k)]) else None
  }

  /** Slot k past the current end, once everything held has gone out. */
  ghost predicate Emits(c: Codec, w: Win, k: nat, out: seq<Slot>)
    requires k < |out|
  {
    if At(w, k) in w.held then out[k] == Real(w.held[At(w, k)])
    else ConcealedWith(c, w.sink.slots + out[..k], HeldAt(w, k + 1), out[k])
  }

  /** THEOREM (concealment). In a forced flush, whatever is held, each missing frame is
      recovered by FEC from the frame right after it exactly when that is held, the codec
      has FEC and its decode yields something; otherwise it is concealed. */
  lemma {:induction false} ForcedConceals(c: Codec, w: Win, k: nat)
    requires w.seen && k < Span(w)
    ensures Emits(c, w, k, Emitted(c, w))
    decreases k
  {
    EmittedSplits(c, w);
    if k == 0 {
      FirstEmits(c, w, Emitted(c, w));
    } else {
      SpanAdvance(c, w);
      ForcedConceals(c, Advance(c, w), k - 1);
      EmitsShift(c, w, k - 1, Emitted(c, w), Emitted(c, Advance(c, w)));
    }
  }

  lemma FirstEmits(c: Codec, w: Win, out: seq<Slot>)
    requires |Advance(c, w).sink.slots| == |w.sink.slots| + 1
    requires out != [] && out[0] == Advance(c, w).sink.slots[|w.sink.slots|]
    ensures Emits(c, w, 0, out)
  {
    assert At(w, 0) == w.nextSeq && At(w, 1) == Succ(w.nextSeq);
    ConcealPicks(c, w.sink, Following(w));
    assert w.sink.slots + out[..0] == w.sink.slots;
  }

  /** The farthest number is held. */
  lemma Farthest(w: Win)
    requires Span(w) > 0
    ensures At(w, Span(w) - 1) in w.held
  {
    var ds := set s | s in w.held :: Dist(s, w.nextSeq);
    var m := Span(w) - 1;
    assert m in ds;
    var s :| s in w.held && Dist(s, w.nextSeq) == m;
    DistAt(w, s, m);
  }

  lemma DistAt(w: Win, s: Seq32, d: nat)
    requires Dist(s, w.nextSeq) == d
    ensures At(w, d) == s
  {
  }

  /** Except for the number that has just gone out, held is held. */
  lemma HeldShift(c: Codec, w: Win, k: nat)
    requires 0 < k < SEQ_MOD
    ensures HeldAt(Advance(c, w), k - 1) == HeldAt(w, k)
  {
    AtShift(w, Advance(c, w), k - 1);
    assert At(w, k) != w.nextSeq;
  }

  lemma EmitsShift(c: Codec, w: Win, k: nat, out: seq<Slot>, out': seq<Slot>)
    requires k + 1 < Span(w) == |out| && |Advance(c, w).sink.slots| == |w.sink.slots| + 1
    requires out == [Advance(c, w).sink.slots[|w.sink.slots|]] + out' && Emits(c, Advance(c, w), k, out')
    ensures Emits(c, w, k + 1, out)
  {
    var w' := Advance(c, w);
    SpanBelowModulus(w);
    Farthest(w);
    HeldShift(c, w, k + 1);
    AdvanceAppends(c, w);
    if At(w, k + 1) !in w.held {
      HeldShift(c, w, k + 2);
      assert w.sink.slots + out[..k + 1] == w'.sink.slots + out'[..k];
    }
  }

  lemma AdvanceAppends(c: Codec, w: Win)
    requires |Advance(c, w).sink.slots| == |w.sink.slots| + 1
    ensures Advance(c, w).sink.slots == w.sink.slots + [Advance(c, w).sink.slots[|w.sink.slots|]]
  {
    ConcealPicks(c, w.sink, Following(w));
  }
}
