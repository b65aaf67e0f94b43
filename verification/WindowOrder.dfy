/**
Which arrivals keep the reorder window sound, and packet accounting over runs
(engine/internal/engine/media.go).
*/
module WindowOrder {
  import opened Window
  import opened WindowRuns

  /** No held number lies behind nextSeq (in the sense of the int32 test). */
  ghost predicate Near(w: Win)
  {
    forall s :: s in w.held ==> Dist(s, w.nextSeq) < HALF
  }

  lemma {:induction false} FlushLoopNear(c: Codec, w: Win, force: bool)
    requires Near(w)
    ensures Near(FlushLoop(c, w, force))
    decreases Span(w)
  {
    if !Stops(w, force) {
      SpanAdvance(c, w);
      var w' := Advance(c, w);
      forall s | s in w'.held ensures Dist(s, w'.nextSeq) < HALF {
        DistSucc(s, w.nextSeq);
      }
      FlushLoopNear(c, w', force);
    }
  }

  /** An unforced flush advances by at most the number of held frames, so it cannot
      reach a number that lies far behind. */
  lemma {:induction false} UnforcedMissesFar(c: Codec, w: Win, s: Seq32)
    requires s in w.held && Dist(s, w.nextSeq) >= HALF + |w.held|
    ensures var r := FlushLoop(c, w, false); s in r.held && Dist(s, r.nextSeq) >= HALF
    decreases Span(w)
  {
    if !Stops(w, false) {
      SpanAdvance(c, w);
      var w' := Advance(c, w);
      assert w'.held.Keys == w.held.Keys - {w.nextSeq};
      assert |w'.held| == |w.held| - 1;
      DistSucc(s, w.nextSeq);
      UnforcedMissesFar(c, w', s);
    }
  }

  lemma TakeKeepsNear(c: Codec, w: Win, wire: Wire, due: bool)
    requires |w.held| <= WINDOW_CAP && Near(w) && w.seen
    ensures Near(Flush(c, Take(c, w, wire), due, false)) <==> w.nextSeq !in w.held
  {
    var w', s := Take(c, w, wire), w.nextSeq;
    if s in w.held {
      assert Dist(s, w'.nextSeq) == SEQ_MOD - 1;
      if due { UnforcedMissesFar(c, w', s); }
    } else {
      forall x | x in w'.held ensures Dist(x, w'.nextSeq) < HALF { DistSucc(x, s); }
      if due { FlushLoopNear(c, w', false); }
    }
  }

  lemma HoldKeepsNear(c: Codec, w: Win, s: Seq32, wire: Wire, due: bool)
    requires Near(w) && Delta(s, w.nextSeq) > 0
    ensures Near(Flush(c, Hold(w, s, wire), due, false))
  {
    var w' := Hold(w, s, wire);
    forall x | x in w'.held ensures Dist(x, w'.nextSeq) < HALF {}
    FlushLoopNear(c, w', false);
  }

  /** THEOREM. An arrival leaves no held number behind nextSeq if and only if it is
      not a second copy of a held frame whose number is the next one to go out. */
  lemma AcceptKeepsNear(c: Codec, w: Win, s: Seq32, wire: Wire, due: bool)
    requires Numbered(w) && Near(w)
    ensures Near(Accept(c, w, s, wire, due)) <==> !(w.seen && s == w.nextSeq && s in w.held)
  {
    var w1 := w.(counts := Saw(w.counts));
    assert Near(w1);
    if w.seen && Delta(s, w.nextSeq) == 0 {
      TakeKeepsNear(c, w1, wire, due);
    } else if w.seen && Delta(s, w.nextSeq) > 0 {
      HoldKeepsNear(c, w1, s, wire, due);
    }
  }

  /** The failing family is not empty: a packet held for its predecessor and delivered
      once more after the predecessor went out makes the next tick conceal 2^32 - 1
      frames, because the stale copy is 2^32 - 1 numbers away. */
  lemma DuplicateBreaksWindow(c: Codec, x: Wire)
    ensures var w := Run(c, [Packet(0, x, false), Packet(2, x, false), Packet(1, x, false), Packet(2, x, false)]);
            && w.seen && w.held == map[2 := x] && !Near(w)
            && Tick(c, w).sink.lossPackets == w.sink.lossPackets + SEQ_MOD - 1
  {
    var e0, e1, e2, e3 := Packet(0, x, false), Packet(2, x, false), Packet(1, x, false), Packet(2, x, false);
    var w0 := Step(c, EMPTY_WIN, e0);
    var w1 := Step(c, w0, e1);
    var w2 := Step(c, w1, e2);
    var w3 := Step(c, w2, e3);
    assert [e0, e1, e2, e3][..3] == [e0, e1, e2] && [e0, e1, e2][..2] == [e0, e1] && [e0, e1][..1] == [e0];
    assert [e0][..0] == [];
    assert Run(c, [e0]) == w0;
    assert Run(c, [e0, e1]) == w1;
    assert Run(c, [e0, e1, e2]) == w2;
    assert w3.held == map[2 := x] && w3.nextSeq == 3;
    assert Dist(2, 3) == SEQ_MOD - 1;
    var ds := set s | s in w3.held :: Dist(s, w3.nextSeq);
    assert Dist(2, 3) in ds;
    assert ds == {SEQ_MOD - 1};
    ForcedFlush(c, w3);
    assert |w3.held| == 1;
  }

  /** No packet arrives while a copy of it is still held. */
  ghost predicate Fresh(c: Codec, es: seq<Event>)
  {
    forall i :: 0 <= i < |es| && es[i].Packet? ==> es[i].s !in Run(c, es[..i]).held
  }

  /** No sequence number is delivered twice: what QUIC's packet de-duplication
      gives one connection (section 12.3 of RFC 9000). */
  ghost predicate NoNumberTwice(es: seq<Event>)
  {
    forall i, j :: 0 <= i < j < |es| && es[i].Packet? && es[j].Packet? ==> es[i].s != es[j].s
  }

  lemma NoNumberTwiceIsFresh(c: Codec, es: seq<Event>)
    requires NoNumberTwice(es)
    ensures Fresh(c, es)
  {
    forall i | 0 <= i < |es| && es[i].Packet? ensures es[i].s !in Run(c, es[..i]).held {
      SlotTrace(c, es[..i]);
      forall x | x in Arrivals(es[..i]) ensures x.0 != es[i].s {
        var j :| 0 <= j < i && es[..i][j].Packet? && (es[..i][j].s, es[..i][j].wire) == x;
        assert es[..i][j] == es[j];
      }
    }
  }

  function RealSlots(w: Win): (n: nat)
  {
    |w.sink.slots| - CountLost(w.sink.slots)
  }

  /** Event e is another copy of a held frame that is next to go out. */
  predicate Repeats(w: Win, e: Event)
  {
    e.Packet? && w.seen && e.s == w.nextSeq && e.s in w.held
  }

  /** Event e overwrites a held frame. */
  predicate Overwrites(w: Win, e: Event)
  {
    e.Packet? && w.seen && Delta(e.s, w.nextSeq) > 0 && e.s in w.held && |w.held| < WINDOW_CAP
  }

  lemma FreshNeither(c: Codec, es: seq<Event>, i: nat)
    requires Fresh(c, es) && i < |es|
    ensures !Repeats(Run(c, es[..i]), es[i]) && !Overwrites(Run(c, es[..i]), es[i])
  {
  }

  /** Whether a condition on what came before and an event holds at event i. */
  predicate HoldsAt(B: (seq<Event>, Event) -> bool, es: seq<Event>, i: nat)
    requires i < |es|
  {
    B(es[..i], es[i])
  }

  ghost predicate Never(B: (seq<Event>, Event) -> bool, es: seq<Event>)
  {
    forall i :: 0 <= i < |es| ==> !HoldsAt(B, es, i)
  }

  lemma NeverBefore(B: (seq<Event>, Event) -> bool, es: seq<Event>)
    requires es != []
    ensures var m := |es| - 1; Never(B, es) <==> Never(B, es[..m]) && !B(es[..m], es[m])
  {
    var m := |es| - 1;
    forall i | 0 <= i < m ensures HoldsAt(B, es[..m], i) <==> HoldsAt(B, es, i) {
      assert es[..m][..i] == es[..i] && es[..m][i] == es[i];
    }
    assert HoldsAt(B, es, m) <==> B(es[..m], es[m]);
    if Never(B, es) {
      forall i | 0 <= i < m ensures !HoldsAt(B, es[..m], i) { assert !HoldsAt(B, es, i); }
    }
  }

  ghost predicate Always(P: seq<Event> -> bool, es: seq<Event>)
  {
    forall k :: 0 <= k <= |es| ==> P(es[..k])
  }

  /** A property that each event keeps exactly unless B holds at it. */
  lemma {:induction false} AlwaysUnless(P: seq<Event> -> bool, B: (seq<Event>, Event) -> bool, es: seq<Event>)
    requires P([]) && forall before, e :: P(before) ==> (P(before + [e]) <==> !B(before, e))
    ensures Always(P, es) <==> Never(B, es)
  {
    if es == [] {
      assert forall k :: 0 <= k <= |es| ==> es[..k] == [];
    } else {
      var m := |es| - 1;
      AlwaysUnless(P, B, es[..m]);
      NeverBefore(B, es);
      assert forall k :: 0 <= k <= m ==> es[..m][..k] == es[..k];
      assert es[..|es|] == es == es[..m] + [es[m]];
      if Always(P, es) { assert P(es[..m]) && P(es[..|es|]); }
      if Always(P, es[..m]) { assert es[..m][..m] == es[..m]; }
    }
  }

  /** Nothing held is behind nextSeq after the events. */
  ghost function NearAfter(c: Codec): (P: seq<Event> -> bool)
  {
    es => Near(Run(c, es))
  }

  function Repeating(c: Codec): (B: (seq<Event>, Event) -> bool)
  {
    (before, e) => Repeats(Run(c, before), e)
  }

  function Overwriting(c: Codec): (B: (seq<Event>, Event) -> bool)
  {
    (before, e) => Overwrites(Run(c, before), e)
  }

  /** THEOREM. Nothing held is behind nextSeq at any time of a run if and only if no
      packet of it is another copy of a held frame that is next to go out. */
  lemma NearThroughout(c: Codec, es: seq<Event>)
    ensures (forall k :: 0 <= k <= |es| ==> Near(Run(c, es[..k]))) <==> Never(Repeating(c), es)
  {
    forall before, e | NearAfter(c)(before)
      ensures NearAfter(c)(before + [e]) <==> !Repeating(c)(before, e)
    {
      assert (before + [e])[..|before|] == before;
      NearStep(c, before, e);
    }
    AlwaysUnless(NearAfter(c), Repeating(c), es);
    assert forall k :: 0 <= k <= |es| ==> (NearAfter(c)(es[..k]) <==> Near(Run(c, es[..k])));
  }

  lemma NearStep(c: Codec, before: seq<Event>, e: Event)
    requires Near(Run(c, before))
    ensures Near(Step(c, Run(c, before), e)) <==> !Repeats(Run(c, before), e)
  {
    var w := Run(c, before);
    SlotTrace(c, before);
    if e.Packet? {
      AcceptKeepsNear(c, w, e.s, e.wire, e.due);
    } else if w.seen {
      FlushLoopNear(c, w, true);
    }
  }

  // ---- accounting

  /** At how many events of a run B holds. */
  function Count(B: (seq<Event>, Event) -> bool, es: seq<Event>): (n: nat)
  {
    if es == [] then 0
    else
      var m := |es| - 1;
      Count(B, es[..m]) + if B(es[..m], es[m]) then 1 else 0
  }

  lemma {:induction false} CountZero(B: (seq<Event>, Event) -> bool, es: seq<Event>)
    ensures Count(B, es) == 0 <==> Never(B, es)
  {
    if es != [] {
      CountZero(B, es[..|es| - 1]);
      NeverBefore(B, es);
    }
  }

  /** How many packets of a run overwrote a held frame. */
  function Overwritten(c: Codec, es: seq<Event>): (n: nat)
  {
    Count(Overwriting(c), es)
  }

  /** Every packet seen is a real slot, still held, late, turned away by a full window,
      or was overwritten. */
  ghost predicate Accounted(w: Win, overwritten: int)
  {
    w.counts.packetsSeen == RealSlots(w) + |w.held| + w.counts.latePackets + w.counts.overflowed + overwritten
  }

  lemma {:induction false} FlushLoopAccounted(c: Codec, w: Win, force: bool, lost: int)
    requires Accounted(w, lost)
    ensures Accounted(FlushLoop(c, w, force), lost)
    decreases Span(w)
  {
    if !Stops(w, force) {
      SpanAdvance(c, w);
      var w' := Advance(c, w);
      if w.nextSeq in w.held {
        assert w'.held.Keys == w.held.Keys - {w.nextSeq};
        assert |w'.held| == |w.held| - 1;
        assert w'.sink.slots[..|w.sink.slots|] == w.sink.slots;
      } else {
        ConcealSlots(c, w.sink, Following(w));
      }
      FlushLoopAccounted(c, w', force, lost);
    }
  }

  lemma HoldAccounted(w: Win, s: Seq32, wire: Wire, lost: int)
    requires w.seen && Delta(s, w.nextSeq) > 0 && Accounted(w, lost)
    ensures Accounted(Hold(w.(counts := Saw(w.counts)), s, wire),
                      if s in w.held && |w.held| < WINDOW_CAP then lost + 1 else lost)
  {
    if |w.held| < WINDOW_CAP {
      assert w.held[s := wire].Keys == w.held.Keys + {s};
    }
  }

  lemma AcceptAccounted(c: Codec, w: Win, s: Seq32, wire: Wire, due: bool, lost: int)
    requires Accounted(w, lost) && (!w.seen ==> w.held == map[])
    ensures Accounted(Accept(c, w, s, wire, due), if Overwrites(w, Packet(s, wire, due)) then lost + 1 else lost)
  {
    var w1 := w.(counts := Saw(w.counts));
    var k := EmitReal(c, w1.sink, wire);
    assert k.slots[..|w1.sink.slots|] == w1.sink.slots;
    if w.seen && Delta(s, w.nextSeq) == 0 {
      if due { FlushLoopAccounted(c, Take(c, w1, wire), false, lost); }
    } else if w.seen && Delta(s, w.nextSeq) > 0 {
      HoldAccounted(w, s, wire, lost);
      var lost' := if Overwrites(w, Packet(s, wire, due)) then lost + 1 else lost;
      if due { FlushLoopAccounted(c, Hold(w1, s, wire), false, lost'); }
    }
  }

  lemma {:induction false} AccountedRun(c: Codec, es: seq<Event>)
    ensures Accounted(Run(c, es), Overwritten(c, es))
  {
    if es != [] {
      var before, e := es[..|es| - 1], es[|es| - 1];
      AccountedRun(c, before);
      SlotTrace(c, before);
      var w := Run(c, before);
      if e.Packet? {
        AcceptAccounted(c, w, e.s, e.wire, e.due, Overwritten(c, before));
      } else if w.seen {
        FlushLoopAccounted(c, w, true, Overwritten(c, before));
      }
    }
  }

  /** THEOREM (window accounting), for every run: packets seen = real slots + held + late
      + overflowed + overwritten while held, the last term being zero if and only if no
      packet overwrote a held one; the numbers emitted are the real plus the lost ones,
      and at most the lost ones were recovered by FEC. */
  lemma WindowAccounting(c: Codec, es: seq<Event>)
    ensures var w := Run(c, es);
            && w.counts.packetsSeen ==
                 RealSlots(w) + |w.held| + w.counts.latePackets + w.counts.overflowed + Overwritten(c, es)
            && (Overwritten(c, es) == 0 <==> Never(Overwriting(c), es))
            && |w.sink.slots| == RealSlots(w) + w.sink.lossPackets
            && w.sink.fecRecoveredFrames <= w.sink.lossPackets
  {
    SinkTrace(c, es);
    AccountedRun(c, es);
    CountZero(Overwriting(c), es);
  }

  /** The failing family is not empty: a held frame that arrives once more is overwritten. */
  lemma OverwriteHappens(c: Codec, x: Wire, y: Wire)
    ensures var es := [Packet(0, x, false), Packet(2, x, false), Packet(2, y, false)];
            Overwritten(c, es) == 1 && !Accounted(Run(c, es), 0)
  {
    var e0, e1, e2 := Packet(0, x, false), Packet(2, x, false), Packet(2, y, false);
    var es := [e0, e1, e2];
    assert es[..2] == [e0, e1] && [e0, e1][..1] == [e0] && [e0][..0] == [];
    var w1 := Step(c, EMPTY_WIN, e0);
    assert Run(c, [e0]) == w1;
    var w2 := Step(c, w1, e1);
    assert Run(c, [e0, e1]) == w2 && w2.held == map[2 := x];
    assert Count(Overwriting(c), []) == 0;
    assert Count(Overwriting(c), [e0]) == 0;
    assert Count(Overwriting(c), [e0, e1]) == 0;
    AccountedRun(c, es);
  }

  /** THEOREM (de-duplicated delivery). If no sequence number is delivered twice, nothing
      held is ever behind nextSeq and every packet seen is a real slot, held, late or
      overflowed. */
  lemma DeduplicatedIsSound(c: Codec, es: seq<Event>)
    requires NoNumberTwice(es)
    ensures Near(Run(c, es)) && Accounted(Run(c, es), 0)
  {
    NoNumberTwiceIsFresh(c, es);
    forall i | 0 <= i < |es|
      ensures !HoldsAt(Repeating(c), es, i) && !HoldsAt(Overwriting(c), es, i)
    {
      FreshNeither(c, es, i);
    }
    NearThroughout(c, es);
    CountZero(Overwriting(c), es);
    AccountedRun(c, es);
    assert es[..|es|] == es;
  }
}
