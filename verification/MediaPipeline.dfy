/**
The media pipeline object itself (engine/internal/engine/media.go): mutable fields
and a flush loop that deletes from the map of held packets, proved to compute the
functions of module Window. Wall-clock comparisons are the boolean `due`; the
smoothed (EWMA) statistics are not kept.
*/
module MediaPipeline {
  import opened Common
  import opened Window

  class ClientMedia {
    const codec: Codec

    var seen: bool
    var nextSeq: Seq32
    var future: map<Seq32, Wire>

    var counts: Counts
    var lossPackets: nat
    var totalLossFrames: nat
    var concealedFrames: nat
    var fecRecoveredFrames: nat
    var burstLoss: nat
    var maxBurstLoss: nat

    /** What the consumer callback has been handed. */
    var delivered: seq<Pcm>

    /** The decoder's own state: the calls made on it so far, and the failed FEC
        attempt that the next concealment follows. */
    var calls: seq<Slot>
    var triedFec: Option<Wire>

    ghost var first: Seq32

    ghost function SinkView(): (r: Sink)
      reads this
    {
      Sink(calls, delivered, lossPackets, totalLossFrames, concealedFrames,
           fecRecoveredFrames, burstLoss, maxBurstLoss)
    }

    ghost function View(): (r: Win)
      reads this
    {
      Win(seen, first, nextSeq, future, SinkView(), counts)
    }

    constructor (c: Codec)
      ensures codec == c && View() == EMPTY_WIN && triedFec == None
    {
      codec := c;
      seen, nextSeq, future, first := false, 0, map[], 0;
      counts := EMPTY_COUNTS;
      lossPackets, totalLossFrames, concealedFrames := 0, 0, 0;
      fecRecoveredFrames, burstLoss, maxBurstLoss := 0, 0, 0;
      delivered, calls, triedFec := [], [], None;
    }

    method CountLoss()
      modifies `lossPackets, `totalLossFrames, `burstLoss, `maxBurstLoss
      ensures SinkView() == Window.CountLoss(old(SinkView()))
    {
      lossPackets := lossPackets + 1;
      totalLossFrames := totalLossFrames + 1;
      burstLoss := burstLoss + 1;
      if burstLoss > maxBurstLoss {
        maxBurstLoss := burstLoss;
      }
    }

    /** emit: decode `wire`, or conceal when it is absent. */
    method Emit(wire: Option<Wire>)
      modifies this
      requires wire.Some? ==> triedFec == None
      ensures triedFec == None
      ensures SinkView() == if wire.Some? then EmitReal(codec, old(SinkView()), wire.value)
                            else EmitPlc(codec, old(SinkView()), old(triedFec))
      ensures View() == old(View()).(sink := SinkView())
    {
      var lost := wire.None?;
      if lost {
        CountLoss();
      } else {
        burstLoss := 0;
      }
      var call := if lost then Plc(triedFec) else Real(wire.value);
      var pcm := codec.decode(calls, call);
      calls, triedFec := calls + [call], None;
      if pcm.None? {
        assert delivered + [] == delivered;
        return;
      }
      if lost {
        concealedFrames := concealedFrames + |pcm.value.data| / 4;
      }
      delivered := delivered + [pcm.value];
    }

    /** emitFEC: reconstruct the missing frame from the frame after it. */
    method EmitFEC(wire: Wire) returns (recovered: bool)
      requires triedFec == None
      modifies this
      ensures recovered == FecWorks(codec, old(SinkView()), wire)
      ensures recovered ==> SinkView() == Conceal(codec, old(SinkView()), Some(wire)) && triedFec == None
      ensures !recovered ==> SinkView() == old(SinkView())
      ensures !recovered ==> triedFec == if |wire.data| > 0 && codec.hasFec then Some(wire) else None
      ensures View() == old(View()).(sink := SinkView())
    {
      if |wire.data| == 0 || !codec.hasFec {
        return false;
      }
      var pcm := codec.fec(calls, wire);
      if pcm.None? || |pcm.value.data| == 0 {
        triedFec := Some(wire);
        return false;
      }
      CountLoss();
      fecRecoveredFrames := fecRecoveredFrames + 1;
      calls := calls + [Fec(wire)];
      delivered := delivered + [pcm.value];
      return true;
    }

    /** flush: send what is in order and, when forced, conceal what is missing. */
    method Flush(due: bool, force: bool)
      requires triedFec == None
      modifies this
      ensures triedFec == None
      ensures View() == Window.Flush(codec, old(View()), due, force)
    {
      if !seen || (!force && !due) {
        return;
      }
      while true
        invariant seen && triedFec == None
        invariant FlushLoop(codec, View(), force) == FlushLoop(codec, old(View()), force)
        decreases Span(View())
      {
        ghost var before := View();
        if nextSeq in future {
          SpanAdvance(codec, before);
          var buf := future[nextSeq];
          future := future - {nextSeq};
          nextSeq := Succ(nextSeq);
          Emit(Some(buf));
          assert View() == Advance(codec, before);
          continue;
        }
        if |future| == 0 || !force {
          break;
        }
        SpanAdvance(codec, before);
        var recovered := false;
        if Succ(nextSeq) in future {
          recovered := EmitFEC(future[Succ(nextSeq)]);
        }
        nextSeq := Succ(nextSeq);
        if !recovered {
          Emit(None);
        }
        assert View() == Advance(codec, before);
      }
    }

    /** accept: one received wire frame. */
    method Accept(s: Seq32, wire: Wire, due: bool)
      requires triedFec == None
      modifies this
      ensures triedFec == None
      ensures View() == Window.Accept(codec, old(View()), s, wire, due)
    {
      counts := Saw(counts);
      if !seen {
        seen, first, nextSeq := true, s, Succ(s);
        Emit(Some(wire));
        return;
      }
      var delta := Delta(s, nextSeq);
      if delta < 0 {
        counts := SawLate(counts);
      } else if delta == 0 {
        Emit(Some(wire));
        nextSeq := Succ(s);
        Flush(due, false);
      } else {
        counts := SawFuture(counts, |future| < WINDOW_CAP);
        if |future| < WINDOW_CAP {
          future := future[s := wire];
        }
        Flush(due, false);
      }
    }

    /** tick: the reorder hold has expired. */
    method Tick()
      requires triedFec == None
      modifies this
      ensures triedFec == None
      ensures View() == Window.Tick(codec, old(View()))
    {
      if seen {
        Flush(true, true);
      }
    }
  }
}
