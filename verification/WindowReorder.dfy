/**
Reordering inside the window is invisible (engine/internal/engine/media.go). The
argument runs on the window over unbounded numbers and is carried to the 32-bit
window by the refinement theorem.
*/
module WindowReorder {
  import opened Common
  import opened Window
  import opened WindowRuns
  import opened WindowRefinement

  /** The slots are the first frames, unaltered. */
  ghost predicate Prefix(slots: seq<Slot>, frames: seq<Wire>)
  {
    |slots| <= |frames| && forall i :: 0 <= i < |slots| ==> slots[i] == Real(frames[i])
  }

  /** What has been received and not yet sent out is held under its own number. */
  ghost predicate RestHeld(held: map<int, Wire>, next: int, base: int, frames: seq<Wire>, got: set<int>)
  {
    && (forall k :: k in got ==> base <= k < base + |frames|)
    && (forall k :: k in got && k >= next ==> k in held && held[k] == frames[k - base])
    && (forall k :: k in held ==> k in got && k >= next)
  }

  ghost predicate Covers(got: set<int>, lo: int, hi: int)
  {
    forall k :: lo <= k < hi ==> k in got
  }

  /** Frames base, ..., next-1 have gone out in order; the other numbers in `got` are held. */
  ghost predicate InOrder(u: UWin, base: int, frames: seq<Wire>, got: set<int>)
  {
    && u.seen && u.next == base + |u.sink.slots| && 1 <= |u.sink.slots| && |frames| <= WINDOW_CAP + 1
    && Prefix(u.sink.slots, frames)
    && Covers(got, base, u.next)
    && RestHeld(u.held, u.next, base, frames, got)
    && |u.held| < |got|
    && u.sink.lossPackets == 0 && u.counts.latePackets == 0
  }

  lemma SentNext(held: map<int, Wire>, next: int, base: int, frames: seq<Wire>, got: set<int>)
    requires RestHeld(held, next, base, frames, got)
    ensures RestHeld(held - {next}, next + 1, base, frames, got)
  {
  }

  lemma HeldOne(held: map<int, Wire>, next: int, base: int, frames: seq<Wire>, got: set<int>, n: int)
    requires RestHeld(held, next, base, frames, got) && base <= n < base + |frames| && n >= next
    ensures RestHeld(held[n := frames[n - base]], next, base, frames, got + {n})
  {
  }

  lemma AdvanceInOrder(c: Codec, u: UWin, base: int, frames: seq<Wire>, got: set<int>)
    requires InOrder(u, base, frames, got) && u.next in u.held
    ensures InOrder(UAdvance(c, u), base, frames, got)
  {
    SentNext(u.held, u.next, base, frames, got);
    assert (u.held - {u.next}).Keys == u.held.Keys - {u.next};
  }

  lemma {:induction false} FlushInOrder(c: Codec, u: UWin, base: int, frames: seq<Wire>, got: set<int>, force: bool)
    requires InOrder(u, base, frames, got)
    requires force ==> Covers(got, base, base + |frames|)
    ensures Ahead(u)
    ensures var r := UFlushLoop(c, u, force);
            InOrder(r, base, frames, got) && (force ==> r.next == base + |frames| && r.held == map[])
    decreases USpan(u)
  {
    if u.next in u.held {
      assert |u.held| > 0;
      USpanAdvance(c, u);
      AdvanceInOrder(c, u, base, frames, got);
      FlushInOrder(c, UAdvance(c, u), base, frames, got, force);
    } else if force {
      assert u.next < base + |frames| ==> u.next in got;
      assert u.next == base + |frames|;
      assert forall k :: k !in u.held;
      assert u.held == map[];
    }
  }

  lemma PutInOrder(u: UWin, base: int, frames: seq<Wire>, got: set<int>, n: int)
    requires InOrder(u, base, frames, got) && n !in got && u.next <= n < base + |frames|
    ensures InOrder(u.(held := u.held[n := frames[n - base]]), base, frames, got + {n})
  {
    HeldOne(u.held, u.next, base, frames, got, n);
    assert u.held[n := frames[n - base]].Keys == u.held.Keys + {n};
    assert |got + {n}| == |got| + 1;
  }

  /** Taking a frame straight out is holding it and then sending it. */
  lemma TakeIsPutAdvance(c: Codec, u: UWin, wire: Wire)
    requires u.next !in u.held
    ensures UTake(c, u, wire) == UAdvance(c, u.(held := u.held[u.next := wire]))
  {
    assert u.held[u.next := wire] - {u.next} == u.held;
  }

  lemma PacketInOrder(c: Codec, u: UWin, base: int, frames: seq<Wire>, got: set<int>, n: int, due: bool)
    requires InOrder(u, base, frames, got) && n !in got && base <= n < base + |frames|
    ensures var e := UPacket(n, frames[n - base], due);
            Fits(u, e) && InOrder(UStep(c, u, e), base, frames, got + {n})
  {
    var wire, got' := frames[n - base], got + {n};
    var u1 := u.(counts := Saw(u.counts));
    assert InOrder(u1, base, frames, got);
    PutInOrder(u1, base, frames, got, n);
    RoomForOne(got, base, |frames|, n);
    var put := u1.(held := u1.held[n := wire]);
    var u2 := if n == u.next then UTake(c, u1, wire) else UHold(u1, n, wire);
    if n == u.next {
      TakeIsPutAdvance(c, u1, wire);
      AdvanceInOrder(c, put, base, frames, got');
    } else {
      assert |u1.held| < WINDOW_CAP;
      assert InOrder(u2, base, frames, got') by { assert u2 == put.(counts := u2.counts); }
    }
    if due { FlushInOrder(c, u2, base, frames, got', false); }
  }

  lemma RoomForOne(got: set<int>, base: int, size: nat, n: int)
    requires n !in got && base <= n < base + size && forall k :: k in got ==> base <= k < base + size
    ensures |got| < size
  {
    SubsetSize(got + {n}, Range(base, size));
    assert |got + {n}| == |got| + 1;
  }

  /** Frame 0 first and then the others in any order, each once, the hold period
      running out or not at each of them. */
  ghost predicate Shuffled(es: seq<UEvent>, base: int, frames: seq<Wire>)
  {
    && es != [] && es[0].UPacket? && es[0].n == base
    && (forall i :: 0 <= i < |es| ==> FrameOf(es[i], base, frames))
    && (forall i, j :: 0 <= i < j < |es| ==> es[i].n != es[j].n)
  }

  ghost predicate FrameOf(e: UEvent, base: int, frames: seq<Wire>)
  {
    e.UPacket? && base <= e.n < base + |frames| && e.wire == frames[e.n - base]
  }

  /** The events still to come bring distinct frames that have not arrived. */
  ghost predicate ToCome(es: seq<UEvent>, base: int, frames: seq<Wire>, got: set<int>)
  {
    && (forall i :: 0 <= i < |es| ==> FrameOf(es[i], base, frames) && es[i].n !in got)
    && (forall i, j :: 0 <= i < j < |es| && es[i].UPacket? && es[j].UPacket? ==> es[i].n != es[j].n)
  }

  lemma ToComeNext(es: seq<UEvent>, base: int, frames: seq<Wire>, got: set<int>)
    requires es != [] && ToCome(es, base, frames, got)
    ensures es[0].UPacket? && ToCome(es[1..], base, frames, got + {es[0].n})
  {
    assert FrameOf(es[0], base, frames);
    forall i | 0 <= i < |es[1..]|
      ensures FrameOf(es[1..][i], base, frames) && es[1..][i].n !in got + {es[0].n}
    {
      assert es[1..][i] == es[i + 1] && FrameOf(es[i + 1], base, frames);
    }
  }

  /** Induction over the arrivals, for any property that each new frame keeps. */
  lemma {:induction false} OverArrivals(
      c: Codec, u: UWin, es: seq<UEvent>, base: int, frames: seq<Wire>, got: set<int>, P: (UWin, set<int>) -> bool)
      returns (all: set<int>)
    requires P(u, got) && ToCome(es, base, frames, got)
    requires forall v, g, e :: P(v, g) && FrameOf(e, base, frames) && e.n !in g ==>
               Fits(v, e) && P(UStep(c, v, e), g + {e.n})
    ensures Admissible(c, u, es) && P(URun(c, u, es), all) && |all| == |got| + |es|
    decreases |es|
  {
    if es == [] {
      all := got;
    } else {
      var e := es[0];
      ToComeNext(es, base, frames, got);
      assert FrameOf(e, base, frames);
      all := OverArrivals(c, UStep(c, u, e), es[1..], base, frames, got + {e.n}, P);
    }
  }

  /** InOrder as a value, for OverArrivals. */
  ghost function Kept(base: int, frames: seq<Wire>): (P: (UWin, set<int>) -> bool)
  {
    (u: UWin, got: set<int>) => InOrder(u, base, frames, got)
  }

  lemma EachKeeps(c: Codec, base: int, frames: seq<Wire>)
    ensures forall v, g, e ::
      Kept(base, frames)(v, g) && FrameOf(e, base, frames) && e.n !in g ==>
        Fits(v, e) && Kept(base, frames)(UStep(c, v, e), g + {e.n})
  {
    forall v, g, e | Kept(base, frames)(v, g) && FrameOf(e, base, frames) && e.n !in g
      ensures Fits(v, e) && Kept(base, frames)(UStep(c, v, e), g + {e.n})
    {
      PacketInOrder(c, v, base, frames, g, e.n, e.due);
    }
  }

  ghost predicate Finished(u: UWin, base: int, frames: seq<Wire>, all: set<int>)
  {
    InOrder(u, base, frames, all) && u.held == map[] && |u.sink.slots| == |frames|
  }

  lemma TickInOrder(c: Codec, u: UWin, base: int, frames: seq<Wire>, got: set<int>)
    requires InOrder(u, base, frames, got) && |got| == |frames|
    ensures Fits(u, UTick) && Finished(UStep(c, u, UTick), base, frames, got)
  {
    AllGot(base, |frames|, got);
    FlushInOrder(c, u, base, frames, got, true);
  }

  lemma {:induction false} RunSnoc(c: Codec, u: UWin, es: seq<UEvent>, e: UEvent)
    requires Admissible(c, u, es) && Fits(URun(c, u, es), e)
    ensures Admissible(c, u, es + [e]) && URun(c, u, es + [e]) == UStep(c, URun(c, u, es), e)
    decreases |es|
  {
    if es == [] {
      assert [e][1..] == [];
    } else {
      RunSnoc(c, UStep(c, u, es[0]), es[1..], e);
      assert (es + [e])[1..] == es[1..] + [e];
    }
  }

  lemma FirstInOrder(c: Codec, e: UEvent, base: int, frames: seq<Wire>)
    requires FrameOf(e, base, frames) && e.n == base && |frames| <= WINDOW_CAP + 1
    ensures Fits(EMPTY_U_WIN, e) && InOrder(UStep(c, EMPTY_U_WIN, e), base, frames, {base})
  {
    assert EMPTY_SINK.slots + [Real(frames[0])] == [Real(frames[0])];
  }

  /** THEOREM (reordering is invisible). If frame 0 is followed by any permutation of
      the next n <= 64 frames, with no tick in between and whatever hold periods run
      out on the way, then after the next tick the slots of the 32-bit window are
      exactly the frames in order, and nothing was concealed, late or left behind. */
  lemma ReorderingInvisible(c: Codec, es: seq<UEvent>, base: int, frames: seq<Wire>)
    requires Shuffled(es, base, frames) && |es| == |frames| <= WINDOW_CAP + 1
    ensures var w := Run(c, AllOnWire(es + [UTick]));
            && w.sink.slots == seq(|frames|, i requires 0 <= i < |frames| => Real(frames[i]))
            && w.held == map[] && w.sink.lossPackets == 0 && w.counts.latePackets == 0
  {
    assert FrameOf(es[0], base, frames);
    FirstInOrder(c, es[0], base, frames);
    ToComeAfterFirst(es, base, frames);
    EachKeeps(c, base, frames);
    var all := OverArrivals(c, UStep(c, EMPTY_U_WIN, es[0]), es[1..], base, frames, {base}, Kept(base, frames));
    var u := URun(c, EMPTY_U_WIN, es);
    TickInOrder(c, u, base, frames, all);
    RunSnoc(c, EMPTY_U_WIN, es, UTick);
    FinishedOnWire(c, es + [UTick], base, frames, all);
  }

  /** What is finished over unbounded numbers is finished over 32-bit ones. */
  lemma FinishedOnWire(c: Codec, es: seq<UEvent>, base: int, frames: seq<Wire>, all: set<int>)
    requires Admissible(c, EMPTY_U_WIN, es) && Finished(URun(c, EMPTY_U_WIN, es), base, frames, all)
    ensures var w := Run(c, AllOnWire(es));
            && w.sink.slots == seq(|frames|, i requires 0 <= i < |frames| => Real(frames[i]))
            && w.held == map[] && w.sink.lossPackets == 0 && w.counts.latePackets == 0
  {
    Refines(c, es);
    HeldSameSize(URun(c, EMPTY_U_WIN, es), Run(c, AllOnWire(es)));
  }

  lemma ToComeAfterFirst(es: seq<UEvent>, base: int, frames: seq<Wire>)
    requires Shuffled(es, base, frames)
    ensures ToCome(es[1..], base, frames, {base})
  {
    forall i | 0 <= i < |es[1..]|
      ensures FrameOf(es[1..][i], base, frames) && es[1..][i].n !in {base}
    {
      assert es[1..][i] == es[i + 1] && FrameOf(es[i + 1], base, frames);
    }
  }

  ghost function Range(base: int, n: nat): (r: set<int>)
    ensures |r| == n && forall k :: k in r <==> base <= k < base + n
  {
    if n == 0 then {} else Range(base, n - 1) + {base + n - 1}
  }

  lemma AllGot(base: int, n: nat, got: set<int>)
    requires |got| == n && forall k :: k in got ==> base <= k < base + n
    ensures Covers(got, base, base + n)
  {
    var all := Range(base, n);
    assert all == got + (all - got);
    assert |all - got| == 0;
  }
}
