/**
The 32-bit window refines one whose sequence numbers never wrap, and on that
window reordering is shown to be invisible (engine/internal/engine/media.go).
*/
module WindowRefinement {
  import opened Common
  import opened Window
  import opened WindowRuns

  /** The window over unbounded numbers. */
  datatype UWin = UWin(
    seen: bool,
    next: int,
    held: map<int, Wire>,
    sink: Sink,
    counts: Counts)

  const EMPTY_U_WIN := UWin(false, 0, map[], EMPTY_SINK, EMPTY_COUNTS)

  datatype UEvent = UPacket(n: int, wire: Wire, due: bool) | UTick

  ghost predicate Ahead(u: UWin)
  {
    forall k :: k in u.held ==> u.next <= k
  }

  ghost function USpan(u: UWin): (n: nat)
    requires Ahead(u)
  {
    Bound(set k | k in u.held :: (k - u.next) as nat)
  }

  function UFollowing(u: UWin): (r: Option<Wire>)
  {
    if u.next + 1 in u.held then Some(u.held[u.next + 1]) else None
  }

  function UAdvance(c: Codec, u: UWin): (r: UWin)
  {
    if u.next in u.held then
      u.(held := u.held - {u.next}, next := u.next + 1, sink := EmitReal(c, u.sink, u.held[u.next]))
    else
      u.(next := u.next + 1, sink := Conceal(c, u.sink, UFollowing(u)))
  }

  predicate UStops(u: UWin, force: bool)
  {
    u.next !in u.held && (|u.held| == 0 || !force)
  }

  lemma USpanAdvance(c: Codec, u: UWin)
    requires Ahead(u) && |u.held| > 0
    ensures Ahead(UAdvance(c, u)) && USpan(UAdvance(c, u)) < USpan(u)
  {
    var k0 := SomeKey(u.held);
    var u' := UAdvance(c, u);
    var ds := set k | k in u.held :: (k - u.next) as nat;
    var ds' := set k | k in u'.held :: (k - u'.next) as nat;
    assert (k0 - u.next) as nat in ds;
    forall d | d in ds' ensures d + 1 in ds {
      var k :| k in u'.held && (k - u'.next) as nat == d;
      assert (k - u.next) as nat in ds;
    }
  }

  /** Without `Ahead` the forced loop over unbounded numbers would not end. */
  function UFlushLoop(c: Codec, u: UWin, force: bool): (r: UWin)
    requires Ahead(u)
    ensures Ahead(r)
    decreases USpan(u)
  {
    if UStops(u, force) then u
    else
      USpanAdvance(c, u);
      UFlushLoop(c, UAdvance(c, u), force)
  }

  function UHold(u: UWin, n: int, wire: Wire): (r: UWin)
  {
    var kept := |u.held| < WINDOW_CAP;
    u.(held := if kept then u.held[n := wire] else u.held, counts := SawFuture(u.counts, kept))
  }

  function UTake(c: Codec, u: UWin, wire: Wire): (r: UWin)
  {
    u.(next := u.next + 1, sink := EmitReal(c, u.sink, wire))
  }

  /** A packet fits when its true number is within 2^31 of the next one and it is not
      another copy of a held packet that is next to go out. */
  ghost predicate Fits(u: UWin, e: UEvent)
  {
    && Ahead(u)
    && (e.UPacket? && u.seen ==> -HALF <= e.n - u.next < HALF && !(e.n == u.next && e.n in u.held))
  }

  function UStep(c: Codec, u: UWin, e: UEvent): (r: UWin)
    requires Fits(u, e)
    ensures Ahead(r)
  {
    match e
    case UTick => if u.seen then UFlushLoop(c, u, true) else u
    case UPacket(n, wire, due) =>
      var u := u.(counts := Saw(u.counts));
      if !u.seen then UTake(c, u.(seen := true, next := n, held := map[]), wire)
      else if n < u.next then u.(counts := SawLate(u.counts))
      else
        var u := if n == u.next then UTake(c, u, wire) else UHold(u, n, wire);
        if due then UFlushLoop(c, u, false) else u
  }

  /** Every packet fits at its turn. */
  ghost predicate Admissible(c: Codec, u: UWin, es: seq<UEvent>)
    decreases |es|
  {
    es == [] || (Fits(u, es[0]) && Admissible(c, UStep(c, u, es[0]), es[1..]))
  }

  ghost function URun(c: Codec, u: UWin, es: seq<UEvent>): (r: UWin)
    requires Admissible(c, u, es)
    decreases |es|
  {
    if es == [] then u else URun(c, UStep(c, u, es[0]), es[1..])
  }

  /** What the wire carries: the low 32 bits of the number. */
  function Low(n: int): (s: Seq32)
  {
    n % SEQ_MOD
  }

  function OnWire(e: UEvent): (r: Event)
  {
    if e.UTick? then TickEvent else Packet(Low(e.n), e.wire, e.due)
  }

  function AllOnWire(es: seq<UEvent>): (r: seq<Event>)
    ensures |r| == |es| && forall i :: 0 <= i < |es| ==> r[i] == OnWire(es[i])
  {
    seq(|es|, i requires 0 <= i < |es| => OnWire(es[i]))
  }

  // ---- the simulation

  ghost predicate HeldMatches(u: UWin, w: Win)
  {
    && w.nextSeq == Low(u.next)
    && (forall k :: k in u.held ==>
          0 <= k - u.next < HALF && Low(k) in w.held && w.held[Low(k)] == u.held[k])
    && (forall s :: s in w.held ==> exists k :: k in u.held && Low(k) == s)
  }

  ghost predicate Matches(u: UWin, w: Win)
  {
    && u.seen == w.seen && u.sink == w.sink && u.counts == w.counts
    && (u.seen ==> HeldMatches(u, w))
    && (!u.seen ==> u.held == map[] && w.held == map[])
  }

  lemma LowInjective(k: int, k': int)
    requires -SEQ_MOD < k - k' < SEQ_MOD && Low(k) == Low(k')
    ensures k == k'
  {
  }

  lemma HeldSameSize(u: UWin, w: Win)
    requires HeldMatches(u, w)
    ensures |u.held| == |w.held|
  {
    forall k, k' | k in u.held.Keys && k' in u.held.Keys && Low(k) == Low(k') ensures k == k' {
      LowInjective(k, k');
    }
    SameSize(u.held.Keys, w.held.Keys, Low);
  }

  lemma HeldAt(u: UWin, w: Win, n: int)
    requires HeldMatches(u, w) && 0 <= n - u.next < SEQ_MOD
    ensures n in u.held <==> Low(n) in w.held
    ensures n in u.held ==> u.held[n] == w.held[Low(n)]
  {
    if Low(n) in w.held {
      var k :| k in u.held && Low(k) == Low(n);
      LowInjective(k, n);
    }
  }

  lemma HeldBelow(u: UWin, w: Win, k: int)
    requires HeldMatches(u, w) && k in u.held && k != u.next
    ensures Low(k) in w.held - {w.nextSeq} && (w.held - {w.nextSeq})[Low(k)] == u.held[k]
  {
    if Low(k) == w.nextSeq { LowInjective(k, u.next); }
  }

  /** Removing the next number, if held, and moving on keeps the correspondence. */
  lemma HeldMatchesNext(u: UWin, w: Win, u': UWin, w': Win)
    requires HeldMatches(u, w)
    requires u'.next == u.next + 1 && w'.nextSeq == Succ(w.nextSeq)
    requires u'.held == u.held - {u.next} && w'.held == w.held - {w.nextSeq}
    ensures HeldMatches(u', w')
  {
    forall k | k in u'.held
      ensures 0 <= k - u'.next < HALF && Low(k) in w'.held && w'.held[Low(k)] == u'.held[k]
    {
      HeldBelow(u, w, k);
    }
    forall s | s in w'.held ensures exists k :: k in u'.held && Low(k) == s {
      var k :| k in u.held && Low(k) == s;
      assert k in u'.held;
    }
    LowSucc(u.next);
  }

  lemma LowSucc(n: int)
    ensures Low(n + 1) == Succ(Low(n))
  {
  }

  lemma SimAdvance(c: Codec, u: UWin, w: Win)
    requires u.seen && Matches(u, w)
    ensures Matches(UAdvance(c, u), Advance(c, w))
  {
    HeldAt(u, w, u.next);
    HeldAt(u, w, u.next + 1);
    LowSucc(u.next);
    var u', w' := UAdvance(c, u), Advance(c, w);
    assert u.next !in u.held ==> u.held - {u.next} == u.held && w.held - {w.nextSeq} == w.held;
    HeldMatchesNext(u, w, u', w');
  }

  lemma {:induction false} SimFlush(c: Codec, u: UWin, w: Win, force: bool)
    requires u.seen && Matches(u, w) && Ahead(u)
    ensures Matches(UFlushLoop(c, u, force), FlushLoop(c, w, force))
    decreases USpan(u)
  {
    HeldAt(u, w, u.next);
    HeldSameSize(u, w);
    if !UStops(u, force) {
      USpanAdvance(c, u);
      SpanAdvance(c, w);
      SimAdvance(c, u, w);
      SimFlush(c, UAdvance(c, u), Advance(c, w), force);
    }
  }

  /** The int32 test tells late, next and future packets apart. */
  lemma DeltaClassifies(n: int, next: int)
    requires -HALF <= n - next < HALF
    ensures Delta(Low(n), Low(next)) == n - next
  {
  }

  lemma SimHold(u: UWin, w: Win, n: int, wire: Wire)
    requires u.seen && Matches(u, w) && 0 < n - u.next < HALF
    ensures Matches(UHold(u, n, wire), Hold(w, Low(n), wire))
  {
    HeldSameSize(u, w);
    var u', w' := UHold(u, n, wire), Hold(w, Low(n), wire);
    if |u.held| < WINDOW_CAP {
      forall k | k in u'.held
        ensures 0 <= k - u'.next < HALF && Low(k) in w'.held && w'.held[Low(k)] == u'.held[k]
      {
        if Low(k) == Low(n) { LowInjective(k, n); }
      }
      forall s | s in w'.held ensures exists k :: k in u'.held && Low(k) == s {
        if s == Low(n) { assert n in u'.held; }
        else { var k :| k in u.held && Low(k) == s; assert k in u'.held; }
      }
    }
  }

  lemma SimTake(c: Codec, u: UWin, w: Win, wire: Wire)
    requires u.seen && Matches(u, w) && u.next !in u.held
    ensures Matches(UTake(c, u, wire), Take(c, w, wire))
  {
    HeldAt(u, w, u.next);
    assert u.held - {u.next} == u.held && w.held - {w.nextSeq} == w.held;
    HeldMatchesNext(u, w, UTake(c, u, wire), Take(c, w, wire));
  }

  lemma SimNext(c: Codec, u: UWin, w: Win, wire: Wire, due: bool)
    requires u.seen && Ahead(u) && u.next !in u.held && Matches(u, w)
    ensures Matches(UStep(c, u, UPacket(u.next, wire, due)), Accept(c, w, w.nextSeq, wire, due))
  {
    var u1, w1 := u.(counts := Saw(u.counts)), w.(counts := Saw(w.counts));
    assert HeldMatches(u1, w1);
    SimTake(c, u1, w1, wire);
    if due {
      SimFlush(c, UTake(c, u1, wire), Take(c, w1, wire), false);
    }
  }

  lemma SimFuture(c: Codec, u: UWin, w: Win, n: int, wire: Wire, due: bool)
    requires u.seen && Ahead(u) && 0 < n - u.next < HALF && Matches(u, w)
    requires Fits(u, UPacket(n, wire, due))
    ensures Matches(UStep(c, u, UPacket(n, wire, due)), Accept(c, w, Low(n), wire, due))
  {
    DeltaClassifies(n, u.next);
    var u1, w1 := u.(counts := Saw(u.counts)), w.(counts := Saw(w.counts));
    assert HeldMatches(u1, w1);
    SimHold(u1, w1, n, wire);
    if due { SimFlush(c, UHold(u1, n, wire), Hold(w1, Low(n), wire), false); }
  }

  lemma SimPacket(c: Codec, u: UWin, w: Win, n: int, wire: Wire, due: bool)
    requires u.seen && Fits(u, UPacket(n, wire, due)) && Matches(u, w)
    ensures Matches(UStep(c, u, UPacket(n, wire, due)), Accept(c, w, Low(n), wire, due))
  {
    if n == u.next {
      SimNext(c, u, w, wire, due);
    } else if n > u.next {
      SimFuture(c, u, w, n, wire, due);
    } else {
      DeltaClassifies(n, u.next);
    }
  }

  lemma SimStep(c: Codec, u: UWin, w: Win, e: UEvent)
    requires Fits(u, e) && Matches(u, w)
    ensures Matches(UStep(c, u, e), Step(c, w, OnWire(e)))
  {
    if u.seen {
      if e.UTick? { SimFlush(c, u, w, true); }
      else { SimPacket(c, u, w, e.n, e.wire, e.due); }
    } else if e.UPacket? {
      assert Low(e.n + 1) == Succ(Low(e.n));
    }
  }

  function RunFrom(c: Codec, w: Win, es: seq<Event>): (r: Win)
    decreases |es|
  {
    if es == [] then w else RunFrom(c, Step(c, w, es[0]), es[1..])
  }

  lemma {:induction false} RunSplit(c: Codec, es: seq<Event>, k: nat)
    requires k <= |es|
    ensures Run(c, es) == RunFrom(c, Run(c, es[..k]), es[k..])
    decreases |es| - k
  {
    if k == |es| {
      assert es[..k] == es && es[k..] == [];
    } else {
      RunSplit(c, es, k + 1);
      var p := es[..k + 1];
      assert p[..|p| - 1] == es[..k] && p[|p| - 1] == es[k..][0];
      assert es[k..][1..] == es[k + 1..];
    }
  }

  lemma {:induction false} RefinesFrom(c: Codec, u: UWin, w: Win, es: seq<UEvent>)
    requires Admissible(c, u, es) && Matches(u, w)
    ensures Matches(URun(c, u, es), RunFrom(c, w, AllOnWire(es)))
    decreases |es|
  {
    if es != [] {
      SimStep(c, u, w, es[0]);
      assert AllOnWire(es)[1..] == AllOnWire(es[1..]);
      RefinesFrom(c, UStep(c, u, es[0]), Step(c, w, OnWire(es[0])), es[1..]);
    }
  }

  /** THEOREM (refinement). While every arrival's true number is within 2^31 of the
      next one and none is another copy of a held packet that is next to go out, the
      32-bit window fed the low 32 bits emits the same slots and PCM and counts the same
      as the window whose numbers never wrap, across any number of wraparounds. */
  lemma Refines(c: Codec, es: seq<UEvent>)
    requires Admissible(c, EMPTY_U_WIN, es)
    ensures Matches(URun(c, EMPTY_U_WIN, es), Run(c, AllOnWire(es)))
  {
    RefinesFrom(c, EMPTY_U_WIN, EMPTY_WIN, es);
    var ws := AllOnWire(es);
    RunSplit(c, ws, 0);
    assert ws[..0] == [] && ws[0..] == ws;
  }
}
