/**
The stream registry of the v1 receiver (engine/internal/transport/receiver.go) and the
mixer's stream list (engine/internal/mixer/mixer.go), which it has to agree with.
Stream keys are values here; their texts, which the program uses, tell them apart.
Whether a handshake's format matches, whether a payload is frame-aligned and the time
are parameters of the step.
*/
module Registry {
  import opened Common

  /** An address and port, and the key of a UDP source or of the n-th TCP connection. */
  datatype Addr = Addr(ip: nat, port: nat)
  datatype Key = Udp(src: Addr) | Tcp(remote: Addr, n: nat)

  const IDLE_TIMEOUT := 2_000_000_000

  // ---- keys as texts

  function Digits(n: nat): (s: string)
    ensures |s| > 0 && forall i :: 0 <= i < |s| ==> s[i] != '#'
  {
    var d := ('0' as int + n % 10) as char;
    if n < 10 then [d] else Digits(n / 10) + [d]
  }

  lemma {:induction false} DigitsInjective(m: nat, n: nat)
    requires Digits(m) == Digits(n)
    ensures m == n
  {
    var a, b := Digits(m), Digits(n);
    assert a[|a| - 1] == b[|b| - 1];
    if m >= 10 && n >= 10 {
      assert a[..|a| - 1] == Digits(m / 10) && b[..|b| - 1] == Digits(n / 10);
      DigitsInjective(m / 10, n / 10);
    }
  }

  /** The text of a key, given how addresses are written. */
  function Text(show: Addr -> string, k: Key): (t: string)
    ensures |t| > 0
  {
    match k
    case Udp(src) => "udp:" + show(src)
    case Tcp(remote, n) => "tcp:" + show(remote) + "#" + Digits(n)
  }

  /** Nothing behind the last '#' is a '#', so it splits a key in one way. */
  lemma LastHash(a: string, b: string, d: string, e: string)
    requires a + "#" + d == b + "#" + e
    requires (forall i :: 0 <= i < |d| ==> d[i] != '#') && (forall i :: 0 <= i < |e| ==> e[i] != '#')
    ensures d == e
  {
    var s, t := a + "#" + d, b + "#" + e;
    assert s[|a|] == '#' && t[|b|] == '#';
    assert s[|a| + 1..] == d && t[|b| + 1..] == e;
  }

  /** THEOREM (keys). If no two addresses are written alike, two keys have one text only
      if they are the same source, or connections with the same number. */
  lemma TextsDiffer(show: Addr -> string, k: Key, k': Key)
    requires forall a, b :: show(a) == show(b) ==> a == b
    requires Text(show, k) == Text(show, k')
    ensures k == k' || (k.Tcp? && k'.Tcp? && k.n == k'.n)
  {
    assert Text(show, k)[0] == if k.Udp? then 'u' else 't';
    assert Text(show, k')[0] == if k'.Udp? then 'u' else 't';
    match k
    case Udp(src) =>
      assert Text(show, k)[4..] == show(src) && Text(show, k')[4..] == show(k'.src);
    case Tcp(remote, n) =>
      LastHash("tcp:" + show(remote), "tcp:" + show(k'.remote), Digits(n), Digits(k'.n));
      DigitsInjective(n, k'.n);
  }

  // ---- the mixer's list

  /** The list without the given ids, in order. */
  function KeepOut(s: seq<Key>, ids: set<Key>): (r: seq<Key>)
  {
    if s == [] then []
    else
      var n := |s| - 1;
      if s[n] in ids then KeepOut(s[..n], ids) else KeepOut(s[..n], ids) + [s[n]]
  }

  ghost predicate Distinct(s: seq<Key>)
  {
    forall i, j :: 0 <= i < j < |s| ==> s[i] != s[j]
  }

  lemma {:induction false} KeepOutMembers(s: seq<Key>, ids: set<Key>)
    ensures forall k :: k in KeepOut(s, ids) <==> k in s && k !in ids
  {
    if s != [] {
      KeepOutMembers(s[..|s| - 1], ids);
      assert s == s[..|s| - 1] + [s[|s| - 1]];
    }
  }

  lemma {:induction false} KeepOutDistinct(s: seq<Key>, ids: set<Key>)
    requires Distinct(s)
    ensures Distinct(KeepOut(s, ids))
  {
    if s != [] {
      var n := |s| - 1;
      KeepOutDistinct(s[..n], ids);
      KeepOutMembers(s[..n], ids);
    }
  }

  lemma {:induction false} KeepOutTwice(s: seq<Key>, a: set<Key>, b: set<Key>)
    ensures KeepOut(KeepOut(s, a), b) == KeepOut(s, a + b)
  {
    if s != [] {
      var n := |s| - 1;
      KeepOutTwice(s[..n], a, b);
      var kept := KeepOut(s[..n], a);
      assert (kept + [s[n]])[..|kept|] == kept;
    }
  }

  lemma {:induction false} KeepOutNone(s: seq<Key>)
    ensures KeepOut(s, {}) == s
  {
    if s != [] {
      KeepOutNone(s[..|s| - 1]);
      assert s == s[..|s| - 1] + [s[|s| - 1]];
    }
  }

  // ---- the registry and its steps

  datatype SourceState = SourceState(stream: Key, lastSeen: int)

  /** handlers: the keys of the TCP connections that hold a stream. */
  datatype Reg = Reg(
    active: map<Key, Key>, streams: seq<Key>, nextStreamID: nat,
    sources: map<Addr, SourceState>, handlers: set<Key>)

  const START := Reg(map[], [], 0, map[], {})

  /** AddStream fails for an id the mixer already has; no key's text is empty. */
  predicate Addable(r: Reg, id: Key)
  {
    id !in r.streams
  }

  function Register(max: nat, r: Reg, key: Key): (res: (Reg, bool))
  {
    if key in r.active || |r.active| >= max || !Addable(r, key) then (r, false)
    else (r.(active := r.active[key := key], streams := r.streams + [key]), true)
  }

  function Unregister(r: Reg, key: Key, id: Key): (r': Reg)
  {
    if key in r.active && r.active[key] == id then
      r.(active := r.active - {key}, streams := KeepOut(r.streams, {id}))
    else r
  }

  datatype Event =
    | Hello(src: Addr, formatOk: bool, now: int)
    | Audio(src: Addr, aligned: bool, now: int)
    | Cleanup(now: int)
    | Connect(remote: Addr)
    | Close(key: Key)
    | LoopEnds

  function Idle(r: Reg, now: int): (gone: set<Addr>)
    ensures gone <= r.sources.Keys
  {
    set src | src in r.sources && now - r.sources[src].lastSeen > IDLE_TIMEOUT
  }

  function UdpKeys(srcs: set<Addr>): (ks: set<Key>)
  {
    set src | src in srcs :: Udp(src)
  }

  /** All the given sources are unregistered and forgotten. */
  function Forget(r: Reg, gone: set<Addr>): (r': Reg)
  {
    r.(active := r.active - UdpKeys(gone), streams := KeepOut(r.streams, UdpKeys(gone)), sources := r.sources - gone)
  }

  function OnHello(max: nat, r: Reg, src: Addr, formatOk: bool, now: int): (res: (Reg, bool))
  {
    if !formatOk then (r, false)
    else if src in r.sources then (Seen(r, src, now), true)
    else
      var (r', ok) := Register(max, r, Udp(src));
      if ok then (r'.(sources := r.sources[src := SourceState(Udp(src), now)]), true) else (r', false)
  }

  function Seen(r: Reg, src: Addr, now: int): (r': Reg)
    requires src in r.sources
  {
    r.(sources := r.sources[src := r.sources[src].(lastSeen := now)])
  }

  function OnAudio(r: Reg, src: Addr, aligned: bool, now: int): (res: (Reg, bool))
  {
    if src in r.sources && aligned then (Seen(r, src, now), true) else (r, false)
  }

  function Numbered(r: Reg): (r': Reg)
  {
    r.(nextStreamID := r.nextStreamID + 1)
  }

  function OnConnect(max: nat, r: Reg, remote: Addr): (res: (Reg, bool))
  {
    var key := Tcp(remote, r.nextStreamID + 1);
    var (r', ok) := Register(max, Numbered(r), key);
    (if ok then r'.(handlers := r.handlers + {key}) else r', ok)
  }

  function OnClose(r: Reg, key: Key): (res: (Reg, bool))
  {
    if key in r.handlers then (Unregister(r, key, key).(handlers := r.handlers - {key}), true) else (r, false)
  }

  function Next(max: nat, r: Reg, e: Event): (res: (Reg, bool))
  {
    match e
    case Hello(src, formatOk, now) => OnHello(max, r, src, formatOk, now)
    case Audio(src, aligned, now) => OnAudio(r, src, aligned, now)
    case Cleanup(now) => (Forget(r, Idle(r, now)), true)
    case Connect(remote) => OnConnect(max, r, remote)
    case Close(key) => OnClose(r, key)
    case LoopEnds => (Forget(r, r.sources.Keys), true)
  }

  function After(max: nat, r: Reg, es: seq<Event>): (r': Reg)
    decreases |es|
  {
    if es == [] then r else After(max, Next(max, r, es[0]).0, es[1..])
  }

  // ---- the invariant

  /** The registry and the mixer hold the same distinct ids, at most max of them. */
  ghost predicate Mirrors(max: nat, active: map<Key, Key>, streams: seq<Key>)
  {
    && |active| <= max && Distinct(streams)
    && (forall k :: k in active <==> k in streams)
    && (forall k :: k in active ==> active[k] == k)
  }

  /** A UDP key is registered exactly for the known sources, each with its own. */
  ghost predicate SourcesRegistered(active: map<Key, Key>, sources: map<Addr, SourceState>)
  {
    && (forall src {:trigger Udp(src)} :: Udp(src) in active <==> src in sources)
    && (forall src {:trigger sources[src]} :: src in sources ==> sources[src].stream == Udp(src))
  }

  ghost predicate HandlersRegistered(active: map<Key, Key>, handlers: set<Key>, next: nat)
  {
    && handlers <= active.Keys
    && (forall src :: Udp(src) !in handlers)
    && (forall remote, n :: n > next ==> Tcp(remote, n) !in active)
  }

  ghost predicate Inv(max: nat, r: Reg)
  {
    && Mirrors(max, r.active, r.streams) && SourcesRegistered(r.active, r.sources)
    && HandlersRegistered(r.active, r.handlers, r.nextStreamID)
  }

  lemma ForgetKeeps(max: nat, r: Reg, gone: set<Addr>)
    requires Inv(max, r) && gone <= r.sources.Keys
    ensures Inv(max, Forget(r, gone))
  {
    var r' := Forget(r, gone);
    KeepOutMembers(r.streams, UdpKeys(gone));
    KeepOutDistinct(r.streams, UdpKeys(gone));
    SubsetSize(r'.active.Keys, r.active.Keys);
  }

  lemma RegisterMirrors(max: nat, r: Reg, key: Key)
    requires Mirrors(max, r.active, r.streams)
    ensures Mirrors(max, Register(max, r, key).0.active, Register(max, r, key).0.streams)
    ensures Register(max, r, key).1 <==> key !in r.active && |r.active| < max
  {
  }

  lemma HelloKeeps(max: nat, r: Reg, src: Addr, formatOk: bool, now: int)
    requires Inv(max, r)
    ensures Inv(max, OnHello(max, r, src, formatOk, now).0)
  {
    RegisterMirrors(max, r, Udp(src));
  }

  lemma ConnectKeeps(max: nat, r: Reg, remote: Addr)
    requires Inv(max, r)
    ensures Inv(max, OnConnect(max, r, remote).0)
  {
    RegisterMirrors(max, Numbered(r), Tcp(remote, Numbered(r).nextStreamID));
  }

  lemma CloseKeeps(max: nat, r: Reg, key: Key)
    requires Inv(max, r)
    ensures Inv(max, OnClose(r, key).0)
  {
    KeepOutMembers(r.streams, {key});
    KeepOutDistinct(r.streams, {key});
    SubsetSize((r.active - {key}).Keys, r.active.Keys);
  }

  lemma AudioKeeps(max: nat, r: Reg, src: Addr, aligned: bool, now: int)
    requires Inv(max, r)
    ensures Inv(max, OnAudio(r, src, aligned, now).0)
  {
  }

  lemma StepKeeps(max: nat, r: Reg, e: Event)
    requires Inv(max, r)
    ensures Inv(max, Next(max, r, e).0)
  {
    match e
    case Hello(src, formatOk, now) => HelloKeeps(max, r, src, formatOk, now);
    case Audio(src, aligned, now) => AudioKeeps(max, r, src, aligned, now);
    case Cleanup(now) => ForgetKeeps(max, r, Idle(r, now));
    case Connect(remote) => ConnectKeeps(max, r, remote);
    case Close(key) => CloseKeeps(max, r, key);
    case LoopEnds => ForgetKeeps(max, r, r.sources.Keys);
  }

  lemma {:induction false} RunKeeps(max: nat, r: Reg, es: seq<Event>)
    requires Inv(max, r)
    ensures Inv(max, After(max, r, es))
    decreases |es|
  {
    if es != [] {
      StepKeeps(max, r, es[0]);
      RunKeeps(max, Next(max, r, es[0]).0, es[1..]);
    }
  }

  lemma HelloAdmitted(max: nat, r: Reg, src: Addr, now: int)
    requires Inv(max, r)
    ensures OnHello(max, r, src, true, now).1 <==> src in r.sources || |r.active| < max
  {
    RegisterMirrors(max, r, Udp(src));
  }

  lemma ConnectAdmitted(max: nat, r: Reg, remote: Addr)
    requires Inv(max, r)
    ensures OnConnect(max, r, remote).1 <==> |r.active| < max
  {
    RegisterMirrors(max, Numbered(r), Tcp(remote, r.nextStreamID + 1));
  }

  /** THEOREM (registry). After any events the active ids are the mixer's ids, pairwise
      distinct and at most max of them, and every UDP source's stream is one of them. */
  lemma RegistryMirrorsMixer(max: nat, es: seq<Event>, src: Addr)
    ensures var r := After(max, START, es);
            && Distinct(r.streams) && |r.active| <= max
            && (forall k :: k in r.active <==> k in r.streams)
            && (src in r.sources ==> r.sources[src].stream == Udp(src) && Udp(src) in r.streams)
  {
    RunKeeps(max, START, es);
  }

  /** THEOREM (refused only when full). After any events, a well-formed hello and a
      connection are refused exactly when max streams are active; a key AddStream would
      reject as a duplicate never reaches it. */
  lemma RefusedOnlyWhenFull(max: nat, es: seq<Event>, src: Addr, now: int, remote: Addr)
    ensures var r := After(max, START, es);
            && (Next(max, r, Hello(src, true, now)).1 <==> src in r.sources || |r.active| < max)
            && (Next(max, r, Connect(remote)).1 <==> |r.active| < max)
            && (forall k :: k !in r.active ==> Addable(r, k))
  {
    RunKeeps(max, START, es);
    var r := After(max, START, es);
    HelloAdmitted(max, r, src, now);
    ConnectAdmitted(max, r, remote);
  }

  // ---- who holds a stream, event by event

  /** When src was last heard: its last hello in a matching format or aligned audio. */
  function LastHeard(heard: Option<int>, es: seq<Event>, src: Addr): (t: Option<int>)
    decreases |es|
  {
    if es == [] then heard else LastHeard(Hears(heard, es[0], src), es[1..], src)
  }

  function Hears(heard: Option<int>, e: Event, src: Addr): (t: Option<int>)
  {
    match e
    case Hello(a, ok, now) => if a == src && ok then Some(now) else heard
    case Audio(a, aligned, now) => if a == src && aligned then Some(now) else heard
    case _ => heard
  }

  lemma OneHeard(max: nat, r: Reg, e: Event, src: Addr, heard: Option<int>)
    requires src in r.sources ==> heard == Some(r.sources[src].lastSeen)
    ensures var r' := Next(max, r, e).0;
            src in r'.sources ==> Hears(heard, e, src) == Some(r'.sources[src].lastSeen)
  {
  }

  lemma {:induction false} SeenIsHeard(max: nat, r: Reg, es: seq<Event>, src: Addr, heard: Option<int>)
    requires src in r.sources ==> heard == Some(r.sources[src].lastSeen)
    ensures var r' := After(max, r, es);
            src in r'.sources ==> LastHeard(heard, es, src) == Some(r'.sources[src].lastSeen)
    decreases |es|
  {
    if es != [] {
      OneHeard(max, r, es[0], src, heard);
      SeenIsHeard(max, Next(max, r, es[0]).0, es[1..], src, Hears(heard, es[0], src));
    }
  }

  /** THEOREM (idle sources). After any events, a cleanup forgets exactly the sources last
      heard more than two seconds ago, and keeps what it knows of the others. */
  lemma CleanupExact(max: nat, es: seq<Event>, src: Addr, now: int)
    ensures var r := After(max, START, es);
            var r' := Next(max, r, Cleanup(now)).0;
            && (src in r.sources ==> LastHeard(None, es, src) == Some(r.sources[src].lastSeen))
            && (src in r'.sources <==>
                 src in r.sources && now - LastHeard(None, es, src).value <= 2_000_000_000)
            && (src in r'.sources ==> r'.sources[src] == r.sources[src])
            && (Udp(src) in r'.streams <==> src in r'.sources)
  {
    SeenIsHeard(max, START, es, src, None);
    RunKeeps(max, START, es);
    var r := After(max, START, es);
    StepKeeps(max, r, Cleanup(now));
    assert Udp(src) in r.active <==> src in r.sources;
    var r' := Next(max, r, Cleanup(now)).0;
    assert Udp(src) in r'.active <==> src in r'.sources;
  }

  /** Whether key k holds a stream after event e. */
  ghost predicate HoldsAfter(max: nat, r: Reg, e: Event, k: Key)
  {
    match e
    case Hello(src, formatOk, _) => k in r.streams || (formatOk && k == Udp(src) && |r.streams| < max)
    case Audio(_, _, _) => k in r.streams
    case Cleanup(now) =>
      k in r.streams && !(k.Udp? && k.src in r.sources && now - r.sources[k.src].lastSeen > 2_000_000_000)
    case Connect(remote) => k in r.streams || (k == Tcp(remote, r.nextStreamID + 1) && |r.streams| < max)
    case Close(key) => k in r.streams && !(k == key && key in r.handlers)
    case LoopEnds => k in r.streams && !k.Udp?
  }

  /** THEOREM (who holds a stream). After any events, one more event gives a stream to the
      new source or connection if there is room, takes it from the idle sources, from the
      connection that closes or from all sources when their loop ends, and touches no
      other; and those that stay keep their order. */
  lemma StreamsAfter(max: nat, es: seq<Event>, e: Event, k: Key)
    ensures Changes(max, After(max, START, es), e, k)
  {
    RunKeeps(max, START, es);
    var r := After(max, START, es);
    match e
    case Hello(src, formatOk, now) => HelloChanges(max, r, src, formatOk, now, k);
    case Audio(_, _, _) =>
    case Cleanup(now) => ForgetTakes(max, r, Idle(r, now), k);
    case Connect(remote) => ConnectChanges(max, r, remote, k);
    case Close(key) => CloseChanges(max, r, key, k);
    case LoopEnds => ForgetTakes(max, r, r.sources.Keys, k);
  }

  ghost predicate Changes(max: nat, r: Reg, e: Event, k: Key)
  {
    var r' := Next(max, r, e).0;
    && (k in r'.streams <==> HoldsAfter(max, r, e, k))
    && (r.streams <= r'.streams || InOrderOf(r'.streams, r.streams))
    && r'.nextStreamID == r.nextStreamID + (if e.Connect? then 1 else 0)
  }

  lemma HelloChanges(max: nat, r: Reg, src: Addr, formatOk: bool, now: int, k: Key)
    requires Inv(max, r)
    ensures Changes(max, r, Hello(src, formatOk, now), k)
  {
    SameCount(r.active, r.streams);
    RegisterMirrors(max, r, Udp(src));
    assert Udp(src) in r.active <==> src in r.sources;
  }

  lemma ConnectChanges(max: nat, r: Reg, remote: Addr, k: Key)
    requires Inv(max, r)
    ensures Changes(max, r, Connect(remote), k)
  {
    SameCount(r.active, r.streams);
    RegisterMirrors(max, Numbered(r), Tcp(remote, r.nextStreamID + 1));
  }

  lemma CloseChanges(max: nat, r: Reg, key: Key, k: Key)
    requires Inv(max, r)
    ensures Changes(max, r, Close(key), k)
  {
    KeepOutMembers(r.streams, {key});
    KeepOutInOrder(r.streams, {key});
  }

  lemma ForgetTakes(max: nat, r: Reg, gone: set<Addr>, k: Key)
    requires Inv(max, r) && gone <= r.sources.Keys
    ensures k in Forget(r, gone).streams <==> k in r.streams && !(k.Udp? && k.src in gone)
    ensures InOrderOf(Forget(r, gone).streams, r.streams)
    ensures k.Udp? ==> (k in r.streams <==> k.src in r.sources)
  {
    KeepOutMembers(r.streams, UdpKeys(gone));
    KeepOutInOrder(r.streams, UdpKeys(gone));
    if k.Udp? {
      assert Udp(k.src) in r.active <==> k.src in r.sources;
      assert k in UdpKeys(gone) <==> k.src in gone;
    }
  }

  /** s has distinct elements of t in t's order. */
  ghost predicate InOrderOf(s: seq<Key>, t: seq<Key>)
    decreases |t|
  {
    if t == [] then s == []
    else if s != [] && s[|s| - 1] == t[|t| - 1] then InOrderOf(s[..|s| - 1], t[..|t| - 1])
    else InOrderOf(s, t[..|t| - 1])
  }

  lemma {:induction false} KeepOutInOrder(s: seq<Key>, ids: set<Key>)
    requires Distinct(s)
    ensures InOrderOf(KeepOut(s, ids), s)
  {
    if s != [] {
      var n := |s| - 1;
      KeepOutInOrder(s[..n], ids);
      KeepOutMembers(s[..n], ids);
      var kept, kept' := KeepOut(s[..n], ids), KeepOut(s, ids);
      if s[n] in ids {
        assert kept' == kept;
        if kept != [] { assert kept[|kept| - 1] in s[..n]; }
      } else {
        assert kept'[..|kept|] == kept;
      }
    }
  }

  /** As many keys are active as the mixer has streams. */
  lemma {:induction false} SameCount(active: map<Key, Key>, streams: seq<Key>)
    requires Distinct(streams) && forall k :: k in active <==> k in streams
    ensures |active| == |streams|
  {
    if streams == [] {
      assert active == map[];
    } else {
      var n := |streams| - 1;
      var k := streams[n];
      var rest := active - {k};
      forall x ensures x in rest <==> x in streams[..n] {
        if x in streams && x != k { assert x in streams[..n]; }
      }
      SameCount(rest, streams[..n]);
      assert active.Keys == rest.Keys + {k};
    }
  }
}
