/**
The registry run in place: the mixer's stream list (engine/internal/mixer/mixer.go) and
the receiver's maps (engine/internal/transport/receiver.go).
*/
module StreamRegistry {
  import opened Common
  import opened Registry

  class MixerStreams {
    var streams: seq<Key>

    constructor ()
      ensures streams == []
    {
      streams := [];
    }

    method AddStream(id: Key) returns (ok: bool)
      modifies this
      ensures ok <==> id !in old(streams)
      ensures streams == if ok then old(streams) + [id] else old(streams)
    {
      var next := [];
      for i := 0 to |streams|
        invariant next == streams[..i] && id !in next
        invariant streams == old(streams)
      {
        if streams[i] == id { return false; }
        next := next + [streams[i]];
      }
      assert next == streams;
      streams := next + [id];
      ok := true;
    }

    method RemoveStream(id: Key) returns (removed: bool)
      modifies this
      ensures removed <==> id in old(streams)
      ensures streams == KeepOut(old(streams), {id})
    {
      var next := [];
      removed := false;
      for i := 0 to |streams|
        invariant streams == old(streams)
        invariant next == KeepOut(streams[..i], {id}) && (removed <==> id in streams[..i])
        invariant !removed ==> next == streams[..i]
      {
        assert streams[..i + 1][..i] == streams[..i];
        if streams[i] == id {
          removed := true;
        } else {
          next := next + [streams[i]];
        }
      }
      assert streams[..|streams|] == streams;
      if removed { streams := next; }
    }
  }

  class Receiver {
    const mixer: MixerStreams
    const maxStreams: nat
    var active: map<Key, Key>
    var nextStreamID: nat
    var sources: map<Addr, SourceState>
    ghost var handlers: set<Key>

    ghost function View(): (r: Reg)
      reads this, mixer
    {
      Reg(active, mixer.streams, nextStreamID, sources, handlers)
    }

    ghost predicate Valid()
      reads this, mixer
    {
      Inv(maxStreams, View())
    }

    constructor (max: nat)
      ensures fresh(mixer) && maxStreams == max && View() == START && Valid()
    {
      mixer := new MixerStreams();
      maxStreams, active, nextStreamID, sources, handlers := max, map[], 0, map[], {};
    }

    method RegisterStream(key: Key) returns (ok: bool)
      modifies this`active, mixer
      ensures (View(), ok) == Register(maxStreams, old(View()), key)
    {
      if key in active { return false; }
      if |active| >= maxStreams { return false; }
      ok := mixer.AddStream(key);
      if ok { active := active[key := key]; }
    }

    method UnregisterStream(key: Key, id: Key)
      modifies this`active, mixer
      ensures View() == Unregister(old(View()), key, id)
    {
      if key in active && active[key] == id {
        active := active - {key};
        var _ := mixer.RemoveStream(id);
      }
    }

    method HandleHello(src: Addr, formatOk: bool, now: int) returns (ok: bool)
      requires Valid()
      modifies this, mixer
      ensures (View(), ok) == Next(maxStreams, old(View()), Hello(src, formatOk, now)) && Valid()
    {
      HelloKeeps(maxStreams, View(), src, formatOk, now);
      if !formatOk { return false; }
      if src in sources {
        sources := sources[src := sources[src].(lastSeen := now)];
        return true;
      }
      var key := Udp(src);
      ok := RegisterStream(key);
      if !ok { return; }
      sources := sources[src := SourceState(key, now)];
    }

    /** The registry's part of handleUDPAudio. */
    method HandleAudio(src: Addr, aligned: bool, now: int) returns (known: bool)
      requires Valid()
      modifies this`sources
      ensures (View(), known) == Next(maxStreams, old(View()), Audio(src, aligned, now)) && Valid()
    {
      AudioKeeps(maxStreams, View(), src, aligned, now);
      if src !in sources { return false; }
      if !aligned { return false; }
      sources := sources[src := sources[src].(lastSeen := now)];
      known := true;
    }

    /** One source's stream is given back and the source forgotten. */
    method ForgetSource(src: Addr)
      requires src in sources
      modifies this`active, this`sources, mixer
      ensures View() == Dropped(old(View()), src)
    {
      UnregisterStream(Udp(src), sources[src].stream);
      sources := sources - {src};
    }

    method CleanupIdle(now: int)
      requires Valid()
      modifies this, mixer
      ensures View() == Next(maxStreams, old(View()), Cleanup(now)).0 && Valid()
    {
      InvOwned(maxStreams, View());
      ForgetKeeps(maxStreams, View(), Idle(View(), now));
      SweepIdle(now);
    }

    method SweepIdle(now: int)
      requires Owned(View())
      modifies this, mixer
      ensures View() == Forget(old(View()), Idle(old(View()), now))
    {
      ghost var was, gone := View(), {};
      ForgetNone(was);
      var todo := sources.Keys;
      while todo != {}
        invariant todo <= was.sources.Keys && gone == Idle(was, now) - todo
        invariant View() == Forget(was, gone)
        decreases |todo|
      {
        var src :| src in todo;
        OneLess(Idle(was, now), todo, src);
        todo := todo - {src};
        ForgetOne(was, gone, src);
        assert sources[src] == was.sources[src];
        if now - sources[src].lastSeen > IDLE_TIMEOUT {
          ForgetSource(src);
          gone := gone + {src};
        }
      }
      assert gone == Idle(was, now);
    }

    /** The end of the UDP receive loop. */
    method LoopEnd()
      requires Valid()
      modifies this, mixer
      ensures View() == Next(maxStreams, old(View()), LoopEnds).0 && Valid()
    {
      InvOwned(maxStreams, View());
      ForgetKeeps(maxStreams, View(), sources.Keys);
      SweepAll();
    }

    method SweepAll()
      requires Owned(View())
      modifies this, mixer
      ensures View() == Forget(old(View()), old(sources).Keys)
    {
      ghost var was, gone := View(), {};
      ForgetNone(was);
      var todo := sources.Keys;
      while todo != {}
        invariant todo <= was.sources.Keys && gone == was.sources.Keys - todo
        invariant View() == Forget(was, gone)
        decreases |todo|
      {
        var src :| src in todo;
        OneLess(was.sources.Keys, todo, src);
        todo := todo - {src};
        ForgetOne(was, gone, src);
        ForgetSource(src);
        gone := gone + {src};
      }
    }

    /** A TCP connection whose handshake is in order. */
    method Connected(remote: Addr) returns (key: Key, ok: bool)
      requires Valid()
      modifies this, mixer
      ensures (View(), ok) == Next(maxStreams, old(View()), Connect(remote)) && Valid()
      ensures ok ==> key in handlers
    {
      ConnectKeeps(maxStreams, View(), remote);
      nextStreamID := nextStreamID + 1;
      key := Tcp(remote, nextStreamID);
      ok := RegisterStream(key);
      if ok { handlers := handlers + {key}; }
    }

    /** The deferred end of a connection that holds a stream. */
    method Closed(key: Key)
      requires Valid() && key in handlers
      modifies this, mixer
      ensures View() == Next(maxStreams, old(View()), Close(key)).0 && Valid()
    {
      CloseKeeps(maxStreams, View(), key);
      UnregisterStream(key, key);
      handlers := handlers - {key};
    }
  }

  function Dropped(r: Reg, src: Addr): (r': Reg)
    requires src in r.sources
  {
    Unregister(r, Udp(src), r.sources[src].stream).(sources := r.sources - {src})
  }

  /** Every source owns the stream registered under its key. */
  ghost predicate Owned(r: Reg)
  {
    forall src :: src in r.sources ==>
      r.sources[src].stream == Udp(src) && Udp(src) in r.active && r.active[Udp(src)] == Udp(src)
  }

  lemma InvOwned(max: nat, r: Reg)
    requires Inv(max, r)
    ensures Owned(r)
  {
  }

  /** Dropping sources one by one is forgetting them all at once. */
  lemma ForgetOne(was: Reg, gone: set<Addr>, src: Addr)
    requires Owned(was) && src in was.sources && src !in gone
    ensures src in Forget(was, gone).sources && Forget(was, gone).sources[src] == was.sources[src]
    ensures Dropped(Forget(was, gone), src) == Forget(was, gone + {src})
  {
    var r := Forget(was, gone);
    KeepOutTwice(was.streams, UdpKeys(gone), {Udp(src)});
    assert UdpKeys(gone + {src}) == UdpKeys(gone) + {Udp(src)};
    assert Udp(src) !in UdpKeys(gone);
    MinusTwice(was.active, UdpKeys(gone), {Udp(src)});
    MinusTwice(was.sources, gone, {src});
  }

  lemma OneLess<T>(all: set<T>, todo: set<T>, x: T)
    requires x in todo
    ensures all - (todo - {x}) == if x in all then all - todo + {x} else all - todo
  {
  }

  lemma MinusTwice<K, V>(m: map<K, V>, a: set<K>, b: set<K>)
    ensures m - a - b == m - (a + b)
  {
  }

  lemma ForgetNone(r: Reg)
    ensures Forget(r, {}) == r
  {
    KeepOutNone(r.streams);
    assert UdpKeys({}) == {};
    assert r.active - {} == r.active && r.sources - {} == r.sources;
  }
}
