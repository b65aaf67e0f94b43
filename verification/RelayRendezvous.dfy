/**
The relay rendezvous (engine/internal/relay/relay.go) as a transition system: one
goroutine per accepted connection, the map of waiting hosts they share, and the
goroutines of each splice. Every step is what one goroutine does between two points
where others can run, or what a peer does; the two mutex sections are one step each.
*/
module RelayRendezvous {
  import opened Common

  type Conn = nat
  type Id = string

  // ---- one splice

  /** Which way a copying goroutine copies: what it reads from the phone goes to the host,
      and the other way round. */
  datatype Way = ToHost | ToPhone

  /** Which of a pair of copying goroutines are still running. */
  datatype Copiers = Copiers(toHost: bool, toPhone: bool)
  {
    predicate Runs(w: Way) { if w.ToHost? then toHost else toPhone }

    function Without(w: Way): (c: Copiers)
    {
      if w.ToHost? then this.(toHost := false) else this.(toPhone := false)
    }

    function Running(): (n: nat) { (if toHost then 1 else 0) + (if toPhone then 1 else 0) }
  }

  /** Where the splice's control goroutine is: still opening the two streams; failed, with
      `left` signals to send; or done, with the two copying goroutines it has started. */
  datatype Control = Opening | Failed(left: nat) | Opened(streams: Copiers)
  {
    function Owed(): (n: nat)
    {
      match this
      case Opening => 2
      case Failed(left) => left
      case Opened(streams) => streams.Running()
    }
  }

  /** A phone's splice: its control and media goroutines, and how many completion signals
      were sent and received. */
  datatype Splice = Splice(host: Conn, control: Control, media: Copiers, sent: nat, received: nat)
  {
    function Owed(): (n: nat) { control.Owed() + media.Running() }
  }

  function NewSplice(host: Conn): (s: Splice)
  {
    Splice(host, Opening, Copiers(true, true), 0, 0)
  }

  const DONE_CAPACITY := 4
  const SIGNALS := 4

  /** A copying goroutine ends when the connection it reads from is down, or when the peer
      on that connection acts: it ends its stream, or sends what cannot be passed on. */
  datatype SpliceStep =
    | ControlOpens
    | ControlFails
    | FailedSignals
    | MediaLost(way: Way)
    | MediaEnds(way: Way)
    | StreamLost(way: Way)
    | StreamEnds(way: Way)
    | Receive

  /** What is up: the two connections, and the relay's own context. */
  datatype Line = Line(hostUp: bool, phoneUp: bool, cancelled: bool)
  {
    predicate SourceUp(w: Way) { if w.ToHost? then phoneUp else hostUp }
  }

  predicate HasRoom(s: Splice) { s.sent - s.received < DONE_CAPACITY }

  predicate CanSplice(s: Splice, line: Line, step: SpliceStep)
  {
    match step
    case ControlOpens => s.control.Opening? && line.hostUp && line.phoneUp
    case ControlFails => s.control.Opening? && !(line.hostUp && line.phoneUp && !line.cancelled)
    case FailedSignals => s.control.Failed? && s.control.left > 0 && HasRoom(s)
    case MediaLost(w) => s.media.Runs(w) && !line.SourceUp(w) && HasRoom(s)
    case MediaEnds(w) => s.media.Runs(w) && line.SourceUp(w) && HasRoom(s)
    case StreamLost(w) => s.control.Opened? && s.control.streams.Runs(w) && !line.SourceUp(w) && HasRoom(s)
    case StreamEnds(w) => s.control.Opened? && s.control.streams.Runs(w) && line.SourceUp(w) && HasRoom(s)
    case Receive => s.received < SIGNALS && s.received < s.sent
  }

  /** Whether a step waits for a peer to act. */
  predicate NeedsPeer(step: SpliceStep)
  {
    step.ControlOpens? || step.MediaEnds? || step.StreamEnds?
  }

  function SpliceNext(s: Splice, line: Line, step: SpliceStep): (s': Splice)
    requires CanSplice(s, line, step)
  {
    match step
    case ControlOpens => s.(control := Opened(Copiers(true, true)))
    case ControlFails => s.(control := Failed(2))
    case FailedSignals => s.(control := Failed(s.control.left - 1), sent := s.sent + 1)
    case MediaLost(w) => s.(media := s.media.Without(w), sent := s.sent + 1)
    case MediaEnds(w) => s.(media := s.media.Without(w), sent := s.sent + 1)
    case StreamLost(w) => s.(control := Opened(s.control.streams.Without(w)), sent := s.sent + 1)
    case StreamEnds(w) => s.(control := Opened(s.control.streams.Without(w)), sent := s.sent + 1)
    case Receive => s.(received := s.received + 1)
  }

  // ---- the relay

  /** Where a connection's goroutine stands. */
  datatype Goroutine =
    | Reading
    | HostWaits                         // blocked on `paired`
    | HostHeld                          // picked up; kept alive until shutdown
    | PhoneLooked(peer: Option<Conn>)   // past the mutex, `paired` not yet closed
    | PhoneSplices(splice: Splice)
    | Finished(splice: Splice)          // received four signals and returned
    | Gone

  /** The shared map of waiting hosts, and history: who registered as what, how often each
      host was handed out and to which phone, how often each `paired` channel was closed. */
  datatype Ledger = Ledger(
    waiting: map<Id, Conn>, hostId: map<Conn, Id>, phoneId: map<Conn, Id>,
    handed: multiset<Conn>, partner: map<Conn, Conn>, closed: multiset<Conn>)
  {
    function AddHost(n: Conn, id: Id): (l: Ledger)
    {
      this.(waiting := waiting[id := n], hostId := hostId[n := id])
    }

    function AddPhone(n: Conn, id: Id): (l: Ledger)
    {
      var l := this.(phoneId := phoneId[n := id], waiting := waiting - {id});
      if id !in waiting then l
      else l.(handed := handed + multiset{waiting[id]}, partner := partner[n := waiting[id]])
    }

    function Close(host: Conn): (l: Ledger)
    {
      this.(closed := closed + multiset{host})
    }
  }

  /** left: the connections whose peer has gone. */
  datatype Relay = Relay(at: map<Conn, Goroutine>, left: set<Conn>, cancelled: bool, book: Ledger)

  function Start(): (r: Relay)
  {
    Relay(map[], {}, false, Ledger(map[], map[], map[], multiset{}, map[], multiset{}))
  }

  datatype Step =
    | Accept(n: Conn)
    | Drop(n: Conn)
    | RegisterHost(n: Conn, id: Id)
    | RegisterPhone(n: Conn, id: Id)
    | ClosePaired(n: Conn)
    | NobodyWaiting(n: Conn)
    | HostWakes(n: Conn)
    | Cancel
    | HostReturns(n: Conn)
    | PeerLeaves(n: Conn)
    | Splices(n: Conn, step: SpliceStep)
    | PhoneReturns(n: Conn)

  predicate At(r: Relay, n: Conn, g: Goroutine)
  {
    n in r.at && r.at[n] == g
  }

  predicate Splicing(r: Relay, n: Conn)
  {
    n in r.at && r.at[n].PhoneSplices?
  }

  /** A connection is up until its peer has gone or its goroutine, which closes it, ended. */
  predicate Up(r: Relay, n: Conn)
  {
    n !in r.left && n in r.at && !r.at[n].Gone? && !r.at[n].Finished?
  }

  function LineOf(r: Relay, n: Conn): (line: Line)
    requires Splicing(r, n)
  {
    Line(Up(r, r.at[n].splice.host), Up(r, n), r.cancelled)
  }

  predicate Enabled(r: Relay, step: Step)
  {
    match step
    case Accept(n) => n !in r.at
    case Drop(n) => At(r, n, Reading)
    case RegisterHost(n, id) => At(r, n, Reading)
    case RegisterPhone(n, id) => At(r, n, Reading)
    case ClosePaired(n) => n in r.at && r.at[n].PhoneLooked? && r.at[n].peer.Some?
    case NobodyWaiting(n) => At(r, n, PhoneLooked(None))
    case HostWakes(n) => At(r, n, HostWaits) && n in r.book.closed
    case Cancel => true
    case HostReturns(n) => r.cancelled && (At(r, n, HostWaits) || At(r, n, HostHeld))
    case PeerLeaves(n) => n in r.at
    case Splices(n, step) => Splicing(r, n) && CanSplice(r.at[n].splice, LineOf(r, n), step)
    case PhoneReturns(n) => Splicing(r, n) && r.at[n].splice.received == SIGNALS
  }

  function Goes(r: Relay, n: Conn, g: Goroutine): (r': Relay)
  {
    r.(at := r.at[n := g])
  }

  function Next(r: Relay, step: Step): (r': Relay)
    requires Enabled(r, step)
  {
    match step
    case Accept(n) => Goes(r, n, Reading)
    case Drop(n) => Goes(r, n, Gone)
    case RegisterHost(n, id) => Goes(r, n, HostWaits).(book := r.book.AddHost(n, id))
    case RegisterPhone(n, id) =>
      var peer := if id in r.book.waiting then Some(r.book.waiting[id]) else None;
      Goes(r, n, PhoneLooked(peer)).(book := r.book.AddPhone(n, id))
    case ClosePaired(n) =>
      var host := r.at[n].peer.value;
      Goes(r, n, PhoneSplices(NewSplice(host))).(book := r.book.Close(host))
    case NobodyWaiting(n) => Goes(r, n, Gone)
    case HostWakes(n) => Goes(r, n, HostHeld)
    case Cancel => r.(cancelled := true)
    case HostReturns(n) => Goes(r, n, Gone)
    case PeerLeaves(n) => r.(left := r.left + {n})
    case Splices(n, step) => Goes(r, n, PhoneSplices(SpliceNext(r.at[n].splice, LineOf(r, n), step)))
    case PhoneReturns(n) => Goes(r, n, Finished(r.at[n].splice))
  }

  ghost predicate Possible(r: Relay, steps: seq<Step>)
    decreases |steps|
  {
    steps == [] || (Enabled(r, steps[0]) && Possible(Next(r, steps[0]), steps[1..]))
  }

  function After(r: Relay, steps: seq<Step>): (r': Relay)
    requires Possible(r, steps)
    decreases |steps|
  {
    if steps == [] then r else After(Next(r, steps[0]), steps[1..])
  }

  // ---- the invariant

  /** Every signal is owed, in the channel, or received: four in all. */
  predicate Balanced(s: Splice)
  {
    s.sent + s.Owed() == SIGNALS && s.received <= s.sent
  }

  /** Waiting hosts are under their own id and have not been handed out. */
  ghost predicate WaitingFresh(l: Ledger)
  {
    forall id :: id in l.waiting ==>
      l.waiting[id] in l.hostId && l.hostId[l.waiting[id]] == id && l.handed[l.waiting[id]] == 0
  }

  /** Phone n holds a host of its own id, which was handed out once. */
  predicate Paired(l: Ledger, n: Conn)
  {
    && n in l.partner && n in l.phoneId && l.partner[n] in l.hostId
    && l.hostId[l.partner[n]] == l.phoneId[n] && l.handed[l.partner[n]] == 1
  }

  predicate Once(l: Ledger, h: Conn)
  {
    l.closed[h] <= l.handed[h] <= 1 && (l.handed[h] > 0 ==> h in l.hostId)
  }

  ghost predicate HandedOnce(l: Ledger)
  {
    && (forall h :: Once(l, h))
    && (forall n :: n in l.partner ==> Paired(l, n))
    && (forall n, m :: n in l.partner && m in l.partner && n != m ==> l.partner[n] != l.partner[m])
  }

  /** What a goroutine may be, given the ledger. A phone that has looked is the one to
      close its host's channel, which nobody has closed; a host's goroutine, whose end would
      close the connection, stays until the relay shuts down. */
  predicate Ok(l: Ledger, cancelled: bool, n: Conn, g: Goroutine)
  {
    && !(n in l.hostId && n in l.phoneId)
    && match g
       case Reading => n !in l.hostId && n !in l.phoneId
       case HostWaits => n in l.hostId
       case HostHeld => n in l.hostId && l.closed[n] == 1
       case PhoneLooked(None) => n in l.phoneId && n !in l.partner
       case PhoneLooked(Some(h)) => n in l.phoneId && n in l.partner && l.partner[n] == h && l.closed[h] == 0
       case PhoneSplices(s) =>
         n in l.phoneId && Balanced(s) && n in l.partner && l.partner[n] == s.host && l.closed[s.host] == 1
       case Finished(s) => n in l.phoneId && Balanced(s) && s.received == SIGNALS
       case Gone => n in l.hostId ==> cancelled
  }

  ghost predicate AllOk(r: Relay)
  {
    forall n :: n in r.at ==> Ok(r.book, r.cancelled, n, r.at[n])
  }

  ghost predicate Known(r: Relay)
  {
    && (forall n :: n in r.book.hostId ==> n in r.at)
    && (forall n :: n in r.book.phoneId ==> n in r.at)
  }

  ghost predicate Inv(r: Relay)
  {
    WaitingFresh(r.book) && HandedOnce(r.book) && AllOk(r) && Known(r)
  }

  lemma AddHostKeeps(l: Ledger, n: Conn, id: Id)
    requires WaitingFresh(l) && HandedOnce(l) && n !in l.hostId
    ensures WaitingFresh(l.AddHost(n, id)) && HandedOnce(l.AddHost(n, id))
  {
    assert Once(l, n);
    forall h ensures Once(l.AddHost(n, id), h) { assert Once(l, h); }
    forall m | m in l.partner ensures Paired(l.AddHost(n, id), m) { assert Paired(l, m); }
  }

  lemma AddPhoneKeeps(l: Ledger, n: Conn, id: Id)
    requires WaitingFresh(l) && HandedOnce(l) && n !in l.phoneId
    ensures WaitingFresh(l.AddPhone(n, id)) && HandedOnce(l.AddPhone(n, id))
  {
    var l' := l.AddPhone(n, id);
    assert n in l.partner ==> Paired(l, n);
    if id in l.waiting {
      var host := l.waiting[id];
      assert Once(l, host);
      forall h ensures Once(l', h) { assert Once(l, h); }
      forall m | m in l'.partner ensures Paired(l', m) { if m != n { assert Paired(l, m); } }
      forall a, b | a in l'.partner && b in l'.partner && a != b ensures l'.partner[a] != l'.partner[b] {
        if a != n { assert Paired(l, a); }
        if b != n { assert Paired(l, b); }
      }
    } else {
      forall h ensures Once(l', h) { assert Once(l, h); }
      forall m | m in l'.partner ensures Paired(l', m) { assert Paired(l, m); }
    }
  }

  lemma CloseKeeps(l: Ledger, host: Conn)
    requires WaitingFresh(l) && HandedOnce(l) && l.handed[host] == 1 && l.closed[host] == 0
    ensures WaitingFresh(l.Close(host)) && HandedOnce(l.Close(host))
  {
    forall h ensures Once(l.Close(host), h) { assert Once(l, h); }
    forall m | m in l.partner ensures Paired(l.Close(host), m) { assert Paired(l, m); }
  }

  // ---- every step keeps it

  lemma RegisterHostKeeps(r: Relay, n: Conn, id: Id)
    requires Inv(r) && Enabled(r, RegisterHost(n, id))
    ensures Inv(Next(r, RegisterHost(n, id)))
  {
    AddHostKeeps(r.book, n, id);
    assert Ok(r.book, r.cancelled, n, r.at[n]);
  }

  lemma OthersKeepAddPhone(l: Ledger, cancelled: bool, m: Conn, g: Goroutine, n: Conn, id: Id)
    requires Ok(l, cancelled, m, g) && m != n
    ensures Ok(l.AddPhone(n, id), cancelled, m, g)
  {
  }

  lemma LookedOk(l: Ledger, cancelled: bool, n: Conn, id: Id)
    requires WaitingFresh(l) && HandedOnce(l) && n !in l.hostId && n !in l.phoneId
    ensures var peer := if id in l.waiting then Some(l.waiting[id]) else None;
            Ok(l.AddPhone(n, id), cancelled, n, PhoneLooked(peer))
  {
    assert n in l.partner ==> Paired(l, n);
    if id in l.waiting { assert Once(l, l.waiting[id]); }
  }

  lemma RegisterPhoneKeeps(r: Relay, n: Conn, id: Id)
    requires Inv(r) && Enabled(r, RegisterPhone(n, id))
    ensures Inv(Next(r, RegisterPhone(n, id)))
  {
    assert Ok(r.book, r.cancelled, n, r.at[n]);
    AddPhoneKeeps(r.book, n, id);
    LookedOk(r.book, r.cancelled, n, id);
    var r' := Next(r, RegisterPhone(n, id));
    forall m | m in r'.at ensures Ok(r'.book, r'.cancelled, m, r'.at[m]) {
      if m != n { OthersKeepAddPhone(r.book, r.cancelled, m, r.at[m], n, id); }
    }
  }

  lemma ClosePairedKeeps(r: Relay, n: Conn)
    requires Inv(r) && Enabled(r, ClosePaired(n))
    ensures Inv(Next(r, ClosePaired(n)))
  {
    assert Ok(r.book, r.cancelled, n, r.at[n]);
    assert Paired(r.book, n);
    CloseKeeps(r.book, r.at[n].peer.value);
  }

  predicate IsLocal(step: Step)
  {
    step != Cancel && !step.PeerLeaves? && !step.RegisterHost? && !step.RegisterPhone? && !step.ClosePaired?
  }

  lemma SpliceKeeps(s: Splice, line: Line, step: SpliceStep)
    requires CanSplice(s, line, step) && Balanced(s)
    ensures Balanced(SpliceNext(s, line, step)) && SpliceNext(s, line, step).host == s.host
  {
  }

  lemma MovedOk(r: Relay, step: Step)
    requires IsLocal(step) && Enabled(r, step)
    requires step.n in r.at ==> Ok(r.book, r.cancelled, step.n, r.at[step.n])
    requires Known(r) && Once(r.book, step.n)
    ensures Ok(r.book, r.cancelled, step.n, Next(r, step).at[step.n])
  {
    if step.Splices? { SpliceKeeps(r.at[step.n].splice, LineOf(r, step.n), step.step); }
  }

  lemma LocalKeeps(r: Relay, step: Step)
    requires Inv(r) && Enabled(r, step) && IsLocal(step)
    ensures Inv(Next(r, step))
  {
    MovedOk(r, step);
    var r' := Next(r, step);
    assert r' == Goes(r, step.n, r'.at[step.n]);
  }

  lemma {:induction false} RunKeeps(r: Relay, steps: seq<Step>)
    requires Inv(r) && Possible(r, steps)
    ensures Inv(After(r, steps))
    decreases |steps|
  {
    if steps != [] {
      match steps[0]
      case RegisterHost(n, id) => RegisterHostKeeps(r, n, id);
      case RegisterPhone(n, id) => RegisterPhoneKeeps(r, n, id);
      case ClosePaired(n) => ClosePairedKeeps(r, n);
      case Cancel =>
      case PeerLeaves(_) =>
      case _ => LocalKeeps(r, steps[0]);
    }
    if steps != [] { RunKeeps(Next(r, steps[0]), steps[1..]); }
  }

  // ---- what it gives, in every interleaving

  /** THEOREM (hand-off). Each host connection is handed to at most one phone, and that
      one registered the same id; its `paired` channel is closed at most once, and only
      after the hand-off. */
  lemma HandOff(steps: seq<Step>, h: Conn, p: Conn, q: Conn)
    requires Possible(Start(), steps)
    ensures var l := After(Start(), steps).book;
            && l.closed[h] <= l.handed[h] <= 1
            && (p in l.partner && q in l.partner && l.partner[p] == l.partner[q] ==> p == q)
            && (p in l.partner ==>
                 && p in l.phoneId && l.partner[p] in l.hostId && l.hostId[l.partner[p]] == l.phoneId[p]
                 && l.handed[l.partner[p]] == 1)
  {
    RunKeeps(Start(), steps);
    var l := After(Start(), steps).book;
    assert Once(l, h);
    assert p in l.partner ==> Paired(l, p);
  }

  /** THEOREM (hosts stay). The relay closes no registered host's connection before it
      shuts down: until then only the host itself can take it down. */
  lemma HostStays(steps: seq<Step>, h: Conn)
    requires Possible(Start(), steps) && h in After(Start(), steps).book.hostId
    ensures var r := After(Start(), steps);
            && h in r.at && (r.at[h].HostWaits? || r.at[h].HostHeld? || r.cancelled)
            && (Up(r, h) || h in r.left || r.cancelled)
  {
    RunKeeps(Start(), steps);
    var r := After(Start(), steps);
    assert Ok(r.book, r.cancelled, h, r.at[h]);
  }

  /** THEOREM (four signals). In every reachable state a splice's signals sent and owed
      add up to four, so a send never blocks; a phone's goroutine returns only when all
      four were sent and received and no goroutine of the splice owes one any more. */
  lemma FourSignals(steps: seq<Step>, n: Conn)
    requires Possible(Start(), steps) && n in After(Start(), steps).at
    ensures var g := After(Start(), steps).at[n];
            && (g.PhoneSplices? ==>
                 && g.splice.sent + g.splice.Owed() == 4
                 && (g.splice.sent < 4 ==> HasRoom(g.splice)))
            && (g.Finished? ==> g.splice.sent == g.splice.received == 4 && g.splice.Owed() == 0)
  {
    RunKeeps(Start(), steps);
    var r := After(Start(), steps);
    assert Ok(r.book, r.cancelled, n, r.at[n]);
  }

  // ---- when a splice comes to an end

  /** Some goroutine of the splice still copies from the host. */
  predicate HostRead(s: Splice)
  {
    s.media.toPhone || (s.control.Opened? && s.control.streams.toPhone)
  }

  /** The phone is down, and the host is down too or nothing copies from it any more. */
  predicate Freed(r: Relay, n: Conn)
  {
    Splicing(r, n) && !LineOf(r, n).phoneUp && (!LineOf(r, n).hostUp || !HostRead(r.at[n].splice))
  }

  /** The phone is down, but the host is up and something copies from it. */
  predicate Held(r: Relay, n: Conn)
  {
    Splicing(r, n) && !LineOf(r, n).phoneUp && LineOf(r, n).hostUp && HostRead(r.at[n].splice)
  }

  /** A step that a freed splice can take. */
  function OwnStep(s: Splice): (step: SpliceStep)
    ensures !NeedsPeer(step)
  {
    if s.received < s.sent then Receive
    else if s.media.toHost then MediaLost(ToHost)
    else if s.media.toPhone then MediaLost(ToPhone)
    else
      match s.control
      case Opening => ControlFails
      case Failed(_) => FailedSignals
      case Opened(streams) => if streams.toHost then StreamLost(ToHost) else StreamLost(ToPhone)
  }

  function NextOf(s: Splice, n: Conn): (step: Step)
  {
    if s.received == SIGNALS then PhoneReturns(n) else Splices(n, OwnStep(s))
  }

  /** How many steps a splice can still take. */
  function Left(g: Goroutine): (m: nat)
  {
    match g
    case PhoneSplices(s) => 1 + s.Owed() + (if s.control.Opening? then 1 else 0) + Max(0, SIGNALS - s.received)
    case _ => 0
  }

  /** Whether step is one of phone n's goroutine or of its splice. */
  predicate Own(step: Step, n: Conn)
  {
    (step.Splices? || step.PhoneReturns?) && step.n == n
  }

  function OwnSteps(steps: seq<Step>, n: Conn): (k: nat)
  {
    if steps == [] then 0 else (if Own(steps[0], n) then 1 else 0) + OwnSteps(steps[1..], n)
  }

  lemma CanStep(r: Relay, n: Conn)
    requires Freed(r, n) && Balanced(r.at[n].splice)
    ensures Enabled(r, NextOf(r.at[n].splice, n)) && Own(NextOf(r.at[n].splice, n), n)
  {
  }

  lemma StaysDown(r: Relay, step: Step, h: Conn)
    requires Enabled(r, step) && h in r.at && !Up(r, h)
    ensures h in Next(r, step).at && !Up(Next(r, step), h)
  {
  }

  /** Every step of a freed splice uses one up, and no other step changes anything for it. */
  lemma StaysFreed(r: Relay, step: Step, n: Conn)
    requires Enabled(r, step) && Freed(r, n) && r.at[n].splice.host in r.at
    ensures var g := Next(r, step).at[n];
            && n in Next(r, step).at
            && Left(g) + (if Own(step, n) then 1 else 0) <= Left(r.at[n])
            && (g.Finished? || (Freed(Next(r, step), n) && g.splice.host == r.at[n].splice.host))
  {
    StaysDown(r, step, n);
    if !Up(r, r.at[n].splice.host) { StaysDown(r, step, r.at[n].splice.host); }
  }

  lemma FinishedStays(r: Relay, step: Step, n: Conn)
    requires Enabled(r, step) && n in r.at && r.at[n].Finished?
    ensures n in Next(r, step).at && Next(r, step).at[n] == r.at[n] && !Own(step, n)
  {
  }

  lemma StepKeeps(r: Relay, step: Step)
    requires Inv(r) && Enabled(r, step)
    ensures Inv(Next(r, step))
  {
    RunKeeps(r, [step]);
    assert [step][1..] == [] && After(r, [step]) == Next(r, step);
  }

  lemma {:induction false} DrainsFrom(r: Relay, more: seq<Step>, n: Conn)
    requires Inv(r) && Possible(r, more)
    requires n in r.at && (r.at[n].Finished? || Freed(r, n))
    ensures var r' := After(r, more);
            && n in r'.at && (r'.at[n].Finished? || Freed(r', n))
            && OwnSteps(more, n) + Left(r'.at[n]) <= Left(r.at[n])
    decreases |more|
  {
    if more != [] {
      StepKeeps(r, more[0]);
      assert Ok(r.book, r.cancelled, n, r.at[n]);
      if r.at[n].Finished? {
        FinishedStays(r, more[0], n);
      } else {
        assert Paired(r.book, n);
        StaysFreed(r, more[0], n);
      }
      DrainsFrom(Next(r, more[0]), more[1..], n);
    }
  }

  /** THEOREM (freed splices drain). Once the phone is down, and the host is down too or
      nothing copies from it any more, the phone's goroutine returns: whatever else goes
      on, it and its splice can take at most ten steps more, and as long as it has not
      returned, one of them that waits for no peer can be taken. */
  lemma FreedDrains(steps: seq<Step>, more: seq<Step>, n: Conn)
    requires Possible(Start(), steps) && Freed(After(Start(), steps), n)
    requires Possible(After(Start(), steps), more)
    ensures var r, r' := After(Start(), steps), After(After(Start(), steps), more);
            && OwnSteps(more, n) <= Left(r.at[n]) <= 10
            && n in r'.at
            && (r'.at[n].Finished? ||
                (Splicing(r', n) && Own(NextOf(r'.at[n].splice, n), n) && Enabled(r', NextOf(r'.at[n].splice, n))))
  {
    RunKeeps(Start(), steps);
    var r := After(Start(), steps);
    RunKeeps(r, more);
    var r' := After(r, more);
    assert Ok(r.book, r.cancelled, n, r.at[n]);
    DrainsFrom(r, more, n);
    assert Ok(r'.book, r'.cancelled, n, r'.at[n]);
    if !r'.at[n].Finished? { CanStep(r', n); }
  }

  /** In particular once both connections are down. */
  lemma SpliceDrains(steps: seq<Step>, more: seq<Step>, n: Conn)
    requires Possible(Start(), steps) && Splicing(After(Start(), steps), n)
    requires var line := LineOf(After(Start(), steps), n); !line.hostUp && !line.phoneUp
    requires Possible(After(Start(), steps), more)
    ensures var r' := After(After(Start(), steps), more);
            && OwnSteps(more, n) <= 10 && n in r'.at
            && (r'.at[n].Finished? || (Splicing(r', n) && Enabled(r', NextOf(r'.at[n].splice, n))))
  {
    FreedDrains(steps, more, n);
  }

  // ---- when the host holds it

  datatype Kind = Media | Stream

  /** The goroutine of the given kind that copies from the host is running. */
  predicate Copies(s: Splice, kind: Kind)
  {
    match kind
    case Media => s.media.toPhone
    case Stream => s.control.Opened? && s.control.streams.toPhone
  }

  /** The host makes it end: it ends its stream, or sends what cannot be passed on. */
  function HostEnds(n: Conn, kind: Kind): (step: Step)
  {
    match kind
    case Media => Splices(n, MediaEnds(ToPhone))
    case Stream => Splices(n, StreamEnds(ToPhone))
  }

  lemma CopiesNext(s: Splice, line: Line, step: SpliceStep, kind: Kind)
    requires CanSplice(s, line, step) && line.hostUp && Copies(s, kind)
    requires step != if kind.Media? then MediaEnds(ToPhone) else StreamEnds(ToPhone)
    ensures Copies(SpliceNext(s, line, step), kind) && SpliceNext(s, line, step).host == s.host
  {
  }

  /** What others do leaves a splice as it is. */
  lemma OthersLeave(r: Relay, step: Step, n: Conn)
    requires Enabled(r, step) && Splicing(r, n) && !Own(step, n)
    ensures n in Next(r, step).at && Next(r, step).at[n] == r.at[n]
  {
  }

  lemma CopiesOn(r: Relay, step: Step, n: Conn, kind: Kind)
    requires Enabled(r, step) && Splicing(r, n) && Balanced(r.at[n].splice) && Copies(r.at[n].splice, kind)
    requires Up(r, r.at[n].splice.host) && step != HostEnds(n, kind)
    ensures var r' := Next(r, step);
            Splicing(r', n) && Copies(r'.at[n].splice, kind) && r'.at[n].splice.host == r.at[n].splice.host
  {
    if !Own(step, n) {
      OthersLeave(r, step, n);
    } else if step.Splices? {
      CopiesNext(r.at[n].splice, LineOf(r, n), step.step, kind);
    }
  }

  lemma {:induction false} DownAfter(r: Relay, more: seq<Step>, h: Conn)
    requires Possible(r, more) && h in r.at && !Up(r, h)
    ensures h in After(r, more).at && !Up(After(r, more), h)
    decreases |more|
  {
    if more != [] {
      StaysDown(r, more[0], h);
      DownAfter(Next(r, more[0]), more[1..], h);
    }
  }

  lemma {:induction false} CopiesFrom(r: Relay, more: seq<Step>, n: Conn, kind: Kind)
    requires Inv(r) && Possible(r, more) && Splicing(r, n) && Copies(r.at[n].splice, kind)
    requires HostEnds(n, kind) !in more && Up(After(r, more), r.at[n].splice.host)
    ensures var r' := After(r, more);
            Splicing(r', n) && Copies(r'.at[n].splice, kind) && r'.at[n].splice.host == r.at[n].splice.host
    decreases |more|
  {
    if more != [] {
      var h := r.at[n].splice.host;
      assert Ok(r.book, r.cancelled, n, r.at[n]) && Paired(r.book, n);
      if !Up(r, h) { DownAfter(r, more, h); }
      StepKeeps(r, more[0]);
      CopiesOn(r, more[0], n, kind);
      CopiesFrom(Next(r, more[0]), more[1..], n, kind);
    }
  }

  /** THEOREM (the host holds the splice). While the host is up and does not end some
      goroutine that copies from it, the phone's goroutine does not return, whether or not
      the phone has gone: the fourth signal is not sent. */
  lemma HostHolds(steps: seq<Step>, more: seq<Step>, n: Conn, kind: Kind)
    requires Possible(Start(), steps) && Splicing(After(Start(), steps), n)
    requires Copies(After(Start(), steps).at[n].splice, kind)
    requires Possible(After(Start(), steps), more) && HostEnds(n, kind) !in more
    requires Up(After(After(Start(), steps), more), After(Start(), steps).at[n].splice.host)
    ensures var r' := After(After(Start(), steps), more);
            && Splicing(r', n) && r'.at[n].splice.received <= r'.at[n].splice.sent < 4
            && !Enabled(r', PhoneReturns(n)) && (!Up(r', n) ==> Held(r', n))
  {
    RunKeeps(Start(), steps);
    var r := After(Start(), steps);
    RunKeeps(r, more);
    CopiesFrom(r, more, n, kind);
    var r' := After(r, more);
    assert Ok(r'.book, r'.cancelled, n, r'.at[n]);
  }

  /** The host, or the relay's end of it, does something that may end a copying goroutine. */
  predicate HostActs(step: Step, n: Conn, h: Conn)
  {
    step == PeerLeaves(h) || step == HostReturns(h) || exists kind :: step == HostEnds(n, kind)
  }

  ghost predicate HostIdle(more: seq<Step>, n: Conn, h: Conn)
  {
    forall i :: 0 <= i < |more| ==> !HostActs(more[i], n, h)
  }

  lemma UpStep(r: Relay, step: Step, n: Conn, h: Conn)
    requires Enabled(r, step) && Up(r, h) && !HostActs(step, n, h)
    requires r.at[h].HostWaits? || r.at[h].HostHeld?
    ensures Up(Next(r, step), h)
  {
  }

  lemma {:induction false} UpAfter(r: Relay, more: seq<Step>, n: Conn, h: Conn)
    requires Inv(r) && Possible(r, more) && h in r.book.hostId && Up(r, h) && HostIdle(more, n, h)
    ensures Up(After(r, more), h)
    decreases |more|
  {
    if more != [] {
      assert !HostActs(more[0], n, h);
      assert Ok(r.book, r.cancelled, h, r.at[h]);
      StepKeeps(r, more[0]);
      UpStep(r, more[0], n, h);
      UpAfter(Next(r, more[0]), more[1..], n, h);
    }
  }

  /** The steps of a freed splice up to the return of the phone's goroutine. */
  lemma {:induction false} DrainRun(r: Relay, n: Conn) returns (more: seq<Step>)
    requires Inv(r) && Freed(r, n)
    ensures Possible(r, more) && n in After(r, more).at && After(r, more).at[n].Finished?
    ensures LineOf(r, n).hostUp ==> HostIdle(more, n, r.at[n].splice.host)
    decreases Left(r.at[n])
  {
    assert Ok(r.book, r.cancelled, n, r.at[n]) && Paired(r.book, n);
    CanStep(r, n);
    var step := NextOf(r.at[n].splice, n);
    var r1 := Next(r, step);
    StepKeeps(r, step);
    StaysFreed(r, step, n);
    if r1.at[n].Finished? {
      more := [step];
      assert more[1..] == [];
    } else {
      var rest := DrainRun(r1, n);
      more := [step] + rest;
      assert more[1..] == rest;
    }
  }

  /** THEOREM (when a splice ends without its phone). Once the phone is down, and with the
      host doing nothing more, its goroutine can still return if and only if the host is
      down or nothing copies from it; and these two cases are the only ones. */
  lemma PhoneGoneExact(steps: seq<Step>, n: Conn)
    requires Possible(Start(), steps) && Splicing(After(Start(), steps), n) && !Up(After(Start(), steps), n)
    ensures var r := After(Start(), steps);
            && (Freed(r, n) <==> !Held(r, n))
            && (Freed(r, n) <==>
                exists more :: Possible(r, more) && n in After(r, more).at && After(r, more).at[n].Finished?
                            && (Up(r, r.at[n].splice.host) ==> HostIdle(more, n, r.at[n].splice.host)))
  {
    RunKeeps(Start(), steps);
    var r := After(Start(), steps);
    assert Ok(r.book, r.cancelled, n, r.at[n]) && Paired(r.book, n);
    var h := r.at[n].splice.host;
    if Freed(r, n) {
      var more := DrainRun(r, n);
      assert Possible(r, more);
    }
    if Held(r, n) {
      forall more | Possible(r, more) && HostIdle(more, n, h)
        ensures Splicing(After(r, more), n)
      {
        IdleHolds(r, more, n);
      }
    }
  }

  lemma IdleHolds(r: Relay, more: seq<Step>, n: Conn)
    requires Inv(r) && Held(r, n) && Possible(r, more) && HostIdle(more, n, r.at[n].splice.host)
    ensures Splicing(After(r, more), n)
  {
    var h := r.at[n].splice.host;
    assert Ok(r.book, r.cancelled, n, r.at[n]) && Paired(r.book, n);
    UpAfter(r, more, n, h);
    var kind := if r.at[n].splice.media.toPhone then Media else Stream;
    CopiesFrom(r, more, n, kind);
  }

  lemma {:induction false} Snoc(r: Relay, steps: seq<Step>, step: Step) returns (longer: seq<Step>)
    requires Possible(r, steps) && Enabled(After(r, steps), step)
    ensures longer == steps + [step] && Possible(r, longer) && After(r, longer) == Next(After(r, steps), step)
    decreases |steps|
  {
    longer := steps + [step];
    if steps == [] {
      assert longer[1..] == [];
    } else {
      var rest := Snoc(Next(r, steps[0]), steps[1..], step);
      assert longer[1..] == rest;
    }
  }

  lemma HostAlone() returns (steps: seq<Step>)
    ensures Possible(Start(), steps)
    ensures var r := After(Start(), steps);
            && r.at == map[0 := HostWaits] && r.book.waiting == map["host" := 0] && r.left == {} && !r.cancelled
  {
    steps := Snoc(Start(), [], Accept(0));
    steps := Snoc(Start(), steps, RegisterHost(0, "host"));
  }

  lemma Meet() returns (steps: seq<Step>)
    ensures Possible(Start(), steps)
    ensures var r := After(Start(), steps);
            && r.at == map[0 := HostWaits, 1 := PhoneSplices(NewSplice(0))]
            && r.left == {1} && !r.cancelled
  {
    steps := HostAlone();
    steps := Snoc(Start(), steps, Accept(1));
    steps := Snoc(Start(), steps, RegisterPhone(1, "host"));
    steps := Snoc(Start(), steps, ClosePaired(1));
    steps := Snoc(Start(), steps, PeerLeaves(1));
  }

  /** A step of the splice between host 0, which is up, and phone 1, which is down. */
  lemma SpliceOn(steps: seq<Step>, s: Splice, step: SpliceStep) returns (longer: seq<Step>, s': Splice)
    requires Possible(Start(), steps) && s.host == 0 && CanSplice(s, Line(true, false, false), step)
    requires var r := After(Start(), steps);
             r.at == map[0 := HostWaits, 1 := PhoneSplices(s)] && r.left == {1} && !r.cancelled
    ensures Possible(Start(), longer) && s' == SpliceNext(s, Line(true, false, false), step) && s'.host == 0
    ensures var r := After(Start(), longer);
            r.at == map[0 := HostWaits, 1 := PhoneSplices(s')] && r.left == {1} && !r.cancelled
  {
    assert LineOf(After(Start(), steps), 1) == Line(true, false, false);
    longer := Snoc(Start(), steps, Splices(1, step));
    s' := SpliceNext(s, Line(true, false, false), step);
  }

  /** A run that leaves a splice held: a host and a phone meet, the phone goes before its
      control stream is open, and the splice has done all it can without the host. */
  lemma HeldRun() returns (steps: seq<Step>)
    ensures Possible(Start(), steps) && Held(After(Start(), steps), 1)
    ensures var r := After(Start(), steps);
            && r.at[1].splice.sent == r.at[1].splice.received == 3
            && forall step :: Enabled(r, Splices(1, step)) ==> NeedsPeer(step)
  {
    var s;
    steps, s := ThreeSignals();
    steps, s := SpliceOn(steps, s, Receive);
    steps, s := SpliceOn(steps, s, Receive);
    steps, s := SpliceOn(steps, s, Receive);
    HeldEnd(After(Start(), steps), s);
  }

  /** The run up to its third signal. */
  lemma ThreeSignals() returns (steps: seq<Step>, s: Splice)
    ensures Possible(Start(), steps) && s == Splice(0, Failed(0), Copiers(false, true), 3, 0)
    ensures var r := After(Start(), steps);
            r.at == map[0 := HostWaits, 1 := PhoneSplices(s)] && r.left == {1} && !r.cancelled
  {
    steps := Meet();
    s := NewSplice(0);
    steps, s := SpliceOn(steps, s, MediaLost(ToHost));
    steps, s := SpliceOn(steps, s, ControlFails);
    steps, s := SpliceOn(steps, s, FailedSignals);
    steps, s := SpliceOn(steps, s, FailedSignals);
  }

  lemma HeldEnd(r: Relay, s: Splice)
    requires s == Splice(0, Failed(0), Copiers(false, true), 3, 3)
    requires r.at == map[0 := HostWaits, 1 := PhoneSplices(s)] && r.left == {1} && !r.cancelled
    ensures Held(r, 1) && forall step :: Enabled(r, Splices(1, step)) ==> NeedsPeer(step)
  {
  }

  // ---- who gets whom, and what keeps a splice whole

  /** The host that waits under id: the last one registered, unless a phone came after it. */
  function Waiting(before: Option<Conn>, steps: seq<Step>, id: Id): (host: Option<Conn>)
    decreases |steps|
  {
    if steps == [] then before else Waiting(Waits(before, steps[0], id), steps[1..], id)
  }

  function Waits(before: Option<Conn>, step: Step, id: Id): (host: Option<Conn>)
  {
    match step
    case RegisterHost(n, other) => if other == id then Some(n) else before
    case RegisterPhone(_, other) => if other == id then None else before
    case _ => before
  }

  function WaitingIn(r: Relay, id: Id): (host: Option<Conn>)
  {
    if id in r.book.waiting then Some(r.book.waiting[id]) else None
  }

  lemma {:induction false} WaitingFrom(r: Relay, steps: seq<Step>, id: Id)
    requires Possible(r, steps)
    ensures WaitingIn(After(r, steps), id) == Waiting(WaitingIn(r, id), steps, id)
    decreases |steps|
  {
    if steps != [] {
      assert WaitingIn(Next(r, steps[0]), id) == Waits(WaitingIn(r, id), steps[0], id);
      WaitingFrom(Next(r, steps[0]), steps[1..], id);
    }
  }

  /** THEOREM (matching). In every interleaving a phone that registers an id is given the
      host that registered that id last, unless another phone of that id came in between;
      then, or when there was none, nobody. */
  lemma PhoneGetsLastHost(steps: seq<Step>, n: Conn, id: Id)
    requires Possible(Start(), steps) && Enabled(After(Start(), steps), RegisterPhone(n, id))
    ensures var r', host := Next(After(Start(), steps), RegisterPhone(n, id)), Waiting(None, steps, id);
            && r'.at[n] == PhoneLooked(host)
            && Enabled(r', if host.Some? then ClosePaired(n) else NobodyWaiting(n))
  {
    WaitingFrom(Start(), steps, id);
  }

  /** THEOREM (hosts go on). In every reachable state a host whose `paired` channel is closed
      can leave off waiting, and at shutdown every host's goroutine can return. */
  lemma HostsGoOn(steps: seq<Step>, h: Conn)
    requires Possible(Start(), steps) && h in After(Start(), steps).book.hostId
    ensures var r := After(Start(), steps);
            && h in r.at
            && (r.at[h].HostWaits? && r.book.closed[h] > 0 ==>
                 Enabled(r, HostWakes(h)) && Next(r, HostWakes(h)).at[h].HostHeld?)
            && (r.cancelled && !r.at[h].Gone? ==> Enabled(r, HostReturns(h)) && Next(r, HostReturns(h)).at[h].Gone?)
  {
    RunKeeps(Start(), steps);
    var r := After(Start(), steps);
    assert Ok(r.book, r.cancelled, h, r.at[h]);
  }

  /** Nobody hangs up, ends a stream or sends what cannot be passed on, and the relay is not
      shut down. */
  predicate Quiet(step: Step, n: Conn, h: Conn)
  {
    && step != Cancel && step != PeerLeaves(n) && step != PeerLeaves(h)
    && !(step.Splices? && step.n == n && (step.step.MediaEnds? || step.step.StreamEnds?))
  }

  ghost predicate AllQuiet(steps: seq<Step>, n: Conn, h: Conn)
  {
    forall i :: 0 <= i < |steps| ==> Quiet(steps[i], n, h)
  }

  /** Both connections are up and every goroutine of the splice is at work. */
  predicate WholeSplice(r: Relay, n: Conn)
  {
    && Splicing(r, n) && LineOf(r, n) == Line(true, true, false)
    && var s := r.at[n].splice;
       s.media == Copiers(true, true) && s.sent == s.received == 0
       && (s.control == Opening || s.control == Opened(Copiers(true, true)))
  }

  lemma QuietKeeps(r: Relay, step: Step, n: Conn)
    requires Inv(r) && Enabled(r, step) && WholeSplice(r, n) && Quiet(step, n, r.at[n].splice.host)
    ensures WholeSplice(Next(r, step), n) && Next(r, step).at[n].splice.host == r.at[n].splice.host
  {
    assert Ok(r.book, r.cancelled, n, r.at[n]) && Paired(r.book, n);
    var h := r.at[n].splice.host;
    assert Ok(r.book, r.cancelled, h, r.at[h]);
  }

  /** THEOREM (a splice stays whole). As long as both peers stay and behave and the relay is
      not shut down, no goroutine of a splice ends and no signal is sent, whatever else
      happens; and its control streams can be opened as long as they are not. */
  lemma {:induction false} SpliceStaysWhole(r: Relay, more: seq<Step>, n: Conn)
    requires Inv(r) && Possible(r, more) && WholeSplice(r, n) && AllQuiet(more, n, r.at[n].splice.host)
    ensures var r' := After(r, more);
            && WholeSplice(r', n)
            && (r'.at[n].splice.control.Opening? ==> Enabled(r', Splices(n, ControlOpens)))
    decreases |more|
  {
    if more != [] {
      assert Quiet(more[0], n, r.at[n].splice.host);
      RunKeeps(r, [more[0]]);
      assert [more[0]][1..] == [] && After(r, [more[0]]) == Next(r, more[0]);
      QuietKeeps(r, more[0], n);
      SpliceStaysWhole(Next(r, more[0]), more[1..], n);
    }
  }

  /** THEOREM (a splice begins whole). When a phone closes its host's channel and both
      connections are up, its splice begins with all its goroutines at work. */
  lemma SpliceBeginsWhole(steps: seq<Step>, n: Conn)
    requires Possible(Start(), steps) && Enabled(After(Start(), steps), ClosePaired(n))
    requires var r := After(Start(), steps); Up(r, n) && Up(r, r.at[n].peer.value) && !r.cancelled
    ensures Inv(After(Start(), steps)) && WholeSplice(Next(After(Start(), steps), ClosePaired(n)), n)
  {
    RunKeeps(Start(), steps);
    var r := After(Start(), steps);
    assert Ok(r.book, r.cancelled, n, r.at[n]) && Paired(r.book, n);
  }
}
