/**
Agreement of the pairing exchange. A transcript is the encoding of a list of parts,
and the encoding can be read back in one way only; so equal transcript hashes mean
equal parts, in whatever order each side's calls were made.
*/
module PairingAgreement {
  import opened Common
  import opened Pairing

  // ---- transcripts

  datatype Part = Begun(nonce: Bytes) | Challenged(pub: Bytes, salt: Bytes) | Confirmed(pub: Bytes)
  {
    predicate Sized()
    {
      match this
      case Begun(nonce) => |nonce| == NONCE_LEN
      case Challenged(pub, salt) => |pub| == PUB_LEN && |salt| == SALT_LEN
      case Confirmed(pub) => |pub| == PUB_LEN
    }

    function Encoded(): (b: Bytes)
      ensures |b| > 0
    {
      match this
      case Begun(nonce) => Ascii(BEGIN) + nonce
      case Challenged(pub, salt) => Ascii(CHALLENGE) + pub + salt
      case Confirmed(pub) => Ascii(CONFIRM) + pub
    }
  }

  function Encode(parts: seq<Part>): (b: Bytes)
  {
    if parts == [] then [] else parts[0].Encoded() + Encode(parts[1..])
  }

  ghost predicate AllSized(parts: seq<Part>)
  {
    forall i :: 0 <= i < |parts| ==> parts[i].Sized()
  }

  lemma {:induction false} EncodeAppend(parts: seq<Part>, p: Part)
    ensures Encode(parts + [p]) == Encode(parts) + p.Encoded()
  {
    if parts != [] {
      EncodeAppend(parts[1..], p);
      assert (parts + [p])[1..] == parts[1..] + [p];
    } else {
      assert ([p])[1..] == [];
    }
  }

  /** The parts are told apart by their first two letters, and each has one length. */
  lemma FirstPart(p: Part, q: Part, s: Bytes, t: Bytes)
    requires p.Sized() && q.Sized() && p.Encoded() + s == q.Encoded() + t
    ensures p == q && s == t
  {
    var b, a := p.Encoded() + s, q.Encoded() + t;
    assert b[0] == p.Encoded()[0] && b[1] == p.Encoded()[1];
    assert a[0] == q.Encoded()[0] && a[1] == q.Encoded()[1];
    assert |p.Encoded()| == |q.Encoded()|;
    assert b[..|p.Encoded()|] == p.Encoded() && b[|p.Encoded()|..] == s;
    assert a[..|q.Encoded()|] == q.Encoded() && a[|q.Encoded()|..] == t;
    SamePart(p, q);
  }

  lemma SamePart(p: Part, q: Part)
    requires p.Sized() && q.Sized() && p.Encoded() == q.Encoded()
    ensures p == q
  {
    var e := p.Encoded();
    assert e[0] == q.Encoded()[0] && e[1] == q.Encoded()[1];
    match p
    case Begun(nonce) =>
      assert e[5..] == nonce && q.Encoded()[5..] == q.nonce;
    case Challenged(pub, salt) =>
      assert e[9..74] == pub && q.Encoded()[9..74] == q.pub;
      assert e[74..] == salt && q.Encoded()[74..] == q.salt;
    case Confirmed(pub) =>
      assert e[7..] == pub && q.Encoded()[7..] == q.pub;
  }

  /** THEOREM. A transcript determines its parts. */
  lemma {:induction false} Decodable(ps: seq<Part>, qs: seq<Part>)
    requires AllSized(ps) && AllSized(qs) && Encode(ps) == Encode(qs)
    ensures ps == qs
  {
    if ps != [] && qs != [] {
      FirstPart(ps[0], qs[0], Encode(ps[1..]), Encode(qs[1..]));
      Decodable(ps[1..], qs[1..]);
      assert ps == [ps[0]] + ps[1..] && qs == [qs[0]] + qs[1..];
    }
  }

  // ---- what a transcript says of the state that has it

  function LastNonce(parts: seq<Part>): (n: Bytes)
  {
    if parts == [] then Repeat(0, NONCE_LEN)
    else if parts[|parts| - 1].Begun? then parts[|parts| - 1].nonce
    else LastNonce(parts[..|parts| - 1])
  }

  function LastChallenge(parts: seq<Part>): (p: Option<Part>)
    ensures p.Some? ==> p.value in parts && p.value.Challenged?
  {
    if parts == [] then None
    else if parts[|parts| - 1].Challenged? then Some(parts[|parts| - 1])
    else LastChallenge(parts[..|parts| - 1])
  }

  lemma LastAppend(parts: seq<Part>, p: Part)
    ensures LastNonce(parts + [p]) == if p.Begun? then p.nonce else LastNonce(parts)
    ensures LastChallenge(parts + [p]) == if p.Challenged? then Some(p) else LastChallenge(parts)
  {
    assert (parts + [p])[..|parts|] == parts;
  }

  ghost predicate Explained(c: Crypto, s: State, parts: seq<Part>)
  {
    && AllSized(parts) && s.tr == Encode(parts)
    && |s.salt| == SALT_LEN && s.nonce == LastNonce(parts)
    && match s.role
       case Sender => forall p :: p in parts && p.Challenged? ==> p == Challenged(c.marshal(c.pub(s.ephemeral)), s.salt)
       case Receiver => match s.peer
                        case None => true
                        case Some(peer) => PeerChallenged(c, LastChallenge(parts), peer, s.salt)
  }

  predicate PeerChallenged(c: Crypto, last: Option<Part>, peer: Point, salt: Bytes)
  {
    last.Some? && last.value.Challenged? && c.unmarshal(last.value.pub) == Some(peer) && last.value.salt == salt
  }

  /** The part a step adds to the transcript, if it adds one. */
  function Added(c: Crypto, s: State, call: Call): (p: Option<Part>)
  {
    match call
    case BeginCall(n) => if s.role == Receiver then Some(Begun(n)) else None
    case OnBeginCall(b) => if s.role == Sender && |b| == NONCE_LEN then Some(Begun(b)) else None
    case ChallengeCall => if s.role == Sender then Some(Challenged(c.marshal(c.pub(s.ephemeral)), s.salt)) else None
    case OnChallengeCall(b) =>
      if s.role == Receiver && |b| == PUB_LEN + SALT_LEN && c.unmarshal(b[..PUB_LEN]).Some?
      then Some(Challenged(b[..PUB_LEN], b[PUB_LEN..])) else None
    case ConfirmCall =>
      if s.role == Receiver && s.peer.Some? then Some(Confirmed(c.marshal(c.pub(s.ephemeral)))) else None
    case OnConfirmCall(b) =>
      if s.role == Sender && |b| == PUB_LEN + TAG_LEN && c.unmarshal(b[..PUB_LEN]).Some?
      then Some(Confirmed(b[..PUB_LEN])) else None
    case _ => None
  }

  /** What every step does to the fields the transcript speaks of. */
  ghost predicate Follows(c: Crypto, s: State, added: Option<Part>, s': State)
  {
    && s'.role == s.role && s'.ephemeral == s.ephemeral
    && match added
       case None =>
         s'.tr == s.tr && s'.nonce == s.nonce && s'.salt == s.salt && (s.role == Receiver ==> s'.peer == s.peer)
       case Some(p) =>
         && p.Sized() && s'.tr == s.tr + p.Encoded()
         && s'.nonce == (if p.Begun? then p.nonce else s.nonce)
         && match s.role
            case Sender =>
              s'.salt == s.salt && (p.Challenged? ==> p == Challenged(c.marshal(c.pub(s.ephemeral)), s.salt))
            case Receiver =>
              if p.Challenged? then c.unmarshal(p.pub).Some? && s'.peer == c.unmarshal(p.pub) && s'.salt == p.salt
              else s'.peer == s.peer && s'.salt == s.salt
  }

  lemma ChallengesFollow(c: Crypto, s: State, call: Call)
    requires Laws(c) && |s.salt| == SALT_LEN && (call.ChallengeCall? || call.OnChallengeCall?)
    ensures Follows(c, s, Added(c, s, call), Step(c, s, call))
  {
  }

  lemma ConfirmsFollow(c: Crypto, s: State, call: Call)
    requires Laws(c) && |s.salt| == SALT_LEN && (call.ConfirmCall? || call.OnConfirmCall?)
    ensures Follows(c, s, Added(c, s, call), Step(c, s, call))
  {
  }

  lemma ResultsFollow(c: Crypto, s: State, call: Call)
    requires call.ResultCall? || call.OnResultCall?
    ensures Follows(c, s, Added(c, s, call), Step(c, s, call))
  {
  }

  lemma StepFollows(c: Crypto, s: State, call: Call)
    requires Laws(c) && call.Valid() && |s.salt| == SALT_LEN
    ensures Follows(c, s, Added(c, s, call), Step(c, s, call))
  {
    if call.ChallengeCall? || call.OnChallengeCall? { ChallengesFollow(c, s, call); }
    else if call.ConfirmCall? || call.OnConfirmCall? { ConfirmsFollow(c, s, call); }
    else if call.ResultCall? || call.OnResultCall? { ResultsFollow(c, s, call); }
  }

  function With(parts: seq<Part>, added: Option<Part>): (parts': seq<Part>)
  {
    match added
    case None => parts
    case Some(p) => parts + [p]
  }

  lemma ExplainedStep(c: Crypto, s: State, added: Option<Part>, s': State, parts: seq<Part>)
    requires Explained(c, s, parts) && Follows(c, s, added, s')
    ensures Explained(c, s', With(parts, added))
  {
    if added.Some? {
      EncodeAppend(parts, added.value);
      LastAppend(parts, added.value);
    }
  }

  /** Part i is a confirm that carries the peer's key. */
  predicate ConfirmsPeer(c: Crypto, parts: seq<Part>, i: nat, peer: Point)
  {
    i < |parts| && parts[i].Confirmed? && c.unmarshal(parts[i].pub) == Some(peer)
  }

  /** A receiver confirms with its own key only, and a sender's peer was confirmed to it. */
  ghost predicate Confirming(c: Crypto, s: State, parts: seq<Part>)
  {
    match s.role
    case Receiver =>
      forall i :: 0 <= i < |parts| && parts[i].Confirmed? ==> parts[i].pub == c.marshal(c.pub(s.ephemeral))
    case Sender => s.peer.Some? ==> exists i: nat :: ConfirmsPeer(c, parts, i, s.peer.value)
  }

  lemma ConfirmingStep(c: Crypto, s: State, call: Call, parts: seq<Part>)
    requires Confirming(c, s, parts)
    ensures Confirming(c, Step(c, s, call), With(parts, Added(c, s, call)))
  {
    var s', parts' := Step(c, s, call), With(parts, Added(c, s, call));
    if s.role == Sender {
      if call.OnConfirmCall? && s'.peer != s.peer {
        assert ConfirmsPeer(c, parts', |parts|, s'.peer.value);
      } else {
        SenderPeerStays(c, s, call);
        if s.peer.Some? {
          var i: nat :| ConfirmsPeer(c, parts, i, s.peer.value);
          assert ConfirmsPeer(c, parts', i, s.peer.value);
        }
      }
    } else {
      ReceiverConfirmsOwn(c, s, call);
    }
  }

  lemma SenderPeerStays(c: Crypto, s: State, call: Call)
    requires s.role == Sender
    ensures Step(c, s, call).role == Sender && (!call.OnConfirmCall? ==> Step(c, s, call).peer == s.peer)
  {
  }

  lemma ReceiverConfirmsOwn(c: Crypto, s: State, call: Call)
    requires s.role == Receiver
    ensures Step(c, s, call).role == Receiver && Step(c, s, call).ephemeral == s.ephemeral
    ensures var p := Added(c, s, call); p.Some? && p.value.Confirmed? ==> p.value.pub == c.marshal(c.pub(s.ephemeral))
  {
  }

  lemma {:induction false} ExplainedRun(c: Crypto, s: State, calls: seq<Call>, parts: seq<Part>)
    returns (parts': seq<Part>)
    requires Laws(c) && AllValid(calls) && Explained(c, s, parts) && Confirming(c, s, parts)
    ensures Explained(c, Run(c, s, calls), parts') && Confirming(c, Run(c, s, calls), parts')
    ensures Run(c, s, calls).role == s.role && Run(c, s, calls).ephemeral == s.ephemeral
    decreases |calls|
  {
    if calls == [] { return parts; }
    var s' := Step(c, s, calls[0]);
    StepFollows(c, s, calls[0]);
    ExplainedStep(c, s, Added(c, s, calls[0]), s', parts);
    ConfirmingStep(c, s, calls[0], parts);
    parts' := ExplainedRun(c, s', calls[1..], With(parts, Added(c, s, calls[0])));
  }

  // ---- tags bind everything they are made from

  function Info(pin: Bytes): (i: Bytes)
  {
    Ascii(PIN_INFO) + pin
  }

  /** What a tag is made from. */
  datatype Made = Made(shared: Bytes, salt: Bytes, pin: Bytes, tr: Bytes, side: byte)

  function Ikm(c: Crypto, m: Made): (i: Bytes) { m.shared + c.hash(m.tr) }
  function MacKey(c: Crypto, m: Made): (k: Bytes) { c.hkdf(Ikm(c, m), m.salt, Info(m.pin)) }
  function Message(c: Crypto, m: Made): (t: Bytes) { c.hash(m.tr) + [m.side] }
  function TagOf(c: Crypto, m: Made): (t: Bytes) { c.hmac(MacKey(c, m), Message(c, m)) }

  /** A concrete collision among the values two tags are made from. */
  predicate Collision(c: Crypto, m: Made, m': Made)
  {
    || (m.tr != m'.tr && c.hash(m.tr) == c.hash(m'.tr))
    || ((Ikm(c, m), m.salt, Info(m.pin)) != (Ikm(c, m'), m'.salt, Info(m'.pin)) && MacKey(c, m) == MacKey(c, m'))
    || ((MacKey(c, m), Message(c, m)) != (MacKey(c, m'), Message(c, m')) && TagOf(c, m) == TagOf(c, m'))
  }

  /** THEOREM (tags bind). Equal tags, unless two of the values they are made from collide,
      come from the same shared point, salt, PIN, transcript and side. */
  lemma TagBinds(c: Crypto, m: Made, m': Made)
    requires Laws(c) && TagOf(c, m) == TagOf(c, m')
    ensures m == m' || Collision(c, m, m')
  {
    if !Collision(c, m, m') {
      assert Message(c, m)[32] == m.side && Message(c, m')[32] == m'.side;
      assert Message(c, m)[..32] == c.hash(m.tr) && Message(c, m')[..32] == c.hash(m'.tr);
      SplitLast(m.shared, m'.shared, c.hash(m.tr), c.hash(m'.tr));
      assert Info(m.pin)[|PIN_INFO|..] == m.pin && Info(m'.pin)[|PIN_INFO|..] == m'.pin;
    }
  }

  lemma SplitLast(a: Bytes, b: Bytes, h: Bytes, k: Bytes)
    requires |h| == |k| && a + h == b + k
    ensures a == b && h == k
  {
    assert (a + h)[..|a|] == a && (b + k)[..|b|] == b;
    assert (a + h)[|a|..] == h && (b + k)[|b|..] == k;
  }

  // ---- the two sides

  /** What a state's tag for `peer` is made from. */
  function MadeBy(c: Crypto, s: State, peer: Point, side: byte): (m: Made)
    requires c.dh(s.ephemeral, peer).Some?
  {
    Made(c.dh(s.ephemeral, peer).value, s.salt, s.pin, s.tr, side)
  }

  /** What the tag this receiver confirms with is made from. */
  function ConfirmMade(c: Crypto, r: State): (m: Made)
    requires Confirm(c, r).out.Ok?
  {
    MadeBy(c, Confirm(c, r).state, r.peer.value, R)
  }

  /** What the tag this sender compares the payload's with is made from. */
  function OnConfirmMade(c: Crypto, s: State, payload: Bytes): (m: Made)
    requires OnConfirm(c, s, payload).out.Ok?
  {
    var s' := OnConfirm(c, s, payload).state;
    MadeBy(c, s', s'.peer.value, R)
  }

  /** What the tag this state sends, or compares with, in the result is made from. */
  function ResultMade(c: Crypto, s: State): (m: Made)
    requires SharedAndKeys(c, s).Ok?
  {
    MadeBy(c, s, s.peer.value, S)
  }

  lemma ConfirmTag(c: Crypto, r: State)
    requires Laws(c) && Confirm(c, r).out.Ok?
    ensures var r' := Confirm(c, r).state;
            && r'.peer == r.peer && r.peer.Some?
            && r' == r.(tr := r'.tr)
            && Confirm(c, r).out.value[PUB_LEN..] == TagOf(c, ConfirmMade(c, r))
            && Confirm(c, r).out.value[..PUB_LEN] == c.marshal(c.pub(r.ephemeral))
  {
  }

  lemma OnConfirmTag(c: Crypto, s: State, payload: Bytes)
    requires OnConfirm(c, s, payload).out.Ok?
    ensures var s' := OnConfirm(c, s, payload).state;
            && |payload| == PUB_LEN + TAG_LEN
            && s'.peer == c.unmarshal(payload[..PUB_LEN]) && s'.peer.Some?
            && s' == s.(tr := s'.tr, peer := s'.peer)
            && payload[PUB_LEN..] == TagOf(c, OnConfirmMade(c, s, payload))
  {
  }

  ghost predicate Fresh(s: State, role: Role)
  {
    s == New(role, s.pin, s.localName, s.ephemeral, s.salt) && |s.salt| == SALT_LEN
  }

  /** Both sides hold the same nonce, salt, PIN and transcript, and each the other's key. */
  ghost predicate Agreed(c: Crypto, s: State, r: State)
  {
    && s.nonce == r.nonce && s.salt == r.salt && s.pin == r.pin && s.tr == r.tr
    && s.peer == Some(c.pub(r.ephemeral)) && r.peer == Some(c.pub(s.ephemeral))
  }

  /** THEOREM (agreement). Whatever calls either side made, in whatever order and with
      whatever payloads, if the sender accepts a confirm that carries the tag of this
      receiver's confirm, the two agree, or two of the values hashed collide. */
  lemma Agreement(c: Crypto, s0: State, sCalls: seq<Call>, r0: State, rCalls: seq<Call>, payload: Bytes)
    requires Laws(c) && Fresh(s0, Sender) && Fresh(r0, Receiver) && AllValid(sCalls) && AllValid(rCalls)
    requires Confirm(c, Run(c, r0, rCalls)).out.Ok?
    requires OnConfirm(c, Run(c, s0, sCalls), payload).out.Ok?
    requires payload[PUB_LEN..] == Confirm(c, Run(c, r0, rCalls)).out.value[PUB_LEN..]
    ensures var s := OnConfirm(c, Run(c, s0, sCalls), payload).state;
            var r := Confirm(c, Run(c, r0, rCalls)).state;
            || Agreed(c, s, r)
            || Collision(c, OnConfirmMade(c, Run(c, s0, sCalls), payload), ConfirmMade(c, Run(c, r0, rCalls)))
  {
    var s, r := Run(c, s0, sCalls), Run(c, r0, rCalls);
    OnConfirmTag(c, s, payload);
    ConfirmTag(c, r);
    TagBinds(c, OnConfirmMade(c, s, payload), ConfirmMade(c, r));
    if OnConfirmMade(c, s, payload) == ConfirmMade(c, r) {
      var ps := ExplainedRun(c, s0, sCalls, []);
      var qs := ExplainedRun(c, r0, rCalls, []);
      SameParts(c, s, r, payload, ps, qs);
    }
  }

  lemma SameLast(ps: seq<Part>, p: Part, qs: seq<Part>, q: Part)
    requires AllSized(ps) && AllSized(qs) && p.Sized() && q.Sized()
    requires Encode(ps) + p.Encoded() == Encode(qs) + q.Encoded()
    ensures ps == qs && p == q
  {
    EncodeAppend(ps, p);
    EncodeAppend(qs, q);
    Decodable(ps + [p], qs + [q]);
    assert (ps + [p])[|ps|] == p && (qs + [q])[|qs|] == q && |ps + [p]| == |qs + [q]|;
    assert ps == (ps + [p])[..|ps|] == (qs + [q])[..|qs|] == qs;
  }

  /** With one transcript, each side's last parts are the other's. */
  lemma SameParts(c: Crypto, s: State, r: State, payload: Bytes, ps: seq<Part>, qs: seq<Part>)
    requires Laws(c) && s.role == Sender && r.role == Receiver
    requires Explained(c, s, ps) && Explained(c, r, qs)
    requires Confirm(c, r).out.Ok? && OnConfirm(c, s, payload).out.Ok?
    requires OnConfirm(c, s, payload).state.tr == Confirm(c, r).state.tr
    requires s.salt == r.salt && s.pin == r.pin
    ensures Agreed(c, OnConfirm(c, s, payload).state, Confirm(c, r).state)
  {
    var p, q := Confirmed(payload[..PUB_LEN]), Confirmed(c.marshal(c.pub(r.ephemeral)));
    SameLast(ps, p, qs, q);
    assert LastChallenge(ps).value in ps;
  }

  /** The receiver accepts the sender's result, is told the sender's name, cut to 255 bytes,
      and its ID, and both hold the secret of the shared point, the transcript and the salt. */
  ghost predicate Completes(c: Crypto, s: State, r: State, id: Bytes, shared: Bytes)
  {
    var sent := ResultMessage(c, s, id);
    && sent.out.Ok? && |sent.state.secret| == 32
    && sent.state.secret == c.hkdf(shared + c.hash(s.tr), s.salt, Ascii(SECRET_INFO))
    && var got := OnResult(c, r, sent.out.value);
    && got.out == Ok(Peer(s.localName[..Min(255, |s.localName|)], id))
    && got.state.secret == sent.state.secret
  }

  /** THEOREM (completion). Once they agree, the result message is accepted, hands over
      the sender's name, cut to 255 bytes, and its ID, and leaves both with one secret. */
  lemma ResultCompletes(c: Crypto, s: State, r: State, id: Bytes)
    requires Laws(c) && Agreed(c, s, r) && |id| == ID_LEN
    ensures c.dh(s.ephemeral, c.pub(r.ephemeral)).Some?
    ensures Completes(c, s, r, id, c.dh(s.ephemeral, c.pub(r.ephemeral)).value)
  {
    assert Name(s) == s.localName[..Min(255, |s.localName|)];
    var keys := SharedAndKeys(c, s);
    assert SharedAndKeys(c, r) == keys && keys.Ok?;
    var tag, name := Tag(c, keys.value, s.tr, S), Name(s);
    var len := [|name| / 256, |name| % 256];
    var out := [1] + tag + len + name + id;
    ResultLayout(tag, len, name, id, out);
  }

  lemma ResultLayout(tag: Bytes, len: Bytes, name: Bytes, id: Bytes, out: Bytes)
    requires |tag| == TAG_LEN && |len| == 2 && out == [1] + tag + len + name + id
    ensures out[0] == 1 && out[1..1 + TAG_LEN] == tag
    ensures out[1 + TAG_LEN] == len[0] && out[2 + TAG_LEN] == len[1]
    ensures out[3 + TAG_LEN..] == name + id
    ensures (name + id)[..|name|] == name && (name + id)[|name|..] == id
  {
  }

  /** An honest meeting up to the sender's check: its verdict and the receiver's state. */
  function Meet(c: Crypto, s0: State, r0: State, nonce: Bytes): (r: (Reply<()>, State, Result<Bytes>))
  {
    var begun := Begin(r0, nonce);
    var s1 := OnBegin(s0, nonce).state;
    var challenge := Challenge(c, s1);
    if challenge.out.Err? then (Reply(s1, Err("no challenge")), begun.state, Err("no challenge"))
    else
      var r2 := OnChallenge(c, begun.state, challenge.out.value).state;
      var confirm := Confirm(c, r2);
      match confirm.out
      case Err(e) => (Reply(challenge.state, Err(e)), confirm.state, Err(e))
      case Ok(payload) => (OnConfirm(c, challenge.state, payload), confirm.state, Ok(payload))
  }

  /** Two fresh sides that relay each other's messages faithfully. */
  lemma Meeting(c: Crypto, s0: State, r0: State, nonce: Bytes) returns (s: State, r: State)
    requires Laws(c) && Fresh(s0, Sender) && Fresh(r0, Receiver) && |nonce| == NONCE_LEN
    ensures var (verdict, r', payload) := Meet(c, s0, r0, nonce);
            && r' == r && payload.Ok?
            && r.pin == r0.pin && s.pin == s0.pin && s.localName == s0.localName
            && (s0.pin == r0.pin ==> Agreed(c, s, r))
            && c.dh(s.ephemeral, c.pub(r.ephemeral)) == c.dh(r.ephemeral, c.pub(s.ephemeral))
            && c.dh(s.ephemeral, c.pub(r.ephemeral)).Some?
            && r.ephemeral == r0.ephemeral && s.ephemeral == s0.ephemeral && s.salt == s0.salt && s.tr == r.tr
            && r.tr == Ascii(BEGIN) + nonce + (Ascii(CHALLENGE) + c.marshal(c.pub(s0.ephemeral)) + s0.salt)
                       + (Ascii(CONFIRM) + c.marshal(c.pub(r0.ephemeral)))
            && var m, m' := MadeBy(c, s, c.pub(r.ephemeral), R), MadeBy(c, r, c.pub(s.ephemeral), R);
            && (TagOf(c, m) == TagOf(c, m') ==> verdict == Reply(s, Ok(())))
            && (TagOf(c, m) != TagOf(c, m') ==>
                 verdict == Reply(s.(peer := None), Err("pairing pin mismatch")))
  {
    var s1 := OnBegin(s0, nonce).state;
    var challenge := Challenge(c, s1);
    var pub := c.marshal(c.pub(s0.ephemeral));
    assert challenge.out.value == pub + s0.salt;
    assert (pub + s0.salt)[..PUB_LEN] == pub && (pub + s0.salt)[PUB_LEN..] == s0.salt;
    var r1 := Begin(r0, nonce).state;
    var r2 := OnChallenge(c, r1, challenge.out.value).state;
    assert r2.peer == Some(c.pub(s0.ephemeral)) && r2.salt == s0.salt;
    assert r2.tr == challenge.state.tr;
    var confirm := Confirm(c, r2);
    assert confirm.out.Ok?;
    ConfirmTag(c, r2);
    r := confirm.state;
    var payload := confirm.out.value;
    assert payload[..PUB_LEN] == c.marshal(c.pub(r0.ephemeral));
    s := challenge.state.(tr := r.tr, peer := Some(c.pub(r0.ephemeral)));
  }

  /** THEOREM (honest runs). With equal PINs both sides succeed with one secret; with
      different ones the sender rejects, or two of the values hashed collide. */
  lemma HonestRun(c: Crypto, s0: State, r0: State, nonce: Bytes, id: Bytes)
    requires Laws(c) && Fresh(s0, Sender) && Fresh(r0, Receiver) && |nonce| == NONCE_LEN && |id| == ID_LEN
    ensures var (verdict, r, _) := Meet(c, s0, r0, nonce);
            && (s0.pin == r0.pin ==>
                 && verdict.out.Ok? && verdict.state.localName == s0.localName
                 && verdict.state.tr == r.tr && verdict.state.salt == s0.salt
                 && Completes(c, verdict.state, r, id, c.dh(s0.ephemeral, c.pub(r0.ephemeral)).value))
            && (s0.pin != r0.pin ==>
                 || (verdict.out == Err("pairing pin mismatch") && verdict.state.peer == None)
                 || (&& verdict.out.Ok?
                     && Collision(c, MadeBy(c, verdict.state, c.pub(r0.ephemeral), R),
                                     MadeBy(c, r, c.pub(s0.ephemeral), R))))
  {
    var s, r := Meeting(c, s0, r0, nonce);
    var m, m' := MadeBy(c, s, c.pub(r.ephemeral), R), MadeBy(c, r, c.pub(s.ephemeral), R);
    if s0.pin == r0.pin {
      ResultCompletes(c, s, r, id);
    } else if TagOf(c, m) == TagOf(c, m') {
      TagBinds(c, m, m');
    }
  }

  /** Equal result tags, from any two states. */
  lemma ResultTags(c: Crypto, s: State, id: Bytes, r: State, payload: Bytes)
    requires Laws(c) && ResultMessage(c, s, id).out.Ok? && OnResult(c, r, payload).out.Ok?
    requires payload[1..1 + TAG_LEN] == ResultMessage(c, s, id).out.value[1..1 + TAG_LEN]
    ensures || Collision(c, ResultMade(c, s), ResultMade(c, r))
            || (&& ResultMessage(c, s, id).state.secret == OnResult(c, r, payload).state.secret
                && s.pin == r.pin && s.salt == r.salt && s.tr == r.tr)
  {
    assert ResultMessage(c, s, id).out.value[1..1 + TAG_LEN] == TagOf(c, ResultMade(c, s));
    TagBinds(c, ResultMade(c, s), ResultMade(c, r));
  }

  /** THEOREM (result agreement). Whatever calls either side made, in whatever order and
      with whatever payloads, if the receiver accepts a result that carries the tag of this
      sender's result, the two agree and end with one secret, or two of the values hashed
      collide. */
  lemma ResultAgreement(
      c: Crypto, s0: State, sCalls: seq<Call>, r0: State, rCalls: seq<Call>, id: Bytes, payload: Bytes)
    requires Laws(c) && Fresh(s0, Sender) && Fresh(r0, Receiver) && AllValid(sCalls) && AllValid(rCalls)
    requires ResultMessage(c, Run(c, s0, sCalls), id).out.Ok?
    requires OnResult(c, Run(c, r0, rCalls), payload).out.Ok?
    requires payload[1..1 + TAG_LEN] == ResultMessage(c, Run(c, s0, sCalls), id).out.value[1..1 + TAG_LEN]
    ensures var s, r := Run(c, s0, sCalls), Run(c, r0, rCalls);
            || Collision(c, ResultMade(c, s), ResultMade(c, r))
            || (&& Agreed(c, s, r)
                && ResultMessage(c, s, id).state.secret == OnResult(c, r, payload).state.secret)
  {
    var s, r := Run(c, s0, sCalls), Run(c, r0, rCalls);
    ResultTags(c, s, id, r, payload);
    if s.tr == r.tr && s.pin == r.pin && s.salt == r.salt {
      var ps := ExplainedRun(c, s0, sCalls, []);
      var qs := ExplainedRun(c, r0, rCalls, []);
      SamePeers(c, s, r, ps, qs);
    }
  }

  /** With one transcript, the confirms in it are the receiver's and the last challenge the
      sender's. */
  lemma SamePeers(c: Crypto, s: State, r: State, ps: seq<Part>, qs: seq<Part>)
    requires Laws(c) && s.role == Sender && r.role == Receiver && s.peer.Some? && r.peer.Some?
    requires Explained(c, s, ps) && Explained(c, r, qs) && Confirming(c, s, ps) && Confirming(c, r, qs)
    requires s.tr == r.tr && s.pin == r.pin && s.salt == r.salt
    ensures Agreed(c, s, r)
  {
    Decodable(ps, qs);
    var i: nat :| ConfirmsPeer(c, ps, i, s.peer.value);
    assert qs[i].pub == c.marshal(c.pub(r.ephemeral));
    assert LastChallenge(ps).value in ps;
  }

  /** THEOREM (no reflection). A confirm's tag sent back never passes for a result's. */
  lemma NoReflection(c: Crypto, r: State, r': State, payload: Bytes)
    requires Laws(c) && Confirm(c, r).out.Ok? && OnResult(c, r', payload).out.Ok?
    requires payload[1..1 + TAG_LEN] == Confirm(c, r).out.value[PUB_LEN..]
    ensures Collision(c, ConfirmMade(c, r), ResultMade(c, r'))
  {
    ConfirmTag(c, r);
    TagBinds(c, ConfirmMade(c, r), ResultMade(c, r'));
  }
}
