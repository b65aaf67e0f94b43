/**
What a pairing secret is made from, and that two meetings do not share one
(engine/internal/pairing/exchange.go). As for tags, the statements hold up to a
collision between two concrete, named inputs.
*/
module PairingSecrets {
  import opened Common
  import opened Pairing
  import opened PairingAgreement

  /** What a secret is made from. */
  datatype Root = Root(shared: Bytes, salt: Bytes, tr: Bytes)

  /** The input of HKDF: key material, salt and info. */
  function SecretInput(c: Crypto, m: Root): (i: (Bytes, Bytes, Bytes))
  {
    (m.shared + c.hash(m.tr), m.salt, Ascii(SECRET_INFO))
  }

  function MacInput(c: Crypto, m: Made): (i: (Bytes, Bytes, Bytes))
  {
    (Ikm(c, m), m.salt, Info(m.pin))
  }

  function Hkdf(c: Crypto, i: (Bytes, Bytes, Bytes)): (k: Bytes)
  {
    c.hkdf(i.0, i.1, i.2)
  }

  predicate HashCollision(c: Crypto, a: Bytes, b: Bytes)
  {
    a != b && c.hash(a) == c.hash(b)
  }

  predicate HkdfCollision(c: Crypto, i: (Bytes, Bytes, Bytes), j: (Bytes, Bytes, Bytes))
  {
    i != j && Hkdf(c, i) == Hkdf(c, j)
  }

  /** The state has all it takes to derive keys. */
  predicate HasRoot(c: Crypto, s: State)
  {
    s.peer.Some? && c.dh(s.ephemeral, s.peer.value).Some?
  }

  function RootOf(c: Crypto, s: State): (m: Root)
    requires HasRoot(c, s)
  {
    Root(c.dh(s.ephemeral, s.peer.value).value, s.salt, s.tr)
  }

  /** The call is a result made or accepted. */
  predicate Results(c: Crypto, s: State, call: Call)
  {
    match call
    case ResultCall(id) => ResultMessage(c, s, id).out.Ok?
    case OnResultCall(payload) => OnResult(c, s, payload).out.Ok?
    case _ => false
  }

  /** A result leaves the state with the secret of its root; no other call changes it. */
  lemma ResultSecret(c: Crypto, s: State, call: Call)
    ensures Results(c, s, call) ==>
      HasRoot(c, s) && Step(c, s, call) == s.(secret := Hkdf(c, SecretInput(c, RootOf(c, s))))
    ensures !Results(c, s, call) ==> Step(c, s, call).secret == s.secret
  {
  }

  /** THEOREM (secrets bind). Equal secrets come from the same shared point, salt and
      transcript, or the two transcripts collide under the hash, or the two inputs collide
      under HKDF. */
  lemma SecretBinds(c: Crypto, m: Root, m': Root)
    requires Laws(c) && Hkdf(c, SecretInput(c, m)) == Hkdf(c, SecretInput(c, m'))
    ensures m == m' || HashCollision(c, m.tr, m'.tr) || HkdfCollision(c, SecretInput(c, m), SecretInput(c, m'))
  {
    if SecretInput(c, m) == SecretInput(c, m') {
      SplitLast(m.shared, m'.shared, c.hash(m.tr), c.hash(m'.tr));
    }
  }

  /** THEOREM (a secret is no MAC key). A secret that equals a MAC key, of the same meeting
      or of another, is a collision of HKDF. */
  lemma SecretIsNoMacKey(c: Crypto, m: Root, m': Made)
    requires Hkdf(c, SecretInput(c, m)) == MacKey(c, m')
    ensures HkdfCollision(c, SecretInput(c, m), MacInput(c, m'))
  {
    var a, b := Ascii(SECRET_INFO), Info(m'.pin);
    assert a[6] == SECRET_INFO[6] as int && b[6] == PIN_INFO[6] as int;
  }

  /** THEOREM (results of two meetings). If two results, made or accepted in any two states,
      leave equal secrets, the states have the same shared point, salt and transcript, or
      two named inputs collide. */
  lemma ResultsBind(c: Crypto, s: State, call: Call, s': State, call': Call)
    requires Laws(c) && Results(c, s, call) && Results(c, s', call')
    requires Step(c, s, call).secret == Step(c, s', call').secret
    ensures HasRoot(c, s) && HasRoot(c, s')
    ensures var m, m' := RootOf(c, s), RootOf(c, s');
            || (m == m' && s.salt == s'.salt && s.tr == s'.tr)
            || HashCollision(c, s.tr, s'.tr) || HkdfCollision(c, SecretInput(c, m), SecretInput(c, m'))
  {
    ResultSecret(c, s, call);
    ResultSecret(c, s', call');
    SecretBinds(c, RootOf(c, s), RootOf(c, s'));
  }

  // ---- over runs

  /** Call i of the run is a result. */
  predicate ResultAt(c: Crypto, s: State, calls: seq<Call>, i: nat)
  {
    i < |calls| && Results(c, Run(c, s, calls[..i]), calls[i])
  }

  lemma {:induction false} RunSplits(c: Crypto, s: State, calls: seq<Call>, i: nat)
    requires 0 < i <= |calls|
    ensures Run(c, s, calls[..i]) == Run(c, Step(c, s, calls[0]), calls[1..][..i - 1])
  {
    assert calls[..i][0] == calls[0] && calls[..i][1..] == calls[1..][..i - 1];
  }

  /** A secret comes from the last result of the run. */
  lemma {:induction false} SecretFromResult(c: Crypto, s: State, calls: seq<Call>) returns (i: nat)
    requires Run(c, s, calls).secret != s.secret
    ensures ResultAt(c, s, calls, i) && HasRoot(c, Run(c, s, calls[..i]))
    ensures Run(c, s, calls).secret == Hkdf(c, SecretInput(c, RootOf(c, Run(c, s, calls[..i]))))
    decreases |calls|
  {
    var s' := Step(c, s, calls[0]);
    ResultSecret(c, s, calls[0]);
    if Run(c, s', calls[1..]).secret == s'.secret {
      i := 0;
      assert Run(c, s, calls[..0]) == s;
    } else {
      var j := SecretFromResult(c, s', calls[1..]);
      i := j + 1;
      RunSplits(c, s, calls, i);
    }
  }

  ghost predicate FreshSide(s: State)
  {
    Fresh(s, s.role)
  }

  /** THEOREM (one secret, one meeting). Two sides that have made any calls in any order
      and hold one secret, derived it in states with one shared point, one salt, one
      transcript and one nonce, or two named inputs collide. */
  lemma OneSecretOneMeeting(c: Crypto, s0: State, calls: seq<Call>, s0': State, calls': seq<Call>)
    returns (i: nat, i': nat)
    requires Laws(c) && FreshSide(s0) && FreshSide(s0') && AllValid(calls) && AllValid(calls')
    requires Run(c, s0, calls).secret == Run(c, s0', calls').secret != []
    ensures ResultAt(c, s0, calls, i) && ResultAt(c, s0', calls', i')
    ensures var s, s' := Run(c, s0, calls[..i]), Run(c, s0', calls'[..i']);
            && HasRoot(c, s) && HasRoot(c, s')
            && (|| (RootOf(c, s) == RootOf(c, s') && s.salt == s'.salt && s.tr == s'.tr && s.nonce == s'.nonce)
                || HashCollision(c, s.tr, s'.tr)
                || HkdfCollision(c, SecretInput(c, RootOf(c, s)), SecretInput(c, RootOf(c, s'))))
  {
    i := SecretFromResult(c, s0, calls);
    i' := SecretFromResult(c, s0', calls');
    var s, s' := Run(c, s0, calls[..i]), Run(c, s0', calls'[..i']);
    SecretBinds(c, RootOf(c, s), RootOf(c, s'));
    if RootOf(c, s) == RootOf(c, s') {
      var ps := ExplainedRun(c, s0, calls[..i], []);
      var ps' := ExplainedRun(c, s0', calls'[..i'], []);
      Decodable(ps, ps');
    }
  }

  /** An honest meeting between two fresh sides with one PIN. */
  ghost predicate Honest(c: Crypto, s0: State, r0: State, nonce: Bytes)
  {
    Laws(c) && Fresh(s0, Sender) && Fresh(r0, Receiver) && |nonce| == NONCE_LEN && s0.pin == r0.pin
  }

  /** What the secret of an honest meeting is made from. */
  ghost function MeetingRoot(c: Crypto, s0: State, r0: State, nonce: Bytes): (m: Root)
    requires Honest(c, s0, r0, nonce)
  {
    Root(c.dh(s0.ephemeral, c.pub(r0.ephemeral)).value, s0.salt, Meet(c, s0, r0, nonce).1.tr)
  }

  lemma MeetingParts(c: Crypto, s0: State, r0: State, nonce: Bytes) returns (ps: seq<Part>)
    requires Honest(c, s0, r0, nonce)
    ensures AllSized(ps) && Encode(ps) == Meet(c, s0, r0, nonce).1.tr
    ensures ps == [Begun(nonce), Challenged(c.marshal(c.pub(s0.ephemeral)), s0.salt),
                   Confirmed(c.marshal(c.pub(r0.ephemeral)))]
  {
    var s, r := Meeting(c, s0, r0, nonce);
    var a, b := Begun(nonce), Challenged(c.marshal(c.pub(s0.ephemeral)), s0.salt);
    var d := Confirmed(c.marshal(c.pub(r0.ephemeral)));
    EncodeAppend([], a);
    EncodeAppend([a], b);
    EncodeAppend([a, b], d);
    ps := [a, b, d];
    assert [] + [a] == [a] && [a] + [b] == [a, b] && [a, b] + [d] == ps;
    assert [] + a.Encoded() == a.Encoded();
  }

  /** THEOREM (honest meetings). If two honest meetings end with one secret, they had the
      same nonce, salt and keys, or two named inputs collide. */
  lemma HonestSecretsDiffer(c: Crypto, s0: State, r0: State, nonce: Bytes, id: Bytes,
                            s1: State, r1: State, nonce1: Bytes, id1: Bytes)
    requires Honest(c, s0, r0, nonce) && Honest(c, s1, r1, nonce1) && |id| == |id1| == ID_LEN
    requires ResultMessage(c, Meet(c, s0, r0, nonce).0.state, id).state.secret ==
             ResultMessage(c, Meet(c, s1, r1, nonce1).0.state, id1).state.secret
    ensures var m, m1 := MeetingRoot(c, s0, r0, nonce), MeetingRoot(c, s1, r1, nonce1);
            || (&& nonce == nonce1 && s0.salt == s1.salt
                && c.pub(s0.ephemeral) == c.pub(s1.ephemeral) && c.pub(r0.ephemeral) == c.pub(r1.ephemeral))
            || HashCollision(c, m.tr, m1.tr) || HkdfCollision(c, SecretInput(c, m), SecretInput(c, m1))
  {
    HonestRun(c, s0, r0, nonce, id);
    HonestRun(c, s1, r1, nonce1, id1);
    var m, m1 := MeetingRoot(c, s0, r0, nonce), MeetingRoot(c, s1, r1, nonce1);
    SecretBinds(c, m, m1);
    if m == m1 {
      var ps := MeetingParts(c, s0, r0, nonce);
      var ps1 := MeetingParts(c, s1, r1, nonce1);
      Decodable(ps, ps1);
      assert ps[0] == ps1[0] && ps[1] == ps1[1] && ps[2] == ps1[2];
    }
  }

  // ---- what is accepted, and what a rejection leaves

  /** THEOREM. The receiver accepts a result if and only if it is the tag over the agreed
      values, a name with its length in two bytes, and a 16-byte ID, and nothing else. */
  lemma ResultExact(c: Crypto, r: State, payload: Bytes, name: Bytes, id: Bytes)
    requires Laws(c)
    ensures OnResult(c, r, payload).out == Ok(Peer(name, id)) <==>
            && HasRoot(c, r) && |name| < 0x1_0000 && |id| == 16
            && payload == [1] + TagOf(c, MadeBy(c, r, r.peer.value, S)) + [|name| / 256, |name| % 256] + name + id
  {
    if HasRoot(c, r) {
      var tag := TagOf(c, MadeBy(c, r, r.peer.value, S));
      if |name| < 0x1_0000 && |id| == 16 && payload == [1] + tag + [|name| / 256, |name| % 256] + name + id {
        ResultLayout(tag, [|name| / 256, |name| % 256], name, id, payload);
      }
      if OnResult(c, r, payload).out == Ok(Peer(name, id)) {
        PayloadSplits(payload, tag, name, id);
      }
    }
  }

  lemma PayloadSplits(payload: Bytes, tag: Bytes, name: Bytes, id: Bytes)
    requires |payload| >= 3 + TAG_LEN && |tag| == TAG_LEN && payload[0] == 1 && payload[1..1 + TAG_LEN] == tag
    requires |name| == payload[1 + TAG_LEN] as int * 256 + payload[2 + TAG_LEN] as int
    requires payload[3 + TAG_LEN..] == name + id
    ensures payload == [1] + tag + [|name| / 256, |name| % 256] + name + id
  {
    assert payload == payload[..1] + payload[1..1 + TAG_LEN] + payload[1 + TAG_LEN..3 + TAG_LEN]
                      + payload[3 + TAG_LEN..];
  }

  /** THEOREM. What OnResult hands back as the ID, also beside an error: the last sixteen
      bytes of a payload that says it succeeded and has its length, and zeros otherwise. */
  lemma IdExact(payload: Bytes)
    ensures var whole := |payload| >= 51 && payload[0] == 1 &&
                         |payload| == 51 + payload[33] as int * 256 + payload[34] as int;
            IdOf(payload) == if whole then payload[|payload| - 16..] else Repeat(0, 16)
  {
    if |payload| >= 51 {
      var nameLen: nat := payload[33] as int * 256 + payload[34];
      if |payload| == 51 + nameLen { assert payload[35..][nameLen..] == payload[|payload| - 16..]; }
    }
  }

  /** Whether a call succeeds. */
  predicate Succeeds(c: Crypto, s: State, call: Call)
  {
    match call
    case PinCall(pin) => true
    case BeginCall(nonce) => Begin(s, nonce).out.Ok?
    case OnBeginCall(p) => OnBegin(s, p).out.Ok?
    case ChallengeCall => Challenge(c, s).out.Ok?
    case OnChallengeCall(p) => OnChallenge(c, s, p).out.Ok?
    case ConfirmCall => Confirm(c, s).out.Ok?
    case OnConfirmCall(p) => OnConfirm(c, s, p).out.Ok?
    case ResultCall(id) => ResultMessage(c, s, id).out.Ok?
    case OnResultCall(p) => OnResult(c, s, p).out.Ok?
  }

  /** Whose call it is; both sides may set a PIN and take part in the result. */
  predicate InRole(s: State, call: Call)
  {
    match call
    case BeginCall(_) => s.role == Receiver
    case OnBeginCall(_) => s.role == Sender
    case ChallengeCall => s.role == Sender
    case OnChallengeCall(_) => s.role == Receiver
    case ConfirmCall => s.role == Receiver
    case OnConfirmCall(_) => s.role == Sender
    case _ => true
  }

  /** THEOREM (rejections). A call out of role fails, and a call that fails changes nothing
      but, for a confirm, the transcript. */
  lemma RejectionKeeps(c: Crypto, s: State, call: Call)
    ensures Succeeds(c, s, call) ==> InRole(s, call)
    ensures !Succeeds(c, s, call) ==>
      Step(c, s, call) == if call.ConfirmCall? || call.OnConfirmCall? then s.(tr := Step(c, s, call).tr) else s
  {
  }

  /** The PIN in force: the last one set with four bytes or more. */
  function LastPin(pin: Bytes, calls: seq<Call>): (p: Bytes)
  {
    if calls == [] then pin
    else
      var last := calls[|calls| - 1];
      if last.PinCall? && |last.pin| > 3 then last.pin else LastPin(pin, calls[..|calls| - 1])
  }

  lemma {:induction false} LastPinAhead(pin: Bytes, call: Call, calls: seq<Call>)
    ensures LastPin(pin, [call] + calls) == LastPin(LastPin(pin, [call]), calls)
  {
    var all := [call] + calls;
    if calls == [] {
      assert all == [call];
    } else {
      LastPinAhead(pin, call, calls[..|calls| - 1]);
      assert all[..|all| - 1] == [call] + calls[..|calls| - 1];
    }
  }

  /** THEOREM. In every call order the PIN is the last one set with at least four bytes. */
  lemma {:induction false} PinInForce(c: Crypto, s: State, calls: seq<Call>)
    ensures Run(c, s, calls).pin == LastPin(s.pin, calls)
    decreases |calls|
  {
    if calls != [] {
      PinInForce(c, Step(c, s, calls[0]), calls[1..]);
      LastPinAhead(s.pin, calls[0], calls[1..]);
      assert [calls[0]] + calls[1..] == calls && [calls[0]][..0] == [];
      assert LastPin(s.pin, [calls[0]]) == Step(c, s, calls[0]).pin;
    }
  }
}
