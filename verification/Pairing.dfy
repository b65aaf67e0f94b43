/**
The PIN pairing exchange (engine/internal/pairing/exchange.go). The cryptographic
primitives are one record of functions, about which only lengths and the group law
are ever assumed; agreement is proved up to a concrete collision of one of them. A
state and what each message step makes of it are values here; class Exchange runs
the steps in place.
*/
module Pairing {
  import opened Common

  type Bytes = seq<byte>
  /** A private key is below the order of the P-256 group. */
  const ORDER: nat := 0xFFFFFFFF_00000000_FFFFFFFF_FFFFFFFF_BCE6FAAD_A7179E84_F3B9CAC2_FC632551
  type Scalar = d: nat | 1 <= d < ORDER witness 1
  datatype Point = Point(x: nat, y: nat)

  /** hkdf and hmac are HKDF-SHA256 with 32 bytes of output and HMAC-SHA256; dh is the
      minimal big-endian x coordinate of the shared point. */
  datatype Crypto = Crypto(
    hash: Bytes -> Bytes,
    hkdf: (Bytes, Bytes, Bytes) -> Bytes,
    hmac: (Bytes, Bytes) -> Bytes,
    pub: Scalar -> Point,
    marshal: Point -> Bytes,
    unmarshal: Bytes -> Option<Point>,
    dh: (Scalar, Point) -> Option<Bytes>
  )

  const TAG_LEN := 32
  const PUB_LEN := 65
  const SALT_LEN := 16
  const NONCE_LEN := 16
  const ID_LEN := 16

  ghost predicate Laws(c: Crypto)
  {
    && (forall m :: |c.hash(m)| == 32)
    && (forall k, s, i :: |c.hkdf(k, s, i)| == 32)
    && (forall k, m :: |c.hmac(k, m)| == TAG_LEN)
    && (forall d :: |c.marshal(c.pub(d))| == PUB_LEN)
    && (forall d :: c.unmarshal(c.marshal(c.pub(d))) == Some(c.pub(d)))
    && (forall a, b :: c.dh(a, c.pub(b)) == c.dh(b, c.pub(a)))
    && (forall a, b :: c.dh(a, c.pub(b)).Some?)
  }

  function Ascii(s: string): (b: Bytes)
    requires forall i :: 0 <= i < |s| ==> s[i] < 128 as char
    ensures |b| == |s| && forall i :: 0 <= i < |s| ==> b[i] == s[i] as int
  {
    seq(|s|, i requires 0 <= i < |s| => s[i] as int)
  }

  const BEGIN := "begin"
  const CHALLENGE := "challenge"
  const CONFIRM := "confirm"
  const PIN_INFO := "rau2-pin-verify-v1|"
  const SECRET_INFO := "rau2-pairing-secret-v1"

  datatype Role = Sender | Receiver

  /** secret == [] is the nil slice: no secret derived. */
  datatype State = State(
    role: Role, pin: Bytes, localName: Bytes, ephemeral: Scalar,
    peer: Option<Point>, salt: Bytes, nonce: Bytes, tr: Bytes, secret: Bytes)

  function New(role: Role, pin: Bytes, localName: Bytes, key: Scalar, salt: Bytes): (s: State)
  {
    State(role, pin, localName, key, None, salt, Repeat(0, NONCE_LEN), [], [])
  }

  // ---- the message steps: the new state, and what is sent or why not

  datatype Reply<T> = Reply(state: State, out: Result<T>)

  datatype Keys = Keys(secret: Bytes, macKey: Bytes)

  function SharedAndKeys(c: Crypto, s: State): (r: Result<Keys>)
  {
    if s.peer.None? then Err("peer key not set")
    else
      match c.dh(s.ephemeral, s.peer.value)
      case None => Err("ecdh failed")
      case Some(sx) =>
        var ikm := sx + c.hash(s.tr);
        Ok(Keys(c.hkdf(ikm, s.salt, Ascii(SECRET_INFO)), c.hkdf(ikm, s.salt, Ascii(PIN_INFO) + s.pin)))
  }

  const R: byte := 82
  const S: byte := 83

  function Tag(c: Crypto, keys: Keys, tr: Bytes, side: byte): (t: Bytes)
  {
    c.hmac(keys.macKey, c.hash(tr) + [side])
  }

  function SetPIN(s: State, pin: Bytes): (s': State)
  {
    if |pin| >= 4 then s.(pin := pin) else s
  }

  function Begin(s: State, nonce: Bytes): (r: Reply<Bytes>)
  {
    if s.role != Receiver then Reply(s, Err("only the receiver begins pairing"))
    else Reply(s.(nonce := nonce, tr := s.tr + (Ascii(BEGIN) + nonce)), Ok(nonce))
  }

  function OnBegin(s: State, payload: Bytes): (r: Reply<()>)
  {
    if s.role != Sender then Reply(s, Err("only the sender consumes begin"))
    else if |payload| != NONCE_LEN then Reply(s, Err("pair begin payload malformed"))
    else Reply(s.(nonce := payload, tr := s.tr + (Ascii(BEGIN) + payload)), Ok(()))
  }

  function Challenge(c: Crypto, s: State): (r: Reply<Bytes>)
  {
    if s.role != Sender then Reply(s, Err("only the sender sends the challenge"))
    else
      var pub := c.marshal(c.pub(s.ephemeral));
      Reply(s.(tr := s.tr + (Ascii(CHALLENGE) + pub + s.salt)), Ok(pub + s.salt))
  }

  function OnChallenge(c: Crypto, s: State, payload: Bytes): (r: Reply<()>)
  {
    if s.role != Receiver then Reply(s, Err("only the receiver consumes the challenge"))
    else if |payload| != PUB_LEN + SALT_LEN then Reply(s, Err("pair challenge payload malformed"))
    else
      var pub, salt := payload[..PUB_LEN], payload[PUB_LEN..];
      match c.unmarshal(pub)
      case None => Reply(s, Err("invalid challenge public key"))
      case Some(p) =>
        Reply(s.(peer := Some(p), salt := salt, tr := s.tr + (Ascii(CHALLENGE) + pub + salt)), Ok(()))
  }

  function Confirm(c: Crypto, s: State): (r: Reply<Bytes>)
  {
    if s.role != Receiver then Reply(s, Err("only the receiver sends confirm"))
    else if s.peer.None? then Reply(s, Err("confirm before challenge"))
    else
      var pub := c.marshal(c.pub(s.ephemeral));
      var s' := s.(tr := s.tr + (Ascii(CONFIRM) + pub));
      match SharedAndKeys(c, s')
      case Err(e) => Reply(s', Err(e))
      case Ok(keys) => Reply(s', Ok(pub + Tag(c, keys, s'.tr, R)))
  }

  function OnConfirm(c: Crypto, s: State, payload: Bytes): (r: Reply<()>)
  {
    if s.role != Sender then Reply(s, Err("only the sender consumes confirm"))
    else if |payload| != PUB_LEN + TAG_LEN then Reply(s, Err("pair confirm payload malformed"))
    else
      match c.unmarshal(payload[..PUB_LEN])
      case None => Reply(s, Err("invalid confirm public key"))
      case Some(p) =>
        var s' := s.(tr := s.tr + (Ascii(CONFIRM) + payload[..PUB_LEN]));
        match SharedAndKeys(c, s'.(peer := Some(p)))
        case Err(e) => Reply(s', Err(e))
        case Ok(keys) =>
          if Tag(c, keys, s'.tr, R) != payload[PUB_LEN..] then Reply(s', Err("pairing pin mismatch"))
          else Reply(s'.(peer := Some(p)), Ok(()))
  }

  function Name(s: State): (n: Bytes)
  {
    if |s.localName| > 255 then s.localName[..255] else s.localName
  }

  function ResultMessage(c: Crypto, s: State, id: Bytes): (r: Reply<Bytes>)
  {
    match SharedAndKeys(c, s)
    case Err(e) => Reply(s, Err(e))
    case Ok(keys) =>
      var len := [|Name(s)| / 256, |Name(s)| % 256];
      Reply(s.(secret := keys.secret), Ok([1] + Tag(c, keys, s.tr, S) + len + Name(s) + id))
  }

  datatype Peer = Peer(name: Bytes, id: Bytes)

  function OnResult(c: Crypto, s: State, payload: Bytes): (r: Reply<Peer>)
  {
    if |payload| < 1 + TAG_LEN + 2 + ID_LEN then Reply(s, Err("pair result payload malformed"))
    else if payload[0] != 1 then Reply(s, Err("pairing pin mismatch"))
    else
      var tag, rest := payload[1..1 + TAG_LEN], payload[3 + TAG_LEN..];
      var nameLen: nat := payload[1 + TAG_LEN] as int * 256 + payload[2 + TAG_LEN];
      if |rest| != nameLen + ID_LEN then Reply(s, Err("pair result length mismatch"))
      else
        match SharedAndKeys(c, s)
        case Err(e) => Reply(s, Err(e))
        case Ok(keys) =>
          if Tag(c, keys, s.tr, S) != tag then Reply(s, Err("pairing pin mismatch"))
          else Reply(s.(secret := keys.secret), Ok(Peer(rest[..nameLen], rest[nameLen..])))
  }

  /** The ID OnResult hands back: also beside an error, once the payload has its length. */
  function IdOf(payload: Bytes): (id: Bytes)
    ensures |id| == ID_LEN
  {
    if |payload| < 1 + TAG_LEN + 2 + ID_LEN || payload[0] != 1 then Repeat(0, ID_LEN)
    else
      var nameLen: nat := payload[1 + TAG_LEN] as int * 256 + payload[2 + TAG_LEN];
      if |payload[3 + TAG_LEN..]| != nameLen + ID_LEN then Repeat(0, ID_LEN)
      else payload[3 + TAG_LEN..][nameLen..]
  }

  // ---- any calls in any order

  datatype Call =
    | PinCall(pin: Bytes)
    | BeginCall(nonce: Bytes)
    | OnBeginCall(payload: Bytes)
    | ChallengeCall
    | OnChallengeCall(payload: Bytes)
    | ConfirmCall
    | OnConfirmCall(payload: Bytes)
    | ResultCall(id: Bytes)
    | OnResultCall(payload: Bytes)
  {
    /** The program's own random nonces are sixteen bytes long. */
    predicate Valid() { BeginCall? ==> |nonce| == NONCE_LEN }
  }

  function Step(c: Crypto, s: State, call: Call): (s': State)
  {
    match call
    case PinCall(pin) => SetPIN(s, pin)
    case BeginCall(nonce) => Begin(s, nonce).state
    case OnBeginCall(p) => OnBegin(s, p).state
    case ChallengeCall => Challenge(c, s).state
    case OnChallengeCall(p) => OnChallenge(c, s, p).state
    case ConfirmCall => Confirm(c, s).state
    case OnConfirmCall(p) => OnConfirm(c, s, p).state
    case ResultCall(id) => ResultMessage(c, s, id).state
    case OnResultCall(p) => OnResult(c, s, p).state
  }

  function Run(c: Crypto, s: State, calls: seq<Call>): (s': State)
    decreases |calls|
  {
    if calls == [] then s else Run(c, Step(c, s, calls[0]), calls[1..])
  }

  ghost predicate AllValid(calls: seq<Call>)
  {
    forall i :: 0 <= i < |calls| ==> calls[i].Valid()
  }

  predicate Accepts(c: Crypto, s: State, call: Call)
  {
    call.OnConfirmCall? && OnConfirm(c, s, call.payload).out.Ok?
  }

  /** Some OnConfirm of the run succeeded. */
  predicate Accepted(c: Crypto, s: State, calls: seq<Call>)
    decreases |calls|
  {
    calls != []
    && (Accepts(c, s, calls[0]) || Accepted(c, Step(c, s, calls[0]), calls[1..]))
  }

  lemma SenderStep(c: Crypto, s: State, call: Call)
    requires s.role == Sender && (s.secret != [] ==> s.peer.Some?)
    ensures var s' := Step(c, s, call);
            && s'.role == Sender && (s'.secret != [] ==> s'.peer.Some?)
            && (s'.peer.Some? <==> s.peer.Some? || Accepts(c, s, call))
  {
  }

  /** THEOREM (no secret before the PIN check). In every call order, a sender knows its
      peer exactly when some OnConfirm has succeeded, and so holds a secret only then. */
  lemma {:induction false} SecretOnlyAfterConfirm(c: Crypto, s: State, calls: seq<Call>)
    requires s.role == Sender && (s.secret != [] ==> s.peer.Some?)
    ensures var s' := Run(c, s, calls);
            && s'.role == Sender
            && (s'.peer.Some? <==> s.peer.Some? || Accepted(c, s, calls))
            && (s'.secret != [] ==> s'.peer.Some?)
    decreases |calls|
  {
    if calls != [] {
      SenderStep(c, s, calls[0]);
      SecretOnlyAfterConfirm(c, Step(c, s, calls[0]), calls[1..]);
    }
  }
}
