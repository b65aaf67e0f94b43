/**
One side of the pairing exchange, run in place (engine/internal/pairing/exchange.go).
Random bytes and the generated key are parameters.
*/
module PairingExchange {
  import opened Common
  import opened Pairing

  class Exchange {
    const c: Crypto
    const role: Role
    const localName: Bytes
    const ephemeral: Scalar
    var pin: Bytes
    var peer: Option<Point>
    var salt: Bytes
    var nonce: Bytes
    var tr: Bytes
    var secret: Bytes

    function View(): (s: State)
      reads this
    {
      State(role, pin, localName, ephemeral, peer, salt, nonce, tr, secret)
    }

    constructor (c: Crypto, role: Role, pin: Bytes, localName: Bytes, key: Scalar, salt: Bytes)
      ensures this.c == c && View() == New(role, pin, localName, key, salt)
    {
      this.c, this.role, this.pin, this.localName, ephemeral := c, role, pin, localName, key;
      peer, this.salt, nonce, tr, secret := None, salt, Repeat(0, NONCE_LEN), [], [];
    }

    method SetPin(newPin: Bytes)
      modifies this`pin
      ensures View() == SetPIN(old(View()), newPin)
    {
      if |newPin| >= 4 { pin := newPin; }
    }

    method TranscriptAdd(parts: Bytes)
      modifies this`tr
      ensures tr == old(tr) + parts
    {
      tr := tr + parts;
    }

    method SharedKeys() returns (r: Result<Keys>)
      ensures r == SharedAndKeys(c, View())
    {
      if peer.None? { return Err("peer key not set"); }
      var sx := c.dh(ephemeral, peer.value);
      if sx.None? { return Err("ecdh failed"); }
      var ikm := sx.value + c.hash(tr);
      var secret := c.hkdf(ikm, salt, Ascii(SECRET_INFO));
      var macKey := c.hkdf(ikm, salt, Ascii(PIN_INFO) + pin);
      r := Ok(Keys(secret, macKey));
    }

    /** Computes with another peer key and puts the stored one back. */
    method SharedKeysWithPeer(p: Point) returns (r: Result<Keys>)
      modifies this`peer
      ensures r == SharedAndKeys(c, View().(peer := Some(p))) && peer == old(peer)
    {
      var oldPeer := peer;
      peer := Some(p);
      r := SharedKeys();
      peer := oldPeer;
    }

    method Mac(keys: Keys, side: byte) returns (t: Bytes)
      ensures t == Tag(c, keys, tr, side)
    {
      t := c.hmac(keys.macKey, c.hash(tr) + [side]);
    }

    method BeginMessage(random: Bytes) returns (r: Result<Bytes>)
      modifies this
      ensures Reply(View(), r) == Begin(old(View()), random)
    {
      if role != Receiver { return Err("only the receiver begins pairing"); }
      nonce := random;
      TranscriptAdd(Ascii(BEGIN) + nonce);
      r := Ok(nonce);
    }

    method HandleBegin(payload: Bytes) returns (r: Result<()>)
      modifies this
      ensures Reply(View(), r) == OnBegin(old(View()), payload)
    {
      if role != Sender { return Err("only the sender consumes begin"); }
      if |payload| != NONCE_LEN { return Err("pair begin payload malformed"); }
      nonce := payload;
      TranscriptAdd(Ascii(BEGIN) + nonce);
      r := Ok(());
    }

    method ChallengeMessage() returns (r: Result<Bytes>)
      modifies this
      ensures Reply(View(), r) == Challenge(c, old(View()))
    {
      if role != Sender { return Err("only the sender sends the challenge"); }
      var pub := c.marshal(c.pub(ephemeral));
      TranscriptAdd(Ascii(CHALLENGE) + pub + salt);
      r := Ok(pub + salt);
    }

    method HandleChallenge(payload: Bytes) returns (r: Result<()>)
      modifies this
      ensures Reply(View(), r) == OnChallenge(c, old(View()), payload)
    {
      if role != Receiver { return Err("only the receiver consumes the challenge"); }
      if |payload| != PUB_LEN + SALT_LEN { return Err("pair challenge payload malformed"); }
      var p := c.unmarshal(payload[..PUB_LEN]);
      if p.None? { return Err("invalid challenge public key"); }
      peer := p;
      salt := payload[PUB_LEN..];
      TranscriptAdd(Ascii(CHALLENGE) + payload[..PUB_LEN] + payload[PUB_LEN..]);
      r := Ok(());
    }

    method ConfirmMessage() returns (r: Result<Bytes>)
      modifies this
      ensures Reply(View(), r) == Confirm(c, old(View()))
    {
      if role != Receiver { return Err("only the receiver sends confirm"); }
      if peer.None? { return Err("confirm before challenge"); }
      var pub := c.marshal(c.pub(ephemeral));
      TranscriptAdd(Ascii(CONFIRM) + pub);
      var keys := SharedKeys();
      if keys.Err? { return Err(keys.reason); }
      var tag := Mac(keys.value, R);
      r := Ok(pub + tag);
    }

    method HandleConfirm(payload: Bytes) returns (r: Result<()>)
      modifies this
      ensures Reply(View(), r) == OnConfirm(c, old(View()), payload)
    {
      if role != Sender { return Err("only the sender consumes confirm"); }
      if |payload| != PUB_LEN + TAG_LEN { return Err("pair confirm payload malformed"); }
      var p := c.unmarshal(payload[..PUB_LEN]);
      if p.None? { return Err("invalid confirm public key"); }
      TranscriptAdd(Ascii(CONFIRM) + payload[..PUB_LEN]);
      var keys := SharedKeysWithPeer(p.value);
      if keys.Err? { return Err(keys.reason); }
      var tag := Mac(keys.value, R);
      if tag != payload[PUB_LEN..] { return Err("pairing pin mismatch"); }
      peer := p;
      r := Ok(());
    }

    method SendResult(id: Bytes) returns (r: Result<Bytes>)
      modifies this
      ensures Reply(View(), r) == ResultMessage(c, old(View()), id)
    {
      var keys := SharedKeys();
      if keys.Err? { return Err(keys.reason); }
      secret := keys.value.secret;
      var tag := Mac(keys.value, S);
      var name := localName;
      if |name| > 255 { name := name[..255]; }
      r := Ok([1] + tag + [|name| / 256, |name| % 256] + name + id);
    }

    method HandleResult(payload: Bytes) returns (r: Result<Peer>, id: Bytes)
      modifies this
      ensures Reply(View(), r) == OnResult(c, old(View()), payload)
      ensures id == IdOf(payload) && (r.Ok? ==> r.value.id == id)
    {
      id := Repeat(0, ID_LEN);
      if |payload| < 1 + TAG_LEN + 2 + ID_LEN { return Err("pair result payload malformed"), id; }
      if payload[0] != 1 { return Err("pairing pin mismatch"), id; }
      var tag := payload[1..1 + TAG_LEN];
      var nameLen: nat := payload[1 + TAG_LEN] as int * 256 + payload[2 + TAG_LEN];
      var rest := payload[3 + TAG_LEN..];
      if |rest| != nameLen + ID_LEN { return Err("pair result length mismatch"), id; }
      id := rest[nameLen..];
      var keys := SharedKeys();
      if keys.Err? { return Err(keys.reason), id; }
      var mac := Mac(keys.value, S);
      if mac != tag { return Err("pairing pin mismatch"), id; }
      secret := keys.value.secret;
      r := Ok(Peer(rest[..nameLen], id));
    }
  }
}
