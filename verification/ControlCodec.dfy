/**
The v2 control stream (engine/internal/protocol/v2/control.go): message framing on a
byte stream, and the caps and hello payloads.
*/
module ControlCodec {
  import opened Common
  import opened Bytes

  const MAX_CONTROL_PAYLOAD := 4096

  datatype Message = Message(kind: u16, flags: u16, requestId: u32, payload: seq<byte>)

  function Header(m: Message): (b: seq<byte>)
    requires |m.payload| < 0x1_0000_0000
    ensures |b| == 12
  {
    Put16LE(m.kind) + Put16LE(m.flags) + Put32LE(m.requestId) + Put32LE(|m.payload|)
  }

  /** What WriteMessage puts on the stream. */
  function WriteMessage(m: Message): (r: Result<seq<byte>>)
  {
    if |m.payload| > MAX_CONTROL_PAYLOAD then Err("v2 control payload too large")
    else Ok(Header(m) + m.payload)
  }

  /** What ReadMessage takes off the stream, and what it leaves there. */
  function ReadMessage(s: seq<byte>): (r: Result<(Message, seq<byte>)>)
  {
    if |s| < 12 then Err(if s == [] then "EOF" else "unexpected EOF")
    else
      var n := Get32LE(s[8..12]);
      if n > MAX_CONTROL_PAYLOAD then Err("v2 control payload too large")
      else if |s| < 12 + n then Err(if |s| == 12 then "EOF" else "unexpected EOF")
      else Ok((Message(Get16LE(s[0..2]), Get16LE(s[2..4]), Get32LE(s[4..8]), s[12..12 + n]), s[12 + n..]))
  }

  function WriteAll(ms: seq<Message>): (r: Result<seq<byte>>)
  {
    if ms == [] then Ok([])
    else
      match (WriteMessage(ms[0]), WriteAll(ms[1..]))
      case (Ok(a), Ok(b)) => Ok(a + b)
      case (Err(e), _) => Err(e)
      case (Ok(_), Err(e)) => Err(e)
  }

  /** Read messages until the stream ends exactly at a message boundary. */
  function ReadAll(s: seq<byte>): (r: Result<seq<Message>>)
    decreases |s|
  {
    if s == [] then Ok([])
    else
      match ReadMessage(s)
      case Err(e) => Err(e)
      case Ok((m, rest)) =>
        match ReadAll(rest)
        case Err(e) => Err(e)
        case Ok(ms) => Ok([m] + ms)
  }

  /** THEOREM (framing is exact). A stream yields message m and leaves `rest` if and
      only if it is the encoding of m followed by `rest`. */
  lemma FramingExact(s: seq<byte>, m: Message, rest: seq<byte>)
    ensures ReadMessage(s) == Ok((m, rest)) <==>
            (WriteMessage(m).Ok? && s == WriteMessage(m).value + rest)
  {
    if ReadMessage(s) == Ok((m, rest)) {
      Inverse16(0, s[0..2]);
      Inverse16(0, s[2..4]);
      Inverse32(0, s[4..8]);
      Inverse32(0, s[8..12]);
      assert s == s[0..2] + s[2..4] + s[4..8] + s[8..12] + m.payload + rest;
      assert Header(m) == s[0..2] + s[2..4] + s[4..8] + s[8..12];
    }
    if WriteMessage(m).Ok? && s == WriteMessage(m).value + rest {
      WrittenIsRead(m, rest);
    }
  }

  lemma WrittenIsRead(m: Message, rest: seq<byte>)
    requires WriteMessage(m).Ok?
    ensures ReadMessage(WriteMessage(m).value + rest) == Ok((m, rest))
  {
    var s := WriteMessage(m).value + rest;
    Inverse16(m.kind, [0, 0]);
    Inverse16(m.flags, [0, 0]);
    Inverse32(m.requestId, [0, 0, 0, 0]);
    Inverse32(|m.payload|, [0, 0, 0, 0]);
    assert s[0..2] == Put16LE(m.kind) && s[2..4] == Put16LE(m.flags);
    assert s[4..8] == Put32LE(m.requestId) && s[8..12] == Put32LE(|m.payload|);
    assert s[12..12 + |m.payload|] == m.payload && s[12 + |m.payload|..] == rest;
  }

  /** THEOREM (a list survives). Any list of messages that can be written back to back
      is read back as that same list, and nothing else reads back as it. */
  lemma {:induction false} ListRoundTrip(ms: seq<Message>, s: seq<byte>)
    ensures ReadAll(s) == Ok(ms) <==> WriteAll(ms) == Ok(s)
    decreases |ms| + |s|
  {
    if ms != [] && WriteAll(ms) == Ok(s) {
      var a, b := WriteMessage(ms[0]).value, WriteAll(ms[1..]).value;
      WrittenIsRead(ms[0], b);
      ListRoundTrip(ms[1..], b);
      assert ms == [ms[0]] + ms[1..];
    }
    if s != [] && ReadAll(s) == Ok(ms) {
      var (m, rest) := ReadMessage(s).value;
      FramingExact(s, m, rest);
      assert ms[0] == m && ms[1..] == ReadAll(rest).value;
      ListRoundTrip(ms[1..], rest);
    }
  }

  // ---- payloads

  datatype Caps = Caps(
    codec: u8, sampleRate: u32, channels: u8, frameMs: u8, opusBitrate: u32,
    fec: u8, dtx: u8, complexity: u8, appId: u8)

  const CAPS_SIZE := 15

  function AppendCaps(dst: seq<byte>, c: Caps): (b: seq<byte>)
    ensures |b| == |dst| + CAPS_SIZE && b[..|dst|] == dst
  {
    dst + [c.codec] + Put32LE(c.sampleRate) + [c.channels, c.frameMs] + Put32LE(c.opusBitrate) +
    [c.fec, c.dtx, c.complexity, c.appId]
  }

  function DecodeCaps(b: seq<byte>): (r: Result<Caps>)
  {
    if |b| < CAPS_SIZE then Err("caps truncated")
    else Ok(Caps(b[0], Get32LE(b[1..5]), b[5], b[6], Get32LE(b[7..11]), b[11], b[12], b[13], b[14]))
  }

  lemma CapsDecode(c: Caps, rest: seq<byte>)
    ensures DecodeCaps(AppendCaps([], c) + rest) == Ok(c)
  {
    Inverse32(c.sampleRate, [0, 0, 0, 0]);
    Inverse32(c.opusBitrate, [0, 0, 0, 0]);
    var a := AppendCaps([], c) + rest;
    assert a[1..5] == Put32LE(c.sampleRate) && a[7..11] == Put32LE(c.opusBitrate);
  }

  lemma CapsUnique(b: seq<byte>)
    requires |b| >= CAPS_SIZE
    ensures AppendCaps([], DecodeCaps(b).value) == b[..CAPS_SIZE]
  {
    Inverse32(0, b[1..5]);
    Inverse32(0, b[7..11]);
    assert b[..CAPS_SIZE] == [b[0]] + b[1..5] + [b[5], b[6]] + b[7..11] + [b[11], b[12], b[13], b[14]];
  }

  /** THEOREM. Bytes decode to c if and only if they begin with the encoding of c. */
  lemma CapsExact(b: seq<byte>, c: Caps)
    ensures DecodeCaps(b) == Ok(c) <==> (|b| >= CAPS_SIZE && AppendCaps([], c) == b[..CAPS_SIZE])
  {
    if |b| >= CAPS_SIZE {
      CapsUnique(b);
      CapsDecode(c, b[CAPS_SIZE..]);
      assert b == b[..CAPS_SIZE] + b[CAPS_SIZE..];
    }
  }

  datatype HelloMessage = HelloMessage(
    protoVersion: u16, minProto: u16, deviceName: seq<byte>, deviceId: seq<byte>, caps: Caps)

  const HELLO_FIXED_LEN := 2 + 2 + 2 + 16 + CAPS_SIZE

  /** The device ID is a 16-byte array; the name length is cut to 16 bits. */
  function AppendHello(dst: seq<byte>, h: HelloMessage): (b: seq<byte>)
    requires |h.deviceId| == 16
  {
    dst + Put16LE(h.protoVersion) + Put16LE(h.minProto) + Put16LE(|h.deviceName| % 0x1_0000) +
    h.deviceId + AppendCaps([], h.caps) + h.deviceName
  }

  function DecodeHello(b: seq<byte>): (r: Result<HelloMessage>)
  {
    if |b| < HELLO_FIXED_LEN then Err("hello truncated")
    else if |b| != HELLO_FIXED_LEN + Get16LE(b[4..6]) then Err("hello length mismatch")
    else
      match DecodeCaps(b[22..22 + CAPS_SIZE])
      case Err(e) => Err(e)
      case Ok(caps) =>
        Ok(HelloMessage(Get16LE(b[0..2]), Get16LE(b[2..4]), b[HELLO_FIXED_LEN..], b[6..22], caps))
  }

  lemma HelloUnique(b: seq<byte>)
    requires DecodeHello(b).Ok?
    ensures var h := DecodeHello(b).value;
            |h.deviceId| == 16 && |h.deviceName| < 0x1_0000 && AppendHello([], h) == b
  {
    var h := DecodeHello(b).value;
    Inverse16(0, b[0..2]);
    Inverse16(0, b[2..4]);
    Inverse16(0, b[4..6]);
    CapsUnique(b[22..37]);
    assert b[22..37][..CAPS_SIZE] == b[22..37];
    HelloPieces(b);
  }

  lemma HelloPieces(b: seq<byte>)
    requires |b| >= HELLO_FIXED_LEN
    ensures b == [] + b[0..2] + b[2..4] + b[4..6] + b[6..22] + b[22..37] + b[37..]
  {
  }

  lemma HelloDecodes(h: HelloMessage)
    requires |h.deviceId| == 16
    ensures DecodeHello(AppendHello([], h)) ==
            if |h.deviceName| < 0x1_0000 then Ok(h) else Err("hello length mismatch")
  {
    var b := AppendHello([], h);
    Inverse16(h.protoVersion, [0, 0]);
    Inverse16(h.minProto, [0, 0]);
    Inverse16(|h.deviceName| % 0x1_0000, [0, 0]);
    assert b[0..2] == Put16LE(h.protoVersion) && b[2..4] == Put16LE(h.minProto);
    assert b[4..6] == Put16LE(|h.deviceName| % 0x1_0000) && b[6..22] == h.deviceId;
    assert b[22..37] == AppendCaps([], h.caps) && b[37..] == h.deviceName;
    CapsDecode(h.caps, []);
    assert b[22..37] + [] == b[22..37];
  }

  /** THEOREM (hellos on the stream). A hello that is framed, written and read back survives
      if and only if its name has at most 4059 bytes: a longer one is refused. */
  lemma HelloFramed(h: HelloMessage, kind: u16, flags: u16, requestId: u32, rest: seq<byte>)
    requires |h.deviceId| == 16
    ensures var m := Message(kind, flags, requestId, AppendHello([], h));
            && |m.payload| == HELLO_FIXED_LEN + |h.deviceName|
            && (WriteMessage(m).Ok? <==> |h.deviceName| <= 4059)
            && (WriteMessage(m).Ok? ==>
                 && ReadMessage(WriteMessage(m).value + rest) == Ok((m, rest)) && DecodeHello(m.payload) == Ok(h))
  {
    var m := Message(kind, flags, requestId, AppendHello([], h));
    if WriteMessage(m).Ok? {
      WrittenIsRead(m, rest);
      HelloDecodes(h);
    }
  }

  /** THEOREM. A hello payload decodes to h if and only if it is the encoding of h and
      h's name is shorter than 65536 bytes; so a longer name does not survive. */
  lemma HelloExact(b: seq<byte>, h: HelloMessage)
    requires |h.deviceId| == 16
    ensures DecodeHello(b) == Ok(h) <==> (AppendHello([], h) == b && |h.deviceName| < 0x1_0000)
  {
    if DecodeHello(b).Ok? { HelloUnique(b); }
    HelloDecodes(h);
  }

  // ---- the wire format

  /** THEOREM (layout of a message): kind, flags, request, length, payload; integers are
      little-endian. */
  lemma MessageLayout(m: Message)
    ensures WriteMessage(m).Ok? <==> |m.payload| <= 4096
    ensures WriteMessage(m).Ok? ==>
            var p := WriteMessage(m).value;
            && |p| == 12 + |m.payload|
            && ValueLE(p[0..2]) == m.kind && ValueLE(p[2..4]) == m.flags && ValueLE(p[4..8]) == m.requestId
            && ValueLE(p[8..12]) == |m.payload| && p[12..] == m.payload
  {
    if |m.payload| <= 4096 {
      Spells16(m.kind);
      Spells16(m.flags);
      Spells32(m.requestId);
      Spells32(|m.payload|);
      var p := WriteMessage(m).value;
      assert p[0..2] == Put16LE(m.kind) && p[2..4] == Put16LE(m.flags);
      assert p[4..8] == Put32LE(m.requestId) && p[8..12] == Put32LE(|m.payload|) && p[12..] == m.payload;
    }
  }

  /** THEOREM (layout of caps): codec, rate, channels, frame length, bitrate, FEC, DTX,
      complexity, application. */
  lemma CapsLayout(c: Caps)
    ensures var p := AppendCaps([], c);
            && |p| == 15 && p[0] == c.codec && ValueLE(p[1..5]) == c.sampleRate && p[5..7] == [c.channels, c.frameMs]
            && ValueLE(p[7..11]) == c.opusBitrate && p[11..] == [c.fec, c.dtx, c.complexity, c.appId]
  {
    Spells32(c.sampleRate);
    Spells32(c.opusBitrate);
    var p := AppendCaps([], c);
    assert p[1..5] == Put32LE(c.sampleRate) && p[7..11] == Put32LE(c.opusBitrate);
  }

  /** THEOREM (layout of a hello): version, lowest version, length of the name, ID, caps,
      name. */
  lemma HelloLayout(h: HelloMessage)
    requires |h.deviceId| == 16 && |h.deviceName| < 0x1_0000
    ensures var p := AppendHello([], h);
            && |p| == 37 + |h.deviceName| && ValueLE(p[0..2]) == h.protoVersion && ValueLE(p[2..4]) == h.minProto
            && ValueLE(p[4..6]) == |h.deviceName| && p[6..22] == h.deviceId && p[22..37] == AppendCaps([], h.caps)
            && p[37..] == h.deviceName
  {
    Spells16(h.protoVersion);
    Spells16(h.minProto);
    Spells16(|h.deviceName|);
    var p := AppendHello([], h);
    assert p[0..2] == Put16LE(h.protoVersion) && p[2..4] == Put16LE(h.minProto);
    assert p[4..6] == Put16LE(|h.deviceName|) && p[6..22] == h.deviceId;
    assert p[22..37] == AppendCaps([], h.caps) && p[37..] == h.deviceName;
  }
}
