/**
The v1 UDP datagrams (engine/internal/protocol/udp.go) and the handshake rules they
rest on (engine/internal/protocol/protocol.go).
*/
module UdpCodec {
  import opened Arithmetic
  import opened Common
  import opened Bytes

  const VERSION1: u8 := 1
  const FORMAT_S16LE: u8 := 1
  const SUPPORTED_FLAGS: u8 := 0
  const FRAME_TYPE_AUDIO: u8 := 1
  const MAX_NAME_LEN := 255
  const MAX_PAYLOAD_BYTES := 256 * 1024
  const MIN_SAMPLE_RATE := 8000
  const MAX_SAMPLE_RATE := 192000
  const MIN_CHANNELS := 1
  const MAX_CHANNELS := 8
  const MIN_FRAME_SAMPLES := 1
  const MAX_FRAME_SAMPLES := 4096

  const DATAGRAM_HELLO: u8 := 1
  const DATAGRAM_AUDIO: u8 := 2
  const MAX_UDP_DATAGRAM_BYTES := 1500
  const MAX_UDP_AUDIO_PAYLOAD_BYTES := 960
  const UDP_MAGIC: seq<byte> := [82, 65, 85, 85] // "RAUU"
  const MAX_INT := 0x7FFF_FFFF_FFFF_FFFF

  datatype Handshake = Handshake(
    version: u8, flags: u8, sampleRate: u32, channels: u8, format: u8, frameSamples: u16, name: seq<byte>)

  datatype Frame = Frame(frameType: u8, frameSeq: u64, captureFrame: u64, payload: seq<byte>)

  datatype Datagram = Hello(handshake: Handshake) | Audio(frame: Frame)

  function ExpectedPayloadBytes(h: Handshake): (r: Result<int>)
  {
    var samples := h.frameSamples * h.channels;
    if samples > MAX_INT / 2 then Err("audio payload length overflows int")
    else if samples * 2 > MAX_PAYLOAD_BYTES then Err("audio payload exceeds maximum")
    else Ok(samples * 2)
  }

  function Validate(h: Handshake): (r: Option<string>)
  {
    if h.version != VERSION1 then Some("unsupported protocol version")
    else if h.flags != SUPPORTED_FLAGS then Some("unsupported handshake flags")
    else if h.format != FORMAT_S16LE then Some("unsupported audio format")
    else if h.sampleRate < MIN_SAMPLE_RATE || h.sampleRate > MAX_SAMPLE_RATE then Some("sample rate out of range")
    else if h.channels < MIN_CHANNELS || h.channels > MAX_CHANNELS then Some("channel count out of range")
    else if h.frameSamples < MIN_FRAME_SAMPLES || h.frameSamples > MAX_FRAME_SAMPLES then
      Some("frame sample count out of range")
    else if |h.name| > MAX_NAME_LEN then Some("handshake name too long")
    else
      match ExpectedPayloadBytes(h)
      case Ok(_) => None
      case Err(e) => Some(e)
  }

  /** A zero version stands for version 1 and a zero frame type for audio. */
  function Defaulted(d: Datagram): (r: Datagram)
  {
    match d
    case Hello(h) => Hello(if h.version == 0 then h.(version := VERSION1) else h)
    case Audio(f) => Audio(if f.frameType == 0 then f.(frameType := FRAME_TYPE_AUDIO) else f)
  }

  function Envelope(version: u8, kind: u8): (b: seq<byte>)
    ensures |b| == 6
  {
    UDP_MAGIC + [version, kind]
  }

  function AppendUDPHello(dst: seq<byte>, h0: Handshake): (r: Result<seq<byte>>)
  {
    var h := Defaulted(Hello(h0)).handshake;
    match Validate(h)
    case Some(e) => Err(e)
    case None =>
      if 6 + 1 + 4 + 1 + 1 + 2 + 2 + |h.name| > MAX_UDP_DATAGRAM_BYTES then Err("udp hello datagram too large")
      else Ok(dst + Envelope(h.version, DATAGRAM_HELLO) + HelloBody(h))
  }

  function HelloBody(h: Handshake): (b: seq<byte>)
    requires |h.name| <= MAX_NAME_LEN
  {
    [h.flags] + Put32(h.sampleRate) + [h.channels, h.format] + Put16(h.frameSamples) + Put16(|h.name|) + h.name
  }

  function AppendUDPAudio(dst: seq<byte>, f0: Frame): (r: Result<seq<byte>>)
  {
    var f := Defaulted(Audio(f0)).frame;
    if f.frameType != FRAME_TYPE_AUDIO then Err("unsupported frame type")
    else if |f.payload| == 0 then Err("udp audio payload is empty")
    else if |f.payload| > MAX_UDP_AUDIO_PAYLOAD_BYTES then Err("udp audio payload too large")
    else if 6 + 8 + 8 + 2 + |f.payload| > MAX_UDP_DATAGRAM_BYTES then Err("udp audio datagram too large")
    else Ok(dst + Envelope(VERSION1, DATAGRAM_AUDIO) + AudioBody(f))
  }

  function AudioBody(f: Frame): (b: seq<byte>)
    requires |f.payload| <= MAX_UDP_AUDIO_PAYLOAD_BYTES
  {
    Put64(f.frameSeq) + Put64(f.captureFrame) + Put16(|f.payload|) + f.payload
  }

  function Encode(d: Datagram): (r: Result<seq<byte>>)
  {
    match d
    case Hello(h) => AppendUDPHello([], h)
    case Audio(f) => AppendUDPAudio([], f)
  }

  function DecodeUDPDatagram(packet: seq<byte>): (r: Result<Datagram>)
  {
    if |packet| > MAX_UDP_DATAGRAM_BYTES then Err("udp datagram too large")
    else if |packet| < 6 then Err("udp datagram header truncated")
    else if packet[..4] != UDP_MAGIC then Err("invalid udp datagram magic")
    else if packet[4] != VERSION1 then Err("unsupported udp datagram version")
    else if packet[5] == DATAGRAM_HELLO then DecodeUDPHello(packet[4], packet[6..])
    else if packet[5] == DATAGRAM_AUDIO then DecodeUDPAudio(packet[6..])
    else Err("unsupported udp datagram type")
  }

  function DecodeUDPHello(version: u8, body: seq<byte>): (r: Result<Datagram>)
  {
    if |body| < 11 then Err("udp hello truncated")
    else if Get16(body[9..11]) > MAX_NAME_LEN then Err("udp hello name too long")
    else if |body[11..]| != Get16(body[9..11]) then Err("udp hello name length mismatch")
    else
      var h := Handshake(version, body[0], Get32(body[1..5]), body[5], body[6], Get16(body[7..9]), body[11..]);
      match Validate(h)
      case Some(e) => Err(e)
      case None => Ok(Hello(h))
  }

  function DecodeUDPAudio(body: seq<byte>): (r: Result<Datagram>)
  {
    if |body| < 18 then Err("udp audio truncated")
    else if Get16(body[16..18]) == 0 then Err("udp audio payload is empty")
    else if Get16(body[16..18]) > MAX_UDP_AUDIO_PAYLOAD_BYTES then Err("udp audio payload too large")
    else if |body[18..]| != Get16(body[16..18]) then Err("udp audio payload length mismatch")
    else Ok(Audio(Frame(FRAME_TYPE_AUDIO, Get64(body[0..8]), Get64(body[8..16]), body[18..])))
  }

  lemma HelloBodyDecodes(h: Handshake)
    requires Validate(h) == None
    ensures DecodeUDPHello(h.version, HelloBody(h)) == Ok(Hello(h))
  {
    Inverse32(h.sampleRate, [0, 0, 0, 0]);
    Inverse16(h.frameSamples, [0, 0]);
    Inverse16(|h.name|, [0, 0]);
    HelloBodyParts(h, HelloBody(h));
  }

  lemma HelloBodyParts(h: Handshake, b: seq<byte>)
    requires |h.name| <= MAX_NAME_LEN && b == HelloBody(h)
    ensures |b| == 11 + |h.name| && b[0] == h.flags && b[5] == h.channels && b[6] == h.format
    ensures b[1..5] == Put32(h.sampleRate) && b[7..9] == Put16(h.frameSamples)
    ensures b[9..11] == Put16(|h.name|) && b[11..] == h.name
  {
  }

  lemma HelloBodyUnique(version: u8, b: seq<byte>)
    requires DecodeUDPHello(version, b).Ok?
    ensures var h := DecodeUDPHello(version, b).value.handshake;
            DecodeUDPHello(version, b).value.Hello? && h.version == version && HelloBody(h) == b
  {
    Inverse32(0, b[1..5]);
    Inverse16(0, b[7..9]);
    Inverse16(0, b[9..11]);
    var h := DecodeUDPHello(version, b).value.handshake;
    assert b == [b[0]] + b[1..5] + [b[5], b[6]] + b[7..9] + b[9..11] + b[11..];
  }

  lemma AudioBodyDecodes(f: Frame)
    requires f.frameType == FRAME_TYPE_AUDIO && 0 < |f.payload| <= MAX_UDP_AUDIO_PAYLOAD_BYTES
    ensures DecodeUDPAudio(AudioBody(f)) == Ok(Audio(f))
  {
    var b := AudioBody(f);
    Get64Put(f.frameSeq);
    Get64Put(f.captureFrame);
    Inverse16(|f.payload|, [0, 0]);
    assert b[0..8] == Put64(f.frameSeq) && b[8..16] == Put64(f.captureFrame);
    assert b[16..18] == Put16(|f.payload|) && b[18..] == f.payload;
  }

  lemma AudioBodyUnique(b: seq<byte>)
    requires DecodeUDPAudio(b).Ok?
    ensures DecodeUDPAudio(b).value.Audio? && AudioBody(DecodeUDPAudio(b).value.frame) == b
  {
    Put64Get(b[0..8]);
    Put64Get(b[8..16]);
    Inverse16(0, b[16..18]);
    assert b == b[0..8] + b[8..16] + b[16..18] + b[18..];
  }

  /** THEOREM (exact inverses). A packet is accepted with value d if and only if it is,
      byte for byte, the encoding of d and d has its version and type filled in. */
  lemma CodecExact(p: seq<byte>, d: Datagram)
    ensures DecodeUDPDatagram(p) == Ok(d) <==> (Encode(d) == Ok(p) && Defaulted(d) == d)
  {
    if DecodeUDPDatagram(p) == Ok(d) {
      assert p == p[..4] + [p[4], p[5]] + p[6..];
      if p[5] == DATAGRAM_HELLO {
        HelloBodyUnique(p[4], p[6..]);
        assert p == [] + Envelope(p[4], DATAGRAM_HELLO) + p[6..];
      } else {
        AudioBodyUnique(p[6..]);
        assert p == [] + Envelope(VERSION1, DATAGRAM_AUDIO) + p[6..];
      }
    }
    if Encode(d) == Ok(p) && Defaulted(d) == d {
      EncodedDecodes(d, p);
    }
  }

  lemma EncodedDecodes(d: Datagram, p: seq<byte>)
    requires Encode(d) == Ok(p)
    ensures DecodeUDPDatagram(p) == Ok(Defaulted(d))
  {
    assert p[..4] == UDP_MAGIC;
    match Defaulted(d)
    case Hello(h) =>
      assert p[6..] == HelloBody(h);
      HelloBodyDecodes(h);
    case Audio(f) =>
      assert p[6..] == AudioBody(f);
      AudioBodyDecodes(f);
  }

  // ---- the wire format

  /** THEOREM. Which handshakes are valid; the limit on a frame's payload excludes none of
      them. */
  lemma ValidExact(h: Handshake)
    ensures Validate(h) == None <==>
            && h.version == 1 && h.flags == 0 && h.format == 1 && 8000 <= h.sampleRate <= 192000
            && 1 <= h.channels <= 8 && 1 <= h.frameSamples <= 4096 && |h.name| <= 255
  {
    if 1 <= h.channels <= 8 && 1 <= h.frameSamples <= 4096 {
      MulMonotone(h.frameSamples, 4096, h.channels);
    }
  }

  /** A handshake that leaves the version out is sent as version 1. */
  lemma VersionFilled(h: Handshake)
    ensures Encode(Hello(h.(version := 0))) == Encode(Hello(h.(version := 1)))
  {
  }

  /** THEOREM (layout of a hello): magic, version, type, flags, rate, channels, format,
      samples a frame, length of the name, name; integers are big-endian. */
  lemma HelloLayout(h: Handshake)
    requires Validate(h) == None
    ensures var p := Encode(Hello(h)).value;
            && Encode(Hello(h)).Ok? && |p| == 17 + |h.name|
            && p[..7] == [82, 65, 85, 85, 1, 1, 0] && Value(p[7..11]) == h.sampleRate
            && p[11..13] == [h.channels, 1] && Value(p[13..15]) == h.frameSamples
            && Value(p[15..17]) == |h.name| && p[17..] == h.name
  {
    Spells32(h.sampleRate);
    Spells16(h.frameSamples);
    Spells16(|h.name|);
    HelloParts(h, Encode(Hello(h)).value);
  }

  lemma HelloParts(h: Handshake, p: seq<byte>)
    requires |h.name| <= MAX_NAME_LEN && p == [] + Envelope(h.version, DATAGRAM_HELLO) + HelloBody(h)
    ensures |p| == 17 + |h.name| && p[..7] == UDP_MAGIC + [h.version, DATAGRAM_HELLO, h.flags]
    ensures p[7..11] == Put32(h.sampleRate) && p[11..13] == [h.channels, h.format]
    ensures p[13..15] == Put16(h.frameSamples) && p[15..17] == Put16(|h.name|) && p[17..] == h.name
  {
  }

  /** THEOREM (layout of an audio packet): magic, version, type, sequence number, capture
      frame, length of the payload, payload; integers are big-endian. */
  lemma AudioLayout(f: Frame)
    requires f.frameType <= 1 && 0 < |f.payload| <= 960
    ensures var p := Encode(Audio(f)).value;
            && Encode(Audio(f)).Ok? && |p| == 24 + |f.payload|
            && p[..6] == [82, 65, 85, 85, 1, 2] && Value(p[6..14]) == f.frameSeq
            && Value(p[14..22]) == f.captureFrame && Value(p[22..24]) == |f.payload| && p[24..] == f.payload
  {
    Spells64(f.frameSeq);
    Spells64(f.captureFrame);
    Spells16(|f.payload|);
    AudioParts(f, Encode(Audio(f)).value);
  }

  lemma AudioParts(f: Frame, p: seq<byte>)
    requires |f.payload| <= MAX_UDP_AUDIO_PAYLOAD_BYTES
    requires p == [] + Envelope(VERSION1, DATAGRAM_AUDIO) + AudioBody(f)
    ensures |p| == 24 + |f.payload| && p[..6] == UDP_MAGIC + [VERSION1, DATAGRAM_AUDIO]
    ensures p[6..14] == Put64(f.frameSeq) && p[14..22] == Put64(f.captureFrame)
    ensures p[22..24] == Put16(|f.payload|) && p[24..] == f.payload
  {
  }

  /** The most frames of the given size that fit in one packet, but at least one. */
  function ChunkFrames(bytesPerFrame: int): (n: int)
    requires bytesPerFrame > 0
    ensures n >= 1
  {
    Max(1, MAX_UDP_AUDIO_PAYLOAD_BYTES / bytesPerFrame)
  }

  /** THEOREM. Every packet the sender builds for 1 to 8 channels is accepted and read
      back as sent. */
  lemma SenderPacketAccepted(channels: int, f: Frame)
    requires MIN_CHANNELS <= channels <= MAX_CHANNELS
    requires f.frameType == 0 || f.frameType == FRAME_TYPE_AUDIO
    requires |f.payload| == ChunkFrames(channels * 2) * (channels * 2)
    ensures Encode(Audio(f)).Ok? && DecodeUDPDatagram(Encode(Audio(f)).value) == Ok(Defaulted(Audio(f)))
  {
    var b := channels * 2;
    assert b == 2 || b == 4 || b == 6 || b == 8 || b == 10 || b == 12 || b == 14 || b == 16;
    assert 0 < |f.payload| <= MAX_UDP_AUDIO_PAYLOAD_BYTES;
    EncodedDecodes(Audio(f), Encode(Audio(f)).value);
  }
}
