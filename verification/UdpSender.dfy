/**
The packetising loop of the v1 UDP sender and the counters it carries across
reconnects (engine/internal/transport/sender.go).

The capture is a tape of bytes read from left to right. One poll of it yields at most
`avail` bytes. Network writes are not modelled here: a packet counts as sent once it
is built, and one that is never written is one that is never delivered.
*/
module UdpSender {
  import opened Arithmetic
  import opened Common
  import opened Bytes
  import opened UdpCodec

  /** Packet geometry: bytes a frame and frames a packet. */
  datatype Shape = Shape(bpf: nat, chunk: nat, packetBytes: nat)
  {
    predicate Valid() { bpf > 0 && chunk > 0 && packetBytes == chunk * bpf && packetBytes > 0 }
  }

  function ShapeOf(bpf: nat): (s: Shape)
    requires bpf > 0
    ensures s.Valid() && s.bpf == bpf
    ensures s.packetBytes <= MAX_UDP_AUDIO_PAYLOAD_BYTES <==> bpf <= MAX_UDP_AUDIO_PAYLOAD_BYTES
    ensures s.packetBytes + bpf > MAX_UDP_AUDIO_PAYLOAD_BYTES
    ensures bpf > MAX_UDP_AUDIO_PAYLOAD_BYTES ==> s.chunk == 1
  {
    var chunk := ChunkFrames(bpf);
    MulAtLeast(chunk, bpf);
    UnitsOf(MAX_UDP_AUDIO_PAYLOAD_BYTES, bpf);
    assert bpf <= MAX_UDP_AUDIO_PAYLOAD_BYTES ==> MAX_UDP_AUDIO_PAYLOAD_BYTES / bpf >= 1 by {
      if bpf <= MAX_UDP_AUDIO_PAYLOAD_BYTES { DivAtLeast(MAX_UDP_AUDIO_PAYLOAD_BYTES, 1, bpf); }
    }
    Shape(bpf, chunk, chunk * bpf)
  }

  datatype SendState = SendState(
    frameSeq: u64,
    captureFrame: u64,
    filled: seq<byte>,
    packetCapture: u64,
    pos: nat,
    sent: seq<Frame>)

  const START := SendState(0, 0, [], 0, 0, [])

  /** Poll(avail): one pass of the loop. Reconnect: a new attempt, which starts with an
      empty packet but keeps seq, captureFrame and the capture's position. */
  datatype SendEvent = Poll(avail: nat) | Reconnect

  function Add64(x: u64, n: nat): (r: u64)
  {
    (x + n) % 0x1_0000_0000_0000_0000
  }

  /** How much a poll reads. */
  function Reads(sh: Shape, tape: seq<byte>, s: SendState, avail: nat): (n: nat)
    requires s.pos <= |tape| && |s.filled| <= sh.packetBytes
  {
    Min(avail, Min(sh.packetBytes - |s.filled|, |tape| - s.pos))
  }

  function SendStep(sh: Shape, tape: seq<byte>, s: SendState, e: SendEvent): (r: SendState)
    requires sh.Valid() && s.pos <= |tape| && |s.filled| < sh.packetBytes
    ensures r.pos <= |tape| && |r.filled| < sh.packetBytes
  {
    match e
    case Reconnect => s.(filled := [], packetCapture := s.captureFrame)
    case Poll(avail) =>
      var n := Reads(sh, tape, s, avail);
      var s1 := s.(packetCapture := if s.filled == [] then s.captureFrame else s.packetCapture);
      if n == 0 then s1
      else
        var filled := s.filled + tape[s.pos..s.pos + n];
        var s2 := s1.(captureFrame := Add64(s.captureFrame, n / sh.bpf), pos := s.pos + n);
        if |filled| < sh.packetBytes then s2.(filled := filled)
        else
          s2.(filled := [], frameSeq := Add64(s.frameSeq, 1),
              sent := s.sent + [Frame(0, s.frameSeq, s1.packetCapture, filled)])
  }

  function SendRun(sh: Shape, tape: seq<byte>, es: seq<SendEvent>): (s: SendState)
    requires sh.Valid()
    ensures s.pos <= |tape| && |s.filled| < sh.packetBytes
  {
    if es == [] then START else SendStep(sh, tape, SendRun(sh, tape, es[..|es| - 1]), es[|es| - 1])
  }

  /** The sender object: seq and captureFrame live as long as it does, the packet being
      filled as long as one attempt. */
  class Sender {
    const shape: Shape
    const tape: seq<byte>
    var frameSeq: u64
    var captureFrame: u64
    var pos: nat

    ghost predicate Valid()
      reads this
    {
      shape.Valid() && pos <= |tape|
    }

    ghost function State(packet: seq<byte>, packetCapture: u64, sent: seq<Frame>): (s: SendState)
      reads this
    {
      SendState(frameSeq, captureFrame, packet, packetCapture, pos, sent)
    }

    constructor (bpf: nat, capture: seq<byte>)
      requires bpf > 0
      ensures Valid() && State([], 0, []) == START && shape == ShapeOf(bpf) && tape == capture
    {
      shape, tape := ShapeOf(bpf), capture;
      frameSeq, captureFrame, pos := 0, 0, 0;
    }

    /** One pass of the loop: read into the packet and, when it is full, build the frame. */
    method Pass(packet: seq<byte>, packetCapture: u64, avail: nat, packets: seq<Frame>)
      returns (packet': seq<byte>, packetCapture': u64, packets': seq<Frame>)
      requires Valid() && |packet| < shape.packetBytes
      modifies this
      ensures Valid() && |packet'| < shape.packetBytes
      ensures State(packet', packetCapture', packets') ==
              SendStep(shape, tape, old(State(packet, packetCapture, packets)), Poll(avail))
    {
      packet', packetCapture', packets' := packet, packetCapture, packets;
      if packet == [] {
        packetCapture' := captureFrame;
      }
      var n := Reads(shape, tape, SendState(0, 0, packet, 0, pos, []), avail);
      if n > 0 {
        packet' := packet + tape[pos..pos + n];
        captureFrame, pos := Add64(captureFrame, n / shape.bpf), pos + n;
        if |packet'| == shape.packetBytes {
          packets' := packets + [Frame(0, frameSeq, packetCapture', packet')];
          frameSeq, packet' := Add64(frameSeq, 1), [];
        }
      }
    }

    /** One attempt: poll the capture, with avail[i] bytes ready at pass i, until the
        passes run out or packet number `fatal` cannot be written. `earlier` is what
        previous attempts have sent. */
    method RunAttempt(avail: seq<nat>, fatal: int, ghost earlier: seq<Frame>, ghost capture0: u64)
      returns (packets: seq<Frame>, packet: seq<byte>, packetCapture: u64, passes: nat)
      requires Valid()
      modifies this
      ensures Valid() && passes <= |avail| && |packet| < shape.packetBytes
      ensures State(packet, packetCapture, earlier + packets) ==
              Attempt(shape, tape, old(State([], capture0, earlier)), avail[..passes])
      ensures if Includes(packets, fatal) then packet == [] && !Includes(packets[..|packets| - 1], fatal)
              else passes == |avail|
    {
      packets, packet, packetCapture, passes := [], [], captureFrame, 0;
      ghost var begin := State([], captureFrame, earlier);
      assert earlier + packets == earlier;
      while passes < |avail|
        invariant passes <= |avail| && Valid() && |packet| < shape.packetBytes
        invariant State(packet, packetCapture, earlier + packets) == Polls(shape, tape, begin, avail[..passes])
        invariant !Includes(packets, fatal)
      {
        var sent := |packets|;
        packet, packetCapture, packets := PassOn(packet, packetCapture, avail, passes, packets, earlier, begin);
        passes := passes + 1;
        if |packets| > sent && packets[sent].frameSeq == fatal {
          return;
        }
      }
    }

    /** Pass n of an attempt, behind what earlier attempts have sent: it adds one packet or
        none. */
    method PassOn(packet: seq<byte>, packetCapture: u64, avail: seq<nat>, n: nat, packets: seq<Frame>,
                  ghost earlier: seq<Frame>, ghost begin: SendState)
      returns (packet': seq<byte>, packetCapture': u64, packets': seq<Frame>)
      requires Valid() && |packet| < shape.packetBytes && n < |avail|
      requires begin.pos <= |tape| && |begin.filled| < shape.packetBytes
      requires State(packet, packetCapture, earlier + packets) == Polls(shape, tape, begin, avail[..n])
      modifies this
      ensures Valid() && |packet'| < shape.packetBytes
      ensures State(packet', packetCapture', earlier + packets') == Polls(shape, tape, begin, avail[..n + 1])
      ensures packets' == packets || (packet' == [] && packets' != [] && packets'[..|packets'| - 1] == packets)
    {
      PollsNext(shape, tape, begin, avail, n);
      PassAppends(shape, tape, State(packet, packetCapture, packets), earlier, avail[n]);
      packet', packetCapture', packets' := Pass(packet, packetCapture, avail[n], packets);
    }
  }

  /** Packet number n is among them. */
  predicate Includes(packets: seq<Frame>, n: int)
  {
    packets != [] && (packets[|packets| - 1].frameSeq == n || Includes(packets[..|packets| - 1], n))
  }

  /** A pass does not look at what was sent before. */
  lemma PassAppends(sh: Shape, tape: seq<byte>, s: SendState, earlier: seq<Frame>, avail: nat)
    requires sh.Valid() && s.pos <= |tape| && |s.filled| < sh.packetBytes
    ensures var r := SendStep(sh, tape, s, Poll(avail));
            && (r.sent == s.sent || (r.filled == [] && r.sent != [] && r.sent[..|r.sent| - 1] == s.sent))
            && SendStep(sh, tape, s.(sent := earlier + s.sent), Poll(avail)) == r.(sent := earlier + r.sent)
  {
  }

  function Polls(sh: Shape, tape: seq<byte>, s: SendState, avail: seq<nat>): (r: SendState)
    requires sh.Valid() && s.pos <= |tape| && |s.filled| < sh.packetBytes
    ensures r.pos <= |tape| && |r.filled| < sh.packetBytes
  {
    if avail == [] then s
    else SendStep(sh, tape, Polls(sh, tape, s, avail[..|avail| - 1]), Poll(avail[|avail| - 1]))
  }

  lemma PollsNext(sh: Shape, tape: seq<byte>, s: SendState, avail: seq<nat>, n: nat)
    requires sh.Valid() && s.pos <= |tape| && |s.filled| < sh.packetBytes && n < |avail|
    ensures Polls(sh, tape, s, avail[..n + 1]) == SendStep(sh, tape, Polls(sh, tape, s, avail[..n]), Poll(avail[n]))
  {
    assert avail[..n + 1][..n] == avail[..n];
  }

  function Attempt(sh: Shape, tape: seq<byte>, s: SendState, avail: seq<nat>): (r: SendState)
    requires sh.Valid() && s.pos <= |tape| && |s.filled| < sh.packetBytes
  {
    Polls(sh, tape, SendStep(sh, tape, s, Reconnect), avail)
  }
}
