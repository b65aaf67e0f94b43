/**
What the UDP sender's packets have in common, whatever the capture delivers and
however often it reconnects (engine/internal/transport/sender.go).
*/
module SenderStream {
  import opened Arithmetic
  import opened Common
  import opened Bytes
  import opened UdpCodec
  import opened JitterSpec
  import opened UdpSender

  const TWO64: int := 0x1_0000_0000_0000_0000

  /** First byte of a packet in the capture. */
  function Offset(sh: Shape, f: Frame): (n: nat)
  {
    f.captureFrame * sh.bpf
  }

  /** A packet carries the whole frames of the capture that its stamp points at. */
  ghost predicate Carries(sh: Shape, tape: seq<byte>, f: Frame)
  {
    && f.frameType == 0 && |f.payload| == sh.packetBytes
    && Offset(sh, f) + sh.packetBytes <= |tape|
    && f.payload == tape[Offset(sh, f)..Offset(sh, f) + sh.packetBytes]
  }

  /** Packets are numbered 0, 1, 2, ... and their captures do not overlap. */
  ghost predicate Stream(sh: Shape, tape: seq<byte>, sent: seq<Frame>)
  {
    && (forall k :: 0 <= k < |sent| ==> sent[k].frameSeq == k && Carries(sh, tape, sent[k]))
    && (forall k, l :: 0 <= k < l < |sent| ==> Offset(sh, sent[k]) + sh.packetBytes <= Offset(sh, sent[l]))
  }

  /** Event i, if it polls, reads a whole number of frames. */
  ghost predicate WholeRead(sh: Shape, tape: seq<byte>, es: seq<SendEvent>, i: nat)
    requires sh.Valid() && i < |es|
  {
    es[i].Poll? ==> Reads(sh, tape, SendRun(sh, tape, es[..i]), es[i].avail) % sh.bpf == 0
  }

  ghost predicate WholeReads(sh: Shape, tape: seq<byte>, es: seq<SendEvent>)
    requires sh.Valid()
  {
    forall i :: 0 <= i < |es| ==> WholeRead(sh, tape, es, i)
  }

  lemma WholeReadsBefore(sh: Shape, tape: seq<byte>, es: seq<SendEvent>)
    requires sh.Valid() && es != []
    ensures var m := |es| - 1;
            WholeReads(sh, tape, es) <==> WholeReads(sh, tape, es[..m]) && WholeRead(sh, tape, es, m)
  {
    var m := |es| - 1;
    forall i | 0 <= i < m ensures WholeRead(sh, tape, es, i) <==> WholeRead(sh, tape, es[..m], i) {
      assert es[..m][..i] == es[..i] && es[..m][i] == es[i];
    }
    if WholeReads(sh, tape, es) {
      forall i | 0 <= i < m ensures WholeRead(sh, tape, es[..m], i) { assert WholeRead(sh, tape, es, i); }
    }
  }

  /** What has been sent is a stream that ends before position `limit`. */
  ghost predicate SentBefore(sh: Shape, tape: seq<byte>, sent: seq<Frame>, limit: int)
  {
    && Stream(sh, tape, sent)
    && forall k :: 0 <= k < |sent| ==> Offset(sh, sent[k]) + sh.packetBytes <= limit
  }

  ghost predicate SendInv(sh: Shape, tape: seq<byte>, s: SendState)
    requires sh.Valid()
  {
    && |s.filled| < sh.packetBytes && |s.filled| <= s.pos <= |tape|
    && s.pos == s.captureFrame * sh.bpf && |s.filled| % sh.bpf == 0
    && s.filled == tape[s.pos - |s.filled|..s.pos]
    && (s.filled != [] ==> s.packetCapture * sh.bpf == s.pos - |s.filled|)
    && SentBefore(sh, tape, s.sent, s.pos - |s.filled|)
    && s.frameSeq == |s.sent| <= s.captureFrame
  }

  lemma ReadsWhole(sh: Shape, tape: seq<byte>, s: SendState, avail: nat)
    requires sh.Valid() && SendInv(sh, tape, s) && |tape| % sh.bpf == 0 && avail % sh.bpf == 0
    ensures Reads(sh, tape, s, avail) % sh.bpf == 0
  {
    MultipleOf(sh.chunk, sh.bpf);
    MultipleOf(s.captureFrame, sh.bpf);
    AlignedDifference(sh.packetBytes, |s.filled|, sh.bpf);
    AlignedDifference(|tape|, s.pos, sh.bpf);
  }

  /** The capture position after reading n more bytes does not wrap. */
  lemma AdvancesExactly(captureFrame: u64, pos: nat, n: nat, limit: nat, unit: nat)
    requires unit > 0 && pos == captureFrame * unit && n % unit == 0 && pos + n <= limit
    requires limit / unit < TWO64
    ensures Add64(captureFrame, n / unit) == captureFrame + n / unit
    ensures (captureFrame + n / unit) * unit == pos + n
    ensures n > 0 ==> n / unit >= 1
  {
    UnitsOf(n, unit);
    MulAdd(captureFrame, n / unit, unit);
    MultipleOf(captureFrame + n / unit, unit);
    DivMonotone(pos + n, limit, unit);
  }

  lemma SentAppend(sh: Shape, tape: seq<byte>, sent: seq<Frame>, f: Frame)
    requires SentBefore(sh, tape, sent, Offset(sh, f)) && f.frameSeq == |sent| && Carries(sh, tape, f)
    ensures SentBefore(sh, tape, sent + [f], Offset(sh, f) + sh.packetBytes)
  {
    var sent' := sent + [f];
    forall k | 0 <= k < |sent'| ensures sent'[k].frameSeq == k && Carries(sh, tape, sent'[k]) {
      if k < |sent| { assert sent'[k] == sent[k]; }
    }
    forall k, l | 0 <= k < l < |sent'| ensures Offset(sh, sent'[k]) + sh.packetBytes <= Offset(sh, sent'[l]) {
      assert sent'[k] == sent[k];
      if l < |sent| { assert sent'[l] == sent[l]; }
    }
  }

  lemma FilledIsTape(sh: Shape, tape: seq<byte>, s: SendState, n: nat)
    requires sh.Valid() && SendInv(sh, tape, s) && s.pos + n <= |tape|
    ensures s.filled + tape[s.pos..s.pos + n] == tape[s.pos - |s.filled|..s.pos + n]
    ensures CaptureOf(s) * sh.bpf == s.pos - |s.filled|
  {
  }

  lemma PollKeeps(sh: Shape, tape: seq<byte>, s: SendState, avail: nat)
    requires sh.Valid() && SendInv(sh, tape, s) && Reads(sh, tape, s, avail) % sh.bpf == 0
    requires |tape| / sh.bpf < TWO64
    ensures SendInv(sh, tape, SendStep(sh, tape, s, Poll(avail)))
  {
    var n, s' := Reads(sh, tape, s, avail), SendStep(sh, tape, s, Poll(avail));
    AdvancesExactly(s.captureFrame, s.pos, n, |tape|, sh.bpf);
    if n == 0 {
      assert s.filled != [] ==> s' == s;
    } else if |s.filled| + n < sh.packetBytes {
      PartKeeps(sh, tape, s, n);
      assert s' == PartState(sh, tape, s, n);
    } else {
      PacketKeeps(sh, tape, s, n);
      assert s' == PacketState(sh, tape, s, n);
    }
  }

  function CaptureOf(s: SendState): (c: u64)
  {
    if s.filled == [] then s.captureFrame else s.packetCapture
  }

  function PartState(sh: Shape, tape: seq<byte>, s: SendState, n: nat): (r: SendState)
    requires sh.Valid() && s.pos + n <= |tape|
  {
    SendState(s.frameSeq, Add64(s.captureFrame, n / sh.bpf), s.filled + tape[s.pos..s.pos + n], CaptureOf(s),
              s.pos + n, s.sent)
  }

  function PacketState(sh: Shape, tape: seq<byte>, s: SendState, n: nat): (r: SendState)
    requires sh.Valid() && s.pos + n <= |tape|
  {
    SendState(Add64(s.frameSeq, 1), Add64(s.captureFrame, n / sh.bpf), [], CaptureOf(s), s.pos + n,
              s.sent + [Frame(0, s.frameSeq, CaptureOf(s), s.filled + tape[s.pos..s.pos + n])])
  }

  /** The case of PollKeeps that leaves the packet short. */
  lemma PartKeeps(sh: Shape, tape: seq<byte>, s: SendState, n: nat)
    requires sh.Valid() && SendInv(sh, tape, s) && 0 < n && s.pos + n <= |tape| && n % sh.bpf == 0
    requires |s.filled| + n < sh.packetBytes
    requires Add64(s.captureFrame, n / sh.bpf) == s.captureFrame + n / sh.bpf
    requires (s.captureFrame + n / sh.bpf) * sh.bpf == s.pos + n
    ensures SendInv(sh, tape, PartState(sh, tape, s, n))
  {
    FilledIsTape(sh, tape, s, n);
    AlignedSum(|s.filled|, n, sh.bpf);
  }

  /** The case of PollKeeps that completes a packet. */
  lemma PacketKeeps(sh: Shape, tape: seq<byte>, s: SendState, n: nat)
    requires sh.Valid() && SendInv(sh, tape, s) && 0 < n && s.pos + n <= |tape|
    requires |s.filled| + n == sh.packetBytes && n / sh.bpf >= 1
    requires Add64(s.captureFrame, n / sh.bpf) == s.captureFrame + n / sh.bpf
    requires (s.captureFrame + n / sh.bpf) * sh.bpf == s.pos + n
    ensures SendInv(sh, tape, PacketState(sh, tape, s, n))
  {
    FilledIsTape(sh, tape, s, n);
    var f := Frame(0, s.frameSeq, CaptureOf(s), s.filled + tape[s.pos..s.pos + n]);
    PacketCarries(sh, tape, f, s.pos - |s.filled|);
    SentAppend(sh, tape, s.sent, f);
    var s' := PacketState(sh, tape, s, n);
    assert s'.sent == s.sent + [f] && s'.filled == [] && s'.pos == Offset(sh, f) + sh.packetBytes;
    assert tape[s'.pos..s'.pos] == [];
  }

  lemma PacketCarries(sh: Shape, tape: seq<byte>, f: Frame, start: nat)
    requires f.captureFrame * sh.bpf == start && start + sh.packetBytes <= |tape|
    requires f.frameType == 0 && f.payload == tape[start..start + sh.packetBytes]
    ensures Offset(sh, f) == start && Carries(sh, tape, f)
  {
  }

  /** THEOREM (sender). When every read is a whole number of frames, the packets of any
      number of attempts are numbered consecutively, each carries exactly the frames
      its stamp names, and no two overlap; frames lost with a half-filled packet at a
      reconnect leave a gap in the stamps. */
  lemma {:induction false} SenderMakesStream(sh: Shape, tape: seq<byte>, es: seq<SendEvent>)
    requires sh.Valid() && |tape| / sh.bpf < TWO64 && WholeReads(sh, tape, es)
    ensures SendInv(sh, tape, SendRun(sh, tape, es))
  {
    if es != [] {
      var es' := es[..|es| - 1];
      WholeReadsBefore(sh, tape, es);
      SenderMakesStream(sh, tape, es');
      if es[|es| - 1].Poll? {
        PollKeeps(sh, tape, SendRun(sh, tape, es'), es[|es| - 1].avail);
      }
    }
  }

  /** A capture of whole frames that offers whole frames is read in whole frames. */
  lemma {:induction false} WholeOffersReadWhole(sh: Shape, tape: seq<byte>, es: seq<SendEvent>)
    requires sh.Valid() && |tape| % sh.bpf == 0 && |tape| / sh.bpf < TWO64
    requires forall i :: 0 <= i < |es| && es[i].Poll? ==> es[i].avail % sh.bpf == 0
    ensures WholeReads(sh, tape, es)
  {
    if es != [] {
      var m := |es| - 1;
      assert forall i :: 0 <= i < m ==> es[..m][i] == es[i];
      WholeOffersReadWhole(sh, tape, es[..m]);
      SenderMakesStream(sh, tape, es[..m]);
      WholeReadsBefore(sh, tape, es);
      if es[m].Poll? { ReadsWhole(sh, tape, SendRun(sh, tape, es[..m]), es[m].avail); }
    }
  }

  // ---- and when they are not

  /** The bytes of partial frames read so far. */
  function PartialBytes(sh: Shape, tape: seq<byte>, es: seq<SendEvent>): (n: nat)
    requires sh.Valid()
  {
    if es == [] then 0
    else
      var before := es[..|es| - 1];
      PartialBytes(sh, tape, before) +
      if es[|es| - 1].Poll? then Reads(sh, tape, SendRun(sh, tape, before), es[|es| - 1].avail) % sh.bpf else 0
  }

  lemma StepPosition(sh: Shape, tape: seq<byte>, s: SendState, avail: nat)
    requires sh.Valid() && s.pos <= |tape| && |s.filled| < sh.packetBytes
    ensures var n, r := Reads(sh, tape, s, avail), SendStep(sh, tape, s, Poll(avail));
            r.pos == s.pos + n && r.captureFrame == Add64(s.captureFrame, n / sh.bpf)
  {
    MultipleOf(0, sh.bpf);
  }

  lemma {:induction false} PositionCounts(sh: Shape, tape: seq<byte>, es: seq<SendEvent>)
    requires sh.Valid() && |tape| < TWO64
    ensures var s := SendRun(sh, tape, es);
            s.captureFrame * sh.bpf + PartialBytes(sh, tape, es) == s.pos
  {
    if es != [] {
      var s := SendRun(sh, tape, es[..|es| - 1]);
      PositionCounts(sh, tape, es[..|es| - 1]);
      if es[|es| - 1].Poll? {
        var avail := es[|es| - 1].avail;
        StepPosition(sh, tape, s, avail);
        PositionAdds(s.captureFrame, PartialBytes(sh, tape, es[..|es| - 1]), Reads(sh, tape, s, avail), s.pos, sh.bpf);
      }
    }
  }

  /** THEOREM. The capture position counts exactly the frames read, and the packets and
      the one being filled are the stream they should be, if and only if every read so
      far was a whole number of frames; otherwise the position has fallen behind. */
  lemma PositionExact(sh: Shape, tape: seq<byte>, es: seq<SendEvent>)
    requires sh.Valid() && |tape| < TWO64
    ensures var s := SendRun(sh, tape, es);
            && s.captureFrame * sh.bpf <= s.pos
            && (s.captureFrame * sh.bpf == s.pos <==> WholeReads(sh, tape, es))
            && (SendInv(sh, tape, s) <==> WholeReads(sh, tape, es))
  {
    ShorterQuotient(|tape|, sh.bpf);
    if WholeReads(sh, tape, es) { SenderMakesStream(sh, tape, es); }
    PositionCounts(sh, tape, es);
    PartialZero(sh, tape, es);
  }

  /** The failing family is not empty: one read of one byte. */
  lemma PartialReadFallsBehind(sh: Shape, tape: seq<byte>)
    requires sh.Valid() && sh.bpf > 1 && 0 < |tape| < TWO64
    ensures var s := SendRun(sh, tape, [Poll(1)]); s.captureFrame * sh.bpf < s.pos
    ensures !WholeReads(sh, tape, [Poll(1)])
  {
    assert [Poll(1)][..0] == [];
    assert SendRun(sh, tape, []) == START;
    MulAtLeast(sh.chunk, sh.bpf);
    assert Reads(sh, tape, START, 1) == 1;
    DivModUnique(1, sh.bpf, 0, 1);
    PositionExact(sh, tape, [Poll(1)]);
    assert !WholeRead(sh, tape, [Poll(1)], 0);
  }

  lemma {:induction false} PartialZero(sh: Shape, tape: seq<byte>, es: seq<SendEvent>)
    requires sh.Valid()
    ensures PartialBytes(sh, tape, es) == 0 <==> WholeReads(sh, tape, es)
  {
    if es != [] {
      PartialZero(sh, tape, es[..|es| - 1]);
      WholeReadsBefore(sh, tape, es);
    }
  }

  lemma PositionAdds(captureFrame: u64, partial: nat, n: nat, pos: nat, unit: nat)
    requires unit > 0 && captureFrame * unit + partial == pos && pos + n < TWO64
    ensures Add64(captureFrame, n / unit) * unit + (partial + n % unit) == pos + n
  {
    UnitsOf(n, unit);
    MulAdd(captureFrame, n / unit, unit);
    AtMostProduct(captureFrame + n / unit, unit);
  }

  lemma ShorterQuotient(n: nat, unit: nat)
    requires unit > 0
    ensures 0 <= n / unit <= n
  {
    UnitsOf(n, unit);
    AtMostProduct(n / unit, unit);
  }

  lemma AtMostProduct(a: nat, unit: nat)
    requires unit > 0
    ensures a <= a * unit
  {
    if a > 0 {
      assert a * unit == a * (unit - 1) + a;
      assert a * (unit - 1) >= 0;
    }
  }
}
