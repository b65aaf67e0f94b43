/**
Everything the UDP sender reads from the capture is sent, in order and once
(engine/internal/transport/sender.go): the packets of an attempt, joined, are the
capture from where the attempt began, and only what a reconnect finds in a half-filled
packet is given up. Nothing here asks for whole-frame reads.
*/
module SenderDelivers {
  import opened Arithmetic
  import opened Common
  import opened Bytes
  import opened UdpCodec
  import opened UdpSender

  /** The packets' payloads, one behind the other. */
  function Payloads(fs: seq<Frame>): (b: seq<byte>)
  {
    if fs == [] then [] else Payloads(fs[..|fs| - 1]) + fs[|fs| - 1].payload
  }

  lemma PayloadsAppend(fs: seq<Frame>, f: Frame)
    ensures Payloads(fs + [f]) == Payloads(fs) + f.payload
  {
    assert (fs + [f])[..|fs|] == fs;
  }

  /** Full packets, numbered from `first` on. */
  ghost predicate FullFrom(sh: Shape, first: u64, fs: seq<Frame>)
  {
    forall k :: 0 <= k < |fs| ==>
      fs[k].frameType == 0 && fs[k].frameSeq == Add64(first, k) && |fs[k].payload| == sh.packetBytes
  }

  /** Between states s and r, s with an empty packet, the frames `news` were sent, and
      they and the packet being filled hold exactly the capture in between. */
  ghost predicate Conveys(sh: Shape, tape: seq<byte>, s: SendState, r: SendState, news: seq<Frame>)
  {
    && r.sent == s.sent + news && FullFrom(sh, s.frameSeq, news) && r.frameSeq == Add64(s.frameSeq, |news|)
    && |r.filled| < sh.packetBytes && s.pos <= r.pos <= |tape|
    && Payloads(news) + r.filled == tape[s.pos..r.pos]
  }

  /** THEOREM (a poll takes all there is). A poll reads on from the position, nothing when
      nothing is ready or the capture has ended, and otherwise everything that is ready up
      to the end of the capture or of the packet, which is then sent. */
  lemma PollTakesAll(sh: Shape, tape: seq<byte>, s: SendState, avail: nat)
    requires sh.Valid() && s.pos <= |tape| && |s.filled| < sh.packetBytes
    ensures var r := SendStep(sh, tape, s, Poll(avail));
            && s.pos <= r.pos <= s.pos + avail
            && (avail > 0 && s.pos < |tape| ==> r.pos > s.pos)
            && (r.pos == s.pos + avail || r.pos == |tape| || r.sent != s.sent)
            && (r.sent != s.sent ==> |r.sent| == |s.sent| + 1 && r.filled == [])
            && (r.sent != s.sent <==> |s.filled| + (r.pos - s.pos) == sh.packetBytes)
  {
  }

  lemma Counts64(first: u64, n: nat)
    ensures Add64(Add64(first, n), 1) == Add64(first, n + 1)
  {
  }

  lemma PollConveys(sh: Shape, tape: seq<byte>, s: SendState, r: SendState, news: seq<Frame>, avail: nat)
    returns (news': seq<Frame>)
    requires sh.Valid() && Conveys(sh, tape, s, r, news)
    ensures Conveys(sh, tape, s, SendStep(sh, tape, r, Poll(avail)), news')
  {
    var n, r' := Reads(sh, tape, r, avail), SendStep(sh, tape, r, Poll(avail));
    var part := tape[r.pos..r.pos + n];
    TapeGoesOn(tape, s.pos, r.pos, n, Payloads(news), r.filled);
    if n == 0 || |r.filled| + n < sh.packetBytes {
      assert n == 0 ==> r.filled + part == r.filled;
      news' := news;
    } else {
      var f := Frame(0, r.frameSeq, r'.sent[|r.sent|].captureFrame, r.filled + part);
      assert r'.sent == r.sent + [f];
      news' := news + [f];
      OneMoreFull(sh, s.frameSeq, news, f);
      assert s.sent + news + [f] == s.sent + news';
      assert Payloads(news') + [] == Payloads(news');
    }
  }

  lemma TapeGoesOn(tape: seq<byte>, start: nat, pos: nat, n: nat, sent: seq<byte>, filled: seq<byte>)
    requires start <= pos && pos + n <= |tape| && sent + filled == tape[start..pos]
    ensures sent + (filled + tape[pos..pos + n]) == tape[start..pos + n]
  {
    assert sent + (filled + tape[pos..pos + n]) == sent + filled + tape[pos..pos + n];
  }

  lemma OneMoreFull(sh: Shape, first: u64, news: seq<Frame>, f: Frame)
    requires FullFrom(sh, first, news) && f.frameType == 0 && |f.payload| == sh.packetBytes
    requires f.frameSeq == Add64(first, |news|)
    ensures FullFrom(sh, first, news + [f]) && Add64(f.frameSeq, 1) == Add64(first, |news + [f]|)
    ensures Payloads(news + [f]) == Payloads(news) + f.payload
  {
    PayloadsAppend(news, f);
    Counts64(first, |news|);
  }

  lemma {:induction false} PollsConvey(sh: Shape, tape: seq<byte>, s: SendState, avail: seq<nat>)
    returns (news: seq<Frame>)
    requires sh.Valid() && s.pos <= |tape| && s.filled == []
    ensures Conveys(sh, tape, s, Polls(sh, tape, s, avail), news)
  {
    if avail == [] {
      news := [];
      assert s.sent + [] == s.sent && Payloads([]) + s.filled == tape[s.pos..s.pos];
    } else {
      news := PollsConvey(sh, tape, s, avail[..|avail| - 1]);
      news := PollConveys(sh, tape, s, Polls(sh, tape, s, avail[..|avail| - 1]), news, avail[|avail| - 1]);
    }
  }

  /** THEOREM (an attempt conveys). Whatever came before it, the packets an attempt sends
      are full, numbered on from where the counter stood, and hold with the packet being
      filled exactly the capture from the attempt's first read to its last. */
  lemma AttemptConveys(sh: Shape, tape: seq<byte>, s: SendState, avail: seq<nat>) returns (news: seq<Frame>)
    requires sh.Valid() && s.pos <= |tape| && |s.filled| < sh.packetBytes
    ensures Conveys(sh, tape, s, Attempt(sh, tape, s, avail), news)
  {
    var begin := SendStep(sh, tape, s, Reconnect);
    news := PollsConvey(sh, tape, begin, avail);
  }

  /** The bytes given up: what reconnects found in the packet. */
  function GivenUp(sh: Shape, tape: seq<byte>, es: seq<SendEvent>): (n: nat)
    requires sh.Valid()
  {
    if es == [] then 0
    else
      var before := es[..|es| - 1];
      GivenUp(sh, tape, before) + if es[|es| - 1].Reconnect? then |SendRun(sh, tape, before).filled| else 0
  }

  /** THEOREM (bytes accounted for). After every run, each byte read is in a packet sent, in
      the packet being filled, or was given up at a reconnect. */
  lemma {:induction false} BytesAccounted(sh: Shape, tape: seq<byte>, es: seq<SendEvent>)
    requires sh.Valid()
    ensures var s := SendRun(sh, tape, es);
            |s.sent| * sh.packetBytes + |s.filled| + GivenUp(sh, tape, es) == s.pos
  {
    MulAdd(0, 0, sh.packetBytes);
    if es != [] {
      BytesAccounted(sh, tape, es[..|es| - 1]);
      if es[|es| - 1].Poll? {
        var s := SendRun(sh, tape, es[..|es| - 1]);
        PollBytes(sh, tape, s, es[|es| - 1].avail);
      }
    }
  }

  lemma PollBytes(sh: Shape, tape: seq<byte>, s: SendState, avail: nat)
    requires sh.Valid() && s.pos <= |tape| && |s.filled| < sh.packetBytes
    ensures var r := SendStep(sh, tape, s, Poll(avail));
            |r.sent| * sh.packetBytes + |r.filled| - r.pos == |s.sent| * sh.packetBytes + |s.filled| - s.pos
  {
    MulAdd(|s.sent|, 1, sh.packetBytes);
  }

  ghost predicate NoReconnect(es: seq<SendEvent>)
  {
    forall i :: 0 <= i < |es| ==> es[i].Poll?
  }

  lemma {:induction false} RunConveys(sh: Shape, tape: seq<byte>, es: seq<SendEvent>) returns (news: seq<Frame>)
    requires sh.Valid() && NoReconnect(es)
    ensures Conveys(sh, tape, START, SendRun(sh, tape, es), news)
  {
    if es == [] {
      news := [];
    } else {
      news := RunConveys(sh, tape, es[..|es| - 1]);
      news := PollConveys(sh, tape, START, SendRun(sh, tape, es[..|es| - 1]), news, es[|es| - 1].avail);
    }
  }

  /** THEOREM (nothing is lost on the way). Without a reconnect, the payloads of the packets
      sent, joined and followed by the packet being filled, are the capture read so far. */
  lemma CaptureIsSent(sh: Shape, tape: seq<byte>, es: seq<SendEvent>)
    requires sh.Valid() && NoReconnect(es)
    ensures var s := SendRun(sh, tape, es);
            && Payloads(s.sent) + s.filled == tape[..s.pos] && FullFrom(sh, 0, s.sent)
            && s.frameSeq == Add64(0, |s.sent|) && |s.sent| == s.pos / sh.packetBytes
  {
    var news := RunConveys(sh, tape, es);
    var s := SendRun(sh, tape, es);
    assert s.sent == [] + news == news;
    BytesAccounted(sh, tape, es);
    NothingGivenUp(sh, tape, es);
    DivModUnique(s.pos, sh.packetBytes, |s.sent|, |s.filled|);
  }

  lemma {:induction false} NothingGivenUp(sh: Shape, tape: seq<byte>, es: seq<SendEvent>)
    requires sh.Valid() && NoReconnect(es)
    ensures GivenUp(sh, tape, es) == 0
  {
    if es != [] {
      NothingGivenUp(sh, tape, es[..|es| - 1]);
    }
  }

  /** Every poll that finds something ready gets further, until the capture ends. */
  lemma {:induction false} PollsGetOn(sh: Shape, tape: seq<byte>, es: seq<SendEvent>)
    requires sh.Valid() && forall i :: 0 <= i < |es| ==> es[i].Poll? && es[i].avail > 0
    ensures SendRun(sh, tape, es).pos >= Min(|es|, |tape|)
  {
    if es != [] {
      PollsGetOn(sh, tape, es[..|es| - 1]);
      PollTakesAll(sh, tape, SendRun(sh, tape, es[..|es| - 1]), es[|es| - 1].avail);
    }
  }

  /** THEOREM (everything is sent). After as many polls that find something ready as the
      capture has bytes, in whatever pieces they find it, every full packet of the capture
      has been sent, and the packet being filled holds the rest. */
  lemma EverythingIsSent(sh: Shape, tape: seq<byte>, es: seq<SendEvent>)
    requires sh.Valid() && |es| >= |tape|
    requires forall i :: 0 <= i < |es| ==> es[i].Poll? && es[i].avail > 0
    ensures var s := SendRun(sh, tape, es);
            |s.sent| == |tape| / sh.packetBytes && Payloads(s.sent) + s.filled == tape
  {
    PollsGetOn(sh, tape, es);
    CaptureIsSent(sh, tape, es);
    var s := SendRun(sh, tape, es);
    assert s.pos == |tape|;
    assert tape[..s.pos] == tape;
  }
}
