/**
The v1 receiver's gap tracker (engine/internal/transport/receiver.go).
*/
module FrameTracker {
  import opened Arithmetic
  import opened Common
  import opened Bytes

  const DEFAULT_MAX_GAP_FRAMES := 192000 * 3

  datatype Tracker = Tracker(seen: bool, expectedSeq: u64, expectedCaptureFrame: u64, maxGapFrames: int)

  const NEW_TRACKER := Tracker(false, 0, 0, 0)

  datatype AcceptResult = AcceptResult(
    expectedSeq: u64,
    expectedCaptureFrame: u64,
    missingPackets: u64,
    captureGapFrames: u64,
    gapFrames: int,
    stale: bool,
    captureMovedBackward: bool)

  const NO_GAP := AcceptResult(0, 0, 0, 0, 0, false, false)

  /** seq + 1 in uint64. */
  function Next(s: u64): (r: u64)
  {
    if s == MAX_U64 then 0 else s + 1
  }

  /** Saturating addition of a packet's length to a capture position. */
  function AdvanceCaptureFrame(captureFrame: u64, packetFrames: int): (r: u64)
    ensures packetFrames >= 0 ==> r == Min(captureFrame + packetFrames, MAX_U64)
  {
    if packetFrames <= 0 then captureFrame
    else if MAX_U64 - captureFrame < packetFrames then MAX_U64
    else captureFrame + packetFrames
  }

  function Cap(maxGapFrames: int): (r: int)
    ensures r > 0
  {
    if maxGapFrames <= 0 then DEFAULT_MAX_GAP_FRAMES else maxGapFrames
  }

  function CapGapFrames(maxGapFrames: int, gap: u64): (r: int)
    ensures r == Min(gap, Cap(maxGapFrames))
  {
    if gap > Cap(maxGapFrames) then Cap(maxGapFrames) else gap
  }

  /** The division test stands in for the product, which could overflow. */
  function CapMissingPacketFrames(maxGapFrames: int, missing: u64, packetFrames: nat): (r: int)
  {
    if missing == 0 || packetFrames <= 0 then 0
    else if missing > MAX_U64 / packetFrames then CapGapFrames(maxGapFrames, MAX_U64)
    else
      assert missing * packetFrames <= MAX_U64 by { ProductFits(missing, packetFrames); }
      CapGapFrames(maxGapFrames, missing * packetFrames)
  }

  lemma ProductFits(a: nat, b: nat)
    requires b > 0
    ensures a <= MAX_U64 / b <==> a * b <= MAX_U64
  {
    var q := MAX_U64 / b;
    assert MAX_U64 == q * b + MAX_U64 % b;
    if a <= q {
      assert a * b <= q * b by { MulMonotone(a, q, b); }
    } else {
      assert (q + 1) * b <= a * b by { MulMonotone(q + 1, a, b); }
      assert (q + 1) * b == q * b + b;
    }
  }

  /** The saturating test gives what unbounded arithmetic would. */
  lemma MissingFramesExact(maxGapFrames: int, missing: u64, packetFrames: nat)
    requires Cap(maxGapFrames) <= MAX_U64
    ensures CapMissingPacketFrames(maxGapFrames, missing, packetFrames) ==
            Min(missing * packetFrames, Cap(maxGapFrames))
  {
    if missing != 0 && packetFrames != 0 {
      ProductFits(missing, packetFrames);
    }
  }

  function AcceptStep(t: Tracker, s: u64, captureFrame: u64, packetFrames: nat): (r: (Tracker, AcceptResult))
  {
    var t' := t.(seen := true, expectedSeq := Next(s),
                 expectedCaptureFrame := AdvanceCaptureFrame(captureFrame, packetFrames));
    if !t.seen then (t', NO_GAP)
    else
      var res := NO_GAP.(expectedSeq := t.expectedSeq, expectedCaptureFrame := t.expectedCaptureFrame);
      if s < t.expectedSeq then (t, res.(stale := true))
      else
        var missing := s - t.expectedSeq;
        var gap := if captureFrame > t.expectedCaptureFrame then captureFrame - t.expectedCaptureFrame else 0;
        var capped := CapGapFrames(t.maxGapFrames, gap);
        (t', res.(
          missingPackets := missing,
          captureGapFrames := gap,
          gapFrames := if capped == 0 && missing > 0
                       then CapMissingPacketFrames(t.maxGapFrames, missing, packetFrames) else capped,
          captureMovedBackward := captureFrame < t.expectedCaptureFrame))
  }

  /** The silence a packet calls for, in unbounded arithmetic: what the capture stamps leave
      open, or, when they leave nothing open, the missing packets at this one's length. */
  function GapBefore(t: Tracker, s: u64, captureFrame: u64, packetFrames: nat): (n: int)
    requires s >= t.expectedSeq
  {
    if captureFrame > t.expectedCaptureFrame then captureFrame - t.expectedCaptureFrame
    else MissingFrames(s - t.expectedSeq, packetFrames)
  }

  function MissingFrames(missing: nat, packetFrames: nat): (n: nat)
  {
    MulNonNegative(missing, packetFrames);
    missing * packetFrames
  }

  /** THEOREM (one packet). The first packet starts the tracking; a stale one changes
      nothing; any other reports the packets and capture frames it skips and the silence to
      fill in, cut to the limit (576000 frames unless one is set), and moves on. */
  lemma AcceptExact(t: Tracker, s: u64, captureFrame: u64, packetFrames: nat)
    requires t.maxGapFrames <= MAX_U64
    ensures var (t', r) := AcceptStep(t, s, captureFrame, packetFrames);
            var limit := if t.maxGapFrames <= 0 then 576000 else t.maxGapFrames;
            if t.seen && s < t.expectedSeq then t' == t && r.stale
            else
              && !r.stale && t'.seen && t'.maxGapFrames == t.maxGapFrames
              && t'.expectedSeq == (s + 1) % 0x1_0000_0000_0000_0000
              && t'.expectedCaptureFrame == Min(captureFrame + packetFrames, MAX_U64)
              && if !t.seen then r == NO_GAP
                 else
                   && r.expectedSeq == t.expectedSeq && r.expectedCaptureFrame == t.expectedCaptureFrame
                   && r.missingPackets == s - t.expectedSeq
                   && r.captureGapFrames == Max(0, captureFrame - t.expectedCaptureFrame)
                   && (r.captureMovedBackward <==> captureFrame < t.expectedCaptureFrame)
                   && r.gapFrames == Min(GapBefore(t, s, captureFrame, packetFrames), limit)
  {
    if t.seen && s >= t.expectedSeq {
      MissingFramesExact(t.maxGapFrames, s - t.expectedSeq, packetFrames);
    }
  }

  /** The tracker object of one source. */
  class FrameTracker {
    var seen: bool
    var expectedSeq: u64
    var expectedCaptureFrame: u64
    const maxGapFrames: int

    ghost function View(): (t: Tracker)
      reads this
    {
      Tracker(seen, expectedSeq, expectedCaptureFrame, maxGapFrames)
    }

    constructor (maxGap: int)
      ensures View() == NEW_TRACKER.(maxGapFrames := maxGap)
    {
      seen, expectedSeq, expectedCaptureFrame, maxGapFrames := false, 0, 0, maxGap;
    }

    method Accept(s: u64, captureFrame: u64, packetFrames: nat) returns (result: AcceptResult)
      modifies this
      ensures (View(), result) == AcceptStep(old(View()), s, captureFrame, packetFrames)
    {
      if !seen {
        seen := true;
        expectedSeq := Next(s);
        expectedCaptureFrame := AdvanceCaptureFrame(captureFrame, packetFrames);
        return NO_GAP;
      }
      result := NO_GAP.(expectedSeq := expectedSeq, expectedCaptureFrame := expectedCaptureFrame);
      if s < expectedSeq {
        result := result.(stale := true);
        return;
      }
      if s > expectedSeq {
        result := result.(missingPackets := s - expectedSeq);
      }
      if captureFrame > expectedCaptureFrame {
        result := result.(captureGapFrames := captureFrame - expectedCaptureFrame);
        result := result.(gapFrames := CapGapFrames(maxGapFrames, result.captureGapFrames));
      } else if captureFrame < expectedCaptureFrame {
        result := result.(captureMovedBackward := true);
      }
      if result.gapFrames == 0 && result.missingPackets > 0 {
        result := result.(gapFrames := CapMissingPacketFrames(maxGapFrames, result.missingPackets, packetFrames));
      }
      expectedSeq := Next(s);
      expectedCaptureFrame := AdvanceCaptureFrame(captureFrame, packetFrames);
    }
  }
}
