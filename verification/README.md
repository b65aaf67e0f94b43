# Verified model of the RemoteAU engine

RemoteAU streams audio from one machine to another. This Dafny project models the parts
of its Go engine whose correctness is a matter of state, order and arithmetic, and proves
what they are for:

* **v1 path.** The UDP packetiser, the datagram codec, the gap tracker of the receiver,
  the silence it inserts, the jitter buffer and the mixer. The end-to-end theorem
  (`Timeline.EndToEnd`) starts at the capture and ends at what a stream was written and
  what the mixer was served, for every loss, reordering and duplication, with reads between
  any two writes; `Playback.Pull` takes it on to the mixed samples of several senders. What
  is captured is all sent (`SenderDelivers.EverythingIsSent`), and a single stream at unit
  gain comes out byte for byte (`Mixers.OneStreamPasses`).
* **v2 reorder window.** The 32-bit sequence window with its held packets, forced flushes
  and FEC-then-PLC concealment: slot trace, counters, termination of the flush,
  refinement of a window whose numbers never wrap, and invisibility of reordering. What one
  arrival sends, holds or drops is said outright (`WindowFlush.Arrival`).
* **Byte rings.** The jitter buffer and the capture ring both refine one bounded
  drop-oldest queue, with conservation and order over every run.
* **Resampler.** The streaming linear interpolator against the batch formula; a straight
  line stays the same line at the other rate (`ResampledLines.RunOnLine`).
* **Pairing.** The PIN exchange over abstract primitives: agreement in every call order, and
  no secret shared by two meetings (`PairingSecrets.OneSecretOneMeeting`).
* **Relay, discovery limiter, stream registry.** A transition system over all
  interleavings of the goroutines and their peers, a token bucket over all clocks, and a
  registry over all event sequences.
* **Codecs.** UDP datagrams and v2 control messages, as exact inverses, and byte by byte.

## How it is built

An object the program updates in place is a class with the same fields, and each of its
methods is proved to compute a specification function of the state before the call
(`View()` is the state as a value). The theorems are about those functions, so they speak
about the objects over any sequence of calls. Where the program relies on something from
outside, that is a visible hypothesis.

What is a parameter: whether a hold period has run out (`due`), whether a TryLock succeeds
(`locked`, `locks`), how many bytes a capture poll has ready, what a playback callback
delivers, the clock, random bytes and generated keys, and the codec, which is any total
function of the calls it has seen so far. The cryptographic primitives are a record of
functions of which only lengths and the group law are assumed (`Pairing.Laws`); HKDF is
that of section 2 of RFC 5869 and HMAC that of section 2 of RFC 2104. Agreement is proved up
to a collision between two concrete, named inputs, never from injectivity of a hash, which
no 32-byte hash has.

Where the program uses floating point (mixer gains and sums, resampler position and
interpolation) the model computes with exact reals and fractions.

## Results about the code that are not what one might expect

* The reorder window is sound only while no packet arrives a second time while its first
  copy is still held and is next to go out (`WindowOrder.NearThroughout`, an equivalence
  over whole runs). A stale copy makes the next tick conceal 2^32 - 1 frames
  (`WindowOrder.DuplicateBreaksWindow`). Packet de-duplication, section 12.3 of RFC 9000,
  rules this out on one connection (`WindowOrder.DeduplicatedIsSound`).
* The v2 packet counters account for every packet if and only if none overwrote a held one
  (`WindowOrder.WindowAccounting`; `WindowOrder.OverwriteHappens` is a run of three).
* A gap longer than the receiver's limit shortens the timeline, so the timeline is exact if
  and only if every gap fits (`Timeline.TimelineDelivered`; `Timeline.LongLossShortens` loses
  all but the first and the last packet).
* The sender's capture position counts the frames read, and its packets are the stream they
  should be, if and only if every read was a whole number of frames
  (`SenderStream.PositionExact`; `SenderStream.PartialReadFallsBehind` reads one byte).
* The missing packets the tracker reports are the ones missing between the first and the last
  accepted if and only if no aligned packet but the one accepted last carried the number
  2^64 - 1 (`UdpReceiver.GapAccounting`; `UdpReceiver.WrapMiscounts` is a run of two).
* The capture ring's drop counter misses the partial quantum of a contended write
  (`AudioRing.DropCounterExact`, an equivalence; `AudioRing.ContendedPartIsLost`).
* A scratch buffer longer than the target lets one callback interrupt a stream with silence
  and then resume it (`MixerSpec.LongScratchInterrupts`); no longer one can
  (`MixerSpec.PrefixThenSilenceOnly`).
* The resampler makes sure of two source frames only; some run of calls, with callbacks that
  fit the 4096-frame buffer, slices past the pending frames if and only if
  inRate > 2 * outRate (`Resampler.NeverFailsExact`; the run of `Resampler.FastFails` has
  callbacks of one frame each).
* Once the phone has left, its goroutine returns without the host's doing anything more if
  and only if the host is down or no goroutine copies from it any more
  (`RelayRendezvous.PhoneGoneExact`); then it returns whatever else goes on
  (`RelayRendezvous.FreedDrains`). Otherwise it is held until the host leaves or makes those
  goroutines end (`RelayRendezvous.HostHolds`), as in the run of `RelayRendezvous.HeldRun`.
* The payload of a control hello decodes if and only if its name is shorter than 65536 bytes
  (`ControlCodec.HelloExact`). No peer gets to see that limit: a frame holds 4096 bytes, so a
  hello survives being framed if and only if its name has at most 4059
  (`ControlCodec.HelloFramed`).

## Files

`Common`, `Arithmetic`, `Bytes`: shared types, facts about products and quotients, integers
as bytes. `Window*`, `MediaPipeline`: the v2 window. `UdpCodec`, `ControlCodec`: the codecs.
`FrameTracker`, `UdpReceiver`: the receiver's tracking. `UdpSender`, `SenderStream`,
`SenderDelivers`: the packetiser. `DropOldest`, `JitterSpec`, `JitterBuffers`, `JitterRuns`, `AudioRing`: the rings.
`Timeline`: end to end. `MixerSpec`, `Mixers`: the mixer. `Playback`: from several captures to
the mixed samples. `Resampler`, `ResampledLines`. `Pairing`, `PairingAgreement`,
`PairingSecrets`, `PairingExchange`. `RelayRendezvous`. `ReplyLimiter`. `Registry`,
`StreamRegistry`. `dafny verify dfyconfig.toml` checks them all.

## Model

| member | source | states |
|---|---|---|
| WindowRuns.SlotTrace | engine/internal/engine/media.go:66-164 | over every run of accept and tick the slots are first, first+1, ... in order modulo 2^32; a real slot carries a frame delivered under its number; FEC for a slot was decoded from the frame of the next one, which followed as a real slot |
| WindowRuns.SinkTrace | engine/internal/engine/media.go:188-240 | the loss, FEC, concealment and burst counters and the PCM handed over are the stated functions of the slot history; maxBurstLoss is the longest run of lost slots |
| WindowRuns.ForcedFlush | engine/internal/engine/media.go:134-161 | from any window state a forced flush ends with nothing held and nextSeq one past the farthest held number, each held frame sent under its number and exactly the missing numbers concealed |
| WindowFlush.UnforcedFlush | engine/internal/engine/media.go:125-139 | for every window state: with the hold period run out an unforced flush sends exactly the held frames that are next in order, each under its number, counts no loss and leaves the rest held; before that it does nothing |
| WindowFlush.Arrival | engine/internal/engine/media.go:92-113 | for every window state that has seen a frame: one behind nextSeq is counted and dropped, the one due goes out, one ahead is held while fewer than 64 are; then, if the hold period has run out, all that is next in order follows with no loss counted |
| WindowFlush.FirstArrival | engine/internal/engine/media.go:84-90 | the first frame goes out at once and sets the numbering |
| WindowFlush.HoleFilled | engine/internal/engine/media.go:97-139 | packets 0, 2, 1: the third brings both out |
| WindowFlush.ForcedConceals | engine/internal/engine/media.go:141-161 | in a forced flush a missing frame is recovered by FEC from the frame right after it exactly when that is held, not empty, the codec has FEC and its decode yields PCM; otherwise it is concealed |
| Window.SpanAdvance | engine/internal/engine/media.go:134-161 | every turn of the flush loop shortens the distance to the farthest held number by one: the loop terminates |
| WindowOrder.AcceptKeepsNear | engine/internal/engine/media.go:92-113 | an arrival leaves no held number behind nextSeq if and only if it is not a second copy of a held frame that is next to go out |
| WindowOrder.DuplicateBreaksWindow | engine/internal/engine/media.go:99-161 | a four-packet run with a duplicate after which one tick conceals 2^32 - 1 frames |
| WindowOrder.NearThroughout | engine/internal/engine/media.go:66-164 | over every run nothing held is ever behind nextSeq if and only if no packet is another copy of a held frame that is next to go out |
| WindowOrder.DeduplicatedIsSound | engine/internal/engine/media.go:66-164 | if no number is delivered twice, nothing held is behind and every packet seen is a real slot, held, late or overflowed |
| WindowOrder.NoNumberTwiceIsFresh | engine/internal/engine/media.go:92-113 | if no number is delivered twice, no packet arrives while a copy of it is held |
| WindowOrder.WindowAccounting | engine/internal/engine/media.go:66-113 | over every run packetsSeen = real slots + held + late + overflowed + overwritten while held, the last being zero if and only if no packet overwrote a held one; numbers emitted = real slots + lossPackets; fecRecoveredFrames <= lossPackets |
| WindowOrder.OverwriteHappens | engine/internal/engine/media.go:104-111 | a three-packet run that overwrites a held packet and loses the count of it |
| WindowRefinement.DeltaClassifies | engine/internal/engine/media.go:92 | the int32 difference of low halves tells late, next and future apart when the true numbers are within 2^31 |
| WindowRefinement.Refines | engine/internal/engine/media.go:84-161 | while true numbers are within 2^31 and none repeats a held packet that is next to go out, the 32-bit window emits and counts the same as one with unbounded numbers, across any number of wraparounds |
| WindowReorder.ReorderingInvisible | engine/internal/engine/media.go:92-164 | a first frame and any permutation of the next n <= 64, whatever unforced flushes fire, come out in order after the next tick with no concealment |
| MediaPipeline.ClientMedia.constructor | engine/internal/engine/media.go:44-63 | a new pipeline is the empty window |
| MediaPipeline.ClientMedia.Emit | engine/internal/engine/media.go:215-240 | decodes or conceals one frame, with its counters and the PCM handed over |
| MediaPipeline.ClientMedia.EmitFEC | engine/internal/engine/media.go:188-211 | succeeds exactly when there is a payload, the codec has FEC and its decode yields PCM; otherwise nothing is counted |
| MediaPipeline.ClientMedia.Flush | engine/internal/engine/media.go:125-164 | the in-place loop, which ends, computes the specified flush |
| MediaPipeline.ClientMedia.Accept | engine/internal/engine/media.go:66-113 | one received frame, all four cases |
| MediaPipeline.ClientMedia.Tick | engine/internal/engine/media.go:116-120 | a forced flush once something has been seen |
| UdpCodec.CodecExact | engine/internal/protocol/udp.go:31-176 | a datagram decodes to d if and only if it is byte for byte the encoding of d, version and type filled in |
| UdpCodec.HelloBodyUnique | engine/internal/protocol/udp.go:123-150 | an accepted hello body is the encoding of what it decodes to |
| UdpCodec.HelloBodyDecodes | engine/internal/protocol/protocol.go:187-226 | every handshake that validates survives encoding and decoding |
| UdpCodec.ValidExact | engine/internal/protocol/protocol.go:187-226 | which handshakes are valid; the payload limit excludes none that pass the other checks |
| UdpCodec.HelloLayout | engine/internal/protocol/udp.go:31-54 | every byte of a hello datagram, integers big-endian |
| UdpCodec.VersionFilled | engine/internal/protocol/udp.go:31-37 | a handshake without a version is sent as version 1 |
| UdpCodec.AudioBodyUnique | engine/internal/protocol/udp.go:152-176 | an accepted audio body is the encoding of what it decodes to |
| UdpCodec.AudioLayout | engine/internal/protocol/udp.go:56-87 | every byte of an audio datagram, integers big-endian |
| UdpCodec.SenderPacketAccepted | engine/internal/transport/sender.go:226-228 | every packet the sender builds for 1 to 8 channels is accepted and read back as sent |
| ControlCodec.FramingExact | engine/internal/protocol/v2/control.go:323-365 | a stream yields m and leaves rest if and only if it is the encoding of m followed by rest |
| ControlCodec.ListRoundTrip | engine/internal/protocol/v2/control.go:323-365 | a stream reads as the list ms if and only if it is ms written back to back |
| ControlCodec.MessageLayout | engine/internal/protocol/v2/control.go:323-341 | a message is written if and only if its payload has at most 4096 bytes; every byte of it, integers little-endian |
| ControlCodec.CapsExact | engine/internal/protocol/v2/control.go:69-93 | bytes decode to caps c if and only if they begin with the encoding of c |
| ControlCodec.CapsLayout | engine/internal/protocol/v2/control.go:69-76 | every byte of the fifteen of caps |
| ControlCodec.HelloExact | engine/internal/protocol/v2/control.go:369-399 | a payload decodes to h if and only if it is the encoding of h and the name is shorter than 65536 bytes |
| ControlCodec.HelloLayout | engine/internal/protocol/v2/control.go:369-378 | every byte of a hello payload |
| ControlCodec.HelloFramed | engine/internal/protocol/v2/control.go:323-399 | a hello is written if and only if its name has at most 4059 bytes, and is then read back as it was sent |
| FrameTracker.MissingFramesExact | engine/internal/transport/receiver.go:552-572 | the overflow-safe product test gives the minimum of the true product and the cap |
| FrameTracker.AdvanceCaptureFrame | engine/internal/transport/receiver.go:574-583 | a capture position advances by the frames, saturating at 2^64 - 1 |
| FrameTracker.AcceptExact | engine/internal/transport/receiver.go:517-572 | one packet in unbounded arithmetic: stale, or the packets and capture frames skipped, the silence to fill in (what the stamps leave open, or else the missing packets at this one's length, up to the limit of 576000 frames) and the next expectations |
| FrameTracker.FrameTracker.Accept | engine/internal/transport/receiver.go:517-550 | one packet: stale, or the gap it reveals and the next expectations |
| UdpReceiver.GapAccounting | engine/internal/transport/receiver.go:479-498 | delivered = accepted + stale always; summed missing packets = (last accepted number - first accepted number + 1) - accepted, if and only if no aligned packet but the one accepted last carried 2^64 - 1 |
| UdpReceiver.WrapMiscounts | engine/internal/transport/receiver.go:517-550 | two packets, numbered 2^64 - 1 and 0, are both accepted and the missing packets are not what is missing between them |
| UdpReceiver.BufferIsOneWrite | engine/internal/transport/receiver.go:420-444 | the stream's buffer is what one write of everything written would leave |
| UdpReceiver.SilenceAdds | engine/internal/transport/receiver.go:457-472 | silence written in two pieces is silence written in one |
| UdpReceiver.UdpSource.WriteSilence | engine/internal/transport/receiver.go:457-472 | the chunk loop leaves the buffer as one single write of the whole gap, also on overflow |
| UdpReceiver.UdpSource.WriteGapAndPayload | engine/internal/transport/receiver.go:440-443 | gap and payload together are one write |
| UdpReceiver.UdpSource.HandleUDPAudio | engine/internal/transport/receiver.go:420-444 | alignment check, tracking, counters, silence and payload of one packet |
| UdpReceiver.WritesJoined | engine/internal/transport/receiver.go:440-472 | the single writes of a packet, silence chunk by chunk and the payload, are whole frames and put together are the whole gap in silence and then the payload |
| UdpReceiver.HandledWrites | engine/internal/transport/receiver.go:420-444 | any packet: ignored when not frame-aligned, only counted when stale, and otherwise written behind exactly the silence its stamps or the missing packets call for |
| UdpSender.ShapeOf | engine/internal/transport/sender.go:222-228 | a packet is the largest whole number of frames within 960 bytes, or one frame when none fits |
| UdpSender.Sender.Pass | engine/internal/transport/sender.go:248-275 | one pass of the packetising loop |
| UdpSender.Sender.RunAttempt | engine/internal/transport/sender.go:195-281 | one attempt carries seq and captureFrame on, starts with an empty packet and ends with the packet whose write is fatal or when its passes run out |
| SenderStream.SenderMakesStream | engine/internal/transport/sender.go:120-154 | over any attempts whose reads are whole frames: packets numbered consecutively, each carrying exactly the frames its stamp names, none overlapping |
| SenderDelivers.PollTakesAll | engine/internal/transport/sender.go:248-256 | a poll reads on without a gap everything that is ready, up to the end of the capture or of the packet, which is then sent |
| SenderDelivers.AttemptConveys | engine/internal/transport/sender.go:222-280 | after anything that came before, an attempt's packets are full, numbered on, and hold with the packet being filled exactly the capture from its first read to its last |
| SenderDelivers.BytesAccounted | engine/internal/transport/sender.go:120-154 | after every run, packets sent times packet size + bytes being filled + bytes a reconnect found in the packet = bytes read |
| SenderDelivers.CaptureIsSent | engine/internal/transport/sender.go:248-275 | without a reconnect the payloads sent, joined, and the packet being filled are the capture read so far |
| SenderDelivers.EverythingIsSent | engine/internal/transport/sender.go:248-275 | once polls have found something ready often enough, in any pieces, every full packet of the capture has been sent and the rest is being filled |
| SenderStream.WholeOffersReadWhole | engine/internal/transport/sender.go:248-256 | a capture of whole frames that offers whole frames is read in whole frames |
| SenderStream.PositionExact | engine/internal/transport/sender.go:251-254 | the capture position counts the frames read, and the packets are the stream they should be, if and only if every read was a whole number of frames |
| SenderStream.PartialReadFallsBehind | engine/internal/transport/sender.go:251-254 | after a first read of one byte the capture position is behind the bytes read |
| Timeline.TrackerOnStream | engine/internal/transport/receiver.go:517-550 | on the sender's packets the tracker drops exactly those not newer, counts exactly those between, never sees the stamps move backward and never falls back on the packet count |
| Timeline.TimelineDelivered | engine/internal/transport/receiver.go:420-472 | for every delivery, with reads between any two writes, what is written is the capture from the first accepted packet with zeros in the holes if every gap fits, and shorter otherwise; what is served is an in-order subsequence of it |
| Timeline.EndToEnd | engine/internal/transport/sender.go:222-280 | the same from the sender's own run over capture, packetiser, wire, tracker and buffer |
| Timeline.SettledIsHandled | engine/internal/transport/receiver.go:420-444 | a packet's writes done one by one leave the tracker, the buffer and what was written as handling it in one step does |
| Timeline.LongLossShortens | engine/internal/transport/receiver.go:563-572 | 576003 packets of which only the first and the last arrive leave less than the timeline written |
| DropOldest.PushPush | engine/internal/mixer/jitterbuffer.go:77-104 | two pushes leave the last capacity bytes of everything |
| DropOldest.Append | engine/internal/mixer/jitterbuffer.go:196-203 | the two copies of a write append to the queue the array holds |
| DropOldest.Front | engine/internal/mixer/jitterbuffer.go:205-220 | the two copies of a read give the front of the queue |
| DropOldest.QueueDrop | engine/internal/mixer/jitterbuffer.go:182-194 | moving the read index drops the oldest bytes |
| JitterSpec.WriteWrite | engine/internal/mixer/jitterbuffer.go:77-104 | frame-aligned pieces with no read in between leave queue, priming and discard count of one write |
| JitterBuffers.JitterBuffer.constructor | engine/internal/mixer/jitterbuffer.go:67-74 | a new buffer is empty and not primed |
| JitterBuffers.JitterBuffer.Write | engine/internal/mixer/jitterbuffer.go:77-104 | cut to whole frames, oldest dropped above the high watermark, priming |
| JitterBuffers.JitterBuffer.DropOldest | engine/internal/mixer/jitterbuffer.go:182-194 | drops and counts the oldest frames, at most what is queued |
| JitterBuffers.JitterBuffer.Read | engine/internal/mixer/jitterbuffer.go:106-149 | contention, priming, underrun and service |
| JitterRuns.RunInvariant | engine/internal/mixer/jitterbuffer.go:77-149 | over every run: offered = served + queued + discarded; the queue is the tail of what was written; served audio is an in-order subsequence of it |
| JitterRuns.ReadIsExact | engine/internal/mixer/jitterbuffer.go:106-149 | a read returns exactly the oldest frames asked for, or silence with the queue untouched, and when which; one that finds the lock taken leaves the priming alone |
| JitterRuns.WriteIsExact | engine/internal/mixer/jitterbuffer.go:77-104 | a write appends its whole frames, gives up and counts the oldest ones above the high watermark, and primes a buffer that has reached the target |
| JitterRuns.NothingBeforeTarget | engine/internal/mixer/jitterbuffer.go:126-144 | after an underrun nothing is served until the target is queued |
| AudioRing.Ring.constructor | engine/internal/audio/ring.go:20-36 | an empty ring of whole quanta |
| AudioRing.Ring.TryWrite | engine/internal/audio/ring.go:38-48 | with the lock, the drop-oldest push and every byte not queued counted; without it, whole quanta counted |
| AudioRing.Ring.WriteLocked | engine/internal/audio/ring.go:80-115 | the last capacity-many whole quanta of queue and input stay |
| AudioRing.Ring.Read | engine/internal/audio/ring.go:50-68 | whole quanta from the front; nothing without the lock |
| AudioRing.RingInvariant | engine/internal/audio/ring.go:80-135 | over every run offered = served + queued + dropped + partial quanta of contended writes, in order |
| AudioRing.PutIsExact | engine/internal/audio/ring.go:38-115 | a write queues its whole quanta and gives up only the oldest bytes that do not fit, counting them and the partial quantum; without the lock it counts whole quanta only |
| AudioRing.TakesExact | engine/internal/audio/ring.go:117-135 | a read takes as many whole quanta as it has room for and the ring holds |
| AudioRing.NothingLostWhileItFits | engine/internal/audio/ring.go:80-135 | writes of whole quanta that together fit the ring lose nothing: what is served and what is queued are everything written |
| AudioRing.DropCounterExact | engine/internal/audio/ring.go:38-48 | the drop counter accounts for everything if and only if every contended write was whole quanta |
| AudioRing.ContendedPartIsLost | engine/internal/audio/ring.go:38-48 | a contended write of less than a quantum leaves no trace in ring or counter |
| MixerSpec.PrefixThenSilenceOnly | engine/internal/mixer/mixer.go:161-178 | with scratch <= target and no contention a callback takes a contiguous prefix of each queue followed only by silence |
| MixerSpec.LongScratchInterrupts | engine/internal/mixer/mixer.go:161-178 | for every longer scratch there is a stream that is interrupted and resumed |
| MixerSpec.ReadyFeed | engine/internal/mixer/mixer.go:163-178 | chunks of any size take a ready stream's oldest frames |
| Mixers.ClampRounds | engine/internal/mixer/mixer.go:261-276 | the clamp is a nearest integer if and only if the sum is within half a step of the 16-bit range |
| Mixers.Clamp | engine/internal/mixer/mixer.go:261-276 | saturates outside the 16-bit range and rounds half away from zero inside it |
| Mixers.GainShares | engine/internal/mixer/mixer.go:161-172 | N times a stream's gain in the mix is the master gain times its own |
| Mixers.Solo | engine/internal/mixer/mixer.go:167-173 | when only one stream sounds the mix is its sample at its own gain |
| Mixers.UnitGainsNeverSaturate | engine/internal/mixer/mixer.go:161-178 | with every gain 1 the mixer's own gains make the mean of the N samples, which is in the 16-bit range and only rounded |
| Mixers.UnitMix | engine/internal/mixer/mixer.go:161-178 | what is put out for N streams with every gain 1 is within half a step of the mean of their samples |
| Mixers.OneStreamPasses | engine/internal/mixer/mixer.go:161-178 | one stream at gain 1 comes out byte for byte |
| Mixers.Mixer.MixS16LE | engine/internal/mixer/mixer.go:248-253 | the first n accumulators gain their weighted sample, the others stay |
| Mixers.Mixer.WriteS16LE | engine/internal/mixer/mixer.go:255-259 | the rounded samples are written, nothing else |
| Mixers.Mixer.MixChunk | engine/internal/mixer/mixer.go:164-173 | one chunk of every stream read and summed |
| Mixers.Mixer.ReadInto | engine/internal/mixer/mixer.go:137-179 | the output is the clamped gain-weighted sum of the feeds, zero beyond the frames and without streams; with every gain 1 it is within half a step of their mean |
| Mixers.ReadyStreamsTakeOldest | engine/internal/mixer/mixer.go:163-178 | a callback over ready streams takes exactly the oldest frames of each |
| Mixers.ScratchSizeUnobservable | engine/internal/mixer/mixer.go:163-178 | two callbacks with any two scratch sizes leave the same streams and the same samples |
| Playback.FeedPlays | engine/internal/mixer/jitterbuffer.go:106-155 | a callback plays what was written from the first byte not yet played on, in order and without a gap, until it falls silent |
| Playback.FeedsPlay | engine/internal/mixer/mixer.go:163-178 | each stream's part in a callback is what comes next of its own sender's timeline, then silence |
| Playback.Pull | engine/internal/transport/receiver.go:238-240 | from captures to samples: each sample put out is the rounded weighted sum of feeds that are what comes next of their senders' timelines, then silence |
| Resampler.S16FromF64 | engine/internal/audio/wasapi/render.go:339-347 | saturates at full scale and rounds the scaled value half away from zero |
| Resampler.BlendBetween | engine/internal/audio/wasapi/render.go:313-321 | an interpolated sample lies between its neighbours; at fraction zero it is the left one |
| ResampledLines.BlendExact | engine/internal/audio/wasapi/render.go:312-315 | an interpolated value times the denominator is a (den - num) + b num |
| ResampledLines.PullOnLine | engine/internal/audio/wasapi/render.go:287-330 | if what was pulled since the last reset lies on a line, every frame a call puts out before it falls silent is the line's value at k inRate / outRate, rounded |
| ResampledLines.RunOnLine | engine/internal/audio/wasapi/render.go:287-330 | however a source on a line is cut into calls and callbacks, a run that neither starves nor fails puts out that line at the other rate |
| ResampledLines.EqualRates | engine/internal/audio/wasapi/render.go:311-322 | at equal rates frame k comes out as frame k |
| Resampler.SliceBoundExact | engine/internal/audio/wasapi/render.go:322-327 | no step of the positions passes over more than two frames if and only if inRate <= 2 * outRate |
| Resampler.NeverFailsExact | engine/internal/audio/wasapi/render.go:287-330 | no run of calls, however cut up into callbacks of up to 4096 frames, slices past the pending frames if and only if inRate <= 2 * outRate |
| Resampler.FastFails | engine/internal/audio/wasapi/render.go:322-327 | for every faster rate a run of one call, with callbacks of one frame each, that slices past the pending frames |
| Resampler.PullIsBatch | engine/internal/audio/wasapi/render.go:287-330 | a call puts out the next batch frames of everything pulled since the last reset; starvation gives silence from exactly where the next frame is undetermined, and resets; a failing step passes over more frames than are pending |
| Resampler.RunIsBatch | engine/internal/audio/wasapi/render.go:287-330 | a run that neither starves nor fails puts out as many frames as asked for, the batch frames of everything pulled |
| Resampler.SizesUnobservable | engine/internal/audio/wasapi/render.go:287-330 | two runs of calls over one source that neither starve nor fail, cut into calls and callbacks in any two ways, put out the one a prefix of the other |
| Resampler.S16Resampler.constructor | engine/internal/audio/wasapi/render.go:276-282 | a new resampler has pulled and produced nothing |
| Resampler.S16Resampler.Fill | engine/internal/audio/wasapi/render.go:297-309 | callbacks until two frames are at hand, or one brings nothing |
| Resampler.S16Resampler.Advance | engine/internal/audio/wasapi/render.go:322-327 | the step succeeds exactly when it passes over no more than is pending |
| Resampler.S16Resampler.Turn | engine/internal/audio/wasapi/render.go:295-328 | one turn of the loop: fill, interpolate, step |
| Resampler.S16Resampler.Pull | engine/internal/audio/wasapi/render.go:287-330 | the in-place loop computes the specified call, with everything that PullIsBatch says of it |
| Pairing.SecretOnlyAfterConfirm | engine/internal/pairing/exchange.go:215-266 | in every call order a sender knows its peer exactly when an OnConfirm has succeeded, and holds a secret only then |
| PairingAgreement.Decodable | engine/internal/pairing/exchange.go:90-94 | a transcript determines the messages it was made from |
| PairingAgreement.TagBinds | engine/internal/pairing/exchange.go:106-128 | equal tags come from the same shared point, salt, PIN, transcript and side, or two named inputs collide |
| PairingAgreement.Agreement | engine/internal/pairing/exchange.go:190-240 | in every call order: if the sender accepts this receiver's tag, both hold the same nonce, salt, PIN and transcript and each other's key, or two named inputs collide |
| PairingAgreement.ResultCompletes | engine/internal/pairing/exchange.go:244-298 | after agreement the result is accepted with the 255-byte name and the ID, and both hold the secret of their shared point, salt and transcript |
| PairingAgreement.HonestRun | engine/internal/pairing/exchange.go:131-298 | equal PINs: both succeed with the secret of their shared point, salt and transcript; different PINs: the sender rejects, or two named inputs collide |
| PairingAgreement.ResultAgreement | engine/internal/pairing/exchange.go:244-298 | in every call order: if the receiver accepts a result with this sender's tag, both hold the same nonce, salt, PIN and transcript, each other's key and one secret, or two named inputs collide |
| PairingAgreement.NoReflection | engine/internal/pairing/exchange.go:204-207 | a confirm's tag is not accepted as a result's, short of a collision |
| PairingSecrets.SecretBinds | engine/internal/pairing/exchange.go:106-122 | equal secrets come from the same shared point, salt and transcript, or two named inputs of the hash or of HKDF collide |
| PairingSecrets.SecretIsNoMacKey | engine/internal/pairing/exchange.go:113-122 | a secret that equals a MAC key, of any meeting, is a collision of two named inputs of HKDF |
| PairingSecrets.ResultsBind | engine/internal/pairing/exchange.go:244-298 | two results, made or accepted in any two states, with one secret have one shared point, salt and transcript, or two named inputs collide |
| PairingSecrets.OneSecretOneMeeting | engine/internal/pairing/exchange.go:80-298 | in every call order: two sides that hold one secret derived it with one shared point, salt, transcript and nonce, or two named inputs collide |
| PairingSecrets.HonestSecretsDiffer | engine/internal/pairing/exchange.go:131-298 | two honest meetings with one secret had the same nonce, salt and public keys, or two named inputs collide |
| PairingSecrets.ResultExact | engine/internal/pairing/exchange.go:270-298 | a result is accepted with a name and an ID if and only if it is, byte for byte, the success byte, the right tag, the name with its length, and the ID |
| PairingSecrets.IdExact | engine/internal/pairing/exchange.go:270-290 | the ID handed back, also beside an error |
| PairingSecrets.RejectionKeeps | engine/internal/pairing/exchange.go:131-298 | calls out of role fail, and a failed call changes nothing but, for a confirm, the transcript |
| PairingSecrets.PinInForce | engine/internal/pairing/exchange.go:84-88 | in every call order the PIN is the last one set with four bytes or more |
| PairingExchange.Exchange.constructor | engine/internal/pairing/exchange.go:67-77 | a new exchange has an empty transcript, no peer and no secret |
| PairingExchange.Exchange.SetPin | engine/internal/pairing/exchange.go:84-88 | a PIN shorter than four bytes is ignored |
| PairingExchange.Exchange.SharedKeys | engine/internal/pairing/exchange.go:106-128 | secret and MAC key from the shared point, the transcript hash, the salt and the PIN |
| PairingExchange.Exchange.SharedKeysWithPeer | engine/internal/pairing/exchange.go:302-307 | the keys for another peer, the stored one restored |
| PairingExchange.Exchange.BeginMessage | engine/internal/pairing/exchange.go:131-142 | PAIR_BEGIN and what it does to the state |
| PairingExchange.Exchange.HandleBegin | engine/internal/pairing/exchange.go:145-155 | OnBegin, with its two rejections |
| PairingExchange.Exchange.ChallengeMessage | engine/internal/pairing/exchange.go:158-169 | PAIR_CHALLENGE |
| PairingExchange.Exchange.HandleChallenge | engine/internal/pairing/exchange.go:172-187 | OnChallenge, with its three rejections |
| PairingExchange.Exchange.ConfirmMessage | engine/internal/pairing/exchange.go:190-212 | PAIR_CONFIRM |
| PairingExchange.Exchange.HandleConfirm | engine/internal/pairing/exchange.go:215-240 | OnConfirm: the peer is stored only when the tag is right; the transcript keeps a rejected key |
| PairingExchange.Exchange.SendResult | engine/internal/pairing/exchange.go:244-266 | ResultMessage |
| PairingExchange.Exchange.HandleResult | engine/internal/pairing/exchange.go:270-298 | OnResult, with its rejections and the ID it hands back also beside a later one |
| RelayRendezvous.HandOff | engine/internal/relay/relay.go:99-127 | in every interleaving a host is handed to at most one phone, of the same id, and its paired channel is closed at most once and only after that |
| RelayRendezvous.PhoneGetsLastHost | engine/internal/relay/relay.go:99-134 | in every interleaving a phone is given the host that registered its id last, unless another phone of that id came in between, and can then go on |
| RelayRendezvous.HostsGoOn | engine/internal/relay/relay.go:112-118 | a host whose channel is closed leaves off waiting, and at shutdown every host's goroutine can return |
| RelayRendezvous.SpliceBeginsWhole | engine/internal/relay/relay.go:144-166 | a splice between two connections that are up begins with all its goroutines at work |
| RelayRendezvous.SpliceStaysWhole | engine/internal/relay/relay.go:144-199 | as long as both peers stay and behave and the relay is not shut down, no goroutine of a splice ends and no signal is sent |
| RelayRendezvous.HostStays | engine/internal/relay/relay.go:107-118 | the relay closes no registered host's connection before it shuts down |
| RelayRendezvous.FourSignals | engine/internal/relay/relay.go:144-166 | every splice gets exactly four completion signals, no send blocks, and none is owed when the phone's goroutine returns |
| RelayRendezvous.FreedDrains | engine/internal/relay/relay.go:144-199 | once the phone is down and the host is down or nothing copies from it, the splice and the phone's goroutine take at most ten steps more, one that waits for no peer is always possible, and the goroutine returns |
| RelayRendezvous.SpliceDrains | engine/internal/relay/relay.go:144-199 | in particular once both connections are down |
| RelayRendezvous.HostHolds | engine/internal/relay/relay.go:161-199 | while the host is connected and some goroutine that copies from it is not made to end, the fourth signal is not sent and the phone's goroutine does not return, also with the phone gone |
| RelayRendezvous.PhoneGoneExact | engine/internal/relay/relay.go:144-199 | with the phone gone, its goroutine can return without the host's acting if and only if the host is down or nothing copies from it |
| RelayRendezvous.HeldRun | engine/internal/relay/relay.go:161-199 | a run from the start after which the phone has left, three signals are received and every step of the splice waits for the host |
| ReplyLimiter.ReplyRateLimiter.AllowReply | engine/internal/discovery/responder.go:143-160 | one request: refill, cap and spend |
| ReplyLimiter.SinceCreation | engine/internal/discovery/responder.go:143-160 | at most 16 + floor((t - t0) / 20 ms) replies since creation |
| ReplyLimiter.AnyWindow | engine/internal/discovery/responder.go:143-160 | at most 17 + floor((t - s) / 20 ms) replies among consecutive calls in [s, t] |
| ReplyLimiter.PauseRefills | engine/internal/discovery/responder.go:143-160 | n <= 16 requests that come n whole intervals after all others are all granted |
| ReplyLimiter.WindowBoundMet | engine/internal/discovery/responder.go:143-160 | 17 replies in one nanosecond are possible |
| ReplyLimiter.GrantsRepeat | engine/internal/discovery/responder.go:155-159 | nothing is refused while there are tokens |
| Registry.RegistryMirrorsMixer | engine/internal/transport/receiver.go:390-455 | after any events the active ids are the mixer's, distinct, at most maxStreams, and every UDP source's stream is one of them |
| Registry.RefusedOnlyWhenFull | engine/internal/transport/receiver.go:619-636 | a hello and a connection are refused exactly when the table is full; AddStream's duplicate error is unreachable |
| Registry.CleanupExact | engine/internal/transport/receiver.go:446-455 | after any events a cleanup forgets exactly the sources whose last hello or aligned audio is more than two seconds old |
| Registry.StreamsAfter | engine/internal/transport/receiver.go:390-455 | after any events, who holds a stream after one more, and that those who keep theirs keep their order |
| Registry.TextsDiffer | engine/internal/transport/receiver.go:611-617 | key texts are equal only for the same source or the same connection number |
| StreamRegistry.MixerStreams.AddStream | engine/internal/mixer/mixer.go:82-113 | appends unless the id is there |
| StreamRegistry.MixerStreams.RemoveStream | engine/internal/mixer/mixer.go:115-133 | the list without the id, in order, and whether it was there |
| StreamRegistry.Receiver.RegisterStream | engine/internal/transport/receiver.go:619-636 | both maps change together or not at all |
| StreamRegistry.Receiver.UnregisterStream | engine/internal/transport/receiver.go:638-645 | both maps give the stream up together |
| StreamRegistry.Receiver.HandleHello | engine/internal/transport/receiver.go:390-418 | a known source is refreshed, a new one registered when there is room |
| StreamRegistry.Receiver.HandleAudio | engine/internal/transport/receiver.go:420-434 | only aligned audio of a known source refreshes it |
| StreamRegistry.Receiver.CleanupIdle | engine/internal/transport/receiver.go:446-455 | exactly the sources silent for more than two seconds are forgotten, in whatever order the map is walked |
| StreamRegistry.Receiver.LoopEnd | engine/internal/transport/receiver.go:334-340 | every source's stream is given back |
| StreamRegistry.Receiver.Connected | engine/internal/transport/receiver.go:294-300 | a connection gets a fresh key and a stream when there is room |
| StreamRegistry.Receiver.Closed | engine/internal/transport/receiver.go:266-270 | the stream is given back |

## Left out

- Smoothed statistics (loss, late, jitter and buffer EWMAs), the holdPeriod choice and the wall clock of the v2 window: floating point and time; whether the hold period has run out is a parameter.
- emitSilence: DTX silence bypasses the sequence tracking and the host never sets the flag.
- 64-bit wrap-around of statistics counters, and of the TCP stream number: counters are unbounded. The sequence and capture numbers of packets do wrap as in the program.
- Playback.Pull: leaves out callbacks in which a stream's lock is held by a writer, or whose scratch is longer than the target, because silence may then come between two parts of one stream; what is served is in order all the same (`JitterRuns.RunInvariant`).
- UdpSender.Sender.RunAttempt: leaves out dialling, hello packets, back-off and which write errors end an attempt, because a packet that is not written is one that is not delivered; packet `fatal` stands for the one whose write ends it.
- Timeline.EndToEnd: leaves out runs in which some read stops inside a frame, because the sender's capture position has then fallen behind, in exactly those runs by `SenderStream.PositionExact`.
- Registry.RegistryMirrorsMixer: TCP connections coming and going in the middle of one idle cleanup are left out, because a cleanup is one step here.
- The TCP path's frames and handshakes: it uses the same tracker without gap filling.
- Writes to a stream in the middle of one mixer callback, and gains changed during it: the callback sees streams that only it reads.
- float32 and float64 rounding in the mixer and the resampler: exact reals and fractions are used, so results at half-way points may differ in the last bit.
- Resampler.S16Resampler.Pull: frames are lists of channel samples, not interleaved bytes, and callbacks deliver whole frames.
- Choice of default watermarks and format validation in NewJitterBuffer and mixer.New: plain defaults.
- The errors of random sources and of HKDF's reader in the pairing exchange: the latter cannot fail for 32 bytes.
- The authenticity of the name and ID in PAIR_RESULT: the tag does not cover them, so `PairingAgreement.ResultCompletes` states delivery only.
- Parsing of the relay's registration stream, the timeouts of its reads and what the splices copy: a registration is a role and an id, and a copying goroutine ends when its source is down or its peer ends the stream or sends what cannot be passed on.
- QUIC, TLS, AEAD envelopes, certificates, device and user-interface code: foreign calls and libraries.
- The Swift client's buffers and drift control, adaptive quality, trust store, profiles and discovery sorting: they would repeat these proofs or add easy ones.
