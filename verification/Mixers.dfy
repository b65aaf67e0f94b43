/**
The mixer (engine/internal/mixer/mixer.go): the playback callback's chunk loop over
the streams, the gain-weighted sum and the rounding back to 16-bit samples. Nobody
writes to a stream during a callback here, and float32 is exact real arithmetic.
*/
module Mixers {
  import opened Arithmetic
  import opened Common
  import opened JitterSpec
  import opened MixerSpec

  /** The i-th little-endian 16-bit sample. */
  function Sample(pcm: seq<byte>, i: nat): (s: int)
    requires 2 * i + 1 < |pcm|
    ensures -32768 <= s <= 32767 && (s - ((pcm[2 * i] as int) + 256 * (pcm[2 * i + 1] as int))) % 65536 == 0
  {
    var u := (pcm[2 * i] as int) + 256 * (pcm[2 * i + 1] as int);
    if u >= 32768 then u - 65536 else u
  }

  function SampleByte(s: int, high: bool): (b: byte)
    requires -32768 <= s <= 32767
  {
    var u := if s < 0 then s + 65536 else s;
    if high then u / 256 else u % 256
  }

  /** clampS16: saturate, and round half away from zero. */
  function Clamp(v: real): (s: int)
    ensures -32768 <= s <= 32767
    ensures v > 32767.0 ==> s == 32767
    ensures v < -32768.0 ==> s == -32768
    ensures 0.0 <= v <= 32767.0 ==> s as real - 0.5 <= v < s as real + 0.5
    ensures -32768.0 <= v < 0.0 ==> s as real - 0.5 < v <= s as real + 0.5
  {
    if v > 32767.0 then 32767
    else if v < -32768.0 then -32768
    else if v >= 0.0 then (v + 0.5).Floor
    else -((-v + 0.5).Floor)
  }

  /** THEOREM. clampS16 rounds to a nearest integer if and only if the sum is within
      half a step of the 16-bit range. */
  lemma ClampRounds(v: real)
    ensures -0.5 <= Clamp(v) as real - v <= 0.5 <==> -32768.5 <= v <= 32767.5
  {
    if 0.0 <= v <= 32767.0 { assert (v + 0.5).Floor as real <= v + 0.5; }
    if -32768.0 <= v < 0.0 { assert (-v + 0.5).Floor as real <= -v + 0.5; }
  }

  /** The gain-weighted sum of sample i of every stream, in stream order. */
  function MixSum(pieces: seq<seq<byte>>, gains: seq<real>, i: nat): (r: real)
    requires |pieces| == |gains| && forall s :: 0 <= s < |pieces| ==> 2 * i + 1 < |pieces[s]|
  {
    if pieces == [] then 0.0
    else
      var n := |pieces| - 1;
      MixSum(pieces[..n], gains[..n], i) + Weighted(Sample(pieces[n], i), gains[n])
  }

  function Weighted(sample: int, gain: real): (r: real)
  {
    sample as real * gain
  }

  // ---- the mixer's own gains

  /** The samples i of the feeds, added up. */
  function SumOf(feeds: seq<seq<byte>>, i: nat): (n: int)
    requires forall s :: 0 <= s < |feeds| ==> 2 * i + 1 < |feeds[s]|
    ensures -32768 * |feeds| <= n <= 32767 * |feeds|
  {
    if feeds == [] then 0 else SumOf(feeds[..|feeds| - 1], i) + Sample(feeds[|feeds| - 1], i)
  }

  lemma {:induction false} EqualGains(feeds: seq<seq<byte>>, gains: seq<real>, i: nat, g: real)
    requires |feeds| == |gains| && forall s :: 0 <= s < |feeds| ==> 2 * i + 1 < |feeds[s]|
    requires forall s :: 0 <= s < |gains| ==> gains[s] == g
    ensures MixSum(feeds, gains, i) == Weighted(SumOf(feeds, i), g)
  {
    if feeds != [] {
      var n := |feeds| - 1;
      EqualGains(feeds[..n], gains[..n], i, g);
      WeightedAdds(SumOf(feeds[..n], i), Sample(feeds[n], i), g);
    }
  }

  lemma WeightedAdds(a: int, b: int, g: real)
    ensures Weighted(a + b, g) == Weighted(a, g) + Weighted(b, g)
  {
  }

  /** Only stream t sounds: the mix is its sample at its own gain. */
  lemma {:induction false} Solo(feeds: seq<seq<byte>>, gains: seq<real>, i: nat, t: nat)
    requires |feeds| == |gains| && t < |feeds| && forall s :: 0 <= s < |feeds| ==> 2 * i + 1 < |feeds[s]|
    requires forall s :: 0 <= s < |feeds| && s != t ==> Sample(feeds[s], i) == 0
    ensures MixSum(feeds, gains, i) == Weighted(Sample(feeds[t], i), gains[t])
  {
    var n := |feeds| - 1;
    if t < n {
      Solo(feeds[..n], gains[..n], i, t);
    } else {
      AllSilent(feeds[..n], gains[..n], i);
    }
  }

  lemma {:induction false} AllSilent(feeds: seq<seq<byte>>, gains: seq<real>, i: nat)
    requires |feeds| == |gains|
    requires forall s :: 0 <= s < |feeds| ==> 2 * i + 1 < |feeds[s]| && Sample(feeds[s], i) == 0
    ensures MixSum(feeds, gains, i) == 0.0
  {
    if feeds != [] {
      AllSilent(feeds[..|feeds| - 1], gains[..|feeds| - 1], i);
    }
  }

  /** The streams share the master gain equally, each at its own gain. */
  lemma GainShares(master: real, streams: seq<Stream>, s: nat)
    requires s < |streams|
    ensures |streams| as real * Gains(master, streams)[s] == master * streams[s].gain
  {
    Share(master, |streams| as real, streams[s].gain);
  }

  lemma Share(master: real, n: real, gain: real)
    requires n > 0.0
    ensures n * ((master / n) * gain) == master * gain
  {
    assert n * (master / n) == master;
    Regroup(n, master / n, gain);
  }

  lemma Regroup(a: real, b: real, c: real)
    ensures a * (b * c) == (a * b) * c
  {
  }

  ghost predicate UnitGains(streams: seq<Stream>)
  {
    forall s :: 0 <= s < |streams| ==> streams[s].gain == 1.0
  }

  function Mean(feeds: seq<seq<byte>>, i: nat): (v: real)
    requires feeds != [] && forall s :: 0 <= s < |feeds| ==> 2 * i + 1 < |feeds[s]|
  {
    SumOf(feeds, i) as real / |feeds| as real
  }

  /** THEOREM (headroom). With every stream at unit gain under unit master gain, the mixer's
      own gains make the mean of the samples, which is in the 16-bit range, so the clamp
      only rounds. */
  lemma UnitGainsNeverSaturate(feeds: seq<seq<byte>>, streams: seq<Stream>, i: nat)
    requires 0 < |feeds| == |streams| && UnitGains(streams)
    requires forall s :: 0 <= s < |feeds| ==> 2 * i + 1 < |feeds[s]|
    ensures var v := MixSum(feeds, Gains(1.0, streams), i);
            v == Mean(feeds, i) && -32768.0 <= v <= 32767.0 && -0.5 <= Clamp(v) as real - v <= 0.5
  {
    var gains, n := Gains(1.0, streams), |streams|;
    forall s | 0 <= s < n ensures gains[s] == 1.0 / n as real { GainShares(1.0, streams, s); }
    EqualGains(feeds, gains, i, 1.0 / n as real);
    MeanInRange(SumOf(feeds, i), n);
    ClampRounds(MixSum(feeds, gains, i));
  }

  lemma MeanInRange(sum: int, n: nat)
    requires n > 0 && -32768 * n <= sum <= 32767 * n
    ensures Weighted(sum, 1.0 / n as real) == sum as real / n as real
    ensures -32768.0 <= sum as real / n as real <= 32767.0
  {
    var v := sum as real / n as real;
    assert v * n as real == sum as real;
    if v > 32767.0 { Larger(v, 32767.0, n as real); }
    if v < -32768.0 { Larger(-32768.0, v, n as real); }
    assert Weighted(sum, 1.0 / n as real) * n as real == sum as real by {
      Regroup(sum as real, 1.0 / n as real, n as real);
      assert 1.0 / n as real * n as real == 1.0;
    }
    if Weighted(sum, 1.0 / n as real) > v { Larger(Weighted(sum, 1.0 / n as real), v, n as real); }
    if Weighted(sum, 1.0 / n as real) < v { Larger(v, Weighted(sum, 1.0 / n as real), n as real); }
  }

  lemma Larger(a: real, b: real, n: real)
    requires a > b && n > 0.0
    ensures a * n > b * n
  {
    assert (a - b) * n > 0.0;
  }

  /** Every output sample k < m is within half a step of the mean of the feeds' samples. */
  ghost predicate NearMean(out: seq<byte>, feeds: seq<seq<byte>>, m: int)
  {
    && feeds != []
    && forall k :: 0 <= k < m ==> NearMeanAt(out, feeds, k)
  }

  ghost predicate NearMeanAt(out: seq<byte>, feeds: seq<seq<byte>>, k: nat)
    requires feeds != []
  {
    && 2 * k + 1 < |out| && (forall s :: 0 <= s < |feeds| ==> 2 * k + 1 < |feeds[s]|)
    && -0.5 <= Sample(out, k) as real - Mean(feeds, k) <= 0.5
  }

  lemma SampleReads(out: seq<byte>, k: nat, v: int)
    requires 2 * k + 1 < |out| && -32768 <= v <= 32767
    ensures out[2 * k] == SampleByte(v, false) && out[2 * k + 1] == SampleByte(v, true) <==> Sample(out, k) == v
  {
  }

  /** THEOREM (unit mix). What N streams at unit gain under unit master gain put out is the
      mean of their samples, rounded. */
  lemma UnitMix(out: seq<byte>, feeds: seq<seq<byte>>, streams: seq<Stream>, m: nat)
    requires 0 < |feeds| == |streams| && UnitGains(streams) && MixedUpTo(out, feeds, Gains(1.0, streams), m)
    ensures NearMean(out, feeds, m)
  {
    forall k | 0 <= k < m ensures NearMeanAt(out, feeds, k) {
      assert Mixed(out, feeds, Gains(1.0, streams), k);
      UnitGainsNeverSaturate(feeds, streams, k);
      SampleReads(out, k, Clamp(MixSum(feeds, Gains(1.0, streams), k)));
    }
  }

  /** THEOREM (one stream passes through). A single stream at unit gain under unit master
      gain comes out byte for byte. */
  lemma OneStreamPasses(out: seq<byte>, feed: seq<byte>, streams: seq<Stream>, m: nat)
    requires |streams| == 1 && UnitGains(streams) && MixedUpTo(out, [feed], Gains(1.0, streams), m)
    ensures 2 * m <= |out| && 2 * m <= |feed| && out[..2 * m] == feed[..2 * m]
  {
    UnitMix(out, [feed], streams, m);
    forall k | 0 <= k < m ensures 2 * k + 1 < |out| && 2 * k + 1 < |feed|
      ensures out[2 * k] == feed[2 * k] && out[2 * k + 1] == feed[2 * k + 1]
    {
      assert NearMeanAt(out, [feed], k);
      OneSum(feed, k);
      SampleReads(out, k, Sample(feed, k));
      SampleReads(feed, k, Sample(feed, k));
    }
    if m > 0 { assert NearMeanAt(out, [feed], m - 1); }
    forall p | 0 <= p < 2 * m ensures out[p] == feed[p] {
      assert p == 2 * (p / 2) || p == 2 * (p / 2) + 1;
    }
  }

  lemma OneSum(feed: seq<byte>, k: nat)
    requires 2 * k + 1 < |feed|
    ensures Mean([feed], k) == Sample(feed, k) as real
  {
    assert [feed][..0] == [];
    assert SumOf([], k) == 0;
  }

  // ---- appending chunks

  lemma {:induction false} MixSumBefore(
      feeds: seq<seq<byte>>, pieces: seq<seq<byte>>, both: seq<seq<byte>>, gains: seq<real>, i: nat)
    requires |feeds| == |pieces| == |both| == |gains|
    requires forall s :: 0 <= s < |feeds| ==> both[s] == feeds[s] + pieces[s] && 2 * i + 1 < |feeds[s]|
    ensures MixSum(both, gains, i) == MixSum(feeds, gains, i)
  {
    if feeds != [] {
      var n := |feeds| - 1;
      MixSumBefore(feeds[..n], pieces[..n], both[..n], gains[..n], i);
    }
  }

  lemma {:induction false} MixSumAfter(
      feeds: seq<seq<byte>>, pieces: seq<seq<byte>>, both: seq<seq<byte>>, gains: seq<real>, before: nat, i: nat)
    requires |feeds| == |pieces| == |both| == |gains|
    requires forall s :: 0 <= s < |feeds| ==>
      both[s] == feeds[s] + pieces[s] && |feeds[s]| == 2 * before && 2 * i + 1 < |pieces[s]|
    ensures MixSum(both, gains, before + i) == MixSum(pieces, gains, i)
  {
    if feeds != [] {
      var n := |feeds| - 1;
      MixSumAfter(feeds[..n], pieces[..n], both[..n], gains[..n], before, i);
    }
  }

  // ---- the mixer object

  datatype Stream = Stream(id: string, buffer: JState, gain: real)

  function Gains(master: real, streams: seq<Stream>): (g: seq<real>)
    ensures |g| == |streams|
  {
    seq(|streams|, s requires 0 <= s < |streams| => (master / |streams| as real) * streams[s].gain)
  }

  /** Output sample k holds the rounded mix of the feeds. */
  ghost predicate Mixed(out: seq<byte>, feeds: seq<seq<byte>>, gains: seq<real>, k: nat)
  {
    && |feeds| == |gains| && (forall s :: 0 <= s < |feeds| ==> 2 * k + 1 < |feeds[s]|)
    && 2 * k + 1 < |out|
    && out[2 * k] == SampleByte(Clamp(MixSum(feeds, gains, k)), false)
    && out[2 * k + 1] == SampleByte(Clamp(MixSum(feeds, gains, k)), true)
  }

  class Mixer {
    const cfg: Config
    const channels: nat
    const scratchFrames: nat
    const acc: array<real>
    var streams: seq<Stream>
    var masterGain: real

    ghost predicate Valid()
      reads this
    {
      && cfg.Valid() && channels > 0 && cfg.bpf == 2 * channels && scratchFrames > 0
      && acc.Length == scratchFrames * channels
      && forall s :: 0 <= s < |streams| ==> Consistent(cfg, streams[s].buffer)
    }

    constructor (config: Config, scratch: nat)
      requires config.Valid() && config.bpf % 2 == 0 && scratch > 0
      ensures Valid() && streams == [] && masterGain == 1.0 && cfg == config && scratchFrames == scratch && fresh(acc)
    {
      cfg, channels, scratchFrames := config, config.bpf / 2, scratch;
      MulNonNegative(scratch, config.bpf / 2);
      acc := new real[scratch * (config.bpf / 2)];
      streams, masterGain := [], 1.0;
    }

    /** mixS16LE: add one stream's samples, weighted. */
    method MixS16LE(n: nat, pcm: seq<byte>, gain: real)
      requires n <= acc.Length && 2 * n <= |pcm|
      modifies acc
      ensures forall i :: 0 <= i < n ==> acc[i] == old(acc[i]) + Weighted(Sample(pcm, i), gain)
      ensures forall i :: n <= i < acc.Length ==> acc[i] == old(acc[i])
    {
      for i := 0 to n
        invariant forall k :: 0 <= k < i ==> acc[k] == old(acc[k]) + Weighted(Sample(pcm, k), gain)
        invariant forall k :: i <= k < acc.Length ==> acc[k] == old(acc[k])
      {
        acc[i] := acc[i] + Weighted(Sample(pcm, i), gain);
      }
    }

    /** One chunk of n frames from every stream, summed up in acc. */
    method MixChunk(n: nat, gains: seq<real>, locks: seq<bool>) returns (ghost pieces: seq<seq<byte>>)
      requires Valid() && 0 < n <= scratchFrames && |locks| == |streams| == |gains|
      modifies this`streams, acc
      ensures Valid() && |streams| == |old(streams)| == |pieces|
      ensures forall s :: 0 <= s < |streams| ==> ChunkOf(cfg, n, old(streams)[s], locks[s], streams[s], pieces[s])
      ensures 0 <= n * channels <= acc.Length
      ensures forall k :: 0 <= k < n * channels ==> Summed(pieces, gains, k, acc[k])
    {
      UnitsCompare(n, scratchFrames, channels);
      MulNonNegative(n, channels);
      var m := n * channels;
      forall k | 0 <= k < m { acc[k] := 0.0; }
      pieces := [];
      ghost var before := streams;
      for s := 0 to |streams|
        invariant Valid() && |streams| == |before| && |pieces| == s
        invariant forall t :: s <= t < |streams| ==> streams[t] == before[t]
        invariant forall t :: 0 <= t < s ==> ChunkOf(cfg, n, before[t], locks[t], streams[t], pieces[t])
        invariant forall k :: 0 <= k < m ==> Summed(pieces, gains[..s], k, acc[k])
      {
        ghost var piece := MixStream(s, n, gains[s], locks[s], pieces, gains[..s]);
        assert gains[..s + 1] == gains[..s] + [gains[s]];
        pieces := pieces + [piece];
      }
      assert gains[..|streams|] == gains;
    }

    /** Read one stream's chunk and mix it in. */
    method MixStream(s: nat, n: nat, gain: real, locked: bool, ghost pieces: seq<seq<byte>>, ghost gains: seq<real>)
      returns (ghost piece: seq<byte>)
      requires Valid() && s < |streams| && 0 < n && 0 <= n * channels <= acc.Length
      requires forall k :: 0 <= k < n * channels ==> Summed(pieces, gains, k, acc[k])
      modifies this`streams, acc
      ensures Valid() && |streams| == |old(streams)| && streams == old(streams)[s := streams[s]]
      ensures ChunkOf(cfg, n, old(streams)[s], locked, streams[s], piece)
      ensures forall k :: 0 <= k < n * channels ==> Summed(pieces + [piece], gains + [gain], k, acc[k])
    {
      ghost var sums := acc[..];
      ScratchLength(cfg, streams[s].buffer, n, locked);
      ReadConsistent(cfg, streams[s].buffer, n * cfg.bpf, n, locked);
      assert n * cfg.bpf == 2 * (n * channels);
      var (buffer, result) := Read(cfg, streams[s].buffer, n * cfg.bpf, n, locked);
      var scratch := Scratch(cfg, n, result);
      MixS16LE(n * channels, scratch, gain);
      streams := streams[s := streams[s].(buffer := buffer)];
      piece := scratch;
      forall k | 0 <= k < n * channels ensures Summed(pieces + [piece], gains + [gain], k, acc[k]) {
        assert Summed(pieces, gains, k, sums[k]);
        SumAppends(pieces, gains, piece, gain, k);
      }
    }

    /** writeS16LE: m rounded samples from byte `at` on. */
    method WriteS16LE(out: array<byte>, at: nat, m: nat)
      requires m <= acc.Length && at + 2 * m <= out.Length
      modifies out
      ensures forall k :: 0 <= k < m ==> Holds(out[..], at + 2 * k, acc[k])
      ensures out[..at] == old(out[..at]) && out[at + 2 * m..] == old(out[at + 2 * m..])
    {
      for i := 0 to m
        invariant forall k :: 0 <= k < i ==> Holds(out[..], at + 2 * k, acc[k])
        invariant forall p :: (0 <= p < at || at + 2 * i <= p < out.Length) ==> out[p] == old(out[p])
      {
        var s := Clamp(acc[i]);
        ghost var was := out[..];
        out[at + 2 * i], out[at + 2 * i + 1] := SampleByte(s, false), SampleByte(s, true);
        assert forall k :: 0 <= k < i ==> Holds(was, at + 2 * k, acc[k]);
      }
    }

    /** Read: mix frameCount frames into out, a scratch buffer at a time. locks[s](c)
        says whether stream s's lock was free at chunk c. */
    method ReadInto(out: array<byte>, frameCount: int, locks: seq<nat -> bool>)
      returns (chunks: nat, ghost feeds: seq<Feed>)
      requires Valid() && |locks| == |streams|
      modifies this`streams, acc, out
      ensures Valid()
      ensures frameCount <= 0 || out.Length == 0 ==> streams == old(streams) && out[..] == old(out[..])
      ensures frameCount > 0 && out.Length > 0 ==>
        var frames := Min(frameCount, out.Length / cfg.bpf);
        && Fed(cfg, frames, scratchFrames, old(streams), locks, chunks, feeds, streams)
        && (forall p :: 0 <= p < out.Length && (p >= frames * cfg.bpf || streams == []) ==> out[p] == 0)
        && (streams != [] ==> Even(cfg, feeds, frames))
        && (streams != [] ==> MixedUpTo(out[..], BytesOf(feeds), Gains(masterGain, old(streams)), frames * channels))
        && (streams != [] && masterGain == 1.0 && UnitGains(old(streams)) ==>
             NearMean(out[..], BytesOf(feeds), frames * channels))
    {
      chunks, feeds := 0, [];
      if frameCount <= 0 || out.Length == 0 {
        return;
      }
      var frames := Min(frameCount, out.Length / cfg.bpf);
      FramesFit(frames, out.Length, cfg.bpf);
      forall p | frames * cfg.bpf <= p < out.Length { out[p] := 0; }
      feeds := StartFeeds(streams);
      if streams == [] {
        forall p | 0 <= p < out.Length { out[p] := 0; }
        return;
      }
      ghost var cleared := out[..];
      chunks, feeds := MixFrames(out, frames, locks);
      BeyondAt(cleared, out[..], frames * cfg.bpf);
      MulNonNegative(frames, channels);
      if masterGain == 1.0 && UnitGains(old(streams)) {
        UnitMix(out[..], BytesOf(feeds), old(streams), frames * channels);
      }
    }

    /** The chunk loop of Read. */
    method MixFrames(out: array<byte>, frames: nat, locks: seq<nat -> bool>)
      returns (chunks: nat, ghost feeds: seq<Feed>)
      requires Valid() && |locks| == |streams| > 0 && 0 <= frames * cfg.bpf <= out.Length
      modifies this`streams, acc, out
      ensures Valid() && SameBeyond(old(out[..]), out[..], frames * cfg.bpf)
      ensures SoFar(cfg, Callback(frames, scratchFrames, old(streams), locks,
                                  Gains(masterGain, old(streams)), channels),
                    Progress(chunks, frames, feeds, streams), out[..])
    {
      var cb := Callback(frames, scratchFrames, streams, locks, Gains(masterGain, streams), channels);
      var offset := 0;
      chunks := 0;
      ghost var at := Progress(0, 0, StartFeeds(streams), streams);
      NothingYet(cfg, cb, out[..]);
      while offset < frames
        invariant 0 <= offset <= frames && Valid() && |streams| == |cb.start|
        invariant at.c == chunks && at.offset == offset && at.streams == streams && SoFar(cfg, cb, at, out[..])
        invariant SameBeyond(old(out[..]), out[..], frames * cfg.bpf)
      {
        offset, chunks, at := OneChunk(out, cb, offset, chunks, at);
      }
      feeds := at.feeds;
    }

    /** The callback is one of this mixer's. */
    ghost predicate Suits(cb: Callback)
      reads this
    {
      cb.scratch == scratchFrames && cb.channels == channels
    }

    /** One pass of the chunk loop. */
    method OneChunk(out: array<byte>, cb: Callback, offset: nat, c: nat, ghost at: Progress)
      returns (offset': nat, c': nat, ghost at': Progress)
      requires Valid() && Suits(cb) && |streams| == |cb.start| == |cb.locks| == |cb.gains|
      requires offset < cb.frames && 0 <= cb.frames * cfg.bpf <= out.Length
      requires at.c == c && at.offset == offset && at.streams == streams && SoFar(cfg, cb, at, out[..])
      modifies this`streams, acc, out
      ensures Valid() && |streams| == |cb.start| && offset < offset' <= cb.frames
      ensures at'.c == c' && at'.offset == offset' && at'.streams == streams && SoFar(cfg, cb, at', out[..])
      ensures SameBeyond(old(out[..]), out[..], cb.frames * cfg.bpf)
    {
      var n := Min(scratchFrames, cb.frames - offset);
      var free := seq(|cb.locks|, s requires 0 <= s < |cb.locks| => cb.locks[s](c));
      ghost var pieces := MixChunk(n, cb.gains, free);
      ghost var feeds := at.feeds;
      ghost var feeds' := seq(|feeds|, s requires 0 <= s < |feeds| =>
        NextChunk(cfg, cb.frames, cb.scratch, feeds[s], cb.locks[s](c)));
      offset', c' := offset + n, c + 1;
      at' := Progress(c', offset', feeds', streams);
      WriteChunk(out, cb, offset, n, at, at', pieces);
    }

    /** Write one summed chunk behind the ones before it. */
    method WriteChunk(out: array<byte>, cb: Callback, offset: nat, n: nat,
                      ghost at: Progress, ghost at': Progress, ghost pieces: seq<seq<byte>>)
      requires cfg.Valid() && cfg.bpf == 2 * channels && channels == cb.channels && at.offset == offset
      requires SoFar(cfg, cb, at, out[..]) && ChunksRead(cfg, cb, n, at, at', pieces)
      requires 0 <= n * channels <= acc.Length && 0 <= cb.frames * cfg.bpf <= out.Length
      requires forall k :: 0 <= k < n * channels ==> Summed(pieces, cb.gains, k, acc[k])
      modifies out
      ensures SoFar(cfg, cb, at', out[..])
      ensures SameBeyond(old(out[..]), out[..], cb.frames * cfg.bpf)
    {
      var first, m := offset * cfg.bpf, n * channels;
      ChunkFits(cfg, channels, cb.frames, offset, n, first, m);
      ghost var was := out[..];
      WriteS16LE(out, first, m);
      Beyond(was, out[..], first + 2 * m, cb.frames * cfg.bpf);
      ChunkMixed(cfg, cb, n, at, at', pieces, was, out[..], acc[..]);
    }
  }

  /** One playback callback: what it asks for and what it finds. */
  datatype Callback = Callback(
    frames: nat, scratch: nat, start: seq<Stream>, locks: seq<nat -> bool>, gains: seq<real>, channels: nat)

  /** How far a callback has come: c chunks, `offset` frames of every stream. */
  datatype Progress = Progress(c: nat, offset: nat, feeds: seq<Feed>, streams: seq<Stream>)

  /** What reading one chunk did to a stream, and the bytes it gave. */
  ghost predicate ChunkOf(cfg: Config, n: nat, before: Stream, locked: bool, after: Stream, piece: seq<byte>)
    requires cfg.Valid()
  {
    MulNonNegative(n, cfg.bpf);
    var (buffer, result) := Read(cfg, before.buffer, n * cfg.bpf, n, locked);
    after == before.(buffer := buffer) && piece == Scratch(cfg, n, result)
  }

  function StartFeeds(streams: seq<Stream>): (feeds: seq<Feed>)
    ensures |feeds| == |streams| && forall s :: 0 <= s < |feeds| ==> feeds[s] == Feed(streams[s].buffer, [], 0)
  {
    seq(|streams|, s requires 0 <= s < |streams| => Feed(streams[s].buffer, [], 0))
  }

  function BytesOf(feeds: seq<Feed>): (r: seq<seq<byte>>)
    ensures |r| == |feeds| && forall s :: 0 <= s < |r| ==> r[s] == feeds[s].bytes
  {
    seq(|feeds|, s requires 0 <= s < |feeds| => feeds[s].bytes)
  }

  /** Every feed has got `offset` frames. */
  ghost predicate Even(cfg: Config, feeds: seq<Feed>, offset: nat)
  {
    forall s :: 0 <= s < |feeds| ==> feeds[s].done == offset && |feeds[s].bytes| == offset * cfg.bpf
  }

  /** The first m samples of `out` are mixed from the feeds. */
  ghost predicate MixedUpTo(out: seq<byte>, feeds: seq<seq<byte>>, gains: seq<real>, m: int)
  {
    forall k :: 0 <= k < m ==> Mixed(out, feeds, gains, k)
  }

  /** A callback that has mixed its first `offset` frames in c chunks. */
  ghost predicate SoFar(cfg: Config, cb: Callback, at: Progress, out: seq<byte>)
    requires cfg.Valid()
  {
    && Fed(cfg, cb.frames, cb.scratch, cb.start, cb.locks, at.c, at.feeds, at.streams)
    && Even(cfg, at.feeds, at.offset) && MixedUpTo(out, BytesOf(at.feeds), cb.gains, at.offset * cb.channels)
  }

  lemma NothingYet(cfg: Config, cb: Callback, out: seq<byte>)
    requires cfg.Valid() && |cb.start| == |cb.locks|
    ensures SoFar(cfg, cb, Progress(0, 0, StartFeeds(cb.start), cb.start), out)
  {
    MulAdd(0, 0, cfg.bpf);
    MulAdd(0, 0, cb.channels);
  }

  lemma FramesFit(frames: nat, length: nat, unit: nat)
    requires unit > 0 && frames <= length / unit
    ensures 0 <= frames * unit <= length
  {
    UnitsCompare(frames, length / unit, unit);
    UnitsOf(length, unit);
    MulNonNegative(frames, unit);
  }

  ghost predicate SameBeyond(was: seq<byte>, now: seq<byte>, from: int)
  {
    0 <= from <= |was| == |now| && now[from..] == was[from..]
  }

  lemma BeyondAt(was: seq<byte>, now: seq<byte>, from: int)
    requires SameBeyond(was, now, from)
    ensures forall p :: from <= p < |was| ==> now[p] == was[p]
  {
    forall p | from <= p < |was| ensures now[p] == was[p] {
      assert now[from..][p - from] == was[from..][p - from];
    }
  }

  lemma Beyond(was: seq<byte>, now: seq<byte>, from: int, later: int)
    requires SameBeyond(was, now, from) && from <= later <= |was|
    ensures SameBeyond(was, now, later)
  {
    assert now[from..][later - from..] == now[later..] && was[from..][later - from..] == was[later..];
  }

  /** The streams are where c chunks of the callback have left them. */
  ghost predicate Fed(cfg: Config, frames: nat, scratch: nat, start: seq<Stream>, locks: seq<nat -> bool>, c: nat,
                      feeds: seq<Feed>, now: seq<Stream>)
    requires cfg.Valid()
  {
    && |feeds| == |start| == |now| == |locks|
    && forall s :: 0 <= s < |feeds| ==>
         FedOne(cfg, frames, scratch, start[s], locks[s], c, feeds[s], now[s])
  }

  ghost predicate FedOne(cfg: Config, frames: nat, scratch: nat, start: Stream, locks: nat -> bool, c: nat,
                         feed: Feed, now: Stream)
    requires cfg.Valid()
  {
    feed == Chunks(cfg, frames, scratch, start.buffer, locks, c) && now == start.(buffer := feed.j)
  }

  /** acc holds the mix of the pieces at sample k. */
  ghost predicate Summed(pieces: seq<seq<byte>>, gains: seq<real>, k: nat, sum: real)
  {
    && |pieces| == |gains| && (forall s :: 0 <= s < |pieces| ==> 2 * k + 1 < |pieces[s]|)
    && sum == MixSum(pieces, gains, k)
  }

  lemma SumAppends(pieces: seq<seq<byte>>, gains: seq<real>, piece: seq<byte>, gain: real, k: nat)
    requires |pieces| == |gains| && (forall s :: 0 <= s < |pieces| ==> 2 * k + 1 < |pieces[s]|) && 2 * k + 1 < |piece|
    ensures Summed(pieces + [piece], gains + [gain], k, MixSum(pieces, gains, k) + Weighted(Sample(piece, k), gain))
  {
    var n, both, weights := |pieces|, pieces + [piece], gains + [gain];
    assert both[..n] == pieces && weights[..n] == gains && both[n] == piece && weights[n] == gain;
    assert forall s :: 0 <= s < |both| ==> 2 * k + 1 < |both[s]|;
  }

  /** The two bytes at p are the rounding of v. */
  ghost predicate Holds(out: seq<byte>, p: nat, v: real)
  {
    p + 1 < |out| && out[p] == SampleByte(Clamp(v), false) && out[p + 1] == SampleByte(Clamp(v), true)
  }

  lemma ChunkFits(cfg: Config, channels: nat, frames: nat, offset: nat, n: nat, at: int, m: int)
    requires cfg.Valid() && cfg.bpf == 2 * channels && offset + n <= frames
    requires at == offset * cfg.bpf && m == n * channels
    ensures 0 <= at && 0 <= m && at + 2 * m <= frames * cfg.bpf
  {
    MulNonNegative(offset, cfg.bpf);
    MulNonNegative(n, channels);
    ChunkNumbers(cfg, channels, frames, offset, n);
  }

  lemma ChunkNumbers(cfg: Config, channels: nat, frames: nat, offset: nat, n: nat)
    requires cfg.Valid() && cfg.bpf == 2 * channels && offset + n <= frames
    ensures offset * cfg.bpf == 2 * (offset * channels)
    ensures (offset + n) * channels == offset * channels + n * channels
    ensures (offset + n) * cfg.bpf == 2 * ((offset + n) * channels) <= frames * cfg.bpf
  {
    UnitsCompare(offset + n, frames, cfg.bpf);
  }

  lemma FeedAdvances(cfg: Config, frames: nat, scratch: nat, start: Stream, locks: nat -> bool, c: nat,
                     feed: Feed, before: Stream, after: Stream, piece: seq<byte>, n: nat)
    requires Consistent(cfg, before.buffer) && FedOne(cfg, frames, scratch, start, locks, c, feed, before)
    requires feed.done < frames && 0 < n == Min(scratch, frames - feed.done)
    requires ChunkOf(cfg, n, before, locks(c), after, piece)
    ensures var feed' := NextChunk(cfg, frames, scratch, feed, locks(c));
            && FedOne(cfg, frames, scratch, start, locks, c + 1, feed', after)
            && feed'.done == feed.done + n && feed'.bytes == feed.bytes + piece && |piece| == n * cfg.bpf
  {
    ScratchLength(cfg, before.buffer, n, locks(c));
  }

  lemma FeedsAdvance(cfg: Config, frames: nat, scratch: nat, start: seq<Stream>, locks: seq<nat -> bool>, c: nat,
                     feeds: seq<Feed>, before: seq<Stream>, after: seq<Stream>, pieces: seq<seq<byte>>,
                     feeds': seq<Feed>, offset: nat, n: nat)
    requires cfg.Valid() && Fed(cfg, frames, scratch, start, locks, c, feeds, before)
    requires |after| == |before| == |pieces| == |feeds'| && offset < frames && 0 < n == Min(scratch, frames - offset)
    requires forall s :: 0 <= s < |feeds| ==>
      && Consistent(cfg, before[s].buffer) && feeds[s].done == offset && |feeds[s].bytes| == offset * cfg.bpf
      && ChunkOf(cfg, n, before[s], locks[s](c), after[s], pieces[s])
      && feeds'[s] == NextChunk(cfg, frames, scratch, feeds[s], locks[s](c))
    ensures Fed(cfg, frames, scratch, start, locks, c + 1, feeds', after)
    ensures forall s :: 0 <= s < |feeds'| ==>
      && feeds'[s].done == offset + n && |feeds'[s].bytes| == (offset + n) * cfg.bpf
      && feeds'[s].bytes == feeds[s].bytes + pieces[s] && |pieces[s]| == n * cfg.bpf
  {
    MulAdd(offset, n, cfg.bpf);
    forall s | 0 <= s < |feeds|
      ensures FedOne(cfg, frames, scratch, start[s], locks[s], c + 1, feeds'[s], after[s])
      ensures feeds'[s].done == offset + n
      ensures feeds'[s].bytes == feeds[s].bytes + pieces[s] && |pieces[s]| == n * cfg.bpf
    {
      assert FedOne(cfg, frames, scratch, start[s], locks[s], c, feeds[s], before[s]);
      FeedAdvances(cfg, frames, scratch, start[s], locks[s], c, feeds[s], before[s], after[s], pieces[s], n);
    }
  }

  /** Writing the next m samples behind the first `before` ones extends the mix. */
  lemma MixedNext(was: seq<byte>, now: seq<byte>, feeds: seq<seq<byte>>, pieces: seq<seq<byte>>, both: seq<seq<byte>>,
                  gains: seq<real>, acc: seq<real>, before: nat, m: nat, k: nat)
    requires |feeds| == |pieces| == |both| == |gains| && |was| == |now| && m <= |acc| && k < before + m
    requires forall s :: 0 <= s < |feeds| ==>
      both[s] == feeds[s] + pieces[s] && |feeds[s]| == 2 * before && |pieces[s]| == 2 * m
    requires 2 * (before + m) <= |now|
    requires k < before ==> Mixed(was, feeds, gains, k)
    requires k >= before ==>
      Summed(pieces, gains, k - before, acc[k - before]) && Holds(now, 2 * before + 2 * (k - before), acc[k - before])
    requires forall p :: 0 <= p < 2 * before ==> now[p] == was[p]
    ensures Mixed(now, both, gains, k)
  {
    if k < before {
      MixSumBefore(feeds, pieces, both, gains, k);
    } else {
      MixSumAfter(feeds, pieces, both, gains, before, k - before);
    }
  }

  lemma MixedMore(was: seq<byte>, now: seq<byte>, feeds: seq<seq<byte>>, pieces: seq<seq<byte>>, both: seq<seq<byte>>,
                  gains: seq<real>, acc: seq<real>, before: nat, m: nat)
    requires |feeds| == |pieces| == |both| == |gains| && |was| == |now| && m <= |acc|
    requires forall s :: 0 <= s < |feeds| ==>
      both[s] == feeds[s] + pieces[s] && |feeds[s]| == 2 * before && |pieces[s]| == 2 * m
    requires 2 * (before + m) <= |now| && MixedUpTo(was, feeds, gains, before)
    requires forall k :: 0 <= k < m ==> Summed(pieces, gains, k, acc[k])
    requires forall k :: 0 <= k < m ==> Holds(now, 2 * before + 2 * k, acc[k])
    requires forall p :: 0 <= p < 2 * before ==> now[p] == was[p]
    ensures MixedUpTo(now, both, gains, before + m)
  {
    forall k | 0 <= k < before + m ensures Mixed(now, both, gains, k) {
      if k >= before {
        assert Summed(pieces, gains, k - before, acc[k - before]);
        assert Holds(now, 2 * before + 2 * (k - before), acc[k - before]);
      } else {
        assert Mixed(was, feeds, gains, k);
      }
      MixedNext(was, now, feeds, pieces, both, gains, acc, before, m, k);
    }
  }

  /** A chunk of n frames has been read from every stream. */
  ghost predicate ChunksRead(cfg: Config, cb: Callback, n: nat, at: Progress, at': Progress, pieces: seq<seq<byte>>)
    requires cfg.Valid()
  {
    && at.offset < cb.frames && 0 < n == Min(cb.scratch, cb.frames - at.offset)
    && at'.c == at.c + 1 && at'.offset == at.offset + n
    && |at'.streams| == |at.streams| == |pieces| == |at'.feeds| == |at.feeds| == |cb.locks| == |cb.gains|
    && forall s :: 0 <= s < |at.streams| ==>
         && Consistent(cfg, at.streams[s].buffer) && at.feeds[s].done <= cb.frames
         && ChunkOf(cfg, n, at.streams[s], cb.locks[s](at.c), at'.streams[s], pieces[s])
         && at'.feeds[s] == NextChunk(cfg, cb.frames, cb.scratch, at.feeds[s], cb.locks[s](at.c))
  }

  /** One more chunk read, summed up and written out. */
  lemma ChunkMixed(cfg: Config, cb: Callback, n: nat, at: Progress, at': Progress, pieces: seq<seq<byte>>,
                   was: seq<byte>, now: seq<byte>, acc: seq<real>)
    requires cfg.Valid() && cfg.bpf == 2 * cb.channels
    requires SoFar(cfg, cb, at, was) && ChunksRead(cfg, cb, n, at, at', pieces)
    requires 0 <= n * cb.channels <= |acc|
    requires forall k :: 0 <= k < n * cb.channels ==> Summed(pieces, cb.gains, k, acc[k])
    requires |was| == |now| && 0 <= at.offset * cfg.bpf && at.offset * cfg.bpf + 2 * (n * cb.channels) <= |now|
    requires forall k :: 0 <= k < n * cb.channels ==> Holds(now, at.offset * cfg.bpf + 2 * k, acc[k])
    requires now[..at.offset * cfg.bpf] == was[..at.offset * cfg.bpf]
    ensures SoFar(cfg, cb, at', now)
  {
    var frames, offset, channels := cb.frames, at.offset, cb.channels;
    FeedsAdvance(cfg, frames, cb.scratch, cb.start, cb.locks, at.c, at.feeds, at.streams, at'.streams, pieces,
                 at'.feeds, offset, n);
    AllFed(cfg, frames, cb.scratch, cb.start, cb.locks, at'.c, at'.feeds, at'.streams, at'.offset);
    ChunkNumbers(cfg, channels, frames, offset, n);
    ChunkNumbers(cfg, channels, frames, 0, n);
    FrontAt(was, now, offset * cfg.bpf);
    MixedMore(was, now, BytesOf(at.feeds), pieces, BytesOf(at'.feeds), cb.gains, acc,
              offset * channels, n * channels);
    assert at'.offset * channels == offset * channels + n * channels;
  }

  lemma FrontAt(was: seq<byte>, now: seq<byte>, n: nat)
    requires n <= |was| == |now| && now[..n] == was[..n]
    ensures forall p :: 0 <= p < n ==> now[p] == was[p]
  {
    forall p | 0 <= p < n ensures now[p] == was[p] { assert now[..n][p] == was[..n][p]; }
  }

  lemma AllFed(cfg: Config, frames: nat, scratch: nat, start: seq<Stream>, locks: seq<nat -> bool>, c: nat,
               feeds: seq<Feed>, now: seq<Stream>, offset: nat)
    requires cfg.Valid() && Fed(cfg, frames, scratch, start, locks, c, feeds, now)
    requires forall s :: 0 <= s < |feeds| ==> feeds[s].done == offset && |feeds[s].bytes| == offset * cfg.bpf
    ensures Fed(cfg, frames, scratch, start, locks, c, feeds, now) && Even(cfg, feeds, offset)
  {
  }

  // ---- chunking cannot be observed

  ghost predicate AllReady(cfg: Config, streams: seq<Stream>, frames: nat)
    requires cfg.Valid()
  {
    forall s :: 0 <= s < |streams| ==>
      Consistent(cfg, streams[s].buffer) && streams[s].buffer.primed && Frames(cfg, streams[s].buffer) >= frames
  }

  /** A callback has taken exactly the stream's oldest frames. */
  ghost predicate TookOldest(cfg: Config, start: Stream, frames: nat, feed: Feed, now: Stream)
    requires cfg.Valid()
  {
    && 0 <= frames * cfg.bpf <= |start.buffer.queue|
    && feed == Taken(start.buffer, frames * cfg.bpf, frames) && now == start.(buffer := feed.j)
  }

  lemma ReadyStreamTakesOldest(cfg: Config, frames: nat, scratch: nat, start: Stream, locks: nat -> bool, c: nat,
                               feed: Feed, now: Stream)
    requires Consistent(cfg, start.buffer) && start.buffer.primed && Frames(cfg, start.buffer) >= frames
    requires 0 < scratch && NoContention(locks)
    requires FedOne(cfg, frames, scratch, start, locks, c, feed, now) && feed.done == frames
    ensures TookOldest(cfg, start, frames, feed, now)
  {
    ReadyFeed(cfg, frames, scratch, start.buffer, locks, c);
  }

  /** THEOREM (chunking is unobservable, every stream at once). When every stream is
      ready, holds enough frames and is not contended, a callback takes exactly the
      oldest frames of each, whatever the size of its scratch buffer. */
  lemma ReadyStreamsTakeOldest(cfg: Config, frames: nat, scratch: nat, start: seq<Stream>, locks: seq<nat -> bool>,
                               c: nat, feeds: seq<Feed>, now: seq<Stream>)
    requires cfg.Valid() && AllReady(cfg, start, frames) && 0 < scratch
    requires Fed(cfg, frames, scratch, start, locks, c, feeds, now) && Even(cfg, feeds, frames)
    requires forall s :: 0 <= s < |locks| ==> NoContention(locks[s])
    ensures forall s :: 0 <= s < |start| ==> TookOldest(cfg, start[s], frames, feeds[s], now[s])
  {
    forall s | 0 <= s < |start| ensures TookOldest(cfg, start[s], frames, feeds[s], now[s]) {
      assert FedOne(cfg, frames, scratch, start[s], locks[s], c, feeds[s], now[s]);
      ReadyStreamTakesOldest(cfg, frames, scratch, start[s], locks[s], c, feeds[s], now[s]);
    }
  }

  /** Equal feeds make equal output. */
  lemma SameOutput(feeds: seq<seq<byte>>, gains: seq<real>, m: nat, out1: seq<byte>, out2: seq<byte>)
    requires MixedUpTo(out1, feeds, gains, m) && MixedUpTo(out2, feeds, gains, m)
    ensures 2 * m <= |out1| && 2 * m <= |out2| && out1[..2 * m] == out2[..2 * m]
  {
    if m > 0 {
      assert Mixed(out1, feeds, gains, m - 1) && Mixed(out2, feeds, gains, m - 1);
    }
    forall p | 0 <= p < 2 * m ensures out1[p] == out2[p] {
      assert Mixed(out1, feeds, gains, p / 2) && Mixed(out2, feeds, gains, p / 2);
    }
  }

  /** THEOREM (scratch size is unobservable). Two callbacks over the same ready streams
      with scratch buffers of any two sizes leave the same streams and the same samples. */
  lemma ScratchSizeUnobservable(
      cfg: Config, frames: nat, start: seq<Stream>, gains: seq<real>, m: nat,
      s1: nat, locks1: seq<nat -> bool>, c1: nat, feeds1: seq<Feed>, now1: seq<Stream>, out1: seq<byte>,
      s2: nat, locks2: seq<nat -> bool>, c2: nat, feeds2: seq<Feed>, now2: seq<Stream>, out2: seq<byte>)
    requires cfg.Valid() && AllReady(cfg, start, frames) && 0 < s1 && 0 < s2
    requires Fed(cfg, frames, s1, start, locks1, c1, feeds1, now1) && Even(cfg, feeds1, frames)
    requires Fed(cfg, frames, s2, start, locks2, c2, feeds2, now2) && Even(cfg, feeds2, frames)
    requires forall s :: 0 <= s < |locks1| ==> NoContention(locks1[s])
    requires forall s :: 0 <= s < |locks2| ==> NoContention(locks2[s])
    requires MixedUpTo(out1, BytesOf(feeds1), gains, m) && MixedUpTo(out2, BytesOf(feeds2), gains, m)
    ensures now1 == now2
    ensures 2 * m <= |out1| && 2 * m <= |out2| && out1[..2 * m] == out2[..2 * m]
  {
    ReadyStreamsTakeOldest(cfg, frames, s1, start, locks1, c1, feeds1, now1);
    ReadyStreamsTakeOldest(cfg, frames, s2, start, locks2, c2, feeds2, now2);
    OneOutcome(cfg, frames, start, feeds1, now1, feeds2, now2);
    SameOutput(BytesOf(feeds1), gains, m, out1, out2);
  }

  lemma OneOutcome(cfg: Config, frames: nat, start: seq<Stream>,
                   feeds1: seq<Feed>, now1: seq<Stream>, feeds2: seq<Feed>, now2: seq<Stream>)
    requires cfg.Valid() && |start| == |feeds1| == |feeds2| == |now1| == |now2|
    requires forall s :: 0 <= s < |start| ==> TookOldest(cfg, start[s], frames, feeds1[s], now1[s])
    requires forall s :: 0 <= s < |start| ==> TookOldest(cfg, start[s], frames, feeds2[s], now2[s])
    ensures feeds1 == feeds2 && now1 == now2
  {
    forall s | 0 <= s < |start| ensures feeds1[s] == feeds2[s] && now1[s] == now2[s] {
      assert TookOldest(cfg, start[s], frames, feeds1[s], now1[s]);
      assert TookOldest(cfg, start[s], frames, feeds2[s], now2[s]);
    }
  }
}
