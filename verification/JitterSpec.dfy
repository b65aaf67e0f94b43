/**
What one stream's jitter buffer does, as functions of its state's value
(engine/internal/mixer/jitterbuffer.go). Class `JitterBuffer` in JitterBuffers.dfy
holds this state in a circular array.
*/
module JitterSpec {
  import opened Arithmetic
  import opened Common
  import opened DropOldest

  /** Frame size in bytes and the two watermarks in frames. */
  datatype Config = Config(bpf: nat, target: nat, high: nat)
  {
    predicate Valid() { 0 < bpf && 0 < target <= high }

    function Capacity(): (n: nat)
    {
      high * bpf
    }
  }

  datatype JState = JState(queue: seq<byte>, primed: bool, discarded: nat, underrun: nat)

  const EMPTY := JState([], false, 0, 0)

  predicate Consistent(cfg: Config, j: JState)
  {
    cfg.Valid() && |j.queue| % cfg.bpf == 0 && |j.queue| <= cfg.Capacity()
  }

  function Frames(cfg: Config, j: JState): (n: nat)
    requires cfg.Valid()
  {
    |j.queue| / cfg.bpf
  }

  /** The whole frames of a write. */
  function Whole(cfg: Config, pcm: seq<byte>): (r: seq<byte>)
    requires cfg.Valid()
  {
    pcm[..Aligned(|pcm|, cfg.bpf)]
  }

  /** Frames that no longer fit under the high watermark. */
  function Excess(queued: nat, added: nat, high: nat): (n: nat)
  {
    if queued + added > high then queued + added - high else 0
  }

  function Write(cfg: Config, j: JState, pcm: seq<byte>): (r: JState)
    requires cfg.Valid()
  {
    var add := Whole(cfg, pcm);
    if add == [] then j else Enqueue(cfg, j, add)
  }

  function Enqueue(cfg: Config, j: JState, add: seq<byte>): (r: JState)
    requires cfg.Valid()
  {
    var queue := Push(j.queue, add, cfg.Capacity());
    JState(queue,
           j.primed || |queue| / cfg.bpf >= cfg.target,
           j.discarded + Excess(Frames(cfg, j), |add| / cfg.bpf, cfg.high),
           j.underrun)
  }

  datatype ReadResult = Skipped | Silence(frames: nat) | Served(pcm: seq<byte>)

  function Wanted(cfg: Config, dstLen: nat, frameCount: int): (n: nat)
    requires cfg.Valid()
  {
    if frameCount <= 0 then 0 else Min(frameCount, dstLen / cfg.bpf)
  }

  /** Read of `frameCount` frames into a destination of dstLen bytes. */
  function Read(cfg: Config, j: JState, dstLen: nat, frameCount: int, locked: bool): (r: (JState, ReadResult))
    requires cfg.Valid()
  {
    var n := Wanted(cfg, dstLen, frameCount);
    if n == 0 then (j, Skipped)
    else if !locked then (j.(underrun := j.underrun + n), Silence(n))
    else ReadLocked(cfg, j, n)
  }

  function ReadLocked(cfg: Config, j: JState, n: nat): (r: (JState, ReadResult))
    requires cfg.Valid()
  {
    if (!j.primed && Frames(cfg, j) < cfg.target) || Frames(cfg, j) < n then
      (j.(primed := false, underrun := j.underrun + n), Silence(n))
    else
      UnitsCompare(n, Frames(cfg, j), cfg.bpf);
      UnitsOf(|j.queue|, cfg.bpf);
      (j.(queue := j.queue[n * cfg.bpf..], primed := true), Served(j.queue[..n * cfg.bpf]))
  }

  // ---- frame arithmetic

  lemma AlignedSum(a: nat, b: nat, unit: nat)
    requires unit > 0 && a % unit == 0
    ensures (a + b) % unit == b % unit && (a + b) / unit == a / unit + b / unit
    ensures Aligned(a + b, unit) == a + Aligned(b, unit)
  {
    UnitsOf(a, unit);
    UnitsOf(b, unit);
    assert a + b == (a / unit + b / unit) * unit + b % unit;
    DivModUnique(a + b, unit, a / unit + b / unit, b % unit);
  }

  lemma AlignedDifference(a: nat, b: nat, unit: nat)
    requires unit > 0 && a % unit == 0 && b % unit == 0 && b <= a
    ensures (a - b) % unit == 0 && (a - b) / unit == a / unit - b / unit
  {
    UnitsOf(a, unit);
    UnitsOf(b, unit);
    assert a - b == (a / unit - b / unit) * unit;
    MultipleOf(a / unit - b / unit, unit);
  }

  lemma DivMonotone(a: nat, b: nat, unit: nat)
    requires unit > 0 && a <= b
    ensures a / unit <= b / unit
  {
    UnitsOf(a, unit);
    UnitsOf(b, unit);
    assert (b / unit + 1) * unit == (b / unit) * unit + unit;
    UnitsCompare(b / unit + 1, a / unit, unit);
  }

  lemma PushAligned(cfg: Config, q: seq<byte>, add: seq<byte>)
    requires cfg.Valid() && |q| % cfg.bpf == 0 && |add| % cfg.bpf == 0
    ensures |Push(q, add, cfg.Capacity())| % cfg.bpf == 0
    ensures |Push(q, add, cfg.Capacity())| / cfg.bpf == Min(|q| / cfg.bpf + |add| / cfg.bpf, cfg.high)
  {
    AlignedSum(|q|, |add|, cfg.bpf);
    MultipleOf(cfg.high, cfg.bpf);
    if |q + add| <= cfg.Capacity() {
      DivMonotone(|q + add|, cfg.Capacity(), cfg.bpf);
    } else {
      DivMonotone(cfg.Capacity(), |q + add|, cfg.bpf);
    }
  }

  lemma WriteConsistent(cfg: Config, j: JState, pcm: seq<byte>)
    requires Consistent(cfg, j)
    ensures Consistent(cfg, Write(cfg, j, pcm))
  {
    PushAligned(cfg, j.queue, Whole(cfg, pcm));
  }

  lemma ReadConsistent(cfg: Config, j: JState, dstLen: nat, frameCount: int, locked: bool)
    requires Consistent(cfg, j)
    ensures Consistent(cfg, Read(cfg, j, dstLen, frameCount, locked).0)
  {
    var n := Wanted(cfg, dstLen, frameCount);
    MultipleOf(n, cfg.bpf);
    if Read(cfg, j, dstLen, frameCount, locked).1.Served? {
      UnitsCompare(n, Frames(cfg, j), cfg.bpf);
      UnitsOf(|j.queue|, cfg.bpf);
      AlignedDifference(|j.queue|, n * cfg.bpf, cfg.bpf);
    }
  }

  /** THEOREM (chunked writes). Writing in frame-aligned pieces with no read in between
      leaves the buffer as one write of the whole: queue, priming and discard count,
      also when it overflows the high watermark. */
  lemma WriteWrite(cfg: Config, j: JState, a: seq<byte>, b: seq<byte>)
    requires Consistent(cfg, j) && |a| % cfg.bpf == 0
    ensures Write(cfg, Write(cfg, j, a), b) == Write(cfg, j, a + b)
  {
    AlignedSum(|a|, |b|, cfg.bpf);
    AlignedSum(|a|, 0, cfg.bpf);
    var b' := Whole(cfg, b);
    assert Whole(cfg, a) == a && Whole(cfg, a + b) == a + b';
    if a == [] {
      assert a + b == b;
    } else if b' == [] {
      assert a + b' == a;
    } else {
      EnqueueEnqueue(cfg, j, a, b');
    }
  }

  lemma EnqueueEnqueue(cfg: Config, j: JState, a: seq<byte>, b: seq<byte>)
    requires Consistent(cfg, j) && |a| % cfg.bpf == 0 && |b| % cfg.bpf == 0
    ensures Enqueue(cfg, Enqueue(cfg, j, a), b) == Enqueue(cfg, j, a + b)
  {
    AlignedSum(|a|, |b|, cfg.bpf);
    PushPush(j.queue, a, b, cfg.Capacity());
    PushAligned(cfg, j.queue, a);
    PushAligned(cfg, Push(j.queue, a, cfg.Capacity()), b);
  }
}
