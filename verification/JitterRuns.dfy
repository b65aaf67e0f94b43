/**
What holds of one jitter buffer over every run of writes and reads
(engine/internal/mixer/jitterbuffer.go).
*/
module JitterRuns {
  import opened Arithmetic
  import opened Common
  import opened DropOldest
  import opened JitterSpec

  datatype Op = WriteOp(pcm: seq<byte>) | ReadOp(dstLen: nat, frameCount: int, locked: bool)

  function Apply(cfg: Config, j: JState, op: Op): (r: JState)
    requires cfg.Valid()
  {
    match op
    case WriteOp(pcm) => Write(cfg, j, pcm)
    case ReadOp(dstLen, n, locked) => Read(cfg, j, dstLen, n, locked).0
  }

  /** A run with its history: the whole frames written, the audio handed out, and for
      each byte handed out its place in what was written. */
  datatype History = History(j: JState, written: seq<byte>, served: seq<byte>, places: seq<nat>)

  const NO_HISTORY := History(EMPTY, [], [], [])

  function Record(cfg: Config, h: History, op: Op): (r: History)
    requires cfg.Valid()
  {
    var j' := Apply(cfg, h.j, op);
    match op
    case WriteOp(pcm) => h.(j := j', written := h.written + Whole(cfg, pcm))
    case ReadOp(dstLen, n, locked) =>
      var result := Read(cfg, h.j, dstLen, n, locked).1;
      if result.Served? && |h.j.queue| <= |h.written| then
        h.(j := j', served := h.served + result.pcm,
           places := h.places + From(|h.written| - |h.j.queue|, |result.pcm|))
      else h.(j := j')
  }

  function From(start: nat, n: nat): (r: seq<nat>)
    ensures |r| == n && forall i :: 0 <= i < n ==> r[i] == start + i
  {
    seq(n, i => start + i)
  }

  function Run(cfg: Config, ops: seq<Op>): (h: History)
    requires cfg.Valid()
  {
    if ops == [] then NO_HISTORY else Record(cfg, Run(cfg, ops[..|ops| - 1]), ops[|ops| - 1])
  }

  /** `places` picks `served` out of `written` from left to right, below `bound`. */
  ghost predicate Subsequence(served: seq<byte>, places: seq<nat>, written: seq<byte>, bound: nat)
  {
    && |places| == |served| && bound <= |written|
    && (forall i :: 0 <= i < |places| ==> places[i] < bound && served[i] == written[places[i]])
    && (forall i, k :: 0 <= i < k < |places| ==> places[i] < places[k])
  }

  /** The queue is what was written last, and served audio comes from before it. */
  ghost predicate InOrder(h: History)
  {
    && |h.j.queue| <= |h.written| && h.j.queue == Skip(h.written, |h.written| - |h.j.queue|)
    && Subsequence(h.served, h.places, h.written, |h.written| - |h.j.queue|)
  }

  ghost predicate Conserved(cfg: Config, h: History)
    requires cfg.Valid()
  {
    |h.written| == |h.served| + |h.j.queue| + h.j.discarded * cfg.bpf
  }

  lemma SubsequenceWider(
      served: seq<byte>, places: seq<nat>, written: seq<byte>, bound: nat, more: seq<byte>, bound': nat)
    requires Subsequence(served, places, written, bound) && bound <= bound' <= |written| + |more|
    ensures Subsequence(served, places, written + more, bound')
  {
  }

  lemma PushIsTail(q: seq<byte>, written: seq<byte>, add: seq<byte>, capacity: nat)
    requires |q| <= |written| && q == Skip(written, |written| - |q|)
    ensures var q' := Push(q, add, capacity);
            |q'| <= |written + add| && q' == Skip(written + add, |written + add| - |q'|)
  {
    assert q + add == Skip(written + add, |written| - |q|);
  }

  lemma WriteInOrder(cfg: Config, h: History, pcm: seq<byte>)
    requires cfg.Valid() && InOrder(h)
    ensures InOrder(Record(cfg, h, WriteOp(pcm)))
  {
    var h', add := Record(cfg, h, WriteOp(pcm)), Whole(cfg, pcm);
    if add == [] {
      assert h.written + add == h.written;
    } else {
      PushIsTail(h.j.queue, h.written, add, cfg.Capacity());
      SubsequenceWider(h.served, h.places, h.written, |h.written| - |h.j.queue|, add, |h'.written| - |h'.j.queue|);
    }
  }

  /** Taking the bytes from place `bound` on next keeps the places in order. */
  lemma SubsequenceTakes(served: seq<byte>, places: seq<nat>, written: seq<byte>, bound: nat, n: nat)
    requires Subsequence(served, places, written, bound) && bound + n <= |written|
    ensures Subsequence(served + written[bound..bound + n], places + From(bound, n), written, bound + n)
  {
  }

  lemma ReadInOrder(cfg: Config, h: History, dstLen: nat, n: int, locked: bool)
    requires Consistent(cfg, h.j) && InOrder(h)
    ensures InOrder(Record(cfg, h, ReadOp(dstLen, n, locked)))
  {
    var (j', result) := Read(cfg, h.j, dstLen, n, locked);
    ReadIsExact(cfg, h.j, dstLen, n, locked);
    if result.Served? {
      var start, taken := |h.written| - |h.j.queue|, |result.pcm|;
      assert result.pcm == h.j.queue[..taken] && j'.queue == h.j.queue[taken..];
      assert result.pcm == h.written[start..start + taken];
      assert j'.queue == Skip(h.written, start + taken);
      SubsequenceTakes(h.served, h.places, h.written, start, taken);
    }
  }

  lemma ReadConserved(cfg: Config, h: History, dstLen: nat, n: int, locked: bool)
    requires Consistent(cfg, h.j) && InOrder(h) && Conserved(cfg, h)
    ensures Conserved(cfg, Record(cfg, h, ReadOp(dstLen, n, locked)))
  {
    ReadIsExact(cfg, h.j, dstLen, n, locked);
  }

  /** The frames a write pushes out, counted in bytes. */
  lemma PushedOut(cfg: Config, q: seq<byte>, add: seq<byte>)
    requires cfg.Valid() && |q| % cfg.bpf == 0 && |add| % cfg.bpf == 0
    ensures Excess(|q| / cfg.bpf, |add| / cfg.bpf, cfg.high) * cfg.bpf
            == |q| + |add| - |Push(q, add, cfg.Capacity())|
  {
    PushAligned(cfg, q, add);
    LostUnits(|q|, |add|, |Push(q, add, cfg.Capacity())|, cfg.high, cfg.bpf);
  }

  lemma LostUnits(q: nat, add: nat, kept: nat, high: nat, unit: nat)
    requires unit > 0 && q % unit == 0 && add % unit == 0 && kept % unit == 0
    requires kept / unit == Min(q / unit + add / unit, high)
    ensures Excess(q / unit, add / unit, high) * unit == q + add - kept
  {
    UnitsOf(q, unit);
    UnitsOf(add, unit);
    UnitsOf(kept, unit);
    Distribute(q / unit, add / unit, kept / unit, Excess(q / unit, add / unit, high), unit);
  }

  lemma WriteConserved(cfg: Config, h: History, pcm: seq<byte>)
    requires Consistent(cfg, h.j) && Conserved(cfg, h)
    ensures Conserved(cfg, Record(cfg, h, WriteOp(pcm)))
  {
    var add := Whole(cfg, pcm);
    if add != [] {
      var lost := Excess(Frames(cfg, h.j), |add| / cfg.bpf, cfg.high);
      PushedOut(cfg, h.j.queue, add);
      assert (h.j.discarded + lost) * cfg.bpf == h.j.discarded * cfg.bpf + lost * cfg.bpf;
    }
  }

  lemma Distribute(a: nat, b: nat, c: nat, d: nat, unit: nat)
    requires a + b == c + d
    ensures a * unit + b * unit == c * unit + d * unit
  {
    assert (a + b) * unit == (c + d) * unit;
  }

  /** THEOREM (conservation and order). After every run of writes and reads, with and
      without contention: frames offered = frames served + queued + discarded; the
      queue is the tail of what was written; and the audio served is an in-order
      subsequence of what was written before it. */
  lemma {:induction false} RunInvariant(cfg: Config, ops: seq<Op>)
    requires cfg.Valid()
    ensures var h := Run(cfg, ops);
            Consistent(cfg, h.j) && InOrder(h) && Conserved(cfg, h)
  {
    if ops != [] {
      var h := Run(cfg, ops[..|ops| - 1]);
      RunInvariant(cfg, ops[..|ops| - 1]);
      match ops[|ops| - 1]
      case WriteOp(pcm) =>
        WriteConsistent(cfg, h.j, pcm);
        WriteInOrder(cfg, h, pcm);
        WriteConserved(cfg, h, pcm);
      case ReadOp(dstLen, n, locked) =>
        ReadConsistent(cfg, h.j, dstLen, n, locked);
        ReadInOrder(cfg, h, dstLen, n, locked);
        ReadConserved(cfg, h, dstLen, n, locked);
    }
  }

  /** THEOREM (writes). A write appends its whole frames, gives up the oldest frames over the
      high watermark, which it counts, and primes a buffer that has reached its target. */
  lemma WriteIsExact(cfg: Config, j: JState, pcm: seq<byte>)
    requires Consistent(cfg, j)
    ensures var j', added := Write(cfg, j, pcm), |pcm| / cfg.bpf;
            && Aligned(|pcm|, cfg.bpf) == added * cfg.bpf
            && var all := j.queue + pcm[..Aligned(|pcm|, cfg.bpf)];
            && |j'.queue| <= |all| && j'.queue == all[|all| - |j'.queue|..]
            && Frames(cfg, j') == Min(Frames(cfg, j) + added, cfg.high)
            && j'.discarded == j.discarded + Max(0, Frames(cfg, j) + added - cfg.high)
            && j'.underrun == j.underrun
            && j'.primed == (j.primed || (added > 0 && Frames(cfg, j') >= cfg.target))
  {
    var add := Whole(cfg, pcm);
    AlignedIs(|pcm|, cfg.bpf);
    PushAligned(cfg, j.queue, add);
    MultipleOf(cfg.high, cfg.bpf);
    DivMonotone(|j.queue|, cfg.Capacity(), cfg.bpf);
    if add == [] {
      assert j.queue + pcm[..0] == j.queue;
      DivModUnique(0, cfg.bpf, 0, 0);
    } else {
      MulAdd(0, 0, cfg.bpf);
    }
  }

  // ---- priming

  /** THEOREM (all or nothing). A read that may serve returns exactly the oldest frames
      asked for when the buffer is ready and holds them, and otherwise silence with the
      queue left alone; a read that finds the lock taken leaves the priming alone too. */
  lemma ReadIsExact(cfg: Config, j: JState, dstLen: nat, frameCount: int, locked: bool)
    requires Consistent(cfg, j)
    ensures var (j', r) := Read(cfg, j, dstLen, frameCount, locked);
            var n := if frameCount <= 0 then 0 else Min(frameCount, dstLen / cfg.bpf);
            if n > 0 && locked && (j.primed || Frames(cfg, j) >= cfg.target) && Frames(cfg, j) >= n then
              r.Served? && |r.pcm| == n * cfg.bpf && j.queue == r.pcm + j'.queue && j'.primed
              && j'.underrun == j.underrun && j'.discarded == j.discarded
            else
              r == (if n == 0 then Skipped else Silence(n)) && j'.queue == j.queue
              && j'.underrun == j.underrun + n && j'.discarded == j.discarded
              && j'.primed == (j.primed && (n == 0 || !locked))
  {
    var n := Wanted(cfg, dstLen, frameCount);
    if n > 0 && locked && (j.primed || Frames(cfg, j) >= cfg.target) && Frames(cfg, j) >= n {
      UnitsCompare(n, Frames(cfg, j), cfg.bpf);
      UnitsOf(|j.queue|, cfg.bpf);
      assert j.queue == j.queue[..n * cfg.bpf] + j.queue[n * cfg.bpf..];
    }
  }

  function RunFrom(cfg: Config, j: JState, ops: seq<Op>): (r: JState)
    requires cfg.Valid()
    decreases |ops|
  {
    if ops == [] then j else RunFrom(cfg, Apply(cfg, j, ops[0]), ops[1..])
  }

  function ServedBytes(cfg: Config, j: JState, ops: seq<Op>): (r: seq<byte>)
    requires cfg.Valid()
    decreases |ops|
  {
    if ops == [] then []
    else
      var now := if ops[0].ReadOp? then Read(cfg, j, ops[0].dstLen, ops[0].frameCount, ops[0].locked).1 else Skipped;
      (if now.Served? then now.pcm else []) + ServedBytes(cfg, Apply(cfg, j, ops[0]), ops[1..])
  }

  /** THEOREM (re-priming). After an underrun nothing is served, whatever is written and
      read, until some step leaves at least the target queued. */
  lemma {:induction false} NothingBeforeTarget(cfg: Config, j: JState, ops: seq<Op>)
    requires Consistent(cfg, j) && !j.primed && Frames(cfg, j) < cfg.target
    requires forall k :: 0 <= k <= |ops| ==> Frames(cfg, RunFrom(cfg, j, ops[..k])) < cfg.target
    ensures ServedBytes(cfg, j, ops) == [] && !RunFrom(cfg, j, ops).primed
    ensures j.queue <= RunFrom(cfg, j, ops).queue
    decreases |ops|
  {
    if ops != [] {
      var op := ops[0];
      var j' := Apply(cfg, j, op);
      assert ops[..1][1..] == [] && ops[..1][0] == op;
      assert Frames(cfg, RunFrom(cfg, j, ops[..1])) < cfg.target;
      assert RunFrom(cfg, j, ops[..1]) == RunFrom(cfg, j', []);
      if op.WriteOp? {
        WriteConsistent(cfg, j, op.pcm);
        WriteBelowTargetKeepsAll(cfg, j, op.pcm);
      } else {
        ReadIsExact(cfg, j, op.dstLen, op.frameCount, op.locked);
        ReadConsistent(cfg, j, op.dstLen, op.frameCount, op.locked);
      }
      forall k | 0 <= k <= |ops[1..]| ensures Frames(cfg, RunFrom(cfg, j', ops[1..][..k])) < cfg.target {
        assert ops[..k + 1][1..] == ops[1..][..k] && ops[..k + 1][0] == op;
        assert Frames(cfg, RunFrom(cfg, j, ops[..k + 1])) < cfg.target;
      }
      NothingBeforeTarget(cfg, j', ops[1..]);
    }
  }

  lemma WriteBelowTargetKeepsAll(cfg: Config, j: JState, pcm: seq<byte>)
    requires Consistent(cfg, j) && Frames(cfg, Write(cfg, j, pcm)) < cfg.target && !j.primed
    ensures j.queue <= Write(cfg, j, pcm).queue && !Write(cfg, j, pcm).primed
  {
    var add := Whole(cfg, pcm);
    if add != [] {
      PushAligned(cfg, j.queue, add);
      AlignedSum(|j.queue|, |add|, cfg.bpf);
      MultipleOf(cfg.high, cfg.bpf);
    }
  }
}
