/**
What one playback callback takes from each stream and makes of it
(engine/internal/mixer/mixer.go). Gains and sums, float32 in the program, are exact
reals here.
*/
module MixerSpec {
  import opened Arithmetic
  import opened Common
  import opened DropOldest
  import opened JitterSpec

  // ---- one stream's share of a callback

  /** What a stream has delivered after some chunks of a callback. */
  datatype Feed = Feed(j: JState, bytes: seq<byte>, done: nat)

  /** The bytes one chunk of n frames leaves in the scratch buffer. */
  function Scratch(cfg: Config, n: nat, r: ReadResult): (b: seq<byte>)
    ensures !r.Served? ==> |b| == n * cfg.bpf && forall i :: 0 <= i < |b| ==> b[i] == 0
  {
    MulNonNegative(n, cfg.bpf);
    if r.Served? then r.pcm else Repeat(0, n * cfg.bpf)
  }

  /** Read the next chunk: `scratch` frames, or what is left of the callback. */
  function NextChunk(cfg: Config, frames: nat, scratch: nat, f: Feed, locked: bool): (r: Feed)
    requires cfg.Valid() && f.done <= frames
    ensures r.done == f.done + Min(scratch, frames - f.done)
  {
    var n := Min(scratch, frames - f.done);
    MulNonNegative(n, cfg.bpf);
    var (j, result) := Read(cfg, f.j, n * cfg.bpf, n, locked);
    Feed(j, f.bytes + Scratch(cfg, n, result), f.done + n)
  }

  /** A stream's feed after c chunks. */
  function Chunks(cfg: Config, frames: nat, scratch: nat, j: JState, locks: nat -> bool, c: nat): (f: Feed)
    requires cfg.Valid()
    ensures f.done <= frames
  {
    if c == 0 then Feed(j, [], 0)
    else NextChunk(cfg, frames, scratch, Chunks(cfg, frames, scratch, j, locks, c - 1), locks(c - 1))
  }

  /** A chunk is filled completely, with audio or with silence. */
  lemma ChunkFills(cfg: Config, frames: nat, scratch: nat, f: Feed, locked: bool)
    requires Consistent(cfg, f.j) && f.done < frames && 0 < scratch && |f.bytes| == f.done * cfg.bpf
    ensures var r := NextChunk(cfg, frames, scratch, f, locked);
            Consistent(cfg, r.j) && |r.bytes| == r.done * cfg.bpf && f.bytes <= r.bytes
  {
    var n := Min(scratch, frames - f.done);
    ReadConsistent(cfg, f.j, n * cfg.bpf, n, locked);
    MulAdd(f.done, n, cfg.bpf);
    ScratchLength(cfg, f.j, n, locked);
  }

  lemma ScratchLength(cfg: Config, j: JState, n: nat, locked: bool)
    requires Consistent(cfg, j) && n > 0
    ensures 0 <= n * cfg.bpf && |Scratch(cfg, n, Read(cfg, j, n * cfg.bpf, n, locked).1)| == n * cfg.bpf
  {
    WantsAll(cfg, n);
    if Read(cfg, j, n * cfg.bpf, n, locked).1.Served? {
      ServedLength(cfg, j, n);
    }
  }

  lemma WantsAll(cfg: Config, n: nat)
    requires cfg.Valid()
    ensures 0 <= n * cfg.bpf && Wanted(cfg, n * cfg.bpf, n) == n
  {
    MultipleOf(n, cfg.bpf);
    if n > 0 { MulAtLeast(n, cfg.bpf); }
  }

  lemma ServedLength(cfg: Config, j: JState, n: nat)
    requires Consistent(cfg, j) && n <= Frames(cfg, j)
    ensures 0 <= n * cfg.bpf <= |j.queue|
  {
    UnitsCompare(n, Frames(cfg, j), cfg.bpf);
    UnitsOf(|j.queue|, cfg.bpf);
  }

  ghost predicate NoContention(locks: nat -> bool)
  {
    forall c :: locks(c)
  }

  // ---- ready streams: chunking cannot be observed

  /** A ready stream's feed when its first a bytes, n frames, have been taken. */
  function Taken(j: JState, a: nat, n: nat): (f: Feed)
    requires a <= |j.queue|
  {
    Feed(j.(queue := Skip(j.queue, a)), j.queue[..a], n)
  }

  /** Out of a ready stream with enough frames, chunks of any size take its oldest frames. */
  lemma {:induction false} ReadyFeed(cfg: Config, frames: nat, scratch: nat, j: JState, locks: nat -> bool, c: nat)
    requires Consistent(cfg, j) && j.primed && Frames(cfg, j) >= frames && 0 < scratch && NoContention(locks)
    ensures var f := Chunks(cfg, frames, scratch, j, locks, c);
            0 <= f.done * cfg.bpf <= |j.queue| && f == Taken(j, f.done * cfg.bpf, f.done)
  {
    if c > 0 {
      var f := Chunks(cfg, frames, scratch, j, locks, c - 1);
      ReadyFeed(cfg, frames, scratch, j, locks, c - 1);
      assert locks(c - 1);
      ReadyNumbers(cfg, j, f.done, Min(scratch, frames - f.done));
      ReadyChunk(cfg, frames, scratch, j, f, f.done * cfg.bpf);
    } else {
      MulAdd(0, 0, cfg.bpf);
    }
  }

  lemma ReadyNumbers(cfg: Config, j: JState, done: nat, n: nat)
    requires Consistent(cfg, j) && done + n <= Frames(cfg, j)
    ensures 0 <= done * cfg.bpf <= |j.queue| && (done * cfg.bpf) % cfg.bpf == 0
    ensures n <= (|j.queue| - done * cfg.bpf) / cfg.bpf
    ensures (done + n) * cfg.bpf == done * cfg.bpf + n * cfg.bpf
  {
    ServedLength(cfg, j, done);
    QueueAfter(cfg, |j.queue|, done);
    MultipleOf(done, cfg.bpf);
    MulAdd(done, n, cfg.bpf);
  }

  lemma ReadyChunk(cfg: Config, frames: nat, scratch: nat, j: JState, f: Feed, a: nat)
    requires Consistent(cfg, j) && j.primed && f.done <= frames && a <= |j.queue| && a % cfg.bpf == 0
    requires f == Taken(j, a, f.done)
    requires Min(scratch, frames - f.done) <= (|j.queue| - a) / cfg.bpf
    ensures var r := NextChunk(cfg, frames, scratch, f, true);
            var n := Min(scratch, frames - f.done);
            0 <= a + n * cfg.bpf <= |j.queue| && r == Taken(j, a + n * cfg.bpf, f.done + n)
  {
    var n := Min(scratch, frames - f.done);
    if n == 0 {
      MulAdd(0, 0, cfg.bpf);
      SkippedChunk(cfg, f.j, 0, true);
      assert f.bytes + [] == f.bytes;
    } else {
      ReadyRead(cfg, j, a, n);
    }
  }

  /** A read of n frames from a ready queue whose first a bytes are gone. */
  lemma ReadyRead(cfg: Config, j: JState, a: nat, n: nat)
    requires Consistent(cfg, j) && j.primed && 0 < n && a <= |j.queue| && a % cfg.bpf == 0
    requires n <= (|j.queue| - a) / cfg.bpf
    ensures 0 < n * cfg.bpf && a + n * cfg.bpf <= |j.queue|
    ensures Read(cfg, j.(queue := Skip(j.queue, a)), n * cfg.bpf, n, true) ==
            (j.(queue := Skip(j.queue, a + n * cfg.bpf)), Served(j.queue[a..a + n * cfg.bpf]))
    ensures j.queue[..a] + j.queue[a..a + n * cfg.bpf] == j.queue[..a + n * cfg.bpf]
  {
    var j0 := j.(queue := Skip(j.queue, a));
    AlignedDifference(|j.queue|, a, cfg.bpf);
    ServedChunk(cfg, j0, n);
    TakesNext(j.queue, a, n * cfg.bpf);
  }

  lemma SkippedChunk(cfg: Config, j: JState, dstLen: nat, locked: bool)
    requires cfg.Valid()
    ensures Read(cfg, j, dstLen, 0, locked) == (j, Skipped)
  {
  }

  lemma ServedChunk(cfg: Config, j: JState, n: nat)
    requires Consistent(cfg, j) && 0 < n <= Frames(cfg, j) && j.primed
    ensures 0 < n * cfg.bpf <= |j.queue|
    ensures Read(cfg, j, n * cfg.bpf, n, true) == (j.(queue := j.queue[n * cfg.bpf..]), Served(j.queue[..n * cfg.bpf]))
  {
    WantsAll(cfg, n);
    MulAtLeast(n, cfg.bpf);
    ServedLength(cfg, j, n);
  }

  lemma QueueAfter(cfg: Config, queued: nat, n: nat)
    requires cfg.Valid() && queued % cfg.bpf == 0 && 0 <= n * cfg.bpf <= queued
    ensures (queued - n * cfg.bpf) % cfg.bpf == 0 && (queued - n * cfg.bpf) / cfg.bpf == queued / cfg.bpf - n
  {
    MultipleOf(n, cfg.bpf);
    AlignedDifference(queued, n * cfg.bpf, cfg.bpf);
  }

  lemma TakesNext(q: seq<byte>, a: nat, b: nat)
    requires a + b <= |q|
    ensures Skip(q, a)[..b] == q[a..a + b] && q[..a] + q[a..a + b] == q[..a + b]
    ensures Skip(q, a)[b..] == Skip(q, a + b)
  {
  }

  // ---- streams that run dry

  /** Audio up to some point, then silence. */
  ghost predicate PrefixThenSilence(queue: seq<byte>, bytes: seq<byte>, rest: seq<byte>)
  {
    exists k: nat :: PrefixOf(queue, bytes, rest, k)
  }

  ghost predicate PrefixOf(queue: seq<byte>, bytes: seq<byte>, rest: seq<byte>, k: nat)
  {
    && k <= |queue| && k <= |bytes|
    && (forall i :: 0 <= i < k ==> bytes[i] == queue[i]) && rest == Skip(queue, k)
    && forall i :: k <= i < |bytes| ==> bytes[i] == 0
  }

  /** Once a chunk came back silent, every later one does. */
  ghost predicate Dry(cfg: Config, frames: nat, scratch: nat, f: Feed)
    requires cfg.Valid()
  {
    !f.j.primed && Frames(cfg, f.j) < cfg.target
  }

  /** The state between chunks of a callback that started from queue q. */
  ghost predicate Partway(cfg: Config, frames: nat, scratch: nat, q: seq<byte>, f: Feed)
    requires cfg.Valid()
  {
    && Consistent(cfg, f.j) && |f.bytes| == f.done * cfg.bpf
    && if Dry(cfg, frames, scratch, f) then PrefixThenSilence(q, f.bytes, f.j.queue)
       else PrefixOf(q, f.bytes, f.j.queue, |f.bytes|)
  }

  lemma SilenceExtends(q: seq<byte>, bytes: seq<byte>, rest: seq<byte>, gap: nat)
    requires PrefixThenSilence(q, bytes, rest)
    ensures PrefixThenSilence(q, bytes + Repeat(0, gap), rest)
  {
    var k: nat :| PrefixOf(q, bytes, rest, k);
    assert PrefixOf(q, bytes + Repeat(0, gap), rest, k);
  }

  lemma PartwayNext(cfg: Config, frames: nat, scratch: nat, q: seq<byte>, f: Feed)
    requires cfg.Valid() && 0 < scratch <= cfg.target && f.done < frames && Partway(cfg, frames, scratch, q, f)
    ensures Partway(cfg, frames, scratch, q, NextChunk(cfg, frames, scratch, f, true))
  {
    var n := Min(scratch, frames - f.done);
    var r := NextChunk(cfg, frames, scratch, f, true);
    ChunkFills(cfg, frames, scratch, f, true);
    WantsAll(cfg, n);
    var (j', result) := Read(cfg, f.j, n * cfg.bpf, n, true);
    if result.Served? {
      ServedLength(cfg, f.j, n);
      ServedExtends(q, f.bytes, f.j.queue, n * cfg.bpf);
    } else {
      if !Dry(cfg, frames, scratch, f) { assert PrefixOf(q, f.bytes, f.j.queue, |f.bytes|); }
      SilenceExtends(q, f.bytes, f.j.queue, n * cfg.bpf);
      assert Dry(cfg, frames, scratch, r);
    }
  }

  lemma ServedExtends(q: seq<byte>, bytes: seq<byte>, rest: seq<byte>, n: nat)
    requires PrefixOf(q, bytes, rest, |bytes|) && n <= |rest|
    ensures PrefixOf(q, bytes + rest[..n], rest[n..], |bytes + rest[..n]|)
  {
    TakesNext(q, |bytes|, n);
  }

  /** THEOREM (one gap at the end). With a scratch buffer no longer than the target and
      no contention, a callback takes from each stream a contiguous prefix of its queue,
      followed only by silence. */
  lemma {:induction false} PrefixThenSilenceOnly(
      cfg: Config, frames: nat, scratch: nat, j: JState, locks: nat -> bool, c: nat)
    requires Consistent(cfg, j) && 0 < scratch <= cfg.target && NoContention(locks)
    ensures var f := Chunks(cfg, frames, scratch, j, locks, c);
            Partway(cfg, frames, scratch, j.queue, f) && PrefixThenSilence(j.queue, f.bytes, f.j.queue)
  {
    if c == 0 {
      assert PrefixOf(j.queue, [], j.queue, 0);
      MulAdd(0, 0, cfg.bpf);
    } else {
      var f := Chunks(cfg, frames, scratch, j, locks, c - 1);
      PrefixThenSilenceOnly(cfg, frames, scratch, j, locks, c - 1);
      assert locks(c - 1);
      if f.done < frames {
        PartwayNext(cfg, frames, scratch, j.queue, f);
        PartwayIsPrefix(cfg, frames, scratch, j.queue, NextChunk(cfg, frames, scratch, f, true));
      } else {
        MulAdd(0, 0, cfg.bpf);
        assert NextChunk(cfg, frames, scratch, f, true) == f;
      }
    }
  }

  lemma PartwayIsPrefix(cfg: Config, frames: nat, scratch: nat, q: seq<byte>, f: Feed)
    requires cfg.Valid() && Partway(cfg, frames, scratch, q, f)
    ensures PrefixThenSilence(q, f.bytes, f.j.queue)
  {
    if !Dry(cfg, frames, scratch, f) {
      assert PrefixOf(q, f.bytes, f.j.queue, |f.bytes|);
    }
  }

  /** And the limit is exact: for every longer scratch buffer there is a stream whose
      audio a callback interrupts with silence and then resumes. */
  lemma LongScratchInterrupts(cfg: Config, scratch: nat, q: seq<byte>)
    requires cfg.Valid() && cfg.target < scratch
    requires |q| == cfg.target * cfg.bpf && forall i :: 0 <= i < |q| ==> q[i] != 0
    ensures var j := JState(q, true, 0, 0);
            var f := Chunks(cfg, scratch + 1, scratch, j, (c: nat) => true, 2);
            Consistent(cfg, j) && f.done == scratch + 1 && !PrefixThenSilence(q, f.bytes, f.j.queue)
  {
    var j := JState(q, true, 0, 0);
    var locks := (c: nat) => true;
    MultipleOf(cfg.target, cfg.bpf);
    UnitsCompare(cfg.target, cfg.high, cfg.bpf);
    MulAtLeast(cfg.target, cfg.bpf);
    MulAtLeast(scratch, cfg.bpf);
    var f1 := Chunks(cfg, scratch + 1, scratch, j, locks, 1);
    var f2 := Chunks(cfg, scratch + 1, scratch, j, locks, 2);
    assert f1 == NextChunk(cfg, scratch + 1, scratch, Feed(j, [], 0), true) by {
      assert Chunks(cfg, scratch + 1, scratch, j, locks, 0) == Feed(j, [], 0);
    }
    FirstChunkSilent(cfg, scratch, j);
    SecondChunkServes(cfg, scratch, f1);
    InterruptedIsNotPrefix(q, f2.bytes, f2.j.queue, scratch * cfg.bpf);
  }

  lemma FirstChunkSilent(cfg: Config, scratch: nat, j: JState)
    requires Consistent(cfg, j) && Frames(cfg, j) == cfg.target < scratch
    ensures 0 <= scratch * cfg.bpf
    ensures NextChunk(cfg, scratch + 1, scratch, Feed(j, [], 0), true) ==
            Feed(j.(primed := false, underrun := j.underrun + scratch), Repeat(0, scratch * cfg.bpf), scratch)
  {
    WantsAll(cfg, scratch);
  }

  lemma SecondChunkServes(cfg: Config, scratch: nat, f: Feed)
    requires Consistent(cfg, f.j) && Frames(cfg, f.j) == cfg.target && f.done == scratch > 0
    ensures cfg.bpf <= |f.j.queue|
    ensures NextChunk(cfg, scratch + 1, scratch, f, true).bytes == f.bytes + f.j.queue[..cfg.bpf]
    ensures NextChunk(cfg, scratch + 1, scratch, f, true).done == scratch + 1
  {
    assert 1 * cfg.bpf == cfg.bpf;
    WantsAll(cfg, 1);
    ServedLength(cfg, f.j, 1);
    assert Min(scratch, 1) == 1;
  }

  lemma InterruptedIsNotPrefix(q: seq<byte>, bytes: seq<byte>, rest: seq<byte>, silent: nat)
    requires 0 < silent < |bytes| && bytes[0] == 0 && q != [] && bytes[silent] == q[0]
    requires forall i :: 0 <= i < |q| ==> q[i] != 0
    ensures !PrefixThenSilence(q, bytes, rest)
  {
    forall k: nat ensures !PrefixOf(q, bytes, rest, k) {
      if k > 0 && k <= |q| && k <= |bytes| {
        assert bytes[0] != q[0];
      }
    }
  }
}
