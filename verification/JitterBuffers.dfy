/**
The jitter buffer object (engine/internal/mixer/jitterbuffer.go): a circular byte
array under a mutex, proved to do what module JitterSpec says. Whether TryLock
succeeds is the argument `locked` of Read.
*/
module JitterBuffers {
  import opened Arithmetic
  import opened Common
  import opened DropOldest
  import opened JitterSpec

  class JitterBuffer {
    const cfg: Config
    const buf: array<byte>
    var read: nat
    var used: nat
    var primed: bool
    var discardedFrames: nat
    var underrunFrames: nat
    var queueFrames: nat

    ghost predicate Valid()
      reads this
    {
      && cfg.Valid() && buf.Length == cfg.Capacity()
      && InBounds(buf.Length, read, used) && used % cfg.bpf == 0
      && queueFrames == used / cfg.bpf
    }

    ghost function View(): (j: JState)
      requires Valid()
      reads this, buf
      ensures Consistent(cfg, j)
    {
      JState(Queue(buf[..], read, used), primed, discardedFrames, underrunFrames)
    }

    constructor (config: Config)
      requires config.Valid()
      ensures Valid() && View() == EMPTY && cfg == config && fresh(buf)
    {
      cfg := config;
      MulAtLeast(config.high, config.bpf);
      buf := new byte[config.high * config.bpf](_ => 0);
      read, used, primed := 0, 0, false;
      discardedFrames, underrunFrames, queueFrames := 0, 0, 0;
    }

    method Write(pcm: seq<byte>) returns (frames: nat)
      requires Valid()
      modifies this, buf
      ensures Valid() && View() == JitterSpec.Write(cfg, old(View()), pcm)
      ensures frames == Min(|pcm| / cfg.bpf, cfg.high)
    {
      frames := |pcm| / cfg.bpf;
      MulZero(frames, cfg.bpf);
      if frames == 0 {
        return;
      }
      ghost var before, add := View(), Whole(cfg, pcm);
      ghost var added := frames;
      CutInput(cfg, pcm);
      WriteParts(cfg, before, add, added);
      PushAligned(cfg, before.queue, add);
      var p: seq<byte>;
      p, frames := Cut(pcm);
      MakeRoomAndWrite(p, frames);
    }

    /** Cut the input down to the high watermark and to whole frames. */
    method Cut(pcm: seq<byte>) returns (p: seq<byte>, frames: nat)
      requires Valid()
      modifies this`discardedFrames
      ensures frames == Min(|pcm| / cfg.bpf, cfg.high)
      ensures var da := Excess(0, |pcm| / cfg.bpf, cfg.high);
              && 0 <= da * cfg.bpf <= |Whole(cfg, pcm)| && p == Skip(Whole(cfg, pcm), da * cfg.bpf)
              && |p| == frames * cfg.bpf && discardedFrames == old(discardedFrames) + da
    {
      CutInput(cfg, pcm);
      p, frames := pcm, |pcm| / cfg.bpf;
      if frames > cfg.high {
        var dropFrames := frames - cfg.high;
        p := p[dropFrames * cfg.bpf..];
        frames := cfg.high;
        discardedFrames := discardedFrames + dropFrames;
      }
      p := p[..frames * cfg.bpf];
    }

    /** The part of Write that follows the cut to the high watermark. */
    method MakeRoomAndWrite(p: seq<byte>, frames: nat)
      requires Valid() && |p| == frames * cfg.bpf && frames <= cfg.high
      modifies this, buf
      ensures Valid()
      ensures var j, dq := old(View()), Excess(Frames(cfg, old(View())), frames, cfg.high);
              && dq * cfg.bpf <= |j.queue|
              && View() == JState(Skip(j.queue, dq * cfg.bpf) + p,
                                  j.primed || |View().queue| / cfg.bpf >= cfg.target,
                                  j.discarded + dq, j.underrun)
    {
      MakeRoom(frames);
      MultipleOf(frames, cfg.bpf);
      WriteLocked(p);
      if !primed && used / cfg.bpf >= cfg.target {
        primed := true;
      }
      queueFrames := used / cfg.bpf;
    }

    /** Drop what the high watermark leaves no room for. */
    method MakeRoom(frames: nat)
      requires Valid() && frames <= cfg.high
      modifies this`read, this`used, this`discardedFrames, this`queueFrames
      ensures Valid() && used + frames * cfg.bpf <= cfg.Capacity()
      ensures var j, dq := old(View()), Excess(Frames(cfg, old(View())), frames, cfg.high);
              && dq * cfg.bpf <= |j.queue|
              && View() == j.(queue := Skip(j.queue, dq * cfg.bpf), discarded := j.discarded + dq)
    {
      ghost var dq := Excess(used / cfg.bpf, frames, cfg.high);
      DropNumbers(cfg.bpf, used / cfg.bpf, frames, cfg.high);
      UnitsOf(used, cfg.bpf);
      var excessFrames := used / cfg.bpf + frames - cfg.high;
      if excessFrames > 0 {
        DropOldest(excessFrames);
      }
    }

    /** writeLocked */
    method WriteLocked(pcm: seq<byte>)
      requires Valid() && used + |pcm| <= cfg.Capacity() && |pcm| % cfg.bpf == 0
      modifies this`used, this`queueFrames, buf
      ensures Valid() && View() == old(View()).(queue := old(View()).queue + pcm)
    {
      Append(buf, read, used, pcm);
      AlignedSum(used, |pcm|, cfg.bpf);
      used := used + |pcm|;
      queueFrames := used / cfg.bpf;
    }

    /** dropOldestLocked: no more than what is queued. */
    method DropOldest(frames: int)
      requires Valid()
      modifies this`read, this`used, this`discardedFrames, this`queueFrames
      ensures Valid()
      ensures var n := Max(0, Min(frames, old(used) / cfg.bpf));
              && 0 <= n * cfg.bpf <= old(used)
              && View() == old(View()).(queue := Skip(old(View()).queue, n * cfg.bpf),
                                        discarded := old(View()).discarded + n)
    {
      UnitsOf(used, cfg.bpf);
      if frames <= 0 || used == 0 {
        MulAdd(0, 0, cfg.bpf);
        return;
      }
      DropQueued(Min(frames, used / cfg.bpf));
    }

    method DropQueued(frames: nat)
      requires Valid() && frames <= used / cfg.bpf
      modifies this`read, this`used, this`discardedFrames, this`queueFrames
      ensures Valid()
      ensures frames * cfg.bpf <= old(used)
      ensures View() == old(View()).(queue := Skip(old(View()).queue, frames * cfg.bpf),
                                     discarded := old(View()).discarded + frames)
    {
      UnitsOf(used, cfg.bpf);
      UnitsCompare(frames, used / cfg.bpf, cfg.bpf);
      var dropBytes := frames * cfg.bpf;
      MultipleOf(frames, cfg.bpf);
      AlignedDifference(used, dropBytes, cfg.bpf);
      QueueDrop(buf[..], read, used, dropBytes);
      WrapIsMod(read + dropBytes, buf.Length);
      read := (read + dropBytes) % buf.Length;
      used := used - dropBytes;
      discardedFrames := discardedFrames + frames;
      queueFrames := used / cfg.bpf;
    }

    method Read(dstLen: nat, frameCount: int, locked: bool) returns (copied: nat, result: ReadResult)
      requires Valid()
      modifies this
      ensures Valid() && (View(), result) == JitterSpec.Read(cfg, old(View()), dstLen, frameCount, locked)
      ensures copied == if result.Served? then Wanted(cfg, dstLen, frameCount) else 0
    {
      if frameCount <= 0 || dstLen == 0 {
        DivMonotone(0, dstLen, cfg.bpf);
        return 0, Skipped;
      }
      var frames := frameCount;
      var maxFrames := dstLen / cfg.bpf;
      if frames > maxFrames {
        frames := maxFrames;
      }
      if frames <= 0 {
        return 0, Skipped;
      }
      if !locked {
        underrunFrames := underrunFrames + frames;
        return 0, Silence(frames);
      }
      var queuedFrames := used / cfg.bpf;
      if !primed {
        if queuedFrames < cfg.target {
          underrunFrames := underrunFrames + frames;
          return 0, Silence(frames);
        }
        primed := true;
      }
      if queuedFrames < frames {
        primed := false;
        underrunFrames := underrunFrames + frames;
        return 0, Silence(frames);
      }
      var wantBytes := frames * cfg.bpf;
      FitsInQueue(cfg, View(), frames);
      var pcm := ReadLocked(wantBytes);
      queueFrames := used / cfg.bpf;
      copied, result := |pcm| / cfg.bpf, Served(pcm);
    }

    /** readLocked into a destination of dstLen bytes, a whole number of frames. */
    method ReadLocked(dstLen: nat) returns (dst: seq<byte>)
      requires Valid() && dstLen % cfg.bpf == 0
      modifies this`read, this`used, this`queueFrames
      ensures Valid()
      ensures |dst| == Min(dstLen, old(used)) && dst + View().queue == old(View()).queue
      ensures View() == old(View()).(queue := View().queue)
    {
      var n := Min(dstLen, used);
      n := n - n % cfg.bpf;
      dst := TakeFront(n);
    }

    method TakeFront(n: nat) returns (dst: seq<byte>)
      requires Valid() && n <= used && n % cfg.bpf == 0
      modifies this`read, this`used, this`queueFrames
      ensures Valid() && |dst| == n && dst + View().queue == old(View()).queue
      ensures View() == old(View()).(queue := View().queue)
    {
      dst := Front(buf, read, used, n);
      QueueDrop(buf[..], read, used, n);
      WrapIsMod(read + n, buf.Length);
      AlignedDifference(used, n, cfg.bpf);
      read := (read + n) % buf.Length;
      used := used - n;
      queueFrames := used / cfg.bpf;
    }
  }

  lemma MulZero(k: nat, unit: nat)
    requires unit > 0
    ensures k * unit == 0 <==> k == 0
  {
    if k > 0 { MulAtLeast(k, unit); }
  }

  lemma FitsInQueue(cfg: Config, j: JState, frames: nat)
    requires Consistent(cfg, j) && frames <= Frames(cfg, j)
    ensures 0 <= frames * cfg.bpf <= |j.queue|
    ensures (frames * cfg.bpf) % cfg.bpf == 0 && (frames * cfg.bpf) / cfg.bpf == frames
  {
    MultipleOf(frames, cfg.bpf);
    UnitsCompare(frames, Frames(cfg, j), cfg.bpf);
    UnitsOf(|j.queue|, cfg.bpf);
  }

  /** Dropping from the front of the input only once the queue is gone keeps the last
      `capacity` bytes of the two together. */
  lemma PushParts(q: seq<byte>, add: seq<byte>, capacity: nat, dq: nat, da: nat)
    requires dq <= |q| && da <= |add| && (da > 0 ==> dq == |q|)
    requires dq + da == Max(0, |q| + |add| - capacity)
    ensures Push(q, add, capacity) == Skip(q, dq) + Skip(add, da)
  {
    assert Skip(q + add, dq + da) == Skip(q, dq) + Skip(add, da);
  }

  /** The same amounts counted in frames. */
  lemma DropNumbers(unit: nat, queued: nat, added: nat, high: nat)
    requires unit > 0
    ensures var da := Excess(0, added, high);
            var dq := Excess(queued, added - da, high);
            && dq <= queued && dq * unit <= queued * unit && da * unit <= added * unit
            && (da > 0 ==> dq == queued)
            && dq * unit + da * unit == Max(0, queued * unit + added * unit - high * unit)
  {
    var da := Excess(0, added, high);
    var dq := Excess(queued, added - da, high);
    UnitsCompare(dq, queued, unit);
    UnitsCompare(da, added, unit);
    UnitsCompare(queued + added, high, unit);
    assert (queued + added) * unit == queued * unit + added * unit;
    assert (dq + da) * unit == dq * unit + da * unit;
    if queued + added > high {
      assert (queued + added - high) * unit == (queued + added) * unit - high * unit;
    }
  }

  lemma WriteParts(cfg: Config, j: JState, add: seq<byte>, added: nat)
    requires Consistent(cfg, j) && |add| == added * cfg.bpf
    ensures var queued := Frames(cfg, j);
            var da := Excess(0, added, cfg.high);
            var dq := Excess(queued, added - da, cfg.high);
            && dq <= queued && dq + da == Excess(queued, added, cfg.high)
            && 0 <= dq * cfg.bpf <= |j.queue| && 0 <= da * cfg.bpf <= |add|
            && Push(j.queue, add, cfg.Capacity()) == Skip(j.queue, dq * cfg.bpf) + Skip(add, da * cfg.bpf)
            && |add| / cfg.bpf == added && |add| % cfg.bpf == 0
  {
    var queued := Frames(cfg, j);
    var da := Excess(0, added, cfg.high);
    var dq := Excess(queued, added - da, cfg.high);
    UnitsOf(|j.queue|, cfg.bpf);
    MultipleOf(added, cfg.bpf);
    DropNumbers(cfg.bpf, queued, added, cfg.high);
    PushParts(j.queue, add, cfg.Capacity(), dq * cfg.bpf, da * cfg.bpf);
  }

  /** Cutting the input down to the high watermark, then to whole frames. */
  lemma CutInput(cfg: Config, pcm: seq<byte>)
    requires cfg.Valid()
    ensures var added := |pcm| / cfg.bpf;
            var da := Excess(0, added, cfg.high);
            && |Whole(cfg, pcm)| == added * cfg.bpf && 0 <= da * cfg.bpf <= added * cfg.bpf <= |pcm|
            && 0 <= (added - da) * cfg.bpf <= |pcm| - da * cfg.bpf
            && Skip(pcm, da * cfg.bpf)[..(added - da) * cfg.bpf] == Skip(Whole(cfg, pcm), da * cfg.bpf)
  {
    var added := |pcm| / cfg.bpf;
    var da := Excess(0, added, cfg.high);
    AlignedIs(|pcm|, cfg.bpf);
    UnitsCompare(da, added, cfg.bpf);
    assert (added - da) * cfg.bpf == added * cfg.bpf - da * cfg.bpf;
  }
}
