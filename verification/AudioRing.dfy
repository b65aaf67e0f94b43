/**
The capture ring (engine/internal/audio/ring.go): a circular byte array that hands
audio from a device callback to a consumer. Whether TryLock succeeds is the argument
`locked`.
*/
module AudioRing {
  import opened Arithmetic
  import opened Common
  import opened DropOldest
  import opened JitterSpec
  import opened JitterRuns

  datatype RState = RState(queue: seq<byte>, dropped: nat)

  /** Whole quanta, at least one. */
  function RingSize(sizeBytes: int, quantum: nat): (n: nat)
    requires quantum > 0
    ensures n >= quantum && n % quantum == 0 && n <= Max(sizeBytes, quantum) && n + quantum > sizeBytes
  {
    MultipleOf(1, quantum);
    if sizeBytes < quantum then quantum
    else
      AlignedAtLeast(sizeBytes, quantum);
      Aligned(sizeBytes, quantum)
  }

  lemma AlignedAtLeast(n: nat, unit: nat)
    requires unit > 0 && n >= unit
    ensures Aligned(n, unit) >= unit
  {
    AlignedIs(n, unit);
    MultipleOf(1, unit);
    DivMonotone(unit, n, unit);
    MulAtLeast(n / unit, unit);
  }

  function AlignUp(n: int, quantum: nat): (r: int)
    requires quantum > 0
  {
    if n <= 0 then 0
    else if n % quantum == 0 then n
    else n + quantum - n % quantum
  }

  /** A write that has the lock: everything that does not end up queued is counted. */
  function Put(capacity: nat, quantum: nat, r: RState, p: seq<byte>): (r': RState)
    requires quantum > 0
  {
    var queue := Push(r.queue, p[..Aligned(|p|, quantum)], capacity);
    RState(queue, r.dropped + |r.queue| + |p| - |queue|)
  }

  function Contended(quantum: nat, r: RState, p: seq<byte>): (r': RState)
    requires quantum > 0
  {
    r.(dropped := r.dropped + Aligned(|p|, quantum))
  }

  /** How much a read into dstLen bytes takes. */
  function Takes(quantum: nat, r: RState, dstLen: nat): (n: nat)
    requires quantum > 0
    ensures n <= |r.queue|
  {
    Aligned(Min(Aligned(dstLen, quantum), |r.queue|), quantum)
  }

  class Ring {
    const buf: array<byte>
    const quantum: nat
    var read: nat
    var used: nat
    var dropped: nat

    ghost predicate Valid()
      reads this
    {
      && quantum > 0 && buf.Length >= quantum && buf.Length % quantum == 0
      && InBounds(buf.Length, read, used) && used % quantum == 0
    }

    ghost function View(): (r: RState)
      requires Valid()
      reads this, buf
    {
      RState(Queue(buf[..], read, used), dropped)
    }

    constructor (sizeBytes: int, q: int)
      ensures Valid() && View() == RState([], 0) && fresh(buf)
      ensures quantum == (if q <= 0 then 1 else q) && buf.Length == RingSize(sizeBytes, quantum)
    {
      var unit := if q <= 0 then 1 else q;
      var size := if sizeBytes < unit then unit else sizeBytes;
      size := size - size % unit;
      quantum := unit;
      buf := new byte[RingSize(sizeBytes, unit)](_ => 0);
      read, used, dropped := 0, 0, 0;
    }

    method TryWrite(p: seq<byte>, locked: bool) returns (n: nat)
      requires Valid()
      modifies this, buf
      ensures Valid()
      ensures View() == if locked then Put(buf.Length, quantum, old(View()), p) else Contended(quantum, old(View()), p)
      ensures n == if locked then Min(Aligned(|p|, quantum), buf.Length) else 0
    {
      if |p| == 0 {
        assert old(View()).queue + [] == old(View()).queue;
        return 0;
      }
      if !locked {
        dropped := dropped + Aligned(|p|, quantum);
        return 0;
      }
      n := WriteLocked(p);
    }

    method WriteLocked(input: seq<byte>) returns (written: nat)
      requires Valid()
      modifies this, buf
      ensures Valid() && View() == Put(buf.Length, quantum, old(View()), input)
      ensures written == Min(Aligned(|input|, quantum), buf.Length)
    {
      ghost var before, add := View(), input[..Aligned(|input|, quantum)];
      if Aligned(|input|, quantum) == 0 {
        dropped := dropped + |input|;
        assert before.queue + [] == before.queue;
        return 0;
      }
      var p := Cut(input);
      PushLast(before.queue, add, buf.Length);
      PutWhole(p);
      written := |p|;
    }

    method PutWhole(p: seq<byte>)
      requires Valid() && |p| <= buf.Length && |p| % quantum == 0
      modifies this`read, this`used, this`dropped, buf
      ensures Valid() && View().queue == Push(old(View()).queue, p, buf.Length)
      ensures dropped == old(dropped) + |old(View()).queue| + |p| - |View().queue|
    {
      KeepsLast(View().queue, p, buf.Length);
      MakeRoom(|p|);
      Store(p);
    }

    /** Cut a write down to whole quanta, and to what the ring can hold at all. */
    method Cut(input: seq<byte>) returns (p: seq<byte>)
      requires Valid()
      modifies this`dropped
      ensures Valid() && p == Last(input[..Aligned(|input|, quantum)], buf.Length) && |p| % quantum == 0
      ensures View() == old(View()).(dropped := old(dropped) + |input| - |p|)
    {
      p := input;
      var n := Aligned(|p|, quantum);
      if n != |p| {
        dropped := dropped + (|p| - n);
        p := p[..n];
      }
      if |p| > buf.Length {
        var drop := |p| - buf.Length;
        dropped := dropped + drop;
        p := p[drop..];
      }
    }

    /** Drop the oldest quanta until `len` more bytes fit. */
    method MakeRoom(len: nat)
      requires Valid() && len <= buf.Length && len % quantum == 0
      modifies this`read, this`used, this`dropped
      ensures Valid() && used == Min(old(used), buf.Length - len)
      ensures View() == RState(Skip(old(View()).queue, old(used) - used), old(dropped) + old(used) - used)
    {
      var space := buf.Length - used;
      if len > space {
        SumAndDifference(len, used, buf.Length, quantum);
        var drop := AlignUp(len - space, quantum);
        if drop > used {
          drop := used;
        }
        QueueDrop(buf[..], read, used, drop);
        WrapIsMod(read + drop, buf.Length);
        read := (read + drop) % buf.Length;
        used := used - drop;
        dropped := dropped + drop;
      }
    }

    method Store(p: seq<byte>)
      requires Valid() && used + |p| <= buf.Length && |p| % quantum == 0
      modifies this`used, buf
      ensures Valid() && View() == old(View()).(queue := old(View()).queue + p)
      ensures used == old(used) + |p|
    {
      Append(buf, read, used, p);
      AlignedSum(used, |p|, quantum);
      used := used + |p|;
    }

    /** Read, or TryRead, which takes nothing when it finds the lock taken. */
    method Read(dstLen: nat, locked: bool) returns (dst: seq<byte>)
      requires Valid()
      modifies this
      ensures Valid()
      ensures |dst| == if locked then Takes(quantum, old(View()), dstLen) else 0
      ensures dst + View().queue == old(View()).queue && View().dropped == old(View()).dropped
    {
      if dstLen == 0 || !locked {
        return [];
      }
      dst := ReadLocked(dstLen);
    }

    method ReadLocked(dstLen: nat) returns (dst: seq<byte>)
      requires Valid()
      modifies this`read, this`used
      ensures Valid()
      ensures |dst| == Takes(quantum, old(View()), dstLen)
      ensures dst + View().queue == old(View()).queue && View().dropped == old(View()).dropped
    {
      var n := Aligned(dstLen, quantum);
      if n > used {
        n := used;
      }
      n := Aligned(n, quantum);
      if n == 0 {
        return [];
      }
      dst := TakeFront(n);
    }

    method TakeFront(n: nat) returns (dst: seq<byte>)
      requires Valid() && n <= used && n % quantum == 0
      modifies this`read, this`used
      ensures Valid() && |dst| == n
      ensures dst + View().queue == old(View()).queue && View().dropped == old(View()).dropped
    {
      dst := Front(buf, read, used, n);
      QueueDrop(buf[..], read, used, n);
      WrapIsMod(read + n, buf.Length);
      AlignedDifference(used, n, quantum);
      read := (read + n) % buf.Length;
      used := used - n;
    }
  }

  /** With whole quanta everywhere the overflow is a whole number of quanta. */
  lemma SumAndDifference(p: nat, used: nat, size: nat, unit: nat)
    requires unit > 0 && p % unit == 0 && used % unit == 0 && size % unit == 0
    requires used <= size < p + used
    ensures AlignUp(p - (size - used), unit) == p + used - size
    ensures p <= size ==> p + used - size <= used && (used - (p + used - size)) % unit == 0
  {
    AlignedSum(p, used, unit);
    AlignedDifference(p + used, size, unit);
    if p <= size { AlignedDifference(size, p, unit); }
  }

  /** The input behind as much of the queue as still fits. */
  lemma KeepsLast(q: seq<byte>, p: seq<byte>, capacity: nat)
    requires |q| <= capacity && |p| <= capacity
    ensures Skip(q, |q| - Min(|q|, capacity - |p|)) + p == Push(q, p, capacity)
  {
  }

  lemma PushLast(q: seq<byte>, add: seq<byte>, capacity: nat)
    ensures Push(q, Last(add, capacity), capacity) == Push(q, add, capacity)
  {
  }

  // ---- runs

  datatype RingOp = PutOp(p: seq<byte>, gotLock: bool) | TakeOp(dstLen: nat, hasLock: bool)

  /** A run with its history; `lapse` adds up the partial quanta of contended writes. */
  datatype RHistory = RHistory(
    r: RState, offered: nat, lapse: nat, written: seq<byte>, served: seq<byte>, places: seq<nat>)

  function RStep(capacity: nat, quantum: nat, h: RHistory, op: RingOp): (h': RHistory)
    requires quantum > 0
  {
    match op
    case PutOp(p, true) =>
      h.(r := Put(capacity, quantum, h.r, p), offered := h.offered + |p|,
         written := h.written + p[..Aligned(|p|, quantum)])
    case PutOp(p, false) =>
      h.(r := Contended(quantum, h.r, p), offered := h.offered + |p|, lapse := h.lapse + |p| % quantum)
    case TakeOp(dstLen, hasLock) =>
      var n := if hasLock then Takes(quantum, h.r, dstLen) else 0;
      if |h.r.queue| <= |h.written| then
        h.(r := h.r.(queue := Skip(h.r.queue, n)), served := h.served + h.r.queue[..n],
           places := h.places + From(|h.written| - |h.r.queue|, n))
      else h
  }

  function RRun(capacity: nat, quantum: nat, ops: seq<RingOp>): (h: RHistory)
    requires quantum > 0
  {
    if ops == [] then RHistory(RState([], 0), 0, 0, [], [], [])
    else RStep(capacity, quantum, RRun(capacity, quantum, ops[..|ops| - 1]), ops[|ops| - 1])
  }

  ghost predicate RInv(capacity: nat, h: RHistory)
  {
    && |h.r.queue| <= |h.written| && |h.r.queue| <= capacity
    && h.r.queue == Skip(h.written, |h.written| - |h.r.queue|)
    && Subsequence(h.served, h.places, h.written, |h.written| - |h.r.queue|)
    && h.offered == |h.served| + |h.r.queue| + h.r.dropped + h.lapse
  }

  lemma PutKeeps(capacity: nat, quantum: nat, h: RHistory, p: seq<byte>)
    requires quantum > 0 && RInv(capacity, h)
    ensures RInv(capacity, RStep(capacity, quantum, h, PutOp(p, true)))
  {
    var h', add := RStep(capacity, quantum, h, PutOp(p, true)), p[..Aligned(|p|, quantum)];
    SubsequenceWider(h.served, h.places, h.written, |h.written| - |h.r.queue|, add, |h'.written| - |h'.r.queue|);
    PushIsTail(h.r.queue, h.written, add, capacity);
  }

  lemma TakeKeeps(capacity: nat, quantum: nat, h: RHistory, dstLen: nat, hasLock: bool)
    requires quantum > 0 && RInv(capacity, h)
    ensures RInv(capacity, RStep(capacity, quantum, h, TakeOp(dstLen, hasLock)))
  {
    var n := if hasLock then Takes(quantum, h.r, dstLen) else 0;
    var start := |h.written| - |h.r.queue|;
    assert h.r.queue[..n] == h.written[start..start + n];
    assert Skip(h.r.queue, n) == Skip(h.written, start + n);
    SubsequenceTakes(h.served, h.places, h.written, start, n);
  }

  /** THEOREM. After every run, with and without contention, bytes offered = bytes
      served + queued + counted as dropped + the partial quanta of contended writes;
      and what is served is an in-order subsequence of what was written. */
  lemma {:induction false} RingInvariant(capacity: nat, quantum: nat, ops: seq<RingOp>)
    requires quantum > 0
    ensures RInv(capacity, RRun(capacity, quantum, ops))
  {
    if ops != [] {
      var h := RRun(capacity, quantum, ops[..|ops| - 1]);
      RingInvariant(capacity, quantum, ops[..|ops| - 1]);
      match ops[|ops| - 1]
      case PutOp(p, true) => PutKeeps(capacity, quantum, h, p);
      case PutOp(p, false) => UnitsOf(|p|, quantum); AlignedIs(|p|, quantum);
      case TakeOp(dstLen, hasLock) => TakeKeeps(capacity, quantum, h, dstLen, hasLock);
    }
  }

  /** THEOREM (one write). With the lock, a write queues its whole quanta behind what is there
      and gives up only the oldest bytes that no longer fit; it counts those and the partial
      quantum. Without the lock it queues nothing and counts its whole quanta. */
  lemma PutIsExact(capacity: nat, quantum: nat, r: RState, p: seq<byte>)
    requires quantum > 0
    ensures var r', part := Put(capacity, quantum, r, p), |p| % quantum;
            && part <= |p|
            && var all := r.queue + p[..|p| - part];
            && |r'.queue| == Min(|all|, capacity) && r'.queue == all[|all| - |r'.queue|..]
            && r'.dropped == r.dropped + (|all| - |r'.queue|) + part
    ensures Contended(quantum, r, p) == RState(r.queue, r.dropped + (|p| - |p| % quantum))
  {
    AlignedIs(|p|, quantum);
  }

  /** THEOREM (one read). A read takes as many whole quanta as it has room for and the ring
      holds. */
  lemma TakesExact(quantum: nat, r: RState, dstLen: nat)
    requires quantum > 0 && |r.queue| % quantum == 0
    ensures Takes(quantum, r, dstLen) == Min(dstLen - dstLen % quantum, |r.queue|)
  {
    AlignedIs(dstLen, quantum);
    AlignedIs(|r.queue|, quantum);
    AlignedAligned(dstLen, quantum);
  }

  lemma AlignedAligned(n: nat, unit: nat)
    requires unit > 0
    ensures Aligned(Aligned(n, unit), unit) == Aligned(n, unit) == n - n % unit
  {
    AlignedIs(n, unit);
  }

  /** THEOREM (nothing is lost while it fits). If every write has the lock and whole quanta
      and all of them together fit the ring, nothing is dropped: what was served and what is
      queued are everything that was written. */
  lemma {:induction false} NothingLostWhileItFits(capacity: nat, quantum: nat, ops: seq<RingOp>)
    requires quantum > 0 && forall i :: 0 <= i < |ops| && ops[i].PutOp? ==> ops[i].gotLock && |ops[i].p| % quantum == 0
    requires RRun(capacity, quantum, ops).offered <= capacity
    ensures AllThere(RRun(capacity, quantum, ops))
  {
    if ops != [] {
      var before, h := ops[..|ops| - 1], RRun(capacity, quantum, ops[..|ops| - 1]);
      assert forall i :: 0 <= i < |before| ==> before[i] == ops[i];
      NothingLostWhileItFits(capacity, quantum, before);
      match ops[|ops| - 1]
      case PutOp(p, true) => PutFits(capacity, quantum, h, p);
      case TakeOp(dstLen, hasLock) => TakeMoves(capacity, quantum, h, dstLen, hasLock);
    }
  }

  /** Everything that was written has been served or is queued. */
  ghost predicate AllThere(h: RHistory)
  {
    h.r.dropped == 0 && h.offered == |h.written| && h.served + h.r.queue == h.written
  }

  lemma PutFits(capacity: nat, quantum: nat, h: RHistory, p: seq<byte>)
    requires quantum > 0 && |p| % quantum == 0 && AllThere(h) && h.offered + |p| <= capacity
    ensures AllThere(RStep(capacity, quantum, h, PutOp(p, true)))
  {
    PutIsExact(capacity, quantum, h.r, p);
    AlignedIs(|p|, quantum);
    assert p[..|p|] == p;
    assert h.served + (h.r.queue + p) == h.written + p;
  }

  lemma TakeMoves(capacity: nat, quantum: nat, h: RHistory, dstLen: nat, hasLock: bool)
    requires quantum > 0 && AllThere(h)
    ensures AllThere(RStep(capacity, quantum, h, TakeOp(dstLen, hasLock)))
  {
    var n := if hasLock then Takes(quantum, h.r, dstLen) else 0;
    assert h.r.queue[..n] + Skip(h.r.queue, n) == h.r.queue;
    assert h.served + h.r.queue[..n] + Skip(h.r.queue, n) == h.served + (h.r.queue[..n] + Skip(h.r.queue, n));
  }

  /** So the drop counter accounts for everything if and only if every write that
      found the lock taken was a whole number of quanta. */
  lemma {:induction false} DropCounterExact(capacity: nat, quantum: nat, ops: seq<RingOp>)
    requires quantum > 0
    ensures var h := RRun(capacity, quantum, ops);
            h.offered == |h.served| + |h.r.queue| + h.r.dropped <==>
            forall i :: 0 <= i < |ops| && ops[i].PutOp? && !ops[i].gotLock ==> |ops[i].p| % quantum == 0
  {
    RingInvariant(capacity, quantum, ops);
    LapseZero(capacity, quantum, ops);
  }

  /** The failing family is not empty: one write of part of a quantum that finds the lock
      taken. */
  lemma ContendedPartIsLost(capacity: nat, quantum: nat, p: seq<byte>)
    requires 0 < |p| < quantum
    ensures var h := RRun(capacity, quantum, [PutOp(p, false)]);
            h.offered == |p| && h.served == [] && h.r == RState([], 0)
  {
    DivModUnique(|p|, quantum, 0, |p|);
    assert [PutOp(p, false)][..0] == [];
  }

  lemma {:induction false} LapseZero(capacity: nat, quantum: nat, ops: seq<RingOp>)
    requires quantum > 0
    ensures RRun(capacity, quantum, ops).lapse == 0 <==>
            forall i :: 0 <= i < |ops| && ops[i].PutOp? && !ops[i].gotLock ==> |ops[i].p| % quantum == 0
  {
    if ops != [] {
      var before, last := ops[..|ops| - 1], ops[|ops| - 1];
      LapseZero(capacity, quantum, before);
      assert forall i :: 0 <= i < |before| ==> before[i] == ops[i];
      if last.PutOp? && !last.gotLock && |last.p| % quantum != 0 {
        assert ops[|ops| - 1] == last;
      }
    }
  }
}
