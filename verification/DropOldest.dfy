/**
The bounded drop-oldest queue that both byte rings refine, and the circular array
they share the shape of (engine/internal/mixer/jitterbuffer.go,
engine/internal/audio/ring.go).
*/
module DropOldest {
  import opened Arithmetic
  import opened Common

  /** All but the first n bytes. */
  function Skip(s: seq<byte>, n: nat): (r: seq<byte>)
    requires n <= |s|
    ensures |r| == |s| - n && forall i :: 0 <= i < |r| ==> r[i] == s[n + i]
  {
    if n == 0 then s else s[n..]
  }

  /** The last n bytes. */
  function Last(s: seq<byte>, n: nat): (r: seq<byte>)
    ensures |r| == Min(|s|, n)
  {
    if |s| <= n then s else s[|s| - n..]
  }

  function Push(q: seq<byte>, input: seq<byte>, capacity: nat): (r: seq<byte>)
  {
    Last(q + input, capacity)
  }

  /** THEOREM. Two pushes in a row leave what one push of everything leaves. */
  lemma PushPush(q: seq<byte>, a: seq<byte>, b: seq<byte>, capacity: nat)
    ensures Push(Push(q, a, capacity), b, capacity) == Push(q, a + b, capacity)
  {
    var all := q + a + b;
    assert q + (a + b) == all;
    var mid := Push(q, a, capacity);
    assert mid + b == Skip(all, |all| - |mid| - |b|);
  }

  // ---- whole units

  function Aligned(n: nat, unit: nat): (r: nat)
    requires unit > 0
    ensures r <= n && n - r < unit && r % unit == 0
  {
    AlignedIs(n, unit);
    n - n % unit
  }

  lemma AlignedIs(n: nat, unit: nat)
    requires unit > 0
    ensures n - n % unit == (n / unit) * unit
    ensures (n - n % unit) % unit == 0 && (n - n % unit) / unit == n / unit
  {
    UnitsOf(n, unit);
    MultipleOf(n / unit, unit);
  }

  // ---- the circular array

  function Wrap(x: nat, size: nat): (r: nat)
    requires x < 2 * size
    ensures r < size
  {
    if x < size then x else x - size
  }

  lemma WrapIsMod(x: nat, size: nat)
    requires x < 2 * size
    ensures x % size == Wrap(x, size)
  {
    DivModUnique(x, size, if x < size then 0 else 1, Wrap(x, size));
  }

  predicate InBounds(size: nat, read: nat, used: nat)
  {
    read < size && used <= size
  }

  /** The queue a circular array holds. */
  function Queue(buf: seq<byte>, read: nat, used: nat): (q: seq<byte>)
    requires InBounds(|buf|, read, used)
    ensures |q| == used && forall i :: 0 <= i < used ==> q[i] == buf[Wrap(read + i, |buf|)]
  {
    seq(used, i requires 0 <= i < used => buf[Wrap(read + i, |buf|)])
  }

  lemma QueueDrop(buf: seq<byte>, read: nat, used: nat, d: nat)
    requires InBounds(|buf|, read, used) && d <= used
    ensures Queue(buf, Wrap(read + d, |buf|), used - d) == Skip(Queue(buf, read, used), d)
  {
    var q, q' := Queue(buf, read, used), Queue(buf, Wrap(read + d, |buf|), used - d);
    forall i | 0 <= i < used - d ensures q'[i] == q[d + i] {}
    assert q' == Skip(q, d);
  }

  /** Go's copy(dst[at:], src). */
  method CopyInto(dst: array<byte>, at: nat, src: seq<byte>) returns (n: nat)
    requires at <= dst.Length
    modifies dst
    ensures n == Min(|src|, dst.Length - at)
    ensures dst[..] == old(dst[..at]) + src[..n] + old(dst[at + n..])
  {
    n := Min(|src|, dst.Length - at);
    forall i | 0 <= i < n {
      dst[at + i] := src[i];
    }
  }

  /** The array after `p` has been laid down from index w on, wrapping round. */
  function Laid(buf: seq<byte>, w: nat, p: seq<byte>): (r: seq<byte>)
    requires w < |buf| && |p| <= |buf|
    ensures |r| == |buf|
  {
    var tail := |buf| - w;
    if |p| <= tail then buf[..w] + p + buf[w + |p|..]
    else p[tail..] + buf[|p| - tail..w] + p[..tail]
  }

  lemma LaidQueue(buf: seq<byte>, read: nat, used: nat, p: seq<byte>)
    requires InBounds(|buf|, read, used) && used + |p| <= |buf|
    ensures Queue(Laid(buf, Wrap(read + used, |buf|), p), read, used + |p|) == Queue(buf, read, used) + p
  {
    var w := Wrap(read + used, |buf|);
    var buf' := Laid(buf, w, p);
    var q, q' := Queue(buf, read, used), Queue(buf', read, used + |p|);
    forall i | 0 <= i < used + |p| ensures q'[i] == (q + p)[i] {
      var j := Wrap(read + i, |buf|);
      if i < used {
        assert buf'[j] == buf[j];
      } else {
        assert buf'[j] == p[i - used];
      }
    }
  }

  /** One copy up to the end of the array, and what is left over at its beginning. */
  lemma TwoCopies(buf: seq<byte>, w: nat, p: seq<byte>, copied: nat, mid: seq<byte>)
    requires w < |buf| && |p| <= |buf| && copied == Min(|p|, |buf| - w)
    requires mid == buf[..w] + p[..copied] + buf[w + copied..]
    ensures copied == |p| ==> mid == Laid(buf, w, p)
    ensures copied < |p| ==> p[copied..] + mid[|p| - copied..] == Laid(buf, w, p)
  {
  }

  /** The two copies of writeLocked. */
  method LayDown(buf: array<byte>, w: nat, p: seq<byte>)
    requires w < buf.Length && |p| <= buf.Length
    modifies buf
    ensures buf[..] == Laid(old(buf[..]), w, p)
  {
    var copied := CopyInto(buf, w, p);
    TwoCopies(old(buf[..]), w, p, copied, buf[..]);
    if copied < |p| {
      ghost var mid := buf[..];
      var n := CopyInto(buf, 0, p[copied..]);
      assert p[copied..][..n] == p[copied..];
      assert buf[..] == p[copied..] + mid[n..];
    }
  }

  /** writeLocked: append `p` behind the `used` bytes. */
  method Append(buf: array<byte>, read: nat, used: nat, p: seq<byte>)
    requires InBounds(buf.Length, read, used) && used + |p| <= buf.Length
    modifies buf
    ensures Queue(buf[..], read, used + |p|) == old(Queue(buf[..], read, used)) + p
  {
    WrapIsMod(read + used, buf.Length);
    LaidQueue(buf[..], read, used, p);
    var write := (read + used) % buf.Length;
    LayDown(buf, write, p);
  }

  /** readLocked: the first n bytes of the queue, in two copies when they wrap. */
  method Front(buf: array<byte>, read: nat, used: nat, n: nat) returns (dst: seq<byte>)
    requires InBounds(buf.Length, read, used) && n <= used
    ensures dst == Queue(buf[..], read, used)[..n]
  {
    var first := Min(n, buf.Length - read);
    dst := buf[read..read + first];
    if first < n {
      dst := dst + buf[..n - first];
    }
    ghost var q := Queue(buf[..], read, used);
    assert forall i :: 0 <= i < n ==> dst[i] == q[i];
  }
}
