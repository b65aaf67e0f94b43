/** Fixed-width integers and their byte orders. */
module Bytes {
  import opened Common

  type u8 = byte
  type u16 = x: int | 0 <= x < 0x1_0000
  type u32 = x: int | 0 <= x < 0x1_0000_0000
  type u64 = x: int | 0 <= x < 0x1_0000_0000_0000_0000

  const MAX_U64: u64 := 0xFFFF_FFFF_FFFF_FFFF

  function Put16(x: u16): (b: seq<byte>)
    ensures |b| == 2
  {
    [x / 0x100, x % 0x100]
  }

  function Get16(b: seq<byte>): (x: u16)
    requires |b| == 2
  {
    (b[0] as int) * 0x100 + b[1]
  }

  function Put32(x: u32): (b: seq<byte>)
    ensures |b| == 4
  {
    Put16(x / 0x1_0000) + Put16(x % 0x1_0000)
  }

  function Get32(b: seq<byte>): (x: u32)
    requires |b| == 4
  {
    Get16(b[..2]) * 0x1_0000 + Get16(b[2..])
  }

  function Put64(x: u64): (b: seq<byte>)
    ensures |b| == 8
  {
    Put32(x / 0x1_0000_0000) + Put32(x % 0x1_0000_0000)
  }

  function Get64(b: seq<byte>): (x: u64)
    requires |b| == 8
  {
    Get32(b[..4]) * 0x1_0000_0000 + Get32(b[4..])
  }

  /** The little-endian forms hold the same bytes the other way round. */
  function Put16LE(x: u16): (b: seq<byte>)
    ensures |b| == 2
  {
    [x % 0x100, x / 0x100]
  }

  function Get16LE(b: seq<byte>): (x: u16)
    requires |b| == 2
  {
    (b[1] as int) * 0x100 + b[0]
  }

  function Put32LE(x: u32): (b: seq<byte>)
    ensures |b| == 4
  {
    Put16LE(x % 0x1_0000) + Put16LE(x / 0x1_0000)
  }

  function Get32LE(b: seq<byte>): (x: u32)
    requires |b| == 4
  {
    Get16LE(b[2..]) * 0x1_0000 + Get16LE(b[..2])
  }

  // ---- byte order, spelt out

  /** The number bytes spell, the highest byte first. */
  function Value(b: seq<byte>): (x: nat)
  {
    if b == [] then 0 else Value(b[..|b| - 1]) * 0x100 + b[|b| - 1]
  }

  /** The number bytes spell, the lowest byte first. */
  function ValueLE(b: seq<byte>): (x: nat)
  {
    if b == [] then 0 else b[0] + ValueLE(b[1..]) * 0x100
  }

  lemma ValueTwo(b: seq<byte>)
    requires |b| == 2
    ensures Value(b) == b[0] as int * 0x100 + b[1] && ValueLE(b) == b[0] + b[1] as int * 0x100
  {
    assert b[..1][..0] == [] && b[1..][1..] == [];
  }

  /** Behind other bytes. */
  lemma {:induction false} ValueTail(a: seq<byte>, b: seq<byte>)
    requires |b| == 2
    ensures Value(a + b) == Value(a) * 0x1_0000 + Value(b)
    ensures ValueLE(b + a) == ValueLE(b) + ValueLE(a) * 0x1_0000
  {
    ValueTwo(b);
    assert (a + b)[..|a| + 1] == a + [b[0]] && (a + [b[0]])[..|a|] == a;
    assert (b + a)[1..] == [b[1]] + a && ([b[1]] + a)[1..] == a;
  }

  /** Every integer is spelt by the bytes it is put as. */
  lemma Spells16(x: u16)
    ensures Value(Put16(x)) == x && ValueLE(Put16LE(x)) == x
  {
    ValueTwo(Put16(x));
    ValueTwo(Put16LE(x));
  }

  lemma Spells32(x: u32)
    ensures Value(Put32(x)) == x && ValueLE(Put32LE(x)) == x
  {
    Spells16(x / 0x1_0000);
    Spells16(x % 0x1_0000);
    ValueTail(Put16(x / 0x1_0000), Put16(x % 0x1_0000));
    ValueTail(Put16LE(x / 0x1_0000), Put16LE(x % 0x1_0000));
  }

  lemma Spells64(x: u64)
    ensures Value(Put64(x)) == x
  {
    var hi, lo := x / 0x1_0000_0000, x % 0x1_0000_0000;
    Spells32(hi);
    Spells16(lo / 0x1_0000);
    Spells16(lo % 0x1_0000);
    ValueTail(Put32(hi), Put16(lo / 0x1_0000));
    ValueTail(Put32(hi) + Put16(lo / 0x1_0000), Put16(lo % 0x1_0000));
    assert Put64(x) == Put32(hi) + Put16(lo / 0x1_0000) + Put16(lo % 0x1_0000);
  }

  lemma Inverse16(x: u16, b: seq<byte>)
    requires |b| == 2
    ensures Get16(Put16(x)) == x && Put16(Get16(b)) == b
    ensures Get16LE(Put16LE(x)) == x && Put16LE(Get16LE(b)) == b
  {
  }

  lemma Get32Put(x: u32)
    ensures Get32(Put32(x)) == x && Get32LE(Put32LE(x)) == x
  {
    var hi: u16, lo: u16 := x / 0x1_0000, x % 0x1_0000;
    Inverse16(hi, [0, 0]);
    Inverse16(lo, [0, 0]);
    assert Put32(x)[..2] == Put16(hi) && Put32(x)[2..] == Put16(lo);
    assert Put32LE(x)[..2] == Put16LE(lo) && Put32LE(x)[2..] == Put16LE(hi);
  }

  lemma Split32(hi: u16, lo: u16)
    ensures (hi * 0x1_0000 + lo) / 0x1_0000 == hi && (hi * 0x1_0000 + lo) % 0x1_0000 == lo
  {
  }

  lemma Put32Get(b: seq<byte>)
    requires |b| == 4
    ensures Put32(Get32(b)) == b && Put32LE(Get32LE(b)) == b
  {
    Split32(Get16(b[..2]), Get16(b[2..]));
    Split32(Get16LE(b[2..]), Get16LE(b[..2]));
    Inverse16(0, b[..2]);
    Inverse16(0, b[2..]);
    assert b == b[..2] + b[2..];
  }

  lemma Inverse32(x: u32, b: seq<byte>)
    requires |b| == 4
    ensures Get32(Put32(x)) == x && Put32(Get32(b)) == b
    ensures Get32LE(Put32LE(x)) == x && Put32LE(Get32LE(b)) == b
  {
    Get32Put(x);
    Put32Get(b);
  }

  lemma Get64Put(x: u64)
    ensures Get64(Put64(x)) == x
  {
    Inverse32(x / 0x1_0000_0000, Put32(0));
    Inverse32(x % 0x1_0000_0000, Put32(0));
    assert Put64(x)[..4] == Put32(x / 0x1_0000_0000) && Put64(x)[4..] == Put32(x % 0x1_0000_0000);
  }

  lemma Put64Get(b: seq<byte>)
    requires |b| == 8
    ensures Put64(Get64(b)) == b
  {
    var hi, lo := Get32(b[..4]), Get32(b[4..]);
    assert Get64(b) / 0x1_0000_0000 == hi && Get64(b) % 0x1_0000_0000 == lo;
    Inverse32(0, b[..4]);
    Inverse32(0, b[4..]);
    assert b == b[..4] + b[4..];
  }
}
