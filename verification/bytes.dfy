/** Little-endian wire integers: every multi-byte field on virtio is little-endian. */
module Bytes {

  type byte = x: int | 0 <= x < 0x100

  const U32: nat := 0x1_0000_0000
  const U64: nat := 0x1_0000_0000_0000_0000

  type u32 = x: int | 0 <= x < 0x1_0000_0000
  type u64 = x: int | 0 <= x < 0x1_0000_0000_0000_0000

  /** uint32 and uint64 truncation, and the increment of a uint64. */
  function Wrap32(x: nat): (y: u32) {
    x % 0x1_0000_0000
  }

  lemma WrapSmall(x: nat)
    ensures Wrap32(x) < U32 && Wrap32(x) <= x && (x < U32 ==> Wrap32(x) == x)
  {
  }

  function Inc64(x: nat): (y: nat) {
    if x + 1 == U64 then 0 else x + 1
  }

  function PutLe(x: nat, n: nat): (b: seq<byte>)
    ensures |b| == n
    decreases n
  {
    if n == 0 then [] else [x % 0x100] + PutLe(x / 0x100, n - 1)
  }

  function GetLe(b: seq<byte>): nat {
    if |b| == 0 then 0 else b[0] + 0x100 * GetLe(b[1..])
  }

  function Pow256(n: nat): (p: nat)
    ensures p > 0
  {
    if n == 0 then 1 else 0x100 * Pow256(n - 1)
  }

  /** What is written with n bytes reads back, truncated to those n bytes. */
  lemma {:induction false} GetPutLe(x: nat, n: nat)
    ensures GetLe(PutLe(x, n)) == x % Pow256(n)
  {
    if n > 0 {
      GetPutLe(x / 0x100, n - 1);
      var p := Pow256(n - 1);
      var q, m := x / 0x100, x % 0x100;
      assert PutLe(x, n)[1..] == PutLe(q, n - 1);
      ModOfProduct(q, m, p);
    }
  }

  lemma ModOfProduct(q: nat, m: nat, p: nat)
    requires p > 0 && m < 0x100
    ensures (0x100 * q + m) % (0x100 * p) == m + 0x100 * (q % p)
  {
    var a, b := q / p, q % p;
    assert q == a * p + b;
    assert 0x100 * q + m == a * (0x100 * p) + (0x100 * b + m) by {
      assert 0x100 * (a * p) == a * (0x100 * p);
    }
    ModUnique(a, 0x100 * b + m, 0x100 * p);
  }

  lemma {:induction false} ModUnique(a: nat, r: nat, d: nat)
    requires r < d
    ensures (a * d + r) % d == r
  {
    if a > 0 {
      var x := (a - 1) * d + r;
      assert a * d + r == x + d;
      AddDivisor(x, d);
      ModUnique(a - 1, r, d);
    }
  }

  lemma AddDivisor(x: nat, d: nat)
    requires d > 0
    ensures (x + d) % d == x % d
  {
    var q, q' := x / d, (x + d) / d;
    var k := q' - q - 1;
    assert k * d == x % d - (x + d) % d;
  }

  /** Every byte string is the encoding of the number it decodes to. */
  lemma {:induction false} PutGetLe(b: seq<byte>)
    ensures GetLe(b) < Pow256(|b|)
    ensures PutLe(GetLe(b), |b|) == b
  {
    if |b| > 0 {
      PutGetLe(b[1..]);
      LowByte(b[0], GetLe(b[1..]));
      assert b == [b[0]] + b[1..];
    }
  }

  lemma LowByte(low: byte, g: nat)
    ensures (low + 0x100 * g) % 0x100 == low && (low + 0x100 * g) / 0x100 == g
  {
  }

  function Le32(x: u32): (b: seq<byte>)
    ensures |b| == 4
  {
    PutLe(x, 4)
  }

  function Le64(x: u64): (b: seq<byte>)
    ensures |b| == 8
  {
    PutLe(x, 8)
  }

  /** le.Uint32 / le.Uint64 on a slice of exactly the right width. */
  function U32At(b: seq<byte>, off: nat): (x: u32)
    requires off + 4 <= |b|
  {
    FourBytes(b[off..off + 4]);
    GetLe(b[off..off + 4])
  }

  function U64At(b: seq<byte>, off: nat): (x: u64)
    requires off + 8 <= |b|
  {
    EightBytes(b[off..off + 8]);
    GetLe(b[off..off + 8])
  }

  lemma SubSlice(b: seq<byte>, lo: nat, hi: nat, i: nat, j: nat)
    requires lo <= hi <= |b| && i <= j <= hi - lo
    ensures b[lo..hi][i..j] == b[lo + i..lo + j]
  {
    var inner, outer := b[lo..hi][i..j], b[lo + i..lo + j];
    forall k | 0 <= k < j - i
      ensures inner[k] == outer[k]
    {
      assert inner[k] == b[lo..hi][i + k] == b[lo + i + k];
    }
  }

  /** Reading from a prefix reads the same. */
  lemma PrefixReads(b: seq<byte>, p: seq<byte>)
    requires p <= b
    ensures forall off: nat | off + 4 <= |p| :: U32At(b, off) == U32At(p, off)
  {
    forall off: nat | off + 4 <= |p|
      ensures U32At(b, off) == U32At(p, off)
    {
      assert b[off..off + 4] == p[off..off + 4];
    }
  }

  lemma FourBytes(b: seq<byte>)
    requires |b| == 4
    ensures GetLe(b) < U32
  {
    PutGetLe(b);
    PowersOf256();
  }

  lemma EightBytes(b: seq<byte>)
    requires |b| == 8
    ensures GetLe(b) < U64
  {
    PutGetLe(b);
    PowersOf256();
  }

  lemma PowersOf256()
    ensures Pow256(4) == U32 && Pow256(8) == U64
  {
    assert Pow256(1) == 0x100;
    assert Pow256(2) == 0x1_0000;
    assert Pow256(3) == 0x100_0000;
    assert Pow256(4) == 0x1_0000_0000;
    assert Pow256(5) == 0x100_0000_0000;
    assert Pow256(6) == 0x1_0000_0000_0000;
    assert Pow256(7) == 0x100_0000_0000_0000;
  }

  /** Little-endian: byte i is the i-th digit in base 256, the lowest first. */
  lemma {:induction false} PutLeAt(x: nat, n: nat, i: nat)
    requires i < n
    ensures PutLe(x, n)[i] == x / Pow256(i) % 0x100
  {
    if i > 0 {
      PutLeAt(x / 0x100, n - 1, i - 1);
      DivTwice(x, Pow256(i - 1));
    }
  }

  lemma DivTwice(x: nat, p: nat)
    requires p > 0
    ensures x / 0x100 / p == x / (0x100 * p)
  {
    var q, m := x / 0x100, x % 0x100;
    var a, b := q / p, q % p;
    assert q == a * p + b;
    var d, r := 0x100 * p, 0x100 * b + m;
    assert x == a * d + r by {
      assert 0x100 * (a * p) == a * (0x100 * p);
    }
    DivUnique(a, r, d);
  }

  lemma DivUnique(a: nat, r: nat, d: nat)
    requires r < d
    ensures (a * d + r) / d == a
  {
    var y := a * d + r;
    ModUnique(a, r, d);
    assert y == y / d * d + y % d;
    Cancel(a, y / d, d);
  }

  lemma Cancel(a: nat, q: nat, d: nat)
    requires d > 0 && a * d == q * d
    ensures a == q
  {
    assert (a - q) * d == 0;
    ZeroFactor(a - q, d);
  }

  lemma ZeroFactor(x: int, d: nat)
    requires d > 0 && x * d == 0
    ensures x == 0
  {
  }

  /** The four bytes of a uint32, and what is read from four bytes, spelled out. */
  lemma Le32Bytes(x: u32, b: seq<byte>, off: nat)
    requires off + 4 <= |b|
    ensures Le32(x) == [x % 0x100, x / 0x100 % 0x100, x / 0x1_0000 % 0x100, x / 0x100_0000]
    ensures U32At(b, off) == b[off] + 0x100 * (b[off + 1] as int) + 0x1_0000 * (b[off + 2] as int) + 0x100_0000 * (b[off + 3] as int)
  {
    assert PutLe(x / 0x100_0000, 1) == [x / 0x100_0000];
    assert PutLe(x / 0x1_0000, 2) == [x / 0x1_0000 % 0x100, x / 0x100_0000];
    assert PutLe(x / 0x100, 3) == [x / 0x100 % 0x100, x / 0x1_0000 % 0x100, x / 0x100_0000];
    var c := b[off..off + 4];
    assert c[1..] == [c[1], c[2], c[3]] && [c[1], c[2], c[3]][1..] == [c[2], c[3]] && [c[2], c[3]][1..] == [c[3]] && [c[3]][1..] == [];
    assert GetLe([c[3]]) == c[3];
    assert GetLe([c[2], c[3]]) == c[2] + 0x100 * (c[3] as int);
    assert GetLe([c[1], c[2], c[3]]) == c[1] + 0x100 * GetLe([c[2], c[3]]);
  }

  lemma Le32RoundTrip(x: u32)
    ensures U32At(Le32(x), 0) == x
  {
    GetPutLe(x, 4);
    PowersOf256();
    assert Le32(x)[0..4] == Le32(x);
  }

  lemma Le64RoundTrip(x: u64)
    ensures U64At(Le64(x), 0) == x
  {
    GetPutLe(x, 8);
    PowersOf256();
    assert Le64(x)[0..8] == Le64(x);
  }

  /** Go's copy(mem[off:off+len(data)], data). */
  function Copy(mem: seq<byte>, off: nat, data: seq<byte>): (m: seq<byte>)
    requires off + |data| <= |mem|
    ensures |m| == |mem|
  {
    mem[..off] + data + mem[off + |data|..]
  }

  /** Bytes appended after `p` change no field inside it. */
  lemma AppendKeeps(p: seq<byte>, q: seq<byte>)
    ensures forall off: nat | off + 4 <= |p| :: U32At(p + q, off) == U32At(p, off)
    ensures forall off: nat | off + 8 <= |p| :: U64At(p + q, off) == U64At(p, off)
  {
    forall off: nat | off + 4 <= |p|
      ensures U32At(p + q, off) == U32At(p, off)
    {
      assert (p + q)[off..off + 4] == p[off..off + 4];
    }
    forall off: nat | off + 8 <= |p|
      ensures U64At(p + q, off) == U64At(p, off)
    {
      assert (p + q)[off..off + 8] == p[off..off + 8];
    }
  }

  /** An appended field reads back at the end of what was there. */
  lemma Append32(p: seq<byte>, x: u32)
    ensures U32At(p + Le32(x), |p|) == x
    ensures forall off: nat | off + 4 <= |p| :: U32At(p + Le32(x), off) == U32At(p, off)
    ensures forall off: nat | off + 8 <= |p| :: U64At(p + Le32(x), off) == U64At(p, off)
  {
    AppendKeeps(p, Le32(x));
    assert (p + Le32(x))[|p|..|p| + 4] == Le32(x)[0..4];
    Le32RoundTrip(x);
  }

  lemma Append64(p: seq<byte>, x: u64)
    ensures U64At(p + Le64(x), |p|) == x
    ensures forall off: nat | off + 4 <= |p| :: U32At(p + Le64(x), off) == U32At(p, off)
    ensures forall off: nat | off + 8 <= |p| :: U64At(p + Le64(x), off) == U64At(p, off)
  {
    AppendKeeps(p, Le64(x));
    assert (p + Le64(x))[|p|..|p| + 8] == Le64(x)[0..8];
    Le64RoundTrip(x);
  }

  function Zeros(n: nat): (b: seq<byte>)
    ensures |b| == n && forall i | 0 <= i < n :: b[i] == 0
  {
    seq(n, _ => 0)
  }
}
