/** Bytes, byte sequences and the big-endian fields the tables are made of. */
module Bytes {
  import Arithmetic

  type byte = x: int | 0 <= x < 256

  type Bytes = seq<byte>

  /** A thirteen-bit packet identifier. */
  type PidValue = x: int | 0 <= x < 0x2000

  /** x modulo m, by repeated subtraction: the low bits of x when m is a power of two. */
  function Rem(x: nat, m: nat): (r: nat)
    requires m > 0
    ensures r < m
  {
    if x < m then x else Rem(x - m, m)
  }

  function Quot(x: nat, m: nat): (q: nat)
    requires m > 0
  {
    if x < m then 0 else 1 + Quot(x - m, m)
  }

  lemma {:induction false} QuotRem(x: nat, m: nat)
    requires m > 0
    ensures x == Quot(x, m) * m + Rem(x, m)
  {
    if x >= m {
      QuotRem(x - m, m);
    }
  }

  lemma {:induction false} RemOf(q: nat, r: nat, m: nat)
    requires r < m
    ensures Rem(q * m + r, m) == r
  {
    if q > 0 {
      assert q * m == (q - 1) * m + m;
      RemOf(q - 1, r, m);
    }
  }

  /** They are remainder and quotient. */
  lemma DivisionOf(x: nat, m: nat)
    requires m > 0
    ensures Quot(x, m) == x / m && Rem(x, m) == x % m
  {
    QuotRem(x, m);
    Arithmetic.DivisionIs(x, m, Quot(x, m), Rem(x, m));
  }

  /** What put_u16be stores for a value that fits in sixteen bits. */
  function U16(x: nat): (b: Bytes)
    requires x < 0x1_0000
    ensures |b| == 2 && b[0] as int * 256 + b[1] as int == x
  {
    QuotRem(x, 256);
    [Quot(x, 256), Rem(x, 256)]
  }

  /** Reads the sixteen-bit field at offset i. */
  function GetU16(s: Bytes, i: nat): (x: nat)
    requires i + 2 <= |s|
    ensures x < 0x1_0000
  {
    s[i] as int * 256 + s[i + 1] as int
  }

  /** Reads the low twelve bits of the sixteen-bit field at offset i: a length field. */
  function GetU12(s: Bytes, i: nat): (x: nat)
    requires i + 2 <= |s|
    ensures x < 0x1000
  {
    Rem(s[i] as int, 16) * 256 + s[i + 1] as int
  }

  /** Reads the low thirteen bits of the sixteen-bit field at offset i: a PID field. */
  function GetU13(s: Bytes, i: nat): (x: PidValue)
    requires i + 2 <= |s|
  {
    Rem(s[i] as int, 32) * 256 + s[i + 1] as int
  }

  /** The bits in front of a length or PID field do not matter when it is read. */
  lemma FieldOfU16(flags: nat, x: nat, b: Bytes)
    requires x < 0x1000 && flags < 16 && b == U16(flags * 0x1000 + x)
    ensures GetU12(b, 0) == x
  {
    var h, l := b[0] as int, b[1] as int;
    QuotRem(x, 256);
    var q, r := Quot(x, 256), Rem(x, 256);
    assert h == flags * 16 + q && l == r;
    RemOf(flags, q, 16);
  }

  /** The four bits in front of a length. */
  lemma HighNibble(bits: nat, len: nat)
    requires bits < 16 && len < 0x1000
    ensures Quot(U16(bits * 0x1000 + len)[0] as int, 16) == bits
  {
    var high := U16(bits * 0x1000 + len)[0] as int;
    QuotRem(len, 256);
    assert high == bits * 16 + Quot(len, 256);
    RemOf(bits, Quot(len, 256), 16);
    QuotRem(high, 16);
  }

  /** The three bits in front of a PID. */
  lemma HighBits(bits: nat, pid: PidValue)
    requires bits < 8
    ensures Quot(U16(bits * 0x2000 + pid as int)[0] as int, 32) == bits
  {
    var high := U16(bits * 0x2000 + pid as int)[0] as int;
    QuotRem(pid as int, 256);
    assert high == bits * 32 + Quot(pid as int, 256);
    RemOf(bits, Quot(pid as int, 256), 32);
    QuotRem(high, 32);
  }

  lemma PidOfU16(flags: nat, x: PidValue, b: Bytes)
    requires flags < 8 && b == U16(flags * 0x2000 + x as int)
    ensures GetU13(b, 0) == x
  {
    var h, l := b[0] as int, b[1] as int;
    QuotRem(x, 256);
    var q, r := Quot(x, 256), Rem(x, 256);
    assert h == flags * 32 + q && l == r;
    RemOf(flags, q, 32);
  }

  function Min(a: int, b: int): (m: int)
    ensures m <= a && m <= b && (m == a || m == b)
  {
    if a < b then a else b
  }

  /** n copies of one byte: what memset leaves. */
  function Fill(n: nat, b: byte): (s: Bytes)
    ensures |s| == n && forall i :: 0 <= i < n ==> s[i] == b
  {
    seq(n, i => b)
  }

  lemma AppendAssociative(a: Bytes, b: Bytes, c: Bytes)
    ensures a + (b + c) == (a + b) + c
  {
  }

  /** The concatenation of a sequence of byte strings. */
  function Flatten(ss: seq<Bytes>): Bytes {
    if ss == [] then [] else ss[0] + Flatten(ss[1..])
  }

  lemma {:induction false} FlattenAppend(a: seq<Bytes>, b: seq<Bytes>)
    ensures Flatten(a + b) == Flatten(a) + Flatten(b)
  {
    if a == [] {
      assert a + b == b;
    } else {
      assert (a + b)[1..] == a[1..] + b;
      FlattenAppend(a[1..], b);
    }
  }

  /** s with data stored from offset at on. */
  function Store(s: Bytes, at: nat, data: Bytes): (t: Bytes)
    requires at + |data| <= |s|
    ensures |t| == |s|
  {
    s[..at] + data + s[at + |data|..]
  }

  lemma SplitSlice(b: Bytes, k: nat, end: nat, e: Bytes, rest: Bytes)
    requires k <= end <= |b| && b[k..end] == e + rest
    ensures k + |e| <= end && b[k..k + |e|] == e && b[k + |e|..end] == rest
  {
    assert b[k..k + |e|] == b[k..end][..|e|];
    assert b[k + |e|..end] == b[k..end][|e|..];
  }

  lemma StoreNext(b: Bytes, at: nat, x: Bytes, y: Bytes)
    requires at + |x| + |y| <= |b|
    ensures Store(Store(b, at, x), at + |x|, y) == Store(b, at, x + y)
  {
  }

  lemma StoreBefore(b: Bytes, at: nat, x: Bytes, y: Bytes)
    requires at + |x| + |y| <= |b|
    ensures Store(Store(b, at + |x|, y), at, x) == Store(b, at, x + y)
  {
  }

  lemma StoreBehind(s: Bytes, at: nat, data: Bytes)
    requires at + |data| <= |s|
    ensures Store(s, at, data)[..at + |data|] == s[..at] + data
  {
  }

  /** memcpy and memset: the bytes stored are data, the others stay. */
  method MemCpy(dst: array<byte>, at: nat, data: Bytes)
    requires at + |data| <= dst.Length
    modifies dst
    ensures dst[..] == Store(old(dst[..]), at, data)
  {
    forall k | at <= k < at + |data| { dst[k] := data[k - at]; }
  }

  /** memcpy behind what is already there. */
  method PutBehind(dst: array<byte>, at: nat, data: Bytes)
    requires at + |data| <= dst.Length
    modifies dst
    ensures dst[..at + |data|] == old(dst[..at]) + data
  {
    StoreBehind(dst[..], at, data);
    MemCpy(dst, at, data);
  }

  /** memcpy behind the bytes done, which were stored from offset at on. */
  method PutNext(dst: array<byte>, ghost before: Bytes, ghost at: nat, ghost done: Bytes, p: nat, data: Bytes)
    requires |before| == dst.Length && at + |done| == p && p + |data| <= dst.Length
    requires dst[..] == Store(before, at, done)
    modifies dst
    ensures dst[..] == Store(before, at, done + data)
  {
    StoreNext(before, at, done, data);
    MemCpy(dst, p, data);
  }
}
