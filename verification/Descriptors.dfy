/** Descriptor loops: what their bytes mean, and the loop that drops conditional access. */
module Descriptors {
  import opened Bytes

  datatype Descriptor = Descriptor(tag: byte, body: Bytes)

  // ----- Reading a loop -----

  /** Where the descriptor behind the one at offset i begins. */
  function Next(s: Bytes, i: nat): (n: nat)
    requires i + 2 <= |s|
    ensures i + 2 <= n < i + 258
  {
    i + 2 + s[i + 1] as int
  }

  /** From offset i on, s is filled exactly by descriptors. */
  predicate Tiled(s: Bytes, i: nat)
    decreases |s| - i
  {
    i == |s| || (i + 2 <= |s| && Next(s, i) <= |s| && Tiled(s, Next(s, i)))
  }

  function At(s: Bytes, i: nat): Descriptor
    requires i + 2 <= |s| && Next(s, i) <= |s|
  {
    Descriptor(s[i], s[i + 2..Next(s, i)])
  }

  /** The descriptors from offset i on. */
  function Parse(s: Bytes, i: nat): (ds: seq<Descriptor>)
    requires Tiled(s, i)
    decreases |s| - i
  {
    if i == |s| then [] else [At(s, i)] + Parse(s, Next(s, i))
  }

  /** A descriptor as it is written: one byte is stored of its length. */
  function Encode(d: Descriptor): (e: Bytes)
    ensures |e| == 2 + |d.body|
  {
    [d.tag, Rem(|d.body|, 256)] + d.body
  }

  /** All descriptors are short enough for their length byte. */
  predicate AllShort(ds: seq<Descriptor>) {
    forall i :: 0 <= i < |ds| ==> |ds[i].body| < 256
  }

  /** What is read is short, whatever the bytes are. */
  lemma {:induction false} ParsedIsShort(s: Bytes, i: nat)
    requires Tiled(s, i)
    ensures AllShort(Parse(s, i))
    decreases |s| - i
  {
    if i < |s| {
      ParsedIsShort(s, Next(s, i));
    }
  }

  lemma EncodeAt(s: Bytes, i: nat)
    requires i + 2 <= |s| && Next(s, i) <= |s|
    ensures |At(s, i).body| < 256 && Encode(At(s, i)) == s[i..Next(s, i)]
  {
  }

  /** Reading starts afresh at any place: what lies before does not matter. */
  lemma {:induction false} ParseBehind(x: Bytes, t: Bytes, i: nat)
    requires i <= |t| && Tiled(t, i)
    ensures Tiled(x + t, |x| + i) && Parse(x + t, |x| + i) == Parse(t, i)
    decreases |t| - i
  {
    var s := x + t;
    if i < |t| {
      assert s[|x| + i] == t[i] && s[|x| + i + 1] == t[i + 1];
      assert s[|x| + i + 2..|x| + Next(t, i)] == t[i + 2..Next(t, i)];
      ParseBehind(x, t, Next(t, i));
    }
  }

  /** A descriptor written in front of a loop is read first. */
  lemma ParseFront(d: Descriptor, t: Bytes)
    requires |d.body| < 256 && Tiled(t, 0)
    ensures Tiled(Encode(d) + t, 0) && Parse(Encode(d) + t, 0) == [d] + Parse(t, 0)
  {
    var s := Encode(d) + t;
    ParseBehind(Encode(d), t, 0);
    assert s[2..2 + |d.body|] == d.body;
    assert At(s, 0) == d;
  }

  // ----- Entries with a descriptor loop -----

  // Both the PMT and the SDT list entries of five bytes, the last two of which hold the length
  // of the descriptor loop that follows.

  function NextEntry(s: Bytes, j: nat): (n: nat)
    requires j + 5 <= |s|
    ensures j + 5 <= n < j + 5 + 0x1000
  {
    j + 5 + GetU12(s, j + 3)
  }

  /** From offset j to end, s is filled exactly by entries with well-formed loops. */
  predicate EntriesTiled(s: Bytes, j: nat, end: nat)
    requires end <= |s|
    decreases end - j
  {
    j == end ||
    (j + 5 <= end && NextEntry(s, j) <= end && Tiled(s[j + 5..NextEntry(s, j)], 0)
     && EntriesTiled(s, NextEntry(s, j), end))
  }

  // ----- Dropping descriptors -----

  const CA_DESCRIPTOR: byte := 0x09
  const PRIVATE_DESCRIPTOR: byte := 0xc0   // used by one Spanish operator

  predicate Kept(tag: byte) { tag != CA_DESCRIPTOR && tag != PRIVATE_DESCRIPTOR }

  /** The descriptors that may stay, in order. */
  function Free(ds: seq<Descriptor>): (r: seq<Descriptor>) {
    if ds == [] then [] else (if Kept(ds[0].tag) then [ds[0]] else []) + Free(ds[1..])
  }

  /** Free forgets exactly the descriptors with the two tags. */
  lemma {:induction false} FreeMeaning(ds: seq<Descriptor>, d: Descriptor)
    ensures multiset(Free(ds))[d] == if d.tag == 0x09 || d.tag == 0xc0 then 0 else multiset(ds)[d]
  {
    if ds != [] {
      FreeMeaning(ds[1..], d);
      assert ds == [ds[0]] + ds[1..];
    }
  }

  /** It keeps the others in order: it works on every part of a loop by itself. */
  lemma {:induction false} FreeAppend(a: seq<Descriptor>, b: seq<Descriptor>)
    ensures Free(a + b) == Free(a) + Free(b)
  {
    hide *;
    if a == [] {
      assert a + b == b;
      FreeNothing(b);
    } else {
      assert a + b == [a[0]] + (a[1..] + b) && a == [a[0]] + a[1..];
      FreeFront(a[0], a[1..] + b);
      FreeFront(a[0], a[1..]);
      FreeAppend(a[1..], b);
    }
  }

  lemma FreeNothing(b: seq<Descriptor>)
    ensures Free([]) + Free(b) == Free(b)
  {
  }

  /** The bytes of the loop from offset i on that copy_pmt_descriptors copies. */
  function FreeBytes(s: Bytes, i: nat): (r: Bytes)
    requires Tiled(s, i)
    ensures |r| <= |s| - i
    decreases |s| - i
  {
    if i == |s| then []
    else (if Kept(s[i]) then s[i..Next(s, i)] else []) + FreeBytes(s, Next(s, i))
  }

  lemma FreeBytesTurn(s: Bytes, i: nat)
    requires Tiled(s, i) && i < |s|
    ensures i + 2 <= |s| && Next(s, i) <= |s| && Tiled(s, Next(s, i))
    ensures Kept(s[i]) ==> FreeBytes(s, i) == s[i..Next(s, i)] + FreeBytes(s, Next(s, i))
    ensures !Kept(s[i]) ==> FreeBytes(s, i) == FreeBytes(s, Next(s, i))
  {
  }

  /** The copied bytes are again a loop, and hold exactly the descriptors that may stay. */
  lemma {:induction false} FreeBytesParse(s: Bytes, i: nat)
    requires Tiled(s, i)
    ensures Tiled(FreeBytes(s, i), 0) && Parse(FreeBytes(s, i), 0) == Free(Parse(s, i))
    decreases |s| - i
  {
    if i < |s| {
      var n := Next(s, i);
      FreeBytesTurn(s, i);
      FreeBytesParse(s, n);
      FreeFront(At(s, i), Parse(s, n));
      assert Parse(s, i) == [At(s, i)] + Parse(s, n);
      if Kept(s[i]) {
        EncodeAt(s, i);
        ParseFront(At(s, i), FreeBytes(s, n));
      }
    }
  }

  lemma FreeFront(d: Descriptor, ds: seq<Descriptor>)
    ensures Free([d] + ds) == if Kept(d.tag) then [d] + Free(ds) else Free(ds)
  {
    assert ([d] + ds)[1..] == ds;
  }

  /** done is what the loop has copied when it has come to offset i of src. */
  ghost predicate Copied(src: Bytes, i: nat, done: Bytes) {
    i <= |src| && Tiled(src, 0) && Tiled(src, i) && |done| <= i
    && FreeBytes(src, 0) == done + FreeBytes(src, i)
  }

  lemma CopiedTurn(src: Bytes, i: nat, done: Bytes) returns (piece: Bytes)
    requires Copied(src, i, done) && i < |src|
    ensures i + 2 <= |src| && i + src[i + 1] as int + 2 <= |src| && |done| + |piece| <= |src|
    ensures piece == if src[i] == CA_DESCRIPTOR || src[i] == PRIVATE_DESCRIPTOR then []
                     else src[i..i + src[i + 1] as int + 2]
    ensures Copied(src, i + src[i + 1] as int + 2, done + piece)
  {
    FreeBytesTurn(src, i);
    piece := if Kept(src[i]) then src[i..Next(src, i)] else [];
    AppendAssociative(done, piece, FreeBytes(src, Next(src, i)));
  }

  lemma CopiedNothing(src: Bytes)
    requires Tiled(src, 0)
    ensures Copied(src, 0, []) && |FreeBytes(src, 0)| <= |src|
  {
  }

  lemma CopiedAll(src: Bytes, done: Bytes)
    requires Copied(src, |src|, done)
    ensures done == FreeBytes(src, 0)
  {
    assert done + [] == done;
  }

  /** One turn of copy_pmt_descriptors: the descriptor at offset i is copied or skipped. */
  method PutKept(dst: array<byte>, ghost before: Bytes, ghost at: nat, ghost done: Bytes, p: nat,
                 src: Bytes, i: nat, ghost piece: Bytes)
    returns (n: nat)
    requires i + 2 <= |src| && i + src[i + 1] as int + 2 <= |src|
    requires piece == if src[i] == CA_DESCRIPTOR || src[i] == PRIVATE_DESCRIPTOR then []
                      else src[i..i + src[i + 1] as int + 2]
    requires |before| == dst.Length && at + |done| == p && p + |piece| <= dst.Length
    requires dst[..] == Store(before, at, done)
    modifies dst
    ensures n == |piece| && dst[..] == Store(before, at, done + piece)
  {
    var descriptorTag := src[i];
    var descriptorLength := src[i + 1] as int;
    if descriptorTag != CA_DESCRIPTOR && descriptorTag != PRIVATE_DESCRIPTOR {
      PutNext(dst, before, at, done, p, src[i..i + descriptorLength + 2]);
      n := descriptorLength + 2;
    } else {
      assert done + piece == done;
      n := 0;
    }
  }

  /** copy_pmt_descriptors: the loop src goes to dst without its conditional access descriptors. */
  method CopyPmtDescriptors(dst: array<byte>, at: nat, src: Bytes) returns (n: nat)
    requires Tiled(src, 0) && at + |src| <= dst.Length
    modifies dst
    ensures n == |FreeBytes(src, 0)|
    ensures dst[..] == Store(old(dst[..]), at, FreeBytes(src, 0))
  {
    ghost var before, done: Bytes := dst[..], [];
    assert before == Store(before, at, []);
    CopiedNothing(src);
    hide *;
    var i := 0;
    n := 0;
    while i < |src|
      invariant i <= |src| && n == |done| && Copied(src, i, done)
      invariant dst[..] == Store(before, at, done)
    {
      ghost var piece := CopiedTurn(src, i, done);
      var size := PutKept(dst, before, at, done, at + n, src, i, piece);
      done := done + piece;
      n := n + size;
      i := i + src[i + 1] as int + 2;
    }
    CopiedAll(src, done);
  }
}
