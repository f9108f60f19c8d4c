/** recode_text: marking text as ISO 8859-1, and text that spills into the next descriptor. */
module Text {
  import opened Bytes

  /** The code page prefix put in front of text. */
  const PREFIX: Bytes := [0x10, 0x00, 0x01]

  const SPILL_SIZE: nat := 128

  /** The text behind the length byte at offset q. */
  function TextAt(s: Bytes, q: nat): (t: Bytes)
    requires q < |s| && q + 1 + s[q] as int <= |s|
    ensures |t| == s[q] as int
  {
    s[q + 1..q + 1 + s[q] as int]
  }

  /** A text field: empty text stays empty, other text gets the prefix; one byte holds its length. */
  function Recoded(text: Bytes): (f: Bytes)
    ensures |f| == if text == [] then 1 else 4 + |text|
    ensures |text| <= 252 ==> f[0] as int + 1 == |f|
  {
    if text == [] then [0] else [Rem(3 + |text|, 256)] + PREFIX + text
  }

  /** How much of the text fits when maxSize bytes are left and spill goes first. */
  function Taken(text: Bytes, spill: Bytes, maxSize: int): (n: nat)
    requires 3 + |spill| <= maxSize
    ensures n <= |text|
  {
    Min(maxSize - 3 - |spill|, |text|)
  }

  predicate SpillFits(text: Bytes, spill: Bytes, maxSize: int) {
    text != [] ==>
      3 + |spill| <= maxSize <= 255 && |text| - Taken(text, spill, maxSize) <= SPILL_SIZE
  }

  /** The field that is written, and the text kept for the next descriptor. */
  function RecodedSpill(text: Bytes, spill: Bytes, maxSize: int): (r: (Bytes, Bytes))
    requires SpillFits(text, spill, maxSize)
    ensures text != [] ==> |r.0| <= 1 + maxSize
  {
    if text == [] then ([0], spill)
    else
      var n := Taken(text, spill, maxSize);
      ([3 + |spill| + n] + PREFIX + spill + text[..n], text[n..])
  }

  class Chunk {
    var len: nat
    const buf: array<byte>

    constructor ()
      ensures Valid() && Content() == [] && fresh(buf) && buf.Length == 128
    {
      len := 0;
      buf := new byte[SPILL_SIZE](i => 0);
    }

    ghost predicate Valid()
      reads this
    {
      buf.Length == SPILL_SIZE && len <= SPILL_SIZE
    }

    ghost function Content(): Bytes
      requires Valid()
      reads this, buf
    {
      buf[..len]
    }
  }

  lemma FieldPieces(b: Bytes, at: nat, p: nat, spill: Bytes, part: Bytes, size: byte)
    requires p == at + 4 + |spill| && p + |part| <= |b|
    ensures Store(Store(Store(Store(b, at + 1, PREFIX), at + 4, spill), p, part), at, [size])
         == Store(b, at, [size] + PREFIX + spill + part)
  {
    hide Store;
    StoreNext(b, at + 1, PREFIX, spill);
    StoreNext(b, at + 1, PREFIX + spill, part);
    StoreBefore(b, at, [size], PREFIX + spill + part);
    assert [size] + (PREFIX + spill + part) == [size] + PREFIX + spill + part;
  }

  /** The prefix, the spilled text, the new text, and then the length in front of them. */
  method PutText(dst: array<byte>, at: nat, spill: Bytes, part: Bytes) returns (size: byte)
    requires at + 4 + |spill| + |part| <= dst.Length
    modifies dst
    ensures size as int == Rem(3 + |spill| + |part|, 256)
    ensures dst[..] == Store(old(dst[..]), at, [size] + PREFIX + spill + part)
  {
    var p := at + 4 + |spill|;
    size := Rem(p + |part| - at - 1, 256);
    FieldPieces(dst[..], at, p, spill, part, size);
    MemCpy(dst, at + 1, PREFIX);
    MemCpy(dst, at + 4, spill);
    MemCpy(dst, p, part);
    MemCpy(dst, at, [size]);
  }

  lemma NothingBetween(a: Bytes, b: Bytes)
    ensures a + [] + b == a + b
  {
  }

  lemma RecodedParts(text: Bytes)
    requires text != []
    ensures var x: byte := Rem(3 + |text|, 256);
            Recoded(text) == [x] + PREFIX + [] + text && Recoded(text)[0] == x
  {
    hide Rem;
    var x: byte := Rem(3 + |text|, 256);
    var size: Bytes := [x];
    NothingBetween(size + PREFIX, text);
  }

  /** recode_text without a spill buffer. */
  method RecodeText(dst: array<byte>, at: nat, text: Bytes) returns (size: byte)
    requires at + |Recoded(text)| <= dst.Length
    modifies dst
    ensures dst[..] == Store(old(dst[..]), at, Recoded(text)) && size == Recoded(text)[0]
  {
    if text == [] {
      MemCpy(dst, at, [0]);
      size := 0;
    } else {
      RecodedParts(text);
      hide *;
      size := PutText(dst, at, [], text);
    }
  }

  /** recode_text with a spill buffer: what does not fit is kept there. */
  method RecodeTextSpill(dst: array<byte>, at: nat, text: Bytes, maxSize: int, overflow: Chunk)
    returns (size: byte)
    requires |text| < 256 && overflow.Valid() && dst != overflow.buf
    requires SpillFits(text, overflow.Content(), maxSize)
    requires at + |RecodedSpill(text, overflow.Content(), maxSize).0| <= dst.Length
    modifies dst, overflow`len, overflow.buf
    ensures overflow.Valid()
    ensures var r := RecodedSpill(text, old(overflow.Content()), maxSize);
            && at + |r.0| <= dst.Length && dst[..] == Store(old(dst[..]), at, r.0)
            && overflow.Content() == r.1 && size as int + 1 == |r.0|
  {
    if text == [] {
      MemCpy(dst, at, [0]);
      size := 0;
    } else {
      var spaceLeft := maxSize - 3 - overflow.len;
      var toCopy := Min(spaceLeft, |text|);
      size := PutText(dst, at, overflow.buf[..overflow.len], text[..toCopy]);
      overflow.len := 0;
      if toCopy < |text| {
        MemCpy(overflow.buf, 0, text[toCopy..]);
        overflow.len := |text| - toCopy;
      }
    }
  }
}
