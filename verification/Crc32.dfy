/** The table-driven CRC of crc32.c against bit-serial and polynomial-division references. */
module Crc32 {
  import opened Bytes
  import opened Octets

  // ----- The program's algorithm: crc_tab and psi_crc32 -----

  /** crc_tab, sixteen entries a function: the high half of the index picks the function. */
  function CrcTab(i: bv8): bv32 {
    var l := i & 0x0f;
    match i >> 4
    case 0x0 => Tab0(l)
    case 0x1 => Tab1(l)
    case 0x2 => Tab2(l)
    case 0x3 => Tab3(l)
    case 0x4 => Tab4(l)
    case 0x5 => Tab5(l)
    case 0x6 => Tab6(l)
    case 0x7 => Tab7(l)
    case 0x8 => Tab8(l)
    case 0x9 => Tab9(l)
    case 0xa => TabA(l)
    case 0xb => TabB(l)
    case 0xc => TabC(l)
    case 0xd => TabD(l)
    case 0xe => TabE(l)
    case _ => TabF(l)
  }

  function Tab0(l: bv8): bv32 {
    match l
    case 0x0 => 0x00000000
    case 0x1 => 0x04c11db7
    case 0x2 => 0x09823b6e
    case 0x3 => 0x0d4326d9
    case 0x4 => 0x130476dc
    case 0x5 => 0x17c56b6b
    case 0x6 => 0x1a864db2
    case 0x7 => 0x1e475005
    case 0x8 => 0x2608edb8
    case 0x9 => 0x22c9f00f
    case 0xa => 0x2f8ad6d6
    case 0xb => 0x2b4bcb61
    case 0xc => 0x350c9b64
    case 0xd => 0x31cd86d3
    case 0xe => 0x3c8ea00a
    case _ => 0x384fbdbd
  }

  function Tab1(l: bv8): bv32 {
    match l
    case 0x0 => 0x4c11db70
    case 0x1 => 0x48d0c6c7
    case 0x2 => 0x4593e01e
    case 0x3 => 0x4152fda9
    case 0x4 => 0x5f15adac
    case 0x5 => 0x5bd4b01b
    case 0x6 => 0x569796c2
    case 0x7 => 0x52568b75
    case 0x8 => 0x6a1936c8
    case 0x9 => 0x6ed82b7f
    case 0xa => 0x639b0da6
    case 0xb => 0x675a1011
    case 0xc => 0x791d4014
    case 0xd => 0x7ddc5da3
    case 0xe => 0x709f7b7a
    case _ => 0x745e66cd
  }

  function Tab2(l: bv8): bv32 {
    match l
    case 0x0 => 0x9823b6e0
    case 0x1 => 0x9ce2ab57
    case 0x2 => 0x91a18d8e
    case 0x3 => 0x95609039
    case 0x4 => 0x8b27c03c
    case 0x5 => 0x8fe6dd8b
    case 0x6 => 0x82a5fb52
    case 0x7 => 0x8664e6e5
    case 0x8 => 0xbe2b5b58
    case 0x9 => 0xbaea46ef
    case 0xa => 0xb7a96036
    case 0xb => 0xb3687d81
    case 0xc => 0xad2f2d84
    case 0xd => 0xa9ee3033
    case 0xe => 0xa4ad16ea
    case _ => 0xa06c0b5d
  }

  function Tab3(l: bv8): bv32 {
    match l
    case 0x0 => 0xd4326d90
    case 0x1 => 0xd0f37027
    case 0x2 => 0xddb056fe
    case 0x3 => 0xd9714b49
    case 0x4 => 0xc7361b4c
    case 0x5 => 0xc3f706fb
    case 0x6 => 0xceb42022
    case 0x7 => 0xca753d95
    case 0x8 => 0xf23a8028
    case 0x9 => 0xf6fb9d9f
    case 0xa => 0xfbb8bb46
    case 0xb => 0xff79a6f1
    case 0xc => 0xe13ef6f4
    case 0xd => 0xe5ffeb43
    case 0xe => 0xe8bccd9a
    case _ => 0xec7dd02d
  }

  function Tab4(l: bv8): bv32 {
    match l
    case 0x0 => 0x34867077
    case 0x1 => 0x30476dc0
    case 0x2 => 0x3d044b19
    case 0x3 => 0x39c556ae
    case 0x4 => 0x278206ab
    case 0x5 => 0x23431b1c
    case 0x6 => 0x2e003dc5
    case 0x7 => 0x2ac12072
    case 0x8 => 0x128e9dcf
    case 0x9 => 0x164f8078
    case 0xa => 0x1b0ca6a1
    case 0xb => 0x1fcdbb16
    case 0xc => 0x018aeb13
    case 0xd => 0x054bf6a4
    case 0xe => 0x0808d07d
    case _ => 0x0cc9cdca
  }

  function Tab5(l: bv8): bv32 {
    match l
    case 0x0 => 0x7897ab07
    case 0x1 => 0x7c56b6b0
    case 0x2 => 0x71159069
    case 0x3 => 0x75d48dde
    case 0x4 => 0x6b93dddb
    case 0x5 => 0x6f52c06c
    case 0x6 => 0x6211e6b5
    case 0x7 => 0x66d0fb02
    case 0x8 => 0x5e9f46bf
    case 0x9 => 0x5a5e5b08
    case 0xa => 0x571d7dd1
    case 0xb => 0x53dc6066
    case 0xc => 0x4d9b3063
    case 0xd => 0x495a2dd4
    case 0xe => 0x44190b0d
    case _ => 0x40d816ba
  }

  function Tab6(l: bv8): bv32 {
    match l
    case 0x0 => 0xaca5c697
    case 0x1 => 0xa864db20
    case 0x2 => 0xa527fdf9
    case 0x3 => 0xa1e6e04e
    case 0x4 => 0xbfa1b04b
    case 0x5 => 0xbb60adfc
    case 0x6 => 0xb6238b25
    case 0x7 => 0xb2e29692
    case 0x8 => 0x8aad2b2f
    case 0x9 => 0x8e6c3698
    case 0xa => 0x832f1041
    case 0xb => 0x87ee0df6
    case 0xc => 0x99a95df3
    case 0xd => 0x9d684044
    case 0xe => 0x902b669d
    case _ => 0x94ea7b2a
  }

  function Tab7(l: bv8): bv32 {
    match l
    case 0x0 => 0xe0b41de7
    case 0x1 => 0xe4750050
    case 0x2 => 0xe9362689
    case 0x3 => 0xedf73b3e
    case 0x4 => 0xf3b06b3b
    case 0x5 => 0xf771768c
    case 0x6 => 0xfa325055
    case 0x7 => 0xfef34de2
    case 0x8 => 0xc6bcf05f
    case 0x9 => 0xc27dede8
    case 0xa => 0xcf3ecb31
    case 0xb => 0xcbffd686
    case 0xc => 0xd5b88683
    case 0xd => 0xd1799b34
    case 0xe => 0xdc3abded
    case _ => 0xd8fba05a
  }

  function Tab8(l: bv8): bv32 {
    match l
    case 0x0 => 0x690ce0ee
    case 0x1 => 0x6dcdfd59
    case 0x2 => 0x608edb80
    case 0x3 => 0x644fc637
    case 0x4 => 0x7a089632
    case 0x5 => 0x7ec98b85
    case 0x6 => 0x738aad5c
    case 0x7 => 0x774bb0eb
    case 0x8 => 0x4f040d56
    case 0x9 => 0x4bc510e1
    case 0xa => 0x46863638
    case 0xb => 0x42472b8f
    case 0xc => 0x5c007b8a
    case 0xd => 0x58c1663d
    case 0xe => 0x558240e4
    case _ => 0x51435d53
  }

  function Tab9(l: bv8): bv32 {
    match l
    case 0x0 => 0x251d3b9e
    case 0x1 => 0x21dc2629
    case 0x2 => 0x2c9f00f0
    case 0x3 => 0x285e1d47
    case 0x4 => 0x36194d42
    case 0x5 => 0x32d850f5
    case 0x6 => 0x3f9b762c
    case 0x7 => 0x3b5a6b9b
    case 0x8 => 0x0315d626
    case 0x9 => 0x07d4cb91
    case 0xa => 0x0a97ed48
    case 0xb => 0x0e56f0ff
    case 0xc => 0x1011a0fa
    case 0xd => 0x14d0bd4d
    case 0xe => 0x19939b94
    case _ => 0x1d528623
  }

  function TabA(l: bv8): bv32 {
    match l
    case 0x0 => 0xf12f560e
    case 0x1 => 0xf5ee4bb9
    case 0x2 => 0xf8ad6d60
    case 0x3 => 0xfc6c70d7
    case 0x4 => 0xe22b20d2
    case 0x5 => 0xe6ea3d65
    case 0x6 => 0xeba91bbc
    case 0x7 => 0xef68060b
    case 0x8 => 0xd727bbb6
    case 0x9 => 0xd3e6a601
    case 0xa => 0xdea580d8
    case 0xb => 0xda649d6f
    case 0xc => 0xc423cd6a
    case 0xd => 0xc0e2d0dd
    case 0xe => 0xcda1f604
    case _ => 0xc960ebb3
  }

  function TabB(l: bv8): bv32 {
    match l
    case 0x0 => 0xbd3e8d7e
    case 0x1 => 0xb9ff90c9
    case 0x2 => 0xb4bcb610
    case 0x3 => 0xb07daba7
    case 0x4 => 0xae3afba2
    case 0x5 => 0xaafbe615
    case 0x6 => 0xa7b8c0cc
    case 0x7 => 0xa379dd7b
    case 0x8 => 0x9b3660c6
    case 0x9 => 0x9ff77d71
    case 0xa => 0x92b45ba8
    case 0xb => 0x9675461f
    case 0xc => 0x8832161a
    case 0xd => 0x8cf30bad
    case 0xe => 0x81b02d74
    case _ => 0x857130c3
  }

  function TabC(l: bv8): bv32 {
    match l
    case 0x0 => 0x5d8a9099
    case 0x1 => 0x594b8d2e
    case 0x2 => 0x5408abf7
    case 0x3 => 0x50c9b640
    case 0x4 => 0x4e8ee645
    case 0x5 => 0x4a4ffbf2
    case 0x6 => 0x470cdd2b
    case 0x7 => 0x43cdc09c
    case 0x8 => 0x7b827d21
    case 0x9 => 0x7f436096
    case 0xa => 0x7200464f
    case 0xb => 0x76c15bf8
    case 0xc => 0x68860bfd
    case 0xd => 0x6c47164a
    case 0xe => 0x61043093
    case _ => 0x65c52d24
  }

  function TabD(l: bv8): bv32 {
    match l
    case 0x0 => 0x119b4be9
    case 0x1 => 0x155a565e
    case 0x2 => 0x18197087
    case 0x3 => 0x1cd86d30
    case 0x4 => 0x029f3d35
    case 0x5 => 0x065e2082
    case 0x6 => 0x0b1d065b
    case 0x7 => 0x0fdc1bec
    case 0x8 => 0x3793a651
    case 0x9 => 0x3352bbe6
    case 0xa => 0x3e119d3f
    case 0xb => 0x3ad08088
    case 0xc => 0x2497d08d
    case 0xd => 0x2056cd3a
    case 0xe => 0x2d15ebe3
    case _ => 0x29d4f654
  }

  function TabE(l: bv8): bv32 {
    match l
    case 0x0 => 0xc5a92679
    case 0x1 => 0xc1683bce
    case 0x2 => 0xcc2b1d17
    case 0x3 => 0xc8ea00a0
    case 0x4 => 0xd6ad50a5
    case 0x5 => 0xd26c4d12
    case 0x6 => 0xdf2f6bcb
    case 0x7 => 0xdbee767c
    case 0x8 => 0xe3a1cbc1
    case 0x9 => 0xe760d676
    case 0xa => 0xea23f0af
    case 0xb => 0xeee2ed18
    case 0xc => 0xf0a5bd1d
    case 0xd => 0xf464a0aa
    case 0xe => 0xf9278673
    case _ => 0xfde69bc4
  }

  function TabF(l: bv8): bv32 {
    match l
    case 0x0 => 0x89b8fd09
    case 0x1 => 0x8d79e0be
    case 0x2 => 0x803ac667
    case 0x3 => 0x84fbdbd0
    case 0x4 => 0x9abc8bd5
    case 0x5 => 0x9e7d9662
    case 0x6 => 0x933eb0bb
    case 0x7 => 0x97ffad0c
    case 0x8 => 0xafb010b1
    case 0x9 => 0xab710d06
    case 0xa => 0xa6322bdf
    case 0xb => 0xa2f33668
    case 0xc => 0xbcb4666d
    case 0xd => 0xb8757bda
    case 0xe => 0xb5365d03
    case _ => 0xb1f740b4
  }

  function Index(crc: bv32, d: bv8): bv8 { ((crc >> 24) as bv8) ^ d }

  /** One turn of the loop of psi_crc32. */
  function TableStep(crc: bv32, d: bv8): bv32 {
    (crc << 8) ^ CrcTab(Index(crc, d))
  }

  /** The register after the bytes of data, in order. */
  function Crc(data: Bytes, crc: bv32): bv32 {
    if data == [] then crc else Crc(data[1..], TableStep(crc, data[0] as bv8))
  }

  method PsiCrc32(data: array<byte>, datalen: nat, init: bv32) returns (crc: bv32)
    requires datalen <= data.Length
    ensures crc == Crc(data[..datalen], init)
  {
    crc := init;
    var i := 0;
    while i < datalen
      invariant i <= datalen
      invariant Crc(data[i..datalen], crc) == Crc(data[..datalen], init)
    {
      assert data[i..datalen][1..] == data[i + 1..datalen];
      crc := TableStep(crc, data[i] as bv8);
      i := i + 1;
    }
  }

  lemma {:induction false} CrcAppend(a: Bytes, b: Bytes, crc: bv32)
    ensures Crc(a + b, crc) == Crc(b, Crc(a, crc))
  {
    if a == [] {
      assert a + b == b;
    } else {
      assert (a + b)[1..] == a[1..] + b;
      CrcAppend(a[1..], b, TableStep(crc, a[0] as bv8));
    }
  }

  // ----- The shift register of ISO/IEC 13818-1, Annex A -----

  /** The bit of weight 2^(31 - i). */
  ghost function Mask(i: nat): bv32
  {
    if i == 0 then 0x80000000 else Mask(i - 1) >> 1
  }

  ghost predicate On(r: bv32, m: bv32) { r & m != 0 }

  /** The thirty-two cells of the register; cell 0 holds the coefficient of x^31. */
  ghost function Cells(r: bv32): (c: seq<bool>)
    ensures |c| == 32
  {
    seq(32, i requires 0 <= i < 32 => On(r, Mask(i)))
  }

  ghost function TopByte(d: bv8): bv32 { (d as bv32) << 24 }

  /** The bits of a byte, most significant first. */
  ghost function ByteBits(d: bv8): (b: seq<bool>)
    ensures |b| == 8
  {
    Cells(TopByte(d))[..8]
  }

  /** The bits of a message in transmission order. */
  ghost function Bits(data: Bytes): (b: seq<bool>)
    ensures |b| == 8 * |data|
  {
    if data == [] then [] else ByteBits(data[0] as bv8) + Bits(data[1..])
  }

  /** The feedback taps: the generator polynomial without x^32. */
  ghost function Generator(): (g: seq<bool>)
    ensures |g| == 32
  {
    Cells(0x04c11db7)
  }

  /** Adds k to the leading coefficients of a, modulo 2. */
  ghost function Add(a: seq<bool>, k: seq<bool>): (s: seq<bool>)
    requires |k| <= |a|
    ensures |s| == |a|
    ensures forall i :: 0 <= i < |a| ==> s[i] == if i < |k| then a[i] != k[i] else a[i]
  {
    seq(|a|, i requires 0 <= i < |a| => if i < |k| then a[i] != k[i] else a[i])
  }

  ghost function Zeros(n: nat): (z: seq<bool>)
    ensures |z| == n && forall i :: 0 <= i < n ==> !z[i]
  {
    seq(n, i => false)
  }

  /** One message bit enters the register. */
  ghost function Step(c: seq<bool>, b: bool): (c': seq<bool>)
    requires |c| == 32
    ensures |c'| == 32
  {
    var up := c[1..] + [false];
    if c[0] != b then Add(up, Generator()) else up
  }

  ghost function Run(bits: seq<bool>, c: seq<bool>): (c': seq<bool>)
    requires |c| == 32
    ensures |c'| == 32
  {
    if bits == [] then c else Run(bits[1..], Step(c, bits[0]))
  }

  // ----- The table holds eight steps of the register for each byte -----

  ghost function Shift(r: bv32): bv32 {
    if On(r, 0x80000000) then (r << 1) ^ 0x04c11db7 else r << 1
  }

  ghost function ShiftN(r: bv32, n: nat): bv32
    decreases n
  {
    if n == 0 then r else ShiftN(Shift(r), n - 1)
  }

  lemma Row0(l: bv8)
    requires l <= 0x0f
    ensures Tab0(l) == ShiftN(((0x00 | l) as bv32) << 24, 8)
  {
  }

  lemma Row1(l: bv8)
    requires l <= 0x0f
    ensures Tab1(l) == ShiftN(((0x10 | l) as bv32) << 24, 8)
  {
  }

  lemma Row2(l: bv8)
    requires l <= 0x0f
    ensures Tab2(l) == ShiftN(((0x20 | l) as bv32) << 24, 8)
  {
  }

  lemma Row3(l: bv8)
    requires l <= 0x0f
    ensures Tab3(l) == ShiftN(((0x30 | l) as bv32) << 24, 8)
  {
  }

  lemma Row4(l: bv8)
    requires l <= 0x0f
    ensures Tab4(l) == ShiftN(((0x40 | l) as bv32) << 24, 8)
  {
  }

  lemma Row5(l: bv8)
    requires l <= 0x0f
    ensures Tab5(l) == ShiftN(((0x50 | l) as bv32) << 24, 8)
  {
  }

  lemma Row6(l: bv8)
    requires l <= 0x0f
    ensures Tab6(l) == ShiftN(((0x60 | l) as bv32) << 24, 8)
  {
  }

  lemma Row7(l: bv8)
    requires l <= 0x0f
    ensures Tab7(l) == ShiftN(((0x70 | l) as bv32) << 24, 8)
  {
  }

  lemma Row8(l: bv8)
    requires l <= 0x0f
    ensures Tab8(l) == ShiftN(((0x80 | l) as bv32) << 24, 8)
  {
  }

  lemma Row9(l: bv8)
    requires l <= 0x0f
    ensures Tab9(l) == ShiftN(((0x90 | l) as bv32) << 24, 8)
  {
  }

  lemma RowA(l: bv8)
    requires l <= 0x0f
    ensures TabA(l) == ShiftN(((0xa0 | l) as bv32) << 24, 8)
  {
  }

  lemma RowB(l: bv8)
    requires l <= 0x0f
    ensures TabB(l) == ShiftN(((0xb0 | l) as bv32) << 24, 8)
  {
  }

  lemma RowC(l: bv8)
    requires l <= 0x0f
    ensures TabC(l) == ShiftN(((0xc0 | l) as bv32) << 24, 8)
  {
  }

  lemma RowD(l: bv8)
    requires l <= 0x0f
    ensures TabD(l) == ShiftN(((0xd0 | l) as bv32) << 24, 8)
  {
  }

  lemma RowE(l: bv8)
    requires l <= 0x0f
    ensures TabE(l) == ShiftN(((0xe0 | l) as bv32) << 24, 8)
  {
  }

  lemma RowF(l: bv8)
    requires l <= 0x0f
    ensures TabF(l) == ShiftN(((0xf0 | l) as bv32) << 24, 8)
  {
  }

  /** Every entry of the table is eight steps of the register on that byte. */
  lemma TableEntry(i: bv8)
    ensures CrcTab(i) == ShiftN(TopByte(i), 8)
  {
    var h, l := i >> 4, i & 0x0f;
    assert i == (h << 4) | l;
    if h == 0x0 { Row0(l); }
    else if h == 0x1 { Row1(l); }
    else if h == 0x2 { Row2(l); }
    else if h == 0x3 { Row3(l); }
    else if h == 0x4 { Row4(l); }
    else if h == 0x5 { Row5(l); }
    else if h == 0x6 { Row6(l); }
    else if h == 0x7 { Row7(l); }
    else if h == 0x8 { Row8(l); }
    else if h == 0x9 { Row9(l); }
    else if h == 0xa { RowA(l); }
    else if h == 0xb { RowB(l); }
    else if h == 0xc { RowC(l); }
    else if h == 0xd { RowD(l); }
    else if h == 0xe { RowE(l); }
    else if h == 0xf { RowF(l); }
  }

  // ----- The cells of xors and shifts -----

  lemma HalfIsSingle(m: bv32)
    requires m & (m - 1) == 0
    ensures (m >> 1) & ((m >> 1) - 1) == 0
  {
  }

  lemma {:induction false} MaskIsSingle(i: nat)
    ensures Mask(i) & (Mask(i) - 1) == 0
  {
    if i > 0 {
      MaskIsSingle(i - 1);
      HalfIsSingle(Mask(i - 1));
    }
  }

  lemma OnXor(x: bv32, y: bv32, m: bv32)
    requires m & (m - 1) == 0
    ensures On(x ^ y, m) == (On(x, m) != On(y, m))
  {
  }

  lemma CellsXor(x: bv32, y: bv32)
    ensures Cells(x ^ y) == Add(Cells(x), Cells(y))
  {
    forall i: nat | i < 32
      ensures Cells(x ^ y)[i] == Add(Cells(x), Cells(y))[i]
    {
      MaskIsSingle(i);
      OnXor(x, y, Mask(i));
    }
  }

  lemma OnDoubled(r: bv32, m: bv32)
    ensures On(r << 1, m) == On(r, m >> 1)
  {
  }

  lemma MaskEnds()
    ensures Mask(31) == 1
  {
    assert Mask(8) == 0x00800000;
    assert Mask(16) == 0x00008000;
    assert Mask(24) == 0x00000080;
  }

  lemma LowBitOfDouble(r: bv32)
    ensures !On(r << 1, 1)
  {
  }

  lemma CellDoubled(r: bv32, i: nat)
    requires i < 32
    ensures On(r << 1, Mask(i)) == (i < 31 && On(r, Mask(i + 1)))
  {
    if i < 31 {
      OnDoubled(r, Mask(i));
    } else {
      MaskEnds();
      LowBitOfDouble(r);
    }
  }

  lemma CellsDoubled(r: bv32)
    ensures Cells(r << 1) == Cells(r)[1..] + [false]
  {
    forall i: nat | i < 32
      ensures Cells(r << 1)[i] == (Cells(r)[1..] + [false])[i]
    {
      CellDoubled(r, i);
    }
  }

  lemma ShiftIsStep(r: bv32)
    ensures Cells(Shift(r)) == Step(Cells(r), false)
  {
    CellsDoubled(r);
    CellsXor(r << 1, 0x04c11db7);
    assert Cells(r)[0] == On(r, 0x80000000);
  }

  lemma {:induction false} ShiftNIsRun(r: bv32, n: nat)
    ensures Cells(ShiftN(r, n)) == Run(Zeros(n), Cells(r))
    decreases n
  {
    if n > 0 {
      ShiftIsStep(r);
      ShiftNIsRun(Shift(r), n - 1);
      assert Zeros(n)[1..] == Zeros(n - 1);
    }
  }

  // ----- psi_crc32 is the shift register -----

  ghost function ShlN(r: bv32, n: nat): bv32
    decreases n
  {
    if n == 0 then r else ShlN(r << 1, n - 1)
  }

  lemma {:induction false} CellsShifted(r: bv32, n: nat)
    requires n <= 32
    ensures Cells(ShlN(r, n)) == Cells(r)[n..] + Zeros(n)
    decreases n
  {
    if n > 0 {
      CellsDoubled(r);
      CellsShifted(r << 1, n - 1);
      assert [false] + Zeros(n - 1) == Zeros(n);
    }
  }

  lemma {:induction false} ShlNAdds(r: bv32, m: nat, n: nat)
    ensures ShlN(ShlN(r, m), n) == ShlN(r, m + n)
    decreases m
  {
    if m > 0 {
      ShlNAdds(r << 1, m - 1, n);
    }
  }

  lemma ByteShift(r: bv32)
    ensures ShlN(r, 8) == r << 8
  {
    var r2 := ShlN(r, 2);
    var r4 := ShlN(r2, 2);
    var r6 := ShlN(r4, 2);
    ShlNAdds(r, 2, 2);
    ShlNAdds(r, 4, 2);
    ShlNAdds(r, 6, 2);
    ShlTwo(r); ShlTwo(r2); ShlTwo(r4); ShlTwo(r6);
    ShlByTwos(r);
  }

  lemma ShlTwo(r: bv32)
    ensures ShlN(r, 2) == r << 2
  {
    assert ShlN(r, 2) == ShlN(r << 1, 1) == ShlN((r << 1) << 1, 0);
  }

  lemma ShlByTwos(r: bv32)
    ensures (((r << 2) << 2) << 2) << 2 == r << 8
  {
  }

  lemma CellsByteShift(r: bv32)
    ensures Cells(r << 8) == Cells(r)[8..] + Zeros(8)
  {
    CellsShifted(r, 8);
    ByteShift(r);
  }

  lemma CellsOfZero()
    ensures Cells(0) == Zeros(32)
  {
  }

  lemma TopByteAlone(d: bv8)
    ensures Cells(TopByte(d)) == ByteBits(d) + Zeros(24)
  {
    var w := TopByte(d);
    CellsByteShift(w);
    assert w << 8 == 0;
    CellsOfZero();
    assert Cells(w)[8..] == (Cells(w)[8..] + Zeros(8))[..24];
  }

  lemma TopMask(i: nat)
    requires i < 8
    ensures Mask(i) & 0x00ffffff == 0
  {
    if i == 0 {} else if i == 1 {} else if i == 2 {} else if i == 3 {}
    else if i == 4 {} else if i == 5 {} else if i == 6 {}
  }

  lemma LowHidden(r: bv32, m: bv32)
    requires m & 0x00ffffff == 0
    ensures !On(r & 0x00ffffff, m)
  {
  }

  lemma LowRegister(r: bv32)
    ensures Cells(r & 0x00ffffff)[..8] == Zeros(8)
  {
    var c := Cells(r & 0x00ffffff);
    forall i: nat | i < 8
      ensures !c[i]
    {
      TopMask(i);
      LowHidden(r, Mask(i));
    }
  }

  lemma SplitRegister(r: bv32, d: bv8)
    ensures r ^ TopByte(d)
         == Low(r) ^ TopByte(Index(r, d))
  {
  }

  lemma {:induction false} RunAdd(c: seq<bool>, d: seq<bool>, n: nat)
    requires |c| == |d| == 32
    ensures Run(Zeros(n), Add(c, d)) == Add(Run(Zeros(n), c), Run(Zeros(n), d))
    decreases n
  {
    if n > 0 {
      assert Zeros(n)[1..] == Zeros(n - 1);
      assert Step(Add(c, d), false) == Add(Step(c, false), Step(d, false));
      RunAdd(Step(c, false), Step(d, false), n - 1);
    }
  }

  /** Nothing is fed back while the leading cells are empty. */
  lemma {:induction false} RunIdle(c: seq<bool>, n: nat)
    requires |c| == 32 && n <= 32 && c[..n] == Zeros(n)
    ensures Run(Zeros(n), c) == c[n..] + Zeros(n)
    decreases n
  {
    if n > 0 {
      assert Zeros(n)[1..] == Zeros(n - 1);
      assert c[0] == Zeros(n)[0];
      var up := c[1..] + [false];
      assert up[..n - 1] == c[..n][1..];
      RunIdle(up, n - 1);
      assert up[n - 1..] == c[n..] + [false];
      assert [false] + Zeros(n - 1) == Zeros(n);
    }
  }

  /** Up to thirty-two bits can be added to the register first and shifted through after. */
  lemma {:induction false} AbsorbBits(bits: seq<bool>, c: seq<bool>)
    requires |c| == 32 && |bits| <= 32
    ensures Run(bits, c) == Run(Zeros(|bits|), Add(c, bits))
  {
    if bits != [] {
      assert Zeros(|bits|)[1..] == Zeros(|bits| - 1);
      assert Step(Add(c, bits), false) == Add(Step(c, bits[0]), bits[1..]);
      AbsorbBits(bits[1..], Step(c, bits[0]));
    }
  }

  /** The part of the register a table step only moves. */
  ghost function Low(r: bv32): bv32 { r & 0x00ffffff }

  lemma CellsSplit(r: bv32, d: bv8)
    ensures Add(Cells(r), Cells(TopByte(d))) == Add(Cells(Low(r)), Cells(TopByte(Index(r, d))))
  {
    SplitRegister(r, d);
    SameSum(r, TopByte(d), Low(r), TopByte(Index(r, d)));
  }

  lemma SameSum(a: bv32, b: bv32, c: bv32, d: bv32)
    requires a ^ b == c ^ d
    ensures Add(Cells(a), Cells(b)) == Add(Cells(c), Cells(d))
  {
    CellsXor(a, b);
    CellsXor(c, d);
  }

  lemma LowRuns(r: bv32)
    ensures Run(Zeros(8), Cells(Low(r))) == Cells(r << 8)
  {
    LowRegister(r);
    RunIdle(Cells(Low(r)), 8);
    CellsByteShift(Low(r));
    LowShifted(r);
  }

  lemma TableRuns(i: bv8)
    ensures Cells(CrcTab(i)) == Run(Zeros(8), Cells(TopByte(i)))
  {
    TableEntry(i);
    ShiftNIsRun(TopByte(i), 8);
  }

  /** The step puts together the two parts of the register, each shifted eight times. */
  lemma StepFromParts(r: bv32, d: bv8, low: bv32, top: bv32, moved: bv32, entry: bv32)
    requires Add(Cells(r), Cells(TopByte(d))) == Add(Cells(low), Cells(top))
    requires Cells(moved) == Run(Zeros(8), Cells(low))
    requires Cells(entry) == Run(Zeros(8), Cells(top))
    ensures Cells(moved ^ entry) == Run(ByteBits(d), Cells(r))
  {
    AbsorbBits(ByteBits(d), Cells(r));
    TopByteAlone(d);
    assert Add(Cells(r), ByteBits(d)) == Add(Cells(r), Cells(TopByte(d)));
    RunAdd(Cells(low), Cells(top), 8);
    CellsXor(moved, entry);
  }

  lemma ByteEntersAt(r: bv32, d: bv8, i: bv8, moved: bv32, entry: bv32)
    requires i == Index(r, d) && moved == r << 8 && entry == CrcTab(i)
    ensures Cells(moved ^ entry) == Run(ByteBits(d), Cells(r))
  {
    CellsSplit(r, d);
    LowRuns(r);
    TableRuns(i);
    StepFromParts(r, d, Low(r), TopByte(i), moved, entry);
  }

  /** One step through the table is eight steps of the register on the bits of the byte. */
  lemma ByteEnters(r: bv32, d: bv8)
    ensures Cells(TableStep(r, d)) == Run(ByteBits(d), Cells(r))
  {
    ByteEntersAt(r, d, Index(r, d), r << 8, CrcTab(Index(r, d)));
  }

  lemma LowShifted(r: bv32)
    ensures (r & 0x00ffffff) << 8 == r << 8
  {
  }

  lemma {:induction false} RunAppend(a: seq<bool>, b: seq<bool>, c: seq<bool>)
    requires |c| == 32
    ensures Run(a + b, c) == Run(b, Run(a, c))
  {
    if a == [] {
      assert a + b == b;
    } else {
      assert (a + b)[1..] == a[1..] + b;
      RunAppend(a[1..], b, Step(c, a[0]));
    }
  }

  /** The loop of psi_crc32 computes what the shift register computes bit by bit. */
  lemma {:induction false} TableRefinesRegister(data: Bytes, r: bv32)
    ensures Cells(Crc(data, r)) == Run(Bits(data), Cells(r))
  {
    if data != [] {
      ByteEnters(r, data[0] as bv8);
      RunAppend(ByteBits(data[0] as bv8), Bits(data[1..]), Cells(r));
      TableRefinesRegister(data[1..], TableStep(r, data[0] as bv8));
    }
  }

  // ----- The shift register divides polynomials -----

  /** Long division over GF(2): the remainder of p modulo the generator polynomial. */
  ghost function Remainder(p: seq<bool>): (r: seq<bool>)
    requires |p| >= 32
    ensures |r| == 32
    decreases |p|
  {
    if |p| == 32 then p
    else if p[0] then Remainder(Add(p[1..], Generator()))
    else Remainder(p[1..])
  }

  /**
   * The register ends with the remainder of the message times x^32, its start value added
   * to the leading coefficients.
   */
  lemma {:induction false} RegisterIsRemainder(bits: seq<bool>, c: seq<bool>)
    requires |c| == 32
    ensures Run(bits, c) == Remainder(Add(bits + Zeros(32), c))
  {
    var p := Add(bits + Zeros(32), c);
    if bits == [] {
      assert p == c;
    } else {
      var c' := Step(c, bits[0]);
      var p' := Add(bits[1..] + Zeros(32), c');
      if p[0] {
        assert Add(p[1..], Generator()) == p';
      } else {
        assert p[1..] == p';
      }
      RegisterIsRemainder(bits[1..], c');
    }
  }

  /** psi_crc32 returns the polynomial remainder, for every message and start value. */
  lemma CrcIsRemainder(data: Bytes, r: bv32)
    ensures Cells(Crc(data, r)) == Remainder(Add(Bits(data) + Zeros(32), Cells(r)))
  {
    TableRefinesRegister(data, r);
    RegisterIsRemainder(Bits(data), Cells(r));
  }

  // ----- What the check detects -----

  lemma GeneratorEndsInOne()
    ensures Generator()[31]
  {
    MaskEnds();
  }

  /** No information leaves the register: a step can be undone. */
  lemma StepInjective(c: seq<bool>, d: seq<bool>, b: bool)
    requires |c| == |d| == 32
    requires Step(c, b) == Step(d, b)
    ensures c == d
  {
    GeneratorEndsInOne();
    var g := Generator();
    var s, t := Step(c, b), Step(d, b);
    assert s[31] == (c[0] != b) && t[31] == (d[0] != b);
    forall i | 1 <= i < 32
      ensures c[i] == d[i]
    {
      assert s[i - 1] == if c[0] != b then c[i] != g[i - 1] else c[i];
      assert t[i - 1] == if d[0] != b then d[i] != g[i - 1] else d[i];
    }
  }

  lemma {:induction false} RunInjective(bits: seq<bool>, c: seq<bool>, d: seq<bool>)
    requires |c| == |d| == 32
    requires Run(bits, c) == Run(bits, d)
    ensures c == d
  {
    if bits != [] {
      RunInjective(bits[1..], Step(c, bits[0]), Step(d, bits[0]));
      StepInjective(c, d, bits[0]);
    }
  }

  lemma AddInjective(c: seq<bool>, a: seq<bool>, b: seq<bool>)
    requires |a| == |b| <= |c| && Add(c, a) == Add(c, b)
    ensures a == b
  {
    var s, t := Add(c, a), Add(c, b);
    forall i | 0 <= i < |a|
      ensures a[i] == b[i]
    {
      assert s[i] == (c[i] != a[i]) && t[i] == (c[i] != b[i]);
    }
  }

  /**
   * Two messages that differ only inside a window of at most thirty-two bits leave different
   * registers, whatever surrounds the window.
   */
  lemma BurstDetected(before: seq<bool>, a: seq<bool>, b: seq<bool>, after: seq<bool>, c: seq<bool>)
    requires |c| == 32 && |a| == |b| <= 32 && a != b
    ensures Run(before + a + after, c) != Run(before + b + after, c)
  {
    var c' := Run(before, c);
    RunAppend(before + a, after, c);
    RunAppend(before + b, after, c);
    RunAppend(before, a, c);
    RunAppend(before, b, c);
    if Run(before + a + after, c) == Run(before + b + after, c) {
      RunInjective(after, Run(a, c'), Run(b, c'));
      AbsorbBits(a, c');
      AbsorbBits(b, c');
      RunInjective(Zeros(|a|), Add(c', a), Add(c', b));
      AddInjective(c', a, b);
    }
  }

  lemma {:induction false} BitsAppend(a: Bytes, b: Bytes)
    ensures Bits(a + b) == Bits(a) + Bits(b)
  {
    if a == [] {
      assert a + b == b;
    } else {
      assert (a + b)[1..] == a[1..] + b;
      BitsAppend(a[1..], b);
    }
  }

  lemma CellsInjective(x: bv32, y: bv32)
    requires Cells(x) == Cells(y)
    ensures x == y
  {
    assert Cells(x ^ y) == Zeros(32) by {
      CellsXor(x, y);
    }
    forall i: nat | i < 32
      ensures !On(x ^ y, Mask(i))
    {
      assert Cells(x ^ y)[i] == On(x ^ y, Mask(i));
    }
    NoBits(x ^ y, 32);
    UpperAll();
    XorZero(x, y);
  }

  lemma XorZero(x: bv32, y: bv32)
    requires (x ^ y) & 0xffffffff == 0
    ensures x == y
  {
  }

  /** All the bits from place 32 - n up. */
  ghost function Upper(n: nat): bv32 {
    if n == 0 then 0 else Upper(n - 1) | Mask(n - 1)
  }

  lemma {:induction false} NoBits(z: bv32, n: nat)
    requires forall i: nat | i < n :: !On(z, Mask(i))
    ensures z & Upper(n) == 0
  {
    if n > 0 {
      NoBits(z, n - 1);
      AndOr(z, Upper(n - 1), Mask(n - 1));
    }
  }

  lemma AndOr(z: bv32, a: bv32, b: bv32)
    requires z & a == 0 && z & b == 0
    ensures z & (a | b) == 0
  {
  }

  lemma UpperAll()
    ensures Upper(32) == 0xffffffff
  {
    assert Upper(8) == 0xff000000 && Mask(8) == 0x00800000;
    assert Upper(16) == 0xffff0000 && Mask(16) == 0x00008000;
    assert Upper(24) == 0xffffff00 && Mask(24) == 0x00000080;
  }

  lemma ByteBitsInjective(x: bv8, y: bv8)
    requires ByteBits(x) == ByteBits(y)
    ensures x == y
  {
    TopByteAlone(x);
    TopByteAlone(y);
    CellsInjective(TopByte(x), TopByte(y));
    TopByteInjective(x, y);
  }

  lemma TopByteInjective(x: bv8, y: bv8)
    requires TopByte(x) == TopByte(y)
    ensures x == y
  {
  }

  lemma {:induction false} BitsInjective(a: Bytes, b: Bytes)
    requires |a| == |b| && Bits(a) == Bits(b)
    ensures a == b
  {
    if a != [] {
      var x, y := a[0] as bv8, b[0] as bv8;
      assert ByteBits(x) == Bits(a)[..8] == Bits(b)[..8] == ByteBits(y);
      ByteBitsInjective(x, y);
      RoundTrip(a[0]);
      RoundTrip(b[0]);
      assert Bits(a[1..]) == Bits(a)[8..] && Bits(b[1..]) == Bits(b)[8..];
      BitsInjective(a[1..], b[1..]);
      assert a == [a[0]] + a[1..] && b == [b[0]] + b[1..];
    }
  }

  /** Any change to at most four consecutive bytes changes the result of psi_crc32. */
  lemma CorruptionDetected(before: Bytes, a: Bytes, b: Bytes, after: Bytes, r: bv32)
    requires |a| == |b| <= 4 && a != b
    ensures Crc(before + a + after, r) != Crc(before + b + after, r)
  {
    TableRefinesRegister(before + a + after, r);
    TableRefinesRegister(before + b + after, r);
    BitsAppend(before + a, after);
    BitsAppend(before + b, after);
    BitsAppend(before, a);
    BitsAppend(before, b);
    if Bits(a) == Bits(b) {
      BitsInjective(a, b);
    }
    BurstDetected(Bits(before), Bits(a), Bits(b), Bits(after), Cells(r));
  }

  // ----- Storing the CRC behind the message -----

  /** The low byte of a word. */
  function Octet(w: bv32): bv8 { (w & 0xff) as bv8 }

  /** That byte as it is stored in memory. */
  function LowByte(w: bv32): (b: byte)
    ensures b as bv8 == Octet(w)
  {
    OctetRoundTrip(Octet(w));
    Octet(w) as int
  }

  /** The four bytes put_u32be stores. */
  function U32(x: bv32): (b: Bytes)
    ensures |b| == 4
  {
    [LowByte(x >> 24), LowByte(x >> 16), LowByte(x >> 8), LowByte(x)]
  }

  lemma OctetRoundTrip(v: bv8)
    ensures (v as int) as bv8 == v
  {
  }

  lemma OnTop(a: bv32, b: bv32, m: bv32)
    requires a & 0xff000000 == b & 0xff000000 && m & 0x00ffffff == 0
    ensures On(a, m) == On(b, m)
  {
  }

  lemma SameTop(a: bv32, b: bv32)
    requires a & 0xff000000 == b & 0xff000000
    ensures Cells(a)[..8] == Cells(b)[..8]
  {
    forall i: nat | i < 8
      ensures Cells(a)[i] == Cells(b)[i]
    {
      TopMask(i);
      OnTop(a, b, Mask(i));
    }
  }

  lemma StoredByte(v: bv8, y: bv32)
    requires TopByte(v) & 0xff000000 == y & 0xff000000
    ensures ByteBits(v) == Cells(y)[..8]
  {
    SameTop(TopByte(v), y);
  }

  lemma OctetsAtTop(x: bv32)
    ensures TopByte(Octet(x >> 24)) & 0xff000000 == x & 0xff000000
    ensures TopByte(Octet(x >> 16)) & 0xff000000 == (x << 8) & 0xff000000
    ensures TopByte(Octet(x >> 8)) & 0xff000000 == ((x << 8) << 8) & 0xff000000
    ensures TopByte(Octet(x)) & 0xff000000 == (((x << 8) << 8) << 8) & 0xff000000
  {
  }

  lemma StoredBytes(x: bv32)
    ensures ByteBits(Octet(x >> 24)) == Cells(x)[..8]
    ensures ByteBits(Octet(x >> 16)) == Cells(x << 8)[..8]
    ensures ByteBits(Octet(x >> 8)) == Cells((x << 8) << 8)[..8]
    ensures ByteBits(Octet(x)) == Cells(((x << 8) << 8) << 8)[..8]
  {
    OctetsAtTop(x);
    StoredByte(Octet(x >> 24), x);
    StoredByte(Octet(x >> 16), x << 8);
    StoredByte(Octet(x >> 8), (x << 8) << 8);
    StoredByte(Octet(x), ((x << 8) << 8) << 8);
  }

  lemma U32Bits(x: bv32)
    ensures Bits(U32(x)) == Cells(x)
  {
    var x1 := x << 8;
    var x2 := x1 << 8;
    StoredBytes(x);
    CellsByteShift(x);
    CellsByteShift(x1);
    CellsByteShift(x2);
    FourBytes(U32(x));
    FourGroups(Cells(x), Cells(x1), Cells(x2), Cells(x2 << 8));
  }

  lemma BitsFrom(u: Bytes, k: nat)
    requires k < |u|
    ensures Bits(u[k..]) == ByteBits(u[k] as bv8) + Bits(u[k + 1..])
  {
    hide ByteBits;
    assert u[k..][1..] == u[k + 1..];
  }

  lemma FourBytes(u: Bytes)
    requires |u| == 4
    ensures Bits(u) == ByteBits(u[0] as bv8) + ByteBits(u[1] as bv8)
                     + ByteBits(u[2] as bv8) + ByteBits(u[3] as bv8)
  {
    hide Bits, ByteBits;
    BitsFrom(u, 0);
    BitsFrom(u, 1);
    BitsFrom(u, 2);
    BitsFrom(u, 3);
    assert u[0..] == u;
    FourParts(Bits(u[0..]), Bits(u[1..]), Bits(u[2..]), Bits(u[3..]), Bits(u[4..]),
              ByteBits(u[0] as bv8), ByteBits(u[1] as bv8), ByteBits(u[2] as bv8), ByteBits(u[3] as bv8));
  }

  lemma FourParts(b0: seq<bool>, b1: seq<bool>, b2: seq<bool>, b3: seq<bool>, b4: seq<bool>,
                  x0: seq<bool>, x1: seq<bool>, x2: seq<bool>, x3: seq<bool>)
    requires b0 == x0 + b1 && b1 == x1 + b2 && b2 == x2 + b3 && b3 == x3 + b4 && |b4| == 0
    ensures b0 == x0 + x1 + x2 + x3
  {
  }

  lemma FourGroups(c: seq<bool>, c1: seq<bool>, c2: seq<bool>, c3: seq<bool>)
    requires |c| == |c1| == |c2| == |c3| == 32
    requires c1 == c[8..] + Zeros(8) && c2 == c1[8..] + Zeros(8) && c3 == c2[8..] + Zeros(8)
    ensures c == c[..8] + c1[..8] + c2[..8] + c3[..8]
  {
  }

  lemma OwnCrcClears(c: bv32)
    ensures Crc(U32(c), c) == 0
  {
    TableRefinesRegister(U32(c), c);
    U32Bits(c);
    AbsorbBits(Cells(c), Cells(c));
    assert Add(Cells(c), Cells(c)) == Zeros(32);
    RunIdle(Zeros(32), 32);
    CellsOfZero();
    CellsInjective(Crc(U32(c), c), 0);
  }

  /** The check of a message and four more bytes succeeds exactly when those are its CRC. */
  lemma ResidueZeroIff(m: Bytes, t: Bytes, r: bv32)
    requires |t| == 4
    ensures Crc(m + t, r) == 0 <==> t == U32(Crc(m, r))
  {
    var c := Crc(m, r);
    CrcAppend(m, U32(c), r);
    OwnCrcClears(c);
    if t != U32(c) {
      CorruptionDetected(m, t, U32(c), [], r);
      assert m + t + [] == m + t && m + U32(c) + [] == m + U32(c);
    }
  }
}
