/** The service description table: one table built from those of all services. */
module Sdt {
  import opened Bytes
  import opened Crc32
  import opened Descriptors
  import opened Eit
  import opened Sections
  import opened Text

  const SERVICE_DESCRIPTOR: byte := 0x48

  // ----- Service descriptors -----

  /** service_descriptor: service type, provider name, service name. */
  predicate IsServiceDescriptor(b: Bytes) {
    && 3 <= |b| < 256 && 2 + b[1] as int < |b|
    && 3 + b[1] as int + b[2 + b[1] as int] as int <= |b|
  }

  function Provider(b: Bytes): Bytes
    requires IsServiceDescriptor(b)
  {
    TextAt(b, 1)
  }

  function Name(b: Bytes): Bytes
    requires IsServiceDescriptor(b)
  {
    TextAt(b, 2 + b[1] as int)
  }

  /** The descriptor as it is sent. */
  function Relabel(b: Bytes, recode: bool): Bytes
    requires recode ==> IsServiceDescriptor(b)
  {
    if recode then [b[0]] + Recoded(Provider(b)) + Recoded(Name(b)) else b
  }

  /** The descriptor has room for the prefixes of its names. */
  predicate NamesFit(d: Descriptor, recode: bool) {
    recode && d.tag == SERVICE_DESCRIPTOR && IsServiceDescriptor(d.body) ==>
      3 + |Provider(d.body)| + PrefixSize(Provider(d.body)) + |Name(d.body)| + PrefixSize(Name(d.body)) <= 255
  }

  /** Type and names survive; names that are not empty get the prefix. */
  lemma RelabelRead(b: Bytes)
    requires IsServiceDescriptor(b) && NamesFit(Descriptor(SERVICE_DESCRIPTOR, b), true)
    ensures var r := Relabel(b, true);
            && IsServiceDescriptor(r) && r[0] == b[0]
            && Marked(Provider(b), Provider(r)) && Marked(Name(b), Name(r))
  {
    var r := Relabel(b, true);
    var p, n := Recoded(Provider(b)), Recoded(Name(b));
    TwoFields(b[0], p, n, r, 1 + |p|, |r|);
    FieldText(Provider(b));
    FieldText(Name(b));
  }

  lemma TwoFields(kind: byte, p: Bytes, n: Bytes, r: Bytes, q: nat, end: nat)
    requires p != [] && p[0] as int + 1 == |p| && n != [] && n[0] as int + 1 == |n|
    requires r == [kind] + p + n && q == 1 + |p| && end == q + |n| < 256
    ensures IsServiceDescriptor(r) && Provider(r) == p[1..] && Name(r) == n[1..]
  {
    assert r[1] == p[0] && r[q] == n[0];
    assert r[2..q] == p[1..];
    assert r[q + 1..end] == n[1..];
  }

  // ----- Descriptor loops -----

  /** Every service descriptor of the loop can be rewritten. */
  predicate LoopFits(s: Bytes, i: nat, recode: bool)
    requires Tiled(s, i)
    decreases |s| - i
  {
    i < |s| ==>
      && (recode && s[i] == SERVICE_DESCRIPTOR ==> IsServiceDescriptor(At(s, i).body))
      && LoopFits(s, Next(s, i), recode)
  }

  predicate AllServiceFit(ds: seq<Descriptor>, recode: bool) {
    forall i :: 0 <= i < |ds| && recode && ds[i].tag == SERVICE_DESCRIPTOR ==> IsServiceDescriptor(ds[i].body)
  }

  /** Only the service descriptors, relabelled. */
  function ServicesOnly(ds: seq<Descriptor>, recode: bool): seq<Descriptor>
    requires AllServiceFit(ds, recode)
  {
    if ds == [] then []
    else
      (if ds[0].tag == SERVICE_DESCRIPTOR
       then [Descriptor(SERVICE_DESCRIPTOR, Relabel(ds[0].body, recode))] else [])
      + ServicesOnly(ds[1..], recode)
  }

  /** The bytes that are written for the descriptor at offset i. */
  function PieceBytes(s: Bytes, i: nat, recode: bool): (b: Bytes)
    requires i + 2 <= |s| && Next(s, i) <= |s|
    requires recode && s[i] == SERVICE_DESCRIPTOR ==> IsServiceDescriptor(At(s, i).body)
  {
    if s[i] == SERVICE_DESCRIPTOR
    then Encode(Descriptor(SERVICE_DESCRIPTOR, Relabel(At(s, i).body, recode)))
    else []
  }

  function NamedLoop(s: Bytes, i: nat, recode: bool): Bytes
    requires Tiled(s, i) && LoopFits(s, i, recode)
    decreases |s| - i
  {
    if i == |s| then [] else PieceBytes(s, i, recode) + NamedLoop(s, Next(s, i), recode)
  }

  lemma {:induction false} FitsAlike(s: Bytes, i: nat, recode: bool)
    requires Tiled(s, i) && LoopFits(s, i, recode)
    ensures AllServiceFit(Parse(s, i), recode)
    decreases |s| - i
  {
    if i < |s| {
      FitsAlike(s, Next(s, i), recode);
    }
  }

  /** The service descriptors of a loop, as they are. */
  function NamesOf(ds: seq<Descriptor>): seq<Descriptor> {
    if ds == [] then [] else (if ds[0].tag == 0x48 then [ds[0]] else []) + NamesOf(ds[1..])
  }

  /** r is the service descriptor d with its names marked; without recoding it stays as it is. */
  ghost predicate Renamed(d: Descriptor, r: Descriptor, recode: bool) {
    && r.tag == 0x48 == d.tag
    && if recode then
         && IsServiceDescriptor(d.body) && IsServiceDescriptor(r.body) && r.body[0] == d.body[0]
         && Marked(Provider(d.body), Provider(r.body)) && Marked(Name(d.body), Name(r.body))
       else r == d
  }

  /** Of a loop, exactly the service descriptors are left, in order. */
  ghost predicate AllRenamed(ds: seq<Descriptor>, rs: seq<Descriptor>, recode: bool) {
    |rs| == |NamesOf(ds)| && forall i :: 0 <= i < |rs| ==> Renamed(NamesOf(ds)[i], rs[i], recode)
  }

  /** The rewriting of a loop means this and nothing else. */
  lemma {:induction false} ServicesRenamed(ds: seq<Descriptor>, recode: bool)
    requires AllServiceFit(ds, recode) && AllNamesFit(ds, recode)
    ensures AllRenamed(ds, ServicesOnly(ds, recode), recode)
  {
    if ds != [] {
      hide Relabel, NamesFit, Renamed, IsServiceDescriptor;
      assert ds == [ds[0]] + ds[1..];
      FrontFits(ds[0], ds[1..], recode);
      ServicesRenamed(ds[1..], recode);
      if ds[0].tag == SERVICE_DESCRIPTOR {
        RelabelRenamed(ds[0], recode);
      }
    }
  }

  lemma RelabelRenamed(d: Descriptor, recode: bool)
    requires d.tag == SERVICE_DESCRIPTOR && NamesFit(d, recode) && (recode ==> IsServiceDescriptor(d.body))
    ensures Renamed(d, Descriptor(SERVICE_DESCRIPTOR, Relabel(d.body, recode)), recode)
  {
    if recode {
      hide Relabel, Marked;
      RelabelRead(d.body);
    }
  }

  lemma OnlyFront(d: Descriptor, ds: seq<Descriptor>, recode: bool)
    requires AllServiceFit(ds, recode)
    requires recode && d.tag == SERVICE_DESCRIPTOR ==> IsServiceDescriptor(d.body)
    ensures AllServiceFit([d] + ds, recode)
    ensures ServicesOnly([d] + ds, recode)
         == (if d.tag == SERVICE_DESCRIPTOR
             then [Descriptor(SERVICE_DESCRIPTOR, Relabel(d.body, recode))] else [])
            + ServicesOnly(ds, recode)
  {
    assert ([d] + ds)[1..] == ds;
  }

  ghost predicate AllNamesFit(ds: seq<Descriptor>, recode: bool) {
    forall i :: 0 <= i < |ds| ==> NamesFit(ds[i], recode)
  }

  lemma RelabelShortIff(d: Descriptor, recode: bool)
    requires d.tag == SERVICE_DESCRIPTOR && |d.body| < 256 && (recode ==> IsServiceDescriptor(d.body))
    ensures |Relabel(d.body, recode)| < 256 <==> NamesFit(d, recode)
  {
  }

  lemma FrontFits(d: Descriptor, ds: seq<Descriptor>, recode: bool)
    ensures AllNamesFit([d] + ds, recode) <==> NamesFit(d, recode) && AllNamesFit(ds, recode)
  {
    hide NamesFit;
    if AllNamesFit([d] + ds, recode) {
      assert ([d] + ds)[0] == d;
      forall i | 0 <= i < |ds| ensures NamesFit(ds[i], recode) {
        assert ([d] + ds)[i + 1] == ds[i];
      }
    }
  }

  /** The services' descriptors fit their length bytes exactly if the prefixes fit the received ones. */
  lemma {:induction false} ServicesShortIff(ds: seq<Descriptor>, recode: bool)
    requires AllServiceFit(ds, recode) && AllShort(ds)
    ensures AllShort(ServicesOnly(ds, recode)) <==> AllNamesFit(ds, recode)
  {
    if ds != [] {
      ServicesShortIff(ds[1..], recode);
      hide Relabel, NamesFit;
      assert ds == [ds[0]] + ds[1..];
      FrontFits(ds[0], ds[1..], recode);
      if ds[0].tag == SERVICE_DESCRIPTOR {
        RelabelShortIff(ds[0], recode);
        FrontShort(Descriptor(SERVICE_DESCRIPTOR, Relabel(ds[0].body, recode)), ServicesOnly(ds[1..], recode));
      } else {
        OthersFit(ds[0], recode);
        assert [] + ServicesOnly(ds[1..], recode) == ServicesOnly(ds[1..], recode);
      }
    }
  }

  lemma OthersFit(d: Descriptor, recode: bool)
    requires d.tag != SERVICE_DESCRIPTOR
    ensures NamesFit(d, recode)
  {
  }

  lemma {:induction false} NamedLoopParse(s: Bytes, i: nat, recode: bool)
    requires Tiled(s, i) && LoopFits(s, i, recode) && AllNamesFit(Parse(s, i), recode)
    ensures Tiled(NamedLoop(s, i, recode), 0) && AllServiceFit(Parse(s, i), recode)
    ensures Parse(NamedLoop(s, i, recode), 0) == ServicesOnly(Parse(s, i), recode)
    decreases |s| - i
  {
    if i < |s| {
      hide Relabel, NamesFit, IsServiceDescriptor, Encode;
      var n := Next(s, i);
      assert Parse(s, i) == [At(s, i)] + Parse(s, n);
      FrontFits(At(s, i), Parse(s, n), recode);
      NamedLoopParse(s, n, recode);
      OnlyFront(At(s, i), Parse(s, n), recode);
      if s[i] == SERVICE_DESCRIPTOR {
        RelabelShortIff(At(s, i), recode);
        ParseFront(Descriptor(SERVICE_DESCRIPTOR, Relabel(At(s, i).body, recode)), NamedLoop(s, n, recode));
      } else {
        assert [] + NamedLoop(s, n, recode) == NamedLoop(s, n, recode);
      }
    }
  }

  /**
   * The written bytes are a loop again that holds exactly the relabelled service descriptors, if
   * and only if the prefixes fit every received one.
   */
  lemma NamedReadBackIff(s: Bytes, recode: bool)
    requires Tiled(s, 0) && LoopFits(s, 0, recode)
    ensures AllServiceFit(Parse(s, 0), recode)
    ensures (Tiled(NamedLoop(s, 0, recode), 0)
             && Parse(NamedLoop(s, 0, recode), 0) == ServicesOnly(Parse(s, 0), recode))
            <==> AllNamesFit(Parse(s, 0), recode)
  {
    hide ServicesOnly, AllShort, LoopFits, NamedLoop;
    FitsAlike(s, 0, recode);
    ParsedIsShort(s, 0);
    ServicesShortIff(Parse(s, 0), recode);
    if AllNamesFit(Parse(s, 0), recode) {
      NamedLoopParse(s, 0, recode);
    } else if Tiled(NamedLoop(s, 0, recode), 0) {
      ParsedIsShort(NamedLoop(s, 0, recode), 0);
    }
  }

  /** A service descriptor of 250 bytes, with a provider of one byte, that does not come back. */
  function LongServiceDescriptor(): (b: Bytes) {
    [1, 1, 0x41, 246] + Fill(246, 0x42)
  }

  lemma LongServiceDescriptorFails()
    ensures var s := [SERVICE_DESCRIPTOR, 250] + LongServiceDescriptor();
            && Tiled(s, 0) && LoopFits(s, 0, true) && AllServiceFit(Parse(s, 0), true)
            && !(Tiled(NamedLoop(s, 0, true), 0)
                 && Parse(NamedLoop(s, 0, true), 0) == ServicesOnly(Parse(s, 0), true))
  {
    var b := LongServiceDescriptor();
    var s := [SERVICE_DESCRIPTOR, 250] + b;
    assert |b| == 250 && b[1] == 1 && b[3] == 246;
    assert Next(s, 0) == |s| && s[2..] == b && At(s, 0) == Descriptor(SERVICE_DESCRIPTOR, b);
    assert Parse(s, 0) == [Descriptor(SERVICE_DESCRIPTOR, b)];
    assert IsServiceDescriptor(b) && !NamesFit(Parse(s, 0)[0], true);
    NamedReadBackIff(s, true);
  }

  lemma NameSizes(b: Bytes)
    requires IsServiceDescriptor(b)
    ensures |Provider(b)| <= 252 && |Name(b)| <= 252
    ensures Relabel(b, true) == (b[..1] + Recoded(Provider(b))) + Recoded(Name(b))
  {
    assert b[..1] == [b[0]];
  }

  /** The second name, and then the length of the descriptor. */
  method PutName(dst: array<byte>, at: nat, p: nat, name: Bytes, ghost before: Bytes, ghost front: Bytes)
    returns (n: nat)
    requires |name| <= 252 && |before| == dst.Length && p == at + 2 + |front|
    requires p + |Recoded(name)| <= dst.Length && dst[..] == Store(before, at, [SERVICE_DESCRIPTOR, 0] + front)
    modifies dst
    ensures n == 2 + |front| + |Recoded(name)|
    ensures dst[..] == Store(before, at, Encode(Descriptor(SERVICE_DESCRIPTOR, front + Recoded(name))))
  {
    hide Recoded, Encode, Store;
    var size := RecodeText(dst, p, name);
    n := PutLength(dst, at, p + size as int + 1, before, SERVICE_DESCRIPTOR, 0, front, Recoded(name));
  }

  /** The type and the first name. */
  method PutProvider(dst: array<byte>, at: nat, kind: Bytes, name: Bytes) returns (p: nat)
    requires |kind| == 1 && |name| <= 252 && at + 3 + |Recoded(name)| <= dst.Length
    modifies dst
    ensures p == at + 2 + |kind + Recoded(name)|
    ensures dst[..] == Store(old(dst[..]), at, [SERVICE_DESCRIPTOR, 0] + (kind + Recoded(name)))
  {
    hide Recoded, Store;
    StoreNext(dst[..], at, [SERVICE_DESCRIPTOR, 0] + kind, Recoded(name));
    AppendAssociative([SERVICE_DESCRIPTOR, 0], kind, Recoded(name));
    MemCpy(dst, at, [SERVICE_DESCRIPTOR, 0] + kind);
    var size := RecodeText(dst, at + 3, name);
    p := at + 3 + size as int + 1;
  }

  /** The branch of copy_sdt_descriptors that recodes: the length is filled in last. */
  method PutService(dst: array<byte>, at: nat, b: Bytes) returns (n: nat)
    requires IsServiceDescriptor(b) && at + 2 + |Relabel(b, true)| <= dst.Length
    modifies dst
    ensures n == 2 + |Relabel(b, true)|
    ensures dst[..] == Store(old(dst[..]), at, Encode(Descriptor(SERVICE_DESCRIPTOR, Relabel(b, true))))
  {
    NameSizes(b);
    hide Recoded, Encode, Store, Provider, Name, Relabel;
    ghost var before := dst[..];
    var p := PutProvider(dst, at, b[..1], Provider(b));
    n := PutName(dst, at, p, Name(b), before, b[..1] + Recoded(Provider(b)));
  }

  /** Of all the bytes to write, done are written when the loop has come to offset i. */
  ghost predicate Named(src: Bytes, i: nat, recode: bool, done: Bytes, all: Bytes) {
    && i <= |src| && Tiled(src, i) && LoopFits(src, i, recode)
    && all == done + NamedLoop(src, i, recode)
  }

  lemma NamedTurn(src: Bytes, i: nat, recode: bool, done: Bytes, all: Bytes) returns (piece: Bytes)
    requires Named(src, i, recode, done, all) && i < |src|
    ensures i + 2 <= |src| && Next(src, i) <= |src|
    ensures recode && src[i] == SERVICE_DESCRIPTOR ==> IsServiceDescriptor(At(src, i).body)
    ensures piece == PieceBytes(src, i, recode)
    ensures |done| + |piece| <= |all|
    ensures Named(src, Next(src, i), recode, done + piece, all)
  {
    piece := PieceBytes(src, i, recode);
    AppendAssociative(done, piece, NamedLoop(src, Next(src, i), recode));
  }

  lemma NamedAll(src: Bytes, recode: bool, done: Bytes, all: Bytes)
    requires Named(src, |src|, recode, done, all)
    ensures done == all
  {
    assert done + [] == done;
  }

  /** One turn of the loop of copy_sdt_descriptors. */
  method PutPiece(dst: array<byte>, at: nat, src: Bytes, i: nat, recode: bool) returns (n: nat)
    requires i + 2 <= |src| && Next(src, i) <= |src|
    requires recode && src[i] == SERVICE_DESCRIPTOR ==> IsServiceDescriptor(At(src, i).body)
    requires at + |PieceBytes(src, i, recode)| <= dst.Length
    modifies dst
    ensures n == |PieceBytes(src, i, recode)|
    ensures dst[..] == Store(old(dst[..]), at, PieceBytes(src, i, recode))
  {
    n := 0;
    if src[i] == SERVICE_DESCRIPTOR {
      if recode {
        n := PutService(dst, at, At(src, i).body);
      } else {
        EncodeAt(src, i);
        MemCpy(dst, at, src[i..Next(src, i)]);
        n := Next(src, i) - i;
      }
    } else {
      assert dst[..] == Store(dst[..], at, []);
    }
  }

  /** The same, behind the bytes that are already stored from offset at on. */
  method PutNextPiece(dst: array<byte>, ghost before: Bytes, ghost at: nat, ghost done: Bytes, p: nat,
                      src: Bytes, i: nat, recode: bool)
    returns (n: nat)
    requires i + 2 <= |src| && Next(src, i) <= |src|
    requires recode && src[i] == SERVICE_DESCRIPTOR ==> IsServiceDescriptor(At(src, i).body)
    requires |before| == dst.Length && at + |done| == p && p + |PieceBytes(src, i, recode)| <= dst.Length
    requires dst[..] == Store(before, at, done)
    modifies dst
    ensures n == |PieceBytes(src, i, recode)|
    ensures dst[..] == Store(before, at, done + PieceBytes(src, i, recode))
  {
    hide *;
    StoreNext(before, at, done, PieceBytes(src, i, recode));
    n := PutPiece(dst, p, src, i, recode);
  }

  /** copy_sdt_descriptors */
  method CopySdtDescriptors(dst: array<byte>, at: nat, src: Bytes, onid: int) returns (n: nat)
    requires Tiled(src, 0) && LoopFits(src, 0, RecodedNetwork(onid))
    requires at + |NamedLoop(src, 0, RecodedNetwork(onid))| <= dst.Length
    modifies dst
    ensures n == |NamedLoop(src, 0, RecodedNetwork(onid))|
    ensures dst[..] == Store(old(dst[..]), at, NamedLoop(src, 0, RecodedNetwork(onid)))
  {
    var recode := RecodedNetwork(onid);
    var i, p := 0, at;
    ghost var before, done: Bytes, all := dst[..], [], NamedLoop(src, 0, recode);
    assert before == Store(before, at, []);
    hide *;
    while i < |src|
      invariant i <= |src| && Named(src, i, recode, done, all) && p == at + |done| <= dst.Length
      invariant dst[..] == Store(before, at, done)
    {
      ghost var piece := NamedTurn(src, i, recode, done, all);
      var size := PutNextPiece(dst, before, at, done, p, src, i, recode);
      done := done + piece;
      p := p + size;
      i := Next(src, i);
    }
    NamedAll(src, recode, done, all);
    n := p - at;
  }
}
