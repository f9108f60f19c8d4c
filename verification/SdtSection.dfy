/** create_sdt: the service description section of the output stream. */
module SdtSection {
  import opened Bytes
  import opened Crc32
  import opened Descriptors
  import opened Eit
  import opened Sdt
  import opened Sections

  datatype Service = Service(id: nat, flags: byte, running: nat, free: bool, descriptors: seq<Descriptor>)

  function Loop(s: Bytes, j: nat): Bytes
    requires j + 5 <= |s| && NextEntry(s, j) <= |s|
  {
    s[j + 5..NextEntry(s, j)]
  }

  function ServiceAt(s: Bytes, j: nat): Service
    requires j + 5 <= |s| && NextEntry(s, j) <= |s| && Tiled(Loop(s, j), 0)
  {
    Service(GetU16(s, j), s[j + 2], Quot(s[j + 3] as int, 32), Rem(s[j + 3] as int, 32) < 16,
            Parse(Loop(s, j), 0))
  }

  function Services(s: Bytes, j: nat, end: nat): seq<Service>
    requires end <= |s| && EntriesTiled(s, j, end)
    decreases end - j
  {
    if j == end then [] else [ServiceAt(s, j)] + Services(s, NextEntry(s, j), end)
  }

  predicate HasSdtShape(s: Bytes) {
    15 <= |s| <= SECTION_SIZE && EntriesTiled(s, 11, |s| - 4)
  }

  /** A received table, with the old and the new id of the service it is read for. */
  datatype Source = Source(data: Bytes, service: nat, newService: nat, onid: int)

  // ----- The intended table -----

  /** The descriptors of every matching entry can be rewritten. */
  predicate Usable(src: Source, j: nat, end: nat)
    requires end <= |src.data| && EntriesTiled(src.data, j, end)
    decreases end - j
  {
    j < end ==>
      && (GetU16(src.data, j) == src.service ==>
            && LoopFits(Loop(src.data, j), 0, RecodedNetwork(src.onid))
            && |NamedLoop(Loop(src.data, j), 0, RecodedNetwork(src.onid))| < 0x1000)
      && Usable(src, NextEntry(src.data, j), end)
  }

  predicate IsSource(src: Source) {
    HasSdtShape(src.data) && src.newService < 0x1_0000 && Usable(src, 11, |src.data| - 4)
  }

  predicate AllSources(srcs: seq<Source>) {
    srcs == [] || (IsSource(srcs[0]) && AllSources(srcs[1..]))
  }

  /** One entry as it is wanted: the new id, present/following events, free, names only. */
  function Adapt(s: Service, src: Source): Service
    requires AllServiceFit(s.descriptors, RecodedNetwork(src.onid))
  {
    Service(src.newService, 0xfd, s.running, true, ServicesOnly(s.descriptors, RecodedNetwork(src.onid)))
  }

  /** The matching entries from offset j on, adapted, in order. */
  function Wanted(src: Source, j: nat, end: nat): seq<Service>
    requires end <= |src.data| && EntriesTiled(src.data, j, end) && Usable(src, j, end)
    decreases end - j
  {
    if j == end then []
    else
      var rest := Wanted(src, NextEntry(src.data, j), end);
      if GetU16(src.data, j) == src.service then
        FitsAlike(Loop(src.data, j), 0, RecodedNetwork(src.onid));
        [Adapt(ServiceAt(src.data, j), src)] + rest
      else rest
  }

  function AllWanted(srcs: seq<Source>): seq<Service>
    requires AllSources(srcs)
  {
    if srcs == [] then [] else Wanted(srcs[0], 11, |srcs[0].data| - 4) + AllWanted(srcs[1..])
  }

  /** In every matching entry the prefixes fit the received descriptors. */
  ghost predicate NamesFitIn(src: Source, j: nat, end: nat)
    requires end <= |src.data| && EntriesTiled(src.data, j, end)
    decreases end - j
  {
    j < end ==>
      && (GetU16(src.data, j) == src.service ==> AllNamesFit(Parse(Loop(src.data, j), 0), RecodedNetwork(src.onid)))
      && NamesFitIn(src, NextEntry(src.data, j), end)
  }

  ghost predicate AllNamesFitIn(srcs: seq<Source>)
    requires AllSources(srcs)
  {
    srcs == [] || (NamesFitIn(srcs[0], 11, |srcs[0].data| - 4) && AllNamesFitIn(srcs[1..]))
  }

  // ----- The bytes that are written -----

  function EntryBytes(id: nat, running: nat, loop: Bytes): (e: Bytes)
    requires id < 0x1_0000 && running < 8 && |loop| < 0x1000
    ensures |e| == 5 + |loop|
  {
    U16(id) + [0xfd] + U16(running * 0x2000 + |loop|) + loop
  }

  function AdaptedBytes(src: Source, j: nat): (e: Bytes)
    requires j + 5 <= |src.data| && NextEntry(src.data, j) <= |src.data| && src.newService < 0x1_0000
    requires Tiled(Loop(src.data, j), 0) && LoopFits(Loop(src.data, j), 0, RecodedNetwork(src.onid))
    requires |NamedLoop(Loop(src.data, j), 0, RecodedNetwork(src.onid))| < 0x1000
  {
    TopBits(src.data[j + 3]);
    EntryBytes(src.newService, Quot(src.data[j + 3] as int, 32),
               NamedLoop(Loop(src.data, j), 0, RecodedNetwork(src.onid)))
  }

  lemma TopBits(b: byte)
    ensures Quot(b as int, 32) < 8
  {
    QuotRem(b as int, 32);
  }

  function SourceBytes(src: Source, j: nat, end: nat): Bytes
    requires end <= |src.data| && EntriesTiled(src.data, j, end) && Usable(src, j, end)
    requires src.newService < 0x1_0000
    decreases end - j
  {
    if j == end then []
    else
      (if GetU16(src.data, j) == src.service then AdaptedBytes(src, j) else [])
      + SourceBytes(src, NextEntry(src.data, j), end)
  }

  function AllBytes(srcs: seq<Source>): Bytes
    requires AllSources(srcs)
  {
    if srcs == [] then [] else SourceBytes(srcs[0], 11, |srcs[0].data| - 4) + AllBytes(srcs[1..])
  }

  function SdtBody(tsid: nat, onid: nat, entries: Bytes): (b: Bytes)
    requires tsid < 0x1_0000 && onid < 0x1_0000 && 11 + |entries| + 4 <= SECTION_SIZE
    ensures |b| == 11 + |entries|
  {
    [0x42] + U16(0xe000 + (11 + |entries| + 1)) + U16(tsid) + [0xc3, 0x00, 0x00] + U16(onid) + [0xff] + entries
  }

  // ----- Reading back what was written -----

  lemma EntryFields(id: nat, running: nat, loop: Bytes)
    requires id < 0x1_0000 && running < 8 && |loop| < 0x1000
    ensures var e := EntryBytes(id, running, loop);
            && GetU16(e, 0) == id && e[2] == 0xfd && GetU12(e, 3) == |loop| && e[5..] == loop
            && Quot(e[3] as int, 32) == running && Rem(e[3] as int, 32) < 16
  {
    var b := U16(running * 0x2000 + |loop|);
    FieldOfU16(running * 2, |loop|, b);
    QuotRem(|loop|, 256);
    QuotRem(b[0] as int, 32);
    assert b[0] as int == running * 32 + Quot(|loop|, 256);
  }

  lemma EntryPlaced(b: Bytes, k: nat, e: Bytes, end: nat)
    requires 5 <= |e| && end == k + |e| <= |b| && b[k..end] == e
    ensures GetU16(b, k) == GetU16(e, 0) && b[k + 2] == e[2] && b[k + 3] == e[3]
    ensures GetU12(b, k + 3) == GetU12(e, 3) && b[k + 5..end] == e[5..]
  {
    assert b[k] == e[0] && b[k + 1] == e[1] && b[k + 2] == e[2] && b[k + 3] == e[3] && b[k + 4] == e[4];
  }

  lemma AdaptedRead(src: Source, j: nat, b: Bytes, k: nat, end: nat)
    requires j + 5 <= |src.data| && NextEntry(src.data, j) <= |src.data| && src.newService < 0x1_0000
    requires Tiled(Loop(src.data, j), 0) && LoopFits(Loop(src.data, j), 0, RecodedNetwork(src.onid))
    requires |NamedLoop(Loop(src.data, j), 0, RecodedNetwork(src.onid))| < 0x1000
    requires AllNamesFit(Parse(Loop(src.data, j), 0), RecodedNetwork(src.onid))
    requires end == k + |AdaptedBytes(src, j)| <= |b| && b[k..end] == AdaptedBytes(src, j)
    ensures k + 5 <= NextEntry(b, k) == end && Tiled(Loop(b, k), 0)
    ensures AllServiceFit(Parse(Loop(src.data, j), 0), RecodedNetwork(src.onid))
    ensures ServiceAt(b, k) == Adapt(ServiceAt(src.data, j), src)
  {
    var loop := NamedLoop(Loop(src.data, j), 0, RecodedNetwork(src.onid));
    var running := Quot(src.data[j + 3] as int, 32);
    TopBits(src.data[j + 3]);
    NamedLoopParse(Loop(src.data, j), 0, RecodedNetwork(src.onid));
    EntryFields(src.newService, running, loop);
    EntryPlaced(b, k, AdaptedBytes(src, j), end);
  }

  lemma ServicesFront(b: Bytes, k: nat, k': nat, endB: nat)
    requires k + 5 <= k' <= endB <= |b| && NextEntry(b, k) == k' && Tiled(Loop(b, k), 0)
    requires EntriesTiled(b, k', endB)
    ensures EntriesTiled(b, k, endB)
    ensures Services(b, k, endB) == [ServiceAt(b, k)] + Services(b, k', endB)
  {
  }

  lemma MatchingEntry(src: Source, j: nat, end: nat)
    requires j < end <= |src.data| && EntriesTiled(src.data, j, end) && Usable(src, j, end)
    requires src.newService < 0x1_0000 && GetU16(src.data, j) == src.service
    ensures Tiled(Loop(src.data, j), 0) && LoopFits(Loop(src.data, j), 0, RecodedNetwork(src.onid))
    ensures |NamedLoop(Loop(src.data, j), 0, RecodedNetwork(src.onid))| < 0x1000
    ensures AllServiceFit(Parse(Loop(src.data, j), 0), RecodedNetwork(src.onid))
    ensures SourceBytes(src, j, end)
         == AdaptedBytes(src, j) + SourceBytes(src, NextEntry(src.data, j), end)
    ensures Wanted(src, j, end)
         == [Adapt(ServiceAt(src.data, j), src)] + Wanted(src, NextEntry(src.data, j), end)
  {
    FitsAlike(Loop(src.data, j), 0, RecodedNetwork(src.onid));
  }

  lemma OtherEntry(src: Source, j: nat, end: nat)
    requires j < end <= |src.data| && EntriesTiled(src.data, j, end) && Usable(src, j, end)
    requires src.newService < 0x1_0000 && GetU16(src.data, j) != src.service
    ensures SourceBytes(src, j, end) == SourceBytes(src, NextEntry(src.data, j), end)
    ensures Wanted(src, j, end) == Wanted(src, NextEntry(src.data, j), end)
  {
    assert [] + SourceBytes(src, NextEntry(src.data, j), end) == SourceBytes(src, NextEntry(src.data, j), end);
  }

  lemma Prepend(all: seq<Service>, a: Service, rest: seq<Service>, tail: seq<Service>, ours: seq<Service>)
    requires all == [a] + (rest + tail) && ours == [a] + rest
    ensures all == ours + tail
  {
  }

  lemma {:induction false} SourceRead(src: Source, j: nat, end: nat, b: Bytes, k: nat, m: nat, endB: nat)
    requires end <= |src.data| && EntriesTiled(src.data, j, end) && Usable(src, j, end)
    requires src.newService < 0x1_0000 && NamesFitIn(src, j, end)
    requires k <= m <= endB <= |b| && b[k..m] == SourceBytes(src, j, end) && EntriesTiled(b, m, endB)
    ensures EntriesTiled(b, k, endB)
    ensures Services(b, k, endB) == Wanted(src, j, end) + Services(b, m, endB)
    decreases end - j
  {
    hide Adapt, AllNamesFit, AllServiceFit, Parse, LoopFits, NamedLoop, ServiceAt, RecodedNetwork;
    if j == end {
      assert k == m;
      assert Wanted(src, j, end) == [];
    } else {
      var n := NextEntry(src.data, j);
      if GetU16(src.data, j) == src.service {
        MatchingEntry(src, j, end);
        var k' := k + |AdaptedBytes(src, j)|;
        SplitSlice(b, k, m, AdaptedBytes(src, j), SourceBytes(src, n, end));
        SourceRead(src, n, end, b, k', m, endB);
        AdaptedRead(src, j, b, k, k');
        ServicesFront(b, k, k', endB);
        Prepend(Services(b, k, endB), ServiceAt(b, k), Wanted(src, n, end), Services(b, m, endB), Wanted(src, j, end));
      } else {
        OtherEntry(src, j, end);
        SourceRead(src, n, end, b, k, m, endB);
      }
    }
  }

  /** Reading the written entries gives the wanted services of all sources, in order. */
  lemma {:induction false} AllRead(srcs: seq<Source>, b: Bytes, k: nat, endB: nat)
    requires AllSources(srcs) && AllNamesFitIn(srcs)
    requires k <= endB <= |b| && b[k..endB] == AllBytes(srcs)
    ensures EntriesTiled(b, k, endB) && Services(b, k, endB) == AllWanted(srcs)
  {
    if srcs != [] {
      var first := SourceBytes(srcs[0], 11, |srcs[0].data| - 4);
      var m := k + |first|;
      SplitSlice(b, k, endB, first, AllBytes(srcs[1..]));
      AllRead(srcs[1..], b, m, endB);
      SourceRead(srcs[0], 11, |srcs[0].data| - 4, b, k, m, endB);
    }
  }

  datatype Table = Table(tsid: nat, onid: nat, services: seq<Service>)

  /** A table as a receiver accepts it. */
  predicate IsSdt(t: Bytes) {
    && HasSdtShape(t) && t[0] == 0x42 && GetU12(t, 1) == |t| - 3 && Crc(t, 0xffffffff) == 0
    && Quot(t[1] as int, 16) == 0xe && t[5] == 0xc3 && t[6] == 0 && t[7] == 0 && t[10] == 0xff
  }

  function ReadSdt(t: Bytes): Table
    requires HasSdtShape(t)
  {
    Table(GetU16(t, 3), GetU16(t, 8), Services(t, 11, |t| - 4))
  }

  lemma SdtFields(tsid: nat, onid: nat, entries: Bytes, t: Bytes, end: nat)
    requires tsid < 0x1_0000 && onid < 0x1_0000 && 11 + |entries| + 4 <= SECTION_SIZE
    requires t == Sealed(SdtBody(tsid, onid, entries)) && end == 11 + |entries|
    ensures |t| == end + 4 && t[0] == 0x42 && GetU12(t, 1) == |t| - 3 && Crc(t, 0xffffffff) == 0
    ensures GetU16(t, 3) == tsid && GetU16(t, 8) == onid && t[11..end] == entries
    ensures Quot(t[1] as int, 16) == 0xe && t[5] == 0xc3 && t[6] == 0 && t[7] == 0 && t[10] == 0xff
  {
    hide Crc, U32;
    HighNibble(0xe, end + 1);
    var body := SdtBody(tsid, onid, entries);
    FieldOfU16(14, end + 1, U16(0xe000 + (end + 1)));
    SealedCrc(body);
    assert t[..end] == body;
    assert t[..11] == t[..end][..11]
        == [0x42] + U16(0xe000 + (end + 1)) + U16(tsid) + [0xc3, 0x00, 0x00] + U16(onid) + [0xff];
    assert t[11..end] == t[..end][11..];
  }

  ghost predicate AllDescriptorsShort(ss: seq<Service>) {
    forall i :: 0 <= i < |ss| ==> AllShort(ss[i].descriptors)
  }

  lemma FrontDescriptorsShort(s: Service, ss: seq<Service>)
    ensures AllDescriptorsShort([s] + ss) <==> AllShort(s.descriptors) && AllDescriptorsShort(ss)
  {
    hide AllShort;
    if AllDescriptorsShort([s] + ss) {
      assert ([s] + ss)[0] == s;
      forall i | 0 <= i < |ss| ensures AllShort(ss[i].descriptors) {
        assert ([s] + ss)[i + 1] == ss[i];
      }
    }
  }

  lemma AppendDescriptorsShort(a: seq<Service>, b: seq<Service>)
    ensures AllDescriptorsShort(a + b) <==> AllDescriptorsShort(a) && AllDescriptorsShort(b)
  {
    hide AllShort;
    if AllDescriptorsShort(a + b) {
      forall i | 0 <= i < |a| ensures AllShort(a[i].descriptors) {
        assert (a + b)[i] == a[i];
      }
      forall i | 0 <= i < |b| ensures AllShort(b[i].descriptors) {
        assert (a + b)[|a| + i] == b[i];
      }
    }
  }

  /** What a receiver reads has short descriptors. */
  lemma {:induction false} ServicesAreShort(s: Bytes, j: nat, end: nat)
    requires end <= |s| && EntriesTiled(s, j, end)
    ensures AllDescriptorsShort(Services(s, j, end))
    decreases end - j
  {
    hide AllShort, AllDescriptorsShort;
    if j < end {
      ServicesAreShort(s, NextEntry(s, j), end);
      ParsedIsShort(Loop(s, j), 0);
      FrontDescriptorsShort(ServiceAt(s, j), Services(s, NextEntry(s, j), end));
    } else {
      NoneShort();
    }
  }

  lemma NoneShort()
    ensures AllDescriptorsShort([])
  {
  }

  lemma AdaptShortIff(src: Source, j: nat)
    requires j + 5 <= |src.data| && NextEntry(src.data, j) <= |src.data| && Tiled(Loop(src.data, j), 0)
    requires AllServiceFit(Parse(Loop(src.data, j), 0), RecodedNetwork(src.onid))
    ensures AllShort(Adapt(ServiceAt(src.data, j), src).descriptors)
        <==> AllNamesFit(Parse(Loop(src.data, j), 0), RecodedNetwork(src.onid))
  {
    hide AllShort, AllNamesFit, ServicesOnly, AllServiceFit;
    ParsedIsShort(Loop(src.data, j), 0);
    ServicesShortIff(Parse(Loop(src.data, j), 0), RecodedNetwork(src.onid));
  }

  lemma {:induction false} WantedShortIff(src: Source, j: nat, end: nat)
    requires end <= |src.data| && EntriesTiled(src.data, j, end) && Usable(src, j, end)
    requires src.newService < 0x1_0000
    ensures AllDescriptorsShort(Wanted(src, j, end)) <==> NamesFitIn(src, j, end)
    decreases end - j
  {
    hide AllShort, AllDescriptorsShort, AllNamesFit, Adapt, AllServiceFit;
    if j < end {
      WantedShortIff(src, NextEntry(src.data, j), end);
      if GetU16(src.data, j) == src.service {
        MatchingEntry(src, j, end);
        AdaptShortIff(src, j);
        FrontDescriptorsShort(Adapt(ServiceAt(src.data, j), src), Wanted(src, NextEntry(src.data, j), end));
      }
    } else {
      NoneShort();
    }
  }

  lemma {:induction false} AllWantedShortIff(srcs: seq<Source>)
    requires AllSources(srcs)
    ensures AllDescriptorsShort(AllWanted(srcs)) <==> AllNamesFitIn(srcs)
  {
    hide AllDescriptorsShort, NamesFitIn, Wanted;
    if srcs != [] {
      var end := |srcs[0].data| - 4;
      WantedShortIff(srcs[0], 11, end);
      AllWantedShortIff(srcs[1..]);
      AppendDescriptorsShort(Wanted(srcs[0], 11, end), AllWanted(srcs[1..]));
    } else {
      NoneShort();
    }
  }

  // ----- What the entries mean -----

  /** The entries of a received table that are for its service. */
  function Matching(src: Source, ss: seq<Service>): seq<Service> {
    if ss == [] then [] else (if ss[0].id == src.service then [ss[0]] else []) + Matching(src, ss[1..])
  }

  /**
   * r is the entry s under its new id, with only present and following events announced, not
   * scrambled, and with the names of s and nothing else.
   */
  ghost predicate Announces(src: Source, s: Service, r: Service) {
    && s.id == src.service && r.id == src.newService && r.flags == 0xfd && r.running == s.running && r.free
    && AllRenamed(s.descriptors, r.descriptors, src.onid == 0x0001 || src.onid == 0x0085)
  }

  ghost predicate AllAnnounce(src: Source, ss: seq<Service>, rs: seq<Service>) {
    |rs| == |ss| && forall i :: 0 <= i < |ss| ==> Announces(src, ss[i], rs[i])
  }

  /** rs are the entries of all received tables that are for their services, in that order. */
  ghost predicate Announced(srcs: seq<Source>, rs: seq<Service>)
    requires AllSources(srcs)
    decreases |srcs|
  {
    if srcs == [] then rs == []
    else
      var ss := Matching(srcs[0], Services(srcs[0].data, 11, |srcs[0].data| - 4));
      && |ss| <= |rs| && AllAnnounce(srcs[0], ss, rs[..|ss|]) && Announced(srcs[1..], rs[|ss|..])
  }

  lemma AdaptAnnounces(src: Source, s: Service)
    requires s.id == src.service && AllServiceFit(s.descriptors, RecodedNetwork(src.onid))
    requires AllNamesFit(s.descriptors, RecodedNetwork(src.onid))
    ensures Announces(src, s, Adapt(s, src))
  {
    hide AllRenamed;
    ServicesRenamed(s.descriptors, RecodedNetwork(src.onid));
  }

  lemma {:induction false} WantedAnnounces(src: Source, j: nat, end: nat)
    requires end <= |src.data| && EntriesTiled(src.data, j, end) && Usable(src, j, end)
    requires src.newService < 0x1_0000 && NamesFitIn(src, j, end)
    ensures AllAnnounce(src, Matching(src, Services(src.data, j, end)), Wanted(src, j, end))
    decreases end - j
  {
    if j < end {
      hide Announces, Adapt, SourceBytes, AdaptedBytes, AllNamesFit, AllServiceFit, Parse, LoopFits, NamedLoop;
      var n := NextEntry(src.data, j);
      WantedAnnounces(src, n, end);
      var s := ServiceAt(src.data, j);
      assert Services(src.data, j, end) == [s] + Services(src.data, n, end);
      if GetU16(src.data, j) == src.service {
        MatchingEntry(src, j, end);
        AdaptAnnounces(src, s);
      } else {
        OtherEntry(src, j, end);
      }
    }
  }

  lemma {:induction false} AllWantedAnnounced(srcs: seq<Source>)
    requires AllSources(srcs) && AllNamesFitIn(srcs)
    ensures Announced(srcs, AllWanted(srcs))
  {
    if srcs != [] {
      hide AllAnnounce, Wanted;
      var src := srcs[0];
      var a, rest := Wanted(src, 11, |src.data| - 4), AllWanted(srcs[1..]);
      WantedAnnounces(src, 11, |src.data| - 4);
      AllWantedAnnounced(srcs[1..]);
      AnnounceSizes(src, Matching(src, Services(src.data, 11, |src.data| - 4)), a);
      assert (a + rest)[..|a|] == a && (a + rest)[|a|..] == rest;
    }
  }

  lemma AnnounceSizes(src: Source, ss: seq<Service>, rs: seq<Service>)
    requires AllAnnounce(src, ss, rs)
    ensures |ss| == |rs|
  {
  }

  /**
   * A receiver reads exactly the adapted entries of all services, in service order, if and only
   * if in all matching entries the prefixes fit the received service descriptors; and then these
   * announce the services as they were received, under their new ids.
   */
  lemma BuiltSdtRead(tsid: nat, onid: nat, srcs: seq<Source>)
    requires tsid < 0x1_0000 && onid < 0x1_0000 && AllSources(srcs)
    requires 11 + |AllBytes(srcs)| + 4 <= SECTION_SIZE
    ensures var t := Sealed(SdtBody(tsid, onid, AllBytes(srcs)));
            t[0] == 0x42 && GetU12(t, 1) == |t| - 3 && Crc(t, 0xffffffff) == 0
    ensures var t := Sealed(SdtBody(tsid, onid, AllBytes(srcs)));
            (IsSdt(t) && ReadSdt(t) == Table(tsid, onid, AllWanted(srcs))) <==> AllNamesFitIn(srcs)
    ensures AllNamesFitIn(srcs) ==>
              var t := Sealed(SdtBody(tsid, onid, AllBytes(srcs)));
              IsSdt(t) && Announced(srcs, ReadSdt(t).services)
  {
    hide Crc, AllDescriptorsShort, AllNamesFitIn, AllWanted, AllBytes, Sealed, Services, EntriesTiled, Announced;
    var entries := AllBytes(srcs);
    var end := 11 + |entries|;
    var t := Sealed(SdtBody(tsid, onid, entries));
    SdtFields(tsid, onid, entries, t, end);
    AllWantedShortIff(srcs);
    if AllNamesFitIn(srcs) {
      AllRead(srcs, t, 11, end);
      AllWantedAnnounced(srcs);
    } else if HasSdtShape(t) {
      ServicesAreShort(t, 11, end);
    }
  }

  // ----- create_sdt -----

  lemma EntryPieces(b: Bytes, i: nat, id: Bytes, flags: byte, loop: Bytes, len: Bytes, p: nat)
    requires |id| == 2 && |len| == 2 && p == i + 5 && p + |loop| <= |b|
    ensures Store(Store(Store(Store(b, i, id), i + 2, [flags]), p, loop), i + 3, len)
         == Store(b, i, id + [flags] + len + loop)
  {
    hide Store;
    StoreNext(b, i, id, [flags]);
    StoreBefore(Store(b, i, id + [flags]), i + 3, len, loop);
    StoreNext(b, i, id + [flags], len + loop);
    AppendAssociative(id + [flags], len, loop);
  }

  /** The entry for one matching service: the loop length is filled in last. */
  method PutEntry(buf: array<byte>, i: nat, id: nat, running: nat, src: Bytes, onid: int) returns (n: nat)
    requires id < 0x1_0000 && running < 8 && Tiled(src, 0) && LoopFits(src, 0, RecodedNetwork(onid))
    requires |NamedLoop(src, 0, RecodedNetwork(onid))| < 0x1000
    requires i + 5 + |NamedLoop(src, 0, RecodedNetwork(onid))| <= buf.Length
    modifies buf
    ensures n == 5 + |NamedLoop(src, 0, RecodedNetwork(onid))|
    ensures buf[..] == Store(old(buf[..]), i, EntryBytes(id, running, NamedLoop(src, 0, RecodedNetwork(onid))))
  {
    ghost var before, loop := buf[..], NamedLoop(src, 0, RecodedNetwork(onid));
    var p := i + 5;
    MemCpy(buf, i, U16(id));
    MemCpy(buf, i + 2, [0xfd]);
    var size := CopySdtDescriptors(buf, p, src, onid);
    MemCpy(buf, i + 3, U16(running * 0x2000 + size));
    EntryPieces(before, i, U16(id), 0xfd, loop, U16(running * 0x2000 + size), p);
    n := 5 + size;
  }

  method PutMatching(buf: array<byte>, i: nat, src: Source, j: nat) returns (n: nat)
    requires j + 5 <= |src.data| && NextEntry(src.data, j) <= |src.data| && src.newService < 0x1_0000
    requires Tiled(Loop(src.data, j), 0) && LoopFits(Loop(src.data, j), 0, RecodedNetwork(src.onid))
    requires |NamedLoop(Loop(src.data, j), 0, RecodedNetwork(src.onid))| < 0x1000
    requires i + |AdaptedBytes(src, j)| <= buf.Length
    modifies buf
    ensures n == |AdaptedBytes(src, j)|
    ensures buf[..] == Store(old(buf[..]), i, AdaptedBytes(src, j))
  {
    TopBits(src.data[j + 3]);
    var runningStatus := Quot(src.data[j + 3] as int, 32);
    n := PutEntry(buf, i, src.newService, runningStatus, Loop(src.data, j), src.onid);
  }

  /** Of all the bytes to write for a source, done are written when the loop has come to offset j. */
  ghost predicate Written(src: Source, j: nat, end: nat, done: Bytes, all: Bytes) {
    && j <= end <= |src.data| && src.newService < 0x1_0000
    && EntriesTiled(src.data, j, end) && Usable(src, j, end)
    && all == done + SourceBytes(src, j, end)
  }

  lemma WrittenTurn(src: Source, j: nat, end: nat, done: Bytes, all: Bytes) returns (piece: Bytes)
    requires Written(src, j, end, done, all) && j < end
    ensures j + 5 <= end && NextEntry(src.data, j) <= end && Tiled(Loop(src.data, j), 0)
    ensures GetU16(src.data, j) == src.service ==>
              && LoopFits(Loop(src.data, j), 0, RecodedNetwork(src.onid))
              && |NamedLoop(Loop(src.data, j), 0, RecodedNetwork(src.onid))| < 0x1000
              && piece == AdaptedBytes(src, j)
    ensures GetU16(src.data, j) != src.service ==> piece == []
    ensures |done| + |piece| <= |all|
    ensures Written(src, NextEntry(src.data, j), end, done + piece, all)
  {
    piece := if GetU16(src.data, j) == src.service then AdaptedBytes(src, j) else [];
    AppendAssociative(done, piece, SourceBytes(src, NextEntry(src.data, j), end));
  }

  lemma WrittenAll(src: Source, end: nat, done: Bytes, all: Bytes)
    requires Written(src, end, end, done, all)
    ensures done == all
  {
    assert done + [] == done;
  }

  /** One turn of the inner loop of create_sdt: the entry at offset j is adapted or skipped. */
  method PutOrSkip(buf: array<byte>, i: nat, src: Source, j: nat, ghost before: Bytes, ghost at: nat,
                   ghost done: Bytes, ghost piece: Bytes)
    returns (n: nat)
    requires j + 5 <= |src.data| && NextEntry(src.data, j) <= |src.data| && Tiled(Loop(src.data, j), 0)
    requires src.newService < 0x1_0000
    requires GetU16(src.data, j) == src.service ==>
              && LoopFits(Loop(src.data, j), 0, RecodedNetwork(src.onid))
              && |NamedLoop(Loop(src.data, j), 0, RecodedNetwork(src.onid))| < 0x1000
              && piece == AdaptedBytes(src, j)
    requires GetU16(src.data, j) != src.service ==> piece == []
    requires |before| == buf.Length && i == at + |done| && i + |piece| <= buf.Length
    requires buf[..] == Store(before, at, done)
    modifies buf
    ensures n == |piece| && buf[..] == Store(before, at, done + piece)
  {
    hide AdaptedBytes, NamedLoop, LoopFits, Tiled;
    StoreNext(before, at, done, piece);
    n := 0;
    var serviceId := GetU16(src.data, j);
    if serviceId == src.service {
      n := PutMatching(buf, i, src, j);
    } else {
      assert done + piece == done;
    }
  }

  /** The inner loop of create_sdt: the entries of one service's table. */
  method PutSource(buf: array<byte>, i: nat, src: Source) returns (n: nat)
    requires IsSource(src)
    requires i + |SourceBytes(src, 11, |src.data| - 4)| <= buf.Length
    modifies buf
    ensures n == |SourceBytes(src, 11, |src.data| - 4)|
    ensures buf[..] == Store(old(buf[..]), i, SourceBytes(src, 11, |src.data| - 4))
  {
    var j, p := 11, i;
    ghost var end := |src.data| - 4;
    ghost var before, done: Bytes, all := buf[..], [], SourceBytes(src, 11, end);
    assert before == Store(before, i, []);
    hide Store, Written, AdaptedBytes, NamedLoop, LoopFits, Tiled, SourceBytes;
    while j < |src.data| - 4
      invariant j <= end && Written(src, j, end, done, all) && p == i + |done| <= buf.Length
      invariant buf[..] == Store(before, i, done)
    {
      ghost var piece := WrittenTurn(src, j, end, done, all);
      var size := PutOrSkip(buf, p, src, j, before, i, done, piece);
      p := p + size;
      done := done + piece;
      j := NextEntry(src.data, j);
    }
    WrittenAll(src, end, done, all);
    n := p - i;
  }

  lemma AllBytesFront(srcs: seq<Source>, k: nat)
    requires AllSources(srcs) && k < |srcs|
    ensures AllSources(srcs[k..]) && AllSources(srcs[k + 1..]) && IsSource(srcs[k])
    ensures AllBytes(srcs[k..]) == SourceBytes(srcs[k], 11, |srcs[k].data| - 4) + AllBytes(srcs[k + 1..])
  {
    SourcesFrom(srcs, k);
    assert srcs[k..][1..] == srcs[k + 1..];
  }

  lemma {:induction false} SourcesFrom(srcs: seq<Source>, k: nat)
    requires AllSources(srcs) && k <= |srcs|
    ensures AllSources(srcs[k..])
  {
    if k > 0 {
      SourcesFrom(srcs[1..], k - 1);
      assert srcs[1..][k - 1..] == srcs[k..];
    } else {
      assert srcs[0..] == srcs;
    }
  }

  /** Of all the bytes of the services, done are written when the loop has come to service k. */
  ghost predicate Sourced(srcs: seq<Source>, k: nat, done: Bytes, all: Bytes) {
    && k <= |srcs| && AllSources(srcs[k..])
    && all == done + AllBytes(srcs[k..])
  }

  lemma SourcedNothing(srcs: seq<Source>)
    requires AllSources(srcs)
    ensures Sourced(srcs, 0, [], AllBytes(srcs))
  {
    assert srcs[0..] == srcs;
  }

  lemma SourcedTurn(srcs: seq<Source>, k: nat, done: Bytes, all: Bytes) returns (piece: Bytes)
    requires AllSources(srcs) && Sourced(srcs, k, done, all) && k < |srcs|
    ensures IsSource(srcs[k]) && piece == SourceBytes(srcs[k], 11, |srcs[k].data| - 4)
    ensures |done| + |piece| <= |all| && Sourced(srcs, k + 1, done + piece, all)
  {
    hide SourceBytes;
    AllBytesFront(srcs, k);
    piece := SourceBytes(srcs[k], 11, |srcs[k].data| - 4);
    AppendAssociative(done, piece, AllBytes(srcs[k + 1..]));
  }

  lemma SourcedAll(srcs: seq<Source>, done: Bytes, all: Bytes)
    requires Sourced(srcs, |srcs|, done, all)
    ensures done == all
  {
    assert done + [] == done;
  }

  /** The outer loop of create_sdt. */
  method PutSources(buf: array<byte>, srcs: seq<Source>) returns (i: nat)
    requires AllSources(srcs) && 11 + |AllBytes(srcs)| <= buf.Length
    modifies buf
    ensures i == 11 + |AllBytes(srcs)|
    ensures buf[..] == Store(old(buf[..]), 11, AllBytes(srcs))
  {
    i := 11;
    ghost var before, done: Bytes, all := buf[..], [], AllBytes(srcs);
    assert before == Store(before, 11, []);
    SourcedNothing(srcs);
    hide *;
    for k := 0 to |srcs|
      invariant i == 11 + |done| && Sourced(srcs, k, done, all)
      invariant buf[..] == Store(before, 11, done)
    {
      ghost var piece := SourcedTurn(srcs, k, done, all);
      StoreNext(before, 11, done, piece);
      var n := PutSource(buf, i, srcs[k]);
      done := done + piece;
      i := i + n;
    }
    SourcedAll(srcs, done, all);
  }

  lemma SdtPieces(b: Bytes, c: Bytes, tsid: nat, onid: nat, entries: Bytes, end: nat)
    requires tsid < 0x1_0000 && onid < 0x1_0000 && 11 + |entries| + 4 <= SECTION_SIZE
    requires |b| == SECTION_SIZE && end == 11 + |entries| && c == Store(b, 11, entries)
    requires b[..11] == [0x42, 0x00, 0x00] + U16(tsid) + [0xc3, 0x00, 0x00] + U16(onid) + [0xff]
    ensures Store(c, 1, U16(0xe000 + (end + 1)))[..end] == SdtBody(tsid, onid, entries)
  {
    assert c[..end] == b[..11] + entries;
    assert c[0] == b[..11][0] && c[3..end] == b[..11][3..] + entries;
    assert Store(c, 1, U16(0xe000 + (end + 1)))[..end] == [c[0]] + U16(0xe000 + (end + 1)) + c[3..end];
  }

  method PutSdtHead(buf: array<byte>, tsid: nat, onid: nat)
    requires buf.Length == SECTION_SIZE && tsid < 0x1_0000 && onid < 0x1_0000
    modifies buf
    ensures buf[..11] == [0x42, 0x00, 0x00] + U16(tsid) + [0xc3, 0x00, 0x00] + U16(onid) + [0xff]
  {
    PutFixedFields(buf, U16(tsid), U16(onid));
  }

  method PutFixedFields(buf: array<byte>, tsid: Bytes, onid: Bytes)
    requires buf.Length == SECTION_SIZE && |tsid| == |onid| == 2
    modifies buf
    ensures buf[..11] == [0x42, 0x00, 0x00] + tsid + [0xc3, 0x00, 0x00] + onid + [0xff]
  {
    MemCpy(buf, 0, Fill(SECTION_SIZE, 0));
    buf[0] := 0x42;
    assert buf[..3] == [0x42, 0x00, 0x00];
    PutBehind(buf, 3, tsid);
    PutBehind(buf, 5, [0xc3, 0x00, 0x00]);
    PutBehind(buf, 8, onid);
    PutBehind(buf, 10, [0xff]);
  }

  /** create_sdt */
  method CreateSdt(sdt: Section, tsid: nat, onid: nat, srcs: seq<Source>)
    requires sdt.buf.Length == SECTION_SIZE && tsid < 0x1_0000 && onid < 0x1_0000
    requires AllSources(srcs) && 11 + |AllBytes(srcs)| + 4 <= SECTION_SIZE
    modifies sdt`length, sdt.buf
    ensures sdt.length <= SECTION_SIZE
    ensures sdt.buf[..sdt.length] == Sealed(SdtBody(tsid, onid, AllBytes(srcs)))
  {
    PutSdtHead(sdt.buf, tsid, onid);
    ghost var b := sdt.buf[..];
    var i := PutSources(sdt.buf, srcs);
    SdtPieces(b, sdt.buf[..], tsid, onid, AllBytes(srcs), i);
    MemCpy(sdt.buf, 1, U16(0xe000 + (i + 1)));
    PutCrc(sdt.buf, i);
    sdt.length := i + 4;
  }
}
