/** The program map table: PID allocation on reading it, and its rewriting. */
module Pmt {
  import opened Bytes
  import opened Crc32
  import opened Descriptors
  import opened Sections

  // ----- What the bytes of a PMT mean -----

  datatype Stream = Stream(kind: byte, pid: PidValue, descriptors: seq<Descriptor>)

  datatype Program = Program(number: nat, pcrPid: PidValue, info: Bytes, streams: seq<Stream>)

  function StreamAt(s: Bytes, j: nat): Stream
    requires j + 5 <= |s| && NextEntry(s, j) <= |s| && Tiled(s[j + 5..NextEntry(s, j)], 0)
  {
    Stream(s[j], GetU13(s, j + 1), Parse(s[j + 5..NextEntry(s, j)], 0))
  }

  function Streams(s: Bytes, j: nat, end: nat): seq<Stream>
    requires end <= |s| && EntriesTiled(s, j, end)
    decreases end - j
  {
    if j == end then [] else [StreamAt(s, j)] + Streams(s, NextEntry(s, j), end)
  }

  /** Where the stream entries of a PMT begin. */
  function FirstStream(s: Bytes): (i: nat)
    requires |s| >= 16
    ensures 12 <= i
  {
    12 + GetU12(s, 10)
  }

  /** The nested lengths of a PMT agree with each other and with the length of the section. */
  predicate HasPmtShape(s: Bytes) {
    16 <= |s| <= SECTION_SIZE && FirstStream(s) <= |s| - 4
    && EntriesTiled(s, FirstStream(s), |s| - 4)
  }

  function ReadPmt(s: Bytes): Program
    requires HasPmtShape(s)
  {
    Program(GetU16(s, 3), GetU13(s, 8), s[12..FirstStream(s)], Streams(s, FirstStream(s), |s| - 4))
  }

  /**
   * A PMT as a receiver accepts it: table_id, section_length and CRC are right too, the section
   * has the long form and is valid now, it is section 0 of 0, and all reserved bits are set.
   */
  predicate IsPmt(s: Bytes) {
    && HasPmtShape(s) && s[0] == 0x02 && GetU12(s, 1) == |s| - 3 && Crc(s, 0xffffffff) == 0
    && LongAndCurrent(s)
  }

  predicate LongAndCurrent(s: Bytes)
    requires |s| >= 12
  {
    && Quot(s[1] as int, 16) == 0xb && s[5] == 0xc3 && s[6] == 0 && s[7] == 0
    && Quot(s[8] as int, 32) == 7 && Quot(s[10] as int, 16) == 0xf
  }

  // ----- The intended rewriting -----

  /** New PIDs by old PID; zero means that packets with the old PID are dropped. */
  type PidMap = m: seq<PidValue> | |m| == 0x2000 witness seq(0x2000, i => 0)

  /** The streams with a mapped PID, renumbered, without conditional access descriptors. */
  function Renumber(streams: seq<Stream>, m: PidMap): seq<Stream>
  {
    if streams == [] then []
    else
      var s := streams[0];
      (if m[s.pid] == 0 then [] else [Stream(s.kind, m[s.pid], Free(s.descriptors))])
      + Renumber(streams[1..], m)
  }

  // ----- The bytes create_pmt writes -----

  function StreamBytes(kind: byte, pid: PidValue, loop: Bytes): (b: Bytes)
    requires |loop| < 0x1000
    ensures |b| == 5 + |loop|
  {
    [kind] + U16(0xe000 + pid as int) + U16(0xf000 + |loop|) + loop
  }

  /** What is written for the entry at offset j, if its PID is mapped. */
  function EntryBytes(s: Bytes, j: nat, m: PidMap): (b: Bytes)
    requires j + 5 <= |s| && NextEntry(s, j) <= |s|
    requires Tiled(s[j + 5..NextEntry(s, j)], 0)
    ensures |b| <= NextEntry(s, j) - j
  {
    StreamBytes(s[j], m[GetU13(s, j + 1)], FreeBytes(s[j + 5..NextEntry(s, j)], 0))
  }

  /** What the loop of create_pmt writes for the entries from offset j to end. */
  function RenumberBytes(s: Bytes, j: nat, end: nat, m: PidMap): (b: Bytes)
    requires end <= |s| && EntriesTiled(s, j, end)
    ensures |b| <= end - j
    decreases end - j
  {
    if j == end then []
    else
      var n := NextEntry(s, j);
      if m[GetU13(s, j + 1)] == 0 then RenumberBytes(s, n, end, m)
      else EntryBytes(s, j, m) + RenumberBytes(s, n, end, m)
  }

  /** The table up to its CRC, once section_length is filled in. */
  function PmtBody(number: nat, pcrPid: PidValue, info: Bytes, entries: Bytes): (b: Bytes)
    requires number < 0x1_0000 && |info| < 0x1000
    requires 12 + |info| + |entries| + 4 <= SECTION_SIZE
  {
    [0x02] + U16(0xb000 + (9 + |info| + |entries| + 4)) + U16(number) + [0xc3, 0x00, 0x00]
    + U16(0xe000 + pcrPid as int) + U16(0xf000 + |info|) + info + entries
  }

  // ----- Reading back what was written -----

  lemma StreamFields(kind: byte, pid: PidValue, loop: Bytes)
    requires |loop| < 0x1000
    ensures var e := StreamBytes(kind, pid, loop);
            e[0] == kind && GetU13(e, 1) == pid && GetU12(e, 3) == |loop| && e[5..] == loop
  {
    PidOfU16(7, pid, U16(0xe000 + pid as int));
    FieldOfU16(15, |loop|, U16(0xf000 + |loop|));
  }

  lemma StreamPlaced(b: Bytes, k: nat, e: Bytes)
    requires 5 <= |e| && k + |e| <= |b| && b[k..k + |e|] == e
    ensures b[k] == e[0] && GetU13(b, k + 1) == GetU13(e, 1) && GetU12(b, k + 3) == GetU12(e, 3)
    ensures b[k + 5..k + |e|] == e[5..]
  {
    assert b[k] == e[0] && b[k + 1] == e[1] && b[k + 2] == e[2] && b[k + 3] == e[3] && b[k + 4] == e[4];
  }

  lemma StreamBytesRead(b: Bytes, k: nat, kind: byte, pid: PidValue, loop: Bytes)
    requires |loop| < 0x1000 && Tiled(loop, 0)
    requires k + 5 + |loop| <= |b| && b[k..k + 5 + |loop|] == StreamBytes(kind, pid, loop)
    ensures NextEntry(b, k) == k + 5 + |loop| && b[k + 5..NextEntry(b, k)] == loop
    ensures StreamAt(b, k) == Stream(kind, pid, Parse(loop, 0))
  {
    hide StreamBytes, GetU12, GetU13, Parse, Tiled;
    StreamFields(kind, pid, loop);
    StreamPlaced(b, k, StreamBytes(kind, pid, loop));
  }

  /** The first entry is rewritten or skipped, the rest follows. */
  lemma RenumberFront(s: Stream, rest: seq<Stream>, m: PidMap)
    ensures Renumber([s] + rest, m)
         == if m[s.pid] == 0 then Renumber(rest, m)
            else [Stream(s.kind, m[s.pid], Free(s.descriptors))] + Renumber(rest, m)
  {
    assert ([s] + rest)[1..] == rest;
  }

  lemma EntryRead(s: Bytes, j: nat, m: PidMap, b: Bytes, k: nat)
    requires j + 5 <= |s| && NextEntry(s, j) <= |s| && Tiled(s[j + 5..NextEntry(s, j)], 0)
    requires k + |EntryBytes(s, j, m)| <= |b|
    requires b[k..k + |EntryBytes(s, j, m)|] == EntryBytes(s, j, m)
    ensures k + 5 <= NextEntry(b, k) == k + |EntryBytes(s, j, m)|
    ensures Tiled(b[k + 5..NextEntry(b, k)], 0)
    ensures StreamAt(b, k)
         == Stream(s[j], m[GetU13(s, j + 1)], Free(StreamAt(s, j).descriptors))
  {
    var loop := s[j + 5..NextEntry(s, j)];
    FreeBytesParse(loop, 0);
    StreamBytesRead(b, k, s[j], m[GetU13(s, j + 1)], FreeBytes(loop, 0));
  }

  lemma StreamsFront(b: Bytes, k: nat, k': nat, endB: nat)
    requires k + 5 <= k' <= endB <= |b| && NextEntry(b, k) == k' && Tiled(b[k + 5..k'], 0)
    requires EntriesTiled(b, k', endB)
    ensures EntriesTiled(b, k, endB)
    ensures Streams(b, k, endB) == [StreamAt(b, k)] + Streams(b, k', endB)
  {
  }

  lemma DroppedEntry(s: Bytes, j: nat, end: nat, m: PidMap)
    requires j < end <= |s| && EntriesTiled(s, j, end) && m[GetU13(s, j + 1)] == 0
    ensures Renumber(Streams(s, j, end), m) == Renumber(Streams(s, NextEntry(s, j), end), m)
  {
    RenumberFront(StreamAt(s, j), Streams(s, NextEntry(s, j), end), m);
  }

  lemma MappedEntry(s: Bytes, j: nat, end: nat, m: PidMap)
    requires j < end <= |s| && EntriesTiled(s, j, end) && m[GetU13(s, j + 1)] != 0
    ensures Renumber(Streams(s, j, end), m)
         == [Stream(s[j], m[GetU13(s, j + 1)], Free(StreamAt(s, j).descriptors))]
            + Renumber(Streams(s, NextEntry(s, j), end), m)
  {
    RenumberFront(StreamAt(s, j), Streams(s, NextEntry(s, j), end), m);
  }

  /** Reading the written entries gives the intended streams. */
  lemma {:induction false} RenumberBytesRead(s: Bytes, j: nat, end: nat, m: PidMap, b: Bytes, k: nat, endB: nat)
    requires end <= |s| && EntriesTiled(s, j, end)
    requires k <= endB <= |b| && b[k..endB] == RenumberBytes(s, j, end, m)
    ensures EntriesTiled(b, k, endB)
    ensures Streams(b, k, endB) == Renumber(Streams(s, j, end), m)
    decreases end - j
  {
    if j < end {
      var n := NextEntry(s, j);
      if m[GetU13(s, j + 1)] == 0 {
        RenumberBytesRead(s, n, end, m, b, k, endB);
        DroppedEntry(s, j, end, m);
      } else {
        var k' := k + |EntryBytes(s, j, m)|;
        SplitSlice(b, k, endB, EntryBytes(s, j, m), RenumberBytes(s, n, end, m));
        RenumberBytesRead(s, n, end, m, b, k', endB);
        EntryRead(s, j, m, b, k);
        StreamsFront(b, k, k', endB);
        MappedEntry(s, j, end, m);
      }
    }
  }

  // ----- The whole table -----

  lemma PmtHeaderFields(number: nat, pcrPid: PidValue, info: Bytes, entries: Bytes)
    requires number < 0x1_0000 && |info| < 0x1000 && 12 + |info| + |entries| + 4 <= SECTION_SIZE
    ensures var b := PmtBody(number, pcrPid, info, entries);
            && |b| == 12 + |info| + |entries| && b[0] == 0x02 && GetU12(b, 1) == |b| + 1
            && GetU16(b, 3) == number && GetU13(b, 8) == pcrPid && GetU12(b, 10) == |info|
            && b[12..12 + |info|] == info && b[12 + |info|..] == entries && LongAndCurrent(b)
  {
    var len := 9 + |info| + |entries| + 4;
    HighNibble(0xb, len);
    HighNibble(0xf, |info|);
    HighBits(7, pcrPid);
    var b := PmtBody(number, pcrPid, info, entries);
    FieldOfU16(11, len, U16(0xb000 + len));
    PidOfU16(7, pcrPid, U16(0xe000 + pcrPid as int));
    FieldOfU16(15, |info|, U16(0xf000 + |info|));
    assert b[..12] == [0x02] + U16(0xb000 + len) + U16(number) + [0xc3, 0x00, 0x00]
                      + U16(0xe000 + pcrPid as int) + U16(0xf000 + |info|);
  }

  lemma SealedFields(body: Bytes)
    requires |body| >= 12
    ensures var s := Sealed(body);
            && s[0] == body[0] && GetU12(s, 1) == GetU12(body, 1) && GetU16(s, 3) == GetU16(body, 3)
            && GetU13(s, 8) == GetU13(body, 8) && GetU12(s, 10) == GetU12(body, 10)
            && s[..|s| - 4] == body && (LongAndCurrent(body) ==> LongAndCurrent(s))
  {
  }

  /** t is a table with the given fields; its entries are found between k and end. */
  ghost predicate TableFields(t: Bytes, number: nat, pcrPid: PidValue, info: Bytes, k: nat, end: nat) {
    && 16 <= |t| <= SECTION_SIZE && t[0] == 0x02 && GetU12(t, 1) == |t| - 3
    && GetU16(t, 3) == number && GetU13(t, 8) == pcrPid
    && FirstStream(t) == k <= end == |t| - 4 && t[12..k] == info
    && Crc(t, 0xffffffff) == 0 && LongAndCurrent(t)
  }

  lemma BuiltTableFields(number: nat, pcrPid: PidValue, info: Bytes, entries: Bytes, t: Bytes, k: nat, end: nat)
    requires number < 0x1_0000 && |info| < 0x1000 && 12 + |info| + |entries| + 4 <= SECTION_SIZE
    requires t == Sealed(PmtBody(number, pcrPid, info, entries))
    requires k == 12 + |info| && end == k + |entries|
    ensures TableFields(t, number, pcrPid, info, k, end) && t[k..end] == entries
  {
    var body := PmtBody(number, pcrPid, info, entries);
    PmtHeaderFields(number, pcrPid, info, entries);
    SealedFields(body);
    SealedCrc(body);
    assert t[k..end] == t[..|t| - 4][k..];
    assert t[12..k] == t[..|t| - 4][12..k];
  }

  lemma TableRead(t: Bytes, number: nat, pcrPid: PidValue, info: Bytes, k: nat, end: nat)
    requires TableFields(t, number, pcrPid, info, k, end) && EntriesTiled(t, k, end)
    ensures IsPmt(t) && ReadPmt(t) == Program(number, pcrPid, info, Streams(t, k, end))
  {
  }

  /** The section create_pmt has to build from the section s. */
  function Rebuilt(s: Bytes, number: nat, m: PidMap): (t: Bytes)
    requires HasPmtShape(s) && number < 0x1_0000
    ensures |t| <= |s|
  {
    Sealed(PmtBody(number, m[GetU13(s, 8)], s[12..FirstStream(s)],
                   RenumberBytes(s, FirstStream(s), |s| - 4, m)))
  }

  lemma RebuiltEntries(s: Bytes, j: nat, endS: nat, m: PidMap, t: Bytes, number: nat, pcrPid: PidValue,
                       info: Bytes, k: nat, end: nat)
    requires endS <= |s| && EntriesTiled(s, j, endS)
    requires TableFields(t, number, pcrPid, info, k, end)
    requires t[k..end] == RenumberBytes(s, j, endS, m)
    ensures IsPmt(t) && ReadPmt(t) == Program(number, pcrPid, info, Renumber(Streams(s, j, endS), m))
  {
    RenumberBytesRead(s, j, endS, m, t, k, end);
    TableRead(t, number, pcrPid, info, k, end);
  }

  /** The streams with a mapped PID, as they are. */
  function MappedStreams(streams: seq<Stream>, m: PidMap): seq<Stream> {
    if streams == [] then []
    else (if m[streams[0].pid] != 0 then [streams[0]] else []) + MappedStreams(streams[1..], m)
  }

  /** r is the stream s on its new PID, without conditional access descriptors. */
  ghost predicate SameStream(s: Stream, r: Stream, m: PidMap) {
    && r.kind == s.kind && r.pid == m[s.pid]
    && r.descriptors == Free(s.descriptors)
  }

  /** rs are exactly the streams with a mapped PID, in order. */
  ghost predicate SameStreams(streams: seq<Stream>, rs: seq<Stream>, m: PidMap) {
    && |rs| == |MappedStreams(streams, m)|
    && forall i :: 0 <= i < |rs| ==> SameStream(MappedStreams(streams, m)[i], rs[i], m)
  }

  lemma {:induction false} RenumberMeans(streams: seq<Stream>, m: PidMap)
    ensures SameStreams(streams, Renumber(streams, m), m)
  {
    if streams != [] {
      RenumberMeans(streams[1..], m);
    }
  }

  /** Reading the rebuilt table gives the old program with the intended changes and no others. */
  lemma RebuiltPmtRead(s: Bytes, number: nat, m: PidMap)
    requires HasPmtShape(s) && number < 0x1_0000
    ensures IsPmt(Rebuilt(s, number, m)) && HasPmtShape(Rebuilt(s, number, m))
    ensures ReadPmt(Rebuilt(s, number, m))
         == Program(number, m[ReadPmt(s).pcrPid], ReadPmt(s).info, Renumber(ReadPmt(s).streams, m))
    ensures SameStreams(ReadPmt(s).streams, ReadPmt(Rebuilt(s, number, m)).streams, m)
  {
    RenumberMeans(ReadPmt(s).streams, m);
    hide SameStreams;
    var j, endS := FirstStream(s), |s| - 4;
    var pcrPid, info, entries := m[GetU13(s, 8)], s[12..j], RenumberBytes(s, j, endS, m);
    var k := 12 + |info|;
    var end := k + |entries|;
    var t := Rebuilt(s, number, m);
    BuiltTableFields(number, pcrPid, info, entries, t, k, end);
    RebuiltEntries(s, j, endS, m, t, number, pcrPid, info, k, end);
  }

  // ----- Allocation of PIDs -----

  /** The stream types that are carried over. */
  predicate Carried(kind: byte) {
    kind in {0x01, 0x02, 0x80, 0x03, 0x04, 0x06, 0x81, 0x0f, 0x11, 0x1b, 0x24}
  }

  /** The number of streams of a PMT that are carried. */
  function CarriedCount(streams: seq<Stream>): nat {
    if streams == [] then 0 else (if Carried(streams[0].kind) then 1 else 0) + CarriedCount(streams[1..])
  }

  /** Each carried stream gets the next new PID. */
  function Allocate(streams: seq<Stream>, next: nat, m: PidMap): (r: (PidMap, nat))
    requires next + CarriedCount(streams) < 0x2000
    ensures r.1 == next + CarriedCount(streams)
  {
    if streams == [] then (m, next)
    else if Carried(streams[0].kind) then
      Allocate(streams[1..], next + 1, m[streams[0].pid as int := next])
    else Allocate(streams[1..], next, m)
  }

  /** ... and so does the PCR PID, if no carried stream has it. */
  function AllocateAll(p: Program, base: nat, m: PidMap): (r: (PidMap, nat))
    requires base + 1 + CarriedCount(p.streams) < 0x2000
    ensures base < r.1 <= base + 2 + CarriedCount(p.streams)
  {
    var (m1, n1) := Allocate(p.streams, base + 1, m);
    if m1[p.pcrPid] == 0 then (m1[p.pcrPid as int := n1], n1 + 1) else (m1, n1)
  }

  function NoPids(): (m: PidMap)
    ensures forall q :: 0 <= q < 0x2000 ==> m[q] == 0
  {
    seq(0x2000, i => 0)
  }

  ghost predicate HasCarried(streams: seq<Stream>, q: PidValue) {
    exists i :: 0 <= i < |streams| && Carried(streams[i].kind) && streams[i].pid == q
  }

  /** New PIDs come from the range low..high, and no two old PIDs share one. */
  ghost predicate OneToOne(m: PidMap, low: nat, high: nat) {
    && (forall q: PidValue {:trigger m[q]} :: m[q] != 0 ==> low <= m[q] < high)
    && (forall q: PidValue, r: PidValue {:trigger m[q], m[r]} :: m[q] == m[r] != 0 ==> q == r)
  }

  lemma {:induction false} AllocateSound(streams: seq<Stream>, low: nat, next: nat, m: PidMap)
    requires next + CarriedCount(streams) < 0x2000 && 0 < low <= next && OneToOne(m, low, next)
    ensures OneToOne(Allocate(streams, next, m).0, low, Allocate(streams, next, m).1)
    ensures forall q: PidValue {:trigger Allocate(streams, next, m).0[q]} ::
              Allocate(streams, next, m).0[q] != 0 <==> m[q] != 0 || HasCarried(streams, q)
  {
    if streams != [] {
      var s := streams[0];
      var (m', n') := if Carried(s.kind) then (m[s.pid as int := next], next + 1) else (m, next);
      AllocateSound(streams[1..], low, n', m');
      var final := Allocate(streams, next, m).0;
      forall q: PidValue
        ensures final[q] != 0 <==> m[q] != 0 || HasCarried(streams, q)
      {
        assert final[q] != 0 <==> m'[q] != 0 || HasCarried(streams[1..], q);
        if HasCarried(streams[1..], q) {
          var i :| 0 <= i < |streams[1..]| && Carried(streams[1..][i].kind) && streams[1..][i].pid == q;
          assert streams[i + 1] == streams[1..][i];
        }
        if HasCarried(streams, q) && !(Carried(s.kind) && s.pid == q) {
          var i :| 0 <= i < |streams| && Carried(streams[i].kind) && streams[i].pid == q;
          assert streams[1..][i - 1] == streams[i];
        }
      }
    }
  }

  /** A stream of one of the types that are carried over has this PID. */
  ghost predicate OneCarries(streams: seq<Stream>, q: PidValue) {
    exists i :: 0 <= i < |streams| && streams[i].pid == q
      && streams[i].kind in [0x01, 0x02, 0x80, 0x03, 0x04, 0x06, 0x81, 0x0f, 0x11, 0x1b, 0x24]
  }

  /** The map has exactly the PIDs of such streams. */
  ghost predicate MapsStreams(streams: seq<Stream>, m: PidMap) {
    forall q: PidValue {:trigger m[q]} :: m[q] != 0 <==> OneCarries(streams, q)
  }

  /** The map has exactly the PCR PID and the PIDs of such streams. */
  ghost predicate MapsExactly(p: Program, m: PidMap) {
    forall q: PidValue {:trigger m[q]} :: m[q] != 0 <==> q == p.pcrPid || OneCarries(p.streams, q)
  }

  /**
   * The map made for a program: exactly the carried streams and the PCR PID are mapped, the
   * mapping is one to one, and the new PIDs lie above the new PMT PID without gaps to the end.
   */
  lemma AllocationSound(p: Program, base: nat)
    requires base + 1 + CarriedCount(p.streams) < 0x2000
    ensures var (m, n) := AllocateAll(p, base, NoPids());
            && OneToOne(m, base + 1, n)
            && m[p.pcrPid] != 0
            && forall q: PidValue {:trigger m[q]} ::
                 m[q] != 0 <==> q == p.pcrPid || HasCarried(p.streams, q)
    ensures MapsExactly(p, AllocateAll(p, base, NoPids()).0)
  {
    AllocateSound(p.streams, base + 1, base + 1, NoPids());
    MappedIs(p, AllocateAll(p, base, NoPids()).0);
  }

  lemma MappedIs(p: Program, m: PidMap)
    requires forall q: PidValue {:trigger m[q]} :: m[q] != 0 <==> q == p.pcrPid || HasCarried(p.streams, q)
    ensures MapsExactly(p, m)
  {
    forall q: PidValue ensures m[q] != 0 <==> q == p.pcrPid || OneCarries(p.streams, q) {
      MappedKinds(p.streams, q);
    }
  }

  /**
   * New PIDs are given out in the order of the entries: carried stream i gets as many more than
   * the first one as carried streams precede it, unless one with the same PID follows.
   */
  lemma {:induction false} AllocateInOrder(streams: seq<Stream>, next: nat, m: PidMap, i: nat)
    requires next + CarriedCount(streams) < 0x2000 && i < |streams| && Carried(streams[i].kind)
    requires forall j :: i < j < |streams| && Carried(streams[j].kind) ==> streams[j].pid != streams[i].pid
    ensures Allocate(streams, next, m).0[streams[i].pid] as int == next + CarriedCount(streams[..i])
  {
    var s := streams[0];
    var (m', n') := if Carried(s.kind) then (m[s.pid as int := next], next + 1) else (m, next);
    if i == 0 {
      OthersStay(streams[1..], n', m', s.pid);
    } else {
      AllocateInOrder(streams[1..], n', m', i - 1);
      assert streams[..i][1..] == streams[1..][..i - 1];
    }
  }

  lemma {:induction false} OthersStay(streams: seq<Stream>, next: nat, m: PidMap, q: PidValue)
    requires next + CarriedCount(streams) < 0x2000 && !HasCarried(streams, q)
    ensures Allocate(streams, next, m).0[q] == m[q]
  {
    if streams != [] {
      var s := streams[0];
      assert HasCarried(streams[1..], q) ==> HasCarried(streams, q) by {
        assert streams == [s] + streams[1..];
      }
      var (m', n') := if Carried(s.kind) then (m[s.pid as int := next], next + 1) else (m, next);
      OthersStay(streams[1..], n', m', q);
    }
  }

  // ----- The PIDs of all services together -----

  /** new_pmt_pid of service i. */
  function PmtPid(i: nat): nat { (i + 1) * 100 }

  /** The map process_pmt makes for service i, and the first PID it leaves free. */
  function ServiceMap(p: Program, i: nat): (PidMap, nat)
    requires PmtPid(i) + 1 + CarriedCount(p.streams) < 0x2000
  {
    AllocateAll(p, PmtPid(i), NoPids())
  }

  /** How many PIDs a program needs besides that of its PMT: one more if the PCR is not carried. */
  ghost function NewPids(p: Program): nat {
    CarriedCount(p.streams) + if HasCarried(p.streams, p.pcrPid) then 0 else 1
  }

  lemma ServiceMapCounts(p: Program, i: nat)
    requires PmtPid(i) + 1 + CarriedCount(p.streams) < 0x2000
    ensures ServiceMap(p, i).1 == PmtPid(i) + 1 + NewPids(p)
    ensures OneToOne(ServiceMap(p, i).0, PmtPid(i) + 1, PmtPid(i) + 1 + NewPids(p))
  {
    AllocateSound(p.streams, PmtPid(i) + 1, PmtPid(i) + 1, NoPids());
    AllocationSound(p, PmtPid(i));
  }

  /** The PIDs of all services lie below the null PID. */
  ghost predicate InRange(ps: seq<Program>) {
    forall k: nat :: k < |ps| ==> PmtPid(k) + NewPids(ps[k]) < 0x1fff
  }

  /** Every service that is followed by another keeps to ninety-nine PIDs besides its PMT PID. */
  ghost predicate Roomy(ps: seq<Program>) {
    InRange(ps) && forall k: nat :: k < |ps| - 1 ==> NewPids(ps[k]) <= 99
  }

  /**
   * Such services do not meet: every new PID belongs to one old PID of one service, and is no
   * PMT PID of a service, no SI PID and not the null PID.
   */
  lemma OutputPidsDistinct(ps: seq<Program>, i: nat, q: PidValue, j: nat, r: PidValue)
    requires Roomy(ps) && i < |ps| && j < |ps| && ServiceMap(ps[i], i).0[q] != 0
    ensures ServiceMap(ps[i], i).0[q] == ServiceMap(ps[j], j).0[r] <==> i == j && q == r
    ensures forall k: nat :: k < |ps| ==> ServiceMap(ps[i], i).0[q] as int != PmtPid(k)
    ensures 0x12 < 100 * (i + 1) == PmtPid(i) < ServiceMap(ps[i], i).0[q] as int < 0x1fff
  {
    ServiceMapCounts(ps[i], i);
    ServiceMapCounts(ps[j], j);
    var v := ServiceMap(ps[i], i).0[q];
    assert PmtPid(i) < v as int <= PmtPid(i) + NewPids(ps[i]);
    if ServiceMap(ps[j], j).0[r] == v {
      assert PmtPid(j) < v as int <= PmtPid(j) + NewPids(ps[j]);
    }
  }

  ghost predicate Taken(m: PidMap, v: int) {
    exists q :: 0 <= q < |m| && m[q] as int == v
  }

  ghost predicate Onto(m: PidMap, low: nat, high: nat) {
    forall v: int :: low <= v < high ==> Taken(m, v)
  }

  /** No PID is carried twice, and none is mapped yet. */
  ghost predicate Distinct(streams: seq<Stream>, m: PidMap) {
    && (forall i, j :: 0 <= i < j < |streams| && Carried(streams[i].kind) && Carried(streams[j].kind) ==>
          streams[i].pid != streams[j].pid)
    && (forall i :: 0 <= i < |streams| && Carried(streams[i].kind) ==> m[streams[i].pid] == 0)
  }

  lemma OntoNext(m: PidMap, low: nat, next: nat, p: PidValue)
    requires 0 < low <= next < 0x2000 && Onto(m, low, next) && m[p] == 0
    ensures Onto(m[p as int := next], low, next + 1)
  {
    var m': PidMap := m[p as int := next];
    forall v: int | low <= v < next + 1
      ensures Taken(m', v)
    {
      if v == next {
        assert m'[p] as int == v;
      } else {
        assert Taken(m, v);
        var q :| 0 <= q < |m| && m[q] as int == v;
        assert m'[q] as int == v;
      }
    }
  }

  lemma {:induction false} AllocateOnto(streams: seq<Stream>, low: nat, next: nat, m: PidMap)
    requires next + CarriedCount(streams) < 0x2000 && 0 < low <= next
    requires Onto(m, low, next) && Distinct(streams, m)
    ensures Onto(Allocate(streams, next, m).0, low, Allocate(streams, next, m).1)
  {
    if streams != [] {
      if Carried(streams[0].kind) {
        OntoNext(m, low, next, streams[0].pid);
        AllocateOnto(streams[1..], low, next + 1, m[streams[0].pid as int := next]);
      } else {
        AllocateOnto(streams[1..], low, next, m);
      }
    }
  }

  lemma ServiceMapOnto(p: Program, i: nat)
    requires PmtPid(i) + 1 + CarriedCount(p.streams) < 0x2000 && PmtPid(i) + 1 + NewPids(p) <= 0x2000
    requires Distinct(p.streams, NoPids())
    ensures Onto(ServiceMap(p, i).0, PmtPid(i) + 1, PmtPid(i) + 1 + NewPids(p))
  {
    var base := PmtPid(i);
    var (m1, n1) := Allocate(p.streams, base + 1, NoPids());
    ServiceMapCounts(p, i);
    AllocateOnto(p.streams, base + 1, base + 1, NoPids());
    if m1[p.pcrPid] == 0 {
      OntoNext(m1, base + 1, n1, p.pcrPid);
    }
  }

  /**
   * A service whose streams have different PIDs takes the PMT PID of the next service for one of
   * its own if and only if it needs a hundred PIDs or more.
   */
  lemma NextPmtPidTakenIff(p: Program, i: nat)
    requires PmtPid(i) + 1 + CarriedCount(p.streams) < 0x2000 && PmtPid(i) + 1 + NewPids(p) <= 0x2000
    requires Distinct(p.streams, NoPids())
    ensures Taken(ServiceMap(p, i).0, PmtPid(i + 1)) <==> NewPids(p) >= 100
  {
    ServiceMapCounts(p, i);
    ServiceMapOnto(p, i);
  }

  lemma {:induction false} AllCarried(streams: seq<Stream>)
    requires forall k :: 0 <= k < |streams| ==> Carried(streams[k].kind)
    ensures CarriedCount(streams) == |streams|
  {
    if streams != [] {
      AllCarried(streams[1..]);
    }
  }

  /** A program with a hundred video streams, the first of which carries the PCR. */
  function HundredStreams(): (p: Program)
    ensures |p.streams| == 100 && p.pcrPid == 0x100
    ensures forall k :: 0 <= k < 100 ==> p.streams[k] == Stream(0x02, 0x100 + k, [])
    ensures CarriedCount(p.streams) == 100
  {
    AllCarried(seq(100, k requires 0 <= k < 100 => Stream(0x02, 0x100 + k, [])));
    Program(1, 0x100, [], seq(100, k requires 0 <= k < 100 => Stream(0x02, 0x100 + k, [])))
  }

  /** It takes the PMT PID of the service behind it. */
  lemma HundredStreamsCollide(i: nat)
    requires i < 79
    ensures Taken(ServiceMap(HundredStreams(), i).0, PmtPid(i + 1))
  {
    var p := HundredStreams();
    assert p.streams[0].pid == p.pcrPid && Carried(p.streams[0].kind);
    assert Distinct(p.streams, NoPids());
    NextPmtPidTakenIff(p, i);
  }

  /** No two streams of the output share a PID, and none has the PID of a PMT. */
  ghost predicate OnePidEach(ps: seq<Program>)
    requires InRange(ps)
  {
    && (forall i: nat, q: PidValue, j: nat, r: PidValue
          {:trigger ServiceMap(ps[i], i).0[q], ServiceMap(ps[j], j).0[r]} ::
          i < |ps| && j < |ps| && ServiceMap(ps[i], i).0[q] == ServiceMap(ps[j], j).0[r] != 0 ==> i == j && q == r)
    && (forall i: nat, k: nat {:trigger ServiceMap(ps[i], i), PmtPid(k)} ::
          i < |ps| && k < |ps| ==> !Taken(ServiceMap(ps[i], i).0, PmtPid(k)))
  }

  /**
   * All PIDs of the output are different if and only if every service that is followed by
   * another needs at most ninety-nine besides its PMT PID.
   */
  lemma OnePidEachIff(ps: seq<Program>)
    requires InRange(ps) && forall k: nat :: k < |ps| ==> Distinct(ps[k].streams, NoPids())
    ensures OnePidEach(ps) <==> Roomy(ps)
  {
    if Roomy(ps) {
      RoomyMeansOnePidEach(ps);
    } else {
      var k: nat :| k < |ps| - 1 && NewPids(ps[k]) > 99;
      NextPmtPidTakenIff(ps[k], k);
      assert Taken(ServiceMap(ps[k], k).0, PmtPid(k + 1));
    }
  }

  lemma RoomyMeansOnePidEach(ps: seq<Program>)
    requires Roomy(ps)
    ensures OnePidEach(ps)
  {
    hide ServiceMap, HasCarried, CarriedCount;
    forall i: nat, q: PidValue, j: nat, r: PidValue |
        i < |ps| && j < |ps| && ServiceMap(ps[i], i).0[q] == ServiceMap(ps[j], j).0[r] != 0
      ensures i == j && q == r
    {
      OutputPidsDistinct(ps, i, q, j, r);
    }
    forall i: nat, k: nat | i < |ps| && k < |ps| ensures !Taken(ServiceMap(ps[i], i).0, PmtPid(k)) {
      if Taken(ServiceMap(ps[i], i).0, PmtPid(k)) {
        var q :| 0 <= q < |ServiceMap(ps[i], i).0| && ServiceMap(ps[i], i).0[q] as int == PmtPid(k);
        OutputPidsDistinct(ps, i, q, i, q);
      }
    }
  }

  // ----- The program's methods -----

  /** One entry: the header, the descriptors behind it, and then the length between the two. */
  method PutStream(buf: array<byte>, i: nat, kind: byte, pid: PidValue, loop: Bytes) returns (n: nat)
    requires Tiled(loop, 0) && |loop| < 0x1000 && i + 5 + |loop| <= buf.Length
    modifies buf
    ensures n == |FreeBytes(loop, 0)|
    ensures buf[..] == Store(old(buf[..]), i, StreamBytes(kind, pid, FreeBytes(loop, 0)))
  {
    ghost var b, free := buf[..], FreeBytes(loop, 0);
    buf[i] := kind;
    MemCpy(buf, i + 1, U16(0xe000 + pid as int));
    n := CopyPmtDescriptors(buf, i + 5, loop);
    MemCpy(buf, i + 3, U16(0xf000 + n));
    EntryPieces(b, i, kind, U16(0xe000 + pid as int), U16(0xf000 + n), free);
  }

  lemma EntryPieces(b: Bytes, i: nat, kind: byte, pid: Bytes, len: Bytes, free: Bytes)
    requires |pid| == |len| == 2 && i + 5 + |free| <= |b|
    ensures Store(Store(Store(b[i := kind], i + 1, pid), i + 5, free), i + 3, len)
         == Store(b, i, [kind] + pid + len + free)
  {
    hide Store;
    StoreOne(b, i, kind);
    StoreNext(b, i, [kind], pid);
    StoreBefore(Store(b, i, [kind] + pid), i + 3, len, free);
    StoreNext(b, i, [kind] + pid, len + free);
    AppendAssociative([kind] + pid, len, free);
  }

  lemma StoreOne(b: Bytes, i: nat, x: byte)
    requires i < |b|
    ensures b[i := x] == Store(b, i, [x])
  {
  }

  lemma FreshStreams(streams: seq<Stream>, start: nat, before: PidMap)
    requires start + CarriedCount(streams) < 0x2000
    ensures start > 0 && before == NoPids() ==> MapsStreams(streams, Allocate(streams, start, before).0)
  {
    if start > 0 && before == NoPids() {
      AllocateSound(streams, start, start, before);
      forall q: PidValue ensures OneCarries(streams, q) <==> HasCarried(streams, q) {
        MappedKinds(streams, q);
      }
    }
  }

  lemma MappedKinds(streams: seq<Stream>, q: PidValue)
    ensures OneCarries(streams, q) <==> HasCarried(streams, q)
  {
  }

  /** The loop of process_pmt over the stream entries. */
  method MapStreams(pidMap: array<PidValue>, s: Bytes, first: nat, start: nat) returns (newPid: nat)
    requires |s| >= 16 && EntriesTiled(s, first, |s| - 4) && pidMap.Length == 0x2000
    requires start + CarriedCount(Streams(s, first, |s| - 4)) < 0x2000
    modifies pidMap
    ensures Allocate(Streams(s, first, |s| - 4), start, old(pidMap[..])) == (pidMap[..], newPid)
    ensures start > 0 && old(pidMap[..]) == NoPids() ==> MapsStreams(Streams(s, first, |s| - 4), pidMap[..])
  {
    FreshStreams(Streams(s, first, |s| - 4), start, pidMap[..]);
    newPid := start;
    var i := first;
    ghost var end := |s| - 4;
    ghost var all, rest := Streams(s, first, end), Streams(s, first, end);
    StreamsEnd(s, first, end);
    hide *;
    while i < |s| - 4
      invariant first <= i <= end && EntriesTiled(s, i, end) && rest == Streams(s, i, end)
      invariant newPid + CarriedCount(rest) < 0x2000
      invariant Allocate(rest, newPid, pidMap[..]) == Allocate(all, start, old(pidMap[..]))
    {
      StreamsTurn(s, i, end);
      var streamType, pid := s[i], GetU13(s, i + 1);
      AllocateTurn(rest, newPid, pidMap[..]);
      if Carried(streamType) {
        ghost var m: PidMap := pidMap[..];
        pidMap[pid] := newPid;
        assert pidMap[..] == m[pid as int := newPid];
        newPid := newPid + 1;
      }
      rest := rest[1..];
      i := i + 5 + GetU12(s, i + 3);
    }
    StreamsEnd(s, i, end);
    NothingAllocated(newPid, pidMap[..]);
  }

  lemma StreamsEnd(s: Bytes, i: nat, end: nat)
    requires end <= |s| && EntriesTiled(s, i, end)
    ensures i <= end && (i == end ==> Streams(s, i, end) == [])
  {
  }

  lemma NothingAllocated(next: nat, m: PidMap)
    requires next < 0x2000
    ensures CarriedCount([]) == 0 && Allocate([], next, m) == (m, next)
  {
  }

  lemma AllocateTurn(streams: seq<Stream>, next: nat, m: PidMap)
    requires streams != [] && next + CarriedCount(streams) < 0x2000
    ensures CarriedCount(streams) == CarriedCount(streams[1..]) + if Carried(streams[0].kind) then 1 else 0
    ensures Carried(streams[0].kind) ==>
              Allocate(streams, next, m) == Allocate(streams[1..], next + 1, m[streams[0].pid as int := next])
    ensures !Carried(streams[0].kind) ==>
              Allocate(streams, next, m) == Allocate(streams[1..], next, m)
  {
  }

  lemma FreshMap(p: Program, base: nat, before: PidMap, m: PidMap)
    requires base + 1 + CarriedCount(p.streams) < 0x2000 && m == AllocateAll(p, base, before).0
    ensures before == NoPids() ==> MapsExactly(p, m)
  {
    hide AllocateAll, MapsExactly;
    AllocationSound(p, base);
  }

  class Tables {
    const pmt: Section           // as received
    const newPmt: Section        // as sent
    const pidMap: array<PidValue>
    var pcrPid: PidValue
    const newServiceId: nat
    const newPmtPid: nat

    ghost predicate Valid()
      reads this, pmt, newPmt, pmt.buf
    {
      && pmt != newPmt && pmt.buf != newPmt.buf && pidMap.Length == 0x2000
      && pmt.Ready() && newPmt.buf.Length == SECTION_SIZE
      && newServiceId < 0x1_0000 && HasPmtShape(pmt.buf[..pmt.length])
    }

    constructor (pmt: Section, newPmt: Section, newServiceId: nat, newPmtPid: nat)
      requires pmt != newPmt && pmt.buf != newPmt.buf && pmt.Ready() && newPmt.buf.Length == SECTION_SIZE
      requires newServiceId < 0x1_0000 && HasPmtShape(pmt.buf[..pmt.length])
      ensures Valid() && pidMap[..] == NoPids() && fresh(pidMap)
      ensures this.pmt == pmt && this.newPmt == newPmt
      ensures this.newServiceId == newServiceId && this.newPmtPid == newPmtPid
    {
      this.pmt, this.newPmt := pmt, newPmt;
      this.newServiceId, this.newPmtPid := newServiceId, newPmtPid;
      pidMap := new PidValue[0x2000](i => 0);
      pcrPid := 0;
    }

    ghost function Received(): Program
      requires Valid()
      reads this, pmt, newPmt, pmt.buf
    {
      ReadPmt(pmt.buf[..pmt.length])
    }

    /** process_pmt: gives every carried stream, and the PCR PID, a PID of its own. */
    method ProcessPmt()
      requires Valid() && newPmtPid + 1 + CarriedCount(Received().streams) < 0x2000
      modifies this`pcrPid, pidMap
      ensures Valid() && pcrPid == Received().pcrPid
      ensures pidMap[..] == AllocateAll(Received(), newPmtPid, old(pidMap[..])).0
      ensures old(pidMap[..]) == NoPids() ==> MapsExactly(Received(), pidMap[..])
    {
      var s := pmt.buf[..pmt.length];
      pcrPid := GetU13(s, 8);
      var i := FirstStream(s);
      var newPid := MapStreams(pidMap, s, i, newPmtPid + 1);
      ghost var m: PidMap := pidMap[..];
      if pidMap[pcrPid] == 0 {
        pidMap[pcrPid] := newPid;
        assert pidMap[..] == m[pcrPid as int := newPid];
      }
      FreshMap(Received(), newPmtPid, old(pidMap[..]), pidMap[..]);
    }

    /** create_pmt: builds the table for the output stream from the received one. */
    method CreatePmt()
      requires Valid() && pcrPid == Received().pcrPid
      modifies newPmt, newPmt.buf
      ensures Valid() && newPmt.length <= SECTION_SIZE && newPmt.cc == old(newPmt.cc)
      ensures newPmt.buf[..newPmt.length] == Rebuilt(pmt.buf[..pmt.length], newServiceId, pidMap[..])
    {
      BuildPmt(newPmt, pmt.buf[..pmt.length], newServiceId, pidMap[pcrPid], pidMap[..]);
    }
  }

  /** The three parts of create_pmt on a received section s. */
  method BuildPmt(newPmt: Section, s: Bytes, number: nat, pcrPid: PidValue, m: PidMap)
    requires HasPmtShape(s) && number < 0x1_0000 && pcrPid == m[GetU13(s, 8)]
    requires newPmt.buf.Length == SECTION_SIZE
    modifies newPmt`length, newPmt.buf
    ensures newPmt.length <= SECTION_SIZE
    ensures newPmt.buf[..newPmt.length] == Rebuilt(s, number, m)
  {
    var buf := newPmt.buf;
    var j := PutPmtHeader(buf, s, number, pcrPid);
    var i := PutStreams(buf, j, s, m);
    ghost var info, entries := s[12..j], RenumberBytes(s, j, |s| - 4, m);
    SealPmt(buf, i, number, pcrPid, info, entries);
    newPmt.length := i + 4;
  }

  /** The table up to its entries, while section_length is still open. */
  function PmtHead(number: nat, pcrPid: PidValue, info: Bytes): (h: Bytes)
    requires number < 0x1_0000 && |info| < 0x1000
    ensures |h| == 12 + |info|
  {
    [0x02, 0x00, 0x00] + U16(number) + [0xc3, 0x00, 0x00]
    + U16(0xe000 + pcrPid as int) + U16(0xf000 + |info|) + info
  }

  /** The first part of create_pmt, up to the copied program descriptors. */
  method PutPmtHeader(buf: array<byte>, s: Bytes, number: nat, pcrPid: PidValue) returns (i: nat)
    requires HasPmtShape(s) && number < 0x1_0000 && buf.Length == SECTION_SIZE
    modifies buf
    ensures i == FirstStream(s) && buf[..i] == PmtHead(number, pcrPid, s[12..i])
  {
    var programInfoLength := GetU12(s, 10);
    PutFixedFields(buf, U16(number), U16(0xe000 + pcrPid as int), U16(0xf000 + programInfoLength));
    i := 12;
    if programInfoLength > 0 {
      StoreBehind(buf[..], 12, s[12..12 + programInfoLength]);
      MemCpy(buf, 12, s[12..12 + programInfoLength]);
      i := i + programInfoLength;
    }
  }

  /** The fields in front of the program descriptors; section_length is still zero. */
  method PutFixedFields(buf: array<byte>, number: Bytes, pcr: Bytes, info: Bytes)
    requires buf.Length == SECTION_SIZE && |number| == |pcr| == |info| == 2
    modifies buf
    ensures buf[..12] == [0x02, 0x00, 0x00] + number + [0xc3, 0x00, 0x00] + pcr + info
  {
    MemCpy(buf, 0, Fill(SECTION_SIZE, 0));
    buf[0] := 0x02;
    assert buf[..3] == [0x02, 0x00, 0x00];
    PutBehind(buf, 3, number);
    PutBehind(buf, 5, [0xc3, 0x00, 0x00]);
    PutBehind(buf, 8, pcr);
    PutBehind(buf, 10, info);
  }

  lemma StreamsTurn(s: Bytes, i: nat, end: nat)
    requires i < end <= |s| && EntriesTiled(s, i, end)
    ensures i + 5 <= end && NextEntry(s, i) <= end && EntriesTiled(s, NextEntry(s, i), end)
    ensures Tiled(s[i + 5..NextEntry(s, i)], 0)
    ensures Streams(s, i, end) != [] && Streams(s, i, end)[0] == StreamAt(s, i)
    ensures StreamAt(s, i).kind == s[i] && StreamAt(s, i).pid == GetU13(s, i + 1)
    ensures NextEntry(s, i) == i + 5 + GetU12(s, i + 3)
    ensures Streams(s, i, end)[1..] == Streams(s, NextEntry(s, i), end)
  {
  }

  /** Of all that is to be written, this much is written when the loop has come to offset j of s. */
  ghost predicate Written(s: Bytes, j: nat, end: nat, m: PidMap, out: Bytes, all: Bytes) {
    && j <= end <= |s| && EntriesTiled(s, j, end)
    && |out| <= j && all == out + RenumberBytes(s, j, end, m)
  }

  /** What is written for the entry at offset j. */
  ghost predicate Piece(s: Bytes, j: nat, m: PidMap, piece: Bytes)
    requires j + 5 <= |s| && NextEntry(s, j) <= |s| && Tiled(s[j + 5..NextEntry(s, j)], 0)
  {
    var loop := FreeBytes(s[j + 5..NextEntry(s, j)], 0);
    && |loop| < 0x1000
    && piece == if m[GetU13(s, j + 1)] == 0 then [] else StreamBytes(s[j], m[GetU13(s, j + 1)], loop)
  }

  lemma RenumberTurn(s: Bytes, j: nat, end: nat, m: PidMap) returns (piece: Bytes)
    requires j < end <= |s| && EntriesTiled(s, j, end)
    ensures j + 5 <= end && NextEntry(s, j) <= end && Tiled(s[j + 5..NextEntry(s, j)], 0)
    ensures EntriesTiled(s, NextEntry(s, j), end) && Piece(s, j, m, piece) && |piece| <= NextEntry(s, j) - j
    ensures RenumberBytes(s, j, end, m) == piece + RenumberBytes(s, NextEntry(s, j), end, m)
  {
    hide FreeBytes, StreamBytes, Tiled;
    piece := if m[GetU13(s, j + 1)] == 0 then [] else EntryBytes(s, j, m);
  }

  lemma WrittenTurn(s: Bytes, j: nat, end: nat, m: PidMap, out: Bytes, all: Bytes) returns (piece: Bytes)
    requires Written(s, j, end, m, out, all) && j < end
    ensures j + 5 <= end && NextEntry(s, j) <= end && Tiled(s[j + 5..NextEntry(s, j)], 0)
    ensures Piece(s, j, m, piece) && |out| <= j && |out| + |piece| <= end
    ensures Written(s, NextEntry(s, j), end, m, out + piece, all)
  {
    hide Piece, Tiled, EntriesTiled, RenumberBytes;
    piece := RenumberTurn(s, j, end, m);
    AppendAssociative(out, piece, RenumberBytes(s, NextEntry(s, j), end, m));
  }

  lemma WrittenAll(s: Bytes, end: nat, m: PidMap, out: Bytes, all: Bytes)
    requires Written(s, end, end, m, out, all)
    ensures out == all
  {
    assert out + [] == out;
  }

  /** One turn of the loop of create_pmt: the entry at offset j goes behind what is written. */
  method PutEntry(buf: array<byte>, i: nat, s: Bytes, j: nat, m: PidMap, ghost piece: Bytes) returns (i': nat)
    requires j + 5 <= |s| && NextEntry(s, j) <= |s| && Tiled(s[j + 5..NextEntry(s, j)], 0)
    requires Piece(s, j, m, piece) && i + NextEntry(s, j) - j <= buf.Length && i + |piece| <= buf.Length
    modifies buf
    ensures i' == i + |piece| && buf[..i'] == old(buf[..i]) + piece
  {
    hide Store, FreeBytes, Tiled;
    var streamType, pid := s[j], GetU13(s, j + 1);
    i' := i;
    if m[pid] != 0 {
      StoreBehind(buf[..], i, piece);
      var newEsInfoLength := PutStream(buf, i, streamType, m[pid], s[j + 5..j + 5 + GetU12(s, j + 3)]);
      i' := i + 5 + newEsInfoLength;
    }
  }

  /** The loop of create_pmt over the entries of the received table. */
  method PutStreams(buf: array<byte>, first: nat, s: Bytes, m: PidMap) returns (i: nat)
    requires HasPmtShape(s) && first == FirstStream(s) && buf.Length == SECTION_SIZE
    modifies buf
    ensures i == first + |RenumberBytes(s, first, |s| - 4, m)| <= |s| - 4
    ensures buf[..i] == old(buf[..first]) + RenumberBytes(s, first, |s| - 4, m)
  {
    ghost var end := |s| - 4;
    ghost var all := buf[..first] + RenumberBytes(s, first, end, m);
    hide *;
    var j := first;
    i := first;
    while j < |s| - 4
      invariant j <= end && i <= end && Written(s, j, end, m, buf[..i], all)
    {
      ghost var piece := WrittenTurn(s, j, end, m, buf[..i], all);
      i := PutEntry(buf, i, s, j, m, piece);
      j := j + 5 + GetU12(s, j + 3);
    }
    WrittenAll(s, end, m, buf[..i], all);
  }

  lemma SealPieces(b: Bytes, number: nat, pcrPid: PidValue, info: Bytes, entries: Bytes, i: nat)
    requires number < 0x1_0000 && |info| < 0x1000 && i == 12 + |info| + |entries|
    requires i + 4 <= |b| == SECTION_SIZE && b[..i] == PmtHead(number, pcrPid, info) + entries
    ensures Store(b, 1, U16(0xb000 + (i + 1)))[..i] == PmtBody(number, pcrPid, info, entries)
  {
    var h := PmtHead(number, pcrPid, info);
    assert b[0] == h[0] && b[3..i] == (h + entries)[3..];
    assert Store(b, 1, U16(0xb000 + (i + 1)))[..i] == [b[0]] + U16(0xb000 + (i + 1)) + b[3..i];
  }

  /** The end of create_pmt: section_length and CRC. */
  method SealPmt(buf: array<byte>, i: nat, ghost number: nat, ghost pcrPid: PidValue, ghost info: Bytes,
                 ghost entries: Bytes)
    requires number < 0x1_0000 && |info| < 0x1000 && i == 12 + |info| + |entries|
    requires i + 4 <= buf.Length == SECTION_SIZE
    requires buf[..i] == PmtHead(number, pcrPid, info) + entries
    modifies buf
    ensures buf[..i + 4] == Sealed(PmtBody(number, pcrPid, info, entries))
  {
    var sectionLength := i - 3 + 4;
    SealPieces(buf[..], number, pcrPid, info, entries, i);
    MemCpy(buf, 1, U16(0xb000 + sectionLength));
    PutCrc(buf, i);
  }
}
