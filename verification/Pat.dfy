/** The program association table: building it for all services, and reading one. */
module Pat {
  import opened Bytes
  import opened Crc32
  import opened Sections

  datatype Entry = Entry(number: nat, pid: PidValue)

  ghost predicate Numbered(es: seq<Entry>) {
    forall i :: 0 <= i < |es| ==> es[i].number < 0x1_0000
  }

  function EntryBytes(e: Entry): (b: Bytes)
    requires e.number < 0x1_0000
    ensures |b| == 4
  {
    U16(e.number) + U16(0xe000 + e.pid as int)
  }

  function EntriesBytes(es: seq<Entry>): (b: Bytes)
    requires Numbered(es)
    ensures |b| == 4 * |es|
    decreases |es|
  {
    if es == [] then [] else EntriesBytes(es[..|es| - 1]) + EntryBytes(es[|es| - 1])
  }

  const MAX_SERVICES: nat := 1021

  function PatHead(tsid: nat, n: nat): (h: Bytes)
    requires tsid < 0x1_0000 && n <= MAX_SERVICES
    ensures |h| == 8
  {
    [0x00] + U16(0x8000 + (5 + 4 * n + 4)) + U16(tsid) + [0xc3, 0x00, 0x00]
  }

  /** create_pat */
  method CreatePat(pat: Section, tsid: nat, services: seq<Entry>)
    requires pat.buf.Length == SECTION_SIZE && tsid < 0x1_0000
    requires Numbered(services) && |services| <= MAX_SERVICES
    modifies pat, pat.buf
    ensures pat.Ready()
    ensures pat.Data() == Sealed(PatHead(tsid, |services|) + EntriesBytes(services))
  {
    PutPatHead(pat.buf, tsid, |services|);
    pat.cc := 0;   // cleared together with the buffer
    var i := PutEntries(pat.buf, services);
    PutCrc(pat.buf, i);
    pat.length := i + 4;
  }

  method PutPatHead(buf: array<byte>, tsid: nat, n: nat)
    requires buf.Length == SECTION_SIZE && tsid < 0x1_0000 && n <= MAX_SERVICES
    modifies buf
    ensures buf[..8] == PatHead(tsid, n)
  {
    var sectionLength := 5 + n * 4 + 4;
    MemCpy(buf, 0, Fill(SECTION_SIZE, 0));
    buf[0] := 0x00;
    MemCpy(buf, 1, U16(0x8000 + sectionLength));
    MemCpy(buf, 3, U16(tsid));
    buf[5], buf[6], buf[7] := 0xc3, 0x00, 0x00;
  }

  method PutEntries(buf: array<byte>, services: seq<Entry>) returns (i: nat)
    requires buf.Length == SECTION_SIZE && Numbered(services) && |services| <= MAX_SERVICES
    modifies buf
    ensures i == 8 + 4 * |services| && buf[..i] == old(buf[..8]) + EntriesBytes(services)
  {
    i := 8;
    ghost var head, es := buf[..8], services[..0];
    for j := 0 to |services|
      invariant i == 8 + 4 * j && es == services[..j]
      invariant buf[..i] == head + EntriesBytes(es)
    {
      ghost var e := services[j];
      EntryPlaced(buf[..], i, head, es, e);
      MemCpy(buf, i, U16(services[j].number));
      MemCpy(buf, i + 2, U16(0xe000 + services[j].pid as int));
      i := i + 4;
      es := es + [e];
    }
    assert es == services;
  }

  lemma EntryPlaced(b: Bytes, i: nat, head: Bytes, es: seq<Entry>, e: Entry)
    requires i + 4 <= |b| && Numbered(es) && e.number < 0x1_0000 && b[..i] == head + EntriesBytes(es)
    ensures Store(Store(b, i, U16(e.number)), i + 2, U16(0xe000 + e.pid as int))[..i + 4]
         == head + EntriesBytes(es + [e])
  {
    StoreNext(b, i, U16(e.number), U16(0xe000 + e.pid as int));
    StoreBehind(b, i, EntryBytes(e));
    assert (es + [e])[..|es + [e]| - 1] == es;
  }

  // ----- Reading a PAT packet -----

  /** Division of C: the quotient is rounded towards zero. */
  function TruncatedDiv(a: int, b: nat): int
    requires b > 0
  {
    if a < 0 then -(-a / b) else a / b
  }

  function EntryAt(p: Packet, i: nat): Entry
    requires i + 4 <= PACKET_SIZE
  {
    Entry(GetU16(p, i), GetU13(p, i + 2))
  }

  /** The conditions under which process_pat reads the table. */
  predicate Readable(p: Packet) {
    && p[4] == 0 && GetU12(p, 6) <= 180 && p[12] == 0
    && TruncatedDiv(GetU12(p, 6) - 9, 4) * 4 + 9 == GetU12(p, 6)
  }

  /** process_pat: the last program wins; service_id and pmt_pid keep their values otherwise. */
  method ProcessPat(buf: Packet, was: Entry) returns (ok: bool, program: Entry)
    ensures ok <==> Readable(buf)
    ensures ok && GetU12(buf, 6) >= 13 ==> program == EntryAt(buf, 5 + GetU12(buf, 6) - 5)
    ensures !ok || GetU12(buf, 6) < 13 ==> program == was
  {
    program := was;
    if buf[4] != 0 {
      return false, was;
    }
    var sectionLength: int := GetU12(buf, 6);
    if sectionLength > 180 {
      return false, was;
    }
    if buf[12] != 0 {
      return false, was;
    }
    var nprograms := TruncatedDiv(sectionLength - 9, 4);
    if nprograms * 4 + 9 != sectionLength {
      return false, was;
    }
    var j := 0;
    while j < nprograms
      invariant 0 <= j && (j <= nprograms || j == 0)
      invariant program == if j == 0 then was else EntryAt(buf, 13 + (j - 1) * 4)
    {
      program := EntryAt(buf, 13 + j * 4);
      j := j + 1;
    }
    return true, program;
  }

  lemma {:induction false} EntryRead(es: seq<Entry>, k: nat)
    requires Numbered(es) && k < |es|
    ensures EntriesBytes(es)[4 * k..4 * k + 4] == EntryBytes(es[k])
    decreases |es|
  {
    var n := |es| - 1;
    if k < n {
      EntryRead(es[..n], k);
      assert EntriesBytes(es)[4 * k..4 * k + 4] == EntriesBytes(es[..n])[4 * k..4 * k + 4];
    }
  }

  /** The first packet of the table create_pat builds. */
  ghost function PatPacket(tsid: nat, es: seq<Entry>, cc: nat): Packet
    requires tsid < 0x1_0000 && Numbered(es) && |es| <= MAX_SERVICES && cc < 16
  {
    PacketFrom(Sealed(PatHead(tsid, |es|) + EntriesBytes(es)), 0, cc, 0)
  }

  /** The fields of the head, one by one. */
  lemma PatHeadFields(tsid: nat, n: nat)
    requires tsid < 0x1_0000 && n <= MAX_SERVICES
    ensures var h := PatHead(tsid, n);
            && h[0] == 0 && Quot(h[1] as int, 16) == 8 && GetU12(h, 1) == 9 + 4 * n && GetU16(h, 3) == tsid
            && h[5] == 0xc3 && h[6] == 0 && h[7] == 0
  {
    FieldOfU16(8, 9 + 4 * n, U16(0x8000 + (9 + 4 * n)));
    HighNibble(8, 9 + 4 * n);
  }

  /** The section bytes of the packet begin behind its pointer field. */
  lemma PatPacketBytes(tsid: nat, es: seq<Entry>, cc: nat, i: nat)
    requires tsid < 0x1_0000 && Numbered(es) && |es| <= MAX_SERVICES && cc < 16
    requires i < 183 && i < 8 + 4 * |es|
    ensures PatPacket(tsid, es, cc)[4] == 0
    ensures PatPacket(tsid, es, cc)[5 + i] == (PatHead(tsid, |es|) + EntriesBytes(es))[i]
  {
    var body := PatHead(tsid, |es|) + EntriesBytes(es);
    var data := Sealed(body);
    assert data[i] == body[i];
    FirstPayload(data, 0, cc, i);
  }

  lemma PatPacketPid(tsid: nat, es: seq<Entry>, cc: nat)
    requires tsid < 0x1_0000 && Numbered(es) && |es| <= MAX_SERVICES && cc < 16
    ensures Pid(PatPacket(tsid, es, cc)) == 0
  {
    var data := Sealed(PatHead(tsid, |es|) + EntriesBytes(es));
    PacketFields(0, cc, true, data[0..Min(Room(true), |data|)]);
  }

  lemma PatEntryRead(tsid: nat, es: seq<Entry>, cc: nat, k: nat)
    requires tsid < 0x1_0000 && Numbered(es) && cc < 16 && k < |es| <= 42
    ensures EntryAt(PatPacket(tsid, es, cc), 13 + 4 * k) == es[k]
  {
    var p, at := PatPacket(tsid, es, cc), 4 * k;
    EntryRead(es, k);
    var e := EntryBytes(es[k]);
    PatPacketBytes(tsid, es, cc, 8 + at);
    PatPacketBytes(tsid, es, cc, 9 + at);
    PatPacketBytes(tsid, es, cc, 10 + at);
    PatPacketBytes(tsid, es, cc, 11 + at);
    assert EntriesBytes(es)[at..at + 4] == e;
    assert p[13 + at] == e[0] && p[14 + at] == e[1] && p[15 + at] == e[2] && p[16 + at] == e[3];
    PidOfU16(7, es[k].pid, U16(0xe000 + es[k].pid as int));
  }

  /**
   * A reader of the program's own kind accepts the table for n services exactly when n <= 42,
   * and then finds every service number and PMT PID, in order. The table has its PID, its id, the
   * id of the transport stream, and is valid now as section 0 of 0.
   */
  lemma PatReadBack(tsid: nat, es: seq<Entry>, cc: nat)
    requires tsid < 0x1_0000 && Numbered(es) && |es| <= MAX_SERVICES && cc < 16
    ensures Readable(PatPacket(tsid, es, cc)) <==> |es| <= 42
    ensures var p := PatPacket(tsid, es, cc);
            && Pid(p) == 0 && p[5] == 0 && Quot(p[6] as int, 16) == 8 && GetU12(p, 6) == 9 + 4 * |es|
            && GetU16(p, 8) == tsid && p[10] == 0xc3 && p[11] == 0 && p[12] == 0
    ensures forall k: nat :: k < |es| <= 42 ==> EntryAt(PatPacket(tsid, es, cc), 13 + 4 * k) == es[k]
  {
    var p, h, n := PatPacket(tsid, es, cc), PatHead(tsid, |es|), |es|;
    PatHeadFields(tsid, n);
    PatPacketBytes(tsid, es, cc, 0);
    PatPacketBytes(tsid, es, cc, 1);
    PatPacketBytes(tsid, es, cc, 2);
    PatPacketBytes(tsid, es, cc, 3);
    PatPacketBytes(tsid, es, cc, 4);
    PatPacketBytes(tsid, es, cc, 5);
    PatPacketBytes(tsid, es, cc, 6);
    PatPacketBytes(tsid, es, cc, 7);
    PatPacketPid(tsid, es, cc);
    assert p[6] == h[1] && p[7] == h[2] && p[8] == h[3] && p[9] == h[4] && p[12] == h[7];
    assert TruncatedDiv(4 * n, 4) == n;
    forall k: nat | k < n <= 42
      ensures EntryAt(p, 13 + 4 * k) == es[k]
    {
      PatEntryRead(tsid, es, cc, k);
    }
  }
}
