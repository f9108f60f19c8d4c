/** PSI sections: cutting them into transport packets and putting them together again. */
module Sections {
  import opened Bytes
  import opened Crc32
  import opened RingBuffer

  const PACKET_SIZE: nat := 188
  const SECTION_SIZE: nat := 4096
  type Packet = p: Bytes | |p| == PACKET_SIZE witness seq(188, i => 0)

  const CRC_START: bv32 := 0xffffffff

  class Section {
    var length: nat
    var bytesRead: nat
    var cc: nat
    const buf: array<byte>

    constructor ()
      ensures buf.Length == SECTION_SIZE && fresh(buf) && buf[..] == Fill(SECTION_SIZE, 0)
      ensures length == 0 && bytesRead == 0 && cc == 0
    {
      buf := new byte[SECTION_SIZE](i => 0);
      length, bytesRead, cc := 0, 0, 0;
    }

    /** A finished section: its bytes and the continuity counter of its next packet. */
    ghost predicate Ready()
      reads this
    {
      buf.Length == SECTION_SIZE && length <= SECTION_SIZE && cc < 16
    }

    ghost function Data(): (s: Bytes)
      requires Ready()
      reads this, buf
      ensures |s| == length
    {
      buf[..length]
    }

    /** The packets this section is sent in next. */
    ghost function Packets(pid: nat): (ps: seq<Packet>)
      requires Ready() && pid < 0x2000
      reads this, buf
      {
      Packetise(Data(), pid, cc)
    }
  }

  /** A section as it lies in a buffer that was cleared before. */
  function Cleared(s: Bytes): (b: Bytes)
    requires |s| <= SECTION_SIZE
    ensures |b| == SECTION_SIZE && b[..|s|] == s
  {
    s + Fill(SECTION_SIZE - |s|, 0)
  }

  // ----- Packets -----

  function Pid(p: Packet): (pid: nat)
    ensures pid < 0x2000
  {
    GetU13(p, 1)
  }

  function Counter(p: Packet): (cc: nat)
    ensures cc < 16
  {
    Rem(p[3] as int, 16)
  }

  /** payload_unit_start_indicator */
  function StartsUnit(p: Packet): bool
  {
    Rem(p[1] as int, 128) >= 64
  }

  /** The fields of a packet header, bit by bit (ISO/IEC 13818-1, section 2.4.3.2). */
  lemma HeaderBits(p: Packet)
    ensures Pid(p) == p[1] as int % 32 * 256 + p[2] as int
    ensures Counter(p) == p[3] as int % 16
    ensures StartsUnit(p) <==> p[1] as int / 64 % 2 == 1
  {
    DivisionOf(p[1] as int, 32);
    DivisionOf(p[1] as int, 128);
    DivisionOf(p[3] as int, 16);
  }

  // ----- Sealing a section -----

  /** A section body with its CRC behind it. */
  function Sealed(body: Bytes): (s: Bytes)
    ensures |s| == |body| + 4
  {
    body + U32(Crc(body, CRC_START))
  }

  lemma SealedCrc(body: Bytes)
    ensures Crc(Sealed(body), 0xffffffff) == 0
  {
    ResidueZeroIff(body, U32(Crc(body, CRC_START)), CRC_START);
  }

  /** The CRC goes behind the first i bytes. */
  method PutCrc(buf: array<byte>, i: nat)
    requires i + 4 <= buf.Length
    modifies buf
    ensures buf[..i + 4] == Sealed(old(buf[..i]))
  {
    var crc := PsiCrc32(buf, i, CRC_START);
    StoreBehind(buf[..], i, U32(crc));
    MemCpy(buf, i, U32(crc));
  }

  // ----- From sections to packets -----

  /** The header of a packet that carries section bytes; the first one has a pointer field. */
  function Header(pid: nat, cc: nat, first: bool): (h: Bytes)
    requires pid < 0x2000 && cc < 16
    ensures |h| == if first then 5 else 4
  {
    if first then [0x47] + U16(0x4000 + pid) + [0x10 + cc, 0]
    else [0x47] + U16(pid) + [0x10 + cc]
  }

  function Room(first: bool): nat { if first then 183 else 184 }

  function SectionPacket(pid: nat, cc: nat, first: bool, payload: Bytes): (p: Packet)
    requires pid < 0x2000 && cc < 16 && |payload| <= Room(first)
  {
    Header(pid, cc, first) + payload + Fill(Room(first) - |payload|, 0xff)
  }

  /** The number of packets a section of this length takes. */
  function PacketCount(length: nat): (n: nat)
    ensures forall k: nat :: k < n <==> Held(k) < length
  {
    if length == 0 then 0 else 1 + length / 184
  }

  /** How many section bytes fit into the first k packets: one byte goes to the pointer field. */
  function Held(k: nat): nat { if k == 0 then 0 else 184 * k - 1 }

  /** The packet that carries the bytes of data from offset written on. */
  function PacketFrom(data: Bytes, pid: nat, cc: nat, written: nat): (p: Packet)
    requires pid < 0x2000 && cc < 16 && written < |data|
  {
    SectionPacket(pid, cc, written == 0, data[written..Min(written + Room(written == 0), |data|)])
  }

  /** A section as it is sent: its PID, consecutive counters, and its bytes in order. */
  function Packetise(data: Bytes, pid: nat, cc: nat): (ps: seq<Packet>)
    requires pid < 0x2000 && cc < 16
    ensures |ps| == PacketCount(|data|)
  {
    seq(PacketCount(|data|), k requires 0 <= k < PacketCount(|data|) =>
      PacketFrom(data, pid, (cc + k) % 16, Held(k)))
  }

  lemma PacketFields(pid: nat, cc: nat, first: bool, payload: Bytes)
    requires pid < 0x2000 && cc < 16 && |payload| <= Room(first)
    ensures var p := SectionPacket(pid, cc, first, payload);
            Pid(p) == pid && StartsUnit(p) == first && p[0] == 0x47 && p[3] as int == 0x10 + cc
  {
    PidOfU16(0, pid, U16(pid));
    PidOfU16(2, pid, U16(0x4000 + pid));
    QuotRem(pid, 256);
    QuotRem(0x4000 + pid, 256);
  }

  lemma PayloadPlaced(pid: nat, cc: nat, payload: Bytes, i: nat)
    requires pid < 0x2000 && cc < 16 && |payload| <= Room(true) && i < |payload|
    ensures SectionPacket(pid, cc, true, payload)[4] == 0
    ensures SectionPacket(pid, cc, true, payload)[5 + i] == payload[i]
  {
  }

  /** The first bytes of a section are found behind the pointer field of its first packet. */
  lemma FirstPayload(data: Bytes, pid: nat, cc: nat, i: nat)
    requires pid < 0x2000 && cc < 16 && i < |data| && i < Room(true)
    ensures PacketFrom(data, pid, cc, 0)[4] == 0 && PacketFrom(data, pid, cc, 0)[5 + i] == data[i]
  {
    PayloadPlaced(pid, cc, data[0..Min(Room(true), |data|)], i);
  }

  /** Every packet of a section has its PID, and the counters go up by one modulo sixteen. */
  lemma PacketiseFields(data: Bytes, pid: nat, cc: nat, k: nat)
    requires pid < 0x2000 && cc < 16 && k < PacketCount(|data|)
    ensures var p := Packetise(data, pid, cc)[k];
            && Pid(p) == pid && p[0] == 0x47 && p[3] as int == 0x10 + (cc + k) % 16
            && (StartsUnit(p) <==> k == 0)
  {
    var w := Held(k);
    PacketFields(pid, (cc + k) % 16, w == 0, data[w..Min(w + Room(w == 0), |data|)]);
  }

  /**
   * Packet k holds the bytes of the section from offset 184 * k - 1 on, behind four bytes of header;
   * the first one has a pointer of zero in front of them. The rest is filled with 0xff.
   */
  lemma PacketiseBytes(data: Bytes, pid: nat, cc: nat, k: nat)
    requires pid < 0x2000 && cc < 16 && k < PacketCount(|data|)
    ensures var p, from, at := Packetise(data, pid, cc)[k], if k == 0 then 0 else 184 * k - 1, if k == 0 then 5 else 4;
            && from < |data| && p[1] as int / 32 == (if k == 0 then 2 else 0) && (k == 0 ==> p[4] == 0)
            && var end := if |data| - from < 188 - at then at + |data| - from else 188;
               p[at..end] == data[from..from + end - at] && p[end..] == Fill(188 - end, 0xff)
  {
    var w := Held(k);
    assert Held(k) < |data|;
    var payload := data[w..Min(w + Room(w == 0), |data|)];
    PacketLaidOut(pid, (cc + k) % 16, w == 0, payload);
  }

  lemma PacketLaidOut(pid: nat, cc: nat, first: bool, payload: Bytes)
    requires pid < 0x2000 && cc < 16 && |payload| <= Room(first)
    ensures var p, at := SectionPacket(pid, cc, first, payload), if first then 5 else 4;
            && p[1] as int / 32 == (if first then 2 else 0) && (first ==> p[4] == 0)
            && p[at..at + |payload|] == payload && p[at + |payload|..] == Fill(188 - at - |payload|, 0xff)
  {
    var p := SectionPacket(pid, cc, first, payload);
    var x := if first then 0x4000 + pid else pid;
    assert p[1] as int * 256 + p[2] as int == x;
  }

  lemma {:induction false} FlattenLength(ps: seq<Packet>)
    ensures |Flatten(ps)| == PACKET_SIZE * |ps|
  {
    if ps != [] {
      FlattenLength(ps[1..]);
    }
  }

  /** A packet is laid down in memory in three pieces. */
  lemma StorePieces(b: Bytes, at: nat, h: Bytes, payload: Bytes, fill: Bytes)
    requires at + |h| + |payload| + |fill| <= |b|
    ensures Store(Store(Store(b, at, h), at + |h|, payload), at + |h| + |payload|, fill)
         == Store(b, at, h + payload + fill)
  {
  }

  /** Builds one packet at offset at of tsbuf: the body of both packetising loops. */
  method PutPacket(tsbuf: array<byte>, at: nat, pid: nat, cc: nat, first: bool, payload: Bytes)
    requires pid < 0x2000 && cc < 16 && |payload| <= Room(first)
    requires at + PACKET_SIZE <= tsbuf.Length
    modifies tsbuf
    ensures tsbuf[..] == Store(old(tsbuf[..]), at, SectionPacket(pid, cc, first, payload))
  {
    var h := Header(pid, cc, first);
    var fill := Fill(Room(first) - |payload|, 0xff);
    StorePieces(tsbuf[..], at, h, payload, fill);
    MemCpy(tsbuf, at, h);
    MemCpy(tsbuf, at + |h|, payload);
    MemCpy(tsbuf, at + |h| + |payload|, fill);
  }

  /** One more packet behind what has been sent. */
  lemma FlattenNext(before: Bytes, ps: seq<Packet>, n: nat)
    requires n < |ps|
    ensures before + Flatten(ps[..n + 1]) == (before + Flatten(ps[..n])) + ps[n]
    ensures Flatten(ps[..n + 1]) == Flatten(ps[..n]) + ps[n]
    ensures |Flatten(ps[..n])| == PACKET_SIZE * n
    ensures |Flatten(ps[..n + 1])| <= |Flatten(ps)|
  {
    assert ps == ps[..n + 1] + ps[n + 1..];
    FlattenAppend(ps[..n + 1], ps[n + 1..]);
    assert ps[..n + 1] == ps[..n] + [ps[n]];
    FlattenAppend(ps[..n], [ps[n]]);
    assert Flatten([ps[n]]) == ps[n] + Flatten([]);
    FlattenLength(ps[..n]);
  }

  lemma StoreWhole(b: Bytes, data: Bytes)
    requires |b| == |data|
    ensures Store(b, 0, data) == data
  {
  }

  /** The common body of the two packetising loops: builds one packet and counts it. */
  method PacketTurn(tsbuf: array<byte>, at: nat, section: Section, pid: nat, written: nat)
    returns (written': nat)
    requires section.Ready() && tsbuf != section.buf && pid < 0x2000
    requires at + PACKET_SIZE <= tsbuf.Length && written < section.length
    modifies tsbuf, section`cc
    ensures section.cc == (old(section.cc) + 1) % 16
    ensures tsbuf[..] == Store(old(tsbuf[..]), at,
                               PacketFrom(section.buf[..section.length], pid, old(section.cc), written))
    ensures written' == Min(written + Room(written == 0), section.length)
  {
    var first := written == 0;
    var take := Min(Room(first), section.length - written);
    PutPacket(tsbuf, at, pid, section.cc, first, section.buf[written..written + take]);
    section.cc := (section.cc + 1) % 16;
    written' := written + take;
  }

  lemma CounterNext(cc: nat, n: nat)
    ensures ((cc + n) % 16 + 1) % 16 == (cc + (n + 1)) % 16
  {
  }

  /** packets[..n] are out, and taken together they are the bytes sent. */
  ghost predicate Packed(data: Bytes, pid: nat, cc: nat, n: nat, written: nat, sent: Bytes)
    requires pid < 0x2000 && cc < 16
  {
    && n <= PacketCount(|data|) && written == Min(Held(n), |data|)
    && sent == Flatten(Packetise(data, pid, cc)[..n])
  }

  lemma PackedNothing(data: Bytes, pid: nat, cc: nat)
    requires pid < 0x2000 && cc < 16
    ensures Packed(data, pid, cc, 0, 0, [])
  {
  }

  lemma PackedTurn(data: Bytes, pid: nat, cc: nat, n: nat, written: nat, sent: Bytes) returns (packet: Packet)
    requires pid < 0x2000 && cc < 16 && Packed(data, pid, cc, n, written, sent) && written < |data|
    ensures packet == PacketFrom(data, pid, (cc + n) % 16, written)
    ensures n < |Packetise(data, pid, cc)| && packet == Packetise(data, pid, cc)[n]
    ensures |sent| + PACKET_SIZE <= |Flatten(Packetise(data, pid, cc))|
    ensures Packed(data, pid, cc, n + 1, Min(written + Room(written == 0), |data|), sent + packet)
  {
    var packets := Packetise(data, pid, cc);
    packet := packets[n];
    SentNext([], packets, n, sent);
  }

  lemma PackedAll(data: Bytes, pid: nat, cc: nat, n: nat, sent: Bytes)
    requires pid < 0x2000 && cc < 16 && Packed(data, pid, cc, n, |data|, sent)
    ensures n == PacketCount(|data|) && sent == Flatten(Packetise(data, pid, cc))
  {
    assert Packetise(data, pid, cc)[..n] == Packetise(data, pid, cc);
  }

  /** copy_section: the packets of the section go to tsbuf, starting at offset at. */
  method CopySection(tsbuf: array<byte>, at: nat, section: Section, pid: nat) returns (n: nat)
    requires section.Ready() && tsbuf != section.buf && pid < 0x2000
    requires at + |Flatten(section.Packets(pid))| <= tsbuf.Length
    modifies tsbuf, section`cc
    ensures section.Ready() && n == |old(section.Packets(pid))|
    ensures tsbuf[..] == Store(old(tsbuf[..]), at, Flatten(old(section.Packets(pid))))
    ensures section.cc == (old(section.cc) + n) % 16
  {
    hide Packed, PacketFrom, Flatten, Store;
    var written := 0;
    var pos := at;
    ghost var data, cc, before, sent: Bytes := section.Data(), section.cc, tsbuf[..], [];
    n := 0;
    PackedNothing(data, pid, cc);
    StoreNone(before, at);
    while written < section.length
      invariant written <= section.length && section.cc == (cc + n) % 16 && Packed(data, pid, cc, n, written, sent)
      invariant pos == at + |sent| <= tsbuf.Length && tsbuf[..] == Store(before, at, sent)
      decreases section.length - written
    {
      ghost var packet := PackedTurn(data, pid, cc, n, written, sent);
      StoreNext(before, at, sent, packet);
      CounterNext(cc, n);
      written := PacketTurn(tsbuf, pos, section, pid, written);
      pos := pos + PACKET_SIZE;
      sent := sent + packet;
      n := n + 1;
    }
    PackedAll(data, pid, cc, n, sent);
  }

  lemma StoreNone(b: Bytes, at: nat)
    requires at <= |b|
    ensures Store(b, at, []) == b
  {
  }

  lemma SentNext(before: Bytes, ps: seq<Packet>, n: nat, sent: Bytes)
    requires n < |ps| && sent == Flatten(ps[..n])
    ensures before + (sent + ps[n]) == (before + sent) + ps[n]
    ensures sent + ps[n] == Flatten(ps[..n + 1])
    ensures |sent| + PACKET_SIZE <= |Flatten(ps)|
  {
    FlattenNext(before, ps, n);
  }

  /** The ring after packets are written one after the other, however much of each it accepts. */
  ghost function WriteAll(r: Cells, ps: seq<Packet>, word: nat): (r': Cells)
    requires ValidCells(r, word)
    ensures ValidCells(r', word) && |r'.buf| == |r.buf|
  {
    if ps == [] then r
    else Perform(WriteAll(r, ps[..|ps| - 1], word), WriteCall(ps[|ps| - 1]), word).0
  }

  lemma WriteAllNext(r: Cells, ps: seq<Packet>, n: nat, word: nat)
    requires ValidCells(r, word) && n < |ps|
    ensures WriteAll(r, ps[..n + 1], word) == Perform(WriteAll(r, ps[..n], word), WriteCall(ps[n]), word).0
  {
    assert ps[..n + 1][..n] == ps[..n];
  }

  /** With a size that divides the word, packets that fit are queued whole and in order. */
  lemma {:induction false} WriteAllQueues(r: Cells, ps: seq<Packet>, word: nat)
    requires ValidCells(r, word) && word % |r.buf| == 0
    requires |Unread(r)| + PACKET_SIZE * |ps| < |r.buf|
    ensures Unread(WriteAll(r, ps, word)) == Unread(r) + Flatten(ps)
  {
    hide Perform, Unread;
    if ps == [] {
      assert Unread(r) + [] == Unread(r);
    } else {
      var k := |ps| - 1;
      WriteAllQueues(r, ps[..k], word);
      assert ps[..k + 1] == ps;
      FlattenNext(Unread(r), ps, k);
      WriteActs(WriteAll(r, ps[..k], word), ps[k], word);
      assert ps[k][..PACKET_SIZE] == ps[k];
    }
  }

  /** One turn of write_section: a packet is built and written; what rb_write says is not looked at. */
  method WriteTurn(rb: Ring, tsbuf: array<byte>, section: Section, pid: nat, written: nat) returns (written': nat)
    requires section.Ready() && pid < 0x2000 && written < section.length
    requires tsbuf.Length == PACKET_SIZE && tsbuf != section.buf && tsbuf != rb.buf && rb.buf != section.buf
    requires rb.Valid()
    modifies rb`tail, rb.buf, section`cc, tsbuf
    ensures rb.Valid() && section.cc == (old(section.cc) + 1) % 16
    ensures rb.State() == Perform(old(rb.State()),
              WriteCall(PacketFrom(section.buf[..section.length], pid, old(section.cc), written)), rb.word).0
    ensures written' == Min(written + Room(written == 0), section.length)
  {
    hide Perform, PacketFrom;
    StoreWhole(tsbuf[..], PacketFrom(section.buf[..section.length], pid, section.cc, written));
    written' := PacketTurn(tsbuf, 0, section, pid, written);
    var taken := rb.Write(tsbuf[..]);
  }

  /** write_section: the same packets are written to a ring buffer. */
  method WriteSection(rb: Ring, section: Section, pid: nat) returns (n: nat)
    requires section.Ready() && rb.Valid() && rb.buf != section.buf && pid < 0x2000
    modifies rb`tail, rb.buf, section`cc
    ensures section.Ready() && rb.Valid()
    ensures n == |old(section.Packets(pid))|
    ensures rb.State() == WriteAll(old(rb.State()), old(section.Packets(pid)), rb.word)
    ensures section.cc == (old(section.cc) + n) % 16
    ensures (rb.word % rb.buf.Length == 0
             && |old(rb.Contents())| + PACKET_SIZE * |old(section.Packets(pid))| < rb.buf.Length) ==>
              rb.Contents() == old(rb.Contents()) + Flatten(old(section.Packets(pid)))
  {
    hide Packed, PacketFrom, Flatten, Ring.Contents, Ring.State, WriteAll, Perform, Unread;
    var tsbuf := new byte[PACKET_SIZE](i => 0);
    var written := 0;
    ghost var data, cc, before, sent: Bytes := section.Data(), section.cc, rb.State(), [];
    ghost var packets := section.Packets(pid);
    n := 0;
    PackedNothing(data, pid, cc);
    WriteAllStarts(before, packets, rb.word);
    while written < section.length
      invariant rb.Valid() && n <= |packets|
      invariant written <= section.length && section.cc == (cc + n) % 16 && Packed(data, pid, cc, n, written, sent)
      invariant rb.State() == WriteAll(before, packets[..n], rb.word)
      decreases section.length - written
    {
      ghost var packet := PackedTurn(data, pid, cc, n, written, sent);
      CounterNext(cc, n);
      WriteAllNext(before, packets, n, rb.word);
      written := WriteTurn(rb, tsbuf, section, pid, written);
      sent := sent + packet;
      n := n + 1;
    }
    PackedAll(data, pid, cc, n, sent);
    assert packets[..n] == packets;
    if rb.word % rb.buf.Length == 0 && |Unread(before)| + PACKET_SIZE * |packets| < rb.buf.Length {
      WriteAllQueues(before, packets, rb.word);
    }
  }

  lemma WriteAllStarts(r: Cells, ps: seq<Packet>, word: nat)
    requires ValidCells(r, word)
    ensures WriteAll(r, ps[..0], word) == r
  {
  }
}
