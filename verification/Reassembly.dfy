/** process_section: putting sections together from packets, and its round trip with Sections. */
module Reassembly {
  import opened Bytes
  import opened Crc32
  import opened RingBuffer
  import opened Sections

  /** Nothing, or the first bytes of a section of known length. */
  datatype Assembly = Idle | Partial(want: nat, got: Bytes)

  /** What the program takes for granted about a packet: the table header lies inside it. */
  predicate Acceptable(a: Assembly, p: Packet, tableId: byte) {
    a.Idle? && StartsUnit(p) ==>
      && 5 + p[4] as int <= PACKET_SIZE - 3
      && (p[5 + p[4] as int] == tableId ==>
            3 + GetU12(p, 6 + p[4] as int) <= SECTION_SIZE)
  }

  predicate Open(a: Assembly) {
    a.Partial? ==> 3 <= a.want <= SECTION_SIZE && |a.got| < a.want
  }

  /** Where section bytes begin in a packet that continues a section. */
  function Skip(p: Packet): nat { if StartsUnit(p) then 5 else 4 }

  /** The assembly with the section bytes of one more packet. */
  function Gather(a: Assembly, p: Packet, tableId: byte): (g: Assembly)
    requires Open(a) && Acceptable(a, p, tableId)
    ensures g.Partial? ==> 3 <= g.want <= SECTION_SIZE && |g.got| <= g.want
  {
    match a
    case Idle =>
      if !StartsUnit(p) then Idle
      else
        var i := 5 + p[4] as int;
        if p[i] != tableId then Idle
        else
          var want := 3 + GetU12(p, i + 1);
          Partial(want, p[i..i + Min(PACKET_SIZE - i, want)])
    case Partial(want, got) =>
      var i := Skip(p);
      Partial(want, got + p[i..i + Min(PACKET_SIZE - i, want - |got|)])
  }

  /** A complete section leaves the assembly; it is delivered if its CRC is right. */
  function Settle(g: Assembly): (Assembly, seq<Bytes>) {
    if g.Partial? && |g.got| == g.want
    then (Idle, if Crc(g.got, CRC_START) == 0 then [g.got] else [])
    else (g, [])
  }

  function Feed(a: Assembly, p: Packet, tableId: byte): (r: (Assembly, seq<Bytes>))
    requires Open(a) && Acceptable(a, p, tableId)
    ensures Open(r.0)
  {
    Settle(Gather(a, p, tableId))
  }

  /** next: the section under construction; behind what was read, its buffer is clear. */
  ghost predicate Building(next: Section)
    reads next, next.buf
  {
    && next.buf.Length == SECTION_SIZE && next.cc < 16
    && (if next.length == 0 then next.bytesRead == 0
        else 3 <= next.length <= SECTION_SIZE && next.bytesRead < next.length)
    && next.buf[..] == Cleared(next.buf[..next.bytesRead])
  }

  ghost function View(next: Section): (a: Assembly)
    requires Building(next)
    reads next, next.buf
    ensures Open(a)
  {
    if next.length == 0 then Idle else Partial(next.length, next.buf[..next.bytesRead])
  }

  /** Bytes stored behind what is there leave the rest clear. */
  lemma ClearedMore(s: Bytes, more: Bytes)
    requires |s| + |more| <= SECTION_SIZE
    ensures Store(Cleared(s), |s|, more) == Cleared(s + more)
    ensures Store(Cleared(s), |s|, more)[..|s| + |more|] == s + more
  {
  }

  method ProcessSection(next: Section, curr: Section, buf: Packet, tableId: byte)
    requires Building(next) && curr.buf.Length == SECTION_SIZE
    requires next != curr && next.buf != curr.buf
    requires Acceptable(View(next), buf, tableId)
    modifies next, next.buf, curr, curr.buf
    ensures Building(next) && View(next) == Feed(old(View(next)), buf, tableId).0
    ensures var delivered := Feed(old(View(next)), buf, tableId).1;
            if delivered == [] then unchanged(curr) && unchanged(curr.buf)
            else curr.Ready() && curr.Data() == delivered[0] && curr.buf[..] == Cleared(delivered[0])
  {
    ghost var a := View(next);
    ghost var was := next.buf[..next.bytesRead];
    if next.length == 0 {
      if !StartsUnit(buf) {
        return;
      }
      var i := 5 + buf[4] as int;
      if buf[i] != tableId {
        return;
      }
      next.length := 3 + GetU12(buf, i + 1);
      var toCopy := Min(PACKET_SIZE - i, next.length);
      ClearedMore(was, buf[i..i + toCopy]);
      MemCpy(next.buf, 0, buf[i..i + toCopy]);
      next.bytesRead := toCopy;
    } else {
      var i := 4;
      if StartsUnit(buf) {
        i := i + 1;
      }
      var toCopy := Min(PACKET_SIZE - i, next.length - next.bytesRead);
      ClearedMore(was, buf[i..i + toCopy]);
      MemCpy(next.buf, next.bytesRead, buf[i..i + toCopy]);
      next.bytesRead := next.bytesRead + toCopy;
    }
    assert Gather(a, buf, tableId) == Partial(next.length, next.buf[..next.bytesRead]);
    Finish(next, curr);
  }

  /** The end of process_section: a complete section is checked, handed over and cleared. */
  method Finish(next: Section, curr: Section)
    requires next.buf.Length == curr.buf.Length == SECTION_SIZE
    requires next != curr && next.buf != curr.buf
    requires next.cc < 16 && 3 <= next.length <= SECTION_SIZE && next.bytesRead <= next.length
    requires next.buf[..] == Cleared(next.buf[..next.bytesRead])
    modifies next, next.buf, curr, curr.buf
    ensures Building(next)
    ensures View(next) == Settle(old(Partial(next.length, next.buf[..next.bytesRead]))).0
    ensures var delivered := Settle(old(Partial(next.length, next.buf[..next.bytesRead]))).1;
            if delivered == [] then unchanged(curr) && unchanged(curr.buf)
            else curr.Ready() && curr.Data() == delivered[0] && curr.buf[..] == Cleared(delivered[0])
  {
    hide Crc;
    if next.bytesRead == next.length {
      var crc := PsiCrc32(next.buf, next.length, CRC_START);
      if crc == 0 {
        curr.length, curr.bytesRead, curr.cc := next.length, next.bytesRead, next.cc;
        MemCpy(curr.buf, 0, next.buf[..]);
      }
      next.length, next.bytesRead, next.cc := 0, 0, 0;
      MemCpy(next.buf, 0, Fill(SECTION_SIZE, 0));
    }
  }

  // ----- Round trip -----

  /** Feeding packets one after the other; the sections delivered, in order. */
  ghost predicate AllAcceptable(a: Assembly, ps: seq<Packet>, tableId: byte)
    requires Open(a)
    decreases |ps|
  {
    ps != [] ==>
      Acceptable(a, ps[0], tableId) && AllAcceptable(Feed(a, ps[0], tableId).0, ps[1..], tableId)
  }

  ghost function FeedAll(a: Assembly, ps: seq<Packet>, tableId: byte): (r: (Assembly, seq<Bytes>))
    requires Open(a) && AllAcceptable(a, ps, tableId)
    ensures Open(r.0)
    decreases |ps|
  {
    if ps == [] then (a, [])
    else
      var (a1, d1) := Feed(a, ps[0], tableId);
      var (a2, d2) := FeedAll(a1, ps[1..], tableId);
      (a2, d1 + d2)
  }

  lemma {:induction false} FeedAllAppend(a: Assembly, ps: seq<Packet>, qs: seq<Packet>, tableId: byte)
    requires Open(a) && AllAcceptable(a, ps, tableId)
    requires AllAcceptable(FeedAll(a, ps, tableId).0, qs, tableId)
    ensures AllAcceptable(a, ps + qs, tableId)
    ensures FeedAll(a, ps + qs, tableId).0 == FeedAll(FeedAll(a, ps, tableId).0, qs, tableId).0
    ensures FeedAll(a, ps + qs, tableId).1
         == FeedAll(a, ps, tableId).1 + FeedAll(FeedAll(a, ps, tableId).0, qs, tableId).1
    decreases |ps|
  {
    hide Feed, Acceptable;
    if ps == [] {
      assert ps + qs == qs;
    } else {
      assert (ps + qs)[1..] == ps[1..] + qs;
      FeedAllAppend(Feed(a, ps[0], tableId).0, ps[1..], qs, tableId);
    }
  }

  lemma {:induction false} FeedAllLast(a: Assembly, ps: seq<Packet>, p: Packet, tableId: byte)
    requires Open(a) && AllAcceptable(a, ps + [p], tableId)
    ensures AllAcceptable(a, ps, tableId) && Acceptable(FeedAll(a, ps, tableId).0, p, tableId)
    ensures FeedAll(a, ps + [p], tableId).0 == Feed(FeedAll(a, ps, tableId).0, p, tableId).0
    ensures FeedAll(a, ps + [p], tableId).1
         == FeedAll(a, ps, tableId).1 + Feed(FeedAll(a, ps, tableId).0, p, tableId).1
    decreases |ps|
  {
    hide Feed, Acceptable;
    if ps == [] {
      assert ps + [p] == [p] && [p][1..] == [];
      FeedNone(Feed(a, p, tableId).0, [], tableId);
    } else {
      assert (ps + [p])[1..] == ps[1..] + [p];
      FeedAllLast(Feed(a, ps[0], tableId).0, ps[1..], p, tableId);
    }
  }

  lemma AtMostOne(a: Assembly, p: Packet, tableId: byte)
    requires Open(a) && Acceptable(a, p, tableId)
    ensures |Feed(a, p, tableId).1| <= 1
  {
    hide Gather;
  }

  /** After these packets: the section under construction, and the last one delivered. */
  ghost predicate Collected(next: Section, curr: Section, a: Assembly, ps: seq<Packet>, tableId: byte)
    reads next, next.buf, curr, curr.buf
  {
    && next != curr && next.buf != curr.buf && curr.buf.Length == SECTION_SIZE
    && Building(next) && Open(a) && AllAcceptable(a, ps, tableId)
    && var (b, delivered) := FeedAll(a, ps, tableId);
       View(next) == b && (delivered != [] ==> curr.Ready() && curr.Data() == delivered[|delivered| - 1])
  }

  /** process_section for one more packet. */
  method Collect(next: Section, curr: Section, p: Packet, tableId: byte, ghost a: Assembly, ghost ps: seq<Packet>)
    requires Collected(next, curr, a, ps, tableId) && AllAcceptable(a, ps + [p], tableId)
    modifies next, next.buf, curr, curr.buf
    ensures Collected(next, curr, a, ps + [p], tableId)
    ensures FeedAll(a, ps + [p], tableId).1 == [] ==> unchanged(curr) && unchanged(curr.buf)
  {
    hide Feed, Acceptable, FeedAll, AllAcceptable, Building, View;
    FeedAllLast(a, ps, p, tableId);
    AtMostOne(FeedAll(a, ps, tableId).0, p, tableId);
    ProcessSection(next, curr, p, tableId);
  }

  /** The header of a section is right; nothing is said about its CRC. */
  predicate WellFormed(s: Bytes, tableId: byte) {
    3 <= |s| <= SECTION_SIZE && s[0] == tableId && GetU12(s, 1) == |s| - 3
  }

  ghost function Checked(s: Bytes): seq<Bytes> {
    if Crc(s, CRC_START) == 0 then [s] else []
  }

  /** The assembly once k packets of s have been fed. */
  ghost function After(s: Bytes, k: nat): Assembly
    requires Held(k) <= |s|
  {
    if k == 0 then Idle else Partial(|s|, s[..Held(k)])
  }

  lemma FirstPacket(s: Bytes, tableId: byte, pid: nat, cc: nat)
    requires WellFormed(s, tableId) && pid < 0x2000 && cc < 16
    ensures Acceptable(Idle, PacketFrom(s, pid, cc, 0), tableId)
    ensures Gather(Idle, PacketFrom(s, pid, cc, 0), tableId) == Partial(|s|, s[..Min(183, |s|)])
  {
    var n := Min(183, |s|);
    var p := PacketFrom(s, pid, cc, 0);
    PacketFields(pid, cc, true, s[..n]);
    assert p[4] == 0 && p[5..5 + n] == s[..n];
    assert p[5] == s[0] && p[6] == s[1] && p[7] == s[2];
  }

  lemma LaterPacket(s: Bytes, tableId: byte, pid: nat, cc: nat, w: nat)
    requires WellFormed(s, tableId) && pid < 0x2000 && cc < 16 && 0 < w < |s|
    ensures Acceptable(Partial(|s|, s[..w]), PacketFrom(s, pid, cc, w), tableId)
    ensures Gather(Partial(|s|, s[..w]), PacketFrom(s, pid, cc, w), tableId)
         == Partial(|s|, s[..Min(w + 184, |s|)])
  {
    var n := Min(184, |s| - w);
    var p := PacketFrom(s, pid, cc, w);
    PacketFields(pid, cc, false, s[w..w + n]);
    assert p[4..4 + n] == s[w..w + n];
    assert s[..w] + s[w..w + n] == s[..w + n];
  }

  /** A section is found wherever the pointer field of its packet says. */
  lemma PointerFollowed(s: Bytes, p: Packet, tableId: byte)
    requires WellFormed(s, tableId) && StartsUnit(p) && 5 + p[4] as int + |s| <= 188
    requires p[5 + p[4] as int..5 + p[4] as int + |s|] == s
    ensures Acceptable(Idle, p, tableId) && Feed(Idle, p, tableId) == (Idle, Checked(s))
  {
    hide Crc;
    var i := 5 + p[4] as int;
    assert p[i] == s[0] && p[i + 1] == s[1] && p[i + 2] == s[2];
  }

  /**
   * A start indicator inside a section does not begin a new one: the packet is taken to continue
   * the section behind its pointer field, wherever that points.
   */
  lemma StartInside(s: Bytes, w: nat, p: Packet, tableId: byte)
    requires 0 < w < |s| <= SECTION_SIZE && 3 <= |s| && StartsUnit(p)
    ensures var n, a := Min(183, |s| - w), Partial(|s|, s[..w]);
            && Acceptable(a, p, tableId)
            && (p[5..5 + n] == s[w..w + n] <==> Gather(a, p, tableId) == Partial(|s|, s[..w + n]))
  {
    var n := Min(183, |s| - w);
    assert s[..w + n] == s[..w] + s[w..w + n];
    var g := s[..w] + p[5..5 + n];
    assert g[w..] == p[5..5 + n] && s[..w + n][w..] == s[w..w + n];
  }

  /** Packet k takes the assembly from k packets to k + 1, or completes the section. */
  lemma PacketFed(s: Bytes, tableId: byte, pid: nat, cc: nat, k: nat)
    requires WellFormed(s, tableId) && pid < 0x2000 && cc < 16 && Held(k) < |s|
    ensures Acceptable(After(s, k), PacketFrom(s, pid, cc, Held(k)), tableId)
    ensures Feed(After(s, k), PacketFrom(s, pid, cc, Held(k)), tableId)
         == if Held(k + 1) < |s| then (After(s, k + 1), []) else (Idle, Checked(s))
  {
    if k == 0 {
      FirstPacket(s, tableId, pid, cc);
    } else {
      LaterPacket(s, tableId, pid, cc, Held(k));
    }
    assert s[..|s|] == s;
  }

  lemma FeedOne(a: Assembly, ps: seq<Packet>, tableId: byte, a1: Assembly, d1: seq<Bytes>, d2: seq<Bytes>)
    requires Open(a) && ps != [] && Acceptable(a, ps[0], tableId) && Open(a1)
    requires Feed(a, ps[0], tableId) == (a1, d1)
    requires AllAcceptable(a1, ps[1..], tableId) && FeedAll(a1, ps[1..], tableId) == (Idle, d2)
    ensures AllAcceptable(a, ps, tableId)
    ensures FeedAll(a, ps, tableId) == (Idle, d1 + d2)
  {
  }

  /** The packets of s from number k on. */
  ghost function PacketsFrom(s: Bytes, pid: nat, cc: nat, k: nat): seq<Packet>
    requires pid < 0x2000 && cc < 16 && k <= PacketCount(|s|)
  {
    Packetise(s, pid, cc)[k..]
  }

  lemma PacketsFromNext(s: Bytes, pid: nat, cc: nat, k: nat)
    requires pid < 0x2000 && cc < 16 && k < PacketCount(|s|)
    ensures var ps := PacketsFrom(s, pid, cc, k);
            && ps != [] && ps[0] == PacketFrom(s, pid, (cc + k) % 16, Held(k))
            && ps[1..] == PacketsFrom(s, pid, cc, k + 1)
  {
    hide PacketFrom;
  }

  lemma PacketsFromEnd(s: Bytes, pid: nat, cc: nat, k: nat)
    requires pid < 0x2000 && cc < 16 && k <= PacketCount(|s|) && |s| <= Held(k)
    ensures PacketsFrom(s, pid, cc, k) == []
  {
    hide PacketFrom;
  }

  lemma {:induction false} RestDelivers(s: Bytes, tableId: byte, pid: nat, cc: nat, k: nat)
    requires WellFormed(s, tableId) && pid < 0x2000 && cc < 16 && Held(k) < |s|
    ensures AllAcceptable(After(s, k), PacketsFrom(s, pid, cc, k), tableId)
    ensures FeedAll(After(s, k), PacketsFrom(s, pid, cc, k), tableId) == (Idle, Checked(s))
    decreases PacketCount(|s|) - k
  {
    hide Feed, Acceptable, FeedAll, AllAcceptable, PacketFrom, Checked, PacketsFrom;
    PacketsFromNext(s, pid, cc, k);
    var ps := PacketsFrom(s, pid, cc, k);
    PacketFed(s, tableId, pid, (cc + k) % 16, k);
    if Held(k + 1) < |s| {
      RestDelivers(s, tableId, pid, cc, k + 1);
      FeedOne(After(s, k), ps, tableId, After(s, k + 1), [], Checked(s));
      assert [] + Checked(s) == Checked(s);
    } else {
      PacketsFromEnd(s, pid, cc, k + 1);
      FeedNone(Idle, ps[1..], tableId);
      FeedOne(After(s, k), ps, tableId, Idle, Checked(s), []);
      assert Checked(s) + [] == Checked(s);
    }
  }

  lemma FeedNone(a: Assembly, ps: seq<Packet>, tableId: byte)
    requires Open(a) && ps == []
    ensures AllAcceptable(a, ps, tableId) && FeedAll(a, ps, tableId) == (a, [])
  {
  }

  /** The packets of one section, fed to an idle assembly. */
  lemma SectionDelivered(s: Bytes, tableId: byte, pid: nat, cc: nat)
    requires WellFormed(s, tableId) && pid < 0x2000 && cc < 16
    ensures AllAcceptable(Idle, Packetise(s, pid, cc), tableId)
    ensures FeedAll(Idle, Packetise(s, pid, cc), tableId) == (Idle, Checked(s))
  {
    assert Packetise(s, pid, cc)[0..] == Packetise(s, pid, cc);
    RestDelivers(s, tableId, pid, cc, 0);
  }

  lemma OtherPacketIgnored(s: Bytes, tableId: byte, pid: nat, cc: nat, w: nat)
    requires s != [] && s[0] != tableId && pid < 0x2000 && cc < 16 && w < |s|
    ensures Acceptable(Idle, PacketFrom(s, pid, cc, w), tableId)
    ensures Feed(Idle, PacketFrom(s, pid, cc, w), tableId) == (Idle, [])
  {
    PacketFields(pid, cc, w == 0, s[w..Min(w + Room(w == 0), |s|)]);
    if w == 0 {
      FirstPayload(s, pid, cc, 0);
    }
  }

  /** The packets of a section with another table id, fed to an empty assembly, change nothing. */
  lemma {:induction false} OtherIgnored(s: Bytes, tableId: byte, pid: nat, cc: nat, k: nat)
    requires s != [] && s[0] != tableId && pid < 0x2000 && cc < 16 && k <= PacketCount(|s|)
    ensures AllAcceptable(Idle, PacketsFrom(s, pid, cc, k), tableId)
    ensures FeedAll(Idle, PacketsFrom(s, pid, cc, k), tableId) == (Idle, [])
    decreases PacketCount(|s|) - k
  {
    hide Feed, Acceptable, FeedAll, AllAcceptable, PacketFrom, PacketsFrom;
    var ps := PacketsFrom(s, pid, cc, k);
    if k == PacketCount(|s|) {
      PacketsFromEnd(s, pid, cc, k);
      FeedNone(Idle, ps, tableId);
    } else {
      PacketsFromNext(s, pid, cc, k);
      OtherPacketIgnored(s, tableId, pid, (cc + k) % 16, Held(k));
      OtherIgnored(s, tableId, pid, cc, k + 1);
      var none: seq<Bytes> := [];
      FeedOne(Idle, ps, tableId, Idle, none, none);
      assert none + none == none;
    }
  }

  /** A section that has been sent: its bytes, and the PID and counter it was sent with. */
  datatype Sent = Sent(data: Bytes, pid: nat, cc: nat)

  /** Sections of any tables; those of the wanted one have a right header. */
  ghost predicate Sendable(ss: seq<Sent>, tableId: byte) {
    forall i :: 0 <= i < |ss| ==>
      && ss[i].data != [] && ss[i].pid < 0x2000 && ss[i].cc < 16
      && (ss[i].data[0] == tableId ==> WellFormed(ss[i].data, tableId))
  }

  ghost function PacketsOf(ss: seq<Sent>, tableId: byte): seq<Packet>
    requires Sendable(ss, tableId)
  {
    if ss == [] then []
    else Packetise(ss[0].data, ss[0].pid, ss[0].cc) + PacketsOf(ss[1..], tableId)
  }

  /** The sections of the wanted table whose CRC is right, in order. */
  ghost function Good(ss: seq<Sent>, tableId: byte): seq<Bytes>
    requires Sendable(ss, tableId)
  {
    if ss == [] then []
    else (if ss[0].data[0] == tableId then Checked(ss[0].data) else []) + Good(ss[1..], tableId)
  }

  /**
   * Reassembling the packets of any sequence of sections delivers exactly those of the wanted
   * table with a right CRC, byte for byte and in order, and ends with nothing under construction.
   */
  lemma {:induction false} RoundTrip(ss: seq<Sent>, tableId: byte)
    requires Sendable(ss, tableId)
    ensures AllAcceptable(Idle, PacketsOf(ss, tableId), tableId)
    ensures FeedAll(Idle, PacketsOf(ss, tableId), tableId) == (Idle, Good(ss, tableId))
  {
    if ss != [] {
      hide Feed, Acceptable, FeedAll, AllAcceptable, Packetise;
      var t := ss[0];
      var ps := Packetise(t.data, t.pid, t.cc);
      if t.data[0] == tableId {
        SectionDelivered(t.data, tableId, t.pid, t.cc);
      } else {
        OtherIgnored(t.data, tableId, t.pid, t.cc, 0);
        assert ps[0..] == ps;
      }
      RoundTrip(ss[1..], tableId);
      FeedAllAppend(Idle, ps, PacketsOf(ss[1..], tableId), tableId);
    } else {
      FeedNone(Idle, [], tableId);
    }
  }

  /**
   * A valid section damaged in at most four consecutive bytes behind its header is not
   * delivered, and the next section starts from a clean state.
   */
  lemma DamagedSectionDropped(before: Bytes, a: Bytes, b: Bytes, after: Bytes, tableId: byte,
                              pid: nat, cc: nat)
    requires WellFormed(before + a + after, tableId) && Crc(before + a + after, CRC_START) == 0
    requires |before| >= 3 && |a| == |b| <= 4 && a != b
    requires pid < 0x2000 && cc < 16
    ensures AllAcceptable(Idle, Packetise(before + b + after, pid, cc), tableId)
    ensures FeedAll(Idle, Packetise(before + b + after, pid, cc), tableId) == (Idle, [])
  {
    var s, t := before + a + after, before + b + after;
    CorruptionDetected(before, a, b, after, CRC_START);
    assert t[0] == before[0] == s[0] && t[1] == before[1] == s[1] && t[2] == before[2] == s[2];
    SectionDelivered(t, tableId, pid, cc);
  }
}
