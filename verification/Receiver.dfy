/** What a receiver makes of the output: the tables, and the PIDs that a PMT promises. */
module Receiver {
  import opened Bytes
  import opened Continuity
  import Crc32
  import Descriptors
  import opened Firsts
  import opened Merge
  import Pmt
  import opened Reassembly
  import opened Schedule
  import opened Sections
  import opened Streams

  /** n copies of a section. */
  function Copies(s: Bytes, n: nat): (ss: seq<Bytes>)
    ensures |ss| == n && forall i :: 0 <= i < n ==> ss[i] == s
  {
    if n == 0 then [] else Copies(s, n - 1) + [s]
  }

  lemma {:induction false} RepetitionsReceived(t: Table, n: nat, tableId: byte)
    requires t.pid < 0x2000 && t.cc < 16 && WellFormed(t.data, tableId) && Crc32.Crc(t.data, CRC_START) == 0
    ensures AllAcceptable(Idle, Repetitions(t, 0, n), tableId)
    ensures FeedAll(Idle, Repetitions(t, 0, n), tableId) == (Idle, Copies(t.data, n))
  {
    hide FeedAll, AllAcceptable, Packetise, WellFormed;
    if n == 0 {
      FeedNone(Idle, [], tableId);
    } else {
      RepetitionsReceived(t, n - 1, tableId);
      SectionDelivered(t.data, tableId, t.pid, CounterAt(t, n - 1));
      FeedAllAppend(Idle, Repetitions(t, 0, n - 1), Sending(t, n - 1), tableId);
    }
  }

  /**
   * A receiver that collects the sections on the PID of a table gets the table exactly as often
   * as it was sent, and nothing else.
   */
  lemma TableReceived(plan: Plan, items: seq<Item>, kind: Kind, j: nat, pid: nat, tableId: byte)
    requires ValidPlan(plan) && Started(plan) && Legal(plan, items) && OnlyFirsts(plan, kind, j, pid)
    requires NoFirst(plan, pid) && WellFormed(Tables(plan, kind).tables[j].data, tableId)
    requires Crc32.Crc(Tables(plan, kind).tables[j].data, CRC_START) == 0
    ensures AllAcceptable(Idle, On(Output(items), pid), tableId)
    ensures FeedAll(Idle, On(Output(items), pid), tableId)
         == (Idle, Copies(Tables(plan, kind).tables[j].data, Count(items, |items|, kind)))
  {
    hide FeedAll, AllAcceptable, WellFormed, Legal, Output, On, Crc32.Crc, Count, Copies, Repetitions;
    var t := Tables(plan, kind).tables[j];
    AloneOnPid(plan, items, kind, j, pid);
    RepetitionsReceived(t, Count(items, |items|, kind), tableId);
  }

  // ----- A PMT lists what is sent -----

  ghost predicate Named(streams: seq<Pmt.Stream>, pid: int) {
    exists i :: 0 <= i < |streams| && streams[i].pid as int == pid
  }

  /** The PIDs a PMT names: that of the clock and those of the streams. */
  ghost predicate Lists(p: Pmt.Program, pid: int) {
    pid == p.pcrPid as int || Named(p.streams, pid)
  }

  /** The new PID of one of the streams. */
  ghost predicate MappedTo(streams: seq<Pmt.Stream>, m: Pmt.PidMap, pid: int) {
    exists i :: 0 <= i < |streams| && m[streams[i].pid] as int == pid
  }

  lemma NamedFront(s: Pmt.Stream, rest: seq<Pmt.Stream>, pid: int)
    ensures Named([s] + rest, pid) <==> s.pid as int == pid || Named(rest, pid)
  {
    assert ([s] + rest)[0] == s;
    if i :| 0 <= i < |rest| && rest[i].pid as int == pid {
      assert ([s] + rest)[i + 1] == rest[i];
    }
  }

  lemma MappedFront(streams: seq<Pmt.Stream>, m: Pmt.PidMap, pid: int)
    requires streams != []
    ensures MappedTo(streams, m, pid) <==> m[streams[0].pid] as int == pid || MappedTo(streams[1..], m, pid)
  {
    if i :| 0 <= i < |streams[1..]| && m[streams[1..][i].pid] as int == pid {
      assert streams[i + 1] == streams[1..][i];
    }
    if i :| 0 < i < |streams| && m[streams[i].pid] as int == pid {
      assert streams[1..][i - 1] == streams[i];
    }
  }

  lemma {:induction false} RenumberedNames(streams: seq<Pmt.Stream>, m: Pmt.PidMap, pid: int)
    requires pid != 0
    ensures Named(Pmt.Renumber(streams, m), pid) <==> MappedTo(streams, m, pid)
  {
    hide Named, MappedTo;
    if streams != [] {
      RenumberedNames(streams[1..], m, pid);
      MappedFront(streams, m, pid);
      var s, rest := streams[0], Pmt.Renumber(streams[1..], m);
      if m[s.pid] == 0 {
        assert [] + rest == rest;
      } else {
        NamedFront(Pmt.Stream(s.kind, m[s.pid], Descriptors.Free(s.descriptors)), rest, pid);
      }
    } else {
      NothingNamed(m, pid);
    }
  }

  lemma NothingNamed(m: Pmt.PidMap, pid: int)
    ensures !Named([], pid) && !MappedTo([], m, pid)
  {
  }

  /**
   * Read back by a receiver, the PMT made for a program names exactly the PIDs that the packets
   * of the service are moved to.
   */
  lemma PmtListsMoved(s: Bytes, number: nat, i: nat, pid: int)
    requires Pmt.HasPmtShape(s) && number < 0x1_0000 && pid != 0
    requires Pmt.PmtPid(i) + 1 + Pmt.CarriedCount(Pmt.ReadPmt(s).streams) < 0x2000
    ensures var m := Pmt.ServiceMap(Pmt.ReadPmt(s), i).0;
            && Pmt.IsPmt(Pmt.Rebuilt(s, number, m))
            && (Lists(Pmt.ReadPmt(Pmt.Rebuilt(s, number, m)), pid) <==> Pmt.Taken(m, pid))
  {
    hide Pmt.ReadPmt, Pmt.Rebuilt, Pmt.ServiceMap, Pmt.HasPmtShape, Pmt.IsPmt, Named, MappedTo;
    var p := Pmt.ReadPmt(s);
    var m := Pmt.ServiceMap(p, i).0;
    Pmt.RebuiltPmtRead(s, number, m);
    RenumberedNames(p.streams, m, pid);
    MovedByMap(p, i, pid);
  }

  lemma MovedByMap(p: Pmt.Program, i: nat, pid: int)
    requires Pmt.PmtPid(i) + 1 + Pmt.CarriedCount(p.streams) < 0x2000 && pid != 0
    ensures var m := Pmt.ServiceMap(p, i).0;
            Pmt.Taken(m, pid) <==> pid == m[p.pcrPid] as int || MappedTo(p.streams, m, pid)
  {
    var m := Pmt.ServiceMap(p, i).0;
    Pmt.AllocationSound(p, Pmt.PmtPid(i));
    if Pmt.Taken(m, pid) {
      var q :| 0 <= q < |m| && m[q] as int == pid;
      if q != p.pcrPid as int {
        var k :| 0 <= k < |p.streams| && Pmt.Carried(p.streams[k].kind) && p.streams[k].pid as int == q;
        assert m[p.streams[k].pid] as int == pid;
      }
    }
  }

  // ----- The event sections on the shared PID -----

  /** Putting sections together does not look at the counters. */
  lemma FeedIgnoresCounter(a: Assembly, p: Packet, x: byte, tableId: byte)
    requires Open(a) && Acceptable(a, p, tableId)
    ensures Acceptable(a, p[3 := x], tableId) && Feed(a, p[3 := x], tableId) == Feed(a, p, tableId)
  {
    hide Settle, GetU12, Rem;
    match a {
      case Idle =>
        if StartsUnit(p) {
          var i := 5 + p[4] as int;
          SameBehind(p, x, i, PACKET_SIZE);
          SameField(p, x, i + 1);
          if p[i] == tableId {
            SameBehind(p, x, i, i + Min(PACKET_SIZE - i, 3 + GetU12(p, i + 1)));
          }
        }
      case Partial(want, got) =>
        SameBehind(p, x, Skip(p), Skip(p) + Min(PACKET_SIZE - Skip(p), want - |got|));
    }
  }

  lemma SameBehind(p: Packet, x: byte, i: nat, j: nat)
    requires 4 <= i <= j <= PACKET_SIZE
    ensures p[3 := x][i..j] == p[i..j]
  {
  }

  lemma SameField(p: Packet, x: byte, i: nat)
    requires 4 <= i && i + 2 <= PACKET_SIZE
    ensures GetU12(p[3 := x], i) == GetU12(p, i)
  {
  }

  lemma {:induction false} FeedAllIgnoresCounters(a: Assembly, ps: seq<Packet>, qs: seq<Packet>, tableId: byte)
    requires Open(a) && AllAcceptable(a, ps, tableId) && AllSame(ps, qs)
    ensures AllAcceptable(a, qs, tableId) && FeedAll(a, qs, tableId) == FeedAll(a, ps, tableId)
    decreases |ps|
  {
    hide Acceptable, Feed;
    if ps != [] {
      assert SameButCounter(ps[0], qs[0]);
      FeedIgnoresCounter(a, ps[0], qs[0][3], tableId);
      assert ps[0][3 := ps[0][3]] == ps[0];
      FeedAllIgnoresCounters(Feed(a, ps[0], tableId).0, ps[1..], qs[1..], tableId);
    }
  }

  /**
   * Sections that are sent one behind the other, whatever their counters, are all received: those
   * of the event table with a right CRC, in order.
   */
  lemma WholeSectionsReceived(ss: seq<Sent>, qs: seq<Packet>)
    requires Sendable(ss, EIT_TABLE) && AllSame(Reassembly.PacketsOf(ss, EIT_TABLE), qs)
    ensures AllAcceptable(Idle, qs, EIT_TABLE) && FeedAll(Idle, qs, EIT_TABLE) == (Idle, Good(ss, EIT_TABLE))
  {
    hide AllSame, FeedAll, AllAcceptable;
    RoundTrip(ss, EIT_TABLE);
    FeedAllIgnoresCounters(Idle, Reassembly.PacketsOf(ss, EIT_TABLE), qs, EIT_TABLE);
  }

  /** The packet of a section that fits into one; its counter is left open. */
  predicate CarriesWhole(p: Packet, s: Bytes) {
    && WellFormed(s, EIT_TABLE) && 3 <= |s| <= 183 && Crc32.Crc(s, CRC_START) == 0
    && SameButCounter(PacketFrom(s, EIT_PID, 0, 0), p)
  }

  /** Every event section of every service fits into one packet. */
  ghost predicate ShortEvents(plan: Plan) {
    forall i, k | 0 <= i < |plan.streams| && 0 <= k < |plan.streams[i].packets| ::
      Pid(plan.streams[i].packets[k]) == EIT_PID ==> exists s :: CarriesWhole(plan.streams[i].packets[k], s)
  }

  ghost predicate AllCarry(ps: seq<Packet>, ss: seq<Bytes>) {
    |ps| == |ss| && forall k :: 0 <= k < |ps| ==> CarriesWhole(ps[k], ss[k])
  }

  lemma OnePacketReceived(p: Packet, s: Bytes)
    requires CarriesWhole(p, s)
    ensures Acceptable(Idle, p, EIT_TABLE) && Feed(Idle, p, EIT_TABLE) == (Idle, [s])
  {
    hide Crc32.Crc, Gather;
    var q := PacketFrom(s, EIT_PID, 0, 0);
    FirstPacket(s, EIT_TABLE, EIT_PID, 0);
    assert s[..|s|] == s;
    assert q[3 := q[3]] == q;
    FeedIgnoresCounter(Idle, q, p[3], EIT_TABLE);
  }

  lemma {:induction false} AllReceived(ps: seq<Packet>, ss: seq<Bytes>)
    requires AllCarry(ps, ss)
    ensures AllAcceptable(Idle, ps, EIT_TABLE) && FeedAll(Idle, ps, EIT_TABLE) == (Idle, ss)
  {
    hide CarriesWhole, Feed, Acceptable;
    if ps != [] {
      OnePacketReceived(ps[0], ss[0]);
      AllReceived(ps[1..], ss[1..]);
      assert [ss[0]] + ss[1..] == ss;
    }
  }

  lemma StillCarries(p: Packet, s: Bytes, cc: nat)
    requires CarriesWhole(p, s) && cc < 16
    ensures CarriesWhole(Counted(p, cc), s)
  {
    hide WellFormed, Crc32.Crc;
    var q := PacketFrom(s, EIT_PID, 0, 0);
    assert q[3 := q[3]] == q;
    assert q[3 := p[3]][3 := 0x10 + cc] == q[3 := 0x10 + cc];
  }

  lemma OneEvent(plan: Plan, items: seq<Item>, n: nat) returns (s: seq<Bytes>)
    requires ValidPlan(plan) && n < |items| && LegalAt(plan, items, n)
    requires OnlyServices(plan) && ShortEvents(plan)
    ensures AllCarry(On(items[n].packets, EIT_PID), s)
  {
    hide Choose, CarriesWhole;
    s := [];
    if items[n].kind.OfService? {
      ChoiceIsKey(plan, items, n);
      var i := items[n].kind.service;
      var p := plan.streams[i].packets[Count(items, n, OfService(i))];
      OnOne(items[n].packets[0], EIT_PID);
      if Pid(p) == EIT_PID {
        var t :| CarriesWhole(p, t);
        StillCarries(p, t, EitCounter(items, n));
        s := [t];
      }
    } else {
      EitTableItem(plan, items, n);
    }
  }

  /**
   * If every event section fits into one packet, a receiver gets the sections of all services,
   * one for every packet that was sent on the EIT PID, in the order in which they were sent.
   */
  lemma {:induction false} ShortEventsReceived(plan: Plan, items: seq<Item>) returns (ss: seq<Bytes>)
    requires ValidPlan(plan) && Legal(plan, items) && OnlyServices(plan) && ShortEvents(plan)
    ensures AllCarry(On(Output(items), EIT_PID), ss)
    ensures AllAcceptable(Idle, On(Output(items), EIT_PID), EIT_TABLE)
    ensures FeedAll(Idle, On(Output(items), EIT_PID), EIT_TABLE) == (Idle, ss)
    decreases |items|
  {
    hide LegalAt, Output, On, OnlyServices, ShortEvents, CarriesWhole, FeedAll, AllAcceptable;
    if items == [] {
      ss := [];
      NoOutput(EIT_PID);
    } else {
      var k := |items| - 1;
      LegalPrefix(plan, items, k);
      var before := ShortEventsReceived(plan, items[..k]);
      assert LegalAt(plan, items, k);
      var more := OneEvent(plan, items, k);
      OnOutput(items, EIT_PID);
      ss := before + more;
    }
    AllReceived(On(Output(items), EIT_PID), ss);
  }

  lemma CutInTwo(s: Bytes)
    requires 184 <= |s| <= 367
    ensures Packetise(s, EIT_PID, 0) == [PacketFrom(s, EIT_PID, 0, 0), PacketFrom(s, EIT_PID, 1, 183)]
  {
    hide PacketFrom;
    assert |s| / 184 == 1 && Held(0) == 0 && Held(1) == 183;
  }

  lemma FirstHalf(a: Bytes)
    requires WellFormed(a, EIT_TABLE) && 184 <= |a|
    ensures Acceptable(Idle, PacketFrom(a, EIT_PID, 0, 0), EIT_TABLE)
    ensures Feed(Idle, PacketFrom(a, EIT_PID, 0, 0), EIT_TABLE) == (Partial(|a|, a[..183]), [])
  {
    hide Gather, PacketFrom;
    FirstPacket(a, EIT_TABLE, EIT_PID, 0);
  }

  /** What a receiver puts together of a when the first packet of b comes between the two of a. */
  function Mixture(a: Bytes, b: Bytes): (x: Bytes)
    requires 184 <= |a| <= 367 && 184 <= |b|
    ensures |x| == |a|
  {
    a[..183] + (b[..183] + a[183..])[..|a| - 183]
  }

  lemma MixtureParts(a: Bytes, b: Bytes)
    requires 184 <= |a| <= 367 && 184 <= |b|
    ensures Mixture(a, b) == if |a| <= 366 then a[..183] + b[..|a| - 183] else a[..183] + b[..183] + [a[183]]
    ensures Mixture(a, b) == a <==> a[183..] == (b[..183] + a[183..])[..|a| - 183]
  {
    assert a == a[..183] + a[183..];
    assert Mixture(a, b)[..183] == a[..183] && Mixture(a, b)[183..] == (b[..183] + a[183..])[..|a| - 183];
  }

  /** The first packet of b is taken for the second one of a. */
  lemma MixedUp(a: Bytes, b: Bytes)
    requires WellFormed(a, EIT_TABLE) && 184 <= |a| <= 367 && WellFormed(b, EIT_TABLE) && 184 <= |b|
    ensures var p := PacketFrom(b, EIT_PID, 0, 0);
            && Acceptable(Partial(|a|, a[..183]), p, EIT_TABLE)
            && Feed(Partial(|a|, a[..183]), p, EIT_TABLE)
            == if |a| <= 366 then (Idle, Checked(Mixture(a, b))) else (Partial(|a|, a[..183] + b[..183]), [])
  {
    hide Crc32.Crc, Mixture;
    var p, n := PacketFrom(b, EIT_PID, 0, 0), Min(183, |a| - 183);
    PacketFields(EIT_PID, 0, true, b[0..183]);
    forall i | 0 <= i < n ensures p[5 + i] == b[i] {
      FirstPayload(b, EIT_PID, 0, i);
    }
    assert p[5..5 + n] == b[..n];
    MixtureParts(a, b);
  }

  /** The second packet of a is passed over, or gives its first byte if that is still wanted. */
  lemma SecondHalf(a: Bytes, b: Bytes)
    requires WellFormed(a, EIT_TABLE) && |a| == 367 && WellFormed(b, EIT_TABLE) && 184 <= |b|
    ensures var p := PacketFrom(a, EIT_PID, 1, 183);
            && Acceptable(Partial(|a|, a[..183] + b[..183]), p, EIT_TABLE)
            && Feed(Partial(|a|, a[..183] + b[..183]), p, EIT_TABLE) == (Idle, Checked(Mixture(a, b)))
  {
    hide Crc32.Crc, Mixture;
    var p := PacketFrom(a, EIT_PID, 1, 183);
    PacketFields(EIT_PID, 1, false, a[183..367]);
    assert p[4..5] == [a[183]];
    MixtureParts(a, b);
  }

  lemma SecondHalfIgnored(s: Bytes)
    requires 184 <= |s|
    ensures Acceptable(Idle, PacketFrom(s, EIT_PID, 1, 183), EIT_TABLE)
    ensures Feed(Idle, PacketFrom(s, EIT_PID, 1, 183), EIT_TABLE) == (Idle, [])
  {
    PacketFields(EIT_PID, 1, false, s[183..Min(183 + 184, |s|)]);
  }

  lemma FourFed(p: Packet, q: Packet, r: Packet, t: Packet, half: Assembly, more: Assembly,
                d: seq<Bytes>, e: seq<Bytes>)
    requires Open(half) && Acceptable(Idle, p, EIT_TABLE) && Feed(Idle, p, EIT_TABLE) == (half, [])
    requires Open(more) && Acceptable(half, q, EIT_TABLE) && Feed(half, q, EIT_TABLE) == (more, d)
    requires Acceptable(more, r, EIT_TABLE) && Feed(more, r, EIT_TABLE) == (Idle, e)
    requires Acceptable(Idle, t, EIT_TABLE) && Feed(Idle, t, EIT_TABLE) == (Idle, [])
    ensures AllAcceptable(Idle, [p, q, r, t], EIT_TABLE)
    ensures FeedAll(Idle, [p, q, r, t], EIT_TABLE) == (Idle, d + e)
  {
    hide Acceptable, Feed;
    var none: seq<Bytes> := [];
    assert none + none == none && e + none == e && none + (d + e) == d + e;
    assert [t][1..] == [] && [r, t][1..] == [t] && [q, r, t][1..] == [r, t] && [p, q, r, t][1..] == [q, r, t];
    FeedNone(Idle, [], EIT_TABLE);
    FeedOne(Idle, [t], EIT_TABLE, Idle, none, none);
    FeedOne(more, [r, t], EIT_TABLE, Idle, e, none);
    FeedOne(half, [q, r, t], EIT_TABLE, more, d, e);
    FeedOne(Idle, [p, q, r, t], EIT_TABLE, half, none, d + e);
  }

  /**
   * Sections that need two packets can be lost although the counters are consecutive: when the
   * first packet of b comes between the two of a, the receiver gets at most their mixture.
   */
  lemma InterleavedAreMixed(a: Bytes, b: Bytes)
    requires WellFormed(a, EIT_TABLE) && 184 <= |a| <= 367 && WellFormed(b, EIT_TABLE) && 184 <= |b| <= 367
    ensures var ps, qs := Packetise(a, EIT_PID, 0), Packetise(b, EIT_PID, 0);
            && |ps| == |qs| == 2
            && AllAcceptable(Idle, [ps[0], qs[0], ps[1], qs[1]], EIT_TABLE)
            && FeedAll(Idle, [ps[0], qs[0], ps[1], qs[1]], EIT_TABLE) == (Idle, Checked(Mixture(a, b)))
  {
    hide Crc32.Crc, Packetise, PacketFrom, Feed, Acceptable, FeedAll, AllAcceptable, Mixture, Checked;
    var ps, qs := Packetise(a, EIT_PID, 0), Packetise(b, EIT_PID, 0);
    var half, x := Partial(|a|, a[..183]), Checked(Mixture(a, b));
    CutInTwo(a);
    CutInTwo(b);
    FirstHalf(a);
    MixedUp(a, b);
    SecondHalfIgnored(a);
    SecondHalfIgnored(b);
    if |a| <= 366 {
      FourFed(ps[0], qs[0], ps[1], qs[1], half, Idle, x, []);
      assert x + [] == x;
    } else {
      SecondHalf(a, b);
      FourFed(ps[0], qs[0], ps[1], qs[1], half, Partial(|a|, a[..183] + b[..183]), [], x);
      assert [] + x == x;
    }
  }

  /** So a is received exactly if the bytes taken for the rest of it are the rest of it. */
  lemma InterleavedReceivedIff(a: Bytes, b: Bytes)
    requires WellFormed(a, EIT_TABLE) && 184 <= |a| <= 367 && Crc32.Crc(a, CRC_START) == 0
    requires WellFormed(b, EIT_TABLE) && 184 <= |b| <= 367
    ensures var ps, qs := Packetise(a, EIT_PID, 0), Packetise(b, EIT_PID, 0);
            && AllAcceptable(Idle, [ps[0], qs[0], ps[1], qs[1]], EIT_TABLE)
            && (a in FeedAll(Idle, [ps[0], qs[0], ps[1], qs[1]], EIT_TABLE).1
                <==> a[183..] == (b[..183] + a[183..])[..|a| - 183])
  {
    hide Crc32.Crc, Packetise, FeedAll, AllAcceptable, Mixture;
    InterleavedAreMixed(a, b);
    MixtureParts(a, b);
  }

  /** With at most four bytes in the second packet of a, nothing is received unless these agree. */
  lemma InterleavedAreLost(a: Bytes, b: Bytes)
    requires WellFormed(a, EIT_TABLE) && 184 <= |a| <= 187 && Crc32.Crc(a, CRC_START) == 0
    requires WellFormed(b, EIT_TABLE) && 184 <= |b| <= 367 && a[183..] != b[..|a| - 183]
    ensures Checked(Mixture(a, b)) == []
  {
    hide Crc32.Crc, Mixture;
    var n := |a| - 183;
    MixtureParts(a, b);
    Crc32.CorruptionDetected(a[..183], a[183..], b[..n], [], CRC_START);
    assert a[..183] + a[183..] + [] == a && a[..183] + b[..n] + [] == a[..183] + b[..n];
  }
}
