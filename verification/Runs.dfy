/** Runs of two services, turn by turn, in which something goes wrong. */
module Runs {
  import opened Bytes
  import opened Continuity
  import Crc32
  import opened EitSection
  import opened Firsts
  import opened Merge
  import Pcr
  import Pmt
  import opened Reassembly
  import opened Receiver
  import opened Schedule
  import opened Sections
  import opened Streams

  /** Two services, and tables with the same period. */
  ghost function TwoServices(s0: Stream, s1: Stream, table: Bytes): (plan: Plan)
    requires Sorted(s0.dues) && |s0.dues| == |s0.packets| && Sorted(s1.dues) && |s1.dues| == |s1.packets|
    requires table != []
    ensures ValidPlan(plan) && plan.streams == [s0, s1]
    ensures plan.pat.period == plan.pmt.period == plan.sdt.period == plan.nit.period == 100
    ensures NoTableOn(plan, EIT_PID) && NoTableOn(plan, 200)
  {
    Plan([s0, s1], Repeated([Table(table, 0, 0)], 100), Repeated([Table(table, 100, 0)], 100),
         Repeated([Table(table, 0x11, 0)], 100), Repeated([Table(table, 0x10, 0)], 100))
  }

  ghost predicate NoTableOn(plan: Plan, pid: nat) {
    forall k: Kind :: !k.OfService? ==> Alone(Tables(plan, k).tables, -1, pid)
  }

  /** So many packets of the services, so many tables of each kind, and these on one PID. */
  ghost predicate Shows(items: seq<Item>, c0: nat, c1: nat, pat: nat, pmt: nat, sdt: nat, nit: nat,
                        pid: nat, on: seq<Packet>) {
    && Count(items, |items|, OfService(0)) == c0 && Count(items, |items|, OfService(1)) == c1
    && Count(items, |items|, OfPat) == pat && Count(items, |items|, OfPmt) == pmt
    && Count(items, |items|, OfSdt) == sdt && Count(items, |items|, OfNit) == nit
    && AllSame(on, On(Output(items), pid))
  }

  lemma SamePackets(ps: seq<Packet>, qs: seq<Packet>, p: Packet, cc: nat)
    requires AllSame(ps, qs) && cc < 16
    ensures AllSame(ps + [p], qs + [Counted(p, cc)])
  {
    var q: Packet := Counted(p, cc);
    assert q == p || q == p[3 := q[3]];
  }

  lemma ItemIs(plan: Plan, items: seq<Item>, n: nat)
    requires ValidPlan(plan) && n < |items| && LegalAt(plan, items, n) && items[n].kind.OfService?
    ensures var i := items[n].kind.service;
            && i < |plan.streams| && Count(items, n, OfService(i)) < |plan.streams[i].packets|
            && items[n].packets
            == [Counted(plan.streams[i].packets[Count(items, n, OfService(i))], EitCounter(items, n))]
  {
    hide Choose;
    ChoiceIsKey(plan, items, n);
  }

  lemma TableItemOff(plan: Plan, items: seq<Item>, n: nat, pid: nat)
    requires ValidPlan(plan) && n < |items| && LegalAt(plan, items, n) && !items[n].kind.OfService?
    requires NoTableOn(plan, pid)
    ensures On(items[n].packets, pid) == []
  {
    hide Choose, Supplied, TablePackets;
    ChoiceIsKey(plan, items, n);
    var kind := items[n].kind;
    OnTablePackets(Tables(plan, kind).tables, Count(items, n, kind), -1, pid);
  }

  /** What the last item has put on the PID. */
  lemma TurnAdds(plan: Plan, items: seq<Item>, longer: seq<Item>, pid: nat, on: seq<Packet>)
    returns (more: seq<Packet>)
    requires ValidPlan(plan) && Legal(plan, longer) && NoTableOn(plan, pid) && pid != 0x1fff
    requires |longer| == |items| + 1 && items <= longer && AllSame(on, On(Output(items), pid))
    ensures var kind := longer[|items|].kind;
            if !kind.OfService? then more == []
            else
              && kind.service < |plan.streams|
              && Count(items, |items|, kind) < |plan.streams[kind.service].packets|
              && more == On([plan.streams[kind.service].packets[Count(items, |items|, kind)]], pid)
    ensures AllSame(on + more, On(Output(longer), pid))
  {
    hide Output, On, NoTableOn, AllSame, LegalAt;
    var n := |items|;
    assert LegalAt(plan, longer, n) && longer[..n] == items;
    OnOutput(longer, pid);
    SameCounts(items, longer, n, longer[n].kind, 0);
    if longer[n].kind.OfService? {
      ItemIs(plan, longer, n);
      var i := longer[n].kind.service;
      var p := plan.streams[i].packets[Count(longer, n, OfService(i))];
      OnOne(p, pid);
      OnOne(Counted(p, EitCounter(longer, n)), pid);
      more := On([p], pid);
      SamePackets(on, On(Output(items), pid), p, EitCounter(longer, n));
    } else {
      more := [];
      TableItemOff(plan, longer, n, pid);
    }
    assert on + [] == on && On(Output(items), pid) + [] == On(Output(items), pid);
  }

  /** What comes next, and what it puts on the PID. */
  lemma TurnOfTwo(plan: Plan, items: seq<Item>, c0: nat, c1: nat, pat: nat, pmt: nat, sdt: nat, nit: nat,
                  pid: nat, on: seq<Packet>, kind: Kind, next: seq<Packet>) returns (longer: seq<Item>)
    requires ValidPlan(plan) && Legal(plan, items) && |plan.streams| == 2
    requires NoTableOn(plan, pid) && pid != 0x1fff && Shows(items, c0, c1, pat, pmt, sdt, nit, pid, on)
    requires c0 < |plan.streams[0].dues| && c1 < |plan.streams[1].dues|
    requires var d0, d1 := plan.streams[0].dues[c0], plan.streams[1].dues[c1];
             var first := if d1 < d0 then Choice(OfService(1), d1) else Choice(OfService(0), d0);
             kind == Prefer(Prefer(Prefer(Prefer(first, OfPat, pat * plan.pat.period), OfPmt, pmt * plan.pmt.period),
                                   OfSdt, sdt * plan.sdt.period), OfNit, nit * plan.nit.period).kind
    requires kind.OfService? ==> kind.service < 2
    requires next == on + if !kind.OfService? then []
                          else On([plan.streams[kind.service].packets[if kind.service == 0 then c0 else c1]], pid)
    ensures Legal(plan, longer)
    ensures Shows(longer, c0 + (if kind == OfService(0) then 1 else 0), c1 + (if kind == OfService(1) then 1 else 0),
                  pat + (if kind == OfPat then 1 else 0), pmt + (if kind == OfPmt then 1 else 0),
                  sdt + (if kind == OfSdt then 1 else 0), nit + (if kind == OfNit then 1 else 0), pid, next)
  {
    hide Legal, On, Output, NoTableOn, AllSame;
    ClockCounts(items, |items|, OfPat, plan.pat.period);
    ClockCounts(items, |items|, OfPmt, plan.pmt.period);
    ClockCounts(items, |items|, OfSdt, plan.sdt.period);
    ClockCounts(items, |items|, OfNit, plan.nit.period);
    assert Supplied(plan, items, |items|);
    assert Choose(plan, items, |items|).kind == kind;
    longer := Turn(plan, items, kind);
    var more := TurnAdds(plan, items, longer, pid, on);
  }

  /** Tables and first packets come first. */
  lemma AllBegin(plan: Plan, pid: nat, on0: seq<Packet>, on1: seq<Packet>) returns (items: seq<Item>)
    requires ValidPlan(plan) && |plan.streams| == 2 && NoTableOn(plan, pid) && pid != 0x1fff
    requires plan.pat.period == plan.pmt.period == plan.sdt.period == plan.nit.period == 100
    requires |plan.streams[0].dues| > 1 && plan.streams[0].dues[0] == 0 < plan.streams[0].dues[1]
    requires |plan.streams[1].dues| > 1 && plan.streams[1].dues[0] == 0
    requires on0 == On([plan.streams[0].packets[0]], pid) && on1 == On([plan.streams[1].packets[0]], pid)
    ensures Legal(plan, items) && Shows(items, 1, 1, 1, 1, 1, 1, pid, on0 + on1)
  {
    hide Legal, On, Output, NoTableOn, AllSame, ValidPlan, Shows;
    items := [];
    BeginsEmpty(plan, pid);
    items := TurnOfTwo(plan, items, 0, 0, 0, 0, 0, 0, pid, [], OfNit, []);
    items := TurnOfTwo(plan, items, 0, 0, 0, 0, 0, 1, pid, [], OfSdt, []);
    items := TurnOfTwo(plan, items, 0, 0, 0, 0, 1, 1, pid, [], OfPmt, []);
    items := TurnOfTwo(plan, items, 0, 0, 0, 1, 1, 1, pid, [], OfPat, []);
    items := TurnOfTwo(plan, items, 0, 0, 1, 1, 1, 1, pid, [], OfService(0), on0);
    items := TurnOfTwo(plan, items, 1, 0, 1, 1, 1, 1, pid, on0, OfService(1), on0 + on1);
  }

  lemma ShowsSent(items: seq<Item>, c0: nat, c1: nat, pat: nat, pmt: nat, sdt: nat, nit: nat,
                  pid: nat, on: seq<Packet>)
    requires Shows(items, c0, c1, pat, pmt, sdt, nit, pid, on)
    ensures Count(items, |items|, OfService(0)) == c0 && Count(items, |items|, OfService(1)) == c1
    ensures AllSame(on, On(Output(items), pid))
  {
  }

  lemma BeginsEmpty(plan: Plan, pid: nat)
    requires ValidPlan(plan)
    ensures Legal(plan, []) && Shows([], 0, 0, 0, 0, 0, 0, pid, [])
  {
  }

  // ----- Two event sections that are mixed up -----

  /** A service with one event section of two packets, due at first and later. */
  ghost function EventStream(s: Bytes, pid: byte, first: nat, later: nat): (st: Stream)
    requires 184 <= |s| <= 367 && first <= later <= 9
    ensures |st.packets| == 4 && st.dues == [0, first, later, 9] && Sorted(st.dues)
    ensures var ps := Packetise(s, EIT_PID, 0);
            |ps| == 2 && st.packets == [ReferenceOn(pid), ps[0], ps[1], ReferenceOn(pid)]
  {
    CutInTwo(s);
    var ps := Packetise(s, EIT_PID, 0);
    Stream([ReferenceOn(pid), ps[0], ps[1], ReferenceOn(pid)], [0, first, later, 9])
  }

  /** Only the event section is on the EIT PID. */
  lemma OnEit(s: Bytes, pid: byte)
    requires 184 <= |s| <= 367 && pid >= 200
    ensures var ps := Packetise(s, EIT_PID, 0);
            |ps| == 2 && On([ps[0]], EIT_PID) == [ps[0]] && On([ps[1]], EIT_PID) == [ps[1]]
    ensures On([ReferenceOn(pid)], EIT_PID) == []
  {
    hide Packetise, On;
    CutInTwo(s);
    OnOne(ReferenceOn(pid), EIT_PID);
    PacketiseFields(s, EIT_PID, 0, 0);
    PacketiseFields(s, EIT_PID, 0, 1);
    OnOne(Packetise(s, EIT_PID, 0)[0], EIT_PID);
    OnOne(Packetise(s, EIT_PID, 0)[1], EIT_PID);
  }

  ghost function TwoEvents(a: Bytes, b: Bytes, table: Bytes): Plan
    requires 184 <= |a| <= 367 && 184 <= |b| <= 367 && table != []
  {
    TwoServices(EventStream(a, 200, 1, 5), EventStream(b, 201, 3, 7), table)
  }

  /**
   * Two services, due in turn: the receiver gets their event sections mixed up, although the
   * multiplexer has sent them in full.
   */
  lemma InterleavedRun(a: Bytes, b: Bytes, table: Bytes) returns (items: seq<Item>)
    requires WellFormed(a, EIT_TABLE) && 184 <= |a| <= 367 && WellFormed(b, EIT_TABLE) && 184 <= |b| <= 367
    requires table != []
    ensures ValidPlan(TwoEvents(a, b, table)) && Legal(TwoEvents(a, b, table), items)
    ensures Count(items, |items|, OfService(0)) == Count(items, |items|, OfService(1)) == 3
    ensures AllAcceptable(Idle, On(Output(items), EIT_PID), EIT_TABLE)
    ensures FeedAll(Idle, On(Output(items), EIT_PID), EIT_TABLE) == (Idle, Checked(Mixture(a, b)))
  {
    hide Legal, On, Output, NoTableOn, AllSame, FeedAll, AllAcceptable, Packetise, WellFormed, ValidPlan,
      TwoServices, Shows, PacketFrom, ReferenceOn, Mixture, Checked, EventStream;
    var plan := TwoEvents(a, b, table);
    var ps, qs := Packetise(a, EIT_PID, 0), Packetise(b, EIT_PID, 0);
    OnEit(a, 200);
    OnEit(b, 201);
    items := AllBegin(plan, EIT_PID, [], []);
    items := TurnOfTwo(plan, items, 1, 1, 1, 1, 1, 1, EIT_PID, [] + [], OfService(0), [ps[0]]);
    items := TurnOfTwo(plan, items, 2, 1, 1, 1, 1, 1, EIT_PID, [ps[0]], OfService(1), [ps[0], qs[0]]);
    items := TurnOfTwo(plan, items, 2, 2, 1, 1, 1, 1, EIT_PID, [ps[0], qs[0]], OfService(0), [ps[0], qs[0], ps[1]]);
    items := TurnOfTwo(plan, items, 3, 2, 1, 1, 1, 1, EIT_PID, [ps[0], qs[0], ps[1]], OfService(1),
                       [ps[0], qs[0], ps[1], qs[1]]);
    InterleavedAreMixed(a, b);
    ShowsSent(items, 3, 3, 1, 1, 1, 1, EIT_PID, [ps[0], qs[0], ps[1], qs[1]]);
    FeedAllIgnoresCounters(Idle, [ps[0], qs[0], ps[1], qs[1]], On(Output(items), EIT_PID), EIT_TABLE);
  }

  /** A section of the wanted table with a right CRC, filled up with zeros. */
  function ZeroSection(size: nat): (s: Bytes)
    requires 184 <= size <= 367
  {
    Sealed([EIT_TABLE] + U16(0xf000 + (size - 3)) + Fill(size - 7, 0))
  }

  lemma ZeroSectionFits(size: nat)
    requires 184 <= size <= 367
    ensures var s := ZeroSection(size);
            && |s| == size && WellFormed(s, EIT_TABLE) && Crc32.Crc(s, CRC_START) == 0
            && (size >= 188 ==> s[183] == 0) && s[0] == EIT_TABLE
  {
    hide Crc32.Crc;
    var body := [EIT_TABLE] + U16(0xf000 + (size - 3)) + Fill(size - 7, 0);
    SealedCrc(body);
    FieldOfU16(15, size - 3, U16(0xf000 + (size - 3)));
    var s := ZeroSection(size);
    assert s[1..3] == U16(0xf000 + (size - 3)) && s[1] == s[1..3][0] && s[2] == s[1..3][1];
  }

  /** Sections of 188 and 189 bytes: the run sends both, with right CRCs, and neither is received. */
  lemma SentButLost() returns (items: seq<Item>)
    ensures ValidPlan(TwoEvents(ZeroSection(188), ZeroSection(189), [0]))
    ensures Legal(TwoEvents(ZeroSection(188), ZeroSection(189), [0]), items)
    ensures Count(items, |items|, OfService(0)) == Count(items, |items|, OfService(1)) == 3
    ensures AllAcceptable(Idle, On(Output(items), EIT_PID), EIT_TABLE)
    ensures var received := FeedAll(Idle, On(Output(items), EIT_PID), EIT_TABLE).1;
            ZeroSection(188) !in received && ZeroSection(189) !in received
  {
    hide Legal, On, Output, FeedAll, AllAcceptable, ValidPlan, TwoEvents, Mixture, ZeroSection, Crc32.Crc, Count;
    var a, b := ZeroSection(188), ZeroSection(189);
    ZeroSectionFits(188);
    ZeroSectionFits(189);
    items := InterleavedRun(a, b, [0]);
    MixtureParts(a, b);
    assert a[183..][0] == 0 && (b[..183] + a[183..])[..5][0] == EIT_TABLE;
  }

  // ----- Two services on one PID -----

  /** A later reference than that of ReferenceOn. */
  function LaterReference(pid: byte): (p: Packet)
    ensures Pid(p) == pid as int
  {
    var p := ReferenceOn(pid);
    var q: Packet := p[9 := 1];
    assert q[1] == p[1] && q[2] == p[2];
    q
  }

  /** Service i of two that have nothing but references, both on PID 200. */
  function OnlyClock(i: nat): Config
    requires i < 2
  {
    Config(200, Pmt.ServiceMap(Pmt.Program(1, 200, [], []), i).0, 1, Ids(1, 1, 1), 1, 27000000)
  }

  function ClockInput(): seq<Packet> { [ReferenceOn(200), LaterReference(200)] }

  lemma ClockReferences()
    ensures Pcr.HasPcr(ReferenceOn(200)) && Pcr.HasPcr(LaterReference(200))
    ensures Pcr.ClockReference(ReferenceOn(200)) == 0 && Pcr.ClockReference(LaterReference(200)) == 600
  {
    assert Rem(0x30, 64) == 0x30 && Rem(0x10, 32) == 0x10 && Rem(0, 2) == 0 && Quot(0, 128) == 0;
  }

  lemma ClockConfig(i: nat)
    requires i < 2
    ensures ValidConfig(OnlyClock(i)) && OnlyClock(i).pids[200] as int == Pmt.PmtPid(i) + 1
  {
    Pmt.AllocationSound(Pmt.Program(1, 200, [], []), Pmt.PmtPid(i));
  }

  /** What such a service's input becomes: two packets, the first of them on the old PID. */
  lemma ClockReading(i: nat)
    requires i < 2
    ensures ValidConfig(OnlyClock(i)) && Readable(OnlyClock(i), ClockInput(), 0, 2)
    ensures var r := ReadAll(OnlyClock(i), ClockInput(), 0, 2);
            && |r.packets| == 2 && r.packets[0] == ReferenceOn(200) && r.dues == [0, 600]
            && Pid(r.packets[1]) == Pmt.PmtPid(i) + 1
  {
    hide Pcr.HasPcr, Pcr.ClockReference, Pcr.Renumbered, Pmt.ServiceMap, ReferenceOn, LaterReference;
    var cfg, ps := OnlyClock(i), ClockInput();
    ClockConfig(i);
    ClockReferences();
    assert IsReference(cfg, ps[0]) && IsReference(cfg, ps[1]);
    var r := Begin(ps[0]);
    assert Next(cfg, r, ps[1]);
    assert ReadAll(cfg, ps, 0, 1) == r;
    ReferenceAdds(cfg, r, ps[1]);
    assert Pcr.Due(0, 600, 0, 1, 2, 27000000) == 600;
  }

  ghost function ClockStream(i: nat): (st: Stream)
    requires i < 2
    ensures |st.packets| == 2 && st.packets[0] == ReferenceOn(200) && st.dues == [0, 600]
  {
    ClockReading(i);
    var r := ReadAll(OnlyClock(i), ClockInput(), 0, 2);
    Stream(r.packets, r.dues)
  }

  lemma SameTwo(p: Packet, qs: seq<Packet>)
    requires Pid(p) != EIT_PID && AllSame([p] + [p], qs)
    ensures qs == [p, p]
  {
    assert SameButCounter(([p] + [p])[0], qs[0]) && SameButCounter(([p] + [p])[1], qs[1]);
  }

  lemma TwiceIsReported(pid: byte)
    ensures !QuietOn(UNSEEN, [ReferenceOn(pid), ReferenceOn(pid)])
  {
    hide HasPayload, QuietOn, Last, ReferenceOn;
    var p := ReferenceOn(pid);
    assert [p, p] == [p] + [p];
    QuietAppend(UNSEEN, [p], [p]);
    OneQuiet(UNSEEN, p);
    OneQuiet(Last(UNSEEN, [p]), p);
  }

  /**
   * Two services whose programmes keep to their PIDs, but with their references on the same old
   * one: both first packets are sent there, and the check reports a gap.
   */
  lemma SharedPidRun(table: Bytes) returns (items: seq<Item>)
    requires table != []
    ensures Pmt.Roomy([Pmt.Program(1, 200, [], []), Pmt.Program(1, 200, [], [])])
    ensures var plan := TwoServices(ClockStream(0), ClockStream(1), table);
            ValidPlan(plan) && Started(plan) && Legal(plan, items) && !ServicesApart(plan)
    ensures Count(items, |items|, OfService(0)) == Count(items, |items|, OfService(1)) == 1
    ensures On(Output(items), 200) == [ReferenceOn(200), ReferenceOn(200)]
    ensures !Quiet(NothingSeen(), Output(items), 200)
  {
    hide Legal, On, Output, NoTableOn, AllSame, ValidPlan, TwoServices, Shows, ReferenceOn, ClockStream, Quiet,
      QuietOn;
    var plan, p := TwoServices(ClockStream(0), ClockStream(1), table), ReferenceOn(200);
    OnOne(p, 200);
    items := AllBegin(plan, 200, [p], [p]);
    ShowsSent(items, 1, 1, 1, 1, 1, 1, 200, [p] + [p]);
    SameTwo(p, On(Output(items), 200));
    QuietIsOnPid(NothingSeen(), Output(items), 200);
    TwiceIsReported(200);
    assert TwoPackets(plan, 0, 0, 1, 0);
  }
}
