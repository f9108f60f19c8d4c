/** Continuity counters: the check on them, and that the multiplexer's own packets pass it. */
module Continuity {
  import opened Bytes
  import opened Merge
  import opened Schedule
  import opened Sections
  import opened Streams

  // ----- check_cc -----

  const UNSEEN: byte := 0xff

  /** The counter expected next on each PID, or UNSEEN. */
  type Counters = m: seq<byte> | |m| == 0x2000 witness seq(0x2000, i => 0)

  /** The packet has a payload according to its adaptation field control. */
  predicate HasPayload(p: Packet) {
    var control := Rem(Quot(p[3] as int, 16), 4);
    control != 0 && control != 2
  }

  /** The counter that would be right for this packet. */
  function Expected(cc: byte, p: Packet): byte {
    if cc == UNSEEN then Counter(p)
    else if HasPayload(p) then (cc + 1) % 16
    else cc
  }

  /** A gap is reported unless the bit read as the discontinuity indicator is set. */
  predicate Gap(cc: byte, p: Packet) {
    p[5] < 128 && Expected(cc, p) as int != Counter(p)
  }

  function Noted(cc: byte, p: Packet): byte {
    if Gap(cc, p) then Counter(p) else Expected(cc, p)
  }

  /** The counters after a packet; one without the sync byte is passed over. */
  function After(m: Counters, p: Packet): Counters {
    if p[0] != 0x47 then m else m[Pid(p) := Noted(m[Pid(p)], p)]
  }

  /**
   * A gap is reported if the counter is neither the next one after a payload nor the last one
   * without, unless none was seen on the PID or the discontinuity bit is set.
   */
  lemma GapIff(cc: byte, p: Packet)
    requires cc == 0xff || cc < 16
    ensures var next := if p[3] as int / 16 % 2 == 1 then (cc as int + 1) % 16 else cc as int;
            Gap(cc, p) <==> cc != 0xff && p[5] as int / 128 == 0 && p[3] as int % 16 != next
    ensures Noted(cc, p) as int == p[3] as int % 16 || (p[5] >= 128 && Noted(cc, p) == Expected(cc, p))
  {
    PayloadBit(p);
    HeaderBits(p);
    hide HasPayload;
  }

  /** The lower bit of the adaptation field control says that there is a payload. */
  lemma PayloadBit(p: Packet)
    ensures HasPayload(p) <==> p[3] as int / 16 % 2 == 1
  {
    DivisionOf(p[3] as int, 16);
    DivisionOf(p[3] as int / 16, 4);
  }

  method CheckCc(myCc: array<byte>, buf: Packet) returns (gap: bool)
    requires myCc.Length == 0x2000
    modifies myCc
    ensures myCc[..] == After(old(myCc[..]), buf)
    ensures gap <==> buf[0] == 0x47 && Gap(old(myCc[Pid(buf)]), buf)
  {
    gap := false;
    if buf[0] != 0x47 {
      return;
    }
    var pid := Pid(buf);
    var control := Rem(Quot(buf[3] as int, 16), 4);
    if myCc[pid] == UNSEEN {
      myCc[pid] := Counter(buf);
    } else if control != 0 && control != 2 {
      myCc[pid] := (myCc[pid] + 1) % 16;
    }
    if buf[5] < 128 && myCc[pid] as int != Counter(buf) {
      gap := true;
      myCc[pid] := Counter(buf);
    }
  }

  // ----- Checking a whole stream -----

  function AfterAll(m: Counters, ps: seq<Packet>): Counters {
    if ps == [] then m else After(AfterAll(m, ps[..|ps| - 1]), ps[|ps| - 1])
  }

  /** No gap is reported on this PID when the packets are checked one after the other. */
  predicate Quiet(m: Counters, ps: seq<Packet>, pid: PidValue) {
    ps == [] ||
    var p, before := ps[|ps| - 1], ps[..|ps| - 1];
    Quiet(m, before, pid) && (Pid(p) == pid && p[0] == 0x47 ==> !Gap(AfterAll(m, before)[pid], p))
  }

  /** Packets with a payload and with the counters cc, cc + 1, cc + 2 and so on, modulo sixteen. */
  ghost predicate Consecutive(ps: seq<Packet>, cc: nat) {
    forall k :: 0 <= k < |ps| ==> ps[k][0] == 0x47 && ps[k][3] as int == 0x10 + (cc + k) % 16
  }

  lemma CounterBits(p: Packet, cc: nat)
    requires cc < 16 && p[3] as int == 0x10 + cc
    ensures HasPayload(p) && Counter(p) == cc
  {
    RemOf(1, cc, 16);
    QuotRem(0x10 + cc, 16);
  }

  lemma NextCounter(cc: nat, n: nat)
    requires n > 0
    ensures ((cc + (n - 1)) % 16 + 1) % 16 == (cc + n) % 16
  {
  }

  // ----- Only the packets on a PID matter for the check on that PID -----

  /** What is remembered after these packets of one PID. */
  function Last(cc: byte, ps: seq<Packet>): byte {
    if ps == [] then cc
    else
      var p, before := ps[|ps| - 1], Last(cc, ps[..|ps| - 1]);
      if p[0] != 0x47 then before else Noted(before, p)
  }

  predicate QuietOn(cc: byte, ps: seq<Packet>) {
    ps == [] ||
    var p, before := ps[|ps| - 1], ps[..|ps| - 1];
    QuietOn(cc, before) && (p[0] == 0x47 ==> !Gap(Last(cc, before), p))
  }

  lemma {:induction false} QuietIsOnPid(m: Counters, ps: seq<Packet>, pid: PidValue)
    ensures AfterAll(m, ps)[pid] == Last(m[pid], On(ps, pid))
    ensures Quiet(m, ps, pid) <==> QuietOn(m[pid], On(ps, pid))
  {
    if ps != [] {
      hide Gap, Noted;
      var before, p := ps[..|ps| - 1], ps[|ps| - 1];
      var on := On(before, pid);
      QuietIsOnPid(m, before, pid);
      if Pid(p) == pid {
        assert On(ps, pid) == on + [p];
        assert (on + [p])[..|on|] == on;
      } else {
        assert On(ps, pid) == on;
      }
    }
  }

  lemma {:induction false} QuietAppend(cc: byte, a: seq<Packet>, b: seq<Packet>)
    ensures Last(cc, a + b) == Last(Last(cc, a), b)
    ensures QuietOn(cc, a + b) <==> QuietOn(cc, a) && QuietOn(Last(cc, a), b)
    decreases |b|
  {
    hide Gap, Noted;
    if b == [] {
      assert a + b == a;
    } else {
      var k := |b| - 1;
      assert (a + b)[..|a + b| - 1] == a + b[..k] && (a + b)[|a + b| - 1] == b[k];
      QuietAppend(cc, a, b[..k]);
    }
  }

  /** The counter before cc. */
  function CounterBefore(cc: nat): (c: byte)
    requires cc < 16
    ensures c < 16
  {
    if cc == 0 then 15 else cc - 1
  }

  /** Consecutive packets are in order after nothing, and after the counter before theirs. */
  lemma {:induction false} ConsecutiveIsQuietOn(was: byte, ps: seq<Packet>, cc: nat)
    requires cc < 16 && Consecutive(ps, cc) && (was == UNSEEN || was == CounterBefore(cc))
    ensures QuietOn(was, ps)
    ensures ps != [] ==> Last(was, ps) as int == (cc + (|ps| - 1)) % 16
  {
    if ps != [] {
      var k := |ps| - 1;
      ConsecutiveIsQuietOn(was, ps[..k], cc);
      CounterBits(ps[k], (cc + k) % 16);
      if k > 0 {
        NextCounter(cc, k);
      }
    }
  }

  /** Consecutive counters on a PID are never reported, whatever comes between. */
  lemma ConsecutiveIsQuiet(m: Counters, ps: seq<Packet>, pid: PidValue, cc: nat)
    requires m[pid] == UNSEEN && cc < 16 && Consecutive(On(ps, pid), cc)
    ensures Quiet(m, ps, pid)
  {
    QuietIsOnPid(m, ps, pid);
    ConsecutiveIsQuietOn(UNSEEN, On(ps, pid), cc);
  }

  lemma ConsecutiveAppend(a: seq<Packet>, b: seq<Packet>, cc: nat, next: nat)
    requires Consecutive(a, cc) && Consecutive(b, next) && next == (cc + |a|) % 16
    ensures Consecutive(a + b, cc)
  {
    forall k | 0 <= k < |a + b| ensures (a + b)[k][0] == 0x47 && (a + b)[k][3] as int == 0x10 + (cc + k) % 16 {
      if k >= |a| {
        assert (a + b)[k] == b[k - |a|];
        ShiftedCounter(cc, |a|, k - |a|);
      }
    }
  }

  lemma ShiftedCounter(cc: nat, n: nat, k: nat)
    ensures ((cc + n) % 16 + k) % 16 == (cc + (n + k)) % 16
  {
  }

  // ----- The tables of the output -----

  /** The packets of one table. */
  ghost function Sending(t: Table, times: nat): seq<Packet>
    requires t.pid < 0x2000 && t.cc < 16
  {
    Packetise(t.data, t.pid, CounterAt(t, times))
  }

  lemma SendingIsConsecutive(t: Table, times: nat)
    requires t.pid < 0x2000 && t.cc < 16
    ensures Consecutive(Sending(t, times), CounterAt(t, times))
    ensures |Sending(t, times)| == PacketCount(|t.data|)
    ensures forall k :: 0 <= k < |Sending(t, times)| ==> Pid(Sending(t, times)[k]) == t.pid
  {
    forall k | 0 <= k < |Sending(t, times)|
      ensures Pid(Sending(t, times)[k]) == t.pid && Sending(t, times)[k][0] == 0x47
      ensures Sending(t, times)[k][3] as int == 0x10 + (CounterAt(t, times) + k) % 16
    {
      PacketiseFields(t.data, t.pid, CounterAt(t, times), k);
    }
  }

  lemma {:induction false} NoneOn(ps: seq<Packet>, pid: nat)
    requires forall k :: 0 <= k < |ps| ==> Pid(ps[k]) != pid
    ensures On(ps, pid) == []
  {
    if ps != [] {
      NoneOn(ps[..|ps| - 1], pid);
    }
  }

  /** Table j of ts is the only one on its PID. */
  ghost predicate Alone(ts: seq<Table>, j: int, pid: nat) {
    forall i :: 0 <= i < |ts| ==> (ts[i].pid == pid <==> i == j)
  }

  ghost predicate Wired(ts: seq<Table>) {
    forall i :: 0 <= i < |ts| ==> ts[i].pid < 0x2000 && ts[i].cc < 16
  }

  lemma OnSending(t: Table, times: nat, pid: nat)
    requires t.pid < 0x2000 && t.cc < 16
    ensures On(Sending(t, times), pid) == if t.pid == pid then Sending(t, times) else []
  {
    hide Packetise;
    SendingIsConsecutive(t, times);
    if t.pid == pid {
      AllOn(Sending(t, times), pid);
    } else {
      NoneOn(Sending(t, times), pid);
    }
  }

  /** Of the packets of several tables, those on the PID of table j are that table's. */
  lemma {:induction false} OnTablePackets(ts: seq<Table>, times: nat, j: int, pid: nat)
    requires Wired(ts) && Alone(ts, j, pid)
    ensures On(TablePackets(ts, times), pid) == if 0 <= j < |ts| then Sending(ts[j], times) else []
  {
    hide Packetise, CounterAt;
    if ts != [] {
      hide On;
      var k := |ts| - 1;
      OnTablePackets(ts[..k], times, j, pid);
      OnAppend(TablePackets(ts[..k], times), Sending(ts[k], times), pid);
      OnSending(ts[k], times, pid);
      var before := On(TablePackets(ts[..k], times), pid);
      assert before + [] == before;
    }
  }

  /** The output grows by null packets and an item; null packets are on no other PID. */
  lemma OnOutput(items: seq<Item>, pid: nat)
    requires items != [] && pid != 0x1fff
    ensures On(Output(items), pid) == On(Output(items[..|items| - 1]), pid) + On(items[|items| - 1].packets, pid)
  {
    var k := |items| - 1;
    var gap: int := items[k].slot - Before(items, k);
    var nulls := Nulls(if gap < 0 then 0 else gap);
    NoneOn(nulls, pid);
    OnAppend(Output(items[..k]), nulls, pid);
    OnAppend(Output(items[..k]) + nulls, items[k].packets, pid);
  }

  /** Packets of a table that was sent so many times: consecutive from its first counter on. */
  ghost predicate Counting(t: Table, times: nat, sent: seq<Packet>)
    requires t.cc < 16
  {
    Consecutive(sent, t.cc) && (t.cc + |sent|) % 16 == CounterAt(t, times)
  }

  lemma CountingStarts(t: Table)
    requires t.cc < 16
    ensures Counting(t, 0, [])
  {
  }

  lemma CountingGoesOn(t: Table, times: nat, sent: seq<Packet>)
    requires t.pid < 0x2000 && t.cc < 16 && Counting(t, times, sent)
    ensures Counting(t, times + 1, sent + Sending(t, times))
  {
    hide Sending, PacketCount;
    SendingIsConsecutive(t, times);
    ConsecutiveAppend(sent, Sending(t, times), t.cc, CounterAt(t, times));
    ShiftedCounter(t.cc, |sent|, |Sending(t, times)|);
  }

  lemma NoOutput(pid: nat)
    ensures On(Output([]), pid) == []
  {
  }

  // ----- The packets of all services on the EIT PID -----

  /** No table is on the EIT PID, and the services' packets have their sync byte. */
  ghost predicate OnlyServices(plan: Plan) {
    && (forall k: Kind :: !k.OfService? ==> Alone(Tables(plan, k).tables, -1, EIT_PID))
    && forall i :: 0 <= i < |plan.streams| ==>
         forall k :: 0 <= k < |plan.streams[i].packets| ==> plan.streams[i].packets[k][0] == 0x47
  }

  ghost predicate EitCounting(cc: nat, sent: seq<Packet>) {
    Consecutive(sent, 0) && |sent| % 16 == cc
  }

  lemma OnOne(p: Packet, pid: nat)
    ensures On([p], pid) == if Pid(p) == pid then [p] else []
  {
    assert [p][..0] == [];
  }

  lemma OneMoreCounter(n: nat)
    ensures (n + 1) % 16 == (n % 16 + 1) % 16 && (0 + n) % 16 == n % 16
  {
  }

  lemma EitGoesOn(cc: nat, sent: seq<Packet>, p: Packet)
    requires EitCounting(cc, sent) && p[0] == 0x47 && p[3] as int == 0x10 + cc
    ensures EitCounting((cc + 1) % 16, sent + [p])
  {
    OneMoreCounter(|sent|);
    ConsecutiveAppend(sent, [p], 0, cc);
  }

  lemma EitServiceItem(plan: Plan, items: seq<Item>, n: nat) returns (p: Packet)
    requires ValidPlan(plan) && n < |items| && LegalAt(plan, items, n) && items[n].kind.OfService?
    requires OnlyServices(plan)
    ensures items[n].packets == [p]
    ensures Pid(p) == EIT_PID ==> p[0] == 0x47 && p[3] as int == 0x10 + EitCounter(items, n)
  {
    hide Choose;
    ChoiceIsKey(plan, items, n);
    var i := items[n].kind.service;
    assert plan.streams[i].packets[Count(items, n, OfService(i))][0] == 0x47;
    p := items[n].packets[0];
  }

  lemma EitTableItem(plan: Plan, items: seq<Item>, n: nat)
    requires ValidPlan(plan) && n < |items| && LegalAt(plan, items, n) && !items[n].kind.OfService?
    requires OnlyServices(plan)
    ensures On(items[n].packets, EIT_PID) == []
  {
    hide Choose, Supplied, TablePackets;
    ChoiceIsKey(plan, items, n);
    var kind := items[n].kind;
    OnTablePackets(Tables(plan, kind).tables, Count(items, n, kind), -1, EIT_PID);
  }

  /** On the EIT PID, which all services feed, the counters of the whole output are consecutive. */
  lemma {:induction false} EitIsConsecutive(plan: Plan, items: seq<Item>)
    requires ValidPlan(plan) && Legal(plan, items) && OnlyServices(plan)
    ensures EitCounting(EitCounter(items, |items|), On(Output(items), EIT_PID))
    decreases |items|
  {
    hide LegalAt, Output, On, OnlyServices, EitCounting;
    if items == [] {
      NoOutput(EIT_PID);
      EitStarts();
    } else {
      var k := |items| - 1;
      LegalPrefix(plan, items, k);
      EitIsConsecutive(plan, items[..k]);
      assert LegalAt(plan, items, k);
      SameCounts(items[..k], items, k, OfPat, 0);
      OnOutput(items, EIT_PID);
      var sent := On(Output(items[..k]), EIT_PID);
      if items[k].kind.OfService? {
        var p := EitServiceItem(plan, items, k);
        OnOne(p, EIT_PID);
        if Pid(p) == EIT_PID {
          EitGoesOn(EitCounter(items, k), sent, p);
        } else {
          assert sent + [] == sent;
        }
      } else {
        EitTableItem(plan, items, k);
        assert sent + [] == sent;
      }
    }
  }

  lemma EitStarts()
    ensures EitCounting(0, [])
  {
  }

  // ----- The check never reports a gap -----

  function NothingSeen(): (m: Counters)
    ensures forall pid :: 0 <= pid < 0x2000 ==> m[pid] == UNSEEN
  {
    seq(0x2000, i => UNSEEN)
  }

  lemma EitIsQuiet(plan: Plan, items: seq<Item>)
    requires ValidPlan(plan) && Legal(plan, items) && OnlyServices(plan)
    ensures Quiet(NothingSeen(), Output(items), EIT_PID)
  {
    EitIsConsecutive(plan, items);
    ConsecutiveIsQuiet(NothingSeen(), Output(items), EIT_PID, 0);
  }
}
