/**
 * The first packet of every service keeps its old PID. When that is the PID of a table, the
 * packets of the table are no longer alone on it.
 */
module Firsts {
  import opened Bytes
  import opened Continuity
  import opened Merge
  import opened Schedule
  import opened Sections
  import opened Streams

  /** The first packets of the first m services, as far as they are on this PID. */
  ghost function FirstsOn(plan: Plan, m: nat, pid: nat): seq<Packet>
    requires m <= |plan.streams| && Started(plan)
  {
    if m == 0 then []
    else
      var p := plan.streams[m - 1].packets[0];
      FirstsOn(plan, m - 1, pid) + if Pid(p) == pid then [p] else []
  }

  /** Every service has a first packet, due at once. */
  ghost predicate Started(plan: Plan) {
    forall i :: 0 <= i < |plan.streams| ==>
      plan.streams[i].packets != [] && plan.streams[i].dues != [] && plan.streams[i].dues[0] == 0
  }

  /** Of everything that is sent, only table j of this kind and first packets are on this PID. */
  ghost predicate OnlyFirsts(plan: Plan, kind: Kind, j: nat, pid: nat) {
    && !kind.OfService? && j < |Tables(plan, kind).tables| && pid != 0x1fff && pid != EIT_PID
    && Alone(Tables(plan, kind).tables, j, pid)
    && (forall k: Kind :: k != kind && !k.OfService? ==> Alone(Tables(plan, k).tables, -1, pid))
    && NoneBehind(plan, pid)
  }

  /** Behind its first packet, no service has a packet on this PID. */
  ghost predicate NoneBehind(plan: Plan, pid: nat) {
    forall i :: 0 <= i < |plan.streams| ==>
      forall k :: 0 < k < |plan.streams[i].packets| ==> Pid(plan.streams[i].packets[k]) != pid
  }

  /** The packets of repetitions a to b - 1 of a table. */
  ghost function Repetitions(t: Table, a: nat, b: nat): seq<Packet>
    requires t.pid < 0x2000 && t.cc < 16
    decreases b
  {
    if b <= a then [] else Repetitions(t, a, b - 1) + Sending(t, b - 1)
  }

  /**
   * What is on the PID of a table that was sent so many times, once the first packets of so many
   * services have been sent: these stand between the first and the second repetition.
   */
  ghost function Shared(plan: Plan, t: Table, times: nat, begun: nat): seq<Packet>
    requires t.pid < 0x2000 && t.cc < 16 && begun <= |plan.streams| && Started(plan)
  {
    if times == 0 then [] else Sending(t, 0) + FirstsOn(plan, begun, t.pid) + Repetitions(t, 1, times)
  }

  /** Exactly the first services have begun: begun of them. */
  ghost predicate Begun(plan: Plan, items: seq<Item>, n: nat, begun: nat)
    requires n <= |items|
  {
    && begun <= |plan.streams|
    && (forall i: nat :: i < begun ==> Count(items, n, OfService(i)) > 0)
    && (forall i: nat :: begun <= i < |plan.streams| ==> Count(items, n, OfService(i)) == 0)
  }

  // ----- Everything that is due at once is sent in order -----

  lemma ClockAtZero(items: seq<Item>, n: nat, kind: Kind, period: nat)
    requires n <= |items| && period > 0
    ensures Clock(items, n, kind, period) > 0 ==> Count(items, n, kind) > 0
    ensures Count(items, n, kind) > 0 ==> Clock(items, n, kind, period) > 0
  {
    ClockCounts(items, n, kind, period);
    if Count(items, n, kind) > 0 {
      OneMore(Count(items, n, kind) - 1, period);
    }
  }

  /** A service that begins is the first of those that have not, and all tables were sent before. */
  lemma BeginsInOrder(plan: Plan, items: seq<Item>, n: nat, begun: nat, kind: Kind)
    requires ValidPlan(plan) && Started(plan) && n < |items| && LegalAt(plan, items, n)
    requires Begun(plan, items, n, begun) && items[n].kind.OfService? && !kind.OfService?
    ensures var i := items[n].kind.service;
            i < |plan.streams| && (Count(items, n, OfService(i)) == 0 ==> i == begun)
    ensures Count(items, n, kind) > 0
  {
    hide Choose, PacketsOf;
    var i := items[n].kind.service;
    ChoiceIsKey(plan, items, n);
    ChoiceIsEarliest(plan, items, n, kind);
    ClockAtZero(items, n, kind, Tables(plan, kind).period);
    if Count(items, n, OfService(i)) == 0 && begun < i {
      ChosenIsLowest(plan, items, n, begun);
    }
  }

  /** When a table is sent again, all services have begun. */
  lemma RepeatedAfterAll(plan: Plan, items: seq<Item>, n: nat, begun: nat)
    requires ValidPlan(plan) && Started(plan) && n < |items| && LegalAt(plan, items, n)
    requires Begun(plan, items, n, begun) && !items[n].kind.OfService? && Count(items, n, items[n].kind) > 0
    ensures begun == |plan.streams|
  {
    hide Choose, PacketsOf;
    var kind := items[n].kind;
    ChoiceIsKey(plan, items, n);
    ClockAtZero(items, n, kind, Tables(plan, kind).period);
    if begun < |plan.streams| {
      ChoiceIsEarliest(plan, items, n, OfService(begun));
    }
  }

  lemma BegunNext(plan: Plan, items: seq<Item>, n: nat, begun: nat) returns (next: nat)
    requires ValidPlan(plan) && Started(plan) && n < |items| && LegalAt(plan, items, n) && Begun(plan, items, n, begun)
    ensures Begun(plan, items, n + 1, next)
    ensures next == if items[n].kind.OfService? && Count(items, n, items[n].kind) == 0 then begun + 1 else begun
    ensures items[n].kind.OfService? && Count(items, n, items[n].kind) == 0 ==> items[n].kind == OfService(begun)
  {
    hide LegalAt;
    var kind := items[n].kind;
    next := begun;
    if kind.OfService? {
      BeginsInOrder(plan, items, n, begun, OfPat);
      if Count(items, n, kind) == 0 {
        next := begun + 1;
      }
    }
  }

  // ----- What is on the PID -----

  lemma OnPidFirst(plan: Plan, items: seq<Item>, n: nat, pid: nat, begun: nat)
    requires ValidPlan(plan) && Started(plan) && n < |items| && LegalAt(plan, items, n)
    requires items[n].kind == OfService(begun) && begun < |plan.streams| && Count(items, n, OfService(begun)) == 0
    requires pid != EIT_PID
    ensures On(items[n].packets, pid)
         == if Pid(plan.streams[begun].packets[0]) == pid then [plan.streams[begun].packets[0]] else []
  {
    hide Choose;
    ChoiceIsKey(plan, items, n);
    OnOne(items[n].packets[0], pid);
  }

  lemma OnPidLater(plan: Plan, items: seq<Item>, n: nat, pid: nat)
    requires ValidPlan(plan) && n < |items| && LegalAt(plan, items, n) && items[n].kind.OfService?
    requires NoneBehind(plan, pid) && Count(items, n, items[n].kind) > 0
    ensures On(items[n].packets, pid) == []
  {
    hide Choose;
    ChoiceIsKey(plan, items, n);
    var i := items[n].kind.service;
    assert Pid(plan.streams[i].packets[Count(items, n, OfService(i))]) != pid;
    OnOne(items[n].packets[0], pid);
  }

  lemma OnPidTable(plan: Plan, items: seq<Item>, n: nat, kind: Kind, j: nat, pid: nat)
    requires ValidPlan(plan) && n < |items| && LegalAt(plan, items, n) && OnlyFirsts(plan, kind, j, pid)
    requires !items[n].kind.OfService?
    ensures On(items[n].packets, pid)
         == if items[n].kind == kind then Sending(Tables(plan, kind).tables[j], Count(items, n, kind)) else []
  {
    hide Choose, Supplied, Count, TablePackets, Sending;
    ChoiceIsKey(plan, items, n);
    var sent := items[n].kind;
    OnTablePackets(Tables(plan, sent).tables, Count(items, n, sent), if sent == kind then j else -1, pid);
  }

  lemma SharedNextTable(plan: Plan, t: Table, times: nat, begun: nat)
    requires t.pid < 0x2000 && t.cc < 16 && begun <= |plan.streams| && Started(plan)
    requires times == 0 ==> begun == 0
    ensures Shared(plan, t, times + 1, begun) == Shared(plan, t, times, begun) + Sending(t, times)
  {
  }

  lemma SharedNextFirst(plan: Plan, t: Table, begun: nat)
    requires t.pid < 0x2000 && t.cc < 16 && begun < |plan.streams| && Started(plan)
    ensures var p := plan.streams[begun].packets[0];
            Shared(plan, t, 1, begun + 1) == Shared(plan, t, 1, begun) + if Pid(p) == t.pid then [p] else []
  {
  }

  lemma NothingShared(plan: Plan, t: Table, pid: nat)
    requires t.pid < 0x2000 && t.cc < 16 && Started(plan)
    ensures Begun(plan, [], 0, 0) && On(Output([]), pid) == Shared(plan, t, 0, 0)
  {
  }

  lemma BegunAlike(plan: Plan, items: seq<Item>, longer: seq<Item>, n: nat, begun: nat)
    requires items <= longer && n <= |items| && Begun(plan, items, n, begun)
    ensures Begun(plan, longer, n, begun)
  {
    hide Count;
    forall i: nat | i < |plan.streams| ensures Count(items, n, OfService(i)) == Count(longer, n, OfService(i)) {
      SameCounts(items, longer, n, OfService(i), 0);
    }
  }

  /** One more item. */
  lemma OnTablePidNext(plan: Plan, items: seq<Item>, n: nat, kind: Kind, j: nat, pid: nat, was: nat, sent: seq<Packet>)
    returns (begun: nat, all: seq<Packet>)
    requires ValidPlan(plan) && Started(plan) && n < |items| && LegalAt(plan, items, n)
    requires OnlyFirsts(plan, kind, j, pid)
    requires Begun(plan, items, n, was)
    requires var times := Count(items, n, kind);
             && sent == Shared(plan, Tables(plan, kind).tables[j], times, was)
             && (times == 0 ==> was == 0) && (times >= 2 ==> was == |plan.streams|)
    ensures all == sent + On(items[n].packets, pid) && Begun(plan, items, n + 1, begun)
    ensures var times := Count(items, n + 1, kind);
            && all == Shared(plan, Tables(plan, kind).tables[j], times, begun)
            && (times == 0 ==> begun == 0) && (times >= 2 ==> begun == |plan.streams|)
  {
    hide LegalAt, Sending, On, Shared, Begun, Started;
    var t, times, sort := Tables(plan, kind).tables[j], Count(items, n, kind), items[n].kind;
    BegunBound(plan, items, n, was);
    begun := BegunNext(plan, items, n, was);
    all := sent + On(items[n].packets, pid);
    if !sort.OfService? {
      OnPidTable(plan, items, n, kind, j, pid);
      if sort == kind {
        SharedNextTable(plan, t, times, was);
        if times > 0 {
          RepeatedAfterAll(plan, items, n, was);
        }
      } else {
        assert sent + [] == sent;
      }
    } else {
      BeginsInOrder(plan, items, n, was, kind);
      if Count(items, n, sort) == 0 {
        BegunBound(plan, items, n + 1, begun);
        OnPidFirst(plan, items, n, pid, was);
        SharedNextFirst(plan, t, was);
      } else {
        OnPidLater(plan, items, n, pid);
        assert sent + [] == sent;
      }
    }
  }

  lemma BegunBound(plan: Plan, items: seq<Item>, n: nat, begun: nat)
    requires n <= |items| && Begun(plan, items, n, begun)
    ensures begun <= |plan.streams|
  {
  }

  /** The packets on the PID of a table, in the whole output of a run. */
  lemma {:induction false} OnTablePid(plan: Plan, items: seq<Item>, kind: Kind, j: nat, pid: nat) returns (begun: nat)
    requires ValidPlan(plan) && Started(plan) && Legal(plan, items) && OnlyFirsts(plan, kind, j, pid)
    ensures Begun(plan, items, |items|, begun)
    ensures var times := Count(items, |items|, kind);
            && On(Output(items), pid) == Shared(plan, Tables(plan, kind).tables[j], times, begun)
            && (times == 0 ==> begun == 0) && (times >= 2 ==> begun == |plan.streams|)
    decreases |items|
  {
    hide LegalAt, Sending, Output, On, Shared, Begun, Started;
    if items == [] {
      begun := 0;
      NothingShared(plan, Tables(plan, kind).tables[j], pid);
    } else {
      var n := |items| - 1;
      LegalPrefix(plan, items, n);
      var was := OnTablePid(plan, items[..n], kind, j, pid);
      assert LegalAt(plan, items, n);
      BegunAlike(plan, items[..n], items, n, was);
      SameCounts(items[..n], items, n, kind, 0);
      OnOutput(items, pid);
      var all;
      begun, all := OnTablePidNext(plan, items, n, kind, j, pid, was, On(Output(items[..n]), pid));
    }
  }

  // ----- A table that has its PID to itself -----

  /** No first packet is on this PID. */
  ghost predicate NoFirst(plan: Plan, pid: nat)
    requires Started(plan)
  {
    forall i :: 0 <= i < |plan.streams| ==> Pid(plan.streams[i].packets[0]) != pid
  }

  lemma {:induction false} NoFirstsOn(plan: Plan, m: nat, pid: nat)
    requires Started(plan) && m <= |plan.streams|
    requires forall k :: 0 <= k < m ==> Pid(plan.streams[k].packets[0]) != pid
    ensures FirstsOn(plan, m, pid) == []
  {
    if m > 0 {
      NoFirstsOn(plan, m - 1, pid);
    }
  }

  lemma {:induction false} FromTheFirst(t: Table, times: nat)
    requires t.pid < 0x2000 && t.cc < 16 && times > 0
    ensures Repetitions(t, 0, times) == Sending(t, 0) + Repetitions(t, 1, times)
  {
    hide Sending;
    if times > 1 {
      FromTheFirst(t, times - 1);
    } else {
      assert [] + Sending(t, 0) == Sending(t, 0) + [];
    }
  }

  /** On its PID are the repetitions of the table, one behind the other, and nothing else. */
  lemma AloneOnPid(plan: Plan, items: seq<Item>, kind: Kind, j: nat, pid: nat)
    requires ValidPlan(plan) && Started(plan) && Legal(plan, items) && OnlyFirsts(plan, kind, j, pid)
    requires NoFirst(plan, pid)
    ensures On(Output(items), pid) == Repetitions(Tables(plan, kind).tables[j], 0, Count(items, |items|, kind))
  {
    hide Legal, Output, On, Sending;
    var t, times := Tables(plan, kind).tables[j], Count(items, |items|, kind);
    var begun := OnTablePid(plan, items, kind, j, pid);
    BegunBound(plan, items, |items|, begun);
    NoFirstsOn(plan, begun, pid);
    if times > 0 {
      FromTheFirst(t, times);
      assert Sending(t, 0) + [] == Sending(t, 0);
    }
  }

  lemma {:induction false} RepetitionsCount(t: Table, times: nat)
    requires t.pid < 0x2000 && t.cc < 16
    ensures Counting(t, times, Repetitions(t, 0, times))
  {
    hide Sending, Counting;
    if times == 0 {
      CountingStarts(t);
    } else {
      RepetitionsCount(t, times - 1);
      CountingGoesOn(t, times - 1, Repetitions(t, 0, times - 1));
    }
  }

  /** On such a PID the counters of the whole output are consecutive. */
  lemma TableIsConsecutive(plan: Plan, items: seq<Item>, kind: Kind, j: nat, pid: nat)
    requires ValidPlan(plan) && Started(plan) && Legal(plan, items) && OnlyFirsts(plan, kind, j, pid)
    requires NoFirst(plan, pid)
    ensures Counting(Tables(plan, kind).tables[j], Count(items, |items|, kind), On(Output(items), pid))
  {
    hide Legal, Output, On, Counting;
    AloneOnPid(plan, items, kind, j, pid);
    RepetitionsCount(Tables(plan, kind).tables[j], Count(items, |items|, kind));
  }

  // ----- When the check stays quiet -----

  /** The counter of the last packet of the first repetition. */
  function CounterAfterFirst(t: Table): (c: byte)
    requires t.data != [] && t.cc < 16
    ensures c < 16
  {
    (t.cc + PacketCount(|t.data|) - 1) % 16
  }

  /**
   * The first packets on the PID of the table, in the order of the services, look like packets
   * of the table that change nothing: each has the counter expected of it, or the bit read as
   * the discontinuity indicator, and those with a payload bring the counter round to where it was.
   */
  ghost predicate FirstsPass(plan: Plan, t: Table)
    requires t.data != [] && t.cc < 16 && Started(plan)
  {
    var c, xs := CounterAfterFirst(t), FirstsOn(plan, |plan.streams|, t.pid);
    QuietOn(c, xs) && Last(c, xs) == c
  }

  lemma NothingPasses(cc: byte)
    ensures QuietOn(cc, []) && Last(cc, []) == cc
  {
  }

  /** One repetition after the other. */
  lemma {:induction false} RepetitionsQuiet(t: Table, a: nat, b: nat, was: byte)
    requires t.pid < 0x2000 && t.cc < 16 && t.data != [] && a < b && was == CounterBefore(CounterAt(t, a))
    ensures QuietOn(was, Repetitions(t, a, b)) && Last(was, Repetitions(t, a, b)) == CounterBefore(CounterAt(t, b))
    decreases b
  {
    hide Sending, QuietOn, Last, Consecutive, CounterAt, CounterBefore;
    var m := b - 1;
    if a < m {
      RepetitionsQuiet(t, a, m, was);
    } else {
      assert Repetitions(t, a, m) == [];
      NothingPasses(was);
    }
    SendingPasses(t, m);
    QuietAppend(was, Repetitions(t, a, m), Sending(t, m));
  }

  lemma SendingPasses(t: Table, times: nat)
    requires t.pid < 0x2000 && t.cc < 16 && t.data != []
    ensures var was := CounterBefore(CounterAt(t, times));
            && QuietOn(was, Sending(t, times)) && QuietOn(UNSEEN, Sending(t, times))
            && Last(was, Sending(t, times)) == Last(UNSEEN, Sending(t, times)) == CounterBefore(CounterAt(t, times + 1))
  {
    hide Sending, QuietOn, Last, Consecutive;
    SendingIsConsecutive(t, times);
    ConsecutiveIsQuietOn(CounterBefore(CounterAt(t, times)), Sending(t, times), CounterAt(t, times));
    ConsecutiveIsQuietOn(UNSEEN, Sending(t, times), CounterAt(t, times));
    BeforeNext(CounterAt(t, times), PacketCount(|t.data|));
  }

  lemma BeforeNext(cc: nat, n: nat)
    requires cc < 16 && n > 0
    ensures CounterBefore((cc + n) % 16) as int == (cc + (n - 1)) % 16
  {
  }

  lemma FirstEnds(t: Table)
    requires t.pid < 0x2000 && t.cc < 16 && t.data != []
    ensures CounterBefore(CounterAt(t, 1)) == CounterAfterFirst(t)
  {
    BeforeNext(t.cc, PacketCount(|t.data|));
    assert CounterAt(t, 0) == t.cc;
  }

  /** The first packets sent so far pass if all of them do. */
  lemma {:induction false} FirstsPrefix(plan: Plan, m: nat, n: nat, pid: nat, cc: byte)
    requires Started(plan) && m <= n <= |plan.streams| && QuietOn(cc, FirstsOn(plan, n, pid))
    ensures QuietOn(cc, FirstsOn(plan, m, pid))
  {
    if m < n {
      var p := plan.streams[n - 1].packets[0];
      QuietAppend(cc, FirstsOn(plan, n - 1, pid), if Pid(p) == pid then [p] else []);
      FirstsPrefix(plan, m, n - 1, pid, cc);
    }
  }

  lemma SharedQuiet(plan: Plan, t: Table, times: nat, begun: nat)
    requires t.pid < 0x2000 && t.cc < 16 && t.data != [] && begun <= |plan.streams| && Started(plan)
    requires times >= 2 ==> begun == |plan.streams|
    requires FirstsPass(plan, t)
    ensures QuietOn(UNSEEN, Shared(plan, t, times, begun))
  {
    hide Sending, QuietOn, Last, FirstsOn, CounterAt, CounterBefore, CounterAfterFirst, PacketCount, Repetitions;
    if times == 0 {
      NothingPasses(UNSEEN);
    } else {
      var c, xs, reps := CounterAfterFirst(t), FirstsOn(plan, begun, t.pid), Repetitions(t, 1, times);
      SendingPasses(t, 0);
      FirstEnds(t);
      FirstsPrefix(plan, begun, |plan.streams|, t.pid, c);
      QuietAppend(UNSEEN, Sending(t, 0), xs);
      QuietAppend(UNSEEN, Sending(t, 0) + xs, reps);
      if times >= 2 {
        RepetitionsQuiet(t, 1, times, c);
      } else {
        NoRepetitions(t, 1, times);
        NothingPasses(Last(c, xs));
      }
    }
  }

  lemma NoRepetitions(t: Table, a: nat, b: nat)
    requires t.pid < 0x2000 && t.cc < 16 && b <= a
    ensures Repetitions(t, a, b) == []
  {
  }

  /** Firsts that pass are never reported, however often the table is sent. */
  lemma QuietIf(plan: Plan, items: seq<Item>, kind: Kind, j: nat, pid: PidValue)
    requires ValidPlan(plan) && Started(plan) && Legal(plan, items) && OnlyFirsts(plan, kind, j, pid)
    requires FirstsPass(plan, Tables(plan, kind).tables[j])
    ensures Quiet(NothingSeen(), Output(items), pid)
  {
    hide Legal, Output, Quiet, QuietOn, FirstsPass, Shared, Started;
    var t := Tables(plan, kind).tables[j];
    var begun := OnTablePid(plan, items, kind, j, pid);
    BegunBound(plan, items, |items|, begun);
    SharedQuiet(plan, t, Count(items, |items|, kind), begun);
    QuietIsOnPid(NothingSeen(), Output(items), pid);
  }

  // ----- When it does not -----

  lemma {:induction false} LastIsCounter(cc: byte, ps: seq<Packet>)
    requires cc < 16
    ensures Last(cc, ps) < 16
  {
    if ps != [] {
      LastIsCounter(cc, ps[..|ps| - 1]);
    }
  }

  /** The second repetition is among those that follow. */
  lemma {:induction false} SecondRepetition(t: Table, times: nat, was: byte)
    requires t.pid < 0x2000 && t.cc < 16 && times >= 2 && QuietOn(was, Repetitions(t, 1, times))
    ensures QuietOn(was, Sending(t, 1))
    decreases times
  {
    hide QuietOn, Sending;
    QuietAppend(was, Repetitions(t, 1, times - 1), Sending(t, times - 1));
    if times > 2 {
      SecondRepetition(t, times - 1, was);
    } else {
      assert [] + Sending(t, 1) == Sending(t, 1);
    }
  }

  /** A repetition is not reported only if the counter before its own is remembered. */
  lemma OnlyAfterItsCounter(t: Table, times: nat, was: byte)
    requires t.pid < 0x2000 && t.cc < 16 && t.data != [] && t.data[0] < 128
    requires was < 16 && QuietOn(was, Sending(t, times))
    ensures was == CounterBefore(CounterAt(t, times))
  {
    hide QuietOn, Packetise, CounterAt;
    var ps, cc := Sending(t, times), CounterAt(t, times);
    FirstOfSending(t, times);
    assert ps == [ps[0]] + ps[1..];
    QuietAppend(was, [ps[0]], ps[1..]);
    CounterBits(ps[0], cc);
    OneQuiet(was, ps[0]);
  }

  lemma OneQuiet(was: byte, p: Packet)
    requires p[0] == 0x47
    ensures QuietOn(was, [p]) <==> !Gap(was, p)
    ensures Last(was, [p]) == Noted(was, p)
  {
    hide Gap, Noted;
    assert [p][..0] == [];
    NothingPasses(was);
  }

  lemma FirstOfSending(t: Table, times: nat)
    requires t.pid < 0x2000 && t.cc < 16 && t.data != []
    ensures var ps := Sending(t, times);
            ps != [] && ps[0][0] == 0x47 && ps[0][3] as int == 0x10 + CounterAt(t, times) && ps[0][5] == t.data[0]
  {
    var cc := CounterAt(t, times);
    PacketiseFields(t.data, t.pid, cc, 0);
    FirstPayload(t.data, t.pid, cc, 0);
  }

  lemma FirstsMustPass(plan: Plan, t: Table, times: nat)
    requires t.pid < 0x2000 && t.cc < 16 && t.data != [] && t.data[0] < 128 && Started(plan) && times >= 2
    requires QuietOn(UNSEEN, Shared(plan, t, times, |plan.streams|))
    ensures FirstsPass(plan, t)
  {
    hide Sending, QuietOn, Last, FirstsOn, CounterAt, CounterBefore, CounterAfterFirst, PacketCount, Repetitions;
    var c, xs, reps := CounterAfterFirst(t), FirstsOn(plan, |plan.streams|, t.pid), Repetitions(t, 1, times);
    SendingPasses(t, 0);
    FirstEnds(t);
    QuietAppend(UNSEEN, Sending(t, 0), xs);
    QuietAppend(UNSEEN, Sending(t, 0) + xs, reps);
    LastIsCounter(c, xs);
    SecondRepetition(t, times, Last(c, xs));
    OnlyAfterItsCounter(t, 1, Last(c, xs));
  }

  /**
   * Once a table has been sent a second time, the check has reported a gap on its PID or not,
   * and it has reported none if and only if the first packets on that PID pass.
   */
  lemma QuietIff(plan: Plan, items: seq<Item>, kind: Kind, j: nat, pid: PidValue)
    requires ValidPlan(plan) && Started(plan) && Legal(plan, items) && OnlyFirsts(plan, kind, j, pid)
    requires Tables(plan, kind).tables[j].data[0] < 128 && Count(items, |items|, kind) >= 2
    ensures Quiet(NothingSeen(), Output(items), pid) <==> FirstsPass(plan, Tables(plan, kind).tables[j])
  {
    hide Legal, Output, Quiet, QuietOn, FirstsPass, Shared, Started;
    var t, times := Tables(plan, kind).tables[j], Count(items, |items|, kind);
    if FirstsPass(plan, t) {
      QuietIf(plan, items, kind, j, pid);
    } else if Quiet(NothingSeen(), Output(items), pid) {
      var begun := OnTablePid(plan, items, kind, j, pid);
      QuietIsOnPid(NothingSeen(), Output(items), pid);
      FirstsMustPass(plan, t, times);
    }
  }

  // ----- What this means for one service -----

  /** The first packet of service i is on this PID, and it is the only one there. */
  ghost predicate OneFirst(plan: Plan, i: nat, pid: nat)
    requires Started(plan)
  {
    && i < |plan.streams|
    && forall k :: 0 <= k < |plan.streams| ==> (Pid(plan.streams[k].packets[0]) == pid <==> k == i)
  }

  lemma {:induction false} OneFirstOn(plan: Plan, m: nat, i: nat, pid: nat)
    requires Started(plan) && OneFirst(plan, i, pid) && i < m <= |plan.streams|
    ensures FirstsOn(plan, m, pid) == [plan.streams[i].packets[0]]
  {
    if m - 1 == i {
      NoFirstsOn(plan, i, pid);
    } else {
      OneFirstOn(plan, m - 1, i, pid);
    }
  }

  /** Without a first packet on the PID there is nothing to report. */
  lemma NoFirstPasses(plan: Plan, t: Table)
    requires t.data != [] && t.cc < 16 && Started(plan) && NoFirst(plan, t.pid)
    ensures FirstsPass(plan, t)
  {
    NoFirstsOn(plan, |plan.streams|, t.pid);
    NothingPasses(CounterAfterFirst(t));
  }

  /**
   * A single first packet on the PID passes only if it has no payload, and then only if its
   * counter happens to be that of the last packet of the table or its sixth byte has the top bit.
   */
  lemma OneFirstPassesIff(plan: Plan, t: Table, i: nat)
    requires t.data != [] && t.cc < 16 && Started(plan) && OneFirst(plan, i, t.pid)
    requires plan.streams[i].packets[0][0] == 0x47
    ensures var p := plan.streams[i].packets[0];
            FirstsPass(plan, t) <==>
              !HasPayload(p) && (p[5] >= 128 || Counter(p) == CounterAfterFirst(t) as int)
  {
    var c, p := CounterAfterFirst(t), plan.streams[i].packets[0];
    hide QuietOn, Last, FirstsOn, CounterAfterFirst, HasPayload;
    OneFirstOn(plan, |plan.streams|, i, t.pid);
    OneQuiet(c, p);
  }

  /** Every first packet has its sync byte and a payload. */
  ghost predicate Loaded(plan: Plan)
    requires Started(plan)
  {
    forall i :: 0 <= i < |plan.streams| ==>
      plan.streams[i].packets[0][0] == 0x47 && HasPayload(plan.streams[i].packets[0])
  }

  /** First packets with payloads that are not reported move the counter on by their number. */
  lemma {:induction false} LoadedMoveOn(plan: Plan, m: nat, pid: nat, c: byte)
    requires Started(plan) && Loaded(plan) && m <= |plan.streams| && c < 16
    requires QuietOn(c, FirstsOn(plan, m, pid))
    ensures |FirstsOn(plan, m, pid)| <= m
    ensures Last(c, FirstsOn(plan, m, pid)) as int == (c as int + |FirstsOn(plan, m, pid)|) % 16
  {
    hide QuietOn, Last, HasPayload;
    if m == 0 {
      NothingPasses(c);
    } else {
      var p, xs := plan.streams[m - 1].packets[0], FirstsOn(plan, m - 1, pid);
      if Pid(p) == pid {
        QuietAppend(c, xs, [p]);
        LoadedMoveOn(plan, m - 1, pid, c);
        OneQuiet(Last(c, xs), p);
        NextCounter(c as int, |xs| + 1);
      } else {
        assert xs + [] == xs;
        LoadedMoveOn(plan, m - 1, pid, c);
      }
    }
  }

  lemma {:induction false} SomeFirstOn(plan: Plan, m: nat, i: nat, pid: nat)
    requires Started(plan) && i < m <= |plan.streams| && Pid(plan.streams[i].packets[0]) == pid
    ensures FirstsOn(plan, m, pid) != []
  {
    if i < m - 1 {
      SomeFirstOn(plan, m - 1, i, pid);
    }
  }

  /** Fewer than sixteen first packets with payloads pass only if none of them is on the PID. */
  lemma FewPassIff(plan: Plan, t: Table)
    requires t.data != [] && t.cc < 16 && Started(plan) && Loaded(plan) && |plan.streams| < 16
    ensures FirstsPass(plan, t) <==> NoFirst(plan, t.pid)
  {
    hide FirstsOn, QuietOn, Last, CounterAfterFirst, Loaded;
    if NoFirst(plan, t.pid) {
      NoFirstPasses(plan, t);
    } else if FirstsPass(plan, t) {
      var i :| 0 <= i < |plan.streams| && Pid(plan.streams[i].packets[0]) == t.pid;
      SomeFirstOn(plan, |plan.streams|, i, t.pid);
      LoadedMoveOn(plan, |plan.streams|, t.pid, CounterAfterFirst(t));
    }
  }

  // ----- PIDs that services share -----

  /** Packet k of service i and packet l of service j. */
  ghost predicate TwoPackets(plan: Plan, i: int, k: int, j: int, l: int) {
    && 0 <= i < |plan.streams| && 0 <= k < |plan.streams[i].packets|
    && 0 <= j < |plan.streams| && 0 <= l < |plan.streams[j].packets|
  }

  /** No two services have a packet on the same PID, but for the EIT PID. */
  ghost predicate ServicesApart(plan: Plan) {
    forall i, k, j, l | TwoPackets(plan, i, k, j, l) && i != j ::
      Pid(plan.streams[i].packets[k]) == Pid(plan.streams[j].packets[l]) ==>
        Pid(plan.streams[i].packets[k]) == EIT_PID
  }

  /** No other service has a packet on the PID of the first packet of service i. */
  ghost predicate FirstApart(plan: Plan, i: nat)
    requires Started(plan) && i < |plan.streams|
  {
    forall j, l | TwoPackets(plan, i, 0, j, l) && i != j ::
      Pid(plan.streams[j].packets[l]) != Pid(plan.streams[i].packets[0])
  }

  lemma FirstApartHas(plan: Plan, i: nat)
    requires Started(plan) && i < |plan.streams|
    ensures FirstApart(plan, i) <==> forall j | 0 <= j < |plan.streams| && i != j ::
              !HasPid(plan.streams[j].packets, Pid(plan.streams[i].packets[0]))
  {
    var pid := Pid(plan.streams[i].packets[0]);
    if FirstApart(plan, i) {
      forall j, l | 0 <= j < |plan.streams| && i != j && 0 <= l < |plan.streams[j].packets|
        ensures Pid(plan.streams[j].packets[l]) != pid
      {
        assert TwoPackets(plan, i, 0, j, l);
      }
    }
  }

  /** Behind the first packets, no two services have a packet on the same PID, but for the EIT PID. */
  ghost predicate LaterApart(plan: Plan) {
    forall i, k, j, l | TwoPackets(plan, i, k, j, l) && i != j && k > 0 && l > 0 ::
      Pid(plan.streams[i].packets[k]) == Pid(plan.streams[j].packets[l]) ==>
        Pid(plan.streams[i].packets[k]) == EIT_PID
  }

  /** Then only first packets can meet packets of another service. */
  lemma ApartIff(plan: Plan)
    requires Started(plan) && LaterApart(plan)
    requires forall i :: 0 <= i < |plan.streams| ==> Pid(plan.streams[i].packets[0]) != EIT_PID
    ensures ServicesApart(plan) <==> forall i: nat :: i < |plan.streams| ==> FirstApart(plan, i)
  {
    if ServicesApart(plan) {
      forall i: nat | i < |plan.streams| ensures FirstApart(plan, i) {
        forall j, l | TwoPackets(plan, i, 0, j, l) && i != j
          ensures Pid(plan.streams[j].packets[l]) != Pid(plan.streams[i].packets[0])
        {
        }
      }
    } else {
      var i, k, j, l :| TwoPackets(plan, i, k, j, l) && i != j
        && Pid(plan.streams[i].packets[k]) == Pid(plan.streams[j].packets[l]) != EIT_PID;
      assert k == 0 || l == 0;
      assert TwoPackets(plan, i, 0, j, l) && TwoPackets(plan, j, 0, i, k);
      assert !FirstApart(plan, i) || !FirstApart(plan, j);
    }
  }

  // ----- A run in which it does not -----

  /** A packet on this PID with a payload, a clock reference of zero and the counter 0. */
  function ReferenceOn(pid: byte): (p: Packet)
    ensures Pid(p) == pid as int && p[0] == 0x47 && p[5] < 128 && HasPayload(p)
  {
    var p: Packet := [0x47, 0, pid, 0x30, 7, 0x10] + seq(182, i => 0);
    assert Rem(Quot(0x30, 16), 4) == 3;
    p
  }

  /** One service that has its references on PID 100, which is that of its new PMT. */
  ghost function Clash(pat: Bytes, pmt: Bytes, sdt: Bytes, nit: Bytes): (plan: Plan)
    requires pat != [] && pmt != [] && sdt != [] && nit != []
    ensures ValidPlan(plan) && Started(plan) && Loaded(plan) && OnlyFirsts(plan, OfPmt, 0, 100)
  {
    var stream := Stream([ReferenceOn(100), ReferenceOn(101)], [0, 5]);
    Plan([stream], Repeated([Table(pat, 0, 0)], 2), Repeated([Table(pmt, 100, 0)], 1),
         Repeated([Table(sdt, 0x11, 0)], 2), Repeated([Table(nit, 0x10, 0)], 2))
  }

  /** So many packets of the service and repetitions of the tables were sent. */
  ghost predicate Sent(items: seq<Item>, sv: nat, pat: nat, pmt: nat, sdt: nat, nit: nat) {
    && Count(items, |items|, OfService(0)) == sv && Count(items, |items|, OfPat) == pat
    && Count(items, |items|, OfPmt) == pmt && Count(items, |items|, OfSdt) == sdt
    && Count(items, |items|, OfNit) == nit
  }

  /** What is sent next depends on these numbers only. */
  lemma ClashChoice(plan: Plan, items: seq<Item>, sv: nat, pat: nat, pmt: nat, sdt: nat, nit: nat)
    requires ValidPlan(plan) && |plan.streams| == 1 && Sent(items, sv, pat, pmt, sdt, nit)
    requires sv < |plan.streams[0].dues|
    ensures Supplied(plan, items, |items|)
    ensures Choose(plan, items, |items|)
         == Prefer(Prefer(Prefer(Prefer(Choice(OfService(0), plan.streams[0].dues[sv]),
                                        OfPat, pat * plan.pat.period), OfPmt, pmt * plan.pmt.period),
                          OfSdt, sdt * plan.sdt.period), OfNit, nit * plan.nit.period)
  {
    ClockCounts(items, |items|, OfPat, plan.pat.period);
    ClockCounts(items, |items|, OfPmt, plan.pmt.period);
    ClockCounts(items, |items|, OfSdt, plan.sdt.period);
    ClockCounts(items, |items|, OfNit, plan.nit.period);
  }

  /** One more item. */
  lemma Turn(plan: Plan, items: seq<Item>, kind: Kind) returns (longer: seq<Item>)
    requires ValidPlan(plan) && Legal(plan, items) && Supplied(plan, items, |items|)
    requires Choose(plan, items, |items|).kind == kind
    ensures Legal(plan, longer) && |longer| == |items| + 1 && items <= longer && longer[|items|].kind == kind
    ensures forall k: Kind :: Count(longer, |longer|, k) == Count(items, |items|, k) + if k == kind then 1 else 0
  {
    hide Choose, Supplied, PacketsOf, Legal;
    var x := NextItem(plan, items, |items|);
    longer := items + [x];
    LegalAppend(plan, items, x);
    forall k: Kind ensures Count(longer, |longer|, k) == Count(items, |items|, k) + if k == kind then 1 else 0 {
      SameCounts(items, longer, |items|, k, 0);
    }
  }

  /** NIT, SDT, PMT, PAT, the first packet, and the PMT again: the check reports a gap on PID 100. */
  lemma ClashIsReported(pat: Bytes, pmt: Bytes, sdt: Bytes, nit: Bytes) returns (items: seq<Item>)
    requires pat != [] && pmt != [] && sdt != [] && nit != [] && pmt[0] < 128
    ensures Legal(Clash(pat, pmt, sdt, nit), items)
    ensures Sent(items, 1, 1, 2, 1, 1) && !Quiet(NothingSeen(), Output(items), 100)
  {
    hide Legal, Supplied, Choose, Quiet, Output, FirstsPass, Count, Loaded;
    var plan := Clash(pat, pmt, sdt, nit);
    items := [];
    Nothing(plan);
    ClashChoice(plan, items, 0, 0, 0, 0, 0);
    items := Turn(plan, items, OfNit);
    ClashChoice(plan, items, 0, 0, 0, 0, 1);
    items := Turn(plan, items, OfSdt);
    ClashChoice(plan, items, 0, 0, 0, 1, 1);
    items := Turn(plan, items, OfPmt);
    ClashChoice(plan, items, 0, 0, 1, 1, 1);
    items := Turn(plan, items, OfPat);
    ClashChoice(plan, items, 0, 1, 1, 1, 1);
    items := Turn(plan, items, OfService(0));
    ClashChoice(plan, items, 1, 1, 1, 1, 1);
    items := Turn(plan, items, OfPmt);
    QuietIff(plan, items, OfPmt, 0, 100);
    FewPassIff(plan, plan.pmt.tables[0]);
  }

  lemma Nothing(plan: Plan)
    requires ValidPlan(plan)
    ensures Legal(plan, []) && Sent([], 0, 0, 0, 0, 0)
  {
  }
}
