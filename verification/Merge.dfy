/**
 * The multiplexer's schedule as a rule: which item comes next, given everything sent so far.
 * Services are merged earliest position first, and the tables are repeated by their clocks.
 */
module Merge {
  import opened Arithmetic
  import opened Bytes
  import opened Schedule
  import opened Sections
  import opened Streams

  /** A section that is repeated, its PID, and the counter of its very first packet. */
  datatype Table = Table(data: Bytes, pid: nat, cc: nat)

  /** Tables that are sent together, once every period bits. */
  datatype Repeated = Repeated(tables: seq<Table>, period: nat)

  /** The packets of a service and their due positions, as far as they are known. */
  datatype Stream = Stream(packets: seq<Packet>, dues: seq<nat>)

  datatype Plan = Plan(streams: seq<Stream>, pat: Repeated, pmt: Repeated, sdt: Repeated, nit: Repeated)

  ghost predicate ValidRepeated(r: Repeated) {
    && r.period > 0 && r.tables != []
    && forall i :: 0 <= i < |r.tables| ==> r.tables[i].data != [] && r.tables[i].pid < 0x2000 && r.tables[i].cc < 16
  }

  ghost predicate ValidPlan(plan: Plan) {
    && plan.streams != []
    && (forall i :: 0 <= i < |plan.streams| ==>
          Sorted(plan.streams[i].dues) && |plan.streams[i].dues| == |plan.streams[i].packets|)
    && ValidRepeated(plan.pat) && ValidRepeated(plan.pmt) && ValidRepeated(plan.sdt) && ValidRepeated(plan.nit)
  }

  /** The kinds of items a plan has. */
  ghost predicate KindOf(plan: Plan, kind: Kind) {
    kind.OfService? ==> kind.service < |plan.streams|
  }

  function Tables(plan: Plan, kind: Kind): Repeated
    requires !kind.OfService?
  {
    match kind
    case OfPat => plan.pat
    case OfPmt => plan.pmt
    case OfSdt => plan.sdt
    case OfNit => plan.nit
  }

  /** How many of the first n items are of this kind. */
  function Count(items: seq<Item>, n: nat, kind: Kind): (c: nat)
    requires n <= |items|
    ensures c <= n
  {
    if n == 0 then 0 else Count(items, n - 1, kind) + if items[n - 1].kind == kind then 1 else 0
  }

  /** The position at which tables with this period are next due. */
  function Clock(items: seq<Item>, n: nat, kind: Kind, period: nat): nat
    requires n <= |items|
  {
    if n == 0 then 0 else Clock(items, n - 1, kind, period) + if items[n - 1].kind == kind then period else 0
  }

  /** Every service has a packet whose position is known. */
  ghost predicate Supplied(plan: Plan, items: seq<Item>, n: nat)
    requires n <= |items|
  {
    forall i: nat :: i < |plan.streams| ==> Count(items, n, OfService(i)) < |plan.streams[i].dues|
  }

  /** When an item of this kind is next due. */
  ghost function Key(plan: Plan, items: seq<Item>, n: nat, kind: Kind): nat
    requires n <= |items| && KindOf(plan, kind)
    requires kind.OfService? ==> Count(items, n, kind) < |plan.streams[kind.service].dues|
  {
    if kind.OfService? then plan.streams[kind.service].dues[Count(items, n, kind)]
    else Clock(items, n, kind, Tables(plan, kind).period)
  }

  /** The service with the earliest packet, among the first m; the first one of several. */
  ghost function Urgent(plan: Plan, items: seq<Item>, n: nat, m: nat): (i: nat)
    requires n <= |items| && 1 <= m <= |plan.streams| && Supplied(plan, items, n)
    ensures i < m
  {
    if m == 1 then 0
    else
      var best := Urgent(plan, items, n, m - 1);
      if Key(plan, items, n, OfService(m - 1)) < Key(plan, items, n, OfService(best)) then m - 1 else best
  }

  datatype Choice = Choice(kind: Kind, due: nat)

  /** Tables go first when they are due no later than the choice so far. */
  function Prefer(c: Choice, kind: Kind, clock: nat): Choice {
    if clock <= c.due then Choice(kind, clock) else c
  }

  ghost function Choose(plan: Plan, items: seq<Item>, n: nat): Choice
    requires n <= |items| && plan.streams != [] && Supplied(plan, items, n)
  {
    var first := OfService(Urgent(plan, items, n, |plan.streams|));
    var c0 := Choice(first, Key(plan, items, n, first));
    var c1 := Prefer(c0, OfPat, Key(plan, items, n, OfPat));
    var c2 := Prefer(c1, OfPmt, Key(plan, items, n, OfPmt));
    var c3 := Prefer(c2, OfSdt, Key(plan, items, n, OfSdt));
    Prefer(c3, OfNit, Key(plan, items, n, OfNit))
  }

  // ----- The packets of an item -----

  /** The counter of the first packet of a table when it has been sent this many times. */
  function CounterAt(t: Table, times: nat): (cc: nat)
    requires t.cc < 16
    ensures cc < 16
  {
    if times == 0 then t.cc else (CounterAt(t, times - 1) + PacketCount(|t.data|)) % 16
  }

  function TablePackets(ts: seq<Table>, times: nat): seq<Packet>
    requires forall i :: 0 <= i < |ts| ==> ts[i].pid < 0x2000 && ts[i].cc < 16
  {
    if ts == [] then []
    else
      var k := |ts| - 1;
      TablePackets(ts[..k], times) + Packetise(ts[k].data, ts[k].pid, CounterAt(ts[k], times))
  }

  /** The shared counter of the packets on the EIT PID. */
  function EitCounter(items: seq<Item>, n: nat): (cc: nat)
    requires n <= |items|
    ensures cc < 16
  {
    if n == 0 then 0
    else if items[n - 1].kind.OfService? && items[n - 1].packets != [] && Pid(items[n - 1].packets[0]) == EIT_PID
    then (EitCounter(items, n - 1) + 1) % 16
    else EitCounter(items, n - 1)
  }

  ghost function PacketsOf(plan: Plan, items: seq<Item>, n: nat, kind: Kind): seq<Packet>
    requires n <= |items| && ValidPlan(plan) && KindOf(plan, kind) && Supplied(plan, items, n)
  {
    if kind.OfService?
    then [Counted(plan.streams[kind.service].packets[Count(items, n, kind)], EitCounter(items, n))]
    else TablePackets(Tables(plan, kind).tables, Count(items, n, kind))
  }

  /** The item that has to follow the first n. */
  ghost function NextItem(plan: Plan, items: seq<Item>, n: nat): Item
    requires n <= |items| && ValidPlan(plan) && Supplied(plan, items, n)
  {
    var c := Choose(plan, items, n);
    ChoiceIsKey(plan, items, n);
    Item(c.kind, c.due, Padded(Before(items, n), c.due), PacketsOf(plan, items, n, c.kind))
  }

  ghost predicate LegalAt(plan: Plan, items: seq<Item>, n: nat)
    requires n < |items| && ValidPlan(plan)
  {
    Supplied(plan, items, n) && items[n] == NextItem(plan, items, n)
  }

  /** A trace of the multiplexer. */
  ghost predicate Legal(plan: Plan, items: seq<Item>)
    requires ValidPlan(plan)
  {
    forall n: nat | n < |items| :: LegalAt(plan, items, n)
  }

  // ----- Every choice is the earliest -----

  lemma {:induction false} UrgentIsFirst(plan: Plan, items: seq<Item>, n: nat, m: nat, i: nat)
    requires n <= |items| && i < m <= |plan.streams| && Supplied(plan, items, n)
    ensures Key(plan, items, n, OfService(Urgent(plan, items, n, m))) <= Key(plan, items, n, OfService(i))
  {
    if m > 1 && i < m - 1 {
      UrgentIsFirst(plan, items, n, m - 1, i);
    } else if m > 1 {
      UrgentIsFirst(plan, items, n, m - 1, 0);
    }
  }

  /** Of several services with the earliest position the first one is chosen. */
  lemma {:induction false} UrgentIsLowest(plan: Plan, items: seq<Item>, n: nat, m: nat, i: nat)
    requires n <= |items| && 1 <= m <= |plan.streams| && Supplied(plan, items, n)
    requires i < Urgent(plan, items, n, m)
    ensures Key(plan, items, n, OfService(Urgent(plan, items, n, m))) < Key(plan, items, n, OfService(i))
  {
    if m > 1 {
      var best := Urgent(plan, items, n, m - 1);
      if Urgent(plan, items, n, m) == best {
        UrgentIsLowest(plan, items, n, m - 1, i);
      } else {
        UrgentIsFirst(plan, items, n, m - 1, i);
      }
    }
  }

  lemma ChosenIsLowest(plan: Plan, items: seq<Item>, n: nat, i: nat)
    requires n <= |items| && plan.streams != [] && Supplied(plan, items, n)
    requires var c := Choose(plan, items, n); c.kind.OfService? && i < c.kind.service
    ensures Choose(plan, items, n).due < Key(plan, items, n, OfService(i))
  {
    hide Key, Urgent;
    UrgentIsLowest(plan, items, n, |plan.streams|, i);
  }

  lemma ChoiceIsKey(plan: Plan, items: seq<Item>, n: nat)
    requires n <= |items| && plan.streams != [] && Supplied(plan, items, n)
    ensures var c := Choose(plan, items, n); KindOf(plan, c.kind) && c.due == Key(plan, items, n, c.kind)
  {
    hide Key;
  }

  /** Nothing is due earlier than what is chosen; a service is chosen only before all tables. */
  lemma ChoiceIsEarliest(plan: Plan, items: seq<Item>, n: nat, kind: Kind)
    requires n <= |items| && plan.streams != [] && Supplied(plan, items, n) && KindOf(plan, kind)
    ensures var c := Choose(plan, items, n);
            && c.due <= Key(plan, items, n, kind)
            && (c.kind.OfService? && !kind.OfService? ==> c.due < Key(plan, items, n, kind))
  {
    hide Key, Urgent;
    if kind.OfService? {
      UrgentIsFirst(plan, items, n, |plan.streams|, kind.service);
    }
  }

  // ----- Items leave in the order in which they are due -----

  lemma KeyGrows(plan: Plan, items: seq<Item>, n: nat, kind: Kind)
    requires n < |items| && ValidPlan(plan) && KindOf(plan, kind)
    requires Supplied(plan, items, n) && Supplied(plan, items, n + 1)
    ensures Key(plan, items, n, kind) <= Key(plan, items, n + 1, kind)
  {
    if kind.OfService? {
      assert Sorted(plan.streams[kind.service].dues);
      assert Count(items, n, kind) <= Count(items, n + 1, kind) < |plan.streams[kind.service].dues|;
    }
  }

  /** An item is due no later than anything that can follow it. */
  lemma DueBeforeKey(plan: Plan, items: seq<Item>, n: nat, kind: Kind)
    requires n < |items| && ValidPlan(plan) && KindOf(plan, kind)
    requires LegalAt(plan, items, n) && Supplied(plan, items, n + 1)
    ensures items[n].due <= Key(plan, items, n + 1, kind)
  {
    hide Key, Choose, Supplied, KindOf;
    ChoiceIsEarliest(plan, items, n, kind);
    KeyGrows(plan, items, n, kind);
  }

  lemma NextNotEarlier(plan: Plan, items: seq<Item>, n: nat)
    requires n < |items| && ValidPlan(plan) && LegalAt(plan, items, n) && Supplied(plan, items, n + 1)
    ensures items[n].due <= Choose(plan, items, n + 1).due
  {
    hide Choose, Supplied, Key;
    ChoiceIsKey(plan, items, n + 1);
    DueBeforeKey(plan, items, n, Choose(plan, items, n + 1).kind);
  }

  lemma {:induction false} DueOrder(plan: Plan, items: seq<Item>, j: nat, k: nat)
    requires ValidPlan(plan) && Legal(plan, items) && j <= k < |items|
    ensures items[j].due <= items[k].due
  {
    hide Choose, Supplied;
    if j < k {
      DueOrder(plan, items, j, k - 1);
      assert LegalAt(plan, items, k - 1) && LegalAt(plan, items, k);
      NextNotEarlier(plan, items, k - 1);
    }
  }

  lemma {:induction false} TablePacketsSome(ts: seq<Table>, times: nat)
    requires forall i :: 0 <= i < |ts| ==> ts[i].data != [] && ts[i].pid < 0x2000 && ts[i].cc < 16
    ensures ts != [] ==> TablePackets(ts, times) != []
  {
    if ts != [] {
      var t := ts[|ts| - 1];
      assert |Packetise(t.data, t.pid, CounterAt(t, times))| == PacketCount(|t.data|) > 0;
    }
  }

  lemma PacketsSome(plan: Plan, items: seq<Item>, n: nat, kind: Kind)
    requires n <= |items| && ValidPlan(plan) && KindOf(plan, kind) && Supplied(plan, items, n)
    ensures PacketsOf(plan, items, n, kind) != []
  {
    if !kind.OfService? {
      TablePacketsSome(Tables(plan, kind).tables, Count(items, n, kind));
    }
  }

  /** Every trace is sent in the order of the due positions, and as soon as possible. */
  lemma LegalIsOrdered(plan: Plan, items: seq<Item>)
    requires ValidPlan(plan) && Legal(plan, items)
    ensures Ordered(items) && Spaced(items)
  {
    hide Choose, Supplied, PacketsOf;
    forall j: nat, k: nat | j <= k < |items| ensures items[j].due <= items[k].due {
      DueOrder(plan, items, j, k);
    }
    forall k: nat | k < |items| ensures items[k].packets != [] && SpacedAt(items, k) {
      assert LegalAt(plan, items, k);
      ChoiceIsKey(plan, items, k);
      PacketsSome(plan, items, k, Choose(plan, items, k).kind);
    }
  }

  /** What the multiplexer sends is never early and never a whole burst late. */
  lemma LegalIsOnTime(plan: Plan, items: seq<Item>, burst: nat, k: nat)
    requires ValidPlan(plan) && Legal(plan, items) && Bounded(items, burst) && k < |items|
    ensures items[k].due <= Start(items[k]) < items[k].due + PACKET_BITS * burst
  {
    LegalIsOrdered(plan, items);
    LatenessBound(items, burst, k);
  }

  // ----- Exact repetition -----

  lemma {:induction false} ClockCounts(items: seq<Item>, n: nat, kind: Kind, period: nat)
    requires n <= |items|
    ensures Clock(items, n, kind, period) == Count(items, n, kind) * period
  {
    if n > 0 {
      ClockCounts(items, n - 1, kind, period);
      OneMore(Count(items, n - 1, kind), period);
    }
  }

  lemma OneMore(c: nat, p: nat)
    ensures (c + 1) * p == c * p + p
  {
  }

  /** A clock is never more than one period ahead of what is sent next. */
  lemma {:induction false} ClockNotAhead(plan: Plan, items: seq<Item>, n: nat, kind: Kind)
    requires ValidPlan(plan) && Legal(plan, items) && n < |items| && !kind.OfService?
    ensures Clock(items, n, kind, Tables(plan, kind).period) <= items[n].due + Tables(plan, kind).period
  {
    hide Choose, Supplied, PacketsOf;
    if n > 0 {
      ClockNotAhead(plan, items, n - 1, kind);
      DueOrder(plan, items, n - 1, n);
      assert LegalAt(plan, items, n - 1);
      ChoiceIsKey(plan, items, n - 1);
    }
  }

  /**
   * When a service packet due at position d is sent, each table has been sent exactly
   * d / period + 1 times.
   */
  lemma {:induction false} ExactRepetition(plan: Plan, items: seq<Item>, n: nat, kind: Kind)
    requires ValidPlan(plan) && Legal(plan, items) && n < |items|
    requires items[n].kind.OfService? && !kind.OfService?
    ensures Count(items, n, kind) == items[n].due / Tables(plan, kind).period + 1
  {
    hide Choose, Supplied, PacketsOf;
    var d, c, p := items[n].due, Count(items, n, kind), Tables(plan, kind).period;
    ClockNotAhead(plan, items, n, kind);
    ClockCounts(items, n, kind, p);
    assert LegalAt(plan, items, n);
    ChoiceIsEarliest(plan, items, n, kind);
    CountFromClock(d, c, p);
  }

  /** How many of the first n items are packets of services. */
  function ServiceItems(items: seq<Item>, n: nat): nat
    requires n <= |items|
  {
    if n == 0 then 0 else ServiceItems(items, n - 1) + if items[n - 1].kind.OfService? then 1 else 0
  }

  lemma {:induction false} KindsAddUp(items: seq<Item>, n: nat)
    requires n <= |items|
    ensures n == ServiceItems(items, n) + Count(items, n, OfPat) + Count(items, n, OfPmt)
                 + Count(items, n, OfSdt) + Count(items, n, OfNit)
  {
    if n > 0 {
      KindsAddUp(items, n - 1);
    }
  }

  /**
   * Tables cannot hold a service back: before the packet due at position d, besides packets of
   * services, only that fixed number of table items is sent.
   */
  lemma ItemsBefore(plan: Plan, items: seq<Item>, n: nat)
    requires ValidPlan(plan) && Legal(plan, items) && n < |items| && items[n].kind.OfService?
    ensures var d := items[n].due;
            n == ServiceItems(items, n) + d / plan.pat.period + d / plan.pmt.period
                 + d / plan.sdt.period + d / plan.nit.period + 4
  {
    hide Legal;
    KindsAddUp(items, n);
    ExactRepetition(plan, items, n, OfPat);
    ExactRepetition(plan, items, n, OfPmt);
    ExactRepetition(plan, items, n, OfSdt);
    ExactRepetition(plan, items, n, OfNit);
  }

  lemma CountFromClock(d: nat, c: nat, p: nat)
    requires p > 0 && d < c * p <= d + p
    ensures c == d / p + 1
  {
    assert c != 0;
    assert c * p == (c - 1) * p + p;
    DivisionIs(d, p, c - 1, d - (c - 1) * p);
  }

  // ----- Each service's packets leave once and in order -----

  /** What was sent of one service, and the positions it was due at. */
  function SentOf(items: seq<Item>, n: nat, service: nat): seq<Packet>
    requires n <= |items|
  {
    if n == 0 then []
    else SentOf(items, n - 1, service) + if items[n - 1].kind == OfService(service) then items[n - 1].packets else []
  }

  function DuesOf(items: seq<Item>, n: nat, service: nat): seq<nat>
    requires n <= |items|
  {
    if n == 0 then []
    else DuesOf(items, n - 1, service) + if items[n - 1].kind == OfService(service) then [items[n - 1].due] else []
  }

  /** The same packet; on the EIT PID its counter may be another. */
  predicate SameButCounter(p: Packet, q: Packet) {
    q == p || (Pid(p) == EIT_PID && q == p[3 := q[3]])
  }

  ghost predicate AllSame(ps: seq<Packet>, qs: seq<Packet>) {
    |ps| == |qs| && forall j :: 0 <= j < |ps| ==> SameButCounter(ps[j], qs[j])
  }

  lemma SentNext(plan: Plan, items: seq<Item>, n: nat, service: nat)
    requires ValidPlan(plan) && n < |items| && LegalAt(plan, items, n) && service < |plan.streams|
    requires items[n].kind == OfService(service)
    ensures Count(items, n, OfService(service)) < |plan.streams[service].packets|
    ensures items[n].due == plan.streams[service].dues[Count(items, n, OfService(service))]
    ensures exists q :: items[n].packets == [q]
              && SameButCounter(plan.streams[service].packets[Count(items, n, OfService(service))], q)
  {
    hide Choose;
    ChoiceIsKey(plan, items, n);
    var p, cc := plan.streams[service].packets[Count(items, n, OfService(service))], EitCounter(items, n);
    var q := Counted(p, cc);
    assert q == p || q == p[3 := q[3]];
    assert items[n].packets == [q];
  }

  /**
   * The packets of a service that were sent are exactly the first ones of its stream, each once
   * and in order, with at most the shared counter changed; each was due when the stream said.
   */
  lemma {:induction false} SentInOrder(plan: Plan, items: seq<Item>, n: nat, service: nat)
    requires ValidPlan(plan) && Legal(plan, items) && n <= |items| && service < |plan.streams|
    ensures var c := Count(items, n, OfService(service));
            && c <= |plan.streams[service].packets|
            && AllSame(plan.streams[service].packets[..c], SentOf(items, n, service))
            && DuesOf(items, n, service) == plan.streams[service].dues[..c]
  {
    hide Choose, Supplied, SameButCounter, LegalAt;
    if n > 0 {
      SentInOrder(plan, items, n - 1, service);
      assert LegalAt(plan, items, n - 1);
      if items[n - 1].kind == OfService(service) {
        SentNext(plan, items, n - 1, service);
      }
    }
  }

  // ----- Going on with a trace -----

  /** The streams of q continue those of p. */
  ghost predicate Continues(p: Plan, q: Plan) {
    && |p.streams| == |q.streams| && q == p.(streams := q.streams)
    && forall i :: 0 <= i < |p.streams| ==>
         p.streams[i].packets <= q.streams[i].packets && p.streams[i].dues <= q.streams[i].dues
  }

  lemma ContinuesItself(p: Plan)
    ensures Continues(p, p)
  {
  }

  lemma ContinuesOn(p: Plan, q: Plan, r: Plan)
    requires Continues(p, q) && Continues(q, r)
    ensures Continues(p, r) && r == p.(streams := r.streams)
  {
  }

  lemma {:induction false} SameCounts(items: seq<Item>, longer: seq<Item>, n: nat, kind: Kind, period: nat)
    requires items <= longer && n <= |items|
    ensures Count(items, n, kind) == Count(longer, n, kind)
    ensures Clock(items, n, kind, period) == Clock(longer, n, kind, period)
    ensures EitCounter(items, n) == EitCounter(longer, n) && Before(items, n) == Before(longer, n)
  {
    if n > 0 {
      SameCounts(items, longer, n - 1, kind, period);
    }
  }

  lemma SameKey(p: Plan, q: Plan, items: seq<Item>, longer: seq<Item>, n: nat, kind: Kind)
    requires Continues(p, q) && items <= longer && n <= |items| && KindOf(p, kind) && Supplied(p, items, n)
    ensures kind.OfService? ==> Count(longer, n, kind) < |q.streams[kind.service].dues|
    ensures Key(p, items, n, kind) == Key(q, longer, n, kind)
  {
    SameCounts(items, longer, n, kind, if kind.OfService? then 0 else Tables(p, kind).period);
    if kind.OfService? {
      assert p.streams[kind.service].dues <= q.streams[kind.service].dues;
    }
  }

  lemma SameSupply(p: Plan, q: Plan, items: seq<Item>, longer: seq<Item>, n: nat)
    requires Continues(p, q) && items <= longer && n <= |items| && Supplied(p, items, n)
    ensures Supplied(q, longer, n)
  {
    forall i: nat | i < |q.streams| ensures Count(longer, n, OfService(i)) < |q.streams[i].dues| {
      SameKey(p, q, items, longer, n, OfService(i));
    }
  }

  lemma {:induction false} SameUrgent(p: Plan, q: Plan, items: seq<Item>, longer: seq<Item>, n: nat, m: nat)
    requires Continues(p, q) && items <= longer && n <= |items| && 1 <= m <= |p.streams|
    requires Supplied(p, items, n) && Supplied(q, longer, n)
    ensures Urgent(p, items, n, m) == Urgent(q, longer, n, m)
  {
    hide Key;
    if m > 1 {
      SameUrgent(p, q, items, longer, n, m - 1);
      SameKey(p, q, items, longer, n, OfService(m - 1));
      SameKey(p, q, items, longer, n, OfService(Urgent(p, items, n, m - 1)));
    }
  }

  lemma SameChoice(p: Plan, q: Plan, items: seq<Item>, longer: seq<Item>, n: nat)
    requires Continues(p, q) && items <= longer && n <= |items| && p.streams != []
    requires Supplied(p, items, n) && Supplied(q, longer, n)
    ensures Choose(p, items, n) == Choose(q, longer, n)
  {
    hide Key, Supplied, Urgent;
    SameUrgent(p, q, items, longer, n, |p.streams|);
    SameKey(p, q, items, longer, n, OfService(Urgent(p, items, n, |p.streams|)));
    SameKey(p, q, items, longer, n, OfPat);
    SameKey(p, q, items, longer, n, OfPmt);
    SameKey(p, q, items, longer, n, OfSdt);
    SameKey(p, q, items, longer, n, OfNit);
  }

  lemma SamePackets(p: Plan, q: Plan, items: seq<Item>, longer: seq<Item>, n: nat, kind: Kind)
    requires Continues(p, q) && items <= longer && n <= |items| && ValidPlan(p) && ValidPlan(q)
    requires Supplied(p, items, n) && Supplied(q, longer, n) && KindOf(p, kind)
    ensures PacketsOf(p, items, n, kind) == PacketsOf(q, longer, n, kind)
  {
    SameCounts(items, longer, n, kind, 0);
    if kind.OfService? {
      assert p.streams[kind.service].packets <= q.streams[kind.service].packets;
    }
  }

  /** What comes next depends neither on what comes later nor on packets not yet known. */
  lemma SameNext(p: Plan, q: Plan, items: seq<Item>, longer: seq<Item>, n: nat)
    requires Continues(p, q) && items <= longer && n <= |items| && ValidPlan(p) && ValidPlan(q)
    requires Supplied(p, items, n)
    ensures Supplied(q, longer, n) && NextItem(p, items, n) == NextItem(q, longer, n)
  {
    hide PacketsOf, Choose, ValidPlan, Supplied;
    SameSupply(p, q, items, longer, n);
    SameNextSupplied(p, q, items, longer, n);
  }

  lemma SameNextSupplied(p: Plan, q: Plan, items: seq<Item>, longer: seq<Item>, n: nat)
    requires Continues(p, q) && items <= longer && n <= |items| && ValidPlan(p) && ValidPlan(q)
    requires Supplied(p, items, n) && Supplied(q, longer, n)
    ensures NextItem(p, items, n) == NextItem(q, longer, n)
  {
    hide PacketsOf, Choose, Supplied, Continues;
    assert p.streams != [] && q.streams != [];
    SameChoice(p, q, items, longer, n);
    ChoiceIsKey(p, items, n);
    SamePackets(p, q, items, longer, n, Choose(p, items, n).kind);
    SameCounts(items, longer, n, OfPat, 0);
  }

  /** A trace stays a trace when more is known of the streams. */
  lemma LegalContinues(p: Plan, q: Plan, items: seq<Item>)
    requires Continues(p, q) && ValidPlan(p) && ValidPlan(q) && Legal(p, items)
    ensures Legal(q, items)
  {
    hide NextItem, Supplied, Continues, ValidPlan;
    forall n: nat | n < |items| ensures LegalAt(q, items, n) {
      assert LegalAt(p, items, n);
      SameNext(p, q, items, items, n);
    }
  }

  /** A trace and the item that has to follow it are a trace. */
  lemma LegalAppend(plan: Plan, items: seq<Item>, x: Item)
    requires ValidPlan(plan) && Legal(plan, items) && Supplied(plan, items, |items|)
    requires x == NextItem(plan, items, |items|)
    ensures Legal(plan, items + [x])
  {
    hide NextItem, Supplied, ValidPlan;
    var longer := items + [x];
    assert Continues(plan, plan);
    forall n: nat | n < |longer| ensures LegalAt(plan, longer, n) {
      if n < |items| {
        assert LegalAt(plan, items, n);
      }
      SameNext(plan, plan, items, longer, n);
    }
  }

  lemma SupplyBefore(plan: Plan, items: seq<Item>, longer: seq<Item>, n: nat)
    requires items <= longer && n <= |items| && Supplied(plan, longer, n)
    ensures Supplied(plan, items, n)
  {
    forall i: nat | i < |plan.streams| ensures Count(items, n, OfService(i)) < |plan.streams[i].dues| {
      SameCounts(items, longer, n, OfService(i), 0);
    }
  }

  /** The beginning of a trace is a trace. */
  lemma LegalPrefix(plan: Plan, items: seq<Item>, k: nat)
    requires ValidPlan(plan) && Legal(plan, items) && k <= |items|
    ensures Legal(plan, items[..k])
  {
    hide NextItem, Supplied, ValidPlan, Continues;
    ContinuesItself(plan);
    forall n: nat | n < k ensures LegalAt(plan, items[..k], n) {
      assert LegalAt(plan, items, n);
      SupplyBefore(plan, items[..k], items, n);
      SameNext(plan, plan, items[..k], items, n);
    }
  }
}
