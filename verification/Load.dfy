/** The load of a multiplex, from what its services and tables bring in. */
module Load {
  import opened Arithmetic
  import opened Bytes
  import opened Merge
  import opened Schedule
  import opened Sections

  /** How many of these positions lie between a and b. */
  function DuesIn(ds: seq<nat>, a: int, b: int): nat {
    if ds == [] then 0
    else
      var k := |ds| - 1;
      DuesIn(ds[..k], a, b) + if a <= ds[k] <= b then 1 else 0
  }

  /** The packets of the first m services that are due between a and b. */
  ghost function StreamsIn(plan: Plan, m: nat, a: int, b: int): nat
    requires m <= |plan.streams|
  {
    if m == 0 then 0 else StreamsIn(plan, m - 1, a, b) + DuesIn(plan.streams[m - 1].dues, a, b)
  }

  /** The packets of one repetition. */
  function Size(ts: seq<Table>): nat {
    if ts == [] then 0 else Size(ts[..|ts| - 1]) + PacketCount(|ts[|ts| - 1].data|)
  }

  /** The packets of tables in a stretch of d bits: a repetition every period, and one more. */
  ghost function Repeats(r: Repeated, d: nat): nat
    requires r.period > 0
  {
    Size(r.tables) * (d / r.period + 1)
  }

  ghost function TablesIn(plan: Plan, d: nat): nat
    requires ValidPlan(plan)
  {
    Repeats(plan.pat, d) + Repeats(plan.pmt, d) + Repeats(plan.sdt, d) + Repeats(plan.nit, d)
  }

  /**
   * In any stretch the services have at most burst packets more than what the channel carries
   * besides the tables. This depends on the inputs and the periods only.
   */
  ghost predicate Carried(plan: Plan, burst: nat)
    requires ValidPlan(plan)
  {
    forall a: int, b: int | a <= b ::
      PACKET_BITS * (StreamsIn(plan, |plan.streams|, a, b) + TablesIn(plan, b - a)) <= b - a + PACKET_BITS * burst
  }

  // ----- What was sent, by service and by table -----

  /** The packets of the first m services that were sent with the first n items, due from a to b. */
  ghost function SentIn(plan: Plan, items: seq<Item>, n: nat, m: nat, a: int, b: int): nat
    requires n <= |items| && m <= |plan.streams|
    requires forall i: nat :: i < m ==> Count(items, n, OfService(i)) <= |plan.streams[i].dues|
  {
    if m == 0 then 0
    else SentIn(plan, items, n, m - 1, a, b)
         + DuesIn(plan.streams[m - 1].dues[..Count(items, n, OfService(m - 1))], a, b)
  }

  /** How many of the first c repetitions are due from a to b. */
  ghost function TimesIn(period: nat, c: nat, a: int, b: int): nat {
    if c == 0 then 0 else TimesIn(period, c - 1, a, b) + if a <= (c - 1) * period <= b then 1 else 0
  }

  ghost function RepeatsSent(items: seq<Item>, n: nat, kind: Kind, r: Repeated, a: int, b: int): nat
    requires n <= |items|
  {
    Size(r.tables) * TimesIn(r.period, Count(items, n, kind), a, b)
  }

  ghost function TablesSent(plan: Plan, items: seq<Item>, n: nat, a: int, b: int): nat
    requires n <= |items|
  {
    RepeatsSent(items, n, OfPat, plan.pat, a, b) + RepeatsSent(items, n, OfPmt, plan.pmt, a, b)
    + RepeatsSent(items, n, OfSdt, plan.sdt, a, b) + RepeatsSent(items, n, OfNit, plan.nit, a, b)
  }

  lemma {:induction false} SizeOfTables(ts: seq<Table>, times: nat)
    requires forall i :: 0 <= i < |ts| ==> ts[i].pid < 0x2000 && ts[i].cc < 16
    ensures |TablePackets(ts, times)| == Size(ts)
  {
    if ts != [] {
      SizeOfTables(ts[..|ts| - 1], times);
    }
  }

  lemma OneMoreDue(ds: seq<nat>, c: nat, a: int, b: int)
    requires c < |ds|
    ensures DuesIn(ds[..c + 1], a, b) == DuesIn(ds[..c], a, b) + if a <= ds[c] <= b then 1 else 0
  {
    assert ds[..c + 1][..c] == ds[..c];
  }

  /** A packet of service s. */
  lemma {:induction false} SentInNext(plan: Plan, items: seq<Item>, n: nat, m: nat, s: nat, a: int, b: int)
    requires n < |items| && m <= |plan.streams| && items[n].kind == OfService(s)
    requires forall i: nat :: i < m ==> Count(items, n + 1, OfService(i)) <= |plan.streams[i].dues|
    requires s < m ==> Count(items, n, OfService(s)) < |plan.streams[s].dues|
    requires s < m ==> items[n].due == plan.streams[s].dues[Count(items, n, OfService(s))]
    ensures forall i: nat :: i < m ==> Count(items, n, OfService(i)) <= |plan.streams[i].dues|
    ensures SentIn(plan, items, n + 1, m, a, b)
         == SentIn(plan, items, n, m, a, b) + if s < m && a <= items[n].due <= b then 1 else 0
  {
    hide DuesIn;
    if m > 0 {
      SentInNext(plan, items, n, m - 1, s, a, b);
      if s == m - 1 {
        OneMoreDue(plan.streams[s].dues, Count(items, n, OfService(s)), a, b);
      }
    }
  }

  /** Tables change nothing for the services. */
  lemma {:induction false} SentInSame(plan: Plan, items: seq<Item>, n: nat, m: nat, a: int, b: int)
    requires n < |items| && m <= |plan.streams| && !items[n].kind.OfService?
    requires forall i: nat :: i < m ==> Count(items, n + 1, OfService(i)) <= |plan.streams[i].dues|
    ensures forall i: nat :: i < m ==> Count(items, n, OfService(i)) <= |plan.streams[i].dues|
    ensures SentIn(plan, items, n + 1, m, a, b) == SentIn(plan, items, n, m, a, b)
  {
    if m > 0 {
      SentInSame(plan, items, n, m - 1, a, b);
    }
  }

  lemma OneMoreRepetition(items: seq<Item>, n: nat, kind: Kind, r: Repeated, a: int, b: int)
    requires n < |items|
    requires items[n].kind == kind ==> items[n].due == Count(items, n, kind) * r.period
    ensures RepeatsSent(items, n + 1, kind, r, a, b)
         == RepeatsSent(items, n, kind, r, a, b)
            + if items[n].kind == kind && a <= items[n].due <= b then Size(r.tables) else 0
  {
    var c := Count(items, n, kind);
    if items[n].kind == kind {
      var size, times := Size(r.tables), TimesIn(r.period, c, a, b);
      assert size * (times + 1) == size * times + size;
    }
  }

  /** How many packets an item has, and when it is due. */
  lemma ItemLoad(plan: Plan, items: seq<Item>, n: nat)
    requires ValidPlan(plan) && n < |items| && LegalAt(plan, items, n)
    ensures KindOf(plan, items[n].kind) && Supplied(plan, items, n)
    ensures items[n].due == Key(plan, items, n, items[n].kind)
    ensures |items[n].packets| == if items[n].kind.OfService? then 1 else Size(Tables(plan, items[n].kind).tables)
  {
    hide Choose;
    ChoiceIsKey(plan, items, n);
    var kind := items[n].kind;
    if !kind.OfService? {
      SizeOfTables(Tables(plan, kind).tables, Count(items, n, kind));
    }
  }

  lemma CountsWithin(plan: Plan, items: seq<Item>, n: nat)
    requires ValidPlan(plan) && Legal(plan, items) && n <= |items|
    ensures forall i: nat :: i < |plan.streams| ==> Count(items, n, OfService(i)) <= |plan.streams[i].dues|
  {
    hide Legal, Count;
    forall i: nat | i < |plan.streams| ensures Count(items, n, OfService(i)) <= |plan.streams[i].dues| {
      SentInOrder(plan, items, n, i);
    }
  }

  /** What is due from a to b of the first n items is what services and tables have sent of it. */
  lemma {:induction false} DueInParts(plan: Plan, items: seq<Item>, n: nat, a: int, b: int)
    requires ValidPlan(plan) && Legal(plan, items) && n <= |items|
    requires forall i: nat :: i < |plan.streams| ==> Count(items, n, OfService(i)) <= |plan.streams[i].dues|
    ensures DueIn(items, n, a, b)
         == SentIn(plan, items, n, |plan.streams|, a, b) + TablesSent(plan, items, n, a, b)
  {
    hide LegalAt, ValidPlan, RepeatsSent, Size;
    if n == 0 {
      NothingDue(plan, items, |plan.streams|, a, b);
    } else {
      var k, m := n - 1, |plan.streams|;
      assert LegalAt(plan, items, k);
      CountsWithin(plan, items, k);
      DueInParts(plan, items, k, a, b);
      PartsNext(plan, items, k, a, b);
    }
  }

  lemma {:induction false} NothingDue(plan: Plan, items: seq<Item>, m: nat, a: int, b: int)
    requires m <= |plan.streams|
    ensures SentIn(plan, items, 0, m, a, b) == 0 && TablesSent(plan, items, 0, a, b) == 0
  {
    if m > 0 {
      NothingDue(plan, items, m - 1, a, b);
    }
  }

  lemma PartsNext(plan: Plan, items: seq<Item>, k: nat, a: int, b: int)
    requires ValidPlan(plan) && k < |items| && LegalAt(plan, items, k)
    requires forall i: nat :: i < |plan.streams| ==> Count(items, k, OfService(i)) <= |plan.streams[i].dues|
    requires forall i: nat :: i < |plan.streams| ==> Count(items, k + 1, OfService(i)) <= |plan.streams[i].dues|
    ensures SentIn(plan, items, k + 1, |plan.streams|, a, b) + TablesSent(plan, items, k + 1, a, b)
         == SentIn(plan, items, k, |plan.streams|, a, b) + TablesSent(plan, items, k, a, b)
            + if a <= items[k].due <= b then |items[k].packets| else 0
  {
    hide LegalAt, ValidPlan, RepeatsSent, Size;
    var kind := items[k].kind;
    ItemLoad(plan, items, k);
    TablesNext(plan, items, k, a, b);
    if kind.OfService? {
      SentInNext(plan, items, k, |plan.streams|, kind.service, a, b);
    } else {
      SentInSame(plan, items, k, |plan.streams|, a, b);
    }
  }

  lemma TablesNext(plan: Plan, items: seq<Item>, k: nat, a: int, b: int)
    requires ValidPlan(plan) && k < |items| && KindOf(plan, items[k].kind) && Supplied(plan, items, k)
    requires items[k].due == Key(plan, items, k, items[k].kind)
    ensures TablesSent(plan, items, k + 1, a, b)
         == TablesSent(plan, items, k, a, b)
            + if !items[k].kind.OfService? && a <= items[k].due <= b
              then Size(Tables(plan, items[k].kind).tables) else 0
  {
    hide ValidPlan, RepeatsSent, Size, Count, Supplied;
    var kind := items[k].kind;
    if !kind.OfService? {
      ClockCounts(items, k, kind, Tables(plan, kind).period);
    }
    OneMoreRepetition(items, k, OfPat, plan.pat, a, b);
    OneMoreRepetition(items, k, OfPmt, plan.pmt, a, b);
    OneMoreRepetition(items, k, OfSdt, plan.sdt, a, b);
    OneMoreRepetition(items, k, OfNit, plan.nit, a, b);
  }

  // ----- It is no more than what the inputs allow -----

  lemma {:induction false} DuesOfPrefix(ds: seq<nat>, c: nat, a: int, b: int)
    requires c <= |ds|
    ensures DuesIn(ds[..c], a, b) <= DuesIn(ds, a, b)
    decreases |ds|
  {
    if c == |ds| {
      assert ds[..c] == ds;
    } else {
      var k := |ds| - 1;
      assert ds[..k][..c] == ds[..c];
      DuesOfPrefix(ds[..k], c, a, b);
    }
  }

  lemma {:induction false} SentWithin(plan: Plan, items: seq<Item>, n: nat, m: nat, a: int, b: int)
    requires n <= |items| && m <= |plan.streams|
    requires forall i: nat :: i < m ==> Count(items, n, OfService(i)) <= |plan.streams[i].dues|
    ensures SentIn(plan, items, n, m, a, b) <= StreamsIn(plan, m, a, b)
  {
    if m > 0 {
      SentWithin(plan, items, n, m - 1, a, b);
      DuesOfPrefix(plan.streams[m - 1].dues, Count(items, n, OfService(m - 1)), a, b);
    }
  }

  /** The repetitions due from a to b are a period apart. */
  lemma {:induction false} TimesApart(period: nat, c: nat, a: int, b: int)
    requires a <= b && TimesIn(period, c, a, b) > 0
    ensures (TimesIn(period, c, a, b) - 1) * period <= b - a
    ensures (TimesIn(period, c, a, b) - 1) * period <= (c - 1) * period - a
  {
    var k, was := TimesIn(period, c, a, b), TimesIn(period, c - 1, a, b);
    if was > 0 {
      TimesApart(period, c - 1, a, b);
      assert (c - 1) * period == (c - 2) * period + period;
      assert was * period == (was - 1) * period + period;
    }
  }

  lemma RepeatsWithin(items: seq<Item>, n: nat, kind: Kind, r: Repeated, a: int, b: int)
    requires n <= |items| && r.period > 0 && a <= b
    ensures RepeatsSent(items, n, kind, r, a, b) <= Repeats(r, b - a)
  {
    hide Size, Count, TimesIn;
    var times, d := TimesIn(r.period, Count(items, n, kind), a, b), b - a;
    if times > 0 {
      TimesApart(r.period, Count(items, n, kind), a, b);
    }
    RepeatsAtMost(Size(r.tables), times, r.period, d);
  }

  lemma AtMost(k: nat, p: nat, d: nat)
    requires p > 0 && k * p <= d
    ensures k <= d / p
  {
    var q := d / p;
    assert d < p * (q + 1);
    if q < k {
      SmallerProduct(p, q + 1, k);
      assert false;
    }
  }

  lemma SmallerProduct(s: nat, x: nat, y: nat)
    requires x <= y
    ensures s * x <= s * y
  {
  }

  lemma RepeatsAtMost(size: nat, times: nat, period: nat, d: nat)
    requires period > 0 && (times > 0 ==> (times - 1) * period <= d)
    ensures size * times <= size * (d / period + 1)
  {
    if times > 0 {
      AtMost(times - 1, period, d);
    }
    SmallerProduct(size, times, d / period + 1);
  }

  /** The load of every trace is bounded by that of the inputs. */
  lemma LoadIsBounded(plan: Plan, items: seq<Item>, burst: nat)
    requires ValidPlan(plan) && Legal(plan, items) && Carried(plan, burst)
    ensures Bounded(items, burst)
  {
    hide Legal, Repeats, RepeatsSent, Count;
    var n, m := |items|, |plan.streams|;
    CountsWithin(plan, items, n);
    forall a: int, b: int | a <= b ensures PACKET_BITS * DueIn(items, n, a, b) <= b - a + PACKET_BITS * burst {
      DueInParts(plan, items, n, a, b);
      SentWithin(plan, items, n, m, a, b);
      RepeatsWithin(items, n, OfPat, plan.pat, a, b);
      RepeatsWithin(items, n, OfPmt, plan.pmt, a, b);
      RepeatsWithin(items, n, OfSdt, plan.sdt, a, b);
      RepeatsWithin(items, n, OfNit, plan.nit, a, b);
    }
  }

  /** What a channel can carry leaves on time: never early, and never a whole burst late. */
  lemma CarriedIsOnTime(plan: Plan, items: seq<Item>, burst: nat, k: nat)
    requires ValidPlan(plan) && Legal(plan, items) && Carried(plan, burst) && k < |items|
    ensures items[k].due <= Start(items[k]) < items[k].due + PACKET_BITS * burst
  {
    hide Legal, Carried, Bounded;
    LoadIsBounded(plan, items, burst);
    LegalIsOnTime(plan, items, burst, k);
  }
}
