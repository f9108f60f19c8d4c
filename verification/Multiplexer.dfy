/** The output loop of one multiplex. */
module Multiplexer {
  import opened Bytes
  import opened Continuity
  import Crc32
  import opened EitSection
  import opened Firsts
  import opened Merge
  import Pmt
  import Reassembly
  import Receiver
  import opened Schedule
  import opened Sections
  import opened Services
  import opened Streams

  /** The service has read this stream and sent so many of its packets. */
  ghost predicate Holds(s: Service, st: Stream, sent: nat)
    reads s.Footprint()
  {
    && s.Fixed() && s.Valid() && s.sent == sent
    && s.reading.packets == st.packets && s.reading.dues == st.dues
  }

  /** It has more than its last packet, so its most urgent position is known. */
  ghost predicate Stocked(s: Service)
    reads s.Footprint()
  {
    s.packetsInBuf - s.packetsWritten >= 2
  }

  /** How many times the service can still be filled. */
  ghost function Left(s: Service): nat
    reads s.Footprint()
  {
    References(s.cfg, s.input, s.taken)
  }

  lemma HeldStream(s: Service, st: Stream, sent: nat)
    requires Holds(s, st, sent)
    ensures |st.dues| == |st.packets| && sent < |st.dues| && Sorted(st.dues)
    ensures Stocked(s) ==> 0 <= s.packetsWritten < s.bitpos.Length && s.bitpos[s.packetsWritten] == st.dues[sent]
  {
    hide Reaches;
    ReachedOnTime(s.cfg, s.input, s.first, s.taken, s.reading);
    if Stocked(s) {
      assert s.bitpos[s.packetsWritten] == s.bitpos[s.packetsWritten..s.packetsInBuf][0];
    }
  }

  /** Fills a service that has only its last packet left. */
  method RefillService(s: Service, ghost st: Stream, ghost sent: nat) returns (ghost more: Stream)
    requires Holds(s, st, sent) && Left(s) > 0
    modifies s.Footprint()
    ensures Holds(s, more, sent) && Stocked(s)
    ensures st.packets <= more.packets && st.dues <= more.dues
    ensures Left(s) + 1 >= old(Left(s))
  {
    hide Reaches, References;
    more := st;
    if s.packetsInBuf - s.packetsWritten == 1 {
      s.Refill();
      more := Stream(s.reading.packets, s.reading.dues);
    }
  }

  /** Takes the next packet of a service. */
  method SendService(s: Service, ghost st: Stream, ghost sent: nat, eitCc: nat) returns (p: Packet, eitCc': nat)
    requires Holds(s, st, sent) && Stocked(s) && eitCc < 16
    modifies s.Footprint()
    ensures Holds(s, st, sent + 1) && sent < |st.packets| && p == Counted(st.packets[sent], eitCc)
    ensures eitCc' == if Pid(p) == EIT_PID then (eitCc + 1) % 16 else eitCc
    ensures Left(s) == old(Left(s))
  {
    hide Reaches, References;
    p, eitCc' := s.Send(eitCc);
  }

  /** The state of a section that was sent so many times. */
  ghost predicate Shows(s: Section, t: Table, times: nat)
    reads s, s.buf
  {
    s.Ready() && t.cc < 16 && s.Data() == t.data && s.cc == CounterAt(t, times)
  }

  ghost predicate AllShow(ss: seq<Section>, ts: seq<Table>, times: nat)
    reads set i | 0 <= i < |ss| :: ss[i], set i | 0 <= i < |ss| :: ss[i].buf
  {
    |ss| == |ts| && forall i :: 0 <= i < |ss| ==> Shows(ss[i], ts[i], times)
  }

  lemma TablePacketsEnds(ts: seq<Table>, times: nat)
    requires forall j :: 0 <= j < |ts| ==> ts[j].pid < 0x2000 && ts[j].cc < 16
    ensures TablePackets(ts[..0], times) == [] && ts[..|ts|] == ts
  {
  }

  lemma TablePacketsNext(ts: seq<Table>, i: nat, times: nat)
    requires i < |ts| && forall j :: 0 <= j < |ts| ==> ts[j].pid < 0x2000 && ts[j].cc < 16
    ensures TablePackets(ts[..i + 1], times)
         == TablePackets(ts[..i], times) + Packetise(ts[i].data, ts[i].pid, CounterAt(ts[i], times))
  {
    assert ts[..i + 1][..i] == ts[..i];
  }

  lemma SingleTable(ts: seq<Table>, times: nat)
    requires |ts| == 1 && ts[0].pid < 0x2000 && ts[0].cc < 16
    ensures TablePackets(ts, times) == Packetise(ts[0].data, ts[0].pid, CounterAt(ts[0], times))
  {
    assert TablePackets(ts[..0], times) == [];
  }

  /** What one more item changes in the counts. */
  lemma AfterOne(items: seq<Item>, x: Item, kind: Kind, period: nat)
    ensures var next := items + [x];
            && Count(next, |next|, kind) == Count(items, |items|, kind) + (if x.kind == kind then 1 else 0)
            && Clock(next, |next|, kind, period)
               == Clock(items, |items|, kind, period) + (if x.kind == kind then period else 0)
            && EitCounter(next, |next|)
               == if x.kind.OfService? && x.packets != [] && Pid(x.packets[0]) == EIT_PID
                  then (EitCounter(items, |items|) + 1) % 16 else EitCounter(items, |items|)
  {
    SameCounts(items, items + [x], |items|, kind, period);
  }

  /** No two sections are the same, and none is part of a service. */
  ghost predicate SectionsDistinct(pat: Section, sdt: Section, nit: Section, newPmts: seq<Section>,
                                   memory: set<object>) {
    && pat != sdt && pat != nit && sdt != nit
    && (forall i, j :: 0 <= i < j < |newPmts| ==> newPmts[i] != newPmts[j])
    && (forall i :: 0 <= i < |newPmts| ==> newPmts[i] != pat && newPmts[i] != sdt && newPmts[i] != nit)
    && {pat, sdt, nit, pat.buf, sdt.buf, nit.buf} !! memory
    && (forall i :: 0 <= i < |newPmts| ==> {newPmts[i], newPmts[i].buf} !! memory)
  }

  /** What the services consist of. */
  ghost function Memory(services: seq<Service>): (m: set<object>)
    ensures forall i :: 0 <= i < |services| ==> services[i].Footprint() <= m
  {
    set i, o | 0 <= i < |services| && o in services[i].Footprint() :: o
  }

  lemma Outside(services: seq<Service>, mux: Mux)
    ensures mux !in Memory(services)
  {
    hide Service.Footprint;
    forall i | 0 <= i < |services| ensures mux !in services[i].Footprint() {
      NotPart(services[i], mux);
    }
  }

  lemma NotPart(s: Service, mux: Mux)
    ensures mux !in s.Footprint()
  {
    var o: object := mux;
    assert o is Mux;
    assert !(o is Service) && !(o is Section);
  }

  lemma NextItemIs(plan: Plan, items: seq<Item>, x: Item, kind: Kind, due: nat)
    requires ValidPlan(plan) && Supplied(plan, items, |items|) && x == NextItem(plan, items, |items|)
    requires Choice(kind, due) == Choose(plan, items, |items|) && KindOf(plan, kind)
    ensures x.kind == kind && x.due == due && x.packets == PacketsOf(plan, items, |items|, kind)
    ensures x.slot == Padded(Before(items, |items|), due)
  {
    hide Choose, PacketsOf, Supplied;
  }

  /** What a service has read is accounted for, and its known positions are in order. */
  lemma HeldAccount(s: Service, st: Stream, sent: nat) returns (sections: seq<Bytes>)
    requires Holds(s, st, sent)
    ensures s.first < s.taken <= |s.input| && Readable(s.cfg, s.input, s.first, s.taken)
    ensures s.reading == ReadAll(s.cfg, s.input, s.first, s.taken)
    ensures AllDigestible(s.cfg, Reassembly.Idle, s.input[s.first + 1..s.taken])
    ensures s.reading.packets == [s.input[s.first]]
                                 + Contributions(s.cfg, Reassembly.Idle, s.input[s.first + 1..s.taken]).1
    ensures Accounted(s.cfg, s.input[s.first..s.taken], s.reading, sections)
    ensures Conserved(s.cfg, s.input[s.first..s.taken], s.reading.packets)
  {
    hide Accounted, Conserved;
    InPlace(s.cfg, s.input, s.first, s.taken);
    sections := NothingLost(s.cfg, s.input, s.first, s.taken);
  }

  /** The stream of a service starts with a reference on its old PID; the rest is on new ones. */
  lemma HeldPids(s: Service, st: Stream, sent: nat)
    requires Holds(s, st, sent)
    ensures st.packets != [] && st.dues != [] && st.dues[0] == 0
    ensures Pid(st.packets[0]) == s.cfg.pcrPid != EIT_PID
    ensures s.first < |s.input| && st.packets[0] == s.input[s.first]
    ensures AllProduced(s.cfg, st.packets[1..])
  {
    hide Produced;
    HeldFirst(s, st, sent);
    StreamPids(s.cfg, s.input, s.first, s.taken);
  }

  /** The service had its references on this PID, or has read a packet that is moved there. */
  ghost predicate Meets(s: Service, pid: PidValue)
    reads s`first, s`taken
  {
    s.cfg.pcrPid == pid || (s.first < s.taken <= |s.input| && Brings(s.cfg, s.input[s.first + 1..s.taken], pid))
  }

  lemma HeldMeets(s: Service, st: Stream, sent: nat, pid: PidValue)
    requires Holds(s, st, sent) && pid != EIT_PID
    ensures HasPid(st.packets, pid) <==> Meets(s, pid)
  {
    hide HasPid, Brings, IsReference;
    HeldFirst(s, st, sent);
    StreamHasPid(s.cfg, s.input, s.first, s.taken, pid);
  }

  lemma HeldInSync(s: Service, st: Stream, sent: nat)
    requires Holds(s, st, sent) && InSync(s.input)
    ensures InSync(st.packets)
  {
    StreamInSync(s.cfg, s.input, s.first, s.taken);
  }

  /** The PIDs of PAT, NIT, SDT and of the PMTs of these programs. */
  ghost predicate TablePid(ps: seq<Pmt.Program>, pid: nat) {
    pid == 0 || pid == 0x10 || pid == 0x11 || exists i: nat :: i < |ps| && pid == Pmt.PmtPid(i)
  }

  /** The map made from a program's PMT is usable if no stream of the program is on the EIT PID. */
  lemma ServiceMapUsable(ps: seq<Pmt.Program>, i: nat, cfg: Config)
    requires Pmt.Roomy(ps) && i < |ps| && ValidIds(cfg.ids)
    requires cfg.pids == Pmt.ServiceMap(ps[i], i).0 && cfg.pcrPid == ps[i].pcrPid
    ensures ValidConfig(cfg) <==> ps[i].pcrPid != EIT_PID && !Pmt.HasCarried(ps[i].streams, EIT_PID)
  {
    Pmt.AllocationSound(ps[i], Pmt.PmtPid(i));
    forall q | 0 <= q < |cfg.pids| ensures cfg.pids[q] != EIT_PID {
      if cfg.pids[q] != 0 {
        Pmt.OutputPidsDistinct(ps, i, q, i, q);
      }
    }
  }

  lemma MapHasOneClock(ps: seq<Pmt.Program>, i: nat, cfg: Config)
    requires Pmt.Roomy(ps) && i < |ps| && ValidConfig(cfg) && cfg.pids == Pmt.ServiceMap(ps[i], i).0
    ensures OneClock(cfg)
  {
    Pmt.ServiceMapCounts(ps[i], i);
    hide Pmt.ServiceMap;
    forall q | 0 <= q < |cfg.pids| && cfg.pids[q] == cfg.pids[cfg.pcrPid] ensures q == cfg.pcrPid {
      var p: PidValue := q;
      assert cfg.pids[p] == cfg.pids[cfg.pcrPid] != 0;
    }
  }

  /** No packet is moved to the PID of a table. */
  lemma NotProduced(ps: seq<Pmt.Program>, i: nat, cfg: Config, pid: nat)
    requires Pmt.Roomy(ps) && i < |ps| && cfg.pids == Pmt.ServiceMap(ps[i], i).0 && TablePid(ps, pid)
    ensures !Produced(cfg, pid)
  {
    if k: nat :| k < |ps| && pid == Pmt.PmtPid(k) {
      assert pid >= 100;
    }
    forall q | 0 <= q < |cfg.pids| && cfg.pids[q] != 0 ensures cfg.pids[q] != pid {
      Pmt.OutputPidsDistinct(ps, i, q, i, q);
    }
  }

  /** Two services have no new PID in common but the EIT PID. */
  lemma ProducedOnce(ps: seq<Pmt.Program>, i: nat, a: Config, j: nat, b: Config, pid: nat)
    requires Pmt.Roomy(ps) && i < |ps| && a.pids == Pmt.ServiceMap(ps[i], i).0
    requires j < |ps| && b.pids == Pmt.ServiceMap(ps[j], j).0 && i != j && pid != EIT_PID
    ensures !Produced(a, pid) || !Produced(b, pid)
  {
    if Produced(a, pid) && Produced(b, pid) {
      var q :| 0 <= q < |a.pids| && a.pids[q] != 0 && a.pids[q] == pid;
      var r :| 0 <= r < |b.pids| && b.pids[r] != 0 && b.pids[r] == pid;
      Pmt.OutputPidsDistinct(ps, i, q, j, r);
    }
  }

  lemma HeldFirst(s: Service, st: Stream, sent: nat)
    requires Holds(s, st, sent)
    ensures Readable(s.cfg, s.input, s.first, s.taken) && s.reading == ReadAll(s.cfg, s.input, s.first, s.taken)
    ensures Pid(s.input[s.first]) == s.cfg.pcrPid
  {
    FirstReference(s.cfg, s.input, s.first, s.taken);
  }

  class Mux {
    const services: seq<Service>
    const pat: Section
    const sdt: Section
    const nit: Section
    const newPmts: seq<Section>
    const patPeriod: nat
    const pmtPeriod: nat
    const sdtPeriod: nat
    const nitPeriod: nat
    var outputBitpos: nat
    var nextPatBitpos: nat
    var nextPmtBitpos: nat
    var nextSdtBitpos: nat
    var nextNitBitpos: nat
    var eitCc: nat
    /** What has been written to the output ring buffer. */
    var output: seq<Packet>

    /** What the services consist of. */
    ghost const memory: set<object>
    ghost var plan: Plan
    ghost var items: seq<Item>

    /** The state in which the output loop starts. */
    constructor (services: seq<Service>, pat: Section, sdt: Section, nit: Section, newPmts: seq<Section>,
                 patPeriod: nat, pmtPeriod: nat, sdtPeriod: nat, nitPeriod: nat, ghost plan: Plan)
      requires services != [] && |services| == |newPmts| && patPeriod > 0 && pmtPeriod > 0
      requires sdtPeriod > 0 && nitPeriod > 0
      requires forall i, j :: 0 <= i < j < |services| ==> services[i].Footprint() !! services[j].Footprint()
      requires SectionsDistinct(pat, sdt, nit, newPmts, Memory(services))
      requires ValidPlan(plan) && |plan.streams| == |services|
      requires plan.pat.period == patPeriod && plan.pmt.period == pmtPeriod
      requires plan.sdt.period == sdtPeriod && plan.nit.period == nitPeriod
      requires forall i :: 0 <= i < |services| ==> Holds(services[i], plan.streams[i], 0)
      requires AllShow([pat], plan.pat.tables, 0) && plan.pat.tables[0].pid == 0
      requires AllShow(newPmts, plan.pmt.tables, 0)
      requires forall i :: 0 <= i < |newPmts| ==> plan.pmt.tables[i].pid == Pmt.PmtPid(i) < 0x2000
      requires AllShow([sdt], plan.sdt.tables, 0) && plan.sdt.tables[0].pid == 0x11
      requires AllShow([nit], plan.nit.tables, 0) && plan.nit.tables[0].pid == 0x10
      ensures Valid() && items == [] && output == [] && this.plan == plan && this.services == services
    {
      hide Holds, Shows, Service.Footprint, Apart, SectionsDistinct, AllShow, ValidPlan, Memory;
      this.services, this.pat, this.sdt, this.nit, this.newPmts := services, pat, sdt, nit, newPmts;
      this.patPeriod, this.pmtPeriod, this.sdtPeriod, this.nitPeriod := patPeriod, pmtPeriod, sdtPeriod, nitPeriod;
      outputBitpos, nextPatBitpos, nextPmtBitpos, nextSdtBitpos, nextNitBitpos := 0, 0, 0, 0, 0;
      eitCc, output, items := 0, [], [];
      this.plan := plan;
      memory := Memory(services);
      new;
      Outside(services, this);
      Begins();
    }

    lemma Begins()
      requires services != [] && |services| == |newPmts| && memory == Memory(services) && this !in memory
      requires forall i, j :: 0 <= i < j < |services| ==> services[i].Footprint() !! services[j].Footprint()
      ensures Apart()
    {
      hide Service.Footprint, Memory;
    }

    /** No two services share memory. */
    ghost predicate Apart() {
      && services != [] && |services| == |newPmts| && this !in memory
      && (forall i :: 0 <= i < |services| ==> services[i].Footprint() <= memory)
      && (forall i, j :: 0 <= i < j < |services| ==> services[i].Footprint() !! services[j].Footprint())
    }

    /** The services have sent what these items say. */
    ghost predicate ServicesHold(trace: seq<Item>)
      requires Apart()
      reads this`plan, memory
    {
      && |plan.streams| == |services|
      && forall i :: 0 <= i < |services| ==>
           Holds(services[i], plan.streams[i], Count(trace, |trace|, OfService(i)))
    }

    ghost predicate ClocksAre(trace: seq<Item>)
      reads this`nextPatBitpos, this`nextPmtBitpos, this`nextSdtBitpos, this`nextNitBitpos, this`eitCc
    {
      && nextPatBitpos == Clock(trace, |trace|, OfPat, patPeriod)
      && nextPmtBitpos == Clock(trace, |trace|, OfPmt, pmtPeriod)
      && nextSdtBitpos == Clock(trace, |trace|, OfSdt, sdtPeriod)
      && nextNitBitpos == Clock(trace, |trace|, OfNit, nitPeriod)
      && eitCc == EitCounter(trace, |trace|)
    }

    /** The clocks, the output and the trace agree. */
    ghost predicate Consistent(p: Plan, trace: seq<Item>)
      reads this`output, this`outputBitpos, this`eitCc
      reads this`nextPatBitpos, this`nextPmtBitpos, this`nextSdtBitpos, this`nextNitBitpos
    {
      && ValidPlan(p) && Legal(p, trace)
      && p.pat.period == patPeriod && p.pmt.period == pmtPeriod
      && p.sdt.period == sdtPeriod && p.nit.period == nitPeriod
      && outputBitpos == PACKET_BITS * Before(trace, |trace|) && output == Output(trace)
      && ClocksAre(trace)
    }

    /** More packets of the services change nothing. */
    lemma StillConsistent(before: Plan)
      requires Apart() && ServicesHold(items) && Consistent(before, items) && Continues(before, plan)
      ensures Consistent(plan, items)
    {
      hide Holds, Legal, Output, Before, ClocksAre;
      forall i | 0 <= i < |plan.streams|
        ensures Sorted(plan.streams[i].dues) && |plan.streams[i].dues| == |plan.streams[i].packets|
      {
        HeldStream(services[i], plan.streams[i], Count(items, |items|, OfService(i)));
      }
      LegalContinues(before, plan, items);
    }

    /** Every service can be filled this many times. */
    ghost predicate Fed(n: nat)
      requires Apart()
      reads memory
    {
      forall i :: 0 <= i < |services| ==> Left(services[i]) >= n
    }

    /** A service is filled if need be; the others stay as they are. */
    method RefillAt(i: nat, ghost n: nat)
      requires i < |services| && Apart() && ServicesHold(items) && Left(services[i]) >= n + 1
      modifies this`plan, services[i].Footprint()
      ensures ServicesHold(items) && Left(services[i]) >= n && Stocked(services[i])
      ensures Continues(old(plan), plan) && plan == old(plan).(streams := plan.streams)
    {
      hide Holds, Left, Stocked, Service.Footprint, Count;
      ghost var before := plan;
      ghost var more := RefillService(services[i], plan.streams[i], Count(items, |items|, OfService(i)));
      plan := plan.(streams := plan.streams[i := more]);
    }

    /** The first part of a turn: every service gets a packet whose position is known. */
    method Refill(ghost n: nat)
      requires Apart() && ServicesHold(items) && Consistent(plan, items) && Fed(n + 1)
      modifies this`plan, memory
      ensures ServicesHold(items) && Consistent(plan, items) && Fed(n)
      ensures Continues(old(plan), plan) && plan == old(plan).(streams := plan.streams)
      ensures forall i :: 0 <= i < |services| ==> Stocked(services[i])
    {
      hide Holds, Left, Stocked, Service.Footprint, Consistent, Continues;
      var i := 0;
      ContinuesItself(plan);
      while i < |services|
        invariant i <= |services| && ServicesHold(items) && Consistent(plan, items)
        invariant Continues(old(plan), plan) && plan == old(plan).(streams := plan.streams)
        invariant forall j :: 0 <= j < i ==> Stocked(services[j]) && Left(services[j]) >= n
        invariant forall j :: i <= j < |services| ==> Left(services[j]) >= n + 1
      {
        ghost var before := plan;
        RefillAt(i, n);
        ContinuesOn(old(plan), before, plan);
        StillConsistent(before);
        i := i + 1;
      }
    }

    lemma SuppliedNow()
      requires Apart() && ServicesHold(items)
      ensures Supplied(plan, items, |items|)
    {
      hide Holds, Count;
      forall i: nat | i < |plan.streams| ensures Count(items, |items|, OfService(i)) < |plan.streams[i].dues| {
        HeldStream(services[i], plan.streams[i], Count(items, |items|, OfService(i)));
      }
    }

    /** The position at which the next packet of a service is due. */
    method NextDue(i: nat) returns (due: nat)
      requires i < |services| && Apart() && ServicesHold(items) && Stocked(services[i])
      requires Supplied(plan, items, |items|)
      ensures due == Key(plan, items, |items|, OfService(i))
    {
      hide Holds, Count, Service.Footprint;
      HeldStream(services[i], plan.streams[i], Count(items, |items|, OfService(i)));
      due := services[i].bitpos[services[i].packetsWritten];
    }

    /** The service with the earliest packet. */
    method MostUrgent() returns (k: nat, due: nat)
      requires Apart() && ServicesHold(items) && Supplied(plan, items, |items|)
      requires forall i :: 0 <= i < |services| ==> Stocked(services[i])
      ensures k < |services| && k == Urgent(plan, items, |items|, |services|)
      ensures due == Key(plan, items, |items|, OfService(k))
    {
      hide Holds, Stocked, Key, Count, Service.Footprint;
      k := 0;
      due := NextDue(0);
      var i := 1;
      while i < |services|
        invariant 1 <= i <= |services| && k == Urgent(plan, items, |items|, i)
        invariant due == Key(plan, items, |items|, OfService(k))
      {
        var d := NextDue(i);
        if d < due {
          k, due := i, d;
        }
        i := i + 1;
      }
    }

    /** The next item: a service, or the tables whose clock comes first. */
    method Select() returns (kind: Kind, nextBitpos: nat)
      requires Apart() && ServicesHold(items) && Consistent(plan, items)
      requires forall i :: 0 <= i < |services| ==> Stocked(services[i])
      ensures Supplied(plan, items, |items|)
      ensures Choice(kind, nextBitpos) == Choose(plan, items, |items|) && KindOf(plan, kind)
    {
      hide Holds, Stocked, Supplied, Legal, Output, Before, Urgent, Service.Footprint;
      SuppliedNow();
      var k, due := MostUrgent();
      kind, nextBitpos := OfService(k), due;
      if nextPatBitpos <= nextBitpos { kind, nextBitpos := OfPat, nextPatBitpos; }
      if nextPmtBitpos <= nextBitpos { kind, nextBitpos := OfPmt, nextPmtBitpos; }
      if nextSdtBitpos <= nextBitpos { kind, nextBitpos := OfSdt, nextSdtBitpos; }
      if nextNitBitpos <= nextBitpos { kind, nextBitpos := OfNit, nextNitBitpos; }
    }

    /** Null packets go out until the position is reached. */
    method Pad(nextBitpos: nat, ghost slot: nat)
      requires outputBitpos == PACKET_BITS * slot
      modifies this`outputBitpos, this`output
      ensures outputBitpos == PACKET_BITS * Padded(slot, nextBitpos)
      ensures output == old(output) + Nulls(Padded(slot, nextBitpos) - slot)
    {
      ghost var s := slot;
      while nextBitpos > outputBitpos
        invariant s >= slot && outputBitpos == PACKET_BITS * s
        invariant Padded(s, nextBitpos) == Padded(slot, nextBitpos)
        invariant output == old(output) + Nulls(s - slot)
      {
        output := output + [NullPacket()];
        outputBitpos := outputBitpos + PACKET_BITS;
        s := s + 1;
      }
    }

    /** write_section: the packets of a section go out. */
    method WriteSection(section: Section, pid: nat, ghost t: Table, ghost times: nat) returns (n: nat)
      requires Shows(section, t, times) && pid == t.pid < 0x2000
      modifies this`output, section`cc
      ensures Shows(section, t, times + 1)
      ensures output == old(output) + Packetise(t.data, t.pid, CounterAt(t, times))
      ensures n == |Packetise(t.data, t.pid, CounterAt(t, times))|
    {
      var packets := Packetise(section.buf[..section.length], pid, section.cc);
      output := output + packets;
      n := |packets|;
      section.cc := (section.cc + n) % 16;
    }

    /** The PMTs of all services. */
    method WritePmts(ghost ts: seq<Table>, ghost times: nat) returns (n: nat)
      requires forall i, j :: 0 <= i < j < |newPmts| ==> newPmts[i] != newPmts[j]
      requires AllShow(newPmts, ts, times)
      requires forall i :: 0 <= i < |ts| ==> ts[i].pid == Pmt.PmtPid(i) < 0x2000 && ts[i].cc < 16
      modifies this`output, set i | 0 <= i < |newPmts| :: newPmts[i]`cc
      ensures AllShow(newPmts, ts, times + 1)
      ensures output == old(output) + TablePackets(ts, times) && n == |TablePackets(ts, times)|
    {
      hide TablePackets, Packetise, CounterAt, PacketCount, Shows;
      n := 0;
      var i := 0;
      TablePacketsEnds(ts, times);
      while i < |newPmts|
        invariant i <= |newPmts|
        invariant forall j :: 0 <= j < i ==> Shows(newPmts[j], ts[j], times + 1)
        invariant forall j :: i <= j < |newPmts| ==> Shows(newPmts[j], ts[j], times)
        invariant n == |TablePackets(ts[..i], times)| && output == old(output) + TablePackets(ts[..i], times)
      {
        TablePacketsNext(ts, i, times);
        var m := WriteSection(newPmts[i], Pmt.PmtPid(i), ts[i], times);
        n := n + m;
        i := i + 1;
      }
    }

    /** The sections have been sent as often as these items say. */
    ghost predicate TablesShow(p: Plan, trace: seq<Item>)
      reads pat, pat.buf, sdt, sdt.buf, nit, nit.buf
      reads set i | 0 <= i < |newPmts| :: newPmts[i], set i | 0 <= i < |newPmts| :: newPmts[i].buf
    {
      && AllShow([pat], p.pat.tables, Count(trace, |trace|, OfPat)) && p.pat.tables[0].pid == 0
      && AllShow(newPmts, p.pmt.tables, Count(trace, |trace|, OfPmt))
      && (forall i :: 0 <= i < |newPmts| ==> p.pmt.tables[i].pid == Pmt.PmtPid(i) < 0x2000)
      && AllShow([sdt], p.sdt.tables, Count(trace, |trace|, OfSdt)) && p.sdt.tables[0].pid == 0x11
      && AllShow([nit], p.nit.tables, Count(trace, |trace|, OfNit)) && p.nit.tables[0].pid == 0x10
    }

    ghost predicate SectionsApart() {
      SectionsDistinct(pat, sdt, nit, newPmts, memory)
    }

    /** One more item, in all counts at once. */
    lemma CountsNext(x: Item)
      ensures var next := items + [x];
              && Count(next, |next|, OfPat) == Count(items, |items|, OfPat) + (if x.kind == OfPat then 1 else 0)
              && Count(next, |next|, OfPmt) == Count(items, |items|, OfPmt) + (if x.kind == OfPmt then 1 else 0)
              && Count(next, |next|, OfSdt) == Count(items, |items|, OfSdt) + (if x.kind == OfSdt then 1 else 0)
              && Count(next, |next|, OfNit) == Count(items, |items|, OfNit) + (if x.kind == OfNit then 1 else 0)
    {
      hide Count;
      AfterOne(items, x, OfPat, 0);
      AfterOne(items, x, OfPmt, 0);
      AfterOne(items, x, OfSdt, 0);
      AfterOne(items, x, OfNit, 0);
    }

    /** PAT: one section, and its clock. */
    method SendPat(ghost x: Item) returns (n: nat)
      requires SectionsApart() && ValidPlan(plan) && TablesShow(plan, items)
      requires x.kind == OfPat && x.packets == TablePackets(plan.pat.tables, Count(items, |items|, OfPat))
      modifies this`output, this`nextPatBitpos, pat`cc
      ensures TablesShow(plan, items + [x]) && nextPatBitpos == old(nextPatBitpos) + patPeriod
      ensures output == old(output) + x.packets && n == |x.packets|
    {
      hide Count, Shows, Packetise, CounterAt, TablePackets;
      CountsNext(x);
      SingleTable(plan.pat.tables, Count(items, |items|, OfPat));
      n := WriteSection(pat, 0, plan.pat.tables[0], Count(items, |items|, OfPat));
      nextPatBitpos := nextPatBitpos + patPeriod;
    }

    /** PMTs: those of all services. */
    method SendPmt(ghost x: Item) returns (n: nat)
      requires SectionsApart() && ValidPlan(plan) && TablesShow(plan, items)
      requires x.kind == OfPmt && x.packets == TablePackets(plan.pmt.tables, Count(items, |items|, OfPmt))
      modifies this`output, this`nextPmtBitpos, set i | 0 <= i < |newPmts| :: newPmts[i]`cc
      ensures TablesShow(plan, items + [x]) && nextPmtBitpos == old(nextPmtBitpos) + pmtPeriod
      ensures output == old(output) + x.packets && n == |x.packets|
    {
      hide Count, Shows, Packetise, CounterAt, TablePackets;
      CountsNext(x);
      n := WritePmts(plan.pmt.tables, Count(items, |items|, OfPmt));
      nextPmtBitpos := nextPmtBitpos + pmtPeriod;
    }

    method SendSdt(ghost x: Item) returns (n: nat)
      requires SectionsApart() && ValidPlan(plan) && TablesShow(plan, items)
      requires x.kind == OfSdt && x.packets == TablePackets(plan.sdt.tables, Count(items, |items|, OfSdt))
      modifies this`output, this`nextSdtBitpos, sdt`cc
      ensures TablesShow(plan, items + [x]) && nextSdtBitpos == old(nextSdtBitpos) + sdtPeriod
      ensures output == old(output) + x.packets && n == |x.packets|
    {
      hide Count, Shows, Packetise, CounterAt, TablePackets;
      CountsNext(x);
      SingleTable(plan.sdt.tables, Count(items, |items|, OfSdt));
      n := WriteSection(sdt, 0x11, plan.sdt.tables[0], Count(items, |items|, OfSdt));
      nextSdtBitpos := nextSdtBitpos + sdtPeriod;
    }

    method SendNit(ghost x: Item) returns (n: nat)
      requires SectionsApart() && ValidPlan(plan) && TablesShow(plan, items)
      requires x.kind == OfNit && x.packets == TablePackets(plan.nit.tables, Count(items, |items|, OfNit))
      modifies this`output, this`nextNitBitpos, nit`cc
      ensures TablesShow(plan, items + [x]) && nextNitBitpos == old(nextNitBitpos) + nitPeriod
      ensures output == old(output) + x.packets && n == |x.packets|
    {
      hide Count, Shows, Packetise, CounterAt, TablePackets;
      CountsNext(x);
      SingleTable(plan.nit.tables, Count(items, |items|, OfNit));
      n := WriteSection(nit, 0x10, plan.nit.tables[0], Count(items, |items|, OfNit));
      nextNitBitpos := nextNitBitpos + nitPeriod;
    }

    /** A service: its next packet, with the shared counter if it is on the EIT PID. */
    method SendOf(k: nat, ghost x: Item, ghost n: nat)
      requires k < |services| && Apart() && ServicesHold(items) && Stocked(services[k]) && Fed(n)
      requires ValidPlan(plan) && Supplied(plan, items, |items|) && eitCc == EitCounter(items, |items|)
      requires x.kind == OfService(k) && x.packets == PacketsOf(plan, items, |items|, OfService(k))
      modifies this`output, this`eitCc, services[k].Footprint()
      ensures ServicesHold(items + [x]) && Fed(n)
      ensures output == old(output) + x.packets && |x.packets| == 1
      ensures eitCc == EitCounter(items + [x], |items| + 1)
    {
      hide Holds, Left, Stocked, Service.Footprint, Count, EitCounter;
      forall i | 0 <= i < |services|
        ensures Count(items + [x], |items| + 1, OfService(i))
             == Count(items, |items|, OfService(i)) + if i == k then 1 else 0
      {
        AfterOne(items, x, OfService(i), 0);
      }
      AfterOne(items, x, OfPat, 0);
      var p;
      p, eitCc := SendService(services[k], plan.streams[k], Count(items, |items|, OfService(k)), eitCc);
      output := output + [p];
    }

    lemma ServicesStill(x: Item)
      requires Apart() && ServicesHold(items) && !x.kind.OfService?
      ensures ServicesHold(items + [x])
    {
      hide Holds, Count;
      forall i | 0 <= i < |services|
        ensures Holds(services[i], plan.streams[i], Count(items + [x], |items + [x]|, OfService(i)))
      {
        AfterOne(items, x, OfService(i), 0);
      }
    }

    lemma TablesStill(x: Item)
      requires TablesShow(plan, items) && x.kind.OfService?
      ensures TablesShow(plan, items + [x])
    {
      hide Shows, Count;
      CountsNext(x);
    }

    /** The clock of the tables that were sent has moved on by its period. */
    ghost predicate Ticked(x: Item, pat: nat, pmt: nat, sdt: nat, nit: nat)
      reads this`nextPatBitpos, this`nextPmtBitpos, this`nextSdtBitpos, this`nextNitBitpos
    {
      && nextPatBitpos == pat + (if x.kind == OfPat then patPeriod else 0)
      && nextPmtBitpos == pmt + (if x.kind == OfPmt then pmtPeriod else 0)
      && nextSdtBitpos == sdt + (if x.kind == OfSdt then sdtPeriod else 0)
      && nextNitBitpos == nit + (if x.kind == OfNit then nitPeriod else 0)
    }

    /** The packets of the chosen tables go out. */
    method EmitTables(kind: Kind, ghost x: Item) returns (n: nat)
      requires SectionsApart() && TablesShow(plan, items) && ValidPlan(plan) && !kind.OfService?
      requires x.kind == kind && x.packets == TablePackets(Tables(plan, kind).tables, Count(items, |items|, kind))
      modifies this`output, this`nextPatBitpos, this`nextPmtBitpos, this`nextSdtBitpos, this`nextNitBitpos
      modifies pat`cc, sdt`cc, nit`cc, set i | 0 <= i < |newPmts| :: newPmts[i]`cc
      ensures TablesShow(plan, items + [x])
      ensures output == old(output) + x.packets && n == |x.packets|
      ensures Ticked(x, old(nextPatBitpos), old(nextPmtBitpos), old(nextSdtBitpos), old(nextNitBitpos))
    {
      hide Shows, Count, ValidPlan, TablesShow, TablePackets;
      match kind {
        case OfPat => n := SendPat(x);
        case OfPmt => n := SendPmt(x);
        case OfSdt => n := SendSdt(x);
        case OfNit => n := SendNit(x);
      }
    }

    /** The packets of the chosen item go out, and everything that counts them moves on. */
    method Emit(kind: Kind, ghost x: Item, ghost m: nat) returns (n: nat)
      requires Apart() && SectionsApart() && ServicesHold(items) && TablesShow(plan, items) && Fed(m)
      requires forall i :: 0 <= i < |services| ==> Stocked(services[i])
      requires ValidPlan(plan) && Supplied(plan, items, |items|) && eitCc == EitCounter(items, |items|)
      requires KindOf(plan, kind) && x.kind == kind && x.packets == PacketsOf(plan, items, |items|, kind)
      modifies this`output, this`eitCc, memory
      modifies this`nextPatBitpos, this`nextPmtBitpos, this`nextSdtBitpos, this`nextNitBitpos
      modifies pat`cc, sdt`cc, nit`cc, set i | 0 <= i < |newPmts| :: newPmts[i]`cc
      ensures ServicesHold(items + [x]) && TablesShow(plan, items + [x]) && Fed(m)
      ensures output == old(output) + x.packets && n == |x.packets|
      ensures eitCc == EitCounter(items + [x], |items| + 1)
      ensures Ticked(x, old(nextPatBitpos), old(nextPmtBitpos), old(nextSdtBitpos), old(nextNitBitpos))
    {
      hide Holds, Shows, Left, Stocked, Service.Footprint, Count, EitCounter, ValidPlan, Supplied, TablePackets;
      if kind.OfService? {
        SendOf(kind.service, x, m);
        TablesStill(x);
        n := 1;
      } else {
        AfterOne(items, x, OfPat, 0);
        n := EmitTables(kind, x);
        ServicesStill(x);
      }
    }

    lemma ClocksNow(x: Item, pat: nat, pmt: nat, sdt: nat, nit: nat)
      requires pat == Clock(items, |items|, OfPat, patPeriod) && pmt == Clock(items, |items|, OfPmt, pmtPeriod)
      requires sdt == Clock(items, |items|, OfSdt, sdtPeriod) && nit == Clock(items, |items|, OfNit, nitPeriod)
      requires Ticked(x, pat, pmt, sdt, nit) && eitCc == EitCounter(items + [x], |items| + 1)
      ensures ClocksAre(items + [x])
    {
      hide Clock, EitCounter;
      AfterOne(items, x, OfPat, patPeriod);
      AfterOne(items, x, OfPmt, pmtPeriod);
      AfterOne(items, x, OfSdt, sdtPeriod);
      AfterOne(items, x, OfNit, nitPeriod);
    }

    /** The same, with the clocks. */
    method EmitItem(kind: Kind, ghost x: Item, ghost m: nat) returns (n: nat)
      requires Apart() && SectionsApart() && ServicesHold(items) && TablesShow(plan, items) && Fed(m)
      requires forall i :: 0 <= i < |services| ==> Stocked(services[i])
      requires ValidPlan(plan) && Supplied(plan, items, |items|) && ClocksAre(items)
      requires KindOf(plan, kind) && x.kind == kind && x.packets == PacketsOf(plan, items, |items|, kind)
      modifies this`output, this`eitCc, memory
      modifies this`nextPatBitpos, this`nextPmtBitpos, this`nextSdtBitpos, this`nextNitBitpos
      modifies pat`cc, sdt`cc, nit`cc, set i | 0 <= i < |newPmts| :: newPmts[i]`cc
      ensures ServicesHold(items + [x]) && TablesShow(plan, items + [x]) && Fed(m) && ClocksAre(items + [x])
      ensures output == old(output) + x.packets && n == |x.packets|
    {
      hide Holds, Left, Stocked, Service.Footprint, Clock, EitCounter, ValidPlan, Supplied, PacketsOf, TablesShow,
        ServicesHold, Fed, KindOf, SectionsDistinct;
      n := Emit(kind, x, m);
      ClocksNow(x, old(nextPatBitpos), old(nextPmtBitpos), old(nextSdtBitpos), old(nextNitBitpos));
    }

    ghost predicate Valid()
      reads this, memory, pat, pat.buf, sdt, sdt.buf, nit, nit.buf
      reads set i | 0 <= i < |newPmts| :: newPmts[i], set i | 0 <= i < |newPmts| :: newPmts[i].buf
    {
      && Apart() && SectionsApart() && ServicesHold(items) && TablesShow(plan, items) && Consistent(plan, items)
    }

    /** What is left of a turn once the packets are out. */
    lemma Concludes(x: Item)
      requires ValidPlan(plan) && Legal(plan, items) && Supplied(plan, items, |items|)
      requires x == NextItem(plan, items, |items|) && ClocksAre(items + [x])
      requires plan.pat.period == patPeriod && plan.pmt.period == pmtPeriod
      requires plan.sdt.period == sdtPeriod && plan.nit.period == nitPeriod
      requires outputBitpos == PACKET_BITS * (x.slot + |x.packets|) && x.slot >= Before(items, |items|)
      requires output == Output(items) + Nulls(x.slot - Before(items, |items|)) + x.packets
      ensures Consistent(plan, items + [x])
    {
      hide Legal, NextItem, Supplied, ValidPlan, ClocksAre;
      var next := items + [x];
      LegalAppend(plan, items, x);
      SameCounts(items, next, |items|, OfPat, 0);
      assert next[..|items|] == items;
    }

    /** The end of a turn: the item goes out behind the padding. */
    method SendItem(kind: Kind, ghost x: Item, ghost m: nat)
      requires Apart() && SectionsApart() && ServicesHold(items) && TablesShow(plan, items) && Fed(m)
      requires forall i :: 0 <= i < |services| ==> Stocked(services[i])
      requires ValidPlan(plan) && Legal(plan, items) && Supplied(plan, items, |items|) && ClocksAre(items)
      requires plan.pat.period == patPeriod && plan.pmt.period == pmtPeriod
      requires plan.sdt.period == sdtPeriod && plan.nit.period == nitPeriod
      requires KindOf(plan, kind) && x.kind == kind && x.packets == PacketsOf(plan, items, |items|, kind)
      requires x == NextItem(plan, items, |items|) && x.slot >= Before(items, |items|)
      requires outputBitpos == PACKET_BITS * x.slot
      requires output == Output(items) + Nulls(x.slot - Before(items, |items|))
      modifies this`output, this`outputBitpos, this`eitCc, this`items, memory
      modifies this`nextPatBitpos, this`nextPmtBitpos, this`nextSdtBitpos, this`nextNitBitpos
      modifies pat`cc, sdt`cc, nit`cc, set i | 0 <= i < |newPmts| :: newPmts[i]`cc
      ensures ServicesHold(items) && TablesShow(plan, items) && Consistent(plan, items) && Fed(m)
      ensures items == old(items) + [x]
    {
      hide Holds, Left, Stocked, Service.Footprint, Supplied, PacketsOf, Legal, Output, Before, KindOf, NextItem,
        TablesShow, ValidPlan, SectionsDistinct, ClocksAre;
      var n := EmitItem(kind, x, m);
      outputBitpos := outputBitpos + n * PACKET_BITS;
      Concludes(x);
      items := items + [x];
    }

    /** The second part of a turn: the next item is chosen and sent. */
    method SendNext(ghost m: nat)
      requires Valid() && Fed(m)
      requires forall i :: 0 <= i < |services| ==> Stocked(services[i])
      modifies this`output, this`outputBitpos, this`eitCc, this`items, memory
      modifies this`nextPatBitpos, this`nextPmtBitpos, this`nextSdtBitpos, this`nextNitBitpos
      modifies pat`cc, sdt`cc, nit`cc, set i | 0 <= i < |newPmts| :: newPmts[i]`cc
      ensures Valid() && Fed(m)
      ensures Supplied(plan, old(items), |old(items)|)
      ensures items == old(items) + [NextItem(plan, old(items), |old(items)|)]
    {
      hide Holds, Stocked, Supplied, Choose, PacketsOf, Legal, Output, Before, KindOf, NextItem,
        TablesShow, ValidPlan, ClocksAre, ServicesHold, Fed, Service.Footprint;
      var kind, nextBitpos := Select();
      ghost var x := NextItem(plan, items, |items|);
      NextItemIs(plan, items, x, kind, nextBitpos);
      Pad(nextBitpos, Before(items, |items|));
      SendItem(kind, x, m);
    }

    /**
     * One turn of the output loop: exactly the item that has to come next is sent, padded with
     * null packets up to its position.
     */
    method Step(ghost m: nat)
      requires Valid() && Fed(m + 1)
      modifies this`output, this`outputBitpos, this`eitCc, this`plan, this`items, memory
      modifies this`nextPatBitpos, this`nextPmtBitpos, this`nextSdtBitpos, this`nextNitBitpos
      modifies pat`cc, sdt`cc, nit`cc, set i | 0 <= i < |newPmts| :: newPmts[i]`cc
      ensures Valid() && Fed(m) && Continues(old(plan), plan)
      ensures Supplied(plan, old(items), |old(items)|)
      ensures items == old(items) + [NextItem(plan, old(items), |old(items)|)]
    {
      hide Holds, Shows, Left, Stocked, Service.Footprint, Count, Consistent, Continues;
      Refill(m);
      SendNext(m);
    }

    /** Any number of turns. */
    method Turns(steps: nat)
      requires Valid() && Fed(steps)
      modifies this`output, this`outputBitpos, this`eitCc, this`plan, this`items, memory
      modifies this`nextPatBitpos, this`nextPmtBitpos, this`nextSdtBitpos, this`nextNitBitpos
      modifies pat`cc, sdt`cc, nit`cc, set i | 0 <= i < |newPmts| :: newPmts[i]`cc
      ensures Valid() && |items| == |old(items)| + steps && old(items) <= items && Continues(old(plan), plan)
    {
      hide Apart, SectionsDistinct, ServicesHold, TablesShow, Consistent, Continues, Fed;
      var n := 0;
      ContinuesItself(plan);
      while n < steps
        invariant n <= steps && Valid() && Fed(steps - n)
        invariant |items| == |old(items)| + n && old(items) <= items && Continues(old(plan), plan)
      {
        ghost var before := plan;
        Step(steps - n - 1);
        ContinuesOn(old(plan), before, plan);
        n := n + 1;
      }
    }

    /** The output of any number of turns is that of a trace, and continues what was there. */
    method Run(steps: nat)
      requires Valid() && Fed(steps)
      modifies this`output, this`outputBitpos, this`eitCc, this`plan, this`items, memory
      modifies this`nextPatBitpos, this`nextPmtBitpos, this`nextSdtBitpos, this`nextNitBitpos
      modifies pat`cc, sdt`cc, nit`cc, set i | 0 <= i < |newPmts| :: newPmts[i]`cc
      ensures Valid() && ValidPlan(plan) && Legal(plan, items) && output == Output(items)
      ensures outputBitpos == 8 * |Flatten(output)|
      ensures |items| == |old(items)| + steps && old(items) <= items && Continues(old(plan), plan)
    {
      hide Holds, Shows, Legal, ValidPlan, Output, TablesShow, Continues, Fed, ServicesHold, SectionsDistinct, Apart;
      Turns(steps);
      LegalIsOrdered(plan, items);
      OutputLength(items);
      BitsOf(output);
    }

    /**
     * End to end: what was sent of a service is the beginning of what reading its input gives, in
     * order and each packet at the position computed for it; and what reading gives is the first
     * packet followed by the contributions of the others, each in its place, with nothing lost,
     * and nothing changed but the PIDs.
     */
    lemma EndToEnd(i: nat) returns (sections: seq<Bytes>)
      requires Valid() && i < |services|
      ensures var s := services[i];
              && s.first < s.taken <= |s.input| && s.sent <= |s.reading.packets| == |s.reading.dues|
              && ValidConfig(s.cfg) && Readable(s.cfg, s.input, s.first, s.taken)
              && s.reading == ReadAll(s.cfg, s.input, s.first, s.taken)
              && AllDigestible(s.cfg, Reassembly.Idle, s.input[s.first + 1..s.taken])
              && s.reading.packets == [s.input[s.first]]
                   + Contributions(s.cfg, Reassembly.Idle, s.input[s.first + 1..s.taken]).1
              && Accounted(s.cfg, s.input[s.first..s.taken], s.reading, sections)
              && Conserved(s.cfg, s.input[s.first..s.taken], s.reading.packets)
              && AllSame(s.reading.packets[..s.sent], SentOf(items, |items|, i))
              && DuesOf(items, |items|, i) == s.reading.dues[..s.sent]
    {
      hide Legal, Accounted, TablesShow, Apart, ClocksAre, Output, Service.Footprint, AllDigestible, Contributions;
      hide Conserved;
      var s, st, sent := services[i], plan.streams[i], Count(items, |items|, OfService(i));
      SentInOrder(plan, items, |items|, i);
      HeldStream(s, st, sent);
      sections := HeldAccount(s, st, sent);
    }

    /** The services have the PIDs that were given out for these programs. */
    ghost predicate Allocated(ps: seq<Pmt.Program>) {
      && Pmt.Roomy(ps) && |ps| == |services|
      && forall i :: 0 <= i < |services| ==> services[i].cfg.pids == Pmt.ServiceMap(ps[i], i).0
    }

    /**
     * A packet that was sent, the first one excepted, was due where linear interpolation between
     * the two references around it in the stream puts it.
     */
    lemma PositionsInterpolate(ps: seq<Pmt.Program>, i: nat, k: nat) returns (a: nat, b: nat)
      requires Valid() && Allocated(ps) && i < |services| && 0 < k < services[i].sent
      ensures k < |services[i].reading.dues| && Interpolates(services[i].cfg, services[i].reading, a, b, k)
      ensures k < |DuesOf(items, |items|, i)| && DuesOf(items, |items|, i)[k] == services[i].reading.dues[k]
    {
      hide Legal, Accounted, TablesShow, Apart, ClocksAre, Output, Service.Footprint, AllDigestible, Contributions;
      hide Conserved, Interpolates, Readable, ReadAll, Pmt.Roomy, Consistent, Holds, AllSame;
      var s := services[i];
      var sections := EndToEnd(i);
      MapHasOneClock(ps, i, s.cfg);
      a, b := DuesInterpolate(s.cfg, s.input, s.first, s.taken, k);
    }

    /** Every stream has begun, with a packet on the old PID of the references. */
    lemma HasStarted()
      requires Valid()
      ensures |plan.streams| == |services| && Started(plan)
      ensures forall i :: 0 <= i < |services| ==>
                && Pid(plan.streams[i].packets[0]) == services[i].cfg.pcrPid != EIT_PID
                && services[i].first < |services[i].input|
                && plan.streams[i].packets[0] == services[i].input[services[i].first]
                && AllProduced(services[i].cfg, plan.streams[i].packets[1..])
    {
      hide Legal, TablesShow, Apart, ClocksAre, Output, Holds, Produced, Service.Footprint;
      forall i | 0 <= i < |services|
        ensures plan.streams[i].packets != [] && plan.streams[i].dues != [] && plan.streams[i].dues[0] == 0
        ensures Pid(plan.streams[i].packets[0]) == services[i].cfg.pcrPid != EIT_PID
        ensures services[i].first < |services[i].input|
        ensures plan.streams[i].packets[0] == services[i].input[services[i].first]
        ensures AllProduced(services[i].cfg, plan.streams[i].packets[1..])
      {
        HeldPids(services[i], plan.streams[i], Count(items, |items|, OfService(i)));
      }
    }

    /** On a PID that belongs to a table there are only first packets of services. */
    lemma NoneBehindOn(ps: seq<Pmt.Program>, pid: nat)
      requires Valid() && Allocated(ps) && TablePid(ps, pid)
      ensures NoneBehind(plan, pid)
    {
      hide Legal, TablesShow, Apart, ClocksAre, Output, Holds, Produced, TablePid, Pmt.Roomy, Service.Footprint;
      HasStarted();
      forall i, k | 0 <= i < |plan.streams| && 0 < k < |plan.streams[i].packets|
        ensures Pid(plan.streams[i].packets[k]) != pid
      {
        NotProduced(ps, i, services[i].cfg, pid);
        assert plan.streams[i].packets[1..][k - 1] == plan.streams[i].packets[k];
      }
    }

    lemma OneTable(ps: seq<Pmt.Program>, kind: Kind, j: nat, pid: PidValue)
      requires Valid() && !kind.OfService? && j < |Tables(plan, kind).tables|
      requires pid == Tables(plan, kind).tables[j].pid && Allocated(ps)
      ensures OnlyFirsts(plan, kind, j, pid)
    {
      hide Legal, ClocksAre, Output, ServicesHold, Shows, NoneBehind;
      assert TablePid(ps, pid);
      NoneBehindOn(ps, pid);
    }

    /**
     * Whatever has been sent, the check finds no gap on the PID of a table on which no service
     * had its references, however often the table was repeated and whatever came between.
     */
    lemma TablesPass(ps: seq<Pmt.Program>, kind: Kind, j: nat, pid: PidValue)
      requires Valid() && !kind.OfService? && j < |Tables(plan, kind).tables|
      requires pid == Tables(plan, kind).tables[j].pid && Allocated(ps)
      requires forall i :: 0 <= i < |services| ==> services[i].cfg.pcrPid != pid
      ensures Quiet(NothingSeen(), output, pid)
    {
      hide Legal, Apart, ClocksAre, Output, Holds, TablesShow, Pmt.Roomy, OnlyFirsts, Quiet, Produced;
      hide FirstsPass;
      HasStarted();
      OneTable(ps, kind, j, pid);
      NoFirstPasses(plan, Tables(plan, kind).tables[j]);
      QuietIf(plan, items, kind, j, pid);
    }

    /**
     * In general it finds none, once the table has been repeated, if and only if the first
     * packets of the services that had their references on this PID pass.
     */
    lemma TablesPassIff(ps: seq<Pmt.Program>, kind: Kind, j: nat, pid: PidValue)
      requires Valid() && !kind.OfService? && j < |Tables(plan, kind).tables|
      requires pid == Tables(plan, kind).tables[j].pid && Allocated(ps)
      requires Tables(plan, kind).tables[j].data[0] < 128 && Count(items, |items|, kind) >= 2
      ensures Started(plan)
      ensures Quiet(NothingSeen(), output, pid) <==> FirstsPass(plan, Tables(plan, kind).tables[j])
    {
      hide Legal, Apart, ClocksAre, Output, ServicesHold, TablesShow, Pmt.Roomy, OnlyFirsts, Quiet, Produced;
      hide FirstsPass;
      HasStarted();
      OneTable(ps, kind, j, pid);
      QuietIff(plan, items, kind, j, pid);
    }

    /** The first packets have their sync bytes and payloads. */
    ghost predicate FirstsLoaded()
      requires Valid()
      reads this, memory, pat, pat.buf, sdt, sdt.buf, nit, nit.buf
      reads set i | 0 <= i < |newPmts| :: newPmts[i], set i | 0 <= i < |newPmts| :: newPmts[i].buf
    {
      forall i :: 0 <= i < |services| ==>
        var s := services[i];
        s.first < |s.input| && s.input[s.first][0] == 0x47 && HasPayload(s.input[s.first])
    }

    /**
     * With fewer than sixteen services whose first packets have payloads, it finds none if and
     * only if no service had its references on the PID of the table.
     */
    lemma TablesPassIfNoneCollides(ps: seq<Pmt.Program>, kind: Kind, j: nat, pid: PidValue)
      requires Valid() && !kind.OfService? && j < |Tables(plan, kind).tables|
      requires pid == Tables(plan, kind).tables[j].pid && Allocated(ps)
      requires Tables(plan, kind).tables[j].data[0] < 128 && Count(items, |items|, kind) >= 2
      requires |services| < 16 && FirstsLoaded()
      ensures Quiet(NothingSeen(), output, pid) <==> forall i :: 0 <= i < |services| ==> services[i].cfg.pcrPid != pid
    {
      hide Legal, Apart, ClocksAre, Output, Holds, TablesShow, Pmt.Roomy, Quiet, Produced, FirstsPass;
      HasStarted();
      TablesPassIff(ps, kind, j, pid);
      FewPassIff(plan, Tables(plan, kind).tables[j]);
    }

    lemma BehindFirsts(ps: seq<Pmt.Program>)
      requires Valid() && Allocated(ps)
      ensures LaterApart(plan)
    {
      hide Legal, TablesShow, Apart, ClocksAre, Output, Holds, Produced, Pmt.Roomy, Service.Footprint;
      HasStarted();
      forall i, k, j, l | TwoPackets(plan, i, k, j, l) && i != j && k > 0 && l > 0
          && Pid(plan.streams[i].packets[k]) == Pid(plan.streams[j].packets[l])
        ensures Pid(plan.streams[i].packets[k]) == EIT_PID
      {
        assert plan.streams[i].packets[1..][k - 1] == plan.streams[i].packets[k];
        assert plan.streams[j].packets[1..][l - 1] == plan.streams[j].packets[l];
        if Pid(plan.streams[i].packets[k]) != EIT_PID {
          ProducedOnce(ps, i, services[i].cfg, j, services[j].cfg, Pid(plan.streams[i].packets[k]));
        }
      }
    }

    /**
     * No two services had their references on the same PID, and none has read a packet that is
     * moved to the PID on which another one had its references.
     */
    ghost predicate InputsApart()
      requires Valid()
      reads this, memory, pat, pat.buf, sdt, sdt.buf, nit, nit.buf
      reads set i | 0 <= i < |newPmts| :: newPmts[i], set i | 0 <= i < |newPmts| :: newPmts[i].buf
    {
      forall i, j | 0 <= i < |services| && 0 <= j < |services| && i != j :: !Meets(services[j], services[i].cfg.pcrPid)
    }

    lemma StreamsMeet(j: nat, pid: PidValue)
      requires Valid() && j < |services| && pid != EIT_PID
      ensures |plan.streams| == |services|
      ensures HasPid(plan.streams[j].packets, pid) <==> Meets(services[j], pid)
    {
      hide Legal, TablesShow, Apart, ClocksAre, Output, Service.Footprint, Meets, HasPid;
      HeldMeets(services[j], plan.streams[j], Count(items, |items|, OfService(j)), pid);
    }

    /**
     * No two services have a packet on the same PID, but for the EIT PID, if and only if their
     * inputs keep apart.
     */
    lemma ServicesApartIff(ps: seq<Pmt.Program>)
      requires Valid() && Allocated(ps)
      ensures ServicesApart(plan) <==> InputsApart()
    {
      hide Legal, TablesShow, Apart, ClocksAre, Output, Holds, Produced, Pmt.Roomy, Service.Footprint;
      hide ServicesApart, FirstApart, LaterApart, Meets, HasPid;
      HasStarted();
      BehindFirsts(ps);
      ApartIff(plan);
      forall i: nat | i < |services|
        ensures FirstApart(plan, i) <==> forall j | 0 <= j < |services| && i != j ::
                  !Meets(services[j], services[i].cfg.pcrPid)
      {
        FirstApartHas(plan, i);
        forall j | 0 <= j < |services|
          ensures HasPid(plan.streams[j].packets, Pid(plan.streams[i].packets[0]))
             <==> Meets(services[j], services[i].cfg.pcrPid)
        {
          StreamsMeet(j, services[i].cfg.pcrPid);
        }
      }
    }

    /**
     * A receiver that collects the sections on the PID of a table gets it exactly as often as it
     * was sent, and nothing else, if no service had its references there.
     */
    lemma TablesReceived(ps: seq<Pmt.Program>, kind: Kind, j: nat, pid: PidValue, tableId: byte)
      requires Valid() && !kind.OfService? && j < |Tables(plan, kind).tables|
      requires pid == Tables(plan, kind).tables[j].pid && Allocated(ps)
      requires forall i :: 0 <= i < |services| ==> services[i].cfg.pcrPid != pid
      requires Reassembly.WellFormed(Tables(plan, kind).tables[j].data, tableId)
      requires Crc32.Crc(Tables(plan, kind).tables[j].data, CRC_START) == 0
      ensures Reassembly.AllAcceptable(Reassembly.Idle, On(output, pid), tableId)
      ensures Reassembly.FeedAll(Reassembly.Idle, On(output, pid), tableId)
           == (Reassembly.Idle, Receiver.Copies(Tables(plan, kind).tables[j].data, Count(items, |items|, kind)))
    {
      hide Legal, Apart, ClocksAre, Output, Holds, TablesShow, Pmt.Roomy, OnlyFirsts, Produced, Crc32.Crc, On;
      hide Reassembly.FeedAll, Reassembly.AllAcceptable, Reassembly.WellFormed, Count, Receiver.Copies;
      HasStarted();
      OneTable(ps, kind, j, pid);
      Receiver.TableReceived(plan, items, kind, j, pid, tableId);
    }

    /** Behind its first packet, a service is sent on the PIDs its new PMT names and on the EIT PID. */
    lemma PmtCoversService(i: nat, s: Bytes, number: nat)
      requires Valid() && i < |services| && Pmt.HasPmtShape(s) && number < 0x1_0000
      requires Pmt.PmtPid(i) + 1 + Pmt.CarriedCount(Pmt.ReadPmt(s).streams) < 0x2000
      requires services[i].cfg.pids == Pmt.ServiceMap(Pmt.ReadPmt(s), i).0
      ensures Pmt.IsPmt(Pmt.Rebuilt(s, number, services[i].cfg.pids))
      ensures forall k :: 0 < k < |plan.streams[i].packets| ==>
                var pid := Pid(plan.streams[i].packets[k]);
                pid == EIT_PID || Receiver.Lists(Pmt.ReadPmt(Pmt.Rebuilt(s, number, services[i].cfg.pids)), pid)
    {
      hide Legal, TablesShow, Apart, ClocksAre, Output, Holds, Service.Footprint, Receiver.Lists;
      hide Pmt.ReadPmt, Pmt.Rebuilt, Pmt.ServiceMap, Pmt.HasPmtShape, Pmt.IsPmt, Started;
      HasStarted();
      Pmt.RebuiltPmtRead(s, number, services[i].cfg.pids);
      forall k | 0 < k < |plan.streams[i].packets| && Pid(plan.streams[i].packets[k]) != EIT_PID
        ensures Receiver.Lists(Pmt.ReadPmt(Pmt.Rebuilt(s, number, services[i].cfg.pids)),
                               Pid(plan.streams[i].packets[k]))
      {
        var pid := Pid(plan.streams[i].packets[k]);
        assert plan.streams[i].packets[1..][k - 1] == plan.streams[i].packets[k];
        assert Produced(services[i].cfg, pid);
        Receiver.PmtListsMoved(s, number, i, pid);
      }
    }

    /** Nor does it find one on the EIT PID, which all services feed. */
    lemma EitPasses()
      requires Valid() && forall i :: 0 <= i < |services| ==> InSync(services[i].input)
      ensures Quiet(NothingSeen(), output, EIT_PID)
    {
      hide Legal, Apart, ClocksAre, Output, Holds, Shows, Quiet;
      forall i | 0 <= i < |plan.streams| ensures InSync(plan.streams[i].packets) {
        HeldInSync(services[i], plan.streams[i], Count(items, |items|, OfService(i)));
      }
      EitIsQuiet(plan, items);
    }
  }
}
