/**
 * The stream one service contributes to the output: its packets with their new PIDs, the event
 * sections rewritten on the way, and the bit position at which each packet is due.
 */
module Streams {
  import opened Bytes
  import opened EitSection
  import opened Pcr
  import opened Pmt
  import opened Reassembly
  import opened Sections

  const EIT_PID: PidValue := 0x12
  const EIT_TABLE: byte := 0x4e
  const BUFFER_PACKETS: nat := 2048

  /** What is known about a service when its packets are read. */
  datatype Config = Config(pcrPid: PidValue, pids: PidMap, service: nat, ids: Ids, onid: int, capacity: nat)

  /** The clock reference is passed on, and no elementary stream is on the EIT PID or moved there. */
  ghost predicate ValidConfig(cfg: Config) {
    && ValidIds(cfg.ids) && cfg.pids[cfg.pcrPid] != 0 && cfg.pids[EIT_PID] == 0
    && forall i :: 0 <= i < |cfg.pids| ==> cfg.pids[i] != EIT_PID
  }

  /** A packet that ends an interval. */
  predicate IsReference(cfg: Config, p: Packet) {
    Pid(p) == cfg.pcrPid && HasPcr(p)
  }

  /** A delivered event section is for this service. */
  predicate IsFor(cfg: Config, s: Bytes)
    requires |s| <= SECTION_SIZE
  {
    GetU16(Cleared(s), 3) == cfg.service
  }

  /** A delivered event section for this service can be rewritten in its buffer. */
  ghost predicate Manageable(cfg: Config, s: Bytes) {
    |s| <= SECTION_SIZE && (IsFor(cfg, s) ==> Rewritable(Cleared(s), cfg.onid))
  }

  /** The packets made from one delivered event section. */
  ghost function EventPackets(cfg: Config, s: Bytes): seq<Packet>
    requires ValidConfig(cfg) && Manageable(cfg, s)
  {
    if IsFor(cfg, s) then Packetise(Rewritten(Cleared(s), cfg.ids, cfg.onid), EIT_PID, 0) else []
  }

  ghost predicate Digestible(cfg: Config, eit: Assembly, p: Packet)
    requires Open(eit)
  {
    Pid(p) == EIT_PID ==>
      && Acceptable(eit, p, EIT_TABLE)
      && forall i :: 0 <= i < |Feed(eit, p, EIT_TABLE).1| ==> Manageable(cfg, Feed(eit, p, EIT_TABLE).1[i])
  }

  ghost predicate AllManageable(cfg: Config, ss: seq<Bytes>) {
    forall i :: 0 <= i < |ss| ==> Manageable(cfg, ss[i])
  }

  ghost function AllEventPackets(cfg: Config, ss: seq<Bytes>): seq<Packet>
    requires ValidConfig(cfg) && AllManageable(cfg, ss)
  {
    if ss == [] then [] else EventPackets(cfg, ss[0]) + AllEventPackets(cfg, ss[1..])
  }

  /** What one packet of the input adds to the stream: the event section it completes, or itself. */
  ghost function Contribute(cfg: Config, eit: Assembly, p: Packet): (r: (Assembly, seq<Packet>))
    requires ValidConfig(cfg) && Open(eit) && Digestible(cfg, eit, p)
    ensures Open(r.0)
  {
    if Pid(p) == EIT_PID then
      var (next, delivered) := Feed(eit, p, EIT_TABLE);
      (next, AllEventPackets(cfg, delivered))
    else (eit, Moved(cfg, p))
  }

  /** The packet itself, on its new PID if it has one. */
  function Moved(cfg: Config, p: Packet): seq<Packet> {
    if cfg.pids[Pid(p)] == 0 then [] else [Renumbered(p, cfg.pids[Pid(p)])]
  }

  /** A packet of the output: those on the EIT PID share one continuity counter. */
  function Counted(p: Packet, eitCc: nat): (q: Packet)
    requires eitCc < 16
    ensures Pid(q) == Pid(p)
  {
    if Pid(p) == EIT_PID then p[3 := 0x10 + eitCc] else p
  }

  // ----- Reading -----

  /**
   * What has been read: the event section under construction, the packets of the stream, the
   * due positions of those up to the last clock reference, the first and the last reference.
   */
  datatype Reading = Reading(eit: Assembly, packets: seq<Packet>, dues: seq<nat>, start: nat, mark: nat)

  ghost predicate Consistent(r: Reading) {
    Open(r.eit) && 1 <= |r.dues| <= |r.packets| && r.start <= r.mark
  }

  /** A reading starts with the packet that carries the first reference, kept as it is. */
  function Begin(p: Packet): (r: Reading) {
    Reading(Idle, [p], [0], ClockReference(p), ClockReference(p))
  }

  /** The due positions of the n - 1 packets after the reference first, up to the reference second. */
  function Dues(first: nat, second: nat, start: nat, n: nat, capacity: nat): (ds: seq<nat>)
    requires start <= first <= second && n >= 2
    ensures |ds| == n - 1
    ensures forall j :: 0 <= j < n - 1 ==> ds[j] == Due(first, second, start, j + 1, n, capacity)
  {
    seq(n - 1, j requires 0 <= j < n - 1 => Due(first, second, start, j + 1, n, capacity))
  }

  /** The number of packets in the buffer: the one with the last reference and those after it. */
  function Pending(r: Reading): int { 1 + |r.packets| - |r.dues| }

  /**
   * The packet can be taken in: the buffer has room for it and for what it adds, and its
   * reference, if it has one, is not behind the last.
   */
  ghost predicate Next(cfg: Config, r: Reading, p: Packet)
    requires ValidConfig(cfg) && Consistent(r)
  {
    && Digestible(cfg, r.eit, p)
    && Pending(r) + 1 <= BUFFER_PACKETS
    && Pending(r) + |Contribute(cfg, r.eit, p).1| <= BUFFER_PACKETS
    && (IsReference(cfg, p) ==> r.mark <= ClockReference(p))
  }

  /** Everything but the due positions. */
  ghost function TakeIn(cfg: Config, r: Reading, p: Packet): (q: Reading)
    requires ValidConfig(cfg) && Consistent(r) && Next(cfg, r, p)
    ensures Consistent(q) && q.dues == r.dues && q.start == r.start && q.mark == r.mark
    ensures |q.packets| >= |r.packets| && q.packets[..|r.packets|] == r.packets
    ensures IsReference(cfg, p) ==> |q.packets| == |r.packets| + 1
  {
    var (eit, more) := Contribute(cfg, r.eit, p);
    r.(eit := eit, packets := r.packets + more)
  }

  /** At a clock reference the packets since the last one get their due positions. */
  function Mark(cfg: Config, q: Reading, second: nat): (r: Reading)
    requires |q.packets| > |q.dues| && q.start <= q.mark <= second
  {
    q.(mark := second,
       dues := q.dues + Dues(q.mark, second, q.start, |q.packets| - |q.dues| + 1, cfg.capacity))
  }

  ghost function Read(cfg: Config, r: Reading, p: Packet): (q: Reading)
    requires ValidConfig(cfg) && Consistent(r) && Next(cfg, r, p)
    ensures Consistent(q) && q.start == r.start
  {
    var q := TakeIn(cfg, r, p);
    if IsReference(cfg, p) then Mark(cfg, q, ClockReference(p)) else q
  }

  /** The input from packet first on can be read up to packet n; packet first is a reference. */
  ghost predicate Readable(cfg: Config, ps: seq<Packet>, first: nat, n: nat)
    requires ValidConfig(cfg)
    decreases n, 0
  {
    && first < n <= |ps|
    && if n == first + 1 then IsReference(cfg, ps[first])
       else Readable(cfg, ps, first, n - 1) && Next(cfg, ReadAll(cfg, ps, first, n - 1), ps[n - 1])
  }

  ghost function ReadAll(cfg: Config, ps: seq<Packet>, first: nat, n: nat): (r: Reading)
    requires ValidConfig(cfg) && Readable(cfg, ps, first, n)
    ensures Consistent(r)
    decreases n, 1
  {
    if n == first + 1 then Begin(ps[first])
    else Read(cfg, ReadAll(cfg, ps, first, n - 1), ps[n - 1])
  }

  /** What can be read to the end can be read one packet after the other. */
  lemma {:induction false} ReadNext(cfg: Config, ps: seq<Packet>, first: nat, k: nat, n: nat)
    requires ValidConfig(cfg) && Readable(cfg, ps, first, n) && first < k < n
    ensures Readable(cfg, ps, first, k) && Readable(cfg, ps, first, k + 1)
    ensures Next(cfg, ReadAll(cfg, ps, first, k), ps[k])
    ensures ReadAll(cfg, ps, first, k + 1) == Read(cfg, ReadAll(cfg, ps, first, k), ps[k])
  {
    hide Read, Next, IsReference, ClockReference;
    if k < n - 1 {
      ReadNext(cfg, ps, first, k, n - 1);
    }
  }

  // ----- Due positions never go back -----

  ghost predicate Sorted(ds: seq<nat>) {
    forall j, k :: 0 <= j <= k < |ds| ==> ds[j] <= ds[k]
  }

  /** The due positions are in order, and the last one is that of the last reference. */
  ghost predicate OnTime(cfg: Config, r: Reading) {
    && Consistent(r) && Sorted(r.dues)
    && r.dues[|r.dues| - 1] == Pcr.Position(r.mark - r.start, cfg.capacity)
  }

  lemma DuesSorted(first: nat, second: nat, start: nat, n: nat, capacity: nat)
    requires start <= first <= second && n >= 2
    ensures Sorted(Dues(first, second, start, n, capacity))
    ensures forall j :: 0 <= j < n - 1 ==>
              Pcr.Position(first - start, capacity) <= Dues(first, second, start, n, capacity)[j]
    ensures Dues(first, second, start, n, capacity)[n - 2] == Pcr.Position(second - start, capacity)
  {
    var ds := Dues(first, second, start, n, capacity);
    DueAtReferences(first, second, start, n, capacity);
    forall j, k | 0 <= j <= k < |ds| ensures ds[j] <= ds[k] {
      DueMonotone(first, second, start, j + 1, k + 1, n, capacity);
    }
    forall j | 0 <= j < |ds| ensures Pcr.Position(first - start, capacity) <= ds[j] {
      DueMonotone(first, second, start, 0, j + 1, n, capacity);
    }
  }

  lemma SortedAppend(a: seq<nat>, b: seq<nat>, x: nat)
    requires Sorted(a) && Sorted(b) && |a| > 0 && a[|a| - 1] == x
    requires forall j :: 0 <= j < |b| ==> x <= b[j]
    ensures Sorted(a + b)
  {
    var s := a + b;
    forall j, k | 0 <= j <= k < |s| ensures s[j] <= s[k] {
      if j < |a| <= k {
        assert a[j] <= a[|a| - 1] == x <= b[k - |a|];
      }
    }
  }

  lemma MarkOnTime(cfg: Config, q: Reading, second: nat)
    requires OnTime(cfg, q) && |q.packets| > |q.dues| && q.mark <= second
    ensures OnTime(cfg, Mark(cfg, q, second))
  {
    var n := |q.packets| - |q.dues| + 1;
    var more := Dues(q.mark, second, q.start, n, cfg.capacity);
    DuesSorted(q.mark, second, q.start, n, cfg.capacity);
    SortedAppend(q.dues, more, Pcr.Position(q.mark - q.start, cfg.capacity));
    var r := Mark(cfg, q, second);
    assert r.dues == q.dues + more && r.dues[|r.dues| - 1] == more[n - 2];
  }

  lemma {:induction false} ReadOnTime(cfg: Config, ps: seq<Packet>, first: nat, n: nat)
    requires ValidConfig(cfg) && Readable(cfg, ps, first, n)
    ensures OnTime(cfg, ReadAll(cfg, ps, first, n))
  {
    if n > first + 1 {
      ReadOnTime(cfg, ps, first, n - 1);
      TakenOnTime(cfg, ReadAll(cfg, ps, first, n - 1), ps[n - 1]);
    }
  }

  lemma TakenOnTime(cfg: Config, r: Reading, p: Packet)
    requires ValidConfig(cfg) && OnTime(cfg, r) && Next(cfg, r, p)
    ensures OnTime(cfg, Read(cfg, r, p))
  {
    if IsReference(cfg, p) {
      MarkOnTime(cfg, TakeIn(cfg, r, p), ClockReference(p));
    }
  }

  /** The last packet whose position is known is the one with the last reference. */
  lemma {:induction false} LastReference(cfg: Config, ps: seq<Packet>, first: nat, n: nat) returns (k: nat)
    requires ValidConfig(cfg) && Readable(cfg, ps, first, n)
    ensures first <= k < n && IsReference(cfg, ps[k]) && forall j :: k < j < n ==> !IsReference(cfg, ps[j])
    ensures var r := ReadAll(cfg, ps, first, n);
            && r.mark == ClockReference(ps[k])
            && r.packets[|r.dues| - 1] == if k == first then ps[k] else Renumbered(ps[k], cfg.pids[cfg.pcrPid])
  {
    hide IsReference, ClockReference, Next, Contribute;
    if n == first + 1 {
      k := first;
    } else {
      k := LastReference(cfg, ps, first, n - 1);
      var r, p := ReadAll(cfg, ps, first, n - 1), ps[n - 1];
      ReadAdds(cfg, r, p);
      if IsReference(cfg, p) {
        k := n - 1;
        ReferenceAdds(cfg, r, p);
      } else {
        OtherKeepsDues(cfg, r, p);
      }
    }
  }

  lemma ReferenceAdds(cfg: Config, r: Reading, p: Packet)
    requires ValidConfig(cfg) && Consistent(r) && Next(cfg, r, p) && IsReference(cfg, p)
    ensures Read(cfg, r, p).packets == r.packets + [Renumbered(p, cfg.pids[cfg.pcrPid])]
    ensures |Read(cfg, r, p).dues| == |Read(cfg, r, p).packets| == |r.packets| + 1
  {
  }

  lemma OtherKeepsDues(cfg: Config, r: Reading, p: Packet)
    requires ValidConfig(cfg) && Consistent(r) && Next(cfg, r, p) && !IsReference(cfg, p)
    ensures Read(cfg, r, p).dues == r.dues && r.packets <= Read(cfg, r, p).packets
  {
  }

  // ----- Every position is interpolated between the references around it -----

  /** A packet of the stream that carries a reference, on its new PID. */
  predicate Carries(cfg: Config, p: Packet) {
    Pid(p) == cfg.pids[cfg.pcrPid] && HasPcr(p)
  }

  /** No other PID is moved to that of the references. */
  ghost predicate OneClock(cfg: Config) {
    forall q :: 0 <= q < |cfg.pids| && cfg.pids[q] == cfg.pids[cfg.pcrPid] ==> q == cfg.pcrPid
  }

  /**
   * Packets i and j carry references, and none between them does; packet k, between them, is due
   * below the exact linear interpolation of these two, counted from the first reference of all,
   * by less than the bits of one tick of 27 MHz and one bit more.
   */
  ghost predicate Interpolates(cfg: Config, r: Reading, i: nat, j: nat, k: nat) {
    && i < k <= j < |r.dues| <= |r.packets|
    && (i == 0 || Carries(cfg, r.packets[i])) && Carries(cfg, r.packets[j])
    && (forall m :: i < m < j ==> !Carries(cfg, r.packets[m]))
    && var start, a, b := ClockReference(r.packets[0]), ClockReference(r.packets[i]), ClockReference(r.packets[j]);
       && start <= a <= b
       && var exact := ((a - start) as real + ((k - i) * (b - a)) as real / (j - i) as real)
                       * cfg.capacity as real / 27000000.0;
          r.dues[k] as real <= exact < r.dues[k] as real + cfg.capacity as real / 27000000.0 + 1.0
  }

  /** The last packet whose position is known carries the last reference, and none behind it does. */
  ghost predicate Marked(cfg: Config, r: Reading) {
    && Consistent(r) && r.start == ClockReference(r.packets[0])
    && ClockReference(r.packets[|r.dues| - 1]) == r.mark
    && (|r.dues| == 1 || Carries(cfg, r.packets[|r.dues| - 1]))
    && forall m :: |r.dues| <= m < |r.packets| ==> !Carries(cfg, r.packets[m])
  }

  lemma MovedClock(p: Packet, pid: PidValue)
    ensures HasPcr(Renumbered(p, pid)) == HasPcr(p) && ClockReference(Renumbered(p, pid)) == ClockReference(p)
  {
    var q := Renumbered(p, pid);
    assert forall m :: 3 <= m < 188 ==> q[m] == q[3..][m - 3] == p[3..][m - 3] == p[m];
  }

  /** Only a packet with a reference adds one to the stream. */
  lemma OthersCarryNone(cfg: Config, r: Reading, p: Packet)
    requires ValidConfig(cfg) && OneClock(cfg) && Consistent(r) && Next(cfg, r, p) && !IsReference(cfg, p)
    ensures var more := Contribute(cfg, r.eit, p).1; forall m :: 0 <= m < |more| ==> !Carries(cfg, more[m])
  {
    hide HasPcr, Renumbered, EventPackets, Manageable, Feed, Acceptable;
    if Pid(p) == EIT_PID {
      NoClockOnEit(cfg);
      EventsOnEit(cfg, Feed(r.eit, p, EIT_TABLE).1);
    } else if cfg.pids[Pid(p)] != 0 {
      MovedClock(p, cfg.pids[Pid(p)]);
    }
  }

  lemma NoClockOnEit(cfg: Config)
    requires ValidConfig(cfg)
    ensures cfg.pids[cfg.pcrPid] != EIT_PID
  {
  }

  ghost predicate OnlyOn(ps: seq<Packet>, pid: nat) {
    forall m :: 0 <= m < |ps| ==> Pid(ps[m]) == pid
  }

  lemma OnlyOnAppend(a: seq<Packet>, b: seq<Packet>, pid: nat)
    requires OnlyOn(a, pid) && OnlyOn(b, pid)
    ensures OnlyOn(a + b, pid)
  {
    hide Pid;
  }

  lemma {:induction false} EventsOnEit(cfg: Config, ss: seq<Bytes>)
    requires ValidConfig(cfg) && AllManageable(cfg, ss)
    ensures OnlyOn(AllEventPackets(cfg, ss), EIT_PID)
  {
    if ss != [] {
      hide EventPackets, Manageable, ValidConfig, Pid;
      EventPacketsOnEit(cfg, ss[0]);
      EventsOnEit(cfg, ss[1..]);
      OnlyOnAppend(EventPackets(cfg, ss[0]), AllEventPackets(cfg, ss[1..]), EIT_PID);
    }
  }

  lemma MarkedOn(cfg: Config, r: Reading, q: Reading, more: seq<Packet>)
    requires Marked(cfg, r) && q.packets == r.packets + more && q.dues == r.dues
    requires q.start == r.start && q.mark == r.mark && Consistent(q)
    requires forall m :: 0 <= m < |more| ==> !Carries(cfg, more[m])
    ensures Marked(cfg, q)
  {
    hide Carries, ClockReference;
    forall m | |q.dues| <= m < |q.packets| ensures !Carries(cfg, q.packets[m]) {
      if m >= |r.packets| {
        assert q.packets[m] == more[m - |r.packets|];
      }
    }
  }

  lemma MarkedAnew(cfg: Config, r: Reading, q: Reading, p: Packet)
    requires Marked(cfg, r) && Consistent(q) && q.packets == r.packets + [p] && |q.dues| == |q.packets|
    requires Carries(cfg, p) && q.start == r.start && q.mark == ClockReference(p)
    ensures Marked(cfg, q)
  {
    hide Carries, ClockReference;
  }

  /** Intervals that are complete stay as they are. */
  lemma StillInterpolates(cfg: Config, r: Reading, q: Reading, i: nat, j: nat, k: nat)
    requires Interpolates(cfg, r, i, j, k) && r.packets <= q.packets && r.dues <= q.dues && |q.dues| <= |q.packets|
    ensures Interpolates(cfg, q, i, j, k)
  {
    hide Carries, ClockReference;
  }

  /** A new reference interpolates the packets since the last one. */
  lemma NewInterpolates(cfg: Config, r: Reading, q: Reading, p: Packet, k: nat)
    requires Marked(cfg, r) && Consistent(q) && q.packets == r.packets + [p] && Carries(cfg, p)
    requires q.start == r.start && r.mark <= ClockReference(p)
    requires q.dues == r.dues + Dues(r.mark, ClockReference(p), r.start, |q.packets| - |r.dues| + 1, cfg.capacity)
    requires |r.dues| <= k < |q.dues|
    ensures Interpolates(cfg, q, |r.dues| - 1, |q.packets| - 1, k)
  {
    hide Carries, ClockReference, Due;
    var i, n := |r.dues| - 1, |q.packets| - |r.dues| + 1;
    assert q.dues[k] == Due(r.mark, ClockReference(p), r.start, k - i, n, cfg.capacity);
    DueIsClose(r.mark, ClockReference(p), r.start, k - i, n, cfg.capacity);
  }

  lemma ReadMarks(cfg: Config, r: Reading, p: Packet)
    requires ValidConfig(cfg) && Consistent(r) && Next(cfg, r, p) && IsReference(cfg, p)
    ensures r.mark <= ClockReference(p)
    ensures var q := Read(cfg, r, p);
            && q.packets == r.packets + [Renumbered(p, cfg.pids[cfg.pcrPid])] && q.mark == ClockReference(p)
            && q.dues == r.dues + Dues(r.mark, ClockReference(p), r.start, |q.packets| - |r.dues| + 1, cfg.capacity)
  {
    hide Dues;
  }

  lemma GrowsOnly(cfg: Config, r: Reading, p: Packet)
    requires ValidConfig(cfg) && Consistent(r) && Next(cfg, r, p)
    ensures var q := Read(cfg, r, p); r.packets <= q.packets && r.dues <= q.dues && |q.dues| <= |q.packets|
  {
  }

  lemma MovedCarries(cfg: Config, p: Packet)
    requires ValidConfig(cfg) && IsReference(cfg, p)
    ensures Carries(cfg, Renumbered(p, cfg.pids[cfg.pcrPid]))
  {
    MovedClock(p, cfg.pids[cfg.pcrPid]);
  }

  lemma ReadMarked(cfg: Config, r: Reading, p: Packet)
    requires ValidConfig(cfg) && OneClock(cfg) && Marked(cfg, r) && Next(cfg, r, p)
    ensures Marked(cfg, Read(cfg, r, p))
  {
    var q := Read(cfg, r, p);
    ReadAdds(cfg, r, p);
    if IsReference(cfg, p) {
      hide Marked, Next, Read, Contribute;
      ReadMarks(cfg, r, p);
      MovedClock(p, cfg.pids[cfg.pcrPid]);
      ReferenceAdds(cfg, r, p);
      MarkedAnew(cfg, r, q, Renumbered(p, cfg.pids[cfg.pcrPid]));
    } else {
      OthersCarryNone(cfg, r, p);
      OtherKeepsDues(cfg, r, p);
      hide Marked, Next, Read, Contribute;
      MarkedOn(cfg, r, q, Contribute(cfg, r.eit, p).1);
    }
  }

  lemma {:induction false} AllMarked(cfg: Config, ps: seq<Packet>, first: nat, n: nat)
    requires ValidConfig(cfg) && OneClock(cfg) && Readable(cfg, ps, first, n)
    ensures Marked(cfg, ReadAll(cfg, ps, first, n))
  {
    hide Next, Read, Carries, ClockReference;
    if n > first + 1 {
      hide Marked;
      AllMarked(cfg, ps, first, n - 1);
      ReadMarked(cfg, ReadAll(cfg, ps, first, n - 1), ps[n - 1]);
    }
  }

  /**
   * Every packet with a known position but the first, which is due at once, is due where linear
   * interpolation between the two references around it puts it.
   */
  lemma {:induction false} DuesInterpolate(cfg: Config, ps: seq<Packet>, first: nat, n: nat, k: nat)
    returns (i: nat, j: nat)
    requires ValidConfig(cfg) && OneClock(cfg) && Readable(cfg, ps, first, n)
    requires 0 < k < |ReadAll(cfg, ps, first, n).dues|
    ensures Interpolates(cfg, ReadAll(cfg, ps, first, n), i, j, k)
  {
    hide Next, Read, IsReference, Interpolates, Marked, Carries, ClockReference;
    var r, p := ReadAll(cfg, ps, first, n - 1), ps[n - 1];
    ReadAdds(cfg, r, p);
    if k < |r.dues| {
      i, j := DuesInterpolate(cfg, ps, first, n - 1, k);
      GrowsOnly(cfg, r, p);
      StillInterpolates(cfg, r, Read(cfg, r, p), i, j, k);
    } else {
      AllMarked(cfg, ps, first, n - 1);
      if IsReference(cfg, p) {
        ReadMarks(cfg, r, p);
        MovedClock(p, cfg.pids[cfg.pcrPid]);
        var q := Renumbered(p, cfg.pids[cfg.pcrPid]);
        MovedCarries(cfg, p);
        i, j := |r.dues| - 1, |Read(cfg, r, p).packets| - 1;
        NewInterpolates(cfg, r, Read(cfg, r, p), q, k);
      } else {
        OtherKeepsDues(cfg, r, p);
        assert false;
      }
    }
  }

  // ----- Nothing is lost, added or put out of order -----

  /** The packets on one PID, in order. */
  function On(ps: seq<Packet>, pid: nat): seq<Packet> {
    if ps == [] then []
    else On(ps[..|ps| - 1], pid) + if Pid(ps[|ps| - 1]) == pid then [ps[|ps| - 1]] else []
  }

  /** The packets on the other PIDs, in order. */
  function Off(ps: seq<Packet>, pid: nat): seq<Packet> {
    if ps == [] then []
    else Off(ps[..|ps| - 1], pid) + if Pid(ps[|ps| - 1]) == pid then [] else [ps[|ps| - 1]]
  }

  /** The packets on mapped PIDs, in order, with their new PIDs. */
  function AllMoved(cfg: Config, ps: seq<Packet>): seq<Packet> {
    if ps == [] then [] else AllMoved(cfg, ps[..|ps| - 1]) + Moved(cfg, ps[|ps| - 1])
  }

  lemma OnLast(ps: seq<Packet>, p: Packet, pid: nat)
    ensures On(ps + [p], pid) == On(ps, pid) + if Pid(p) == pid then [p] else []
    ensures Off(ps + [p], pid) == Off(ps, pid) + if Pid(p) == pid then [] else [p]
  {
    hide Pid;
    assert (ps + [p])[..|ps|] == ps;
  }

  lemma NothingOn(pid: nat)
    ensures On([], pid) == [] && Off([], pid) == []
  {
  }

  lemma {:induction false} OnAppend(a: seq<Packet>, b: seq<Packet>, pid: nat)
    ensures On(a + b, pid) == On(a, pid) + On(b, pid)
    ensures Off(a + b, pid) == Off(a, pid) + Off(b, pid)
    decreases |b|
  {
    hide *;
    if b == [] {
      NothingOn(pid);
      assert a + b == a;
    } else {
      var front, p := b[..|b| - 1], b[|b| - 1];
      assert b == front + [p] && a + b == a + front + [p];
      OnAppend(a, front, pid);
      OnLast(front, p, pid);
      OnLast(a + front, p, pid);
    }
  }

  lemma {:induction false} AllOn(ps: seq<Packet>, pid: nat)
    requires forall i :: 0 <= i < |ps| ==> Pid(ps[i]) == pid
    ensures On(ps, pid) == ps && Off(ps, pid) == []
  {
    if ps != [] {
      AllOn(ps[..|ps| - 1], pid);
    }
  }

  lemma EventPacketsOnEit(cfg: Config, s: Bytes)
    requires ValidConfig(cfg) && Manageable(cfg, s)
    ensures forall i :: 0 <= i < |EventPackets(cfg, s)| ==> Pid(EventPackets(cfg, s)[i]) == EIT_PID
  {
    if IsFor(cfg, s) {
      var t := Rewritten(Cleared(s), cfg.ids, cfg.onid);
      forall i | 0 <= i < |EventPackets(cfg, s)| ensures Pid(EventPackets(cfg, s)[i]) == EIT_PID {
        PacketiseFields(t, EIT_PID, 0, i);
      }
    }
  }

  lemma {:induction false} AllEventPacketsOnEit(cfg: Config, ss: seq<Bytes>)
    requires ValidConfig(cfg) && AllManageable(cfg, ss)
    ensures var ps := AllEventPackets(cfg, ss);
            On(ps, EIT_PID) == ps && Off(ps, EIT_PID) == []
  {
    if ss != [] {
      var a, b := EventPackets(cfg, ss[0]), AllEventPackets(cfg, ss[1..]);
      EventPacketsOnEit(cfg, ss[0]);
      AllOn(a, EIT_PID);
      AllEventPacketsOnEit(cfg, ss[1..]);
      OnAppend(a, b, EIT_PID);
    }
  }

  lemma {:induction false} AllEventPacketsAppend(cfg: Config, a: seq<Bytes>, b: seq<Bytes>)
    requires ValidConfig(cfg) && AllManageable(cfg, a) && AllManageable(cfg, b)
    ensures AllManageable(cfg, a + b)
    ensures AllEventPackets(cfg, a + b) == AllEventPackets(cfg, a) + AllEventPackets(cfg, b)
  {
    hide EventPackets, Manageable;
    if a == [] {
      assert a + b == b;
    } else {
      assert (a + b)[1..] == a[1..] + b;
      AllEventPacketsAppend(cfg, a[1..], b);
    }
  }

  lemma OneMoved(cfg: Config, p: Packet)
    requires ValidConfig(cfg) && Pid(p) != EIT_PID
    ensures On(Moved(cfg, p), EIT_PID) == [] && Off(Moved(cfg, p), EIT_PID) == Moved(cfg, p)
  {
    var ps := Moved(cfg, p);
    if ps != [] {
      assert ps[..0] == [] && Pid(ps[0]) == cfg.pids[Pid(p)];
    }
  }

  /** The event sections delivered by the packets of the input on the EIT PID. */
  ghost predicate Events(ps: seq<Packet>, eit: Assembly, sections: seq<Bytes>) {
    && AllAcceptable(Idle, On(ps, 0x12), 0x4e)
    && FeedAll(Idle, On(ps, 0x12), 0x4e) == (eit, sections)
  }

  lemma FeedLast(ps: seq<Packet>, eit: Assembly, sections: seq<Bytes>, p: Packet)
    requires |ps| > 0 && ps[|ps| - 1] == p && Pid(p) == EIT_PID
    requires Open(eit) && Events(ps[..|ps| - 1], eit, sections) && Acceptable(eit, p, EIT_TABLE)
    ensures Events(ps, Feed(eit, p, EIT_TABLE).0, sections + Feed(eit, p, EIT_TABLE).1)
  {
    var before := On(ps[..|ps| - 1], EIT_PID);
    assert On(ps, EIT_PID) == before + [p];
    FeedNone(Feed(eit, p, EIT_TABLE).0, [p][1..], EIT_TABLE);
    assert Feed(eit, p, EIT_TABLE).1 + [] == Feed(eit, p, EIT_TABLE).1;
    FeedAllAppend(Idle, before, [p], EIT_TABLE);
  }

  /** What the packets read so far have become. */
  ghost predicate Accounted(cfg: Config, ps: seq<Packet>, r: Reading, sections: seq<Bytes>)
    requires ValidConfig(cfg) && |ps| >= 1
  {
    && Events(ps, r.eit, sections) && AllManageable(cfg, sections)
    && On(r.packets, 0x12) == AllEventPackets(cfg, sections)
    && Off(r.packets, 0x12) == [ps[0]] + AllMoved(cfg, ps[1..])
  }

  /** The packets on PIDs that are mapped, as they arrive. */
  function Mapped(cfg: Config, ps: seq<Packet>): seq<Packet> {
    if ps == [] then []
    else Mapped(cfg, ps[..|ps| - 1]) + if cfg.pids[Pid(ps[|ps| - 1])] != 0 then [ps[|ps| - 1]] else []
  }

  /** q is p on another PID: the flags beside the PID and all other bytes are the same. */
  predicate SameOn(p: Packet, q: Packet, pid: nat) {
    q[0] == p[0] && q[1] as int / 32 == p[1] as int / 32 && Pid(q) == pid && q[3..] == p[3..]
  }

  /**
   * Apart from event sections, the stream is the first packet of the input, untouched, and then
   * one packet for each of the others that is on a mapped PID, in order: the same on its new PID.
   */
  ghost predicate Conserved(cfg: Config, ps: seq<Packet>, packets: seq<Packet>)
    requires |ps| >= 1
  {
    var others, moved := Off(packets, 0x12), Mapped(cfg, ps[1..]);
    && |others| == 1 + |moved| && others[0] == ps[0]
    && forall k :: 0 <= k < |moved| ==> SameOn(moved[k], others[1 + k], cfg.pids[Pid(moved[k])])
  }

  lemma MovedSame(cfg: Config, p: Packet)
    ensures |Moved(cfg, p)| == if cfg.pids[Pid(p)] != 0 then 1 else 0
    ensures cfg.pids[Pid(p)] != 0 ==> SameOn(p, Moved(cfg, p)[0], cfg.pids[Pid(p)])
  {
    if cfg.pids[Pid(p)] != 0 {
      DivisionOf(p[1] as int, 32);
      DivisionOf(Moved(cfg, p)[0][1] as int, 32);
    }
  }

  lemma {:induction false} AllMovedSame(cfg: Config, ps: seq<Packet>)
    ensures |AllMoved(cfg, ps)| == |Mapped(cfg, ps)|
    ensures forall k :: 0 <= k < |Mapped(cfg, ps)| ==>
              SameOn(Mapped(cfg, ps)[k], AllMoved(cfg, ps)[k], cfg.pids[Pid(Mapped(cfg, ps)[k])])
  {
    if ps != [] {
      AllMovedSame(cfg, ps[..|ps| - 1]);
      MovedSame(cfg, ps[|ps| - 1]);
      hide Moved, SameOn;
    }
  }

  lemma AccountedConserved(cfg: Config, ps: seq<Packet>, r: Reading, sections: seq<Bytes>)
    requires ValidConfig(cfg) && |ps| >= 1 && Accounted(cfg, ps, r, sections)
    ensures Conserved(cfg, ps, r.packets)
  {
    hide SameOn, Mapped, AllMoved, Off, On, Events, AllManageable;
    AllMovedSame(cfg, ps[1..]);
  }

  /** Reading one packet: the packets of the stream and the section under construction. */
  lemma ReadAdds(cfg: Config, r: Reading, p: Packet)
    requires ValidConfig(cfg) && Consistent(r) && Next(cfg, r, p)
    ensures var (eit, more) := Contribute(cfg, r.eit, p);
            Read(cfg, r, p).eit == eit && Read(cfg, r, p).packets == r.packets + more && r.dues <= Read(cfg, r, p).dues
    ensures Read(cfg, r, p).mark == if IsReference(cfg, p) then ClockReference(p) else r.mark
    ensures Read(cfg, r, p).start == r.start
  {
  }

  lemma MovedLast(cfg: Config, ps: seq<Packet>)
    requires |ps| > 1
    ensures AllMoved(cfg, ps[1..]) == AllMoved(cfg, ps[..|ps| - 1][1..]) + Moved(cfg, ps[|ps| - 1])
  {
    assert ps[1..][..|ps[1..]| - 1] == ps[..|ps| - 1][1..];
  }

  lemma AccountEvent(cfg: Config, ps: seq<Packet>, r: Reading, p: Packet, sections: seq<Bytes>)
    returns (all: seq<Bytes>)
    requires ValidConfig(cfg) && Consistent(r) && Next(cfg, r, p) && Pid(p) == EIT_PID
    requires |ps| > 1 && ps[|ps| - 1] == p && Accounted(cfg, ps[..|ps| - 1], r, sections)
    ensures Accounted(cfg, ps, Read(cfg, r, p), all)
  {
    var delivered := Feed(r.eit, p, EIT_TABLE).1;
    all := sections + delivered;
    FeedLast(ps, r.eit, sections, p);
    AllEventPacketsAppend(cfg, sections, delivered);
    var more := AllEventPackets(cfg, delivered);
    AllEventPacketsOnEit(cfg, delivered);
    ReadAdds(cfg, r, p);
    OnAppend(r.packets, more, EIT_PID);
    EventProjections(cfg, ps, r.packets, more, On(r.packets, EIT_PID));
  }

  lemma EventProjections(cfg: Config, ps: seq<Packet>, packets: seq<Packet>, more: seq<Packet>, events: seq<Packet>)
    requires |ps| > 1 && Moved(cfg, ps[|ps| - 1]) == []
    requires On(more, EIT_PID) == more && Off(more, EIT_PID) == []
    requires On(packets + more, EIT_PID) == On(packets, EIT_PID) + On(more, EIT_PID)
    requires Off(packets + more, EIT_PID) == Off(packets, EIT_PID) + Off(more, EIT_PID)
    requires On(packets, EIT_PID) == events
    requires Off(packets, EIT_PID) == [ps[0]] + AllMoved(cfg, ps[..|ps| - 1][1..])
    ensures On(packets + more, EIT_PID) == events + more
    ensures Off(packets + more, EIT_PID) == [ps[0]] + AllMoved(cfg, ps[1..])
  {
    MovedLast(cfg, ps);
  }

  lemma AccountOther(cfg: Config, ps: seq<Packet>, r: Reading, p: Packet, sections: seq<Bytes>)
    requires ValidConfig(cfg) && Consistent(r) && Next(cfg, r, p) && Pid(p) != EIT_PID
    requires |ps| > 1 && ps[|ps| - 1] == p && Accounted(cfg, ps[..|ps| - 1], r, sections)
    ensures Accounted(cfg, ps, Read(cfg, r, p), sections)
  {
    var more := Moved(cfg, p);
    OneMoved(cfg, p);
    ReadAdds(cfg, r, p);
    OnAppend(r.packets, more, EIT_PID);
    OtherProjections(cfg, ps, r.packets, more);
    NotOn(ps, EIT_PID);
  }

  lemma NotOn(ps: seq<Packet>, pid: nat)
    requires |ps| > 0 && Pid(ps[|ps| - 1]) != pid
    ensures On(ps, pid) == On(ps[..|ps| - 1], pid)
  {
  }

  lemma OtherProjections(cfg: Config, ps: seq<Packet>, packets: seq<Packet>, more: seq<Packet>)
    requires |ps| > 1 && more == Moved(cfg, ps[|ps| - 1])
    requires On(more, EIT_PID) == [] && Off(more, EIT_PID) == more
    requires On(packets + more, EIT_PID) == On(packets, EIT_PID) + On(more, EIT_PID)
    requires Off(packets + more, EIT_PID) == Off(packets, EIT_PID) + Off(more, EIT_PID)
    requires Off(packets, EIT_PID) == [ps[0]] + AllMoved(cfg, ps[..|ps| - 1][1..])
    ensures On(packets + more, EIT_PID) == On(packets, EIT_PID)
    ensures Off(packets + more, EIT_PID) == [ps[0]] + AllMoved(cfg, ps[1..])
  {
    MovedLast(cfg, ps);
  }

  /**
   * Of the stream, the packets on the EIT PID are exactly the rewritten sections of this service
   * among those that arrive whole, and the others are the first packet as it was and then
   * exactly the input's packets on mapped PIDs, with their new PIDs; all in order.
   */
  lemma NothingLost(cfg: Config, ps: seq<Packet>, first: nat, n: nat) returns (sections: seq<Bytes>)
    requires ValidConfig(cfg) && Readable(cfg, ps, first, n)
    ensures Accounted(cfg, ps[first..n], ReadAll(cfg, ps, first, n), sections)
    ensures Conserved(cfg, ps[first..n], ReadAll(cfg, ps, first, n).packets)
  {
    hide Accounted, Conserved;
    sections := AllAccounted(cfg, ps, first, n);
    AccountedConserved(cfg, ps[first..n], ReadAll(cfg, ps, first, n), sections);
  }

  lemma {:induction false} AllAccounted(cfg: Config, ps: seq<Packet>, first: nat, n: nat)
    returns (sections: seq<Bytes>)
    requires ValidConfig(cfg) && Readable(cfg, ps, first, n)
    ensures Accounted(cfg, ps[first..n], ReadAll(cfg, ps, first, n), sections)
  {
    hide Accounted, Read, Next, IsReference, Contribute;
    if n == first + 1 {
      sections := [];
      AccountFirst(cfg, ps[first]);
      assert ps[first..n] == [ps[first]];
    } else {
      var before := AllAccounted(cfg, ps, first, n - 1);
      var qs := ps[first..n];
      assert qs[..|qs| - 1] == ps[first..n - 1];
      var r := ReadAll(cfg, ps, first, n - 1);
      sections := AccountNext(cfg, qs, r, ps[n - 1], Read(cfg, r, ps[n - 1]), before);
    }
  }

  lemma AccountNext(cfg: Config, ps: seq<Packet>, r: Reading, p: Packet, q: Reading, before: seq<Bytes>)
    returns (all: seq<Bytes>)
    requires ValidConfig(cfg) && Consistent(r) && Next(cfg, r, p) && q == Read(cfg, r, p)
    requires |ps| > 1 && ps[|ps| - 1] == p && Accounted(cfg, ps[..|ps| - 1], r, before)
    ensures Accounted(cfg, ps, q, all)
  {
    if Pid(p) == EIT_PID {
      all := AccountEvent(cfg, ps, r, p, before);
    } else {
      AccountOther(cfg, ps, r, p, before);
      all := before;
    }
  }

  lemma AccountFirst(cfg: Config, p: Packet)
    requires ValidConfig(cfg) && IsReference(cfg, p)
    ensures Accounted(cfg, [p], Begin(p), [])
  {
    assert [p][..0] == [] && [p][1..] == [];
    assert On([p], EIT_PID) == [] && Off([p], EIT_PID) == [p];
    FeedNone(Idle, [], EIT_TABLE);
  }

  // ----- Everything in its place -----

  /** These packets can be taken in one after the other. */
  ghost predicate AllDigestible(cfg: Config, eit: Assembly, ps: seq<Packet>)
    requires ValidConfig(cfg) && Open(eit)
    decreases |ps|, 0
  {
    ps == [] ||
    var k := |ps| - 1;
    AllDigestible(cfg, eit, ps[..k]) && Digestible(cfg, Contributions(cfg, eit, ps[..k]).0, ps[k])
  }

  /** What these packets add to the stream: the contribution of each, one behind the other. */
  ghost function Contributions(cfg: Config, eit: Assembly, ps: seq<Packet>): (r: (Assembly, seq<Packet>))
    requires ValidConfig(cfg) && Open(eit) && AllDigestible(cfg, eit, ps)
    ensures Open(r.0)
    decreases |ps|, 1
  {
    if ps == [] then (eit, [])
    else
      var k := |ps| - 1;
      var (before, packets) := Contributions(cfg, eit, ps[..k]);
      var (next, more) := Contribute(cfg, before, ps[k]);
      (next, packets + more)
  }

  /**
   * The stream is the first packet and then, packet by packet, what the input contributes: an
   * event section stands where its last packet was, among the packets that came before and after.
   */
  lemma {:induction false} InPlace(cfg: Config, ps: seq<Packet>, first: nat, n: nat)
    requires ValidConfig(cfg) && Readable(cfg, ps, first, n)
    ensures AllDigestible(cfg, Idle, ps[first + 1..n])
    ensures var r := ReadAll(cfg, ps, first, n);
            r.packets == [ps[first]] + Contributions(cfg, Idle, ps[first + 1..n]).1
            && r.eit == Contributions(cfg, Idle, ps[first + 1..n]).0
  {
    hide Contribute, Digestible, Next, Read;
    if n > first + 1 {
      InPlace(cfg, ps, first, n - 1);
      var r := ReadAll(cfg, ps, first, n - 1);
      ReadAdds(cfg, r, ps[n - 1]);
      NextDigestible(cfg, r, ps[n - 1]);
      assert ps[first + 1..n][..n - first - 2] == ps[first + 1..n - 1];
    }
  }

  // ----- The PIDs of a stream -----

  /** A PID the reading puts packets on. */
  predicate Produced(cfg: Config, pid: nat) {
    pid == EIT_PID || exists q :: 0 <= q < |cfg.pids| && cfg.pids[q] != 0 && cfg.pids[q] == pid
  }

  ghost predicate AllProduced(cfg: Config, ps: seq<Packet>) {
    forall k :: 0 <= k < |ps| ==> Produced(cfg, Pid(ps[k]))
  }

  lemma {:induction false} EventsProduced(cfg: Config, ss: seq<Bytes>)
    requires ValidConfig(cfg) && AllManageable(cfg, ss)
    ensures AllProduced(cfg, AllEventPackets(cfg, ss))
  {
    if ss != [] {
      EventPacketsOnEit(cfg, ss[0]);
      EventsProduced(cfg, ss[1..]);
    }
  }

  lemma ContributionProduced(cfg: Config, eit: Assembly, p: Packet)
    requires ValidConfig(cfg) && Open(eit) && Digestible(cfg, eit, p)
    ensures AllProduced(cfg, Contribute(cfg, eit, p).1)
  {
    hide Produced;
    if Pid(p) == EIT_PID {
      EventsProduced(cfg, Feed(eit, p, EIT_TABLE).1);
    } else if cfg.pids[Pid(p)] != 0 {
      MappedIsProduced(cfg, Pid(p));
    }
  }

  lemma MappedIsProduced(cfg: Config, pid: PidValue)
    requires cfg.pids[pid] != 0
    ensures Produced(cfg, cfg.pids[pid])
  {
  }

  /** After its first packet, a stream is only on the EIT PID and on the PIDs given out for it. */
  lemma {:induction false} StreamPids(cfg: Config, ps: seq<Packet>, first: nat, n: nat)
    requires ValidConfig(cfg) && Readable(cfg, ps, first, n)
    ensures ReadAll(cfg, ps, first, n).packets[0] == ps[first] && ReadAll(cfg, ps, first, n).dues[0] == 0
    ensures AllProduced(cfg, ReadAll(cfg, ps, first, n).packets[1..])
  {
    hide Contribute, Next, Produced;
    if n > first + 1 {
      StreamPids(cfg, ps, first, n - 1);
      var r := ReadAll(cfg, ps, first, n - 1);
      ReadAdds(cfg, r, ps[n - 1]);
      NextDigestible(cfg, r, ps[n - 1]);
      ContributionProduced(cfg, r.eit, ps[n - 1]);
    }
  }

  lemma NextDigestible(cfg: Config, r: Reading, p: Packet)
    requires ValidConfig(cfg) && Consistent(r) && Next(cfg, r, p)
    ensures Digestible(cfg, r.eit, p)
  {
  }

  // ----- What has to be on the input for a packet to be on a PID -----

  ghost predicate HasPid(ps: seq<Packet>, pid: nat) {
    exists k :: 0 <= k < |ps| && Pid(ps[k]) == pid
  }

  /** One of these packets is moved to this PID. */
  ghost predicate Brings(cfg: Config, ps: seq<Packet>, pid: nat) {
    exists k :: 0 <= k < |ps| && cfg.pids[Pid(ps[k])] != 0 && cfg.pids[Pid(ps[k])] == pid
  }

  lemma HasPidAppend(a: seq<Packet>, b: seq<Packet>, pid: nat)
    ensures HasPid(a + b, pid) <==> HasPid(a, pid) || HasPid(b, pid)
  {
    if k :| 0 <= k < |a| && Pid(a[k]) == pid {
      assert (a + b)[k] == a[k];
    }
    if k :| 0 <= k < |b| && Pid(b[k]) == pid {
      assert (a + b)[|a| + k] == b[k];
    }
  }

  lemma HasPidOne(p: Packet, pid: nat)
    ensures HasPid([p], pid) <==> Pid(p) == pid
    ensures !HasPid([], pid)
  {
    assert [p][0] == p;
  }

  lemma {:induction false} OffHasPid(ps: seq<Packet>, pid: nat)
    requires pid != EIT_PID
    ensures HasPid(Off(ps, EIT_PID), pid) <==> HasPid(ps, pid)
  {
    hide HasPid;
    if ps == [] {
    } else {
      var before, p := ps[..|ps| - 1], ps[|ps| - 1];
      OffHasPid(before, pid);
      assert ps == before + [p];
      HasPidAppend(before, [p], pid);
      HasPidAppend(Off(before, EIT_PID), if Pid(p) == EIT_PID then [] else [p], pid);
      HasPidOne(p, pid);
    }
  }

  lemma BringsLast(cfg: Config, ps: seq<Packet>, pid: nat)
    requires ps != []
    ensures var v := cfg.pids[Pid(ps[|ps| - 1])];
            Brings(cfg, ps, pid) <==> Brings(cfg, ps[..|ps| - 1], pid) || (v != 0 && v == pid)
  {
  }

  lemma {:induction false} MovedHasPid(cfg: Config, ps: seq<Packet>, pid: nat)
    ensures HasPid(AllMoved(cfg, ps), pid) <==> Brings(cfg, ps, pid)
  {
    if ps != [] {
      hide HasPid, Brings, Renumbered;
      var before, p := ps[..|ps| - 1], ps[|ps| - 1];
      MovedHasPid(cfg, before, pid);
      BringsLast(cfg, ps, pid);
      HasPidAppend(AllMoved(cfg, before), Moved(cfg, p), pid);
      HasPidOne(Renumbered(p, cfg.pids[Pid(p)]), pid);
    }
  }

  /**
   * A service has a packet on a PID other than the EIT PID if and only if that is the old PID of
   * its references, or a packet it has read behind the first one is moved there.
   */
  lemma StreamHasPid(cfg: Config, ps: seq<Packet>, first: nat, n: nat, pid: nat)
    requires ValidConfig(cfg) && Readable(cfg, ps, first, n) && pid != EIT_PID
    ensures IsReference(cfg, ps[first])
    ensures HasPid(ReadAll(cfg, ps, first, n).packets, pid)
       <==> pid == cfg.pcrPid as int || Brings(cfg, ps[first + 1..n], pid)
  {
    hide HasPid, Brings, On, Off, AllMoved, Events, AllManageable, AllEventPackets, IsReference, ReadAll;
    var r, qs := ReadAll(cfg, ps, first, n), ps[first..n];
    var sections := NothingLost(cfg, ps, first, n);
    FirstReference(cfg, ps, first, n);
    assert qs[1..] == ps[first + 1..n];
    OffHasPid(r.packets, pid);
    HasPidAppend([qs[0]], AllMoved(cfg, qs[1..]), pid);
    HasPidOne(qs[0], pid);
    MovedHasPid(cfg, qs[1..], pid);
  }

  lemma {:induction false} FirstReference(cfg: Config, ps: seq<Packet>, first: nat, n: nat)
    requires ValidConfig(cfg) && Readable(cfg, ps, first, n)
    ensures IsReference(cfg, ps[first]) && Pid(ps[first]) == cfg.pcrPid
  {
    if n > first + 1 {
      FirstReference(cfg, ps, first, n - 1);
    }
  }

  // ----- Sync bytes -----

  ghost predicate InSync(ps: seq<Packet>) {
    forall k :: 0 <= k < |ps| ==> ps[k][0] == 0x47
  }

  lemma {:induction false} EventsInSync(cfg: Config, ss: seq<Bytes>)
    requires ValidConfig(cfg) && AllManageable(cfg, ss)
    ensures InSync(AllEventPackets(cfg, ss))
  {
    if ss != [] {
      EventInSync(cfg, ss[0]);
      EventsInSync(cfg, ss[1..]);
    }
  }

  lemma EventInSync(cfg: Config, s: Bytes)
    requires ValidConfig(cfg) && Manageable(cfg, s)
    ensures InSync(EventPackets(cfg, s))
  {
    if IsFor(cfg, s) {
      forall k | 0 <= k < |EventPackets(cfg, s)| ensures EventPackets(cfg, s)[k][0] == 0x47 {
        PacketiseFields(Rewritten(Cleared(s), cfg.ids, cfg.onid), EIT_PID, 0, k);
      }
    }
  }

  lemma ContributionInSync(cfg: Config, eit: Assembly, p: Packet)
    requires ValidConfig(cfg) && Open(eit) && Digestible(cfg, eit, p) && p[0] == 0x47
    ensures InSync(Contribute(cfg, eit, p).1)
  {
    if Pid(p) == EIT_PID {
      EventsInSync(cfg, Feed(eit, p, EIT_TABLE).1);
    }
  }

  /** A stream read from packets with their sync byte has its sync bytes. */
  lemma {:induction false} StreamInSync(cfg: Config, ps: seq<Packet>, first: nat, n: nat)
    requires ValidConfig(cfg) && Readable(cfg, ps, first, n) && InSync(ps)
    ensures InSync(ReadAll(cfg, ps, first, n).packets)
  {
    hide Contribute, Next;
    if n > first + 1 {
      StreamInSync(cfg, ps, first, n - 1);
      var r := ReadAll(cfg, ps, first, n - 1);
      ReadAdds(cfg, r, ps[n - 1]);
      NextDigestible(cfg, r, ps[n - 1]);
      ContributionInSync(cfg, r.eit, ps[n - 1]);
    }
  }
}
