/** One input service: its packet buffer, filled up to the next clock reference. */
module Services {
  import opened Bytes
  import opened EitSection
  import opened Pcr
  import opened Reassembly
  import opened Sections
  import opened Streams

  /** Packet k of a buffer that holds the packets ps. */
  lemma {:induction false} FlattenAt(ps: seq<Packet>, k: nat)
    requires k < |ps|
    ensures |Flatten(ps)| == PACKET_SIZE * |ps|
    ensures Flatten(ps)[PACKET_SIZE * k..PACKET_SIZE * k + PACKET_SIZE] == ps[k]
    ensures Flatten(ps)[PACKET_SIZE * k + PACKET_SIZE..] == Flatten(ps[k + 1..])
  {
    FlattenLength(ps);
    if k > 0 {
      FlattenAt(ps[1..], k - 1);
      assert ps[1..][k..] == ps[k + 1..];
    }
  }

  lemma OneEvent(cfg: Config, ss: seq<Bytes>)
    requires ValidConfig(cfg) && AllManageable(cfg, ss) && |ss| == 1
    ensures AllEventPackets(cfg, ss) == EventPackets(cfg, ss[0])
  {
    assert AllEventPackets(cfg, ss[1..]) == [];
  }

  /** A packet on the EIT PID adds the packets of the section it completes. */
  lemma EventContribution(cfg: Config, a: Assembly, p: Packet)
    requires ValidConfig(cfg) && Open(a) && Pid(p) == EIT_PID && Digestible(cfg, a, p)
    ensures var delivered := Feed(a, p, EIT_TABLE).1;
            && Acceptable(a, p, EIT_TABLE)
            && |delivered| <= 1 && (|delivered| == 1 ==> delivered[0] != [] && Manageable(cfg, delivered[0]))
            && Contribute(cfg, a, p)
            == (Feed(a, p, EIT_TABLE).0, if delivered == [] then [] else EventPackets(cfg, delivered[0]))
  {
    var delivered := Feed(a, p, EIT_TABLE).1;
    if delivered != [] {
      OneEvent(cfg, delivered);
    }
  }

  lemma PrefixKept(b: Bytes, at: nat, data: Bytes)
    requires at + |data| <= |b|
    ensures Store(b, at, data)[..at] == b[..at] && Store(b, at, data)[at..at + |data|] == data
  {
  }

  lemma FlattenOne(p: Packet)
    ensures Flatten([p]) == p && Flatten([]) == []
  {
    assert Flatten([p]) == p + Flatten([p][1..]);
  }

  lemma NothingFlat()
    ensures Flatten([]) == []
  {
  }

  /** What a delivered section has to do with its buffer. */
  lemma EventOf(cfg: Config, s: Bytes)
    requires ValidConfig(cfg) && Manageable(cfg, s)
    ensures |s| <= SECTION_SIZE && (IsFor(cfg, s) <==> GetU16(Cleared(s), 3) == cfg.service)
    ensures IsFor(cfg, s) ==>
              && Rewritable(Cleared(s), cfg.onid)
              && EventPackets(cfg, s) == Packetise(Rewritten(Cleared(s), cfg.ids, cfg.onid), EIT_PID, 0)
    ensures !IsFor(cfg, s) ==> EventPackets(cfg, s) == []
  {
    hide Rewritten, Rewritable, Packetise;
  }

  /** The whole input can be read from packet first on, and r is the reading up to packet n. */
  ghost predicate Reaches(cfg: Config, input: seq<Packet>, first: nat, n: nat, r: Reading)
    requires ValidConfig(cfg)
  {
    && Readable(cfg, input, first, |input|)
    && Readable(cfg, input, first, n) && r == ReadAll(cfg, input, first, n)
  }

  /** The reading after the next packet of the input. */
  lemma Upcoming(cfg: Config, input: seq<Packet>, first: nat, n: nat, r: Reading) returns (q: Reading)
    requires ValidConfig(cfg) && Consistent(r) && Reaches(cfg, input, first, n, r) && n < |input|
    ensures Next(cfg, r, input[n]) && q == Read(cfg, r, input[n]) && Reaches(cfg, input, first, n + 1, q)
    ensures Consistent(q) && q.start == r.start
    ensures q.mark == if IsReference(cfg, input[n]) then ClockReference(input[n]) else r.mark
  {
    hide Contribute, Next, Dues;
    ReadNext(cfg, input, first, n, |input|);
    ReadAdds(cfg, r, input[n]);
    q := ReadAll(cfg, input, first, n + 1);
  }

  lemma BufferGrows(packets: seq<Packet>, more: seq<Packet>, sent: nat, before: Bytes)
    requires sent <= |packets| && before == Flatten(packets[sent..])
    ensures before + Flatten(more) == Flatten((packets + more)[sent..])
  {
    FlattenAppend(packets[sent..], more);
    assert (packets + more)[sent..] == packets[sent..] + more;
  }

  /** The number of references from packet i on. */
  ghost function References(cfg: Config, ps: seq<Packet>, i: nat): (n: nat)
    ensures i >= |ps| ==> n == 0
    decreases |ps| - i
  {
    if i >= |ps| then 0 else (if IsReference(cfg, ps[i]) then 1 else 0) + References(cfg, ps, i + 1)
  }

  /** r goes on from r0, and no reference has come since. */
  ghost predicate Midway(r0: Reading, r: Reading) {
    && r.dues == r0.dues && r.mark == r0.mark && r.start == r0.start
    && |r0.packets| <= |r.packets| && r.packets[..|r0.packets|] == r0.packets
  }

  /** r goes on from r0 by one interval, up to the next reference. */
  ghost predicate NextInterval(cfg: Config, r0: Reading, r: Reading) {
    && r.start == r0.start <= r0.mark <= r.mark
    && 1 <= |r0.dues| < |r.packets| && |r0.packets| < |r.packets| && r.packets[..|r0.packets|] == r0.packets
    && r.dues == r0.dues + Dues(r0.mark, r.mark, r.start, |r.packets| - |r0.dues| + 1, cfg.capacity)
  }

  lemma MidwayBegins(r: Reading)
    ensures Midway(r, r)
  {
  }

  lemma MidwayFacts(r0: Reading, r: Reading)
    requires Midway(r0, r)
    ensures r.dues == r0.dues && r.mark == r0.mark
  {
  }

  lemma MidwayNext(cfg: Config, r0: Reading, r: Reading, p: Packet)
    requires ValidConfig(cfg) && Consistent(r0) && Consistent(r) && Midway(r0, r) && Next(cfg, r, p)
    ensures if IsReference(cfg, p) then NextInterval(cfg, r0, Read(cfg, r, p)) else Midway(r0, Read(cfg, r, p))
  {
    ReadAdds(cfg, r, p);
  }

  /** The positions computed for an interval are those of its packets and of the one before it. */
  lemma PositionsAre(cfg: Config, r0: Reading, r: Reading, sent: nat, positions: seq<nat>)
    requires OnTime(cfg, r0) && NextInterval(cfg, r0, r) && sent + 1 == |r0.dues| && |positions| == |r.packets| - sent
    requires forall j :: 0 <= j < |positions| ==>
               positions[j] == Due(r0.mark, r.mark, r.start, j, |positions|, cfg.capacity)
    ensures |r.dues| == |r.packets| && positions == r.dues[sent..]
  {
    DueAtReferences(r0.mark, r.mark, r.start, |positions|, cfg.capacity);
    assert r.dues[sent] == r0.dues[sent];
  }

  lemma DueIs(first: nat, second: nat, start: nat, j: nat, n: nat, capacity: nat)
    requires start <= first <= second && n >= 2
    ensures first + (j * (second - first)) / (n - 1) - start >= 0
    ensures ((first + (j * (second - first)) / (n - 1) - start) * capacity) / 27000000
         == Due(first, second, start, j, n, capacity)
  {
    TimeMonotone(first, second, 0, j, n);
  }

  lemma ReachedOnTime(cfg: Config, input: seq<Packet>, first: nat, n: nat, r: Reading)
    requires ValidConfig(cfg) && Reaches(cfg, input, first, n, r)
    ensures OnTime(cfg, r)
  {
    ReadOnTime(cfg, input, first, n);
  }

  lemma IntervalOrder(cfg: Config, r0: Reading, r: Reading)
    requires NextInterval(cfg, r0, r)
    ensures r.start == r0.start <= r0.mark <= r.mark
    ensures |r.packets| - |r0.dues| >= 1
  {
  }

  lemma ReadOne(cfg: Config, ps: seq<Packet>, first: nat)
    requires ValidConfig(cfg) && first < |ps| && Readable(cfg, ps, first, |ps|)
    ensures Reaches(cfg, ps, first, first + 1, Begin(ps[first]))
  {
    if first + 1 < |ps| {
      ReadNext(cfg, ps, first, first + 1, |ps|);
    }
  }

  lemma CounterChanged(b: Bytes, at: nat, end: nat, x: byte)
    requires at + PACKET_SIZE <= end <= |b|
    ensures b[at + 3 := x][at..at + PACKET_SIZE] == b[at..at + PACKET_SIZE][3 := x]
    ensures b[at + 3 := x][at + PACKET_SIZE..end] == b[at + PACKET_SIZE..end]
  {
  }

  /** The positions of the other packets. */
  lemma PositionsDropped(positions: seq<nat>, k: nat, end: nat, dues: seq<nat>, sent: nat)
    requires k < end <= |positions| && sent <= |dues| && end - k == |dues| - sent
    ensures positions[k..end] == dues[sent..] ==> positions[k + 1..end] == dues[sent + 1..]
  {
    assert positions[k + 1..end] == positions[k..end][1..] && dues[sent + 1..] == dues[sent..][1..];
  }

  /** The first packet of the buffer, and the others. */
  lemma BufferHead(b: Bytes, at: nat, end: nat, packets: seq<Packet>, sent: nat)
    requires at <= end <= |b| && sent < |packets| && b[at..end] == Flatten(packets[sent..])
    ensures at + PACKET_SIZE <= end && b[at..at + PACKET_SIZE] == packets[sent]
    ensures b[at + PACKET_SIZE..end] == Flatten(packets[sent + 1..])
  {
    FlattenAt(packets[sent..], 0);
    SplitSlice(b, at, end, packets[sent], Flatten(packets[sent + 1..]));
  }

  lemma BufferEnd(b: Bytes, at: nat, n: nat, packets: seq<Packet>)
    requires n > 0 && |packets| == n && at + PACKET_SIZE * n <= |b|
    requires b[at..at + PACKET_SIZE * n] == Flatten(packets)
    ensures b[at + PACKET_SIZE * (n - 1)..at + PACKET_SIZE * n] == packets[n - 1]
  {
    FlattenAt(packets, n - 1);
    var s := Flatten(packets);
    assert s[PACKET_SIZE * (n - 1)..PACKET_SIZE * n] == packets[n - 1];
    assert b[at..at + PACKET_SIZE * n][PACKET_SIZE * (n - 1)..] == b[at + PACKET_SIZE * (n - 1)..at + PACKET_SIZE * n];
  }

  lemma OnNext(ps: seq<Packet>, p: Packet, pid: nat)
    ensures On(ps + [p], pid) == if Pid(p) == pid then On(ps, pid) + [p] else On(ps, pid)
  {
    assert (ps + [p])[..|ps|] == ps;
  }

  lemma SliceNext(ps: seq<Packet>, t: nat, k: nat, at: nat)
    requires t <= k < at <= |ps|
    ensures ps[t..k + 1] == ps[t..k] + [ps[k]] && ps[t..k + 1] <= ps[t..at]
  {
  }

  lemma NothingCollected(next: Section, curr: Section, a: Assembly, tableId: byte)
    requires next != curr && next.buf != curr.buf && curr.buf.Length == SECTION_SIZE
    requires Building(next) && View(next) == a
    ensures Collected(next, curr, a, [], tableId)
  {
  }

  lemma {:induction false} AcceptablePrefix(a: Assembly, ps: seq<Packet>, qs: seq<Packet>, tableId: byte)
    requires Open(a) && AllAcceptable(a, ps + qs, tableId)
    ensures AllAcceptable(a, ps, tableId)
    decreases |ps|
  {
    hide Feed, Acceptable;
    if ps != [] {
      assert (ps + qs)[1..] == ps[1..] + qs;
      AcceptablePrefix(Feed(a, ps[0], tableId).0, ps[1..], qs, tableId);
    }
  }

  class Service {
    const cfg: Config
    const pmtPid: PidValue
    /** The packets that arrive, and how many of them have been taken. */
    const input: seq<Packet>
    var taken: nat
    var startPcr: nat
    var firstPcr: nat
    var secondPcr: nat
    var packetsInBuf: nat
    var packetsWritten: nat
    const buf: array<byte>
    const bitpos: array<nat>
    const nextEit: Section
    const eit: Section

    /** The packet with the first reference, what has been read since, and how much of it was sent. */
    ghost var first: nat
    ghost var reading: Reading
    ghost var sent: nat

    constructor (cfg: Config, pmtPid: PidValue, input: seq<Packet>)
      requires ValidConfig(cfg)
      ensures Fixed() && Waiting() && this.cfg == cfg && this.pmtPid == pmtPid && this.input == input
      ensures taken == 0 && fresh(Footprint()) && buf.Length == 2048 * 188 && bitpos.Length == 2048
    {
      this.cfg, this.pmtPid, this.input := cfg, pmtPid, input;
      buf := new byte[BUFFER_PACKETS * PACKET_SIZE](i => 0);
      bitpos := new nat[BUFFER_PACKETS](i => 0);
      nextEit := new Section();
      eit := new Section();
      taken, startPcr, firstPcr, secondPcr, packetsInBuf, packetsWritten := 0, 0, 0, 0, 0, 0;
    }

    ghost function Footprint(): set<object> {
      {this, buf, bitpos, nextEit, nextEit.buf, eit, eit.buf}
    }

    ghost predicate Fixed() {
      && ValidConfig(cfg)
      && buf.Length == BUFFER_PACKETS * PACKET_SIZE && bitpos.Length == BUFFER_PACKETS
      && eit.buf.Length == SECTION_SIZE
      && nextEit != eit && nextEit.buf != eit.buf && buf != nextEit.buf && buf != eit.buf
    }

    /** No event section is half read or waiting. */
    ghost predicate Waiting()
      reads nextEit, nextEit.buf, eit
    {
      Building(nextEit) && nextEit.length == 0 && eit.length == 0
    }

    /** What has arrived so far is what the reading says. */
    ghost predicate Synced(r: Reading)
      reads this`taken, this`first, this`startPcr, this`secondPcr, nextEit, nextEit.buf, eit
    {
      && Fixed() && Building(nextEit) && eit.length == 0
      && taken <= |input| && Reaches(cfg, input, first, taken, r) && Consistent(r)
      && View(nextEit) == r.eit && startPcr == r.start && secondPcr == r.mark
    }

    /** The buffer holds the packets read that have not been sent. */
    ghost predicate Buffered()
      requires Fixed()
      reads this`packetsWritten, this`packetsInBuf, this`reading, this`sent, buf
    {
      && packetsWritten <= packetsInBuf <= BUFFER_PACKETS && sent <= |reading.packets|
      && |reading.packets| - sent == packetsInBuf - packetsWritten
      && buf[PACKET_SIZE * packetsWritten..PACKET_SIZE * packetsInBuf] == Flatten(reading.packets[sent..])
    }

    /** Everything up to the last reference was read; if there is more than that, positions are known. */
    ghost predicate Valid()
      reads this, buf, bitpos, nextEit, nextEit.buf, eit
    {
      && Synced(reading) && Buffered() && packetsWritten < packetsInBuf
      && |reading.dues| == |reading.packets|
      && (packetsInBuf - packetsWritten >= 2 ==>
            bitpos[packetsWritten..packetsInBuf] == reading.dues[sent..])
    }

    /**
     * The last packet in the buffer is the one with the last reference: the first one as it came,
     * a later one with its new PID.
     */
    lemma EndsWithReference() returns (k: nat)
      requires Valid()
      ensures first <= k < taken && IsReference(cfg, input[k]) && secondPcr == ClockReference(input[k])
      ensures forall j :: k < j < taken ==> !IsReference(cfg, input[j])
      ensures buf[PACKET_SIZE * (packetsInBuf - 1)..PACKET_SIZE * packetsInBuf]
           == if k == first then input[k] else Renumbered(input[k], cfg.pids[cfg.pcrPid])
    {
      hide IsReference, ClockReference, View, Building, Readable, ReadAll, Consistent, Flatten, Waiting;
      k := LastReference(cfg, input, first, taken);
      var n := packetsInBuf - packetsWritten;
      BufferEnd(buf[..], PACKET_SIZE * packetsWritten, n, reading.packets[sent..]);
    }

    /** process_section, rewrite_eit and copy_section for a packet on the EIT PID. */
    method TakeEvent(p: Packet)
      requires Fixed() && Building(nextEit) && eit.length == 0
      requires Pid(p) == EIT_PID && Digestible(cfg, View(nextEit), p)
      requires packetsInBuf + |Contribute(cfg, View(nextEit), p).1| <= BUFFER_PACKETS
      modifies this`packetsInBuf, buf, nextEit, nextEit.buf, eit, eit.buf
      ensures Building(nextEit) && eit.length == 0
      ensures View(nextEit) == Contribute(cfg, old(View(nextEit)), p).0
      ensures packetsInBuf == old(packetsInBuf) + |Contribute(cfg, old(View(nextEit)), p).1|
      ensures buf[..PACKET_SIZE * packetsInBuf] == old(buf[..PACKET_SIZE * packetsInBuf])
                                                   + Flatten(Contribute(cfg, old(View(nextEit)), p).1)
    {
      hide Feed, Contribute, Digestible, EventPackets, Manageable, Acceptable, Building, View, Flatten, Cleared;
      ghost var a := View(nextEit);
      EventContribution(cfg, a, p);
      ghost var delivered := Feed(a, p, EIT_TABLE).1;
      NothingFlat();
      ProcessSection(nextEit, eit, p, EIT_TABLE);
      if eit.length != 0 {
        PlaceEvent();
        eit.length := 0;
      }
    }

    /** A delivered event section becomes packets in the buffer if it is for this service. */
    method PlaceEvent()
      requires Fixed() && eit.Ready() && Manageable(cfg, eit.Data()) && eit.buf[..] == Cleared(eit.Data())
      requires packetsInBuf + |EventPackets(cfg, eit.Data())| <= BUFFER_PACKETS
      modifies this`packetsInBuf, buf
      ensures packetsInBuf == old(packetsInBuf) + |EventPackets(cfg, eit.Data())|
      ensures buf[..PACKET_SIZE * packetsInBuf] == old(buf[..PACKET_SIZE * packetsInBuf])
                                                   + Flatten(EventPackets(cfg, eit.Data()))
    {
      hide Manageable, EventPackets, IsFor, Packetise, Flatten, Rewritten, Rewritable, Cleared;
      EventOf(cfg, eit.Data());
      NothingFlat();
      var newEit := new Section();
      var ok := RewriteEit(newEit, eit, cfg.service, cfg.ids, cfg.onid);
      if ok {
        CopyEvent(newEit);
      }
    }

    method CopyEvent(newEit: Section)
      requires Fixed() && newEit.Ready() && newEit.buf != buf
      requires packetsInBuf + |newEit.Packets(EIT_PID)| <= BUFFER_PACKETS
      modifies this`packetsInBuf, buf, newEit`cc
      ensures packetsInBuf == old(packetsInBuf) + |old(newEit.Packets(EIT_PID))|
      ensures buf[..PACKET_SIZE * packetsInBuf] == old(buf[..PACKET_SIZE * packetsInBuf])
                                                   + Flatten(old(newEit.Packets(EIT_PID)))
    {
      FlattenLength(newEit.Packets(EIT_PID));
      StoreBehind(buf[..], PACKET_SIZE * packetsInBuf, Flatten(newEit.Packets(EIT_PID)));
      var n := CopySection(buf, PACKET_SIZE * packetsInBuf, newEit, EIT_PID);
      packetsInBuf := packetsInBuf + n;
    }

    /** One packet of the input is put behind the buffered ones, then replaced by what it adds. */
    method StorePacket(p: Packet)
      requires Fixed() && Building(nextEit) && eit.length == 0
      requires Digestible(cfg, View(nextEit), p) && packetsInBuf + 1 <= BUFFER_PACKETS
      requires packetsInBuf + |Contribute(cfg, View(nextEit), p).1| <= BUFFER_PACKETS
      modifies this`packetsInBuf, buf, nextEit, nextEit.buf, eit, eit.buf
      ensures Building(nextEit) && eit.length == 0
      ensures View(nextEit) == Contribute(cfg, old(View(nextEit)), p).0
      ensures packetsInBuf == old(packetsInBuf) + |Contribute(cfg, old(View(nextEit)), p).1|
      ensures buf[..PACKET_SIZE * packetsInBuf] == old(buf[..PACKET_SIZE * packetsInBuf])
                                                   + Flatten(Contribute(cfg, old(View(nextEit)), p).1)
      ensures Pid(p) != 0x12 && cfg.pids[Pid(p)] != 0 ==>
                && packetsInBuf == old(packetsInBuf) + 1
                && SameOn(p, buf[188 * old(packetsInBuf)..188 * packetsInBuf], cfg.pids[Pid(p)])
    {
      var at, pid := PACKET_SIZE * packetsInBuf, Pid(p);
      PrefixKept(buf[..], at, p);
      MemCpy(buf, at, p);
      if pid == EIT_PID {
        TakeEvent(p);
      }
      if cfg.pids[pid] != 0 {
        var q := Renumbered(buf[at..at + PACKET_SIZE], cfg.pids[pid]);
        StoreBehind(buf[..], at, q);
        MemCpy(buf, at, q);
        packetsInBuf := packetsInBuf + 1;
        FlattenOne(q);
        assert buf[at..at + PACKET_SIZE] == buf[..at + PACKET_SIZE][at..] == q;
        MovedSame(cfg, p);
      }
    }

    /** One turn of read_to_next_pcr: the buffer and the references. */
    method Arrive(p: Packet) returns (found: bool)
      requires Fixed() && Building(nextEit) && eit.length == 0
      requires Digestible(cfg, View(nextEit), p) && packetsInBuf + 1 <= BUFFER_PACKETS
      requires packetsInBuf + |Contribute(cfg, View(nextEit), p).1| <= BUFFER_PACKETS
      modifies this`firstPcr, this`secondPcr, this`packetsInBuf
      modifies buf, nextEit, nextEit.buf, eit, eit.buf
      ensures Building(nextEit) && eit.length == 0
      ensures View(nextEit) == Contribute(cfg, old(View(nextEit)), p).0
      ensures packetsInBuf == old(packetsInBuf) + |Contribute(cfg, old(View(nextEit)), p).1|
      ensures buf[..PACKET_SIZE * packetsInBuf] == old(buf[..PACKET_SIZE * packetsInBuf])
                                                   + Flatten(Contribute(cfg, old(View(nextEit)), p).1)
      ensures found == IsReference(cfg, p)
      ensures firstPcr == if IsReference(cfg, p) then old(secondPcr) else old(firstPcr)
      ensures secondPcr == if IsReference(cfg, p) then ClockReference(p) else old(secondPcr)
    {
      found := false;
      if Pid(p) == cfg.pcrPid && HasPcr(p) {
        firstPcr, secondPcr := secondPcr, ClockReference(p);
        found := true;
      }
      StorePacket(p);
    }

    /** The buffer holds these packets; nothing of it has been sent since the last reference. */
    ghost predicate Filled(ps: seq<Packet>, from: nat)
      requires Fixed()
      reads this`packetsWritten, this`packetsInBuf, buf
    {
      && packetsWritten == 0 && from <= |ps| && packetsInBuf == |ps| - from <= BUFFER_PACKETS
      && buf[..PACKET_SIZE * packetsInBuf] == Flatten(ps[from..])
    }

    /** The same, told by the reading. */
    method Advance(ghost r: Reading, p: Packet, ghost q: Reading) returns (found: bool)
      requires Fixed() && Building(nextEit) && eit.length == 0
      requires Consistent(r) && Next(cfg, r, p) && View(nextEit) == r.eit && sent + 1 == |r.dues|
      requires q == Read(cfg, r, p)
      requires Filled(r.packets, sent)
      modifies this`firstPcr, this`secondPcr, this`packetsInBuf
      modifies buf, nextEit, nextEit.buf, eit, eit.buf
      ensures Building(nextEit) && eit.length == 0 && View(nextEit) == q.eit
      ensures Filled(q.packets, sent)
      ensures found == IsReference(cfg, p)
      ensures firstPcr == if IsReference(cfg, p) then old(secondPcr) else old(firstPcr)
      ensures secondPcr == if IsReference(cfg, p) then ClockReference(p) else old(secondPcr)
    {
      ghost var before, more := buf[..PACKET_SIZE * packetsInBuf], Contribute(cfg, r.eit, p).1;
      BufferGrows(r.packets, more, sent, before);
      ReadAdds(cfg, r, p);
      found := Arrive(p);
    }

    /** The same, within the state. */
    method TakePacket(ghost r: Reading) returns (found: bool, ghost q: Reading)
      requires Synced(r) && Filled(r.packets, sent) && taken < |input|
      requires sent + 1 == |r.dues|
      modifies this`taken, this`firstPcr, this`secondPcr, this`packetsInBuf
      modifies buf, nextEit, nextEit.buf, eit, eit.buf
      ensures Synced(q) && Filled(q.packets, sent)
      ensures Next(cfg, r, input[old(taken)]) && q == Read(cfg, r, input[old(taken)])
      ensures taken == old(taken) + 1 && found == IsReference(cfg, input[old(taken)])
      ensures firstPcr == if found then old(secondPcr) else old(firstPcr)
    {
      hide Reaches, Next, Read, IsReference, ClockReference, Contribute;
      var p := input[taken];
      q := Upcoming(cfg, input, first, taken, r);
      taken := taken + 1;
      found := Advance(r, p, q);
    }

    /** read_to_next_pcr: packets are taken until one carries a reference. */
    method ReadToNextPcr(ghost r0: Reading) returns (ghost r: Reading)
      requires Synced(r0) && Filled(r0.packets, sent) && sent + 1 == |r0.dues|
      requires References(cfg, input, taken) > 0
      modifies this`taken, this`firstPcr, this`secondPcr, this`packetsInBuf
      modifies buf, nextEit, nextEit.buf, eit, eit.buf
      ensures Synced(r) && Filled(r.packets, sent) && NextInterval(cfg, r0, r) && firstPcr == r0.mark
      ensures References(cfg, input, taken) + 1 == old(References(cfg, input, taken))
    {
      hide Reaches, Next, Read, IsReference, Midway, NextInterval;
      var found := false;
      r := r0;
      MidwayBegins(r0);
      while !found
        invariant Synced(r) && Filled(r.packets, sent) && sent + 1 == |r0.dues|
        invariant if found then NextInterval(cfg, r0, r) && firstPcr == r0.mark else Midway(r0, r)
        invariant References(cfg, input, taken) + (if found then 1 else 0) == old(References(cfg, input, taken))
        decreases |input| - taken
      {
        ghost var q;
        MidwayFacts(r0, r);
        found, q := TakePacket(r);
        MidwayNext(cfg, r0, r, input[taken - 1]);
        r := q;
      }
    }

    /** The last packet, which carries a reference, moves to the front of the buffer. */
    method Rotate()
      requires Fixed() && Buffered() && packetsInBuf - packetsWritten == 1
      modifies this`packetsInBuf, this`packetsWritten, buf
      ensures Filled(reading.packets, sent) && packetsInBuf == 1
    {
      var last := PACKET_SIZE * (packetsInBuf - 1);
      ghost var rest := reading.packets[sent..];
      assert rest == [rest[0]];
      FlattenOne(rest[0]);
      PrefixKept(buf[..], 0, buf[last..last + PACKET_SIZE]);
      MemCpy(buf, 0, buf[last..last + PACKET_SIZE]);
      packetsWritten, packetsInBuf := 0, 1;
    }

    /** The due position of every packet in the buffer. */
    method SetPositions()
      requires Fixed() && startPcr <= firstPcr <= secondPcr && 2 <= packetsInBuf <= BUFFER_PACKETS
      modifies bitpos
      ensures forall j :: 0 <= j < packetsInBuf ==>
                bitpos[j] == Due(firstPcr, secondPcr, startPcr, j, packetsInBuf, cfg.capacity)
    {
      hide Due;
      var pcrDiff := secondPcr - firstPcr;
      var j := 0;
      while j < packetsInBuf
        invariant j <= packetsInBuf
        invariant forall i :: 0 <= i < j ==>
                    bitpos[i] == Due(firstPcr, secondPcr, startPcr, i, packetsInBuf, cfg.capacity)
      {
        DueIs(firstPcr, secondPcr, startPcr, j, packetsInBuf, cfg.capacity);
        var packetPcr := firstPcr + (j * pcrDiff) / (packetsInBuf - 1) - startPcr;
        bitpos[j] := (packetPcr * cfg.capacity) / CLOCK;
        j := j + 1;
      }
    }

    /** The due positions of what was read, next to those from before. */
    method PlaceInterval(ghost r0: Reading, ghost r: Reading)
      requires Synced(r) && Filled(r.packets, sent) && NextInterval(cfg, r0, r) && firstPcr == r0.mark
      requires OnTime(cfg, r0) && sent + 1 == |r0.dues|
      modifies bitpos
      ensures packetsInBuf >= 2 && |r.dues| == |r.packets| && bitpos[..packetsInBuf] == r.dues[sent..]
    {
      hide Reaches, NextInterval, Due;
      IntervalOrder(cfg, r0, r);
      SetPositions();
      PositionsAre(cfg, r0, r, sent, bitpos[..packetsInBuf]);
    }

    method ReadInterval(ghost r0: Reading) returns (ghost r: Reading)
      requires Synced(r0) && Buffered() && reading == r0 && packetsInBuf - packetsWritten == 1
      requires |r0.dues| == |r0.packets| && References(cfg, input, taken) > 0
      modifies this`taken, this`firstPcr, this`secondPcr, this`packetsInBuf, this`packetsWritten
      modifies buf, nextEit, nextEit.buf, eit, eit.buf
      ensures Synced(r) && Filled(r.packets, sent) && NextInterval(cfg, r0, r)
      ensures firstPcr == r0.mark && OnTime(cfg, r0) && sent + 1 == |r0.dues|
      ensures References(cfg, input, taken) + 1 == old(References(cfg, input, taken))
    {
      hide Reaches, NextInterval, OnTime;
      firstPcr := secondPcr;
      ReachedOnTime(cfg, input, first, taken, r0);
      Rotate();
      r := ReadToNextPcr(r0);
    }

    /** A service with only its last packet left is filled up to its next reference. */
    method Refill()
      requires Valid() && packetsInBuf - packetsWritten == 1 && References(cfg, input, taken) > 0
      modifies this`taken, this`firstPcr, this`secondPcr, this`packetsInBuf, this`packetsWritten, this`reading
      modifies buf, bitpos, nextEit, nextEit.buf, eit, eit.buf
      ensures Valid() && packetsInBuf >= 2 && packetsWritten == 0
      ensures NextInterval(cfg, old(reading), reading)
      ensures References(cfg, input, taken) + 1 == old(References(cfg, input, taken))
    {
      hide Synced, NextInterval, OnTime;
      ghost var r0 := reading;
      ghost var r := ReadInterval(r0);
      PlaceInterval(r0, r);
      reading := r;
    }

    /** A packet sync_to_pcr stops at: one with a reference, on no PID of a table. */
    predicate StartsWith(p: Packet) {
      Pid(p) != pmtPid && Pid(p) != 17 && IsReference(cfg, p)
    }

    lemma StartsAt(t: nat, at: nat)
      requires t <= at < |input| && StartsWith(input[at]) && forall i :: t <= i < at ==> !StartsWith(input[i])
      ensures Pid(input[at]) == cfg.pcrPid && HasPcr(input[at]) && cfg.pcrPid != pmtPid && cfg.pcrPid != 17
      ensures forall i :: t <= i < at ==> Pid(input[i]) != cfg.pcrPid || !HasPcr(input[i])
    {
      hide HasPcr;
    }

    /** The packets of the SDT among these, unless its PID is taken for that of the PMT. */
    function SdtPackets(ps: seq<Packet>): seq<Packet> {
      if pmtPid == 17 then [] else On(ps, 17)
    }

    /** No part of these sections belongs to another one or to the service. */
    ghost predicate TablesApart(nextPmt: Section, pmt: Section, nextSdt: Section, sdt: Section) {
      && nextPmt != nextSdt && nextPmt != sdt && pmt != nextSdt && pmt != sdt
      && nextPmt.buf != nextSdt.buf && nextPmt.buf != sdt.buf && pmt.buf != nextSdt.buf && pmt.buf != sdt.buf
      && Footprint() !! {nextPmt, nextPmt.buf, pmt, pmt.buf, nextSdt, nextSdt.buf, sdt, sdt.buf}
    }

    /** A packet that sync_to_pcr does not stop at: those of the tables are collected. */
    method PassBy(p: Packet, nextPmt: Section, pmt: Section, nextSdt: Section, sdt: Section,
                  ghost a: Assembly, ghost b: Assembly, ghost ps: seq<Packet>)
      requires TablesApart(nextPmt, pmt, nextSdt, sdt)
      requires Collected(nextPmt, pmt, a, On(ps, pmtPid), 0x02)
      requires Collected(nextSdt, sdt, b, SdtPackets(ps), 0x42)
      requires AllAcceptable(a, On(ps + [p], pmtPid), 0x02) && AllAcceptable(b, SdtPackets(ps + [p]), 0x42)
      modifies nextPmt, nextPmt.buf, pmt, pmt.buf, nextSdt, nextSdt.buf, sdt, sdt.buf
      ensures Collected(nextPmt, pmt, a, On(ps + [p], pmtPid), 0x02)
      ensures Collected(nextSdt, sdt, b, SdtPackets(ps + [p]), 0x42)
      ensures FeedAll(a, On(ps + [p], pmtPid), 0x02).1 == [] ==> unchanged(pmt) && unchanged(pmt.buf)
      ensures FeedAll(b, SdtPackets(ps + [p]), 0x42).1 == [] ==> unchanged(sdt) && unchanged(sdt.buf)
    {
      hide Collected, FeedAll, AllAcceptable;
      OnNext(ps, p, pmtPid);
      OnNext(ps, p, 17);
      if Pid(p) == pmtPid {
        Collect(nextPmt, pmt, p, 0x02, a, On(ps, pmtPid));
      } else if Pid(p) == 17 {
        Collect(nextSdt, sdt, p, 0x42, b, On(ps, 17));
      }
    }

    /**
     * sync_to_pcr: skips to the first such packet and keeps it as it is; PMT and SDT sections that
     * pass by are collected.
     */
    method SyncToPcr(nextPmt: Section, pmt: Section, nextSdt: Section, sdt: Section, ghost at: nat)
      requires Fixed() && Waiting() && taken <= at < |input| && StartsWith(input[at])
      requires forall i :: taken <= i < at ==> !StartsWith(input[i])
      requires Readable(cfg, input, at, |input|)
      requires TablesApart(nextPmt, pmt, nextSdt, sdt)
      requires nextPmt != pmt && nextPmt.buf != pmt.buf && Building(nextPmt) && pmt.buf.Length == SECTION_SIZE
      requires nextSdt != sdt && nextSdt.buf != sdt.buf && Building(nextSdt) && sdt.buf.Length == SECTION_SIZE
      requires AllAcceptable(View(nextPmt), On(input[taken..at], pmtPid), 0x02)
      requires AllAcceptable(View(nextSdt), SdtPackets(input[taken..at]), 0x42)
      modifies this, buf, nextPmt, nextPmt.buf, pmt, pmt.buf, nextSdt, nextSdt.buf, sdt, sdt.buf
      ensures Valid() && first == at && taken == at + 1 && sent == 0
      ensures Pid(input[first]) == cfg.pcrPid && HasPcr(input[first])
      ensures cfg.pcrPid != pmtPid && cfg.pcrPid != 17
      ensures forall i :: old(taken) <= i < first ==> Pid(input[i]) != cfg.pcrPid || !HasPcr(input[i])
      ensures reading == Begin(input[at]) && packetsInBuf == 1 && packetsWritten == 0
      ensures Collected(nextPmt, pmt, old(View(nextPmt)), On(input[old(taken)..at], pmtPid), 0x02)
      ensures Collected(nextSdt, sdt, old(View(nextSdt)), SdtPackets(input[old(taken)..at]), 0x42)
    {
      hide Reaches, Readable, IsReference, ClockReference, Buffered, FeedAll, AllAcceptable, On, SdtPackets, Feed,
        Collected, StartsWith, ValidConfig;
      StartsAt(taken, at);
      SkipTables(nextPmt, pmt, nextSdt, sdt, at);
      KeepFirst(input[taken]);
      first := taken;
      taken := taken + 1;
      ReadOne(cfg, input, at);
    }

    method SkipTables(nextPmt: Section, pmt: Section, nextSdt: Section, sdt: Section, ghost at: nat)
      requires taken <= at < |input| && StartsWith(input[at])
      requires forall i :: taken <= i < at ==> !StartsWith(input[i])
      requires TablesApart(nextPmt, pmt, nextSdt, sdt)
      requires nextPmt != pmt && nextPmt.buf != pmt.buf && Building(nextPmt) && pmt.buf.Length == SECTION_SIZE
      requires nextSdt != sdt && nextSdt.buf != sdt.buf && Building(nextSdt) && sdt.buf.Length == SECTION_SIZE
      requires AllAcceptable(View(nextPmt), On(input[taken..at], pmtPid), 0x02)
      requires AllAcceptable(View(nextSdt), SdtPackets(input[taken..at]), 0x42)
      modifies this`taken, nextPmt, nextPmt.buf, pmt, pmt.buf, nextSdt, nextSdt.buf, sdt, sdt.buf
      ensures taken == at
      ensures Collected(nextPmt, pmt, old(View(nextPmt)), On(input[old(taken)..at], pmtPid), 0x02)
      ensures Collected(nextSdt, sdt, old(View(nextSdt)), SdtPackets(input[old(taken)..at]), 0x42)
    {
      hide *;
      ghost var a, b, t := View(nextPmt), View(nextSdt), taken;
      NothingCollected(nextPmt, pmt, a, 0x02);
      NothingCollected(nextSdt, sdt, b, 0x42);
      NoPackets(input[t..t]);
      while !StartsWith(input[taken])
        invariant t <= taken <= at
        invariant Collected(nextPmt, pmt, a, On(input[t..taken], pmtPid), 0x02)
        invariant Collected(nextSdt, sdt, b, SdtPackets(input[t..taken]), 0x42)
        decreases at - taken
      {
        var p := input[taken];
        ghost var ps := input[t..taken];
        SliceNext(input, t, taken, at);
        AcceptableSoFar(ps + [p], input[t..at], a, b);
        PassBy(p, nextPmt, pmt, nextSdt, sdt, a, b, ps);
        taken := taken + 1;
      }
    }

    lemma NoPackets(ps: seq<Packet>)
      requires ps == []
      ensures On(ps, pmtPid) == [] && SdtPackets(ps) == []
    {
    }

    lemma AcceptableSoFar(ps: seq<Packet>, longer: seq<Packet>, a: Assembly, b: Assembly)
      requires Open(a) && Open(b) && ps <= longer
      requires AllAcceptable(a, On(longer, pmtPid), 0x02) && AllAcceptable(b, SdtPackets(longer), 0x42)
      ensures AllAcceptable(a, On(ps, pmtPid), 0x02) && AllAcceptable(b, SdtPackets(ps), 0x42)
    {
      assert longer == ps + longer[|ps|..];
      OnAppend(ps, longer[|ps|..], pmtPid);
      OnAppend(ps, longer[|ps|..], 17);
      AcceptablePrefix(a, On(ps, pmtPid), On(longer[|ps|..], pmtPid), 0x02);
      if pmtPid != 17 {
        AcceptablePrefix(b, On(ps, 17), On(longer[|ps|..], 17), 0x42);
      }
    }

    method KeepFirst(p: Packet)
      requires Fixed()
      modifies this`startPcr, this`secondPcr, this`packetsInBuf, this`packetsWritten, this`reading, this`sent, buf
      ensures reading == Begin(p) && sent == 0 && packetsInBuf == 1 && packetsWritten == 0 && Buffered()
      ensures startPcr == secondPcr == ClockReference(p)
    {
      startPcr := ClockReference(p);
      secondPcr := startPcr;
      PrefixKept(buf[..], 0, p);
      FlattenOne(p);
      MemCpy(buf, 0, p);
      packetsInBuf, packetsWritten := 1, 0;
      reading, sent := Begin(p), 0;
      assert reading.packets[0..] == [p];
    }

    /**
     * The most urgent packet leaves the buffer. On the EIT PID it gets the shared counter, in
     * place of the one it has.
     */
    method Send(eitCc: nat) returns (p: Packet, eitCc': nat)
      requires Fixed() && Valid() && packetsInBuf - packetsWritten >= 2 && eitCc < 16
      modifies this`packetsWritten, this`sent, buf
      ensures Valid() && sent == old(sent) + 1 && packetsWritten == old(packetsWritten) + 1
      ensures p == Counted(reading.packets[old(sent)], eitCc)
      ensures eitCc' == if Pid(p) == EIT_PID then (eitCc + 1) % 16 else eitCc
    {
      hide Synced, Flatten;
      var at := PACKET_SIZE * packetsWritten;
      assert buf[..][at..PACKET_SIZE * packetsInBuf] == buf[at..PACKET_SIZE * packetsInBuf];
      BufferHead(buf[..], at, PACKET_SIZE * packetsInBuf, reading.packets, sent);
      p, eitCc' := buf[at..at + PACKET_SIZE], eitCc;
      if Pid(p) == EIT_PID {
        CounterChanged(buf[..], at, PACKET_SIZE * packetsInBuf, 0x10 + eitCc);
        buf[at + 3] := 0x10 + eitCc;
        eitCc' := (eitCc + 1) % 16;
        p := buf[at..at + PACKET_SIZE];
      }
      PositionsDropped(bitpos[..], packetsWritten, packetsInBuf, reading.dues, sent);
      packetsWritten, sent := packetsWritten + 1, sent + 1;
    }
  }
}
