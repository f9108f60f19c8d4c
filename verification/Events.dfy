/** The event sections of a service, from what arrives to what a receiver of its stream gets. */
module Events {
  import opened Bytes
  import Crc32
  import opened Descriptors
  import opened Eit
  import opened EitSection
  import opened Reassembly
  import opened Sections
  import opened Streams

  // ----- What is delivered -----

  /** An assembly of this table has its table id. */
  predicate Begun(a: Assembly, tableId: byte) {
    a.Partial? ==> a.got != [] && a.got[0] == tableId
  }

  /** Sections of this table. */
  ghost predicate AllOf(ss: seq<Bytes>, tableId: byte) {
    forall i :: 0 <= i < |ss| ==> 3 <= |ss[i]| && ss[i][0] == tableId
  }

  lemma FeedOf(a: Assembly, p: Packet, tableId: byte)
    requires Open(a) && Begun(a, tableId) && Acceptable(a, p, tableId)
    ensures Begun(Feed(a, p, tableId).0, tableId) && AllOf(Feed(a, p, tableId).1, tableId)
  {
    hide Crc32.Crc;
  }

  lemma {:induction false} DeliveredOf(a: Assembly, ps: seq<Packet>, tableId: byte)
    requires Open(a) && Begun(a, tableId) && AllAcceptable(a, ps, tableId)
    ensures AllOf(FeedAll(a, ps, tableId).1, tableId)
    decreases |ps|
  {
    hide Feed, Acceptable, Begun, Open;
    if ps != [] {
      FeedOf(a, ps[0], tableId);
      DeliveredOf(Feed(a, ps[0], tableId).0, ps[1..], tableId);
    }
  }

  // ----- What is passed on -----

  /** The sections that are for the service. */
  ghost function Own(cfg: Config, ss: seq<Bytes>): seq<Bytes>
    requires AllManageable(cfg, ss)
  {
    if ss == [] then []
    else (if GetU16(Cleared(ss[0]), 3) == cfg.service then [ss[0]] else []) + Own(cfg, ss[1..])
  }

  /** There is room for the prefixes of all short events. */
  ghost predicate Roomy(cfg: Config, s: Bytes) {
    && |s| <= SECTION_SIZE && Rewritable(Cleared(s), cfg.onid)
    && AllShortEnough(Parse(EventLoop(Cleared(s)), 0), cfg.onid == 0x0001 || cfg.onid == 0x0085)
  }

  /**
   * t passes on the event of s: the same table, version, section and event with its times and its
   * running status, under the identifiers of the output stream, marked as free, and with a right
   * length and CRC; its descriptors are those of s, with names and texts marked on two networks.
   */
  ghost predicate Passes(cfg: Config, s: Bytes, t: Bytes) {
    && 1 <= |s| <= SECTION_SIZE && 30 <= |t| <= SECTION_SIZE
    && t[0] == s[0] && GetU12(t, 1) == |t| - 3 && Crc32.Crc(t, 0xffffffff) == 0
    && GetU16(t, 3) == cfg.ids.service && GetU16(t, 8) == cfg.ids.tsid && GetU16(t, 10) == cfg.ids.onid
    && var b := Cleared(s);
       && t[5] == b[5] && t[6..8] == b[6..8] && t[12..14] == b[12..14] && t[14..24] == b[14..24]
       && t[24] as int / 32 == b[24] as int / 32 && t[24] as int / 16 % 2 == 0
       && (Roomy(cfg, s) ==>
             && IsEventTable(t)
             && AllReworded(Parse(EventLoop(b), 0), Parse(EventLoop(t), 0), cfg.onid == 0x0001 || cfg.onid == 0x0085))
  }

  lemma StatusBits(b: byte, t: byte)
    requires Quot(t as int, 32) == Quot(b as int, 32) && Rem(t as int, 32) < 16
    ensures t as int / 32 == b as int / 32 && t as int / 16 % 2 == 0
  {
    DivisionOf(t as int, 32);
    DivisionOf(b as int, 32);
  }

  lemma RewrittenPasses(cfg: Config, s: Bytes)
    requires ValidConfig(cfg) && Manageable(cfg, s) && IsFor(cfg, s) && s != []
    ensures Passes(cfg, s, Rewritten(Cleared(s), cfg.ids, cfg.onid))
  {
    hide Crc32.Crc, Rewritten, LoopBytes, Tiled, AllFit, RewriteAll, AllShortEnough, AllReworded;
    var b := Cleared(s);
    RewrittenParts(b, cfg.ids, cfg.onid);
    RewrittenRead(b, cfg.ids, cfg.onid);
    StatusBits(b[24], Rewritten(b, cfg.ids, cfg.onid)[24]);
    assert b[0] == s[0];
  }

  ghost predicate AllPass(cfg: Config, ss: seq<Bytes>, ts: seq<Bytes>) {
    |ts| == |ss| && forall i :: 0 <= i < |ss| ==> Passes(cfg, ss[i], ts[i])
  }

  /** Sections as they are sent on the EIT PID. */
  ghost function OnEit(ts: seq<Bytes>): seq<Sent> {
    if ts == [] then [] else [Sent(ts[0], 0x12, 0)] + OnEit(ts[1..])
  }

  /** They are event sections with right headers and CRCs. */
  ghost predicate AllRight(ts: seq<Bytes>) {
    forall i :: 0 <= i < |ts| ==> WellFormed(ts[i], 0x4e) && Crc32.Crc(ts[i], 0xffffffff) == 0
  }

  lemma {:induction false} RightSendable(ts: seq<Bytes>)
    requires AllRight(ts)
    ensures Sendable(OnEit(ts), 0x4e) && Good(OnEit(ts), 0x4e) == ts
  {
    hide Crc32.Crc, WellFormed;
    if ts != [] {
      RightSendable(ts[1..]);
      WellFormedHas(ts[0]);
      assert OnEit(ts)[1..] == OnEit(ts[1..]);
      assert ts == [ts[0]] + ts[1..];
    }
  }

  lemma WellFormedHas(s: Bytes)
    requires WellFormed(s, 0x4e)
    ensures s != [] && s[0] == 0x4e
  {
  }

  /** What is made of the sections for the service. */
  ghost function Made(cfg: Config, ss: seq<Bytes>): seq<Bytes>
    requires ValidConfig(cfg) && AllManageable(cfg, ss)
  {
    if ss == [] then []
    else (if IsFor(cfg, ss[0]) then [Rewritten(Cleared(ss[0]), cfg.ids, cfg.onid)] else []) + Made(cfg, ss[1..])
  }

  lemma MadeRight(cfg: Config, s: Bytes)
    requires ValidConfig(cfg) && Manageable(cfg, s) && IsFor(cfg, s) && s != [] && s[0] == 0x4e
    ensures var t := Rewritten(Cleared(s), cfg.ids, cfg.onid);
            && Passes(cfg, s, t) && AllRight([t]) && EventPackets(cfg, s) == Packetise(t, 0x12, 0)
  {
    RewrittenPasses(cfg, s);
    hide Crc32.Crc, Rewritten, Packetise, Roomy, Rewritable, AllReworded;
  }

  lemma {:induction false} AllMade(cfg: Config, ss: seq<Bytes>)
    requires ValidConfig(cfg) && AllManageable(cfg, ss) && AllOf(ss, 0x4e)
    ensures AllPass(cfg, Own(cfg, ss), Made(cfg, ss)) && AllRight(Made(cfg, ss))
    ensures Sendable(OnEit(Made(cfg, ss)), 0x4e)
    ensures AllEventPackets(cfg, ss) == Reassembly.PacketsOf(OnEit(Made(cfg, ss)), 0x4e)
  {
    hide *;
    if ss == [] {
      NoneMade(cfg);
      RightSendable([]);
    } else {
      OneMore(cfg, ss);
      AllMade(cfg, ss[1..]);
      if IsFor(cfg, ss[0]) {
        var s, rest := ss[0], Made(cfg, ss[1..]);
        var t := Rewritten(Cleared(s), cfg.ids, cfg.onid);
        MadeRight(cfg, s);
        PassFirst(cfg, s, t, Own(cfg, ss[1..]), rest);
        RightFirst(t, rest);
        RightSendable([t] + rest);
        SentFirst(t, rest);
      }
    }
  }

  lemma NoneMade(cfg: Config)
    requires ValidConfig(cfg)
    ensures AllManageable(cfg, []) && Own(cfg, []) == [] && Made(cfg, []) == [] && AllRight([])
    ensures AllPass(cfg, [], []) && AllEventPackets(cfg, []) == []
    ensures OnEit([]) == [] && Sendable([], 0x4e) && Reassembly.PacketsOf([], 0x4e) == []
  {
  }

  lemma OneMore(cfg: Config, ss: seq<Bytes>)
    requires ValidConfig(cfg) && ss != [] && AllManageable(cfg, ss) && AllOf(ss, 0x4e)
    ensures Manageable(cfg, ss[0]) && AllManageable(cfg, ss[1..]) && AllOf(ss[1..], 0x4e)
    ensures ss[0] != [] && ss[0][0] == 0x4e && |ss[0]| <= SECTION_SIZE && ValidIds(cfg.ids)
    ensures IsFor(cfg, ss[0]) ==>
              && Rewritable(Cleared(ss[0]), cfg.onid)
              && Own(cfg, ss) == [ss[0]] + Own(cfg, ss[1..])
              && Made(cfg, ss) == [Rewritten(Cleared(ss[0]), cfg.ids, cfg.onid)] + Made(cfg, ss[1..])
              && AllEventPackets(cfg, ss) == EventPackets(cfg, ss[0]) + AllEventPackets(cfg, ss[1..])
    ensures !IsFor(cfg, ss[0]) ==>
              && Own(cfg, ss) == Own(cfg, ss[1..]) && Made(cfg, ss) == Made(cfg, ss[1..])
              && AllEventPackets(cfg, ss) == AllEventPackets(cfg, ss[1..])
  {
    hide Manageable, EventPackets, Rewritten, IsFor, Rewritable;
    ForIs(cfg, ss[0]);
    assert [] + Made(cfg, ss[1..]) == Made(cfg, ss[1..]) && [] + Own(cfg, ss[1..]) == Own(cfg, ss[1..]);
    assert [] + AllEventPackets(cfg, ss[1..]) == AllEventPackets(cfg, ss[1..]);
  }

  lemma PassFirst(cfg: Config, s: Bytes, t: Bytes, ss: seq<Bytes>, ts: seq<Bytes>)
    requires Passes(cfg, s, t) && AllPass(cfg, ss, ts)
    ensures AllPass(cfg, [s] + ss, [t] + ts)
  {
    hide Passes;
  }

  lemma ForIs(cfg: Config, s: Bytes)
    requires ValidConfig(cfg) && Manageable(cfg, s)
    ensures |s| <= SECTION_SIZE && (IsFor(cfg, s) <==> GetU16(Cleared(s), 3) == cfg.service)
    ensures IsFor(cfg, s) ==> Rewritable(Cleared(s), cfg.onid) && ValidIds(cfg.ids)
    ensures !IsFor(cfg, s) ==> EventPackets(cfg, s) == []
  {
  }

  lemma RightFirst(t: Bytes, ts: seq<Bytes>)
    requires AllRight([t]) && AllRight(ts)
    ensures AllRight([t] + ts)
  {
    hide Crc32.Crc, WellFormed;
    assert [t][0] == t;
  }

  lemma SentFirst(t: Bytes, ts: seq<Bytes>)
    requires Sendable(OnEit([t] + ts), 0x4e) && Sendable(OnEit(ts), 0x4e)
    ensures Reassembly.PacketsOf(OnEit([t] + ts), 0x4e)
         == Packetise(t, 0x12, 0) + Reassembly.PacketsOf(OnEit(ts), 0x4e)
  {
    hide Packetise, Sendable;
    assert ([t] + ts)[1..] == ts;
    assert OnEit([t] + ts)[1..] == OnEit(ts);
  }

  /**
   * A receiver of the stream that a service's input becomes gets, of the event sections that
   * arrive whole and with a right CRC, exactly those for the service, in order, and each passes
   * on the event that was received.
   */
  lemma EventsReceived(cfg: Config, ps: seq<Packet>, first: nat, n: nat)
    returns (sections: seq<Bytes>, received: seq<Bytes>)
    requires ValidConfig(cfg) && Readable(cfg, ps, first, n)
    ensures AllAcceptable(Idle, On(ps[first..n], 0x12), 0x4e)
    ensures FeedAll(Idle, On(ps[first..n], 0x12), 0x4e).1 == sections && AllManageable(cfg, sections)
    ensures var events := On(ReadAll(cfg, ps, first, n).packets, 0x12);
            AllAcceptable(Idle, events, 0x4e) && FeedAll(Idle, events, 0x4e) == (Idle, received)
    ensures AllPass(cfg, Own(cfg, sections), received)
  {
    hide ReadAll, On, Off, AllMoved, AllEventPackets, FeedAll, AllAcceptable, AllManageable, AllPass, Own, Made,
      Sendable, Conserved, ValidConfig;
    sections := NothingLost(cfg, ps, first, n);
    DeliveredOf(Idle, On(ps[first..n], 0x12), 0x4e);
    AllMade(cfg, sections);
    received := Made(cfg, sections);
    RightSendable(received);
    RoundTrip(OnEit(received), 0x4e);
  }
}
