/** rewrite_eit: the event information section of one service, moved to the output stream. */
module EitSection {
  import opened Bytes
  import opened Crc32
  import opened Descriptors
  import opened Eit
  import opened Sections
  import opened Text

  /** The loop of the first event. */
  function EventLoop(s: Bytes): Bytes
    requires 30 <= |s| && 26 + GetU12(s, 24) <= |s| - 4
  {
    s[26..26 + GetU12(s, 24)]
  }

  /** What lies in the place of the first event has descriptors that can be rewritten. */
  ghost predicate Rewritable(s: Bytes, onid: int) {
    && 30 <= |s| <= SECTION_SIZE && 26 + GetU12(s, 24) <= |s| - 4
    && Tiled(EventLoop(s), 0) && AllFit(Parse(EventLoop(s), 0), RecodedNetwork(onid), [])
    && |LoopBytes(EventLoop(s), 0, RecodedNetwork(onid), [])| <= SECTION_SIZE - 30
  }

  /** What a receiver reads from a section with one event. */
  datatype EventTable = EventTable(
    tableId: byte, service: nat, version: byte, numbers: Bytes, tsid: nat, onid: nat,
    segments: Bytes, event: Bytes, running: nat, free: bool, descriptors: seq<Descriptor>)

  ghost predicate IsEventTable(s: Bytes) {
    && 30 <= |s| && 26 + GetU12(s, 24) <= |s| - 4 && Tiled(EventLoop(s), 0)
  }

  /** The fields of the section and of its first event. */
  ghost function ReadEvent(s: Bytes): EventTable
    requires IsEventTable(s)
  {
    EventTable(s[0], GetU16(s, 3), s[5], s[6..8], GetU16(s, 8), GetU16(s, 10), s[12..14], s[14..24],
               Quot(s[24] as int, 32), Rem(s[24] as int, 32) < 16, Parse(EventLoop(s), 0))
  }

  datatype Ids = Ids(service: nat, tsid: nat, onid: nat)

  predicate ValidIds(ids: Ids) {
    ids.service < 0x1_0000 && ids.tsid < 0x1_0000 && ids.onid < 0x1_0000
  }

  ghost function EitHead(s: Bytes, ids: Ids, size: nat, running: nat): (h: Bytes)
    requires |s| >= 24 && ValidIds(ids) && size <= SECTION_SIZE - 30 && running < 8
    ensures |h| == 26
  {
    [s[0]] + U16(0xf000 + (size + 27)) + U16(ids.service) + s[5..8] + U16(ids.tsid) + U16(ids.onid)
    + s[12..24] + U16(running * 0x2000 + size)
  }

  lemma RunningBits(b: byte)
    ensures Quot(b as int, 32) < 8
  {
    QuotRem(b as int, 32);
  }

  /** The section rewrite_eit has to build. */
  ghost function Rewritten(s: Bytes, ids: Ids, onid: int): (t: Bytes)
    requires Rewritable(s, onid) && ValidIds(ids)
    ensures |t| <= SECTION_SIZE
  {
    var loop := LoopBytes(EventLoop(s), 0, RecodedNetwork(onid), []);
    RunningBits(s[24]);
    Sealed(EitHead(s, ids, |loop|, Quot(s[24] as int, 32)) + loop)
  }

  lemma HeadFields(s: Bytes, ids: Ids, size: nat, running: nat)
    requires |s| >= 24 && ValidIds(ids) && size <= SECTION_SIZE - 30 && running < 8
    ensures var h := EitHead(s, ids, size, running);
            && h[0] == s[0] && Quot(h[1] as int, 16) == 0xf && GetU12(h, 1) == size + 27 && GetU16(h, 3) == ids.service
            && h[5] == s[5] && h[6..8] == s[6..8] && GetU16(h, 8) == ids.tsid && GetU16(h, 10) == ids.onid
            && h[12..14] == s[12..14] && h[14..24] == s[14..24]
  {
    var h := EitHead(s, ids, size, running);
    FieldOfU16(15, size + 27, U16(0xf000 + (size + 27)));
    HighNibble(15, size + 27);
    assert h[5..8] == s[5..8] && h[12..24] == s[12..24];
    assert h[6..8] == h[5..8][1..] && s[6..8] == s[5..8][1..];
    assert h[12..14] == h[12..24][..2] && s[12..14] == s[12..24][..2];
    assert h[14..24] == h[12..24][2..] && s[14..24] == s[12..24][2..];
  }

  lemma LoopHeader(running: nat, size: nat, b: Bytes)
    requires running < 8 && size <= SECTION_SIZE - 30 && b == U16(running * 0x2000 + size)
    ensures GetU12(b, 0) == size && Quot(b[0] as int, 32) == running && Rem(b[0] as int, 32) < 16
  {
    FieldOfU16(running * 2, size, b);
    QuotRem(size, 256);
    QuotRem(b[0] as int, 32);
    assert b[0] as int == running * 32 + Quot(size, 256);
  }

  lemma ReadParts(s: Bytes, h: Bytes, loop: Bytes, t: Bytes, end: nat)
    requires |h| == 26 && GetU12(h, 24) == |loop|
    requires end == 26 + |loop| && |t| == end + 4 && t[..end] == h + loop
    ensures 26 + GetU12(t, 24) == |t| - 4 && EventLoop(t) == loop
    ensures t[0] == h[0] && t[1] == h[1] && GetU12(t, 1) == GetU12(h, 1) && t[24] == h[24]
    ensures GetU16(t, 3) == GetU16(h, 3) && GetU16(t, 8) == GetU16(h, 8) && GetU16(t, 10) == GetU16(h, 10)
    ensures t[5] == h[5] && t[6..8] == h[6..8] && t[12..14] == h[12..14] && t[14..24] == h[14..24]
  {
    assert t[..26] == t[..end][..26] == h;
    assert t[26..end] == t[..end][26..] == loop;
    assert t[6..8] == t[..26][6..8] && t[12..14] == t[..26][12..14] && t[14..24] == t[..26][14..24];
    assert t[24] == h[24] && t[25] == h[25];
  }

  lemma HeadEnd(s: Bytes, ids: Ids, size: nat, running: nat)
    requires |s| >= 24 && ValidIds(ids) && size <= SECTION_SIZE - 30 && running < 8
    ensures var h := EitHead(s, ids, size, running);
            GetU12(h, 24) == size && Quot(h[24] as int, 32) == running && Rem(h[24] as int, 32) < 16
  {
    LoopHeader(running, size, U16(running * 0x2000 + size));
    assert EitHead(s, ids, size, running)[24..26] == U16(running * 0x2000 + size);
  }

  /** The fields in front of the loop, and the loop. */
  lemma RewrittenParts(s: Bytes, ids: Ids, onid: int)
    requires Rewritable(s, onid) && ValidIds(ids)
    ensures var t, loop := Rewritten(s, ids, onid), LoopBytes(EventLoop(s), 0, RecodedNetwork(onid), []);
            && 30 <= |t| && Quot(t[1] as int, 16) == 0xf && GetU12(t, 1) == |t| - 3 && Crc(t, 0xffffffff) == 0
            && 26 + GetU12(t, 24) == |t| - 4 && EventLoop(t) == loop
            && t[0] == s[0] && GetU16(t, 3) == ids.service && t[5] == s[5] && t[6..8] == s[6..8]
            && GetU16(t, 8) == ids.tsid && GetU16(t, 10) == ids.onid && t[12..14] == s[12..14] && t[14..24] == s[14..24]
            && Quot(t[24] as int, 32) == Quot(s[24] as int, 32) && Rem(t[24] as int, 32) < 16
  {
    hide Crc;
    var recode := RecodedNetwork(onid);
    var loop := LoopBytes(EventLoop(s), 0, recode, []);
    var running := Quot(s[24] as int, 32);
    RunningBits(s[24]);
    var h, t := EitHead(s, ids, |loop|, running), Rewritten(s, ids, onid);
    HeadFields(s, ids, |loop|, running);
    HeadEnd(s, ids, |loop|, running);
    SealedCrc(h + loop);
    assert t[..26 + |loop|] == h + loop;
    ReadParts(s, h, loop, t, 26 + |loop|);
  }

  /**
   * The rebuilt section has the right length and CRC, and a receiver reads from it the same
   * event, with the new identifiers, marked as free, and with exactly the rewritten descriptors,
   * if and only if the prefixes fit every received short event; and then name, text and all other
   * descriptors of the event are what they were, marked on the two networks.
   */
  lemma RewrittenRead(s: Bytes, ids: Ids, onid: int)
    requires Rewritable(s, onid) && ValidIds(ids)
    ensures var t := Rewritten(s, ids, onid);
            && 30 <= |t| && Quot(t[1] as int, 16) == 0xf && GetU12(t, 1) == |t| - 3 && Crc(t, 0xffffffff) == 0
            && 26 + GetU12(t, 24) == |t| - 4
    ensures var t := Rewritten(s, ids, onid);
            (IsEventTable(t)
             && ReadEvent(t) == ReadEvent(s).(service := ids.service, tsid := ids.tsid, onid := ids.onid,
                  free := true,
                  descriptors := RewriteAll(Parse(EventLoop(s), 0), RecodedNetwork(onid), []).0))
            <==> AllShortEnough(Parse(EventLoop(s), 0), RecodedNetwork(onid))
    ensures AllShortEnough(Parse(EventLoop(s), 0), RecodedNetwork(onid)) ==>
              var t := Rewritten(s, ids, onid);
              IsEventTable(t)
              && AllReworded(Parse(EventLoop(s), 0), ReadEvent(t).descriptors, onid == 0x0001 || onid == 0x0085)
  {
    RewrittenParts(s, ids, onid);
    LoopReadBackIff(EventLoop(s), RecodedNetwork(onid), []);
    if AllShortEnough(Parse(EventLoop(s), 0), RecodedNetwork(onid)) {
      LoopMeans(EventLoop(s), 0, RecodedNetwork(onid), []);
    }
    hide Crc, Rewritten, LoopBytes, Tiled, Parse, AllFit, RewriteAll, AllShortEnough, AllReworded;
  }

  /** The first five stores of rewrite_eit. */
  lemma CopiedHead(b: Bytes, s: Bytes, ids: Ids, c: Bytes)
    requires |s| >= 26 && ValidIds(ids) && |b| == SECTION_SIZE
    requires c == Store(Store(Store(Store(Store(b,
                    0, s[..14]), 3, U16(ids.service)), 8, U16(ids.tsid)), 10, U16(ids.onid)), 14, s[14..24])
    ensures |c| == SECTION_SIZE
    ensures c[..24] == s[..3] + U16(ids.service) + s[5..8] + U16(ids.tsid) + U16(ids.onid) + s[12..24]
  {
    var b1 := Store(b, 0, s[..14]);
    var b2 := Store(b1, 3, U16(ids.service));
    var b3 := Store(b2, 8, U16(ids.tsid));
    var b4 := Store(b3, 10, U16(ids.onid));
    assert b1[..14] == s[..14];
    assert b2[..14] == s[..3] + U16(ids.service) + s[5..14];
    assert b2[..8] == s[..3] + U16(ids.service) + s[5..8] && b2[10..14] == s[10..14];
    assert b3[..14] == b2[..8] + U16(ids.tsid) + b2[10..14];
    assert b3[..14] == s[..3] + U16(ids.service) + s[5..8] + U16(ids.tsid) + s[10..14];
    assert b4[..14] == s[..3] + U16(ids.service) + s[5..8] + U16(ids.tsid) + U16(ids.onid) + s[12..14];
    assert c[..24] == b4[..14] + s[14..24];
    assert s[12..14] + s[14..24] == s[12..24];
  }

  /** The loop and the two lengths. */
  lemma BackFilled(c: Bytes, loop: Bytes, u: Bytes, v: Bytes, end: nat)
    requires |c| == SECTION_SIZE && end == 26 + |loop| <= |c| && |u| == |v| == 2
    ensures Store(Store(Store(c, 26, loop), 24, u), 1, v)[..end]
         == [c[0]] + v + c[3..24] + u + loop
  {
    var c1 := Store(c, 26, loop);
    var c2 := Store(c1, 24, u);
    assert c1[..end] == c[..26] + loop;
    assert c2[..end] == c[..24] + u + loop;
    assert Store(c2, 1, v)[..end] == [c2[0]] + v + c2[3..end];
    assert c2[3..end] == c[3..24] + u + loop;
  }

  lemma HeadPieces(c: Bytes, s: Bytes, ids: Ids, size: nat, running: nat, loop: Bytes, end: nat)
    requires |s| >= 26 && ValidIds(ids) && size == |loop| <= SECTION_SIZE - 30 && running < 8
    requires |c| == SECTION_SIZE && end == 26 + size
    requires c[..24] == s[..3] + U16(ids.service) + s[5..8] + U16(ids.tsid) + U16(ids.onid) + s[12..24]
    ensures Store(Store(Store(c, 26, loop), 24, U16(running * 0x2000 + size)), 1, U16(0xf000 + (size + 27)))[..end]
         == EitHead(s, ids, size, running) + loop
  {
    BackFilled(c, loop, U16(running * 0x2000 + size), U16(0xf000 + (size + 27)), end);
    assert c[0] == c[..24][0] == s[0];
    assert c[3..24] == c[..24][3..]
        == U16(ids.service) + s[5..8] + U16(ids.tsid) + U16(ids.onid) + s[12..24];
  }

  // ----- Sections with and without an event -----

  /** A section with an event is rewritten as it is, whatever lies behind it in its buffer. */
  lemma ClearedEvent(s: Bytes)
    requires IsEventTable(s) && |s| <= SECTION_SIZE
    ensures IsEventTable(Cleared(s)) && ReadEvent(Cleared(s)) == ReadEvent(s) && EventLoop(Cleared(s)) == EventLoop(s)
  {
    var b := Cleared(s);
    assert forall i :: 0 <= i < |s| ==> b[i] == s[i];
    assert EventLoop(b) == b[..|s|][26..26 + GetU12(s, 24)] == EventLoop(s);
    assert b[6..8] == s[6..8] && b[12..14] == s[12..14] && b[14..24] == s[14..24];
  }

  /**
   * A section without an event is rewritten too, from its CRC and the clear bytes behind it: a
   * receiver then reads an event that was never announced, with the CRC for its number and its
   * date, and no descriptors.
   */
  lemma NoEventRead(s: Bytes, ids: Ids, onid: int)
    requires |s| == 18 && ValidIds(ids)
    ensures Rewritable(Cleared(s), onid)
    ensures var t := Rewritten(Cleared(s), ids, onid);
            && IsEventTable(t) && |t| == 30 && GetU12(t, 1) == 27 && Crc(t, 0xffffffff) == 0
            && ReadEvent(t) == EventTable(s[0], ids.service, s[5], s[6..8], ids.tsid, ids.onid, s[12..14],
                                          s[14..18] + Fill(6, 0), 0, true, [])
  {
    hide Crc;
    var b := Cleared(s);
    EmptyLoop(s);
    assert LoopBytes([], 0, RecodedNetwork(onid), []) == [] && Parse([], 0) == [];
    RewrittenParts(b, ids, onid);
    var t := Rewritten(b, ids, onid);
    assert b[6..8] == s[6..8] && b[12..14] == s[12..14] && b[14..24] == s[14..18] + Fill(6, 0);
  }

  lemma EmptyLoop(s: Bytes)
    requires |s| == 18
    ensures GetU12(Cleared(s), 24) == 0 && EventLoop(Cleared(s)) == [] && Quot(Cleared(s)[24] as int, 32) == 0
  {
    assert Cleared(s)[24] == Cleared(s)[25] == 0;
    assert Rem(0, 16) == 0 && Quot(0, 32) == 0;
  }

  /**
   * rewrite_eit: fails, leaving everything alone, if the section is for another service. It works
   * on the buffer, without regard to the length of the section.
   */
  method RewriteEit(newEit: Section, eit: Section, oldService: nat, ids: Ids, onid: int) returns (ok: bool)
    requires eit.buf.Length == newEit.buf.Length == SECTION_SIZE && newEit != eit && newEit.buf != eit.buf
    requires ValidIds(ids)
    requires GetU16(eit.buf[..], 3) == oldService ==> Rewritable(eit.buf[..], onid)
    modifies newEit`length, newEit.buf
    ensures ok <==> GetU16(eit.buf[..], 3) == oldService
    ensures !ok ==> newEit.length == old(newEit.length) && newEit.buf[..] == old(newEit.buf[..])
    ensures ok ==> newEit.length <= SECTION_SIZE
    ensures ok ==> newEit.buf[..newEit.length] == Rewritten(eit.buf[..], ids, onid)
  {
    var s, newbuf := eit.buf[..], newEit.buf;
    if GetU16(s, 3) != oldService {
      return false;
    }
    RunningBits(s[24]);
    var runningStatus := Quot(s[24] as int, 32);
    var n := PutEvent(newbuf, s, ids, onid, runningStatus);
    PutCrc(newbuf, 26 + n);
    newEit.length := 26 + n + 4;
    return true;
  }

  /** The fields and the descriptors, in the order in which rewrite_eit stores them. */
  method PutEvent(newbuf: array<byte>, s: Bytes, ids: Ids, onid: int, running: nat) returns (n: nat)
    requires Rewritable(s, onid) && ValidIds(ids) && running < 8 && newbuf.Length == SECTION_SIZE
    modifies newbuf
    ensures n == |LoopBytes(EventLoop(s), 0, RecodedNetwork(onid), [])| <= SECTION_SIZE - 30
    ensures newbuf[..26 + n] == EitHead(s, ids, n, running) + LoopBytes(EventLoop(s), 0, RecodedNetwork(onid), [])
  {
    ghost var b, loop := newbuf[..], LoopBytes(EventLoop(s), 0, RecodedNetwork(onid), []);
    MemCpy(newbuf, 0, s[..14]);
    MemCpy(newbuf, 3, U16(ids.service));
    MemCpy(newbuf, 8, U16(ids.tsid));
    MemCpy(newbuf, 10, U16(ids.onid));
    MemCpy(newbuf, 14, s[14..24]);
    ghost var c := newbuf[..];
    CopiedHead(b, s, ids, c);
    n := CopyEitDescriptors(newbuf, 26, EventLoop(s), onid);
    MemCpy(newbuf, 24, U16(running * 0x2000 + n));
    MemCpy(newbuf, 1, U16(0xf000 + (n + 27)));
    HeadPieces(c, s, ids, n, running, loop, 26 + n);
  }
}
