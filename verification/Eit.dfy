/** Rewriting the event information table: descriptors, text spill, and the section. */
module Eit {
  import opened Bytes
  import opened Descriptors
  import opened Text

  const SHORT_EVENT: byte := 0x4d
  const EXTENDED_EVENT: byte := 0x4e

  /** The networks whose text is marked as ISO 8859-1. */
  predicate RecodedNetwork(onid: int) { onid == 0x0001 || onid == 0x0085 }

  // ----- The intended rewriting of one descriptor -----

  /** short_event_descriptor: language, event name, text. */
  predicate IsShortEvent(b: Bytes) {
    && 5 <= |b| < 256 && 4 + b[3] as int < |b|
    && 5 + b[3] as int + b[4 + b[3] as int] as int <= |b|
  }

  function EventName(b: Bytes): Bytes
    requires IsShortEvent(b)
  {
    TextAt(b, 3)
  }

  function EventText(b: Bytes): Bytes
    requires IsShortEvent(b)
  {
    TextAt(b, 4 + b[3] as int)
  }

  function RecodedShort(b: Bytes): Bytes
    requires IsShortEvent(b)
  {
    b[..3] + Recoded(EventName(b)) + Recoded(EventText(b))
  }

  function PrefixSize(text: Bytes): nat { if text == [] then 0 else 3 }

  /** A short event that has room for the prefixes of its texts. */
  predicate ShortEnough(d: Descriptor, recode: bool) {
    recode && d.tag == SHORT_EVENT && IsShortEvent(d.body) ==>
      5 + |EventName(d.body)| + PrefixSize(EventName(d.body))
        + |EventText(d.body)| + PrefixSize(EventText(d.body)) <= 255
  }

  /** extended_event_descriptor: number and language, items, text. */
  predicate IsExtendedEvent(b: Bytes) {
    && 6 <= |b| < 256 && 5 + b[4] as int < |b|
    && 6 + b[4] as int + b[5 + b[4] as int] as int <= |b|
  }

  /** The offset of the text field. */
  function TextField(b: Bytes): (q: nat)
    requires IsExtendedEvent(b)
    ensures 5 <= q < |b| && q + 1 + b[q] as int <= |b|
  {
    5 + b[4] as int
  }

  function ExtendedText(b: Bytes): Bytes
    requires IsExtendedEvent(b)
  {
    TextAt(b, TextField(b))
  }

  /** The room for text: the descriptor is kept to 253 bytes. */
  function MaxText(b: Bytes): int
    requires IsExtendedEvent(b)
  {
    253 - TextField(b) - 1
  }

  predicate ExtendedFits(b: Bytes, spill: Bytes) {
    && IsExtendedEvent(b)
    && SpillFits(ExtendedText(b), spill, MaxText(b))
  }

  function RecodedExtended(b: Bytes, spill: Bytes): (Bytes, Bytes)
    requires ExtendedFits(b, spill)
  {
    var (field, rest) := RecodedSpill(ExtendedText(b), spill, MaxText(b));
    (b[..TextField(b)] + field, rest)
  }

  /** The descriptor can be rewritten with this text still to be placed. */
  predicate Fits(d: Descriptor, recode: bool, spill: Bytes) {
    && |d.body| < 256
    && (recode && d.tag == SHORT_EVENT ==> IsShortEvent(d.body))
    && (recode && d.tag == EXTENDED_EVENT ==> ExtendedFits(d.body, spill))
  }

  /** The new descriptor, and the text that spills into the next extended one. */
  function Rewrite(d: Descriptor, recode: bool, spill: Bytes): (r: (Descriptor, Bytes))
    requires Fits(d, recode, spill)
  {
    if recode && d.tag == SHORT_EVENT then (Descriptor(SHORT_EVENT, RecodedShort(d.body)), spill)
    else if recode && d.tag == EXTENDED_EVENT then
      var (body, rest) := RecodedExtended(d.body, spill);
      (Descriptor(EXTENDED_EVENT, body), rest)
    else (d, spill)
  }

  /** The rewritten descriptor fits its length byte exactly if the prefixes fit the received one. */
  lemma RewriteShortIff(d: Descriptor, recode: bool, spill: Bytes)
    requires Fits(d, recode, spill)
    ensures |Rewrite(d, recode, spill).0.body| < 256 <==> ShortEnough(d, recode)
  {
  }

  /** A rewritten extended descriptor keeps to 253 bytes, and at most five bytes more are spilled. */
  lemma ExtendedSize(d: Descriptor, spill: Bytes)
    requires d.tag == EXTENDED_EVENT && |d.body| < 256 && ExtendedFits(d.body, spill)
    requires d.body[4] as int + |spill| <= 244
    ensures |Rewrite(d, true, spill).0.body| <= 253
    ensures |Rewrite(d, true, spill).1| <= |spill| + 5
  {
  }

  /** Text with the prefix that marks it, unless there is none. */
  ghost predicate Marked(t: Bytes, r: Bytes) {
    r == if t == [] then [] else [0x10, 0x00, 0x01] + t
  }

  /**
   * r is the rewritten d: in a short event, language, name and text are where they were, and name
   * and text are marked; in an extended event everything in front of its text stays, and text that
   * is written is marked; every other descriptor stays as it is.
   */
  ghost predicate Reworded(d: Descriptor, r: Descriptor, recode: bool) {
    && r.tag == d.tag
    && (recode && d.tag == 0x4d ==>
          && IsShortEvent(d.body) && IsShortEvent(r.body) && r.body[..3] == d.body[..3]
          && Marked(EventName(d.body), EventName(r.body)) && Marked(EventText(d.body), EventText(r.body)))
    && (recode && d.tag == 0x4e ==>
          && IsExtendedEvent(d.body) && IsExtendedEvent(r.body)
          && TextField(r.body) == TextField(d.body)
          && r.body[..TextField(d.body)] == d.body[..TextField(d.body)]
          && (ExtendedText(d.body) == [] ==> ExtendedText(r.body) == [])
          && (ExtendedText(d.body) != [] ==>
                |ExtendedText(r.body)| >= 3 && ExtendedText(r.body)[..3] == [0x10, 0x00, 0x01]))
    && (!recode || (d.tag != 0x4d && d.tag != 0x4e) ==> r == d)
  }

  lemma FieldText(t: Bytes)
    requires |t| <= 252
    ensures Recoded(t)[0] as int + 1 == |Recoded(t)|
    ensures Marked(t, Recoded(t)[1..])
  {
  }

  lemma TwoTexts(front: Bytes, n: Bytes, t: Bytes, r: Bytes, q: nat, end: nat)
    requires |front| == 3 && n != [] && n[0] as int + 1 == |n| && t != [] && t[0] as int + 1 == |t|
    requires r == front + n + t && q == 3 + |n| && end == q + |t| < 256
    ensures IsShortEvent(r) && r[..3] == front && EventName(r) == n[1..] && EventText(r) == t[1..]
  {
    assert r[3] == n[0] && r[q] == t[0];
    assert r[4..q] == n[1..];
    assert r[q + 1..end] == t[1..];
  }

  /** A short event that has room for the prefixes is read back with them, name and text in place. */
  lemma ShortEventRead(b: Bytes)
    requires IsShortEvent(b) && ShortEnough(Descriptor(SHORT_EVENT, b), true)
    ensures Reworded(Descriptor(0x4d, b), Descriptor(0x4d, RecodedShort(b)), true)
  {
    var n, t := Recoded(EventName(b)), Recoded(EventText(b));
    FieldText(EventName(b));
    FieldText(EventText(b));
    hide Recoded, Marked;
    TwoTexts(b[..3], n, t, RecodedShort(b), 3 + |n|, 3 + |n| + |t|);
  }

  /** So a descriptor with room for the prefixes becomes what it should. */
  lemma RewriteRead(d: Descriptor, recode: bool, spill: Bytes)
    requires Fits(d, recode, spill) && ShortEnough(d, recode)
    ensures Reworded(d, Rewrite(d, recode, spill).0, recode)
  {
    hide RecodedShort, RecodedExtended, EventName, EventText;
    if recode && d.tag == SHORT_EVENT {
      ShortEventRead(d.body);
    } else if recode && d.tag == EXTENDED_EVENT {
      ExtendedConserves(d.body, spill);
    }
  }

  // ----- Whole loops -----

  /** Descriptor by descriptor. */
  ghost predicate AllReworded(ds: seq<Descriptor>, rs: seq<Descriptor>, recode: bool) {
    |rs| == |ds| && forall i :: 0 <= i < |ds| ==> Reworded(ds[i], rs[i], recode)
  }

  /** The rewriting of a loop means this and nothing else. */
  lemma {:induction false} RewriteAllRead(ds: seq<Descriptor>, recode: bool, spill: Bytes)
    requires AllFit(ds, recode, spill) && AllShortEnough(ds, recode)
    ensures AllReworded(ds, RewriteAll(ds, recode, spill).0, recode)
    decreases |ds|
  {
    hide Fits, Rewrite, ShortEnough, Reworded;
    if ds != [] {
      var (d, s1) := Rewrite(ds[0], recode, spill);
      FrontEnough(ds, recode);
      RewriteRead(ds[0], recode, spill);
      RewriteAllRead(ds[1..], recode, s1);
    }
  }

  ghost predicate AllFit(ds: seq<Descriptor>, recode: bool, spill: Bytes)
    decreases |ds|
  {
    ds == [] || (Fits(ds[0], recode, spill) && AllFit(ds[1..], recode, Rewrite(ds[0], recode, spill).1))
  }

  ghost function RewriteAll(ds: seq<Descriptor>, recode: bool, spill: Bytes): (seq<Descriptor>, Bytes)
    requires AllFit(ds, recode, spill)
    decreases |ds|
  {
    if ds == [] then ([], spill)
    else
      var (d, s1) := Rewrite(ds[0], recode, spill);
      var (rest, s2) := RewriteAll(ds[1..], recode, s1);
      ([d] + rest, s2)
  }

  /** All text of the extended descriptors of a loop, in order. */
  ghost function TextIn(ds: seq<Descriptor>): Bytes {
    if ds == [] then []
    else (if ds[0].tag == EXTENDED_EVENT && IsExtendedEvent(ds[0].body) then ExtendedText(ds[0].body) else [])
         + TextIn(ds[1..])
  }

  /** The same for a rewritten loop: the prefix of a text that is not empty does not belong to it. */
  ghost function TextOut(ds: seq<Descriptor>): Bytes {
    if ds == [] then []
    else (if ds[0].tag == EXTENDED_EVENT && IsExtendedEvent(ds[0].body) then Stripped(ExtendedText(ds[0].body)) else [])
         + TextOut(ds[1..])
  }

  ghost function Stripped(t: Bytes): Bytes {
    if |t| < 3 then [] else t[3..]
  }

  lemma ExtendedConserves(b: Bytes, spill: Bytes)
    requires ExtendedFits(b, spill)
    ensures var (body, rest) := RecodedExtended(b, spill);
            && IsExtendedEvent(body)
            && Stripped(ExtendedText(body)) + rest == spill + ExtendedText(b)
            && body[..TextField(b)] == b[..TextField(b)]
            && (ExtendedText(b) == [] ==> ExtendedText(body) == [])
            && (ExtendedText(b) != [] ==>
                  |ExtendedText(body)| >= 3 && ExtendedText(body)[..3] == [0x10, 0x00, 0x01])
  {
    var (body, rest) := RecodedExtended(b, spill);
    var q, t := TextField(b), ExtendedText(b);
    assert body[4] == b[4];
    assert TextField(body) == q;
    assert body[..q] == b[..q];
    if t == [] {
      assert body[q] == 0;
      assert ExtendedText(body) == [];
    } else {
      var n := Taken(t, spill, MaxText(b));
      assert body[q] as int == 3 + |spill| + n;
      assert ExtendedText(body) == PREFIX + spill + t[..n];
      assert Stripped(ExtendedText(body)) == spill + t[..n];
      assert (spill + t[..n]) + t[n..] == spill + t;
    }
  }

  /**
   * No text is lost and none is made up: the text written to all extended descriptors, without
   * the prefixes, and then the text left over, is the text of all input descriptors in order.
   */
  lemma {:induction false} TextConserved(ds: seq<Descriptor>, spill: Bytes)
    requires AllFit(ds, true, spill)
    ensures TextOut(RewriteAll(ds, true, spill).0) + RewriteAll(ds, true, spill).1 == spill + TextIn(ds)
    decreases |ds|
  {
    if ds == [] {
      assert [] + spill == spill + [];
    } else {
      var (d, s1) := Rewrite(ds[0], true, spill);
      var (rest, s2) := RewriteAll(ds[1..], true, s1);
      TextConserved(ds[1..], s1);
      assert TextOut(rest) + s2 == s1 + TextIn(ds[1..]);
      FrontText(d, rest);
      if d.tag == EXTENDED_EVENT {
        ExtendedConserves(ds[0].body, spill);
        var o, i := Stripped(ExtendedText(d.body)), ExtendedText(ds[0].body);
        Regroup(o, TextOut(rest), s2, s1, TextIn(ds[1..]), spill, i);
      } else {
        assert TextOut([d] + rest) == TextOut(rest);
        assert TextIn(ds) == TextIn(ds[1..]);
      }
    }
  }

  lemma FrontText(d: Descriptor, rest: seq<Descriptor>)
    ensures TextOut([d] + rest)
         == (if d.tag == EXTENDED_EVENT && IsExtendedEvent(d.body) then Stripped(ExtendedText(d.body)) else [])
            + TextOut(rest)
  {
    assert ([d] + rest)[1..] == rest;
  }

  lemma Regroup(o: Bytes, os: Bytes, s2: Bytes, s1: Bytes, ins: Bytes, spill: Bytes, i: Bytes)
    requires os + s2 == s1 + ins && o + s1 == spill + i
    ensures (o + os) + s2 == spill + (i + ins)
  {
    calc {
      (o + os) + s2;
      o + (os + s2);
      o + (s1 + ins);
      (o + s1) + ins;
      (spill + i) + ins;
      spill + (i + ins);
    }
  }

  /** A loop whose descriptors have the form the standard gives them. */
  ghost predicate Standard(ds: seq<Descriptor>) {
    forall i :: 0 <= i < |ds| ==>
      && |ds[i].body| < 256
      && (ds[i].tag == SHORT_EVENT ==> IsShortEvent(ds[i].body))
      && (ds[i].tag == EXTENDED_EVENT ==> IsExtendedEvent(ds[i].body))
  }

  ghost function ExtendedCount(ds: seq<Descriptor>): nat {
    if ds == [] then 0
    else (if ds[0].tag == EXTENDED_EVENT then 1 else 0) + ExtendedCount(ds[1..])
  }

  /** How much text is left over by a descriptor that gets so much from the one before. */
  ghost function NextSpill(d: Descriptor, spill: nat): nat {
    if d.tag == EXTENDED_EVENT && IsExtendedEvent(d.body) && ExtendedText(d.body) != [] then
      var load := spill + d.body[4] as int + |ExtendedText(d.body)|;
      if load <= 244 then 0 else load - 244
    else spill
  }

  /** The text left over before descriptor k. */
  ghost function SpillBefore(ds: seq<Descriptor>, k: nat, spill: nat): nat
    requires k <= |ds|
  {
    if k == 0 then spill else NextSpill(ds[k - 1], SpillBefore(ds, k - 1, spill))
  }

  /** The items of descriptor k and what is left over before it keep to 244 bytes, if it has text. */
  ghost predicate RoomAt(ds: seq<Descriptor>, k: nat, spill: nat)
    requires k < |ds|
  {
    ds[k].tag == EXTENDED_EVENT && IsExtendedEvent(ds[k].body) && ExtendedText(ds[k].body) != [] ==>
      ds[k].body[4] as int + SpillBefore(ds, k, spill) <= 244
  }

  /** A descriptor can be rewritten exactly if it has that room. */
  lemma FitsIff(d: Descriptor, spill: Bytes)
    requires Standard([d]) && |spill| <= 123
    ensures Fits(d, true, spill) <==> RoomAt([d], 0, |spill|)
    ensures Fits(d, true, spill) ==> |Rewrite(d, true, spill).1| == NextSpill(d, |spill|)
    ensures Fits(d, true, spill) ==>
              |Rewrite(d, true, spill).1| <= |spill| + if d.tag == EXTENDED_EVENT then 5 else 0
  {
    assert [d][0] == d;
  }

  lemma {:induction false} SpillBehind(d: Descriptor, ds: seq<Descriptor>, k: nat, spill: nat)
    requires k <= |ds|
    ensures SpillBefore([d] + ds, k + 1, spill) == SpillBefore(ds, k, NextSpill(d, spill))
  {
    if k > 0 {
      SpillBehind(d, ds, k - 1, spill);
    } else {
      assert SpillBefore([d] + ds, 0, spill) == spill;
    }
  }

  lemma RoomBehind(d: Descriptor, ds: seq<Descriptor>, k: nat, spill: nat)
    requires k < |ds|
    ensures RoomAt([d] + ds, k + 1, spill) == RoomAt(ds, k, NextSpill(d, spill))
  {
    SpillBehind(d, ds, k, spill);
  }

  lemma RoomFront(ds: seq<Descriptor>, spill: nat)
    requires ds != []
    ensures RoomAt(ds, 0, spill) == RoomAt([ds[0]], 0, spill)
    ensures (forall k: nat :: k < |ds| ==> RoomAt(ds, k, spill))
        <==> RoomAt(ds, 0, spill) && forall k: nat :: k < |ds| - 1 ==> RoomAt(ds[1..], k, NextSpill(ds[0], spill))
  {
    var rest := ds[1..];
    assert ds == [ds[0]] + rest;
    forall k: nat | k < |rest| ensures RoomAt(ds, k + 1, spill) == RoomAt(rest, k, NextSpill(ds[0], spill)) {
      RoomBehind(ds[0], rest, k, spill);
    }
    if forall k: nat :: k < |ds| - 1 ==> RoomAt(rest, k, NextSpill(ds[0], spill)) {
      forall k: nat | 0 < k < |ds| ensures RoomAt(ds, k, spill) {
        assert RoomAt(rest, k - 1, NextSpill(ds[0], spill));
      }
    }
  }

  /**
   * The spill buffer is large enough for the sixteen extended descriptors that a four-bit
   * descriptor number allows: the loop can be rewritten exactly if, at each of them that has
   * text, its items and the text left over before it keep to 244 bytes.
   */
  lemma {:induction false} SixteenFitIff(ds: seq<Descriptor>, spill: Bytes, used: nat)
    requires Standard(ds) && used + ExtendedCount(ds) <= 16 && |spill| <= 5 * used
    ensures AllFit(ds, true, spill) <==> forall k: nat :: k < |ds| ==> RoomAt(ds, k, |spill|)
    decreases |ds|
  {
    hide RoomAt, Fits, Rewrite, SpillBefore;
    if ds != [] {
      RoomFront(ds, |spill|);
      assert Standard([ds[0]]) && Standard(ds[1..]);
      FitsIff(ds[0], spill);
      if Fits(ds[0], true, spill) {
        var more := if ds[0].tag == EXTENDED_EVENT then 1 else 0;
        SixteenFitIff(ds[1..], Rewrite(ds[0], true, spill).1, used + more);
      }
    }
  }

  lemma {:induction false} SpillGrows(ds: seq<Descriptor>, k: nat)
    requires Standard(ds) && k <= |ds|
    requires forall j: nat :: j < k ==> RoomAt(ds, j, 0)
    ensures SpillBefore(ds, k, 0) <= 5 * ExtendedCount(ds[..k])
  {
    if k > 0 {
      SpillGrows(ds, k - 1);
      CountNext(ds, k - 1);
      assert RoomAt(ds, k - 1, 0);
    }
  }

  lemma {:induction false} CountNext(ds: seq<Descriptor>, k: nat)
    requires k < |ds|
    ensures ExtendedCount(ds[..k + 1]) == ExtendedCount(ds[..k]) + if ds[k].tag == EXTENDED_EVENT then 1 else 0
  {
    if k == 0 {
      assert ds[..1] == [ds[0]] && ds[..0] == [] && [ds[0]][1..] == [];
    } else {
      assert ds[..k + 1][1..] == ds[1..][..k] && ds[..k][1..] == ds[1..][..k - 1];
      CountNext(ds[1..], k - 1);
    }
  }

  /** It is enough that the items leave five bytes for every extended descriptor before. */
  lemma {:induction false} ItemsFit(ds: seq<Descriptor>, k: nat)
    requires Standard(ds) && k <= |ds|
    requires forall j: nat :: j < |ds| && ds[j].tag == EXTENDED_EVENT ==>
               ds[j].body[4] as int + 5 * ExtendedCount(ds[..j]) <= 244
    ensures forall j: nat :: j < k ==> RoomAt(ds, j, 0)
  {
    if k > 0 {
      ItemsFit(ds, k - 1);
      SpillGrows(ds, k - 1);
    }
  }

  // ----- The bytes of a loop -----

  /** What copy_eit_descriptors writes for the loop from offset i on. */
  ghost function LoopBytes(s: Bytes, i: nat, recode: bool, spill: Bytes): Bytes
    requires Tiled(s, i) && AllFit(Parse(s, i), recode, spill)
    decreases |s| - i
  {
    if i == |s| then []
    else
      var (d, rest) := Rewrite(At(s, i), recode, spill);
      LoopTurn(s, i, recode, spill);
      Encode(d) + LoopBytes(s, Next(s, i), recode, rest)
  }

  lemma LoopTurn(s: Bytes, i: nat, recode: bool, spill: Bytes)
    requires Tiled(s, i) && i < |s| && AllFit(Parse(s, i), recode, spill)
    ensures i + 2 <= |s| && Next(s, i) <= |s| && Tiled(s, Next(s, i)) && Fits(At(s, i), recode, spill)
    ensures AllFit(Parse(s, Next(s, i)), recode, Rewrite(At(s, i), recode, spill).1)
  {
    assert Parse(s, i)[1..] == Parse(s, Next(s, i));
  }

  ghost predicate AllShortEnough(ds: seq<Descriptor>, recode: bool) {
    forall i :: 0 <= i < |ds| ==> ShortEnough(ds[i], recode)
  }

  lemma {:induction false} AllShortIff(ds: seq<Descriptor>, recode: bool, spill: Bytes)
    requires AllFit(ds, recode, spill)
    ensures AllShort(RewriteAll(ds, recode, spill).0) <==> AllShortEnough(ds, recode)
    decreases |ds|
  {
    hide Fits, Rewrite, ShortEnough;
    if ds != [] {
      var (d, rest) := Rewrite(ds[0], recode, spill);
      RewriteShortIff(ds[0], recode, spill);
      AllShortIff(ds[1..], recode, rest);
      FrontShort(d, RewriteAll(ds[1..], recode, rest).0);
      FrontEnough(ds, recode);
    }
  }

  lemma FrontShort(d: Descriptor, ds: seq<Descriptor>)
    ensures AllShort([d] + ds) <==> |d.body| < 256 && AllShort(ds)
  {
    if AllShort([d] + ds) {
      forall i | 0 <= i < |ds| ensures |ds[i].body| < 256 {
        assert ([d] + ds)[i + 1] == ds[i];
      }
      assert ([d] + ds)[0] == d;
    }
  }

  lemma FrontEnough(ds: seq<Descriptor>, recode: bool)
    requires ds != []
    ensures AllShortEnough(ds, recode) <==> ShortEnough(ds[0], recode) && AllShortEnough(ds[1..], recode)
  {
    hide ShortEnough;
    if AllShortEnough(ds, recode) {
      forall i | 0 <= i < |ds[1..]| ensures ShortEnough(ds[1..][i], recode) {
        assert ds[1..][i] == ds[i + 1];
      }
    }
  }

  lemma {:induction false} LoopBytesParse(s: Bytes, i: nat, recode: bool, spill: Bytes)
    requires Tiled(s, i) && AllFit(Parse(s, i), recode, spill) && AllShortEnough(Parse(s, i), recode)
    ensures Tiled(LoopBytes(s, i, recode, spill), 0)
    ensures Parse(LoopBytes(s, i, recode, spill), 0) == RewriteAll(Parse(s, i), recode, spill).0
    decreases |s| - i
  {
    if i < |s| {
      hide ShortEnough, Rewrite, Fits, Encode;
      var (d, rest) := Rewrite(At(s, i), recode, spill);
      LoopTurn(s, i, recode, spill);
      assert Parse(s, i)[0] == At(s, i) && Parse(s, i)[1..] == Parse(s, Next(s, i));
      FrontEnough(Parse(s, i), recode);
      RewriteShortIff(At(s, i), recode, spill);
      LoopBytesParse(s, Next(s, i), recode, rest);
      ParseFront(d, LoopBytes(s, Next(s, i), recode, rest));
    }
  }

  /** And then they mean what they should. */
  lemma LoopMeans(s: Bytes, i: nat, recode: bool, spill: Bytes)
    requires Tiled(s, i) && AllFit(Parse(s, i), recode, spill) && AllShortEnough(Parse(s, i), recode)
    ensures Tiled(LoopBytes(s, i, recode, spill), 0)
    ensures AllReworded(Parse(s, i), Parse(LoopBytes(s, i, recode, spill), 0), recode)
  {
    hide *;
    LoopBytesParse(s, i, recode, spill);
    RewriteAllRead(Parse(s, i), recode, spill);
  }

  /**
   * The written bytes are a loop again that holds exactly the rewritten descriptors, if and only
   * if the prefixes fit every received short event.
   */
  lemma LoopReadBackIff(s: Bytes, recode: bool, spill: Bytes)
    requires Tiled(s, 0) && AllFit(Parse(s, 0), recode, spill)
    ensures var loop := LoopBytes(s, 0, recode, spill);
            (Tiled(loop, 0) && Parse(loop, 0) == RewriteAll(Parse(s, 0), recode, spill).0)
            <==> AllShortEnough(Parse(s, 0), recode)
  {
    var loop := LoopBytes(s, 0, recode, spill);
    hide AllFit, RewriteAll, AllShort;
    AllShortIff(Parse(s, 0), recode, spill);
    if AllShortEnough(Parse(s, 0), recode) {
      LoopBytesParse(s, 0, recode, spill);
    } else if Tiled(loop, 0) {
      ParsedIsShort(loop, 0);
    }
  }

  /** A short event of 250 bytes, with a name of one byte, that does not come back. */
  function LongShortEvent(): (b: Bytes) {
    [0x65, 0x6e, 0x67, 1, 0x41, 244] + Fill(244, 0x42)
  }

  lemma LongShortEventFails()
    ensures var s := [SHORT_EVENT, 250] + LongShortEvent();
            && Tiled(s, 0) && Standard(Parse(s, 0)) && AllFit(Parse(s, 0), true, [])
            && !(Tiled(LoopBytes(s, 0, true, []), 0)
                 && Parse(LoopBytes(s, 0, true, []), 0) == RewriteAll(Parse(s, 0), true, []).0)
  {
    var b := LongShortEvent();
    var s := [SHORT_EVENT, 250] + b;
    assert |b| == 250 && b[3] == 1 && b[5] == 244;
    assert Next(s, 0) == |s| && s[2..] == b && At(s, 0) == Descriptor(SHORT_EVENT, b);
    assert Parse(s, 0) == [Descriptor(SHORT_EVENT, b)];
    assert Parse(s, 0)[1..] == [];
    assert IsShortEvent(b) && !ShortEnough(Parse(s, 0)[0], true);
    LoopReadBackIff(s, true, []);
  }

  /** A descriptor is written with some length, extended by a field, and given its final length. */
  lemma Lengthened(b: Bytes, at: nat, tag: byte, was: byte, front: Bytes, field: Bytes, p: nat, size: byte)
    requires p == at + 2 + |front| && p + |field| <= |b|
    ensures Store(Store(Store(b, at, [tag, was] + front), p, field), at + 1, [size])
         == Store(b, at, [tag, size] + (front + field))
  {
  }

  /** Back-fills the length of the descriptor that ends behind field. */
  method PutLength(dst: array<byte>, at: nat, end: nat, ghost before: Bytes, ghost tag: byte, ghost was: byte,
                   ghost front: Bytes, ghost field: Bytes)
    returns (n: nat)
    requires at + 2 + |front| + |field| == end <= dst.Length == |before|
    requires dst[..] == Store(Store(before, at, [tag, was] + front), at + 2 + |front|, field)
    modifies dst
    ensures n == end - at
    ensures dst[..] == Store(before, at, Encode(Descriptor(tag, front + field)))
  {
    n := end - at;
    Lengthened(before, at, tag, was, front, field, at + 2 + |front|, Rem(n - 2, 256));
    MemCpy(dst, at + 1, [Rem(n - 2, 256)]);
  }

  /** The branch of copy_eit_descriptors for a short event: the length is filled in last. */
  method PutShort(dst: array<byte>, at: nat, b: Bytes) returns (n: nat)
    requires IsShortEvent(b) && at + 2 + |RecodedShort(b)| <= dst.Length
    modifies dst
    ensures n == 2 + |RecodedShort(b)|
    ensures dst[..] == Store(old(dst[..]), at, Encode(Descriptor(SHORT_EVENT, RecodedShort(b))))
  {
    var name, text := EventName(b), EventText(b);
    ghost var before := dst[..];
    ghost var front, field := [SHORT_EVENT, 0] + b[..3], Recoded(name);
    var q := at + 5;
    MemCpy(dst, at, [SHORT_EVENT, 0] + b[..3]);
    var size := RecodeText(dst, q, name);
    var p := q + size as int + 1;
    StoreNext(before, at, front, field);
    AppendAssociative([SHORT_EVENT, 0], b[..3], field);
    size := RecodeText(dst, p, text);
    n := PutLength(dst, at, p + size as int + 1, before, SHORT_EVENT, 0, b[..3] + field, Recoded(text));
  }

  lemma ExtendedParts(b: Bytes, spill: Bytes)
    requires ExtendedFits(b, spill)
    ensures RecodedExtended(b, spill).0 == b[..TextField(b)] + RecodedSpill(ExtendedText(b), spill, MaxText(b)).0
    ensures RecodedExtended(b, spill).1 == RecodedSpill(ExtendedText(b), spill, MaxText(b)).1
  {
  }

  /** The branch for an extended event: everything up to the text is copied. */
  method PutExtended(dst: array<byte>, at: nat, b: Bytes, overflow: Chunk) returns (n: nat)
    requires overflow.Valid() && dst != overflow.buf && ExtendedFits(b, overflow.Content()) && |b| < 256
    requires at + 2 + |RecodedExtended(b, overflow.Content()).0| <= dst.Length
    modifies dst, overflow`len, overflow.buf
    ensures overflow.Valid()
    ensures var r := RecodedExtended(b, old(overflow.Content()));
            && n == 2 + |r.0| && overflow.Content() == r.1
            && dst[..] == Store(old(dst[..]), at, Encode(Descriptor(EXTENDED_EVENT, r.0)))
  {
    ghost var before := dst[..];
    var q := TextField(b);
    ExtendedParts(b, overflow.Content());
    hide RecodedExtended, Store, Encode;
    CopyFront(dst, at, b, q);
    n := PutSpilledText(dst, at, b, q, overflow, before);
  }

  /** The text behind the items, and the final length. */
  method PutSpilledText(dst: array<byte>, at: nat, b: Bytes, q: nat, overflow: Chunk, ghost before: Bytes)
    returns (n: nat)
    requires overflow.Valid() && dst != overflow.buf && ExtendedFits(b, overflow.Content()) && |b| < 256
    requires q == TextField(b) && |before| == dst.Length
    requires var field := RecodedSpill(ExtendedText(b), overflow.Content(), MaxText(b)).0;
             at + 2 + q + |field| <= dst.Length
    requires dst[..] == Store(before, at, [EXTENDED_EVENT, |b|] + b[..q])
    modifies dst, overflow`len, overflow.buf
    ensures overflow.Valid()
    ensures var r := RecodedSpill(ExtendedText(b), old(overflow.Content()), MaxText(b));
            && n == 2 + |b[..q] + r.0| && overflow.Content() == r.1
            && dst[..] == Store(before, at, Encode(Descriptor(EXTENDED_EVENT, b[..q] + r.0)))
  {
    var p, text := at + 2 + q, ExtendedText(b);
    var maxSize := 253 - (p - at - 2) - 1;
    hide RecodedSpill, SpillFits, Store, Encode, TextAt;
    ghost var field := RecodedSpill(text, overflow.Content(), maxSize).0;
    var size := RecodeTextSpill(dst, p, text, maxSize, overflow);
    n := PutLength(dst, at, p + size as int + 1, before, EXTENDED_EVENT, |b|, b[..q], field);
  }

  /** The first six bytes, and then the items. */
  method CopyFront(dst: array<byte>, at: nat, b: Bytes, q: nat)
    requires 4 <= q <= |b| < 256 && at + 2 + q <= dst.Length
    modifies dst
    ensures dst[..] == Store(old(dst[..]), at, [EXTENDED_EVENT, |b|] + b[..q])
  {
    StoreNext(dst[..], at, [EXTENDED_EVENT, |b|] + b[..4], b[4..q]);
    assert [EXTENDED_EVENT, |b|] + b[..4] + b[4..q] == [EXTENDED_EVENT, |b|] + b[..q];
    MemCpy(dst, at, [EXTENDED_EVENT, |b|] + b[..4]);
    MemCpy(dst, at + 6, b[4..q]);
  }

  /** One turn of the loop. */
  method PutDescriptor(dst: array<byte>, at: nat, src: Bytes, i: nat, recode: bool, overflow: Chunk) returns (n: nat)
    requires i + 2 <= |src| && Next(src, i) <= |src| && overflow.Valid() && dst != overflow.buf
    requires Fits(At(src, i), recode, overflow.Content())
    requires at + 2 + |Rewrite(At(src, i), recode, overflow.Content()).0.body| <= dst.Length
    modifies dst, overflow`len, overflow.buf
    ensures overflow.Valid()
    ensures var r := Rewrite(At(src, i), recode, old(overflow.Content()));
            && n == 2 + |r.0.body| && overflow.Content() == r.1
            && dst[..] == Store(old(dst[..]), at, Encode(r.0))
  {
    var d := At(src, i);
    if recode && d.tag == SHORT_EVENT {
      n := PutShort(dst, at, d.body);
    } else if recode && d.tag == EXTENDED_EVENT {
      n := PutExtended(dst, at, d.body, overflow);
    } else {
      EncodeAt(src, i);
      MemCpy(dst, at, src[i..Next(src, i)]);
      n := Next(src, i) - i;
    }
  }

  /** done and spill are what the loop has written and kept when it has come to offset i. */
  ghost predicate Progress(src: Bytes, i: nat, recode: bool, done: Bytes, spill: Bytes) {
    && i <= |src| && Tiled(src, 0) && AllFit(Parse(src, 0), recode, [])
    && Tiled(src, i) && AllFit(Parse(src, i), recode, spill)
    && LoopBytes(src, 0, recode, []) == done + LoopBytes(src, i, recode, spill)
  }

  lemma ProgressTurn(src: Bytes, i: nat, recode: bool, done: Bytes, spill: Bytes)
    returns (r: (Descriptor, Bytes), piece: Bytes)
    requires Progress(src, i, recode, done, spill) && i < |src|
    ensures i + 2 <= |src| && Next(src, i) <= |src| && Fits(At(src, i), recode, spill)
    ensures r == Rewrite(At(src, i), recode, spill) && piece == Encode(r.0)
    ensures |piece| == 2 + |r.0.body| && |done| + |piece| <= |LoopBytes(src, 0, recode, [])|
    ensures Progress(src, Next(src, i), recode, done + piece, r.1)
  {
    r := Rewrite(At(src, i), recode, spill);
    var (d, rest) := Rewrite(At(src, i), recode, spill);
    LoopTurn(src, i, recode, spill);
    piece := Encode(d);
    AppendAssociative(done, piece, LoopBytes(src, Next(src, i), recode, rest));
  }

  lemma ProgressBegins(src: Bytes, recode: bool)
    requires Tiled(src, 0) && AllFit(Parse(src, 0), recode, [])
    ensures Progress(src, 0, recode, [], [])
  {
  }

  lemma ProgressDone(src: Bytes, recode: bool, done: Bytes, spill: Bytes)
    requires Progress(src, |src|, recode, done, spill)
    ensures done == LoopBytes(src, 0, recode, [])
  {
    assert done + [] == done;
  }

  /** copy_eit_descriptors; text left over at the end of the loop is dropped. */
  method CopyEitDescriptors(dst: array<byte>, at: nat, src: Bytes, onid: int) returns (n: nat)
    requires Tiled(src, 0) && AllFit(Parse(src, 0), RecodedNetwork(onid), [])
    requires at + |LoopBytes(src, 0, RecodedNetwork(onid), [])| <= dst.Length
    modifies dst
    ensures n == |LoopBytes(src, 0, RecodedNetwork(onid), [])|
    ensures dst[..] == Store(old(dst[..]), at, LoopBytes(src, 0, RecodedNetwork(onid), []))
    ensures AllShortEnough(Parse(src, 0), RecodedNetwork(onid)) ==>
              && at + n <= dst.Length && Tiled(dst[at..at + n], 0)
              && AllReworded(Parse(src, 0), Parse(dst[at..at + n], 0), onid == 0x0001 || onid == 0x0085)
  {
    hide AllShortEnough, AllReworded, AllFit, LoopBytes, Store, Parse, Tiled;
    var overflow := new Chunk();
    ghost var before := dst[..];
    n := CopyWithSpill(dst, at, src, RecodedNetwork(onid), overflow);
    StoredAt(before, at, LoopBytes(src, 0, RecodedNetwork(onid), []));
    if AllShortEnough(Parse(src, 0), RecodedNetwork(onid)) {
      LoopMeans(src, 0, RecodedNetwork(onid), []);
    }
  }

  lemma StoredAt(b: Bytes, at: nat, x: Bytes)
    requires at + |x| <= |b|
    ensures Store(b, at, x)[at..at + |x|] == x
  {
  }

  lemma StoreNothing(b: Bytes, at: nat)
    requires at <= |b|
    ensures Store(b, at, []) == b
  {
  }

  /** The loop of copy_eit_descriptors, with its spill buffer. */
  method CopyWithSpill(dst: array<byte>, at: nat, src: Bytes, recode: bool, overflow: Chunk) returns (n: nat)
    requires Tiled(src, 0) && AllFit(Parse(src, 0), recode, [])
    requires at + |LoopBytes(src, 0, recode, [])| <= dst.Length
    requires overflow.Valid() && overflow.Content() == [] && dst != overflow.buf
    modifies dst, overflow`len, overflow.buf
    ensures n == |LoopBytes(src, 0, recode, [])|
    ensures dst[..] == Store(old(dst[..]), at, LoopBytes(src, 0, recode, []))
  {
    hide *;
    var i, p := 0, at;
    ghost var before, done: Bytes, spill: Bytes := dst[..], [], [];
    StoreNothing(before, at);
    ProgressBegins(src, recode);
    while i < |src|
      invariant overflow.Valid() && overflow.Content() == spill
      invariant i <= |src| && Progress(src, i, recode, done, spill) && p == at + |done| <= dst.Length
      invariant dst[..] == Store(before, at, done)
    {
      ghost var r, piece := ProgressTurn(src, i, recode, done, spill);
      StoreNext(before, at, done, piece);
      var size := PutDescriptor(dst, p, src, i, recode, overflow);
      done, spill := done + piece, r.1;
      p := p + size;
      i := Next(src, i);
    }
    ProgressDone(src, recode, done, spill);
    n := p - at;
  }
}
