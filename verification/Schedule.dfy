/** Traces of the multiplexer: what was sent, when it was due and where it went. */
module Schedule {
  import opened Bytes
  import opened Sections

  const PACKET_BITS: nat := 1504

  datatype Kind = OfService(service: nat) | OfPat | OfPmt | OfSdt | OfNit

  /**
   * One thing that was sent: the bit position it was due at, the number of packets that were
   * sent before it, and its own packets.
   */
  datatype Item = Item(kind: Kind, due: nat, slot: nat, packets: seq<Packet>)

  /** The bit position where the item begins. */
  function Start(it: Item): nat { PACKET_BITS * it.slot }

  /** The number of packets sent up to item k. */
  function Before(items: seq<Item>, k: nat): nat
    requires k <= |items|
  {
    if k == 0 then 0 else items[k - 1].slot + |items[k - 1].packets|
  }

  /** The number of packets sent once null packets have brought the output up to due. */
  function Padded(slot: nat, due: nat): (s: nat)
    ensures slot <= s && due <= PACKET_BITS * s
    ensures slot < s ==> PACKET_BITS * (s - 1) < due
    ensures due <= PACKET_BITS * slot ==> s == slot
    decreases due - PACKET_BITS * slot
  {
    if due <= PACKET_BITS * slot then slot else Padded(slot + 1, due)
  }

  /** Item k was sent as soon as it was due and everything before it was sent. */
  ghost predicate SpacedAt(items: seq<Item>, k: nat)
    requires k < |items|
  {
    items[k].slot == Padded(Before(items, k), items[k].due)
  }

  ghost predicate Spaced(items: seq<Item>) {
    forall k: nat | k < |items| :: SpacedAt(items, k)
  }

  /** Items were sent in the order in which they were due, and none is empty. */
  ghost predicate Ordered(items: seq<Item>) {
    && (forall j: nat, k: nat | j <= k < |items| :: items[j].due <= items[k].due)
    && (forall k: nat | k < |items| :: items[k].packets != [])
  }

  // ----- Lateness -----

  /** The packets of items i to j - 1. */
  ghost function Load(items: seq<Item>, i: nat, j: nat): nat
    requires i <= j <= |items|
    decreases j
  {
    if i == j then 0 else Load(items, i, j - 1) + |items[j - 1].packets|
  }

  /** How many packets of the first n items are due from position a to position b. */
  ghost function DueIn(items: seq<Item>, n: nat, a: int, b: int): nat
    requires n <= |items|
  {
    if n == 0 then 0
    else DueIn(items, n - 1, a, b)
         + if a <= items[n - 1].due <= b then |items[n - 1].packets| else 0
  }

  /**
   * In any stretch of time the packets due exceed what the channel carries in that stretch by
   * at most burst packets.
   */
  ghost predicate Bounded(items: seq<Item>, burst: nat) {
    forall a: int, b: int | a <= b :: PACKET_BITS * DueIn(items, |items|, a, b) <= b - a + PACKET_BITS * burst
  }

  lemma {:induction false} DueInMonotone(items: seq<Item>, m: nat, n: nat, a: int, b: int)
    requires m <= n <= |items|
    ensures DueIn(items, m, a, b) <= DueIn(items, n, a, b)
  {
    if m < n {
      DueInMonotone(items, m, n - 1, a, b);
    }
  }

  lemma {:induction false} LoadIsDue(items: seq<Item>, i: nat, j: nat, a: int, b: int)
    requires i <= j <= |items| && forall k: nat | i <= k < j :: a <= items[k].due <= b
    ensures Load(items, i, j) <= DueIn(items, j, a, b)
    decreases j
  {
    if i < j {
      LoadIsDue(items, i, j - 1, a, b);
    }
  }

  /** The last item not after k before which the output was idle, or the very first one. */
  ghost function BusySince(items: seq<Item>, k: nat): (i: nat)
    requires k < |items|
    ensures i <= k
  {
    if k == 0 || PACKET_BITS * Before(items, k) < items[k].due then k else BusySince(items, k - 1)
  }

  /** Since then the items were sent without a gap. */
  lemma {:induction false} BusyPeriod(items: seq<Item>, k: nat)
    requires Spaced(items) && k < |items|
    ensures var i := BusySince(items, k);
            && items[k].slot == items[i].slot + Load(items, i, k)
            && Start(items[i]) < items[i].due + PACKET_BITS
  {
    assert SpacedAt(items, k);
    if !(k == 0 || PACKET_BITS * Before(items, k) < items[k].due) {
      BusyPeriod(items, k - 1);
    }
  }

  /** No item starts before it is due, and none starts a whole burst after that or later. */
  lemma LatenessBound(items: seq<Item>, burst: nat, k: nat)
    requires Spaced(items) && Ordered(items) && Bounded(items, burst) && k < |items|
    ensures items[k].due <= Start(items[k]) < items[k].due + PACKET_BITS * burst
  {
    var i := BusySince(items, k);
    BusyPeriod(items, k);
    assert SpacedAt(items, k);
    assert Load(items, i, k + 1) == Load(items, i, k) + |items[k].packets|;
    LoadIsDue(items, i, k + 1, items[i].due, items[k].due);
    DueInMonotone(items, k + 1, |items|, items[i].due, items[k].due);
    assert items[i].due <= items[k].due;
    assert |items[k].packets| >= 1;
  }

  // ----- The output stream -----

  function NullPacket(): Packet {
    [0x47, 0x1f, 0xff, 0x10] + Fill(184, 0xff)
  }

  function Nulls(n: nat): (ps: seq<Packet>)
    ensures |ps| == n && forall i :: 0 <= i < n ==> ps[i] == NullPacket()
  {
    seq(n, i => NullPacket())
  }

  /** All packets sent, null packets included. */
  function Output(items: seq<Item>): seq<Packet> {
    if items == [] then []
    else
      var k := |items| - 1;
      var gap: int := items[k].slot - Before(items, k);
      Output(items[..k]) + Nulls(if gap < 0 then 0 else gap) + items[k].packets
  }

  lemma SpacedPrefix(items: seq<Item>, k: nat)
    requires Spaced(items) && k <= |items|
    ensures Spaced(items[..k]) && Before(items[..k], k) == Before(items, k)
  {
    forall i: nat | i < k
      ensures SpacedAt(items[..k], i)
    {
      assert SpacedAt(items, i);
    }
  }

  /** The slots are the places of the packets in the output. */
  lemma {:induction false} OutputLength(items: seq<Item>)
    requires Spaced(items)
    ensures |Output(items)| == Before(items, |items|)
    decreases |items|
  {
    if items != [] {
      var k := |items| - 1;
      SpacedPrefix(items, k);
      OutputLength(items[..k]);
      assert SpacedAt(items, k);
    }
  }

  /** Positions count the bits of the packets. */
  lemma BitsOf(ps: seq<Packet>)
    ensures PACKET_BITS * |ps| == 8 * |Flatten(ps)|
  {
    FlattenLength(ps);
  }

  /**
   * The packets of an item are found in the output from its slot on, and its position is the
   * number of bits in front of them.
   */
  lemma ItemInOutput(items: seq<Item>, k: nat)
    requires Spaced(items) && k < |items|
    ensures items[k].slot + |items[k].packets| <= |Output(items)|
    ensures Output(items)[items[k].slot..items[k].slot + |items[k].packets|] == items[k].packets
    ensures Start(items[k]) == 8 * |Flatten(Output(items)[..items[k].slot])|
  {
    ItemAtSlot(items, k);
    BitsOf(Output(items)[..items[k].slot]);
  }

  lemma {:induction false} ItemAtSlot(items: seq<Item>, k: nat)
    requires Spaced(items) && k < |items|
    ensures items[k].slot + |items[k].packets| <= |Output(items)|
    ensures Output(items)[items[k].slot..items[k].slot + |items[k].packets|] == items[k].packets
    decreases |items|
  {
    var m := |items| - 1;
    var a, b := items[k].slot, items[k].slot + |items[k].packets|;
    SpacedPrefix(items, m);
    OutputLength(items[..m]);
    assert SpacedAt(items, m);
    if k < m {
      ItemAtSlot(items[..m], k);
      assert items[..m][k] == items[k];
      assert Output(items)[..|Output(items[..m])|] == Output(items[..m]);
      assert Output(items)[a..b] == Output(items[..m])[a..b];
    }
  }

  /**
   * The packets between two items are null packets, and they are sent only while nothing is
   * due: each begins before the position of every item that is still to come.
   */
  lemma {:induction false} PaddingOnlyWhenIdle(items: seq<Item>, m: nat, k: nat)
    requires Spaced(items) && Ordered(items) && k < |items| && Before(items, k) <= m < items[k].slot
    ensures m < |Output(items)| && Output(items)[m] == [0x47, 0x1f, 0xff, 0x10] + Fill(184, 0xff)
    ensures forall j: nat | k <= j < |items| :: PACKET_BITS * m < items[j].due
    ensures Start(items[k]) < items[k].due + PACKET_BITS
  {
    assert SpacedAt(items, k);
    forall j: nat | k <= j < |items| ensures PACKET_BITS * m < items[j].due {
      assert items[k].due <= items[j].due;
    }
    NullInOutput(items, m, k);
  }

  lemma {:induction false} NullInOutput(items: seq<Item>, m: nat, k: nat)
    requires Spaced(items) && k < |items| && Before(items, k) <= m < items[k].slot
    ensures m < |Output(items)| && Output(items)[m] == NullPacket()
    decreases |items|
  {
    var n := |items| - 1;
    SpacedPrefix(items, n);
    OutputLength(items[..n]);
    assert SpacedAt(items, n);
    if k < n {
      assert items[..n][k] == items[k] && Before(items[..n], k) == Before(items, k);
      NullInOutput(items[..n], m, k);
      assert Output(items)[m] == Output(items[..n])[m];
    }
  }
}
