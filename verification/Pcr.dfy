/** Clock references, the renumbering of packets, and the due positions made from them. */
module Pcr {
  import opened Arithmetic
  import opened Bytes
  import opened Sections

  // ----- Reading a packet -----

  /** The packet carries a PCR: it has an adaptation field of that length with the PCR flag. */
  predicate HasPcr(p: Packet) {
    Rem(p[3] as int, 64) >= 32 && p[4] > 5 && Rem(p[5] as int, 32) >= 16
  }

  /** The adaptation field and the PCR flag have one bit each (ISO/IEC 13818-1, sections 2.4.3.2 and 2.4.3.4). */
  lemma PcrBits(p: Packet)
    ensures HasPcr(p) <==> p[3] as int / 32 % 2 == 1 && p[4] >= 6 && p[5] as int / 16 % 2 == 1
  {
    DivisionOf(p[3] as int, 64);
    DivisionOf(p[5] as int, 32);
  }

  /** The program clock reference in ticks of 27 MHz (ISO/IEC 13818-1, section 2.4.3.5). */
  function ClockReference(p: Packet): (t: nat)
    ensures t < 0x400_0000_0000
  {
    QuotRem(p[10] as int, 128);
    var ticks := p[6] as int * 0x200_0000 + p[7] as int * 0x2_0000 + p[8] as int * 0x200
                 + p[9] as int * 2 + Quot(p[10] as int, 128);
    ticks * 300 + (Rem(p[10] as int, 2) * 256 + p[11] as int)
  }

  /** A clock reference as it is written: 33 bits of base, six reserved bits, nine of extension. */
  function PcrBytes(base: nat, reserved: nat, extension: nat): (b: Bytes)
    requires base < 0x2_0000_0000 && reserved < 64 && extension < 512
    ensures |b| == 6
  {
    [base / 0x200_0000, base / 0x2_0000 % 256, base / 0x200 % 256, base / 2 % 256,
     base % 2 * 128 + reserved * 2 + extension / 256, extension % 256]
  }

  /** What is read from it is the base in units of 300 ticks, and the extension. */
  lemma ClockReferenceRead(p: Packet, base: nat, reserved: nat, extension: nat)
    requires base < 0x2_0000_0000 && reserved < 64 && extension < 512
    requires p[6..12] == PcrBytes(base, reserved, extension)
    ensures ClockReference(p) == base * 300 + extension
  {
    var t0, t1, t2, t3, c: nat := base / 2, base / 2 / 256, base / 2 / 256 / 256, base / 2 / 256 / 256 / 256, base % 2;
    DivisionIs(base, 0x200, t1, t0 % 256 * 2 + c);
    DivisionIs(base, 0x2_0000, t2, (t1 % 256 * 256 + t0 % 256) * 2 + c);
    DivisionIs(base, 0x200_0000, t3, ((t2 % 256 * 256 + t1 % 256) * 256 + t0 % 256) * 2 + c);
    LastBits(c, reserved, extension / 256);
    BytesAt(p, PcrBytes(base, reserved, extension));
  }

  lemma BytesAt(p: Packet, b: Bytes)
    requires |b| == 6 && p[6..12] == b
    ensures p[6] == b[0] && p[7] == b[1] && p[8] == b[2] && p[9] == b[3] && p[10] == b[4] && p[11] == b[5]
  {
  }

  /** The byte that the last bit of the base shares with the first one of the extension. */
  lemma LastBits(c: nat, reserved: nat, e: nat)
    requires c < 2 && reserved < 64 && e < 2
    ensures var x := c * 128 + reserved * 2 + e; Quot(x, 128) == c && Rem(x, 2) == e
  {
    var x := c * 128 + reserved * 2 + e;
    QuotRem(x, 128);
    RemOf(c, reserved * 2 + e, 128);
    RemOf(c * 64 + reserved, e, 2);
  }

  lemma ByteSplit(x: nat)
    requires x < 256
    ensures x / 128 < 2 && x / 128 * 128 + x / 2 % 64 * 2 + x % 2 == x
  {
  }

  /** Every packet has a clock reference that is written so. */
  lemma ClockReferenceWritten(p: Packet) returns (base: nat, reserved: nat, extension: nat)
    ensures base < 0x2_0000_0000 && reserved < 64 && extension < 512
    ensures p[6..12] == PcrBytes(base, reserved, extension)
  {
    var x: nat := p[10] as int;
    ByteSplit(x);
    var c, t3: nat := x / 128, p[6] as int;
    var t2 := t3 * 256 + p[7] as int;
    var t1 := t2 * 256 + p[8] as int;
    var t0 := t1 * 256 + p[9] as int;
    base := t0 * 2 + c;
    reserved, extension := x / 2 % 64, x % 2 * 256 + p[11] as int;
    DivisionIs(extension, 256, x % 2, p[11] as int);
    DivisionIs(base, 2, t0, c);
    DivisionIs(base, 0x200, t1, p[9] as int * 2 + c);
    DivisionIs(base, 0x2_0000, t2, (p[8] as int * 256 + p[9] as int) * 2 + c);
    DivisionIs(base, 0x200_0000, t3, ((p[7] as int * 256 + p[8] as int) * 256 + p[9] as int) * 2 + c);
    DivisionIs(t2, 256, t3, p[7] as int);
    DivisionIs(t1, 256, t2, p[8] as int);
    DivisionIs(t0, 256, t1, p[9] as int);
  }

  /** The packet with another PID; the three flag bits next to it stay. */
  function Renumbered(p: Packet, pid: PidValue): (r: Packet)
    ensures Pid(r) == pid
    ensures Quot(r[1] as int, 32) == Quot(p[1] as int, 32)
    ensures r[0] == p[0] && r[3..] == p[3..]
  {
    var flags := Quot(p[1] as int, 32);
    QuotRem(p[1] as int, 32);
    QuotRem(pid as int, 256);
    var high, low := Quot(pid as int, 256), Rem(pid as int, 256);
    RemOf(flags, high, 32);
    QuotRem(flags * 32 + high, 32);
    p[1 := flags * 32 + high][2 := low]
  }

  // ----- Due positions -----

  const CLOCK: nat := 27000000

  /** Output position, in bits, of a time given in ticks. */
  function Position(ticks: nat, capacity: nat): nat {
    ticks * capacity / CLOCK
  }

  /** The time of packet j of n, in ticks, between the references first and second. */
  function Time(first: nat, second: nat, j: nat, n: nat): nat
    requires first <= second && n >= 2
  {
    first + j * (second - first) / (n - 1)
  }

  /**
   * Where packet j of the n packets between two clock references is due; the first and the last
   * of them carry the references, and times count from start.
   */
  function Due(first: nat, second: nat, start: nat, j: nat, n: nat, capacity: nat): nat
    requires start <= first <= second && n >= 2
  {
    Position(Time(first, second, j, n) - start, capacity)
  }

  lemma DivMonotone(a: nat, b: nat, n: nat)
    requires a <= b && n > 0
    ensures a / n <= b / n
  {
    DivMod(a, n);
    DivMod(b, n);
    if b / n < a / n {
      MulGe(a / n - b / n, n);
    }
  }

  lemma Product(a: nat, b: nat, c: nat)
    requires a <= b
    ensures a * c <= b * c
  {
    assert (b - a) * c == b * c - a * c;
    assert 0 <= (b - a) * c;
  }

  lemma PositionMonotone(a: nat, b: nat, capacity: nat)
    requires a <= b
    ensures Position(a, capacity) <= Position(b, capacity)
  {
    Product(a, b, capacity);
    DivMonotone(a * capacity, b * capacity, CLOCK);
  }

  lemma TimeMonotone(first: nat, second: nat, j: nat, k: nat, n: nat)
    requires first <= second && n >= 2 && j <= k
    ensures first <= Time(first, second, j, n) <= Time(first, second, k, n)
  {
    var d := second - first;
    Product(j, k, d);
    DivMonotone(j * d, k * d, n - 1);
  }

  /** Later packets of an interval are never due earlier. */
  lemma DueMonotone(first: nat, second: nat, start: nat, j: nat, k: nat, n: nat, capacity: nat)
    requires start <= first <= second && n >= 2 && j <= k
    ensures Due(first, second, start, j, n, capacity) <= Due(first, second, start, k, n, capacity)
  {
    TimeMonotone(first, second, j, k, n);
    PositionMonotone(Time(first, second, j, n) - start, Time(first, second, k, n) - start, capacity);
  }

  /**
   * The packets that carry the references are due at their own time, so the packet shared by two
   * intervals has the same position in both.
   */
  lemma DueAtReferences(first: nat, second: nat, start: nat, n: nat, capacity: nat)
    requires start <= first <= second && n >= 2
    ensures Due(first, second, start, 0, n, capacity) == Position(first - start, capacity)
    ensures Due(first, second, start, n - 1, n, capacity) == Position(second - start, capacity)
    ensures Position(first - start, capacity) == (first - start) * capacity / 27000000
    ensures Position(second - start, capacity) == (second - start) * capacity / 27000000
  {
    var d := second - first;
    DivisionIs(0 * d, n - 1, 0, 0);
    assert (n - 1) * d == d * (n - 1) + 0;
    DivisionIs((n - 1) * d, n - 1, d, 0);
  }

  /**
   * Positions are times: a reference whose base, which counts 90000 to a second, is s seconds
   * after that of the first reference is due where s seconds of output end.
   */
  lemma DueAfterSeconds(p: Packet, q: Packet, first: nat, base: nat, extension: nat, reserved: nat, reserved': nat,
                        s: nat, n: nat, capacity: nat)
    requires base + 90000 * s < 0x2_0000_0000 && extension < 512 && reserved < 64 && reserved' < 64 && n >= 2
    requires p[6..12] == PcrBytes(base, reserved, extension)
    requires q[6..12] == PcrBytes(base + 90000 * s, reserved', extension)
    requires ClockReference(p) <= first <= ClockReference(q)
    ensures Due(first, ClockReference(q), ClockReference(p), n - 1, n, capacity) == s * capacity
  {
    ClockReferenceRead(p, base, reserved, extension);
    ClockReferenceRead(q, base + 90000 * s, reserved', extension);
    hide ClockReference, PcrBytes, Due;
    var ticks := ClockReference(q) - ClockReference(p);
    assert ticks == 27000000 * s;
    DueAtReferences(first, ClockReference(q), ClockReference(p), n, capacity);
    Reordered(s, capacity);
    DivisionIs(ticks * capacity, 27000000, s * capacity, 0);
  }

  lemma Reordered(s: nat, capacity: nat)
    ensures 27000000 * s * capacity == s * capacity * 27000000
  {
  }

  // ----- How exact the positions are -----

  lemma RealQuotient(a: nat, n: nat)
    requires n > 0
    ensures (a / n) as real <= a as real / n as real < (a / n) as real + 1.0
  {
    var q, r := a / n, a % n;
    DivMod(a, n);
    assert a as real == q as real * n as real + r as real;
    assert a as real / n as real == q as real + r as real / n as real by {
      assert (q as real + r as real / n as real) * n as real == q as real * n as real + r as real;
    }
  }

  lemma NonNegative(a: real, b: real)
    requires 0.0 <= a && 0.0 <= b
    ensures 0.0 <= a * b
  {
  }

  lemma Scaled(t: real, x: real, c: real) returns (tc: real, xc: real)
    requires 0.0 <= c && t <= x < t + 1.0
    ensures tc == t * c && xc == x * c && tc <= xc <= tc + c
  {
    tc, xc := t * c, x * c;
    var d := x - t;
    NonNegative(d, c);
    NonNegative(1.0 - d, c);
    assert (1.0 - d) * c == c - d * c;
    assert d * c == xc - tc;
  }

  /**
   * A position lies below exact linear interpolation between the two references, by less than
   * the bits of one tick and one bit more.
   */
  lemma DueIsClose(first: nat, second: nat, start: nat, j: nat, n: nat, capacity: nat)
    requires start <= first <= second && n >= 2
    ensures var exact := ((first - start) as real + (j * (second - first)) as real / (n - 1) as real)
                         * capacity as real / 27000000.0;
            Due(first, second, start, j, n, capacity) as real <= exact
            < Due(first, second, start, j, n, capacity) as real + capacity as real / 27000000.0 + 1.0
  {
    var a, t := j * (second - first), Time(first, second, j, n) - start;
    var x := (first - start) as real + a as real / (n - 1) as real;
    RealQuotient(a, n - 1);
    assert t as real <= x < t as real + 1.0;
    PositionIsClose(t, x, capacity);
  }

  lemma PositionIsClose(t: nat, x: real, capacity: nat)
    requires t as real <= x < t as real + 1.0
    ensures Position(t, capacity) as real <= x * capacity as real / CLOCK as real
    ensures x * capacity as real / CLOCK as real
          < Position(t, capacity) as real + capacity as real / CLOCK as real + 1.0
  {
    RealQuotient(t * capacity, CLOCK);
    assert (t * capacity) as real == t as real * capacity as real;
    Sandwich(Position(t, capacity) as real, t as real, x, capacity as real, CLOCK as real);
  }

  lemma Quotients(x: real, y: real, c: real, k: real)
    requires x <= y <= x + c && k > 0.0
    ensures x / k <= y / k <= x / k + c / k
  {
    assert (x + c) / k == x / k + c / k;
  }

  lemma Sandwich(p: real, t: real, x: real, c: real, k: real)
    requires 0.0 <= c && 0.0 < k && t <= x < t + 1.0
    requires p <= t * c / k < p + 1.0
    ensures p <= x * c / k < p + c / k + 1.0
  {
    var tc, xc := Scaled(t, x, c);
    Quotients(tc, xc, c, k);
  }

  predicate InInt64(x: int) { -0x8000_0000_0000_0000 <= x < 0x8000_0000_0000_0000 }

  lemma TimeBounds(first: nat, second: nat, j: nat, n: nat)
    requires first <= second && n >= 2 && j < n
    ensures first <= Time(first, second, j, n) <= second
    ensures Time(first, second, n - 1, n) == second
  {
    var d := second - first;
    Product(j, n - 1, d);
    DivMonotone(j * d, (n - 1) * d, n - 1);
    assert (n - 1) * d == d * (n - 1) + 0;
    DivisionIs((n - 1) * d, n - 1, d, 0);
  }

  /** The values that the position formula goes through stay in int64. */
  ghost predicate Computable(first: nat, second: nat, start: nat, j: nat, n: nat, capacity: nat)
    requires start <= first <= second && n >= 2
  {
    && InInt64(j * (second - first)) && InInt64(Time(first, second, j, n))
    && InInt64((Time(first, second, j, n) - start) * capacity)
  }

  lemma TooLarge(first: nat, second: nat, start: nat, n: nat, capacity: nat)
    requires start <= first <= second && n >= 2 && Time(first, second, n - 1, n) == second
    requires (second - start) * capacity >= 0x8000_0000_0000_0000
    ensures !Computable(first, second, start, n - 1, n, capacity)
  {
    hide Time;
  }

  lemma AllSmall(first: nat, second: nat, start: nat, j: nat, n: nat, capacity: nat)
    requires start <= first <= second < 0x400_0000_0000 && j < n && 2 <= n <= 2048
    requires (second - start) * capacity < 0x8000_0000_0000_0000
    ensures Computable(first, second, start, j, n, capacity)
  {
    hide Time;
    TimeBounds(first, second, j, n);
    Product(j, 2048, second - first);
    Product(Time(first, second, j, n) - start, second - start, capacity);
  }

  /**
   * Between two references, all positions are computed without overflow exactly when the ticks
   * since the start, times the capacity, stay below 2^63.
   */
  lemma ComputableIff(first: nat, second: nat, start: nat, n: nat, capacity: nat)
    requires start <= first <= second < 0x400_0000_0000 && 2 <= n <= 2048
    ensures (forall j: nat :: j < n ==> Computable(first, second, start, j, n, capacity))
        <==> (second - start) * capacity < 0x8000_0000_0000_0000
  {
    hide InInt64, Time;
    var d := second - first;
    TimeBounds(first, second, n - 1, n);
    forall j: nat | j < n && (second - start) * capacity < 0x8000_0000_0000_0000
      ensures Computable(first, second, start, j, n, capacity)
    {
      AllSmall(first, second, start, j, n, capacity);
    }
    if (second - start) * capacity >= 0x8000_0000_0000_0000 {
      TooLarge(first, second, start, n, capacity);
    }
  }
}
