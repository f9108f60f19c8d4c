/** The ring buffer of ringbuffer.c, one call at a time. */
module RingBuffer {
  import opened Arithmetic
  import opened Bytes

  datatype Option<+T> = None | Some(value: T)

  // ----- Pointer arithmetic -----

  /** The bytes between the pointers, going forward from head to tail around the ring. */
  function Occupancy(head: nat, tail: nat, size: nat): (o: nat)
    requires head < size && tail < size
    ensures o < size
    ensures o == 0 <==> head == tail
  {
    if head <= tail then tail - head else size - (head - tail)
  }

  /**
   * What the program computes instead: the pointer difference becomes an unsigned word,
   * which is then reduced modulo the size of the buffer.
   */
  function Used(head: nat, tail: nat, size: nat, word: nat): (u: nat)
    requires head < size <= word && tail < size
    ensures u < size
  {
    (tail - head) % word % size
  }

  /** How many of count bytes a write takes when it believes that used bytes are occupied. */
  function Accepted(used: nat, count: nat, size: nat): (n: nat)
    requires used < size
    ensures n <= count && used + n < size
  {
    if used + count >= size then size - used - 1 else count
  }

  /** The place i steps after the place p; both conditional jumps of the program compute this. */
  function Slot(p: nat, i: nat, size: nat): (s: nat)
    requires p < size && i <= size
    ensures s < size
  {
    if p + i >= size then i - (size - p) else p + i
  }

  lemma WordModulo(d: int, size: nat, word: nat)
    requires size > 0 && 0 - size < d < 0 && size <= word
    ensures (d + word) % size == if d + word % size < 0 then d + word % size + size else d + word % size
  {
    var q, r := word / size, word % size;
    DivMod(word, size);
    if d + r < 0 {
      assert d + word == (q - 1) * size + (d + r + size);
      DivisionIs(d + word, size, q - 1, d + r + size);
    } else {
      DivisionIs(d + word, size, q, d + r);
    }
  }

  /** The deviation: once the writer has wrapped, word % size bytes too many are counted. */
  lemma UsedValue(head: nat, tail: nat, size: nat, word: nat)
    requires head < size <= word && tail < size
    ensures Used(head, tail, size, word) ==
            var o := Occupancy(head, tail, size);
            if head <= tail then o
            else if o + word % size < size then o + word % size
            else o + word % size - size
  {
    if tail < head {
      var d := tail - head;
      DivisionIs(d, word, -1, d + word);
      WordModulo(d, size, word);
    } else {
      DivisionIs(tail - head, word, 0, tail - head);
      DivisionIs(tail - head, size, 0, tail - head);
    }
  }

  /** The expression is right exactly when the writer is not behind or the size divides the word. */
  lemma UsedRightIff(head: nat, tail: nat, size: nat, word: nat)
    requires head < size <= word && tail < size
    ensures Used(head, tail, size, word) == Occupancy(head, tail, size)
        <==> (head <= tail || word % size == 0)
  {
    UsedValue(head, tail, size, word);
  }

  /** The documented intent holds for all pointers exactly when the size divides the word. */
  lemma UsedAlwaysRightIff(size: nat, word: nat)
    requires 0 < size <= word
    ensures (forall h: nat, t: nat | h < size && t < size ::
               Used(h, t, size, word) == Occupancy(h, t, size))
        <==> word % size == 0
  {
    forall h: nat, t: nat | h < size && t < size && word % size == 0
      ensures Used(h, t, size, word) == Occupancy(h, t, size)
    {
      UsedRightIff(h, t, size, word);
    }
    if word % size != 0 {
      UsedRightIff(size - 1, 0, size, word);
      assert Used(size - 1, 0, size, word) != Occupancy(size - 1, 0, size);
    }
  }

  const RING_SIZE: nat := 15 * 1024 * 1024

  /** The size the program uses divides neither a 32-bit nor a 64-bit word. */
  lemma FifteenMegabytes(head: nat, tail: nat, word: nat)
    requires head < RING_SIZE && tail < RING_SIZE
    requires word == 0x1_0000_0000 || word == 0x1_0000_0000_0000_0000
    ensures tail < head ==>
              Used(head, tail, RING_SIZE, word)
                == (Occupancy(head, tail, RING_SIZE) + 0x10_0000) % RING_SIZE
    ensures head <= tail ==>
              Used(head, tail, RING_SIZE, word) == Occupancy(head, tail, RING_SIZE)
  {
    assert word % RING_SIZE == 0x10_0000;
    UsedValue(head, tail, RING_SIZE, word);
  }

  /** The unread bytes of a ring with these pointers, oldest first. */
  ghost function Queue(b: Bytes, head: nat, tail: nat): (q: Bytes)
    requires head < |b| && tail < |b|
    ensures |q| == Occupancy(head, tail, |b|)
  {
    seq(Occupancy(head, tail, |b|), i requires 0 <= i < |b| => b[Slot(head, i, |b|)])
  }

  /** The ring b after data is stored from tail on, in two parts if the end is reached. */
  ghost function Stored(b: Bytes, tail: nat, data: Bytes): (b': Bytes)
    requires tail < |b| && |data| <= |b|
    ensures |b'| == |b|
    ensures forall i: nat | i < |data| :: b'[Slot(tail, i, |b|)] == data[i]
    ensures forall i: nat | |data| <= i < |b| :: b'[Slot(tail, i, |b|)] == b[Slot(tail, i, |b|)]
  {
    var n1 := |b| - tail;
    if n1 <= |data| then data[n1..] + b[|data| - n1..tail] + data[..n1]
    else b[..tail] + data + b[tail + |data|..]
  }

  lemma StoredParts(b: Bytes, tail: nat, data: Bytes)
    requires tail < |b| && |data| < |b|
    ensures data == [] ==> Stored(b, tail, data) == b
    ensures tail + |data| < |b| ==> Stored(b, tail, data) == Store(b, tail, data)
    ensures |b| <= tail + |data| ==>
              var n1 := |b| - tail;
              Stored(b, tail, data) == Store(Store(b, tail, data[..n1]), 0, data[n1..])
  {
  }

  lemma QueueAppend(b: Bytes, b': Bytes, head: nat, tail: nat, data: Bytes)
    requires head < |b| && tail < |b|
    requires Occupancy(head, tail, |b|) + |data| < |b| && b' == Stored(b, tail, data)
    ensures Queue(b', head, Slot(tail, |data|, |b|)) == Queue(b, head, tail) + data
  {
    var o, n := Occupancy(head, tail, |b|), |b|;
    var q, q' := Queue(b, head, tail), Queue(b', head, Slot(tail, |data|, n));
    forall i: nat | i < o + |data|
      ensures q'[i] == (q + data)[i]
    {
      if i < o {
        assert Slot(tail, n - o + i, n) == Slot(head, i, n);
      } else {
        assert Slot(tail, i - o, n) == Slot(head, i, n);
      }
    }
  }

  lemma QueueTake(b: Bytes, head: nat, tail: nat, count: nat, data: Bytes)
    requires head < |b| && tail < |b| && |data| == count <= Occupancy(head, tail, |b|)
    requires forall i: nat | i < count :: data[i] == b[Slot(head, i, |b|)]
    ensures Queue(b, head, tail) == data + Queue(b, Slot(head, count, |b|), tail)
  {
    var q, q' := Queue(b, head, tail), Queue(b, Slot(head, count, |b|), tail);
    forall i: nat | i < |q|
      ensures q[i] == (data + q')[i]
    {
      if count <= i {
        assert Slot(Slot(head, count, |b|), i - count, |b|) == Slot(head, i, |b|);
      }
    }
  }

  /** The count bytes from head on. */
  ghost function FromHead(b: Bytes, head: nat, count: nat): (t: Bytes)
    requires head < |b| && count <= |b|
    ensures |t| == count
  {
    seq(count, i requires 0 <= i < |b| => b[Slot(head, i, |b|)])
  }

  /** They are copied in one part, or in two if the end is reached. */
  lemma FromHeadParts(b: Bytes, head: nat, count: nat)
    requires head < |b| && count < |b|
    ensures head + count < |b| ==> FromHead(b, head, count) == b[head..head + count]
    ensures |b| <= head + count ==> FromHead(b, head, count) == b[head..] + b[..count - (|b| - head)]
  {
  }

  // ----- When a call behaves as on a queue -----

  /**
   * A write appends exactly the bytes it accepts to the unread ones, and loses none of them,
   * exactly when this test holds before the call.
   */
  lemma WriteSafeIff(b: Bytes, head: nat, tail: nat, src: Bytes, word: nat)
    requires head < |b| <= word && tail < |b|
    ensures
      var size := |b|;
      var n := Accepted(Used(head, tail, size, word), |src|, size);
      Queue(Stored(b, tail, src[..n]), head, Slot(tail, n, size)) == Queue(b, head, tail) + src[..n]
      <==>
      (head <= tail || Occupancy(head, tail, size) + word % size < size
       || Occupancy(head, tail, size) + |src| < size)
  {
    var size := |b|;
    var o, n := Occupancy(head, tail, size), Accepted(Used(head, tail, size, word), |src|, size);
    var after := Stored(b, tail, src[..n]);
    UsedValue(head, tail, size, word);
    if o + n < size {
      QueueAppend(b, after, head, tail, src[..n]);
    } else {
      assert |Queue(after, head, Slot(tail, n, size))| < size <= |Queue(b, head, tail) + src[..n]|;
    }
  }

  /**
   * A read does not wait when it asks for fewer than Used bytes. Every such read returns the
   * oldest unread bytes, and leaves the others, exactly when this test holds before the call.
   */
  lemma ReadSafeIff(b: Bytes, head: nat, tail: nat, word: nat)
    requires head < |b| <= word && tail < |b|
    ensures
      (forall count: nat | count < Used(head, tail, |b|, word) ::
         Queue(b, head, tail) == FromHead(b, head, count) + Queue(b, Slot(head, count, |b|), tail))
      <==>
      (head <= tail || word % |b| <= 1 || |b| <= Occupancy(head, tail, |b|) + word % |b|)
  {
    var size := |b|;
    var o, used := Occupancy(head, tail, size), Used(head, tail, size, word);
    UsedValue(head, tail, size, word);
    if used <= o + 1 {
      forall count: nat | count < used
        ensures Queue(b, head, tail) == FromHead(b, head, count) + Queue(b, Slot(head, count, size), tail)
      {
        QueueTake(b, head, tail, count, FromHead(b, head, count));
      }
    } else {
      assert |FromHead(b, head, o + 1)| > |Queue(b, head, tail)|;
      assert Queue(b, head, tail) != FromHead(b, head, o + 1) + Queue(b, Slot(head, o + 1, size), tail);
    }
  }

  // ----- Sequences of calls -----

  datatype Call = WriteCall(src: Bytes) | ReadCall(count: nat)

  /** The ring as it lies in memory. */
  datatype Cells = Cells(buf: Bytes, head: nat, tail: nat)

  ghost predicate ValidCells(r: Cells, word: nat) {
    r.head < |r.buf| <= word && r.tail < |r.buf|
  }

  ghost function Unread(r: Cells): Bytes
    requires r.head < |r.buf| && r.tail < |r.buf|
  {
    Queue(r.buf, r.head, r.tail)
  }

  /** What a call leaves and gives: the bytes it accepts or returns, or nothing if it has to wait. */
  ghost function Perform(r: Cells, c: Call, word: nat): (x: (Cells, Option<Bytes>))
    requires ValidCells(r, word)
    ensures ValidCells(x.0, word) && |x.0.buf| == |r.buf|
  {
    var size := |r.buf|;
    var used := Used(r.head, r.tail, size, word);
    match c
    case WriteCall(src) =>
      var taken := src[..Accepted(used, |src|, size)];
      (r.(buf := Stored(r.buf, r.tail, taken), tail := Slot(r.tail, |taken|, size)), Some(taken))
    case ReadCall(count) =>
      if used <= count then (r, None)
      else (r.(head := Slot(r.head, count, size)), Some(FromHead(r.buf, r.head, count)))
  }

  /** A queue with a limited number of places. */
  function QueueCall(q: Bytes, c: Call, places: nat): (Bytes, Option<Bytes>)
    requires |q| <= places
  {
    match c
    case WriteCall(src) =>
      var taken := src[..Min(|src|, places - |q|)];
      (q + taken, Some(taken))
    case ReadCall(count) =>
      if |q| <= count then (q, None) else (q[count..], Some(q[..count]))
  }

  /**
   * Every call of the sequence gives what a queue with one place less than the ring gives, and
   * leaves what it leaves.
   */
  ghost predicate ActsAsQueue(r: Cells, cs: seq<Call>, word: nat)
    requires ValidCells(r, word)
    decreases |cs|
  {
    cs == [] ||
    (var (r', out) := Perform(r, cs[0], word);
     QueueCall(Unread(r), cs[0], |r.buf| - 1) == (Unread(r'), out) && ActsAsQueue(r', cs[1..], word))
  }

  lemma WriteActs(r: Cells, src: Bytes, word: nat)
    requires ValidCells(r, word) && word % |r.buf| == 0
    ensures var (r', out) := Perform(r, WriteCall(src), word);
            QueueCall(Unread(r), WriteCall(src), |r.buf| - 1) == (Unread(r'), out)
  {
    UsedRightIff(r.head, r.tail, |r.buf|, word);
    var taken := src[..Min(|src|, |r.buf| - 1 - |Unread(r)|)];
    QueueAppend(r.buf, Stored(r.buf, r.tail, taken), r.head, r.tail, taken);
  }

  lemma ReadActs(r: Cells, count: nat, word: nat)
    requires ValidCells(r, word) && word % |r.buf| == 0
    ensures var (r', out) := Perform(r, ReadCall(count), word);
            QueueCall(Unread(r), ReadCall(count), |r.buf| - 1) == (Unread(r'), out)
  {
    UsedRightIff(r.head, r.tail, |r.buf|, word);
    if count < |Unread(r)| {
      QueueTake(r.buf, r.head, r.tail, count, FromHead(r.buf, r.head, count));
    }
  }

  /** With a size that divides the word, the ring is that queue from any state and for any calls. */
  lemma {:induction false} QueueCallsIfDivides(r: Cells, cs: seq<Call>, word: nat)
    requires ValidCells(r, word) && word % |r.buf| == 0
    ensures ActsAsQueue(r, cs, word)
    decreases |cs|
  {
    if cs != [] {
      match cs[0] {
        case WriteCall(src) => WriteActs(r, src, word);
        case ReadCall(count) => ReadActs(r, count, word);
      }
      QueueCallsIfDivides(Perform(r, cs[0], word).0, cs[1..], word);
    }
  }

  /**
   * Fill the ring, take one byte, put one back behind the end. The ring is full again, but the
   * next write is accepted: tail meets head, and all unread bytes are lost at once.
   */
  ghost function BadCalls(size: nat): seq<Call>
    requires size >= 3
  {
    [WriteCall(Fill(size - 1, 0)), ReadCall(1), WriteCall([0]), WriteCall([0])]
  }

  /** The state before the last of these calls, and what that call does. */
  lemma FullRingOverrun(b: Bytes, word: nat)
    requires 3 <= |b| <= word && word % |b| != 0
    ensures var (r', out) := Perform(Cells(b, 1, 0), WriteCall([0]), word);
            && |Unread(Cells(b, 1, 0))| == |b| - 1 && out == Some([0]) && Unread(r') == []
            && QueueCall(Unread(Cells(b, 1, 0)), WriteCall([0]), |b| - 1) == (Unread(Cells(b, 1, 0)), Some([]))
  {
    UsedValue(1, 0, |b|, word);
    var q := Unread(Cells(b, 1, 0));
    assert q + [] == q;
    assert [0][..1] == [0] && [0][..0] == [];
  }

  /** Where the pointers are after the first three calls. */
  lemma FullRingReached(b: Bytes, word: nat)
    requires 3 <= |b| <= word
    ensures var r1 := Perform(Cells(b, 0, 0), WriteCall(Fill(|b| - 1, 0)), word).0;
            var r2 := Perform(r1, ReadCall(1), word).0;
            var r3 := Perform(r2, WriteCall([0]), word).0;
            r3 == Cells(r3.buf, 1, 0)
  {
    hide Used, Stored;
    var size := |b|;
    UsedValue(0, 0, size, word);
    UsedValue(0, size - 1, size, word);
    UsedValue(1, size - 1, size, word);
  }

  lemma ActsAfter(r: Cells, c: Call, cs: seq<Call>, word: nat)
    requires ValidCells(r, word) && ActsAsQueue(r, [c] + cs, word)
    ensures var (r', out) := Perform(r, c, word);
            QueueCall(Unread(r), c, |r.buf| - 1) == (Unread(r'), out) && ActsAsQueue(r', cs, word)
  {
    assert ([c] + cs)[1..] == cs;
  }

  lemma BadCallsFail(b: Bytes, word: nat)
    requires 3 <= |b| <= word && word % |b| != 0
    ensures !ActsAsQueue(Cells(b, 0, 0), BadCalls(|b|), word)
  {
    var fill, read, put := WriteCall(Fill(|b| - 1, 0)), ReadCall(1), WriteCall([0]);
    var r0 := Cells(b, 0, 0);
    FullRingReached(b, word);
    var r1 := Perform(r0, fill, word).0;
    var r2 := Perform(r1, read, word).0;
    var r3 := Perform(r2, put, word).0;
    FullRingOverrun(r3.buf, word);
    assert BadCalls(|b|) == [fill] + ([read] + ([put] + [put])) && [put] == [put] + [];
    hide ActsAsQueue, Perform, QueueCall, Unread, Fill, BadCalls;
    if ActsAsQueue(r0, BadCalls(|b|), word) {
      ActsAfter(r0, fill, [read] + ([put] + [put]), word);
      ActsAfter(r1, read, [put] + [put], word);
      ActsAfter(r2, put, [put], word);
      ActsAfter(r3, put, [], word);
    }
  }

  /** From empty, every sequence of calls acts as on a queue exactly when the size divides the word. */
  lemma QueueForAllCallsIff(b: Bytes, word: nat)
    requires 3 <= |b| <= word
    ensures (forall cs :: ActsAsQueue(Cells(b, 0, 0), cs, word)) <==> word % |b| == 0
  {
    if word % |b| == 0 {
      forall cs ensures ActsAsQueue(Cells(b, 0, 0), cs, word) {
        QueueCallsIfDivides(Cells(b, 0, 0), cs, word);
      }
    } else {
      BadCallsFail(b, word);
    }
  }

  // ----- The buffer -----

  class Ring {
    const buf: array<byte>
    const word: nat      // the number of values of an unsigned machine word
    var head: nat        // offset of the next byte to read
    var tail: nat        // offset of the next free place

    ghost predicate Valid()
      reads this
    {
      head < buf.Length && tail < buf.Length && buf.Length <= word
    }

    /** The bytes written and not yet read, oldest first. */
    ghost function Contents(): (s: Bytes)
      requires Valid()
      reads this, buf
      ensures |s| == Occupancy(head, tail, buf.Length)
    {
      Queue(buf[..], head, tail)
    }

    /** The ring as it lies in memory. */
    ghost function State(): (r: Cells)
      requires Valid()
      reads this, buf
      ensures ValidCells(r, word) && |r.buf| == buf.Length && Unread(r) == Contents()
    {
      Cells(buf[..], head, tail)
    }

    constructor (size: nat, word: nat)
      requires 0 < size <= word
      ensures Valid() && Contents() == [] && buf.Length == size && this.word == word
      ensures fresh(buf)
    {
      buf := new byte[size](i => 0);
      this.word := word;
      head := 0;
      tail := 0;
    }

    method GetBytesUsed() returns (used: nat)
      requires Valid()
      ensures used == Used(head, tail, buf.Length, word)
      ensures used == |Contents()| <==> (head <= tail || word % buf.Length == 0)
    {
      UsedRightIff(head, tail, buf.Length, word);
      used := (tail - head) % word % buf.Length;
    }

    /**
     * Takes as many bytes as it believes it has room for. Every byte it takes goes to the next
     * place and no other place changes; the call appends to the queue if the bytes fit.
     */
    method Write(src: Bytes) returns (n: nat)
      requires Valid()
      modifies this`tail, buf
      ensures Valid()
      ensures n == Accepted(Used(head, old(tail), buf.Length, word), |src|, buf.Length)
      ensures tail == Slot(old(tail), n, buf.Length)
      ensures buf[..] == Stored(old(buf[..]), old(tail), src[..n])
      ensures (State(), Some(src[..n])) == Perform(old(State()), WriteCall(src), word)
      ensures |old(Contents())| + n < buf.Length ==> Contents() == old(Contents()) + src[..n]
    {
      var used := GetBytesUsed();
      n := if used + |src| >= buf.Length then buf.Length - used - 1 else |src|;
      StoredParts(buf[..], tail, src[..n]);
      if |Contents()| + n < buf.Length {
        QueueAppend(buf[..], Stored(buf[..], tail, src[..n]), head, tail, src[..n]);
      }
      if n > 0 {
        CopyIn(src[..n]);
      }
    }

    /** The copying half of rb_write: one memcpy, or two around the end. */
    method CopyIn(data: Bytes)
      requires Valid() && |data| < buf.Length
      modifies this`tail, buf
      ensures buf[..] == Stored(old(buf[..]), old(tail), data)
      ensures tail == Slot(old(tail), |data|, buf.Length)
    {
      StoredParts(buf[..], tail, data);
      if tail + |data| >= buf.Length {
        var n1 := buf.Length - tail;
        MemCpy(buf, tail, data[..n1]);
        MemCpy(buf, 0, data[n1..]);
        tail := |data| - n1;
      } else {
        MemCpy(buf, tail, data);
        tail := tail + |data|;
      }
    }

    /** One poll of rb_read: waits, leaving everything alone, unless more than count bytes show. */
    method TryRead(count: nat) returns (r: Option<Bytes>)
      requires Valid()
      modifies this`head
      ensures Valid()
      ensures r.None? <==> Used(old(head), tail, buf.Length, word) <= count
      ensures r.None? ==> head == old(head)
      ensures r.Some? ==> |r.value| == count && head == Slot(old(head), count, buf.Length)
      ensures r.Some? ==> forall i: nat | i < count ::
                r.value[i] == buf[Slot(old(head), i, buf.Length)]
      ensures (State(), r) == Perform(old(State()), ReadCall(count), word)
      ensures r.Some? && count <= |old(Contents())| ==>
                old(Contents()) == r.value + Contents()
    {
      var size := buf.Length;
      var used := GetBytesUsed();
      if count >= used {
        return None;
      }
      FromHeadParts(buf[..], head, count);
      if head + count >= size {
        var n1 := size - head;
        r := Some(buf[head..] + buf[..count - n1]);
        head := count - n1;
      } else {
        r := Some(buf[head..head + count]);
        head := head + count;
      }
      if count <= |old(Contents())| {
        QueueTake(buf[..], old(head), tail, count, r.value);
      }
    }

    /** Discards count bytes; the caller has checked that there are that many. */
    method Skip(count: nat)
      requires Valid() && count <= |Contents()|
      modifies this`head
      ensures Valid()
      ensures Contents() == old(Contents())[count..]
    {
      if head + count >= buf.Length {
        var n1 := buf.Length - head;
        head := count - n1;
      } else {
        head := head + count;
      }
      QueueTake(buf[..], old(head), tail, count, old(Contents())[..count]);
    }
  }
}
