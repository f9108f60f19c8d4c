/**
 * The ring buffer with its two threads. The snapshot of the pointers, the copying of each byte
 * and the publication of a pointer are separate steps, interleaved in any way; bytes are copied
 * in any order. Pointer loads and stores are sequentially consistent.
 */
module RingThreads {
  import opened Bytes
  import opened RingBuffer

  datatype Writer =
    | WriterIdle
    | Writing(asked: nat, data: Bytes, todo: set<nat>)   // data: the bytes this call accepts

  datatype Reader =
    | ReaderIdle
    | Reading(out: Bytes, todo: set<nat>)

  datatype State = State(
    buf: Bytes, head: nat, tail: nat,
    writer: Writer, reader: Reader,
    accepted: Bytes,   // what all finished writes took, in order
    consumed: Bytes)   // what all finished reads returned, in order

  ghost function Indices(n: nat): (s: set<nat>)
    ensures forall k: nat :: k in s <==> k < n
  {
    if n == 0 then {} else Indices(n - 1) + {n - 1}
  }

  ghost predicate Init(s: State, size: nat) {
    && size > 0 && |s.buf| == size && s.head == 0 && s.tail == 0
    && s.writer == WriterIdle && s.reader == ReaderIdle && s.accepted == [] && s.consumed == []
  }

  ghost predicate PointersOk(s: State, word: nat) {
    s.head < |s.buf| <= word && s.tail < |s.buf|
  }

  /** rb_write reads the pointers and decides how much to take. */
  ghost predicate WriteSnapshot(s: State, s': State, src: Bytes, word: nat)
    requires PointersOk(s, word)
  {
    var n := Accepted(Used(s.head, s.tail, |s.buf|, word), |src|, |s.buf|);
    && s.writer.WriterIdle?
    && s' == if n == 0 then s else s.(writer := Writing(|src|, src[..n], Indices(n)))
  }

  ghost predicate WriteByte(s: State, s': State, k: nat, word: nat)
    requires PointersOk(s, word)
  {
    && s.writer.Writing? && k in s.writer.todo && k < |s.writer.data| <= |s.buf|
    && s' == s.(buf := s.buf[Slot(s.tail, k, |s.buf|) := s.writer.data[k]],
                writer := s.writer.(todo := s.writer.todo - {k}))
  }

  ghost predicate WritePublish(s: State, s': State, word: nat)
    requires PointersOk(s, word)
  {
    && s.writer.Writing? && s.writer.todo == {} && |s.writer.data| <= |s.buf|
    && s' == s.(tail := Slot(s.tail, |s.writer.data|, |s.buf|),
                writer := WriterIdle, accepted := s.accepted + s.writer.data)
  }

  /** rb_read polls: it starts to copy once more than count bytes show, and waits otherwise. */
  ghost predicate ReadSnapshot(s: State, s': State, count: nat, word: nat)
    requires PointersOk(s, word)
  {
    && s.reader.ReaderIdle?
    && s' == if count >= Used(s.head, s.tail, |s.buf|, word) then s
             else s.(reader := Reading(Fill(count, 0), Indices(count)))
  }

  ghost predicate ReadByte(s: State, s': State, k: nat, word: nat)
    requires PointersOk(s, word)
  {
    && s.reader.Reading? && k in s.reader.todo && k < |s.reader.out| <= |s.buf|
    && s' == s.(reader := Reading(s.reader.out[k := s.buf[Slot(s.head, k, |s.buf|)]],
                                  s.reader.todo - {k}))
  }

  ghost predicate ReadPublish(s: State, s': State, word: nat)
    requires PointersOk(s, word)
  {
    && s.reader.Reading? && s.reader.todo == {} && |s.reader.out| <= |s.buf|
    && s' == s.(head := Slot(s.head, |s.reader.out|, |s.buf|),
                reader := ReaderIdle, consumed := s.consumed + s.reader.out)
  }

  datatype Action =
    | DoWriteSnapshot(src: Bytes) | DoWriteByte(k: nat) | DoWritePublish
    | DoReadSnapshot(count: nat) | DoReadByte(k: nat) | DoReadPublish

  ghost predicate Next(s: State, a: Action, s': State, word: nat) {
    PointersOk(s, word) &&
    match a
    case DoWriteSnapshot(src) => WriteSnapshot(s, s', src, word)
    case DoWriteByte(k) => WriteByte(s, s', k, word)
    case DoWritePublish => WritePublish(s, s', word)
    case DoReadSnapshot(count) => ReadSnapshot(s, s', count, word)
    case DoReadByte(k) => ReadByte(s, s', k, word)
    case DoReadPublish => ReadPublish(s, s', word)
  }

  /** Any steps. */
  ghost predicate Steps(states: seq<State>, actions: seq<Action>, word: nat) {
    && |states| == |actions| + 1
    && forall i: nat | i < |actions| :: Next(states[i], actions[i], states[i + 1], word)
  }

  /** states and actions of a run from an empty ring of the given size. */
  ghost predicate IsRun(states: seq<State>, actions: seq<Action>, size: nat, word: nat) {
    Steps(states, actions, word) && Init(states[0], size)
  }

  /** The bytes published and not yet released by the reader. */
  ghost function Unread(s: State): int { |s.accepted| - |s.consumed| }

  ghost predicate Invariant(s: State, size: nat, word: nat) {
    && PointersOk(s, word) && |s.buf| == size
    && 0 <= Unread(s) < size
    && s.consumed == s.accepted[..|s.consumed|]
    && s.tail == Slot(s.head, Unread(s), size)
    && (forall i: nat | i < Unread(s) :: s.buf[Slot(s.head, i, size)] == s.accepted[|s.consumed| + i])
    && WriterOk(s, size)
    && ReaderOk(s, size)
  }

  ghost predicate WriterOk(s: State, size: nat)
    requires s.tail < size == |s.buf| && 0 <= Unread(s)
  {
    s.writer.Writing? ==>
      var Writing(asked, data, todo) := s.writer;
      && 0 < |data| <= asked && Unread(s) + |data| < size
      && (forall k | k in todo :: k < |data|)
      && (forall k: nat | k < |data| && k !in todo :: s.buf[Slot(s.tail, k, size)] == data[k])
  }

  ghost predicate ReaderOk(s: State, size: nat)
    requires s.head < size == |s.buf| && 0 <= Unread(s)
  {
    s.reader.Reading? ==>
      var Reading(out, todo) := s.reader;
      && |out| < Unread(s)
      && (forall k | k in todo :: k < |out|)
      && (forall k: nat | k < |out| && k !in todo :: out[k] == s.accepted[|s.consumed| + k])
  }

  /** The place the writer is about to fill never holds an unread byte. */
  lemma TargetsDisjoint(s: State, size: nat, word: nat, k: nat, i: nat)
    requires Invariant(s, size, word) && s.writer.Writing?
    requires k < |s.writer.data| && i < Unread(s)
    ensures Slot(s.tail, k, size) != Slot(s.head, i, size)
  {
  }

  lemma OccupancyIsUnread(s: State, size: nat, word: nat)
    requires Invariant(s, size, word) && word % size == 0
    ensures Used(s.head, s.tail, size, word) == Unread(s)
  {
    UsedRightIff(s.head, s.tail, size, word);
  }

  lemma WriteByteKeeps(s: State, s': State, k: nat, size: nat, word: nat)
    requires Invariant(s, size, word) && WriteByte(s, s', k, word)
    ensures Invariant(s', size, word)
  {
    forall i: nat | i < Unread(s)
      ensures s'.buf[Slot(s.head, i, size)] == s.buf[Slot(s.head, i, size)]
    {
      TargetsDisjoint(s, size, word, k, i);
    }
  }

  lemma WritePublishKeeps(s: State, s': State, size: nat, word: nat)
    requires Invariant(s, size, word) && WritePublish(s, s', word)
    ensures Invariant(s', size, word)
  {
    var u, data := Unread(s), s.writer.data;
    forall i: nat | i < u + |data|
      ensures s'.buf[Slot(s'.head, i, size)] == s'.accepted[|s'.consumed| + i]
    {
      if u <= i {
        assert Slot(s.tail, i - u, size) == Slot(s.head, i, size);
      }
    }
  }

  lemma ReadByteKeeps(s: State, s': State, k: nat, size: nat, word: nat)
    requires Invariant(s, size, word) && ReadByte(s, s', k, word)
    ensures Invariant(s', size, word)
  {
  }

  lemma ReadPublishKeeps(s: State, s': State, size: nat, word: nat)
    requires Invariant(s, size, word) && ReadPublish(s, s', word)
    ensures Invariant(s', size, word)
  {
    var n := |s.reader.out|;
    assert s.reader.out == s.accepted[|s.consumed|..|s.consumed| + n];
    forall i: nat | i < Unread(s) - n
      ensures s'.buf[Slot(s'.head, i, size)] == s'.accepted[|s'.consumed| + i]
    {
      assert Slot(s'.head, i, size) == Slot(s.head, n + i, size);
    }
  }

  /** Every step of either thread keeps the invariant. */
  lemma StepKeepsInvariant(s: State, a: Action, s': State, size: nat, word: nat)
    requires Invariant(s, size, word) && Next(s, a, s', word) && word % size == 0
    ensures Invariant(s', size, word)
  {
    match a
    case DoWriteSnapshot(src) => OccupancyIsUnread(s, size, word);
    case DoWriteByte(k) => WriteByteKeeps(s, s', k, size, word);
    case DoWritePublish => WritePublishKeeps(s, s', size, word);
    case DoReadSnapshot(count) => OccupancyIsUnread(s, size, word);
    case DoReadByte(k) => ReadByteKeeps(s, s', k, size, word);
    case DoReadPublish => ReadPublishKeeps(s, s', size, word);
  }

  lemma {:induction false} RunKeepsInvariant(states: seq<State>, actions: seq<Action>, size: nat, word: nat, i: nat)
    requires IsRun(states, actions, size, word) && size <= word && word % size == 0
    requires i < |states|
    ensures Invariant(states[i], size, word)
  {
    if i > 0 {
      RunKeepsInvariant(states, actions, size, word, i - 1);
      assert Next(states[i - 1], actions[i - 1], states[i], word);
      StepKeepsInvariant(states[i - 1], actions[i - 1], states[i], size, word);
    }
  }

  /**
   * In every interleaving, at every moment: what was read is a prefix of what was accepted, in
   * order; one place stays free even when the write under way is counted; no byte still to be
   * read lies where the writer copies; and both snapshots remain conservative, however old.
   */
  lemma InterleavingsAreSafe(states: seq<State>, actions: seq<Action>, size: nat, word: nat, i: nat)
    requires IsRun(states, actions, size, word) && size <= word && word % size == 0
    requires i < |states|
    ensures PointersOk(states[i], word) && |states[i].buf| == size
    ensures states[i].consumed <= states[i].accepted
    ensures Unread(states[i]) < size
    ensures states[i].writer.Writing? ==>
              && Unread(states[i]) + |states[i].writer.data| < size
              && |states[i].writer.data|
                 <= Accepted(Used(states[i].head, states[i].tail, size, word), states[i].writer.asked, size)
              && forall k: nat, j: nat | k < |states[i].writer.data| && j < Unread(states[i]) ::
                   Slot(states[i].tail, k, size) != Slot(states[i].head, j, size)
    ensures states[i].reader.Reading? ==>
              |states[i].reader.out| < Used(states[i].head, states[i].tail, size, word)
  {
    var s := states[i];
    RunKeepsInvariant(states, actions, size, word, i);
    OccupancyIsUnread(s, size, word);
    if s.writer.Writing? {
      forall k: nat, j: nat | k < |s.writer.data| && j < Unread(s)
        ensures Slot(s.tail, k, size) != Slot(s.head, j, size)
      {
        TargetsDisjoint(s, size, word, k, j);
      }
    }
  }

  // ----- Calls without interruption -----

  ghost function Range(a: nat, b: nat): (s: set<nat>)
    ensures forall k: nat :: k in s <==> a <= k < b
  {
    Indices(b) - Indices(a)
  }

  ghost function LastOf(states: seq<State>): State
    requires states != []
  {
    states[|states| - 1]
  }

  lemma NoStep(s: State, word: nat)
    ensures Steps([s], [], word)
  {
  }

  lemma FirstStep(s: State, a: Action, xs: seq<State>, acts: seq<Action>, word: nat)
    requires Steps(xs, acts, word) && Next(s, a, xs[0], word)
    ensures Steps([s] + xs, [a] + acts, word) && LastOf([s] + xs) == LastOf(xs)
  {
  }

  lemma Join(xs: seq<State>, acts: seq<Action>, ys: seq<State>, more: seq<Action>, word: nat)
    returns (states: seq<State>, actions: seq<Action>)
    requires Steps(xs, acts, word) && Steps(ys, more, word) && LastOf(xs) == ys[0]
    ensures Steps(states, actions, word) && states[0] == xs[0] && LastOf(states) == LastOf(ys)
  {
    hide Next;
    states, actions := xs + ys[1..], acts + more;
    forall i: nat | i < |actions| ensures Next(states[i], actions[i], states[i + 1], word) {
      if i < |acts| {
        assert Next(xs[i], acts[i], xs[i + 1], word);
      } else {
        assert Next(ys[i - |acts|], more[i - |acts|], ys[i - |acts| + 1], word);
      }
    }
  }

  lemma OneMoreStored(b: Bytes, tail: nat, data: Bytes, k: nat)
    requires tail < |b| && k < |data| <= |b|
    ensures Stored(b, tail, data[..k])[Slot(tail, k, |b|) := data[k]] == Stored(b, tail, data[..k + 1])
  {
    var x, y := Stored(b, tail, data[..k])[Slot(tail, k, |b|) := data[k]], Stored(b, tail, data[..k + 1]);
    hide Stored, Slot;
    forall j | 0 <= j < |b| ensures x[j] == y[j] {
      var i := if j >= tail then j - tail else j + |b| - tail;
      PlaceOf(tail, i, j, |b|);
      StoredAt(b, tail, data[..k], i);
      StoredAt(b, tail, data[..k + 1], i);
      if i != k {
        OtherPlace(tail, i, k, |b|);
      }
    }
  }

  lemma PlaceOf(tail: nat, i: nat, j: nat, size: nat)
    requires tail < size && j < size && i == if j >= tail then j - tail else j + size - tail
    ensures i < size && Slot(tail, i, size) == j
  {
  }

  lemma OtherPlace(tail: nat, i: nat, k: nat, size: nat)
    requires tail < size && i < size && k < size && i != k
    ensures Slot(tail, i, size) != Slot(tail, k, size)
  {
  }

  lemma StoredAt(b: Bytes, tail: nat, data: Bytes, i: nat)
    requires tail < |b| && |data| <= |b| && i < |b|
    ensures Stored(b, tail, data)[Slot(tail, i, |b|)] == if i < |data| then data[i] else b[Slot(tail, i, |b|)]
  {
    hide Stored;
  }

  /** The writer copies its bytes one after the other. */
  lemma {:induction false} WriteBytes(s: State, k: nat, b: Bytes, word: nat)
    returns (states: seq<State>, actions: seq<Action>)
    requires PointersOk(s, word) && s.writer.Writing? && k <= |s.writer.data| <= |s.buf| == |b|
    requires s.writer.todo == Range(k, |s.writer.data|) && s.buf == Stored(b, s.tail, s.writer.data[..k])
    ensures Steps(states, actions, word) && states[0] == s
    ensures LastOf(states) == s.(buf := Stored(b, s.tail, s.writer.data), writer := s.writer.(todo := {}))
    decreases |s.writer.data| - k
  {
    hide Stored;
    var data := s.writer.data;
    if k == |data| {
      states, actions := [s], [];
      assert data[..k] == data && s.writer.todo == {};
    } else {
      OneMoreStored(b, s.tail, data, k);
      var next := s.(buf := s.buf[Slot(s.tail, k, |b|) := data[k]],
                     writer := s.writer.(todo := s.writer.todo - {k}));
      assert next.writer.todo == Range(k + 1, |data|);
      var xs, acts := WriteBytes(next, k + 1, b, word);
      assert Next(s, DoWriteByte(k), next, word);
      FirstStep(s, DoWriteByte(k), xs, acts, word);
      states, actions := [s] + xs, [DoWriteByte(k)] + acts;
    }
  }

  /** The reader copies its bytes one after the other. */
  lemma {:induction false} ReadBytes(s: State, k: nat, word: nat) returns (states: seq<State>, actions: seq<Action>)
    requires PointersOk(s, word) && s.reader.Reading? && k <= |s.reader.out| <= |s.buf|
    requires s.reader.todo == Range(k, |s.reader.out|)
    requires s.reader.out[..k] == FromHead(s.buf, s.head, |s.reader.out|)[..k]
    ensures Steps(states, actions, word) && states[0] == s
    ensures LastOf(states) == s.(reader := Reading(FromHead(s.buf, s.head, |s.reader.out|), {}))
    decreases |s.reader.out| - k
  {
    var out := s.reader.out;
    var all := FromHead(s.buf, s.head, |out|);
    if k == |out| {
      states, actions := [s], [];
      assert out[..k] == out && all[..k] == all && s.reader.todo == {};
    } else {
      var longer := out[k := s.buf[Slot(s.head, k, |s.buf|)]];
      var next := s.(reader := Reading(longer, s.reader.todo - {k}));
      assert next.reader.todo == Range(k + 1, |out|);
      assert longer[..k + 1] == out[..k] + [all[k]] == all[..k + 1];
      var xs, acts := ReadBytes(next, k + 1, word);
      assert Next(s, DoReadByte(k), next, word);
      FirstStep(s, DoReadByte(k), xs, acts, word);
      states, actions := [s] + xs, [DoReadByte(k)] + acts;
    }
  }

  ghost predicate Resting(s: State, word: nat) {
    PointersOk(s, word) && s.writer == WriterIdle && s.reader == ReaderIdle
  }

  ghost function RingOf(s: State): Cells { Cells(s.buf, s.head, s.tail) }

  /** The state after a call that nothing interrupts. */
  ghost function Called(s: State, c: Call, word: nat): (t: State)
    requires Resting(s, word)
    ensures Resting(t, word) && RingOf(t) == Perform(RingOf(s), c, word).0
  {
    var (r, out) := Perform(RingOf(s), c, word);
    var got := if out.Some? then out.value else [];
    s.(buf := r.buf, head := r.head, tail := r.tail,
       accepted := if c.WriteCall? then s.accepted + got else s.accepted,
       consumed := if c.ReadCall? then s.consumed + got else s.consumed)
  }

  lemma WriteLeaves(s: State, src: Bytes, word: nat)
    requires Resting(s, word)
    ensures var n := Accepted(Used(s.head, s.tail, |s.buf|, word), |src|, |s.buf|);
            var t := if n == 0 then s
                     else s.(buf := Stored(s.buf, s.tail, src[..n]), tail := Slot(s.tail, n, |s.buf|),
                             accepted := s.accepted + src[..n]);
            Called(s, WriteCall(src), word) == t
  {
    hide Used, Accepted;
    StoredParts(s.buf, s.tail, []);
    var none: Bytes := [];
    assert src[..0] == none && s.accepted + none == s.accepted;
  }

  lemma WriteCalled(s: State, src: Bytes, word: nat) returns (states: seq<State>, actions: seq<Action>)
    requires Resting(s, word)
    ensures Steps(states, actions, word) && states[0] == s && LastOf(states) == Called(s, WriteCall(src), word)
  {
    hide Called, Stored, Used, Accepted;
    var n := Accepted(Used(s.head, s.tail, |s.buf|, word), |src|, |s.buf|);
    WriteLeaves(s, src, word);
    if n == 0 {
      states, actions := [s], [];
    } else {
      var data := src[..n];
      var begun := s.(writer := Writing(|src|, data, Indices(n)));
      assert Indices(n) == Range(0, n) && data[..0] == [];
      StoredParts(s.buf, s.tail, []);
      var xs, acts := WriteBytes(begun, 0, s.buf, word);
      assert Next(s, DoWriteSnapshot(src), begun, word);
      FirstStep(s, DoWriteSnapshot(src), xs, acts, word);
      var full, done := LastOf(xs), Called(s, WriteCall(src), word);
      assert Next(full, DoWritePublish, done, word);
      NoStep(done, word);
      FirstStep(full, DoWritePublish, [done], [], word);
      states, actions := Join([s] + xs, [DoWriteSnapshot(src)] + acts, [full] + [done], [DoWritePublish] + [], word);
    }
  }

  lemma ReadCalled(s: State, count: nat, word: nat) returns (states: seq<State>, actions: seq<Action>)
    requires Resting(s, word)
    ensures Steps(states, actions, word) && states[0] == s && LastOf(states) == Called(s, ReadCall(count), word)
  {
    if count >= Used(s.head, s.tail, |s.buf|, word) {
      states, actions := [s], [];
      assert s.consumed + [] == s.consumed;
    } else {
      var begun := s.(reader := Reading(Fill(count, 0), Indices(count)));
      assert Indices(count) == Range(0, count);
      assert begun.reader.out[..0] == [] == FromHead(s.buf, s.head, count)[..0];
      hide Used;
      var xs, acts := ReadBytes(begun, 0, word);
      assert Next(s, DoReadSnapshot(count), begun, word);
      FirstStep(s, DoReadSnapshot(count), xs, acts, word);
      var full := LastOf(xs);
      var done := Called(s, ReadCall(count), word);
      assert Next(full, DoReadPublish, done, word);
      NoStep(done, word);
      FirstStep(full, DoReadPublish, [done], [], word);
      states, actions := Join([s] + xs, [DoReadSnapshot(count)] + acts, [full] + [done], [DoReadPublish] + [], word);
    }
  }

  ghost function AllCalled(s: State, cs: seq<Call>, word: nat): (t: State)
    requires Resting(s, word)
    ensures Resting(t, word)
    decreases |cs|
  {
    if cs == [] then s else AllCalled(Called(s, cs[0], word), cs[1..], word)
  }

  /** Any calls, one after the other, are a way for the threads to go. */
  lemma {:induction false} CallsAreSteps(s: State, cs: seq<Call>, word: nat)
    returns (states: seq<State>, actions: seq<Action>)
    requires Resting(s, word)
    ensures Steps(states, actions, word) && states[0] == s && LastOf(states) == AllCalled(s, cs, word)
    decreases |cs|
  {
    hide Called, Steps;
    if cs == [] {
      states, actions := [s], [];
      NoStep(s, word);
    } else {
      var xs, acts;
      match cs[0] {
        case WriteCall(src) => xs, acts := WriteCalled(s, src, word);
        case ReadCall(count) => xs, acts := ReadCalled(s, count, word);
      }
      var ys, more := CallsAreSteps(Called(s, cs[0], word), cs[1..], word);
      SomeState(xs, acts, word);
      states, actions := Join(xs, acts, ys, more, word);
    }
  }

  lemma SomeState(xs: seq<State>, acts: seq<Action>, word: nat)
    requires Steps(xs, acts, word)
    ensures xs != []
  {
  }

  // ----- When the size does not divide the word -----

  /** One call after others. */
  lemma {:induction false} CalledLast(s: State, cs: seq<Call>, c: Call, word: nat)
    requires Resting(s, word)
    ensures AllCalled(s, cs + [c], word) == Called(AllCalled(s, cs, word), c, word)
    decreases |cs|
  {
    hide Called;
    if cs == [] {
      assert [] + [c] == [c] && [c][1..] == [];
    } else {
      assert (cs + [c])[1..] == cs[1..] + [c];
      CalledLast(Called(s, cs[0], word), cs[1..], c, word);
    }
  }

  /** Fill the ring, and read a byte. */
  lemma FilledAndRead(s: State, size: nat, word: nat)
    requires Init(s, size) && 3 <= size <= word
    ensures Resting(s, word)
    ensures var t := Called(Called(s, WriteCall(Fill(size - 1, 0)), word), ReadCall(1), word);
            && t.head == 1 && t.tail == size - 1 && |t.buf| == size
            && t.accepted == Fill(size - 1, 0) && t.consumed == [0]
  {
    hide Used;
    UsedValue(0, 0, size, word);
    UsedValue(0, size - 1, size, word);
    var fill := Fill(size - 1, 0);
    assert fill[..size - 1] == fill && [] + fill == fill;
    var t1 := Called(s, WriteCall(fill), word);
    assert t1.buf[Slot(0, 0, size)] == fill[0] == 0;
    assert FromHead(t1.buf, 0, 1) == [0] && [] + [0] == [0];
  }

  /** Write a byte into the last place, and one more: that is taken although the ring is full. */
  lemma Overrun(t: State, size: nat, word: nat)
    requires Resting(t, word) && t.head == 1 && t.tail == size - 1 && |t.buf| == size && 3 <= size && word % size != 0
    ensures var u := Called(Called(t, WriteCall([0]), word), WriteCall([0]), word);
            && u.head == u.tail == 1 && |u.buf| == size
            && u.accepted == t.accepted + [0] + [0] && u.consumed == t.consumed
  {
    hide Used, Stored;
    UsedValue(1, size - 1, size, word);
    UsedValue(1, 0, size, word);
    assert [0][..1] == [0];
  }

  /** In that way more bytes than the ring has are accepted and not read, so some are lost. */
  lemma OverrunReached(s: State, size: nat, word: nat)
    requires Init(s, size) && 3 <= size <= word && word % size != 0
    ensures Resting(s, word)
    ensures var u := AllCalled(s, BadCalls(size), word);
            && u.head == u.tail == 1 && |u.buf| == size
            && u.accepted == Fill(size - 1, 0) + [0] + [0] && u.consumed == [0] && Unread(u) == size
  {
    hide Called, Fill, AllCalled;
    FilledAndRead(s, size, word);
    var fill, put := WriteCall(Fill(size - 1, 0)), WriteCall([0]);
    Overrun(Called(Called(s, fill, word), ReadCall(1), word), size, word);
    BadCallsAre(size);
    NoCalls(s, word);
    CalledLast(s, [], fill, word);
    CalledLast(s, [] + [fill], ReadCall(1), word);
    CalledLast(s, [] + [fill] + [ReadCall(1)], put, word);
    CalledLast(s, [] + [fill] + [ReadCall(1)] + [put], put, word);
  }

  lemma BadCallsAre(size: nat)
    requires size >= 3
    ensures BadCalls(size)
         == [] + [WriteCall(Fill(size - 1, 0))] + [ReadCall(1)] + [WriteCall([0])] + [WriteCall([0])]
  {
    hide Fill;
  }

  lemma NoCalls(s: State, word: nat)
    requires Resting(s, word)
    ensures AllCalled(s, [], word) == s
  {
  }

  /** After that, two more bytes are written over unread ones, and the next one read is wrong. */
  lemma WrongByte(u: State, size: nat, word: nat)
    requires Resting(u, word) && u.head == u.tail == 1 && |u.buf| == size && size >= 4
    ensures Called(Called(u, WriteCall([1, 1]), word), ReadCall(1), word).consumed == u.consumed + [1]
    ensures Called(Called(u, WriteCall([1, 1]), word), ReadCall(1), word).accepted == u.accepted + [1, 1]
  {
    hide Used;
    UsedValue(1, 1, size, word);
    UsedValue(1, 3, size, word);
    assert [1, 1][..2] == [1, 1];
    var v := Called(u, WriteCall([1, 1]), word);
    assert v.buf[Slot(1, 0, size)] == 1 && v.tail == 3;
    assert FromHead(v.buf, 1, 1) == [1];
  }

  ghost predicate AlwaysFits(size: nat, word: nat) {
    forall states: seq<State>, actions, i: nat | IsRun(states, actions, size, word) && i < |states| ::
      Unread(states[i]) < size
  }

  ghost predicate AlwaysInOrder(size: nat, word: nat) {
    forall states: seq<State>, actions, i: nat | IsRun(states, actions, size, word) && i < |states| ::
      states[i].consumed <= states[i].accepted
  }

  lemma EmptyRing(size: nat) returns (s: State)
    requires size > 0
    ensures Init(s, size)
  {
    s := State(Fill(size, 0), 0, 0, WriterIdle, ReaderIdle, [], []);
  }

  /** In all interleavings one place stays free if and only if the size divides the word. */
  lemma OnePlaceFreeIff(size: nat, word: nat)
    requires 3 <= size <= word
    ensures AlwaysFits(size, word) <==> word % size == 0
  {
    hide IsRun, Unread;
    if word % size == 0 {
      forall states: seq<State>, actions, i: nat | IsRun(states, actions, size, word) && i < |states|
        ensures Unread(states[i]) < size
      {
        InterleavingsAreSafe(states, actions, size, word, i);
      }
    } else {
      var s := EmptyRing(size);
      OverrunReached(s, size, word);
      var states, actions := CallsAreSteps(s, BadCalls(size), word);
      RunFrom(states, actions, size, word);
    }
  }

  /** A run in which the second byte read is not the second one accepted. */
  lemma WrongRun(size: nat, word: nat) returns (states: seq<State>, actions: seq<Action>)
    requires 4 <= size <= word && word % size != 0
    ensures IsRun(states, actions, size, word) && states != []
    ensures !(LastOf(states).consumed <= LastOf(states).accepted)
  {
    hide Called, AllCalled, Steps, Fill, Init;
    var s := EmptyRing(size);
    OverrunReached(s, size, word);
    var bad, put := BadCalls(size), WriteCall([1, 1]);
    WrongByte(AllCalled(s, bad, word), size, word);
    CalledLast(s, bad, put, word);
    CalledLast(s, bad + [put], ReadCall(1), word);
    states, actions := CallsAreSteps(s, bad + [put] + [ReadCall(1)], word);
    RunFrom(states, actions, size, word);
    var last := LastOf(states);
    assert last.consumed == [0] + [1] && last.accepted[1] == Fill(size - 1, 0)[1] == 0;
    assert last.consumed[1] == 1;
  }

  /** ... and what was read is always the beginning of what was accepted, under the same condition. */
  lemma InOrderIff(size: nat, word: nat)
    requires 4 <= size <= word
    ensures AlwaysInOrder(size, word) <==> word % size == 0
  {
    hide IsRun;
    if word % size == 0 {
      forall states: seq<State>, actions, i: nat | IsRun(states, actions, size, word) && i < |states|
        ensures states[i].consumed <= states[i].accepted
      {
        InterleavingsAreSafe(states, actions, size, word, i);
      }
    } else {
      var states, actions := WrongRun(size, word);
    }
  }

  lemma RunFrom(states: seq<State>, actions: seq<Action>, size: nat, word: nat)
    requires Steps(states, actions, word) && Init(states[0], size)
    ensures IsRun(states, actions, size, word) && |states| > 0 && states[|states| - 1] == LastOf(states)
  {
  }
}
