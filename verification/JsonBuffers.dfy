/**
 * What the two passes of the JSON parser do with their events: the first one counts what every
 * value will hold, the second one stores it in buffers of exactly the sizes counted.
 */
module JsonBuffers {
  import opened JsonPasses
  import opened RingBuffer

  // ----- The document that the events describe -----

  /**
   * A value: its children by number, its text once that has ended, the names of its members, and
   * the number of the value it is in, or -1.
   */
  datatype Value = Value(frame: Frame, children: seq<nat>, text: Option<string>, keys: seq<string>, parent: int)

  /** All values in order of creation, those that are not finished, and the string being read. */
  datatype Document = Document(values: seq<Value>, open: seq<nat>, part: string)

  const NOTHING := Document([], [], "")

  predicate ValidDocument(d: Document) {
    && (forall i :: 0 <= i < |d.open| ==> d.open[i] < |d.values|)
    && (forall i, j :: 0 <= i < j < |d.open| ==> d.open[i] < d.open[j])
  }

  /** The value on top. */
  function TopOf(d: Document): (v: nat)
    requires ValidDocument(d) && d.open != []
    ensures v < |d.values|
  {
    d.open[|d.open| - 1]
  }

  /** A value that has just been begun. */
  function NewValue(d: Document, frame: Frame): Value
    requires ValidDocument(d)
  {
    Value(frame, [], None, [], if d.open == [] then -1 else TopOf(d))
  }

  /** An object has as many names as children, and a string has its text. */
  predicate Complete(v: Value) {
    && (v.frame == InObject ==> |v.keys| == |v.children|)
    && (v.frame == InString ==> v.text.Some?)
  }

  /** A child is expected: always in an array, after a name in an object. */
  predicate Expecting(v: Value) {
    v.frame == InArray || (v.frame == InObject && |v.keys| == |v.children| + 1)
  }

  /** The events a document can take. */
  predicate Allowed(d: Document, e: Event)
    requires ValidDocument(d)
  {
    match e
    case Open(_) => d.part == "" && if d.open == [] then d.values == [] else Expecting(d.values[TopOf(d)])
    case Put(bytes) => bytes != "" && d.open != [] && Writable(d.values[TopOf(d)])
    case Text => d.open != [] && Writable(d.values[TopOf(d)]) && d.values[TopOf(d)].frame == InString
    case Name => d.open != [] && Writable(d.values[TopOf(d)]) && d.values[TopOf(d)].frame == InObject
    case Child =>
      && |d.open| >= 2 && d.part == "" && Complete(d.values[TopOf(d)])
      && Expecting(d.values[d.open[|d.open| - 2]])
    case Root => |d.open| == 1 && d.part == "" && Complete(d.values[TopOf(d)])
  }

  /** Text can be read: of a string that has not ended, or of a name in an object. */
  predicate Writable(v: Value) {
    (v.frame == InString && v.text.None?) || (v.frame == InObject && |v.keys| == |v.children|)
  }

  function Apply(d: Document, e: Event): (r: Document)
    requires ValidDocument(d) && Allowed(d, e)
    ensures ValidDocument(r)
  {
    var n := |d.open|;
    match e
    case Open(frame) => Document(d.values + [NewValue(d, frame)], d.open + [|d.values|], "")
    case Put(bytes) => d.(part := d.part + bytes)
    case Text =>
      var v := TopOf(d);
      d.(values := d.values[v := d.values[v].(text := Some(d.part))], part := "")
    case Name =>
      var v := TopOf(d);
      d.(values := d.values[v := d.values[v].(keys := d.values[v].keys + [d.part])], part := "")
    case Child =>
      var v := d.open[n - 2];
      d.(values := d.values[v := d.values[v].(children := d.values[v].children + [TopOf(d)])], open := d.open[..n - 1])
    case Root => d.(open := [])
  }

  predicate AllAllowed(d: Document, events: seq<Event>)
    requires ValidDocument(d)
    decreases |events|
  {
    events == [] || (Allowed(d, events[0]) && AllAllowed(Apply(d, events[0]), events[1..]))
  }

  /** The document after these events. */
  function Build(d: Document, events: seq<Event>): (r: Document)
    requires ValidDocument(d) && AllAllowed(d, events)
    ensures ValidDocument(r)
    decreases |events|
  {
    if events == [] then d else Build(Apply(d, events[0]), events[1..])
  }

  lemma {:induction false} BuildAppend(d: Document, a: seq<Event>, b: seq<Event>)
    requires ValidDocument(d) && AllAllowed(d, a) && AllAllowed(Build(d, a), b)
    ensures AllAllowed(d, a + b) && Build(d, a + b) == Build(Build(d, a), b)
    decreases |a|
  {
    hide Apply, Allowed;
    if a == [] {
      assert a + b == b;
    } else {
      assert (a + b)[1..] == a[1..] + b;
      BuildAppend(Apply(d, a[0]), a[1..], b);
    }
  }

  // ----- Every pass produces events that a document can take -----

  /** The document agrees with the state of the automaton. */
  predicate Fits(x: State, d: Document) {
    && Nested(d) && SameFrames(x, d)
    && (d.part != "" ==> x.str)
    && (x.stack == [] && !x.done ==> d.values == []) && (x.done ==> d.values != [])
    && (d.open != [] ==> TopFits(x, d.values[TopOf(d)]))
  }

  /** On top, an object expects a child exactly when a value is sought, and a string has not ended. */
  predicate TopFits(x: State, v: Value) {
    && (v.frame == InObject ==> |v.keys| == |v.children| + if x.seek then 1 else 0)
    && (v.frame == InString ==> v.text.None?)
  }

  /** One turn. */
  ghost predicate TurnFits(o: Outcome, d: Document)
    requires ValidDocument(d)
  {
    o.Go? ==> AllAllowed(d, o.events) && Fits(o.next, Build(d, o.events))
  }

  lemma NoEvents(d: Document)
    requires ValidDocument(d)
    ensures AllAllowed(d, []) && Build(d, []) == d
  {
  }

  lemma OneEvent(d: Document, e: Event)
    requires ValidDocument(d) && Allowed(d, e)
    ensures AllAllowed(d, [e]) && Build(d, [e]) == Apply(d, e)
  {
    assert [e][1..] == [];
  }

  lemma TwoEvents(d: Document, e: Event, f: Event)
    requires ValidDocument(d) && Allowed(d, e) && Allowed(Apply(d, e), f)
    ensures AllAllowed(d, [e] + [f]) && Build(d, [e] + [f]) == Apply(Apply(d, e), f)
  {
    OneEvent(d, e);
    OneEvent(Apply(d, e), f);
    BuildAppend(d, [e], [f]);
  }

  /** All values that are not open are complete, and those below the top expect a child. */
  predicate Nested(d: Document) {
    && ValidDocument(d) && (forall v :: 0 <= v < |d.values| && v !in d.open ==> Complete(d.values[v]))
    && (forall i :: 0 <= i < |d.open| - 1 ==> Expecting(d.values[d.open[i]]))
  }

  /** The open values are those on the stack. */
  predicate SameFrames(x: State, d: Document)
    requires ValidDocument(d)
  {
    |d.open| == |x.stack| && forall i :: 0 <= i < |d.open| ==> d.values[d.open[i]].frame == x.stack[i]
  }

  lemma ChildNested(d: Document)
    requires Nested(d) && |d.open| >= 2 && d.part == "" && Complete(d.values[TopOf(d)])
    ensures Allowed(d, Child) && Nested(Apply(d, Child))
    ensures var v := d.open[|d.open| - 2];
            TopOf(Apply(d, Child)) == v && Expecting(d.values[v])
            && Apply(d, Child).values[v] == d.values[v].(children := d.values[v].children + [TopOf(d)])
  {
    var n, r := |d.open|, Apply(d, Child);
    hide Complete, Expecting;
    assert Expecting(d.values[d.open[n - 2]]);
    assert d.open == r.open + [TopOf(d)] && d.open[n - 2] in r.open;
    forall v | 0 <= v < |r.values| && v !in r.open ensures Complete(r.values[v]) {
      if v in d.open {
        assert v == TopOf(d);
      }
    }
  }

  lemma RootNested(d: Document)
    requires Nested(d) && |d.open| == 1 && d.part == "" && Complete(d.values[TopOf(d)])
    ensures Allowed(d, Root) && Nested(Apply(d, Root))
  {
    hide Complete, Expecting;
    var r := Apply(d, Root);
    assert d.open == [TopOf(d)];
    forall v | 0 <= v < |r.values| ensures Complete(r.values[v]) {
      if v != TopOf(d) {
        assert v !in d.open;
      }
    }
  }

  /** The value on top is finished. */
  lemma PopFits(x: State, d: Document, pos: nat)
    requires Nested(d) && SameFrames(x, d) && x.stack != [] && !x.seek && d.part == ""
    requires Complete(d.values[TopOf(d)])
    ensures Allowed(d, PopEvent(x)) && Fits(Pop(x.(pos := pos)), Apply(d, PopEvent(x)))
  {
    var n := |d.open|;
    if n == 1 {
      RootNested(d);
    } else {
      ChildNested(d);
      hide Complete, Allowed;
      var y, r, v := Pop(x.(pos := pos)), Apply(d, Child), d.open[n - 2];
      assert r.open == d.open[..n - 1] && y.stack == x.stack[..n - 1];
      assert SameFrames(y, r);
      assert TopFits(y, r.values[v]);
    }
  }

  lemma EndFits(x: State, d: Document, y: State, pos: nat)
    requires Fits(x, d) && x.stack != [] && y.stack == x.stack && !x.str && !y.seek
    requires x.stack[|x.stack| - 1] == InArray || (x.stack[|x.stack| - 1] in {InObject, InNumber} && !x.seek)
    ensures TurnFits(Finished(y, pos, []), d)
  {
    PopFits(y, d, pos);
    hide Allowed;
    OneEvent(d, PopEvent(y));
    assert [] + [PopEvent(y)] == [PopEvent(y)];
  }

  lemma StringTop(s: string, x: State, d: Document)
    requires Sane(s, x) && x.str && Fits(x, d)
    ensures x.stack != [] && d.open != [] && ValidDocument(d) && !x.seek
    ensures Top(x) in {Some(InObject), Some(InString)} && Writable(d.values[TopOf(d)])
  {
    hide Complete, Expecting;
  }

  lemma StringFits(s: string, x: State, d: Document)
    requires Sane(s, x) && x.str && Fits(x, d)
    ensures TurnFits(StringTurn(s, x), d)
  {
    hide Sane, Fits, Complete, Expecting, Escape, Finished, Writable, Allowed, AllAllowed, Build, ValidDocument;
    StringTop(s, x, d);
    FailFits(d);
    var o := StringTurn(s, x);
    if o.Go? {
      if Top(x) == Some(InString) && o == Finished(x.(str := false), x.pos + 1, [Text]) {
        TextFits(x.(str := false), d, x.pos + 1);
      } else if o.events == [] {
        StillFits(x, d, o.next);
      } else if o.events[0].Put? {
        PutFits(x, d, o.events[0].bytes, o.next);
      } else {
        NameFits(x, d, o.next);
      }
    }
  }

  lemma PutFits(x: State, d: Document, bytes: string, y: State)
    requires Fits(x, d) && x.str && x.stack != [] && Writable(d.values[TopOf(d)]) && bytes != ""
    requires y.stack == x.stack && y.str && y.seek == x.seek && y.done == x.done
    ensures AllAllowed(d, [Put(bytes)]) && Fits(y, Build(d, [Put(bytes)]))
  {
    OneEvent(d, Put(bytes));
  }

  lemma TextFits(x: State, d: Document, pos: nat)
    requires x.stack != [] && Fits(x.(str := true), d) && !x.seek
    requires x.stack[|x.stack| - 1] == InString
    ensures TurnFits(Finished(x, pos, [Text]), d)
  {
    var e := Apply(d, Text);
    var v := TopOf(d);
    assert forall i :: 0 <= i < |d.open| - 1 ==> d.open[i] != v;
    assert v in d.open;
    PopFits(x, e, pos);
    TwoEvents(d, Text, PopEvent(x));
  }

  lemma NameFits(x: State, d: Document, y: State)
    requires Fits(x, d) && x.str && x.stack != [] && x.stack[|x.stack| - 1] == InObject && !x.seek
    requires y.stack == x.stack && y.seek && !y.str
    ensures AllAllowed(d, [Name]) && Fits(y, Build(d, [Name]))
  {
    OneEvent(d, Name);
    var v := TopOf(d);
    assert forall i :: 0 <= i < |d.open| - 1 ==> d.open[i] != v;
    assert v in d.open;
  }

  /** A new value. */
  lemma OpenFits(x: State, d: Document, frame: Frame)
    requires Fits(x, d) && x.seek && !x.str && !x.done
    requires Top(x) in {None, Some(InArray), Some(InObject)}
    ensures Allowed(d, Open(frame))
    ensures var y, e := Push(x, frame), Apply(d, Open(frame));
            && Nested(e) && SameFrames(y, e) && e.part == ""
            && e.values[TopOf(e)] == NewValue(d, frame)
  {
    var e := Apply(d, Open(frame));
    assert e.open[|e.open| - 1] == |d.values|;
    forall v | 0 <= v < |e.values| && v !in e.open ensures Complete(e.values[v]) {
      assert v < |d.values| && v !in d.open;
    }
  }

  /** A value that goes on. */
  lemma OpenGoesOn(x: State, d: Document, frame: Frame, y: State)
    requires Fits(x, d) && x.seek && !x.str && !x.done
    requires Top(x) in {None, Some(InArray), Some(InObject)}
    requires y.stack == Push(x, frame).stack && !y.done && (frame == InObject ==> !y.seek)
    ensures TurnFits(Go(y, [Open(frame)]), d)
  {
    hide Allowed, Expecting, Complete;
    OpenFits(x, d, frame);
    OneEvent(d, Open(frame));
  }

  /** A value that is finished at once. */
  lemma OpenAndPop(x: State, d: Document, frame: Frame, pos: nat, y: State)
    requires Fits(x, d) && x.seek && !x.str && !x.done && frame != InString
    requires Top(x) in {None, Some(InArray), Some(InObject)}
    requires y.stack == Push(x, frame).stack && !y.seek
    ensures TurnFits(Finished(y, pos, [Open(frame)]), d)
  {
    OpenFits(x, d, frame);
    hide Allowed, Expecting;
    var e := Apply(d, Open(frame));
    PopFits(y, e, pos);
    TwoEvents(d, Open(frame), PopEvent(y));
  }

  lemma SeekTop(s: string, x: State)
    requires Sane(s, x) && x.seek && !x.str && !x.done
    ensures x.pos <= |s| && Top(x) in {None, Some(InArray), Some(InObject)}
  {
  }

  lemma PushKeeps(x: State, frame: Frame)
    ensures !Push(x, frame).seek && Push(x, frame).done == x.done
  {
  }

  /** What a turn can lead to when a value begins. */
  lemma ValueTurns(s: string, x: State, first: bool)
    requires x.pos <= |s|
    ensures var o, pos := ValueTurn(s, x, first), x.pos + 1;
            || o == Fail || o == Go(Push(x, InObject).(pos := pos), [Open(InObject)])
            || o == Go(Push(x, InArray).(pos := pos, seek := true), [Open(InArray)])
            || o == Go(Push(x, InString).(pos := pos, str := true), [Open(InString)])
            || o == LiteralTurn(s, x, "rue", InTrue) || o == LiteralTurn(s, x, "alse", InFalse)
            || o == LiteralTurn(s, x, "ull", InNull)
            || o == NumberBegins(s, x, first)
  {
    hide LiteralTurn, NumberBegins, Push;
  }

  lemma ValueFits(s: string, x: State, first: bool, d: Document)
    requires Sane(s, x) && x.seek && !x.str && !x.done && Fits(x, d)
    ensures TurnFits(ValueTurn(s, x, first), d)
  {
    FitsValid(x, d);
    SeekTop(s, x);
    hide *;
    var pos := x.pos + 1;
    PushKeeps(x, InObject);
    PushKeeps(x, InArray);
    PushKeeps(x, InString);
    ValueTurns(s, x, first);
    FailFits(d);
    OpenGoesOn(x, d, InObject, Push(x, InObject).(pos := pos));
    OpenGoesOn(x, d, InArray, Push(x, InArray).(pos := pos, seek := true));
    OpenGoesOn(x, d, InString, Push(x, InString).(pos := pos, str := true));
    LiteralFits(s, x, d, "rue", InTrue);
    LiteralFits(s, x, d, "alse", InFalse);
    LiteralFits(s, x, d, "ull", InNull);
    NumberFits(s, x, first, d);
  }

  lemma FailFits(d: Document)
    requires ValidDocument(d)
    ensures TurnFits(Fail, d)
  {
  }

  lemma LiteralTurns(s: string, x: State, rest: string, word: Frame)
    ensures var o := LiteralTurn(s, x, rest, word);
            o == Fail || o == Finished(Push(x, word), x.pos + 1 + |rest|, [Open(word)])
  {
    hide Spelled, Finished, Push;
  }

  lemma LiteralFits(s: string, x: State, d: Document, rest: string, word: Frame)
    requires Sane(s, x) && x.seek && !x.str && !x.done && Fits(x, d) && word != InString
    ensures TurnFits(LiteralTurn(s, x, rest, word), d)
  {
    FitsValid(x, d);
    SeekTop(s, x);
    hide *;
    LiteralTurns(s, x, rest, word);
    PushKeeps(x, word);
    FailFits(d);
    OpenAndPop(x, d, word, x.pos + 1 + |rest|, Push(x, word));
  }

  lemma NumberFits(s: string, x: State, first: bool, d: Document)
    requires Sane(s, x) && x.seek && !x.str && !x.done && Fits(x, d)
    ensures TurnFits(NumberBegins(s, x, first), d)
  {
    hide Fits, TurnFits, SkipNumber;
    var y := Push(x, InNumber).(number := NoNumber());
    if first {
      OpenGoesOn(x, d, InNumber, if CharAt(s, x.pos) == '-' then y.(pos := x.pos + 1) else y);
    } else {
      OpenAndPop(x, d, InNumber, SkipNumber(s, x.pos), y);
    }
  }

  /** Nothing happens to the document. */
  lemma StillFits(x: State, d: Document, y: State)
    requires Fits(x, d) && y.stack == x.stack && y.seek == x.seek && y.done == x.done && (x.str ==> y.str)
    ensures TurnFits(Go(y, []), d)
  {
    NoEvents(d);
  }

  /** What a turn can lead to when a value is sought. */
  lemma SeekTurns(s: string, x: State, first: bool)
    requires x.pos <= |s|
    ensures var o, pos := SeekTurn(s, x, first), x.pos + 1;
            || o == Fail || o == Go(x.(pos := pos), []) || o == Go(x.(comma := false, pos := pos), [])
            || o == Go(x.(colon := false, pos := pos), []) || o == ValueTurn(s, x, first)
            || (Top(x) == Some(InArray) && o == Finished(x.(comma := false, seek := false), pos, []))
  {
    hide ValueTurn, Finished;
  }

  lemma SeekFits(s: string, x: State, first: bool, d: Document)
    requires Sane(s, x) && x.seek && !x.str && !x.done && Fits(x, d)
    ensures TurnFits(SeekTurn(s, x, first), d)
  {
    FitsValid(x, d);
    SeekTop(s, x);
    if Top(x) == Some(InArray) {
      OnTop(x, InArray);
    }
    hide *;
    var pos := x.pos + 1;
    SeekTurns(s, x, first);
    FailFits(d);
    StillFits(x, d, x.(pos := pos));
    StillFits(x, d, x.(comma := false, pos := pos));
    StillFits(x, d, x.(colon := false, pos := pos));
    ValueFits(s, x, first, d);
    if Top(x) == Some(InArray) {
      EndFits(x, d, x.(comma := false, seek := false), pos);
    }
  }

  lemma OnTop(x: State, frame: Frame)
    requires Top(x) == Some(frame)
    ensures x.stack != [] && x.stack[|x.stack| - 1] == frame
  {
  }

  lemma ObjectFits(s: string, x: State, d: Document)
    requires Sane(s, x) && !x.str && !x.seek && !x.done && Top(x) == Some(InObject) && Fits(x, d)
    ensures TurnFits(ObjectTurn(s, x), d)
  {
    FitsValid(x, d);
    OnTop(x, InObject);
    hide *;
    var pos := x.pos + 1;
    FailFits(d);
    StillFits(x, d, x.(pos := pos));
    StillFits(x, d, x.(str := true, pos := pos));
    StillFits(x, d, x.(comma := false, pos := pos));
    EndFits(x, d, x.(comma := false), pos);
    ObjectTurns(s, x);
  }

  /** What a turn in an object can lead to. */
  lemma ObjectTurns(s: string, x: State)
    requires x.stack != []
    ensures var o, pos := ObjectTurn(s, x), x.pos + 1;
            o == Fail || o == Go(x.(pos := pos), []) || o == Go(x.(str := true, pos := pos), [])
            || o == Go(x.(comma := false, pos := pos), []) || o == Finished(x.(comma := false), pos, [])
  {
    hide Finished;
  }

  lemma DigitsFit(s: string, x: State, d: Document)
    requires Sane(s, x) && !x.str && !x.seek && !x.done && Top(x) == Some(InNumber) && Fits(x, d)
    ensures TurnFits(NumberTurn(s, x), d)
  {
    FitsValid(x, d);
    hide Fits, TurnFits, NumberTurn, Finished;
    FailFits(d);
    NeverFinishes(s, x);
    if NumberTurn(s, x) == Finished(x, x.pos, []) {
      EndFits(x, d, x, x.pos);
    } else if NumberTurn(s, x).Go? {
      NumberGoesOn(s, x);
      StillFits(x, d, NumberTurn(s, x).next);
    }
  }

  lemma NeverFinishes(s: string, x: State)
    requires x.stack != []
    ensures NumberTurn(s, x).Finish? ==> false
    ensures NumberTurn(s, x).Fail? ==> NumberTurn(s, x) == Fail
  {
  }

  /** What a turn does to the values is what a document that agrees with the state can take. */
  lemma EveryTurnFits(s: string, x: State, first: bool, d: Document)
    requires Sane(s, x) && Fits(x, d)
    ensures TurnFits(Turn(s, x, first), d)
  {
    hide StringTurn, SeekTurn, ObjectTurn, NumberTurn, Fits;
    FitsValid(x, d);
    if x.str {
      StringFits(s, x, d);
    } else if x.done {
      StillFits(x, d, x.(pos := x.pos + 1));
    } else if x.seek {
      SeekFits(s, x, first, d);
    } else if Top(x) == Some(InObject) {
      ObjectFits(s, x, d);
    } else {
      DigitsFit(s, x, d);
    }
  }

  lemma FitsValid(x: State, d: Document)
    requires Fits(x, d)
    ensures ValidDocument(d)
  {
  }

  /** Nothing is open or half read, and every object has as many names as children. */
  ghost predicate Closed(d: Document) {
    d.open == [] && d.part == "" && forall v :: 0 <= v < |d.values| ==> Complete(d.values[v])
  }

  /** A pass that succeeds describes a whole document. */
  lemma {:induction false} RunFits(s: string, x: State, first: bool, d: Document)
    requires Sane(s, x) && Fits(x, d) && Run(s, x, first).Some?
    ensures AllAllowed(d, Run(s, x, first).value) && Closed(Build(d, Run(s, x, first).value))
    ensures Build(d, Run(s, x, first).value).values != []
    decreases |s| - x.pos, Phase(x)
  {
    EveryTurnFits(s, x, first, d);
    OneTurn(s, x, first);
    if Turn(s, x, first).Finish? {
      FinishFits(s, x, first, d);
      NoEvents(d);
    } else {
      hide Turn, Fits, Sane, Run, Closed, AllAllowed, Build;
      var o := Turn(s, x, first);
      SaneWithin(s, o.next);
      RunFits(s, o.next, first, Build(d, o.events));
      BuildAppend(d, o.events, Run(s, o.next, first).value);
    }
  }

  lemma FinishFits(s: string, x: State, first: bool, d: Document)
    requires Sane(s, x) && Fits(x, d) && Turn(s, x, first).Finish?
    ensures Closed(d) && d.values != []
  {
    hide *;
    FinishIs(s, x, first);
    DoneFits(x, d);
  }

  lemma FinishIs(s: string, x: State, first: bool)
    requires Sane(s, x) && Turn(s, x, first).Finish?
    ensures x.done && !x.str && x.stack == []
  {
    hide StringTurn, SeekTurn, ObjectTurn, NumberTurn;
    NeverFinishing(s, x, first);
  }

  lemma NeverFinishing(s: string, x: State, first: bool)
    requires x.pos <= |s|
    ensures !StringTurn(s, x).Finish? && !SeekTurn(s, x, first).Finish?
    ensures x.stack != [] ==> !ObjectTurn(s, x).Finish? && !NumberTurn(s, x).Finish?
  {
    hide Escape, SkipNumber, Spelled, Pop, Push;
  }

  lemma DoneFits(x: State, d: Document)
    requires Fits(x, d) && x.done && !x.str && x.stack == []
    ensures Closed(d) && d.values != []
  {
    hide Complete, Expecting, TopFits;
  }

  // ----- There is room for everything -----

  /** Names as they are laid out behind one another, each with a terminating zero. */
  function Names(keys: seq<string>): string {
    if keys == [] then ""
    else
      var k := |keys| - 1;
      Names(keys[..k]) + keys[k] + ['\0']
  }

  lemma {:induction false} NamesPrefix(keys: seq<string>, longer: seq<string>)
    requires keys <= longer
    ensures Names(keys) <= Names(longer)
    decreases |longer|
  {
    if |keys| < |longer| {
      NamesPrefix(keys, longer[..|longer| - 1]);
    } else {
      assert keys == longer;
    }
  }

  lemma NamesNext(keys: seq<string>, key: string)
    ensures Names(keys + [key]) == Names(keys) + key + ['\0']
  {
    assert (keys + [key])[..|keys|] == keys;
  }

  /** What a value holds now is the beginning of what it holds in the end. */
  predicate Precedes(v: Value, w: Value) {
    && v.frame == w.frame && v.parent == w.parent && v.children <= w.children && v.keys <= w.keys
    && (v.text.Some? ==> w.text == v.text)
  }

  predicate Below(a: Document, b: Document) {
    |a.values| <= |b.values| && forall v :: 0 <= v < |a.values| ==> Precedes(a.values[v], b.values[v])
  }

  lemma ApplyGrows(d: Document, e: Event)
    requires ValidDocument(d) && Allowed(d, e)
    ensures Below(d, Apply(d, e))
  {
  }

  lemma {:induction false} BuildGrows(d: Document, rest: seq<Event>)
    requires ValidDocument(d) && AllAllowed(d, rest)
    ensures Below(d, Build(d, rest))
    decreases |rest|
  {
    hide Apply, Allowed;
    if rest != [] {
      ApplyGrows(d, rest[0]);
      BuildGrows(Apply(d, rest[0]), rest[1..]);
    }
  }

  /** The string being read will be the beginning of the text or name it belongs to. */
  ghost predicate PartFits(d: Document, all: Document)
    requires ValidDocument(d) && d.open != []
  {
    var v, part := TopOf(d), d.part;
    && v < |all.values|
    && (d.values[v].frame == InString ==> all.values[v].text.Some? && part <= all.values[v].text.value)
    && (d.values[v].frame == InObject ==>
          && |d.values[v].keys| < |all.values[v].keys|
          && part <= all.values[v].keys[|d.values[v].keys|])
  }

  lemma {:induction false} PartIsRead(d: Document, rest: seq<Event>)
    requires ValidDocument(d) && AllAllowed(d, rest) && Closed(Build(d, rest))
    requires d.open != [] && d.part != ""
    ensures PartFits(d, Build(d, rest))
    decreases |rest|
  {
    if rest != [] {
      var e, next := rest[0], Apply(d, rest[0]);
      if e.Put? {
        PartIsRead(next, rest[1..]);
      } else {
        BuildGrows(next, rest[1..]);
        assert Precedes(next.values[TopOf(d)], Build(d, rest).values[TopOf(d)]);
      }
    }
  }

  /**
   * What the event stores lies within what the value holds in the end: the bytes of a text or a
   * name and the zero behind them, the entry of a name, the place of a child.
   */
  ghost predicate HasRoom(d: Document, e: Event, all: Document)
    requires ValidDocument(d) && Allowed(d, e)
  {
    match e
    case Open(frame) =>
      && |d.values| < |all.values| && all.values[|d.values|].frame == frame
      && all.values[|d.values|].parent == NewValue(d, frame).parent
    case Put(bytes) =>
      var v := TopOf(d);
      && v < |all.values| && d.values[v].frame == all.values[v].frame
      && (d.values[v].frame == InString ==>
            all.values[v].text.Some? && |d.part| + |bytes| <= |all.values[v].text.value|)
      && (d.values[v].frame == InObject ==>
            |Names(d.values[v].keys)| + |d.part| + |bytes| < |Names(all.values[v].keys)|)
    case Text =>
      var v := TopOf(d);
      v < |all.values| && all.values[v].text == Some(d.part)
    case Name =>
      var v := TopOf(d);
      && v < |all.values|
      && |d.values[v].keys| == |d.values[v].children| < |all.values[v].children|
      && |Names(d.values[v].keys)| + |d.part| + 1 <= |Names(all.values[v].keys)|
    case Child =>
      var v := d.open[|d.open| - 2];
      v < |all.values| && |d.values[v].children| < |all.values[v].children|
    case Root => true
  }

  lemma PutHasRoom(d: Document, bytes: string, all: Document)
    requires ValidDocument(d) && Allowed(d, Put(bytes)) && Below(Apply(d, Put(bytes)), all)
    requires PartFits(Apply(d, Put(bytes)), all)
    ensures HasRoom(d, Put(bytes), all)
  {
    var v := TopOf(d);
    var z, w := d.values[v], all.values[v];
    assert Precedes(Apply(d, Put(bytes)).values[v], w);
    if z.frame == InObject {
      var key := w.keys[|z.keys|];
      NamesNext(z.keys, key);
      assert z.keys + [key] <= w.keys;
      NamesPrefix(z.keys + [key], w.keys);
    }
  }

  lemma NameHasRoom(d: Document, all: Document)
    requires ValidDocument(d) && Allowed(d, Name) && Below(Apply(d, Name), all) && Closed(all)
    ensures HasRoom(d, Name, all)
  {
    var v := TopOf(d);
    assert Precedes(Apply(d, Name).values[v], all.values[v]) && Complete(all.values[v]);
    NamesNext(d.values[v].keys, d.part);
    NamesPrefix(d.values[v].keys + [d.part], all.values[v].keys);
  }

  lemma OtherHasRoom(d: Document, e: Event, all: Document)
    requires ValidDocument(d) && Allowed(d, e) && Below(Apply(d, e), all) && !e.Put? && !e.Name?
    ensures HasRoom(d, e, all)
  {
    var r := Apply(d, e);
    match e {
      case Open(frame) => assert Precedes(r.values[|d.values|], all.values[|d.values|]);
      case Text => assert Precedes(r.values[TopOf(d)], all.values[TopOf(d)]);
      case Child =>
        var v := d.open[|d.open| - 2];
        assert Precedes(r.values[v], all.values[v]);
      case _ =>
    }
  }

  lemma RoomForNext(d: Document, rest: seq<Event>)
    requires ValidDocument(d) && AllAllowed(d, rest) && Closed(Build(d, rest)) && rest != []
    ensures HasRoom(d, rest[0], Build(d, rest))
  {
    hide HasRoom, Allowed, Closed;
    var e, next, all := rest[0], Apply(d, rest[0]), Build(d, rest);
    BuildGrows(next, rest[1..]);
    if e.Put? {
      PutOpen(d, e.bytes);
      PartIsRead(next, rest[1..]);
      PutHasRoom(d, e.bytes, all);
    } else if e.Name? {
      NameHasRoom(d, all);
    } else {
      OtherHasRoom(d, e, all);
    }
  }

  lemma PutOpen(d: Document, bytes: string)
    requires ValidDocument(d) && Allowed(d, Put(bytes))
    ensures d.open != [] && Apply(d, Put(bytes)).open != [] && Apply(d, Put(bytes)).part != ""
  {
  }

  lemma {:induction false} BuildSplit(d: Document, a: seq<Event>, b: seq<Event>)
    requires ValidDocument(d) && AllAllowed(d, a + b)
    ensures AllAllowed(d, a) && AllAllowed(Build(d, a), b) && Build(d, a + b) == Build(Build(d, a), b)
    decreases |a|
  {
    hide Apply, Allowed;
    if a == [] {
      assert a + b == b;
    } else {
      assert (a + b)[1..] == a[1..] + b;
      BuildSplit(Apply(d, a[0]), a[1..], b);
    }
  }

  lemma StartFits()
    ensures Fits(Start(), NOTHING)
  {
  }

  /**
   * Everything that a successful pass stores has its place among what the whole text was counted
   * to need; and every object gets as many names as children.
   */
  lemma StaysInside(s: string, first: bool, k: nat)
    requires Run(s, Start(), first).Some? && k < |Run(s, Start(), first).value|
    ensures var events := Run(s, Start(), first).value;
            && AllAllowed(NOTHING, events) && AllAllowed(NOTHING, events[..k])
            && Allowed(Build(NOTHING, events[..k]), events[k])
            && HasRoom(Build(NOTHING, events[..k]), events[k], Build(NOTHING, events))
            && Closed(Build(NOTHING, events))
  {
    hide Run, Build, AllAllowed, HasRoom, Closed, Fits, Start;
    StartSane(s);
    var events := Run(s, Start(), first).value;
    StartFits();
    RunFits(s, Start(), first, NOTHING);
    assert events == events[..k] + events[k..];
    BuildSplit(NOTHING, events[..k], events[k..]);
    FirstAllowed(Build(NOTHING, events[..k]), events[k..]);
    RoomForNext(Build(NOTHING, events[..k]), events[k..]);
  }

  lemma FirstAllowed(d: Document, rest: seq<Event>)
    requires ValidDocument(d) && AllAllowed(d, rest) && rest != []
    ensures Allowed(d, rest[0]) && AllAllowed(Apply(d, rest[0]), rest[1..])
    ensures Build(d, rest) == Build(Apply(d, rest[0]), rest[1..])
  {
  }

  /** Where name j is laid out. */
  function NameStart(keys: seq<string>, j: nat): nat
    requires j <= |keys|
  {
    |Names(keys[..j])|
  }

  lemma NameAt(keys: seq<string>, j: nat)
    requires j < |keys|
    ensures var at := NameStart(keys, j);
            && NameStart(keys, j + 1) == at + |keys[j]| + 1 <= |Names(keys)|
            && Names(keys)[at..at + |keys[j]|] == keys[j] && Names(keys)[at + |keys[j]|] == '\0'
  {
    hide Names;
    assert keys[..j + 1] == keys[..j] + [keys[j]];
    NamesNext(keys[..j], keys[j]);
    NamesPrefix(keys[..j + 1], keys);
    Middle(Names(keys[..j]), keys[j], Names(keys));
  }

  lemma Middle(a: string, key: string, all: string)
    requires a + key + ['\0'] <= all
    ensures all[|a|..|a| + |key|] == key && all[|a| + |key|] == '\0'
  {
    var upTo := a + key + ['\0'];
    assert all[..|upTo|] == upTo;
    assert all[|a|..|a| + |key|] == upTo[|a|..|a| + |key|];
    assert all[|a| + |key|] == upTo[|a| + |key|];
  }

  lemma NameEnds(keys: seq<string>)
    ensures NameStart(keys, 0) == 0 && NameStart(keys, |keys|) == |Names(keys)|
  {
    assert keys[..0] == [] && keys[..|keys|] == keys;
  }

  // ----- The nodes of the program -----

  /** How much the first pass counts for a value: bytes of a string, children of the others. */
  function Length(v: Value): nat {
    if v.frame != InString then |v.children| else if v.text.Some? then |v.text.value| else 0
  }

  /** A place for a child; in an object, also for its name. */
  datatype Slot = Slot(nameAt: nat, nameLength: nat, value: nat)

  /**
   * The names lie side by side in the order of the entries, each with a zero behind it, from the
   * beginning of their area to its end.
   */
  predicate SideBySide(slots: seq<Slot>, text: string, keys: seq<string>) {
    && |slots| == |keys|
    && (forall j :: 0 <= j < |keys| ==> NamePlaced(slots, text, keys[j], j))
    && |text| == if keys == [] then 0 else slots[|keys| - 1].nameAt + slots[|keys| - 1].nameLength + 1
  }

  predicate NamePlaced(slots: seq<Slot>, text: string, key: string, j: nat)
    requires j < |slots|
  {
    var at := slots[j].nameAt;
    && at == (if j == 0 then 0 else slots[j - 1].nameAt + slots[j - 1].nameLength + 1)
    && slots[j].nameLength == |key| && at + |key| + 1 <= |text|
    && text[at..at + |key|] == key && text[at + |key|] == '\0'
  }

  /** The slots say where the names are. */
  predicate Located(slots: seq<Slot>, keys: seq<string>)
    requires |keys| <= |slots|
  {
    forall j :: 0 <= j < |keys| ==> LocatedAt(slots[j], keys, j)
  }

  predicate LocatedAt(slot: Slot, keys: seq<string>, j: nat)
    requires j < |keys|
  {
    slot.nameAt == NameStart(keys, j) && slot.nameLength == |keys[j]|
  }

  lemma OnePlaced(slots: seq<Slot>, keys: seq<string>, j: nat)
    requires |keys| == |slots| && j < |keys|
    requires LocatedAt(slots[j], keys, j) && (j > 0 ==> LocatedAt(slots[j - 1], keys, j - 1))
    ensures NamePlaced(slots, Names(keys), keys[j], j)
  {
    hide Names, NameStart;
    NameEnds(keys);
    NameAt(keys, j);
    if j > 0 {
      NameAt(keys, j - 1);
    }
  }

  lemma NamesSideBySide(slots: seq<Slot>, keys: seq<string>)
    requires |keys| == |slots| && Located(slots, keys)
    ensures SideBySide(slots, Names(keys), keys)
  {
    hide Names, NameStart, NamePlaced, LocatedAt;
    NameEnds(keys);
    forall j | 0 <= j < |keys| ensures NamePlaced(slots, Names(keys), keys[j], j) {
      OnePlaced(slots, keys, j);
    }
    if keys != [] {
      LastLocated(slots[|keys| - 1], keys);
    }
  }

  lemma LastLocated(slot: Slot, keys: seq<string>)
    requires keys != [] && LocatedAt(slot, keys, |keys| - 1)
    ensures |Names(keys)| == slot.nameAt + slot.nameLength + 1
  {
    NameAt(keys, |keys| - 1);
    NameEnds(keys);
  }

  method StoreBytes(text: array<char>, at: nat, bytes: string)
    requires at + |bytes| <= text.Length
    modifies text
    ensures text[..at + |bytes|] == old(text[..at]) + bytes
  {
    ghost var before := text[..at];
    var k := 0;
    while k < |bytes|
      invariant k <= |bytes| && text[..at + k] == before + bytes[..k]
    {
      text[at + k] := bytes[k];
      k := k + 1;
    }
    assert bytes[..k] == bytes;
  }

  class Node {
    const frame: Frame
    /** The number of the value it is in, or -1. */
    const parent: int
    /** Its number in the order of creation. */
    ghost const id: nat
    var length: nat
    /** In the first pass, how many bytes the names need. */
    var nameBytes: nat
    /** In the second pass, where the next name goes. */
    var objectMem: nat
    var slots: array<Slot>
    var text: array<char>

    constructor (frame: Frame, parent: int, ghost id: nat)
      ensures this.frame == frame && this.id == id && Counts(Value(frame, [], None, [], parent))
      ensures fresh(slots) && fresh(text)
    {
      this.frame, this.parent, this.id := frame, parent, id;
      length, nameBytes, objectMem := 0, 0, 0;
      slots, text := new Slot[0](i => Slot(0, 0, 0)), new char[0](i => '\0');
    }

    /** The node counts what the value holds. */
    ghost predicate Counts(v: Value)
      reads this
    {
      frame == v.frame && parent == v.parent && length == Length(v) && nameBytes == |Names(v.keys)|
    }

    /** The first pass at the end of the text of a string. */
    method CountText(used: nat, ghost v: Value, ghost part: string)
      requires Counts(v) && frame == InString && used == |part|
      modifies this
      ensures Counts(v.(text := Some(part)))
    {
      length := used;
    }

    /** ... at the end of a name: one more byte for the terminating zero. */
    method CountName(used: nat, ghost v: Value, ghost part: string)
      requires Counts(v) && used == |part|
      modifies this
      ensures Counts(v.(keys := v.keys + [part]))
    {
      NamesNext(v.keys, part);
      nameBytes := nameBytes + used + 1;
    }

    /** ... and when a child is finished. */
    method CountChild(ghost v: Value, ghost child: nat)
      requires Counts(v) && frame != InString
      modifies this
      ensures Counts(v.(children := v.children + [child]))
    {
      length := length + 1;
    }

    /** The buffers have the sizes that w needs, and hold v and the string being read. */
    ghost predicate Holds(v: Value, w: Value, part: string)
      reads this, slots, text
    {
      && frame == v.frame == w.frame && parent == v.parent && length == Length(v)
      && (frame != InString ==>
            && |v.children| <= slots.Length == |w.children| && text.Length == |Names(w.keys)|
            && forall j :: 0 <= j < |v.children| ==> slots[j].value == v.children[j])
      && (frame == InObject ==> HoldsNames(v.keys, part))
      && (frame == InString ==>
            && text.Length == Length(w) + 1
            && match v.text
               case None => |part| < text.Length && text[..|part|] == part
               case Some(t) => text[..] == t + ['\0'])
    }

    ghost predicate HoldsNames(keys: seq<string>, part: string)
      reads this, slots, text
    {
      && |keys| <= slots.Length && objectMem == |Names(keys)| && objectMem + |part| <= text.Length
      && text[..objectMem + |part|] == Names(keys) + part
      && Located(slots[..], keys)
    }

    /** The buffers hold exactly this value. */
    ghost predicate Filled(v: Value)
      reads this, slots, text
    {
      && frame == v.frame && parent == v.parent && length == Length(v)
      && (frame != InString ==>
            slots.Length == |v.children| && forall j :: 0 <= j < |v.children| ==> slots[j].value == v.children[j])
      && (frame == InObject ==> SideBySide(slots[..], text[..], v.keys))
      && (frame == InString ==> v.text.Some? && text[..] == v.text.value + ['\0'])
    }

    lemma HoldsAll(v: Value)
      requires Holds(v, v, "") && Complete(v)
      ensures Filled(v)
    {
      if frame == InObject {
        assert text[..] == text[..text.Length] == Names(v.keys) + "" == Names(v.keys);
        NamesSideBySide(slots[..], v.keys);
      }
    }

    /** new_value in the second pass. */
    method Allocate(ghost w: Value)
      requires Counts(w)
      modifies this
      ensures Holds(Value(frame, [], None, [], parent), w, "") && fresh(slots) && fresh(text)
    {
      slots := new Slot[if frame == InString then 0 else length](i => Slot(0, 0, 0));
      text := new char[if frame == InString then length + 1 else nameBytes](i => '\0');
      length, objectMem := 0, 0;
    }

    /** string_add: bytes go behind what has been read of the string. */
    method PutBytes(used: nat, bytes: string, ghost v: Value, ghost w: Value, ghost part: string)
      requires Holds(v, w, part) && used == |part|
      requires (frame == InString && v.text.None?) || frame == InObject
      requires frame == InString ==> |part| + |bytes| < text.Length
      requires frame == InObject ==> |Names(v.keys)| + |part| + |bytes| <= text.Length
      modifies text
      ensures Holds(v, w, part + bytes)
    {
      if frame == InString {
        StoreBytes(text, used, bytes);
      } else {
        assert Names(v.keys) + part + bytes == Names(v.keys) + (part + bytes);
        StoreBytes(text, objectMem + used, bytes);
      }
    }

    /** The end of the text of a string. */
    method EndText(used: nat, ghost v: Value, ghost w: Value, ghost part: string)
      requires Holds(v, w, part) && used == |part| && frame == InString && v.text.None? && Length(w) == |part|
      modifies this`length, text
      ensures Holds(v.(text := Some(part)), w, "")
    {
      text[used] := '\0';
      length := used;
    }

    /** The end of a name: its entry, and where the next one goes. */
    method EndName(used: nat, ghost v: Value, ghost w: Value, ghost part: string)
      requires Holds(v, w, part) && used == |part| && frame == InObject
      requires |v.keys| == |v.children| < |w.children| && |Names(v.keys)| + |part| + 1 <= |Names(w.keys)|
      modifies this`objectMem, text, slots
      ensures Holds(v.(keys := v.keys + [part]), w, "")
    {
      NamesNext(v.keys, part);
      ghost var keys := v.keys + [part];
      text[objectMem + used] := '\0';
      slots[length] := slots[length].(nameAt := objectMem, nameLength := used);
      objectMem := objectMem + used + 1;
      assert keys[..|v.keys|] == v.keys && forall j :: 0 <= j < |v.keys| ==> keys[..j] == v.keys[..j];
    }

    /** A child is finished. */
    method AddChild(child: nat, ghost v: Value, ghost w: Value)
      requires Holds(v, w, "") && frame != InString && |v.children| < |w.children|
      modifies this`length, slots
      ensures Holds(v.(children := v.children + [child]), w, "")
    {
      slots[length] := slots[length].(value := child);
      length := length + 1;
    }
  }

  /** The string being read, if value v is the one on top. */
  function PartOf(d: Document, v: nat): string
    requires ValidDocument(d)
  {
    if d.open != [] && v == TopOf(d) then d.part else ""
  }

  lemma OpenChanges(d: Document, frame: Frame)
    requires ValidDocument(d) && Allowed(d, Open(frame))
    ensures var r, n := Apply(d, Open(frame)), |d.values|;
            && |r.values| == n + 1 && r.values[n] == NewValue(d, frame) && PartOf(r, n) == ""
            && r.open == d.open + [n] && r.part == ""
            && forall i :: 0 <= i < n ==> r.values[i] == d.values[i] && PartOf(r, i) == PartOf(d, i)
  {
  }

  class Parser {
    /** In the order in which they were created. */
    var nodes: seq<Node>
    /** How many of them the second pass has reached. */
    var made: nat
    /** The values from the root to the one on top. */
    var open: seq<nat>
    /** string_length */
    var used: nat
    /** The buffers of the nodes that the second pass has reached, and whose they are. */
    ghost var slotOwner: map<array<Slot>, nat>
    ghost var textOwner: map<array<char>, nat>

    constructor ()
      ensures nodes == [] && open == [] && used == 0 && made == 0 && slotOwner == map[] && textOwner == map[]
    {
      nodes, open, used, made := [], [], 0, 0;
      slotOwner, textOwner := map[], map[];
    }

    ghost predicate Numbered()
      reads this`nodes
    {
      forall i :: 0 <= i < |nodes| ==> nodes[i].id == i
    }

    /** The first pass has counted this much. */
    ghost predicate Counted(d: Document)
      reads this, nodes
    {
      && Numbered() && |nodes| == |d.values| && open == d.open && used == |d.part|
      && forall i :: 0 <= i < |nodes| ==> nodes[i].Counts(d.values[i])
    }

    /** What the first pass does at an event. */
    method CountEvent(e: Event, ghost d: Document)
      requires ValidDocument(d) && Allowed(d, e) && Counted(d)
      modifies this, nodes
      ensures Counted(Apply(d, e))
      ensures forall i :: 0 <= i < |nodes| ==> nodes[i] in old(nodes) || fresh(nodes[i])
    {
      hide Node.Counts, Complete;
      NodeFrames(d);
      var top := |open| - 1;
      match e {
        case Open(frame) =>
          CountOpen(frame, d);
        case Put(bytes) =>
          used := used + |bytes|;
        case Text =>
          nodes[open[top]].CountText(used, d.values[TopOf(d)], d.part);
          used := 0;
        case Name =>
          nodes[open[top]].CountName(used, d.values[TopOf(d)], d.part);
          used := 0;
        case Child =>
          nodes[open[top - 1]].CountChild(d.values[open[top - 1]], open[top]);
          open := open[..top];
        case Root =>
          open := open[..top];
      }
    }

    method CountOpen(frame: Frame, ghost d: Document)
      requires ValidDocument(d) && Allowed(d, Open(frame)) && Counted(d)
      modifies this
      ensures Counted(Apply(d, Open(frame)))
      ensures forall i :: 0 <= i < |nodes| ==> nodes[i] in old(nodes) || fresh(nodes[i])
    {
      hide Node.Counts, Allowed;
      var n := new Node(frame, if open == [] then -1 else open[|open| - 1], |nodes|);
      open := open + [|nodes|];
      nodes := nodes + [n];
      used := 0;
    }

    lemma NodeFrames(d: Document)
      requires Counted(d)
      ensures forall i :: 0 <= i < |nodes| ==> nodes[i].frame == d.values[i].frame
    {
    }

    /** Every node that the second pass has reached has its own buffers. */
    ghost predicate Apart()
      reads this`nodes, this`made, this`slotOwner, this`textOwner, nodes`slots, nodes`text
    {
      && Numbered() && made <= |nodes|
      && (forall i :: 0 <= i < made ==>
            && nodes[i].slots in slotOwner && slotOwner[nodes[i].slots] == i
            && nodes[i].text in textOwner && textOwner[nodes[i].text] == i)
    }

    /** The second pass has stored d, which in the end will be the whole document. */
    ghost predicate Stored(d: Document, whole: Document)
      requires ValidDocument(d)
      reads this, nodes, slotOwner.Keys, textOwner.Keys
    {
      && Apart() && made == |d.values| <= |nodes| == |whole.values| && open == d.open && used == |d.part|
      && (forall i :: 0 <= i < made ==> nodes[i].Holds(d.values[i], whole.values[i], PartOf(d, i)))
      && (forall i :: made <= i < |nodes| ==> nodes[i].Counts(whole.values[i]))
    }

    /** The next node in the order of creation gets its buffers. */
    method Reach(ghost d: Document, ghost whole: Document)
      requires ValidDocument(d) && Stored(d, whole) && made < |nodes|
      modifies this`made, this`slotOwner, this`textOwner, nodes[made]
      ensures Apart() && made == old(made) + 1
      ensures nodes[made - 1].Holds(Value(nodes[made - 1].frame, [], None, [], nodes[made - 1].parent),
                                    whole.values[made - 1], "")
      ensures forall i :: 0 <= i < made - 1 ==> nodes[i].Holds(d.values[i], whole.values[i], PartOf(d, i))
      ensures forall i :: made <= i < |nodes| ==> nodes[i].Counts(whole.values[i])
      ensures fresh(slotOwner.Keys - old(slotOwner.Keys)) && fresh(textOwner.Keys - old(textOwner.Keys))
    {
      hide Node.Holds, Node.Counts, PartOf, ValidDocument;
      var n := nodes[made];
      n.Allocate(whole.values[made]);
      slotOwner, textOwner := slotOwner[n.slots := made], textOwner[n.text := made];
      made := made + 1;
    }

    method StoreOpen(frame: Frame, ghost d: Document, ghost whole: Document)
      requires ValidDocument(d) && Allowed(d, Open(frame)) && Stored(d, whole)
      requires HasRoom(d, Open(frame), whole)
      modifies this, nodes
      ensures Stored(Apply(d, Open(frame)), whole) && nodes == old(nodes)
      ensures fresh(slotOwner.Keys - old(slotOwner.Keys)) && fresh(textOwner.Keys - old(textOwner.Keys))
    {
      hide Node.Holds, Node.Counts, Apply, Allowed, PartOf, ValidDocument, HasRoom, Apart;
      OpenChanges(d, frame);
      OpenRoom(d, frame, whole);
      FrameOf(nodes[made], whole.values[made]);
      Reach(d, whole);
      open := open + [made - 1];
      used := 0;
    }

    /** No other node is this one, or has one of its buffers. */
    lemma Unshared(v: nat)
      requires Apart() && v < made
      ensures made <= |nodes| && nodes[v].slots in slotOwner && nodes[v].text in textOwner
      ensures forall i :: 0 <= i < |nodes| && i != v ==> nodes[i] != nodes[v]
      ensures forall i :: 0 <= i < made && i != v ==>
                nodes[i].slots != nodes[v].slots && nodes[i].text != nodes[v].text
    {
    }

    method StorePut(bytes: string, ghost d: Document, ghost whole: Document)
      requires ValidDocument(d) && Allowed(d, Put(bytes)) && Stored(d, whole) && HasRoom(d, Put(bytes), whole)
      modifies this`used, textOwner.Keys
      ensures Stored(Apply(d, Put(bytes)), whole)
    {
      hide Node.Holds, Node.Counts, Apply, Allowed, PartOf, ValidDocument, HasRoom, Apart;
      PutChanges(d, bytes);
      var v := open[|open| - 1];
      Unshared(v);
      PutRoom(nodes[v], d, bytes, whole);
      nodes[v].PutBytes(used, bytes, d.values[v], whole.values[v], d.part);
      used := used + |bytes|;
    }

    method StoreText(ghost d: Document, ghost whole: Document)
      requires ValidDocument(d) && Allowed(d, Text) && Stored(d, whole) && HasRoom(d, Text, whole)
      modifies this`used, nodes, textOwner.Keys
      ensures Stored(Apply(d, Text), whole) && nodes == old(nodes)
    {
      hide Node.Holds, Node.Counts, Apply, Allowed, PartOf, ValidDocument, HasRoom, Apart;
      TextChanges(d);
      var v := open[|open| - 1];
      Unshared(v);
      TextRoom(nodes[v], d, whole);
      nodes[v].EndText(used, d.values[v], whole.values[v], d.part);
      used := 0;
    }

    method StoreName(ghost d: Document, ghost whole: Document)
      requires ValidDocument(d) && Allowed(d, Name) && Stored(d, whole) && HasRoom(d, Name, whole)
      modifies this`used, nodes, slotOwner.Keys, textOwner.Keys
      ensures Stored(Apply(d, Name), whole) && nodes == old(nodes)
    {
      hide Node.Holds, Node.Counts, Apply, Allowed, PartOf, ValidDocument, HasRoom, Apart;
      NameChanges(d);
      var v := open[|open| - 1];
      Unshared(v);
      NameRoom(nodes[v], d, whole);
      nodes[v].EndName(used, d.values[v], whole.values[v], d.part);
      used := 0;
    }

    method StoreChild(ghost d: Document, ghost whole: Document)
      requires ValidDocument(d) && Allowed(d, Child) && Stored(d, whole) && HasRoom(d, Child, whole)
      modifies this`open, nodes, slotOwner.Keys
      ensures Stored(Apply(d, Child), whole) && nodes == old(nodes)
    {
      hide Node.Holds, Node.Counts, Apply, Allowed, PartOf, ValidDocument, HasRoom, Apart;
      ChildChanges(d);
      var top, v := open[|open| - 1], open[|open| - 2];
      Unshared(v);
      ChildRoom(nodes[v], d, whole);
      nodes[v].AddChild(top, d.values[v], whole.values[v]);
      open := open[..|open| - 1];
    }

    method StoreRoot(ghost d: Document, ghost whole: Document)
      requires ValidDocument(d) && Allowed(d, Root) && Stored(d, whole)
      modifies this`open
      ensures Stored(Apply(d, Root), whole)
    {
      hide Node.Holds, Node.Counts, Apply, Allowed, PartOf, ValidDocument, Apart;
      RootChanges(d);
      open := open[..|open| - 1];
      assert open == [];
    }

    /** What the second pass does at an event. */
    method StoreEvent(e: Event, ghost d: Document, ghost whole: Document)
      requires ValidDocument(d) && Allowed(d, e) && Stored(d, whole) && HasRoom(d, e, whole)
      modifies this, nodes, slotOwner.Keys, textOwner.Keys
      ensures Stored(Apply(d, e), whole) && nodes == old(nodes)
      ensures fresh(slotOwner.Keys - old(slotOwner.Keys)) && fresh(textOwner.Keys - old(textOwner.Keys))
    {
      hide *;
      match e {
        case Open(frame) => StoreOpen(frame, d, whole);
        case Put(bytes) => StorePut(bytes, d, whole);
        case Text => StoreText(d, whole);
        case Name => StoreName(d, whole);
        case Child => StoreChild(d, whole);
        case Root => StoreRoot(d, whole);
      }
    }

    /** The events of one turn of the first pass. */
    method CountAll(more: seq<Event>, ghost d: Document)
      requires ValidDocument(d) && AllAllowed(d, more) && Counted(d)
      modifies this, nodes
      ensures Counted(Build(d, more))
      ensures forall i :: 0 <= i < |nodes| ==> nodes[i] in old(nodes) || fresh(nodes[i])
    {
      hide Counted, Apply, Allowed, AllAllowed, Build, ValidDocument;
      var k := 0;
      ghost var now := d;
      assert more[0..] == more;
      while k < |more|
        invariant k <= |more| && ValidDocument(now) && Counted(now)
        invariant AllAllowed(now, more[k..]) && Build(now, more[k..]) == Build(d, more)
        invariant forall i :: 0 <= i < |nodes| ==> nodes[i] in old(nodes) || fresh(nodes[i])
      {
        FirstAllowed(now, more[k..]);
        assert more[k..][1..] == more[k + 1..];
        CountEvent(more[k], now);
        now := Apply(now, more[k]);
        k := k + 1;
      }
      assert more[k..] == [];
      NoEvents(now);
    }

    lemma CountedNothing()
      requires nodes == [] && open == [] && used == 0
      ensures ValidDocument(NOTHING) && Counted(NOTHING)
    {
    }

    /** The first pass: it counts what every value of the document will hold. */
    method Measure(s: string) returns (ok: bool)
      requires nodes == [] && open == [] && used == 0
      modifies this
      ensures ok <==> Run(s, Start(), true).Some?
      ensures ok ==>
                var events := Run(s, Start(), true).value;
                AllAllowed(NOTHING, events) && Counted(Build(NOTHING, events))
      ensures forall i :: 0 <= i < |nodes| ==> fresh(nodes[i])
    {
      hide *;
      StartSane(s);
      StartFits();
      CountedNothing();
      var x := Start();
      ghost var d: Document, events: seq<Event> := NOTHING, [];
      NoEvents(d);
      ThenNothing(Run(s, x, true));
      while true
        invariant Sane(s, x) && Fits(x, d) && ValidDocument(d) && Counted(d)
        invariant AllAllowed(NOTHING, events) && d == Build(NOTHING, events)
        invariant Then(events, Run(s, x, true)) == Run(s, Start(), true)
        invariant forall i :: 0 <= i < |nodes| ==> fresh(nodes[i])
        decreases |s| - x.pos, Phase(x)
      {
        OneTurn(s, x, true);
        EveryTurnFits(s, x, true, d);
        ThenNone(events);
        match Turn(s, x, true) {
          case Fail => return false;
          case Finish =>
            assert events + [] == events;
            return true;
          case Go(y, more) =>
            TurnGoes(s, x, true, d);
            CountAll(more, d);
            BuildAppend(NOTHING, events, more);
            ThenThen(events, more, Run(s, y, true));
            x, d, events := y, Build(d, more), events + more;
        }
      }
    }

    /** The events of one turn of the second pass. */
    method StoreAll(more: seq<Event>, ghost d: Document, ghost rest: seq<Event>, ghost whole: Document)
      returns (ghost next: Document)
      requires ValidDocument(d) && AllAllowed(d, more + rest) && Stored(d, whole)
      requires whole == Build(d, more + rest) && Closed(whole)
      modifies this, nodes, slotOwner.Keys, textOwner.Keys
      ensures ValidDocument(next) && AllAllowed(next, rest) && whole == Build(next, rest) && Stored(next, whole)
      ensures nodes == old(nodes)
      ensures fresh(slotOwner.Keys - old(slotOwner.Keys)) && fresh(textOwner.Keys - old(textOwner.Keys))
    {
      hide *;
      var k := 0;
      next := d;
      assert more[0..] == more;
      while k < |more|
        invariant k <= |more| && ValidDocument(next) && Stored(next, whole) && nodes == old(nodes)
        invariant AllAllowed(next, more[k..] + rest) && Build(next, more[k..] + rest) == whole
        invariant fresh(slotOwner.Keys - old(slotOwner.Keys)) && fresh(textOwner.Keys - old(textOwner.Keys))
      {
        ghost var left := more[k..] + rest;
        assert left[0] == more[k] && left[1..] == more[k + 1..] + rest;
        FirstAllowed(next, left);
        RoomForNext(next, left);
        StoreEvent(more[k], next, whole);
        next := Apply(next, more[k]);
        k := k + 1;
      }
      assert more[k..] + rest == rest;
    }

    /** The second pass starts over with the nodes of the first. */
    method Restart(ghost whole: Document)
      requires Counted(whole)
      modifies this
      ensures ValidDocument(NOTHING) && Stored(NOTHING, whole) && nodes == old(nodes)
      ensures slotOwner == map[] && textOwner == map[]
    {
      made, open, used := 0, [], 0;
      slotOwner, textOwner := map[], map[];
    }

    /** The second pass: it stores the document in buffers of the sizes counted. */
    method Fill(s: string, ghost whole: Document)
      requires Run(s, Start(), true).Some?
      requires AllAllowed(NOTHING, Run(s, Start(), true).value)
      requires whole == Build(NOTHING, Run(s, Start(), true).value) && Closed(whole) && Counted(whole)
      modifies this, nodes
      ensures ValidDocument(whole) && Stored(whole, whole) && nodes == old(nodes)
    {
      hide *;
      StartSane(s);
      PassesAgree(s, Start());
      Restart(whole);
      var x := Start();
      ghost var d, rest := NOTHING, Run(s, x, true).value;
      while true
        invariant Sane(s, x) && Run(s, x, false) == Some(rest)
        invariant ValidDocument(d) && AllAllowed(d, rest) && whole == Build(d, rest) && Stored(d, whole)
        invariant nodes == old(nodes) && fresh(slotOwner.Keys) && fresh(textOwner.Keys)
        decreases |s| - x.pos, Phase(x)
      {
        OneTurn(s, x, false);
        match Turn(s, x, false) {
          case Fail => assert false;
          case Finish =>
            NoEvents(d);
            return;
          case Go(y, more) =>
            TurnAdvanced(s, x, false);
            ThenIs(more, Run(s, y, false), rest);
            ghost var left := Run(s, y, false).value;
            d := StoreAll(more, d, left, whole);
            x, rest := y, left;
        }
      }
    }

    /**
     * json_parse_ex: the text is accepted if and only if the first pass succeeds; and then every
     * value has the buffers that the text describes, filled to the last byte.
     */
    method Parse(s: string) returns (ok: bool)
      requires nodes == [] && open == [] && used == 0
      modifies this
      ensures ok <==> Run(s, Start(), true).Some?
      ensures ok ==>
                var events := Run(s, Start(), true).value;
                && AllAllowed(NOTHING, events)
                && var whole := Build(NOTHING, events);
                   |nodes| == |whole.values| && forall i :: 0 <= i < |nodes| ==> nodes[i].Filled(whole.values[i])
    {
      hide *;
      StartSane(s);
      ok := Measure(s);
      if ok {
        StartFits();
        FitsValid(Start(), NOTHING);
        ghost var whole := Build(NOTHING, Run(s, Start(), true).value);
        RunFits(s, Start(), true, NOTHING);
        Fill(s, whole);
        AllFilled(whole);
      }
    }

    lemma AllFilled(whole: Document)
      requires ValidDocument(whole) && Stored(whole, whole) && Closed(whole)
      ensures |nodes| == |whole.values| && forall i :: 0 <= i < |nodes| ==> nodes[i].Filled(whole.values[i])
    {
      forall i | 0 <= i < |nodes| ensures nodes[i].Filled(whole.values[i]) {
        nodes[i].HoldsAll(whole.values[i]);
      }
    }
  }

  lemma ThenIs(events: seq<Event>, rest: Option<seq<Event>>, all: seq<Event>)
    requires Then(events, rest) == Some(all)
    ensures rest.Some? && all == events + rest.value
  {
  }

  lemma TurnAdvanced(s: string, x: State, first: bool)
    requires Sane(s, x) && Advances(s, x, Turn(s, x, first)) && Turn(s, x, first).Go?
    ensures var y := Turn(s, x, first).next;
            && Sane(s, y) && |s| - y.pos >= 0
            && (y.pos > x.pos || (y.pos == x.pos && Phase(y) < Phase(x)))
  {
    hide Turn;
  }

  lemma TextChanges(d: Document)
    requires ValidDocument(d) && Allowed(d, Text)
    ensures d.open != [] && var r, v := Apply(d, Text), TopOf(d);
            && |r.values| == |d.values| && r.open == d.open && r.part == ""
            && r.values[v] == d.values[v].(text := Some(d.part)) && d.values[v].text.None?
            && PartOf(d, v) == d.part && PartOf(r, v) == ""
            && forall i :: 0 <= i < |d.values| && i != v ==> r.values[i] == d.values[i] && PartOf(r, i) == PartOf(d, i)
  {
  }

  lemma TextRoom(n: Node, d: Document, whole: Document)
    requires ValidDocument(d) && Allowed(d, Text) && HasRoom(d, Text, whole)
    requires var v := TopOf(d); n.Holds(d.values[v], whole.values[v], d.part)
    ensures n.frame == InString && Length(whole.values[TopOf(d)]) == |d.part|
  {
  }

  lemma NameChanges(d: Document)
    requires ValidDocument(d) && Allowed(d, Name)
    ensures d.open != [] && var r, v := Apply(d, Name), TopOf(d);
            && |r.values| == |d.values| && r.open == d.open && r.part == ""
            && r.values[v] == d.values[v].(keys := d.values[v].keys + [d.part])
            && PartOf(d, v) == d.part && PartOf(r, v) == ""
            && forall i :: 0 <= i < |d.values| && i != v ==> r.values[i] == d.values[i] && PartOf(r, i) == PartOf(d, i)
  {
  }

  lemma NameRoom(n: Node, d: Document, whole: Document)
    requires ValidDocument(d) && Allowed(d, Name) && HasRoom(d, Name, whole)
    requires var v := TopOf(d); n.Holds(d.values[v], whole.values[v], d.part)
    ensures var v := TopOf(d);
            && n.frame == InObject && |d.values[v].keys| == |d.values[v].children| < |whole.values[v].children|
            && |Names(d.values[v].keys)| + |d.part| + 1 <= |Names(whole.values[v].keys)|
  {
  }

  lemma ChildChanges(d: Document)
    requires ValidDocument(d) && Allowed(d, Child)
    ensures |d.open| >= 2 && var r, v := Apply(d, Child), d.open[|d.open| - 2];
            && v < |d.values| == |r.values| && r.open == d.open[..|d.open| - 1] && r.part == d.part == ""
            && r.values[v] == d.values[v].(children := d.values[v].children + [d.open[|d.open| - 1]])
            && (forall i :: 0 <= i < |d.values| ==> PartOf(r, i) == PartOf(d, i) == "")
            && forall i :: 0 <= i < |d.values| && i != v ==> r.values[i] == d.values[i]
  {
  }

  lemma ChildRoom(n: Node, d: Document, whole: Document)
    requires ValidDocument(d) && Allowed(d, Child) && HasRoom(d, Child, whole)
    requires var v := d.open[|d.open| - 2]; n.Holds(d.values[v], whole.values[v], "")
    ensures var v := d.open[|d.open| - 2];
            n.frame != InString && |d.values[v].children| < |whole.values[v].children|
  {
  }

  lemma RootChanges(d: Document)
    requires ValidDocument(d) && Allowed(d, Root)
    ensures var r := Apply(d, Root);
            && |d.open| == 1 && r.values == d.values && r.open == [] && r.part == d.part
            && forall i :: 0 <= i < |d.values| ==> PartOf(r, i) == PartOf(d, i)
  {
  }

  lemma ThenNone(events: seq<Event>)
    ensures Then(events, None) == None && Then(events, Some([])) == Some(events)
  {
    assert events + [] == events;
  }

  lemma TurnGoes(s: string, x: State, first: bool, d: Document)
    requires Sane(s, x) && ValidDocument(d) && TurnFits(Turn(s, x, first), d) && Advances(s, x, Turn(s, x, first))
    requires Turn(s, x, first).Go?
    ensures var o := Turn(s, x, first);
            && AllAllowed(d, o.events) && Fits(o.next, Build(d, o.events)) && Sane(s, o.next)
            && |s| - o.next.pos >= 0
            && (o.next.pos > x.pos || (o.next.pos == x.pos && Phase(o.next) < Phase(x)))
  {
    hide Turn, AllAllowed, Fits, Build;
  }

  lemma PutChanges(d: Document, bytes: string)
    requires ValidDocument(d) && Allowed(d, Put(bytes))
    ensures d.open != [] && var r, v := Apply(d, Put(bytes)), TopOf(d);
            && r.values == d.values && r.open == d.open && r.part == d.part + bytes
            && PartOf(d, v) == d.part && PartOf(r, v) == r.part
            && forall i :: 0 <= i < |d.values| && i != v ==> PartOf(r, i) == PartOf(d, i)
  {
  }

  lemma PutRoom(n: Node, d: Document, bytes: string, whole: Document)
    requires ValidDocument(d) && Allowed(d, Put(bytes)) && HasRoom(d, Put(bytes), whole)
    requires var v := TopOf(d); n.Holds(d.values[v], whole.values[v], d.part)
    ensures var v := TopOf(d);
            && ((n.frame == InString && d.values[v].text.None?) || n.frame == InObject)
            && (n.frame == InString ==> |d.part| + |bytes| < n.text.Length)
            && (n.frame == InObject ==> |Names(d.values[v].keys)| + |d.part| + |bytes| <= n.text.Length)
  {
  }

  lemma OpenRoom(d: Document, frame: Frame, whole: Document)
    requires ValidDocument(d) && Allowed(d, Open(frame)) && HasRoom(d, Open(frame), whole)
    ensures |d.values| < |whole.values|
    ensures var v := whole.values[|d.values|]; Value(v.frame, [], None, [], v.parent) == NewValue(d, frame)
  {
  }

  lemma FrameOf(n: Node, v: Value)
    requires n.Counts(v)
    ensures n.frame == v.frame && n.parent == v.parent
  {
  }
}
