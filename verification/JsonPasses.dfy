/**
 * The JSON parser runs the same automaton twice over the text: once to measure every value, once
 * to fill buffers of exactly those sizes. Only numbers are treated differently: the second pass
 * skips them by a cruder rule.
 */
module JsonPasses {
  import opened Arithmetic
  import opened RingBuffer

  /** A value that has been begun and not finished. */
  datatype Frame = InArray | InObject | InString | InNumber | InTrue | InFalse | InNull

  /** What the first pass remembers of a number. */
  datatype Number = Number(double: bool, digits: bool, zero: bool, exp: bool, signed: bool)

  /** The position in the text, the flags, and the values from the root to the one on top. */
  datatype State = State(
    pos: nat, str: bool, escaped: bool, seek: bool, comma: bool, colon: bool, done: bool,
    stack: seq<Frame>, number: Number)

  /**
   * What a pass does to the values: it creates one, gives bytes to a string, ends the text of a
   * value or a name, and puts a finished value into its parent or makes it the result.
   */
  datatype Event = Open(frame: Frame) | Put(bytes: string) | Text | Name | Child | Root

  datatype Outcome = Fail | Finish | Go(next: State, events: seq<Event>)

  /** The character at a position; behind the text there is a zero. */
  function CharAt(s: string, i: nat): char { if i < |s| then s[i] else '\0' }

  predicate Digit(c: char) { '0' <= c <= '9' }

  predicate Space(c: char) { c == ' ' || c == '\t' || c == '\r' || c == '\n' }

  /** The characters the second pass takes for parts of a number. */
  predicate NumberChar(c: char) {
    Digit(c) || c == '+' || c == '-' || c == 'e' || c == 'E' || c == '.'
  }

  function NoNumber(): Number { Number(false, false, false, false, false) }

  function Start(): State { State(0, false, false, true, false, false, false, [], NoNumber()) }

  function Top(x: State): Option<Frame> {
    if x.stack == [] then None else Some(x.stack[|x.stack| - 1])
  }

  /** flag_next: the value on top is finished and goes into its parent. */
  function Pop(x: State): (y: State)
    requires x.stack != []
  {
    var rest := x.stack[..|x.stack| - 1];
    x.(comma := true, stack := rest, number := NoNumber(), done := rest == [],
       seek := x.seek || (rest != [] && rest[|rest| - 1] == InArray))
  }

  function PopEvent(x: State): Event
    requires x.stack != []
  {
    if |x.stack| == 1 then Root else Child
  }

  /** The turn that finishes the value on top; the next one looks at position pos. */
  function Finished(x: State, pos: nat, events: seq<Event>): Outcome
    requires x.stack != []
  {
    Go(Pop(x.(pos := pos)), events + [PopEvent(x)])
  }

  // ----- Strings -----

  function Hex(c: char): (h: Option<nat>)
    ensures h.Some? ==> h.value < 16
  {
    if Digit(c) then Some((c as int) - ('0' as int))
    else if c in {'a', 'A'} then Some(10)
    else if c in {'b', 'B'} then Some(11)
    else if c in {'c', 'C'} then Some(12)
    else if c in {'d', 'D'} then Some(13)
    else if c in {'e', 'E'} then Some(14)
    else if c in {'f', 'F'} then Some(15)
    else None
  }

  /** The number written by the four digits from position i on. */
  function HexFour(s: string, i: nat): (h: Option<nat>)
    ensures h.Some? ==> i + 4 <= |s| && h.value < 0x10000
  {
    var a, b, c, d := Hex(CharAt(s, i)), Hex(CharAt(s, i + 1)), Hex(CharAt(s, i + 2)), Hex(CharAt(s, i + 3));
    if a.Some? && b.Some? && c.Some? && d.Some?
    then Some(((a.value * 16 + b.value) * 16 + c.value) * 16 + d.value)
    else None
  }

  /** A code point in UTF-8. */
  function Utf8(u: nat): (bytes: string)
    requires u < 0x110000
    ensures 1 <= |bytes| <= 4
  {
    if u <= 0x7f then [u as char]
    else if u <= 0x7ff then [(0xc0 + u / 64) as char, (0x80 + u % 64) as char]
    else if u <= 0xffff then
      [(0xe0 + u / 4096) as char, (0x80 + u / 64 % 64) as char, (0x80 + u % 64) as char]
    else
      [(0xf0 + u / 262144) as char, (0x80 + u / 4096 % 64) as char,
       (0x80 + u / 64 % 64) as char, (0x80 + u % 64) as char]
  }

  /** Reading UTF-8: the first byte tells the length, the others carry six bits each. */
  function FromUtf8(bytes: string): (u: int)
    requires 1 <= |bytes| <= 4
  {
    var more := (i: nat) requires 0 < i < |bytes| => bytes[i] as int - 0x80;
    var lead := bytes[0] as int;
    if lead < 0x80 || |bytes| == 1 then lead
    else if lead < 0xe0 || |bytes| == 2 then (lead - 0xc0) * 64 + more(1)
    else if lead < 0xf0 || |bytes| == 3 then ((lead - 0xe0) * 64 + more(1)) * 64 + more(2)
    else (((lead - 0xf0) * 64 + more(1)) * 64 + more(2)) * 64 + more(3)
  }

  /** A code point is read back from its bytes, and the first byte tells how many there are. */
  lemma Utf8RoundTrip(u: nat)
    requires u < 0x110000
    ensures FromUtf8(Utf8(u)) == u
    ensures var lead := Utf8(u)[0] as int;
            |Utf8(u)| == if lead < 0x80 then 1 else if lead < 0xe0 then 2 else if lead < 0xf0 then 3 else 4
  {
    if u > 0xffff {
      SixBits(u);
      SixBits(u / 64);
      SixBits(u / 4096);
      assert u / 64 / 64 == u / 4096 && u / 4096 / 64 == u / 262144;
    } else if u > 0x7ff {
      assert u / 64 / 64 == u / 4096;
    }
  }

  lemma SixBits(u: nat)
    ensures u == u / 64 * 64 + u % 64
  {
  }

  /** The twenty bits that a pair of surrogates carries. */
  function PairBits(high: nat, low: nat): (off: nat)
    ensures off < 0x100000
  {
    high % 0x400 * 0x400 + low % 0x400
  }

  /** The code point of a pair of surrogates (RFC 2781, section 2.2). */
  function CodePoint(high: nat, low: nat): (u: nat)
    ensures u < 0x110000
  {
    0x10000 + PairBits(high, low)
  }

  /** The program sets bit 16 instead of adding it: nothing is carried if that bit is already set. */
  function Surrogates(high: nat, low: nat): (u: nat)
    ensures 0x10000 <= u < 0x100000
  {
    var off := PairBits(high, low);
    0x10000 + off % 0x10000 + off / 0x20000 * 0x20000
  }

  /** Setting bit 16 keeps the sixteen bits below it and the bits above it. */
  lemma SetBit(off: bv32)
    requires off < 0x100000
    ensures 0x10000 | off == 0x10000 + off % 0x10000 + off / 0x20000 * 0x20000
  {
  }

  /** The pair is read right exactly if the bit 6 of its first half, which becomes that bit, is not set. */
  lemma SurrogatesRightIff(high: nat, low: nat)
    ensures Surrogates(high, low) == CodePoint(high, low) <==> high / 0x40 % 2 == 0
  {
    var off := PairBits(high, low);
    var h, l := high % 0x400, low % 0x400;
    DivisionIs(off, 0x10000, h / 0x40, h % 0x40 * 0x400 + l);
    DivisionIs(off, 0x20000, h / 0x80, h % 0x80 * 0x400 + l);
    SameBit(high);
    assert off == h / 0x40 * 0x10000 + off % 0x10000;
  }

  lemma SameBit(high: nat)
    ensures var h := high % 0x400; h / 0x40 == h / 0x80 * 2 + high / 0x40 % 2
  {
    var q, h := high / 0x400, high % 0x400;
    DivisionIs(high, 0x40, q * 16 + h / 0x40, h % 0x40);
    DivisionIs(high / 0x40, 2, q * 8 + h / 0x80, h / 0x40 % 2);
  }

  /** U+20000, written as a pair, becomes U+10000. */
  lemma SurrogatesWrong()
    ensures CodePoint(0xd840, 0xdc00) == 0x20000 && Surrogates(0xd840, 0xdc00) == 0x10000
    ensures Escape("ud840\\udc00", 0) == Some((Utf8(0x10000), 11))
    ensures Utf8(0x10000) == [0xf0 as char, 0x90 as char, 0x80 as char, 0x80 as char]
  {
    var s := "ud840\\udc00";
    assert HexFour(s, 1) == Some(0xd840) && HexFour(s, 7) == Some(0xdc00);
  }

  /** So an escaped pair becomes the UTF-8 of its code point exactly if that bit is not set. */
  lemma EscapedPairIff(s: string, i: nat)
    requires Escape(s, i).Some? && HexFour(s, i + 1).Some? && 0xd800 <= HexFour(s, i + 1).value < 0xe000
    ensures HexFour(s, i + 7).Some?
    ensures var high, low := HexFour(s, i + 1).value, HexFour(s, i + 7).value;
            Escape(s, i).value.0 == Utf8(CodePoint(high, low)) <==> high / 0x40 % 2 == 0
  {
    hide HexFour, Utf8, FromUtf8, Surrogates, CodePoint;
    var high, low := HexFour(s, i + 1).value, HexFour(s, i + 7).value;
    SurrogatesRightIff(high, low);
    Utf8RoundTrip(Surrogates(high, low));
    Utf8RoundTrip(CodePoint(high, low));
  }

  /** The bytes that an escape with the letter u at position i becomes, and where it ends. */
  function Escape(s: string, i: nat): (r: Option<(string, nat)>)
    ensures r.Some? ==> i < r.value.1 <= |s| && r.value.0 != []
  {
    var h := HexFour(s, i + 1);
    if |s| < i + 4 || h.None? then None
    else if 0xd800 <= h.value < 0xe000 then
      var low := HexFour(s, i + 7);
      if |s| < i + 10 || CharAt(s, i + 5) != '\\' || CharAt(s, i + 6) != 'u' || low.None? then None
      else Some((Utf8(Surrogates(h.value, low.value)), i + 11))
    else Some((Utf8(h.value), i + 5))
  }

  /** The byte that an escape with another letter becomes. */
  function Escaped(b: char): char {
    match b
    case 'b' => 8 as char
    case 'f' => 12 as char
    case 'n' => '\n'
    case 'r' => '\r'
    case 't' => '\t'
    case _ => b
  }

  function StringTurn(s: string, x: State): Outcome {
    var b := CharAt(s, x.pos);
    if b == '\0' then Fail
    else if x.escaped then
      var y := x.(escaped := false);
      if b == 'u' then
        match Escape(s, x.pos)
        case None => Fail
        case Some((bytes, next)) => Go(y.(pos := next), [Put(bytes)])
      else Go(y.(pos := x.pos + 1), [Put([Escaped(b)])])
    else if b == '\\' then Go(x.(escaped := true, pos := x.pos + 1), [])
    else if b == '"' then
      var y := x.(str := false);
      if Top(x) == Some(InString) then Finished(y, x.pos + 1, [Text])
      else Go(y.(seek := true, colon := true, pos := x.pos + 1), [Name])
    else Go(x.(pos := x.pos + 1), [Put([b])])
  }

  // ----- Values -----

  function Push(x: State, frame: Frame): State { x.(seek := false, stack := x.stack + [frame]) }

  /** The rest of a literal. */
  predicate Spelled(s: string, i: nat, rest: string) {
    i + |rest| <= |s| && s[i..i + |rest|] == rest
  }

  function LiteralTurn(s: string, x: State, rest: string, word: Frame): Outcome {
    if Spelled(s, x.pos + 1, rest)
    then Finished(Push(x, word), x.pos + 1 + |rest|, [Open(word)])
    else Fail
  }

  /** Where the second pass stops reading a number. */
  function SkipNumber(s: string, i: nat): (q: nat)
    requires i <= |s|
    ensures i <= q <= |s| && !NumberChar(CharAt(s, q))
    decreases |s| - i
  {
    if i < |s| && NumberChar(s[i]) then SkipNumber(s, i + 1) else i
  }

  /** A number begins: the first pass goes on to read it, the second one skips it. */
  function NumberBegins(s: string, x: State, first: bool): Outcome
    requires x.pos <= |s|
  {
    var y := Push(x, InNumber).(number := NoNumber());
    if !first then Finished(y, SkipNumber(s, x.pos), [Open(InNumber)])
    else Go(if CharAt(s, x.pos) == '-' then y.(pos := x.pos + 1) else y, [Open(InNumber)])
  }

  function ValueTurn(s: string, x: State, first: bool): Outcome
    requires x.pos <= |s|
  {
    var b := CharAt(s, x.pos);
    var next := x.pos + 1;
    if b == '{' then Go(Push(x, InObject).(pos := next), [Open(InObject)])
    else if b == '[' then Go(Push(x, InArray).(pos := next, seek := true), [Open(InArray)])
    else if b == '"' then Go(Push(x, InString).(pos := next, str := true), [Open(InString)])
    else if b == 't' then LiteralTurn(s, x, "rue", InTrue)
    else if b == 'f' then LiteralTurn(s, x, "alse", InFalse)
    else if b == 'n' then LiteralTurn(s, x, "ull", InNull)
    else if Digit(b) || b == '-' then NumberBegins(s, x, first)
    else Fail
  }

  function SeekTurn(s: string, x: State, first: bool): Outcome
    requires x.pos <= |s|
  {
    var b := CharAt(s, x.pos);
    if Space(b) then Go(x.(pos := x.pos + 1), [])
    else if b == ']' then
      if Top(x) == Some(InArray) then Finished(x.(comma := false, seek := false), x.pos + 1, []) else Fail
    else if x.comma then if b == ',' then Go(x.(comma := false, pos := x.pos + 1), []) else Fail
    else if x.colon then if b == ':' then Go(x.(colon := false, pos := x.pos + 1), []) else Fail
    else ValueTurn(s, x, first)
  }

  function ObjectTurn(s: string, x: State): Outcome
    requires x.stack != []
  {
    var b := CharAt(s, x.pos);
    if Space(b) then Go(x.(pos := x.pos + 1), [])
    else if b == '"' then if x.comma then Fail else Go(x.(str := true, pos := x.pos + 1), [])
    else if b == '}' then Finished(x.(comma := false), x.pos + 1, [])
    else if b == ',' && x.comma then Go(x.(comma := false, pos := x.pos + 1), [])
    else Fail
  }

  /** One character of a number in the first pass; the character behind it is read again. */
  function NumberTurn(s: string, x: State): Outcome
    requires x.stack != []
  {
    var b, n, next := CharAt(s, x.pos), x.number, x.(pos := x.pos + 1);
    if Digit(b) then
      if n.exp then Go(next.(number := n.(digits := true, signed := true)), [])
      else if !n.double && n.zero then Fail
      else Go(next.(number := n.(digits := true, zero := n.zero || (!n.double && !n.digits && b == '0'))), [])
    else if (b == '+' || b == '-') && n.exp && !n.signed then Go(next.(number := n.(signed := true)), [])
    else if b == '.' && !n.double then
      if n.digits then Go(next.(number := n.(double := true, digits := false)), []) else Fail
    else if (n.exp || n.double) && !n.digits then Fail
    else if !n.exp && (b == 'e' || b == 'E') then
      Go(next.(number := Number(true, false, false, true, n.signed)), [])
    else Finished(x, x.pos, [])
  }

  function DoneTurn(s: string, x: State): Outcome {
    var b := CharAt(s, x.pos);
    if b == '\0' then Finish else if Space(b) then Go(x.(pos := x.pos + 1), []) else Fail
  }

  /** What always holds of the flags and the values on the stack. */
  predicate Sane(s: string, x: State) {
    && x.pos <= |s|
    && (forall i :: 0 <= i < |x.stack| - 1 ==> x.stack[i] in {InArray, InObject})
    && (if x.str then !x.done && !x.seek && Top(x) in {Some(InObject), Some(InString)}
        else if x.done then x.stack == [] && !x.seek
        else if x.seek then Top(x) in {None, Some(InArray), Some(InObject)} && (x.stack == [] ==> !x.comma)
        else Top(x) in {Some(InObject), Some(InNumber)} && (Top(x) == Some(InNumber) ==> !x.comma))
  }

  /** One turn of the loop of json_parse_ex. */
  function Turn(s: string, x: State, first: bool): Outcome
    requires Sane(s, x)
  {
    if x.str then StringTurn(s, x)
    else if x.done then DoneTurn(s, x)
    else if x.seek then SeekTurn(s, x, first)
    else if Top(x) == Some(InObject) then ObjectTurn(s, x)
    else NumberTurn(s, x)
  }

  // ----- A whole pass -----

  /** What a turn takes from the text, or else brings closer to a character. */
  function Phase(x: State): nat {
    if x.str || x.done then 0
    else if x.seek then if x.comma || x.colon then 0 else 2
    else if x.comma then 0 else 1
  }

  lemma PopSane(s: string, x: State, pos: nat)
    requires x.stack != [] && pos <= |s| && !x.str && !x.seek
    requires forall i :: 0 <= i < |x.stack| - 1 ==> x.stack[i] in {InArray, InObject}
    ensures var y := Pop(x.(pos := pos)); Sane(s, y) && y.pos == pos && Phase(y) == 0
  {
    var rest := x.stack[..|x.stack| - 1];
    if rest != [] {
      assert rest[|rest| - 1] == x.stack[|x.stack| - 2];
    }
  }

  /** The state stays sane, and the pass comes closer to its end. */
  predicate Advances(s: string, x: State, o: Outcome) {
    o.Go? ==> Sane(s, o.next) && (o.next.pos > x.pos || (o.next.pos == x.pos && Phase(o.next) < Phase(x)))
  }

  lemma FinishedAdvances(s: string, x: State, y: State, pos: nat, events: seq<Event>)
    requires y.stack != [] && pos <= |s| && !y.str && !y.seek
    requires forall i :: 0 <= i < |y.stack| - 1 ==> y.stack[i] in {InArray, InObject}
    requires pos > x.pos || (pos == x.pos && Phase(x) > 0)
    ensures Advances(s, x, Finished(y, pos, events))
  {
    PopSane(s, y, pos);
  }

  lemma StringAdvances(s: string, x: State)
    requires Sane(s, x) && x.str
    ensures Advances(s, x, StringTurn(s, x))
  {
    hide Finished, Escape;
    if x.pos < |s| && Top(x) == Some(InString) {
      FinishedAdvances(s, x, x.(str := false), x.pos + 1, [Text]);
    }
  }

  lemma PushSane(s: string, x: State, frame: Frame)
    requires Sane(s, x) && x.seek
    ensures var y := Push(x, frame);
            && Top(y) == Some(frame) && !y.seek
            && forall i :: 0 <= i < |y.stack| - 1 ==> y.stack[i] in {InArray, InObject}
  {
  }

  lemma ValueAdvances(s: string, x: State, first: bool)
    requires Sane(s, x) && x.seek && !x.comma && !x.colon && !x.str && !x.done
    ensures Advances(s, x, ValueTurn(s, x, first))
  {
    hide LiteralTurn, NumberBegins;
    var b := CharAt(s, x.pos);
    if b == '{' {
      PushSane(s, x, InObject);
    } else if b == '[' {
      PushSane(s, x, InArray);
    } else if b == '"' {
      PushSane(s, x, InString);
    } else if b == 't' {
      LiteralAdvances(s, x, "rue", InTrue);
    } else if b == 'f' {
      LiteralAdvances(s, x, "alse", InFalse);
    } else if b == 'n' {
      LiteralAdvances(s, x, "ull", InNull);
    } else if Digit(b) || b == '-' {
      NumberBeginsAdvances(s, x, first);
    }
  }

  lemma LiteralAdvances(s: string, x: State, rest: string, word: Frame)
    requires Sane(s, x) && x.seek && !x.str
    ensures Advances(s, x, LiteralTurn(s, x, rest, word))
  {
    if Spelled(s, x.pos + 1, rest) {
      PushSane(s, x, word);
      hide Sane, Push, Pop;
      FinishedAdvances(s, x, Push(x, word), x.pos + 1 + |rest|, [Open(word)]);
    }
  }

  lemma NumberBeginsAdvances(s: string, x: State, first: bool)
    requires Sane(s, x) && x.seek && !x.comma && !x.colon && !x.str && !x.done
    requires Digit(CharAt(s, x.pos)) || CharAt(s, x.pos) == '-'
    ensures Advances(s, x, NumberBegins(s, x, first))
  {
    PushSane(s, x, InNumber);
    if !first {
      FinishedAdvances(s, x, Push(x, InNumber).(number := NoNumber()), SkipNumber(s, x.pos), [Open(InNumber)]);
    }
  }

  lemma SeekAdvances(s: string, x: State, first: bool)
    requires Sane(s, x) && x.seek && !x.str && !x.done
    ensures Advances(s, x, SeekTurn(s, x, first))
  {
    hide ValueTurn;
    var b := CharAt(s, x.pos);
    if b == ']' {
      if Top(x) == Some(InArray) {
        FinishedAdvances(s, x, x.(comma := false, seek := false), x.pos + 1, []);
      }
    } else if !x.comma && !x.colon && !Space(b) {
      ValueAdvances(s, x, first);
    }
  }

  lemma ObjectAdvances(s: string, x: State)
    requires Sane(s, x) && !x.str && !x.seek && !x.done && Top(x) == Some(InObject)
    ensures Advances(s, x, ObjectTurn(s, x))
  {
    hide Finished;
    if x.pos < |s| {
      FinishedAdvances(s, x, x.(comma := false), x.pos + 1, []);
    }
  }

  lemma NumberAdvances(s: string, x: State)
    requires Sane(s, x) && !x.str && !x.seek && !x.done && Top(x) == Some(InNumber)
    ensures Advances(s, x, NumberTurn(s, x))
  {
    hide Finished;
    FinishedAdvances(s, x, x, x.pos, []);
  }

  /** A turn keeps what holds of the state, and cannot be repeated for ever. */
  lemma TurnAdvances(s: string, x: State, first: bool)
    requires Sane(s, x)
    ensures Advances(s, x, Turn(s, x, first))
  {
    hide StringTurn, SeekTurn, ObjectTurn, NumberTurn;
    if x.str {
      StringAdvances(s, x);
    } else if x.seek && !x.done {
      SeekAdvances(s, x, first);
    } else if !x.done && Top(x) == Some(InObject) {
      ObjectAdvances(s, x);
    } else if !x.done {
      NumberAdvances(s, x);
    }
  }

  /** All events of a pass from this state on, if it succeeds. */
  function Run(s: string, x: State, first: bool): Option<seq<Event>>
    requires Sane(s, x)
    decreases |s| - x.pos, Phase(x)
  {
    TurnAdvances(s, x, first);
    match Turn(s, x, first)
    case Fail => None
    case Finish => Some([])
    case Go(y, events) => Then(events, Run(s, y, first))
  }

  function Then(events: seq<Event>, rest: Option<seq<Event>>): Option<seq<Event>> {
    if rest.None? then None else Some(events + rest.value)
  }

  lemma ThenNothing(rest: Option<seq<Event>>)
    ensures Then([], rest) == rest
  {
    if rest.Some? {
      assert [] + rest.value == rest.value;
    }
  }

  lemma ThenThen(a: seq<Event>, b: seq<Event>, rest: Option<seq<Event>>)
    ensures Then(a, Then(b, rest)) == Then(a + b, rest)
  {
    if rest.Some? {
      assert a + (b + rest.value) == a + b + rest.value;
    }
  }

  // ----- Both passes agree -----

  /** A character of a number behind a finished value makes the first pass fail. */
  lemma AfterValueRejects(s: string, x: State, pos: nat)
    requires Sane(s, x) && Top(x) == Some(InNumber) && !x.str && !x.seek && !x.done && pos <= |s|
    requires NumberChar(CharAt(s, pos)) && Sane(s, Pop(x.(pos := pos)))
    ensures Run(s, Pop(x.(pos := pos)), true) == None
  {
    var y := Pop(x.(pos := pos));
    assert Turn(s, y, true) == Fail;
  }

  lemma PopForgets(x: State, y: State, pos: nat)
    requires x.stack == y.stack != [] && x.(pos := 0, number := NoNumber()) == y.(pos := 0, number := NoNumber())
    ensures Pop(x.(pos := pos)) == Pop(y.(pos := pos)) && PopEvent(x) == PopEvent(y)
  {
  }

  /** In a number: the first pass reads it to its end, and then goes on as if it had been skipped. */
  lemma {:induction false} NumberRead(s: string, x: State) returns (q: nat)
    requires Sane(s, x) && Top(x) == Some(InNumber) && !x.str && !x.seek && !x.done
    requires Run(s, x, true).Some?
    ensures x.pos <= q <= |s| && q == SkipNumber(s, x.pos) && Sane(s, Pop(x.(pos := q)))
    ensures Run(s, x, true) == Then([PopEvent(x)], Run(s, Pop(x.(pos := q)), true))
    decreases |s| - x.pos
  {
    TurnAdvances(s, x, true);
    RunNumber(s, x);
    hide NumberTurn, Run, Then, PopEvent;
    var o := NumberTurn(s, x);
    if o == Finished(x, x.pos, []) {
      q := x.pos;
      PopSane(s, x, q);
      assert [] + [PopEvent(x)] == [PopEvent(x)];
      if NumberChar(CharAt(s, q)) {
        AfterValueRejects(s, x, q);
      }
    } else {
      NumberGoesOn(s, x);
      q := NumberRead(s, o.next);
      PopForgets(x, o.next, q);
      ThenNothing(Run(s, o.next, true));
    }
  }

  lemma RunNumber(s: string, x: State)
    requires Sane(s, x) && Top(x) == Some(InNumber) && !x.str && !x.seek && !x.done
    ensures var o := NumberTurn(s, x);
            && !o.Finish? && (o.Fail? ==> Run(s, x, true) == None)
            && (o.Go? ==> Sane(s, o.next) && Run(s, x, true) == Then(o.events, Run(s, o.next, true)))
  {
    TurnAdvances(s, x, true);
  }

  lemma NumberGoesOn(s: string, x: State)
    requires Sane(s, x) && Top(x) == Some(InNumber) && !x.str && !x.seek && !x.done
    requires NumberTurn(s, x).Go? && NumberTurn(s, x) != Finished(x, x.pos, [])
    ensures var y := NumberTurn(s, x).next;
            && NumberTurn(s, x).events == [] && x.pos < |s| && NumberChar(s[x.pos]) && y.pos == x.pos + 1
            && y == x.(pos := x.pos + 1, number := y.number)
  {
  }

  /** A number is on top and is being read. */
  predicate Reading(x: State) { !x.str && !x.seek && !x.done && Top(x) == Some(InNumber) }

  predicate BeginsNumber(s: string, x: State) {
    !x.str && !x.done && x.seek && !x.comma && !x.colon && (Digit(CharAt(s, x.pos)) || CharAt(s, x.pos) == '-')
  }

  /** The turn does not lead into a number: a finished value waits for a comma, for one. */
  predicate NotIntoNumber(o: Outcome) {
    o.Go? ==> o.next.comma || o.next.str || o.next.seek || o.next.done || Top(o.next) != Some(InNumber)
  }

  lemma StringNotIntoNumber(s: string, x: State)
    requires Sane(s, x) && x.str
    ensures NotIntoNumber(StringTurn(s, x))
  {
    hide Escape;
  }

  lemma ValueNotIntoNumber(s: string, x: State)
    requires x.pos <= |s| && !Digit(CharAt(s, x.pos)) && CharAt(s, x.pos) != '-'
    ensures ValueTurn(s, x, true) == ValueTurn(s, x, false) && NotIntoNumber(ValueTurn(s, x, true))
  {
    hide Spelled, NumberBegins;
  }

  lemma SeekNotIntoNumber(s: string, x: State)
    requires Sane(s, x) && x.seek && !x.str && !x.done && !BeginsNumber(s, x)
    ensures SeekTurn(s, x, true) == SeekTurn(s, x, false) && NotIntoNumber(SeekTurn(s, x, true))
  {
    hide ValueTurn;
    if !x.comma && !x.colon {
      ValueNotIntoNumber(s, x);
    }
  }

  /** All other turns are the same in both passes, and do not lead into a number. */
  lemma SameTurn(s: string, x: State)
    requires Sane(s, x) && !Reading(x) && !BeginsNumber(s, x)
    ensures Turn(s, x, true) == Turn(s, x, false)
    ensures Turn(s, x, true).Go? ==> Sane(s, Turn(s, x, true).next) && !Reading(Turn(s, x, true).next)
  {
    hide StringTurn, SeekTurn;
    TurnAdvances(s, x, true);
    if x.str {
      StringNotIntoNumber(s, x);
    } else if x.seek && !x.done {
      SeekNotIntoNumber(s, x);
    }
  }

  /** The first pass reads a number and the second one skips it: they go on from the same state. */
  lemma NumberAgrees(s: string, x: State) returns (y: State, events: seq<Event>)
    requires Sane(s, x) && BeginsNumber(s, x) && Run(s, x, true).Some?
    ensures Sane(s, y) && y.pos > x.pos && !Reading(y)
    ensures Run(s, x, true) == Then(events, Run(s, y, true))
    ensures Run(s, x, false) == Then(events, Run(s, y, false))
  {
    TurnAdvances(s, x, true);
    TurnAdvances(s, x, false);
    PushSane(s, x, InNumber);
    var x1 := NumberBegins(s, x, true).next;
    hide NumberTurn, Turn, ValueTurn, Run, SkipNumber;
    BeginningTurns(s, x);
    var q := NumberRead(s, x1);
    SkippedAlike(s, x);
    var pushed := Push(x, InNumber).(number := NoNumber());
    PopForgets(x1, pushed, q);
    y, events := Pop(x1.(pos := q)), [Open(InNumber)] + [PopEvent(x1)];
    ThenThen([Open(InNumber)], [PopEvent(x1)], Run(s, y, true));
  }

  lemma SkippedAlike(s: string, x: State)
    requires x.pos < |s| && (Digit(s[x.pos]) || s[x.pos] == '-')
    ensures NumberBegins(s, x, true).next.pos <= |s|
    ensures SkipNumber(s, x.pos) == SkipNumber(s, NumberBegins(s, x, true).next.pos) > x.pos
  {
  }

  lemma OneTurn(s: string, x: State, first: bool)
    requires Sane(s, x)
    ensures Turn(s, x, first).Fail? ==> Run(s, x, first) == None
    ensures Turn(s, x, first).Finish? ==> Run(s, x, first) == Some([])
    ensures Turn(s, x, first).Go? ==>
              && Advances(s, x, Turn(s, x, first))
              && Run(s, x, first) == Then(Turn(s, x, first).events, Run(s, Turn(s, x, first).next, first))
  {
    hide Turn;
    TurnAdvances(s, x, first);
  }

  lemma NumberBeginsGoes(s: string, x: State)
    requires Sane(s, x) && BeginsNumber(s, x)
    ensures forall first: bool ::
              NumberBegins(s, x, first).Go?
              && (Advances(s, x, NumberBegins(s, x, first)) ==> Sane(s, NumberBegins(s, x, first).next))
  {
  }

  lemma BeginningTurns(s: string, x: State)
    requires Sane(s, x) && BeginsNumber(s, x)
    ensures x.pos < |s|
    ensures var o := NumberBegins(s, x, true);
            o.Go? && Sane(s, o.next) && Run(s, x, true) == Then(o.events, Run(s, o.next, true))
    ensures var o := NumberBegins(s, x, false);
            o.Go? && Sane(s, o.next) && Run(s, x, false) == Then(o.events, Run(s, o.next, false))
  {
    hide NumberBegins, Advances, SkipNumber;
    OneTurn(s, x, true);
    OneTurn(s, x, false);
    NumberBeginsGoes(s, x);
    assert Turn(s, x, true) == NumberBegins(s, x, true);
    assert Turn(s, x, false) == NumberBegins(s, x, false);
  }

  /**
   * If the first pass succeeds, the second one does the same: it creates the same values in the
   * same order, with the same texts, names and parents.
   */
  lemma {:induction false} PassesAgree(s: string, x: State)
    requires Sane(s, x) && !Reading(x) && Run(s, x, true).Some?
    ensures Run(s, x, false) == Run(s, x, true)
    decreases |s| - x.pos, Phase(x)
  {
    hide Turn, Run, Sane, Phase, Reading, BeginsNumber;
    if BeginsNumber(s, x) {
      var y, events := NumberAgrees(s, x);
      SaneWithin(s, y);
      PassesAgree(s, y);
    } else {
      SameTurn(s, x);
      OneTurn(s, x, true);
      OneTurn(s, x, false);
      if Turn(s, x, true).Go? {
        SaneWithin(s, Turn(s, x, true).next);
        PassesAgree(s, Turn(s, x, true).next);
      }
    }
  }

  lemma SaneWithin(s: string, x: State)
    requires Sane(s, x)
    ensures x.pos <= |s|
  {
  }

  lemma StartSane(s: string)
    ensures Sane(s, Start()) && !Reading(Start())
  {
  }
}
