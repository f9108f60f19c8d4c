/** Every written value is read back: its text leads the parser to the document that is meant. */
module JsonRender {
  import opened JsonBuffers
  import opened JsonMeaning
  import opened JsonPasses
  import opened RingBuffer

  // ----- The text leads to the events -----

  /** The first pass gets from the one state to the other with these events. */
  ghost predicate Leads(s: string, x: State, y: State, events: seq<Event>) {
    Sane(s, x) && Sane(s, y) && Run(s, x, true) == Then(events, Run(s, y, true))
  }

  lemma LeadsTurn(s: string, x: State, y: State, events: seq<Event>)
    requires Sane(s, x) && Turn(s, x, true) == Go(y, events)
    ensures Leads(s, x, y, events)
  {
    hide Turn, Run;
    OneTurn(s, x, true);
  }

  lemma LeadsThen(s: string, x: State, y: State, z: State, a: seq<Event>, b: seq<Event>)
    requires Leads(s, x, y, a) && Leads(s, y, z, b)
    ensures Leads(s, x, z, a + b)
  {
    hide Run, Sane, Then;
    ThenThen(a, b, Run(s, z, true));
  }

  lemma LeadsOn(s: string, x: State, y: State, z: State, events: seq<Event>)
    requires (Leads(s, x, y, []) && Leads(s, y, z, events)) || (Leads(s, x, y, events) && Leads(s, y, z, []))
    ensures Leads(s, x, z, events)
  {
    hide Leads;
    assert [] + events == events == events + [];
    if Leads(s, x, y, []) && Leads(s, y, z, events) {
      LeadsThen(s, x, y, z, [], events);
    } else {
      LeadsThen(s, x, y, z, events, []);
    }
  }

  lemma LeadsNowhere(s: string, x: State)
    requires Sane(s, x)
    ensures Leads(s, x, x, [])
  {
    hide Run, Sane;
    ThenNothing(Run(s, x, true));
  }

  lemma SpelledParts(s: string, i: nat, a: string, b: string)
    requires Spelled(s, i, a + b)
    ensures Spelled(s, i, a) && Spelled(s, i + |a|, b)
  {
    var t := a + b;
    assert s[i..i + |a|] == s[i..i + |t|][..|a|] == a;
    assert s[i + |a|..i + |a| + |b|] == s[i..i + |t|][|a|..] == b;
  }

  lemma SpelledFirst(s: string, i: nat, t: string)
    requires Spelled(s, i, t) && t != ""
    ensures i < |s| && s[i] == t[0] && Spelled(s, i + 1, t[1..])
  {
    assert t == [t[0]] + t[1..];
    SpelledParts(s, i, [t[0]], t[1..]);
    assert s[i..i + 1][0] == t[0];
  }

  /** Only arrays and objects are open. */
  predicate Containers(stack: seq<Frame>) { forall i :: 0 <= i < |stack| ==> stack[i] in {InArray, InObject} }

  predicate Innermost(stack: seq<Frame>, frame: Frame) { stack != [] && stack[|stack| - 1] == frame }

  /** A value is wanted. */
  function Seeking(pos: nat, stack: seq<Frame>): State {
    State(pos, false, false, true, false, false, false, stack, NoNumber())
  }

  /** In an object, a name or the end is wanted. */
  function Between(pos: nat, stack: seq<Frame>): State {
    State(pos, false, false, false, false, false, false, stack, NoNumber())
  }

  /** In a string. */
  function Within(pos: nat, stack: seq<Frame>): State {
    State(pos, true, false, false, false, false, false, stack, NoNumber())
  }

  /** In a number. */
  function Counting(pos: nat, stack: seq<Frame>, n: Number): State {
    State(pos, false, false, false, false, false, false, stack + [InNumber], n)
  }

  /** A value has been read; a comma can follow, or the end of what it is in. */
  function Behind(pos: nat, stack: seq<Frame>): State {
    State(pos, false, false, Innermost(stack, InArray), true, false, stack == [], stack, NoNumber())
  }

  lemma FinishedIs(x: State, stack: seq<Frame>, frame: Frame, pos: nat, events: seq<Event>)
    requires !x.str && !x.escaped && !x.seek && !x.colon && !x.done && x.stack == stack + [frame]
    ensures x.stack != [] && Finished(x, pos, events) == Go(Behind(pos, stack), events + [Ending(stack == [])])
  {
    assert x.stack[..|x.stack| - 1] == stack;
  }

  predicate Skips(x: State) { !x.str && (x.done || x.seek || Top(x) == Some(InObject)) }

  lemma {:induction false} GapLeads(s: string, x: State, w: string)
    requires Sane(s, x) && Skips(x) && Gap(w) && Spelled(s, x.pos, w)
    ensures Leads(s, x, x.(pos := x.pos + |w|), [])
    decreases |w|
  {
    if w == "" {
      hide *;
      LeadsNowhere(s, x);
    } else {
      hide Leads, Run, Spelled;
      var y := x.(pos := x.pos + 1);
      SpelledFirst(s, x.pos, w);
      LeadsTurn(s, x, y, []);
      GapLeads(s, y, w[1..]);
      LeadsOn(s, x, y, x.(pos := x.pos + |w|), []);
    }
  }

  // ----- Strings -----

  /** A string is open, or an object whose next name is being read. */
  predicate TextIn(stack: seq<Frame>) {
    && stack != [] && stack[|stack| - 1] in {InString, InObject}
    && forall i :: 0 <= i < |stack| - 1 ==> stack[i] in {InArray, InObject}
  }

  lemma WithinSane(s: string, pos: nat, stack: seq<Frame>)
    requires TextIn(stack) && pos <= |s|
    ensures Sane(s, Within(pos, stack)) && Sane(s, Within(pos, stack).(escaped := true))
  {
  }

  lemma HexIs(c: char)
    requires '0' <= c <= '9' || 'a' <= c <= 'f' || 'A' <= c <= 'F'
    ensures Hex(c) == Some(HexOf(c))
  {
  }

  lemma HexRead(s: string, i: nat, t: string)
    requires IsHex(t) && Spelled(s, i, t)
    ensures HexFour(s, i) == Some(HexValue(t))
  {
    hide Hex, HexOf;
    HexIs(t[0]);
    HexIs(t[1]);
    HexIs(t[2]);
    HexIs(t[3]);
    assert s[i..i + 4] == t;
    assert s[i] == t[0] && s[i + 1] == t[1] && s[i + 2] == t[2] && s[i + 3] == t[3];
  }

  lemma PlainLeads(s: string, pos: nat, stack: seq<Frame>, c: char)
    requires TextIn(stack) && IsPiece(Plain(c)) && Spelled(s, pos, [c])
    ensures Leads(s, Within(pos, stack), Within(pos + 1, stack), [Put([c])])
  {
    SpelledFirst(s, pos, [c]);
    WithinSane(s, pos, stack);
    hide Run, Sane;
    LeadsTurn(s, Within(pos, stack), Within(pos + 1, stack), [Put([c])]);
  }

  /** The backslash. */
  lemma BackslashLeads(s: string, pos: nat, stack: seq<Frame>)
    requires TextIn(stack) && pos < |s| && s[pos] == '\\'
    ensures Leads(s, Within(pos, stack), Within(pos + 1, stack).(escaped := true), [])
  {
    WithinSane(s, pos, stack);
    hide Run, Sane;
    LeadsTurn(s, Within(pos, stack), Within(pos + 1, stack).(escaped := true), []);
  }

  /** What follows the backslash. */
  lemma EscapeLeads(s: string, pos: nat, stack: seq<Frame>, end: nat, bytes: string)
    requires TextIn(stack) && pos < |s| && s[pos] != '\0'
    requires if s[pos] == 'u' then Escape(s, pos) == Some((bytes, end))
             else bytes == [Escaped(s[pos])] && end == pos + 1
    ensures Leads(s, Within(pos, stack).(escaped := true), Within(end, stack), [Put(bytes)])
  {
    WithinSane(s, pos, stack);
    hide Run, Sane, Escape;
    LeadsTurn(s, Within(pos, stack).(escaped := true), Within(end, stack), [Put(bytes)]);
  }

  /** The number of a code point is read to its bytes. */
  lemma CodeEscape(s: string, i: nat, t: string)
    requires IsPiece(Code(t)) && Spelled(s, i + 1, t)
    ensures Escape(s, i) == Some((Meant(Code(t)), i + 5))
  {
    HexRead(s, i + 1, t);
    hide HexFour, Utf8, HexValue;
  }

  lemma PairIs(s: string, i: nat, h: nat, l: nat)
    requires i + 11 <= |s| && s[i + 5] == '\\' && s[i + 6] == 'u' && 0xd800 <= h < 0xe000
    requires HexFour(s, i + 1) == Some(h) && HexFour(s, i + 7) == Some(l)
    ensures Escape(s, i) == Some((Utf8(Surrogates(h, l)), i + 11))
  {
    hide HexFour, Utf8, Surrogates;
  }

  lemma PairEscape(s: string, i: nat, high: string, low: string)
    requires IsPiece(Pair(high, low)) && Spelled(s, i + 1, high)
    requires Spelled(s, i + 5, ['\\', 'u']) && Spelled(s, i + 7, low)
    ensures Escape(s, i) == Some((Meant(Pair(high, low)), i + 11))
  {
    hide HexFour, Utf8, HexValue, Surrogates, Escape, PieceText, IsHex;
    HexRead(s, i + 1, high);
    HexRead(s, i + 7, low);
    SpelledFirst(s, i + 5, ['\\', 'u']);
    SpelledFirst(s, i + 6, ['u']);
    SpelledWithin(s, i + 7, low);
    HexLength(low);
    PairIs(s, i, HexValue(high), HexValue(low));
  }

  lemma HexLength(t: string)
    requires IsHex(t)
    ensures |t| == 4
  {
  }

  lemma PieceLeads(s: string, pos: nat, stack: seq<Frame>, p: Piece)
    requires TextIn(stack) && IsPiece(p) && Spelled(s, pos, PieceText(p))
    ensures Leads(s, Within(pos, stack), Within(pos + |PieceText(p)|, stack), [Put(Meant(p))])
  {
    if p.Plain? {
      PlainLeads(s, pos, stack, p.c);
    } else {
      var escaped, end := Within(pos + 1, stack).(escaped := true), pos + |PieceText(p)|;
      PieceBehind(s, pos, p);
      hide Leads, Meant, Escape, PieceText;
      BackslashLeads(s, pos, stack);
      EscapeLeads(s, pos + 1, stack, end, Meant(p));
      LeadsOn(s, Within(pos, stack), escaped, Within(end, stack), [Put(Meant(p))]);
    }
  }

  /** What an escape is read to. */
  lemma PieceBehind(s: string, pos: nat, p: Piece)
    requires IsPiece(p) && !p.Plain? && Spelled(s, pos, PieceText(p))
    ensures pos + 1 < |s| && s[pos] == '\\' && s[pos + 1] != '\0'
    ensures if s[pos + 1] == 'u' then Escape(s, pos + 1) == Some((Meant(p), pos + |PieceText(p)|))
            else Meant(p) == [Escaped(s[pos + 1])] && |PieceText(p)| == 2
  {
    SpelledFirst(s, pos, PieceText(p));
    SpelledFirst(s, pos + 1, PieceText(p)[1..]);
    match p {
      case Code(t) =>
        SpelledParts(s, pos, ['\\', 'u'], t);
        CodeEscape(s, pos + 1, t);
      case Pair(high, low) =>
        SpelledParts(s, pos, ['\\', 'u'] + high + ['\\', 'u'], low);
        SpelledParts(s, pos, ['\\', 'u'] + high, ['\\', 'u']);
        SpelledParts(s, pos, ['\\', 'u'], high);
        PairEscape(s, pos + 1, high, low);
      case _ =>
    }
  }

  lemma PiecesUnfold(ps: seq<Piece>)
    requires ArePieces(ps) && ps != []
    ensures IsPiece(ps[0]) && ArePieces(ps[1..])
    ensures PiecesText(ps) == PieceText(ps[0]) + PiecesText(ps[1..])
    ensures Puts(ps) == [Put(Meant(ps[0]))] + Puts(ps[1..])
  {
    hide IsPiece, PieceText, Meant;
  }

  lemma NoPieces()
    ensures ArePieces([]) && PiecesText([]) == "" && Puts([]) == []
  {
  }

  lemma {:induction false} PiecesLead(s: string, pos: nat, stack: seq<Frame>, ps: seq<Piece>)
    requires TextIn(stack) && ArePieces(ps) && Spelled(s, pos, PiecesText(ps))
    ensures Leads(s, Within(pos, stack), Within(pos + |PiecesText(ps)|, stack), Puts(ps))
    decreases |ps|
  {
    hide *;
    NoPieces();
    SpelledWithin(s, pos, PiecesText(ps));
    WithinSane(s, pos, stack);
    if ps == [] {
      LeadsNowhere(s, Within(pos, stack));
    } else {
      PiecesUnfold(ps);
      var a, b := PieceText(ps[0]), PiecesText(ps[1..]);
      SpelledParts(s, pos, a, b);
      PieceLeads(s, pos, stack, ps[0]);
      PiecesLead(s, pos + |a|, stack, ps[1..]);
      TextGoesOn(s, pos, stack, a, b, [Put(Meant(ps[0]))], Puts(ps[1..]));
    }
  }

  lemma TextGoesOn(s: string, pos: nat, stack: seq<Frame>, a: string, b: string, es: seq<Event>, fs: seq<Event>)
    requires Leads(s, Within(pos, stack), Within(pos + |a|, stack), es)
    requires Leads(s, Within(pos + |a|, stack), Within(pos + |a| + |b|, stack), fs)
    ensures Leads(s, Within(pos, stack), Within(pos + |a + b|, stack), es + fs)
  {
    hide *;
    LeadsThen(s, Within(pos, stack), Within(pos + |a|, stack), Within(pos + |a| + |b|, stack), es, fs);
  }

  lemma SpelledWithin(s: string, i: nat, t: string)
    requires Spelled(s, i, t)
    ensures i + |t| <= |s|
  {
  }

  lemma ContainersOpen(stack: seq<Frame>)
    requires Containers(stack)
    ensures TextIn(stack + [InString]) && (Innermost(stack, InObject) ==> TextIn(stack))
    ensures Containers(stack + [InArray]) && Containers(stack + [InObject])
    ensures Innermost(stack + [InArray], InArray) && Innermost(stack + [InObject], InObject)
  {
  }

  lemma SaneStates(s: string, pos: nat, stack: seq<Frame>)
    requires Containers(stack) && pos <= |s|
    ensures Sane(s, Seeking(pos, stack)) && Sane(s, Behind(pos, stack))
    ensures Innermost(stack, InObject) ==> Sane(s, Between(pos, stack)) && Sane(s, Seeking(pos, stack).(colon := true))
    ensures forall n: Number :: Sane(s, Counting(pos, stack, n))
  {
  }

  /** The quote that ends a string. */
  lemma TextEnds(s: string, pos: nat, stack: seq<Frame>)
    requires Containers(stack) && pos < |s| && s[pos] == '"'
    ensures Leads(s, Within(pos, stack + [InString]), Behind(pos + 1, stack), [Text] + [Ending(stack == [])])
  {
    var x := Within(pos, stack + [InString]);
    ContainersOpen(stack);
    WithinSane(s, pos, stack + [InString]);
    FinishedIs(x.(str := false), stack, InString, pos + 1, [Text]);
    hide Run, Sane, Behind;
    LeadsTurn(s, x, Behind(pos + 1, stack), [Text] + [Ending(stack == [])]);
  }

  /** The quote that ends a name. */
  lemma NameEnds(s: string, pos: nat, stack: seq<Frame>)
    requires Containers(stack) && Innermost(stack, InObject) && pos < |s| && s[pos] == '"'
    ensures Leads(s, Within(pos, stack), Seeking(pos + 1, stack).(colon := true), [Name])
  {
    ContainersOpen(stack);
    WithinSane(s, pos, stack);
    hide Run, Sane;
    LeadsTurn(s, Within(pos, stack), Seeking(pos + 1, stack).(colon := true), [Name]);
  }

  /** The first character of a string, an array or an object. */
  lemma ValueOpens(s: string, pos: nat, stack: seq<Frame>)
    requires Containers(stack) && pos < |s|
    ensures s[pos] == '"' ==> Leads(s, Seeking(pos, stack), Within(pos + 1, stack + [InString]), [Open(InString)])
    ensures s[pos] == '[' ==> Leads(s, Seeking(pos, stack), Seeking(pos + 1, stack + [InArray]), [Open(InArray)])
    ensures s[pos] == '{' ==> Leads(s, Seeking(pos, stack), Between(pos + 1, stack + [InObject]), [Open(InObject)])
  {
    SaneStates(s, pos, stack);
    hide Run, Sane;
    if s[pos] == '"' {
      LeadsTurn(s, Seeking(pos, stack), Within(pos + 1, stack + [InString]), [Open(InString)]);
    } else if s[pos] == '[' {
      LeadsTurn(s, Seeking(pos, stack), Seeking(pos + 1, stack + [InArray]), [Open(InArray)]);
    } else if s[pos] == '{' {
      LeadsTurn(s, Seeking(pos, stack), Between(pos + 1, stack + [InObject]), [Open(InObject)]);
    }
  }

  /** The comma behind a value, the colon behind a name, the quote in front of one. */
  lemma SeparatorLeads(s: string, pos: nat, stack: seq<Frame>)
    requires Containers(stack) && pos < |s|
    ensures s[pos] == ',' && Innermost(stack, InArray) ==>
              Leads(s, Behind(pos, stack), Seeking(pos + 1, stack), [])
    ensures s[pos] == ',' && Innermost(stack, InObject) ==>
              Leads(s, Behind(pos, stack), Between(pos + 1, stack), [])
    ensures s[pos] == ':' && Innermost(stack, InObject) ==>
              Leads(s, Seeking(pos, stack).(colon := true), Seeking(pos + 1, stack), [])
    ensures s[pos] == '"' && Innermost(stack, InObject) ==>
              Leads(s, Between(pos, stack), Within(pos + 1, stack), [])
  {
    SaneStates(s, pos, stack);
    hide Run, Sane;
    if s[pos] == ',' && Innermost(stack, InArray) {
      LeadsTurn(s, Behind(pos, stack), Seeking(pos + 1, stack), []);
    } else if s[pos] == ',' && Innermost(stack, InObject) {
      LeadsTurn(s, Behind(pos, stack), Between(pos + 1, stack), []);
    } else if s[pos] == ':' && Innermost(stack, InObject) {
      LeadsTurn(s, Seeking(pos, stack).(colon := true), Seeking(pos + 1, stack), []);
    } else if s[pos] == '"' && Innermost(stack, InObject) {
      LeadsTurn(s, Between(pos, stack), Within(pos + 1, stack), []);
    }
  }

  /** The end of an array, behind its opening or behind a value. */
  lemma ArrayEnds(s: string, pos: nat, stack: seq<Frame>, empty: bool)
    requires Containers(stack) && pos < |s| && s[pos] == ']'
    ensures Leads(s, if empty then Seeking(pos, stack + [InArray]) else Behind(pos, stack + [InArray]),
                  Behind(pos + 1, stack), [Ending(stack == [])])
  {
    hide Run, Sane, Finished, Containers, Leads;
    var x := if empty then Seeking(pos, stack + [InArray]) else Behind(pos, stack + [InArray]);
    ContainersOpen(stack);
    SaneStates(s, pos, stack + [InArray]);
    FinishedIs(x.(comma := false, seek := false), stack, InArray, pos + 1, []);
    assert [] + [Ending(stack == [])] == [Ending(stack == [])];
    LeadsTurn(s, x, Behind(pos + 1, stack), [Ending(stack == [])]);
  }

  /** The end of an object. */
  lemma ObjectEnds(s: string, pos: nat, stack: seq<Frame>, empty: bool)
    requires Containers(stack) && pos < |s| && s[pos] == '}'
    ensures Leads(s, if empty then Between(pos, stack + [InObject]) else Behind(pos, stack + [InObject]),
                  Behind(pos + 1, stack), [Ending(stack == [])])
  {
    hide Run, Sane, Finished, Containers, Leads;
    var x := if empty then Between(pos, stack + [InObject]) else Behind(pos, stack + [InObject]);
    ContainersOpen(stack);
    SaneStates(s, pos, stack + [InObject]);
    FinishedIs(x.(comma := false), stack, InObject, pos + 1, []);
    assert [] + [Ending(stack == [])] == [Ending(stack == [])];
    LeadsTurn(s, x, Behind(pos + 1, stack), [Ending(stack == [])]);
  }

  // ----- Words and numbers -----

  lemma WordTurn(s: string, pos: nat, stack: seq<Frame>, word: Frame)
    requires word in {InTrue, InFalse, InNull} && Spelled(s, pos, WordText(word)) && pos < |s|
    requires s[pos] == WordText(word)[0] && Sane(s, Seeking(pos, stack))
    ensures Turn(s, Seeking(pos, stack), true) == LiteralTurn(s, Seeking(pos, stack), WordText(word)[1..], word)
  {
    hide Spelled, LiteralTurn;
    assert WordText(InTrue)[1..] == "rue" && WordText(InFalse)[1..] == "alse" && WordText(InNull)[1..] == "ull";
  }

  lemma WordLeads(s: string, pos: nat, stack: seq<Frame>, word: Frame)
    requires Containers(stack) && word in {InTrue, InFalse, InNull} && Spelled(s, pos, WordText(word))
    ensures Leads(s, Seeking(pos, stack), Behind(pos + |WordText(word)|, stack), [Open(word)] + [Ending(stack == [])])
  {
    var x, t := Seeking(pos, stack), WordText(word);
    hide Run, Sane, Spelled, Finished, Behind, Turn, Leads, Containers, LiteralTurn;
    SpelledFirst(s, pos, t);
    SpelledWithin(s, pos, t);
    SaneStates(s, pos, stack);
    WordTurn(s, pos, stack, word);
    LiteralIs(s, x, t[1..], word);
    FinishedIs(Push(x, word), stack, word, pos + |t|, [Open(word)]);
    LeadsTurn(s, x, Behind(pos + |t|, stack), [Open(word)] + [Ending(stack == [])]);
  }

  lemma LiteralIs(s: string, x: State, rest: string, word: Frame)
    requires Spelled(s, x.pos + 1, rest)
    ensures Push(x, word).stack != []
    ensures LiteralTurn(s, x, rest, word) == Finished(Push(x, word), x.pos + 1 + |rest|, [Open(word)])
  {
    hide Spelled, Finished;
  }

  /** Digits of a number, behind its first one, behind the point, or in the exponent. */
  lemma {:induction false} DigitsLead(s: string, pos: nat, stack: seq<Frame>, n: Number, ds: string)
    requires Containers(stack) && Digits(ds) && Spelled(s, pos, ds)
    requires n.exp || n.double || (!n.zero && n.digits)
    ensures Leads(s, Counting(pos, stack, n),
                  Counting(pos + |ds|, stack,
                           n.(digits := n.digits || ds != "", signed := n.signed || (n.exp && ds != ""))), [])
    decreases |ds|
  {
    hide Run, Sane, Spelled, Leads, Containers;
    SpelledWithin(s, pos, ds);
    SaneStates(s, pos, stack);
    if ds == "" {
      LeadsNowhere(s, Counting(pos, stack, n));
    } else {
      SpelledFirst(s, pos, ds);
      var m := n.(digits := true, signed := n.signed || n.exp);
      LeadsTurn(s, Counting(pos, stack, n), Counting(pos + 1, stack, m), []);
      DigitsLead(s, pos + 1, stack, m, ds[1..]);
      LeadsOn(s, Counting(pos, stack, n), Counting(pos + 1, stack, m),
              Counting(pos + |ds|, stack, m), []);
    }
  }

  /** A number begins with its sign or with its first digit. */
  lemma NumberOpens(s: string, pos: nat, stack: seq<Frame>)
    requires Containers(stack) && pos < |s| && (s[pos] == '-' || Digit(s[pos]))
    ensures Leads(s, Seeking(pos, stack), Counting(if s[pos] == '-' then pos + 1 else pos, stack, NoNumber()),
                  [Open(InNumber)])
  {
    SaneStates(s, pos, stack);
    hide Run, Sane;
    LeadsTurn(s, Seeking(pos, stack), Counting(if s[pos] == '-' then pos + 1 else pos, stack, NoNumber()),
              [Open(InNumber)]);
  }

  /** One character of a number. */
  lemma CountingTurn(s: string, pos: nat, stack: seq<Frame>, n: Number, m: Number)
    requires Containers(stack) && pos < |s| && Sane(s, Counting(pos, stack, n))
    requires NumberTurn(s, Counting(pos, stack, n)) == Go(Counting(pos + 1, stack, m), [])
    ensures Leads(s, Counting(pos, stack, n), Counting(pos + 1, stack, m), [])
  {
    hide Run, NumberTurn;
    LeadsTurn(s, Counting(pos, stack, n), Counting(pos + 1, stack, m), []);
  }

  /** What a number is known to be behind its whole part. */
  function Whole(whole: string): Number {
    Number(false, whole != "", whole != "" && whole[0] == '0', false, false)
  }

  lemma WholeLeads(s: string, pos: nat, stack: seq<Frame>, whole: string)
    requires Containers(stack) && Digits(whole) && (whole != "" && whole[0] == '0' ==> whole == "0")
    requires Spelled(s, pos, whole)
    ensures Leads(s, Counting(pos, stack, NoNumber()), Counting(pos + |whole|, stack, Whole(whole)), [])
  {
    hide Run, Sane, Leads, Spelled;
    SpelledWithin(s, pos, whole);
    SaneStates(s, pos, stack);
    if whole == "" {
      LeadsNowhere(s, Counting(pos, stack, NoNumber()));
    } else {
      SpelledFirst(s, pos, whole);
      CountingTurn(s, pos, stack, NoNumber(), Whole(whole));
      if whole[0] != '0' {
        DigitsLead(s, pos + 1, stack, Whole(whole), whole[1..]);
        LeadsOn(s, Counting(pos, stack, NoNumber()), Counting(pos + 1, stack, Whole(whole)),
                Counting(pos + |whole|, stack, Whole(whole)), []);
      }
    }
  }

  lemma FractionLeads(s: string, pos: nat, stack: seq<Frame>, n: Number, fraction: string)
    requires Containers(stack) && fraction != "" && Digits(fraction) && Spelled(s, pos, "." + fraction)
    requires n.digits && !n.double && !n.exp && !n.signed
    ensures Leads(s, Counting(pos, stack, n), Counting(pos + |"." + fraction|, stack, n.(double := true)), [])
  {
    hide Run, Sane, Leads, Spelled;
    var m := n.(double := true, digits := false);
    SpelledParts(s, pos, ".", fraction);
    SpelledWithin(s, pos, ".");
    SpelledFirst(s, pos, ".");
    SaneStates(s, pos, stack);
    CountingTurn(s, pos, stack, n, m);
    DigitsLead(s, pos + 1, stack, m, fraction);
    LeadsOn(s, Counting(pos, stack, n), Counting(pos + 1, stack, m),
            Counting(pos + 1 + |fraction|, stack, n.(double := true)), []);
  }

  lemma ExponentLeads(s: string, pos: nat, stack: seq<Frame>, n: Number, exponent: string)
    requires Containers(stack) && IsExponent(exponent) && Spelled(s, pos, exponent)
    requires (n.double ==> n.digits) && !n.exp && !n.signed
    ensures Leads(s, Counting(pos, stack, n),
                  Counting(pos + |exponent|, stack, Number(true, true, false, true, true)), [])
  {
    hide Run, Sane, Leads, Spelled;
    var m := Number(true, false, false, true, false);
    var end := Counting(pos + |exponent|, stack, Number(true, true, false, true, true));
    SpelledWithin(s, pos, exponent);
    SpelledFirst(s, pos, exponent);
    SaneStates(s, pos, stack);
    CountingTurn(s, pos, stack, n, m);
    var rest := exponent[1..];
    if rest[0] == '+' || rest[0] == '-' {
      SpelledFirst(s, pos + 1, rest);
      SaneStates(s, pos + 1, stack);
      CountingTurn(s, pos + 1, stack, m, m.(signed := true));
      assert exponent[2..] == rest[1..];
      DigitsLead(s, pos + 2, stack, m.(signed := true), rest[1..]);
      LeadsOn(s, Counting(pos + 1, stack, m), Counting(pos + 2, stack, m.(signed := true)), end, []);
    } else {
      DigitsLead(s, pos + 1, stack, m, rest);
    }
    LeadsOn(s, Counting(pos, stack, n), Counting(pos + 1, stack, m), end, []);
  }

  /** A number ends where no character of a number follows. */
  lemma NumberEnds(s: string, pos: nat, stack: seq<Frame>, n: Number)
    requires Containers(stack) && pos <= |s| && !NumberChar(CharAt(s, pos)) && (n.exp || n.double ==> n.digits)
    ensures Leads(s, Counting(pos, stack, n), Behind(pos, stack), [Ending(stack == [])])
  {
    var x := Counting(pos, stack, n);
    SaneStates(s, pos, stack);
    FinishedIs(x, stack, InNumber, pos, []);
    assert [] + [Ending(stack == [])] == [Ending(stack == [])];
    hide Run, Sane, Finished, Behind;
    LeadsTurn(s, x, Behind(pos, stack), [Ending(stack == [])]);
  }

  lemma FractionIf(s: string, pos: nat, stack: seq<Frame>, n: Number, fraction: string)
    requires Containers(stack) && Digits(fraction) && Spelled(s, pos, PointText(fraction))
    requires (fraction != "" ==> n.digits) && !n.double && !n.exp && !n.signed
    ensures Leads(s, Counting(pos, stack, n),
                  Counting(pos + |PointText(fraction)|, stack, n.(double := fraction != "")), [])
  {
    SpelledWithin(s, pos, PointText(fraction));
    if fraction == "" {
      SaneStates(s, pos, stack);
      hide *;
      LeadsNowhere(s, Counting(pos, stack, n));
    } else {
      FractionLeads(s, pos, stack, n, fraction);
    }
  }

  lemma ExponentIf(s: string, pos: nat, stack: seq<Frame>, n: Number, exponent: string)
    returns (m: Number)
    requires Containers(stack) && (exponent == "" || IsExponent(exponent)) && Spelled(s, pos, exponent)
    requires (n.double ==> n.digits) && !n.exp && !n.signed
    ensures m.exp || m.double ==> m.digits
    ensures Leads(s, Counting(pos, stack, n), Counting(pos + |exponent|, stack, m), [])
  {
    SpelledWithin(s, pos, exponent);
    if exponent == "" {
      m := n;
      SaneStates(s, pos, stack);
      hide *;
      LeadsNowhere(s, Counting(pos, stack, n));
    } else {
      m := Number(true, true, false, true, true);
      hide Leads;
      ExponentLeads(s, pos, stack, n, exponent);
    }
  }

  /** A number without its sign. */
  lemma UnsignedLeads(s: string, pos: nat, stack: seq<Frame>, minus: bool, whole: string, fraction: string,
                      exponent: string)
    requires Containers(stack) && IsNumber(minus, whole, fraction, exponent)
    requires Spelled(s, pos, whole + PointText(fraction) + exponent)
    requires !NumberChar(CharAt(s, pos + |whole + PointText(fraction) + exponent|))
    ensures Leads(s, Counting(pos, stack, NoNumber()), Behind(pos + |whole + PointText(fraction) + exponent|, stack),
                  [Ending(stack == [])])
  {
    hide Leads, Spelled, Counting, Behind, Containers, PointText, NumberChar, CharAt, Digits, IsExponent;
    var point, n := PointText(fraction), Whole(whole);
    var p1, p2, end := pos + |whole|, pos + |whole| + |point|, pos + |whole + point + exponent|;
    SpelledWithin(s, pos, whole + point + exponent);
    SpelledParts(s, pos, whole + point, exponent);
    SpelledParts(s, pos, whole, point);
    WholeLeads(s, pos, stack, whole);
    FractionIf(s, p1, stack, n, fraction);
    var n' := n.(double := fraction != "");
    var m := ExponentIf(s, p2, stack, n', exponent);
    NumberEnds(s, end, stack, m);
    hide *;
    LeadsOn(s, Counting(pos, stack, NoNumber()), Counting(p1, stack, n), Counting(p2, stack, n'), []);
    LeadsOn(s, Counting(pos, stack, NoNumber()), Counting(p2, stack, n'), Counting(end, stack, m), []);
    LeadsOn(s, Counting(pos, stack, NoNumber()), Counting(end, stack, m), Behind(end, stack), [Ending(stack == [])]);
  }

  lemma NumeralLeads(s: string, pos: nat, stack: seq<Frame>, minus: bool, rest: string, whole: string, fraction: string,
                     exponent: string)
    requires Containers(stack) && IsNumber(minus, whole, fraction, exponent)
    requires rest == whole + PointText(fraction) + exponent
    requires Spelled(s, pos, if minus then "-" + rest else rest)
    requires !NumberChar(CharAt(s, pos + |rest| + if minus then 1 else 0))
    ensures Leads(s, Seeking(pos, stack), Behind(pos + |rest| + if minus then 1 else 0, stack),
                  [Open(InNumber)] + [Ending(stack == [])])
  {
    hide Leads, Spelled, Containers, PointText, NumberChar, CharAt, IsExponent;
    var next := if minus then pos + 1 else pos;
    if minus {
      SpelledParts(s, pos, "-", rest);
      SpelledFirst(s, pos, "-");
    } else {
      SpelledFirst(s, pos, rest);
      assert rest[0] == whole[0];
    }
    NumberOpens(s, pos, stack);
    UnsignedLeads(s, next, stack, minus, whole, fraction, exponent);
    LeadsThen(s, Seeking(pos, stack), Counting(next, stack, NoNumber()), Behind(next + |rest|, stack),
              [Open(InNumber)], [Ending(stack == [])]);
  }

  // ----- Values -----

  lemma StrLeads(s: string, pos: nat, stack: seq<Frame>, ps: seq<Piece>, t: string)
    requires Containers(stack) && ArePieces(ps) && t == PiecesText(ps) && Spelled(s, pos, "\"" + t + "\"")
    ensures Leads(s, Seeking(pos, stack), Behind(pos + |t| + 2, stack),
                  [Open(InString)] + (Puts(ps) + ([Text] + [Ending(stack == [])])))
  {
    hide *;
    var p1, p2, inner := pos + 1, pos + 1 + |t|, stack + [InString];
    SpelledParts(s, pos, "\"" + t, "\"");
    SpelledParts(s, pos, "\"", t);
    SpelledFirst(s, pos, "\"");
    SpelledFirst(s, p2, "\"");
    ContainersOpen(stack);
    ValueOpens(s, pos, stack);
    PiecesLead(s, p1, inner, ps);
    TextEnds(s, p2, stack);
    LeadsThen(s, Within(p1, inner), Within(p2, inner), Behind(p2 + 1, stack), Puts(ps), [Text] + [Ending(stack == [])]);
    LeadsThen(s, Seeking(pos, stack), Within(p1, inner), Behind(p2 + 1, stack), [Open(InString)],
              Puts(ps) + ([Text] + [Ending(stack == [])]));
  }

  lemma GapsLead(s: string, pos: nat, stack: seq<Frame>, w: string)
    requires Containers(stack) && Gap(w) && Spelled(s, pos, w)
    ensures Leads(s, Seeking(pos, stack), Seeking(pos + |w|, stack), [])
    ensures Leads(s, Behind(pos, stack), Behind(pos + |w|, stack), [])
    ensures Innermost(stack, InObject) ==> Leads(s, Between(pos, stack), Between(pos + |w|, stack), [])
    ensures Innermost(stack, InObject) ==>
              Leads(s, Seeking(pos, stack).(colon := true), Seeking(pos + |w|, stack).(colon := true), [])
  {
    hide Leads, Spelled, Sane, Gap;
    SpelledWithin(s, pos, w);
    SaneStates(s, pos, stack);
    GapLeads(s, Seeking(pos, stack), w);
    GapLeads(s, Behind(pos, stack), w);
    if Innermost(stack, InObject) {
      GapLeads(s, Between(pos, stack), w);
      GapLeads(s, Seeking(pos, stack).(colon := true), w);
    }
  }

  /** No character of a number follows a value: white space, a comma or the end of a list does. */
  lemma NextChar(s: string, i: nat, after: string, comma: bool, gap: string)
    requires Gap(after) && Spelled(s, i, after) && Spelled(s, i + |after|, CommaText(comma, gap))
    requires !comma ==> i + |after| < |s| && s[i + |after|] in {']', '}'}
    ensures !NumberChar(CharAt(s, i))
  {
    hide Spelled;
    if after != "" {
      SpelledFirst(s, i, after);
    } else if comma {
      SpelledFirst(s, i, CommaText(comma, gap));
    }
  }

  /** From a value to the next one, or to the next name. */
  lemma CommaLeads(s: string, pos: nat, stack: seq<Frame>, gap: string)
    requires Containers(stack) && Gap(gap) && Spelled(s, pos, CommaText(true, gap))
    ensures Innermost(stack, InArray) ==> Leads(s, Behind(pos, stack), Seeking(pos + 1 + |gap|, stack), [])
    ensures Innermost(stack, InObject) ==> Leads(s, Behind(pos, stack), Between(pos + 1 + |gap|, stack), [])
  {
    hide Leads, Spelled, Sane, Gap, Seeking, Between, Behind, Containers, Innermost;
    SpelledParts(s, pos, ",", gap);
    SpelledFirst(s, pos, ",");
    SeparatorLeads(s, pos, stack);
    GapsLead(s, pos + 1, stack, gap);
    if Innermost(stack, InArray) {
      LeadsOn(s, Behind(pos, stack), Seeking(pos + 1, stack), Seeking(pos + 1 + |gap|, stack), []);
    }
    if Innermost(stack, InObject) {
      LeadsOn(s, Behind(pos, stack), Between(pos + 1, stack), Between(pos + 1 + |gap|, stack), []);
    }
  }

  lemma LabelParts(s: string, pos: nat, l: Label, t: string)
    requires t == PiecesText(l.pieces) && Spelled(s, pos, LabelText(l))
    ensures |LabelText(l)| == |t| + |l.before| + |l.behind| + 3
    ensures Spelled(s, pos, "\"") && Spelled(s, pos + 1, t) && Spelled(s, pos + 1 + |t|, "\"")
    ensures Spelled(s, pos + |t| + 2, l.before) && Spelled(s, pos + |t| + |l.before| + 2, ":")
    ensures Spelled(s, pos + |t| + |l.before| + 3, l.behind)
  {
    hide Spelled, PiecesText;
    var q := "\"" + t;
    SpelledParts(s, pos, q + "\"" + l.before + ":", l.behind);
    SpelledParts(s, pos, q + "\"" + l.before, ":");
    SpelledParts(s, pos, q + "\"", l.before);
    SpelledParts(s, pos, q, "\"");
    SpelledParts(s, pos, "\"", t);
  }

  /** The name itself. */
  lemma QuotedLeads(s: string, pos: nat, stack: seq<Frame>, ps: seq<Piece>, t: string)
    requires Containers(stack) && Innermost(stack, InObject) && ArePieces(ps) && t == PiecesText(ps)
    requires Spelled(s, pos, "\"") && Spelled(s, pos + 1, t) && Spelled(s, pos + 1 + |t|, "\"")
    ensures Leads(s, Between(pos, stack), Seeking(pos + |t| + 2, stack).(colon := true), Puts(ps) + [Name])
  {
    hide *;
    var p1, p2 := pos + 1, pos + 1 + |t|;
    SpelledFirst(s, pos, "\"");
    SpelledFirst(s, p2, "\"");
    ContainersOpen(stack);
    SeparatorLeads(s, pos, stack);
    PiecesLead(s, p1, stack, ps);
    NameEnds(s, p2, stack);
    LeadsOn(s, Between(pos, stack), Within(p1, stack), Within(p2, stack), Puts(ps));
    LeadsThen(s, Between(pos, stack), Within(p2, stack), Seeking(p2 + 1, stack).(colon := true), Puts(ps), [Name]);
  }

  /** The colon between two gaps. */
  lemma ColonLeads(s: string, pos: nat, stack: seq<Frame>, v: string, w: string)
    requires Containers(stack) && Innermost(stack, InObject) && Gap(v) && Gap(w)
    requires Spelled(s, pos, v) && Spelled(s, pos + |v|, ":") && Spelled(s, pos + |v| + 1, w)
    ensures Leads(s, Seeking(pos, stack).(colon := true), Seeking(pos + |v| + 1 + |w|, stack), [])
  {
    hide Leads, Spelled, Gap, Containers, Innermost;
    var p := pos + |v|;
    var x := Seeking(pos, stack).(colon := true);
    SpelledFirst(s, p, ":");
    GapsLead(s, pos, stack, v);
    SeparatorLeads(s, p, stack);
    GapsLead(s, p + 1, stack, w);
    LeadsOn(s, x, Seeking(p, stack).(colon := true), Seeking(p + 1, stack), []);
    LeadsOn(s, x, Seeking(p + 1, stack), Seeking(p + 1 + |w|, stack), []);
  }

  lemma LabelHas(l: Label)
    requires IsLabel(l)
    ensures ArePieces(l.pieces) && Gap(l.before) && Gap(l.behind)
  {
  }

  lemma LabelLeads(s: string, pos: nat, stack: seq<Frame>, l: Label)
    requires Containers(stack) && Innermost(stack, InObject) && IsLabel(l) && Spelled(s, pos, LabelText(l))
    ensures ArePieces(l.pieces)
    ensures Leads(s, Between(pos, stack), Seeking(pos + |LabelText(l)|, stack), Puts(l.pieces) + [Name])
  {
    hide *;
    var t := PiecesText(l.pieces);
    LabelHas(l);
    LabelParts(s, pos, l, t);
    QuotedLeads(s, pos, stack, l.pieces, t);
    ColonLeads(s, pos + |t| + 2, stack, l.before, l.behind);
    LeadsOn(s, Between(pos, stack), Seeking(pos + |t| + 2, stack).(colon := true),
            Seeking(pos + |LabelText(l)|, stack), Puts(l.pieces) + [Name]);
  }

  lemma ThreeParts(s: string, pos: nat, a: string, b: string, c: string)
    requires Spelled(s, pos, a + b + c)
    ensures Spelled(s, pos, a) && Spelled(s, pos + |a|, b) && Spelled(s, pos + |a| + |b|, c)
    ensures |a + b + c| == |a| + |b| + |c|
  {
    hide Spelled;
    SpelledParts(s, pos, a + b, c);
    SpelledParts(s, pos, a, b);
  }

  /** A text in four parts. */
  lemma FourParts(s: string, pos: nat, a: string, b: string, c: string, d: string)
    requires Spelled(s, pos, a + b + c + d)
    ensures Spelled(s, pos, a) && Spelled(s, pos + |a|, b) && Spelled(s, pos + |a| + |b|, c)
    ensures Spelled(s, pos + |a| + |b| + |c|, d)
    ensures |a + b + c + d| == |a| + |b| + |c| + |d|
  {
    hide Spelled;
    SpelledParts(s, pos, a + b + c, d);
    SpelledParts(s, pos, a + b, c);
    SpelledParts(s, pos, a, b);
  }

  /** A value is read with its events. */
  lemma {:induction false} ValueLeads(t: Json, s: string, pos: nat, stack: seq<Frame>)
    requires IsJson(t) && Containers(stack) && Spelled(s, pos, Render(t))
    requires !NumberChar(CharAt(s, pos + |Render(t)|))
    ensures Leads(s, Seeking(pos, stack), Behind(pos + |Render(t)|, stack), Events(t, stack == []))
    decreases t, 1
  {
    hide Leads, Spelled, Containers, Gap, NumberChar, CharAt, Seeking, Behind, IsNumber, ArePieces;
    match t {
      case Word(word) => WordLeads(s, pos, stack, word);
      case Numeral(minus, whole, fraction, exponent) =>
        NumeralLeads(s, pos, stack, minus, whole + PointText(fraction) + exponent, whole, fraction, exponent);
      case Str(ps) => StrLeads(s, pos, stack, ps, PiecesText(ps));
      case List(gap, items) => ListLeads(t, gap, items, s, pos, stack);
      case Record(gap, members) => RecordLeads(t, gap, members, s, pos, stack);
    }
  }

  lemma {:induction false} ListLeads(t: Json, gap: string, items: Items, s: string, pos: nat, stack: seq<Frame>)
    requires t == List(gap, items) && Gap(gap) && AreItems(items) && Containers(stack)
    requires Spelled(s, pos, "[" + gap + RenderItems(items) + "]")
    ensures Leads(s, Seeking(pos, stack), Behind(pos + |"[" + gap + RenderItems(items) + "]"|, stack),
                  [Open(InArray)] + (ItemEvents(items) + [Ending(stack == [])]))
    decreases t, 0
  {
    hide *;
    var text, inner := RenderItems(items), stack + [InArray];
    var p1 := pos + 1 + |gap|;
    FourParts(s, pos, "[", gap, text, "]");
    SpelledFirst(s, pos, "[");
    SpelledFirst(s, p1 + |text|, "]");
    ContainersOpen(stack);
    ValueOpens(s, pos, stack);
    GapsLead(s, pos + 1, inner, gap);
    ItemsLead(items, s, p1, stack);
    LeadsOn(s, Seeking(pos, stack), Seeking(pos + 1, inner), Seeking(p1, inner), [Open(InArray)]);
    LeadsThen(s, Seeking(pos, stack), Seeking(p1, inner), Behind(p1 + |text| + 1, stack), [Open(InArray)],
              ItemEvents(items) + [Ending(stack == [])]);
  }

  lemma {:induction false} RecordLeads(t: Json, gap: string, members: Members, s: string, pos: nat, stack: seq<Frame>)
    requires t == Record(gap, members) && Gap(gap) && AreMembers(members) && Containers(stack)
    requires Spelled(s, pos, "{" + gap + RenderMembers(members) + "}")
    ensures Leads(s, Seeking(pos, stack), Behind(pos + |"{" + gap + RenderMembers(members) + "}"|, stack),
                  [Open(InObject)] + (MemberEvents(members) + [Ending(stack == [])]))
    decreases t, 0
  {
    hide *;
    var text, inner := RenderMembers(members), stack + [InObject];
    var p1 := pos + 1 + |gap|;
    FourParts(s, pos, "{", gap, text, "}");
    SpelledFirst(s, pos, "{");
    SpelledFirst(s, p1 + |text|, "}");
    ContainersOpen(stack);
    ValueOpens(s, pos, stack);
    GapsLead(s, pos + 1, inner, gap);
    MembersLead(members, s, p1, stack);
    LeadsOn(s, Seeking(pos, stack), Between(pos + 1, inner), Between(p1, inner), [Open(InObject)]);
    LeadsThen(s, Seeking(pos, stack), Between(p1, inner), Behind(p1 + |text| + 1, stack), [Open(InObject)],
              MemberEvents(members) + [Ending(stack == [])]);
  }

  /** The values of an array, up to its end. */
  lemma {:induction false} ItemsLead(items: Items, s: string, pos: nat, outer: seq<Frame>)
    requires AreItems(items) && Containers(outer) && Spelled(s, pos, RenderItems(items))
    requires pos + |RenderItems(items)| < |s| && s[pos + |RenderItems(items)|] == ']'
    ensures Leads(s, Seeking(pos, outer + [InArray]), Behind(pos + |RenderItems(items)| + 1, outer),
                  ItemEvents(items) + [Ending(outer == [])])
    decreases items, 0
  {
    hide *;
    var inner, closing := outer + [InArray], [Ending(outer == [])];
    ContainersOpen(outer);
    match items {
      case NoItem =>
        NoItemsText();
        NoItemsMeant();
        ArrayEnds(s, pos, outer, true);
        assert [] + closing == closing;
      case Item(value, after, comma, gap, rest) =>
        ItemsText(items);
        ItemsUnfold(items);
        var p1, p2 := pos + |Render(value)|, pos + |Render(value)| + |after|;
        FourParts(s, pos, Render(value), after, CommaText(comma, gap), RenderItems(rest));
        NextChar(s, p1, after, comma, gap);
        ValueLeads(value, s, pos, inner);
        GapsLead(s, p1, inner, after);
        if comma {
          CommaLeads(s, p2, inner, gap);
          ItemsLead(rest, s, p2 + 1 + |gap|, outer);
          LeadsOn(s, Behind(p2, inner), Seeking(p2 + 1 + |gap|, inner),
                  Behind(pos + |RenderItems(items)| + 1, outer), ItemEvents(rest) + closing);
        } else {
          ArrayEnds(s, p2, outer, false);
          assert [] + closing == closing;
        }
        var end := Behind(pos + |RenderItems(items)| + 1, outer);
        LeadsOn(s, Seeking(pos, inner), Behind(p1, inner), Behind(p2, inner), Events(value, false));
        LeadsThen(s, Seeking(pos, inner), Behind(p2, inner), end, Events(value, false), ItemEvents(rest) + closing);
        EventsAssociative(Events(value, false), ItemEvents(rest), closing);
    }
  }

  lemma NoItemsText()
    ensures RenderItems(NoItem) == ""
  {
  }

  lemma ItemsText(items: Items)
    requires AreItems(items) && items.Item?
    ensures Gap(items.after) && Gap(items.gap)
    ensures RenderItems(items)
         == Render(items.value) + items.after + CommaText(items.comma, items.gap) + RenderItems(items.rest)
    ensures items.comma ==> |CommaText(items.comma, items.gap)| == 1 + |items.gap|
    ensures !items.comma ==> CommaText(items.comma, items.gap) == "" && RenderItems(items.rest) == ""
    ensures !items.comma ==> ItemEvents(items.rest) == []
  {
    hide Render, IsJson;
  }

  /** The names and values of an object, up to its end. */
  lemma {:induction false} MembersLead(members: Members, s: string, pos: nat, outer: seq<Frame>)
    requires AreMembers(members) && Containers(outer) && Spelled(s, pos, RenderMembers(members))
    requires pos + |RenderMembers(members)| < |s| && s[pos + |RenderMembers(members)|] == '}'
    ensures Leads(s, Between(pos, outer + [InObject]), Behind(pos + |RenderMembers(members)| + 1, outer),
                  MemberEvents(members) + [Ending(outer == [])])
    decreases members, 0
  {
    hide *;
    var inner, closing := outer + [InObject], [Ending(outer == [])];
    ContainersOpen(outer);
    match members {
      case NoMember =>
        NoMembersText();
        NoMembersMeant();
        ObjectEnds(s, pos, outer, true);
        assert [] + closing == closing;
      case Member(name, value, after, comma, gap, rest) =>
        MembersText(members);
        MembersUnfold(members);
        var p0, p1 := pos + |LabelText(name)|, pos + |LabelText(name)| + |Render(value)|;
        var p2 := p1 + |after|;
        ThreeParts(s, pos, LabelText(name), Render(value), after + CommaText(comma, gap) + RenderMembers(rest));
        ThreeParts(s, p1, after, CommaText(comma, gap), RenderMembers(rest));
        NextChar(s, p1, after, comma, gap);
        LabelLeads(s, pos, inner, name);
        ValueLeads(value, s, p0, inner);
        GapsLead(s, p1, inner, after);
        var end := Behind(pos + |RenderMembers(members)| + 1, outer);
        if comma {
          CommaLeads(s, p2, inner, gap);
          MembersLead(rest, s, p2 + 1 + |gap|, outer);
          LeadsOn(s, Behind(p2, inner), Between(p2 + 1 + |gap|, inner), end, MemberEvents(rest) + closing);
        } else {
          ObjectEnds(s, p2, outer, false);
          assert [] + closing == closing;
        }
        LeadsOn(s, Seeking(p0, inner), Behind(p1, inner), Behind(p2, inner), Events(value, false));
        MemberDone(s, pos, p0, p2, inner, end, Puts(name.pieces), Events(value, false), MemberEvents(rest), closing);
    }
  }

  lemma MemberDone(s: string, pos: nat, p0: nat, p2: nat, inner: seq<Frame>, end: State, puts: seq<Event>,
                   value: seq<Event>, rest: seq<Event>, closing: seq<Event>)
    requires Leads(s, Between(pos, inner), Seeking(p0, inner), puts + [Name])
    requires Leads(s, Seeking(p0, inner), Behind(p2, inner), value) && Leads(s, Behind(p2, inner), end, rest + closing)
    ensures Leads(s, Between(pos, inner), end, puts + ([Name] + (value + rest)) + closing)
  {
    hide *;
    LeadsThen(s, Seeking(p0, inner), Behind(p2, inner), end, value, rest + closing);
    LeadsThen(s, Between(pos, inner), Seeking(p0, inner), end, puts + [Name], value + (rest + closing));
    assert puts + [Name] + (value + (rest + closing)) == puts + ([Name] + (value + rest)) + closing;
  }

  lemma NoMembersText()
    ensures RenderMembers(NoMember) == ""
  {
  }

  lemma MembersText(members: Members)
    requires AreMembers(members) && members.Member?
    ensures Gap(members.after) && Gap(members.gap)
    ensures RenderMembers(members)
         == LabelText(members.name) + Render(members.value)
            + (members.after + CommaText(members.comma, members.gap) + RenderMembers(members.rest))
    ensures members.comma ==> |CommaText(members.comma, members.gap)| == 1 + |members.gap|
    ensures !members.comma ==> CommaText(members.comma, members.gap) == "" && RenderMembers(members.rest) == ""
    ensures !members.comma ==> MemberEvents(members.rest) == []
  {
    hide Render, IsJson, LabelText, IsLabel;
  }

  // ----- The whole text -----

  lemma WritingHas(x: Writing)
    requires IsWriting(x)
    ensures IsJson(x.value) && Gap(x.before) && Gap(x.behind)
    ensures Written(x) == x.before + Render(x.value) + x.behind + x.ignored
    ensures Spelled(Written(x), 0, Written(x))
  {
    hide IsJson, Gap, Render;
    assert Written(x)[0..|Written(x)|] == Written(x);
  }

  lemma TextLeads(x: Writing, end: nat)
    requires IsWriting(x) && end == |x.before| + |Render(x.value)| + |x.behind|
    ensures Leads(Written(x), Start(), Behind(end, []), Events(x.value, true))
    ensures end <= |Written(x)| && CharAt(Written(x), end) == '\0'
  {
    hide *;
    var s, a := Written(x), Render(x.value);
    var p, q := |x.before|, |x.before| + |a|;
    WritingHas(x);
    FourParts(s, 0, x.before, a, x.behind, x.ignored);
    AfterText(x, s, q);
    NoContainers();
    GapsLead(s, 0, [], x.before);
    ValueLeads(x.value, s, p, []);
    GapsLead(s, q, [], x.behind);
    LeadsOn(s, Start(), Seeking(p, []), Behind(q, []), Events(x.value, true));
    LeadsOn(s, Start(), Behind(q, []), Behind(end, []), Events(x.value, true));
  }

  lemma NoContainers()
    ensures Containers([]) && Start() == Seeking(0, [])
  {
  }

  lemma AfterText(x: Writing, s: string, q: nat)
    requires IsWriting(x) && Spelled(s, q, x.behind) && Spelled(s, q + |x.behind|, x.ignored)
    requires |s| == q + |x.behind| + |x.ignored|
    ensures !NumberChar(CharAt(s, q)) && CharAt(s, q + |x.behind|) == '\0'
  {
    hide Spelled, IsJson;
    if x.behind != "" {
      SpelledFirst(s, q, x.behind);
    }
    if x.ignored != "" {
      SpelledFirst(s, q + |x.behind|, x.ignored);
    }
  }

  /** A pass ends behind the outermost value. */
  lemma PassEnds(s: string, end: nat)
    requires Sane(s, Behind(end, [])) && CharAt(s, end) == '\0'
    ensures Run(s, Behind(end, []), true) == Some([])
  {
    assert Turn(s, Behind(end, []), true) == Finish;
  }

  /**
   * Whatever value is written, with whatever escapes and white space, the text is accepted, and
   * the document that is built from it is that of what is meant: the same values, texts and names.
   */
  lemma WrittenIsRead(x: Writing)
    requires IsWriting(x)
    ensures Run(Written(x), Start(), true) == Some(Events(x.value, true))
    ensures AllAllowed(NOTHING, Events(x.value, true))
    ensures Build(NOTHING, Events(x.value, true)) == Document(Values(Meaning(x.value), 0, -1), [], "")
  {
    hide *;
    var s, end := Written(x), |x.before| + |Render(x.value)| + |x.behind|;
    WritingHas(x);
    TextLeads(x, end);
    EventsRun(s, end, Events(x.value, true));
    NothingReady();
    ValueBuilds(x.value, NOTHING);
    WholeBuilt(Meaning(x.value), Events(x.value, true));
  }

  lemma EventsRun(s: string, end: nat, events: seq<Event>)
    requires Leads(s, Start(), Behind(end, []), events) && CharAt(s, end) == '\0'
    ensures Sane(s, Start()) && Run(s, Start(), true) == Some(events)
  {
    hide Run, Sane, Behind;
    PassEnds(s, end);
    assert events + [] == events;
  }

  lemma NothingReady()
    ensures Ready(NOTHING) && NOTHING.open == [] && ParentOf(NOTHING) == -1 && |NOTHING.values| == 0
  {
  }

  lemma WholeBuilt(t: Tree, events: seq<Event>)
    requires Builds(NOTHING, events, Placed(NOTHING, Values(t, 0, -1)))
    ensures AllAllowed(NOTHING, events) && Build(NOTHING, events) == Document(Values(t, 0, -1), [], "")
  {
    hide AllAllowed, Build, Values;
    assert [] + Values(t, 0, -1) == Values(t, 0, -1);
  }
}
