/** Every text that is accepted is one that can be written: the parser accepts exactly those. */
module JsonGrammar {
  import opened JsonBuffers
  import opened JsonMeaning
  import opened JsonPasses
  import opened JsonRender
  import opened RingBuffer

  /** What leads on does not fail there. */
  lemma GoesOn(s: string, x: State, y: State, events: seq<Event>)
    requires Leads(s, x, y, events) && Run(s, x, true).Some?
    ensures Sane(s, y) && Run(s, y, true).Some?
  {
    hide Run, Sane;
  }

  lemma NoFail(s: string, x: State)
    requires Sane(s, x) && Run(s, x, true).Some?
    ensures !Turn(s, x, true).Fail?
  {
    hide Turn, Run, Sane;
    OneTurn(s, x, true);
  }

  lemma NoText(s: string, i: nat)
    requires i <= |s|
    ensures Spelled(s, i, "")
  {
  }

  lemma CharFirst(s: string, i: nat, t: string)
    requires i < |s| && Spelled(s, i + 1, t)
    ensures Spelled(s, i, [s[i]] + t)
  {
    assert s[i..i + 1 + |t|] == [s[i]] + s[i + 1..i + 1 + |t|];
  }

  lemma TextFirst(s: string, i: nat, a: string, b: string)
    requires Spelled(s, i, a) && Spelled(s, i + |a|, b)
    ensures Spelled(s, i, a + b)
  {
    assert s[i..i + |a| + |b|] == s[i..i + |a|] + s[i + |a|..i + |a| + |b|];
  }

  /** All the white space at a place. */
  lemma {:induction false} GapAt(s: string, i: nat) returns (w: string)
    requires i <= |s|
    ensures Gap(w) && Spelled(s, i, w) && i + |w| <= |s| && !Space(CharAt(s, i + |w|))
    decreases |s| - i
  {
    if i < |s| && Space(s[i]) {
      w := GapAt(s, i + 1);
      CharFirst(s, i, w);
      w := [s[i]] + w;
    } else {
      w := "";
      NoText(s, i);
    }
  }

  /** All the digits at a place. */
  lemma {:induction false} DigitsAt(s: string, i: nat) returns (ds: string)
    requires i <= |s|
    ensures Digits(ds) && Spelled(s, i, ds) && i + |ds| <= |s| && !Digit(CharAt(s, i + |ds|))
    decreases |s| - i
  {
    if i < |s| && Digit(s[i]) {
      ds := DigitsAt(s, i + 1);
      CharFirst(s, i, ds);
      ds := [s[i]] + ds;
    } else {
      ds := "";
      NoText(s, i);
    }
  }

  /** What comes behind a value is no character of a number. */
  lemma BehindNext(s: string, p: nat, stack: seq<Frame>)
    requires Containers(stack) && Sane(s, Behind(p, stack)) && Run(s, Behind(p, stack), true).Some?
    ensures !NumberChar(CharAt(s, p))
  {
    hide Run, Sane;
    NoFail(s, Behind(p, stack));
  }

  // ----- Strings -----

  lemma OnlyHex(c: char)
    requires Hex(c).Some?
    ensures '0' <= c <= '9' || 'a' <= c <= 'f' || 'A' <= c <= 'F'
  {
  }

  lemma HexAt(s: string, i: nat) returns (t: string)
    requires HexFour(s, i).Some?
    ensures IsHex(t) && Spelled(s, i, t) && |t| == 4 && HexValue(t) == HexFour(s, i).value
  {
    OnlyHex(CharAt(s, i));
    OnlyHex(CharAt(s, i + 1));
    OnlyHex(CharAt(s, i + 2));
    OnlyHex(CharAt(s, i + 3));
    t := s[i..i + 4];
    hide Hex, HexFour, HexValue;
    HexRead(s, i, t);
  }

  /** A backslash with the letter u begins one number or two. */
  lemma NumberedAt(s: string, i: nat) returns (p: Piece)
    requires i + 1 < |s| && s[i] == '\\' && s[i + 1] == 'u' && Escape(s, i + 1).Some?
    ensures IsPiece(p) && Spelled(s, i, PieceText(p))
  {
    hide HexFour, Utf8, Surrogates, HexValue, IsHex, Spelled;
    TwoChars(s, i);
    EscapeHas(s, i + 1);
    var t := HexAt(s, i + 2);
    TextFirst(s, i, ['\\', 'u'], t);
    if 0xd800 <= HexValue(t) < 0xe000 {
      TwoChars(s, i + 6);
      var low := HexAt(s, i + 8);
      TextFirst(s, i, ['\\', 'u'] + t, ['\\', 'u']);
      TextFirst(s, i, ['\\', 'u'] + t + ['\\', 'u'], low);
      p := Pair(t, low);
    } else {
      p := Code(t);
    }
  }

  lemma TwoChars(s: string, i: nat)
    requires i + 1 < |s|
    ensures Spelled(s, i, [s[i], s[i + 1]])
  {
  }

  lemma EscapeHas(s: string, i: nat)
    requires Escape(s, i).Some?
    ensures HexFour(s, i + 1).Some?
    ensures 0xd800 <= HexFour(s, i + 1).value < 0xe000 ==>
              i + 6 < |s| && s[i + 5] == '\\' && s[i + 6] == 'u' && HexFour(s, i + 7).Some?
  {
    hide HexFour, Utf8, Surrogates;
  }

  /** In a string there is a character, an escape, or the quote. */
  lemma PieceAt(s: string, pos: nat, stack: seq<Frame>) returns (p: Piece)
    requires TextIn(stack) && Sane(s, Within(pos, stack)) && Run(s, Within(pos, stack), true).Some?
    requires pos < |s| && s[pos] != '"'
    ensures IsPiece(p) && Spelled(s, pos, PieceText(p))
  {
    NoFail(s, Within(pos, stack));
    OneChar(s, pos);
    if s[pos] == '\\' {
      hide Run, Sane, Leads, Escape;
      var x := Within(pos + 1, stack).(escaped := true);
      BackslashLeads(s, pos, stack);
      GoesOn(s, Within(pos, stack), x, []);
      NoFail(s, x);
      EscapedHas(s, x);
      if s[pos + 1] == 'u' {
        p := NumberedAt(s, pos);
      } else {
        p := Backslash(s[pos + 1]);
        TwoChars(s, pos);
      }
    } else {
      p := Plain(s[pos]);
    }
  }

  lemma EscapedHas(s: string, x: State)
    requires Sane(s, x) && x.str && x.escaped && !Turn(s, x, true).Fail?
    ensures x.pos < |s| && s[x.pos] != '\0' && (s[x.pos] == 'u' ==> Escape(s, x.pos).Some?)
  {
    hide Escape;
  }

  lemma OneChar(s: string, i: nat)
    requires i < |s|
    ensures Spelled(s, i, [s[i]])
  {
  }

  lemma TextGoes(s: string, pos: nat, stack: seq<Frame>)
    requires TextIn(stack) && Sane(s, Within(pos, stack)) && Run(s, Within(pos, stack), true).Some?
    ensures pos < |s|
  {
    NoFail(s, Within(pos, stack));
  }

  lemma {:induction false} PiecesAt(s: string, pos: nat, stack: seq<Frame>) returns (ps: seq<Piece>)
    requires TextIn(stack) && Sane(s, Within(pos, stack)) && Run(s, Within(pos, stack), true).Some?
    ensures ArePieces(ps) && Spelled(s, pos, PiecesText(ps))
    ensures pos + |PiecesText(ps)| < |s| && s[pos + |PiecesText(ps)|] == '"'
    decreases |s| - pos
  {
    hide *;
    TextGoes(s, pos, stack);
    if s[pos] == '"' {
      ps := [];
      NoPieces();
      NoText(s, pos);
    } else {
      var p := PieceAt(s, pos, stack);
      var next := pos + |PieceText(p)|;
      PieceLeads(s, pos, stack, p);
      GoesOn(s, Within(pos, stack), Within(next, stack), [Put(Meant(p))]);
      PieceLength(s, pos, p);
      var rest := PiecesAt(s, next, stack);
      ps := [p] + rest;
      MorePieces(p, rest);
      TextFirst(s, pos, PieceText(p), PiecesText(rest));
    }
  }

  lemma PieceLength(s: string, pos: nat, p: Piece)
    requires Spelled(s, pos, PieceText(p))
    ensures pos < pos + |PieceText(p)| <= |s|
  {
  }

  lemma MorePieces(p: Piece, rest: seq<Piece>)
    requires IsPiece(p) && ArePieces(rest)
    ensures ArePieces([p] + rest) && PiecesText([p] + rest) == PieceText(p) + PiecesText(rest)
  {
    hide IsPiece, PieceText;
    assert ([p] + rest)[1..] == rest;
  }

  // ----- Numbers -----

  /** In a number that goes on, this is what the next character leads to. */
  lemma CountingHas(s: string, pos: nat, stack: seq<Frame>, n: Number)
    requires Containers(stack) && Sane(s, Counting(pos, stack, n)) && Run(s, Counting(pos, stack, n), true).Some?
    ensures var c := CharAt(s, pos);
            && (Digit(c) && !n.exp && !n.double ==> !n.zero)
            && (!Digit(c) && c == '.' && !n.double ==> n.digits)
            && (!Digit(c) && !(c == '.' && !n.double) && !((c == '+' || c == '-') && n.exp && !n.signed) ==>
                  (n.exp || n.double ==> n.digits))
  {
    hide Run, Sane, Finished;
    NoFail(s, Counting(pos, stack, n));
  }

  /** A number ends where the next character does not belong to it. */
  lemma CountingEnds(s: string, pos: nat, stack: seq<Frame>, n: Number)
    requires Containers(stack) && Sane(s, Counting(pos, stack, n)) && Run(s, Counting(pos, stack, n), true).Some?
    requires var c := CharAt(s, pos);
             !Digit(c) && !(c == '.' && !n.double) && !((c == '+' || c == '-') && n.exp && !n.signed)
             && !((c == 'e' || c == 'E') && !n.exp)
    ensures !NumberChar(CharAt(s, pos))
  {
    hide Run, Sane, Behind;
    var x := Counting(pos, stack, n);
    CountingHas(s, pos, stack, n);
    FinishedIs(x, stack, InNumber, pos, []);
    LeadsTurn(s, x, Behind(pos, stack), [] + [Ending(stack == [])]);
    GoesOn(s, x, Behind(pos, stack), [] + [Ending(stack == [])]);
    BehindNext(s, pos, stack);
  }

  lemma WholeAt(s: string, pos: nat, stack: seq<Frame>) returns (whole: string)
    requires Containers(stack) && pos <= |s| && Sane(s, Counting(pos, stack, NoNumber()))
    requires Run(s, Counting(pos, stack, NoNumber()), true).Some?
    ensures Digits(whole) && (whole != "" && whole[0] == '0' ==> whole == "0") && Spelled(s, pos, whole)
    ensures pos + |whole| <= |s| && !Digit(CharAt(s, pos + |whole|))
    ensures Sane(s, Counting(pos + |whole|, stack, Whole(whole)))
    ensures Run(s, Counting(pos + |whole|, stack, Whole(whole)), true).Some?
  {
    hide Run, Sane, Leads, Spelled;
    whole := DigitsAt(s, pos);
    if whole != "" && whole[0] == '0' && |whole| > 1 {
      SpelledFirst(s, pos, whole);
      SpelledFirst(s, pos + 1, whole[1..]);
      CountingTurn(s, pos, stack, NoNumber(), Whole("0"));
      GoesOn(s, Counting(pos, stack, NoNumber()), Counting(pos + 1, stack, Whole("0")), []);
      CountingHas(s, pos + 1, stack, Whole("0"));
      assert false;
    }
    assert whole != "" && whole[0] == '0' ==> whole == "0";
    WholeLeads(s, pos, stack, whole);
    GoesOn(s, Counting(pos, stack, NoNumber()), Counting(pos + |whole|, stack, Whole(whole)), []);
  }

  lemma FractionAt(s: string, pos: nat, stack: seq<Frame>, whole: string) returns (fraction: string)
    requires Containers(stack) && pos <= |s| && Sane(s, Counting(pos, stack, Whole(whole)))
    requires Run(s, Counting(pos, stack, Whole(whole)), true).Some? && !Digit(CharAt(s, pos))
    ensures Digits(fraction) && (fraction != "" ==> whole != "") && Spelled(s, pos, PointText(fraction))
    ensures var p, n := pos + |PointText(fraction)|, Whole(whole).(double := fraction != "");
            && p <= |s| && !Digit(CharAt(s, p)) && (CharAt(s, p) == '.' ==> n.double)
            && Sane(s, Counting(p, stack, n)) && Run(s, Counting(p, stack, n), true).Some?
  {
    hide Run, Sane, Leads, Spelled;
    CountingHas(s, pos, stack, Whole(whole));
    if CharAt(s, pos) == '.' {
      var m := Whole(whole).(double := true, digits := false);
      CountingTurn(s, pos, stack, Whole(whole), m);
      GoesOn(s, Counting(pos, stack, Whole(whole)), Counting(pos + 1, stack, m), []);
      fraction := DigitsAt(s, pos + 1);
      CountingHas(s, pos + 1, stack, m);
      CharFirst(s, pos, fraction);
      assert fraction != "";
      FractionLeads(s, pos, stack, Whole(whole), fraction);
      GoesOn(s, Counting(pos, stack, Whole(whole)),
             Counting(pos + |"." + fraction|, stack, Whole(whole).(double := true)), []);
    } else {
      fraction := "";
      NoText(s, pos);
    }
  }

  /** The sign of an exponent, and its digits. */
  lemma SignedAt(s: string, pos: nat, stack: seq<Frame>) returns (t: string)
    requires Containers(stack) && pos <= |s| && Sane(s, Counting(pos, stack, Number(true, false, false, true, false)))
    requires Run(s, Counting(pos, stack, Number(true, false, false, true, false)), true).Some?
    ensures t != "" && Spelled(s, pos, t) && pos + |t| <= |s| && !Digit(CharAt(s, pos + |t|))
    ensures var k := if t[0] == '+' || t[0] == '-' then 1 else 0; k < |t| && Digits(t[k..])
  {
    hide Run, Sane, Leads, Spelled;
    var m := Number(true, false, false, true, false);
    CountingHas(s, pos, stack, m);
    var c := CharAt(s, pos);
    if c == '+' || c == '-' {
      CountingTurn(s, pos, stack, m, m.(signed := true));
      GoesOn(s, Counting(pos, stack, m), Counting(pos + 1, stack, m.(signed := true)), []);
      CountingHas(s, pos + 1, stack, m.(signed := true));
      var ds := DigitsAt(s, pos + 1);
      assert ds != "";
      CharFirst(s, pos, ds);
      t := [c] + ds;
      assert t[1..] == ds;
    } else {
      t := DigitsAt(s, pos);
      assert t != "" && t[0..] == t;
    }
  }

  lemma ExponentAt(s: string, pos: nat, stack: seq<Frame>, n: Number) returns (exponent: string)
    requires Containers(stack) && pos <= |s| && Sane(s, Counting(pos, stack, n))
    requires Run(s, Counting(pos, stack, n), true).Some? && !Digit(CharAt(s, pos))
    requires (CharAt(s, pos) == '.' ==> n.double) && (n.double ==> n.digits) && !n.exp && !n.signed
    ensures (exponent == "" || IsExponent(exponent)) && Spelled(s, pos, exponent)
    ensures pos + |exponent| <= |s| && !NumberChar(CharAt(s, pos + |exponent|))
  {
    hide Run, Sane, Leads, Spelled;
    var c := CharAt(s, pos);
    if c == 'e' || c == 'E' {
      var m := Number(true, false, false, true, false);
      CountingTurn(s, pos, stack, n, m);
      GoesOn(s, Counting(pos, stack, n), Counting(pos + 1, stack, m), []);
      var t := SignedAt(s, pos + 1, stack);
      exponent := [c] + t;
      CharFirst(s, pos, t);
      ExponentIs(c, t);
      ExponentLeads(s, pos, stack, n, exponent);
      var end := Number(true, true, false, true, true);
      GoesOn(s, Counting(pos, stack, n), Counting(pos + |exponent|, stack, end), []);
      CountingEnds(s, pos + |exponent|, stack, end);
    } else {
      exponent := "";
      NoText(s, pos);
      CountingEnds(s, pos, stack, n);
    }
  }

  lemma ExponentIs(c: char, t: string)
    requires (c == 'e' || c == 'E') && t != ""
    requires var k := if t[0] == '+' || t[0] == '-' then 1 else 0; k < |t| && Digits(t[k..])
    ensures IsExponent([c] + t)
  {
    var e := [c] + t;
    assert e[1] == t[0] && e[1..] == t && e[2..] == t[1..];
  }

  lemma NumberAt(s: string, pos: nat, stack: seq<Frame>) returns (t: Json)
    requires Containers(stack) && pos < |s| && (s[pos] == '-' || Digit(s[pos]))
    requires Sane(s, Seeking(pos, stack)) && Run(s, Seeking(pos, stack), true).Some?
    ensures IsJson(t) && t.Numeral? && Spelled(s, pos, Render(t)) && !NumberChar(CharAt(s, pos + |Render(t)|))
  {
    hide Run, Sane, Leads, Spelled, NumberChar, Digits, IsExponent;
    var minus := s[pos] == '-';
    var p := if minus then pos + 1 else pos;
    NumberOpens(s, pos, stack);
    GoesOn(s, Seeking(pos, stack), Counting(p, stack, NoNumber()), [Open(InNumber)]);
    var whole := WholeAt(s, p, stack);
    var fraction := FractionAt(s, p + |whole|, stack, whole);
    var n := Whole(whole).(double := fraction != "");
    var exponent := ExponentAt(s, p + |whole| + |PointText(fraction)|, stack, n);
    TextFirst(s, p, whole, PointText(fraction));
    TextFirst(s, p, whole + PointText(fraction), exponent);
    t := Numeral(minus, whole, fraction, exponent);
    if minus {
      CharFirst(s, pos, whole + PointText(fraction) + exponent);
    }
  }

  // ----- Values -----

  /** A value begins with one of these characters. */
  lemma SeekingHas(s: string, pos: nat, stack: seq<Frame>)
    requires Containers(stack) && Sane(s, Seeking(pos, stack)) && Run(s, Seeking(pos, stack), true).Some?
    requires !Space(CharAt(s, pos)) && (CharAt(s, pos) == ']' ==> !Innermost(stack, InArray))
    ensures pos < |s| && s[pos] != ']'
    ensures s[pos] in {'{', '[', '"', '-'} || Digit(s[pos])
            || (s[pos] == 't' && Spelled(s, pos + 1, "rue")) || (s[pos] == 'f' && Spelled(s, pos + 1, "alse"))
            || (s[pos] == 'n' && Spelled(s, pos + 1, "ull"))
  {
    hide Run, Sane, Finished, Spelled;
    NoFail(s, Seeking(pos, stack));
  }

  /** This value is read here. */
  ghost predicate Found(s: string, pos: nat, stack: seq<Frame>, t: Json) {
    && IsJson(t) && Spelled(s, pos, Render(t)) && pos < pos + |Render(t)| <= |s|
    && Leads(s, Seeking(pos, stack), Behind(pos + |Render(t)|, stack), Events(t, stack == []))
  }

  lemma WordAt(s: string, pos: nat, stack: seq<Frame>, word: Frame)
    requires Containers(stack) && pos < |s| && word in {InTrue, InFalse, InNull}
    requires s[pos] == WordText(word)[0] && Spelled(s, pos + 1, WordText(word)[1..])
    ensures Found(s, pos, stack, Word(word))
  {
    hide Leads, Spelled, Containers;
    CharFirst(s, pos, WordText(word)[1..]);
    assert [s[pos]] + WordText(word)[1..] == WordText(word);
    SpelledWithin(s, pos, WordText(word));
    WordLeads(s, pos, stack, word);
  }

  lemma StrAt(s: string, pos: nat, stack: seq<Frame>) returns (t: Json)
    requires Containers(stack) && pos < |s| && s[pos] == '"'
    requires Sane(s, Seeking(pos, stack)) && Run(s, Seeking(pos, stack), true).Some?
    ensures Found(s, pos, stack, t)
  {
    hide Leads, Spelled, Containers, Run, Sane, TextIn, PiecesText, ArePieces;
    var inner := stack + [InString];
    ContainersOpen(stack);
    ValueOpens(s, pos, stack);
    GoesOn(s, Seeking(pos, stack), Within(pos + 1, inner), [Open(InString)]);
    var ps := PiecesAt(s, pos + 1, inner);
    var text := PiecesText(ps);
    OneChar(s, pos);
    OneChar(s, pos + 1 + |text|);
    TextFirst(s, pos, "\"", text);
    TextFirst(s, pos, "\"" + text, "\"");
    t := Str(ps);
    StrLeads(s, pos, stack, ps, text);
  }

  lemma {:induction false} ValueAt(s: string, pos: nat, stack: seq<Frame>) returns (t: Json)
    requires Containers(stack) && Sane(s, Seeking(pos, stack)) && Run(s, Seeking(pos, stack), true).Some?
    requires !Space(CharAt(s, pos)) && (CharAt(s, pos) == ']' ==> !Innermost(stack, InArray))
    ensures Found(s, pos, stack, t)
    decreases |s| - pos, 1
  {
    hide Leads, Spelled, Containers, Run, Sane, Found, Seeking, Innermost;
    SeekingHas(s, pos, stack);
    var c := s[pos];
    if c == '"' {
      t := StrAt(s, pos, stack);
    } else if c == '[' {
      t := ListAt(s, pos, stack);
    } else if c == '{' {
      t := RecordAt(s, pos, stack);
    } else if c == '-' || Digit(c) {
      t := NumberAt(s, pos, stack);
      NumberFound(s, pos, stack, t);
    } else {
      t := Word(if c == 't' then InTrue else if c == 'f' then InFalse else InNull);
      WordAt(s, pos, stack, t.word);
    }
  }

  lemma NumberFound(s: string, pos: nat, stack: seq<Frame>, t: Json)
    requires Containers(stack) && IsJson(t) && t.Numeral? && Spelled(s, pos, Render(t))
    requires !NumberChar(CharAt(s, pos + |Render(t)|))
    ensures Found(s, pos, stack, t)
  {
    hide Leads, Spelled, Containers;
    SpelledWithin(s, pos, Render(t));
    ValueLeads(t, s, pos, stack);
  }

  lemma {:induction false} ListAt(s: string, pos: nat, stack: seq<Frame>) returns (t: Json)
    requires Containers(stack) && pos < |s| && s[pos] == '['
    requires Sane(s, Seeking(pos, stack)) && Run(s, Seeking(pos, stack), true).Some?
    ensures Found(s, pos, stack, t)
    decreases |s| - pos, 0
  {
    hide *;
    var inner := stack + [InArray];
    ContainersOpen(stack);
    ValueOpens(s, pos, stack);
    GoesOn(s, Seeking(pos, stack), Seeking(pos + 1, inner), [Open(InArray)]);
    var gap := GapAt(s, pos + 1);
    var p := pos + 1 + |gap|;
    GapsLead(s, pos + 1, inner, gap);
    GoesOn(s, Seeking(pos + 1, inner), Seeking(p, inner), []);
    var items := ItemsAt(s, p, stack);
    var text := RenderItems(items);
    OneChar(s, pos);
    OneChar(s, p + |text|);
    TextFirst(s, pos, "[", gap);
    TextFirst(s, pos, "[" + gap, text);
    TextFirst(s, pos, "[" + gap + text, "]");
    t := List(gap, items);
    ListLeads(t, gap, items, s, pos, stack);
    ListIs(gap, items, stack == []);
    IsFound(s, pos, stack, t, "[" + gap + text + "]", Events(t, stack == []));
  }

  lemma ListIs(gap: string, items: Items, root: bool)
    requires Gap(gap) && AreItems(items)
    ensures var t := List(gap, items);
            && IsJson(t) && Render(t) == "[" + gap + RenderItems(items) + "]"
            && Events(t, root) == [Open(InArray)] + (ItemEvents(items) + [Ending(root)])
  {
    hide Gap, AreItems, RenderItems, ItemEvents;
  }

  lemma IsFound(s: string, pos: nat, stack: seq<Frame>, t: Json, text: string, events: seq<Event>)
    requires IsJson(t) && text == Render(t) && events == Events(t, stack == []) && text != ""
    requires Spelled(s, pos, text) && Leads(s, Seeking(pos, stack), Behind(pos + |text|, stack), events)
    ensures Found(s, pos, stack, t)
  {
    hide Leads, Spelled, IsJson, Render, Events;
    SpelledWithin(s, pos, text);
  }

  lemma {:induction false} RecordAt(s: string, pos: nat, stack: seq<Frame>) returns (t: Json)
    requires Containers(stack) && pos < |s| && s[pos] == '{'
    requires Sane(s, Seeking(pos, stack)) && Run(s, Seeking(pos, stack), true).Some?
    ensures Found(s, pos, stack, t)
    decreases |s| - pos, 0
  {
    hide *;
    var inner := stack + [InObject];
    ContainersOpen(stack);
    ValueOpens(s, pos, stack);
    GoesOn(s, Seeking(pos, stack), Between(pos + 1, inner), [Open(InObject)]);
    var gap := GapAt(s, pos + 1);
    var p := pos + 1 + |gap|;
    GapsLead(s, pos + 1, inner, gap);
    GoesOn(s, Between(pos + 1, inner), Between(p, inner), []);
    var members := MembersAt(s, p, stack);
    var text := RenderMembers(members);
    OneChar(s, pos);
    OneChar(s, p + |text|);
    TextFirst(s, pos, "{", gap);
    TextFirst(s, pos, "{" + gap, text);
    TextFirst(s, pos, "{" + gap + text, "}");
    t := Record(gap, members);
    RecordLeads(t, gap, members, s, pos, stack);
    RecordIs(gap, members, stack == []);
    IsFound(s, pos, stack, t, "{" + gap + text + "}", Events(t, stack == []));
  }

  lemma RecordIs(gap: string, members: Members, root: bool)
    requires Gap(gap) && AreMembers(members)
    ensures var t := Record(gap, members);
            && IsJson(t) && Render(t) == "{" + gap + RenderMembers(members) + "}"
            && Events(t, root) == [Open(InObject)] + (MemberEvents(members) + [Ending(root)])
  {
    hide Gap, AreMembers, RenderMembers, MemberEvents;
  }

  /** Behind a value comes a comma or the end of what it is in, or of the text. */
  lemma BehindHas(s: string, p: nat, stack: seq<Frame>)
    requires Containers(stack) && Sane(s, Behind(p, stack)) && Run(s, Behind(p, stack), true).Some?
    requires !Space(CharAt(s, p))
    ensures Innermost(stack, InArray) ==> p < |s| && s[p] in {',', ']'}
    ensures Innermost(stack, InObject) ==> p < |s| && s[p] in {',', '}'}
    ensures stack == [] ==> CharAt(s, p) == '\0'
  {
    hide Run, Sane, Finished;
    NoFail(s, Behind(p, stack));
  }

  /** The value at a place, and the gap behind it. */
  lemma {:induction false} ValueGapAt(s: string, pos: nat, stack: seq<Frame>) returns (t: Json, after: string)
    requires Containers(stack) && Sane(s, Seeking(pos, stack)) && Run(s, Seeking(pos, stack), true).Some?
    requires !Space(CharAt(s, pos)) && (CharAt(s, pos) == ']' ==> !Innermost(stack, InArray))
    ensures IsJson(t) && Gap(after) && Spelled(s, pos, Render(t) + after)
    ensures pos < pos + |Render(t)| + |after| <= |s| && !Space(CharAt(s, pos + |Render(t)| + |after|))
    ensures var y := Behind(pos + |Render(t)| + |after|, stack); Sane(s, y) && Run(s, y, true).Some?
    decreases |s| - pos, 2
  {
    hide *;
    t := ValueAt(s, pos, stack);
    FoundHas(s, pos, stack, t);
    var p := pos + |Render(t)|;
    GoesOn(s, Seeking(pos, stack), Behind(p, stack), Events(t, stack == []));
    after := GapAt(s, p);
    GapsLead(s, p, stack, after);
    GoesOn(s, Behind(p, stack), Behind(p + |after|, stack), []);
    TextFirst(s, pos, Render(t), after);
  }

  lemma FoundHas(s: string, pos: nat, stack: seq<Frame>, t: Json)
    requires Found(s, pos, stack, t)
    ensures IsJson(t) && Spelled(s, pos, Render(t)) && pos < pos + |Render(t)| <= |s|
    ensures Leads(s, Seeking(pos, stack), Behind(pos + |Render(t)|, stack), Events(t, stack == []))
  {
  }

  lemma {:induction false} ItemsAt(s: string, pos: nat, outer: seq<Frame>) returns (items: Items)
    requires Containers(outer) && pos <= |s| && !Space(CharAt(s, pos))
    requires var x := Seeking(pos, outer + [InArray]); Sane(s, x) && Run(s, x, true).Some?
    ensures AreItems(items) && Spelled(s, pos, RenderItems(items))
    ensures pos + |RenderItems(items)| < |s| && s[pos + |RenderItems(items)|] == ']'
    decreases |s| - pos, 3
  {
    hide *;
    var inner := outer + [InArray];
    ContainersOpen(outer);
    if pos < |s| && s[pos] == ']' {
      items := NoItem;
      NoItemsMeant();
      NoItemsText();
      NoText(s, pos);
    } else {
      CharIs(s, pos);
      var value, after := ValueGapAt(s, pos, inner);
      var p := pos + |Render(value)| + |after|;
      BehindHas(s, p, inner);
      if s[p] == ']' {
        items := Item(value, after, false, "", NoItem);
        LastItem(value, after);
      } else {
        var rest, gap := MoreItems(s, p, outer);
        items := Item(value, after, true, gap, rest);
        NextItem(value, after, gap, rest);
        TextFirst(s, pos, Render(value) + after, "," + gap + RenderItems(rest));
      }
    }
  }

  lemma CharIs(s: string, pos: nat)
    requires pos <= |s| && !(pos < |s| && s[pos] == ']')
    ensures CharAt(s, pos) != ']'
  {
  }

  lemma LastItem(value: Json, after: string)
    requires IsJson(value) && Gap(after)
    ensures var items := Item(value, after, false, "", NoItem);
            AreItems(items) && RenderItems(items) == Render(value) + after
  {
    hide Render, IsJson;
  }

  lemma NextItem(value: Json, after: string, gap: string, rest: Items)
    requires IsJson(value) && Gap(after) && Gap(gap) && AreItems(rest)
    ensures var items := Item(value, after, true, gap, rest);
            AreItems(items) && RenderItems(items) == Render(value) + after + ("," + gap + RenderItems(rest))
  {
    hide Render, IsJson;
  }

  /** The comma, the gap behind it, and the items that follow. */
  lemma {:induction false} MoreItems(s: string, p: nat, outer: seq<Frame>) returns (rest: Items, gap: string)
    requires Containers(outer) && p < |s| && s[p] == ','
    requires var x := Behind(p, outer + [InArray]); Sane(s, x) && Run(s, x, true).Some?
    ensures AreItems(rest) && Gap(gap) && Spelled(s, p, "," + gap + RenderItems(rest))
    ensures var e := p + |"," + gap + RenderItems(rest)|; e < |s| && s[e] == ']'
    decreases |s| - p, 0
  {
    hide *;
    var inner := outer + [InArray];
    ContainersOpen(outer);
    SeparatorLeads(s, p, inner);
    GoesOn(s, Behind(p, inner), Seeking(p + 1, inner), []);
    gap := GapAt(s, p + 1);
    GapsLead(s, p + 1, inner, gap);
    GoesOn(s, Seeking(p + 1, inner), Seeking(p + 1 + |gap|, inner), []);
    rest := ItemsAt(s, p + 1 + |gap|, outer);
    OneChar(s, p);
    TextFirst(s, p, ",", gap);
    TextFirst(s, p, "," + gap, RenderItems(rest));
  }

  /** In an object, a name or its end comes next. */
  lemma BetweenHas(s: string, p: nat, stack: seq<Frame>)
    requires Containers(stack) && Innermost(stack, InObject) && !Space(CharAt(s, p))
    requires Sane(s, Between(p, stack)) && Run(s, Between(p, stack), true).Some?
    ensures p < |s| && s[p] in {'"', '}'}
  {
    hide Run, Sane, Finished;
    NoFail(s, Between(p, stack));
  }

  lemma ColonHas(s: string, p: nat, stack: seq<Frame>)
    requires Containers(stack) && Innermost(stack, InObject) && !Space(CharAt(s, p))
    requires var x := Seeking(p, stack).(colon := true); Sane(s, x) && Run(s, x, true).Some?
    ensures p < |s| && s[p] == ':'
  {
    hide Run, Sane, Finished;
    NoFail(s, Seeking(p, stack).(colon := true));
  }

  /** A name, its colon, and the gaps around that. */
  lemma LabelAt(s: string, pos: nat, stack: seq<Frame>) returns (l: Label)
    requires Containers(stack) && Innermost(stack, InObject) && pos < |s| && s[pos] == '"'
    requires Sane(s, Between(pos, stack)) && Run(s, Between(pos, stack), true).Some?
    ensures IsLabel(l) && Spelled(s, pos, LabelText(l)) && pos < pos + |LabelText(l)| <= |s|
    ensures var p := pos + |LabelText(l)|;
            && !Space(CharAt(s, p)) && Sane(s, Seeking(p, stack)) && Run(s, Seeking(p, stack), true).Some?
  {
    hide *;
    ContainersOpen(stack);
    SeparatorLeads(s, pos, stack);
    GoesOn(s, Between(pos, stack), Within(pos + 1, stack), []);
    var ps := PiecesAt(s, pos + 1, stack);
    var t := PiecesText(ps);
    OneChar(s, pos);
    OneChar(s, pos + 1 + |t|);
    QuotedLeads(s, pos, stack, ps, t);
    var p := pos + |t| + 2;
    GoesOn(s, Between(pos, stack), Seeking(p, stack).(colon := true), Puts(ps) + [Name]);
    var before := GapAt(s, p);
    GapsLead(s, p, stack, before);
    var q := p + |before|;
    GoesOn(s, Seeking(p, stack).(colon := true), Seeking(q, stack).(colon := true), []);
    ColonHas(s, q, stack);
    SeparatorLeads(s, q, stack);
    GoesOn(s, Seeking(q, stack).(colon := true), Seeking(q + 1, stack), []);
    var behind := GapAt(s, q + 1);
    GapsLead(s, q + 1, stack, behind);
    GoesOn(s, Seeking(q + 1, stack), Seeking(q + 1 + |behind|, stack), []);
    OneChar(s, q);
    l := Label(ps, before, behind);
    LabelIs(s, pos, l, t);
  }

  lemma LabelIs(s: string, pos: nat, l: Label, t: string)
    requires t == PiecesText(l.pieces) && ArePieces(l.pieces) && Gap(l.before) && Gap(l.behind)
    requires Spelled(s, pos, "\"") && Spelled(s, pos + 1, t) && Spelled(s, pos + 1 + |t|, "\"")
    requires Spelled(s, pos + |t| + 2, l.before) && Spelled(s, pos + |t| + 2 + |l.before|, ":")
    requires Spelled(s, pos + |t| + 3 + |l.before|, l.behind)
    ensures IsLabel(l) && Spelled(s, pos, LabelText(l)) && |LabelText(l)| == |t| + |l.before| + |l.behind| + 3
    ensures pos + |LabelText(l)| <= |s|
  {
    hide Spelled, PiecesText, ArePieces, Gap;
    var q := "\"" + t;
    TextFirst(s, pos, "\"", t);
    TextFirst(s, pos, q, "\"");
    TextFirst(s, pos, q + "\"", l.before);
    TextFirst(s, pos, q + "\"" + l.before, ":");
    TextFirst(s, pos, q + "\"" + l.before + ":", l.behind);
    SpelledWithin(s, pos, LabelText(l));
  }

  lemma {:induction false} MembersAt(s: string, pos: nat, outer: seq<Frame>) returns (members: Members)
    requires Containers(outer) && pos <= |s| && !Space(CharAt(s, pos))
    requires var x := Between(pos, outer + [InObject]); Sane(s, x) && Run(s, x, true).Some?
    ensures AreMembers(members) && Spelled(s, pos, RenderMembers(members))
    ensures pos + |RenderMembers(members)| < |s| && s[pos + |RenderMembers(members)|] == '}'
    decreases |s| - pos, 3
  {
    hide *;
    var inner := outer + [InObject];
    ContainersOpen(outer);
    BetweenHas(s, pos, inner);
    if s[pos] == '}' {
      members := NoMember;
      NoMembersMeant();
      NoMembersText();
      NoText(s, pos);
    } else {
      var name := LabelAt(s, pos, inner);
      var p := pos + |LabelText(name)|;
      InObjectNotArray(inner);
      var value, after := ValueGapAt(s, p, inner);
      var q := p + |Render(value)| + |after|;
      BehindHas(s, q, inner);
      TextFirst(s, pos, LabelText(name), Render(value) + after);
      if s[q] == '}' {
        members := Member(name, value, after, false, "", NoMember);
        LastMember(name, value, after);
      } else {
        var rest, gap := MoreMembers(s, q, outer);
        members := Member(name, value, after, true, gap, rest);
        NextMember(name, value, after, gap, rest);
        TextFirst(s, pos, LabelText(name) + (Render(value) + after), "," + gap + RenderMembers(rest));
      }
    }
  }

  lemma InObjectNotArray(stack: seq<Frame>)
    requires Innermost(stack, InObject)
    ensures !Innermost(stack, InArray)
  {
  }

  lemma LastMember(name: Label, value: Json, after: string)
    requires IsLabel(name) && IsJson(value) && Gap(after)
    ensures var members := Member(name, value, after, false, "", NoMember);
            AreMembers(members) && RenderMembers(members) == LabelText(name) + (Render(value) + after)
  {
    hide Render, IsJson, LabelText, IsLabel;
    var members := Member(name, value, after, false, "", NoMember);
    assert RenderMembers(members) == LabelText(name) + Render(value) + (after + "" + "");
  }

  lemma NextMember(name: Label, value: Json, after: string, gap: string, rest: Members)
    requires IsLabel(name) && IsJson(value) && Gap(after) && Gap(gap) && AreMembers(rest)
    ensures var members := Member(name, value, after, true, gap, rest);
            && AreMembers(members)
            && RenderMembers(members) == LabelText(name) + (Render(value) + after) + ("," + gap + RenderMembers(rest))
  {
    hide Render, IsJson, LabelText, IsLabel;
    var members := Member(name, value, after, true, gap, rest);
    assert RenderMembers(members) == LabelText(name) + Render(value) + (after + ("," + gap) + RenderMembers(rest));
  }

  lemma {:induction false} MoreMembers(s: string, p: nat, outer: seq<Frame>) returns (rest: Members, gap: string)
    requires Containers(outer) && p < |s| && s[p] == ','
    requires var x := Behind(p, outer + [InObject]); Sane(s, x) && Run(s, x, true).Some?
    ensures AreMembers(rest) && Gap(gap) && Spelled(s, p, "," + gap + RenderMembers(rest))
    ensures var e := p + |"," + gap + RenderMembers(rest)|; e < |s| && s[e] == '}'
    decreases |s| - p, 0
  {
    hide *;
    var inner := outer + [InObject];
    ContainersOpen(outer);
    SeparatorLeads(s, p, inner);
    GoesOn(s, Behind(p, inner), Between(p + 1, inner), []);
    gap := GapAt(s, p + 1);
    GapsLead(s, p + 1, inner, gap);
    GoesOn(s, Between(p + 1, inner), Between(p + 1 + |gap|, inner), []);
    rest := MembersAt(s, p + 1 + |gap|, outer);
    OneChar(s, p);
    TextFirst(s, p, ",", gap);
    TextFirst(s, p, "," + gap, RenderMembers(rest));
  }

  // ----- The whole text -----

  /** The writing that an accepted text is. */
  lemma WritingOf(s: string) returns (x: Writing)
    requires Run(s, Start(), true).Some?
    ensures IsWriting(x) && Written(x) == s
  {
    hide *;
    NoContainers();
    StartSane(s);
    var before := GapAt(s, 0);
    GapsLead(s, 0, [], before);
    GoesOn(s, Start(), Seeking(|before|, []), []);
    NotInArray();
    var value, behind := ValueGapAt(s, |before|, []);
    var p := |before| + |Render(value)| + |behind|;
    BehindHas(s, p, []);
    x := Writing(before, value, behind, s[p..]);
    TextFirst(s, 0, before, Render(value) + behind);
    WritingIs(x, s, p);
  }

  lemma NotInArray()
    ensures !Innermost([], InArray)
  {
  }

  lemma WritingIs(x: Writing, s: string, p: nat)
    requires p <= |s| && x.ignored == s[p..] && CharAt(s, p) == '\0'
    requires Gap(x.before) && IsJson(x.value) && Gap(x.behind)
    requires Spelled(s, 0, x.before + (Render(x.value) + x.behind)) && p == |x.before + (Render(x.value) + x.behind)|
    ensures IsWriting(x) && Written(x) == s
  {
    hide IsJson, Render, Gap;
    assert s == s[0..p] + s[p..];
    assert x.before + Render(x.value) + x.behind == x.before + (Render(x.value) + x.behind);
  }

  /**
   * The parser accepts exactly the texts that can be written: JSON with white space between the
   * tokens, but also with a comma behind the last value of a list, a minus for a number, and
   * anything behind a zero.
   */
  lemma AcceptedIff(s: string)
    ensures Run(s, Start(), true).Some? <==> exists x :: IsWriting(x) && Written(x) == s
  {
    hide *;
    StartSane(s);
    if Run(s, Start(), true).Some? {
      var x := WritingOf(s);
    }
    if x :| IsWriting(x) && Written(x) == s {
      WrittenIsRead(x);
    }
  }

  /**
   * json_parse: a text is accepted if and only if it can be written, and then the values of the
   * parser hold, in buffers filled to the last byte, exactly what is meant by it.
   */
  method JsonParse(s: string) returns (ok: bool, parser: Parser)
    ensures fresh(parser)
    ensures ok <==> exists x :: IsWriting(x) && Written(x) == s
    ensures ok ==> forall x :: IsWriting(x) && Written(x) == s ==>
              var values := Values(Meaning(x.value), 0, -1);
              |parser.nodes| == |values| && forall i :: 0 <= i < |values| ==> parser.nodes[i].Filled(values[i])
  {
    hide Written, Run, Build, AllAllowed, Gap, IsJson, Render, Meaning, Values, Start, Node.Filled;
    StartSane(s);
    AcceptedIff(s);
    parser := new Parser();
    ok := parser.Parse(s);
    forall x | ok && IsWriting(x) && Written(x) == s
      ensures Build(NOTHING, Run(s, Start(), true).value).values == Values(Meaning(x.value), 0, -1)
    {
      WrittenIsRead(x);
    }
  }
}
