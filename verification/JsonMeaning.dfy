/**
 * What a JSON text means: the texts in which values are written, the values that are meant, and
 * the documents that stand for these.
 */
module JsonMeaning {
  import opened JsonBuffers
  import opened JsonPasses
  import opened RingBuffer

  // ----- Texts -----

  /** A part of a string: a character, one behind a backslash, one by its number, a pair of numbers. */
  datatype Piece = Plain(c: char) | Backslash(c: char) | Code(digits: string) | Pair(high: string, low: string)

  /** A value with everything that can be chosen in writing it; a gap is white space. */
  datatype Json =
    | Word(word: Frame)
    | Numeral(minus: bool, whole: string, fraction: string, exponent: string)
    | Str(pieces: seq<Piece>)
    | List(gap: string, items: Items)
    | Record(gap: string, members: Members)

  /** The values of an array. A comma may stand behind the last one too. */
  datatype Items = NoItem | Item(value: Json, after: string, comma: bool, gap: string, rest: Items)

  /** A name, and the gaps before and behind its colon. */
  datatype Label = Label(pieces: seq<Piece>, before: string, behind: string)

  datatype Members =
    | NoMember
    | Member(name: Label, value: Json, after: string, comma: bool, gap: string, rest: Members)

  /** The value of a hexadecimal digit. */
  function HexOf(c: char): (h: nat)
  {
    if '0' <= c <= '9' then c as int - '0' as int
    else if 'a' <= c <= 'f' then 10 + (c as int - 'a' as int)
    else if 'A' <= c <= 'F' then 10 + (c as int - 'A' as int)
    else 0
  }

  /** Four hexadecimal digits. */
  predicate IsHex(t: string) {
    |t| == 4 && forall i :: 0 <= i < 4 ==> '0' <= t[i] <= '9' || 'a' <= t[i] <= 'f' || 'A' <= t[i] <= 'F'
  }

  function HexValue(t: string): (h: nat)
    requires IsHex(t)
    ensures h < 0x10000
  {
    0x1000 * HexOf(t[0]) + 0x100 * HexOf(t[1]) + 0x10 * HexOf(t[2]) + HexOf(t[3])
  }

  predicate IsPiece(p: Piece) {
    match p
    case Plain(c) => c != '"' && c != '\\' && c != '\0'
    case Backslash(c) => c != 'u' && c != '\0'
    case Code(t) => IsHex(t) && !(0xd800 <= HexValue(t) < 0xe000)
    case Pair(high, low) => IsHex(high) && IsHex(low) && 0xd800 <= HexValue(high) < 0xe000
  }

  function PieceText(p: Piece): (t: string)
    ensures t != ""
  {
    match p
    case Plain(c) => [c]
    case Backslash(c) => ['\\', c]
    case Code(t) => ['\\', 'u'] + t
    case Pair(high, low) => ['\\', 'u'] + high + ['\\', 'u'] + low
  }

  /** The bytes that are meant. */
  function Meant(p: Piece): (bytes: string)
    requires IsPiece(p)
    ensures bytes != ""
  {
    match p
    case Plain(c) => [c]
    case Backslash(c) =>
      if c == 'b' then [8 as char]
      else if c == 'f' then [12 as char]
      else if c == 'n' then [10 as char]
      else if c == 'r' then [13 as char]
      else if c == 't' then [9 as char]
      else [c]
    case Code(t) => Utf8(HexValue(t))
    case Pair(high, low) => Utf8(Surrogates(HexValue(high), HexValue(low)))
  }

  /** A pair of surrogates is the code point it should be, if bit 6 of its first half is not set. */
  lemma PairMeans(p: Piece, high: nat, low: nat)
    requires IsPiece(p) && p.Pair?
    requires 0xd800 <= high == HexValue(p.high) < 0xdc00 <= low == HexValue(p.low) < 0xe000
    requires high / 0x40 % 2 == 0
    ensures Meant(p) == Utf8(0x10000 + (high - 0xd800) * 0x400 + (low - 0xdc00))
  {
    hide Utf8, Surrogates, CodePoint, HexValue, IsPiece, IsHex;
    SurrogatesRightIff(high, low);
    HalvesOf(high, low);
  }

  lemma HalvesOf(high: nat, low: nat)
    requires 0xd800 <= high < 0xdc00 <= low < 0xe000
    ensures CodePoint(high, low) == 0x10000 + (high - 0xd800) * 0x400 + (low - 0xdc00)
  {
  }

  predicate ArePieces(ps: seq<Piece>) { forall i :: 0 <= i < |ps| ==> IsPiece(ps[i]) }

  function PiecesText(ps: seq<Piece>): string {
    if ps == [] then "" else PieceText(ps[0]) + PiecesText(ps[1..])
  }

  function AllMeant(ps: seq<Piece>): string
    requires ArePieces(ps)
  {
    if ps == [] then "" else Meant(ps[0]) + AllMeant(ps[1..])
  }

  predicate Digits(t: string) { forall i :: 0 <= i < |t| ==> '0' <= t[i] <= '9' }

  /** An exponent: the letter, a sign or none, and digits. */
  predicate IsExponent(t: string) {
    && |t| >= 2 && (t[0] == 'e' || t[0] == 'E')
    && var k := if t[1] == '+' || t[1] == '-' then 2 else 1; k < |t| && Digits(t[k..])
  }

  /** A number; a minus may stand by itself, with nothing behind it but an exponent. */
  predicate IsNumber(minus: bool, whole: string, fraction: string, exponent: string) {
    && (whole == "" ==> minus && fraction == "")
    && Digits(whole) && (whole != "" && whole[0] == '0' ==> whole == "0")
    && Digits(fraction) && (exponent == "" || IsExponent(exponent))
  }

  predicate Gap(w: string) { forall i :: 0 <= i < |w| ==> w[i] in {' ', '\t', '\r', '\n'} }

  predicate IsLabel(l: Label) { ArePieces(l.pieces) && Gap(l.before) && Gap(l.behind) }

  predicate IsJson(t: Json) {
    match t
    case Word(word) => word in {InTrue, InFalse, InNull}
    case Numeral(minus, whole, fraction, exponent) => IsNumber(minus, whole, fraction, exponent)
    case Str(ps) => ArePieces(ps)
    case List(gap, items) => Gap(gap) && AreItems(items)
    case Record(gap, members) => Gap(gap) && AreMembers(members)
  }

  predicate AreItems(items: Items) {
    match items
    case NoItem => true
    case Item(value, after, comma, gap, rest) =>
      && IsJson(value) && Gap(after) && Gap(gap) && AreItems(rest) && (!comma ==> gap == "" && rest == NoItem)
  }

  predicate AreMembers(members: Members) {
    match members
    case NoMember => true
    case Member(name, value, after, comma, gap, rest) =>
      && IsLabel(name) && IsJson(value) && Gap(after) && Gap(gap) && AreMembers(rest)
      && (!comma ==> gap == "" && rest == NoMember)
  }

  function WordText(word: Frame): string {
    if word == InTrue then "true" else if word == InFalse then "false" else "null"
  }

  function PointText(fraction: string): string { if fraction == "" then "" else "." + fraction }

  function CommaText(comma: bool, gap: string): string { if comma then "," + gap else "" }

  function LabelText(l: Label): string {
    "\"" + PiecesText(l.pieces) + "\"" + l.before + ":" + l.behind
  }

  /** The text that is written. */
  function Render(t: Json): string {
    match t
    case Word(word) => WordText(word)
    case Numeral(minus, whole, fraction, exponent) =>
      if minus then "-" + (whole + PointText(fraction) + exponent) else whole + PointText(fraction) + exponent
    case Str(ps) => "\"" + PiecesText(ps) + "\""
    case List(gap, items) => "[" + gap + RenderItems(items) + "]"
    case Record(gap, members) => "{" + gap + RenderMembers(members) + "}"
  }

  function RenderItems(items: Items): string {
    match items
    case NoItem => ""
    case Item(value, after, comma, gap, rest) => Render(value) + after + CommaText(comma, gap) + RenderItems(rest)
  }

  function RenderMembers(members: Members): string {
    match members
    case NoMember => ""
    case Member(name, value, after, comma, gap, rest) =>
      LabelText(name) + Render(value) + (after + CommaText(comma, gap) + RenderMembers(rest))
  }

  /** A value with white space around it; behind a zero, nothing is looked at. */
  datatype Writing = Writing(before: string, value: Json, behind: string, ignored: string)

  predicate IsWriting(x: Writing) {
    Gap(x.before) && IsJson(x.value) && Gap(x.behind) && (x.ignored != "" ==> x.ignored[0] == '\0')
  }

  function Written(x: Writing): string { x.before + Render(x.value) + x.behind + x.ignored }

  // ----- What is meant -----

  datatype Tree =
    | Leaf(frame: Frame)
    | Chars(text: string)
    | Array(items: seq<Tree>)
    | Object(names: seq<string>, members: seq<Tree>)

  function Meaning(t: Json): Tree
    requires IsJson(t)
  {
    match t
    case Word(word) => Leaf(word)
    case Numeral(_, _, _, _) => Leaf(InNumber)
    case Str(ps) => Chars(AllMeant(ps))
    case List(_, items) => Array(ItemsMeaning(items))
    case Record(_, members) => Object(NamesMeaning(members), MembersMeaning(members))
  }

  function ItemsMeaning(items: Items): seq<Tree>
    requires AreItems(items)
  {
    match items
    case NoItem => []
    case Item(value, _, _, _, rest) => [Meaning(value)] + ItemsMeaning(rest)
  }

  function NamesMeaning(members: Members): (names: seq<string>)
    requires AreMembers(members)
  {
    match members
    case NoMember => []
    case Member(name, _, _, _, _, rest) => [AllMeant(name.pieces)] + NamesMeaning(rest)
  }

  function MembersMeaning(members: Members): (ts: seq<Tree>)
    requires AreMembers(members)
    ensures |ts| == |NamesMeaning(members)|
  {
    match members
    case NoMember => []
    case Member(_, value, _, _, _, rest) => [Meaning(value)] + MembersMeaning(rest)
  }

  // ----- Strings by their contents -----

  /** A string with a backslash in front of quotes and backslashes, and nothing else changed. */
  function Quoted(t: string): seq<Piece> {
    if t == "" then []
    else [if t[0] == '"' || t[0] == '\\' then Backslash(t[0]) else Plain(t[0])] + Quoted(t[1..])
  }

  lemma QuotedFirst(c: char, rest: string)
    requires c != '\0' && ArePieces(Quoted(rest))
    ensures var ps := Quoted([c] + rest);
            && ArePieces(ps) && AllMeant(ps) == [c] + AllMeant(Quoted(rest))
            && (c != '"' && c != '\\' ==> PiecesText(ps) == [c] + PiecesText(Quoted(rest)))
  {
    var p := if c == '"' || c == '\\' then Backslash(c) else Plain(c);
    assert ([c] + rest)[1..] == rest;
    assert ([p] + Quoted(rest))[1..] == Quoted(rest);
  }

  /** So every string without a zero can be written, and without quotes and backslashes as it is. */
  lemma {:induction false} QuotedMeans(t: string)
    requires '\0' !in t
    ensures ArePieces(Quoted(t)) && AllMeant(Quoted(t)) == t
    ensures '"' !in t && '\\' !in t ==> PiecesText(Quoted(t)) == t
  {
    if t != "" {
      hide *;
      assert t == [t[0]] + t[1..];
      QuotedMeans(t[1..]);
      QuotedFirst(t[0], t[1..]);
    }
  }

  // ----- The document that is meant -----

  /** How many values there are in a value, itself included. */
  function Size(t: Tree): (n: nat)
    ensures n >= 1
    decreases t
  {
    match t
    case Array(items) => 1 + AllSizes(items)
    case Object(_, members) => 1 + AllSizes(members)
    case _ => 1
  }

  function AllSizes(ts: seq<Tree>): nat
    decreases ts
  {
    if ts == [] then 0 else Size(ts[0]) + AllSizes(ts[1..])
  }

  /** The numbers of the values of a list, if the first of them has number n. */
  function Ids(ts: seq<Tree>, n: nat): (ids: seq<nat>)
    ensures |ids| == |ts|
  {
    if ts == [] then [] else [n] + Ids(ts[1..], n + Size(ts[0]))
  }

  /** The values in the order in which they are written; this one gets number n. */
  function Values(t: Tree, n: nat, parent: int): (vs: seq<Value>)
    ensures |vs| == Size(t)
    decreases t
  {
    match t
    case Leaf(frame) => [Value(frame, [], None, [], parent)]
    case Chars(text) => [Value(InString, [], Some(text), [], parent)]
    case Array(items) => [Value(InArray, Ids(items, n + 1), None, [], parent)] + AllValues(items, n + 1, n)
    case Object(names, members) =>
      [Value(InObject, Ids(members, n + 1), None, names, parent)] + AllValues(members, n + 1, n)
  }

  function AllValues(ts: seq<Tree>, n: nat, parent: int): (vs: seq<Value>)
    ensures |vs| == AllSizes(ts)
    decreases ts
  {
    if ts == [] then [] else Values(ts[0], n, parent) + AllValues(ts[1..], n + Size(ts[0]), parent)
  }

  // ----- The events of a text -----

  function Ending(root: bool): Event { if root then Root else Child }

  function Puts(ps: seq<Piece>): seq<Event>
    requires ArePieces(ps)
  {
    if ps == [] then [] else [Put(Meant(ps[0]))] + Puts(ps[1..])
  }

  function Events(t: Json, root: bool): seq<Event>
    requires IsJson(t)
  {
    match t
    case Word(word) => [Open(word)] + [Ending(root)]
    case Numeral(_, _, _, _) => [Open(InNumber)] + [Ending(root)]
    case Str(ps) => [Open(InString)] + (Puts(ps) + ([Text] + [Ending(root)]))
    case List(_, items) => [Open(InArray)] + (ItemEvents(items) + [Ending(root)])
    case Record(_, members) => [Open(InObject)] + (MemberEvents(members) + [Ending(root)])
  }

  function ItemEvents(items: Items): seq<Event>
    requires AreItems(items)
  {
    match items
    case NoItem => []
    case Item(value, _, _, _, rest) => Events(value, false) + ItemEvents(rest)
  }

  function MemberEvents(members: Members): seq<Event>
    requires AreMembers(members)
  {
    match members
    case NoMember => []
    case Member(name, value, _, _, _, rest) =>
      Puts(name.pieces) + ([Name] + (Events(value, false) + MemberEvents(rest)))
  }

  // ----- The events build the document -----

  /** These events lead from the one document to the other. */
  ghost predicate Builds(d: Document, events: seq<Event>, r: Document) {
    ValidDocument(d) && AllAllowed(d, events) && Build(d, events) == r
  }

  lemma BuildsOne(d: Document, e: Event)
    requires ValidDocument(d) && Allowed(d, e)
    ensures Builds(d, [e], Apply(d, e))
  {
    OneEvent(d, e);
  }

  lemma BuildsThen(d: Document, a: seq<Event>, m: Document, b: seq<Event>, r: Document)
    requires Builds(d, a, m) && Builds(m, b, r)
    ensures Builds(d, a + b, r)
  {
    BuildAppend(d, a, b);
  }

  /** These values with more names and children for value p, and more values behind them. */
  function Grown(vs: seq<Value>, p: nat, keys: seq<string>, ids: seq<nat>, more: seq<Value>): (r: seq<Value>)
    requires p < |vs|
    ensures |r| == |vs| + |more|
  {
    vs[p := vs[p].(keys := vs[p].keys + keys, children := vs[p].children + ids)] + more
  }

  lemma GrownTwice(vs: seq<Value>, p: nat, keys: seq<string>, ids: seq<nat>, more: seq<Value>,
                   keys': seq<string>, ids': seq<nat>, more': seq<Value>)
    requires p < |vs|
    ensures Grown(Grown(vs, p, keys, ids, more), p, keys', ids', more')
         == Grown(vs, p, keys + keys', ids + ids', more + more')
  {
    var v := vs[p];
    assert v.keys + keys + keys' == v.keys + (keys + keys') && v.children + ids + ids' == v.children + (ids + ids');
  }

  lemma GrownNot(vs: seq<Value>, p: nat)
    requires p < |vs|
    ensures Grown(vs, p, [], [], []) == vs
  {
    assert vs[p].keys + [] == vs[p].keys && vs[p].children + [] == vs[p].children;
  }

  lemma GrownFirst(vs: seq<Value>, v: Value, keys: seq<string>, ids: seq<nat>, more: seq<Value>)
    requires v.keys == [] && v.children == []
    ensures Grown(vs + [v], |vs|, keys, ids, more) == vs + ([v.(keys := keys, children := ids)] + more)
  {
    assert [] + keys == keys && [] + ids == ids;
  }

  /** A value can come next. */
  ghost predicate Ready(d: Document) {
    && ValidDocument(d) && d.part == ""
    && if d.open == [] then d.values == [] else Expecting(d.values[TopOf(d)])
  }

  function ParentOf(d: Document): int
    requires ValidDocument(d)
  {
    if d.open == [] then -1 else TopOf(d)
  }

  /** The document with one more value, which consists of vs. */
  function Placed(d: Document, vs: seq<Value>): Document
    requires ValidDocument(d)
  {
    if d.open == [] then Document(d.values + vs, [], "")
    else Document(Grown(d.values, TopOf(d), [], [|d.values|], vs), d.open, "")
  }

  /** The document while that value is open. */
  function Begun(d: Document, vs: seq<Value>): Document {
    Document(d.values + vs, d.open + [|d.values|], "")
  }

  lemma Opens(d: Document, frame: Frame)
    requires Ready(d)
    ensures Builds(d, [Open(frame)], Begun(d, [Value(frame, [], None, [], ParentOf(d))]))
    ensures ValidDocument(Begun(d, [Value(frame, [], None, [], ParentOf(d))]))
  {
    BuildsOne(d, Open(frame));
  }

  lemma BegunValid(d: Document, vs: seq<Value>)
    requires ValidDocument(d) && vs != []
    ensures ValidDocument(Begun(d, vs)) && TopOf(Begun(d, vs)) == |d.values|
    ensures Begun(d, vs).values[|d.values|] == vs[0]
  {
  }

  lemma Closes(d: Document, vs: seq<Value>)
    requires Ready(d) && vs != [] && Complete(vs[0])
    ensures Builds(Begun(d, vs), [Ending(d.open == [])], Placed(d, vs))
  {
    var b := Begun(d, vs);
    BegunValid(d, vs);
    hide Complete, Expecting;
    if d.open == [] {
      BuildsOne(b, Root);
    } else {
      var p := TopOf(d);
      assert b.open[|b.open| - 2] == p && b.values[p] == d.values[p];
      BuildsOne(b, Child);
      assert b.open[..|b.open| - 1] == d.open;
      var r := Apply(b, Child);
      assert d.values[p].keys + [] == d.values[p].keys;
      assert r.values == Placed(d, vs).values;
    }
  }

  lemma {:induction false} PutsBuild(d: Document, ps: seq<Piece>)
    requires ValidDocument(d) && d.open != [] && Writable(d.values[TopOf(d)]) && ArePieces(ps)
    ensures Builds(d, Puts(ps), d.(part := d.part + AllMeant(ps)))
    decreases |ps|
  {
    hide Writable, Meant;
    if ps == [] {
      NoEvents(d);
      assert d.part + "" == d.part;
    } else {
      var e := d.(part := d.part + Meant(ps[0]));
      BuildsOne(d, Put(Meant(ps[0])));
      PutsBuild(e, ps[1..]);
      BuildsThen(d, [Put(Meant(ps[0]))], e, Puts(ps[1..]), e.(part := e.part + AllMeant(ps[1..])));
      assert d.part + Meant(ps[0]) + AllMeant(ps[1..]) == d.part + (Meant(ps[0]) + AllMeant(ps[1..]));
    }
  }

  /** Value number n of the document is being read. */
  ghost predicate OnTop(d: Document, n: nat, frame: Frame) {
    && ValidDocument(d) && d.part == "" && d.open != [] && TopOf(d) == n && d.values[n].frame == frame
    && d.values[n].text == None && (frame == InObject ==> |d.values[n].keys| == |d.values[n].children|)
  }

  /** The open value n gets more names, children and values. */
  function More(d: Document, n: nat, keys: seq<string>, ids: seq<nat>, vs: seq<Value>): Document
    requires n < |d.values|
  {
    Document(Grown(d.values, n, keys, ids, vs), d.open, "")
  }

  lemma MoreTwice(d: Document, n: nat, keys: seq<string>, ids: seq<nat>, vs: seq<Value>,
                  keys': seq<string>, ids': seq<nat>, vs': seq<Value>)
    requires n < |d.values|
    ensures More(More(d, n, keys, ids, vs), n, keys', ids', vs') == More(d, n, keys + keys', ids + ids', vs + vs')
  {
    hide Grown;
    GrownTwice(d.values, n, keys, ids, vs, keys', ids', vs');
  }

  lemma MoreOnTop(d: Document, n: nat, frame: Frame, keys: seq<string>, ids: seq<nat>, vs: seq<Value>)
    requires OnTop(d, n, frame) && (frame == InObject ==> |keys| == |ids|)
    ensures OnTop(More(d, n, keys, ids, vs), n, frame) && |More(d, n, keys, ids, vs).values| == |d.values| + |vs|
  {
  }

  lemma BegunOnTop(d: Document, v: Value)
    requires ValidDocument(d) && v.keys == [] && v.children == [] && v.text == None
    ensures OnTop(Begun(d, [v]), |d.values|, v.frame) && |Begun(d, [v]).values| == |d.values| + 1
  {
  }

  lemma BegunMore(d: Document, v: Value, keys: seq<string>, ids: seq<nat>, vs: seq<Value>)
    requires v.keys == [] && v.children == []
    ensures More(Begun(d, [v]), |d.values|, keys, ids, vs)
         == Begun(d, [v.(keys := keys, children := ids)] + vs)
  {
    hide Grown;
    GrownFirst(d.values, v, keys, ids, vs);
  }

  /** In an array, the value on top can take a value. */
  lemma ItemPlaced(d: Document, n: nat, vs: seq<Value>)
    requires OnTop(d, n, InArray)
    ensures Ready(d) && ParentOf(d) == n && d.open != [] && Placed(d, vs) == More(d, n, [], [|d.values|], vs)
  {
  }

  /** In an object, it can after a name. */
  lemma NameBuilds(d: Document, n: nat, ps: seq<Piece>)
    requires OnTop(d, n, InObject) && ArePieces(ps)
    ensures Builds(d, Puts(ps) + [Name], More(d, n, [AllMeant(ps)], [], []))
  {
    var part := AllMeant(ps);
    var e := d.(part := "" + part);
    PutsBuild(d, ps);
    assert "" + part == part;
    BuildsOne(e, Name);
    assert d.values[n].children + [] == d.values[n].children;
    assert Apply(e, Name) == More(d, n, [part], [], []);
    BuildsThen(d, Puts(ps), e, [Name], Apply(e, Name));
  }

  lemma MemberPlaced(d: Document, n: nat, name: string, vs: seq<Value>)
    requires OnTop(d, n, InObject)
    ensures var e := More(d, n, [name], [], []);
            && Ready(e) && ParentOf(e) == n && e.open != [] && |e.values| == |d.values|
            && Placed(e, vs) == More(d, n, [name], [|d.values|], vs)
  {
    var e := More(d, n, [name], [], []);
    GrownTwice(d.values, n, [name], [], [], [], [|d.values|], vs);
    assert [name] + [] == [name] && [] + [|d.values|] == [|d.values|] && [] + vs == vs;
  }

  lemma PlainBuilds(d: Document, frame: Frame)
    requires Ready(d) && frame !in {InString, InObject}
    ensures Builds(d, [Open(frame)] + [Ending(d.open == [])], Placed(d, [Value(frame, [], None, [], ParentOf(d))]))
  {
    ReadyValid(d);
    hide Ready, Builds, Placed, ValidDocument;
    var vs := [Value(frame, [], None, [], ParentOf(d))];
    Opens(d, frame);
    Closes(d, vs);
    BuildsThen(d, [Open(frame)], Begun(d, vs), [Ending(d.open == [])], Placed(d, vs));
  }

  /** Between its opening and its end, a value is filled in. */
  lemma Wrapped(d: Document, frame: Frame, inner: seq<Event>, vs: seq<Value>)
    requires Ready(d) && vs != [] && Complete(vs[0])
    requires Builds(Begun(d, [Value(frame, [], None, [], ParentOf(d))]), inner, Begun(d, vs))
    ensures Builds(d, [Open(frame)] + (inner + [Ending(d.open == [])]), Placed(d, vs))
  {
    ReadyValid(d);
    hide Ready, Builds, Placed, Complete, Begun;
    var b := Begun(d, [Value(frame, [], None, [], ParentOf(d))]);
    Opens(d, frame);
    Closes(d, vs);
    BuildsThen(b, inner, Begun(d, vs), [Ending(d.open == [])], Placed(d, vs));
    BuildsThen(d, [Open(frame)], b, inner + [Ending(d.open == [])], Placed(d, vs));
  }

  lemma StrBuilds(d: Document, ps: seq<Piece>)
    requires Ready(d) && ArePieces(ps)
    ensures Builds(d, Events(Str(ps), d.open == []), Placed(d, Values(Meaning(Str(ps)), |d.values|, ParentOf(d))))
  {
    var v := Value(InString, [], None, [], ParentOf(d));
    var b, part := Begun(d, [v]), AllMeant(ps);
    BegunValid(d, [v]);
    PutsBuild(b, ps);
    assert "" + part == part;
    var e := b.(part := part);
    BuildsOne(e, Text);
    assert Apply(e, Text) == Begun(d, [v.(text := Some(part))]);
    BuildsThen(b, Puts(ps), e, [Text], Apply(e, Text));
    hide Builds, Ready, Begun, AllMeant;
    Wrapped(d, InString, Puts(ps) + [Text], [v.(text := Some(part))]);
    assert Puts(ps) + [Text] + [Ending(d.open == [])] == Puts(ps) + ([Text] + [Ending(d.open == [])]);
  }

  /** The events of a text build what is meant. */
  lemma {:induction false} ValueBuilds(t: Json, d: Document)
    requires IsJson(t) && Ready(d)
    ensures Builds(d, Events(t, d.open == []), Placed(d, Values(Meaning(t), |d.values|, ParentOf(d))))
  {
    hide Ready, Builds, Placed, OnTop, Begun, More;
    var n := |d.values|;
    ReadyValid(d);
    match t {
      case Word(word) => PlainBuilds(d, word);
      case Numeral(_, _, _, _) => PlainBuilds(d, InNumber);
      case Str(ps) => StrBuilds(d, ps);
      case List(_, items) =>
        var v, ts := Value(InArray, [], None, [], ParentOf(d)), ItemsMeaning(items);
        BegunOnTop(d, v);
        BegunMore(d, v, [], Ids(ts, n + 1), AllValues(ts, n + 1, n));
        ItemsBuild(items, Begun(d, [v]), n);
        Wrapped(d, InArray, ItemEvents(items), Values(Array(ts), n, ParentOf(d)));
      case Record(_, members) =>
        var v, names, ts := Value(InObject, [], None, [], ParentOf(d)), NamesMeaning(members), MembersMeaning(members);
        BegunOnTop(d, v);
        BegunMore(d, v, names, Ids(ts, n + 1), AllValues(ts, n + 1, n));
        MembersBuild(members, Begun(d, [v]), n);
        Wrapped(d, InObject, MemberEvents(members), Values(Object(names, ts), n, ParentOf(d)));
    }
  }

  lemma ReadyValid(d: Document)
    requires Ready(d)
    ensures ValidDocument(d)
  {
  }

  lemma NothingMore(d: Document, n: nat, frame: Frame)
    requires OnTop(d, n, frame)
    ensures Builds(d, [], More(d, n, [], [], []))
  {
    NoEvents(d);
    GrownNot(d.values, n);
  }

  lemma OnTopWithin(d: Document, n: nat, frame: Frame)
    requires OnTop(d, n, frame)
    ensures ValidDocument(d) && n < |d.values|
  {
  }

  lemma {:induction false} ItemsBuild(items: Items, d: Document, n: nat)
    requires AreItems(items) && OnTop(d, n, InArray)
    ensures n < |d.values|
    ensures var ts, m := ItemsMeaning(items), |d.values|;
            Builds(d, ItemEvents(items), More(d, n, [], Ids(ts, m), AllValues(ts, m, n)))
  {
    hide *;
    OnTopWithin(d, n, InArray);
    match items {
      case NoItem =>
        NoTrees(|d.values|, n);
        NoItemsMeant();
        NothingMore(d, n, InArray);
      case Item(value, _, _, _, rest) =>
        ItemsUnfold(items);
        var t, ts, m := Meaning(value), ItemsMeaning(rest), |d.values|;
        TreesUnfold(t, ts, m, n);
        var vs := Values(t, m, n);
        var none: seq<string> := [];
        var e := More(d, n, none, [m], vs);
        ItemPlaced(d, n, vs);
        ValueBuilds(value, d);
        MoreOnTop(d, n, InArray, none, [m], vs);
        ItemsBuild(rest, e, n);
        var ids, more := Ids(ts, |e.values|), AllValues(ts, |e.values|, n);
        BuildsThen(d, Events(value, false), e, ItemEvents(rest), More(e, n, none, ids, more));
        MoreTwice(d, n, none, [m], vs, none, ids, more);
        assert none + none == none;
    }
  }

  lemma NoTrees(m: nat, n: nat)
    ensures Ids([], m) == [] && AllValues([], m, n) == []
  {
  }

  lemma TreesUnfold(t: Tree, ts: seq<Tree>, m: nat, n: nat)
    ensures Ids([t] + ts, m) == [m] + Ids(ts, m + Size(t))
    ensures AllValues([t] + ts, m, n) == Values(t, m, n) + AllValues(ts, m + Size(t), n)
  {
    hide Values, Size;
    assert ([t] + ts)[1..] == ts;
  }

  lemma NoItemsMeant()
    ensures AreItems(NoItem) && ItemEvents(NoItem) == [] && ItemsMeaning(NoItem) == []
  {
  }

  lemma ItemsUnfold(items: Items)
    requires AreItems(items) && items.Item?
    ensures IsJson(items.value) && AreItems(items.rest)
    ensures ItemEvents(items) == Events(items.value, false) + ItemEvents(items.rest)
    ensures ItemsMeaning(items) == [Meaning(items.value)] + ItemsMeaning(items.rest)
  {
    hide Events, Meaning, IsJson;
  }

  lemma {:induction false} MembersBuild(members: Members, d: Document, n: nat)
    requires AreMembers(members) && OnTop(d, n, InObject)
    ensures n < |d.values|
    ensures var ts, m := MembersMeaning(members), |d.values|;
            Builds(d, MemberEvents(members), More(d, n, NamesMeaning(members), Ids(ts, m), AllValues(ts, m, n)))
  {
    hide *;
    OnTopWithin(d, n, InObject);
    match members {
      case NoMember =>
        NoTrees(|d.values|, n);
        NoMembersMeant();
        NothingMore(d, n, InObject);
      case Member(l, value, _, _, _, rest) =>
        MembersUnfold(members);
        var ps := l.pieces;
        var t, ts, m, name := Meaning(value), MembersMeaning(rest), |d.values|, AllMeant(ps);
        TreesUnfold(t, ts, m, n);
        var vs := Values(t, m, n);
        var e1, e := More(d, n, [name], [], []), More(d, n, [name], [m], vs);
        NameBuilds(d, n, ps);
        MemberPlaced(d, n, name, vs);
        ValueBuilds(value, e1);
        MoreOnTop(d, n, InObject, [name], [m], vs);
        MembersBuild(rest, e, n);
        var keys, ids, more := NamesMeaning(rest), Ids(ts, |e.values|), AllValues(ts, |e.values|, n);
        BuildsThen(e1, Events(value, false), e, MemberEvents(rest), More(e, n, keys, ids, more));
        BuildsThen(d, Puts(ps) + [Name], e1, Events(value, false) + MemberEvents(rest), More(e, n, keys, ids, more));
        EventsAssociative(Puts(ps), [Name], Events(value, false) + MemberEvents(rest));
        MoreTwice(d, n, [name], [m], vs, keys, ids, more);
    }
  }

  lemma NoMembersMeant()
    ensures AreMembers(NoMember) && MemberEvents(NoMember) == [] && MembersMeaning(NoMember) == []
    ensures NamesMeaning(NoMember) == []
  {
  }

  lemma MembersUnfold(members: Members)
    requires AreMembers(members) && members.Member?
    ensures IsLabel(members.name) && ArePieces(members.name.pieces) && IsJson(members.value) && AreMembers(members.rest)
    ensures MemberEvents(members)
         == Puts(members.name.pieces) + ([Name] + (Events(members.value, false) + MemberEvents(members.rest)))
    ensures NamesMeaning(members) == [AllMeant(members.name.pieces)] + NamesMeaning(members.rest)
    ensures MembersMeaning(members) == [Meaning(members.value)] + MembersMeaning(members.rest)
  {
    hide Puts, AllMeant, Events, Meaning, IsJson;
  }

  lemma EventsAssociative(a: seq<Event>, b: seq<Event>, c: seq<Event>)
    ensures a + b + c == a + (b + c)
  {
  }
}
