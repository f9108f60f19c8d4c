/** The values that the parser leaves are a tree, and its release gives all of them back. */
module JsonTree {
  import opened JsonBuffers
  import opened JsonPasses
  import opened JsonRelease
  import opened RingBuffer

  // ----- What holds of the links between the values -----

  /** Value c is the child number j of value p. */
  ghost predicate ChildAt(d: Document, p: int, j: int, c: int) {
    0 <= p < |d.values| && 0 <= j < |d.values[p].children| && d.values[p].children[j] == c
  }

  ghost predicate IsChild(d: Document, p: int, c: int) {
    exists j :: ChildAt(d, p, j, c)
  }

  /** Children know their parent, are younger, and are listed by age. */
  ghost predicate Downward(d: Document) {
    && (forall p, j, c | ChildAt(d, p, j, c) :: p < c < |d.values| && d.values[c].parent == p)
    && (forall p, j, k | 0 <= p < |d.values| && 0 <= j < k < |d.values[p].children| ::
          d.values[p].children[j] < d.values[p].children[k])
    && (forall p | 0 <= p < |d.values| && d.values[p].children != [] :: d.values[p].frame in {InArray, InObject})
  }

  /** A value that is finished is in its parent; only value 0 has none. */
  ghost predicate Upward(d: Document) {
    forall c | 0 <= c < |d.values| ::
      && (d.values[c].parent == -1 <==> c == 0)
      && (c > 0 && c !in d.open ==> IsChild(d, d.values[c].parent, c))
  }

  ghost predicate LinkAt(d: Document, i: nat)
    requires ValidDocument(d) && i < |d.open|
  {
    d.values[d.open[i]].parent == if i == 0 then -1 else d.open[i - 1]
  }

  /** The open values are each in the one before, and younger than all its children. */
  ghost predicate Chained(d: Document)
    requires ValidDocument(d)
  {
    && (forall i | 0 <= i < |d.open| :: LinkAt(d, i))
    && (forall i, j, c | 0 <= i < |d.open| - 1 && ChildAt(d, d.open[i], j, c) :: c < d.open[i + 1])
  }

  ghost predicate Grown(d: Document) {
    ValidDocument(d) && Downward(d) && Upward(d) && Chained(d)
  }

  lemma NothingGrown()
    ensures Grown(NOTHING)
  {
  }

  /** All old values keep their links, and new ones have no children. */
  ghost predicate SameLinks(d: Document, r: Document) {
    && |d.values| <= |r.values|
    && (forall v :: 0 <= v < |d.values| ==>
          && r.values[v].children == d.values[v].children && r.values[v].parent == d.values[v].parent
          && r.values[v].frame == d.values[v].frame)
    && forall v :: |d.values| <= v < |r.values| ==> r.values[v].children == []
  }

  lemma SameChildAt(d: Document, r: Document, p: int, j: int, c: int)
    requires SameLinks(d, r)
    ensures ChildAt(r, p, j, c) <==> ChildAt(d, p, j, c)
  {
  }

  lemma SameIsChild(d: Document, r: Document, p: int, c: int)
    requires SameLinks(d, r)
    ensures IsChild(r, p, c) <==> IsChild(d, p, c)
  {
    if j :| ChildAt(r, p, j, c) {
      SameChildAt(d, r, p, j, c);
    }
    if j :| ChildAt(d, p, j, c) {
      SameChildAt(d, r, p, j, c);
    }
  }

  lemma SameDownward(d: Document, r: Document)
    requires SameLinks(d, r) && Downward(d)
    ensures Downward(r)
  {
    forall p, j, c | ChildAt(r, p, j, c) ensures p < c < |r.values| && r.values[c].parent == p {
      SameChildAt(d, r, p, j, c);
      assert ChildAt(d, p, j, c);
    }
  }

  /** No value stops being open, but for value 0. */
  lemma SameUpward(d: Document, r: Document)
    requires SameLinks(d, r) && |d.values| == |r.values| && Upward(d)
    requires forall c :: c in d.open && c != 0 ==> c in r.open
    ensures Upward(r)
  {
    forall c | 0 < c < |r.values| && c !in r.open ensures IsChild(r, r.values[c].parent, c) {
      assert c !in d.open;
      SameIsChild(d, r, r.values[c].parent, c);
    }
  }

  lemma SameChained(d: Document, r: Document)
    requires SameLinks(d, r) && ValidDocument(d) && ValidDocument(r) && Chained(d) && r.open <= d.open
    ensures Chained(r)
  {
    forall i | 0 <= i < |r.open| ensures LinkAt(r, i) {
      assert LinkAt(d, i);
    }
    forall i, j, c | 0 <= i < |r.open| - 1 && ChildAt(r, r.open[i], j, c) ensures c < r.open[i + 1] {
      SameChildAt(d, r, d.open[i], j, c);
    }
  }

  lemma OpenGrown(d: Document, frame: Frame)
    requires Grown(d) && Allowed(d, Open(frame))
    ensures Grown(Apply(d, Open(frame)))
  {
    var r, n := Apply(d, Open(frame)), |d.values|;
    assert d.open == [] ==> d.values == [];
    assert r.values == d.values + [NewValue(d, frame)] && r.open == d.open + [n];
    hide Allowed, Apply;
    SameDownward(d, r);
    OpenUpward(d, r);
    OpenChained(d, r);
  }

  lemma OpenUpward(d: Document, r: Document)
    requires SameLinks(d, r) && Upward(d) && ValidDocument(d)
    requires |r.values| == |d.values| + 1 && r.open == d.open + [|d.values|] && (d.open == [] ==> d.values == [])
    requires r.values[|d.values|].parent == if d.open == [] then -1 else TopOf(d)
    ensures Upward(r)
  {
    var n := |d.values|;
    assert n in r.open && (d.open != [] ==> n > 0);
    forall c | 0 <= c < |r.values|
      ensures r.values[c].parent == -1 <==> c == 0
      ensures c > 0 && c !in r.open ==> IsChild(r, r.values[c].parent, c)
    {
      if c < n {
        if c > 0 && c !in r.open {
          assert c !in d.open;
          SameIsChild(d, r, r.values[c].parent, c);
        }
      }
    }
  }

  lemma OpenChained(d: Document, r: Document)
    requires SameLinks(d, r) && ValidDocument(d) && ValidDocument(r) && Chained(d) && Downward(d)
    requires |r.values| == |d.values| + 1 && r.open == d.open + [|d.values|]
    requires r.values[|d.values|].parent == if d.open == [] then -1 else TopOf(d)
    ensures Chained(r)
  {
    forall i | 0 <= i < |r.open| ensures LinkAt(r, i) {
      assert i == |d.open| || LinkAt(d, i);
    }
    forall i, j, c | 0 <= i < |r.open| - 1 && ChildAt(r, r.open[i], j, c) ensures c < r.open[i + 1] {
      SameChildAt(d, r, d.open[i], j, c);
      assert ChildAt(d, d.open[i], j, c);
    }
  }

  /** The links after value t has become the last child of value p. */
  ghost predicate OneMoreChild(d: Document, r: Document, p: nat, t: nat) {
    && p < |d.values| == |r.values| && r.values[p].children == d.values[p].children + [t]
    && (forall v :: 0 <= v < |d.values| && v != p ==> r.values[v].children == d.values[v].children)
    && forall v :: 0 <= v < |d.values| ==>
         r.values[v].parent == d.values[v].parent && r.values[v].frame == d.values[v].frame
  }

  lemma MoreChildAt(d: Document, r: Document, p: nat, t: nat, q: int, j: int, c: int)
    requires OneMoreChild(d, r, p, t)
    ensures ChildAt(r, q, j, c) <==> ChildAt(d, q, j, c) || (q == p && j == |d.values[p].children| && c == t)
  {
  }

  lemma MoreIsChild(d: Document, r: Document, p: nat, t: nat, q: int, c: int)
    requires OneMoreChild(d, r, p, t) && (IsChild(d, q, c) || (q == p && c == t))
    ensures IsChild(r, q, c)
  {
    if q == p && c == t {
      MoreChildAt(d, r, p, t, q, |d.values[p].children|, c);
    } else {
      var j :| ChildAt(d, q, j, c);
      MoreChildAt(d, r, p, t, q, j, c);
    }
  }

  lemma ChildDownward(d: Document, r: Document, p: nat, t: nat)
    requires OneMoreChild(d, r, p, t) && Downward(d) && p < t < |d.values| && d.values[t].parent == p
    requires forall j, c | ChildAt(d, p, j, c) :: c < t
    requires d.values[p].frame in {InArray, InObject}
    ensures Downward(r)
  {
    forall q, j, c | ChildAt(r, q, j, c) ensures q < c < |r.values| && r.values[c].parent == q {
      MoreChildAt(d, r, p, t, q, j, c);
      assert ChildAt(d, q, j, c) || c == t;
    }
    forall q, j, k | 0 <= q < |r.values| && 0 <= j < k < |r.values[q].children|
      ensures r.values[q].children[j] < r.values[q].children[k]
    {
      if q == p && k == |d.values[p].children| {
        assert ChildAt(d, p, j, d.values[p].children[j]);
      }
    }
  }

  lemma ChildUpward(d: Document, r: Document, p: nat, t: nat)
    requires OneMoreChild(d, r, p, t) && Upward(d) && t < |d.values| && d.values[t].parent == p
    requires forall c :: c in d.open && c != t ==> c in r.open
    ensures Upward(r)
  {
    forall c | 0 < c < |r.values| && c !in r.open ensures IsChild(r, r.values[c].parent, c) {
      assert c == t || c !in d.open;
      MoreIsChild(d, r, p, t, r.values[c].parent, c);
    }
  }

  lemma ChildChained(d: Document, r: Document, p: nat, t: nat)
    requires OneMoreChild(d, r, p, t) && ValidDocument(d) && ValidDocument(r) && Chained(d)
    requires |d.open| >= 2 && r.open == d.open[..|d.open| - 1] && p == d.open[|d.open| - 2]
    ensures Chained(r)
  {
    forall i | 0 <= i < |r.open| ensures LinkAt(r, i) {
      assert LinkAt(d, i);
    }
    forall i, j, c | 0 <= i < |r.open| - 1 && ChildAt(r, r.open[i], j, c) ensures c < r.open[i + 1] {
      assert d.open[i] < d.open[|d.open| - 2];
      MoreChildAt(d, r, p, t, d.open[i], j, c);
      assert ChildAt(d, d.open[i], j, c);
    }
  }

  lemma ChildFacts(d: Document)
    requires ValidDocument(d) && Allowed(d, Child)
    ensures |d.open| >= 2
    ensures var r, n := Apply(d, Child), |d.open|;
            var p, t := d.open[n - 2], d.open[n - 1];
            && OneMoreChild(d, r, p, t) && d.values[p].frame in {InArray, InObject} && p < t < |d.values|
            && r.open == d.open[..n - 1] && d.open == r.open + [t]
  {
  }

  lemma ChildGrown(d: Document)
    requires Grown(d) && Allowed(d, Child)
    ensures Grown(Apply(d, Child))
  {
    hide Allowed, Apply, OneMoreChild, Downward, Upward, IsChild;
    ChildFacts(d);
    var r, n := Apply(d, Child), |d.open|;
    var p, t := d.open[n - 2], d.open[n - 1];
    assert LinkAt(d, n - 1);
    forall j, c | ChildAt(d, p, j, c) ensures c < t {
      assert ChildAt(d, d.open[n - 2], j, c);
    }
    ChildDownward(d, r, p, t);
    ChildUpward(d, r, p, t);
    ChildChained(d, r, p, t);
  }

  lemma RootFacts(d: Document)
    requires ValidDocument(d) && Allowed(d, Root)
    ensures |d.open| == 1 && Apply(d, Root).open == [] && SameLinks(d, Apply(d, Root))
    ensures |Apply(d, Root).values| == |d.values|
  {
  }

  lemma RootGrown(d: Document)
    requires Grown(d) && Allowed(d, Root)
    ensures Grown(Apply(d, Root))
  {
    hide Allowed, Apply, SameLinks, Downward;
    RootFacts(d);
    var r := Apply(d, Root);
    assert LinkAt(d, 0);
    RootUpward(d, r);
    SameDownward(d, r);
    SameChained(d, r);
  }

  lemma RootUpward(d: Document, r: Document)
    requires SameLinks(d, r) && |d.values| == |r.values| && Upward(d) && ValidDocument(d)
    requires |d.open| == 1 && d.values[d.open[0]].parent == -1
    ensures Upward(r)
  {
    hide SameLinks;
    assert d.open == [d.open[0]];
    SameUpward(d, r);
  }

  lemma StringGrown(d: Document, e: Event)
    requires Grown(d) && Allowed(d, e) && (e.Put? || e.Text? || e.Name?)
    ensures Grown(Apply(d, e))
  {
    var r := Apply(d, e);
    assert r.open == d.open && SameLinks(d, r);
    hide Allowed, Apply, SameLinks;
    SameDownward(d, r);
    SameUpward(d, r);
    SameChained(d, r);
  }

  /** Every event keeps the links in order. */
  lemma EventGrown(d: Document, e: Event)
    requires Grown(d) && Allowed(d, e)
    ensures Grown(Apply(d, e))
  {
    match e {
      case Open(frame) => OpenGrown(d, frame);
      case Child => ChildGrown(d);
      case Root => RootGrown(d);
      case _ => StringGrown(d, e);
    }
  }

  lemma {:induction false} BuildGrown(d: Document, events: seq<Event>)
    requires Grown(d) && AllAllowed(d, events)
    ensures Grown(Build(d, events))
    decreases |events|
  {
    hide Grown, Allowed, Apply;
    GrownValid(d);
    if events != [] {
      EventGrown(d, events[0]);
      BuildGrown(Apply(d, events[0]), events[1..]);
    }
  }

  lemma GrownValid(d: Document)
    requires Grown(d)
    ensures ValidDocument(d)
  {
  }

  // ----- The tree -----

  function KindOf(frame: Frame): Kind {
    match frame
    case InArray => IsArray
    case InObject => IsObject
    case InString => IsString
    case _ => IsPlain
  }

  lemma ChildBelow(d: Document, v: nat, j: nat)
    requires Downward(d) && v < |d.values| && j < |d.values[v].children|
    ensures v < d.values[v].children[j] < |d.values| && d.values[d.values[v].children[j]].parent == v
  {
    assert ChildAt(d, v, j, d.values[v].children[j]);
  }

  /** Value v and everything in it. */
  ghost function TreeOf(d: Document, v: nat): (t: Tree)
    requires Downward(d) && v < |d.values|
    ensures t.id == v && t.kind == KindOf(d.values[v].frame) && |t.kids| == |d.values[v].children|
    decreases |d.values| - v
  {
    var kids := d.values[v].children;
    Tree(v, KindOf(d.values[v].frame),
         seq(|kids|, j requires 0 <= j < |kids| => ChildBelow(d, v, j); TreeOf(d, kids[j])))
  }

  lemma Kid(d: Document, v: nat, j: nat)
    requires Downward(d) && v < |d.values| && j < |d.values[v].children|
    ensures v < d.values[v].children[j] < |d.values|
    ensures TreeOf(d, v).kids[j] == TreeOf(d, d.values[v].children[j])
  {
    ChildBelow(d, v, j);
  }

  /** What is in the tree of v is v, or in the tree of one of its children. */
  lemma InTree(d: Document, v: nat, x: nat) returns (j: nat)
    requires Downward(d) && v < |d.values| && x in Ids(TreeOf(d, v)) && x != v
    ensures j < |d.values[v].children| && v < d.values[v].children[j] < |d.values|
    ensures x in Ids(TreeOf(d, d.values[v].children[j]))
  {
    var t := TreeOf(d, v);
    j :| 0 <= j < |t.kids| && x in Ids(t.kids[j]);
    Kid(d, v, j);
  }

  lemma {:induction false} IdsAbove(d: Document, v: nat, x: nat)
    requires Downward(d) && v < |d.values| && x in Ids(TreeOf(d, v))
    ensures v <= x < |d.values|
    decreases |d.values| - v
  {
    hide TreeOf, Ids;
    if x != v {
      var j := InTree(d, v, x);
      IdsAbove(d, d.values[v].children[j], x);
    }
  }

  lemma InItself(d: Document, v: nat)
    requires Downward(d) && v < |d.values|
    ensures v in Ids(TreeOf(d, v))
  {
  }

  /** With a value other than v, the tree of v has the value it is in. */
  lemma {:induction false} HasParent(d: Document, v: nat, x: nat)
    requires Downward(d) && v < |d.values| && x in Ids(TreeOf(d, v)) && x != v
    ensures x < |d.values| && 0 <= d.values[x].parent && d.values[x].parent in Ids(TreeOf(d, v))
    decreases |d.values| - v
  {
    hide TreeOf, Ids;
    IdsAbove(d, v, x);
    var j := InTree(d, v, x);
    var c := d.values[v].children[j];
    if x == c {
      ChildBelow(d, v, j);
      InItself(d, v);
    } else {
      HasParent(d, c, x);
      HasKid(d, v, j, d.values[x].parent);
    }
  }

  lemma HasKid(d: Document, v: nat, j: nat, x: nat)
    requires Downward(d) && v < |d.values| && j < |d.values[v].children|
    requires v < d.values[v].children[j] < |d.values| && x in Ids(TreeOf(d, d.values[v].children[j]))
    ensures x in Ids(TreeOf(d, v))
  {
    Kid(d, v, j);
    assert x in Ids(TreeOf(d, v).kids[j]);
  }

  /** With a value, the tree of v has the children of that value. */
  lemma {:induction false} HasChild(d: Document, v: nat, p: nat, j: nat)
    requires Downward(d) && v < |d.values| && p in Ids(TreeOf(d, v)) && p < |d.values|
    requires j < |d.values[p].children|
    ensures d.values[p].children[j] in Ids(TreeOf(d, v))
    decreases |d.values| - v
  {
    hide TreeOf, Ids;
    if p == v {
      ChildBelow(d, v, j);
      InItself(d, d.values[v].children[j]);
      HasKid(d, v, j, d.values[v].children[j]);
    } else {
      var i := InTree(d, v, p);
      HasChild(d, d.values[v].children[i], p, j);
      HasKid(d, v, i, d.values[p].children[j]);
    }
  }

  /** No value is in two children of the same value. */
  lemma {:induction false} SiblingsApart(d: Document, v: nat, i: nat, j: nat, x: nat)
    requires Downward(d) && v < |d.values| && i < j < |d.values[v].children|
    requires v < d.values[v].children[i] < |d.values| && v < d.values[v].children[j] < |d.values|
    requires x in Ids(TreeOf(d, d.values[v].children[i])) && x in Ids(TreeOf(d, d.values[v].children[j]))
    ensures false
    decreases x
  {
    hide TreeOf, Ids;
    var a, b := d.values[v].children[i], d.values[v].children[j];
    ChildBelow(d, v, i);
    ChildBelow(d, v, j);
    IdsAbove(d, a, x);
    if x == a || x == b {
      HasParent(d, if x == a then b else a, x);
      IdsAbove(d, if x == a then b else a, v);
    } else {
      HasParent(d, a, x);
      HasParent(d, b, x);
      ParentBelow(d, a, x);
      SiblingsApart(d, v, i, j, d.values[x].parent);
    }
  }

  lemma {:induction false} ParentBelow(d: Document, v: nat, x: nat)
    requires Downward(d) && v < |d.values| && x in Ids(TreeOf(d, v)) && x != v
    ensures x < |d.values| && 0 <= d.values[x].parent < x
    decreases |d.values| - v
  {
    hide TreeOf, Ids;
    IdsAbove(d, v, x);
    var j := InTree(d, v, x);
    ChildBelow(d, v, j);
    if x != d.values[v].children[j] {
      ParentBelow(d, d.values[v].children[j], x);
    }
  }

  lemma {:induction false} TreeDistinct(d: Document, v: nat)
    requires Downward(d) && v < |d.values|
    ensures Distinct(TreeOf(d, v))
    decreases |d.values| - v
  {
    hide TreeOf, Ids;
    var t := TreeOf(d, v);
    forall i | 0 <= i < |t.kids| ensures t.id !in Ids(t.kids[i]) && Distinct(t.kids[i]) {
      Kid(d, v, i);
      TreeDistinct(d, d.values[v].children[i]);
      if v in Ids(t.kids[i]) {
        IdsAbove(d, d.values[v].children[i], v);
      }
    }
    forall i, j | 0 <= i < j < |t.kids| ensures Ids(t.kids[i]) !! Ids(t.kids[j]) {
      Kid(d, v, i);
      Kid(d, v, j);
      forall x | x in Ids(t.kids[i]) && x in Ids(t.kids[j]) ensures false {
        SiblingsApart(d, v, i, j, x);
      }
    }
  }

  /** Every value of a finished document is in the tree of the first one. */
  lemma {:induction false} AllInTree(d: Document, x: nat)
    requires Grown(d) && Closed(d) && x < |d.values|
    ensures x in Ids(TreeOf(d, 0))
  {
    hide TreeOf, Ids;
    if x == 0 {
      InItself(d, 0);
    } else {
      var p := d.values[x].parent;
      var j :| ChildAt(d, p, j, x);
      AllInTree(d, p);
      HasChild(d, 0, p, j);
    }
  }

  // ----- The tree in memory -----

  /** The links of the values. */
  ghost function LinksOf(d: Document): (m: Links) {
    Links(seq(|d.values|, v requires 0 <= v < |d.values| => KindOf(d.values[v].frame)),
          seq(|d.values|, v requires 0 <= v < |d.values| => d.values[v].children),
          seq(|d.values|, v requires 0 <= v < |d.values| => d.values[v].parent))
  }

  /** The number of children of every value. */
  ghost function LengthsOf(d: Document): (ls: seq<nat>) {
    seq(|d.values|, v requires 0 <= v < |d.values| => |d.values[v].children|)
  }

  lemma {:induction false} TreeLinked(d: Document, v: nat)
    requires Downward(d) && v < |d.values|
    ensures Linked(LinksOf(d), TreeOf(d, v)) && Full(LengthsOf(d), TreeOf(d, v))
    decreases |d.values| - v
  {
    hide TreeOf;
    var t := TreeOf(d, v);
    forall i | 0 <= i < |t.kids|
      ensures t.kids[i].id == d.values[v].children[i] < |d.values| && d.values[t.kids[i].id].parent == v
      ensures Linked(LinksOf(d), t.kids[i]) && Full(LengthsOf(d), t.kids[i])
    {
      Kid(d, v, i);
      ChildBelow(d, v, i);
      TreeLinked(d, d.values[v].children[i]);
    }
  }

  // ----- Parsing and releasing -----

  /** The pointers in the buffer of an array or object. */
  method ChildrenOf(n: Node, ghost v: JsonBuffers.Value) returns (cs: seq<nat>)
    requires n.Filled(v) && n.frame != InString
    ensures cs == v.children
  {
    cs := [];
    var j := 0;
    while j < n.slots.Length
      invariant j <= n.slots.Length && cs == v.children[..j]
    {
      cs := cs + [n.slots[j].value];
      j := j + 1;
    }
  }

  /** What the release finds: the kinds, the pointers, and the numbers of children. */
  method HandOver(nodes: seq<Node>, ghost d: Document) returns (heap: Heap)
    requires |nodes| == |d.values| && forall i :: 0 <= i < |nodes| ==> nodes[i].Filled(d.values[i])
    requires Downward(d)
    ensures fresh(heap) && fresh(heap.length) && fresh(heap.parent) && heap.freed == []
    ensures heap.Memory() == LinksOf(d) && heap.length[..] == LengthsOf(d)
  {
    var kinds: seq<Kind>, values: seq<seq<nat>>, lengths: seq<nat>, parents: seq<int> := [], [], [], [];
    var i := 0;
    while i < |nodes|
      invariant i <= |nodes|
      invariant kinds == LinksOf(d).kinds[..i] && values == LinksOf(d).values[..i]
      invariant parents == LinksOf(d).parents[..i] && lengths == LengthsOf(d)[..i]
    {
      var n := nodes[i];
      var cs: seq<nat> := [];
      NodeFacts(n, d, i);
      if n.frame != InString {
        cs := ChildrenOf(n, d.values[i]);
      }
      kinds, values, parents := kinds + [KindOf(n.frame)], values + [cs], parents + [n.parent];
      lengths := lengths + [if n.frame == InString then 0 else n.length];
      i := i + 1;
    }
    var length := new nat[|lengths|](k requires 0 <= k < |lengths| => lengths[k]);
    var parent := new int[|parents|](k requires 0 <= k < |parents| => parents[k]);
    assert length[..] == lengths && parent[..] == parents;
    heap := new Heap(kinds, values, length, parent);
  }

  lemma NodeFacts(n: Node, d: Document, i: nat)
    requires i < |d.values| && n.Filled(d.values[i]) && Downward(d)
    ensures n.frame == d.values[i].frame && n.parent == d.values[i].parent
    ensures n.frame == InString ==> d.values[i].children == []
    ensures n.frame != InString ==> n.length == |d.values[i].children|
  {
  }

  /** What is freed of a finished document. */
  lemma AllFreed(d: Document, f: Freed)
    requires Grown(d) && Closed(d) && d.values != []
    ensures Distinct(TreeOf(d, 0))
    ensures Times(Release(TreeOf(d, 0)), f)
         == if f.id < |d.values| && (f.Value? || !KindOf(d.values[f.id].frame).IsPlain?) then 1 else 0
  {
    hide TreeOf, Ids, Release, Buffered, Times, Distinct;
    TreeDistinct(d, 0);
    EachOnce(TreeOf(d, 0), f);
    if f.id < |d.values| {
      AllInTree(d, f.id);
      BufferedIff(d, 0, f.id);
    } else {
      BufferedAreIn(TreeOf(d, 0));
      if f.id in Ids(TreeOf(d, 0)) {
        IdsAbove(d, 0, f.id);
      }
    }
  }

  /** The values with buffers. */
  lemma {:induction false} BufferedIff(d: Document, v: nat, x: nat)
    requires Downward(d) && v < |d.values| && x in Ids(TreeOf(d, v)) && x < |d.values|
    ensures x in Buffered(TreeOf(d, v)) <==> !KindOf(d.values[x].frame).IsPlain?
    decreases |d.values| - v
  {
    hide TreeOf;
    var t := TreeOf(d, v);
    if x == v {
      forall i | 0 <= i < |t.kids| && v in Buffered(t.kids[i]) ensures false {
        Kid(d, v, i);
        BufferedAreIn(t.kids[i]);
        IdsAbove(d, d.values[v].children[i], v);
      }
    } else {
      var j := InTree(d, v, x);
      Kid(d, v, j);
      BufferedIff(d, d.values[v].children[j], x);
      forall i | 0 <= i < |t.kids| && x in Buffered(t.kids[i])
        ensures !KindOf(d.values[x].frame).IsPlain?
      {
        Kid(d, v, i);
        BufferedAreIn(t.kids[i]);
        BufferedIff(d, d.values[v].children[i], x);
      }
    }
  }

  /**
   * A text is parsed and its tree released: every value and every buffer that the text made
   * necessary is given back exactly once, and nothing else is.
   */
  method ParseAndFree(s: string) returns (ok: bool, freed: seq<Freed>)
    ensures ok <==> Run(s, Start(), true).Some?
    ensures ok ==>
              var events := Run(s, Start(), true).value;
              && AllAllowed(NOTHING, events)
              && var d := Build(NOTHING, events);
                 && Downward(d) && d.values != [] && freed == Release(TreeOf(d, 0))
                 && forall f :: Times(freed, f)
                      == if f.id < |d.values| && (f.Value? || !KindOf(d.values[f.id].frame).IsPlain?) then 1 else 0
  {
    freed := [];
    var parser := new Parser();
    ok := parser.Parse(s);
    if ok {
      ghost var d := Whole(s);
      var heap := HandOver(parser.nodes, d);
      FirstInHeap(d);
      heap.Free(TreeOf(d, 0), 0);
      freed := heap.freed;
      assert [] + Release(TreeOf(d, 0)) == Release(TreeOf(d, 0));
      forall f ensures Times(freed, f)
          == if f.id < |d.values| && (f.Value? || !KindOf(d.values[f.id].frame).IsPlain?) then 1 else 0
      {
        AllFreed(d, f);
      }
    }
  }

  lemma Whole(s: string) returns (d: Document)
    requires Sane(s, Start()) && Run(s, Start(), true).Some?
    ensures AllAllowed(NOTHING, Run(s, Start(), true).value) && d == Build(NOTHING, Run(s, Start(), true).value)
    ensures Grown(d) && Closed(d) && d.values != []
  {
    hide Run, Grown, Closed, AllAllowed, Build, Fits;
    StartFits();
    NothingGrown();
    RunFits(s, Start(), true, NOTHING);
    d := Build(NOTHING, Run(s, Start(), true).value);
    BuildGrown(NOTHING, Run(s, Start(), true).value);
  }

  lemma FirstInHeap(d: Document)
    requires Grown(d) && d.values != []
    ensures var t := TreeOf(d, 0); Linked(LinksOf(d), t) && Distinct(t) && Full(LengthsOf(d), t)
  {
    TreeLinked(d, 0);
    TreeDistinct(d, 0);
  }
}
