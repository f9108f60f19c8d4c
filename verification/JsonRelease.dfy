/**
 * The release of a JSON tree: a loop that keeps no stack but goes down by counting the length of
 * every array and object back to zero, and up by the parent pointers.
 */
module JsonRelease {

  datatype Kind = IsArray | IsObject | IsString | IsPlain

  predicate Group(kind: Kind) { kind.IsArray? || kind.IsObject? }

  /** A value with the values in it; id stands for its address. */
  datatype Tree = Tree(id: nat, kind: Kind, kids: seq<Tree>)

  /** One call of mem_free: for the buffer of an array, object or string, or for a value. */
  datatype Freed = Buffer(id: nat) | Value(id: nat)

  function Own(t: Tree): (f: seq<Freed>)
    ensures |f| >= 1
  {
    if t.kind.IsPlain? then [Value(t.id)] else [Buffer(t.id), Value(t.id)]
  }

  /** What has to be freed, in order: the last child first, a value after everything in it. */
  function Release(t: Tree): seq<Freed>
    decreases t, 1
  {
    ReleaseFirst(t, |t.kids|) + Own(t)
  }

  /** The same for the first n children of t. */
  function ReleaseFirst(t: Tree, n: nat): seq<Freed>
    requires n <= |t.kids|
    decreases t, 0, n
  {
    if n == 0 then [] else Release(t.kids[n - 1]) + ReleaseFirst(t, n - 1)
  }

  ghost function Ids(t: Tree): set<nat> {
    {t.id} + set i, x | 0 <= i < |t.kids| && x in Ids(t.kids[i]) :: x
  }

  /** No value is in the tree twice. */
  ghost predicate Distinct(t: Tree) {
    && (forall i :: 0 <= i < |t.kids| ==> t.id !in Ids(t.kids[i]) && Distinct(t.kids[i]))
    && (forall i, j :: 0 <= i < j < |t.kids| ==> Ids(t.kids[i]) !! Ids(t.kids[j]))
  }

  lemma KidIds(t: Tree, i: nat)
    requires i < |t.kids|
    ensures Ids(t.kids[i]) <= Ids(t) && t.kids[i].id in Ids(t.kids[i]) && t.id in Ids(t)
  {
  }

  // ----- The tree in memory -----

  /** The fields that stay as they are: kinds, values in arrays and objects, parents. */
  datatype Links = Links(kinds: seq<Kind>, values: seq<seq<nat>>, parents: seq<int>)

  predicate Linked(m: Links, t: Tree) {
    && t.id < |m.kinds| == |m.values| == |m.parents|
    && m.kinds[t.id] == t.kind && (!Group(t.kind) ==> t.kids == []) && |m.values[t.id]| == |t.kids|
    && forall i :: 0 <= i < |t.kids| ==>
         && m.values[t.id][i] == t.kids[i].id && t.kids[i].id < |m.parents|
         && m.parents[t.kids[i].id] == t.id && Linked(m, t.kids[i])
  }

  /** No length in the tree has been counted back yet. */
  predicate Full(lengths: seq<nat>, t: Tree) {
    && t.id < |lengths| && lengths[t.id] == |t.kids|
    && forall i :: 0 <= i < |t.kids| ==> Full(lengths, t.kids[i])
  }

  lemma {:induction false} FullElsewhere(lengths: seq<nat>, t: Tree, id: nat, n: nat)
    requires Full(lengths, t) && id < |lengths| && id !in Ids(t)
    ensures Full(lengths[id := n], t)
  {
    forall i | 0 <= i < |t.kids| ensures Full(lengths[id := n], t.kids[i]) {
      KidIds(t, i);
      FullElsewhere(lengths, t.kids[i], id, n);
    }
  }

  // ----- The loop's state -----

  /** How many children of the value are still there. */
  function Left(lengths: seq<nat>, t: Tree): nat { if t.id < |lengths| then lengths[t.id] else 0 }

  /** The value t waits for its child that is next on the path; its first children are untouched. */
  ghost predicate Entry(m: Links, lengths: seq<nat>, t: Tree) {
    && Linked(m, t) && Distinct(t) && |lengths| == |m.kinds| && Left(lengths, t) <= |t.kids|
    && forall i :: 0 <= i < Left(lengths, t) ==> Full(lengths, t.kids[i])
  }

  ghost predicate GaveUp(lengths: seq<nat>, t: Tree, kid: Tree) {
    Left(lengths, t) < |t.kids| && kid == t.kids[Left(lengths, t)]
  }

  /** From the root to the current value: each is the child its parent has just given up. */
  ghost predicate Path(m: Links, lengths: seq<nat>, path: seq<Tree>) {
    && (forall k :: 0 <= k < |path| ==> Entry(m, lengths, path[k]))
    && (forall k :: 0 <= k < |path| - 1 ==> GaveUp(lengths, path[k], path[k + 1]))
    && (path != [] ==> m.parents[path[0].id] == -1)
    && (forall j, k :: 0 <= j < k < |path| ==> path[j].id !in Ids(path[k]))
    && (forall j, k, i :: 0 <= j < k < |path| && 0 <= i < Left(lengths, path[j]) ==>
          Ids(path[j].kids[i]) !! Ids(path[k]))
  }

  /** No value has more children left than it had. */
  ghost predicate Bounded(lengths: seq<nat>, path: seq<Tree>) {
    forall k :: 0 <= k < |path| ==> Left(lengths, path[k]) <= |path[k].kids|
  }

  /** What is still to be freed. */
  ghost function Future(lengths: seq<nat>, path: seq<Tree>): seq<Freed>
    requires Bounded(lengths, path)
  {
    if path == [] then []
    else
      var t := path[|path| - 1];
      ReleaseFirst(t, Left(lengths, t)) + Own(t) + Future(lengths, path[..|path| - 1])
  }

  lemma {:induction false} FutureLength(lengths: seq<nat>, path: seq<Tree>)
    requires Bounded(lengths, path)
    ensures |Future(lengths, path)| >= |path|
  {
    if path != [] {
      FutureLength(lengths, path[..|path| - 1]);
    }
  }

  lemma {:induction false} FutureElsewhere(lengths: seq<nat>, path: seq<Tree>, id: nat, n: nat)
    requires id < |lengths| && forall k :: 0 <= k < |path| ==> path[k].id != id
    requires Bounded(lengths, path)
    ensures forall k :: 0 <= k < |path| ==> Left(lengths[id := n], path[k]) == Left(lengths, path[k])
    ensures Future(lengths[id := n], path) == Future(lengths, path)
  {
    if path != [] {
      FutureElsewhere(lengths, path[..|path| - 1], id, n);
    }
  }

  /** Going up: the current value is freed, and its parent is the one before it on the path. */
  lemma Ascend(m: Links, lengths: seq<nat>, path: seq<Tree>)
    requires Path(m, lengths, path) && path != [] && Left(lengths, path[|path| - 1]) == 0
    ensures var t, rest := path[|path| - 1], path[..|path| - 1];
            && Path(m, lengths, rest) && Future(lengths, path) == Own(t) + Future(lengths, rest)
            && t.id < |m.parents| && m.parents[t.id] == if rest == [] then -1 else rest[|rest| - 1].id
  {
    var n := |path| - 1;
    assert Entry(m, lengths, path[n]);
    assert ReleaseFirst(path[n], 0) == [];
    if n > 0 {
      assert GaveUp(lengths, path[n - 1], path[n]) && Entry(m, lengths, path[n - 1]);
    }
    PathShorter(m, lengths, path);
    hide Path, Entry, GaveUp, Linked, Distinct, Full;
    assert [] + Own(path[n]) == Own(path[n]);
  }

  lemma PathShorter(m: Links, lengths: seq<nat>, path: seq<Tree>)
    requires Path(m, lengths, path) && path != []
    ensures Path(m, lengths, path[..|path| - 1])
  {
    hide Entry, GaveUp, Ids;
  }

  /** The current value as the loop finds it in memory. */
  lemma Current(m: Links, lengths: seq<nat>, path: seq<Tree>)
    requires Path(m, lengths, path) && path != []
    ensures var t := path[|path| - 1];
            && t.id < |m.kinds| == |lengths| == |m.values| == |m.parents| && m.kinds[t.id] == t.kind
            && Left(lengths, t) == lengths[t.id] && (!Group(t.kind) ==> lengths[t.id] == 0)
    ensures Bounded(lengths, path)
  {
    assert Entry(m, lengths, path[|path| - 1]);
  }

  lemma KidEntry(m: Links, lengths: seq<nat>, t: Tree, n: nat)
    requires Entry(m, lengths, t) && Left(lengths, t) == n + 1
    ensures var kid, after := t.kids[n], lengths[t.id := n];
            && Entry(m, after, t) && Entry(m, after, kid) && GaveUp(after, t, kid)
            && Left(after, t) == n && Left(after, kid) == |kid.kids|
  {
    var kid, after := t.kids[n], lengths[t.id := n];
    forall i | 0 <= i < n + 1 ensures Full(after, t.kids[i]) {
      FullElsewhere(lengths, t.kids[i], t.id, n);
    }
  }

  lemma EntryElsewhere(m: Links, lengths: seq<nat>, path: seq<Tree>, k: nat, n: nat)
    requires Path(m, lengths, path) && k < |path| - 1 && path[|path| - 1].id < |lengths|
    ensures var t := path[|path| - 1];
            && path[k].id != t.id && Entry(m, lengths[t.id := n], path[k])
            && Left(lengths[t.id := n], path[k]) == Left(lengths, path[k])
  {
    var last := |path| - 1;
    var t := path[last];
    assert Entry(m, lengths, path[k]) && path[k].id !in Ids(path[last]) && t.id in Ids(t);
    forall i | 0 <= i < Left(lengths, path[k]) ensures Full(lengths[t.id := n], path[k].kids[i]) {
      assert Ids(path[k].kids[i]) !! Ids(path[last]);
      FullElsewhere(lengths, path[k].kids[i], t.id, n);
    }
  }

  /** The path, one child longer, in memory where that child has just been given up. */
  lemma Deeper(m: Links, lengths: seq<nat>, after: seq<nat>, path: seq<Tree>, n: nat)
    requires Path(m, lengths, path) && path != [] && n < |path[|path| - 1].kids|
    requires var t := path[|path| - 1];
             && Entry(m, after, t) && Entry(m, after, t.kids[n]) && GaveUp(after, t, t.kids[n]) && Left(after, t) == n
    requires forall k :: 0 <= k < |path| - 1 ==>
               && Entry(m, after, path[k]) && Left(after, path[k]) == Left(lengths, path[k])
               && Left(lengths, path[k]) <= |path[k].kids|
    ensures Path(m, after, path + [path[|path| - 1].kids[n]])
  {
    hide Entry, Left, Ids, GaveUp;
    var last := |path| - 1;
    var t := path[last];
    var kid := t.kids[n];
    var deeper := path + [kid];
    GaveUpAlike(lengths, after, path);
    KidIds(t, n);
    KidApart(m, after, t, n);
    forall j, k | 0 <= j < k < |deeper| ensures deeper[j].id !in Ids(deeper[k]) {
      if k == last + 1 && j < last {
        assert path[j].id !in Ids(path[last]);
      }
    }
    assert forall j :: 0 <= j < |path| ==> Left(after, path[j]) <= |path[j].kids|;
    forall j, k, i | 0 <= j < k < |deeper| && 0 <= i < Left(after, deeper[j])
      ensures Ids(deeper[j].kids[i]) !! Ids(deeper[k])
    {
      if k == last + 1 && j < last {
        assert Ids(path[j].kids[i]) !! Ids(path[last]);
      }
    }
  }

  lemma GaveUpAlike(lengths: seq<nat>, after: seq<nat>, path: seq<Tree>)
    requires forall k :: 0 <= k < |path| - 1 ==> GaveUp(lengths, path[k], path[k + 1])
    requires forall k :: 0 <= k < |path| - 1 ==> Left(after, path[k]) == Left(lengths, path[k])
    ensures forall k :: 0 <= k < |path| - 1 ==> GaveUp(after, path[k], path[k + 1])
  {
  }

  lemma KidApart(m: Links, lengths: seq<nat>, t: Tree, n: nat)
    requires Entry(m, lengths, t) && n < |t.kids|
    ensures t.id !in Ids(t.kids[n]) && forall i :: 0 <= i < n ==> Ids(t.kids[i]) !! Ids(t.kids[n])
  {
  }

  /** Going down: a child is given up by its parent and becomes the current value. */
  lemma Descend(m: Links, lengths: seq<nat>, path: seq<Tree>, n: nat)
    requires Path(m, lengths, path) && path != [] && Left(lengths, path[|path| - 1]) == n + 1
    ensures var t := path[|path| - 1];
            && t.id < |lengths| && t.id < |m.values| && n < |t.kids| == |m.values[t.id]|
            && m.values[t.id][n] == t.kids[n].id && Path(m, lengths[t.id := n], path + [t.kids[n]])
            && Future(lengths[t.id := n], path + [t.kids[n]]) == Future(lengths, path)
  {
    var last := |path| - 1;
    var t := path[last];
    assert Entry(m, lengths, t);
    var after := lengths[t.id := n];
    KidEntry(m, lengths, t, n);
    forall k | 0 <= k < last
      ensures path[k].id != t.id && Entry(m, after, path[k]) && Left(after, path[k]) == Left(lengths, path[k])
      ensures Left(lengths, path[k]) <= |path[k].kids|
    {
      assert Entry(m, lengths, path[k]);
      EntryElsewhere(m, lengths, path, k, n);
    }
    Deeper(m, lengths, after, path, n);
    PathBounded(m, lengths, path);
    PathBounded(m, after, path + [t.kids[n]]);
    hide Path, Entry, Left, Bounded;
    FutureDown(lengths, after, path, t, t.kids[n], n);
  }

  lemma PathBounded(m: Links, lengths: seq<nat>, path: seq<Tree>)
    requires Path(m, lengths, path)
    ensures Bounded(lengths, path)
  {
    forall k | 0 <= k < |path| ensures Left(lengths, path[k]) <= |path[k].kids| {
      assert Entry(m, lengths, path[k]);
    }
  }

  lemma FutureDown(lengths: seq<nat>, after: seq<nat>, path: seq<Tree>, t: Tree, kid: Tree, n: nat)
    requires path != [] && t == path[|path| - 1] && t.id < |lengths| && after == lengths[t.id := n]
    requires n < |t.kids| && kid == t.kids[n]
    requires Bounded(lengths, path) && Bounded(after, path + [kid])
    requires forall k :: 0 <= k < |path| - 1 ==> path[k].id != t.id
    requires Left(lengths, t) == n + 1 && Left(after, t) == n && Left(after, kid) == |kid.kids|
    ensures Future(after, path + [kid]) == Future(lengths, path)
  {
    hide Left;
    var last := |path| - 1;
    var rest := path[..last];
    FutureElsewhere(lengths, rest, t.id, n);
    assert (path + [kid])[..last + 1] == path;
    FutureParts(Release(kid), ReleaseFirst(t, n), Own(t), Future(lengths, rest));
  }

  lemma FutureParts(a: seq<Freed>, b: seq<Freed>, c: seq<Freed>, d: seq<Freed>)
    ensures (a + b) + c + d == a + (b + c + d)
  {
  }

  /** The parent of the root is no link of the tree. */
  lemma {:induction false} LinkedWithoutParent(m: Links, t: Tree, id: nat, p: int)
    requires Linked(m, t) && id < |m.parents| && forall i :: 0 <= i < |t.kids| ==> id !in Ids(t.kids[i])
    ensures Linked(m.(parents := m.parents[id := p]), t)
  {
    forall i | 0 <= i < |t.kids|
      ensures t.kids[i].id != id && Linked(m.(parents := m.parents[id := p]), t.kids[i])
    {
      KidIds(t, i);
      forall j | 0 <= j < |t.kids[i].kids| ensures id !in Ids(t.kids[i].kids[j]) {
        KidIds(t.kids[i], j);
      }
      LinkedWithoutParent(m, t.kids[i], id, p);
    }
  }

  lemma RootPath(m: Links, lengths: seq<nat>, root: Tree)
    requires Linked(m, root) && Distinct(root) && Full(lengths, root) && |lengths| == |m.kinds|
    requires m.parents[root.id] == -1
    ensures Path(m, lengths, [root]) && Future(lengths, [root]) == Release(root)
  {
    assert Entry(m, lengths, root);
    assert [root][..0] == [] && Future(lengths, []) == [];
  }

  // ----- The loop -----

  class Heap {
    const kinds: seq<Kind>
    /** The values in arrays and objects, and the number of them still there. */
    const values: seq<seq<nat>>
    const length: array<nat>
    /** The address of the value each value is in; the null pointer is -1. */
    const parent: array<int>
    /** The calls of mem_free. */
    var freed: seq<Freed>

    constructor (kinds: seq<Kind>, values: seq<seq<nat>>, length: array<nat>, parent: array<int>)
      ensures this.kinds == kinds && this.values == values && this.length == length && this.parent == parent
      ensures freed == []
    {
      this.kinds, this.values, this.length, this.parent, freed := kinds, values, length, parent, [];
    }

    ghost function Memory(): Links
      reads parent
    {
      Links(kinds, values, parent[..])
    }

    /** The loop is at this value, below the others of the path. */
    ghost predicate Standing(m: Links, path: seq<Tree>, value: int)
      reads parent, length
    {
      && m == Memory() && Path(m, length[..], path)
      && value == if path == [] then -1 else path[|path| - 1].id
    }

    /** What is still to be freed. */
    ghost function Ahead(path: seq<Tree>): seq<Freed>
      requires Bounded(length[..], path)
      reads length
    {
      Future(length[..], path)
    }

    /** The branch for an array or object that still has a value in it. */
    method Down(ghost m: Links, ghost path: seq<Tree>, value: nat) returns (value': nat, ghost path': seq<Tree>)
      requires Standing(m, path, value) && value < length.Length && length[value] != 0
      requires Bounded(length[..], path)
      modifies length
      ensures Standing(m, path', value') && |path'| == |path| + 1
      ensures Bounded(length[..], path')
      ensures Ahead(path') == old(Ahead(path))
    {
      hide Path, Future;
      Current(m, length[..], path);
      Descend(m, length[..], path, length[value] - 1);
      path' := path + [path[|path| - 1].kids[length[value] - 1]];
      length[value] := length[value] - 1;
      value' := values[value][length[value]];
      Current(m, length[..], path');
    }

    /** The other branches: the buffer, if there is one, and the value are freed. */
    method Up(ghost m: Links, ghost path: seq<Tree>, value: nat) returns (value': int, ghost path': seq<Tree>)
      requires Standing(m, path, value) && value < length.Length && value < |kinds| && value < parent.Length
      requires !Group(kinds[value]) || length[value] == 0
      requires Bounded(length[..], path)
      modifies this`freed
      ensures Standing(m, path', value') && |path'| == |path| - 1
      ensures Bounded(length[..], path')
      ensures freed + Ahead(path') == old(freed) + Ahead(path) && |Ahead(path')| < |Ahead(path)|
    {
      hide Path, Future;
      Current(m, length[..], path);
      Ascend(m, length[..], path);
      path' := path[..|path| - 1];
      if !kinds[value].IsPlain? {
        freed := freed + [Buffer(value)];
      }
      freed := freed + [Value(value)];
      value' := parent[value];
    }

    /** The loop of json_value_free_ex. */
    method FreeFrom(ghost m: Links, ghost start: seq<Tree>, id: nat)
      requires Standing(m, start, id)
      requires Bounded(length[..], start)
      modifies this`freed, length
      ensures freed == old(freed + Ahead(start))
    {
      hide Path, Future, Release, Left;
      var value: int := id;
      ghost var path := start;
      while value != -1
        invariant Standing(m, path, value)
        invariant Bounded(length[..], path)
        invariant freed + Ahead(path) == old(freed + Ahead(start))
        decreases |Ahead(path)|, |Ahead(path)| - |path|
      {
        Current(m, length[..], path);
        FutureLength(length[..], path);
        if Group(kinds[value]) && length[value] != 0 {
          value, path := Down(m, path, value);
        } else {
          value, path := Up(m, path, value);
        }
      }
      NothingAhead(length[..]);
    }

    /** json_value_free_ex: everything in the tree is freed, in order, and nothing else. */
    method Free(ghost root: Tree, id: nat)
      requires id == root.id < parent.Length == length.Length == |kinds|
      requires Linked(Memory(), root) && Distinct(root) && Full(length[..], root)
      modifies this`freed, length, parent
      ensures freed == old(freed) + Release(root)
    {
      LinkedWithoutParent(Memory(), root, id, -1);
      parent[id] := -1;
      hide Linked, Distinct, Full, Path, Release, Future;
      ghost var m := Memory();
      RootPath(m, length[..], root);
      Current(m, length[..], [root]);
      FreeFrom(m, [root], id);
    }
  }

  lemma NothingAhead(lengths: seq<nat>)
    ensures Future(lengths, []) == []
  {
  }

  // ----- Everything once, and values after what is in them -----

  /** The addresses of the values in the first n children. */
  ghost function IdsFirst(t: Tree, n: nat): set<nat>
    requires n <= |t.kids|
  {
    set i, x | 0 <= i < n && x in Ids(t.kids[i]) :: x
  }

  /** The values that have a buffer, and those among the first n children. */
  ghost function Buffered(t: Tree): set<nat> {
    (if t.kind.IsPlain? then {} else {t.id}) + set i, x | 0 <= i < |t.kids| && x in Buffered(t.kids[i]) :: x
  }

  ghost function BufferedFirst(t: Tree, n: nat): set<nat>
    requires n <= |t.kids|
  {
    set i, x | 0 <= i < n && x in Buffered(t.kids[i]) :: x
  }

  /** What there is to free in a tree: every value, and the buffers. */
  ghost predicate ToFree(t: Tree, f: Freed) {
    if f.Value? then f.id in Ids(t) else f.id in Buffered(t)
  }

  ghost predicate ToFreeFirst(t: Tree, n: nat, f: Freed)
    requires n <= |t.kids|
  {
    if f.Value? then f.id in IdsFirst(t, n) else f.id in BufferedFirst(t, n)
  }

  function Times(fs: seq<Freed>, f: Freed): nat { multiset(fs)[f] }

  lemma TimesAppend(a: seq<Freed>, b: seq<Freed>, f: Freed)
    ensures Times(a + b, f) == Times(a, f) + Times(b, f)
  {
  }

  lemma {:induction false} BufferedAreIn(t: Tree)
    ensures Buffered(t) <= Ids(t)
  {
    forall i | 0 <= i < |t.kids| ensures Buffered(t.kids[i]) <= Ids(t.kids[i]) {
      BufferedAreIn(t.kids[i]);
    }
  }

  lemma IdsParts(t: Tree)
    ensures Ids(t) == {t.id} + IdsFirst(t, |t.kids|) && IdsFirst(t, 0) == {} && BufferedFirst(t, 0) == {}
    ensures Buffered(t) == (if t.kind.IsPlain? then {} else {t.id}) + BufferedFirst(t, |t.kids|)
  {
  }

  lemma IdsNext(t: Tree, n: nat)
    requires Distinct(t) && n < |t.kids|
    ensures IdsFirst(t, n + 1) == Ids(t.kids[n]) + IdsFirst(t, n)
    ensures Ids(t.kids[n]) !! IdsFirst(t, n) && t.id !in Ids(t.kids[n]) && Distinct(t.kids[n])
  {
  }

  lemma BufferedNext(t: Tree, n: nat)
    requires n < |t.kids|
    ensures BufferedFirst(t, n + 1) == Buffered(t.kids[n]) + BufferedFirst(t, n)
    ensures Buffered(t.kids[n]) <= Ids(t.kids[n])
  {
    hide Buffered;
    BufferedAreIn(t.kids[n]);
  }

  lemma OwnOnce(t: Tree, f: Freed)
    ensures Times(Own(t), f) == if f.id == t.id && (f.Value? || !t.kind.IsPlain?) then 1 else 0
    ensures Own(t)[|Own(t)| - 1] == Value(t.id)
  {
  }

  lemma NothingFreed(f: Freed)
    ensures Times([], f) == 0
  {
  }

  /** Every value and every buffer of the tree is freed exactly once, and nothing else is. */
  lemma {:induction false} EachOnce(t: Tree, f: Freed)
    requires Distinct(t)
    ensures Times(Release(t), f) == if ToFree(t, f) then 1 else 0
    ensures Release(t)[|Release(t)| - 1] == Value(t.id)
    decreases t, 1
  {
    hide Times, Ids, IdsFirst, Buffered, BufferedFirst, Distinct, Own;
    FirstOnce(t, |t.kids|, f);
    TimesAppend(ReleaseFirst(t, |t.kids|), Own(t), f);
    OwnOnce(t, f);
    IdsParts(t);
  }

  lemma {:induction false} FirstOnce(t: Tree, n: nat, f: Freed)
    requires Distinct(t) && n <= |t.kids|
    ensures Times(ReleaseFirst(t, n), f) == if ToFreeFirst(t, n, f) then 1 else 0
    ensures t.id !in IdsFirst(t, n) && BufferedFirst(t, n) <= IdsFirst(t, n)
    decreases t, 0, n
  {
    hide Times, Ids, IdsFirst, Buffered, BufferedFirst, Distinct, Own, Release;
    if n > 0 {
      IdsNext(t, n - 1);
      BufferedNext(t, n - 1);
      EachOnce(t.kids[n - 1], f);
      FirstOnce(t, n - 1, f);
      TimesAppend(Release(t.kids[n - 1]), ReleaseFirst(t, n - 1), f);
    } else {
      IdsParts(t);
      NothingFreed(f);
    }
  }

  /** Wherever x and y are in the sequence, x comes first. */
  ghost predicate Before(fs: seq<Freed>, x: Freed, y: Freed) {
    forall a, b :: 0 <= a < |fs| && 0 <= b < |fs| && fs[a] == x && fs[b] == y ==> a < b
  }

  lemma BeforeWithin(l: seq<Freed>, m: seq<Freed>, r: seq<Freed>, x: Freed, y: Freed)
    requires Before(m, x, y) && x !in l && y !in l && x !in r && y !in r
    ensures Before(l + m + r, x, y)
  {
    var fs := l + m + r;
    forall a, b | 0 <= a < |fs| && 0 <= b < |fs| && fs[a] == x && fs[b] == y ensures a < b {
      assert |l| <= a < |l| + |m| && |l| <= b < |l| + |m|;
      assert m[a - |l|] == x && m[b - |l|] == y;
    }
  }

  lemma BeforeLast(fs: seq<Freed>, x: Freed, y: Freed)
    requires x != y && y !in fs
    ensures Before(fs + [y], x, y)
  {
  }

  /** A value of the tree, with everything in it. */
  ghost predicate Within(p: Tree, t: Tree)
    decreases t
  {
    p == t || exists i :: 0 <= i < |t.kids| && Within(p, t.kids[i])
  }

  lemma {:induction false} WithinIds(p: Tree, t: Tree)
    requires Within(p, t)
    ensures Ids(p) <= Ids(t) && p.id in Ids(p)
    decreases t
  {
    if p != t {
      var i :| 0 <= i < |t.kids| && Within(p, t.kids[i]);
      WithinIds(p, t.kids[i]);
      KidIds(t, i);
    }
  }

  lemma NotFreed(fs: seq<Freed>, f: Freed)
    requires Times(fs, f) == 0
    ensures f !in fs
  {
    assert f !in multiset(fs);
  }

  lemma Foreign(t: Tree, f: Freed)
    requires Distinct(t) && f.id !in Ids(t)
    ensures f !in Release(t)
  {
    EachOnce(t, f);
    BufferedAreIn(t);
    NotFreed(Release(t), f);
  }

  lemma ForeignFirst(t: Tree, n: nat, f: Freed)
    requires Distinct(t) && n <= |t.kids| && f.id !in IdsFirst(t, n)
    ensures f !in ReleaseFirst(t, n)
  {
    FirstOnce(t, n, f);
    NotFreed(ReleaseFirst(t, n), f);
  }

  /**
   * Every value of the tree is freed after everything that is in it: after the values and
   * buffers in it, its children among them, and after its own buffer.
   */
  lemma {:induction false} ChildrenFirst(t: Tree, p: Tree, f: Freed)
    requires Distinct(t) && Within(p, t) && f.id in Ids(p) && f != Value(p.id)
    ensures Before(Release(t), f, Value(p.id))
    decreases t, 1, 0
  {
    if p == t {
      TopLast(t, f);
    } else {
      hide Before, Release, ReleaseFirst;
      var i :| 0 <= i < |t.kids| && Within(p, t.kids[i]);
      WithinIds(p, t.kids[i]);
      ChildrenFirstOf(t, |t.kids|, i, p, f);
      OwnForeign(t, f, i);
      OwnForeign(t, Value(p.id), i);
      BeforeWithin([], ReleaseFirst(t, |t.kids|), Own(t), f, Value(p.id));
      ReleaseParts(t);
    }
  }

  lemma ReleaseParts(t: Tree)
    ensures [] + ReleaseFirst(t, |t.kids|) + Own(t) == Release(t)
  {
  }

  lemma TopLast(t: Tree, f: Freed)
    requires Distinct(t) && f != Value(t.id)
    ensures Before(Release(t), f, Value(t.id))
  {
    IdsParts(t);
    FirstOnce(t, |t.kids|, Value(t.id));
    NotFreed(ReleaseFirst(t, |t.kids|), Value(t.id));
    var buffer := if t.kind.IsPlain? then [] else [Buffer(t.id)];
    BeforeLast(ReleaseFirst(t, |t.kids|) + buffer, f, Value(t.id));
    assert Release(t) == ReleaseFirst(t, |t.kids|) + buffer + [Value(t.id)];
  }

  lemma OwnForeign(t: Tree, f: Freed, i: nat)
    requires Distinct(t) && i < |t.kids| && f.id in Ids(t.kids[i])
    ensures f !in Own(t)
  {
  }

  lemma {:induction false} ChildrenFirstOf(t: Tree, n: nat, i: nat, p: Tree, f: Freed)
    requires Distinct(t) && i < n <= |t.kids| && Within(p, t.kids[i])
    requires f.id in Ids(p) && f != Value(p.id) && Ids(p) <= Ids(t.kids[i]) && p.id in Ids(p)
    ensures Before(ReleaseFirst(t, n), f, Value(p.id))
    decreases t, 0, n
  {
    hide Before, Release, Ids, IdsFirst, Within;
    var last := t.kids[n - 1];
    IdsNext(t, n - 1);
    if i == n - 1 {
      ChildrenFirst(last, p, f);
      ForeignFirst(t, n - 1, f);
      ForeignFirst(t, n - 1, Value(p.id));
      BeforeWithin([], Release(last), ReleaseFirst(t, n - 1), f, Value(p.id));
      assert [] + Release(last) == Release(last);
    } else {
      ChildrenFirstOf(t, n - 1, i, p, f);
      KidInFirst(t, n - 1, i);
      Foreign(last, f);
      Foreign(last, Value(p.id));
      BeforeWithin(Release(last), ReleaseFirst(t, n - 1), [], f, Value(p.id));
      assert Release(last) + ReleaseFirst(t, n - 1) + [] == Release(last) + ReleaseFirst(t, n - 1);
    }
  }

  lemma KidInFirst(t: Tree, n: nat, i: nat)
    requires i < n <= |t.kids|
    ensures Ids(t.kids[i]) <= IdsFirst(t, n)
  {
  }
}
