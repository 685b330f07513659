/**
 Discrete overrides: setting one path in a tree of lists and objects, creating what is missing on the way.
 A path that does not fit what is there changes nothing.
 */
module Overrides {
  import opened Wrappers

  /** A path segment: one that consists of digits is a number, in a list and in an object alike. */
  datatype Key = Name(name: string) | Index(i: nat)

  type Path = seq<Key>

  datatype Tree =
    | Null
    | Leaf(text: string)
    | Arr(items: seq<Tree>)
    | Obj(fields: map<Key, Tree>)

  const EMPTY := Obj(map[])

  // ---- One container ----

  predicate Fits(t: Tree, key: Key) {
    t.Obj? || (t.Arr? && key.Index?)
  }

  /** What a container holds under a key, null included. */
  function Slot(t: Tree, key: Key): Option<Tree> {
    if t.Arr? && key.Index? && key.i < |t.items| then Some(t.items[key.i])
    else if t.Obj? && key in t.fields then Some(t.fields[key])
    else None
  }

  /** `_child`: a null reads like a missing key. */
  function Child(t: Tree, key: Key): Option<Tree> {
    if Slot(t, key) == Some(Null) then None else Slot(t, key)
  }

  function Padded(items: seq<Tree>, len: nat): (r: seq<Tree>)
    ensures |r| == if |items| < len then len else |items|
    ensures forall x :: 0 <= x < |r| ==> r[x] == if x < |items| then items[x] else EMPTY
    decreases len - |items|
  {
    if |items| >= len then items else Padded(items + [EMPTY], len)
  }

  /** `_assign`: a list grows to hold the index, filled up with empty objects. */
  function Assign(t: Tree, key: Key, value: Tree): Tree {
    if t.Arr? && key.Index? then Arr(Padded(t.items, key.i + 1)[key.i := value])
    else if t.Obj? then Obj(t.fields[key := value])
    else t
  }

  // ---- A path ----

  /** What is created below a missing key: a list if the next segment is a number. */
  function Blank(next: Key): Tree {
    if next.Index? then Arr([]) else EMPTY
  }

  function Next(t: Tree, path: Path): Tree
    requires |path| > 1
  {
    var child := Child(t, path[0]);
    if child.Some? then child.value else Blank(path[1])
  }

  /** `_set_path` */
  function Set(t: Tree, path: Path, value: Tree): Tree
    decreases |path|
  {
    if path == [] then t
    else if |path| == 1 then Assign(t, path[0], value)
    else Assign(t, path[0], Set(Next(t, path), path[1..], value))
  }

  /** What stands at a path. */
  function Get(t: Tree, path: Path): Option<Tree>
    decreases |path|
  {
    if path == [] then Some(t)
    else
      var next :- Slot(t, path[0]);
      Get(next, path[1..])
  }

  /** Every container on the way is of the kind the path needs; what is missing can be created. */
  predicate Consistent(t: Tree, path: Path)
    decreases |path|
  {
    path == [] || (Fits(t, path[0]) && (|path| == 1 || Consistent(Next(t, path), path[1..])))
  }

  /** One container after an assignment: the key, a list's new places, everything else. */
  lemma SlotAfterAssign(t: Tree, key: Key, value: Tree, other: Key)
    ensures Slot(Assign(t, key, value), other)
         == if !Fits(t, key) then Slot(t, other)
            else if other == key then Some(value)
            else if FilledUp(t, key, other) then Some(EMPTY)
            else Slot(t, other)
  {
  }

  /** A place of a list that an assignment further on fills up. */
  predicate FilledUp(t: Tree, key: Key, other: Key) {
    t.Arr? && key.Index? && other.Index? && |t.items| <= other.i < key.i
  }

  lemma {:induction false} BlankIsConsistent(path: Path)
    requires path != []
    ensures Consistent(Blank(path[0]), path)
    decreases |path|
  {
    if |path| > 1 {
      assert Child(Blank(path[0]), path[0]).None?;
      BlankIsConsistent(path[1..]);
    }
  }

  /** Setting a path that does not fit changes nothing. */
  lemma {:induction false} InconsistentChangesNothing(t: Tree, path: Path, value: Tree)
    requires !Consistent(t, path)
    ensures Set(t, path, value) == t
    decreases |path|
  {
    if Fits(t, path[0]) {
      if Child(t, path[0]).None? {
        BlankIsConsistent(path[1..]);
      } else {
        InconsistentChangesNothing(Next(t, path), path[1..], value);
      }
    }
  }

  lemma {:induction false} InconsistentReadsNothing(t: Tree, path: Path)
    requires !Consistent(t, path)
    ensures Get(t, path).None?
    decreases |path|
  {
    if Fits(t, path[0]) {
      if Child(t, path[0]).None? {
        BlankIsConsistent(path[1..]);
      } else {
        InconsistentReadsNothing(Next(t, path), path[1..]);
      }
    }
  }

  /** Reading back: a path reads what was set exactly if it fits the tree. */
  lemma {:induction false} SetThenGet(t: Tree, path: Path, value: Tree)
    requires path != []
    ensures Get(Set(t, path, value), path) == Some(value) <==> Consistent(t, path)
    decreases |path|
  {
    if !Consistent(t, path) {
      InconsistentChangesNothing(t, path, value);
      InconsistentReadsNothing(t, path);
    } else {
      var after := Set(t, path, value);
      if |path| == 1 {
        SlotAfterAssign(t, path[0], value, path[0]);
      } else {
        SlotAfterAssign(t, path[0], Set(Next(t, path), path[1..], value), path[0]);
        SetThenGet(Next(t, path), path[1..], value);
      }
    }
  }

  // ---- Paths that diverge ----

  predicate Diverge(p: Path, q: Path): (r: bool)
    ensures r ==> p != [] && q != [] && (p[0] == q[0] ==> |p| > 1 && |q| > 1)
    decreases |p|
  {
    p != [] && q != [] && (p[0] != q[0] || Diverge(p[1..], q[1..]))
  }

  /** Setting `p` fills the place `q` of a list up with an empty object. */
  predicate Fills(t: Tree, p: Path, q: Path)
    requires Diverge(p, q)
    decreases |p|
  {
    if p[0] != q[0] then |q| == 1 && FilledUp(t, p[0], q[0])
    else Fits(t, p[0]) && Fills(Next(t, p), p[1..], q[1..])
  }

  lemma BlankReadsNothing(next: Key, path: Path)
    requires path != []
    ensures Get(Blank(next), path).None?
  {
  }

  lemma EmptyReads(path: Path)
    ensures Get(EMPTY, path) == if path == [] then Some(EMPTY) else None
  {
  }

  /** Every path that diverges from the one set reads as before, but for the places a list was filled up with. */
  lemma {:induction false} SetThenGetElsewhere(t: Tree, p: Path, value: Tree, q: Path)
    requires Diverge(p, q)
    ensures Get(Set(t, p, value), q) == if Fills(t, p, q) then Some(EMPTY) else Get(t, q)
    decreases |p|
  {
    var after := Set(t, p, value);
    var below := if |p| == 1 then value else Set(Next(t, p), p[1..], value);
    SlotAfterAssign(t, p[0], below, q[0]);
    if p[0] != q[0] {
      EmptyReads(q[1..]);
      assert |q| == 1 ==> q == [q[0]];
    } else if Fits(t, p[0]) {
      SetThenGetElsewhere(Next(t, p), p[1..], value, q[1..]);
      if Child(t, p[0]).None? {
        BlankReadsNothing(p[1], q[1..]);
      }
    }
  }

  // ---- Two overrides ----

  /** `q` makes a list grow past the place where `p` needs a list: that place is then an object. */
  predicate Overtaken(p: Path, q: Path) {
    |p| > 1 && q != [] && p[0].Index? && p[1].Index? && q[0].Index? && p[0].i < q[0].i
  }

  /**
   Where two paths part, below a key they share, they take the container for the same kind, and neither overtakes
   the other.
   */
  predicate Aligned(p: Path, q: Path)
    requires Diverge(p, q)
    decreases |p|
  {
    if p[0] != q[0] then p[0].Index? == q[0].Index? && !Overtaken(p, q) && !Overtaken(q, p)
    else Aligned(p[1..], q[1..])
  }

  /** The tree as a whole is an object, so paths that part right there never meet. */
  predicate Compatible(p: Path, q: Path)
    requires Diverge(p, q)
  {
    p[0] != q[0] || Aligned(p[1..], q[1..])
  }

  lemma {:induction false} SetKeepsKind(t: Tree, path: Path, value: Tree)
    ensures Set(t, path, value).Arr? == t.Arr? && Set(t, path, value).Obj? == t.Obj?
    ensures Set(t, path, value).Null? == t.Null?
  {
  }

  /** What the last step of `Set` puts under the first key. */
  function Below(t: Tree, path: Path, value: Tree): Tree
    requires path != []
  {
    if |path| == 1 then value else Set(Next(t, path), path[1..], value)
  }

  lemma AssignTwice(t: Tree, key: Key, a: Tree, b: Tree)
    ensures Assign(Assign(t, key, a), key, b) == Assign(t, key, b)
  {
    if t.Arr? && key.Index? {
      assert Assign(Assign(t, key, a), key, b).items == Assign(t, key, b).items;
    }
  }

  lemma ListAssignsCommute(t: Tree, k: Key, a: Tree, l: Key, b: Tree)
    requires k != l && t.Arr? && k.Index? && l.Index?
    ensures Assign(Assign(t, k, a), l, b).items == Assign(Assign(t, l, b), k, a).items
  {
    var one, other := Assign(t, k, a).items, Assign(t, l, b).items;
    assert |Padded(one, l.i + 1)| == |Padded(other, k.i + 1)|;
  }

  lemma AssignsCommute(t: Tree, k: Key, a: Tree, l: Key, b: Tree)
    requires k != l
    ensures Assign(Assign(t, k, a), l, b) == Assign(Assign(t, l, b), k, a)
  {
    if t.Arr? && k.Index? && l.Index? {
      ListAssignsCommute(t, k, a, l, b);
    } else if t.Obj? {
      assert Assign(Assign(t, k, a), l, b).fields == Assign(Assign(t, l, b), k, a).fields;
    }
  }

  /** An assignment under another key does not change what a path puts under its own, unless it overtakes the path. */
  lemma BelowElsewhere(t: Tree, k: Key, a: Tree, q: Path, w: Tree)
    requires q != [] && k != q[0] && Fits(t, q[0]) && !Overtaken(q, [k])
    ensures Below(Assign(t, k, a), q, w) == Below(t, q, w)
  {
    SlotAfterAssign(t, k, a, q[0]);
  }

  lemma PartedCommute(t: Tree, p: Path, v: Tree, q: Path, w: Tree)
    requires p != [] && q != [] && p[0] != q[0] && (t.Arr? ==> !Overtaken(p, q) && !Overtaken(q, p))
    ensures Set(Set(t, p, v), q, w) == Set(Set(t, q, w), p, v)
  {
    var a, b := Below(t, p, v), Below(t, q, w);
    if Fits(t, p[0]) && Fits(t, q[0]) {
      if t.Obj? {
        assert Below(Assign(t, p[0], a), q, w) == b && Below(Assign(t, q[0], b), p, v) == a;
      } else {
        BelowElsewhere(t, p[0], a, q, w);
        BelowElsewhere(t, q[0], b, p, v);
      }
      AssignsCommute(t, p[0], a, q[0], b);
    }
  }

  /** The same first key: the second override finds what the first one put there. */
  lemma SharedKey(t: Tree, p: Path, v: Tree, q: Path, w: Tree)
    requires |p| > 1 && |q| > 1 && p[0] == q[0] && Fits(t, p[0])
    ensures Set(Set(t, p, v), q, w) == Assign(t, p[0], Set(Set(Next(t, p), p[1..], v), q[1..], w))
  {
    var k, a := p[0], Set(Next(t, p), p[1..], v);
    SetKeepsKind(Next(t, p), p[1..], v);
    SlotAfterAssign(t, k, a, k);
    assert Child(Assign(t, k, a), k) == Some(a);
    AssignTwice(t, k, a, Set(a, q[1..], w));
  }

  lemma {:induction false} AlignedCommute(t: Tree, p: Path, v: Tree, q: Path, w: Tree)
    requires Diverge(p, q) && Aligned(p, q)
    ensures Set(Set(t, p, v), q, w) == Set(Set(t, q, w), p, v)
    decreases |p|
  {
    if p[0] != q[0] {
      PartedCommute(t, p, v, q, w);
    } else if Fits(t, p[0]) {
      assert Next(t, p) == Next(t, q);
      SharedKey(t, p, v, q, w);
      SharedKey(t, q, w, p, v);
      AlignedCommute(Next(t, p), p[1..], v, q[1..], w);
    }
  }

  /** Two compatible overrides give the same tree in either order. */
  lemma CompatibleCommute(t: Tree, p: Path, v: Tree, q: Path, w: Tree)
    requires t.Obj? && Diverge(p, q) && Compatible(p, q)
    ensures Set(Set(t, p, v), q, w) == Set(Set(t, q, w), p, v)
  {
    if p[0] != q[0] {
      PartedCommute(t, p, v, q, w);
    } else {
      assert Next(t, p) == Next(t, q);
      SharedKey(t, p, v, q, w);
      SharedKey(t, q, w, p, v);
      AlignedCommute(Next(t, p), p[1..], v, q[1..], w);
    }
  }

  // ---- Where the order matters ----

  ghost predicate Commute(p: Path, q: Path) {
    forall t: Tree, v: Tree, w: Tree :: t.Obj? ==> Set(Set(t, p, v), q, w) == Set(Set(t, q, w), p, v)
  }

  /** Padding puts an object where the overtaken path needs a list. */
  lemma OvertakenOrderMatters(p: Path, v: Tree, q: Path, w: Tree)
    requires Overtaken(p, q)
    ensures Set(Set(Arr([]), p, v), q, w) != Set(Set(Arr([]), q, w), p, v)
  {
    var t, k, l := Arr([]), p[0], q[0];
    var listFirst, padded := Set(t, p, v), Set(t, q, w);
    SetKeepsKind(Arr([]), p[1..], v);
    SetKeepsKind(EMPTY, p[1..], v);
    SlotAfterAssign(t, k, Below(t, p, v), k);
    SlotAfterAssign(listFirst, l, Below(listFirst, q, w), k);
    assert Slot(Set(listFirst, q, w), k).value.Arr?;
    SlotAfterAssign(t, l, Below(t, q, w), k);
    SlotAfterAssign(padded, k, Below(padded, p, v), k);
    assert Slot(Set(padded, p, v), k).value.Obj?;
  }

  /** Below a shared key that is missing, the first path decides which kind of container is created. */
  lemma FirstDecidesKind(t: Tree, p: Path, v: Tree, q: Path, w: Tree)
    requires |p| > 1 && |q| > 1 && p[0] == q[0] && Fits(t, p[0]) && Child(t, p[0]).None?
    ensures Slot(Set(Set(t, p, v), q, w), p[0]).Some? && Slot(Set(Set(t, p, v), q, w), p[0]).value.Arr? == p[1].Index?
  {
    SharedKey(t, p, v, q, w);
    var a := Set(Next(t, p), p[1..], v);
    SetKeepsKind(Next(t, p), p[1..], v);
    SetKeepsKind(a, q[1..], w);
    SlotAfterAssign(t, p[0], Set(a, q[1..], w), p[0]);
  }

  /** A difference below a shared key is a difference. */
  lemma DifferentBelow(t: Tree, p: Path, v: Tree, q: Path, w: Tree)
    requires |p| > 1 && |q| > 1 && p[0] == q[0] && Fits(t, p[0]) && Next(t, p) == Next(t, q)
    requires Set(Set(Next(t, p), p[1..], v), q[1..], w) != Set(Set(Next(t, p), q[1..], w), p[1..], v)
    ensures Set(Set(t, p, v), q, w) != Set(Set(t, q, w), p, v)
  {
    SharedKey(t, p, v, q, w);
    SharedKey(t, q, w, p, v);
    SlotAfterAssign(t, p[0], Set(Set(Next(t, p), p[1..], v), q[1..], w), p[0]);
    SlotAfterAssign(t, p[0], Set(Set(Next(t, p), q[1..], w), p[1..], v), p[0]);
  }

  lemma {:induction false} MisalignedOrderMatters(p: Path, v: Tree, q: Path, w: Tree)
    requires Diverge(p, q) && !Aligned(p, q) && p[0].Index? == q[0].Index?
    ensures Set(Set(Blank(p[0]), p, v), q, w) != Set(Set(Blank(p[0]), q, w), p, v)
    decreases |p|
  {
    var t := Blank(p[0]);
    if Overtaken(p, q) {
      OvertakenOrderMatters(p, v, q, w);
    } else if Overtaken(q, p) {
      OvertakenOrderMatters(q, w, p, v);
    } else {
      SharedOrderMatters(t, p, v, q, w);
    }
  }

  lemma {:induction false} SharedOrderMatters(t: Tree, p: Path, v: Tree, q: Path, w: Tree)
    requires Diverge(p, q) && p[0] == q[0] && !Aligned(p[1..], q[1..]) && Fits(t, p[0]) && Child(t, p[0]).None?
    ensures Set(Set(t, p, v), q, w) != Set(Set(t, q, w), p, v)
    decreases |p|, 0
  {
    if p[1].Index? == q[1].Index? {
      MisalignedOrderMatters(p[1..], v, q[1..], w);
      DifferentBelow(t, p, v, q, w);
    } else {
      FirstDecidesKind(t, p, v, q, w);
      FirstDecidesKind(t, q, w, p, v);
    }
  }

  /**
   Two paths, neither a prefix of the other, can be set in either order on every tree exactly if they are
   compatible.
   */
  lemma CommuteExactly(p: Path, q: Path)
    requires Diverge(p, q)
    ensures Commute(p, q) <==> Compatible(p, q)
  {
    if Compatible(p, q) {
      forall t: Tree, v: Tree, w: Tree | t.Obj? ensures Set(Set(t, p, v), q, w) == Set(Set(t, q, w), p, v) {
        CompatibleCommute(t, p, v, q, w);
      }
    } else {
      SharedOrderMatters(EMPTY, p, Null, q, Null);
    }
  }

  // ---- All overrides ----

  datatype Override = Override(path: Path, value: Tree)

  function ApplyAll(t: Tree, ops: seq<Override>): Tree
    decreases |ops|
  {
    if ops == [] then t else ApplyAll(Set(t, ops[0].path, ops[0].value), ops[1..])
  }

  ghost predicate Independent(a: Override, b: Override) {
    Diverge(a.path, b.path) && Compatible(a.path, b.path)
  }

  lemma {:induction false} IndependentSymmetric(p: Path, q: Path)
    requires Diverge(p, q)
    ensures Diverge(q, p) && Aligned(p, q) == Aligned(q, p) && Compatible(p, q) == Compatible(q, p)
    decreases |p|
  {
    if p[0] == q[0] {
      IndependentSymmetric(p[1..], q[1..]);
    }
  }

  ghost predicate AllIndependent(ops: multiset<Override>) {
    forall a, b :: a in ops && b in ops - multiset{a} ==> Independent(a, b)
  }

  lemma {:induction false} ApplyConcat(t: Tree, a: seq<Override>, b: seq<Override>)
    ensures ApplyAll(t, a + b) == ApplyAll(ApplyAll(t, a), b)
    decreases |a|
  {
    if a == [] {
      assert a + b == b;
    } else {
      assert (a + b)[0] == a[0] && (a + b)[1..] == a[1..] + b;
      ApplyConcat(Set(t, a[0].path, a[0].value), a[1..], b);
    }
  }

  /** An override can be moved to the front of those it is independent of. */
  lemma {:induction false} MoveToFront(t: Tree, ops: seq<Override>, x: Override)
    requires t.Obj? && forall y :: y in ops ==> Independent(y, x)
    ensures Set(ApplyAll(t, ops), x.path, x.value) == ApplyAll(Set(t, x.path, x.value), ops)
    decreases |ops|
  {
    if ops != [] {
      var y := ops[0];
      SetKeepsKind(t, y.path, y.value);
      MoveToFront(Set(t, y.path, y.value), ops[1..], x);
      assert Independent(y, x);
      CompatibleCommute(t, y.path, y.value, x.path, x.value);
    }
  }

  lemma Remaining(ops: multiset<Override>, x: Override)
    requires AllIndependent(ops) && x in ops
    ensures AllIndependent(ops - multiset{x})
    ensures forall y :: y in ops - multiset{x} ==> Independent(y, x)
  {
    forall y | y in ops - multiset{x} ensures Independent(y, x) {
      IndependentSymmetric(x.path, y.path);
    }
    forall a, b | a in ops - multiset{x} && b in ops - multiset{x} - multiset{a} ensures Independent(a, b) {
      assert b in ops - multiset{a};
    }
  }

  lemma TakeOut(b: seq<Override>, x: Override) returns (before: seq<Override>, after: seq<Override>)
    requires x in multiset(b)
    ensures b == before + [x] + after && multiset(before + after) == multiset(b) - multiset{x}
  {
    var j :| 0 <= j < |b| && b[j] == x;
    before, after := b[..j], b[j + 1..];
    assert b == before + [x] + after;
  }

  lemma ApplyFirst(t: Tree, before: seq<Override>, x: Override, after: seq<Override>)
    requires t.Obj? && forall y :: y in before ==> Independent(y, x)
    ensures ApplyAll(t, before + [x] + after) == ApplyAll(Set(t, x.path, x.value), before + after)
  {
    MoveToFront(t, before, x);
    ApplyConcat(t, before + [x], after);
    ApplyConcat(t, before, [x]);
    ApplyConcat(Set(t, x.path, x.value), before, after);
    assert ApplyAll(ApplyAll(t, before), [x]) == Set(ApplyAll(t, before), x.path, x.value);
  }

  /** The environment's order makes no difference to overrides that are independent of each other. */
  lemma {:induction false} AnyOrder(t: Tree, a: seq<Override>, b: seq<Override>)
    requires t.Obj? && multiset(a) == multiset(b) && AllIndependent(multiset(a))
    ensures ApplyAll(t, a) == ApplyAll(t, b)
    decreases |a|
  {
    if a == [] {
      assert |multiset(b)| == 0;
    } else {
      var x := a[0];
      assert a == [x] + a[1..];
      var before, after := TakeOut(b, x);
      Remaining(multiset(a), x);
      forall y | y in before ensures Independent(y, x) {
        assert y in before + after && y in multiset(before + after);
      }
      ApplyFirst(t, before, x, after);
      SetKeepsKind(t, x.path, x.value);
      AnyOrder(Set(t, x.path, x.value), a[1..], before + after);
    }
  }
}
