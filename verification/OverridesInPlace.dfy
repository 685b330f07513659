/**
 The loader's own form of the overrides: lists and objects that are updated in place, through references.
 For the proof, a document comes with a map from its containers to the trees they stand for.
 */
module OverridesInPlace {
  import opened Wrappers
  import opened Overrides

  datatype Value = VNull | VLeaf(text: string) | VBox(box: Box)

  /** A list or an object. */
  class Box {
    const isList: bool
    var items: seq<Value>
    var fields: map<Key, Value>
    /** Where in the document it stands. */
    ghost const place: Path

    constructor (isList: bool, ghost place: Path)
      ensures this.isList == isList && this.place == place && items == [] && fields == map[]
    {
      this.isList, this.place, items, fields := isList, place, [], map[];
    }

    function Slot(key: Key): Option<Value>
      reads this
    {
      if isList then if key.Index? && key.i < |items| then Some(items[key.i]) else None
      else if key in fields then Some(fields[key]) else None
    }

    predicate Takes(key: Key) {
      !isList || key.Index?
    }
  }

  // ---- Which trees the containers stand for ----

  type Trees = map<Box, Tree>

  /** A value that stands for `t`, at its own place if it is a container. */
  ghost predicate StandsFor(v: Value, t: Tree, place: Path, all: Trees) {
    match v
    case VNull => t == Null
    case VLeaf(text) => t == Leaf(text)
    case VBox(box) => box in all && box.place == place && all[box] == t && (t.Arr? || t.Obj?)
  }

  ghost predicate SlotShows(slot: Option<Value>, t: Tree, key: Key, place: Path, all: Trees) {
    match slot
    case None => Slot(t, key).None?
    case Some(v) => Slot(t, key).Some? && StandsFor(v, Slot(t, key).value, place + [key], all)
  }

  /** The container's content is that of `t`. */
  ghost predicate Shows(b: Box, t: Tree, all: Trees)
    reads b
  {
    t.Arr? == b.isList && t.Obj? == !b.isList && forall key: Key :: SlotShows(b.Slot(key), t, key, b.place, all)
  }

  /** No two containers at one place: nothing is shared. */
  ghost predicate Apart(all: set<Box>) {
    forall a, b :: a in all && b in all && a.place == b.place ==> a == b
  }

  /** All containers of a document show their trees. */
  ghost predicate Sound(all: Trees)
    reads all.Keys
  {
    Apart(all.Keys) && forall b :: b in all ==> Shows(b, all[b], all)
  }

  /** A value with its containers `all`, which stands for `t` at `place`. */
  ghost predicate IsDocument(v: Value, t: Tree, place: Path, all: Trees)
    reads all.Keys
  {
    Sound(all) && StandsFor(v, t, place, all) && forall b :: b in all ==> place <= b.place
  }

  // ---- One container ----

  /** `_child`: None also for null. */
  method ChildOf(v: Value, key: Key) returns (r: Option<Value>)
    ensures r == if v.VBox? && v.box.Slot(key) != Some(VNull) then v.box.Slot(key) else None
  {
    if !v.VBox? || v.box.Slot(key) == Some(VNull) {
      return None;
    }
    return v.box.Slot(key);
  }

  ghost predicate IsEmptyObject(b: Box)
    reads b
  {
    !b.isList && b.fields == map[]
  }

  /** An object appended to a list to fill it up. */
  ghost predicate IsFiller(v: Value, place: Path, added: set<Box>)
    reads added
  {
    v.VBox? && v.box in added && v.box.place == place && IsEmptyObject(v.box)
  }

  lemma PlacesDiffer(place: Path, k: Key, l: Key)
    requires k != l
    ensures place + [k] != place + [l]
  {
    assert (place + [k])[|place|] == k && (place + [l])[|place|] == l;
  }

  ghost predicate FillsIn(a: Box, place: Path, from: nat, to: nat) {
    exists i :: from <= i < to && a.place == place + [Index(i)]
  }

  /** The containers a list was filled up with from `from` on. */
  ghost predicate FilledFrom(b: Box, from: nat, added: set<Box>)
    reads b, added
  {
    && (forall i :: from <= i < |b.items| ==> IsFiller(b.items[i], b.place + [Index(i)], added))
    && (forall a :: a in added ==> FillsIn(a, b.place, from, |b.items|) && IsEmptyObject(a))
    && Apart(added)
  }

  /** The same, the containers in order. */
  ghost predicate AreFillers(b: Box, from: nat, fillers: seq<Box>)
    reads b, fillers
  {
    && |b.items| == from + |fillers|
    && (forall i :: 0 <= i < |fillers| ==> b.items[from + i] == VBox(fillers[i]))
    && (forall i :: 0 <= i < |fillers| ==> fillers[i].place == b.place + [Index(from + i)] && IsEmptyObject(fillers[i]))
  }

  lemma FillersFill(b: Box, from: nat, fillers: seq<Box>)
    requires AreFillers(b, from, fillers)
    ensures FilledFrom(b, from, set f | f in fillers)
  {
    var added := set f | f in fillers;
    forall i | from <= i < |b.items| ensures IsFiller(b.items[i], b.place + [Index(i)], added) {
      assert b.items[from + (i - from)] == VBox(fillers[i - from]);
    }
    forall i, j | 0 <= i < |fillers| && 0 <= j < |fillers| && fillers[i].place == fillers[j].place ensures i == j {
      if i != j {
        PlacesDiffer(b.place, Index(from + i), Index(from + j));
      }
    }
  }

  /** `while len(container) <= key: container.append({})` */
  method FillUp(b: Box, key: nat) returns (ghost added: set<Box>)
    modifies b`items
    ensures fresh(added) && |b.items| == if |old(b.items)| > key then |old(b.items)| else key + 1
    ensures b.items[..|old(b.items)|] == old(b.items) && FilledFrom(b, |old(b.items)|, added)
  {
    ghost var from, fillers := |b.items|, [];
    while |b.items| <= key
      invariant from <= |b.items| && (|b.items| <= key + 1 || b.items == old(b.items))
      invariant b.items[..from] == old(b.items)
      invariant AreFillers(b, from, fillers) && b !in fillers && forall f :: f in fillers ==> fresh(f)
    {
      var filler := new Box(false, b.place + [Index(|b.items|)]);
      fillers := fillers + [filler];
      b.items := b.items + [VBox(filler)];
    }
    FillersFill(b, from, fillers);
    added := set f | f in fillers;
  }

  /** What an assignment under `key` left under `k`. */
  ghost predicate SlotAfter(b: Box, k: Key, before: Option<Value>, key: Key, len: nat, added: set<Box>)
    reads b, added
  {
    if before.None? && b.Slot(k).Some? then
      b.isList && k.Index? && key.Index? && len <= k.i < key.i && IsFiller(b.Slot(k).value, b.place + [k], added)
    else b.Slot(k) == before
  }

  /** `_assign`, on a container that takes the key: a list grows by empty objects to hold the index. */
  method AssignTo(b: Box, key: Key, value: Value) returns (ghost added: set<Box>)
    requires b.Takes(key)
    modifies b
    ensures fresh(added) && Apart(added) && b.Slot(key) == Some(value)
    ensures forall k: Key :: k != key ==> SlotAfter(b, k, old(b.Slot(k)), key, |old(b.items)|, added)
    ensures b.isList ==> forall i :: 0 <= i < key.i ==> b.Slot(Index(i)).Some?
    ensures forall a :: a in added ==> b.isList && FillsIn(a, b.place, |old(b.items)|, key.i) && IsEmptyObject(a)
  {
    added := {};
    if !b.isList {
      b.fields := b.fields[key := value];
      return;
    }
    added := FillUp(b, key.i);
    b.items := b.items[key.i := value];
    added := set a | a in added && a.place != b.place + [key];
    forall i | 0 <= i < |b.items| && i != key.i ensures b.place + [Index(i)] != b.place + [key] {
      PlacesDiffer(b.place, Index(i), key);
    }
  }

  // ---- What an assignment does to the document ----

  /** Which places below a container an assignment takes: the key's, and those a list is filled up at. */
  predicate Goes(k: Key, key: Key, len: Option<nat>) {
    k == key || (len.Some? && k.Index? && k.i >= len.value)
  }

  /** The containers left when those are gone. */
  ghost function Without(all: Trees, place: Path, key: Key, len: Option<nat>): Trees {
    map a | a in all && !(place < a.place && Goes(a.place[|place|], key, len)) :: all[a]
  }

  ghost function LengthOf(b: Box): Option<nat>
    reads b
  {
    if b.isList then Some(|b.items|) else None
  }

  ghost function EmptyObjects(added: set<Box>): Trees {
    map a | a in added :: EMPTY
  }

  /** Every container of `all` stands for the same tree in `all'`. */
  ghost predicate Within(all: Trees, all': Trees) {
    forall a :: a in all ==> a in all' && all'[a] == all[a]
  }

  lemma OtherSlotShows(b: Box, t: Tree, key: Key, tv: Tree, k: Key, before: Option<Value>, all: Trees, added: set<Box>,
                       all': Trees)
    requires k != key && SlotShows(before, t, k, b.place, all) && t.Arr? == b.isList && t.Obj? == !b.isList
    requires b.Takes(key)
    requires SlotAfter(b, k, before, key, if t.Arr? then |t.items| else 0, added)
    requires b.isList ==> forall i :: 0 <= i < key.i ==> b.Slot(Index(i)).Some?
    requires Within(EmptyObjects(added), all')
    requires Within(Without(all, b.place, key, if t.Arr? then Some(|t.items|) else None), all')
    ensures SlotShows(b.Slot(k), Assign(t, key, tv), k, b.place, all')
  {
    SlotAfterAssign(t, key, tv, k);
    if before.Some? && before.value.VBox? {
      var a := before.value.box;
      assert a.place == b.place + [k] && a.place[|b.place|] == k;
    }
  }

  /** A list is as long as the tree it shows. */
  lemma SameLength(b: Box, t: Tree, all: Trees)
    requires Shows(b, t, all) && b.isList
    ensures |b.items| == |t.items|
  {
    assert SlotShows(b.Slot(Index(|b.items|)), t, Index(|b.items|), b.place, all);
    assert SlotShows(b.Slot(Index(|t.items|)), t, Index(|t.items|), b.place, all);
  }

  /**
   An assignment to a container that shows `t` makes it show `Assign(t, ...)`; what it held under the key is let
   go. A container that belongs to no document (`doc` is false) is simply written to.
   */
  method AssignIn(b: Box, key: Key, value: Value, ghost doc: bool, ghost t: Tree, ghost tv: Tree, ghost all: Trees,
                  ghost owned: Trees)
    returns (ghost added: set<Box>)
    requires b.Takes(key)
    requires doc ==> Shows(b, t, all) && StandsFor(value, tv, b.place + [key], owned) && all.Keys !! owned.Keys
    modifies b
    ensures fresh(added) && Apart(added)
    ensures doc ==>
      Shows(b, Assign(t, key, tv), Without(all, b.place, key, old(LengthOf(b))) + owned + EmptyObjects(added))
    ensures forall a :: a in added ==> b.isList && FillsIn(a, b.place, |old(b.items)|, key.i) && IsEmptyObject(a)
  {
    if doc && b.isList {
      SameLength(b, t, all);
    }
    added := AssignTo(b, key, value);
    if doc {
      ghost var all' := Without(all, b.place, key, old(LengthOf(b))) + owned + EmptyObjects(added);
      SlotAfterAssign(t, key, tv, key);
      forall k: Key ensures SlotShows(b.Slot(k), Assign(t, key, tv), k, b.place, all') {
        if k != key {
          assert old(SlotShows(b.Slot(k), t, k, b.place, all));
          OtherSlotShows(b, t, key, tv, k, old(b.Slot(k)), all, added, all');
        }
      }
    }
  }

  // ---- The way down ----

  /**
   The containers passed on the way down the path, and the trees of the old document there. Each of them shows
   its tree with what is below, though a container that was missing may have been put there meanwhile.
   */
  ghost predicate IsTrail(trail: seq<Box>, ts: seq<Tree>, path: Path, live: Trees)
    reads trail
  {
    && |ts| == |trail| + 1 && |trail| < |path|
    && (forall j :: 0 <= j < |trail| ==> trail[j] in live && trail[j].place == path[..j])
    && (forall j :: 0 <= j < |trail| ==> live[trail[j]] == ts[j] && trail[j].Takes(path[j]))
    && (forall j :: 0 <= j < |trail| ==> Shows(trail[j], Assign(ts[j], path[j], ts[j + 1]), live))
    && (forall j :: 0 <= j < |trail| ==> ts[j + 1] == Next(ts[j], path[j..]))
  }

  /** All other containers show their trees. */
  ghost predicate RestSound(trail: seq<Box>, live: Trees)
    reads live.Keys
  {
    Apart(live.Keys) && forall b :: b in live && b !in trail ==> Shows(b, live[b], live)
  }

  /** Where the way down has arrived. */
  ghost predicate StandsAt(cur: Value, trail: seq<Box>, ts: seq<Tree>, path: Path, live: Trees)
    requires |ts| == |trail| + 1 && |trail| < |path|
  {
    StandsFor(cur, ts[|trail|], path[..|trail|], live)
  }

  lemma NotOnTrail(b: Box, trail: seq<Box>, path: Path)
    requires |trail| < |path| && b.place == path[..|trail|]
    requires forall j :: 0 <= j < |trail| ==> trail[j].place == path[..j]
    ensures b !in trail
  {
    forall j | 0 <= j < |trail| ensures trail[j] != b {
      assert |trail[j].place| == j;
    }
  }

  lemma ShowsInMore(b: Box, t: Tree, all: Trees, all': Trees)
    requires Shows(b, t, all) && Within(all, all')
    ensures Shows(b, t, all')
  {
    forall key: Key ensures SlotShows(b.Slot(key), t, key, b.place, all') {
      assert SlotShows(b.Slot(key), t, key, b.place, all);
    }
  }

  /** A container elsewhere shows what it showed. */
  lemma ShowsWithout(b: Box, t: Tree, live: Trees, place: Path, key: Key, len: Option<nat>, live': Trees)
    requires Shows(b, t, live) && Within(Without(live, place, key, len), live')
    requires b.place != place && !(place < b.place && Goes(b.place[|place|], key, len))
    ensures Shows(b, t, live')
  {
    forall k: Key ensures SlotShows(b.Slot(k), t, k, b.place, live') {
      assert SlotShows(b.Slot(k), t, k, b.place, live);
      if place < b.place + [k] {
        Deeper(b.place, k, place);
      }
    }
  }

  lemma Deeper(above: Path, k: Key, place: Path)
    requires above != place && place < above + [k]
    ensures place < above && (above + [k])[|place|] == above[|place|]
  {
    assert (above + [k])[..|above|] == above;
  }

  lemma AssignSame(t: Tree, key: Key)
    requires Slot(t, key).Some? && Fits(t, key)
    ensures Assign(t, key, Slot(t, key).value) == t
  {
    if t.Arr? {
      assert Assign(t, key, Slot(t, key).value).items == t.items;
    }
  }

  lemma TrailGrows(trail: seq<Box>, ts: seq<Tree>, path: Path, live: Trees, cur: Box, next: Tree)
    requires IsTrail(trail, ts, path, live) && |trail| + 1 < |path|
    requires cur in live && cur.place == path[..|trail|] && live[cur] == ts[|trail|] && cur.Takes(path[|trail|])
    requires next == Next(ts[|trail|], path[|trail|..])
    requires Shows(cur, Assign(ts[|trail|], path[|trail|], next), live)
    ensures IsTrail(trail + [cur], ts + [next], path, live)
  {
    var trail', ts' := trail + [cur], ts + [next];
    forall j | 0 <= j < |trail'| ensures Shows(trail'[j], Assign(ts'[j], path[j], ts'[j + 1]), live) {
      if j < |trail| {
        assert trail'[j] == trail[j] && ts'[j] == ts[j] && ts'[j + 1] == ts[j + 1];
      }
    }
  }

  /** One step further down, to a container or leaf that was there. */
  lemma StepToExisting(trail: seq<Box>, ts: seq<Tree>, path: Path, live: Trees, cur: Box, child: Value)
    returns (next: Tree)
    requires IsTrail(trail, ts, path, live) && RestSound(trail, live) && StandsAt(VBox(cur), trail, ts, path, live)
    requires |trail| + 1 < |path| && cur.Takes(path[|trail|])
    requires cur.Slot(path[|trail|]) == Some(child) && child != VNull
    ensures IsTrail(trail + [cur], ts + [next], path, live) && RestSound(trail + [cur], live)
    ensures StandsAt(child, trail + [cur], ts + [next], path, live)
  {
    var i := |trail|;
    var key, t := path[i], ts[i];
    NotOnTrail(cur, trail, path);
    assert SlotShows(cur.Slot(key), t, key, cur.place, live);
    next := Slot(t, key).value;
    AssignSame(t, key);
    assert path[i..][0] == key && path[..i + 1] == path[..i] + [key];
    TrailGrows(trail, ts, path, live, cur, next);
  }

  /** The containers that were live before, but for those let go, show what they showed. */
  lemma OthersShow(trail: seq<Box>, ts: seq<Tree>, path: Path, live: Trees, cur: Box, len: Option<nat>, live': Trees)
    requires IsTrail(trail, ts, path, live) && RestSound(trail + [cur], live) && cur in live
    requires cur.place == path[..|trail|]
    requires Within(Without(live, cur.place, path[|trail|], len), live')
    ensures IsTrail(trail, ts, path, live')
    ensures forall b :: b in Without(live, cur.place, path[|trail|], len) && b !in trail + [cur] ==>
      Shows(b, live'[b], live')
  {
    var i, key := |trail|, path[|trail|];
    forall j | 0 <= j < i
      ensures trail[j] in live' && live'[trail[j]] == live[trail[j]]
      ensures Shows(trail[j], Assign(ts[j], path[j], ts[j + 1]), live')
    {
      assert |trail[j].place| == j && |cur.place| == i;
      assert trail[j] in Without(live, cur.place, key, len);
      ShowsWithout(trail[j], Assign(ts[j], path[j], ts[j + 1]), live, cur.place, key, len, live');
    }
    forall b | b in Without(live, cur.place, key, len) && b !in trail + [cur] ensures Shows(b, live'[b], live') {
      assert cur in trail + [cur];
      ShowsWithout(b, live[b], live, cur.place, key, len, live');
    }
  }

  lemma EmptyShows(b: Box, t: Tree, live: Trees)
    requires b.items == [] && b.fields == map[] && t == if b.isList then Arr([]) else EMPTY
    ensures Shows(b, t, live)
  {
  }

  lemma FillerShows(b: Box, live: Trees)
    requires IsEmptyObject(b)
    ensures Shows(b, EMPTY, live)
  {
    forall key: Key ensures SlotShows(b.Slot(key), EMPTY, key, b.place, live) {
      assert b.Slot(key).None?;
    }
  }

  /** No two containers stand at one place when new ones come in where old ones were let go. */
  lemma StillApart(live: Trees, place: Path, key: Key, owned: Trees, added: set<Box>, len: Option<nat>, to: nat)
    requires Apart(live.Keys) && Apart(owned.Keys) && Apart(added)
    requires forall a :: a in owned ==> place + [key] <= a.place
    requires forall a :: a in added ==> len.Some? && key.Index? && to <= key.i && FillsIn(a, place, len.value, to)
    ensures Apart((Without(live, place, key, len) + owned + EmptyObjects(added)).Keys)
    ensures Within(Without(live, place, key, len), Without(live, place, key, len) + owned + EmptyObjects(added))
    ensures Within(owned, Without(live, place, key, len) + owned + EmptyObjects(added))
  {
    forall a | a in owned ensures place < a.place && a.place[|place|] == key {
      assert a.place[..|place| + 1] == place + [key];
    }
    forall a | a in added ensures place < a.place && a.place[|place|] != key && Goes(a.place[|place|], key, len) {
      var i :| len.value <= i < to && a.place == place + [Index(i)];
    }
  }

  /** The new state of the document after an assignment at the end of the trail. */
  lemma AfterAssign(trail: seq<Box>, ts: seq<Tree>, path: Path, live: Trees, cur: Box, len: Option<nat>,
                    owned: Trees, added: set<Box>, to: nat, live': Trees)
    requires IsTrail(trail, ts, path, live) && RestSound(trail + [cur], live) && cur in live
    requires cur.place == path[..|trail|]
    requires live' == Without(live, cur.place, path[|trail|], len) + owned + EmptyObjects(added)
    requires Sound(owned) && forall a :: a in owned ==> path[..|trail| + 1] <= a.place
    requires Apart(added) && forall a :: a in added ==>
      len.Some? && path[|trail|].Index? && to <= path[|trail|].i && FillsIn(a, cur.place, len.value, to)
        && IsEmptyObject(a)
    ensures IsTrail(trail, ts, path, live') && RestSound(trail + [cur], live') && cur in live'
    ensures live'[cur] == live[cur]
    ensures Within(owned, live')
  {
    var key := path[|trail|];
    assert path[..|trail| + 1] == cur.place + [key];
    StillApart(live, cur.place, key, owned, added, len, to);
    OthersShow(trail, ts, path, live, cur, len, live');
    forall b | b in owned ensures Shows(b, live'[b], live') {
      ShowsInMore(b, owned[b], owned, live');
    }
    forall b | b in added ensures Shows(b, live'[b], live') {
      FillerShows(b, live');
    }
    assert cur in Without(live, cur.place, key, len);
  }

  /** What stands here takes the key. */
  predicate TakesOn(v: Value, key: Key) {
    v.VBox? && v.box.Takes(key)
  }

  /** Where the way down stands in the document. */
  ghost predicate IsWay(trail: seq<Box>, ts: seq<Tree>, path: Path, live: Trees, at: Value)
    reads live.Keys, trail
  {
    IsTrail(trail, ts, path, live) && RestSound(trail, live) && StandsAt(at, trail, ts, path, live)
  }

  /** Assign at the end of the trail, if it is still in the document. */
  method AssignAt(cur: Box, key: Key, value: Value, ghost tv: Tree, ghost doc: bool, ghost trail: seq<Box>,
                  ghost ts: seq<Tree>,
                  ghost path: Path, ghost live: Trees, ghost owned: Trees) returns (ghost live': Trees)
    requires cur.Takes(key)
    requires doc ==> IsWay(trail, ts, path, live, VBox(cur)) && key == path[|trail|]
    requires doc ==> live.Keys !! owned.Keys && IsDocument(value, tv, path[..|trail| + 1], owned)
    modifies cur
    ensures doc ==>
      IsTrail(trail, ts, path, live') && RestSound(trail + [cur], live') && cur in live' && live'[cur] == live[cur]
    ensures doc ==> fresh(live'.Keys - live.Keys - owned.Keys) && Within(owned, live')
    ensures doc ==> Shows(cur, Assign(ts[|trail|], key, tv), live')
    ensures !doc ==> live' == live
  {
    if doc {
      NotOnTrail(cur, trail, path);
      assert path[..|trail| + 1] == cur.place + [key];
    }
    ghost var len := LengthOf(cur);
    ghost var added := AssignIn(cur, key, value, doc, if doc then ts[|trail|] else Null, tv, live, owned);
    live' := live;
    if doc {
      live' := Without(live, cur.place, key, len) + owned + EmptyObjects(added);
      AfterAssign(trail, ts, path, live, cur, len, owned, added, if key.Index? then key.i else 0, live');
    }
  }

  /** One step further down, to a container that was missing or null: it is created and stored. */
  method StepToNew(cur: Box, key: Key, isList: bool, ghost doc: bool, ghost trail: seq<Box>, ghost ts: seq<Tree>,
                   ghost path: Path, ghost live: Trees)
    returns (next: Box, ghost live': Trees)
    requires cur.Takes(key) && (doc ==> IsWay(trail, ts, path, live, VBox(cur)))
    requires doc ==> |trail| + 1 < |path| && key == path[|trail|] && isList == path[|trail| + 1].Index?
    requires doc ==> cur.Slot(key) == None || cur.Slot(key) == Some(VNull)
    modifies cur
    ensures doc ==> IsWay(trail + [cur], ts + [Blank(path[|trail| + 1])], path, live', VBox(next))
    ensures fresh(next) && next.items == [] && next.fields == map[]
    ensures if doc then fresh(live'.Keys - live.Keys) else live' == live
  {
    next := new Box(isList, if doc then path[..|trail| + 1] else []);
    ghost var blank := if isList then Arr([]) else EMPTY;
    ghost var owned := map[next := blank];
    if doc {
      NextIsBlank(trail, ts, path, live, cur);
      EmptyShows(next, blank, owned);
    }
    live' := AssignAt(cur, key, VBox(next), blank, doc, trail, ts, path, live, owned);
    if doc {
      NewWay(trail, ts, path, live', cur, blank, next);
    }
  }

  lemma NewWay(trail: seq<Box>, ts: seq<Tree>, path: Path, live: Trees, cur: Box, blank: Tree, next: Box)
    requires IsTrail(trail, ts, path, live) && |trail| + 1 < |path| && RestSound(trail + [cur], live)
    requires cur in live && cur.place == path[..|trail|] && live[cur] == ts[|trail|] && cur.Takes(path[|trail|])
    requires blank == Next(ts[|trail|], path[|trail|..]) && Shows(cur, Assign(ts[|trail|], path[|trail|], blank), live)
    requires StandsFor(VBox(next), blank, path[..|trail| + 1], live)
    ensures IsWay(trail + [cur], ts + [blank], path, live, VBox(next))
  {
    TrailGrows(trail, ts, path, live, cur, blank);
  }

  lemma NextIsBlank(trail: seq<Box>, ts: seq<Tree>, path: Path, live: Trees, cur: Box)
    requires IsWay(trail, ts, path, live, VBox(cur)) && |trail| + 1 < |path|
    requires cur.Slot(path[|trail|]) == None || cur.Slot(path[|trail|]) == Some(VNull)
    ensures Next(ts[|trail|], path[|trail|..]) == Blank(path[|trail| + 1])
  {
    var i := |trail|;
    NotOnTrail(cur, trail, path);
    assert SlotShows(cur.Slot(path[i]), ts[i], path[i], cur.place, live);
    assert path[i..][0] == path[i] && path[i..][1] == path[i + 1];
  }

  // ---- The way back up: what the whole document stands for by now ----

  /** Where the old trees still stand: on the trail, and at its end, which by now shows `u`. */
  ghost predicate IsUpTo(trail: seq<Box>, ts: seq<Tree>, path: Path, live: Trees, c: Box, u: Tree)
    reads live.Keys, trail, c
  {
    && IsTrail(trail, ts, path, live) && StandsAt(VBox(c), trail, ts, path, live) && Apart(live.Keys)
    && Shows(c, u, live) && forall b :: b in live && b !in trail && b != c ==> Shows(b, live[b], live)
  }

  /** Giving one container another tree concerns only what holds it. */
  lemma StillShows(b: Box, t: Tree, c: Box, u: Tree, live: Trees)
    requires Shows(b, t, live) && forall k :: b.place + [k] != c.place
    ensures Shows(b, t, live[c := u])
  {
    forall key: Key ensures SlotShows(b.Slot(key), t, key, b.place, live[c := u]) {
      assert SlotShows(b.Slot(key), t, key, b.place, live);
    }
  }

  /** What holds it shows the tree with the other one put in. */
  lemma HolderShows(b: Box, t: Tree, key: Key, c: Box, u: Tree, live: Trees)
    requires b.Takes(key) && c in live && c.place == b.place + [key] && Apart(live.Keys)
    requires (live[c].Arr? || live[c].Obj?) && (u.Arr? || u.Obj?)
    requires t.Arr? == b.isList && t.Obj? == !b.isList && Shows(b, Assign(t, key, live[c]), live)
    ensures Shows(b, Assign(t, key, u), live[c := u])
  {
    forall k: Key ensures SlotShows(b.Slot(k), Assign(t, key, u), k, b.place, live[c := u]) {
      assert SlotShows(b.Slot(k), Assign(t, key, live[c]), k, b.place, live);
      SlotAfterAssign(t, key, u, k);
      SlotAfterAssign(t, key, live[c], k);
      if k != key {
        PlacesDiffer(b.place, k, key);
      }
    }
  }

  /** The end of the trail is held by the container before it, and by no other. */
  lemma OnlyTrailHolds(b: Box, c: Box, trail: seq<Box>, path: Path, live: Trees)
    requires |trail| < |path| && c.place == path[..|trail|] && b in live && Apart(live.Keys)
    requires forall j :: 0 <= j < |trail| ==> trail[j] in live && trail[j].place == path[..j]
    ensures (exists k :: b.place + [k] == c.place) ==> |trail| > 0 && b == trail[|trail| - 1]
  {
    if k :| b.place + [k] == c.place {
      assert |trail| > 0;
      ParentPlace(b.place, k, path, |trail| - 1);
    }
  }

  lemma ParentPlace(place: Path, key: Key, path: Path, i: nat)
    requires i < |path|
    ensures place + [key] == path[..i + 1] ==> place == path[..i]
  {
    assert (place + [key])[..|place|] == place && path[..i + 1][..i] == path[..i];
  }

  lemma TooShort(place: Path, below: Path)
    requires |place| + 1 < |below|
    ensures forall k :: place + [k] != below
  {
    forall k ensures place + [k] != below {
      assert |place + [k]| == |place| + 1;
    }
  }

  /** The containers off the trail, once the end of it has the tree it shows. */
  lemma OffTrailShow(trail: seq<Box>, ts: seq<Tree>, path: Path, live: Trees, c: Box, u: Tree)
    requires IsUpTo(trail, ts, path, live, c, u)
    ensures c !in trail && forall b :: b in live && b !in trail ==> Shows(b, live[c := u][b], live[c := u])
  {
    NotOnTrail(c, trail, path);
    forall b | b in live && b !in trail ensures Shows(b, live[c := u][b], live[c := u]) {
      OnlyTrailHolds(b, c, trail, path, live);
      StillShows(b, if b == c then u else live[b], c, u, live);
    }
  }

  /** One container further up. */
  lemma FurtherUp(trail: seq<Box>, ts: seq<Tree>, path: Path, live: Trees, c: Box, u: Tree, n: nat)
    requires IsUpTo(trail, ts, path, live, c, u) && |trail| == n + 1
    ensures IsUpTo(trail[..n], ts[..n + 1], path, live[c := u], trail[n], Assign(ts[n], path[n], u))
  {
    var live' := live[c := u];
    OffTrailShow(trail, ts, path, live, c, u);
    assert path[..n + 1] == path[..n] + [path[n]];
    HolderShows(trail[n], ts[n], path[n], c, u, live);
    forall j | 0 <= j < n ensures Shows(trail[j], Assign(ts[j], path[j], ts[j + 1]), live') {
      TooShort(trail[j].place, c.place);
      StillShows(trail[j], Assign(ts[j], path[j], ts[j + 1]), c, u, live);
    }
  }

  lemma SetFurtherUp(ts: seq<Tree>, path: Path, tv: Tree, n: nat)
    requires n + 1 < |path| && |ts| == n + 2 && ts[n + 1] == Next(ts[n], path[n..])
    ensures Assign(ts[n], path[n], Set(ts[n + 1], path[n + 1..], tv)) == Set(ts[n], path[n..], tv)
  {
    assert path[n..][1..] == path[n + 1..] && path[n..][0] == path[n];
  }

  /** From the end of the trail up to the root, every container stands for the tree that it shows by now. */
  lemma {:induction false} Climb(trail: seq<Box>, ts: seq<Tree>, path: Path, tv: Tree, live: Trees, c: Box, u: Tree,
                                 root: Box) returns (live': Trees)
    requires IsUpTo(trail, ts, path, live, c, u) && u == Set(ts[|trail|], path[|trail|..], tv)
    requires root == if trail == [] then c else trail[0]
    ensures Sound(live') && live'.Keys == live.Keys && StandsFor(VBox(root), Set(ts[0], path, tv), [], live')
    decreases |trail|
  {
    assert path[0..] == path && path[..0] == [];
    if trail == [] {
      OffTrailShow(trail, ts, path, live, c, u);
      live' := live[c := u];
    } else {
      var n := |trail| - 1;
      FurtherUp(trail, ts, path, live, c, u, n);
      SetFurtherUp(ts, path, tv, n);
      live' := Climb(trail[..n], ts[..n + 1], path, tv, live[c := u], trail[n], Assign(ts[n], path[n], u), root);
    }
  }

  // ---- `_set_path` ----

  lemma TakenFits(v: Value, key: Key, t: Tree, place: Path, all: Trees)
    requires StandsFor(v, t, place, all) && (v.VBox? ==> Shows(v.box, t, all))
    ensures TakesOn(v, key) <==> Fits(t, key)
  {
  }

  /** The path does not fit what stands at the end of the trail: the document is what it was. */
  lemma NothingSet(trail: seq<Box>, ts: seq<Tree>, path: Path, tv: Tree, live: Trees, at: Value, root: Box)
    returns (live': Trees)
    requires IsTrail(trail, ts, path, live) && RestSound(trail, live) && StandsAt(at, trail, ts, path, live)
    requires at != VNull && !TakesOn(at, path[|trail|]) && (trail == [] ==> at == VBox(root))
    requires (trail != [] ==> root == trail[0])
    ensures Sound(live') && live'.Keys == live.Keys && StandsFor(VBox(root), Set(ts[0], path, tv), [], live')
  {
    var n := |trail|;
    if at.VBox? {
      NotOnTrail(at.box, trail, path);
    }
    TakenFits(at, path[n], ts[n], path[..n], live);
    assert path[n..][0] == path[n];
    assert !Consistent(ts[n], path[n..]);
    InconsistentChangesNothing(ts[n], path[n..], tv);
    if at.VBox? {
      live' := Climb(trail, ts, path, tv, live, at.box, ts[n], root);
    } else {
      var up := n - 1;
      SetFurtherUp(ts, path, tv, up);
      NotOnTrail(trail[up], trail[..up], path);
      live' := Climb(trail[..up], ts[..n], path, tv, live, trail[up], Assign(ts[up], path[up], ts[n]), root);
    }
  }

  /** The way down, from the root of a document that stood for `tree`, has come to `at`. */
  ghost predicate CameTo(at: Value, root: Box, tree: Tree, path: Path, trail: seq<Box>, ts: seq<Tree>, live: Trees)
    reads live.Keys, trail
  {
    && IsWay(trail, ts, path, live, at) && ts[0] == tree && at != VNull
    && (if trail == [] then at == VBox(root) else root == trail[0])
  }

  /** After `i` steps: still in the document at `cur`, or astray since `at` would not take the next key. */
  ghost predicate After(doc: bool, i: nat, cur: Value, at: Value, root: Box, tree: Tree, path: Path, trail: seq<Box>,
                        ts: seq<Tree>, live: Trees)
    reads live.Keys, trail, if cur.VBox? then {cur.box} else {}
  {
    && CameTo(at, root, tree, path, trail, ts, live)
    && if doc then |trail| == i && at == cur
       else
         && !TakesOn(at, path[|trail|]) && cur.VBox? && cur.box !in live
         && cur.box.items == [] && cur.box.fields == map[]
  }

  /** One turn of the loop of `_set_path` that is not the last. */
  method StepDown(root: Box, path: Path, i: nat, cur: Value, ghost doc: bool, ghost at: Value, ghost tree: Tree,
                  ghost trail: seq<Box>, ghost ts: seq<Tree>, ghost live: Trees)
    returns (next: Value, ghost doc': bool, ghost at': Value, ghost trail': seq<Box>, ghost ts': seq<Tree>,
             ghost live': Trees)
    requires i + 1 < |path| && After(doc, i, cur, at, root, tree, path, trail, ts, live)
    modifies if cur.VBox? then {cur.box} else {}
    ensures After(doc', i + 1, next, at', root, tree, path, trail', ts', live')
    ensures fresh(live'.Keys - live.Keys) && (next.VBox? ==> next.box in live' || fresh(next.box))
  {
    var key := path[i];
    var child := ChildOf(cur, key);
    doc', at', trail', ts', live' := doc, at, trail, ts, live;
    if child.Some? {
      next := child.value;
      ghost var t := StepToExisting(trail, ts, path, live, cur.box, child.value);
      at', trail', ts' := next, trail + [cur.box], ts + [t];
      return;
    }
    if !TakesOn(cur, key) {
      var box := new Box(path[i + 1].Index?, []);
      next, doc' := VBox(box), false;
      return;
    }
    var box;
    box, live' := StepToNew(cur.box, key, path[i + 1].Index?, doc, trail, ts, path, live);
    next := VBox(box);
    if doc {
      at', trail', ts' := next, trail + [cur.box], ts + [Blank(path[i + 1])];
    }
  }

  /** The last turn: the value is stored, if what stands here takes the key. */
  method SetLast(root: Box, path: Path, i: nat, cur: Value, value: Value, ghost doc: bool, ghost at: Value,
                 ghost tree: Tree, ghost tv: Tree,
                 ghost trail: seq<Box>, ghost ts: seq<Tree>, ghost live: Trees, ghost owned: Trees)
      returns (ghost live': Trees)
    requires i + 1 == |path| && After(doc, i, cur, at, root, tree, path, trail, ts, live)
    requires IsDocument(value, tv, path, owned) && live.Keys !! owned.Keys && (cur.VBox? ==> cur.box !in owned)
    modifies if cur.VBox? then {cur.box} else {}
    ensures Sound(live') && StandsFor(VBox(root), Set(tree, path, tv), [], live')
    ensures fresh(live'.Keys - live.Keys - owned.Keys)
  {
    var key := path[i];
    assert path[..i + 1] == path;
    if !TakesOn(cur, key) {
      live' := NothingSet(trail, ts, path, tv, live, at, root);
      return;
    }
    ghost var after := AssignAt(cur.box, key, value, tv, doc, trail, ts, path, live, owned);
    if doc {
      ghost var u := Assign(ts[i], key, tv);
      assert path[i..][0] == key && |path[i..]| == 1;
      live' := Climb(trail, ts, path, tv, after, cur.box, u, root);
    } else {
      live' := NothingSet(trail, ts, path, tv, live, at, root);
    }
  }

  /** The loop up to the last segment. */
  method WalkDown(root: Box, path: Path, ghost tree: Tree, ghost all: Trees)
    returns (cur: Value, ghost doc: bool, ghost at: Value, ghost trail: seq<Box>, ghost ts: seq<Tree>,
             ghost live: Trees)
    requires path != [] && IsDocument(VBox(root), tree, [], all)
    modifies all.Keys
    ensures After(doc, |path| - 1, cur, at, root, tree, path, trail, ts, live)
    ensures fresh(live.Keys - all.Keys) && (cur.VBox? ==> cur.box in all || fresh(cur.box))
  {
    cur, doc, at, trail, ts, live := VBox(root), true, VBox(root), [], [tree], all;
    assert path[..0] == [];
    var i := 0;
    while i < |path| - 1
      invariant i < |path| && After(doc, i, cur, at, root, tree, path, trail, ts, live)
      invariant fresh(live.Keys - all.Keys) && (cur.VBox? ==> cur.box in all || fresh(cur.box))
    {
      ghost var live';
      cur, doc, at, trail, ts, live' := StepDown(root, path, i, cur, doc, at, tree, trail, ts, live);
      live := live';
      i := i + 1;
    }
  }

  /**
   `_set_path`, in place. `tree` is what the document stands for, `tv` what the value does; a path that does
   not fit is written to containers that nothing refers to.
   */
  method SetPath(root: Box, path: Path, value: Value, ghost tree: Tree, ghost tv: Tree, ghost all: Trees,
                 ghost owned: Trees)
    returns (ghost all': Trees)
    requires path != [] && IsDocument(VBox(root), tree, [], all) && IsDocument(value, tv, path, owned)
    requires all.Keys !! owned.Keys
    modifies all.Keys
    ensures IsDocument(VBox(root), Set(tree, path, tv), [], all') && fresh(all'.Keys - all.Keys - owned.Keys)
  {
    var cur;
    ghost var doc, at, trail, ts, live;
    cur, doc, at, trail, ts, live := WalkDown(root, path, tree, all);
    all' := SetLast(root, path, |path| - 1, cur, value, doc, at, tree, tv, trail, ts, live, owned);
  }

  // ---- A value as the JSON reader builds it ----

  /** Two documents that stand apart, side by side. */
  lemma SideBySide(a: Trees, b: Trees)
    requires Sound(a) && Sound(b) && forall x, y :: x in a && y in b ==> x.place != y.place
    ensures Sound(a + b) && Within(a, a + b) && Within(b, a + b)
  {
    forall x | x in a ensures x !in b {
    }
    forall x | x in a + b ensures Shows(x, (a + b)[x], a + b) {
      if x in a {
        ShowsInMore(x, a[x], a, a + b);
      } else {
        ShowsInMore(x, b[x], b, a + b);
      }
    }
  }

  /** What has been read of a container so far: its values, each below its key. */
  ghost predicate IsRead(slots: map<Key, Value>, t: Tree, place: Path, all: Trees)
    reads all.Keys
  {
    && Sound(all)
    && (forall k :: k in slots ==> Slot(t, k).Some? && StandsFor(slots[k], Slot(t, k).value, place + [k], all))
    && (forall b :: b in all ==> exists k :: k in slots && place + [k] <= b.place)
  }

  lemma OneMoreRead(slots: map<Key, Value>, t: Tree, place: Path, all: Trees, k: Key, v: Value, more: Trees)
    requires IsRead(slots, t, place, all) && k !in slots && Slot(t, k).Some?
    requires IsDocument(v, Slot(t, k).value, place + [k], more)
    ensures IsRead(slots[k := v], t, place, all + more)
  {
    forall x, y | x in all && y in more ensures x.place != y.place {
      var l :| l in slots && place + [l] <= x.place;
      assert x.place[|place|] == l && y.place[|place|] == k;
    }
    SideBySide(all, more);
    forall b | b in all + more ensures exists l :: l in slots[k := v] && place + [l] <= b.place {
      if b in more {
        assert k in slots[k := v] && place + [k] <= b.place;
      } else {
        var l :| l in slots && place + [l] <= b.place;
        assert l in slots[k := v];
      }
    }
  }

  /** The container itself, once all of it is read. */
  lemma AllRead(slots: map<Key, Value>, t: Tree, place: Path, all: Trees, b: Box)
    requires IsRead(slots, t, place, all) && b.place == place && b !in all && (t.Arr? || t.Obj?) && t.Arr? == b.isList
    requires forall k: Key :: b.Slot(k) == if k in slots then Some(slots[k]) else None
    requires forall k: Key :: Slot(t, k).Some? ==> k in slots
    ensures IsDocument(VBox(b), t, place, all[b := t])
  {
    var all' := all[b := t];
    forall x | x in all ensures place < x.place && Shows(x, all'[x], all') {
      var k :| k in slots && place + [k] <= x.place;
      assert (place + [k])[..|place|] == place && x.place[..|place|] == place;
      ShowsInMore(x, all[x], all, all');
    }
    forall k: Key ensures SlotShows(b.Slot(k), t, k, place, all') {
    }
  }

  /** The values of a list, each under its index. */
  ghost predicate ByIndex(slots: map<Key, Value>, items: seq<Value>) {
    && (forall k: Key :: k in slots <==> k.Index? && k.i < |items|)
    && (forall k: Key :: k in slots ==> slots[k] == items[k.i])
  }

  lemma OneMoreIndex(slots: map<Key, Value>, items: seq<Value>, v: Value)
    requires ByIndex(slots, items)
    ensures ByIndex(slots[Index(|items|) := v], items + [v])
  {
  }

  /** The value a JSON text stands for, every container of it new. */
  method Load(t: Tree, ghost place: Path) returns (v: Value, ghost all: Trees)
    ensures IsDocument(v, t, place, all) && fresh(all.Keys)
    decreases t
  {
    match t
    case Null =>
      return VNull, map[];
    case Leaf(text) =>
      return VLeaf(text), map[];
    case Arr(items) =>
      v, all := LoadList(t, items, place);
    case Obj(fields) =>
      v, all := LoadObject(t, fields, place);
  }

  method LoadList(t: Tree, items: seq<Tree>, ghost place: Path) returns (v: Value, ghost all: Trees)
    requires t == Arr(items)
    ensures IsDocument(v, t, place, all) && fresh(all.Keys)
    decreases t, 0
  {
    var box := new Box(true, place);
    ghost var slots: map<Key, Value> := map[];
    all := map[];
    for i := 0 to |items|
      invariant fresh(all.Keys) && box !in all && IsRead(slots, t, place, all)
      invariant |box.items| == i && ByIndex(slots, box.items)
    {
      var next;
      ghost var more;
      next, more := Load(items[i], place + [Index(i)]);
      OneMoreRead(slots, t, place, all, Index(i), next, more);
      OneMoreIndex(slots, box.items, next);
      box.items := box.items + [next];
      slots, all := slots[Index(i) := next], all + more;
    }
    AllRead(slots, t, place, all, box);
    return VBox(box), all[box := t];
  }

  method LoadObject(t: Tree, fields: map<Key, Tree>, ghost place: Path) returns (v: Value, ghost all: Trees)
    requires t == Obj(fields)
    ensures IsDocument(v, t, place, all) && fresh(all.Keys)
    decreases t, 0
  {
    var box := new Box(false, place);
    all := map[];
    var rest := fields.Keys;
    while rest != {}
      invariant fresh(all.Keys) && box !in all && IsRead(box.fields, t, place, all)
      invariant rest <= fields.Keys && box.fields.Keys == fields.Keys - rest
      decreases rest
    {
      var key :| key in rest;
      var next;
      ghost var more;
      next, more := Load(fields[key], place + [key]);
      OneMoreRead(box.fields, t, place, all, key, next, more);
      box.fields := box.fields[key := next];
      all := all + more;
      rest := rest - {key};
    }
    AllRead(box.fields, t, place, all, box);
    return VBox(box), all[box := t];
  }

  // ---- `_apply_overrides` ----

  /** Every override in turn is read and set. */
  method ApplyOverrides(root: Box, ops: seq<Override>, ghost tree: Tree, ghost all: Trees) returns (ghost all': Trees)
    requires IsDocument(VBox(root), tree, [], all) && forall op :: op in ops ==> op.path != []
    modifies all.Keys
    ensures IsDocument(VBox(root), ApplyAll(tree, ops), [], all') && fresh(all'.Keys - all.Keys)
  {
    all' := all;
    ghost var now := tree;
    for i := 0 to |ops|
      invariant IsDocument(VBox(root), now, [], all') && fresh(all'.Keys - all.Keys)
      invariant ApplyAll(now, ops[i..]) == ApplyAll(tree, ops)
    {
      var op := ops[i];
      assert ops[i..][0] == op && ops[i..][1..] == ops[i + 1..];
      var value;
      ghost var owned;
      value, owned := Load(op.value, op.path);
      all' := SetPath(root, op.path, value, now, op.value, all', owned);
      now := Set(now, op.path, op.value);
    }
    assert ops[|ops|..] == [];
  }
}
