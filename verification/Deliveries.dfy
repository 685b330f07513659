/**
 For which destination lists `_upload` is safe. A put into the data dir is not atomic, so a second local
 destination writes over the copy the first one made; this module shows that this is the only danger.
 */
module Deliveries {
  import opened Wrappers
  import opened Sequences
  import opened SnapshotIds
  import opened SnapshotKeys
  import opened Ownership
  import opened Storage
  import opened Protocol
  import opened RunFrames
  import Retention

  // ---- The steps of a delivery ----

  /** The steps of one destination's turn that goes well: a file in the data dir is cut off first, then whole. */
  function Puts(place: Place, sid: string, ext: Extension): (r: seq<Step>)
    ensures |r| == if place == Local then 4 else 2
  {
    var archive, manifest := Key(sid, Archive(ext)), Key(sid, Manifest);
    if place == Local then [Put(Local, archive, true), Put(Local, archive, false), Put(Local, manifest, true),
                            Put(Local, manifest, false)]
    else [Put(place, archive, false), Put(place, manifest, false)]
  }

  function UpTo(steps: seq<Step>, n: nat): seq<Step> {
    if n < |steps| then steps[..n] else steps
  }

  /** The steps of `_upload`, if the turn of each destination ends after so many steps, well or not. */
  function DeliverySteps(places: seq<Place>, cuts: seq<nat>, sid: string, ext: Extension): seq<Step>
    requires |cuts| == |places|
    decreases |places|
  {
    if places == [] then []
    else UpTo(Puts(places[0], sid, ext), cuts[0]) + DeliverySteps(places[1..], cuts[1..], sid, ext)
  }

  function After(me: Actor, w: World, steps: seq<Step>): World
    decreases |steps|
  {
    if steps == [] then w else After(me, Apply(me, w, steps[0]), steps[1..])
  }

  /** The invariant holds all along, and no step takes a last copy. */
  ghost predicate SafeAlong(me: Actor, w: World, steps: seq<Step>)
    decreases |steps|
  {
    Inv(w) && (steps == [] || (NoLoss(w, Apply(me, w, steps[0])) && SafeAlong(me, Apply(me, w, steps[0]), steps[1..])))
  }

  lemma {:induction false} SafeInParts(me: Actor, w: World, a: seq<Step>, b: seq<Step>)
    ensures After(me, w, a + b) == After(me, After(me, w, a), b)
    ensures SafeAlong(me, w, a) && SafeAlong(me, After(me, w, a), b) ==> SafeAlong(me, w, a + b)
    ensures SafeAlong(me, w, a + b) ==> SafeAlong(me, After(me, w, a), b)
    decreases |a|
  {
    if a == [] {
      assert a + b == b;
    } else {
      HeadAndTail(a, b);
      SafeInParts(me, Apply(me, w, a[0]), a[1..], b);
    }
  }

  /** Any list of destinations, any job, any storage, a new snapshot, and every way the puts may end. */
  ghost predicate IsSafe(places: seq<Place>) {
    forall me, w, sid, cuts: seq<nat> :: IsNew(me, w, sid) && PutsTo(me, places) && |cuts| == |places| ==>
      SafeAlong(me, w, DeliverySteps(places, cuts, sid, w.made[sid].ext))
  }

  /** The S3 places are buckets of the job. */
  predicate PutsTo(me: Actor, places: seq<Place>) {
    forall place :: place in places && place != Local ==> place in me.buckets
  }

  ghost predicate IsNew(me: Actor, w: World, sid: string) {
    Inv(w) && Uploads(me, sid) && !Foreign(me, sid) && sid in w.building && NoFiles(w, sid)
  }

  // ---- One local destination at most ----

  predicate SameBuilt(w: World, w': World) {
    w'.made == w.made && w'.building == w.building
  }

  /** Where a delivery stands that has no local destination before it, or none to come. */
  ghost predicate Delivering(me: Actor, w: World, places: seq<Place>, sid: string) {
    && Inv(w) && Uploads(me, sid) && !Foreign(me, sid) && sid in w.building && MarkedFor(w, sid) == None
    && PutsTo(me, places) && LocalOnce(places) && (Local in places ==> ManifestAt(Local, sid) !in w.store)
  }

  lemma OneStep(me: Actor, w: World, step: Step)
    requires Inv(w) && Inv(Apply(me, w, step)) && NoLoss(w, Apply(me, w, step))
    ensures SafeAlong(me, w, [step]) && After(me, w, [step]) == Apply(me, w, step)
  {
    assert [step][1..] == [];
  }

  lemma TwoSteps(me: Actor, w: World, x: Step, y: Step)
    requires Inv(w) && Inv(Apply(me, w, x)) && NoLoss(w, Apply(me, w, x))
    requires Inv(Apply(me, Apply(me, w, x), y)) && NoLoss(Apply(me, w, x), Apply(me, Apply(me, w, x), y))
    ensures SafeAlong(me, w, [x, y]) && After(me, w, [x, y]) == Apply(me, Apply(me, w, x), y)
  {
    OneStep(me, w, x);
    OneStep(me, Apply(me, w, x), y);
    SafeInParts(me, w, [x], [y]);
    assert [x] + [y] == [x, y];
  }

  /** Files of the snapshot come and go, its marker does not come. */
  lemma StillUnmarked(w: World, w': World, sid: string, loc: Loc, content: Content)
    requires w'.store == w.store[loc := content] && loc.key.kind != Marker
    ensures MarkedFor(w', sid) == MarkedFor(w, sid)
  {
  }

  lemma S3PutsAreSafe(me: Actor, w: World, place: Place, sid: string, n: nat)
    requires Inv(w) && Uploads(me, sid) && !Foreign(me, sid) && sid in w.building && MarkedFor(w, sid) == None
    requires place != Local && place in me.buckets
    ensures var steps, w' := UpTo(Puts(place, sid, w.made[sid].ext), n), After(me, w,
      UpTo(Puts(place, sid, w.made[sid].ext), n));
      SafeAlong(me, w, steps) && SameBuilt(w, w') && MarkedFor(w', sid) == None
      && (ManifestAt(Local, sid) in w'.store <==> ManifestAt(Local, sid) in w.store)
  {
    var x, y := Put(place, Key(sid, Archive(w.made[sid].ext)), false), Put(place, Key(sid, Manifest), false);
    StepSafe(me, w, x);
    var w1 := Apply(me, w, x);
    StepSafe(me, w1, y);
    OneStep(me, w, x);
    TwoSteps(me, w, x, y);
    assert UpTo([x, y], n) == if n == 0 then [] else if n == 1 then [x] else [x, y];
  }

  /** A file cut off in the data dir, then written, where the snapshot is not whole: both steps are allowed. */
  lemma LocalPutIsSafe(me: Actor, w: World, key: Key)
    requires Inv(w) && Uploads(me, key.sid) && !Foreign(me, key.sid) && key.sid in w.made
    requires MarkedFor(w, key.sid) == None
    requires (key.kind == Manifest || key.kind == Archive(w.made[key.sid].ext)) && !Intact(w, Local, key.sid)
    ensures var w1 := Apply(me, w, Put(Local, key, true)); var w2 := Apply(me, w1, Put(Local, key, false));
      && Inv(w1) && NoLoss(w, w1) && Inv(w2) && NoLoss(w1, w2)
      && w2.store == w.store[At(Local, key) := TrueContent(w, key)]
  {
    StepSafe(me, w, Put(Local, key, true));
    var w1 := Apply(me, w, Put(Local, key, true));
    StillUnmarked(w, w1, key.sid, At(Local, key), Torn);
    TornIsNotIntact(w1, key);
    StepSafe(me, w1, Put(Local, key, false));
  }

  lemma FourOrLess(a: Step, b: Step, c: Step, d: Step, n: nat)
    ensures UpTo([a, b, c, d], n) ==
      if n == 0 then [] else if n == 1 then [a] else if n == 2 then [a, b] else [a, b] + if n == 3 then [c] else [c, d]
  {
  }

  /** What the four local puts leave, up to any of them. */
  lemma LocalPutsAreSafe(me: Actor, w: World, sid: string, n: nat)
    requires Inv(w) && Uploads(me, sid) && !Foreign(me, sid) && sid in w.made && MarkedFor(w, sid) == None
    requires ManifestAt(Local, sid) !in w.store
    ensures var steps, w' := UpTo(Puts(Local, sid, w.made[sid].ext), n), After(me, w,
      UpTo(Puts(Local, sid, w.made[sid].ext), n));
      SafeAlong(me, w, steps) && SameBuilt(w, w') && MarkedFor(w', sid) == None
  {
    var archive, manifest := Key(sid, Archive(w.made[sid].ext)), Key(sid, Manifest);
    var a, b, c, d := Put(Local, archive, true), Put(Local, archive, false), Put(Local, manifest, true), Put(Local,
      manifest, false);
    OneFile(me, w, archive);
    var w2 := After(me, w, [a, b]);
    OneFile(me, w2, manifest);
    SafeInParts(me, w, [a, b], [c]);
    SafeInParts(me, w, [a, b], [c, d]);
    FourOrLess(a, b, c, d, n);
  }

  /** One file's two steps, and the first alone. */
  lemma OneFile(me: Actor, w: World, key: Key)
    requires Inv(w) && Uploads(me, key.sid) && !Foreign(me, key.sid) && key.sid in w.made
    requires MarkedFor(w, key.sid) == None
    requires (key.kind == Manifest || key.kind == Archive(w.made[key.sid].ext)) && !Intact(w, Local, key.sid)
    ensures var a, b := Put(Local, key, true), Put(Local, key, false);
      && SafeAlong(me, w, []) && SafeAlong(me, w, [a]) && SafeAlong(me, w, [a, b])
      && SameBuilt(w, After(me, w, [a])) && MarkedFor(After(me, w, [a]), key.sid) == None
      && After(me, w, [a, b]) == w.(store := w.store[At(Local, key) := TrueContent(w, key)])
      && MarkedFor(After(me, w, [a, b]), key.sid) == None && Inv(After(me, w, [a, b]))
  {
    var a, b := Put(Local, key, true), Put(Local, key, false);
    LocalPutIsSafe(me, w, key);
    OneStep(me, w, a);
    TwoSteps(me, w, a, b);
    StillUnmarked(w, Apply(me, w, a), key.sid, At(Local, key), Torn);
    StillUnmarked(w, After(me, w, [a, b]), key.sid, At(Local, key), TrueContent(w, key));
  }

  lemma {:induction false} DeliveryIsSafe(me: Actor, w: World, places: seq<Place>, cuts: seq<nat>, sid: string)
    requires Delivering(me, w, places, sid) && |cuts| == |places|
    ensures SafeAlong(me, w, DeliverySteps(places, cuts, sid, w.made[sid].ext))
    decreases |places|
  {
    if places != [] {
      var steps, ext := UpTo(Puts(places[0], sid, w.made[sid].ext), cuts[0]), w.made[sid].ext;
      if places[0] == Local {
        LocalPutsAreSafe(me, w, sid, cuts[0]);
      } else {
        S3PutsAreSafe(me, w, places[0], sid, cuts[0]);
      }
      var w' := After(me, w, steps);
      LaterOnes(places);
      SafeInParts(me, w, steps, []);
      assert steps + [] == steps;
      DeliveryIsSafe(me, w', places[1..], cuts[1..], sid);
      SafeInParts(me, w, steps, DeliverySteps(places[1..], cuts[1..], sid, ext));
    }
  }

  lemma LaterOnes(places: seq<Place>)
    requires LocalOnce(places) && places != []
    ensures LocalOnce(places[1..]) && (places[0] == Local ==> Local !in places[1..])
    ensures Local in places[1..] ==> Local in places
  {
    forall k | 0 <= k < |places[1..]| ensures places[0] == Local ==> places[1..][k] != Local {
      assert places[1..][k] == places[k + 1];
    }
  }

  // ---- Two local destinations ----

  /** Turns that end before their first step. */
  lemma {:induction false} NoSteps(places: seq<Place>, cuts: seq<nat>, sid: string, ext: Extension)
    requires |cuts| == |places| && forall k :: 0 <= k < |cuts| ==> cuts[k] == 0
    ensures DeliverySteps(places, cuts, sid, ext) == []
    decreases |places|
  {
    if places != [] {
      NoSteps(places[1..], cuts[1..], sid, ext);
    }
  }

  lemma {:induction false} OneTurn(places: seq<Place>, cuts: seq<nat>, sid: string, ext: Extension, i: nat)
    requires |cuts| == |places| && i < |places| && forall k :: 0 <= k < |cuts| && k != i ==> cuts[k] == 0
    ensures DeliverySteps(places, cuts, sid, ext) == UpTo(Puts(places[i], sid, ext), cuts[i])
    decreases |places|
  {
    if i == 0 {
      NoSteps(places[1..], cuts[1..], sid, ext);
    } else {
      OneTurn(places[1..], cuts[1..], sid, ext, i - 1);
    }
  }

  lemma {:induction false} TwoTurns(places: seq<Place>, cuts: seq<nat>, sid: string, ext: Extension, i: nat, j: nat)
    requires |cuts| == |places| && i < j < |places| && forall k :: 0 <= k < |cuts| && k != i && k != j ==> cuts[k] == 0
    ensures DeliverySteps(places, cuts, sid, ext)
      == UpTo(Puts(places[i], sid, ext), cuts[i]) + UpTo(Puts(places[j], sid, ext), cuts[j])
    decreases |places|
  {
    if i == 0 {
      OneTurn(places[1..], cuts[1..], sid, ext, j - 1);
    } else {
      TwoTurns(places[1..], cuts[1..], sid, ext, i - 1, j - 1);
    }
  }

  /**
   Where nothing is stored yet: the first local destination stores the snapshot, the second is cut off over it,
   and no copy is left.
   */
  lemma SecondLocalLoses(me: Actor, w: World, sid: string)
    requires IsNew(me, w, sid) && w.pruned == {}
    ensures var first := Puts(Local, sid, w.made[sid].ext);
      && Intact(After(me, w, first), Local, sid) && !Somewhere(After(me, w, first + first[..1]), sid)
      && !SafeAlong(me, w, first + first[..1])
  {
    var archive, manifest := Key(sid, Archive(w.made[sid].ext)), Key(sid, Manifest);
    var first := Puts(Local, sid, w.made[sid].ext);
    FourPuts(me, w, sid);
    var w4 := After(me, w, first);
    TornBreaksCopy(me, w4, archive);
    SafeInParts(me, w, first, first[..1]);
    var torn := Put(Local, archive, true);
    assert first[..1] == [torn] && [torn][1..] == [];
    assert After(me, w4, [torn]) == Apply(me, w4, torn);
    NowhereElse(w4, sid);
    assert Somewhere(w4, sid) && !Somewhere(Apply(me, w4, torn), sid);
    assert !WasPruned(Apply(me, w4, torn), sid);
    assert !NoLoss(w4, Apply(me, w4, torn));
  }

  lemma FourPuts(me: Actor, w: World, sid: string)
    requires IsNew(me, w, sid)
    ensures var w4 := After(me, w, Puts(Local, sid, w.made[sid].ext));
      && Inv(w4) && Intact(w4, Local, sid) && w4.made == w.made && w4.pruned == w.pruned
      && forall loc: Loc :: loc.key.sid == sid && loc.place != Local ==> loc !in w4.store
  {
    var archive, manifest := Key(sid, Archive(w.made[sid].ext)), Key(sid, Manifest);
    var a, b, c, d := Put(Local, archive, true), Put(Local, archive, false), Put(Local, manifest, true), Put(Local,
      manifest, false);
    NothingThere(w, sid);
    OneFile(me, w, archive);
    OneFile(me, After(me, w, [a, b]), manifest);
    SafeInParts(me, w, [a, b], [c, d]);
    assert [a, b] + [c, d] == [a, b, c, d];
    OnlyLocal(w, After(me, w, [a, b, c, d]), sid, At(Local, archive), TrueContent(w, archive), At(Local, manifest),
              TrueContent(w, manifest));
  }

  lemma NothingThere(w: World, sid: string)
    requires NoFiles(w, sid)
    ensures MarkedFor(w, sid) == None && ManifestAt(Local, sid) !in w.store && !Intact(w, Local, sid)
  {
  }

  lemma OnlyLocal(w: World, w': World, sid: string, x: Loc, content: Content, y: Loc, content': Content)
    requires NoFiles(w, sid) && w'.store == w.store[x := content][y := content'] && x.place == Local && y.place == Local
    ensures forall loc: Loc :: loc.key.sid == sid && loc.place != Local ==> loc !in w'.store
  {
  }

  lemma NowhereElse(w: World, sid: string)
    requires forall loc: Loc :: loc.key.sid == sid && loc.place != Local ==> loc !in w.store
    ensures !Offsite(w, sid)
  {
    forall place | place != Local ensures !Intact(w, place, sid) {
      assert ManifestAt(place, sid) !in w.store;
    }
  }

  const EMPTY := World(map[], map["x" := Artifact(Plain, 0)], {}, {"x"}, {}, {})

  const KEEP_ALL := Retention.Config(0, 0, Retention.Tiers(0, 0, 0), true)

  /** A job at work alone that puts to these places. */
  function Somebody(places: seq<Place>): Actor {
    Actor(Scope("x", false, None), true, (set place | place in places), KEEP_ALL, map[])
  }

  lemma EmptyIsNew(places: seq<Place>)
    ensures IsNew(Somebody(places), EMPTY, "x") && PutsTo(Somebody(places), places)
  {
    assert SlugOf("x") == None;
  }

  /**
   A delivery keeps the invariant and takes no last copy, whatever fails and wherever it stops, exactly if the
   data dir is among its destinations at most once.
   */
  lemma DeliverySafeExactly(places: seq<Place>)
    ensures IsSafe(places) <==> LocalOnce(places)
  {
    if LocalOnce(places) {
      forall me, w, sid, cuts: seq<nat> | IsNew(me, w, sid) && PutsTo(me, places) && |cuts| == |places|
        ensures SafeAlong(me, w, DeliverySteps(places, cuts, sid, w.made[sid].ext))
      {
        DeliveryIsSafe(me, w, places, cuts, sid);
      }
    } else {
      var i, j :| 0 <= i < j < |places| && places[i] == Local && places[j] == Local;
      var cuts: seq<nat> := seq(|places|, k => if k == i then 4 else if k == j then 1 else 0);
      EmptyIsNew(places);
      TwoTurns(places, cuts, "x", Plain, i, j);
      SecondLocalLoses(Somebody(places), EMPTY, "x");
    }
  }

  // ---- The destinations of a job ----

  /** Every destination of the specs, all of them reachable. */
  function PlacesOf(specs: seq<Spec>): seq<Place> {
    if specs == [] then []
    else
      (if specs[0] == LocalSpec then [Local] else if HasBucket(specs[0]) then [S3PlaceOf(specs[0])] else [])
      + PlacesOf(specs[1..])
  }

  lemma {:induction false} LocalAmong(specs: seq<Spec>)
    ensures Local in PlacesOf(specs) <==> LocalSpec in specs
  {
    if specs != [] {
      LocalAmong(specs[1..]);
      assert specs == [specs[0]] + specs[1..];
    }
  }

  lemma ConsOnce(place: Place, places: seq<Place>)
    ensures LocalOnce([place] + places) <==> LocalOnce(places) && (place == Local ==> Local !in places)
  {
    var all := [place] + places;
    if LocalOnce(all) {
      LaterOnes(all);
      assert all[1..] == places;
    }
  }

  lemma ConsSpecOnce(spec: Spec, specs: seq<Spec>)
    ensures LocalSpecOnce([spec] + specs) <==> LocalSpecOnce(specs) && (spec == LocalSpec ==> LocalSpec !in specs)
  {
    var all := [spec] + specs;
    if LocalSpecOnce(all) {
      forall i, j | 0 <= i < j < |specs| ensures !(specs[i] == LocalSpec && specs[j] == LocalSpec) {
        assert all[i + 1] == specs[i] && all[j + 1] == specs[j];
      }
      forall k | 0 <= k < |specs| ensures spec == LocalSpec ==> specs[k] != LocalSpec {
        assert all[k + 1] == specs[k] && all[0] == spec;
      }
    }
  }

  lemma {:induction false} LocalOnceBySpecs(specs: seq<Spec>)
    ensures LocalOnce(PlacesOf(specs)) <==> LocalSpecOnce(specs)
  {
    if specs != [] {
      LocalOnceBySpecs(specs[1..]);
      LocalAmong(specs[1..]);
      assert specs == [specs[0]] + specs[1..];
      ConsSpecOnce(specs[0], specs[1..]);
      if specs[0] == LocalSpec {
        ConsOnce(Local, PlacesOf(specs[1..]));
      } else if HasBucket(specs[0]) {
        ConsOnce(S3PlaceOf(specs[0]), PlacesOf(specs[1..]));
      } else {
        assert PlacesOf(specs) == PlacesOf(specs[1..]);
      }
    }
  }

  /** So a run of the job delivers safely exactly if its config has at most one local destination. */
  lemma JobDeliversSafelyExactly(job: Job)
    ensures IsSafe(PlacesOf(job.specs)) <==> LocalSpecOnce(job.specs)
  {
    LocalOnceBySpecs(job.specs);
    DeliverySafeExactly(PlacesOf(job.specs));
  }

  /** The config accepts two local destinations: with the second put cut off, the snapshot is gone. */
  lemma TwoLocalDestinations(job: Job)
    requires job.specs == [LocalSpec, LocalSpec]
    ensures PlacesOf(job.specs) == [Local, Local] && !IsSafe([Local, Local])
    ensures var me, steps := Somebody([Local, Local]), DeliverySteps([Local, Local], [4, 1], "x", Plain);
      && Intact(After(me, EMPTY, steps[..4]), Local, "x") && !Somewhere(After(me, EMPTY, steps), "x")
  {
    BothLocal(job.specs);
    TwoLocalsLose();
    DeliverySafeExactly([Local, Local]);
    assert [Local, Local][0] == Local && [Local, Local][1] == Local;
  }

  lemma BothLocal(specs: seq<Spec>)
    requires specs == [LocalSpec, LocalSpec]
    ensures PlacesOf(specs) == [Local, Local]
  {
    assert specs[1..] == [LocalSpec] && [LocalSpec][1..] == [];
    assert PlacesOf([LocalSpec]) == [Local] + [] == [Local];
  }

  lemma TwoLocalsLose()
    ensures var me, steps := Somebody([Local, Local]), DeliverySteps([Local, Local], [4, 1], "x", Plain);
      && Intact(After(me, EMPTY, steps[..4]), Local, "x") && !Somewhere(After(me, EMPTY, steps), "x")
  {
    EmptyIsNew([Local, Local]);
    TwoTurns([Local, Local], [4, 1], "x", Plain, 0, 1);
    SecondLocalLoses(Somebody([Local, Local]), EMPTY, "x");
    var first := Puts(Local, "x", Plain);
    assert DeliverySteps([Local, Local], [4, 1], "x", Plain) == first + first[..1];
    assert (first + first[..1])[..4] == first;
  }
}
