/**
 One run of a job against the shared storage: deliver, track off-site, prune, drop the local copy.
 Between any two of its storage operations other jobs may change the storage (`others`); any
 operation may fail. Every own change is logged as a step of the protocol.
 */
module Runner {
  import opened Wrappers
  import opened Sequences
  import opened SnapshotIds
  import opened SnapshotKeys
  import opened Ownership
  import opened Storage
  import opened Choices
  import opened Protocol
  import opened Interleaving
  import opened RunLog
  import opened RunFrames
  import opened Retention
  import opened Texts
  import RetentionLaws
  import Order
  import Calendar

  /** How bringing a snapshot back into the data dir ended. */
  datatype Hydration = AlreadyThere | Hydrated | NowhereFound | HydrationFailed

  /** What listing one S3 place for a snapshot gave. */
  datatype Look = Unlistable | Missing | Listed(ext: Extension)

  predicate SameHistory(w: World, w': World) {
    w'.made == w.made && w'.building == w.building && w'.pruned == w.pruned && w'.chosen == w.chosen
  }

  method SnapshotsOf(sids: set<string>, now: Calendar.DateTime) returns (snaps: seq<Snapshot>)
    ensures AreSnapshots(snaps, sids, now)
  {
    snaps := [];
    var rest := sids;
    while rest != {}
      invariant rest <= sids && AreSnapshots(snaps, sids - rest, now)
      decreases rest
    {
      var sid :| sid in rest;
      OneMoreSnapshot(snaps, sids - rest, sid, now);
      snaps := snaps + [Snapshot(sid, RetentionLaws.SnapshotTime(sid, now))];
      rest := rest - {sid};
      assert sids - rest == sids - (rest + {sid}) + {sid};
    }
    assert sids - rest == sids;
  }

  predicate TextAfter(k: Key, l: Key) {
    Order.Less(Text(l), Text(k))
  }

  lemma TextAfterIsStrict()
    ensures Order.StrictOrder(TextAfter)
  {
    forall k { Order.LessIrreflexive(Text(k)); }
    forall k, l, m | TextAfter(k, l) && TextAfter(l, m) ensures TextAfter(k, m) {
      Order.LessTransitive(Text(m), Text(l), Text(k));
    }
  }

  lemma SortedByText(keys: seq<Key>, i: nat, j: nat)
    requires Order.Distinct(keys) && Order.IsDescending(keys, TextAfter) && i < j < |keys|
    ensures Order.Less(Text(keys[i]), Text(keys[j]))
  {
    Order.LessTotal(Text(keys[i]), Text(keys[j]));
    if Text(keys[i]) == Text(keys[j]) {
      TextInjective(keys[i], keys[j]);
    }
  }

  /** `sorted(...)` of the keys, as texts. */
  method KeysSorted(found: set<Key>) returns (keys: seq<Key>)
    ensures forall key :: key in keys <==> key in found
    ensures forall i, j :: 0 <= i < j < |keys| ==> Order.Less(Text(keys[i]), Text(keys[j]))
  {
    var all := [];
    var rest := found;
    while rest != {}
      invariant rest <= found && Order.Distinct(all) && forall key :: key in all <==> key in found - rest
      decreases rest
    {
      var key :| key in rest;
      assert key !in all;
      all, rest := all + [key], rest - {key};
    }
    keys := Order.Descending(all, TextAfter);
    TextAfterIsStrict();
    Order.DescendingIsDescending(all, TextAfter);
    Order.DistinctByMultiset(all, keys);
    forall key ensures key in keys <==> key in found {
      Order.SameElements(all, keys, key);
    }
    forall i, j | 0 <= i < j < |keys| ensures Order.Less(Text(keys[i]), Text(keys[j])) {
      SortedByText(keys, i, j);
    }
  }

  class Run {
    const job: Job
    const scope: Scope
    const now: Calendar.DateTime
    /** What the other jobs do to the storage at each turn they get. */
    const others: (nat, World) -> World
    const me: Actor
    ghost const start: World

    /** The shared storage. */
    var world: World
    var turn: nat
    ghost var log: seq<Event>
    /** How many operations have failed. */
    ghost var faults: nat
    /** How many of them the run does not catch: they end it. */
    ghost var crashes: nat

    /** The other jobs behave; alone, they do nothing. */
    ghost predicate OthersBehave() {
      forall n, w :: Inv(w) ==> Inv(others(n, w)) && Rely(me, w, others(n, w))
    }

    ghost predicate Valid()
      reads this`world, this`log
    {
      && me.scope == scope && scope.job == job.name && me.buckets == BucketsOf(job) && me.policy == job.retention
      && OthersBehave() && Inv(world) && Logged(me, start, log, world)
    }

    constructor (job: Job, scope: Scope, now: Calendar.DateTime, alone: bool, peers: map<string, set<Place>>,
                 others: (nat, World) -> World, world: World)
      requires scope.job == job.name && Inv(world)
      requires forall n, w :: Inv(w) ==>
        Inv(others(n, w)) && Rely(Actor(scope, alone, BucketsOf(job), job.retention, peers), w, others(n, w))
      ensures Valid() && this.world == start == world && log == []
      ensures this.job == job && this.scope == scope && this.now == now
      ensures me == Actor(scope, alone, BucketsOf(job), job.retention, peers)
    {
      this.job, this.scope, this.now, this.others, this.world := job, scope, now, others, world;
      this.me := Actor(scope, alone, BucketsOf(job), job.retention, peers);
      this.start, this.turn, this.log, this.faults, this.crashes := world, 0, [], 0, 0;
      new;
      RelyReflexive(me, world);
    }

    // ---- Storage operations ----

    /** The other jobs get a turn. */
    method Yield()
      requires Valid()
      modifies this`world, this`turn
      ensures Valid() && Rely(me, old(world), world) && Progress(me, old(world), world, iset{})
      ensures NothingNew(me, old(world), world)
    {
      RelyLeavesOwn(me, world, others(turn, world));
      RelyNothingNew(me, world, others(turn, world));
      LogInterference(me, start, log, world, others(turn, world));
      world := others(turn, world);
      turn := turn + 1;
    }

    /** Log the step that led here. */
    ghost method Took(before: World, step: Step)
      requires me.scope == scope && scope.job == job.name && me.buckets == BucketsOf(job) && me.policy == job.retention
      requires OthersBehave()
      requires Inv(before) && Logged(me, start, log, before) && Allowed(me, before, step)
      requires world == Apply(me, before, step)
      modifies this`log
      ensures Valid() && log == old(log) + [Event(before, step)] && Onward(before, world)
      ensures FewerRivals(me, before, world)
    {
      StepOnward(me, before, step);
      StepFewerRivals(me, before, step);
      LogStep(me, start, log, before, step);
      log := log + [Event(before, step)];
    }

    /** An operation fails. */
    ghost method Fail()
      modifies this`faults
      ensures faults == old(faults) + 1
    {
      faults := faults + 1;
    }

    /** An operation fails whose failure ends the run. */
    ghost method Crash()
      modifies this`faults, this`crashes
      ensures faults == old(faults) + 1 && crashes == old(crashes) + 1
    {
      faults, crashes := faults + 1, crashes + 1;
    }

    /** One file appears, or is overwritten. */
    method Write(place: Place, key: Key, content: Content)
      requires Valid() && key.kind != Marker && key.sid in world.made
      requires content == Torn || content == TrueContent(world, key)
      requires Allowed(me, world, Step.Put(place, key, content == Torn))
      modifies this`world, this`log
      ensures Valid() && old(log) <= log && SameHistory(old(world), world)
      ensures Progress(me, old(world), world, iset{At(place, key)})
      ensures At(place, key) in world.store && world.store[At(place, key)] == content
      ensures Races(me, place, key.sid) ==> Race(place, key.sid) in world.raced
    {
      ghost var step := Step.Put(place, key, content == Torn);
      world := world.(store := world.store[At(place, key) := content],
                      raced := if Races(me, place, key.sid) then world.raced + {Race(place, key.sid)} else world.raced);
      Took(old(world), step);
      PutOnlyKey(me, old(world), At(place, key), content == Torn);
    }

    /** `LocalDestination.put`: not atomic, so a stop or failure can leave the file cut off. */
    method PutLocal(key: Key, content: Content) returns (ok: bool)
      requires Valid() && Uploads(me, key.sid) && !Foreign(me, key.sid) && key.sid in world.made
      requires key.kind == Manifest || key.kind == Archive(world.made[key.sid].ext)
      requires content == TrueContent(world, key)
      requires MarkedFor(world, key.sid) == None && (!Intact(world, Local, key.sid) || Offsite(world, key.sid))
      modifies this`world, this`turn, this`log, this`faults
      ensures Valid() && old(log) <= log && Progress(me, old(world), world, iset{At(Local, key)})
      ensures ok ==> At(Local, key) in world.store && world.store[At(Local, key)] == content
      ensures faults >= old(faults) && (!ok ==> faults > old(faults))
    {
      var loc := At(Local, key);
      Yield();
      OwnUnchangedKeeps(me, old(world), world, key.sid);
      ghost var w1 := world;
      ProgressWider(me, old(world), w1, iset{}, iset{loc});
      if * {
        Fail();
        return false;
      }
      Write(Local, key, Torn);
      ghost var w2 := world;
      TornIsNotIntact(w2, key);
      ProgressOver(me, old(world), w1, w2, iset{}, iset{loc}, iset{loc});
      if * {
        Fail();
        return false;
      }
      Write(Local, key, content);
      ProgressOver(me, old(world), w2, world, iset{loc}, iset{loc}, iset{loc});
      return true;
    }

    /** `S3Destination.put`: all or nothing, but it may fail after it took effect. */
    method PutS3(place: Place, key: Key, content: Content) returns (ok: bool)
      requires Valid() && Handles(me, world, key.sid) && key.sid in world.made && place != Local && place in me.buckets
      requires key.kind == Manifest || key.kind == Archive(world.made[key.sid].ext)
      requires content == TrueContent(world, key) && AtHand(me, world, key.sid)
      requires key.kind == Manifest ==> ArchiveReady(me, world, place, key.sid) && Underway(place, key.sid)
      modifies this`world, this`turn, this`log, this`faults
      ensures Valid() && old(log) <= log && Progress(me, old(world), world, iset{At(place, key)})
      ensures ok ==> At(place, key) in world.store && world.store[At(place, key)] == content && Underway(place, key.sid)
      ensures Uploads(me, key.sid) && At(place, key) in old(world).store ==> At(place, key) in world.store
      ensures faults >= old(faults) && (!ok ==> faults > old(faults))
    {
      var loc := At(place, key);
      YieldToPut(place, key);
      ghost var w1 := world;
      ok := PutNow(place, key, content);
      ProgressOver(me, old(world), w1, world, iset{}, iset{loc}, iset{loc});
    }

    /** After the other jobs' turn the put may still go ahead. */
    method YieldToPut(place: Place, key: Key)
      requires Valid() && Handles(me, world, key.sid) && key.sid in world.made && place != Local && place in me.buckets
      requires key.kind == Manifest || key.kind == Archive(world.made[key.sid].ext)
      requires AtHand(me, world, key.sid)
      requires key.kind == Manifest ==> ArchiveReady(me, world, place, key.sid) && Underway(place, key.sid)
      modifies this`world, this`turn
      ensures Valid() && Progress(me, old(world), world, iset{}) && Allowed(me, world, Step.Put(place, key, false))
      ensures key.sid in world.made && world.made[key.sid] == old(world).made[key.sid]
      ensures Uploads(me, key.sid) ==> SameAt(old(world), world, At(place, key))
    {
      Yield();
      StillReady(old(world), place, key);
    }

    /** The call takes effect or not, and may fail either way. */
    method PutNow(place: Place, key: Key, content: Content) returns (ok: bool)
      requires Valid() && place != Local && key.kind != Marker && key.sid in world.made
      requires content == TrueContent(world, key)
      requires Allowed(me, world, Step.Put(place, key, false))
      modifies this`world, this`log, this`faults
      ensures Valid() && old(log) <= log && Progress(me, old(world), world, iset{At(place, key)})
      ensures ok ==> At(place, key) in world.store && world.store[At(place, key)] == content && Underway(place, key.sid)
      ensures At(place, key) in old(world).store ==> At(place, key) in world.store
      ensures faults >= old(faults) && (!ok ==> faults > old(faults))
    {
      NoProgress(me, world, iset{At(place, key)});
      if * {
        Fail();
        return false;
      }
      Write(place, key, content);
      ok := true;
      if * {
        Fail();
        ok := false;
      }
    }

    /** Where a put of a plain snapshot is a race, it is on. */
    ghost predicate Underway(place: Place, sid: string)
      reads this`world
    {
      Races(me, place, sid) ==> Race(place, sid) in world.raced
    }

    /** After others had their turn, the put may still go ahead. */
    lemma StillReady(w: World, place: Place, key: Key)
      requires Valid() && Rely(me, w, world) && Progress(me, w, world, iset{}) && Inv(w) && Handles(me, w, key.sid)
      requires key.sid in w.made && place != Local && AtHand(me, w, key.sid)
      requires key.kind == Manifest ==>
        ArchiveReady(me, w, place, key.sid) && (Races(me, place, key.sid) ==> Race(place, key.sid) in w.raced)
      ensures Handles(me, world, key.sid) && key.sid in world.made && world.made[key.sid] == w.made[key.sid]
      ensures AtHand(me, world, key.sid)
      ensures key.kind == Manifest ==> ArchiveReady(me, world, place, key.sid)
      ensures Uploads(me, key.sid) ==> SameAt(w, world, At(place, key))
      ensures place in me.buckets && (key.kind == Manifest || key.kind == Archive(w.made[key.sid].ext)) ==>
        Allowed(me, world, Step.Put(place, key, false))
    {
      MarkStays(me, w, world, key.sid, iset{});
      LocalKeyStays(me, w, world, key.sid, Manifest, iset{});
      LocalKeyStays(me, w, world, key.sid, Archive(w.made[key.sid].ext), iset{});
      if key.kind == Manifest {
        ArchiveStaysReady(me, w, world, place, key.sid);
      }
    }

    /** A file of snapshot `sid`: from the work dir of the run that built it, or from the data dir. */
    method Read(key: Key, fromDataDir: bool) returns (content: Content)
      requires Valid() && key.sid in world.made
      requires key.kind == Manifest || key.kind == Archive(world.made[key.sid].ext)
      requires fromDataDir ==> MarkedFor(world, key.sid).Some? && At(Local, key) in world.store
      ensures content == TrueContent(world, key)
    {
      if !fromDataDir {
        return TrueContent(world, key);
      }
      assert ContentFits(world, At(Local, key), world.store[At(Local, key)]);
      return world.store[At(Local, key)];
    }

    /** Read one file of the snapshot and put it. */
    method PutFile(place: Place, key: Key, fromDataDir: bool) returns (ok: bool)
      requires Valid() && Handles(me, world, key.sid) && key.sid in world.made
      requires (place != Local ==> place in me.buckets)
      requires key.kind == Manifest || key.kind == Archive(world.made[key.sid].ext)
      requires place == Local ==>
        Uploads(me, key.sid) && MarkedFor(world, key.sid) == None && ManifestAt(Local, key.sid) !in world.store
      requires place != Local && key.kind == Manifest ==>
        ArchiveReady(me, world, place, key.sid) && Underway(place, key.sid)
      requires fromDataDir ==> MarkedFor(world, key.sid).Some? && At(Local, key) in world.store
      requires AtHand(me, world, key.sid)
      modifies this`world, this`turn, this`log, this`faults
      ensures Valid() && old(log) <= log && Progress(me, old(world), world, iset{At(place, key)})
      ensures ok ==> Holds(world, At(place, key)) && Underway(place, key.sid)
      ensures Uploads(me, key.sid) && place != Local && At(place, key) in old(world).store ==>
        At(place, key) in world.store
      ensures faults >= old(faults) && (!ok ==> faults > old(faults))
    {
      var content := Read(key, fromDataDir);
      if place == Local {
        ok := PutLocal(key, content);
      } else {
        ok := PutS3(place, key, content);
      }
    }

    /** One destination's turn in `_upload`: the archive, then the sidecar. */
    method UploadTo(place: Place, sid: string, ext: Extension, fromDataDir: bool) returns (ok: bool)
      requires Valid() && Handles(me, world, sid) && sid in world.made && ext == world.made[sid].ext
      requires place != Local ==> place in me.buckets
      requires place == Local ==>
        Uploads(me, sid) && MarkedFor(world, sid) == None && ManifestAt(Local, sid) !in world.store
      requires fromDataDir ==> place != Local && MarkedFor(world, sid) == Some(job.name) && HasBoth(world, sid, ext)
      requires !fromDataDir ==> Uploads(me, sid) && sid in world.building
      modifies this`world, this`turn, this`log, this`faults
      ensures Valid() && old(log) <= log && Progress(me, old(world), world, Files(sid, [place]))
      ensures ok ==> Reached(me, world, place, sid)
      ensures Reached(me, old(world), place, sid) ==> Reached(me, world, place, sid)
      ensures faults >= old(faults) && (!ok ==> faults > old(faults))
    {
      var archive, manifest := Key(sid, Archive(ext)), Key(sid, Manifest);
      ok := PutFile(place, archive, fromDataDir);
      ghost var w1 := world;
      FirstFilePut(me, old(world), w1, place, sid, ext);
      if !ok {
        return false;
      }
      StillHandles(old(world), place, sid, ext, fromDataDir);
      ok := PutFile(place, manifest, fromDataDir);
      SecondFilePut(me, old(world), w1, world, place, sid, ext);
    }

    /** After the archive, the manifest may follow. */
    lemma StillHandles(w: World, place: Place, sid: string, ext: Extension, fromDataDir: bool)
      requires Valid() && Handles(me, w, sid) && sid in w.made && ext == w.made[sid].ext
      requires Progress(me, w, world, iset{At(place, Key(sid, Archive(ext)))})
      requires fromDataDir ==> place != Local && MarkedFor(w, sid) == Some(job.name) && HasBoth(w, sid, ext)
      requires !fromDataDir ==> Uploads(me, sid) && sid in w.building
      ensures Handles(me, world, sid) && (fromDataDir ==> HasBoth(world, sid, ext))
      ensures sid in world.made && AtHand(me, world, sid)
    {
      var locs := iset{At(place, Key(sid, Archive(ext)))};
      MarkStays(me, w, world, sid, locs);
      if fromDataDir {
        LocalKeyStays(me, w, world, sid, Manifest, locs);
        LocalKeyStays(me, w, world, sid, Archive(ext), locs);
      }
    }

    /** `_upload`: put the archive and sidecar to every destination; `stored` are those that hold both. */
    method Upload(places: seq<Place>, sid: string, ext: Extension, fromDataDir: bool)
      returns (stored: seq<Place>, failures: seq<Problem>)
      requires Valid() && Handles(me, world, sid) && sid in world.made && ext == world.made[sid].ext
      requires LocalOnce(places) && AtHome(places)
      requires Local in places ==>
        Uploads(me, sid) && !fromDataDir && MarkedFor(world, sid) == None && ManifestAt(Local, sid) !in world.store
      requires fromDataDir ==> MarkedFor(world, sid) == Some(job.name) && HasBoth(world, sid, ext)
      requires !fromDataDir ==> Uploads(me, sid) && sid in world.building
      modifies this`world, this`turn, this`log, this`faults
      ensures Valid() && old(log) <= log && Uploaded(me, old(world), world, places, stored, sid)
      ensures Accounted(places, stored, failures)
      ensures faults >= old(faults) && (failures != [] ==> faults > old(faults))
    {
      stored, failures := [], [];
      UploadBegins(me, world, places, sid);
      for i := 0 to |places|
        invariant Valid() && old(log) <= log
        invariant Uploaded(me, old(world), world, places[..i], stored, sid)
        invariant faults >= old(faults) && (failures != [] ==> faults > old(faults))
        invariant Accounted(places[..i], stored, failures)
      {
        stored, failures := UploadTurn(old(world), old(faults), places, i, stored, failures, sid, ext, fromDataDir);
      }
      assert places[..|places|] == places;
    }

    /** The S3 places are buckets of the job. */
    ghost predicate AtHome(places: seq<Place>) {
      forall place :: place in places && place != Local ==> place in me.buckets
    }

    /** One turn of that loop. */
    method UploadTurn(ghost u: World, ghost faultsBefore: nat, places: seq<Place>, i: nat, before: seq<Place>,
                      told: seq<Problem>,
                      sid: string, ext: Extension, fromDataDir: bool)
      returns (stored: seq<Place>, failures: seq<Problem>)
      requires Valid() && Handles(me, u, sid) && sid in u.made && ext == u.made[sid].ext
      requires LocalOnce(places) && AtHome(places) && i < |places|
      requires Local in places ==>
        Uploads(me, sid) && !fromDataDir && MarkedFor(u, sid) == None && ManifestAt(Local, sid) !in u.store
      requires fromDataDir ==> MarkedFor(u, sid) == Some(job.name) && HasBoth(u, sid, ext)
      requires !fromDataDir ==> Uploads(me, sid) && sid in u.building
      requires Uploaded(me, u, world, places[..i], before, sid) && Accounted(places[..i], before, told)
      requires faults >= faultsBefore && (told != [] ==> faults > faultsBefore)
      modifies this`world, this`turn, this`log, this`faults
      ensures Valid() && old(log) <= log && Uploaded(me, u, world, places[..i + 1], stored, sid)
      ensures Accounted(places[..i + 1], stored, failures)
      ensures faults >= faultsBefore && (failures != [] ==> faults > faultsBefore)
    {
      ghost var w := world;
      var place := places[i];
      FirstLocal(places, i);
      TakeOneMore(places, i);
      MarkStays(me, u, w, sid, Files(sid, places[..i]));
      if fromDataDir {
        LocalFilesStay(me, u, w, sid, ext, places[..i]);
      }
      var ok := UploadTo(place, sid, ext, fromDataDir);
      UploadGoesOn(me, u, w, world, places[..i], before, sid, place);
      OneMoreAccounted(places[..i], before, told, place);
      return if ok then before + [place] else before, if ok then told else told + [UploadFailed(place)];
    }

    // ---- Off-site tracking ----

    /** The marker file appears, or is overwritten. */
    method SetMarker(sid: string, torn: bool)
      requires Valid() && Allowed(me, world, Step.Mark(sid, torn))
      modifies this`world, this`log
      ensures Valid() && old(log) <= log && Progress(me, old(world), world, iset{MarkerOf(sid)})
      ensures MarkedFor(world, sid) == if torn then None else Some(job.name)
      ensures Intact(world, Local, sid)
    {
      world := world.(store := world.store[MarkerOf(sid) := if torn then Torn else PendingFor(job.name)]);
      Took(old(world), Step.Mark(sid, torn));
      MarkOnlyKey(me, old(world), sid, torn);
      CopyStays(me, old(world), Step.Mark(sid, torn), Local, sid);
    }

    /** `marker.write_text`: not atomic either; a failure aborts the run. */
    method WriteMarker(sid: string) returns (ok: bool)
      requires Valid() && Uploads(me, sid) && !Foreign(me, sid) && sid in world.building
      requires MarkedFor(world, sid) == None && Intact(world, Local, sid)
      modifies this
      ensures Valid() && old(log) <= log && Progress(me, old(world), world, iset{MarkerOf(sid)})
      ensures ok ==> MarkedFor(world, sid) == Some(job.name)
      ensures faults >= old(faults) && (!ok ==> faults > old(faults))
      ensures crashes == old(crashes) + if ok then 0 else 1
    {
      Yield();
      OwnUnchangedKeeps(me, old(world), world, sid);
      ghost var w1 := world;
      ok := OpenAndWrite(sid);
      ProgressOver(me, old(world), w1, world, iset{}, iset{MarkerOf(sid)}, iset{MarkerOf(sid)});
    }

    /** Opening the file cuts it off; then its text is written. */
    method OpenAndWrite(sid: string) returns (ok: bool)
      requires Valid() && Uploads(me, sid) && !Foreign(me, sid) && sid in world.building
      requires MarkedFor(world, sid) == None && Intact(world, Local, sid)
      modifies this
      ensures Valid() && old(log) <= log && Progress(me, old(world), world, iset{MarkerOf(sid)})
      ensures ok ==> MarkedFor(world, sid) == Some(job.name)
      ensures faults >= old(faults) && (!ok ==> faults > old(faults))
      ensures crashes == old(crashes) + if ok then 0 else 1
    {
      ghost var marker := iset{MarkerOf(sid)};
      NoProgress(me, world, marker);
      if * {
        Crash();
        return false;
      }
      SetMarker(sid, true);
      ghost var w1 := world;
      if * {
        Crash();
        return false;
      }
      SetMarker(sid, false);
      ProgressOver(me, old(world), w1, world, marker, marker, marker);
      return true;
    }

    /** `marker.unlink(missing_ok=True)`; a failure aborts the run. */
    method UnlinkMarker(sid: string) returns (ok: bool)
      requires Valid() && MarkedFor(world, sid) == Some(job.name) && SafeToRemove(world, sid) && me.buckets != {}
      modifies this
      ensures Valid() && old(log) <= log && Progress(me, old(world), world, iset{MarkerOf(sid)})
      ensures ok ==> MarkedFor(world, sid) == None
      ensures faults >= old(faults) && (!ok ==> faults > old(faults))
      ensures crashes == old(crashes) + if ok then 0 else 1
    {
      YieldPending(sid);
      ok := TryUnmark(old(world), sid);
    }

    /** The marker goes, or its unlink fails. */
    method TryUnmark(ghost u: World, sid: string) returns (ok: bool)
      requires Valid() && MarkedFor(world, sid) == Some(job.name) && SafeToRemove(world, sid) && me.buckets != {}
      requires Progress(me, u, world, iset{MarkerOf(sid)})
      modifies this`world, this`log, this`faults, this`crashes
      ensures Valid() && old(log) <= log && Progress(me, u, world, iset{MarkerOf(sid)})
      ensures ok ==> MarkedFor(world, sid) == None
      ensures faults >= old(faults) && (!ok ==> faults > old(faults))
      ensures crashes == old(crashes) + if ok then 0 else 1
    {
      ok := *;
      if ok {
        LoseMarker(u, sid);
      } else {
        Crash();
      }
    }

    /** The other jobs' turn leaves a pending snapshot pending, and safe to remove. */
    method YieldPending(sid: string)
      requires Valid() && MarkedFor(world, sid) == Some(job.name) && SafeToRemove(world, sid)
      modifies this`world, this`turn
      ensures Valid() && Progress(me, old(world), world, iset{MarkerOf(sid)})
      ensures MarkedFor(world, sid) == Some(job.name) && SafeToRemove(world, sid)
    {
      OwnOrPlainMarked(me, world, sid);
      Yield();
      SafeStays(old(world), world, sid);
      MarkStays(me, old(world), world, sid, iset{});
      ProgressWider(me, old(world), world, iset{}, iset{MarkerOf(sid)});
    }

    /** The marker is gone. */
    method LoseMarker(ghost u: World, sid: string)
      requires Valid() && MarkedFor(world, sid) == Some(job.name) && SafeToRemove(world, sid) && me.buckets != {}
      requires Progress(me, u, world, iset{MarkerOf(sid)})
      modifies this`world, this`log
      ensures Valid() && old(log) <= log && Progress(me, u, world, iset{MarkerOf(sid)})
      ensures MarkedFor(world, sid) == None
    {
      OwnOrPlainMarked(me, world, sid);
      world := world.(store := world.store - {MarkerOf(sid)});
      Took(old(world), Step.Unmark(sid));
      RemovedOnlyKey(me, old(world), MarkerOf(sid));
      ProgressOver(me, u, old(world), world, iset{MarkerOf(sid)}, iset{MarkerOf(sid)}, iset{MarkerOf(sid)});
    }

    /** The local copy of the snapshot may go: it is safe elsewhere, and not pending. */
    ghost predicate MayDrop(sid: string)
      reads this`world
    {
      SafeToRemove(world, sid) && !Foreign(me, sid)
        && (Uploads(me, sid) || (IsPlain(sid) && MarkedFor(world, sid) == None))
    }

    /** The file in the data dir is gone. */
    method LoseLocal(sid: string, kind: Kind)
      requires Valid() && MayDrop(sid) && kind != Marker
      modifies this`world, this`log
      ensures Valid() && old(log) <= log && Progress(me, old(world), world, iset{At(Local, Key(sid, kind))})
      ensures NothingNew(me, old(world), world) && At(Local, Key(sid, kind)) !in world.store
    {
      world := world.(store := world.store - {At(Local, Key(sid, kind))});
      Took(old(world), Step.Drop(sid, kind));
      RemovedOnlyKey(me, old(world), At(Local, Key(sid, kind)));
      RemovedNothingNew(me, old(world), At(Local, Key(sid, kind)));
    }

    /** After the other jobs' turn the local copy may still go. */
    method YieldToDrop(sid: string)
      requires Valid() && MayDrop(sid)
      modifies this`world, this`turn
      ensures Valid() && Progress(me, old(world), world, iset{}) && NothingNew(me, old(world), world) && MayDrop(sid)
    {
      Yield();
      SafeStays(old(world), world, sid);
      if !Uploads(me, sid) {
        StaysUnmarked(me, old(world), world, sid, iset{});
      }
    }

    /** `unlink(missing_ok=True)` of the archive or manifest in the data dir; a failure aborts the run. */
    method UnlinkLocal(sid: string, kind: Kind) returns (ok: bool)
      requires Valid() && MayDrop(sid) && kind != Marker
      modifies this
      ensures Valid() && old(log) <= log && Progress(me, old(world), world, iset{At(Local, Key(sid, kind))})
      ensures NothingNew(me, old(world), world)
      ensures ok ==> At(Local, Key(sid, kind)) !in world.store
      ensures faults >= old(faults) && (!ok ==> faults > old(faults))
      ensures crashes == old(crashes) + if ok then 0 else 1
    {
      YieldToDrop(sid);
      ghost var w1 := world;
      ghost var loc := At(Local, Key(sid, kind));
      ProgressWider(me, old(world), w1, iset{}, iset{loc});
      if * {
        Crash();
        return false;
      }
      LoseLocal(sid, kind);
      ProgressOver(me, old(world), w1, world, iset{}, iset{loc}, iset{loc});
      NothingNewOver(me, old(world), w1, world);
      return true;
    }

    /** `_find_artifact`: the first archive of the snapshot in the data dir. */
    method FindArtifact(sid: string) returns (ext: Option<Extension>)
      requires Valid()
      ensures ext.Some? ==>
        At(Local, Key(sid, Archive(ext.value))) in world.store && sid in world.made && ext.value == world.made[sid].ext
      ensures ext.None? ==> forall e :: At(Local, Key(sid, Archive(e))) !in world.store
    {
      ext := FirstArchive(world, Local, sid);
      FirstArchiveIsItsOwn(world, Local, sid);
    }

    /**
     One pending snapshot's turn in `_track_offsite`: gone from the data dir, it is no longer
     pending; else it is uploaded to every off-site place of this run, and only then unmarked and,
     if the job keeps none, dropped locally.
     */
    method CatchUp(pending: string, offsite: seq<Place>) returns (failures: seq<Problem>, aborted: bool)
      requires Valid() && MarkedFor(world, pending) == Some(job.name) && offsite != [] && Local !in offsite
      requires AtHome(offsite)
      modifies this
      ensures Valid() && old(log) <= log && Progress(me, old(world), world, AllOf(pending))
      ensures !aborted ==> StillPending(pending) in failures || Settled(me, job, old(world), world, offsite, pending)
      ensures KeepsLocal(job) ==> LocalFilesKept(me, old(world), world)
      ensures faults >= old(faults) && (failures != [] || aborted ==> faults > old(faults))
      ensures crashes == old(crashes) + if aborted then 1 else 0
    {
      PendingIsMine(me, world, pending);
      OwnOrPlainMarked(me, world, pending);
      var ext := FindArtifact(pending);
      if ext.None? || ManifestAt(Local, pending) !in world.store {
        GoneIsSafe(world, pending);
        assert offsite[0] in me.buckets;
        var done := UnlinkMarker(pending);
        GoneIsSettled(me, job, old(world), world, offsite, pending);
        KeysKeepLocal(me, old(world), world, iset{MarkerOf(pending)});
        return [], !done;
      }
      failures, aborted := UploadPending(pending, ext.value, offsite);
    }

    /** The snapshot is there: upload it, and finish if every off-site place of this run has it. */
    method UploadPending(pending: string, ext: Extension, offsite: seq<Place>)
      returns (failures: seq<Problem>, aborted: bool)
      requires Valid() && MarkedFor(world, pending) == Some(job.name) && offsite != [] && Local !in offsite
      requires AtHome(offsite) && Handles(me, world, pending) && HasBoth(world, pending, ext)
      requires pending in world.made && ext == world.made[pending].ext
      modifies this
      ensures Valid() && old(log) <= log && Progress(me, old(world), world, AllOf(pending))
      ensures !aborted ==> StillPending(pending) in failures || Settled(me, job, old(world), world, offsite, pending)
      ensures KeepsLocal(job) ==> LocalFilesKept(me, old(world), world)
      ensures faults >= old(faults) && (failures != [] || aborted ==> faults > old(faults))
      ensures crashes == old(crashes) + if aborted then 1 else 0
    {
      failures := UploadAgain(pending, ext, offsite);
      if failures != [] {
        return failures, false;
      }
      aborted := FinishCatchUp(old(world), pending, ext, offsite);
    }

    /** To every off-site place of this run, or it is reported as still pending. */
    method UploadAgain(pending: string, ext: Extension, offsite: seq<Place>) returns (failures: seq<Problem>)
      requires Valid() && MarkedFor(world, pending) == Some(job.name) && offsite != [] && Local !in offsite
      requires AtHome(offsite) && Handles(me, world, pending) && HasBoth(world, pending, ext)
      requires pending in world.made && ext == world.made[pending].ext
      modifies this`world, this`turn, this`log, this`faults
      ensures Valid() && old(log) <= log && Progress(me, old(world), world, AllOf(pending))
      ensures LocalFilesKept(me, old(world), world)
      ensures failures == [] ==>
        MarkedFor(world, pending) == Some(job.name) && Handles(me, world, pending) && AtAll(me, world, offsite, pending)
      ensures failures == [] || failures == [StillPending(pending)]
      ensures faults >= old(faults) && (failures != [] ==> faults > old(faults))
    {
      var stored;
      stored, failures := Upload(offsite, pending, ext, true);
      KeysKeepLocal(me, old(world), world, Files(pending, offsite));
      ProgressWider(me, old(world), world, Files(pending, offsite), AllOf(pending));
      failures := if |stored| < |offsite| then [StillPending(pending)] else [];
    }

    /** Uploaded everywhere: unmark the snapshot, then drop its local copy if the job keeps none. */
    method FinishCatchUp(ghost u: World, pending: string, ext: Extension, offsite: seq<Place>) returns (aborted: bool)
      requires Valid() && MarkedFor(world, pending) == Some(job.name) && offsite != [] && Local !in offsite
      requires Handles(me, world, pending) && AtAll(me, world, offsite, pending) && AtHome(offsite)
      requires Progress(me, u, world, AllOf(pending)) && LocalFilesKept(me, u, world)
      modifies this
      ensures Valid() && old(log) <= log && Progress(me, u, world, AllOf(pending))
      ensures !aborted ==> MarkedFor(world, pending) == None && AtAll(me, world, offsite, pending)
      ensures !aborted && !KeepsLocal(job) ==> !InDataDir(world, pending)
      ensures KeepsLocal(job) ==> LocalFilesKept(me, u, world)
      ensures faults >= old(faults) && (aborted ==> faults > old(faults))
      ensures crashes == old(crashes) + if aborted then 1 else 0
    {
      var done := Unmark(u, pending, offsite);
      ghost var w1 := world;
      if !done || (job.keepLocal && HasLocal(job.specs)) {
        return !done;
      }
      done := DropLocal(pending, ext, offsite);
      UnmarkedThenDropped(me, u, w1, world, pending);
      return !done;
    }

    /** Every off-site place of this run has it: it is no longer pending. */
    method Unmark(ghost u: World, pending: string, ghost offsite: seq<Place>) returns (done: bool)
      requires Valid() && MarkedFor(world, pending) == Some(job.name) && offsite != [] && Local !in offsite
      requires AtAll(me, world, offsite, pending) && AtHome(offsite)
      requires Progress(me, u, world, AllOf(pending)) && LocalFilesKept(me, u, world)
      modifies this
      ensures Valid() && old(log) <= log && Progress(me, u, world, AllOf(pending)) && LocalFilesKept(me, u, world)
      ensures AtAll(me, world, offsite, pending) && SafeToRemove(world, pending)
      ensures done ==> MarkedFor(world, pending) == None
      ensures faults >= old(faults) && (!done ==> faults > old(faults))
      ensures crashes == old(crashes) + if done then 0 else 1
    {
      OneIsOffsite(me, world, offsite, pending);
      assert offsite[0] in me.buckets;
      done := UnlinkMarker(pending);
      StillReachedUnmarked(me, u, old(world), world, offsite, pending);
    }

    /** Unlink the local archive, then the local manifest. */
    method DropLocal(sid: string, ext: Extension, offsite: seq<Place>) returns (ok: bool)
      requires Valid() && MayDrop(sid) && Local !in offsite
      modifies this
      ensures Valid() && old(log) <= log && Progress(me, old(world), world, Files(sid, [Local]))
      ensures AtAll(me, old(world), offsite, sid) ==> AtAll(me, world, offsite, sid)
      ensures NothingNew(me, old(world), world)
      ensures ok ==> ManifestAt(Local, sid) !in world.store && At(Local, Key(sid, Archive(ext))) !in world.store
      ensures faults >= old(faults) && (!ok ==> faults > old(faults))
      ensures crashes == old(crashes) + if ok then 0 else 1
    {
      ok := UnlinkLocal(sid, Archive(ext));
      ghost var w1 := world;
      FileDropped(me, old(world), w1, sid, Archive(ext), offsite);
      if !ok {
        return false;
      }
      ok := UnlinkLocal(sid, Manifest);
      BothDropped(me, old(world), w1, world, sid, ext, offsite);
    }

    /** `_pending_ids`: the snapshots whose marker names this job. */
    function PendingIds(): (r: set<string>)
      reads this`world
      ensures forall sid :: sid in r <==> MarkedFor(world, sid) == Some(job.name)
    {
      PendingOf(world, job.name)
    }

    /** `_track_offsite`, no off-site destination having stored the new snapshot: mark it. */
    method MarkPending(sid: string, stored: seq<Place>) returns (aborted: bool)
      requires Valid() && Uploads(me, sid) && !Foreign(me, sid) && MarkedFor(world, sid) == None
      requires sid in world.building && forall place :: place in stored ==> place == Local && Intact(world, Local, sid)
      modifies this
      ensures Valid() && old(log) <= log && Progress(me, old(world), world, iset{MarkerOf(sid)})
      ensures !aborted && OffsiteConfigured(job) && stored != [] ==> MarkedFor(world, sid) == Some(job.name)
      ensures !OffsiteConfigured(job) || stored == [] ==> world == old(world)
      ensures faults >= old(faults) && (aborted ==> faults > old(faults))
      ensures crashes == old(crashes) + if aborted then 1 else 0
    {
      NoProgress(me, world, iset{MarkerOf(sid)});
      var configured := IsOffsiteConfigured();
      if !configured || stored == [] {
        return false;
      }
      assert stored[0] in stored;
      var ok := WriteMarker(sid);
      return !ok;
    }

    /** `_offsite_configured` */
    method IsOffsiteConfigured() returns (r: bool)
      ensures r == OffsiteConfigured(job)
    {
      r := false;
      for i := 0 to |job.specs|
        invariant r <==> exists k :: 0 <= k < i && HasBucket(job.specs[k])
      {
        if HasBucket(job.specs[i]) {
          r := true;
        }
      }
    }

    /** `_track_offsite`, some off-site destination having stored the new snapshot: catch up on the backlog. */
    method UploadBacklog(offsite: seq<Place>) returns (errors: seq<Problem>, aborted: bool)
      requires Valid() && offsite != [] && Local !in offsite && AtHome(offsite)
      modifies this
      ensures Valid() && old(log) <= log && Progress(me, old(world), world, Backlog(old(PendingIds())))
      ensures !aborted ==> CaughtUpOn(me, job, old(world), world, offsite, errors)
      ensures KeepsLocal(job) ==> LocalFilesKept(me, old(world), world)
      ensures faults >= old(faults) && (errors != [] || aborted ==> faults > old(faults))
      ensures crashes == old(crashes) + if aborted then 1 else 0
    {
      var pending := PendingIds();
      BacklogBegins(me, job, world, pending, offsite);
      errors, aborted := TakeTurns(pending, offsite);
      if !aborted {
        BacklogEnded(me, job, old(world), world, pending, offsite, errors);
      }
    }

    /** The loop: every pending snapshot has its turn. */
    method TakeTurns(pending: set<string>, offsite: seq<Place>) returns (errors: seq<Problem>, aborted: bool)
      requires Valid() && offsite != [] && Local !in offsite && AtHome(offsite)
      requires BacklogOr(false, me, job, world, world, pending, pending, offsite, [])
      modifies this
      ensures Valid() && old(log) <= log
      ensures Turned(old(world), old(faults), old(crashes), aborted, pending, {}, offsite, errors)
    {
      var rest := pending;
      errors, aborted := [], false;
      while rest != {} && !aborted
        invariant rest <= pending && Valid() && old(log) <= log
        invariant Turned(old(world), old(faults), old(crashes), aborted, pending, rest, offsite, errors)
        decreases rest
      {
        errors, rest, aborted := BacklogTurn(old(world), old(faults), old(crashes), pending, rest, offsite, errors);
      }
    }

    /** Where the loop stands that began in `u`. */
    ghost predicate Turned(u: World, faultsBefore: nat, crashesBefore: nat, aborted: bool, pending: set<string>,
                           rest: set<string>, offsite: seq<Place>, errors: seq<Problem>)
      reads this`world, this`faults, this`crashes
    {
      && BacklogOr(aborted, me, job, u, world, pending, rest, offsite, errors)
      && (KeepsLocal(job) ==> LocalFilesKept(me, u, world))
      && faults >= faultsBefore && (errors != [] || aborted ==> faults > faultsBefore)
      && crashes == crashesBefore + (if aborted then 1 else 0)
    }

    /** One turn of that loop. */
    method BacklogTurn(ghost u: World, ghost faultsBefore: nat, ghost crashesBefore: nat, ghost pending: set<string>,
                       todo: set<string>, offsite: seq<Place>, before: seq<Problem>)
      returns (errors: seq<Problem>, rest: set<string>, aborted: bool)
      requires Valid() && offsite != [] && Local !in offsite && AtHome(offsite) && todo != {} && todo <= pending
      requires Turned(u, faultsBefore, crashesBefore, false, pending, todo, offsite, before)
      modifies this
      ensures Valid() && old(log) <= log && rest < todo
      ensures Turned(u, faultsBefore, crashesBefore, aborted, pending, rest, offsite, errors)
    {
      ghost var w := world;
      var sid :| sid in todo;
      rest := todo - {sid};
      var failures;
      failures, aborted := CatchUp(sid, offsite);
      errors := before + failures;
      LocalFilesKeptOver(me, u, w, world);
      TurnEnds(aborted, me, job, u, w, world, pending, todo, offsite, before, sid, failures);
    }

    // ---- Retention ----

    /** `SnapshotScope.new_id` of this run's start. */
    ghost function RunId(): string
      requires Calendar.Valid(now)
    {
      NewSnapshotId(now, JobPart())
    }

    ghost function JobPart(): Option<string> {
      if scope.scoped then Some(job.name) else None
    }

    /** Every other snapshot that could be this job's was built by a run with an engine id and an earlier start. */
    ghost predicate OnlyEarlierRuns(w: World) {
      && Calendar.Valid(now) && Uploads(me, RunId())
      && forall sid :: sid in w.made && !Foreign(me, sid) && sid != RunId() ==>
        RetentionLaws.EarlierRun(sid, now, JobPart())
    }

    lemma RunIdNotPicked(w: World, candidates: set<string>, snaps: seq<Snapshot>)
      requires Inv(w) && OnlyEarlierRuns(w) && AreSnapshots(snaps, candidates, now)
      requires forall sid :: sid in candidates ==> sid in w.made && !Foreign(me, sid)
      ensures SelectPrunable(snaps, job.retention, now).Some? ==>
        RunId() !in SelectPrunable(snaps, job.retention, now).value
    {
      forall s | s in snaps && s.id != RunId() ensures RetentionLaws.EarlierRun(s.id, now, JobPart()) {
        assert s.id in IdSet(snaps);
      }
      if SelectPrunable(snaps, job.retention, now).Some? {
        RetentionLaws.FreshSnapshotStays(snaps, job.retention, now, JobPart());
      }
    }

    /** The listed snapshots at a place that retention looks at: the job's own, or those in `only`. */
    function Candidates(place: Place, only: Option<set<string>>): set<string>
      reads this`world
    {
      CandidatesIn(world, scope, place, only)
    }

    /** One key of a chosen snapshot is gone. */
    method LoseKey(place: Place, key: Key)
      requires Valid() && Pick(job.name, place, key.sid) in world.chosen && !Foreign(me, key.sid)
      requires MayPrune(me, world, place, key.sid) && IsNext(me, world, place, key)
      modifies this`world, this`log
      ensures Valid() && old(log) <= log && Progress(me, old(world), world, iset{At(place, key)})
      ensures NothingNew(me, old(world), world) && At(place, key) !in world.store
    {
      world := world.(store := world.store - {At(place, key)});
      Took(old(world), Step.Prune(place, key));
      RemovedOnlyKey(me, old(world), At(place, key));
      RemovedNothingNew(me, old(world), At(place, key));
    }

    /** One `Destination.delete` of retention; an S3 delete may fail after it took effect. */
    method DeleteKey(place: Place, key: Key) returns (ok: bool)
      requires Valid() && Pick(job.name, place, key.sid) in world.chosen && !Foreign(me, key.sid)
      requires MayPrune(me, world, place, key.sid) && IsNext(me, world, place, key)
      modifies this`world, this`turn, this`log, this`faults
      ensures Valid() && old(log) <= log && Progress(me, old(world), world, iset{At(place, key)})
      ensures NothingNew(me, old(world), world)
      ensures ok ==> At(place, key) !in world.store
      ensures faults >= old(faults) && (!ok ==> faults > old(faults))
    {
      Yield();
      StillNext(me, old(world), world, place, key);
      MayPruneStays(me, old(world), world, place, key.sid);
      ghost var w1, loc := world, At(place, key);
      ProgressWider(me, old(world), w1, iset{}, iset{loc});
      if * {
        Fail();
        return false;
      }
      LoseKey(place, key);
      ProgressOver(me, old(world), w1, world, iset{}, iset{loc}, iset{loc});
      NothingNewOver(me, old(world), w1, world);
      ok := true;
      if place != Local {
        if * {
          Fail();
          ok := false;
        }
      }
    }

    /** `list_keys(prefix)`: the keys at a place that start with the prefix, sorted. */
    method ListKeys(place: Place, prefix: string) returns (keys: seq<Key>)
      ensures IsListing(world, place, prefix, keys)
    {
      var found := set loc | loc in world.store && loc.place == place && StartsWith(Text(loc.key), prefix) :: loc.key;
      assert forall key :: key in found <==> At(place, key) in world.store && StartsWith(Text(key), prefix);
      keys := KeysSorted(found);
    }

    /** Delete every key of a chosen snapshot: `for key in list_keys(prefix=f"{pruned}."): delete(key)`. */
    method PruneSnapshot(place: Place, sid: string) returns (ok: bool)
      requires Valid() && Pick(job.name, place, sid) in world.chosen && !Foreign(me, sid) && sid in world.made
      requires MayPrune(me, world, place, sid)
      modifies this`world, this`turn, this`log, this`faults
      ensures Valid() && old(log) <= log && Progress(me, old(world), world, AllOfAt(place, {sid}))
      ensures NothingNew(me, old(world), world)
      ensures ok ==> GoneAt(me, old(world), world, place, sid)
      ensures faults >= old(faults) && (!ok ==> faults > old(faults))
    {
      Yield();
      ProgressWider(me, old(world), world, iset{}, AllOfAt(place, {sid}));
      if * {
        Fail();
        return false;
      }
      var keys := ListKeys(place, sid + ".");
      ListingIsOwn(world, place, sid, keys);
      MayPruneStays(me, old(world), world, place, sid);
      ghost var listed := world;
      ok := DeleteKeys(place, sid, keys);
      NothingNewFewerRivals(me, old(world), listed);
      assert Rival(me, listed, place, sid) ==> Rival(me, old(world), place, sid);
      ProgressOver(me, old(world), listed, world, AllOfAt(place, {sid}), AllOfAt(place, {sid}), AllOfAt(place, {sid}));
      NothingNewOver(me, old(world), listed, world);
    }

    /** The loop over the listed keys. */
    method DeleteKeys(place: Place, ghost sid: string, keys: seq<Key>) returns (ok: bool)
      requires Valid() && Pick(job.name, place, sid) in world.chosen && !Foreign(me, sid)
      requires MayPrune(me, world, place, sid)
      requires IsOwnListing(world, place, sid, keys)
      modifies this`world, this`turn, this`log, this`faults
      ensures Valid() && old(log) <= log && Progress(me, old(world), world, AllOfAt(place, {sid}))
      ensures NothingNew(me, old(world), world)
      ensures ok ==> GoneAt(me, old(world), world, place, sid)
      ensures faults >= old(faults) && (!ok ==> faults > old(faults))
    {
      SameStoreNothingNew(me, world, world);
      NoProgress(me, world, AllOfAt(place, {sid}));
      for i := 0 to |keys|
        invariant Valid() && old(log) <= log
        invariant faults >= old(faults)
        invariant PrunedSoFar(me, old(world), world, place, sid, keys, i)
      {
        ghost var w := world;
        GoesInOrder(me, old(world), w, place, sid, keys, i);
        ok := DeleteKey(place, keys[i]);
        if !ok {
          PruneStops(me, old(world), w, world, place, sid, keys, i);
          return false;
        }
        PruneGoesOn(me, old(world), w, world, place, sid, keys, i);
      }
      AllGone(me, old(world), world, place, sid, keys);
      return true;
    }

    /** The first half of `_apply_retention`: list the candidates at a place and choose among them; listing may fail. */
    method Choose(place: Place, only: Option<set<string>>) returns (ok: bool, snaps: seq<Snapshot>, picked: set<string>)
      requires Calendar.Valid(now) && Valid()
      requires only.Some? ==> place == Local && only.value == PendingIds()
      modifies this`world, this`turn, this`log, this`faults
      ensures Valid() && old(log) <= log && Progress(me, old(world), world, iset{})
      ensures AreChosen(me, world, place, picked) && NothingNew(me, old(world), world)
      ensures OnlyEarlierRuns(old(world)) ==> RunId() !in picked
      ensures ok ==> SelectPrunable(snaps, job.retention, now) == Some(picked)
      ensures ok ==> AreSnapshots(snaps, Candidates(place, only), now)
      ensures ok && only == None && Undisputed(me, old(world), place) ==>
        Candidates(place, None) <= old(Candidates(place, None))
      ensures ok && me.alone ==> Candidates(place, only) == old(Candidates(place, only))
      ensures !ok ==> picked == {}
      ensures faults >= old(faults) && (!ok ==> faults > old(faults) || AgeOverflows(job.retention, now))
    {
      ok, snaps, picked := false, [], {};
      Yield();
      if * {
        Fail();
        return;
      }
      var selected;
      snaps, selected := SelectAmong(Candidates(place, only));
      if selected.None? {
        return;
      }
      ghost var w1 := world;
      ok, picked := true, selected.value;
      TakeChoice(old(world), place, only, snaps, picked);
      SameCandidates(w1, world, scope, place, only);
      if Undisputed(me, old(world), place) {
        CandidatesShrink(me, old(world), w1, place);
      }
    }

    /** The policy's selection; there is none only if its age limit reaches before year 1. */
    method SelectAmong(candidates: set<string>) returns (snaps: seq<Snapshot>, selected: Option<set<string>>)
      ensures AreSnapshots(snaps, candidates, now) && selected == SelectPrunable(snaps, job.retention, now)
      ensures selected.None? ==> AgeOverflows(job.retention, now)
    {
      snaps := SnapshotsOf(candidates, now);
      selected := SelectPrunable(snaps, job.retention, now);
    }

    /** What the policy selects, seen after the other jobs' turn, is chosen. */
    method TakeChoice(ghost u: World, place: Place, ghost only: Option<set<string>>, ghost snaps: seq<Snapshot>,
                      picked: set<string>)
      requires Calendar.Valid(now) && Valid()
      requires Inv(u) && Progress(me, u, world, iset{}) && NothingNew(me, u, world)
      requires only.Some? ==> place == Local && only.value == PendingOf(u, job.name)
      requires Selects(job.retention, snaps, Candidates(place, only), now, picked)
      modifies this`world, this`log
      ensures Valid() && old(log) <= log && Progress(me, u, world, iset{}) && NothingNew(me, u, world)
      ensures AreChosen(me, world, place, picked) && world.store == old(world).store
      ensures OnlyEarlierRuns(u) ==> RunId() !in picked
    {
      CandidatesAreOwn(me, u, world, place, only, snaps, now, picked);
      if OnlyEarlierRuns(u) {
        RunIdNotPicked(world, Candidates(place, only), snaps);
      }
      NoteChoice(place, picked);
      ProgressOver(me, u, old(world), world, iset{}, iset{}, iset{});
      NothingNewOver(me, u, old(world), world);
    }

    /** From here on the chosen snapshots count as pruned. */
    method NoteChoice(place: Place, picked: set<string>)
      requires Valid() && Allowed(me, world, Step.Select(place, picked))
      requires forall sid :: sid in picked ==> !Foreign(me, sid) && sid in world.made && MayPrune(me, world, place, sid)
      requires OnlyKeys(me, world, Apply(me, world, Step.Select(place, picked)), iset{})
      modifies this`world, this`log
      ensures Valid() && old(log) <= log && Progress(me, old(world), world, iset{})
      ensures AreChosen(me, world, place, picked) && NothingNew(me, old(world), world)
      ensures world.store == old(world).store
    {
      var picks := set sid | sid in picked :: Pick(job.name, place, sid);
      world := world.(pruned := world.pruned + picks, chosen := world.chosen + picks);
      Took(old(world), Step.Select(place, picked));
      NowChosen(me, old(world), place, picked);
    }

    /** The second half: delete the chosen snapshots, in any order; a failure ends it. */
    method PruneAll(place: Place, picked: set<string>) returns (ok: bool)
      requires Valid() && AreChosen(me, world, place, picked)
      modifies this`world, this`turn, this`log, this`faults
      ensures Valid() && old(log) <= log && Progress(me, old(world), world, AllOfAt(place, picked))
      ensures NothingNew(me, old(world), world)
      ensures ok ==> AllGoneAt(me, old(world), world, place, picked)
      ensures faults >= old(faults) && (!ok ==> faults > old(faults))
    {
      ghost var region := AllOfAt(place, picked);
      var rest := picked;
      NoProgress(me, world, region);
      SameStoreNothingNew(me, world, world);
      while rest != {}
        invariant rest <= picked && Valid() && old(log) <= log && AreChosen(me, world, place, picked)
        invariant Progress(me, old(world), world, region) && NothingNew(me, old(world), world)
        invariant AllGoneAt(me, old(world), world, place, picked - rest)
        invariant faults >= old(faults)
        decreases rest
      {
        var sid :| sid in rest;
        ok := PruneOne(old(world), place, picked, rest, sid);
        if !ok {
          return false;
        }
        rest := rest - {sid};
      }
      assert picked - rest == picked;
      return true;
    }

    /** One turn of that loop. */
    method PruneOne(ghost u: World, place: Place, ghost picked: set<string>, ghost rest: set<string>, sid: string)
      returns (ok: bool)
      requires Valid() && AreChosen(me, world, place, picked) && rest <= picked && sid in rest
      requires Progress(me, u, world, AllOfAt(place, picked)) && NothingNew(me, u, world)
      requires AllGoneAt(me, u, world, place, picked - rest)
      modifies this`world, this`turn, this`log, this`faults
      ensures Valid() && old(log) <= log && Progress(me, u, world, AllOfAt(place, picked)) && NothingNew(me, u, world)
      ensures ok ==> AreChosen(me, world, place, picked) && AllGoneAt(me, u, world, place, picked - (rest - {sid}))
      ensures faults >= old(faults) && (!ok ==> faults > old(faults))
    {
      ok := PruneSnapshot(place, sid);
      ProgressOver(me, u, old(world), world, AllOfAt(place, picked), AllOfAt(place, {sid}), AllOfAt(place, picked));
      if ok {
        StillGone(me, u, old(world), world, place, picked, rest, sid);
      }
      NothingNewOver(me, u, old(world), world);
    }

    /** `_apply_retention` */
    method ApplyRetention(place: Place, only: Option<set<string>>)
      returns (errors: seq<Problem>, snaps: seq<Snapshot>, picked: set<string>)
      requires Calendar.Valid(now) && Valid()
      requires only.Some? ==> place == Local && only.value == PendingIds()
      modifies this`world, this`turn, this`log, this`faults
      ensures Valid() && old(log) <= log && Progress(me, old(world), world, AllOfAt(place, picked))
      ensures forall sid :: sid in picked ==> WasPruned(world, sid)
      ensures NothingNew(me, old(world), world) && IntactOrPruned(me, old(world), world)
      ensures OnlyEarlierRuns(old(world)) ==> IntactStays(old(world), world, RunId())
      ensures picked != {} || errors == [] ==> SelectPrunable(snaps, job.retention, now) == Some(picked)
      ensures picked != {} || errors == [] ==> AreSnapshots(snaps, IdSet(snaps), now)
      ensures me.alone && (picked != {} || errors == []) ==> IdSet(snaps) == old(Candidates(place, only))
      ensures (picked != {} || errors == []) && only == None && Undisputed(me, old(world), place) ==>
        IdSet(snaps) <= old(Candidates(place, None))
      ensures errors == [] && only == None && Undisputed(me, old(world), place) ==>
        Candidates(place, None) <= IdSet(snaps) - picked
      ensures errors == [] && only.Some? ==> LookedAt(world, scope, Local, true) <= IdSet(snaps) - picked
      ensures errors == [] ==> AllGoneAt(me, old(world), world, place, picked)
      ensures errors == [] || errors == [RetentionFailed(place)]
      ensures faults >= old(faults) && (errors != [] ==> faults > old(faults) || AgeOverflows(job.retention, now))
    {
      var ok;
      ok, snaps, picked := Choose(place, only);
      ghost var w1 := world;
      if ok {
        ok := PruneAll(place, picked);
      } else {
        NoProgress(me, w1, AllOfAt(place, picked));
        SameStoreNothingNew(me, w1, w1);
      }
      RoundEnded(me, old(world), w1, world, place, picked);
      if ok && only == None {
        RoundLeaves(me, old(world), w1, world, place, IdSet(snaps), picked);
      }
      if ok && only.Some? {
        PendingStays(me, old(world), w1);
        PendingIsLeft(me, w1, world, picked);
      }
      errors := if ok then [] else [RetentionFailed(place)];
    }

    // ---- The whole run ----

    /**
     `_build_destinations`: an S3 destination without a bucket is skipped, one that cannot be reached is a
     failure.
     */
    method BuildDestinations() returns (places: seq<Place>, failures: seq<Problem>)
      modifies this`faults
      ensures (LocalSpecOnce(job.specs) ==> LocalOnce(places)) && (Local in places <==> HasLocal(job.specs))
      ensures forall place :: place in places && place != Local ==> StoresAt(job, place)
      ensures BucketsTold(job.specs, places, failures)
      ensures failures != [] || places != [] ==> OffsiteConfigured(job) || HasLocal(job.specs)
      ensures failures != [] ==> OffsiteConfigured(job)
      ensures faults >= old(faults) && (failures != [] ==> faults > old(faults))
    {
      places, failures := [], [];
      for i := 0 to |job.specs|
        invariant (LocalSpecOnce(job.specs) ==> LocalOnce(places)) && (Local in places <==> LocalSpec in job.specs[..i])
        invariant forall place :: place in places && place != Local ==> StoresAt(job, place)
        invariant BucketsTold(job.specs[..i], places, failures) && (failures != [] ==> OffsiteConfigured(job))
        invariant places != [] ==> OffsiteConfigured(job) || HasLocal(job.specs)
        invariant faults >= old(faults) && (failures != [] ==> faults > old(faults))
      {
        var spec := job.specs[i];
        TakeOneMore(job.specs, i);
        if spec == LocalSpec {
          if LocalSpecOnce(job.specs) {
            FirstLocalSpec(job.specs, i);
          }
          places := places + [Local];
        } else if HasBucket(spec) {
          assert S3PlaceOf(spec) != Local;
          if * {
            places := places + [S3PlaceOf(spec)];
          } else {
            Fail();
            failures := failures + [Unavailable(spec)];
          }
        }
      }
      assert job.specs[..|job.specs|] == job.specs;
    }

    /** `_deliver`: upload to every destination; if none of those configured stored it, keep it in the data dir. */
    method Deliver(sid: string, ext: Extension)
      returns (destinations: seq<Place>, stored: seq<Place>, fallback: bool, errors: seq<Problem>)
      requires Valid() && LocalSpecOnce(job.specs)
      requires Uploads(me, sid) && !Foreign(me, sid) && sid in world.made && ext == world.made[sid].ext
      requires NoFiles(world, sid) && sid in world.building
      modifies this`world, this`turn, this`log, this`faults
      ensures Valid() && old(log) <= log && Progress(me, old(world), world, FilesAnywhere(sid))
      ensures MarkedFor(world, sid) == None && AtAll(me, world, stored, sid) && AtHome(stored)
      ensures fallback <==> StoodIn(destinations, stored)
      ensures Told(job, destinations, stored, errors)
      ensures faults >= old(faults) && (errors != [] ==> faults > old(faults))
    {
      destinations, errors := BuildDestinations();
      if destinations == [] && errors == [] {
        destinations := [Local];
      }
      stored, fallback, errors := DeliverTo(destinations, errors, sid, ext);
    }

    /** Upload to these destinations; if none stored it and the data dir was not among them, it steps in. */
    method DeliverTo(destinations: seq<Place>, unavailable: seq<Problem>, sid: string, ext: Extension)
      returns (stored: seq<Place>, fallback: bool, errors: seq<Problem>)
      requires Valid() && LocalOnce(destinations) && AtHome(destinations) && (destinations != [] || unavailable != [])
      requires BucketsTold(job.specs, destinations, unavailable)
      requires Local in destinations <==> HasLocal(job.specs) || !OffsiteConfigured(job)
      requires Uploads(me, sid) && !Foreign(me, sid) && sid in world.made && ext == world.made[sid].ext
      requires NoFiles(world, sid) && sid in world.building
      modifies this`world, this`turn, this`log, this`faults
      ensures Valid() && old(log) <= log && Progress(me, old(world), world, FilesAnywhere(sid))
      ensures MarkedFor(world, sid) == None && AtAll(me, world, stored, sid) && AtHome(stored)
      ensures fallback <==> StoodIn(destinations, stored)
      ensures Told(job, destinations, stored, errors)
      ensures faults >= old(faults) && (errors != [] && unavailable == [] ==> faults > old(faults))
    {
      var failures;
      stored, failures := Upload(destinations, sid, ext, false);
      ProgressWider(me, old(world), world, Files(sid, destinations), FilesAnywhere(sid));
      fallback := stored == [] && Local !in destinations;
      if !fallback {
        AllTold(job, destinations, stored, unavailable, failures);
        return stored, false, unavailable + failures;
      }
      assert SameAt(old(world), world, ManifestAt(Local, sid));
      var more;
      stored, more := KeepInDataDir(old(world), sid, ext);
      FallbackTold(job, destinations, unavailable, failures, stored, more);
      errors := unavailable + failures + more;
    }

    /** The data dir steps in. */
    method KeepInDataDir(ghost u: World, sid: string, ext: Extension)
      returns (stored: seq<Place>, failures: seq<Problem>)
      requires Valid() && Uploads(me, sid) && !Foreign(me, sid) && sid in world.made && ext == world.made[sid].ext
      requires MarkedFor(world, sid) == None && ManifestAt(Local, sid) !in world.store && sid in world.building
      requires Progress(me, u, world, FilesAnywhere(sid))
      modifies this`world, this`turn, this`log, this`faults
      ensures Valid() && old(log) <= log && Progress(me, u, world, FilesAnywhere(sid))
      ensures MarkedFor(world, sid) == None && AtAll(me, world, stored, sid)
      ensures if stored == [] then failures == [UploadFailed(Local)]
              else stored == [Local] && failures == [KeptInDataDir]
      ensures faults >= old(faults)
    {
      stored, failures := Upload([Local], sid, ext, false);
      ProgressOver(me, u, old(world), world, FilesAnywhere(sid), Files(sid, [Local]), FilesAnywhere(sid));
      failures := if stored == [] then [UploadFailed(Local)] else [KeptInDataDir];
    }

    /** `_track_offsite` */
    method TrackOffsite(sid: string, stored: seq<Place>) returns (errors: seq<Problem>, aborted: bool)
      requires Valid() && Uploads(me, sid) && !Foreign(me, sid) && MarkedFor(world, sid) == None
      requires AtAll(me, world, stored, sid) && AtHome(stored) && sid in world.building
      modifies this
      ensures Valid() && old(log) <= log && Onward(old(world), world)
      ensures OnlyKeys(me, old(world), world, NotFilesOf(sid))
      ensures !aborted && OffsiteConfigured(job) && stored != [] ==> Tracked(world, sid)
      ensures FewerRivals(me, old(world), world)
      ensures !aborted && Offsites(stored) != [] ==> CaughtUpOn(me, job, old(world), world, Offsites(stored), errors)
      ensures KeepsLocal(job) ==> LocalFilesKept(me, old(world), world)
      ensures MarkedFor(world, sid) != None ==> OffsiteConfigured(job) && stored != [] && Offsites(stored) == []
      ensures faults >= old(faults) && (errors != [] || aborted ==> faults > old(faults))
      ensures crashes == old(crashes) + if aborted then 1 else 0
    {
      var offsite := Offsites(stored);
      OffsitesMeans(stored);
      if offsite == [] {
        AllLocal(stored);
        aborted := MarkPending(sid, stored);
        ProgressWider(me, old(world), world, iset{MarkerOf(sid)}, NotFilesOf(sid));
        KeysKeepLocal(me, old(world), world, iset{MarkerOf(sid)});
        return [], aborted;
      }
      assert sid !in PendingIds();
      errors, aborted := UploadBacklog(offsite);
      ProgressWider(me, old(world), world, Backlog(old(PendingIds())), NotFilesOf(sid));
      StillAtAll(me, old(world), world, offsite, sid, Backlog(old(PendingIds())));
      OneIsOffsite(me, world, offsite, sid);
    }

    /** Where retention at the destinations stands that began in `u`: the first `i` have had their turn. */
    ghost predicate RetainedUpTo(u: World, faultsBefore: nat, destinations: seq<Place>, i: nat, errors: seq<Problem>)
      requires Calendar.Valid(now)
      reads this`world, this`faults
    {
      && i <= |destinations| && Tidied(me, u, world) && OnlyRetention(errors)
      && faults >= faultsBefore && (errors != [] ==> faults > faultsBefore || AgeOverflows(job.retention, now))
      && (errors == [] && AllUndisputed(me, u, destinations) ==>
            FewAtAll(world, scope, destinations[..i], job.retention))
      && (OnlyEarlierRuns(u) ==> OnlyEarlierRuns(world) && IntactStays(u, world, RunId()))
      && OnlyAt(me, u, world, PlaceSet(destinations[..i]))
      && (errors == [] && me.alone ==> AllLeftExactly(me, u, world, destinations[..i], job.retention, now))
    }

    /** One turn. */
    method RetainAt(ghost u: World, ghost faultsBefore: nat, destinations: seq<Place>, i: nat, before: seq<Problem>)
      returns (errors: seq<Problem>)
      requires Calendar.Valid(now) && Valid() && i < |destinations|
      requires RetainedUpTo(u, faultsBefore, destinations, i, before)
      modifies this`world, this`turn, this`log, this`faults
      ensures Valid() && old(log) <= log && RetainedUpTo(u, faultsBefore, destinations, i + 1, errors)
    {
      var failures, snaps, picked := ApplyRetention(destinations[i], None);
      Retained(me, u, old(world), world);
      if before + failures == [] && AllUndisputed(me, u, destinations) {
        NothingNewFewerRivals(me, u, old(world));
        StillUndisputed(me, u, old(world), destinations);
        FewAtOneMore(me, old(world), world, destinations, i, job.retention, now, snaps, picked);
      }
      RetainedAtOneMore(u, old(world), destinations, i, before + failures, snaps, picked);
      errors := before + failures;
    }

    lemma RetainedAtOneMore(u: World, w: World, destinations: seq<Place>, i: nat, errors: seq<Problem>,
                            snaps: seq<Snapshot>, picked: set<string>)
      requires i < |destinations| && me.scope == scope && OnlyAt(me, u, w, PlaceSet(destinations[..i]))
      requires Progress(me, w, world, AllOfAt(destinations[i], picked))
      requires errors == [] && me.alone ==>
        && AllLeftExactly(me, u, w, destinations[..i], job.retention, now)
        && AllGoneAt(me, w, world, destinations[i], picked) && SelectPrunable(snaps, job.retention, now) == Some(picked)
        && AreSnapshots(snaps, LookedAt(w, scope, destinations[i], false), now)
      ensures OnlyAt(me, u, world, PlaceSet(destinations[..i + 1]))
      ensures errors == [] && me.alone ==>
        AllLeftExactly(me, u, world, destinations[..i + 1], job.retention, now)
    {
      TakeOneMore(destinations, i);
      OnlyAtOver(me, u, w, world, PlaceSet(destinations[..i]), destinations[i], picked);
      assert PlaceSet(destinations[..i + 1]) ==
        PlaceSet(destinations[..i]) + {destinations[i]};
      if errors == [] && me.alone {
        OneMoreLeftExactly(me, u, w, world, destinations[..i], destinations[i], job.retention, now, snaps, picked);
      }
    }

    /** Retention at every destination. */
    method RetainEach(destinations: seq<Place>) returns (errors: seq<Problem>)
      requires Calendar.Valid(now) && Valid()
      modifies this`world, this`turn, this`log, this`faults
      ensures Valid() && old(log) <= log
      ensures RetainedUpTo(old(world), old(faults), destinations, |destinations|, errors)
    {
      errors := [];
      SameStoreNothingNew(me, world, world);
      StartOnward(me, world);
      for i := 0 to |destinations|
        invariant Valid() && old(log) <= log && RetainedUpTo(old(world), old(faults), destinations, i, errors)
      {
        errors := RetainAt(old(world), old(faults), destinations, i, errors);
      }
    }

    /**
     Retention at every destination, then among this job's pending snapshots if the data dir was only the
     fallback.
     */
    method RetainAll(destinations: seq<Place>, fallback: bool) returns (errors: seq<Problem>)
      requires Calendar.Valid(now) && Valid() && (fallback ==> Local !in destinations)
      modifies this`world, this`turn, this`log, this`faults
      ensures Valid() && old(log) <= log && Tidied(me, old(world), world)
      ensures OnlyEarlierRuns(old(world)) ==> IntactStays(old(world), world, RunId())
      ensures errors == [] ==> RetentionDone(me, old(world), world, destinations, fallback, job.retention, now)
      ensures OnlyAt(me, old(world), world, RetainedPlaces(destinations, fallback))
      ensures OnlyRetention(errors)
      ensures faults >= old(faults) && (errors != [] ==> faults > old(faults) || AgeOverflows(job.retention, now))
    {
      assert destinations[..|destinations|] == destinations;
      errors := RetainEach(destinations);
      if fallback {
        errors := RetainFallback(old(world), old(faults), destinations, errors);
      }
    }

    /** The round among the pending snapshots. */
    method RetainFallback(ghost u: World, ghost faultsBefore: nat, ghost destinations: seq<Place>, before: seq<Problem>)
      returns (errors: seq<Problem>)
      requires Calendar.Valid(now) && Valid() && RetainedUpTo(u, faultsBefore, destinations, |destinations|, before)
      requires Local !in destinations
      modifies this`world, this`turn, this`log, this`faults
      ensures Valid() && old(log) <= log && Tidied(me, u, world) && OnlyRetention(errors)
      ensures faults >= faultsBefore && (errors != [] ==> faults > faultsBefore || AgeOverflows(job.retention, now))
      ensures OnlyEarlierRuns(u) ==> IntactStays(u, world, RunId())
      ensures errors == [] ==> RetentionDone(me, u, world, destinations, true, job.retention, now)
      ensures OnlyAt(me, u, world, RetainedPlaces(destinations, true))
    {
      var failures, snaps, picked := ApplyRetention(Local, Some(PendingIds()));
      Retained(me, u, old(world), world);
      assert destinations[..|destinations|] == destinations;
      errors := before + failures;
      if errors == [] && AllUndisputed(me, u, destinations) {
        NothingNewFewerRivals(me, u, old(world));
        StillUndisputed(me, u, old(world), destinations);
        StillFew(me, old(world), world, destinations, job.retention);
      }
      FallbackRetained(me, u, old(world), world, destinations, job.retention, now, errors, snaps, picked);
    }

    /** `_maybe_drop_local` */
    method MaybeDropLocal(sid: string, ext: Extension, stored: seq<Place>) returns (errors: seq<Problem>, aborted: bool)
      requires Valid() && Uploads(me, sid) && !Foreign(me, sid)
      requires forall place :: place in stored ==> Intact(world, place, sid) || WasPruned(world, sid)
      modifies this
      ensures Valid() && old(log) <= log && Progress(me, old(world), world, Dropped(job, stored, sid))
      ensures NothingNew(me, old(world), world)
      ensures !aborted && LocalGoes(job, stored) ==>
        ManifestAt(Local, sid) !in world.store && At(Local, Key(sid, Archive(ext))) !in world.store
      ensures KeptLocalCopy in errors <==> WouldGo(job, stored) && !LocalGoes(job, stored)
      ensures errors == [] || errors == [KeptLocalCopy]
      ensures faults >= old(faults) && (aborted ==> faults > old(faults))
      ensures crashes == old(crashes) + if aborted then 1 else 0
    {
      var offsite := Offsites(stored);
      OffsitesMeans(stored);
      NoProgress(me, world, Dropped(job, stored, sid));
      SameStoreNothingNew(me, world, world);
      if job.keepLocal || !HasLocal(job.specs) || Local !in stored {
        return [], false;
      }
      if offsite == [] {
        return [KeptLocalCopy], false;
      }
      assert offsite[0] in offsite;
      assert Offsite(world, sid) || WasPruned(world, sid);
      var ok := DropLocal(sid, ext, []);
      return [], !ok;
    }

    /** Build the archive and manifest of the new snapshot and deliver them. */
    method BuildAndDeliver(sid: string, artifact: Artifact)
      returns (destinations: seq<Place>, stored: seq<Place>, fallback: bool, errors: seq<Problem>)
      requires Valid() && LocalSpecOnce(job.specs)
      requires Uploads(me, sid) && !Foreign(me, sid) && IsFree(world, sid)
      modifies this`world, this`turn, this`log, this`faults
      ensures Valid() && old(log) <= log && Onward(old(world), world)
      ensures Delivered(me, old(world), world, sid, stored) && Told(job, destinations, stored, errors) && AtHome(stored)
      ensures sid in world.building && (fallback <==> StoodIn(destinations, stored))
      ensures faults >= old(faults) && (errors != [] ==> faults > old(faults))
    {
      ghost var w1 := Build(sid, artifact);
      ghost var w2 := world;
      destinations, stored, fallback, errors := Deliver(sid, artifact.ext);
      OnwardTransitive(old(world), w1, w2);
      OnwardTransitive(old(world), w2, world);
      DeliveredAfter(me, old(world), w1, w2, world, sid, artifact, stored);
    }

    /** The archive and the manifest are built. */
    method Build(sid: string, artifact: Artifact) returns (ghost w1: World)
      requires Valid() && Uploads(me, sid) && !Foreign(me, sid) && IsFree(world, sid)
      modifies this`world, this`turn, this`log
      ensures Valid() && old(log) <= log && NoFiles(world, sid)
      ensures Progress(me, old(world), w1, iset{}) && world == Apply(me, w1, Step.Make(sid, artifact))
      ensures Onward(w1, world)
    {
      Yield();
      w1 := world;
      StillFree(me, old(world), w1, sid);
      NotMadeNoFiles(w1, sid);
      world := world.(made := world.made[sid := artifact], building := world.building + {sid});
      Took(w1, Step.Make(sid, artifact));
    }

    /** The end of `run_job`: retention, then the local copy the job does not keep. */
    method RetainAndDrop(destinations: seq<Place>, fallback: bool, stored: seq<Place>, sid: string, ext: Extension)
      returns (errors: seq<Problem>, aborted: bool)
      requires Calendar.Valid(now) && Valid() && Uploads(me, sid) && !Foreign(me, sid) && AtAll(me, world, stored, sid)
      requires (fallback <==> StoodIn(destinations, stored)) && (HasLocal(job.specs) ==> Local in destinations)
      modifies this
      ensures Valid() && old(log) <= log
      ensures !aborted ==>
        TidiedSince(me, job, old(world), world, destinations, stored, sid, errors, now,
                    OnlyEarlierRuns(old(world)) && sid == RunId())
      ensures OnlyTidying(errors)
      ensures AfterRetention(me, old(world), world, sid, job.keepLocal, OnlyEarlierRuns(old(world)) && sid == RunId())
      ensures faults >= old(faults) && (aborted ==> faults > old(faults))
      ensures crashes == old(crashes) + if aborted then 1 else 0
    {
      errors := RetainAll(destinations, fallback);
      errors, aborted := DropAfter(old(world), destinations, stored, sid, ext, errors);
    }

    /** Where the end of the run stands after retention. */
    ghost predicate RetentionOver(u: World, destinations: seq<Place>, stored: seq<Place>, sid: string,
                                  errors: seq<Problem>)
      requires Calendar.Valid(now)
      reads this`world
    {
      && Tidied(me, u, world) && OnlyRetention(errors) && AtAll(me, u, stored, sid)
      && OnlyAt(me, u, world, RetainedPlaces(destinations, StoodIn(destinations, stored)))
      && (HasLocal(job.specs) ==> Local in destinations)
      && (OnlyEarlierRuns(u) ==> IntactStays(u, world, RunId()))
      && (errors == [] ==> RetentionDone(me, u, world, destinations, StoodIn(destinations, stored), job.retention, now))
    }

    /** The local copy the job does not keep. */
    method DropAfter(ghost u: World, ghost destinations: seq<Place>, stored: seq<Place>, sid: string, ext: Extension,
                     before: seq<Problem>)
      returns (errors: seq<Problem>, aborted: bool)
      requires Calendar.Valid(now) && Valid() && Uploads(me, sid) && !Foreign(me, sid)
      requires RetentionOver(u, destinations, stored, sid, before)
      modifies this
      ensures Valid() && old(log) <= log
      ensures !aborted ==>
        TidiedSince(me, job, u, world, destinations, stored, sid, errors, now, OnlyEarlierRuns(u) && sid == RunId())
      ensures OnlyTidying(errors)
      ensures AfterRetention(me, u, world, sid, job.keepLocal, OnlyEarlierRuns(u) && sid == RunId())
      ensures faults >= old(faults) && (aborted ==> faults > old(faults))
      ensures crashes == old(crashes) + if aborted then 1 else 0
    {
      var problems;
      problems, aborted := MaybeDropLocal(sid, ext, stored);
      TidyingAdded(before, problems);
      errors := before + problems;
      DropDone(me, job, u, old(world), world, destinations, stored, sid, now, OnlyEarlierRuns(u) && sid == RunId());
    }

    /** The first part of `run_job`: build, deliver and track the new snapshot. */
    method Store(sid: string, artifact: Artifact)
      returns (destinations: seq<Place>, stored: seq<Place>, fallback: bool, problems: seq<Problem>, aborted: bool)
      requires Valid() && LocalSpecOnce(job.specs)
      requires Uploads(me, sid) && !Foreign(me, sid) && IsFree(world, sid)
      modifies this
      ensures Valid() && old(log) <= log && Onward(old(world), world)
      ensures !aborted ==> StoredSince(me, job, old(world), world, destinations, stored, problems, sid)
      ensures OnlyAdds(me, old(world), world, sid) && (fallback <==> StoodIn(destinations, stored))
      ensures KeepsLocal(job) ==> LocalIntactStay(me, old(world), world)
      ensures faults >= old(faults) && (problems != [] || aborted ==> faults > old(faults))
      ensures crashes == old(crashes) + if aborted then 1 else 0
    {
      destinations, stored, fallback, problems := BuildAndDeliver(sid, artifact);
      ghost var w1 := world;
      var errors;
      errors, aborted := TrackOffsite(sid, stored);
      OnwardTransitive(old(world), w1, world);
      StoredAndTracked(me, job, old(world), w1, world, sid, destinations, stored, problems, errors, aborted);
      problems := problems + errors;
    }

    /** The end of `run_job`. */
    method FinishRun(ghost u: World, destinations: seq<Place>, stored: seq<Place>, fallback: bool,
                     problems: seq<Problem>, sid: string, ext: Extension)
      returns (finished: Option<Report>, ghost errors: seq<Problem>)
      requires Calendar.Valid(now) && Valid() && Uploads(me, sid) && !Foreign(me, sid)
      requires StoredSince(me, job, u, world, destinations, stored, problems, sid)
      requires fallback <==> StoodIn(destinations, stored)
      modifies this
      ensures Valid() && old(log) <= log && Onward(old(world), world)
      ensures finished.Some? ==>
        && Ended(me, job, u, old(world), world, finished.value, sid, now, OnlyEarlierRuns(old(world)) && sid == RunId())
        && finished.value.problems == problems + errors && OnlyTidying(errors)
      ensures KeepsLocal(job) ==> LocalIntactStay(me, u, world)
      ensures faults >= old(faults) && (finished.None? ==> faults > old(faults))
      ensures crashes == old(crashes) + if finished.None? then 1 else 0
    {
      var problems', aborted := RetainAndDrop(destinations, fallback, stored, sid, ext);
      errors := problems';
      LocalsAtEnd(me, job, u, old(world), world, sid, OnlyEarlierRuns(old(world)) && sid == RunId());
      if aborted {
        return None, errors;
      }
      RunEnds(me, job, u, old(world), world, destinations, stored, problems, problems', sid, now,
              OnlyEarlierRuns(old(world)) && sid == RunId());
      finished := Some(Report(destinations, stored, problems + problems'));
    }

    /**
     `run_job`: build and deliver the snapshot, track it off-site, prune, and drop the local copy the
     job does not keep. The run may abort, or any step of it fail; `None` stands for an aborted run.
     */
    method RunJob(sid: string, artifact: Artifact) returns (finished: Option<Report>, ghost delivered: World)
      requires Calendar.Valid(now) && Valid() && LocalSpecOnce(job.specs)
      requires Uploads(me, sid) && !Foreign(me, sid) && IsFree(world, sid)
      modifies this
      ensures Valid() && old(log) <= log && Onward(old(world), world)
      ensures finished.Some? ==>
        Ended(me, job, old(world), delivered, world, finished.value, sid, now,
              OnlyEarlierRuns(old(world)) && sid == RunId())
      ensures KeepsLocal(job) ==> LocalIntactStay(me, old(world), world)
      ensures faults >= old(faults) && (finished.None? ==> faults > old(faults))
      ensures crashes == old(crashes) + if finished.None? then 1 else 0
      ensures faults == old(faults) ==> finished.Some? && OnlyTidying(finished.value.problems)
    {
      delivered := world;
      if * {
        Crash();
        StartOnward(me, world);
        return None, delivered;
      }
      var destinations, stored, fallback, problems, aborted := Store(sid, artifact);
      delivered := world;
      if aborted {
        return None, delivered;
      }
      ghost var errors;
      finished, errors := FinishRun(old(world), destinations, stored, fallback, problems, sid, artifact.ext);
      OnwardTransitive(old(world), delivered, world);
    }

    // ---- Bringing a snapshot back ----

    /** `dest.get`: one file of the snapshot comes from an S3 place into the data dir. */
    method Download(place: Place, key: Key) returns (ok: bool)
      requires Valid() && Uploads(me, key.sid) && !Foreign(me, key.sid) && place != Local && key.kind != Marker
      requires MarkedFor(world, key.sid) == None && Offsite(world, key.sid) && At(place, key) in world.store
      modifies this`world, this`turn, this`log, this`faults
      ensures Valid() && old(log) <= log && Progress(me, old(world), world, iset{At(Local, key)})
      ensures ok ==> Holds(world, At(Local, key))
      ensures faults >= old(faults) && (!ok ==> faults > old(faults))
    {
      OffsiteKeysHold(world, At(place, key));
      assert ContentFits(world, At(place, key), world.store[At(place, key)]);
      ok := PutLocal(key, world.store[At(place, key)]);
    }

    /** Both files of the snapshot come from an S3 place that holds it: the archive, then the manifest. */
    method DownloadBoth(place: Place, sid: string, ext: Extension) returns (ok: bool)
      requires Valid() && Uploads(me, sid) && !Foreign(me, sid) && place != Local && MarkedFor(world, sid) == None
      requires Intact(world, place, sid) && ext == world.made[sid].ext
      modifies this`world, this`turn, this`log, this`faults
      ensures Valid() && old(log) <= log && Progress(me, old(world), world, Files(sid, [Local]))
      ensures ok ==> Intact(world, Local, sid)
      ensures faults >= old(faults) && (!ok ==> faults > old(faults))
    {
      ok := Download(place, Key(sid, Archive(ext)));
      ghost var w1 := world;
      ArchiveDownloaded(me, old(world), w1, place, sid);
      if !ok {
        return false;
      }
      ok := Download(place, Key(sid, Manifest));
      ManifestDownloaded(me, old(world), w1, world, sid, ok);
    }

    /** `list_keys` of one S3 place: it may fail, else it tells whether the place holds the snapshot. */
    method LookAt(place: Place, sid: string) returns (look: Look)
      requires Valid() && Uploads(me, sid) && place != Local
      modifies this`world, this`turn, this`faults
      ensures Valid() && Progress(me, old(world), world, iset{})
      ensures look.Missing? ==> !Intact(old(world), place, sid)
      ensures look.Listed? ==> Intact(world, place, sid) && look.ext == world.made[sid].ext
      ensures faults >= old(faults) && (look.Unlistable? ==> faults > old(faults))
    {
      Yield();
      OwnUnchangedKeeps(me, old(world), world, sid);
      if * {
        Fail();
        return Unlistable;
      }
      if ManifestAt(place, sid) !in world.store || FirstArchive(world, place, sid) == None {
        if Intact(world, place, sid) {
          IntactIsFound(world, place, sid);
        }
        return Missing;
      }
      FoundIsIntact(world, place, sid);
      return Listed(FirstArchive(world, place, sid).value);
    }

    /** The first S3 place of the job that can be listed and holds the snapshot, and the archive it lists. */
    method FindCopy(sid: string) returns (found: Option<(Place, Extension)>, unavailable: seq<Place>)
      requires Valid() && Uploads(me, sid)
      modifies this`world, this`turn, this`faults
      ensures Valid() && Progress(me, old(world), world, iset{})
      ensures found.Some? ==>
        found.value.0 != Local && Intact(world, found.value.0, sid) && found.value.1 == world.made[sid].ext
      ensures found.None? ==> Overlooked(old(world), job.specs, |job.specs|, unavailable, sid)
      ensures faults >= old(faults) && (unavailable != [] ==> faults > old(faults))
    {
      unavailable := [];
      NoProgress(me, world, iset{});
      for i := 0 to |job.specs|
        invariant Valid() && Progress(me, old(world), world, iset{})
        invariant faults >= old(faults) && (unavailable != [] ==> faults > old(faults))
        invariant Overlooked(old(world), job.specs, i, unavailable, sid)
      {
        OneMoreOverlooked(old(world), job.specs, i, unavailable, sid);
        if HasBucket(job.specs[i]) {
          ghost var w := world;
          var place := S3PlaceOf(job.specs[i]);
          var look := LookAt(place, sid);
          ProgressOver(me, old(world), w, world, iset{}, iset{}, iset{});
          OwnUnchangedKeeps(me, old(world), w, sid);
          if look.Listed? {
            return Some((place, look.ext)), unavailable;
          }
          unavailable := if look.Unlistable? then unavailable + [place] else unavailable;
        }
      }
      return None, unavailable;
    }

    /**
     `_hydrate_from_destinations`: a snapshot that is not in the data dir comes back from the first S3 place
     that can be listed and holds it.
     */
    method Hydrate(sid: string) returns (result: Hydration, unavailable: seq<Place>)
      requires Valid() && Uploads(me, sid) && !Foreign(me, sid) && MarkedFor(world, sid) == None
      modifies this`world, this`turn, this`log, this`faults
      ensures Valid() && old(log) <= log && Progress(me, old(world), world, Files(sid, [Local]))
      ensures result.AlreadyThere? <==> InDataDir(old(world), sid)
      ensures result.Hydrated? ==> Intact(world, Local, sid)
      ensures result.NowhereFound? ==> Overlooked(old(world), job.specs, |job.specs|, unavailable, sid)
      ensures faults >= old(faults) && (result.HydrationFailed? || unavailable != [] ==> faults > old(faults))
    {
      NoProgress(me, world, Files(sid, [Local]));
      var local := FindArtifact(sid);
      if local.Some? && ManifestAt(Local, sid) in world.store {
        return AlreadyThere, [];
      }
      var found;
      found, unavailable := FindCopy(sid);
      ghost var w1 := world;
      ProgressWider(me, old(world), w1, iset{}, Files(sid, [Local]));
      if found.None? {
        return NowhereFound, unavailable;
      }
      OwnUnchangedKeeps(me, old(world), w1, sid);
      var ok := DownloadBoth(found.value.0, sid, found.value.1);
      ProgressOver(me, old(world), w1, world, iset{}, Files(sid, [Local]), Files(sid, [Local]));
      return if ok then Hydrated else HydrationFailed, unavailable;
    }
  }
}
