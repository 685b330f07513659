/** Jobs run side by side on one storage: what one may rely on while the others work, and what all of them keep. */
module Interleaving {
  import opened Wrappers
  import opened SnapshotIds
  import opened SnapshotKeys
  import opened Ownership
  import opened Storage
  import opened Protocol

  // ---- Off-site tracking ----

  /** The snapshot is complete off-site, or marked for upload, or was pruned. */
  ghost predicate Tracked(w: World, sid: string) {
    Offsite(w, sid) || MarkedFor(w, sid).Some? || WasPruned(w, sid)
  }

  /** Tracking is never lost. */
  ghost predicate KeepsTrack(w: World, w': World) {
    forall sid :: Tracked(w, sid) ==> Tracked(w', sid)
  }

  /** Whatever any job does next, a tracked snapshot stays tracked. */
  lemma TrackedStays(me: Actor, w: World, step: Step, sid: string)
    requires Inv(w) && Allowed(me, w, step) && Tracked(w, sid)
    ensures Tracked(Apply(me, w, step), sid)
  {
    var w' := Apply(me, w, step);
    StepGrows(me, w, step);
    assert step.Prune? ==> Pick(me.scope.job, step.place, step.key.sid) in w.pruned && WasPruned(w, step.key.sid);
    if WasPruned(w, sid) {
      PrunedGrows(w, w', sid);
    } else if Offsite(w, sid) {
      var place :| place != Local && Intact(w, place, sid);
      CopyStays(me, w, step, place, sid);
    } else {
      assert MarkedFor(w', sid) == MarkedFor(w, sid);
    }
  }

  // ---- What a job relies on between two of its own steps ----

  predicate SameAt(w: World, w': World, loc: Loc) {
    (loc in w.store <==> loc in w'.store) && (loc in w.store ==> w'.store[loc] == w.store[loc])
  }

  /** Nobody else touches the files of the snapshots this job uploads, or builds under an id that names no other job. */
  ghost predicate OwnFilesStay(me: Actor, w: World, w': World) {
    && (forall loc: Loc :: Uploads(me, loc.key.sid) ==> SameAt(w, w', loc))
    && (forall sid :: !Foreign(me, sid) && sid in w'.made ==> sid in w.made)
    && (forall pick: Pick :: Uploads(me, pick.sid) && pick in w'.pruned ==> pick in w.pruned)
  }

  /**
   A plain snapshot listed in the data dir that waits for another job to upload it, beside this one: to the place or,
   for the data dir, anywhere.
   */
  predicate Rival(me: Actor, w: World, place: Place, sid: string) {
    && !me.alone && IsPlain(sid) && ManifestAt(Local, sid) in w.store
    && MarkedFor(w, sid).Some? && MarkedFor(w, sid) != Some(me.scope.job) && MarkedFor(w, sid).value in me.peers
    && var buckets := me.peers[MarkedFor(w, sid).value];
      if place == Local then buckets != {} else place in buckets
  }

  /** A file of such a snapshot may turn up off-site; if it is this job's to prune there, that is a race. */
  predicate RivalMayAdd(me: Actor, w: World, w': World, place: Place, sid: string) {
    place != Local && Rival(me, w, place, sid) && (OwnsPlain(me, place, sid) ==> Race(place, sid) in w'.raced)
  }

  /** A marker only goes. */
  predicate NoNewMarker(w: World, w': World, sid: string) {
    MarkerOf(sid) in w'.store ==> MarkerOf(sid) in w.store && w'.store[MarkerOf(sid)] == w.store[MarkerOf(sid)]
  }

  /** As long as its manifest is in the data dir, a snapshot is marked or not as before, but for rivals. */
  predicate MarkerStays(me: Actor, w: World, w': World, sid: string) {
    !Rival(me, w, Local, sid) && ManifestAt(Local, sid) in w'.store ==> MarkedFor(w', sid) == MarkedFor(w, sid)
  }

  /** Nothing is added but files of rivals off-site. */
  ghost predicate NoneAdded(me: Actor, w: World, w': World, sid: string) {
    forall place, kind :: At(place, Key(sid, kind)) in w'.store ==>
      At(place, Key(sid, kind)) in w.store || RivalMayAdd(me, w, w', place, sid)
  }

  /** The data dir's files of a snapshot are as before. */
  ghost predicate LocalStays(w: World, w': World, sid: string) {
    forall kind :: SameAt(w, w', At(Local, Key(sid, kind)))
  }

  /** Where plain snapshots are this job's, nobody else removes one. */
  ghost predicate OwnPlacesStay(me: Actor, w: World, w': World, sid: string) {
    forall place, kind :: place != Local && OwnsPlain(me, place, sid) && At(place, Key(sid, kind)) in w.store ==>
      At(place, Key(sid, kind)) in w'.store
  }

  /** What others do about a plain snapshot. */
  ghost predicate PlainRelied(me: Actor, w: World, w': World, sid: string) {
    IsPlain(sid) ==>
      && NoNewMarker(w, w', sid) && MarkerStays(me, w, w', sid) && NoneAdded(me, w, w', sid)
      && (Catches(me, w, sid) ==> LocalStays(w, w', sid)) && OwnPlacesStay(me, w, w', sid)
  }

  /** What holds between any two points of an execution. */
  ghost predicate Onward(w: World, w': World) {
    Grows(w, w') && NoLoss(w, w') && KeepsTrack(w, w') && OffsiteKeysStay(w, w')
  }

  lemma OnwardTransitive(u: World, v: World, w: World)
    requires Onward(u, v) && Onward(v, w)
    ensures Onward(u, w)
  {
    NoLossTransitive(u, v, w);
    forall loc: Loc | loc.place != Local && loc in u.store ensures loc in w.store || WasPruned(w, loc.key.sid) {
      if WasPruned(v, loc.key.sid) {
        PrunedGrows(v, w, loc.key.sid);
      }
    }
  }

  lemma StepOnward(me: Actor, w: World, step: Step)
    requires Inv(w) && Allowed(me, w, step)
    ensures Inv(Apply(me, w, step)) && Onward(w, Apply(me, w, step))
  {
    StepSafe(me, w, step);
    StepKeepsOffsiteKeys(me, w, step);
    forall sid | Tracked(w, sid) ensures Tracked(Apply(me, w, step), sid) {
      TrackedStays(me, w, step, sid);
    }
  }

  ghost predicate Rely(me: Actor, w: World, w': World) {
    && (me.alone ==> w' == w)
    && Onward(w, w') && OwnFilesStay(me, w, w')
    && (forall sid {:trigger PlainRelied(me, w, w', sid)} :: PlainRelied(me, w, w', sid))
  }

  lemma RelyReflexive(me: Actor, w: World)
    ensures Rely(me, w, w)
  {
  }

  lemma NoLossTransitive(u: World, v: World, w: World)
    requires NoLoss(u, v) && NoLoss(v, w) && Grows(v, w)
    ensures NoLoss(u, w)
  {
    forall sid | Somewhere(u, sid) ensures Somewhere(w, sid) || WasPruned(w, sid) {
      if WasPruned(v, sid) {
        PrunedGrows(v, w, sid);
      }
    }
  }

  lemma RelyTransitive(me: Actor, u: World, v: World, w: World)
    requires Rely(me, u, v) && Rely(me, v, w)
    ensures Rely(me, u, w)
  {
    OnwardTransitive(u, v, w);
    forall loc: Loc | Uploads(me, loc.key.sid) ensures SameAt(u, w, loc) {
      assert SameAt(u, v, loc) && SameAt(v, w, loc);
    }
    forall sid ensures PlainRelied(me, u, w, sid) {
      PlainReliedOver(me, u, v, w, sid);
    }
  }

  lemma RivalsStay(me: Actor, u: World, v: World, sid: string)
    requires NoNewMarker(u, v, sid) && (ManifestAt(Local, sid) in v.store ==> ManifestAt(Local, sid) in u.store)
    ensures forall place :: Rival(me, v, place, sid) ==> Rival(me, u, place, sid)
  {
  }

  lemma NoneAddedOver(me: Actor, u: World, v: World, w: World, sid: string)
    requires NoNewMarker(u, v, sid) && NoneAdded(me, u, v, sid) && NoneAdded(me, v, w, sid) && v.raced <= w.raced
    ensures NoneAdded(me, u, w, sid)
  {
    NoneAddedLocally(me, u, v, sid);
    RivalsStay(me, u, v, sid);
    forall place, kind | At(place, Key(sid, kind)) in w.store
      ensures At(place, Key(sid, kind)) in u.store || RivalMayAdd(me, u, w, place, sid)
    {
      assert At(place, Key(sid, kind)) in v.store || RivalMayAdd(me, v, w, place, sid);
      assert At(place, Key(sid, kind)) in v.store ==>
        At(place, Key(sid, kind)) in u.store || RivalMayAdd(me, u, v, place, sid);
    }
  }

  lemma NoneAddedLocally(me: Actor, w: World, w': World, sid: string)
    requires NoneAdded(me, w, w', sid)
    ensures forall kind :: At(Local, Key(sid, kind)) in w'.store ==> At(Local, Key(sid, kind)) in w.store
    ensures ManifestAt(Local, sid) in w'.store ==> ManifestAt(Local, sid) in w.store
    ensures MarkerOf(sid) in w'.store ==> MarkerOf(sid) in w.store
  {
    assert !RivalMayAdd(me, w, w', Local, sid);
    assert At(Local, Key(sid, Manifest)) == ManifestAt(Local, sid) && At(Local, Key(sid, Marker)) == MarkerOf(sid);
  }

  lemma MarkerStaysOver(me: Actor, u: World, v: World, w: World, sid: string)
    requires NoNewMarker(u, v, sid) && NoneAdded(me, u, v, sid) && NoneAdded(me, v, w, sid)
    requires MarkerStays(me, u, v, sid) && MarkerStays(me, v, w, sid)
    ensures MarkerStays(me, u, w, sid)
  {
    NoneAddedLocally(me, u, v, sid);
    NoneAddedLocally(me, v, w, sid);
    RivalsStay(me, u, v, sid);
  }

  lemma PlainReliedOver(me: Actor, u: World, v: World, w: World, sid: string)
    requires PlainRelied(me, u, v, sid) && PlainRelied(me, v, w, sid) && Grows(v, w)
    ensures PlainRelied(me, u, w, sid)
  {
    if IsPlain(sid) {
      NoneAddedOver(me, u, v, w, sid);
      MarkerStaysOver(me, u, v, w, sid);
      if Catches(me, u, sid) {
        assert SameAt(u, v, At(Local, Key(sid, Marker)));
        forall kind ensures SameAt(u, w, At(Local, Key(sid, kind))) {
          assert SameAt(u, v, At(Local, Key(sid, kind))) && SameAt(v, w, At(Local, Key(sid, kind)));
        }
      }
    }
  }

  /**
   Two jobs of one config that run at the same time: they differ as slugs, and plain snapshots are one's or the
   other's.
   */
  predicate SideBySide(me: Actor, other: Actor) {
    && !me.alone && !other.alone && JobSlug(me.scope.job) != JobSlug(other.scope.job)
    && me.scope.plainAt.Some? && other.scope.plainAt.Some? && me.scope.plainAt.value !! other.scope.plainAt.value
    && other.scope.job in me.peers && me.peers[other.scope.job] == other.buckets
    && me.scope.job in other.peers && other.peers[me.scope.job] == me.buckets
  }

  lemma OtherJobsIds(me: Actor, other: Actor, sid: string)
    requires SideBySide(me, other)
    ensures Uploads(other, sid) ==> Foreign(me, sid)
    ensures Uploads(me, sid) ==> Foreign(other, sid)
  {
  }

  /** Every step another job may take is one this job relies on. */
  lemma StepIsRelied(me: Actor, other: Actor, w: World, step: Step)
    requires Inv(w) && SideBySide(me, other) && Allowed(other, w, step)
    ensures Rely(me, w, Apply(other, w, step))
  {
    StepOnward(other, w, step);
    OthersLeaveOwn(me, other, w, step);
    forall sid ensures PlainRelied(me, w, Apply(other, w, step), sid) {
      if IsPlain(sid) {
        OthersMarkers(me, other, w, step, sid);
        OthersAddNone(me, other, w, step, sid);
        OthersRemoveNone(me, other, w, step, sid);
      }
    }
  }

  lemma OthersLeaveOwn(me: Actor, other: Actor, w: World, step: Step)
    requires Inv(w) && SideBySide(me, other) && Allowed(other, w, step)
    ensures OwnFilesStay(me, w, Apply(other, w, step))
  {
    var w' := Apply(other, w, step);
    StepTouches(other, w, step);
    forall loc: Loc | Uploads(me, loc.key.sid) ensures SameAt(w, w', loc) {
      OtherJobsIds(me, other, loc.key.sid);
    }
    forall sid | !Foreign(me, sid) && sid in w'.made ensures sid in w.made {
      OtherJobsIds(me, other, sid);
    }
    forall pick: Pick | Uploads(me, pick.sid) && pick in w'.pruned ensures pick in w.pruned {
      OtherJobsIds(me, other, pick.sid);
      if pick !in w.pruned {
        OwnedNotForeign(other, w, step, pick.sid);
      }
    }
  }

  lemma OthersMarkers(me: Actor, other: Actor, w: World, step: Step, sid: string)
    requires SideBySide(me, other) && Allowed(other, w, step) && IsPlain(sid)
    ensures NoNewMarker(w, Apply(other, w, step), sid) && MarkerStays(me, w, Apply(other, w, step), sid)
  {
  }

  /** Another job adds files of plain snapshots only off-site, when it catches up on one marked for it. */
  lemma OthersAddNone(me: Actor, other: Actor, w: World, step: Step, sid: string)
    requires SideBySide(me, other) && Allowed(other, w, step) && IsPlain(sid)
    ensures NoneAdded(me, w, Apply(other, w, step), sid)
  {
    var w' := Apply(other, w, step);
    forall place, kind | At(place, Key(sid, kind)) in w'.store && At(place, Key(sid, kind)) !in w.store
      ensures RivalMayAdd(me, w, w', place, sid)
    {
      assert step.Put? && step.place == place && step.key.sid == sid && Catches(other, w, sid);
      assert OwnsPlain(me, place, sid) ==> Races(other, place, sid);
    }
  }

  /** It removes none of a snapshot marked for this job, and none at a place where they are this job's. */
  lemma OthersRemoveNone(me: Actor, other: Actor, w: World, step: Step, sid: string)
    requires SideBySide(me, other) && Allowed(other, w, step) && IsPlain(sid)
    ensures Catches(me, w, sid) ==> LocalStays(w, Apply(other, w, step), sid)
    ensures OwnPlacesStay(me, w, Apply(other, w, step), sid)
  {
    if Catches(me, w, sid) {
      OthersLeavePending(me, other, w, step, sid);
    }
  }

  lemma OthersLeavePending(me: Actor, other: Actor, w: World, step: Step, sid: string)
    requires SideBySide(me, other) && Allowed(other, w, step) && Catches(me, w, sid)
    ensures LocalStays(w, Apply(other, w, step), sid)
  {
  }

  /** A step changes files only under ids that do not name another job, and builds only under ids of its own. */
  lemma StepTouches(me: Actor, w: World, step: Step)
    requires Allowed(me, w, step)
    ensures forall loc: Loc :: Foreign(me, loc.key.sid) ==> SameAt(w, Apply(me, w, step), loc)
    ensures forall sid :: sid in Apply(me, w, step).made && sid !in w.made ==> Uploads(me, sid)
  {
  }

  lemma OwnedNotForeign(me: Actor, w: World, step: Step, sid: string)
    requires Allowed(me, w, step) && step.Select? && sid in step.sids
    ensures !Foreign(me, sid)
  {
    assert Owns(me.scope, sid, step.place, MarkerSeen(w, step.place, sid));
  }

  // ---- Any interleaving of several jobs' steps ----

  datatype Move = Move(who: nat, step: Step)

  ghost predicate IsExecution(actors: seq<Actor>, worlds: seq<World>, moves: seq<Move>) {
    && |worlds| == |moves| + 1
    && (forall i :: 0 <= i < |moves| ==> moves[i].who < |actors|)
    && (forall i :: 0 <= i < |moves| ==> worlds[i + 1] == Apply(actors[moves[i].who], worlds[i], moves[i].step))
  }

  ghost predicate AllSideBySide(actors: seq<Actor>) {
    forall i, j :: 0 <= i < |actors| && 0 <= j < |actors| && i != j ==> SideBySide(actors[i], actors[j])
  }

  /** Up to move `i`, the other jobs did nothing the job at move `i` does not rely on. */
  ghost predicate Undisturbed(actors: seq<Actor>, worlds: seq<World>, moves: seq<Move>, i: nat)
    requires IsExecution(actors, worlds, moves) && i < |moves|
  {
    forall k :: 0 <= k < i && moves[k].who != moves[i].who ==> Rely(actors[moves[i].who], worlds[k], worlds[k + 1])
  }

  /** What Runner.dfy shows of each job on its own: it takes only allowed steps as long as it is undisturbed. */
  ghost predicate EachKeepsToItsSteps(actors: seq<Actor>, worlds: seq<World>, moves: seq<Move>)
    requires IsExecution(actors, worlds, moves)
  {
    forall i :: 0 <= i < |moves| ==>
      (Undisturbed(actors, worlds, moves, i) ==> Allowed(actors[moves[i].who], worlds[i], moves[i].step))
  }

  /**
   Then every interleaving of the jobs' steps - of runs in full or stopped at any step - takes only
   allowed steps, and keeps the invariant at every point.
   */
  lemma {:induction false} InterleavingKeepsInv(actors: seq<Actor>, worlds: seq<World>, moves: seq<Move>, n: nat)
    requires IsExecution(actors, worlds, moves) && AllSideBySide(actors) && Inv(worlds[0])
    requires EachKeepsToItsSteps(actors, worlds, moves) && n <= |moves|
    ensures forall i :: 0 <= i <= n ==> Inv(worlds[i])
    ensures forall i :: 0 <= i < n ==> Allowed(actors[moves[i].who], worlds[i], moves[i].step)
    decreases n
  {
    if n > 0 {
      InterleavingKeepsInv(actors, worlds, moves, n - 1);
      var last := n - 1;
      var me := actors[moves[last].who];
      forall k | 0 <= k < last && moves[k].who != moves[last].who ensures Rely(me, worlds[k], worlds[k + 1]) {
        StepIsRelied(me, actors[moves[k].who], worlds[k], moves[k].step);
      }
      assert Undisturbed(actors, worlds, moves, last);
      StepSafe(me, worlds[last], moves[last].step);
    }
  }

  /** Runs in sequence, each complete or stopped at any step: all their steps are allowed. */
  ghost predicate AllAllowed(actors: seq<Actor>, worlds: seq<World>, moves: seq<Move>)
    requires IsExecution(actors, worlds, moves)
  {
    forall i :: 0 <= i < |moves| ==> Allowed(actors[moves[i].who], worlds[i], moves[i].step)
  }

  lemma {:induction false} AllowedKeepsInv(actors: seq<Actor>, worlds: seq<World>, moves: seq<Move>, n: nat)
    requires IsExecution(actors, worlds, moves) && AllAllowed(actors, worlds, moves) && Inv(worlds[0]) && n <= |moves|
    ensures Inv(worlds[n])
    decreases n
  {
    if n > 0 {
      AllowedKeepsInv(actors, worlds, moves, n - 1);
      StepSafe(actors[moves[n - 1].who], worlds[n - 1], moves[n - 1].step);
    }
  }

  ghost predicate OnwardFrom(worlds: seq<World>, i: nat) {
    i + 1 < |worlds| && Onward(worlds[i], worlds[i + 1])
  }

  lemma MoveOnward(actors: seq<Actor>, worlds: seq<World>, moves: seq<Move>, i: nat)
    requires IsExecution(actors, worlds, moves) && AllAllowed(actors, worlds, moves) && Inv(worlds[0]) && i < |moves|
    ensures OnwardFrom(worlds, i)
  {
    AllowedKeepsInv(actors, worlds, moves, i);
    StepOnward(actors[moves[i].who], worlds[i], moves[i].step);
  }

  lemma {:induction false} AllOnward(worlds: seq<World>, i: nat, j: nat)
    requires i <= j < |worlds| && forall k :: i <= k < j ==> OnwardFrom(worlds, k)
    ensures Onward(worlds[i], worlds[j])
    decreases j
  {
    if i < j {
      AllOnward(worlds, i, j - 1);
      assert OnwardFrom(worlds, j - 1);
      OnwardTransitive(worlds[i], worlds[j - 1], worlds[j]);
    }
  }

  lemma AllowedGoesOnward(actors: seq<Actor>, worlds: seq<World>, moves: seq<Move>, i: nat, j: nat)
    requires IsExecution(actors, worlds, moves) && AllAllowed(actors, worlds, moves) && Inv(worlds[0])
    requires i <= j <= |moves|
    ensures Onward(worlds[i], worlds[j])
  {
    forall k | i <= k < j ensures OnwardFrom(worlds, k) {
      MoveOnward(actors, worlds, moves, k);
    }
    AllOnward(worlds, i, j);
  }

  /**
   Over every sequence of runs, a snapshot that was complete in some place stays complete in some
   place unless retention chose it: pending upload, fallback and `keep_local: false` never remove
   the last copy. And one that is off-site or marked for upload stays so, unless chosen.
   */
  lemma NothingIsLost(actors: seq<Actor>, worlds: seq<World>, moves: seq<Move>, i: nat, j: nat, sid: string)
    requires IsExecution(actors, worlds, moves) && AllAllowed(actors, worlds, moves) && Inv(worlds[0])
    requires i <= j <= |moves| && !WasPruned(worlds[j], sid)
    ensures (exists place :: Complete(worlds[i].store, place, sid)) ==>
      exists place :: Complete(worlds[j].store, place, sid)
    ensures Tracked(worlds[i], sid) ==> Offsite(worlds[j], sid) || MarkedFor(worlds[j], sid).Some?
  {
    AllowedGoesOnward(actors, worlds, moves, i, j);
    AllowedKeepsInv(actors, worlds, moves, i);
    AllowedKeepsInv(actors, worlds, moves, j);
    if place :| Complete(worlds[i].store, place, sid) {
      CompleteIsIntact(worlds[i], place, sid);
      assert Somewhere(worlds[i], sid);
      var q :| Intact(worlds[j], q, sid);
      CompleteIsIntact(worlds[j], q, sid);
    }
  }

  /** The same over every interleaving of several jobs. */
  lemma InterleavingLosesNothing(actors: seq<Actor>, worlds: seq<World>, moves: seq<Move>, i: nat, j: nat, sid: string)
    requires IsExecution(actors, worlds, moves) && AllSideBySide(actors) && Inv(worlds[0])
    requires EachKeepsToItsSteps(actors, worlds, moves)
    requires i <= j <= |moves| && !WasPruned(worlds[j], sid)
    ensures (exists place :: Complete(worlds[i].store, place, sid)) ==>
      exists place :: Complete(worlds[j].store, place, sid)
    ensures Tracked(worlds[i], sid) ==> Offsite(worlds[j], sid) || MarkedFor(worlds[j], sid).Some?
  {
    InterleavingKeepsInv(actors, worlds, moves, |moves|);
    NothingIsLost(actors, worlds, moves, i, j, sid);
  }

  /**
   Over any interleaving, every snapshot listed at an S3 place is complete there, at every point, unless jobs
   have raced for it there; `Contention` says when they do.
   */
  lemma InterleavingKeepsListings(actors: seq<Actor>, worlds: seq<World>, moves: seq<Move>, i: nat, place: Place,
                                  sid: string)
    requires IsExecution(actors, worlds, moves) && AllSideBySide(actors) && Inv(worlds[0])
    requires EachKeepsToItsSteps(actors, worlds, moves) && i <= |moves|
    requires place != Local && ManifestAt(place, sid) in worlds[i].store && Race(place, sid) !in worlds[i].raced
    ensures Complete(worlds[i].store, place, sid)
  {
    InterleavingKeepsInv(actors, worlds, moves, |moves|);
    ListedOffsiteIsComplete(worlds[i], place, sid);
  }
}
