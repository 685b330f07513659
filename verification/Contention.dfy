/** Plain snapshots between two jobs: whose they are when their keys change, and when the jobs race for them. */
module Contention {
  import opened Wrappers
  import opened SnapshotIds
  import opened SnapshotKeys
  import opened Ownership
  import opened Storage
  import opened Protocol
  import opened Interleaving

  // ---- Whose snapshot it is when a key changes ----

  /** Several jobs whose names differ as slugs, and the scope of each. */
  ghost predicate Configured(jobs: seq<Job>, scopes: seq<Scope>) {
    && |jobs| == |scopes| > 1
    && (forall i :: 0 <= i < |jobs| ==> IsScopeOf(jobs, jobs[i], scopes[i]))
    && (forall i, j :: 0 <= i < |jobs| && 0 <= j < |jobs| && i != j ==> JobSlug(jobs[i].name) != JobSlug(jobs[j].name))
  }

  /** No job but the one at `p` owns the snapshot, as it lies at the place in `w`. */
  predicate NobodyElses(scopes: seq<Scope>, p: nat, w: World, place: Place, sid: string) {
    forall i :: 0 <= i < |scopes| && i != p ==> !Owns(scopes[i], sid, place, MarkerSeen(w, place, sid))
  }

  ghost predicate NobodyStores(jobs: seq<Job>, place: Place) {
    forall i :: 0 <= i < |jobs| ==> !StoresAt(jobs[i], place)
  }

  lemma NobodyElsesExactly(jobs: seq<Job>, scopes: seq<Scope>, p: nat, w: World, place: Place, sid: string)
    requires Configured(jobs, scopes) && p < |jobs|
    requires (SlugOf(sid).Some? ==> SlugOf(sid).value == JobSlug(jobs[p].name))
    ensures NobodyElses(scopes, p, w, place, sid) <==>
      SlugOf(sid).Some? ||
      match MarkerSeen(w, place, sid)
      case Some(name) => name == jobs[p].name || forall i :: 0 <= i < |jobs| ==> jobs[i].name != name
      case None => IsFirstAt(jobs, place, jobs[p].name) || NobodyStores(jobs, place)
  {
    var marked := MarkerSeen(w, place, sid);
    if SlugOf(sid) == None {
      forall i | 0 <= i < |jobs|
        ensures Owns(scopes[i], sid, place, marked) <==>
          if marked.Some? then marked.value == jobs[i].name else IsFirstAt(jobs, place, jobs[i].name)
      {
      }
      if marked.None? && IsFirstAt(jobs, place, jobs[p].name) {
        forall i | 0 <= i < |jobs| && i != p ensures !Owns(scopes[i], sid, place, marked) {
          OwnershipDisjointExactly(jobs, jobs[p], scopes[p], jobs[i], scopes[i]);
        }
      } else if marked.None? && !NobodyStores(jobs, place) {
        var i :| 0 <= i < |jobs| && StoresAt(jobs[i], place);
        var f := FirstStore(jobs, place, i);
        assert IsFirstAt(jobs, place, jobs[f].name);
      }
    }
  }

  /**
   Whatever key a step of a job changes, in any sequence of runs, no other job owns its snapshot at that moment,
   exactly if the id names the job, or the marker does or names no job, or without a marker the job is the first
   that stores at the place or nobody stores there.
   */
  lemma ChangedIsNobodyElsesExactly(jobs: seq<Job>, scopes: seq<Scope>, p: nat, me: Actor, w: World, step: Step,
                                    loc: Loc)
    requires Configured(jobs, scopes) && p < |jobs| && me.scope == scopes[p]
    requires Allowed(me, w, step) && !SameAt(w, Apply(me, w, step), loc)
    ensures NobodyElses(scopes, p, w, loc.place, loc.key.sid) <==>
      SlugOf(loc.key.sid).Some? ||
      match MarkerSeen(w, loc.place, loc.key.sid)
      case Some(name) => name == jobs[p].name || forall i :: 0 <= i < |jobs| ==> jobs[i].name != name
      case None => IsFirstAt(jobs, loc.place, jobs[p].name) || NobodyStores(jobs, loc.place)
  {
    StepTouches(me, w, step);
    NobodyElsesExactly(jobs, scopes, p, w, loc.place, loc.key.sid);
  }

  // ---- The same for jobs side by side ----

  /** The jobs by name, with their buckets. */
  function PeersOf(jobs: seq<Job>): map<string, set<Place>> {
    if jobs == [] then map[] else PeersOf(jobs[1..])[jobs[0].name := BucketsOf(jobs[0])]
  }

  lemma {:induction false} IsPeer(jobs: seq<Job>, i: nat)
    requires i < |jobs| && forall k :: 0 <= k < |jobs| && k != i ==> jobs[k].name != jobs[i].name
    ensures jobs[i].name in PeersOf(jobs) && PeersOf(jobs)[jobs[i].name] == BucketsOf(jobs[i])
  {
    if i > 0 {
      assert jobs[1..][i - 1] == jobs[i];
      IsPeer(jobs[1..], i - 1);
    }
  }

  lemma {:induction false} PeerIsJob(jobs: seq<Job>, name: string) returns (i: nat)
    requires name in PeersOf(jobs)
    ensures i < |jobs| && jobs[i].name == name && PeersOf(jobs)[name] == BucketsOf(jobs[i])
  {
    if jobs[0].name == name {
      i := 0;
    } else {
      i := PeerIsJob(jobs[1..], name);
      i := i + 1;
    }
  }

  /** The jobs' runs, side by side. */
  ghost predicate RunBy(jobs: seq<Job>, scopes: seq<Scope>, actors: seq<Actor>) {
    && Configured(jobs, scopes) && |actors| == |jobs|
    && forall i :: 0 <= i < |jobs| ==>
         actors[i] == Actor(scopes[i], false, BucketsOf(jobs[i]), jobs[i].retention, PeersOf(jobs))
  }

  lemma AreSideBySide(jobs: seq<Job>, scopes: seq<Scope>, actors: seq<Actor>)
    requires RunBy(jobs, scopes, actors)
    ensures AllSideBySide(actors)
  {
    forall i, j | 0 <= i < |actors| && 0 <= j < |actors| && i != j ensures SideBySide(actors[i], actors[j]) {
      DisjointPlaces(jobs, scopes, i, j);
      IsPeer(jobs, i);
      IsPeer(jobs, j);
    }
  }

  lemma DisjointPlaces(jobs: seq<Job>, scopes: seq<Scope>, i: nat, j: nat)
    requires Configured(jobs, scopes) && i < |jobs| && j < |jobs| && i != j
    ensures scopes[i].plainAt.value !! scopes[j].plainAt.value
  {
    forall place | place in scopes[i].plainAt.value ensures place !in scopes[j].plainAt.value {
      if IsFirstAt(jobs, place, jobs[j].name) {
        FirstIsUnique(jobs, place, jobs[i].name, jobs[j].name);
      }
    }
  }

  /** The steps that change a plain snapshot where no marker says whose it is. */
  predicate IsUnmarkedChange(step: Step) {
    step.Put? || step.Drop? || (step.Prune? && step.place == Local && step.key.kind.Archive?)
  }

  lemma TouchesOwnExactly(jobs: seq<Job>, scopes: seq<Scope>, actors: seq<Actor>, p: nat, w: World, step: Step,
                          loc: Loc)
    requires RunBy(jobs, scopes, actors) && p < |jobs| && Inv(w)
    requires Allowed(actors[p], w, step) && !SameAt(w, Apply(actors[p], w, step), loc)
    ensures NobodyElses(scopes, p, w, loc.place, loc.key.sid) <==>
      || SlugOf(loc.key.sid).Some? || !IsUnmarkedChange(step)
      || IsFirstAt(jobs, loc.place, jobs[p].name) || NobodyStores(jobs, loc.place)
  {
    ChangedIsNobodyElsesExactly(jobs, scopes, p, actors[p], w, step, loc);
    if SlugOf(loc.key.sid) == None {
      PlainChange(jobs, scopes, actors[p], p, w, step, loc);
    }
  }

  /**
   Where the step changes a plain snapshot, no marker says whose it is exactly if the step is one of those, or it
   owns the place.
   */
  lemma PlainChange(jobs: seq<Job>, scopes: seq<Scope>, me: Actor, p: nat, w: World, step: Step, loc: Loc)
    requires Configured(jobs, scopes) && p < |jobs| && me.scope == scopes[p] && !me.alone
    requires Allowed(me, w, step) && !SameAt(w, Apply(me, w, step), loc) && IsPlain(loc.key.sid)
    ensures IsUnmarkedChange(step) ==> MarkerSeen(w, loc.place, loc.key.sid) == None
    ensures !IsUnmarkedChange(step) ==>
      MarkerSeen(w, loc.place, loc.key.sid) == Some(jobs[p].name)
      || (MarkerSeen(w, loc.place, loc.key.sid) == None && IsFirstAt(jobs, loc.place, jobs[p].name))
  {
    match step
    case Prune(place, key) =>
      assert loc == At(place, key) && loc in w.store;
      assert place == Local && key.kind == Manifest ==> loc == ManifestAt(Local, key.sid);
      assert place == Local && key.kind == Marker ==> loc == MarkerOf(key.sid);
    case _ =>
  }

  /**
   Over every interleaving of the jobs' runs, whatever key a move changes, no other job owns its snapshot at that
   moment - but for plain snapshots in three cases, and in those always, if another job comes first at the place:
   the catch-up puts a file to a bucket; it drops the local copy after the marker; and retention deletes the
   archive in the data dir after the marker.
   */
  lemma InterleavingTouchesOwnExactly(jobs: seq<Job>, scopes: seq<Scope>, actors: seq<Actor>, worlds: seq<World>,
                                      moves: seq<Move>,
                                      i: nat, loc: Loc)
    requires RunBy(jobs, scopes, actors) && IsExecution(actors, worlds, moves)
    requires Inv(worlds[0]) && EachKeepsToItsSteps(actors, worlds, moves)
    requires i < |moves| && !SameAt(worlds[i], worlds[i + 1], loc)
    ensures NobodyElses(scopes, moves[i].who, worlds[i], loc.place, loc.key.sid) <==>
      || SlugOf(loc.key.sid).Some? || !IsUnmarkedChange(moves[i].step)
      || IsFirstAt(jobs, loc.place, jobs[moves[i].who].name) || NobodyStores(jobs, loc.place)
  {
    AreSideBySide(jobs, scopes, actors);
    InterleavingKeepsInv(actors, worlds, moves, |moves|);
    TouchesOwnExactly(jobs, scopes, actors, moves[i].who, worlds[i], moves[i].step, loc);
  }

  /** The job that prunes owned what it chose; for ids that name a job, and at S3 places, nobody else ever owns it. */
  lemma PrunedBelongsToNobodyElse(jobs: seq<Job>, scopes: seq<Scope>, p: nat, me: Actor, chosen: World, now: World,
                                  step: Step, sid: string)
    requires Configured(jobs, scopes) && p < |jobs| && me.scope == scopes[p]
    requires Allowed(me, chosen, step) && step.Select? && sid in step.sids
    ensures Owns(me.scope, sid, step.place, MarkerSeen(chosen, step.place, sid))
    ensures NobodyElses(scopes, p, chosen, step.place, sid)
    ensures SlugOf(sid).Some? || MarkerSeen(now, step.place, sid) == MarkerSeen(chosen, step.place, sid) ==>
      NobodyElses(scopes, p, now, step.place, sid)
  {
    NobodyElsesExactly(jobs, scopes, p, chosen, step.place, sid);
    NobodyElsesExactly(jobs, scopes, p, now, step.place, sid);
  }

  /**
   The catch-up of a pending snapshot unlinks its marker before it drops the local copy. From then
   on the copy of a plain id belongs to the first job that stores in the data dir, so the drop
   is of the job's own snapshot exactly when the id names it or the job is that first one.
   */
  lemma OwnerAfterCatchUp(jobs: seq<Job>, a: Job, me: Actor, w: World, sid: string)
    requires |jobs| > 1 && IsScopeOf(jobs, a, me.scope)
    requires Inv(w) && MarkedFor(w, sid) == Some(me.scope.job) && Allowed(me, w, Unmark(sid))
    ensures Owns(me.scope, sid, Local, MarkedFor(w, sid))
    ensures Owns(me.scope, sid, Local, MarkedFor(Apply(me, w, Unmark(sid)), sid)) <==>
      SlugOf(sid).Some? || IsFirstAt(jobs, Local, a.name)
  {
  }
}
