/** When the listings of the buckets stay complete, whatever the jobs' runs do beside one another. */
module Listings {
  import opened Wrappers
  import opened SnapshotIds
  import opened SnapshotKeys
  import opened Ownership
  import opened Storage
  import opened Choices
  import opened Selectable
  import opened Protocol
  import opened Interleaving
  import opened Executions
  import opened RunFrames
  import opened Contention

  ghost predicate ListingsComplete(w: World) {
    forall place, sid :: place != Local && ManifestAt(place, sid) in w.store ==> Complete(w.store, place, sid)
  }

  /** At every point of every interleaving of the jobs' runs that begins in `w`. */
  ghost predicate ListingsStayComplete(actors: seq<Actor>, w: World) {
    forall worlds: seq<World>, moves: seq<Move>, i: nat :: IsRunningFrom(actors, w, worlds, moves) && i <= |moves| ==>
      ListingsComplete(worlds[i])
  }

  /** No run is under way. */
  predicate AtRest(w: World) {
    w.building == {} && w.chosen == {} && w.raced == {}
  }

  /** Where all listings are complete, nothing of past runs need be remembered. */
  lemma RestForgets(w: World)
    requires Inv(w) && ListingsComplete(w)
    ensures Inv(w.(building := {}, chosen := {}, raced := {})) && AtRest(w.(building := {}, chosen := {}, raced := {}))
  {
    var w' := w.(building := {}, chosen := {}, raced := {});
    forall sid ensures MarkedFor(w', sid) == MarkedFor(w, sid) && (Somewhere(w, sid) ==> Somewhere(w', sid)) {
      if place :| Intact(w, place, sid) {
        assert Intact(w', place, sid);
      }
    }
    forall place, sid | place != Local && ManifestAt(place, sid) in w'.store
      ensures sid in w'.made && ArchiveAt(w', place, sid) in w'.store
    {
      CompleteIsIntact(w, place, sid);
    }
    assert forall loc :: loc in w.store ==> ContentFits(w, loc, w.store[loc]) ==> ContentFits(w', loc, w.store[loc]);
    assert forall sid :: WasPruned(w, sid) ==> WasPruned(w', sid);
  }

  /** At each move of the jobs' runs. */
  lemma AtMove(jobs: seq<Job>, scopes: seq<Scope>, actors: seq<Actor>, w: World, worlds: seq<World>,
               moves: seq<Move>, i: nat)
    requires RunBy(jobs, scopes, actors) && IsRunningFrom(actors, w, worlds, moves) && i < |moves| && Inv(w)
    ensures Inv(worlds[i]) && moves[i].who < |jobs| && Allowed(actors[moves[i].who], worlds[i], moves[i].step)
    ensures worlds[i + 1] == Apply(actors[moves[i].who], worlds[i], moves[i].step)
  {
    AreSideBySide(jobs, scopes, actors);
    InterleavingKeepsInv(actors, worlds, moves, |moves|);
  }

  lemma InvAt(jobs: seq<Job>, scopes: seq<Scope>, actors: seq<Actor>, w: World, worlds: seq<World>,
              moves: seq<Move>, n: nat)
    requires RunBy(jobs, scopes, actors) && IsRunningFrom(actors, w, worlds, moves) && n <= |moves| && Inv(w)
    ensures Inv(worlds[n])
  {
    AreSideBySide(jobs, scopes, actors);
    InterleavingKeepsInv(actors, worlds, moves, |moves|);
  }

  // ---- What may lie at a bucket ----

  /** The job at `p` has the snapshot, whole in the data dir, to upload to a bucket. */
  ghost predicate Waits(jobs: seq<Job>, w: World, p: nat, sid: string, place: Place) {
    && p < |jobs| && MarkedFor(w, sid) == Some(jobs[p].name)
    && sid in w.made && HasLocalFiles(w, sid) && place in BucketsOf(jobs[p])
  }

  /** A plain snapshot waits. */
  ghost predicate IsBound(jobs: seq<Job>, w: World, p: nat, sid: string, place: Place) {
    IsPlain(sid) && Waits(jobs, w, p, sid, place)
  }

  /** The snapshot is listed at the bucket, or waits for an upload to it, or a run of the job at `f` may build it. */
  ghost predicate MayLie(jobs: seq<Job>, w: World, f: nat, sid: string, place: Place)
    requires f < |jobs|
  {
    || ManifestAt(place, sid) in w.store
    || (exists p: nat :: Waits(jobs, w, p, sid, place))
    || (SlugOf(sid) == Some(JobSlug(jobs[f].name)) && (sid in w.building || IsFree(w, sid)))
  }

  /** The snapshots that retention of the job at `f` may come to look at in a bucket. */
  ghost function Pool(jobs: seq<Job>, scopes: seq<Scope>, w: World, f: nat, place: Place): iset<string>
    requires f < |jobs| == |scopes|
  {
    iset sid | Owns(scopes[f], sid, place, None) && MayLie(jobs, w, f, sid, place)
  }

  /** Beside other jobs, the backlog does not grow but by what a run has built. */
  lemma WasWaiting(jobs: seq<Job>, scopes: seq<Scope>, actors: seq<Actor>, p: nat, w: World, step: Step, q: nat,
                   sid: string, place: Place)
    requires RunBy(jobs, scopes, actors) && p < |jobs| && Inv(w) && Allowed(actors[p], w, step)
    requires Waits(jobs, Apply(actors[p], w, step), q, sid, place)
    ensures Waits(jobs, w, q, sid, place) || (SlugOf(sid) == Some(JobSlug(jobs[p].name)) && sid in w.building)
  {
    var w' := Apply(actors[p], w, step);
    MarkersAppear(actors[p], w, step, sid);
    if MarkedFor(w, sid) == MarkedFor(w', sid) {
      assert ContentFits(w, MarkerOf(sid), w.store[MarkerOf(sid)]);
      assert w'.made[sid] == w.made[sid];
    }
  }

  /** Beside other jobs, the plain backlog only shrinks. */
  lemma WasBound(jobs: seq<Job>, scopes: seq<Scope>, actors: seq<Actor>, p: nat, w: World, step: Step, q: nat,
                 sid: string, place: Place)
    requires RunBy(jobs, scopes, actors) && p < |jobs| && Inv(w) && Allowed(actors[p], w, step)
    requires IsBound(jobs, Apply(actors[p], w, step), q, sid, place)
    ensures IsBound(jobs, w, q, sid, place)
  {
    WasWaiting(jobs, scopes, actors, p, w, step, q, sid, place);
  }

  /** No step brings a snapshot to a bucket that might not lie there before. */
  lemma PoolShrinks(jobs: seq<Job>, scopes: seq<Scope>, actors: seq<Actor>, p: nat, w: World, step: Step, f: nat,
                    place: Place, sid: string)
    requires RunBy(jobs, scopes, actors) && p < |jobs| && f < |jobs| && place != Local
    requires Inv(w) && Allowed(actors[p], w, step) && sid in Pool(jobs, scopes, Apply(actors[p], w, step), f, place)
    ensures sid in Pool(jobs, scopes, w, f, place)
  {
    var w' := Apply(actors[p], w, step);
    if ManifestAt(place, sid) in w'.store && ManifestAt(place, sid) !in w.store {
      WasPut(jobs, scopes, actors, p, w, step, sid, place);
    } else if q: nat :| Waits(jobs, w', q, sid, place) {
      WasWaiting(jobs, scopes, actors, p, w, step, q, sid, place);
    } else if ManifestAt(place, sid) !in w.store {
      WasFree(actors[p], w, step, sid);
    }
  }

  lemma WasPut(jobs: seq<Job>, scopes: seq<Scope>, actors: seq<Actor>, p: nat, w: World, step: Step, sid: string,
               place: Place)
    requires RunBy(jobs, scopes, actors) && p < |jobs| && place != Local && Allowed(actors[p], w, step)
    requires ManifestAt(place, sid) in Apply(actors[p], w, step).store && ManifestAt(place, sid) !in w.store
    ensures Waits(jobs, w, p, sid, place) || (SlugOf(sid) == Some(JobSlug(jobs[p].name)) && sid in w.building)
  {
    assert step.Put? && step.place == place && step.key.sid == sid;
  }

  lemma WasFree(me: Actor, w: World, step: Step, sid: string)
    requires Allowed(me, w, step) && (sid in Apply(me, w, step).building || IsFree(Apply(me, w, step), sid))
    ensures sid in w.building || IsFree(w, sid)
  {
    StepGrows(me, w, step);
    if IsFree(Apply(me, w, step), sid) {
      forall a | a in w.made ensures Apart(sid, a) {
        assert a in Apply(me, w, step).made;
      }
    }
  }

  lemma {:induction false} PoolShrinksFrom(jobs: seq<Job>, scopes: seq<Scope>, actors: seq<Actor>, w: World,
                                           worlds: seq<World>, moves: seq<Move>, n: nat, f: nat, place: Place)
    requires RunBy(jobs, scopes, actors) && IsRunningFrom(actors, w, worlds, moves) && n <= |moves| && Inv(w)
    requires f < |jobs| && place != Local
    ensures Pool(jobs, scopes, worlds[n], f, place) <= Pool(jobs, scopes, w, f, place)
    decreases n
  {
    if n > 0 {
      PoolShrinksFrom(jobs, scopes, actors, w, worlds, moves, n - 1, f, place);
      AtMove(jobs, scopes, actors, w, worlds, moves, n - 1);
      forall sid | sid in Pool(jobs, scopes, worlds[n], f, place)
        ensures sid in Pool(jobs, scopes, worlds[n - 1], f, place)
      {
        PoolShrinks(jobs, scopes, actors, moves[n - 1].who, worlds[n - 1], moves[n - 1].step, f, place, sid);
      }
    }
  }

  lemma {:induction false} BoundFrom(jobs: seq<Job>, scopes: seq<Scope>, actors: seq<Actor>, w: World,
                                     worlds: seq<World>, moves: seq<Move>, n: nat, q: nat, sid: string, place: Place)
    requires RunBy(jobs, scopes, actors) && IsRunningFrom(actors, w, worlds, moves) && n <= |moves| && Inv(w)
    requires IsBound(jobs, worlds[n], q, sid, place)
    ensures IsBound(jobs, w, q, sid, place)
    decreases n
  {
    if n > 0 {
      AtMove(jobs, scopes, actors, w, worlds, moves, n - 1);
      WasBound(jobs, scopes, actors, moves[n - 1].who, worlds[n - 1], moves[n - 1].step, q, sid, place);
      BoundFrom(jobs, scopes, actors, w, worlds, moves, n - 1, q, sid, place);
    }
  }

  // ---- What retention may choose there ----

  /** Retention of the job at `f` may choose the snapshot at a bucket, or has chosen it. */
  ghost predicate MayGo(jobs: seq<Job>, scopes: seq<Scope>, w: World, f: nat, sid: string, place: Place)
    requires f < |jobs| == |scopes|
  {
    || Pick(jobs[f].name, place, sid) in w.chosen
    || MayBeSelected(jobs[f].retention, sid, Pool(jobs, scopes, w, f, place))
  }

  lemma ListedAreInPool(jobs: seq<Job>, scopes: seq<Scope>, w: World, f: nat, place: Place)
    requires f < |jobs| == |scopes| && place != Local
    ensures AllIn(CandidatesIn(w, scopes[f], place, None), Pool(jobs, scopes, w, f, place))
  {
    forall sid | sid in CandidatesIn(w, scopes[f], place, None) ensures sid in Pool(jobs, scopes, w, f, place) {
      assert MayLie(jobs, w, f, sid, place);
    }
  }

  lemma NewChoice(jobs: seq<Job>, scopes: seq<Scope>, actors: seq<Actor>, p: nat, w: World, step: Step, f: nat,
                  sid: string, place: Place)
    requires RunBy(jobs, scopes, actors) && p < |jobs| && f < |jobs| && place != Local && Allowed(actors[p], w, step)
    requires Pick(jobs[f].name, place, sid) in Apply(actors[p], w, step).chosen
    requires Pick(jobs[f].name, place, sid) !in w.chosen
    ensures MayBeSelected(jobs[f].retention, sid, Pool(jobs, scopes, w, f, place))
  {
    assert p == f && step.Select? && step.place == place && sid in step.sids;
    var standIn, snaps, now :| (standIn ==> place == Local)
      && Selects(jobs[f].retention, snaps, LookedAt(w, scopes[f], place, standIn), now, step.sids);
    ListedAreInPool(jobs, scopes, w, f, place);
  }

  lemma NewlyChosenMayGo(jobs: seq<Job>, scopes: seq<Scope>, actors: seq<Actor>, w: World, worlds: seq<World>,
                         moves: seq<Move>, i: nat, f: nat, sid: string, place: Place)
    requires RunBy(jobs, scopes, actors) && IsRunningFrom(actors, w, worlds, moves) && i < |moves| && Inv(w)
    requires f < |jobs| && place != Local
    requires Pick(jobs[f].name, place, sid) in worlds[i + 1].chosen
    requires Pick(jobs[f].name, place, sid) !in worlds[i].chosen
    ensures MayGo(jobs, scopes, w, f, sid, place)
  {
    AtMove(jobs, scopes, actors, w, worlds, moves, i);
    NewChoice(jobs, scopes, actors, moves[i].who, worlds[i], moves[i].step, f, sid, place);
    PoolShrinksFrom(jobs, scopes, actors, w, worlds, moves, i, f, place);
    MoreMayBeSelected(jobs[f].retention, sid, Pool(jobs, scopes, worlds[i], f, place),
                      Pool(jobs, scopes, w, f, place));
  }

  lemma {:induction false} SinceWhen(worlds: seq<World>, n: nat, pick: Pick) returns (i: nat)
    requires n < |worlds| && pick in worlds[n].chosen && pick !in worlds[0].chosen
    ensures i < n && pick !in worlds[i].chosen && pick in worlds[i + 1].chosen
    decreases n
  {
    if pick in worlds[n - 1].chosen {
      i := SinceWhen(worlds, n - 1, pick);
    } else {
      i := n - 1;
    }
  }

  /** Whatever is chosen at a bucket, the job's policy may select among what may lie there. */
  lemma ChosenMayGo(jobs: seq<Job>, scopes: seq<Scope>, actors: seq<Actor>, w: World, worlds: seq<World>,
                    moves: seq<Move>, n: nat, f: nat, sid: string, place: Place)
    requires RunBy(jobs, scopes, actors) && IsRunningFrom(actors, w, worlds, moves) && n <= |moves| && Inv(w)
    requires f < |jobs| && place != Local && Pick(jobs[f].name, place, sid) in worlds[n].chosen
    ensures MayGo(jobs, scopes, w, f, sid, place)
  {
    if Pick(jobs[f].name, place, sid) !in worlds[0].chosen {
      var i := SinceWhen(worlds, n, Pick(jobs[f].name, place, sid));
      NewlyChosenMayGo(jobs, scopes, actors, w, worlds, moves, i, f, sid, place);
    }
  }

  /** A key of a plain snapshot at a bucket only goes if the first job there has chosen it. */
  lemma GoneIsChosen(jobs: seq<Job>, scopes: seq<Scope>, actors: seq<Actor>, p: nat, w: World, step: Step, f: nat,
                     loc: Loc)
    requires RunBy(jobs, scopes, actors) && p < |jobs| && Allowed(actors[p], w, step)
    requires f < |jobs| && IsFirstAt(jobs, loc.place, jobs[f].name) && loc.place != Local && IsPlain(loc.key.sid)
    requires loc in w.store && loc !in Apply(actors[p], w, step).store
    ensures Pick(jobs[f].name, loc.place, loc.key.sid) in w.chosen
  {
    assert step == Step.Prune(loc.place, loc.key) && OwnsPlain(actors[p], loc.place, loc.key.sid);
    assert IsFirstAt(jobs, loc.place, jobs[p].name);
    FirstIsUnique(jobs, loc.place, jobs[p].name, jobs[f].name);
  }

  lemma GoneMayGo(jobs: seq<Job>, scopes: seq<Scope>, actors: seq<Actor>, w: World, worlds: seq<World>,
                  moves: seq<Move>, i: nat, f: nat, loc: Loc)
    requires RunBy(jobs, scopes, actors) && IsRunningFrom(actors, w, worlds, moves) && i < |moves| && Inv(w)
    requires f < |jobs| && IsFirstAt(jobs, loc.place, jobs[f].name) && loc.place != Local && IsPlain(loc.key.sid)
    requires loc in worlds[i].store && loc !in worlds[i + 1].store
    ensures MayGo(jobs, scopes, w, f, loc.key.sid, loc.place)
  {
    AtMove(jobs, scopes, actors, w, worlds, moves, i);
    GoneIsChosen(jobs, scopes, actors, moves[i].who, worlds[i], moves[i].step, f, loc);
    ChosenMayGo(jobs, scopes, actors, w, worlds, moves, i, f, loc.key.sid, loc.place);
  }

  lemma {:induction false} UntilWhen(worlds: seq<World>, n: nat, loc: Loc) returns (i: nat)
    requires n < |worlds| && loc in worlds[0].store && loc !in worlds[n].store
    ensures i < n && loc in worlds[i].store && loc !in worlds[i + 1].store
    decreases n
  {
    if loc in worlds[n - 1].store {
      i := n - 1;
    } else {
      i := UntilWhen(worlds, n - 1, loc);
    }
  }

  lemma WentMayGo(jobs: seq<Job>, scopes: seq<Scope>, actors: seq<Actor>, w: World, worlds: seq<World>,
                  moves: seq<Move>, n: nat, f: nat, loc: Loc)
    requires RunBy(jobs, scopes, actors) && IsRunningFrom(actors, w, worlds, moves) && n <= |moves| && Inv(w)
    requires f < |jobs| && IsFirstAt(jobs, loc.place, jobs[f].name) && loc.place != Local && IsPlain(loc.key.sid)
    requires loc in w.store && loc !in worlds[n].store
    ensures MayGo(jobs, scopes, w, f, loc.key.sid, loc.place)
  {
    var i := UntilWhen(worlds, n, loc);
    GoneMayGo(jobs, scopes, actors, w, worlds, moves, i, f, loc);
  }

  // ---- Where jobs may cross ----

  /** A plain snapshot waits for an upload to a bucket where another job comes first. */
  ghost predicate IsContended(jobs: seq<Job>, w: World, sid: string, place: Place) {
    exists p: nat :: IsBound(jobs, w, p, sid, place) && !IsFirstAt(jobs, place, jobs[p].name)
  }

  /** And that job's policy may select it there. */
  ghost predicate MayCross(jobs: seq<Job>, scopes: seq<Scope>, w: World, f: nat, sid: string, place: Place)
    requires |jobs| == |scopes|
  {
    && f < |jobs| && IsContended(jobs, w, sid, place) && IsFirstAt(jobs, place, jobs[f].name)
    && MayBeSelected(jobs[f].retention, sid, Pool(jobs, scopes, w, f, place))
  }

  ghost predicate NobodyMayCross(jobs: seq<Job>, scopes: seq<Scope>, w: World, sid: string, place: Place)
    requires |jobs| == |scopes|
  {
    forall f: nat :: !MayCross(jobs, scopes, w, f, sid, place)
  }

  lemma RacerIsBound(jobs: seq<Job>, scopes: seq<Scope>, actors: seq<Actor>, p: nat, w: World, step: Step,
                     sid: string, place: Place)
    requires RunBy(jobs, scopes, actors) && p < |jobs| && Allowed(actors[p], w, step) && Race(place, sid) !in w.raced
    requires Race(place, sid) in Apply(actors[p], w, step).raced
    ensures place != Local && IsBound(jobs, w, p, sid, place) && !IsFirstAt(jobs, place, jobs[p].name)
    ensures ArchiveAt(w, place, sid) in Apply(actors[p], w, step).store
  {
    assert step.Put? && step.place == place && step.key.sid == sid;
  }

  /** A raced snapshot has its archive, and a job waited to put it there from the start. */
  ghost predicate HasArchive(jobs: seq<Job>, w: World, now: World, sid: string, place: Place) {
    place != Local && IsContended(jobs, w, sid, place) && sid in now.made && ArchiveAt(now, place, sid) in now.store
  }

  lemma KeepsArchive(jobs: seq<Job>, scopes: seq<Scope>, actors: seq<Actor>, w: World, worlds: seq<World>,
                     moves: seq<Move>, i: nat, sid: string, place: Place)
    requires RunBy(jobs, scopes, actors) && IsRunningFrom(actors, w, worlds, moves) && i < |moves|
    requires Inv(w) && AtRest(w) && NobodyMayCross(jobs, scopes, w, sid, place)
    requires HasArchive(jobs, w, worlds[i], sid, place)
    ensures HasArchive(jobs, w, worlds[i + 1], sid, place)
  {
    AtMove(jobs, scopes, actors, w, worlds, moves, i);
    StepGrows(actors[moves[i].who], worlds[i], moves[i].step);
    var archive := ArchiveAt(worlds[i], place, sid);
    if archive !in worlds[i + 1].store {
      var f := FirstWhereContended(jobs, w, sid, place);
      GoneMayGo(jobs, scopes, actors, w, worlds, moves, i, f, archive);
      assert MayCross(jobs, scopes, w, f, sid, place);
    }
  }

  lemma FirstWhereContended(jobs: seq<Job>, w: World, sid: string, place: Place) returns (f: nat)
    requires IsContended(jobs, w, sid, place)
    ensures f < |jobs| && IsFirstAt(jobs, place, jobs[f].name) && IsPlain(sid)
  {
    var q: nat :| IsBound(jobs, w, q, sid, place);
    f := FirstStore(jobs, place, q);
  }

  lemma NewRace(jobs: seq<Job>, scopes: seq<Scope>, actors: seq<Actor>, w: World, worlds: seq<World>,
                moves: seq<Move>, i: nat, sid: string, place: Place)
    requires RunBy(jobs, scopes, actors) && IsRunningFrom(actors, w, worlds, moves) && i < |moves| && Inv(w)
    requires Race(place, sid) in worlds[i + 1].raced && Race(place, sid) !in worlds[i].raced
    ensures HasArchive(jobs, w, worlds[i + 1], sid, place)
  {
    AtMove(jobs, scopes, actors, w, worlds, moves, i);
    StepGrows(actors[moves[i].who], worlds[i], moves[i].step);
    RacerIsBound(jobs, scopes, actors, moves[i].who, worlds[i], moves[i].step, sid, place);
    BoundFrom(jobs, scopes, actors, w, worlds, moves, i, moves[i].who, sid, place);
  }

  lemma {:induction false} SinceRace(worlds: seq<World>, n: nat, race: Race) returns (i: nat)
    requires n < |worlds| && race in worlds[n].raced && race !in worlds[0].raced
    ensures i < n && race !in worlds[i].raced && race in worlds[i + 1].raced
    decreases n
  {
    if race in worlds[n - 1].raced {
      i := SinceRace(worlds, n - 1, race);
    } else {
      i := n - 1;
    }
  }

  ghost predicate KeepsIt(jobs: seq<Job>, w: World, worlds: seq<World>, i: nat, sid: string, place: Place) {
    i + 1 < |worlds| && (HasArchive(jobs, w, worlds[i], sid, place) ==> HasArchive(jobs, w, worlds[i + 1], sid, place))
  }

  lemma {:induction false} ArchiveStays(jobs: seq<Job>, w: World, worlds: seq<World>, i: nat, n: nat, sid: string,
                                        place: Place)
    requires i <= n < |worlds| && forall k :: i <= k < n ==> KeepsIt(jobs, w, worlds, k, sid, place)
    requires HasArchive(jobs, w, worlds[i], sid, place)
    ensures HasArchive(jobs, w, worlds[n], sid, place)
    decreases n
  {
    if i < n {
      ArchiveStays(jobs, w, worlds, i, n - 1, sid, place);
      assert KeepsIt(jobs, w, worlds, n - 1, sid, place);
    }
  }

  /** Where retention of the first job cannot choose it, a snapshot jobs race for keeps its archive. */
  lemma RacedKeepArchives(jobs: seq<Job>, scopes: seq<Scope>, actors: seq<Actor>, w: World, worlds: seq<World>,
                          moves: seq<Move>, n: nat, sid: string, place: Place)
    requires RunBy(jobs, scopes, actors) && IsRunningFrom(actors, w, worlds, moves) && n <= |moves|
    requires Inv(w) && AtRest(w) && NobodyMayCross(jobs, scopes, w, sid, place)
    requires Race(place, sid) in worlds[n].raced
    ensures HasArchive(jobs, w, worlds[n], sid, place)
  {
    var i := SinceRace(worlds, n, Race(place, sid));
    NewRace(jobs, scopes, actors, w, worlds, moves, i, sid, place);
    forall k | i + 1 <= k < n ensures KeepsIt(jobs, w, worlds, k, sid, place) {
      if HasArchive(jobs, w, worlds[k], sid, place) {
        KeepsArchive(jobs, scopes, actors, w, worlds, moves, k, sid, place);
      }
    }
    ArchiveStays(jobs, w, worlds, i + 1, n, sid, place);
  }

  /** With its archive beside it, a listed snapshot is complete. */
  lemma WithArchiveIsComplete(w: World, place: Place, sid: string)
    requires Inv(w) && place != Local && ManifestAt(place, sid) in w.store
    requires sid in w.made && ArchiveAt(w, place, sid) in w.store
    ensures Complete(w.store, place, sid)
  {
    ListedAreMade(w, place, {sid});
    assert ContentFits(w, ManifestAt(place, sid), w.store[ManifestAt(place, sid)]);
    assert ContentFits(w, ArchiveAt(w, place, sid), w.store[ArchiveAt(w, place, sid)]);
    assert IsPair(w.store, place, sid, w.made[sid].ext, w.made[sid].bytes);
  }

  lemma NoneCross(jobs: seq<Job>, scopes: seq<Scope>, actors: seq<Actor>, w: World, worlds: seq<World>,
                  moves: seq<Move>, n: nat)
    requires RunBy(jobs, scopes, actors) && IsRunningFrom(actors, w, worlds, moves) && n <= |moves|
    requires Inv(w) && AtRest(w) && forall sid, place :: NobodyMayCross(jobs, scopes, w, sid, place)
    ensures ListingsComplete(worlds[n])
  {
    InvAt(jobs, scopes, actors, w, worlds, moves, n);
    forall place, sid | place != Local && ManifestAt(place, sid) in worlds[n].store
      ensures Complete(worlds[n].store, place, sid)
    {
      if Race(place, sid) in worlds[n].raced {
        RacedKeepArchives(jobs, scopes, actors, w, worlds, moves, n, sid, place);
        WithArchiveIsComplete(worlds[n], place, sid);
      } else {
        ListedOffsiteIsComplete(worlds[n], place, sid);
      }
    }
  }
}
