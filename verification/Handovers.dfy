/** When other jobs add to what is a job's own at a place, beyond what its retention has left there. */
module Handovers {
  import opened Wrappers
  import opened SnapshotIds
  import opened SnapshotKeys
  import opened Ownership
  import opened Storage
  import opened Choices
  import opened Protocol
  import opened Interleaving
  import opened Executions
  import opened RunFrames
  import opened Contention
  import opened Listings
  import opened Crossings

  /** The job at `p` has a plain snapshot listed in the data dir to upload somewhere. */
  ghost predicate IsAwaited(jobs: seq<Job>, w: World, p: nat, sid: string) {
    && p < |jobs| && IsPlain(sid) && MarkedFor(w, sid) == Some(jobs[p].name)
    && ManifestAt(Local, sid) in w.store && BucketsOf(jobs[p]) != {}
  }

  /**
   The job at `p` may make the snapshot, at this place, the job's at `f`: in the data dir by unmarking it; at a bucket
   by uploading it, if it is not listed there or retention of the job at `f` may remove it first.
   */
  ghost predicate MayHandOver(jobs: seq<Job>, scopes: seq<Scope>, w: World, f: nat, p: nat, sid: string, place: Place)
    requires f < |jobs| == |scopes|
  {
    if place == Local then IsAwaited(jobs, w, p, sid)
    else
      IsBound(jobs, w, p, sid, place)
      && (ManifestAt(place, sid) !in w.store || MayGo(jobs, scopes, w, f, sid, place))
  }

  /** The snapshots at the place that retention of the job at `f` looks at. */
  function OwnAt(scopes: seq<Scope>, f: nat, w: World, place: Place): set<string>
    requires f < |scopes|
  {
    CandidatesIn(w, scopes[f], place, None)
  }

  /** Over every interleaving from `w`, no move of another job adds to them. */
  ghost predicate OthersNeverAdd(scopes: seq<Scope>, actors: seq<Actor>, f: nat, place: Place, w: World)
    requires f < |scopes|
  {
    forall worlds: seq<World>, moves: seq<Move>, i: nat ::
      IsRunningFrom(actors, w, worlds, moves) && i < |moves| && moves[i].who != f ==>
      OwnAt(scopes, f, worlds[i + 1], place) <= OwnAt(scopes, f, worlds[i], place)
  }

  lemma WhoAdds(jobs: seq<Job>, scopes: seq<Scope>, actors: seq<Actor>, f: nat, p: nat, w: World, step: Step,
                place: Place, sid: string)
    requires RunBy(jobs, scopes, actors) && f < |jobs| && p < |jobs| && f != p && Inv(w) && Allowed(actors[p], w, step)
    requires sid in OwnAt(scopes, f, Apply(actors[p], w, step), place) && sid !in OwnAt(scopes, f, w, place)
    ensures IsFirstAt(jobs, place, jobs[f].name)
    ensures if place == Local then IsAwaited(jobs, w, p, sid)
            else IsBound(jobs, w, p, sid, place) && ManifestAt(place, sid) !in w.store
  {
    AreSideBySide(jobs, scopes, actors);
    assert SideBySide(actors[f], actors[p]);
    var w' := Apply(actors[p], w, step);
    StepIsRelied(actors[f], actors[p], w, step);
    assert Uploads(actors[f], sid) ==> SameAt(w, w', ManifestAt(place, sid)) && SameAt(w, w', MarkerOf(sid));
    if IsPlain(sid) {
      if place == Local {
        HandsOverLocally(actors[p], w, step, sid);
      } else {
        HandsOverOffsite(actors[p], w, step, place, sid);
      }
    }
  }

  lemma HandsOverLocally(me: Actor, w: World, step: Step, sid: string)
    requires !me.alone && Allowed(me, w, step) && IsPlain(sid)
    ensures ManifestAt(Local, sid) in Apply(me, w, step).store ==> ManifestAt(Local, sid) in w.store
    ensures ManifestAt(Local, sid) in Apply(me, w, step).store &&
            MarkedFor(Apply(me, w, step), sid) != MarkedFor(w, sid) ==>
      step == Unmark(sid)
  {
  }

  lemma HandsOverOffsite(me: Actor, w: World, step: Step, place: Place, sid: string)
    requires !me.alone && Allowed(me, w, step) && IsPlain(sid) && place != Local
    ensures ManifestAt(place, sid) in Apply(me, w, step).store && ManifestAt(place, sid) !in w.store ==>
      step.Put? && step.place == place && step.key.sid == sid && Catches(me, w, sid)
  {
  }

  /** Beside other jobs, the plain snapshots that await an upload only become fewer. */
  lemma {:induction false} AwaitedFrom(jobs: seq<Job>, scopes: seq<Scope>, actors: seq<Actor>, w: World,
                                       worlds: seq<World>, moves: seq<Move>, n: nat, q: nat, sid: string)
    requires RunBy(jobs, scopes, actors) && IsRunningFrom(actors, w, worlds, moves) && n <= |moves| && Inv(w)
    requires IsAwaited(jobs, worlds[n], q, sid)
    ensures IsAwaited(jobs, w, q, sid)
    decreases n
  {
    if n > 0 {
      AtMove(jobs, scopes, actors, w, worlds, moves, n - 1);
      WasAwaited(jobs, actors[moves[n - 1].who], worlds[n - 1], moves[n - 1].step, q, sid);
      AwaitedFrom(jobs, scopes, actors, w, worlds, moves, n - 1, q, sid);
    }
  }

  lemma WasAwaited(jobs: seq<Job>, me: Actor, w: World, step: Step, q: nat, sid: string)
    requires !me.alone && Inv(w) && Allowed(me, w, step) && IsAwaited(jobs, Apply(me, w, step), q, sid)
    ensures IsAwaited(jobs, w, q, sid)
  {
    assert MarkedFor(w, sid) == MarkedFor(Apply(me, w, step), sid);
  }

  /** Whatever another job adds, it may have handed over from the start. */
  lemma AdderMayHandOver(jobs: seq<Job>, scopes: seq<Scope>, actors: seq<Actor>, w: World, worlds: seq<World>,
                         moves: seq<Move>, i: nat, f: nat, sid: string, place: Place)
    requires RunBy(jobs, scopes, actors) && IsRunningFrom(actors, w, worlds, moves) && i < |moves| && Inv(w)
    requires f < |jobs| && moves[i].who != f
    requires sid in OwnAt(scopes, f, worlds[i + 1], place) && sid !in OwnAt(scopes, f, worlds[i], place)
    ensures IsFirstAt(jobs, place, jobs[f].name) && MayHandOver(jobs, scopes, w, f, moves[i].who, sid, place)
  {
    AtMove(jobs, scopes, actors, w, worlds, moves, i);
    WhoAdds(jobs, scopes, actors, f, moves[i].who, worlds[i], moves[i].step, place, sid);
    if place == Local {
      AwaitedFrom(jobs, scopes, actors, w, worlds, moves, i, moves[i].who, sid);
    } else {
      BoundFrom(jobs, scopes, actors, w, worlds, moves, i, moves[i].who, sid, place);
      if ManifestAt(place, sid) in w.store {
        WentMayGo(jobs, scopes, actors, w, worlds, moves, i, f, ManifestAt(place, sid));
      }
    }
  }

  /**
   Over every interleaving from a storage, no other job adds to what is a job's own at a place - so that what its
   retention leaves there stays within its policy - exactly if, where the job comes first, no other job has a plain
   snapshot pending in the data dir that it uploads: for the data dir, anywhere; for a bucket, there, the snapshot not
   being listed yet or the job's policy being able to select it.
   */
  lemma OthersNeverAddExactly(jobs: seq<Job>, scopes: seq<Scope>, actors: seq<Actor>, f: nat, place: Place, w: World)
    requires RunBy(jobs, scopes, actors) && f < |jobs| && Inv(w)
    ensures OthersNeverAdd(scopes, actors, f, place, w) <==>
      (IsFirstAt(jobs, place, jobs[f].name) ==>
        forall p: nat, sid :: p != f ==> !MayHandOver(jobs, scopes, w, f, p, sid, place))
  {
    if IsFirstAt(jobs, place, jobs[f].name)
      && exists p: nat, sid :: p != f && MayHandOver(jobs, scopes, w, f, p, sid, place)
    {
      var p: nat, sid :| p != f && MayHandOver(jobs, scopes, w, f, p, sid, place);
      var worlds, moves, i := HandedOver(jobs, scopes, actors, f, p, w, sid, place);
    } else {
      forall worlds: seq<World>, moves: seq<Move>, i: nat | IsRunningFrom(actors, w, worlds, moves) && i < |moves|
        && moves[i].who != f
        ensures OwnAt(scopes, f, worlds[i + 1], place) <= OwnAt(scopes, f, worlds[i], place)
      {
        forall sid | sid in OwnAt(scopes, f, worlds[i + 1], place) ensures sid in OwnAt(scopes, f, worlds[i], place) {
          if sid !in OwnAt(scopes, f, worlds[i], place) {
            AtMove(jobs, scopes, actors, w, worlds, moves, i);
            AdderMayHandOver(jobs, scopes, actors, w, worlds, moves, i, f, sid, place);
          }
        }
      }
    }
  }

  lemma HandedOverByRival(jobs: seq<Job>, scopes: seq<Scope>, actors: seq<Actor>, f: nat, p: nat, w: World, sid: string,
                          place: Place)
    requires RunBy(jobs, scopes, actors) && f < |jobs| && p != f && Inv(w) && IsFirstAt(jobs, place, jobs[f].name)
    requires MayHandOver(jobs, scopes, w, f, p, sid, place)
    ensures Rival(actors[f], w, place, sid) && OwnsPlain(actors[f], place, sid)
  {
    IsPeer(jobs, p);
  }

  lemma RivalHandsOver(jobs: seq<Job>, scopes: seq<Scope>, actors: seq<Actor>, f: nat, w: World, sid: string)
    returns (p: nat)
    requires RunBy(jobs, scopes, actors) && f < |jobs|
    requires Rival(actors[f], w, Local, sid) && OwnsPlain(actors[f], Local, sid)
    ensures p != f && IsFirstAt(jobs, Local, jobs[f].name) && IsAwaited(jobs, w, p, sid)
  {
    p := PeerIsJob(jobs, MarkedFor(w, sid).value);
  }

  /** So at an undisputed place no other job adds; and the data dir is undisputed exactly if none does there. */
  lemma UndisputedMeans(jobs: seq<Job>, scopes: seq<Scope>, actors: seq<Actor>, f: nat, place: Place, w: World)
    requires RunBy(jobs, scopes, actors) && f < |jobs| && Inv(w)
    ensures Undisputed(actors[f], w, place) ==> OthersNeverAdd(scopes, actors, f, place, w)
    ensures Undisputed(actors[f], w, Local) <==> OthersNeverAdd(scopes, actors, f, Local, w)
  {
    NobodyHandsOver(jobs, scopes, actors, f, place, w);
    NobodyHandsOver(jobs, scopes, actors, f, Local, w);
    if OthersNeverAdd(scopes, actors, f, Local, w) {
      OthersNeverAddExactly(jobs, scopes, actors, f, Local, w);
      forall sid | Rival(actors[f], w, Local, sid) ensures !OwnsPlain(actors[f], Local, sid) {
        if OwnsPlain(actors[f], Local, sid) {
          var p := RivalHandsOver(jobs, scopes, actors, f, w, sid);
          assert MayHandOver(jobs, scopes, w, f, p, sid, Local);
        }
      }
    }
  }

  lemma NobodyHandsOver(jobs: seq<Job>, scopes: seq<Scope>, actors: seq<Actor>, f: nat, place: Place, w: World)
    requires RunBy(jobs, scopes, actors) && f < |jobs| && Inv(w)
    ensures Undisputed(actors[f], w, place) ==> OthersNeverAdd(scopes, actors, f, place, w)
  {
    if Undisputed(actors[f], w, place) && IsFirstAt(jobs, place, jobs[f].name) {
      forall p: nat, sid | p != f ensures !MayHandOver(jobs, scopes, w, f, p, sid, place) {
        if MayHandOver(jobs, scopes, w, f, p, sid, place) {
          HandedOverByRival(jobs, scopes, actors, f, p, w, sid, place);
        }
      }
    }
    OthersNeverAddExactly(jobs, scopes, actors, f, place, w);
  }

  /** A run of moves after which another job's last move has added the snapshot. */
  lemma HandedOver(jobs: seq<Job>, scopes: seq<Scope>, actors: seq<Actor>, f: nat, p: nat, w: World, sid: string,
                   place: Place)
    returns (worlds: seq<World>, moves: seq<Move>, i: nat)
    requires RunBy(jobs, scopes, actors) && f < |jobs| && p != f && Inv(w) && IsFirstAt(jobs, place, jobs[f].name)
    requires MayHandOver(jobs, scopes, w, f, p, sid, place)
    ensures IsRunningFrom(actors, w, worlds, moves) && i < |moves| && moves[i].who == p
    ensures sid in OwnAt(scopes, f, worlds[i + 1], place) && sid !in OwnAt(scopes, f, worlds[i], place)
  {
    var last;
    if place == Local {
      moves, last := HandOverLocally(jobs, scopes, actors, f, p, w, sid);
    } else {
      moves, last := HandOverOffsite(jobs, scopes, actors, f, p, w, sid, place);
    }
    InParts(actors, w, moves, [last]);
    AllowedIsRunning(actors, w, moves + [last]);
    worlds, i := Worlds(actors, w, moves + [last]), |moves|;
    LastIsAfter(actors, w, moves + [last]);
    BeforeLast(actors, w, moves, last);
    moves := moves + [last];
  }

  /** The catch-up uploads the snapshot, if it is not safe yet, and unmarks it. */
  lemma HandOverLocally(jobs: seq<Job>, scopes: seq<Scope>, actors: seq<Actor>, f: nat, p: nat, w: World, sid: string)
    returns (moves: seq<Move>, last: Move)
    requires RunBy(jobs, scopes, actors) && f < |jobs| && p != f && Inv(w) && IsFirstAt(jobs, Local, jobs[f].name)
    requires IsAwaited(jobs, w, p, sid)
    ensures last.who == p && AreAllowedFrom(actors, w, moves) && AreAllowedFrom(actors, After(actors, w, moves), [last])
    ensures sid in OwnAt(scopes, f, After(actors, After(actors, w, moves), [last]), Local)
    ensures sid !in OwnAt(scopes, f, After(actors, w, moves), Local)
  {
    last := Move(p, Unmark(sid));
    assert ContentFits(w, MarkerOf(sid), w.store[MarkerOf(sid)]);
    var w2 := w;
    if SafeToRemove(w, sid) {
      moves := [];
    } else {
      assert Intact(w, Local, sid);
      var bucket :| bucket in BucketsOf(jobs[p]);
      moves := Uploading(p, sid, bucket, Archive(w.made[sid].ext));
      w2 := MadeSafe(actors, p, w, sid, bucket);
    }
    Released(jobs, scopes, actors, f, p, w2, sid);
    OneMove(actors, w2, last);
  }

  lemma MadeSafe(actors: seq<Actor>, p: nat, w: World, sid: string, bucket: Place) returns (w2: World)
    requires p < |actors| && Inv(w) && Catches(actors[p], w, sid) && Intact(w, Local, sid)
    requires bucket in actors[p].buckets && bucket != Local
    ensures var moves := Uploading(p, sid, bucket, Archive(w.made[sid].ext));
      AreAllowedFrom(actors, w, moves) && After(actors, w, moves) == w2
    ensures Inv(w2) && SafeToRemove(w2, sid) && MarkedFor(w2, sid) == MarkedFor(w, sid)
    ensures ManifestAt(Local, sid) in w2.store
  {
    var me, m := actors[p], Uploading(p, sid, bucket, Archive(w.made[sid].ext));
    StepSafe(me, w, m[0].step);
    var w1 := Apply(me, w, m[0].step);
    StepSafe(me, w1, m[1].step);
    w2 := Apply(me, w1, m[1].step);
    TwoMoves(actors, w, m[0], m[1]);
    assert Intact(w2, bucket, sid);
  }

  lemma Released(jobs: seq<Job>, scopes: seq<Scope>, actors: seq<Actor>, f: nat, p: nat, w: World, sid: string)
    requires RunBy(jobs, scopes, actors) && f < |jobs| && p != f && Inv(w) && IsFirstAt(jobs, Local, jobs[f].name)
    requires IsAwaited(jobs, w, p, sid) && SafeToRemove(w, sid)
    ensures Allowed(actors[p], w, Unmark(sid))
    ensures sid in OwnAt(scopes, f, Apply(actors[p], w, Unmark(sid)), Local) && sid !in OwnAt(scopes, f, w, Local)
  {
    assert ContentFits(w, MarkerOf(sid), w.store[MarkerOf(sid)]);
    assert IsFileName(sid);
    SlashFree(sid);
  }

  // ---- At a bucket ----

  /** The snapshot is not listed at the bucket: it is uploaded there. */
  lemma UploadedOnce(scopes: seq<Scope>, actors: seq<Actor>, p: nat, f: nat, w: World, sid: string, place: Place)
    returns (put: Move, last: Move)
    requires p < |actors| && f < |actors| == |scopes| && actors[f].scope == scopes[f]
    requires MayRace(actors[p], actors[f], w, sid, place) && ManifestAt(place, sid) !in w.store
    ensures last.who == p && AreAllowedFrom(actors, w, [put]) && AreAllowedFrom(actors, After(actors, w, [put]), [last])
    ensures sid in OwnAt(scopes, f, After(actors, After(actors, w, [put]), [last]), place)
    ensures sid !in OwnAt(scopes, f, After(actors, w, [put]), place)
  {
    put := Move(p, Put(place, Key(sid, Archive(w.made[sid].ext)), false));
    last := Move(p, Put(place, Key(sid, Manifest), false));
    RacerPuts(actors[p], actors[f], w, sid, place, Archive(w.made[sid].ext));
    var w1 := Moved(actors, w, put);
    RacerPuts(actors[p], actors[f], w1, sid, place, Manifest);
    OneMove(actors, w, put);
    OneMove(actors, w1, last);
    assert IsFileName(sid);
    SlashFree(sid);
  }

  lemma NotBothFirst(jobs: seq<Job>, place: Place, a: string, b: string)
    requires a != b && IsFirstAt(jobs, place, a)
    ensures !IsFirstAt(jobs, place, b)
  {
    if IsFirstAt(jobs, place, b) {
      FirstIsUnique(jobs, place, a, b);
    }
  }

  lemma HandOverOffsite(jobs: seq<Job>, scopes: seq<Scope>, actors: seq<Actor>, f: nat, p: nat, w: World, sid: string,
                        place: Place)
    returns (moves: seq<Move>, last: Move)
    requires RunBy(jobs, scopes, actors) && f < |jobs| && p != f && Inv(w) && IsFirstAt(jobs, place, jobs[f].name)
    requires place != Local && MayHandOver(jobs, scopes, w, f, p, sid, place)
    ensures last.who == p && AreAllowedFrom(actors, w, moves) && AreAllowedFrom(actors, After(actors, w, moves), [last])
    ensures sid in OwnAt(scopes, f, After(actors, After(actors, w, moves), [last]), place)
    ensures sid !in OwnAt(scopes, f, After(actors, w, moves), place)
  {
    NotBothFirst(jobs, place, jobs[f].name, jobs[p].name);
    moves := [];
    var w1 := w;
    BoundMayRace(jobs, scopes, actors, w, p, f, sid, place);
    if ManifestAt(place, sid) in w.store {
      moves, w1 := Unlisted(jobs, scopes, actors, f, p, w, sid, place);
    }
    var put;
    put, last := UploadedOnce(scopes, actors, p, f, w1, sid, place);
    InParts(actors, w, moves, [put]);
    moves := moves + [put];
  }

  /** Retention of the first job removes the manifest, having brought what it takes to choose the snapshot. */
  lemma Unlisted(jobs: seq<Job>, scopes: seq<Scope>, actors: seq<Actor>, f: nat, p: nat, w: World, sid: string,
                 place: Place)
    returns (moves: seq<Move>, w': World)
    requires RunBy(jobs, scopes, actors) && f < |jobs| && p < |jobs| && Inv(w) && IsFirstAt(jobs, place, jobs[f].name)
    requires place != Local && IsBound(jobs, w, p, sid, place) && !IsFirstAt(jobs, place, jobs[p].name)
    requires ManifestAt(place, sid) in w.store && MayGo(jobs, scopes, w, f, sid, place)
    ensures AreAllowedFrom(actors, w, moves) && After(actors, w, moves) == w'
    ensures MayRace(actors[p], actors[f], w', sid, place) && ManifestAt(place, sid) !in w'.store
  {
    if Pick(jobs[f].name, place, sid) in w.chosen {
      BoundMayRace(jobs, scopes, actors, w, p, f, sid, place);
      var prune := Move(f, Step.Prune(place, Key(sid, Manifest)));
      FirstPrunes(actors[p], actors[f], w, sid, place, Manifest);
      OneMove(actors, w, prune);
      moves, w' := [prune], Moved(actors, w, prune);
    } else {
      var bringing, w1, snaps, now, some := Gathered(jobs, scopes, actors, w, f, sid, place);
      StillWaits(jobs, w, w1, JobSlug(jobs[f].name), p, sid, place);
      BoundMayRace(jobs, scopes, actors, w1, p, f, sid, place);
      var sids := MayChooseIt(jobs, scopes, actors, w1, f, place, snaps, now, some);
      w' := ChosenThere(actors, w1, p, f, sids, sid, place);
      InParts(actors, w, bringing, Choosing(f, sids, sid, place));
      moves := bringing + Choosing(f, sids, sid, place);
    }
  }
}
