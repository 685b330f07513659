/** How the runs of two jobs cross at a bucket, and leave a manifest there without its archive. */
module Crossings {
  import opened Wrappers
  import opened Calendar
  import opened SnapshotIds
  import opened SnapshotKeys
  import opened Texts
  import opened Ownership
  import opened Retention
  import opened Storage
  import opened Choices
  import opened Selectable
  import opened Protocol
  import opened Interleaving
  import opened Executions
  import opened RunFrames
  import opened Contention
  import opened Listings

  // ---- Bringing snapshots to a bucket ----

  /** The data dir is as before, no key has gone, and only snapshots of runs with this slug have been built. */
  ghost predicate Enriched(w: World, w': World, slug: string) {
    && Grows(w, w') && (forall loc: Loc :: loc.place == Local ==> SameAt(w, w', loc))
    && (forall loc :: loc in w.store ==> loc in w'.store)
    && (forall a :: a in w'.made && a !in w.made ==> SlugOf(a) == Some(slug) && a in w'.building)
  }

  lemma EnrichedOver(u: World, v: World, w: World, slug: string)
    requires Enriched(u, v, slug) && Enriched(v, w, slug)
    ensures Enriched(u, w, slug)
  {
    forall loc: Loc | loc.place == Local ensures SameAt(u, w, loc) {
      assert SameAt(u, v, loc) && SameAt(v, w, loc);
    }
  }

  lemma StillWaits(jobs: seq<Job>, w: World, w': World, slug: string, q: nat, sid: string, place: Place)
    requires Enriched(w, w', slug) && Waits(jobs, w, q, sid, place)
    ensures Waits(jobs, w', q, sid, place)
  {
    assert SameAt(w, w', MarkerOf(sid)) && SameAt(w, w', ManifestAt(Local, sid));
    assert SameAt(w, w', ArchiveAt(w, Local, sid));
  }

  lemma StillFreeOrBuilt(w: World, w': World, slug: string, sid: string)
    requires Enriched(w, w', slug) && SlugOf(sid).Some? && IsFree(w, sid)
    ensures sid in w'.building || IsFree(w', sid)
  {
    forall a | a in w'.made && sid !in w'.made ensures Apart(sid, a) {
      if a in w.made {
        assert Apart(sid, a);
      } else {
        NamedIdIsPlain(sid);
        NamedIdIsPlain(a);
        NoDotsApart(sid, a);
      }
    }
  }

  lemma PoolStays(jobs: seq<Job>, scopes: seq<Scope>, w: World, w': World, f: nat, place: Place)
    requires f < |jobs| == |scopes| && Enriched(w, w', JobSlug(jobs[f].name))
    ensures Pool(jobs, scopes, w, f, place) <= Pool(jobs, scopes, w', f, place)
  {
    forall sid | sid in Pool(jobs, scopes, w, f, place) ensures MayLie(jobs, w', f, sid, place) {
      if ManifestAt(place, sid) !in w.store {
        if q: nat :| Waits(jobs, w, q, sid, place) {
          StillWaits(jobs, w, w', JobSlug(jobs[f].name), q, sid, place);
        } else if sid !in w.building {
          StillFreeOrBuilt(w, w', JobSlug(jobs[f].name), sid);
        }
      }
    }
  }

  /** The job at `q` may put the files of the snapshot to the bucket. */
  ghost predicate MayUpload(actors: seq<Actor>, w: World, q: nat, sid: string, place: Place) {
    && q < |actors| && Inv(w) && place != Local && place in actors[q].buckets && sid in w.made
    && Handles(actors[q], w, sid) && AtHand(actors[q], w, sid)
  }

  lemma FilePut(actors: seq<Actor>, w: World, q: nat, sid: string, place: Place, kind: Kind)
    requires MayUpload(actors, w, q, sid, place)
    requires kind == Archive(w.made[sid].ext) || (kind == Manifest && ArchiveAt(w, place, sid) in w.store)
    ensures var move := Move(q, Put(place, Key(sid, kind), false)); var w' := Moved(actors, w, move);
      && IsAllowed(actors, w, move) && MayUpload(actors, w', q, sid, place) && w'.made == w.made
      && w'.store == w.store[At(place, Key(sid, kind)) := TrueContent(w, Key(sid, kind))] && Grows(w, w')
  {
    StepSafe(actors[q], w, Put(place, Key(sid, kind), false));
    StillAtHand(actors[q], w, Moved(actors, w, Move(q, Put(place, Key(sid, kind), false))), sid, place, kind);
  }

  lemma StillAtHand(me: Actor, w: World, w': World, sid: string, place: Place, kind: Kind)
    requires sid in w.made && Handles(me, w, sid) && AtHand(me, w, sid) && place != Local
    requires w'.made == w.made && w'.building == w.building
    requires w'.store == w.store[At(place, Key(sid, kind)) := TrueContent(w, Key(sid, kind))]
    ensures Handles(me, w', sid) && AtHand(me, w', sid)
  {
    assert MarkedFor(w', sid) == MarkedFor(w, sid);
  }

  lemma PutEnriches(w: World, w': World, loc: Loc, content: Content, slug: string)
    requires w'.store == w.store[loc := content] && w'.made == w.made && loc.place != Local && Grows(w, w')
    ensures Enriched(w, w', slug)
  {
  }

  function Uploading(p: nat, sid: string, place: Place, archive: Kind): seq<Move> {
    [Move(p, Put(place, Key(sid, archive), false)), Move(p, Put(place, Key(sid, Manifest), false))]
  }

  lemma BothPut(actors: seq<Actor>, w: World, q: nat, sid: string, place: Place, slug: string) returns (w2: World)
    requires MayUpload(actors, w, q, sid, place)
    ensures var moves := Uploading(q, sid, place, Archive(w.made[sid].ext));
      AreAllowedFrom(actors, w, moves) && After(actors, w, moves) == w2
    ensures Inv(w2) && Enriched(w, w2, slug) && ManifestAt(place, sid) in w2.store
  {
    var m := Uploading(q, sid, place, Archive(w.made[sid].ext));
    FilePut(actors, w, q, sid, place, Archive(w.made[sid].ext));
    var w1 := Moved(actors, w, m[0]);
    PutEnriches(w, w1, ArchiveAt(w, place, sid), TrueContent(w, m[0].step.key), slug);
    FilePut(actors, w1, q, sid, place, Manifest);
    w2 := Moved(actors, w1, m[1]);
    PutEnriches(w1, w2, ManifestAt(place, sid), TrueContent(w1, m[1].step.key), slug);
    EnrichedOver(w, w1, w2, slug);
    TwoMoves(actors, w, m[0], m[1]);
  }

  /** A snapshot that waits, or that a run of the first job has built, may be uploaded. */
  lemma WaitingMayUpload(jobs: seq<Job>, scopes: seq<Scope>, actors: seq<Actor>, w: World, q: nat, sid: string,
                         place: Place)
    requires RunBy(jobs, scopes, actors) && Inv(w) && Waits(jobs, w, q, sid, place)
    ensures MayUpload(actors, w, q, sid, place)
  {
    OwnOrPlainMarked(actors[q], w, sid);
  }

  lemma BuiltMayUpload(jobs: seq<Job>, scopes: seq<Scope>, actors: seq<Actor>, w: World, f: nat, sid: string,
                       place: Place)
    requires RunBy(jobs, scopes, actors) && Inv(w) && f < |jobs| && place != Local
    requires IsFirstAt(jobs, place, jobs[f].name) && SlugOf(sid) == Some(JobSlug(jobs[f].name)) && sid in w.building
    ensures MayUpload(actors, w, f, sid, place)
  {
    assert StoresAt(jobs[f], place);
  }

  /** A run of the job builds the snapshot. */
  lemma Built(jobs: seq<Job>, scopes: seq<Scope>, actors: seq<Actor>, w: World, f: nat, sid: string)
    requires RunBy(jobs, scopes, actors) && Inv(w) && f < |jobs|
    requires SlugOf(sid) == Some(JobSlug(jobs[f].name)) && IsFree(w, sid)
    ensures var move := Move(f, Make(sid, Artifact(Plain, 0))); var w' := Moved(actors, w, move);
      && IsAllowed(actors, w, move) && Inv(w') && sid in w'.building && Enriched(w, w', JobSlug(jobs[f].name))
  {
    StepSafe(actors[f], w, Make(sid, Artifact(Plain, 0)));
  }

  /** What may lie at the bucket can be brought there. */
  lemma Bring(jobs: seq<Job>, scopes: seq<Scope>, actors: seq<Actor>, w: World, f: nat, sid: string, place: Place)
    returns (moves: seq<Move>, w': World)
    requires RunBy(jobs, scopes, actors) && Inv(w) && f < |jobs| && place != Local
    requires IsFirstAt(jobs, place, jobs[f].name) && sid in Pool(jobs, scopes, w, f, place)
    ensures AreAllowedFrom(actors, w, moves) && After(actors, w, moves) == w' && Inv(w')
    ensures Enriched(w, w', JobSlug(jobs[f].name)) && ManifestAt(place, sid) in w'.store
  {
    moves, w' := [], w;
    if ManifestAt(place, sid) in w.store {
    } else if q: nat :| Waits(jobs, w, q, sid, place) {
      WaitingMayUpload(jobs, scopes, actors, w, q, sid, place);
      moves := Uploading(q, sid, place, Archive(w.made[sid].ext));
      w' := BothPut(actors, w, q, sid, place, JobSlug(jobs[f].name));
    } else {
      var slug := JobSlug(jobs[f].name);
      if sid in w.building {
        moves, w' := BringBuilt(jobs, scopes, actors, w, f, sid, place);
      } else {
        moves, w' := BringNew(jobs, scopes, actors, w, f, sid, place);
      }
    }
  }

  lemma BringBuilt(jobs: seq<Job>, scopes: seq<Scope>, actors: seq<Actor>, w: World, f: nat, sid: string, place: Place)
    returns (moves: seq<Move>, w': World)
    requires RunBy(jobs, scopes, actors) && Inv(w) && f < |jobs| && place != Local
    requires IsFirstAt(jobs, place, jobs[f].name) && SlugOf(sid) == Some(JobSlug(jobs[f].name)) && sid in w.building
    ensures AreAllowedFrom(actors, w, moves) && After(actors, w, moves) == w' && Inv(w')
    ensures Enriched(w, w', JobSlug(jobs[f].name)) && ManifestAt(place, sid) in w'.store
  {
    BuiltMayUpload(jobs, scopes, actors, w, f, sid, place);
    moves := Uploading(f, sid, place, Archive(w.made[sid].ext));
    w' := BothPut(actors, w, f, sid, place, JobSlug(jobs[f].name));
  }

  lemma BringNew(jobs: seq<Job>, scopes: seq<Scope>, actors: seq<Actor>, w: World, f: nat, sid: string, place: Place)
    returns (moves: seq<Move>, w': World)
    requires RunBy(jobs, scopes, actors) && Inv(w) && f < |jobs| && place != Local
    requires IsFirstAt(jobs, place, jobs[f].name) && SlugOf(sid) == Some(JobSlug(jobs[f].name)) && IsFree(w, sid)
    ensures AreAllowedFrom(actors, w, moves) && After(actors, w, moves) == w' && Inv(w')
    ensures Enriched(w, w', JobSlug(jobs[f].name)) && ManifestAt(place, sid) in w'.store
  {
    var make := Move(f, Make(sid, Artifact(Plain, 0)));
    Built(jobs, scopes, actors, w, f, sid);
    OneMove(actors, w, make);
    var w1 := Moved(actors, w, make);
    var rest;
    rest, w' := BringBuilt(jobs, scopes, actors, w1, f, sid, place);
    InParts(actors, w, [make], rest);
    moves := [make] + rest;
    EnrichedOver(w, w1, w', JobSlug(jobs[f].name));
  }

  lemma {:induction false} BringAll(jobs: seq<Job>, scopes: seq<Scope>, actors: seq<Actor>, w: World, f: nat,
                                    sids: set<string>, place: Place)
    returns (moves: seq<Move>, w': World)
    requires RunBy(jobs, scopes, actors) && Inv(w) && f < |jobs| && place != Local
    requires IsFirstAt(jobs, place, jobs[f].name) && AllIn(sids, Pool(jobs, scopes, w, f, place))
    ensures AreAllowedFrom(actors, w, moves) && After(actors, w, moves) == w' && Inv(w')
    ensures Enriched(w, w', JobSlug(jobs[f].name)) && AllListed(w', sids, place)
    decreases |sids|
  {
    moves, w' := [], w;
    if sids != {} {
      var sid :| sid in sids;
      var first, w1 := Bring(jobs, scopes, actors, w, f, sid, place);
      PoolStays(jobs, scopes, w, w1, f, place);
      var rest;
      rest, w' := BringAll(jobs, scopes, actors, w1, f, sids - {sid}, place);
      InParts(actors, w, first, rest);
      moves := first + rest;
      EnrichedOver(w, w1, w', JobSlug(jobs[f].name));
    }
  }

  predicate AllListed(w: World, sids: set<string>, place: Place) {
    forall sid :: sid in sids ==> ManifestAt(place, sid) in w.store
  }

  // ---- Choosing ----

  /** Where it has been brought, retention of the first job may choose the snapshot. */
  lemma MayChooseIt(jobs: seq<Job>, scopes: seq<Scope>, actors: seq<Actor>, w: World, f: nat, place: Place,
                    snaps: seq<Snapshot>, now: DateTime, sids: set<string>)
    returns (more: set<string>)
    requires RunBy(jobs, scopes, actors) && Inv(w) && f < |jobs| && place != Local
    requires Selects(jobs[f].retention, snaps, IdSet(snaps), now, sids) && AllListed(w, IdSet(snaps), place)
    requires forall sid :: sid in IdSet(snaps) ==> Owns(scopes[f], sid, place, None)
    ensures sids <= more && Allowed(actors[f], w, Select(place, more))
  {
    var looked := CandidatesIn(w, scopes[f], place, None);
    ListedAreMade(w, place, IdSet(snaps));
    forall sid | sid in IdSet(snaps) ensures sid in looked {
      SlashFree(sid);
    }
    var all;
    all, more := SelectedAmongMore(jobs[f].retention, snaps, now, sids, looked);
    assert LookedAt(w, scopes[f], place, false) == looked;
    assert MayChoose(w, scopes[f], jobs[f].retention, place, more);
  }

  lemma SlashFree(sid: string)
    requires IsFileName(sid)
    ensures '/' !in sid
  {
    assert '/' in "/*?[" by {
      assert "/*?["[0] == '/';
    }
  }

  // ---- The race ----

  /** `up` has a plain snapshot to upload from the data dir to a bucket where `first` may prune it. */
  ghost predicate MayRace(up: Actor, first: Actor, w: World, sid: string, place: Place) {
    && Inv(w) && !up.alone && !first.alone && Catches(up, w, sid) && sid in w.made && HasLocalFiles(w, sid)
    && place != Local && place in up.buckets && !OwnsPlain(up, place, sid) && OwnsPlain(first, place, sid)
  }

  lemma BoundMayRace(jobs: seq<Job>, scopes: seq<Scope>, actors: seq<Actor>, w: World, p: nat, f: nat, sid: string,
                     place: Place)
    requires RunBy(jobs, scopes, actors) && Inv(w) && IsBound(jobs, w, p, sid, place)
    requires !IsFirstAt(jobs, place, jobs[p].name) && f < |jobs| && IsFirstAt(jobs, place, jobs[f].name)
    ensures MayRace(actors[p], actors[f], w, sid, place)
  {
  }

  lemma RacerPuts(up: Actor, first: Actor, w: World, sid: string, place: Place, kind: Kind)
    requires MayRace(up, first, w, sid, place)
    requires kind == Archive(w.made[sid].ext) || (kind == Manifest && Race(place, sid) in w.raced)
    ensures var step := Put(place, Key(sid, kind), false); var w' := Apply(up, w, step);
      && Allowed(up, w, step) && MayRace(up, first, w', sid, place) && Race(place, sid) in w'.raced
      && w'.chosen == w.chosen && w'.made == w.made
      && w'.store == w.store[At(place, Key(sid, kind)) := TrueContent(w, Key(sid, kind))]
  {
    StepSafe(up, w, Put(place, Key(sid, kind), false));
  }

  lemma FirstChooses(up: Actor, first: Actor, w: World, sid: string, place: Place, sids: set<string>)
    requires MayRace(up, first, w, sid, place) && Allowed(first, w, Select(place, sids)) && sid in sids
    ensures var w' := Apply(first, w, Select(place, sids));
      && MayRace(up, first, w', sid, place) && w'.raced == w.raced && w'.made == w.made && w'.store == w.store
      && Pick(first.scope.job, place, sid) in w'.chosen
  {
    StepSafe(first, w, Select(place, sids));
  }

  lemma FirstPrunes(up: Actor, first: Actor, w: World, sid: string, place: Place, kind: Kind)
    requires MayRace(up, first, w, sid, place) && (kind == Manifest || Race(place, sid) in w.raced)
    requires Pick(first.scope.job, place, sid) in w.chosen
    ensures var step := Step.Prune(place, Key(sid, kind)); var w' := Apply(first, w, step);
      && Allowed(first, w, step) && MayRace(up, first, w', sid, place) && w'.raced == w.raced && w'.chosen == w.chosen
      && w'.made == w.made && w'.store == w.store - {At(place, Key(sid, kind))}
  {
    StepSafe(first, w, Step.Prune(place, Key(sid, kind)));
  }

  /**
   `p` uploads the snapshot to a bucket and, as another bucket fails, again on its next run, while retention of `f`,
   first at the bucket, chooses it there: the manifest of the second upload comes after the archive's deletion.
   */
  function RaceMoves(p: nat, f: nat, sids: set<string>, sid: string, place: Place, archive: Kind): seq<Move> {
    Uploading(p, sid, place, archive) + Choosing(f, sids, sid, place) + Crossing(p, f, sid, place, archive)
  }

  function Choosing(f: nat, sids: set<string>, sid: string, place: Place): seq<Move> {
    [Move(f, Select(place, sids)), Move(f, Step.Prune(place, Key(sid, Manifest)))]
  }

  function Crossing(p: nat, f: nat, sid: string, place: Place, archive: Kind): seq<Move> {
    [Move(p, Put(place, Key(sid, archive), false)), Move(f, Step.Prune(place, Key(sid, archive))),
     Move(p, Put(place, Key(sid, Manifest), false))]
  }

  lemma UploadedThere(actors: seq<Actor>, w: World, p: nat, f: nat, sid: string, place: Place) returns (w2: World)
    requires p < |actors| && f < |actors| && MayRace(actors[p], actors[f], w, sid, place)
    ensures var moves := Uploading(p, sid, place, Archive(w.made[sid].ext));
      AreAllowedFrom(actors, w, moves) && After(actors, w, moves) == w2
    ensures MayRace(actors[p], actors[f], w2, sid, place) && w2.made == w.made && Race(place, sid) in w2.raced
    ensures ManifestAt(place, sid) in w2.store && forall loc :: loc in w.store ==> loc in w2.store
  {
    var up, first, m := actors[p], actors[f], Uploading(p, sid, place, Archive(w.made[sid].ext));
    RacerPuts(up, first, w, sid, place, Archive(w.made[sid].ext));
    var w1 := Apply(up, w, m[0].step);
    RacerPuts(up, first, w1, sid, place, Manifest);
    w2 := Apply(up, w1, m[1].step);
    TwoMoves(actors, w, m[0], m[1]);
  }

  lemma ChosenThere(actors: seq<Actor>, w: World, p: nat, f: nat, sids: set<string>, sid: string, place: Place)
    returns (w2: World)
    requires p < |actors| && f < |actors| && MayRace(actors[p], actors[f], w, sid, place)
    requires Allowed(actors[f], w, Select(place, sids)) && sid in sids
    ensures AreAllowedFrom(actors, w, Choosing(f, sids, sid, place))
    ensures After(actors, w, Choosing(f, sids, sid, place)) == w2
    ensures MayRace(actors[p], actors[f], w2, sid, place) && w2.made == w.made && w2.raced == w.raced
    ensures Pick(actors[f].scope.job, place, sid) in w2.chosen && ManifestAt(place, sid) !in w2.store
  {
    var up, first, m := actors[p], actors[f], Choosing(f, sids, sid, place);
    FirstChooses(up, first, w, sid, place, sids);
    var w1 := Apply(first, w, m[0].step);
    FirstPrunes(up, first, w1, sid, place, Manifest);
    w2 := Apply(first, w1, m[1].step);
    TwoMoves(actors, w, m[0], m[1]);
  }

  lemma CrossedThere(actors: seq<Actor>, w: World, p: nat, f: nat, sid: string, place: Place) returns (end: World)
    requires p < |actors| && f < |actors| && MayRace(actors[p], actors[f], w, sid, place) && Race(place, sid) in w.raced
    requires Pick(actors[f].scope.job, place, sid) in w.chosen
    ensures var moves := Crossing(p, f, sid, place, Archive(w.made[sid].ext));
      AreAllowedFrom(actors, w, moves) && After(actors, w, moves) == end
    ensures Inv(end) && sid in end.made && ManifestAt(place, sid) in end.store
    ensures ArchiveAt(end, place, sid) !in end.store
  {
    var archive := Archive(w.made[sid].ext);
    var m := Crossing(p, f, sid, place, archive);
    RacerPuts(actors[p], actors[f], w, sid, place, archive);
    var w1 := Moved(actors, w, m[0]);
    end := ManifestComesLast(actors, w1, p, f, sid, place);
    ThreeMoves(actors, w, m[0], m[1], m[2]);
  }

  lemma ManifestComesLast(actors: seq<Actor>, w: World, p: nat, f: nat, sid: string, place: Place) returns (end: World)
    requires p < |actors| && f < |actors| && MayRace(actors[p], actors[f], w, sid, place) && Race(place, sid) in w.raced
    requires Pick(actors[f].scope.job, place, sid) in w.chosen
    ensures var prune := Move(f, Step.Prune(place, Key(sid, Archive(w.made[sid].ext))));
      var put := Move(p, Put(place, Key(sid, Manifest), false));
      && IsAllowed(actors, w, prune) && IsAllowed(actors, Moved(actors, w, prune), put)
      && end == Moved(actors, Moved(actors, w, prune), put)
    ensures Inv(end) && sid in end.made && ManifestAt(place, sid) in end.store
    ensures ArchiveAt(end, place, sid) !in end.store
  {
    FirstPrunes(actors[p], actors[f], w, sid, place, Archive(w.made[sid].ext));
    var w1 := Moved(actors, w, Move(f, Step.Prune(place, Key(sid, Archive(w.made[sid].ext)))));
    RacerPuts(actors[p], actors[f], w1, sid, place, Manifest);
    end := Moved(actors, w1, Move(p, Put(place, Key(sid, Manifest), false)));
  }

  /** All that the first job's policy needs to select the snapshot is brought to the bucket. */
  lemma Gathered(jobs: seq<Job>, scopes: seq<Scope>, actors: seq<Actor>, w: World, f: nat, sid: string, place: Place)
    returns (moves: seq<Move>, w': World, snaps: seq<Snapshot>, now: DateTime, sids: set<string>)
    requires RunBy(jobs, scopes, actors) && Inv(w) && f < |jobs| && place != Local
    requires IsFirstAt(jobs, place, jobs[f].name)
    requires MayBeSelected(jobs[f].retention, sid, Pool(jobs, scopes, w, f, place))
    ensures AreAllowedFrom(actors, w, moves) && After(actors, w, moves) == w' && Inv(w')
    ensures Enriched(w, w', JobSlug(jobs[f].name)) && AllListed(w', IdSet(snaps), place)
    ensures Selects(jobs[f].retention, snaps, IdSet(snaps), now, sids) && sid in sids
    ensures forall s :: s in IdSet(snaps) ==> Owns(scopes[f], s, place, None)
  {
    snaps, now, sids :| Selects(jobs[f].retention, snaps, IdSet(snaps), now, sids) && sid in sids
      && AllIn(IdSet(snaps), Pool(jobs, scopes, w, f, place));
    moves, w' := BringAll(jobs, scopes, actors, w, f, IdSet(snaps), place);
  }

  lemma NoArchiveNoCopy(w: World, place: Place, sid: string)
    requires Inv(w) && sid in w.made && ArchiveAt(w, place, sid) !in w.store && place != Local
    requires ManifestAt(place, sid) in w.store
    ensures !Complete(w.store, place, sid) && !ListingsComplete(w)
  {
    CompleteIsIntact(w, place, sid);
  }

  /**
   For every storage where jobs may cross: snapshots are brought to the bucket until the first job's policy selects the
   plain one; then come the seven moves, after which its manifest is listed there without its archive.
   */
  lemma RaceBreaksListing(jobs: seq<Job>, scopes: seq<Scope>, actors: seq<Actor>, w: World, p: nat, f: nat,
                          sid: string, place: Place)
    returns (worlds: seq<World>, moves: seq<Move>, bringing: seq<Move>, sids: set<string>)
    requires RunBy(jobs, scopes, actors) && Inv(w) && IsBound(jobs, w, p, sid, place)
    requires !IsFirstAt(jobs, place, jobs[p].name) && MayCross(jobs, scopes, w, f, sid, place)
    ensures IsRunningFrom(actors, w, worlds, moves)
    ensures moves == bringing + RaceMoves(p, f, sids, sid, place, Archive(w.made[sid].ext))
    ensures ManifestAt(place, sid) in worlds[|moves|].store && !Complete(worlds[|moves|].store, place, sid)
    ensures !ListingsComplete(worlds[|moves|])
  {
    var end;
    bringing, sids, end := CrossingRun(jobs, scopes, actors, w, p, f, sid, place);
    moves := bringing + RaceMoves(p, f, sids, sid, place, Archive(w.made[sid].ext));
    AllowedIsRunning(actors, w, moves);
    worlds := Worlds(actors, w, moves);
    LastIsAfter(actors, w, moves);
    NoArchiveNoCopy(end, place, sid);
  }

  lemma CrossingRun(jobs: seq<Job>, scopes: seq<Scope>, actors: seq<Actor>, w: World, p: nat, f: nat, sid: string,
                    place: Place)
    returns (bringing: seq<Move>, sids: set<string>, end: World)
    requires RunBy(jobs, scopes, actors) && Inv(w) && IsBound(jobs, w, p, sid, place)
    requires !IsFirstAt(jobs, place, jobs[p].name) && MayCross(jobs, scopes, w, f, sid, place)
    ensures var moves := bringing + RaceMoves(p, f, sids, sid, place, Archive(w.made[sid].ext));
      AreAllowedFrom(actors, w, moves) && After(actors, w, moves) == end
    ensures Inv(end) && sid in end.made && ManifestAt(place, sid) in end.store
    ensures ArchiveAt(end, place, sid) !in end.store
  {
    var w1, snaps, now, some;
    bringing, w1, snaps, now, some := Gathered(jobs, scopes, actors, w, f, sid, place);
    StillWaits(jobs, w, w1, JobSlug(jobs[f].name), p, sid, place);
    BoundMayRace(jobs, scopes, actors, w1, p, f, sid, place);
    sids, end := RaceIsAllowed(jobs, scopes, actors, w1, p, f, sid, place, snaps, now, some);
    InParts(actors, w, bringing, RaceMoves(p, f, sids, sid, place, Archive(w.made[sid].ext)));
  }

  lemma RaceIsAllowed(jobs: seq<Job>, scopes: seq<Scope>, actors: seq<Actor>, w: World, p: nat, f: nat, sid: string,
                      place: Place, snaps: seq<Snapshot>, now: DateTime, some: set<string>)
    returns (sids: set<string>, end: World)
    requires RunBy(jobs, scopes, actors) && p < |jobs| && f < |jobs|
    requires MayRace(actors[p], actors[f], w, sid, place)
    requires Selects(jobs[f].retention, snaps, IdSet(snaps), now, some) && sid in some
    requires AllListed(w, IdSet(snaps), place) && forall s :: s in IdSet(snaps) ==> Owns(scopes[f], s, place, None)
    ensures var moves := RaceMoves(p, f, sids, sid, place, Archive(w.made[sid].ext));
      AreAllowedFrom(actors, w, moves) && After(actors, w, moves) == end
    ensures Inv(end) && sid in end.made && ManifestAt(place, sid) in end.store
    ensures ArchiveAt(end, place, sid) !in end.store
  {
    var archive := Archive(w.made[sid].ext);
    var w2 := UploadedThere(actors, w, p, f, sid, place);
    sids := MayChooseIt(jobs, scopes, actors, w2, f, place, snaps, now, some);
    var w4 := ChosenThere(actors, w2, p, f, sids, sid, place);
    end := CrossedThere(actors, w4, p, f, sid, place);
    InParts(actors, w, Uploading(p, sid, place, archive), Choosing(f, sids, sid, place));
    InParts(actors, w, Uploading(p, sid, place, archive) + Choosing(f, sids, sid, place),
            Crossing(p, f, sid, place, archive));
  }

  // ---- The theorem ----

  /**
   From a storage where no run is under way, every S3 listing stays complete over every interleaving of the jobs'
   runs, exactly if no plain snapshot waits for an upload to a bucket where another job comes first whose policy may
   select it among the snapshots that may lie there.
   */
  lemma ListingsStayCompleteExactly(jobs: seq<Job>, scopes: seq<Scope>, actors: seq<Actor>, w: World)
    requires RunBy(jobs, scopes, actors) && Inv(w) && AtRest(w)
    ensures ListingsStayComplete(actors, w) <==>
      forall f: nat, sid, place :: !MayCross(jobs, scopes, w, f, sid, place)
  {
    if forall f: nat, sid, place :: !MayCross(jobs, scopes, w, f, sid, place) {
      forall worlds: seq<World>, moves: seq<Move>, i: nat | IsRunningFrom(actors, w, worlds, moves) && i <= |moves|
        ensures ListingsComplete(worlds[i])
      {
        assert forall sid, place :: NobodyMayCross(jobs, scopes, w, sid, place);
        NoneCross(jobs, scopes, actors, w, worlds, moves, i);
      }
    } else {
      var f: nat, sid, place :| MayCross(jobs, scopes, w, f, sid, place);
      var p: nat :| IsBound(jobs, w, p, sid, place) && !IsFirstAt(jobs, place, jobs[p].name);
      var worlds, moves, _, _ := RaceBreaksListing(jobs, scopes, actors, w, p, f, sid, place);
    }
  }

  // ---- The same for engine ids ----

  /** No id in use tells of a year after `y`. */
  ghost predicate NothingAfter(w: World, y: int) {
    forall a, t :: a in w.made && Valid(t) && t.date.year > y ==> !StartsWith(a, Stamp(t))
  }

  /** The plain snapshots that wait have engine ids of year `y` or earlier. */
  ghost predicate EngineBacklog(jobs: seq<Job>, w: World, y: int) {
    forall p: nat, sid, place :: IsBound(jobs, w, p, sid, place) ==> IsEngineId(sid, y)
  }

  ghost predicate IsEngineId(sid: string, y: int) {
    exists t :: Valid(t) && t.date.year <= y && sid == NewSnapshotId(t, None)
  }

  lemma LaterIdsAreFree(w: World, y: int, t: DateTime, job: string)
    requires NothingAfter(w, y) && Valid(t) && t.date.year > y
    ensures IsFree(w, NewSnapshotId(t, Some(job))) && SlugOf(NewSnapshotId(t, Some(job))) == Some(JobSlug(job))
  {
    var sid := NewSnapshotId(t, Some(job));
    ParseUndoesNew(t, Some(job));
    NamedIdIsPlain(sid);
    assert StartsWith(sid, Stamp(t));
    forall a | a in w.made ensures Apart(sid, a) {
      ContinuesByDot(sid, a);
      GoesOnWith(a, sid, Stamp(t));
    }
  }

  lemma GoesOnWith(a: string, sid: string, stamp: string)
    requires StartsWith(sid, stamp)
    ensures Continues(a, sid) ==> StartsWith(a, stamp)
  {
    assert Continues(a, sid) ==> a[..|stamp|] == (sid + ".")[..|stamp|];
  }

  lemma LaterIdsMayLie(jobs: seq<Job>, scopes: seq<Scope>, actors: seq<Actor>, w: World, f: nat, place: Place, y: int,
                       t: DateTime)
    requires RunBy(jobs, scopes, actors) && f < |jobs| && NothingAfter(w, y) && Valid(t) && t.date.year > y
    ensures NewSnapshotId(t, Some(jobs[f].name)) in Pool(jobs, scopes, w, f, place)
  {
    LaterIdsAreFree(w, y, t, jobs[f].name);
    NamedIsOwn(jobs, scopes, actors, f, NewSnapshotId(t, Some(jobs[f].name)), place);
  }

  lemma NamedIsOwn(jobs: seq<Job>, scopes: seq<Scope>, actors: seq<Actor>, f: nat, sid: string, place: Place)
    requires RunBy(jobs, scopes, actors) && f < |jobs| && SlugOf(sid) == Some(JobSlug(jobs[f].name))
    ensures Owns(scopes[f], sid, place, None)
  {
  }

  lemma ContendedMayLie(jobs: seq<Job>, scopes: seq<Scope>, actors: seq<Actor>, w: World, f: nat, sid: string,
                        place: Place)
    requires RunBy(jobs, scopes, actors) && f < |jobs| && IsFirstAt(jobs, place, jobs[f].name)
    requires IsContended(jobs, w, sid, place)
    ensures sid in Pool(jobs, scopes, w, f, place)
  {
  }

  lemma ContendedMayBeSelected(jobs: seq<Job>, scopes: seq<Scope>, actors: seq<Actor>, w: World, f: nat, sid: string,
                               place: Place, y: int)
    requires RunBy(jobs, scopes, actors) && f < |jobs| && IsFirstAt(jobs, place, jobs[f].name)
    requires IsContended(jobs, w, sid, place) && NothingAfter(w, y) && IsEngineId(sid, y)
    requires HasRoom(jobs[f].retention, y)
    ensures MayBeSelected(jobs[f].retention, sid, Pool(jobs, scopes, w, f, place)) <==> IsOn(jobs[f].retention)
  {
    var t :| Valid(t) && t.date.year <= y && sid == NewSnapshotId(t, None);
    ContendedMayLie(jobs, scopes, actors, w, f, sid, place);
    forall u | Valid(u) && u.date.year > y
      ensures NewSnapshotId(u, Some(jobs[f].name)) in Pool(jobs, scopes, w, f, place)
    {
      LaterIdsMayLie(jobs, scopes, actors, w, f, place, y, u);
    }
    EngineIdMayBeSelectedExactly(jobs[f].retention, t, y, jobs[f].name, Pool(jobs, scopes, w, f, place));
  }

  /** A plain snapshot waits for an upload to a bucket where another job comes first that prunes at all. */
  ghost predicate MeetsPruner(jobs: seq<Job>, w: World, f: nat, sid: string, place: Place) {
    && f < |jobs| && IsFirstAt(jobs, place, jobs[f].name) && IsContended(jobs, w, sid, place)
    && IsOn(jobs[f].retention)
  }

  lemma MeetsPrunerExactly(jobs: seq<Job>, scopes: seq<Scope>, actors: seq<Actor>, w: World, f: nat, sid: string,
                           place: Place, y: int)
    requires RunBy(jobs, scopes, actors) && EngineBacklog(jobs, w, y) && NothingAfter(w, y)
    requires forall i :: 0 <= i < |jobs| ==> HasRoom(jobs[i].retention, y)
    ensures MayCross(jobs, scopes, w, f, sid, place) <==> MeetsPruner(jobs, w, f, sid, place)
  {
    if f < |jobs| && IsFirstAt(jobs, place, jobs[f].name) && IsContended(jobs, w, sid, place) {
      var p: nat :| IsBound(jobs, w, p, sid, place);
      ContendedMayBeSelected(jobs, scopes, actors, w, f, sid, place, y);
    }
  }

  lemma NoneMeetExactly(jobs: seq<Job>, scopes: seq<Scope>, actors: seq<Actor>, w: World, y: int)
    requires RunBy(jobs, scopes, actors) && EngineBacklog(jobs, w, y) && NothingAfter(w, y)
    requires forall i :: 0 <= i < |jobs| ==> HasRoom(jobs[i].retention, y)
    ensures (forall f: nat, sid, place :: !MayCross(jobs, scopes, w, f, sid, place)) <==>
      forall f: nat, sid, place :: !MeetsPruner(jobs, w, f, sid, place)
  {
    forall f: nat, sid, place ensures MayCross(jobs, scopes, w, f, sid, place) <==> MeetsPruner(jobs, w, f, sid, place)
    {
      MeetsPrunerExactly(jobs, scopes, actors, w, f, sid, place, y);
    }
  }

  /**
   Where the plain backlog has engine ids, no id in use is of a later year, and in the years to come there is room for
   what the policies keep, S3 listings stay complete exactly if no plain snapshot waits for an upload to a bucket where
   another job comes first that prunes at all.
   */
  lemma EngineListingsStayCompleteExactly(jobs: seq<Job>, scopes: seq<Scope>, actors: seq<Actor>, w: World, y: int)
    requires RunBy(jobs, scopes, actors) && Inv(w) && AtRest(w) && EngineBacklog(jobs, w, y) && NothingAfter(w, y)
    requires forall i :: 0 <= i < |jobs| ==> HasRoom(jobs[i].retention, y)
    ensures ListingsStayComplete(actors, w) <==> forall f: nat, sid, place :: !MeetsPruner(jobs, w, f, sid, place)
  {
    ListingsStayCompleteExactly(jobs, scopes, actors, w);
    NoneMeetExactly(jobs, scopes, actors, w, y);
  }
}
