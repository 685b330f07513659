/** Two jobs that share the data dir and a bucket: what can happen to a plain snapshot of the one that comes second. */
module ContentionCases {
  import opened Wrappers
  import opened Calendar
  import opened SnapshotIds
  import opened SnapshotKeys
  import opened Texts
  import opened Ownership
  import opened Retention
  import opened Storage
  import opened Choices
  import opened Selectable
  import opened Protocol
  import opened RunFrames
  import opened Contention
  import opened Listings
  import opened Crossings
  import RetentionLaws
  import Order

  // ---- The config ----

  const POLICY := Config(1, 0, Tiers(0, 0, 0), true)
  const BUCKET := S3("", "bucket", "")
  const SPECS := [LocalSpec, S3Spec("", "bucket", "")]
  const FILES := Job("files", SPECS, true, POLICY)
  const DB := Job("db", SPECS, true, POLICY)
  /** The same, but it keeps no local copies. */
  const DB_AWAY := Job("db", SPECS, false, POLICY)
  const FILES_SCOPE := Scope("files", true, Some({Local, BUCKET}))
  const DB_SCOPE := Scope("db", true, Some({}))
  const PEERS := map["files" := {BUCKET}, "db" := {BUCKET}]
  const FILES_ACTOR := Actor(FILES_SCOPE, false, {BUCKET}, POLICY, PEERS)
  const DB_ACTOR := Actor(DB_SCOPE, false, {BUCKET}, POLICY, PEERS)
  const SCOPES := [FILES_SCOPE, DB_SCOPE]
  const ACTORS := [FILES_ACTOR, DB_ACTOR]

  lemma StoresOfExample(job: Job)
    requires job.specs == SPECS
    ensures BucketsOf(job) == {BUCKET} && forall place :: StoresAt(job, place) <==> place == Local || place == BUCKET
  {
    assert job.specs[1] == S3Spec("", "bucket", "") && HasBucket(job.specs[1]);
    forall place ensures StoresAt(job, place) <==> place == Local || place == BUCKET {
    }
  }

  lemma TwoJobs(db: Job, scopes: seq<Scope>, actors: seq<Actor>)
    requires (db == DB || db == DB_AWAY) && scopes == SCOPES && actors == ACTORS
    ensures RunBy([FILES, db], scopes, actors)
    ensures forall place :: IsFirstAt([FILES, db], place, "files") <==> place == Local || place == BUCKET
    ensures forall place :: !IsFirstAt([FILES, db], place, "db")
  {
    TwoScopes([FILES, db], scopes);
    StoresOfExample(FILES);
    StoresOfExample(db);
    PeersOfTwo([FILES, db]);
  }

  lemma TwoScopes(jobs: seq<Job>, scopes: seq<Scope>)
    requires |jobs| == 2 && jobs[0] == FILES && (jobs[1] == DB || jobs[1] == DB_AWAY) && scopes == SCOPES
    ensures Configured(jobs, scopes)
    ensures forall place :: IsFirstAt(jobs, place, "files") <==> place == Local || place == BUCKET
    ensures forall place :: !IsFirstAt(jobs, place, "db")
  {
    assert JobSlug("files") == "files" && JobSlug("db") == "db";
    StoresOfExample(FILES);
    StoresOfExample(jobs[1]);
    FirstOfTwo(jobs);
  }

  lemma FirstOfTwo(jobs: seq<Job>)
    requires |jobs| == 2 && jobs[0].name == "files" && jobs[1].name == "db"
    requires forall place, i :: 0 <= i < 2 ==> (StoresAt(jobs[i], place) <==> place == Local || place == BUCKET)
    ensures forall place :: IsFirstAt(jobs, place, "files") <==> place == Local || place == BUCKET
    ensures forall place :: !IsFirstAt(jobs, place, "db")
  {
    forall place | place == Local || place == BUCKET ensures IsFirstAt(jobs, place, "files") {
      assert jobs[0].name == "files" && StoresAt(jobs[0], place);
    }
  }

  lemma PeersOfTwo(jobs: seq<Job>)
    requires |jobs| == 2 && jobs[0].name == "files" && jobs[1].name == "db"
    requires forall i :: 0 <= i < 2 ==> BucketsOf(jobs[i]) == {BUCKET}
    ensures PeersOf(jobs) == PEERS
  {
    TwoPeers(jobs, jobs[0], jobs[1]);
  }

  lemma TwoPeers(jobs: seq<Job>, a: Job, b: Job)
    requires jobs == [a, b] && a.name != b.name
    ensures PeersOf(jobs) == map[a.name := BucketsOf(a), b.name := BucketsOf(b)]
  {
    assert jobs[1..] == [b] && [b][1..] == [];
    assert PeersOf([b]) == map[b.name := BucketsOf(b)];
  }

  // ---- The snapshots ----

  /** A plain snapshot of `db` in the data dir, waiting for its upload. */
  function Waiting(sid: string): World {
    World(map[ManifestAt(Local, sid) := Sidecar(Sha256(7)), MarkerOf(sid) := PendingFor("db"),
              At(Local, Key(sid, Archive(Plain))) := Whole(7)],
          map[sid := Artifact(Plain, 7)], {}, {}, {}, {})
  }

  /** Beside it a snapshot that names its job. */
  function Beside(sid: string, own: string): World {
    var w := Waiting(sid);
    w.(store := w.store[ManifestAt(Local, own) := Sidecar(Sha256(8))][At(Local, Key(own, Archive(Plain))) := Whole(8)],
       made := w.made[own := Artifact(Plain, 8)])
  }

  /** The plain snapshot of a run at `t` from when there was one job, and one of a later run. */
  ghost predicate AreIds(t: DateTime, u: DateTime, job: string, sid: string, own: string) {
    && Valid(t) && Valid(u) && Instant(WholeSecond(t)) < Instant(WholeSecond(u))
    && sid == NewSnapshotId(t, None) && own == NewSnapshotId(u, Some(job))
  }

  lemma PlainId(t: DateTime)
    requires Valid(t)
    ensures IsPlain(NewSnapshotId(t, None)) && IsFileName(NewSnapshotId(t, None))
    ensures '.' !in NewSnapshotId(t, None) && '/' !in NewSnapshotId(t, None)
  {
    ParseUndoesNew(t, None);
    ParseUndoesNew(t, Some("db"));
    NamedIdIsPlain(NewSnapshotId(t, Some("db")));
    SlashFree(NewSnapshotId(t, Some("db")));
    IdHasNoDot(t, None);
    assert NewSnapshotId(t, Some("db"))[..|Stamp(t)|] == Stamp(t) == NewSnapshotId(t, None);
  }

  lemma AboutIds(t: DateTime, u: DateTime, job: string, sid: string, own: string)
    requires AreIds(t, u, job, sid, own)
    ensures IsPlain(sid) && IsFileName(sid) && '/' !in sid && SlugOf(own) == Some(JobSlug(job)) && IsFileName(own)
    ensures '/' !in own && Order.Less(sid, own) && sid != own && Apart(sid, own)
  {
    PlainId(t);
    ParseUndoesNew(u, Some(job));
    NamedIdIsPlain(own);
    SlashFree(own);
    IdHasNoDot(u, Some(job));
    NoDotsApart(sid, own);
    IdOrderIsTimeOrder(t, None, u, Some(job));
    Order.LessIrreflexive(sid);
  }

  lemma InvOfOne(sid: string)
    requires IsPlain(sid) && IsFileName(sid)
    ensures Inv(Waiting(sid)) && AtRest(Waiting(sid)) && MarkedFor(Waiting(sid), sid) == Some("db")
  {
    var w := Waiting(sid);
    assert Intact(w, Local, sid);
    forall s | MarkedFor(w, s).Some? ensures s == sid {
      assert MarkerOf(s) in w.store;
    }
  }

  lemma InvOfTwo(sid: string, own: string)
    requires IsPlain(sid) && IsFileName(sid) && IsFileName(own) && sid != own && Apart(sid, own)
    ensures Inv(Beside(sid, own)) && AtRest(Beside(sid, own))
  {
    var w := Beside(sid, own);
    AboutBeside(sid, own);
    assert Somewhere(w, sid) by {
      assert Intact(w, Local, sid);
    }
    ContentsOfTwo(w, sid, own);
    assert Apart(own, sid);
  }

  lemma ContentsOfTwo(w: World, sid: string, own: string)
    requires w == Beside(sid, own) && sid != own
    ensures ContentsFit(w) && forall loc :: loc in w.store ==> loc.place == Local && w.store[loc] != Torn
  {
    forall loc | loc in w.store
      ensures ContentFits(w, loc, w.store[loc]) && loc.place == Local && w.store[loc] != Torn
    {
      assert loc == ManifestAt(Local, sid) || loc == MarkerOf(sid) || loc == At(Local, Key(sid, Archive(Plain)))
        || loc == ManifestAt(Local, own) || loc == At(Local, Key(own, Archive(Plain)));
    }
  }

  /** The data dir lists both, and the plain one is marked. */
  ghost predicate HoldsBoth(w: World, sid: string, own: string, marked: Option<string>) {
    && (forall s :: ManifestAt(Local, s) in w.store <==> s == sid || s == own)
    && MarkedFor(w, sid) == marked && forall s :: s != sid ==> MarkedFor(w, s) == None
  }

  lemma AboutBeside(sid: string, own: string)
    requires sid != own
    ensures HoldsBoth(Beside(sid, own), sid, own, Some("db"))
  {
    var w := Beside(sid, own);
    forall s | s != sid ensures MarkedFor(w, s) == None {
      assert MarkerOf(s) !in w.store;
    }
    forall s ensures ManifestAt(Local, s) in w.store <==> s == sid || s == own {
    }
  }

  /** A job's own snapshots in the data dir, of the two. */
  lemma OwnOfTwo(w: World, scope: Scope, sid: string, own: string, marked: Option<string>)
    requires HoldsBoth(w, sid, own, marked) && '/' !in sid && '/' !in own && IsPlain(sid) && sid != own
    requires SlugOf(own) == Some(JobSlug(scope.job))
    ensures forall s :: s in CandidatesIn(w, scope, Local, None) <==>
      s == own || (s == sid && Owns(scope, sid, Local, marked))
  {
    forall s
      ensures s in CandidatesIn(w, scope, Local, None) <==> s == own || (s == sid && Owns(scope, sid, Local, marked))
    {
      assert s in CandidatesIn(w, scope, Local, None) ==> ManifestAt(Local, s) in w.store;
    }
  }

  // ---- Retention deletes what has become another job's ----

  /** Of two snapshots, with one to keep, the older is selected. */
  lemma OlderIsSelected(snaps: seq<Snapshot>, a: string, b: string, now: DateTime)
    requires AreSnapshots(snaps, {a, b}, now) && Order.Less(a, b)
    ensures SelectPrunable(snaps, POLICY, now) == Some({a})
  {
    Order.LessIrreflexive(a);
    assert a in IdSet(snaps) && b in IdSet(snaps);
    var s :| s in snaps && s.id == a;
    var t :| t in snaps && t.id == b;
    RetentionLaws.OneNewer(snaps, s, t, POLICY);
    NothingKept(snaps, s, t);
    NewestOfTwo(snaps, a, b);
    RetentionLaws.SelectedExactly(snaps, POLICY, now, s);
    RetentionLaws.SelectedExactly(snaps, POLICY, now, t);
    OnlyOne(SelectPrunable(snaps, POLICY, now).value, a, b);
  }

  lemma OnlyOne(ids: set<string>, a: string, b: string)
    requires ids <= {a, b} && a in ids && b !in ids
    ensures ids == {a}
  {
  }

  lemma NothingKept(snaps: seq<Snapshot>, s: Snapshot, t: Snapshot)
    requires DistinctIds(snaps) && s in snaps && t in snaps && Order.Less(s.id, t.id)
    ensures s.id !in Protected(snaps, POLICY)
  {
    forall bucket: Grouping ensures TierKeep(snaps, 0, bucket) == {} {
    }
    forall r | r in snaps && r.id == s.id ensures r == s {
      RetentionLaws.SameId(snaps, r, s);
    }
  }

  lemma NewestOfTwo(snaps: seq<Snapshot>, a: string, b: string)
    requires IdSet(snaps) == {a, b} && Order.Less(a, b)
    ensures RetentionLaws.NewerIds(snaps, b) == {}
  {
    Order.LessIrreflexive(b);
    if Order.Less(b, a) {
      Order.LessTransitive(b, a, b);
    }
  }

  lemma PlainIsSelected(sid: string, own: string)
    requires Order.Less(sid, own)
    ensures forall snaps, now :: AreSnapshots(snaps, {sid, own}, now) ==>
      SelectPrunable(snaps, POLICY, now) == Some({sid})
  {
    forall snaps, now | AreSnapshots(snaps, {sid, own}, now) ensures SelectPrunable(snaps, POLICY, now) == Some({sid}) {
      OlderIsSelected(snaps, sid, own, now);
    }
  }

  /** Retention of `db` in the data dir looks at both. */
  lemma BothAreLookedAt(w: World, sid: string, own: string)
    requires HoldsBoth(w, sid, own, Some("db")) && '/' !in sid && '/' !in own && IsPlain(sid) && sid != own
    requires SlugOf(own) == Some(JobSlug("db"))
    ensures CandidatesIn(w, DB_SCOPE, Local, None) == {sid, own}
  {
    OwnOfTwo(w, DB_SCOPE, sid, own, Some("db"));
  }

  lemma PlainMayBeChosen(w: World, now: DateTime, sid: string, own: string)
    requires HoldsBoth(w, sid, own, Some("db")) && CandidatesIn(w, DB_SCOPE, Local, None) == {sid, own} && IsPlain(sid)
    requires Order.Less(sid, own) && Valid(now)
    ensures Allowed(DB_ACTOR, w, Select(Local, {sid}))
  {
    var snaps := SnapshotsOfIds({sid, own}, now);
    OlderIsSelected(snaps, sid, own, now);
    assert LookedAt(w, DB_SCOPE, Local, false) == {sid, own};
    assert Selects(POLICY, snaps, LookedAt(w, DB_SCOPE, Local, false), now, {sid});
    assert sid in CandidatesIn(w, DB_SCOPE, Local, None);
  }

  /** What is left when retention of `db` has chosen the plain snapshot; then its manifest, then its marker is gone. */
  function Chosen(sid: string, own: string): World {
    Beside(sid, own).(pruned := {Pick("db", Local, sid)}, chosen := {Pick("db", Local, sid)})
  }

  function Unlisted(sid: string, own: string): World {
    Chosen(sid, own).(store := Chosen(sid, own).store - {ManifestAt(Local, sid)})
  }

  function Unmarked(sid: string, own: string): World {
    Unlisted(sid, own).(store := Unlisted(sid, own).store - {MarkerOf(sid)})
  }

  /**
   In the data dir, retention of `db` selects a plain snapshot marked for it, beside a later one of its own, and
   deletes its files; the last one is then `files`'s.
   */
  lemma PrunedArchiveIsAnothers(t: DateTime, u: DateTime, sid: string, own: string)
    requires AreIds(t, u, "db", sid, own)
    ensures RunBy([FILES, DB], SCOPES, ACTORS) && Inv(Beside(sid, own)) && AtRest(Beside(sid, own))
    ensures CandidatesIn(Beside(sid, own), DB_SCOPE, Local, None) == {sid, own}
    ensures forall snaps, now :: AreSnapshots(snaps, {sid, own}, now) ==>
      SelectPrunable(snaps, POLICY, now) == Some({sid})
    ensures Allowed(DB_ACTOR, Beside(sid, own), Select(Local, {sid}))
    ensures Apply(DB_ACTOR, Beside(sid, own), Select(Local, {sid})) == Chosen(sid, own)
    ensures Allowed(DB_ACTOR, Chosen(sid, own), Step.Prune(Local, Key(sid, Manifest)))
    ensures Apply(DB_ACTOR, Chosen(sid, own), Step.Prune(Local, Key(sid, Manifest))) == Unlisted(sid, own)
    ensures Allowed(DB_ACTOR, Unlisted(sid, own), Step.Prune(Local, Key(sid, Marker)))
    ensures Apply(DB_ACTOR, Unlisted(sid, own), Step.Prune(Local, Key(sid, Marker))) == Unmarked(sid, own)
    ensures Allowed(DB_ACTOR, Unmarked(sid, own), Step.Prune(Local, Key(sid, Archive(Plain))))
    ensures At(Local, Key(sid, Archive(Plain))) in Unmarked(sid, own).store
    ensures NobodyElses(SCOPES, 1, Unlisted(sid, own), Local, sid)
    ensures !NobodyElses(SCOPES, 1, Unmarked(sid, own), Local, sid)
  {
    TwoJobs(DB, SCOPES, ACTORS);
    AboutIds(t, u, "db", sid, own);
    InvOfTwo(sid, own);
    AboutBeside(sid, own);
    PlainIsSelected(sid, own);
    BothAreLookedAt(Beside(sid, own), sid, own);
    PlainMayBeChosen(Beside(sid, own), t, sid, own);
    PlainIsChosen(sid, own);
    PlainIsPruned(sid, own);
    PlainIsOwned(sid, own);
  }

  lemma PlainIsChosen(sid: string, own: string)
    ensures Apply(DB_ACTOR, Beside(sid, own), Select(Local, {sid})) == Chosen(sid, own)
  {
    assert (set s | s in {sid} :: Pick("db", Local, s)) == {Pick("db", Local, sid)};
  }

  lemma PlainIsPruned(sid: string, own: string)
    requires IsPlain(sid) && sid != own
    ensures Allowed(DB_ACTOR, Chosen(sid, own), Step.Prune(Local, Key(sid, Manifest)))
    ensures Apply(DB_ACTOR, Chosen(sid, own), Step.Prune(Local, Key(sid, Manifest))) == Unlisted(sid, own)
    ensures Allowed(DB_ACTOR, Unlisted(sid, own), Step.Prune(Local, Key(sid, Marker)))
    ensures Apply(DB_ACTOR, Unlisted(sid, own), Step.Prune(Local, Key(sid, Marker))) == Unmarked(sid, own)
    ensures Allowed(DB_ACTOR, Unmarked(sid, own), Step.Prune(Local, Key(sid, Archive(Plain))))
    ensures At(Local, Key(sid, Archive(Plain))) in Unmarked(sid, own).store
  {
    assert Pick("db", Local, sid) in Chosen(sid, own).chosen;
    assert MarkedFor(Chosen(sid, own), sid) == Some("db") == MarkedFor(Unlisted(sid, own), sid);
  }

  lemma PlainIsOwned(sid: string, own: string)
    requires IsPlain(sid) && sid != own
    ensures NobodyElses(SCOPES, 1, Unlisted(sid, own), Local, sid)
    ensures !NobodyElses(SCOPES, 1, Unmarked(sid, own), Local, sid)
  {
    assert MarkerSeen(Unlisted(sid, own), Local, sid) == Some("db");
    assert MarkerSeen(Unmarked(sid, own), Local, sid) == None;
    assert Owns(SCOPES[0], sid, Local, None) && !Owns(SCOPES[0], sid, Local, Some("db"));
  }

  // ---- The catch-up uploads, unmarks and drops ----

  lemma MayRaceThere(w: World, sid: string)
    requires Inv(w) && IsPlain(sid) && MarkedFor(w, sid) == Some("db") && sid in w.made && HasLocalFiles(w, sid)
    ensures MayRace(DB_ACTOR, FILES_ACTOR, w, sid, BUCKET)
  {
  }

  /** Beside `files`, `db` uploads the snapshot to a bucket where plain ids are `files`'s. */
  lemma UploadedArchiveIsAnothers(t: DateTime, sid: string)
    requires Valid(t) && sid == NewSnapshotId(t, None)
    ensures RunBy([FILES, DB], SCOPES, ACTORS) && Inv(Waiting(sid)) && AtRest(Waiting(sid))
    ensures Owns(DB_SCOPE, sid, Local, MarkedFor(Waiting(sid), sid))
    ensures Allowed(DB_ACTOR, Waiting(sid), Put(BUCKET, Key(sid, Archive(Plain)), false))
    ensures !NobodyElses(SCOPES, 1, Waiting(sid), BUCKET, sid)
  {
    TwoJobs(DB, SCOPES, ACTORS);
    PlainId(t);
    InvOfOne(sid);
    MayRaceThere(Waiting(sid), sid);
    RacerPuts(DB_ACTOR, FILES_ACTOR, Waiting(sid), sid, BUCKET, Archive(Plain));
    assert Owns(SCOPES[0], sid, BUCKET, MarkerSeen(Waiting(sid), BUCKET, sid));
  }

  /** `db` has put both files to the bucket. */
  function Uploaded(w: World, sid: string): World {
    var w1 := Apply(DB_ACTOR, w, Put(BUCKET, Key(sid, Archive(Plain)), false));
    Apply(DB_ACTOR, w1, Put(BUCKET, Key(sid, Manifest), false))
  }

  lemma UploadIsAllowed(w: World, sid: string)
    requires Inv(w) && IsPlain(sid) && MarkedFor(w, sid) == Some("db") && sid in w.made && HasLocalFiles(w, sid)
    requires w.made[sid].ext == Plain
    ensures var w1 := Apply(DB_ACTOR, w, Put(BUCKET, Key(sid, Archive(Plain)), false));
      && Allowed(DB_ACTOR, w, Put(BUCKET, Key(sid, Archive(Plain)), false))
      && Allowed(DB_ACTOR, w1, Put(BUCKET, Key(sid, Manifest), false))
    ensures Inv(Uploaded(w, sid)) && Intact(Uploaded(w, sid), BUCKET, sid)
    ensures MarkedFor(Uploaded(w, sid), sid) == Some("db") && Uploaded(w, sid).made == w.made
    ensures Uploaded(w, sid).store == w.store[At(BUCKET, Key(sid, Archive(Plain))) := Whole(w.made[sid].bytes)]
                                             [ManifestAt(BUCKET, sid) := Sidecar(Sha256(w.made[sid].bytes))]
  {
    MayRaceThere(w, sid);
    RacerPuts(DB_ACTOR, FILES_ACTOR, w, sid, BUCKET, Archive(Plain));
    var w1 := Apply(DB_ACTOR, w, Put(BUCKET, Key(sid, Archive(Plain)), false));
    RacerPuts(DB_ACTOR, FILES_ACTOR, w1, sid, BUCKET, Manifest);
  }

  /** Where `db` keeps no local copies: the one it drops after the marker is `files`'s. */
  lemma DroppedCopyIsAnothers(t: DateTime, sid: string)
    requires Valid(t) && sid == NewSnapshotId(t, None)
    ensures RunBy([FILES, DB_AWAY], SCOPES, ACTORS) && !KeepsLocal(DB_AWAY)
    ensures Inv(Waiting(sid)) && AtRest(Waiting(sid)) && Inv(Uploaded(Waiting(sid), sid))
    ensures Allowed(DB_ACTOR, Uploaded(Waiting(sid), sid), Unmark(sid))
    ensures var w := Apply(DB_ACTOR, Uploaded(Waiting(sid), sid), Unmark(sid));
      && Allowed(DB_ACTOR, w, Drop(sid, Archive(Plain))) && At(Local, Key(sid, Archive(Plain))) in w.store
      && !NobodyElses(SCOPES, 1, w, Local, sid)
  {
    TwoJobs(DB_AWAY, SCOPES, ACTORS);
    PlainId(t);
    InvOfOne(sid);
    UploadIsAllowed(Waiting(sid), sid);
    assert At(Local, Key(sid, Archive(Plain))) in Uploaded(Waiting(sid), sid).store;
    ReleasedIsAnothers(Uploaded(Waiting(sid), sid), sid);
  }

  lemma ReleasedIsAnothers(w: World, sid: string)
    requires Inv(w) && IsPlain(sid) && Intact(w, BUCKET, sid) && MarkedFor(w, sid) == Some("db")
    ensures Allowed(DB_ACTOR, w, Unmark(sid))
    ensures var w' := Apply(DB_ACTOR, w, Unmark(sid));
      && Allowed(DB_ACTOR, w', Drop(sid, Archive(Plain))) && MarkedFor(w', sid) == None
      && (At(Local, Key(sid, Archive(Plain))) in w.store ==> At(Local, Key(sid, Archive(Plain))) in w'.store)
      && !NobodyElses(SCOPES, 1, w', Local, sid)
  {
    var w' := Apply(DB_ACTOR, w, Unmark(sid));
    assert Intact(w', BUCKET, sid) && MarkedFor(w', sid) == None;
    assert Owns(SCOPES[0], sid, Local, MarkerSeen(w', Local, sid));
  }

  // ---- A listing breaks ----

  lemma NothingIsAfter(t: DateTime, sid: string)
    requires Valid(t) && sid == NewSnapshotId(t, None)
    ensures NothingAfter(Waiting(sid), t.date.year)
  {
    forall u | Valid(u) && u.date.year > t.date.year ensures !StartsWith(sid, Stamp(u)) {
      StampOrder(t, u);
      assert |sid| == |Stamp(u)|;
    }
  }

  lemma OnlyOneWaits(t: DateTime, sid: string)
    requires Valid(t) && sid == NewSnapshotId(t, None)
    ensures EngineBacklog([FILES, DB], Waiting(sid), t.date.year)
  {
    forall p: nat, s, place | IsBound([FILES, DB], Waiting(sid), p, s, place) ensures IsEngineId(s, t.date.year) {
      assert s in Waiting(sid).made;
    }
  }

  lemma WaitsForBucket(w: World, sid: string)
    requires w == Waiting(sid) && IsPlain(sid)
    ensures IsBound([FILES, DB], w, 1, sid, BUCKET)
  {
    StoresOfExample(DB);
    assert MarkedFor(w, sid) == Some("db");
  }

  lemma BreaksThere(jobs: seq<Job>, scopes: seq<Scope>, actors: seq<Actor>, w: World, y: int, p: nat, sid: string)
    requires RunBy(jobs, scopes, actors) && Inv(w) && AtRest(w) && EngineBacklog(jobs, w, y) && NothingAfter(w, y)
    requires forall i :: 0 <= i < |jobs| ==> jobs[i].retention == POLICY
    requires MIN_YEAR <= y < MAX_YEAR && IsFirstAt(jobs, BUCKET, jobs[0].name)
    requires IsBound(jobs, w, p, sid, BUCKET) && !IsFirstAt(jobs, BUCKET, jobs[p].name)
    ensures !ListingsStayComplete(actors, w)
  {
    ThereIsRoom(jobs, y);
    IsMet(jobs, w, p, sid);
    EngineListingsStayCompleteExactly(jobs, scopes, actors, w, y);
  }

  lemma ThereIsRoom(jobs: seq<Job>, y: int)
    requires MIN_YEAR <= y < MAX_YEAR && forall i :: 0 <= i < |jobs| ==> jobs[i].retention == POLICY
    ensures forall i :: 0 <= i < |jobs| ==> HasRoom(jobs[i].retention, y)
  {
  }

  lemma IsMet(jobs: seq<Job>, w: World, p: nat, sid: string)
    requires jobs != [] && jobs[0].retention == POLICY && IsFirstAt(jobs, BUCKET, jobs[0].name)
    requires IsBound(jobs, w, p, sid, BUCKET) && !IsFirstAt(jobs, BUCKET, jobs[p].name)
    ensures MeetsPruner(jobs, w, 0, sid, BUCKET)
  {
  }

  lemma NothingOffsite(w: World)
    requires forall loc :: loc in w.store ==> loc.place == Local
    ensures ListingsComplete(w)
  {
  }

  /**
   For any plain snapshot of a run before the last year: the catch-up of `db` beside `files`'s retention, whose policy
   keeps one, can leave its manifest in the bucket without its archive.
   */
  lemma SharedBucketBreaksListings(t: DateTime, sid: string)
    requires Valid(t) && t.date.year < MAX_YEAR && sid == NewSnapshotId(t, None)
    ensures RunBy([FILES, DB], SCOPES, ACTORS) && Inv(Waiting(sid)) && AtRest(Waiting(sid))
    ensures ListingsComplete(Waiting(sid)) && !ListingsStayComplete(ACTORS, Waiting(sid))
  {
    TwoJobs(DB, SCOPES, ACTORS);
    AtRestAndComplete(t, sid);
    SharedBucketBreaks([FILES, DB], SCOPES, ACTORS, Waiting(sid), t, sid);
  }

  lemma AtRestAndComplete(t: DateTime, sid: string)
    requires Valid(t) && sid == NewSnapshotId(t, None)
    ensures IsPlain(sid) && Inv(Waiting(sid)) && AtRest(Waiting(sid)) && ListingsComplete(Waiting(sid))
  {
    PlainId(t);
    InvOfOne(sid);
    NothingOffsite(Waiting(sid));
  }

  lemma SharedBucketBreaks(jobs: seq<Job>, scopes: seq<Scope>, actors: seq<Actor>, w: World, t: DateTime, sid: string)
    requires Valid(t) && t.date.year < MAX_YEAR && sid == NewSnapshotId(t, None) && IsPlain(sid)
    requires jobs == [FILES, DB] && RunBy(jobs, scopes, actors) && w == Waiting(sid) && Inv(w) && AtRest(w)
    requires IsFirstAt(jobs, BUCKET, "files") && !IsFirstAt(jobs, BUCKET, "db")
    ensures !ListingsStayComplete(actors, w)
  {
    BacklogOfOne(jobs, w, t, sid);
    BothKeepOne(jobs);
    BreaksThere(jobs, scopes, actors, w, t.date.year, 1, sid);
  }

  lemma BothKeepOne(jobs: seq<Job>)
    requires jobs == [FILES, DB]
    ensures |jobs| == 2 && jobs[0].name == "files" && jobs[1].name == "db"
    ensures forall i :: 0 <= i < |jobs| ==> jobs[i].retention == POLICY
  {
  }

  lemma BacklogOfOne(jobs: seq<Job>, w: World, t: DateTime, sid: string)
    requires Valid(t) && sid == NewSnapshotId(t, None) && IsPlain(sid) && jobs == [FILES, DB] && w == Waiting(sid)
    ensures NothingAfter(w, t.date.year) && EngineBacklog(jobs, w, t.date.year) && IsBound(jobs, w, 1, sid, BUCKET)
  {
    NothingIsAfter(t, sid);
    OnlyOneWaits(t, sid);
    WaitsForBucket(w, sid);
  }

  // ---- A bound is exceeded ----

  /**
   `files` has one snapshot in the data dir, as many as its policy keeps, beside the one `db` has uploaded. Once `db`
   unmarks that one - and, as it keeps local copies, leaves it there - `files` has one more than its policy keeps.
   */
  lemma BoundIsExceeded(t: DateTime, u: DateTime, sid: string, own: string)
    requires AreIds(t, u, "files", sid, own)
    ensures RunBy([FILES, DB], SCOPES, ACTORS) && KeepsLocal(DB)
    ensures Inv(Beside(sid, own)) && AtRest(Beside(sid, own)) && Inv(Uploaded(Beside(sid, own), sid))
    ensures Allowed(DB_ACTOR, Uploaded(Beside(sid, own), sid), Unmark(sid))
    ensures FewAtAll(Uploaded(Beside(sid, own), sid), FILES_SCOPE, [Local], POLICY)
    ensures !FewAtAll(Apply(DB_ACTOR, Uploaded(Beside(sid, own), sid), Unmark(sid)), FILES_SCOPE, [Local], POLICY)
  {
    TwoJobs(DB, SCOPES, ACTORS);
    AboutIds(t, u, "files", sid, own);
    InvOfTwo(sid, own);
    UploadedBeside(sid, own);
    ReleasedIsAnothers(Uploaded(Beside(sid, own), sid), sid);
    OneTooMany(Uploaded(Beside(sid, own), sid), sid, own);
  }

  lemma UploadedBeside(sid: string, own: string)
    requires IsPlain(sid) && sid != own && Inv(Beside(sid, own))
    ensures Inv(Uploaded(Beside(sid, own), sid)) && Intact(Uploaded(Beside(sid, own), sid), BUCKET, sid)
    ensures HoldsBoth(Uploaded(Beside(sid, own), sid), sid, own, Some("db"))
  {
    AboutBeside(sid, own);
    UploadIsAllowed(Beside(sid, own), sid);
    UploadHoldsBoth(Beside(sid, own), sid, own);
  }

  lemma UploadHoldsBoth(w: World, sid: string, own: string)
    requires HoldsBoth(w, sid, own, Some("db")) && sid in w.made && w.made[sid].ext == Plain
    requires Uploaded(w, sid).store == w.store[At(BUCKET, Key(sid, Archive(Plain))) := Whole(w.made[sid].bytes)]
                                              [ManifestAt(BUCKET, sid) := Sidecar(Sha256(w.made[sid].bytes))]
    ensures HoldsBoth(Uploaded(w, sid), sid, own, Some("db"))
  {
    var w' := Uploaded(w, sid);
    assert forall s :: MarkedFor(w', s) == MarkedFor(w, s);
    assert forall s :: ManifestAt(Local, s) in w'.store <==> ManifestAt(Local, s) in w.store;
  }

  lemma ReleasedHoldsBoth(w: World, w': World, sid: string, own: string)
    requires HoldsBoth(w, sid, own, Some("db")) && w'.store == w.store - {MarkerOf(sid)}
    ensures HoldsBoth(w', sid, own, None)
  {
    forall s | s != sid ensures MarkedFor(w', s) == None {
      assert MarkedFor(w, s) == None;
    }
  }

  lemma OneTooMany(w: World, sid: string, own: string)
    requires HoldsBoth(w, sid, own, Some("db")) && '/' !in sid && '/' !in own && IsPlain(sid) && sid != own
    requires SlugOf(own) == Some(JobSlug("files"))
    ensures FewAtAll(w, FILES_SCOPE, [Local], POLICY)
    ensures !FewAtAll(Apply(DB_ACTOR, w, Unmark(sid)), FILES_SCOPE, [Local], POLICY)
  {
    var w' := Apply(DB_ACTOR, w, Unmark(sid));
    ReleasedHoldsBoth(w, w', sid, own);
    FewWithinLimit(w, sid, own, Some("db"));
    FewWithinLimit(w', sid, own, None);
  }

  lemma FewWithinLimit(w: World, sid: string, own: string, marked: Option<string>)
    requires HoldsBoth(w, sid, own, marked) && '/' !in sid && '/' !in own && IsPlain(sid) && sid != own
    requires SlugOf(own) == Some(JobSlug("files")) && (marked == Some("db") || marked == None)
    ensures FewAtAll(w, FILES_SCOPE, [Local], POLICY) <==> marked == Some("db")
  {
    OwnOfTwo(w, FILES_SCOPE, sid, own, marked);
    OwnUnlessMarked(sid, marked);
    OneOrTwo(CandidatesIn(w, FILES_SCOPE, Local, None), own, sid);
    LimitOfOne(w, FILES_SCOPE, POLICY);
  }

  lemma OwnUnlessMarked(sid: string, marked: Option<string>)
    requires IsPlain(sid) && (marked == Some("db") || marked == None)
    ensures Owns(FILES_SCOPE, sid, Local, marked) <==> marked == None
  {
    assert "db" != "files";
  }

  lemma LimitOfOne(w: World, scope: Scope, cfg: Config)
    requires cfg.count == 1 && cfg.tiers == Tiers(0, 0, 0)
    ensures FewAtAll(w, scope, [Local], cfg) <==> |CandidatesIn(w, scope, Local, None)| <= 1
  {
    assert Local in [Local];
  }

  lemma OneOrTwo(ids: set<string>, a: string, b: string)
    requires a != b && a in ids && forall sid :: sid in ids ==> sid == a || sid == b
    ensures |ids| == if b in ids then 2 else 1
  {
    assert ids == if b in ids then {a, b} else {a};
  }
}
