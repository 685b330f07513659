/**
 The storage protocol as a state machine. Runs change the shared storage in atomic steps: one put,
 delete, marker write or marker removal each. This module says which steps a job may take in which
 state, what every step keeps, and what any interleaving of several jobs' steps keeps. Runner.dfy
 shows that the code takes only such steps.
 */
module Protocol {
  import opened Wrappers
  import opened SnapshotIds
  import opened SnapshotKeys
  import opened Ownership
  import opened Storage
  import opened Choices
  import Retention

  // ---- The invariant ----

  /** A key holds what its run built, or - in the data dir only, whose copies are not atomic - a cut-off file. */
  predicate ContentFits(w: World, loc: Loc, content: Content) {
    && loc.key.sid in w.made
    && match loc.key.kind
       case Archive(ext) =>
         ext == w.made[loc.key.sid].ext
           && (content == Whole(w.made[loc.key.sid].bytes) || (content == Torn && loc.place == Local))
       case Manifest =>
         content == Sidecar(Sha256(w.made[loc.key.sid].bytes)) || (content == Torn && loc.place == Local)
       case Marker =>
         loc.place == Local && (content.PendingFor? || content == Torn)
  }

  ghost predicate ContentsFit(w: World) {
    forall loc :: loc in w.store ==> ContentFits(w, loc, w.store[loc])
  }

  /** A manifest at an S3 place has its archive beside it, unless jobs have raced for the snapshot there. */
  ghost predicate ListedHaveArchives(w: World) {
    forall place, sid :: place != Local && ManifestAt(place, sid) in w.store && Race(place, sid) !in w.raced ==>
      sid in w.made && ArchiveAt(w, place, sid) in w.store
  }

  /** A pending snapshot has no cut-off file in the data dir. */
  ghost predicate PendingNotTorn(w: World) {
    forall loc :: loc in w.store && loc.place == Local && MarkedFor(w, loc.key.sid).Some? ==> w.store[loc] != Torn
  }

  /** A pending snapshot whose id names a job is marked for that job. */
  ghost predicate MarkersNameOwners(w: World) {
    forall sid :: MarkedFor(w, sid).Some? && SlugOf(sid).Some? ==> SlugOf(sid).value == JobSlug(MarkedFor(w, sid).value)
  }

  /** A pending snapshot is complete somewhere, unless retention chose it. */
  ghost predicate PendingNotLost(w: World) {
    forall sid :: MarkedFor(w, sid).Some? ==> Somewhere(w, sid) || WasPruned(w, sid)
  }

  /** The ids in use are file names, and none continues another after a dot. */
  ghost predicate IdsApart(w: World) {
    && (forall a {:trigger IsFileName(a)} :: a in w.made ==> IsFileName(a))
    && (forall a, b {:trigger Apart(a, b)} :: a in w.made && b in w.made && a != b ==> Apart(a, b))
  }

  /** A run can take this id: it is not in use, and its files will be told apart from those of all ids in use. */
  ghost predicate IsFree(w: World, sid: string) {
    sid !in w.made && IsFileName(sid) && forall a {:trigger Apart(sid, a)} :: a in w.made ==> Apart(sid, a)
  }

  ghost predicate Inv(w: World) {
    && ContentsFit(w) && ListedHaveArchives(w) && PendingNotTorn(w) && MarkersNameOwners(w) && PendingNotLost(w)
    && IdsApart(w) && w.building <= w.made.Keys && w.chosen <= w.pruned
  }

  /** Where nothing is stored yet, all is well. */
  lemma EmptyStorage()
    ensures Inv(World(map[], map[], {}, {}, {}, {}))
  {
  }

  // ---- Steps ----

  /**
   A job at work, with the buckets it puts to, its retention policy, and the jobs that may run beside it, with theirs.
   `alone`: no other job's run or prune is under way meanwhile.
   */
  datatype Actor = Actor(
    scope: Scope, alone: bool, buckets: set<Place>, policy: Retention.Config, peers: map<string, set<Place>>)

  /** The ids whose files nobody else touches meanwhile: with other jobs running, those that name this one. */
  predicate Uploads(me: Actor, sid: string) {
    me.alone || SlugOf(sid) == Some(JobSlug(me.scope.job))
  }

  predicate IsPlain(sid: string) {
    SlugOf(sid) == None
  }

  /** Beside other jobs this one also catches up on the plain snapshots marked for it. */
  predicate Catches(me: Actor, w: World, sid: string) {
    !me.alone && IsPlain(sid) && MarkedFor(w, sid) == Some(me.scope.job)
  }

  /** What it uploads in `w`. */
  predicate Handles(me: Actor, w: World, sid: string) {
    (Uploads(me, sid) && !Foreign(me, sid)) || Catches(me, w, sid)
  }

  /** Whether plain snapshots at an S3 place are this job's, whatever their markers say. */
  predicate OwnsPlain(me: Actor, place: Place, sid: string) {
    Owns(me.scope, sid, place, None)
  }

  /** Beside other jobs, putting a plain snapshot where it is not this job's to prune. */
  predicate Races(me: Actor, place: Place, sid: string) {
    !me.alone && IsPlain(sid) && place != Local && !OwnsPlain(me, place, sid)
  }

  /** The id names another job. */
  predicate Foreign(me: Actor, sid: string) {
    SlugOf(sid).Some? && SlugOf(sid).value != JobSlug(me.scope.job)
  }

  datatype Step =
    | Make(sid: string, artifact: Artifact)         // the run built its archive and manifest
    | Put(place: Place, key: Key, torn: bool)       // an archive or manifest was written, or is cut off
    | Mark(sid: string, torn: bool)                 // the pending marker was written, or cut off
    | Unmark(sid: string)                           // the pending marker was unlinked
    | Drop(sid: string, kind: Kind)                 // a local file was unlinked, the copy being off-site
    | Select(place: Place, sids: set<string>)       // retention chose what to prune at a place
    | Prune(place: Place, key: Key)                 // one key of a chosen snapshot was deleted

  function TrueContent(w: World, key: Key): Content
    requires key.sid in w.made
  {
    if key.kind == Manifest then Sidecar(Sha256(w.made[key.sid].bytes)) else Whole(w.made[key.sid].bytes)
  }

  ghost predicate Allowed(me: Actor, w: World, step: Step) {
    match step
    case Make(sid, artifact) =>
      Uploads(me, sid) && !Foreign(me, sid) && IsFree(w, sid)
    case Put(place, key, torn) =>
      && key.sid in w.made && (key.kind == Manifest || key.kind == Archive(w.made[key.sid].ext))
      && if place == Local then MayPutLocally(me, w, key.sid) else !torn && MayPutOffsite(me, w, place, key)
    case Mark(sid, torn) =>
      && Uploads(me, sid) && !Foreign(me, sid) && sid in w.building
      && MarkedFor(w, sid) == None && Intact(w, Local, sid)
    case Unmark(sid) =>
      && !Foreign(me, sid) && MarkedFor(w, sid) == Some(me.scope.job) && (Offsite(w, sid) || WasPruned(w, sid))
      && me.buckets != {}
    case Drop(sid, kind) =>
      && !Foreign(me, sid) && kind != Marker && (Offsite(w, sid) || WasPruned(w, sid))
      && (Uploads(me, sid) || MarkedFor(w, sid) == None)
    case Select(place, sids) =>
      && MayChoose(w, me.scope, me.policy, place, sids)
      && forall sid :: sid in sids ==>
           Owns(me.scope, sid, place, MarkerSeen(w, place, sid)) && ManifestAt(place, sid) in w.store
    case Prune(place, key) =>
      && Pick(me.scope.job, place, key.sid) in w.chosen && !Foreign(me, key.sid)
      && if place == Local then me.alone || (InListingOrder(w, Local, key) && StillOwn(me.scope, w, key.sid))
         else
           && OwnsPlain(me, place, key.sid)
           && (InListingOrder(w, place, key) || (!me.alone && Race(place, key.sid) in w.raced))
  }

  /** Its own id; not pending; and not over the only whole copy. */
  ghost predicate MayPutLocally(me: Actor, w: World, sid: string) {
    Uploads(me, sid) && !Foreign(me, sid) && MarkedFor(w, sid) == None && (!Intact(w, Local, sid) || Offsite(w, sid))
  }

  /** To a bucket of its own, the manifest after the archive. */
  ghost predicate MayPutOffsite(me: Actor, w: World, place: Place, key: Key)
    requires key.sid in w.made
  {
    && place in me.buckets && Handles(me, w, key.sid) && AtHand(me, w, key.sid)
    && (key.kind == Manifest ==>
          ArchiveAt(w, place, key.sid) in w.store || (!me.alone && Race(place, key.sid) in w.raced))
  }

  /** The files of the snapshot are in the work dir of a run of the job, or wait for it in the data dir. */
  predicate AtHand(me: Actor, w: World, sid: string)
    requires sid in w.made
  {
    (Uploads(me, sid) && sid in w.building) || (MarkedFor(w, sid) == Some(me.scope.job) && HasLocalFiles(w, sid))
  }

  /** The archive and the manifest of the snapshot are in the data dir. */
  predicate HasLocalFiles(w: World, sid: string)
    requires sid in w.made
  {
    ArchiveAt(w, Local, sid) in w.store && ManifestAt(Local, sid) in w.store
  }

  /**
   A snapshot in the data dir that retention of a job chose: the job still owns it, or its manifest and the
   marker that named the job are gone.
   */
  predicate StillOwn(scope: Scope, w: World, sid: string) {
    || Owns(scope, sid, Local, MarkedFor(w, sid))
    || (ManifestAt(Local, sid) !in w.store && MarkerOf(sid) !in w.store)
  }

  /** What sorts before the key among the files of its snapshot is gone: the manifest, then the marker. */
  predicate InListingOrder(w: World, place: Place, key: Key) {
    && (key.kind != Manifest ==> ManifestAt(place, key.sid) !in w.store)
    && (key.kind.Archive? ==> At(place, Key(key.sid, Marker)) !in w.store)
  }

  function Apply(me: Actor, w: World, step: Step): World {
    match step
    case Make(sid, artifact) => w.(made := w.made[sid := artifact], building := w.building + {sid})
    case Put(place, key, torn) =>
      w.(store := w.store[At(place, key) := if torn || key.sid !in w.made then Torn else TrueContent(w, key)],
         raced := if Races(me, place, key.sid) then w.raced + {Race(place, key.sid)} else w.raced)
    case Mark(sid, torn) => w.(store := w.store[MarkerOf(sid) := if torn then Torn else PendingFor(me.scope.job)])
    case Unmark(sid) => w.(store := w.store - {MarkerOf(sid)})
    case Drop(sid, kind) => w.(store := w.store - {At(Local, Key(sid, kind))})
    case Select(place, sids) =>
      var picks := set sid | sid in sids :: Pick(me.scope.job, place, sid);
      w.(pruned := w.pruned + picks, chosen := w.chosen + picks)
    case Prune(place, key) => w.(store := w.store - {At(place, key)})
  }

  // ---- What every step keeps ----

  /** No last copy goes: what was complete somewhere still is, unless retention chose it. */
  ghost predicate NoLoss(w: World, w': World) {
    forall sid :: Somewhere(w, sid) ==> Somewhere(w', sid) || WasPruned(w', sid)
  }

  ghost predicate Grows(w: World, w': World) {
    && w.pruned <= w'.pruned && w.building <= w'.building && w.chosen <= w'.chosen && w.raced <= w'.raced
    && forall sid :: sid in w.made ==> sid in w'.made && w'.made[sid] == w.made[sid]
  }

  lemma StepGrows(me: Actor, w: World, step: Step)
    requires Allowed(me, w, step)
    ensures Grows(w, Apply(me, w, step))
  {
  }

  lemma PrunedGrows(w: World, w': World, sid: string)
    requires Grows(w, w') && WasPruned(w, sid)
    ensures WasPruned(w', sid)
  {
  }

  /** A copy only stops being intact when its place loses or tears one of its files. */
  lemma StillIntact(w: World, w': World, place: Place, sid: string)
    requires Grows(w, w') && Intact(w, place, sid)
    requires forall key: Key :: key.sid == sid && key.kind != Marker && At(place, key) in w.store ==>
      At(place, key) in w'.store && w'.store[At(place, key)] == w.store[At(place, key)]
    ensures Intact(w', place, sid)
  {
    assert At(place, Key(sid, Manifest)) in w.store;
    assert At(place, Key(sid, Archive(w.made[sid].ext))) in w.store;
  }

  /** Writing the files of a snapshot off-site, or removing those of another, leaves its intact copies intact. */
  lemma CopyStays(me: Actor, w: World, step: Step, place: Place, sid: string)
    requires Inv(w) && Allowed(me, w, step) && Intact(w, place, sid)
    requires !(step.Drop? && step.sid == sid && place == Local)
    requires !(step.Put? && step.key.sid == sid && step.place == Local == place)
    requires !(step.Prune? && step.key.sid == sid && step.place == place)
    ensures Intact(Apply(me, w, step), place, sid)
  {
    if step.Put? && step.key.sid == sid && step.place == place {
      PutAgain(me, w, step, place, sid);
    } else {
      OthersFiles(me, w, step, place, sid);
    }
  }

  lemma OthersFiles(me: Actor, w: World, step: Step, place: Place, sid: string)
    requires Allowed(me, w, step) && Intact(w, place, sid)
    requires !(step.Drop? && step.sid == sid && place == Local)
    requires !(step.Put? && step.key.sid == sid && step.place == place)
    requires !(step.Prune? && step.key.sid == sid && step.place == place)
    ensures Intact(Apply(me, w, step), place, sid)
  {
    StepGrows(me, w, step);
    StillIntact(w, Apply(me, w, step), place, sid);
  }

  /** Putting a file off-site again writes what was there. */
  lemma PutAgain(me: Actor, w: World, step: Step, place: Place, sid: string)
    requires Allowed(me, w, step) && Intact(w, place, sid) && place != Local
    requires step.Put? && step.key.sid == sid && step.place == place
    ensures Intact(Apply(me, w, step), place, sid)
  {
  }

  lemma StepNoLoss(me: Actor, w: World, step: Step)
    requires Inv(w) && Allowed(me, w, step)
    ensures NoLoss(w, Apply(me, w, step))
  {
    var w' := Apply(me, w, step);
    StepGrows(me, w, step);
    assert step.Prune? ==> Pick(me.scope.job, step.place, step.key.sid) in w.pruned && WasPruned(w, step.key.sid);
    forall sid | Somewhere(w, sid) ensures Somewhere(w', sid) || WasPruned(w', sid) {
      if Offsite(w, sid) {
        OffsiteStays(me, w, step, sid);
      } else if WasPruned(w, sid) {
        PrunedGrows(w, w', sid);
      } else {
        CopyStays(me, w, step, Local, sid);
      }
    }
  }

  /** A copy off-site only goes if retention chose the snapshot. */
  lemma OffsiteStays(me: Actor, w: World, step: Step, sid: string)
    requires Inv(w) && Allowed(me, w, step) && Offsite(w, sid)
    ensures Offsite(Apply(me, w, step), sid) || WasPruned(Apply(me, w, step), sid)
  {
    var place :| place != Local && Intact(w, place, sid);
    if step.Prune? && step.key.sid == sid {
      StepGrows(me, w, step);
      assert Pick(me.scope.job, step.place, sid) in w.pruned;
      PrunedGrows(w, Apply(me, w, step), sid);
    } else {
      CopyStays(me, w, step, place, sid);
    }
  }

  /** Only retention removes keys off-site. */
  ghost predicate OffsiteKeysStay(w: World, w': World) {
    forall loc: Loc :: loc.place != Local && loc in w.store ==> loc in w'.store || WasPruned(w', loc.key.sid)
  }

  lemma StepKeepsOffsiteKeys(me: Actor, w: World, step: Step)
    requires Inv(w) && Allowed(me, w, step)
    ensures OffsiteKeysStay(w, Apply(me, w, step))
  {
    assert step.Prune? ==> Pick(me.scope.job, step.place, step.key.sid) in Apply(me, w, step).pruned;
  }

  lemma StepKeepsContents(me: Actor, w: World, step: Step)
    requires Inv(w) && Allowed(me, w, step)
    ensures ContentsFit(Apply(me, w, step))
  {
    var w' := Apply(me, w, step);
    StepGrows(me, w, step);
    forall loc | loc in w'.store ensures ContentFits(w', loc, w'.store[loc]) {
      if loc in w.store && w'.store[loc] == w.store[loc] {
        assert ContentFits(w, loc, w.store[loc]);
      }
    }
  }

  lemma StepKeepsListed(me: Actor, w: World, step: Step)
    requires Inv(w) && Allowed(me, w, step)
    ensures ListedHaveArchives(Apply(me, w, step))
  {
    var w' := Apply(me, w, step);
    StepKeepsContents(me, w, step);
    StepGrows(me, w, step);
    forall place, sid | place != Local && ManifestAt(place, sid) in w'.store && Race(place, sid) !in w'.raced
      ensures sid in w'.made && ArchiveAt(w', place, sid) in w'.store
    {
      assert ContentFits(w', ManifestAt(place, sid), w'.store[ManifestAt(place, sid)]);
      assert Race(place, sid) !in w.raced;
      if ManifestAt(place, sid) in w.store {
        assert sid in w.made && ArchiveAt(w, place, sid) in w.store;
      }
    }
  }

  /** A marker only appears by being written. */
  lemma MarkersAppear(me: Actor, w: World, step: Step, sid: string)
    requires Inv(w) && Allowed(me, w, step) && MarkedFor(Apply(me, w, step), sid).Some?
    ensures MarkedFor(w, sid) == MarkedFor(Apply(me, w, step), sid)
      || (step.Mark? && step.sid == sid && !step.torn && MarkedFor(Apply(me, w, step), sid).value == me.scope.job)
  {
  }

  /** An intact copy in the data dir has no cut-off file. */
  lemma IntactIsWhole(w: World, loc: Loc)
    requires Intact(w, Local, loc.key.sid) && loc.place == Local && loc.key.kind != Marker
    requires loc in w.store && ContentFits(w, loc, w.store[loc])
    ensures w.store[loc] != Torn
  {
  }

  lemma StepKeepsPendingWhole(me: Actor, w: World, step: Step, loc: Loc)
    requires Inv(w) && Allowed(me, w, step) && loc in Apply(me, w, step).store
    requires loc.place == Local && MarkedFor(Apply(me, w, step), loc.key.sid).Some?
    ensures Apply(me, w, step).store[loc] != Torn
  {
    MarkersAppear(me, w, step, loc.key.sid);
    if MarkedFor(w, loc.key.sid).Some? {
      assert loc in w.store ==> w.store[loc] != Torn;
    } else {
      assert step.Mark? && step.sid == loc.key.sid && !step.torn;
      if loc != MarkerOf(step.sid) {
        IntactIsWhole(w, loc);
      }
    }
  }

  lemma StepKeepsMarkers(me: Actor, w: World, step: Step)
    requires Inv(w) && Allowed(me, w, step)
    ensures PendingNotTorn(Apply(me, w, step)) && MarkersNameOwners(Apply(me, w, step))
  {
    var w' := Apply(me, w, step);
    forall loc | loc in w'.store && loc.place == Local && MarkedFor(w', loc.key.sid).Some?
      ensures w'.store[loc] != Torn
    {
      StepKeepsPendingWhole(me, w, step, loc);
    }
    forall sid | MarkedFor(w', sid).Some? && SlugOf(sid).Some?
      ensures SlugOf(sid).value == JobSlug(MarkedFor(w', sid).value)
    {
      MarkersAppear(me, w, step, sid);
    }
  }

  lemma StepKeepsPending(me: Actor, w: World, step: Step)
    requires Inv(w) && Allowed(me, w, step)
    ensures PendingNotLost(Apply(me, w, step))
  {
    var w' := Apply(me, w, step);
    StepNoLoss(me, w, step);
    StepGrows(me, w, step);
    forall sid | MarkedFor(w', sid).Some? ensures Somewhere(w', sid) || WasPruned(w', sid) {
      if MarkedFor(w, sid).Some? {
        if !Somewhere(w, sid) {
          PrunedGrows(w, w', sid);
        }
      } else {
        assert step.Mark? && step.sid == sid;
        assert Somewhere(w, sid);
      }
    }
  }

  lemma StepKeepsIds(me: Actor, w: World, step: Step)
    requires Inv(w) && Allowed(me, w, step)
    ensures IdsApart(Apply(me, w, step))
  {
    if step.Make? {
      FreeIdKeepsApart(w, step.sid, step.artifact);
    }
  }

  lemma FreeIdKeepsApart(w: World, sid: string, artifact: Artifact)
    requires IdsApart(w) && IsFree(w, sid)
    ensures IdsApart(w.(made := w.made[sid := artifact]))
  {
    forall a, b | a in w.made[sid := artifact] && b in w.made[sid := artifact] && a != b ensures Apart(a, b) {
      if a == sid {
        assert Apart(sid, b);
      } else if b == sid {
        assert Apart(sid, a);
      }
    }
  }

  /** Every step a job may take keeps the invariant, and takes no last copy. */
  lemma StepSafe(me: Actor, w: World, step: Step)
    requires Inv(w) && Allowed(me, w, step)
    ensures Inv(Apply(me, w, step)) && NoLoss(w, Apply(me, w, step)) && Grows(w, Apply(me, w, step))
  {
    StepKeepsContents(me, w, step);
    StepKeepsListed(me, w, step);
    StepKeepsMarkers(me, w, step);
    StepKeepsPending(me, w, step);
    StepKeepsIds(me, w, step);
    StepNoLoss(me, w, step);
    StepGrows(me, w, step);
  }

  // ---- When a file in the data dir may be overwritten ----

  lemma TornBreaksCopy(me: Actor, w: World, key: Key)
    requires Inv(w) && key.sid in w.made && (key.kind == Manifest || key.kind == Archive(w.made[key.sid].ext))
    ensures !Intact(Apply(me, w, Put(Local, key, true)), Local, key.sid)
    ensures Offsite(Apply(me, w, Put(Local, key, true)), key.sid) ==> Offsite(w, key.sid)
  {
    var w' := Apply(me, w, Put(Local, key, true));
    forall place | place != Local && Intact(w', place, key.sid) ensures Intact(w, place, key.sid) {
      assert w'.store[ManifestAt(place, key.sid)] == w.store[ManifestAt(place, key.sid)];
    }
  }

  /**
   A copy into the data dir is not atomic. Being cut off there keeps the invariant and takes no last copy
   exactly if the snapshot is not pending, and has no intact copy in the data dir, or another one off-site, or
   was pruned. A second local destination, written over the copy the first one made, does not meet this.
   */
  lemma CutOffPutIsSafeExactly(me: Actor, w: World, key: Key)
    requires Inv(w) && key.sid in w.made && (key.kind == Manifest || key.kind == Archive(w.made[key.sid].ext))
    ensures Inv(Apply(me, w, Put(Local, key, true))) && NoLoss(w, Apply(me, w, Put(Local, key, true)))
       <==>
         MarkedFor(w, key.sid) == None && (!Intact(w, Local, key.sid) || Offsite(w, key.sid) || WasPruned(w, key.sid))
  {
    var sid, w' := key.sid, Apply(me, w, Put(Local, key, true));
    TornBreaksCopy(me, w, key);
    assert MarkedFor(w', sid) == MarkedFor(w, sid);
    if MarkedFor(w, sid).Some? {
      assert At(Local, key) in w'.store && w'.store[At(Local, key)] == Torn;
      assert !PendingNotTorn(w');
    } else if Intact(w, Local, sid) && !Offsite(w, sid) && !WasPruned(w, sid) {
      assert !Somewhere(w', sid) && Somewhere(w, sid);
      assert !NoLoss(w, w');
    } else {
      CutOffPutIsSafe(me, w, key);
    }
  }

  /**
   Bringing a snapshot back from an off-site copy is safe, cut off or not, exactly if no marker says it is
   pending.
   */
  lemma DownloadIsSafeExactly(me: Actor, w: World, key: Key)
    requires Inv(w) && key.sid in w.made && (key.kind == Manifest || key.kind == Archive(w.made[key.sid].ext))
    requires Offsite(w, key.sid)
    ensures Inv(Apply(me, w, Put(Local, key, true))) && NoLoss(w, Apply(me, w, Put(Local, key, true)))
       <==> MarkedFor(w, key.sid) == None
  {
    CutOffPutIsSafeExactly(me, w, key);
  }

  lemma CutOffPutIsSafe(me: Actor, w: World, key: Key)
    requires Inv(w) && key.sid in w.made && (key.kind == Manifest || key.kind == Archive(w.made[key.sid].ext))
    requires MarkedFor(w, key.sid) == None
    requires (!Intact(w, Local, key.sid) || Offsite(w, key.sid) || WasPruned(w, key.sid))
    ensures Inv(Apply(me, w, Put(Local, key, true))) && NoLoss(w, Apply(me, w, Put(Local, key, true)))
  {
    var w' := Apply(me, w, Put(Local, key, true));
    assert Grows(w, w');
    forall sid | Somewhere(w, sid) ensures Somewhere(w', sid) || WasPruned(w', sid) {
      if sid != key.sid || !Intact(w, Local, sid) || Offsite(w, sid) {
        var place :| Intact(w, place, sid) && (sid == key.sid ==> place != Local);
        StillIntact(w, w', place, sid);
      }
    }
    forall loc | loc in w'.store ensures ContentFits(w', loc, w'.store[loc]) {
      assert loc != At(Local, key) ==> ContentFits(w, loc, w.store[loc]);
    }
    forall sid ensures MarkedFor(w', sid) == MarkedFor(w, sid) {
    }
  }

  // ---- What the invariant means ----

  /** A snapshot listed at an S3 place (its manifest is there) is complete there: archive present, hash as recorded. */
  lemma ListedOffsiteIsComplete(w: World, place: Place, sid: string)
    requires Inv(w) && place != Local && ManifestAt(place, sid) in w.store && Race(place, sid) !in w.raced
    ensures Complete(w.store, place, sid)
  {
    assert ContentFits(w, ManifestAt(place, sid), w.store[ManifestAt(place, sid)]);
    assert ContentFits(w, ArchiveAt(w, place, sid), w.store[ArchiveAt(w, place, sid)]);
    assert IsPair(w.store, place, sid, w.made[sid].ext, w.made[sid].bytes);
  }

  /** Complete copies are exactly the ones that hold what the run built. */
  lemma CompleteIsIntact(w: World, place: Place, sid: string)
    requires Inv(w)
    ensures Complete(w.store, place, sid) <==> Intact(w, place, sid)
  {
    if Complete(w.store, place, sid) {
      var ext, bytes :| IsPair(w.store, place, sid, ext, bytes);
      assert ContentFits(w, At(place, Key(sid, Archive(ext))), Whole(bytes));
    }
  }
}
