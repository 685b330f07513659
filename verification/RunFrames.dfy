/** What the parts of a run change and what they leave alone, from one world to a later one. */
module RunFrames {
  import opened Wrappers
  import opened SnapshotKeys
  import opened Texts
  import opened Ownership
  import opened Storage
  import opened Choices
  import opened Protocol
  import opened Interleaving
  import opened Retention
  import opened Sequences
  import RetentionLaws
  import Order
  import Calendar
  import Selectable

  /** What a run reports besides its status. */
  datatype Problem =
    | Unavailable(spec: Spec)
    | UploadFailed(place: Place)
    | StillPending(sid: string)
    | KeptInDataDir
    | KeptLocalCopy
    | RetentionFailed(place: Place)

  // ---- Progress ----

  /** Of what concerns this job, nothing but the keys in `locs` has changed. */
  ghost predicate OnlyKeys(me: Actor, w: World, w': World, locs: iset<Loc>) {
    && (forall loc: Loc :: Uploads(me, loc.key.sid) && loc !in locs ==> SameAt(w, w', loc))
    && (forall s :: Uploads(me, s) ==> (s in w'.made <==> s in w.made) && (s in w.made ==> w'.made[s] == w.made[s]))
    && (forall s :: !Foreign(me, s) && s in w'.made ==> s in w.made)
    && (forall s :: MarkedFor(w', s) == Some(me.scope.job) && MarkerOf(s) !in locs ==>
          MarkedFor(w, s) == Some(me.scope.job))
    && (forall s {:trigger PlainStays(me, w, w', locs, s)} :: PlainStays(me, w, w', locs, s))
  }

  /**
   Of a plain snapshot, beside other jobs: its marker does not come, nothing is added in the data dir, and while
   it is marked for this job its files there stay.
   */
  ghost predicate PlainStays(me: Actor, w: World, w': World, locs: iset<Loc>, sid: string) {
    !me.alone && IsPlain(sid) ==>
      && (MarkerOf(sid) !in locs ==> NoNewMarker(w, w', sid))
      && (MarkerOf(sid) !in locs && Catches(me, w, sid) ==> LocalStaysBut(w, w', sid, locs))
      && (forall kind :: At(Local, Key(sid, kind)) !in locs && At(Local, Key(sid, kind)) in w'.store ==>
            At(Local, Key(sid, kind)) in w.store)
  }

  ghost predicate LocalStaysBut(w: World, w': World, sid: string, locs: iset<Loc>) {
    forall kind :: At(Local, Key(sid, kind)) !in locs ==> SameAt(w, w', At(Local, Key(sid, kind)))
  }

  ghost predicate OwnUnchanged(me: Actor, w: World, w': World) {
    OnlyKeys(me, w, w', iset{})
  }

  /** No snapshot starts to wait for another job beside this one. */
  ghost predicate FewerRivals(me: Actor, w: World, w': World) {
    forall place, sid {:trigger Rival(me, w', place, sid)} :: Rival(me, w', place, sid) ==> Rival(me, w, place, sid)
  }

  /** The run went on from `w` to `w'` and, of what concerns this job, changed no other key than `locs`. */
  ghost predicate Progress(me: Actor, w: World, w': World, locs: iset<Loc>) {
    Onward(w, w') && OnlyKeys(me, w, w', locs) && FewerRivals(me, w, w')
  }

  lemma ProgressOver(me: Actor, u: World, v: World, w: World, xs: iset<Loc>, ys: iset<Loc>, all: iset<Loc>)
    requires Progress(me, u, v, xs) && Progress(me, v, w, ys) && xs <= all && ys <= all
    ensures Progress(me, u, w, all)
  {
    OnwardTransitive(u, v, w);
    forall loc: Loc | Uploads(me, loc.key.sid) && loc !in all ensures SameAt(u, w, loc) {
      assert SameAt(u, v, loc) && SameAt(v, w, loc);
    }
    forall s ensures PlainStays(me, u, w, all, s) {
      PlainStaysOver(me, u, v, w, xs, ys, all, s);
    }
  }

  lemma PlainStaysOver(me: Actor, u: World, v: World, w: World, xs: iset<Loc>, ys: iset<Loc>, all: iset<Loc>,
                       sid: string)
    requires PlainStays(me, u, v, xs, sid) && PlainStays(me, v, w, ys, sid) && xs <= all && ys <= all
    ensures PlainStays(me, u, w, all, sid)
  {
    if !me.alone && IsPlain(sid) {
      if MarkerOf(sid) !in all && Catches(me, u, sid) {
        assert SameAt(u, v, At(Local, Key(sid, Marker)));
        forall kind | At(Local, Key(sid, kind)) !in all ensures SameAt(u, w, At(Local, Key(sid, kind))) {
          assert SameAt(u, v, At(Local, Key(sid, kind))) && SameAt(v, w, At(Local, Key(sid, kind)));
        }
      }
    }
  }

  lemma ProgressWider(me: Actor, w: World, w': World, xs: iset<Loc>, all: iset<Loc>)
    requires Progress(me, w, w', xs) && xs <= all
    ensures Progress(me, w, w', all)
  {
    forall s ensures PlainStays(me, w, w', all, s) {
      assert PlainStays(me, w, w', xs, s);
    }
  }

  lemma NoProgress(me: Actor, w: World, all: iset<Loc>)
    ensures Progress(me, w, w, all)
  {
    forall s ensures PlainStays(me, w, w, all, s) {
    }
  }

  lemma StartOnward(me: Actor, w: World)
    ensures Onward(w, w)
  {
    NoProgress(me, w, iset{});
  }

  lemma RelyLeavesOwn(me: Actor, w: World, w': World)
    requires Rely(me, w, w') && Inv(w')
    ensures OwnUnchanged(me, w, w') && FewerRivals(me, w, w')
  {
    forall s ensures PlainStays(me, w, w', iset{}, s) {
      if !me.alone && IsPlain(s) {
        assert PlainRelied(me, w, w', s);
        NoneAddedLocally(me, w, w', s);
      }
    }
    forall place, s | Rival(me, w', place, s) ensures Rival(me, w, place, s) {
      assert PlainRelied(me, w, w', s);
      NoneAddedLocally(me, w, w', s);
    }
    forall s | MarkedFor(w', s) == Some(me.scope.job) ensures MarkedFor(w, s) == Some(me.scope.job) {
      OwnOrPlainMarked(me, w', s);
      if !Uploads(me, s) {
        assert PlainRelied(me, w, w', s);
      } else {
        assert SameAt(w, w', MarkerOf(s));
      }
    }
  }

  /** A snapshot marked for this job names it, or no job. */
  lemma OwnOrPlainMarked(me: Actor, w: World, sid: string)
    requires Inv(w) && MarkedFor(w, sid) == Some(me.scope.job)
    ensures (Uploads(me, sid) || Catches(me, w, sid)) && !Foreign(me, sid)
  {
  }

  lemma OwnUnchangedKeeps(me: Actor, w: World, w': World, sid: string)
    requires OwnUnchanged(me, w, w') && Uploads(me, sid)
    ensures MarkedFor(w', sid) == MarkedFor(w, sid)
    ensures forall place :: Intact(w', place, sid) <==> Intact(w, place, sid)
  {
    assert SameAt(w, w', MarkerOf(sid));
    forall place ensures Intact(w', place, sid) <==> Intact(w, place, sid) {
      assert SameAt(w, w', ManifestAt(place, sid));
      if sid in w.made {
        assert SameAt(w, w', ArchiveAt(w, place, sid));
      }
    }
  }

  /** The data dir's files of a snapshot this job uploads stay but for the keys in `locs`. */
  lemma LocalKeyStays(me: Actor, w: World, w': World, sid: string, kind: Kind, locs: iset<Loc>)
    requires OnlyKeys(me, w, w', locs) && At(Local, Key(sid, kind)) !in locs
    requires Uploads(me, sid) || (Catches(me, w, sid) && MarkerOf(sid) !in locs)
    ensures SameAt(w, w', At(Local, Key(sid, kind)))
  {
    assert PlainStays(me, w, w', locs, sid);
  }

  lemma MarkStays(me: Actor, w: World, w': World, sid: string, locs: iset<Loc>)
    requires OnlyKeys(me, w, w', locs) && MarkerOf(sid) !in locs && (Uploads(me, sid) || Catches(me, w, sid))
    ensures MarkedFor(w', sid) == MarkedFor(w, sid) && (Catches(me, w, sid) ==> Catches(me, w', sid))
  {
    LocalKeyStays(me, w, w', sid, Marker, locs);
  }

  lemma StaysUnmarked(me: Actor, w: World, w': World, sid: string, locs: iset<Loc>)
    requires OnlyKeys(me, w, w', locs) && MarkerOf(sid) !in locs && (Uploads(me, sid) || IsPlain(sid))
    requires MarkedFor(w, sid) == None
    ensures MarkedFor(w', sid) == None
  {
    assert SameAt(w, w', MarkerOf(sid)) || PlainStays(me, w, w', locs, sid);
  }

  lemma PutOnlyKey(me: Actor, w: World, loc: Loc, torn: bool)
    requires loc.key.kind != Marker
    ensures OnlyKeys(me, w, Apply(me, w, Step.Put(loc.place, loc.key, torn)), iset{loc})
  {
    forall s ensures PlainStays(me, w, Apply(me, w, Step.Put(loc.place, loc.key, torn)), iset{loc}, s) {
    }
  }

  lemma MarkOnlyKey(me: Actor, w: World, sid: string, torn: bool)
    ensures OnlyKeys(me, w, Apply(me, w, Step.Mark(sid, torn)), iset{MarkerOf(sid)})
  {
    forall s ensures PlainStays(me, w, Apply(me, w, Step.Mark(sid, torn)), iset{MarkerOf(sid)}, s) {
    }
  }

  lemma RemovedOnlyKey(me: Actor, w: World, loc: Loc)
    ensures OnlyKeys(me, w, w.(store := w.store - {loc}), iset{loc})
  {
    forall s ensures PlainStays(me, w, w.(store := w.store - {loc}), iset{loc}, s) {
    }
  }

  /** Beside other jobs, no step of this one makes a plain snapshot wait for another. */
  lemma StepFewerRivals(me: Actor, w: World, step: Step)
    requires Allowed(me, w, step)
    ensures FewerRivals(me, w, Apply(me, w, step))
  {
  }

  // ---- Copies ----

  ghost function AllOf(sid: string): iset<Loc> {
    iset loc: Loc | loc.key.sid == sid
  }

  /** The archive and manifest keys of a snapshot at some places. */
  ghost function Files(sid: string, places: seq<Place>): iset<Loc> {
    iset loc: Loc | loc.key.sid == sid && loc.key.kind != Marker && loc.place in places
  }

  ghost function FilesAnywhere(sid: string): iset<Loc> {
    iset loc: Loc | loc.key.sid == sid && loc.key.kind != Marker
  }

  ghost function NotFilesOf(sid: string): iset<Loc> {
    iset loc: Loc | loc !in FilesAnywhere(sid)
  }

  /** The snapshot is intact at the place or, if beside other jobs it is a plain one, was pruned somewhere. */
  ghost predicate Reached(me: Actor, w: World, place: Place, sid: string) {
    Intact(w, place, sid) || (!Uploads(me, sid) && WasPruned(w, sid))
  }

  ghost predicate AtAll(me: Actor, w: World, places: seq<Place>, sid: string) {
    forall place :: place in places ==> Reached(me, w, place, sid)
  }

  /** An off-site copy stays, unless retention chose the snapshot. */
  lemma OffsiteCopyStays(w: World, w': World, place: Place, sid: string)
    requires Onward(w, w') && Inv(w') && place != Local && Intact(w, place, sid)
    ensures Intact(w', place, sid) || WasPruned(w', sid)
  {
    var archive, manifest := ArchiveAt(w, place, sid), ManifestAt(place, sid);
    if archive in w'.store && manifest in w'.store {
      assert ContentFits(w', archive, w'.store[archive]) && ContentFits(w', manifest, w'.store[manifest]);
    }
  }

  ghost predicate SafeToRemove(w: World, sid: string) {
    Offsite(w, sid) || WasPruned(w, sid)
  }

  /** A copy off-site, or retention's choice, stays whatever happens. */
  lemma SafeStays(w: World, w': World, sid: string)
    requires Onward(w, w') && Inv(w') && SafeToRemove(w, sid)
    ensures SafeToRemove(w', sid)
  {
    if WasPruned(w, sid) {
      PrunedGrows(w, w', sid);
    } else {
      var place :| place != Local && Intact(w, place, sid);
      OffsiteCopyStays(w, w', place, sid);
    }
  }

  lemma ReachedStays(me: Actor, w: World, w': World, place: Place, sid: string, locs: iset<Loc>)
    requires Progress(me, w, w', locs) && Inv(w') && Reached(me, w, place, sid)
    requires if Uploads(me, sid) then locs !! Files(sid, [place]) else place != Local
    ensures Reached(me, w', place, sid)
  {
    if Uploads(me, sid) {
      IntactOutside(me, w, w', place, sid, locs);
    } else if WasPruned(w, sid) {
      PrunedGrows(w, w', sid);
    } else {
      OffsiteCopyStays(w, w', place, sid);
    }
  }

  /** Others cannot take an id this run may take: theirs name them. */
  lemma StillFree(me: Actor, w: World, w': World, sid: string)
    requires Inv(w') && Rely(me, w, w') && Uploads(me, sid) && !Foreign(me, sid) && IsFree(w, sid)
    ensures IsFree(w', sid)
  {
    forall a | a in w'.made ensures Apart(sid, a) {
      if a in w.made {
        assert Apart(sid, a);
      } else {
        NamedIdIsPlain(sid);
        NamedIdIsPlain(a);
        NoDotsApart(sid, a);
      }
    }
  }

  /** Nothing is stored under the id yet. */
  ghost predicate NoFiles(w: World, sid: string) {
    forall loc: Loc :: loc.key.sid == sid ==> loc !in w.store
  }

  lemma NotMadeNoFiles(w: World, sid: string)
    requires Inv(w) && sid !in w.made
    ensures NoFiles(w, sid)
  {
    assert forall loc :: loc in w.store ==> ContentFits(w, loc, w.store[loc]);
  }

  /** What the catch-up looks for: an archive and a sidecar in the data dir. */
  ghost predicate InDataDir(w: World, sid: string) {
    (exists ext :: At(Local, Key(sid, Archive(ext))) in w.store) && ManifestAt(Local, sid) in w.store
  }

  lemma InDataDirStays(me: Actor, w: World, w': World, sid: string, locs: iset<Loc>)
    requires Progress(me, w, w', locs) && (Uploads(me, sid) || Catches(me, w, sid)) && locs !! AllOf(sid)
    ensures InDataDir(w', sid) <==> InDataDir(w, sid)
  {
    assert forall kind :: At(Local, Key(sid, kind)) in AllOf(sid);
    assert MarkerOf(sid) in AllOf(sid);
    LocalKeyStays(me, w, w', sid, Manifest, locs);
    forall ext ensures SameAt(w, w', At(Local, Key(sid, Archive(ext)))) {
      LocalKeyStays(me, w, w', sid, Archive(ext), locs);
    }
  }

  /** What is gone from the data dir stays gone. */
  lemma StaysGone(me: Actor, w: World, w': World, sid: string, locs: iset<Loc>)
    requires Progress(me, w, w', locs) && (Uploads(me, sid) || IsPlain(sid)) && locs !! AllOf(sid)
    ensures InDataDir(w', sid) ==> InDataDir(w, sid)
  {
    assert forall kind :: At(Local, Key(sid, kind)) in AllOf(sid);
    if Uploads(me, sid) {
      InDataDirStays(me, w, w', sid, locs);
    } else {
      assert PlainStays(me, w, w', locs, sid);
      assert ManifestAt(Local, sid) == At(Local, Key(sid, Manifest));
    }
  }

  ghost predicate IntactStays(w: World, w': World, sid: string) {
    forall place :: Intact(w, place, sid) ==> Intact(w', place, sid)
  }

  lemma IntactOutside(me: Actor, w: World, w': World, place: Place, sid: string, locs: iset<Loc>)
    requires Progress(me, w, w', locs) && Uploads(me, sid) && Intact(w, place, sid)
    requires locs !! Files(sid, [place])
    ensures Intact(w', place, sid)
  {
    assert SameAt(w, w', ArchiveAt(w, place, sid)) && SameAt(w, w', ManifestAt(place, sid));
  }

  lemma StillAtAll(me: Actor, w: World, w': World, places: seq<Place>, sid: string, locs: iset<Loc>)
    requires Progress(me, w, w', locs) && Inv(w') && AtAll(me, w, places, sid)
    requires if Uploads(me, sid) then locs !! Files(sid, places) else Local !in places
    ensures AtAll(me, w', places, sid)
  {
    forall place | place in places ensures Reached(me, w', place, sid) {
      ReachedStays(me, w, w', place, sid, locs);
    }
  }

  lemma OneIsOffsite(me: Actor, w: World, offsite: seq<Place>, sid: string)
    requires AtAll(me, w, offsite, sid) && offsite != [] && Local !in offsite
    ensures SafeToRemove(w, sid)
  {
    assert offsite[0] in offsite && Reached(me, w, offsite[0], sid);
  }

  lemma PendingIsMine(me: Actor, w: World, sid: string)
    requires Inv(w) && MarkedFor(w, sid) == Some(me.scope.job)
    ensures sid in w.made && !Foreign(me, sid)
  {
    assert ContentFits(w, MarkerOf(sid), w.store[MarkerOf(sid)]);
  }

  /** A pending snapshot that has left the data dir is off-site, or was pruned. */
  lemma GoneIsSafe(w: World, sid: string)
    requires Inv(w) && MarkedFor(w, sid).Some? && !Intact(w, Local, sid)
    ensures Offsite(w, sid) || WasPruned(w, sid)
  {
    assert Somewhere(w, sid) || WasPruned(w, sid);
  }

  /** The key holds what its run built. */
  predicate Holds(w: World, loc: Loc) {
    loc.key.sid in w.made && loc in w.store && w.store[loc] == TrueContent(w, loc.key)
  }

  lemma OffsiteKeysHold(w: World, loc: Loc)
    requires Inv(w) && loc.place != Local && loc in w.store
    ensures Holds(w, loc)
  {
    assert ContentFits(w, loc, w.store[loc]);
  }

  /** The first archive of a snapshot among the files of a place. */
  function FirstArchive(w: World, place: Place, sid: string): Option<Extension> {
    if At(place, Key(sid, Archive(Plain))) in w.store then Some(Plain)
    else if At(place, Key(sid, Archive(Age))) in w.store then Some(Age)
    else if At(place, Key(sid, Archive(Gpg))) in w.store then Some(Gpg)
    else None
  }

  /** `sorted(data_dir.glob(f"{sid}.tar.gz*"))[0]`: of what the glob finds, nothing sorts before it. */
  lemma FirstArchiveSortsFirst(w: World, place: Place, sid: string, key: Key)
    requires Inv(w) && sid in w.made && At(place, key) in w.store && StartsWith(Text(key), sid + ".tar.gz")
    ensures FirstArchive(w, place, sid).Some?
    ensures var first := Key(sid, Archive(FirstArchive(w, place, sid).value));
      key == first || Order.Less(Text(first), Text(key))
  {
    assert ContentFits(w, At(place, key), w.store[At(place, key)]);
    assert sid != key.sid ==> Apart(sid, key.sid);
    ArchiveGlob(sid, key);
    GoingOnContinues(key.sid, sid);
    NotItsOwn(sid);
    assert key.kind == Archive(w.made[sid].ext);
    FirstArchiveIsItsOwn(w, place, sid);
  }

  /** It is the one the run built. */
  lemma FirstArchiveIsItsOwn(w: World, place: Place, sid: string)
    requires Inv(w)
    ensures FirstArchive(w, place, sid).Some? ==>
      At(place, Key(sid, Archive(FirstArchive(w, place, sid).value))) in w.store
    ensures FirstArchive(w, place, sid).Some? ==> sid in w.made && FirstArchive(w, place, sid).value == w.made[sid].ext
    ensures FirstArchive(w, place, sid).None? ==> forall e :: At(place, Key(sid, Archive(e))) !in w.store
  {
    var ext := FirstArchive(w, place, sid);
    if ext.Some? {
      assert ContentFits(w, At(place, Key(sid, Archive(ext.value))), w.store[At(place, Key(sid, Archive(ext.value)))]);
    } else {
      forall e ensures At(place, Key(sid, Archive(e))) !in w.store {
        assert e == Plain || e == Age || e == Gpg;
      }
    }
  }

  /** A place that holds an archive and the manifest of a snapshot holds it whole. */
  lemma FoundIsIntact(w: World, place: Place, sid: string)
    requires Inv(w) && place != Local && ManifestAt(place, sid) in w.store && FirstArchive(w, place, sid).Some?
    ensures Intact(w, place, sid) && FirstArchive(w, place, sid) == Some(w.made[sid].ext)
  {
    FirstArchiveIsItsOwn(w, place, sid);
    OffsiteKeysHold(w, ManifestAt(place, sid));
    OffsiteKeysHold(w, ArchiveAt(w, place, sid));
  }

  /** And one that holds it whole holds both. */
  lemma IntactIsFound(w: World, place: Place, sid: string)
    requires Inv(w) && Intact(w, place, sid)
    ensures ManifestAt(place, sid) in w.store && FirstArchive(w, place, sid).Some?
  {
    FirstArchiveIsItsOwn(w, place, sid);
    assert ArchiveAt(w, place, sid) in w.store;
  }

  lemma TornIsNotIntact(w: World, key: Key)
    requires key.sid in w.made && (key.kind == Manifest || key.kind == Archive(w.made[key.sid].ext))
    requires At(Local, key) in w.store && w.store[At(Local, key)] == Torn
    ensures !Intact(w, Local, key.sid)
  {
  }

  // ---- Destinations ----

  predicate LocalSpecOnce(specs: seq<Spec>) {
    forall i, j :: 0 <= i < j < |specs| ==> !(specs[i] == LocalSpec && specs[j] == LocalSpec)
  }

  lemma FirstLocalSpec(specs: seq<Spec>, i: nat)
    requires LocalSpecOnce(specs) && i < |specs| && specs[i] == LocalSpec
    ensures LocalSpec !in specs[..i]
  {
    forall k | 0 <= k < i ensures specs[..i][k] != LocalSpec {
    }
  }

  predicate LocalOnce(places: seq<Place>) {
    forall i, j :: 0 <= i < j < |places| ==> !(places[i] == Local && places[j] == Local)
  }

  lemma FirstLocal(places: seq<Place>, i: nat)
    requires LocalOnce(places) && i < |places|
    ensures places[i] == Local ==> Local !in places[..i]
  {
    forall k | 0 <= k < i ensures places[i] == Local ==> places[..i][k] != Local {
    }
  }

  /** The S3 places among those that stored the snapshot. */
  function Offsites(stored: seq<Place>): seq<Place> {
    if stored == [] then [] else (if stored[0] == Local then [] else [stored[0]]) + Offsites(stored[1..])
  }

  lemma {:induction false} OffsitesMeans(stored: seq<Place>)
    ensures forall place :: place in Offsites(stored) <==> place in stored && place != Local
  {
    if stored != [] {
      OffsitesMeans(stored[1..]);
      assert stored == [stored[0]] + stored[1..];
    }
  }

  lemma AllLocal(stored: seq<Place>)
    requires Offsites(stored) == []
    ensures forall place :: place in stored ==> place == Local
  {
    OffsitesMeans(stored);
    forall place | place in stored ensures place == Local {
      assert place !in Offsites(stored);
    }
  }

  /** Every bucket among the specs is a place uploaded to, or was reported as unavailable. */
  ghost predicate BucketsTold(specs: seq<Spec>, places: seq<Place>, failures: seq<Problem>) {
    forall spec :: spec in specs && HasBucket(spec) ==> S3PlaceOf(spec) in places || Unavailable(spec) in failures
  }

  /** Every place uploaded to stored both files, or was reported. */
  ghost predicate UploadsTold(places: seq<Place>, stored: seq<Place>, failures: seq<Problem>) {
    forall place :: place in places ==> place in stored || UploadFailed(place) in failures
  }

  /** Every place uploaded to is either stored at or reported. */
  ghost predicate Accounted(places: seq<Place>, stored: seq<Place>, failures: seq<Problem>) {
    UploadsTold(places, stored, failures) && |stored| + |failures| == |places| && (failures == [] ==> stored == places)
  }

  lemma OneMoreAccounted(places: seq<Place>, stored: seq<Place>, failures: seq<Problem>, place: Place)
    requires Accounted(places, stored, failures)
    ensures Accounted(places + [place], stored + [place], failures)
    ensures Accounted(places + [place], stored, failures + [UploadFailed(place)])
  {
    assert failures == [] ==> places + [place] == stored + [place];
  }

  /**
   No destination of the job goes missing: each was built and stored the snapshot, or was reported. Only the
   data dir steps in, and that it did is reported, or that even it holds nothing.
   */
  ghost predicate Told(job: Job, destinations: seq<Place>, stored: seq<Place>, problems: seq<Problem>) {
    && BucketsTold(job.specs, destinations, problems)
    && (Local in destinations <==> HasLocal(job.specs) || !OffsiteConfigured(job))
    && UploadsTold(destinations, stored, problems) && (stored == [] ==> UploadFailed(Local) in problems)
    && (Local in stored && Local !in destinations ==> KeptInDataDir in problems)
    && (forall place :: place in stored ==> place in destinations || place == Local)
  }

  /** Nothing but retention went wrong. */
  predicate OnlyRetention(problems: seq<Problem>) {
    forall problem :: problem in problems ==> problem.RetentionFailed?
  }

  /** Nothing but retention went wrong, or a local copy was kept for want of another. */
  predicate OnlyTidying(problems: seq<Problem>) {
    forall problem :: problem in problems ==> problem.RetentionFailed? || problem.KeptLocalCopy?
  }

  ghost predicate RetentionWorked(problems: seq<Problem>) {
    forall place :: RetentionFailed(place) !in problems
  }

  lemma TidyingAdded(errors: seq<Problem>, problems: seq<Problem>)
    requires OnlyRetention(errors) && (problems == [] || problems == [KeptLocalCopy])
    ensures OnlyTidying(errors + problems)
    ensures RetentionWorked(errors + problems) ==> errors == []
  {
    if errors != [] {
      assert errors[0] in errors + problems && errors[0] == RetentionFailed(errors[0].place);
    }
  }

  lemma AllTold(job: Job, destinations: seq<Place>, stored: seq<Place>, unavailable: seq<Problem>,
                failures: seq<Problem>)
    requires BucketsTold(job.specs, destinations, unavailable) && UploadsTold(destinations, stored, failures)
    requires Local in destinations <==> HasLocal(job.specs) || !OffsiteConfigured(job)
    requires stored != [] || Local in destinations
    requires forall place :: place in stored ==> place in destinations
    ensures Told(job, destinations, stored, unavailable + failures)
  {
  }

  /** The data dir stepped in for a job without a local destination. */
  lemma FallbackTold(job: Job, destinations: seq<Place>, unavailable: seq<Problem>, failures: seq<Problem>,
                     stored: seq<Place>, more: seq<Problem>)
    requires BucketsTold(job.specs, destinations, unavailable) && UploadsTold(destinations, [], failures)
    requires Local !in destinations && !HasLocal(job.specs) && OffsiteConfigured(job)
    requires (if stored == [] then UploadFailed(Local) in more else stored == [Local] && KeptInDataDir in more)
    ensures Told(job, destinations, stored, unavailable + failures + more)
  {
  }

  // ---- Uploads ----

  /** Both files of the snapshot are in the data dir. */
  predicate HasBoth(w: World, sid: string, ext: Extension) {
    At(Local, Key(sid, Archive(ext))) in w.store && ManifestAt(Local, sid) in w.store
  }

  /** Uploading elsewhere leaves the local files and the marker. */
  lemma LocalFilesStay(me: Actor, w: World, w': World, sid: string, ext: Extension, places: seq<Place>)
    requires Progress(me, w, w', Files(sid, places)) && (Uploads(me, sid) || Catches(me, w, sid))
    requires Local !in places && HasBoth(w, sid, ext)
    ensures HasBoth(w', sid, ext) && MarkedFor(w', sid) == MarkedFor(w, sid)
  {
    LocalKeyStays(me, w, w', sid, Archive(ext), Files(sid, places));
    LocalKeyStays(me, w, w', sid, Manifest, Files(sid, places));
    MarkStays(me, w, w', sid, Files(sid, places));
  }

  /** The archive is there when its manifest comes or, beside other jobs, a race for a plain snapshot is on. */
  ghost predicate ArchiveReady(me: Actor, w: World, place: Place, sid: string) {
    sid in w.made && (ArchiveAt(w, place, sid) in w.store || Race(place, sid) in w.raced)
    && (!Races(me, place, sid) ==> ArchiveAt(w, place, sid) in w.store)
  }

  lemma ArchiveStaysReady(me: Actor, w: World, w': World, place: Place, sid: string)
    requires Rely(me, w, w') && (Uploads(me, sid) || IsPlain(sid)) && place != Local && ArchiveReady(me, w, place, sid)
    requires Races(me, place, sid) ==> Race(place, sid) in w.raced
    ensures ArchiveReady(me, w', place, sid)
  {
    if Uploads(me, sid) {
      assert SameAt(w, w', ArchiveAt(w, place, sid));
    } else {
      assert PlainRelied(me, w, w', sid);
    }
  }

  /** After the archive: the marker and the local manifest are as before, and what was reached still is. */
  lemma FirstFilePut(me: Actor, w: World, w1: World, place: Place, sid: string, ext: Extension)
    requires Inv(w1) && (Uploads(me, sid) || (Catches(me, w, sid) && place != Local)) && sid in w.made
    requires ext == w.made[sid].ext
    requires Progress(me, w, w1, iset{At(place, Key(sid, Archive(ext)))})
    requires Uploads(me, sid) && place != Local && At(place, Key(sid, Archive(ext))) in w.store ==>
      At(place, Key(sid, Archive(ext))) in w1.store
    requires place == Local ==> ManifestAt(Local, sid) !in w.store
    ensures Progress(me, w, w1, Files(sid, [place]))
    ensures MarkedFor(w1, sid) == MarkedFor(w, sid) && sid in w1.made && w1.made[sid] == w.made[sid]
    ensures ManifestAt(Local, sid) in w1.store <==> ManifestAt(Local, sid) in w.store
    ensures Reached(me, w, place, sid) ==> Reached(me, w1, place, sid)
  {
    var locs := iset{At(place, Key(sid, Archive(ext)))};
    ProgressWider(me, w, w1, locs, Files(sid, [place]));
    MarkStays(me, w, w1, sid, locs);
    LocalKeyStays(me, w, w1, sid, Manifest, locs);
    if Reached(me, w, place, sid) {
      if Uploads(me, sid) {
        assert SameAt(w, w1, ManifestAt(place, sid));
        OffsiteKeysHold(w1, At(place, Key(sid, Archive(ext))));
      } else {
        ReachedStays(me, w, w1, place, sid, locs);
      }
    }
  }

  lemma SecondFilePut(me: Actor, w: World, w1: World, w2: World, place: Place, sid: string, ext: Extension)
    requires Inv(w2) && (Uploads(me, sid) || (Catches(me, w, sid) && place != Local)) && sid in w1.made
    requires ext == w1.made[sid].ext
    requires Progress(me, w, w1, Files(sid, [place])) && Progress(me, w1, w2, iset{ManifestAt(place, sid)})
    requires Holds(w1, At(place, Key(sid, Archive(ext))))
    requires Uploads(me, sid) && place != Local && ManifestAt(place, sid) in w1.store ==>
      ManifestAt(place, sid) in w2.store
    requires place == Local ==> ManifestAt(Local, sid) !in w1.store
    ensures Progress(me, w, w2, Files(sid, [place]))
    ensures Holds(w2, ManifestAt(place, sid)) ==> Reached(me, w2, place, sid)
    ensures Reached(me, w1, place, sid) ==> Reached(me, w2, place, sid)
  {
    ProgressOver(me, w, w1, w2, Files(sid, [place]), iset{ManifestAt(place, sid)}, Files(sid, [place]));
    var archive := At(place, Key(sid, Archive(ext)));
    if Uploads(me, sid) {
      assert SameAt(w1, w2, archive);
      if Intact(w1, place, sid) {
        OffsiteKeysHold(w2, ManifestAt(place, sid));
      }
    } else {
      if Reached(me, w1, place, sid) {
        ReachedStays(me, w1, w2, place, sid, iset{ManifestAt(place, sid)});
      }
      if archive in w2.store {
        OffsiteKeysHold(w2, archive);
      }
    }
  }

  /** What was reached still is. */
  ghost predicate ReachedMore(me: Actor, w: World, w': World, sid: string) {
    forall place :: Reached(me, w, place, sid) ==> Reached(me, w', place, sid)
  }

  /** Where an upload that began in `u` stands in `w`: `places` had their turn, `stored` hold both files. */
  ghost predicate Uploaded(me: Actor, u: World, w: World, places: seq<Place>, stored: seq<Place>, sid: string) {
    && (Uploads(me, sid) || (Catches(me, u, sid) && Local !in places)) && sid in u.made && sid in w.made
      && w.made[sid] == u.made[sid]
    && Progress(me, u, w, Files(sid, places))
    && ReachedMore(me, u, w, sid) && MarkedFor(w, sid) == MarkedFor(u, sid)
    && (Local !in places ==> SameAt(u, w, ManifestAt(Local, sid)))
    && (forall place :: place in stored ==> place in places && Reached(me, w, place, sid))
  }

  lemma UploadBegins(me: Actor, u: World, places: seq<Place>, sid: string)
    requires (Uploads(me, sid) || Catches(me, u, sid)) && sid in u.made
    ensures Uploaded(me, u, u, places[..0], [], sid) && Accounted(places[..0], [], [])
  {
    NoProgress(me, u, Files(sid, places[..0]));
  }

  lemma UploadGoesOn(me: Actor, u: World, w: World, w': World, places: seq<Place>, stored: seq<Place>, sid: string,
                     place: Place)
    requires Uploaded(me, u, w, places, stored, sid) && Progress(me, w, w', Files(sid, [place])) && Inv(w')
    requires Uploads(me, sid) || place != Local
    requires Reached(me, w, place, sid) ==> Reached(me, w', place, sid)
    ensures Uploaded(me, u, w', places + [place], stored, sid)
    ensures Reached(me, w', place, sid) ==> Uploaded(me, u, w', places + [place], stored + [place], sid)
  {
    ProgressOver(me, u, w, w', Files(sid, places), Files(sid, [place]), Files(sid, places + [place]));
    MarkStays(me, w, w', sid, Files(sid, [place]));
    OthersReached(me, w, w', sid, place);
    if Local !in places + [place] {
      LocalKeyStays(me, w, w', sid, Manifest, Files(sid, [place]));
    }
  }

  /** A turn at one place leaves what was reached elsewhere. */
  lemma OthersReached(me: Actor, w: World, w': World, sid: string, place: Place)
    requires Progress(me, w, w', Files(sid, [place])) && Inv(w')
    requires (Uploads(me, sid) || (Catches(me, w, sid) && place != Local))
    requires Reached(me, w, place, sid) ==> Reached(me, w', place, sid)
    ensures ReachedMore(me, w, w', sid)
  {
    forall p | Reached(me, w, p, sid) ensures Reached(me, w', p, sid) {
      if p != place && (Uploads(me, sid) || p != Local) {
        ReachedStays(me, w, w', p, sid, Files(sid, [place]));
      } else if p != place {
        LocalCopyStays(me, w, w', sid, Files(sid, [place]));
      }
    }
  }

  lemma LocalCopyStays(me: Actor, w: World, w': World, sid: string, locs: iset<Loc>)
    requires Progress(me, w, w', locs) && Catches(me, w, sid) && Reached(me, w, Local, sid)
    requires MarkerOf(sid) !in locs && forall kind :: At(Local, Key(sid, kind)) !in locs
    ensures Reached(me, w', Local, sid)
  {
    if WasPruned(w, sid) {
      PrunedGrows(w, w', sid);
    } else {
      LocalKeyStays(me, w, w', sid, Manifest, locs);
      LocalKeyStays(me, w, w', sid, Archive(w.made[sid].ext), locs);
    }
  }

  // ---- Drops ----

  /** After one local file: copies off-site are as before, so the rest may go too. */
  lemma FileDropped(me: Actor, w: World, w1: World, sid: string, kind: Kind, offsite: seq<Place>)
    requires (Uploads(me, sid) || IsPlain(sid)) && kind != Marker && Local !in offsite && SafeToRemove(w, sid)
    requires Inv(w1)
    requires Progress(me, w, w1, iset{At(Local, Key(sid, kind))})
    ensures Progress(me, w, w1, Files(sid, [Local])) && SafeToRemove(w1, sid)
    ensures AtAll(me, w, offsite, sid) ==> AtAll(me, w1, offsite, sid)
    ensures MarkedFor(w, sid) == None ==> MarkedFor(w1, sid) == None
  {
    ProgressWider(me, w, w1, iset{At(Local, Key(sid, kind))}, Files(sid, [Local]));
    SafeStays(w, w1, sid);
    if AtAll(me, w, offsite, sid) {
      StillAtAll(me, w, w1, offsite, sid, Files(sid, [Local]));
    }
    if MarkedFor(w, sid) == None {
      StaysUnmarked(me, w, w1, sid, Files(sid, [Local]));
    }
  }

  /** After both: all is as before but the local files, which are gone. */
  lemma BothDropped(me: Actor, u: World, v: World, w: World, sid: string, ext: Extension, offsite: seq<Place>)
    requires (Uploads(me, sid) || IsPlain(sid)) && Local !in offsite && SafeToRemove(v, sid) && Inv(w)
    requires Progress(me, u, v, Files(sid, [Local])) && NothingNew(me, u, v)
    requires Progress(me, v, w, iset{ManifestAt(Local, sid)}) && NothingNew(me, v, w)
    requires At(Local, Key(sid, Archive(ext))) !in v.store
    ensures Progress(me, u, w, Files(sid, [Local])) && NothingNew(me, u, w)
    ensures At(Local, Key(sid, Archive(ext))) !in w.store
    ensures AtAll(me, v, offsite, sid) ==> AtAll(me, w, offsite, sid)
  {
    FileDropped(me, v, w, sid, Manifest, offsite);
    LocalStaysGone(me, v, w, sid, Archive(ext), iset{ManifestAt(Local, sid)});
    ProgressOver(me, u, v, w, Files(sid, [Local]), Files(sid, [Local]), Files(sid, [Local]));
    NothingNewOver(me, u, v, w);
  }

  /** A local file that is gone stays gone. */
  lemma LocalStaysGone(me: Actor, w: World, w': World, sid: string, kind: Kind, locs: iset<Loc>)
    requires Progress(me, w, w', locs) && (Uploads(me, sid) || IsPlain(sid))
    requires At(Local, Key(sid, kind)) !in locs && At(Local, Key(sid, kind)) !in w.store
    ensures At(Local, Key(sid, kind)) !in w'.store
  {
    assert SameAt(w, w', At(Local, Key(sid, kind))) || PlainStays(me, w, w', locs, sid);
  }

  /** Uploaded from `u` to `w`, then unmarked. */
  lemma StillReachedUnmarked(me: Actor, u: World, w: World, w': World, offsite: seq<Place>, sid: string)
    requires Progress(me, u, w, AllOf(sid)) && LocalFilesKept(me, u, w)
    requires Progress(me, w, w', iset{MarkerOf(sid)}) && Inv(w') && AtAll(me, w, offsite, sid)
    requires offsite != [] && Local !in offsite
    ensures Progress(me, u, w', AllOf(sid)) && AtAll(me, w', offsite, sid) && SafeToRemove(w', sid)
    ensures LocalFilesKept(me, u, w')
  {
    ProgressOver(me, u, w, w', AllOf(sid), iset{MarkerOf(sid)}, AllOf(sid));
    KeysKeepLocal(me, w, w', iset{MarkerOf(sid)});
    LocalFilesKeptOver(me, u, w, w');
    StillAtAll(me, w, w', offsite, sid, iset{MarkerOf(sid)});
    OneIsOffsite(me, w', offsite, sid);
  }

  /** Unmarked, then dropped from the data dir. */
  lemma UnmarkedThenDropped(me: Actor, u: World, v: World, w: World, sid: string)
    requires (Uploads(me, sid) || IsPlain(sid)) && MarkedFor(v, sid) == None
    requires Progress(me, u, v, AllOf(sid)) && Progress(me, v, w, Files(sid, [Local]))
    ensures Progress(me, u, w, AllOf(sid)) && MarkedFor(w, sid) == None
  {
    ProgressOver(me, u, v, w, AllOf(sid), Files(sid, [Local]), AllOf(sid));
    StaysUnmarked(me, v, w, sid, Files(sid, [Local]));
  }

  // ---- Downloads ----

  /** After the archive: the off-site copy and the missing marker are as before. */
  lemma ArchiveDownloaded(me: Actor, w: World, w1: World, place: Place, sid: string)
    requires Uploads(me, sid) && place != Local && Intact(w, place, sid) && MarkedFor(w, sid) == None
    requires Progress(me, w, w1, iset{ArchiveAt(w, Local, sid)})
    ensures Progress(me, w, w1, Files(sid, [Local]))
    ensures Intact(w1, place, sid) && w1.made[sid] == w.made[sid] && MarkedFor(w1, sid) == None
  {
    ProgressWider(me, w, w1, iset{ArchiveAt(w, Local, sid)}, Files(sid, [Local]));
    IntactOutside(me, w, w1, place, sid, iset{ArchiveAt(w, Local, sid)});
    assert SameAt(w, w1, MarkerOf(sid));
  }

  /** After the manifest too: the copy in the data dir is whole. */
  lemma ManifestDownloaded(me: Actor, w: World, w1: World, w2: World, sid: string, ok: bool)
    requires Uploads(me, sid) && sid in w1.made && Holds(w1, ArchiveAt(w1, Local, sid))
    requires Progress(me, w, w1, Files(sid, [Local])) && Progress(me, w1, w2, iset{ManifestAt(Local, sid)})
    requires ok ==> Holds(w2, ManifestAt(Local, sid))
    ensures Progress(me, w, w2, Files(sid, [Local]))
    ensures ok ==> Intact(w2, Local, sid)
  {
    ProgressOver(me, w, w1, w2, Files(sid, [Local]), iset{ManifestAt(Local, sid)}, Files(sid, [Local]));
    assert SameAt(w1, w2, ArchiveAt(w1, Local, sid));
  }

  /** The S3 places of the first destinations that hold the snapshot could not be listed. */
  ghost predicate Overlooked(w: World, specs: seq<Spec>, n: nat, unavailable: seq<Place>, sid: string) {
    n <= |specs| && forall k :: 0 <= k < n && HasBucket(specs[k]) && Intact(w, S3PlaceOf(specs[k]), sid) ==>
      S3PlaceOf(specs[k]) in unavailable
  }

  lemma OneMoreOverlooked(w: World, specs: seq<Spec>, n: nat, unavailable: seq<Place>, sid: string)
    requires n < |specs| && Overlooked(w, specs, n, unavailable, sid)
    ensures !HasBucket(specs[n]) || !Intact(w, S3PlaceOf(specs[n]), sid) ==>
      Overlooked(w, specs, n + 1, unavailable, sid)
    ensures HasBucket(specs[n]) ==> Overlooked(w, specs, n + 1, unavailable + [S3PlaceOf(specs[n])], sid)
  {
  }

  // ---- The backlog ----

  ghost function Backlog(sids: set<string>): iset<Loc> {
    iset loc: Loc | loc.key.sid in sids
  }

  /** Whether the job keeps local copies at all. */
  predicate KeepsLocal(job: Job) {
    job.keepLocal && HasLocal(job.specs)
  }

  /**
   Caught up on: no longer marked and, if its files were in the data dir, at every off-site place of the run;
   and gone from the data dir, if the job keeps no local copies.
   */
  ghost predicate Settled(me: Actor, job: Job, u: World, w: World, offsite: seq<Place>, sid: string) {
    && MarkedFor(w, sid) == None && (InDataDir(u, sid) ==> AtAll(me, w, offsite, sid))
    && (!KeepsLocal(job) ==> !InDataDir(w, sid))
  }

  /** No archive or manifest of the run's own ids has changed in the data dir. */
  ghost predicate LocalFilesKept(me: Actor, w: World, w': World) {
    forall sid, kind :: Uploads(me, sid) && kind != Marker ==> SameAt(w, w', At(Local, Key(sid, kind)))
  }

  ghost predicate NoLocalFiles(locs: iset<Loc>) {
    forall loc :: loc in locs && loc.place == Local ==> loc.key.kind == Marker
  }

  lemma KeysKeepLocal(me: Actor, w: World, w': World, locs: iset<Loc>)
    requires Progress(me, w, w', locs) && NoLocalFiles(locs)
    ensures LocalFilesKept(me, w, w')
  {
  }

  lemma LocalFilesKeptOver(me: Actor, u: World, v: World, w: World)
    ensures LocalFilesKept(me, u, v) && LocalFilesKept(me, v, w) ==> LocalFilesKept(me, u, w)
  {
    if LocalFilesKept(me, u, v) && LocalFilesKept(me, v, w) {
      forall sid, kind | Uploads(me, sid) && kind != Marker ensures SameAt(u, w, At(Local, Key(sid, kind))) {
        assert SameAt(u, v, At(Local, Key(sid, kind))) && SameAt(v, w, At(Local, Key(sid, kind)));
      }
    }
  }

  /** Intact local copies of the run's own ids stay intact, unless retention chose the snapshot. */
  ghost predicate LocalIntactStay(me: Actor, w: World, w': World) {
    forall sid :: Uploads(me, sid) && Intact(w, Local, sid) ==> Intact(w', Local, sid) || WasPruned(w', sid)
  }

  lemma LocalFilesAreIntact(me: Actor, u: World, v: World, w: World, locs: iset<Loc>)
    requires LocalIntactStay(me, u, v) && LocalFilesKept(me, v, w) && OnlyKeys(me, v, w, locs) && Onward(v, w)
    ensures LocalIntactStay(me, u, w)
  {
    forall sid | Uploads(me, sid) && Intact(u, Local, sid) ensures Intact(w, Local, sid) || WasPruned(w, sid) {
      if Intact(v, Local, sid) {
        assert SameAt(v, w, ManifestAt(Local, sid)) && SameAt(v, w, ArchiveAt(v, Local, sid));
      } else {
        PrunedGrows(v, w, sid);
      }
    }
  }

  /** Where the loop over the backlog `pending` of world `u` stands in `w`, with `rest` still to do. */
  ghost predicate BacklogSoFar(me: Actor, job: Job, u: World, w: World, pending: set<string>, rest: set<string>,
                               offsite: seq<Place>,
                               errors: seq<Problem>) {
    && Progress(me, u, w, Backlog(pending - rest))
    && (forall sid :: sid in pending ==> Uploads(me, sid) || Catches(me, u, sid))
    && (forall sid :: sid in pending <==> MarkedFor(u, sid) == Some(me.scope.job))
    && (forall sid :: sid in rest ==> MarkedFor(w, sid) == Some(me.scope.job))
    && (forall sid :: sid in pending - rest ==> StillPending(sid) in errors || Settled(me, job, u, w, offsite, sid))
  }

  ghost predicate BacklogOr(aborted: bool, me: Actor, job: Job, u: World, w: World, pending: set<string>,
                            rest: set<string>,
                            offsite: seq<Place>, errors: seq<Problem>) {
    if aborted then Progress(me, u, w, Backlog(pending))
    else BacklogSoFar(me, job, u, w, pending, rest, offsite, errors)
  }

  lemma BacklogBegins(me: Actor, job: Job, u: World, pending: set<string>, offsite: seq<Place>)
    requires Inv(u) && forall sid :: sid in pending <==> MarkedFor(u, sid) == Some(me.scope.job)
    ensures BacklogOr(false, me, job, u, u, pending, pending, offsite, [])
  {
    NoProgress(me, u, Backlog({}));
    forall sid | sid in pending ensures Uploads(me, sid) || Catches(me, u, sid) {
      OwnOrPlainMarked(me, u, sid);
    }
  }

  /** A snapshot that had left the data dir is only unmarked. */
  lemma GoneIsSettled(me: Actor, job: Job, w: World, w': World, offsite: seq<Place>, sid: string)
    requires Progress(me, w, w', iset{MarkerOf(sid)}) && (Uploads(me, sid) || IsPlain(sid)) && !InDataDir(w, sid)
    ensures Progress(me, w, w', AllOf(sid))
    ensures MarkedFor(w', sid) == None ==> Settled(me, job, w, w', offsite, sid)
  {
    ProgressWider(me, w, w', iset{MarkerOf(sid)}, AllOf(sid));
    NothingComes(me, w, w', sid);
  }

  lemma NothingComes(me: Actor, w: World, w': World, sid: string)
    requires Progress(me, w, w', iset{MarkerOf(sid)}) && (Uploads(me, sid) || IsPlain(sid)) && !InDataDir(w, sid)
    ensures !InDataDir(w', sid)
  {
    if ManifestAt(Local, sid) !in w.store {
      LocalStaysGone(me, w, w', sid, Manifest, iset{MarkerOf(sid)});
    } else {
      forall ext ensures At(Local, Key(sid, Archive(ext))) !in w'.store {
        LocalStaysGone(me, w, w', sid, Archive(ext), iset{MarkerOf(sid)});
      }
    }
  }

  lemma BacklogGoesOn(me: Actor, job: Job, u: World, w: World, w': World, pending: set<string>, rest: set<string>,
                      offsite: seq<Place>,
                      errors: seq<Problem>, sid: string, failures: seq<Problem>)
    requires BacklogSoFar(me, job, u, w, pending, rest, offsite, errors) && sid in rest && rest <= pending
    requires Progress(me, w, w', AllOf(sid)) && Inv(w') && Local !in offsite
    requires StillPending(sid) in failures || Settled(me, job, w, w', offsite, sid)
    ensures BacklogSoFar(me, job, u, w', pending, rest - {sid}, offsite, errors + failures)
  {
    ProgressOver(me, u, w, w', Backlog(pending - rest), AllOf(sid), Backlog(pending - (rest - {sid})));
    forall s | s in rest - {sid} ensures MarkedFor(w', s) == Some(me.scope.job) {
      MarkStays(me, w, w', s, AllOf(sid));
    }
    forall s | s in pending - (rest - {sid})
      ensures StillPending(s) in errors + failures || Settled(me, job, u, w', offsite, s)
    {
      if s == sid {
        InDataDirStays(me, u, w, sid, Backlog(pending - rest));
      } else if StillPending(s) !in errors {
        StillSettled(me, job, u, w, w', offsite, s, AllOf(sid));
      }
    }
  }

  /** One snapshot's turn in the loop, whether it ends the run or not. */
  lemma TurnEnds(aborted: bool, me: Actor, job: Job, u: World, w: World, w': World, pending: set<string>,
                 rest: set<string>, offsite: seq<Place>, errors: seq<Problem>, sid: string, failures: seq<Problem>)
    requires BacklogSoFar(me, job, u, w, pending, rest, offsite, errors) && sid in rest && rest <= pending
    requires Progress(me, w, w', AllOf(sid)) && Inv(w') && Local !in offsite
    requires aborted || StillPending(sid) in failures || Settled(me, job, w, w', offsite, sid)
    ensures BacklogOr(aborted, me, job, u, w', pending, rest - {sid}, offsite, errors + failures)
  {
    if aborted {
      ProgressOver(me, u, w, w', Backlog(pending - rest), AllOf(sid), Backlog(pending));
    } else {
      BacklogGoesOn(me, job, u, w, w', pending, rest, offsite, errors, sid, failures);
    }
  }

  lemma StillSettled(me: Actor, job: Job, u: World, w: World, w': World, offsite: seq<Place>, sid: string,
                     locs: iset<Loc>)
    requires Settled(me, job, u, w, offsite, sid) && Progress(me, w, w', locs) && Inv(w') && Local !in offsite
    requires (Uploads(me, sid) || IsPlain(sid)) && locs !! AllOf(sid)
    ensures Settled(me, job, u, w', offsite, sid)
  {
    assert MarkerOf(sid) in AllOf(sid);
    StaysUnmarked(me, w, w', sid, locs);
    StaysGone(me, w, w', sid, locs);
    if InDataDir(u, sid) {
      StillAtAll(me, w, w', offsite, sid, locs);
    }
  }

  lemma BacklogEnded(me: Actor, job: Job, u: World, w: World, pending: set<string>, offsite: seq<Place>,
                     errors: seq<Problem>)
    requires BacklogSoFar(me, job, u, w, pending, {}, offsite, errors) && me.scope.job == job.name
    ensures CaughtUpOn(me, job, u, w, offsite, errors) && Progress(me, u, w, Backlog(pending))
  {
    assert pending - {} == pending;
    forall sid | MarkedFor(w, sid) == Some(me.scope.job) ensures StillPending(sid) in errors {
      assert sid !in pending ==> MarkerOf(sid) !in Backlog(pending);
    }
  }

  /**
   The backlog of world `u` is caught up on in `w`: but for the snapshots still reported as pending,
   no snapshot is marked for the job, and those that were whole in the data dir are at every off-site place.
   */
  ghost predicate CaughtUpOn(me: Actor, job: Job, u: World, w: World, offsite: seq<Place>, errors: seq<Problem>) {
    && (forall sid :: MarkedFor(u, sid) == Some(job.name) ==>
          StillPending(sid) in errors || Settled(me, job, u, w, offsite, sid))
    && (forall sid :: MarkedFor(w, sid) == Some(job.name) ==> StillPending(sid) in errors)
  }

  // ---- Retention ----

  /** Under ids that name no other job no key has appeared, but files of rivals off-site, and markers went last. */
  ghost predicate NothingNew(me: Actor, w: World, w': World) {
    && w.raced <= w'.raced
    && (forall sid :: MarkedFor(w', sid) == Some(me.scope.job) ==> MarkedFor(w, sid) == Some(me.scope.job))
    && (forall sid {:trigger NothingNewOf(me, w, w', sid)} :: NothingNewOf(me, w, w', sid))
  }

  ghost predicate NothingNewOf(me: Actor, w: World, w': World, sid: string) {
    !Foreign(me, sid) ==> NoNewMarker(w, w', sid) && NoneAdded(me, w, w', sid) && MarkerStays(me, w, w', sid)
  }

  lemma NothingNewOver(me: Actor, u: World, v: World, w: World)
    requires NothingNew(me, u, v) && NothingNew(me, v, w)
    ensures NothingNew(me, u, w)
  {
    forall sid ensures NothingNewOf(me, u, w, sid) {
      assert NothingNewOf(me, u, v, sid) && NothingNewOf(me, v, w, sid);
      if !Foreign(me, sid) {
        NoneAddedOver(me, u, v, w, sid);
        MarkerStaysOver(me, u, v, w, sid);
      }
    }
  }

  lemma RelyNothingNew(me: Actor, w: World, w': World)
    requires Rely(me, w, w') && Inv(w')
    ensures NothingNew(me, w, w')
  {
    RelyLeavesOwn(me, w, w');
    forall sid ensures NothingNewOf(me, w, w', sid) {
      if Uploads(me, sid) {
        assert SameAt(w, w', MarkerOf(sid));
        forall place, kind | At(place, Key(sid, kind)) in w'.store ensures At(place, Key(sid, kind)) in w.store {
          assert SameAt(w, w', At(place, Key(sid, kind)));
        }
      } else {
        assert PlainRelied(me, w, w', sid);
      }
    }
  }

  lemma SameStoreNothingNew(me: Actor, w: World, w': World)
    requires w'.store == w.store && w.raced <= w'.raced
    ensures NothingNew(me, w, w')
  {
    forall sid ensures NothingNewOf(me, w, w', sid) {
    }
  }

  /** A removed key brings nothing up, nor does a marker that goes after its manifest. */
  lemma RemovedNothingNew(me: Actor, w: World, loc: Loc)
    requires loc.place == Local && loc.key.kind == Marker ==> ManifestAt(Local, loc.key.sid) !in w.store
    ensures NothingNew(me, w, w.(store := w.store - {loc}))
  {
    forall sid ensures NothingNewOf(me, w, w.(store := w.store - {loc}), sid) {
    }
  }

  lemma NothingNewFewerRivals(me: Actor, w: World, w': World)
    requires NothingNew(me, w, w')
    ensures FewerRivals(me, w, w')
  {
    forall place, sid | Rival(me, w', place, sid) ensures Rival(me, w, place, sid) {
      assert NothingNewOf(me, w, w', sid);
      NoneAddedLocally(me, w, w', sid);
    }
  }

  ghost function AllOfAt(place: Place, sids: set<string>): iset<Loc> {
    iset loc: Loc | loc.place == place && loc.key.sid in sids
  }

  ghost predicate NoKeys(w: World, place: Place, sid: string) {
    forall kind :: At(place, Key(sid, kind)) !in w.store
  }

  /** The keys that start with the prefix, sorted by their text. */
  ghost predicate IsListing(w: World, place: Place, prefix: string, keys: seq<Key>) {
    && (forall key :: key in keys <==> At(place, key) in w.store && StartsWith(Text(key), prefix))
    && (forall i, j :: 0 <= i < j < |keys| ==> Order.Less(Text(keys[i]), Text(keys[j])))
  }

  /** All keys of the snapshot at the place: the manifest first, then the marker. */
  ghost predicate IsOwnListing(w: World, place: Place, sid: string, keys: seq<Key>) {
    && (forall k :: 0 <= k < |keys| ==> keys[k].sid == sid && At(place, keys[k]) in w.store)
    && (forall kind :: At(place, Key(sid, kind)) in w.store ==> Key(sid, kind) in keys)
    && (forall i, j :: 0 <= i < j < |keys| ==> MayFollow(keys[i], keys[j]))
  }

  predicate MayFollow(k: Key, l: Key) {
    l.kind != Manifest && (k.kind.Archive? ==> l.kind != Marker)
  }

  /** Listing by the id and a dot gives all files of the snapshot and of no other, in that order. */
  lemma ListingIsOwn(w: World, place: Place, sid: string, keys: seq<Key>)
    requires Inv(w) && sid in w.made && IsListing(w, place, sid + ".", keys)
    ensures IsOwnListing(w, place, sid, keys)
  {
    forall key | At(place, key) in w.store ensures StartsWith(Text(key), sid + ".") <==> key.sid == sid {
      assert ContentFits(w, At(place, key), w.store[At(place, key)]);
      assert sid != key.sid ==> Apart(sid, key.sid);
      PrefixFindsOwn(sid, key);
    }
    forall i, j | 0 <= i < j < |keys| ensures MayFollow(keys[i], keys[j]) {
      assert keys[i] in keys && keys[j] in keys;
      SortedKinds(keys[i], keys[j]);
    }
  }

  /** What sorts after a file of the same snapshot is not its manifest and, after an archive, not its marker. */
  lemma SortedKinds(k: Key, l: Key)
    requires k.sid == l.sid && Order.Less(Text(k), Text(l))
    ensures MayFollow(k, l)
  {
    Order.LessIrreflexive(Text(k));
    ManifestSortsFirst(k.sid, k.kind);
    if k.kind.Archive? {
      KeyOrder(k.sid, k.kind.ext);
    }
    if l.kind == Manifest || (k.kind.Archive? && l.kind == Marker) {
      Order.LessTransitive(Text(k), Text(l), Text(k));
    }
  }

  lemma ManifestSortsFirst(sid: string, kind: Kind)
    ensures kind == Manifest || Order.Less(Text(Key(sid, Manifest)), Text(Key(sid, kind)))
  {
    if kind == Marker {
      KeyOrder(sid, Plain);
    } else if kind.Archive? {
      KeyOrder(sid, kind.ext);
      Order.LessTransitive(Text(Key(sid, Manifest)), Text(Key(sid, Marker)), Text(Key(sid, kind)));
    }
  }

  /**
   Retention may delete files of the snapshot at the place: they are the job's, or its manifest and marker are
   gone.
   */
  predicate MayPrune(me: Actor, w: World, place: Place, sid: string) {
    if place == Local then StillOwn(me.scope, w, sid) else OwnsPlain(me, place, sid)
  }

  lemma MayPruneStays(me: Actor, w: World, w': World, place: Place, sid: string)
    requires NothingNew(me, w, w') && !Foreign(me, sid) && MayPrune(me, w, place, sid)
    ensures MayPrune(me, w', place, sid)
  {
    assert NothingNewOf(me, w, w', sid);
    NoneAddedLocally(me, w, w', sid);
  }

  /** Where the deletion of the `keys` of a snapshot stands: the first `i` are gone. */
  ghost predicate PrunedSoFar(me: Actor, listed: World, w: World, place: Place, sid: string, keys: seq<Key>, i: nat) {
    && !Foreign(me, sid) && i <= |keys| && (forall k :: 0 <= k < |keys| ==> keys[k].sid == sid)
    && Progress(me, listed, w, AllOfAt(place, {sid})) && NothingNew(me, listed, w)
    && Pick(me.scope.job, place, sid) in w.chosen && MayPrune(me, w, place, sid)
    && (forall k :: 0 <= k < i ==> WentOrRivals(me, listed, w, place, keys[k]))
  }

  /** The key is gone, but for what a rival may bring back. */
  predicate WentOrRivals(me: Actor, listed: World, w: World, place: Place, key: Key) {
    At(place, key) !in w.store || RivalMayAdd(me, listed, w, place, key.sid)
  }

  lemma StillWent(me: Actor, listed: World, w: World, w': World, place: Place, key: Key)
    requires NothingNew(me, listed, w) && NothingNew(me, w, w') && !Foreign(me, key.sid)
    requires WentOrRivals(me, listed, w, place, key)
    ensures WentOrRivals(me, listed, w', place, key)
  {
    assert NothingNewOf(me, w, w', key.sid);
    NothingNewFewerRivals(me, listed, w);
    assert At(place, key) in w'.store ==>
      At(place, Key(key.sid, key.kind)) in w.store || RivalMayAdd(me, w, w', place, key.sid);
    assert Rival(me, w, place, key.sid) ==> Rival(me, listed, place, key.sid);
  }

  lemma PruneStops(me: Actor, listed: World, w: World, w': World, place: Place, sid: string, keys: seq<Key>, i: nat)
    requires PrunedSoFar(me, listed, w, place, sid, keys, i) && i < |keys|
    requires Progress(me, w, w', iset{At(place, keys[i])}) && NothingNew(me, w, w')
    ensures Progress(me, listed, w', AllOfAt(place, {sid})) && NothingNew(me, listed, w')
  {
    ProgressOver(me, listed, w, w', AllOfAt(place, {sid}), iset{At(place, keys[i])}, AllOfAt(place, {sid}));
    NothingNewOver(me, listed, w, w');
  }

  lemma PruneGoesOn(me: Actor, listed: World, w: World, w': World, place: Place, sid: string, keys: seq<Key>, i: nat)
    requires PrunedSoFar(me, listed, w, place, sid, keys, i) && i < |keys|
    requires Progress(me, w, w', iset{At(place, keys[i])}) && NothingNew(me, w, w')
    requires At(place, keys[i]) !in w'.store
    ensures PrunedSoFar(me, listed, w', place, sid, keys, i + 1)
  {
    PruneStops(me, listed, w, w', place, sid, keys, i);
    MayPruneStays(me, w, w', place, sid);
    forall k | 0 <= k < i + 1 ensures WentOrRivals(me, listed, w', place, keys[k]) {
      if k < i {
        StillWent(me, listed, w, w', place, keys[k]);
      }
    }
    assert Pick(me.scope.job, place, sid) in w'.chosen;
  }

  /** What sorts before the key is gone, unless a race is on. */
  predicate IsNext(me: Actor, w: World, place: Place, key: Key) {
    InListingOrder(w, place, key) || (place != Local && !me.alone && Race(place, key.sid) in w.raced)
  }

  lemma StillNext(me: Actor, w: World, w': World, place: Place, key: Key)
    requires NothingNew(me, w, w') && !Foreign(me, key.sid) && MayPrune(me, w, place, key.sid)
    requires IsNext(me, w, place, key)
    ensures IsNext(me, w', place, key)
  {
    assert NothingNewOf(me, w, w', key.sid);
    assert ManifestAt(place, key.sid) in w'.store ==>
      At(place, Key(key.sid, Manifest)) in w.store || RivalMayAdd(me, w, w', place, key.sid);
    assert At(place, Key(key.sid, Marker)) in w'.store ==>
      At(place, Key(key.sid, Marker)) in w.store || RivalMayAdd(me, w, w', place, key.sid);
  }

  /** What sorts before the next key is gone. */
  lemma GoesInOrder(me: Actor, listed: World, w: World, place: Place, sid: string, keys: seq<Key>, i: nat)
    requires IsOwnListing(listed, place, sid, keys) && PrunedSoFar(me, listed, w, place, sid, keys, i) && i < |keys|
    ensures IsNext(me, w, place, keys[i])
  {
    if keys[i].kind != Manifest {
      IsGone(me, listed, w, place, sid, keys, i, Manifest);
    }
    if keys[i].kind.Archive? {
      IsGone(me, listed, w, place, sid, keys, i, Marker);
    }
  }

  lemma IsGone(me: Actor, listed: World, w: World, place: Place, sid: string, keys: seq<Key>, i: nat, kind: Kind)
    requires IsOwnListing(listed, place, sid, keys) && PrunedSoFar(me, listed, w, place, sid, keys, i) && i < |keys|
    requires keys[i].kind != kind && (kind == Manifest || (kind == Marker && keys[i].kind.Archive?))
    ensures WentOrRivals(me, listed, w, place, Key(sid, kind))
  {
    if At(place, Key(sid, kind)) in listed.store {
      var j :| 0 <= j < |keys| && keys[j] == Key(sid, kind);
      assert j < i;
    } else {
      assert NothingNewOf(me, listed, w, sid);
    }
  }

  lemma AllGone(me: Actor, listed: World, w: World, place: Place, sid: string, keys: seq<Key>)
    requires IsOwnListing(listed, place, sid, keys) && PrunedSoFar(me, listed, w, place, sid, keys, |keys|)
    ensures GoneAt(me, listed, w, place, sid)
  {
    if place == Local || !Rival(me, listed, place, sid) {
      forall kind ensures At(place, Key(sid, kind)) !in w.store {
        KindIsGone(me, listed, w, place, sid, keys, kind);
      }
    }
  }

  lemma KindIsGone(me: Actor, listed: World, w: World, place: Place, sid: string, keys: seq<Key>, kind: Kind)
    requires IsOwnListing(listed, place, sid, keys) && PrunedSoFar(me, listed, w, place, sid, keys, |keys|)
    ensures WentOrRivals(me, listed, w, place, Key(sid, kind))
  {
    if At(place, Key(sid, kind)) in listed.store {
      var j :| 0 <= j < |keys| && keys[j] == Key(sid, kind);
    } else {
      assert NothingNewOf(me, listed, w, sid);
    }
  }

  /** Retention has chosen these at the place, and none of them names another job. */
  ghost predicate AreChosen(me: Actor, w: World, place: Place, picked: set<string>) {
    forall sid :: sid in picked ==>
      Pick(me.scope.job, place, sid) in w.chosen && !Foreign(me, sid) && sid in w.made && MayPrune(me, w, place, sid)
  }

  /** No key of the snapshot is left at the place, but for what a rival may bring back. */
  ghost predicate GoneAt(me: Actor, u: World, w: World, place: Place, sid: string) {
    NoKeys(w, place, sid) || (place != Local && Rival(me, u, place, sid))
  }

  ghost predicate AllGoneAt(me: Actor, u: World, w: World, place: Place, sids: set<string>) {
    forall sid :: sid in sids ==> GoneAt(me, u, w, place, sid)
  }

  lemma StillGone(me: Actor, u: World, w: World, w': World, place: Place, picked: set<string>, rest: set<string>,
                  sid: string)
    requires AreChosen(me, w, place, picked) && Grows(w, w') && NothingNew(me, u, w) && NothingNew(me, w, w')
    requires rest <= picked && sid in rest
    requires AllGoneAt(me, u, w, place, picked - rest) && GoneAt(me, w, w', place, sid)
    ensures AreChosen(me, w', place, picked) && AllGoneAt(me, u, w', place, picked - (rest - {sid}))
  {
    NothingNewFewerRivals(me, u, w);
    forall s | s in picked ensures MayPrune(me, w', place, s) {
      MayPruneStays(me, w, w', place, s);
    }
    forall s | s in picked - (rest - {sid}) ensures GoneAt(me, u, w', place, s) {
      assert Rival(me, w, place, s) ==> Rival(me, u, place, s);
      if s != sid {
        StillGoneAt(me, u, w, w', place, s);
      }
    }
  }

  lemma StillGoneAt(me: Actor, u: World, w: World, w': World, place: Place, sid: string)
    requires GoneAt(me, u, w, place, sid) && NothingNew(me, w, w') && !Foreign(me, sid)
    requires (Rival(me, w, place, sid) ==> Rival(me, u, place, sid))
    ensures GoneAt(me, u, w', place, sid)
  {
    assert NothingNewOf(me, w, w', sid);
    if place == Local || !Rival(me, u, place, sid) {
      forall kind ensures At(place, Key(sid, kind)) !in w'.store {
        assert At(place, Key(sid, kind)) in w'.store ==>
          At(place, Key(sid, kind)) in w.store || RivalMayAdd(me, w, w', place, sid);
      }
    }
  }

  lemma StillAllGone(me: Actor, u: World, w: World, w': World, place: Place, sids: set<string>)
    requires FewerRivals(me, u, w) && AllGoneAt(me, w, w', place, sids)
    ensures AllGoneAt(me, u, w', place, sids)
  {
    forall sid | sid in sids ensures GoneAt(me, u, w', place, sid) {
      assert GoneAt(me, w, w', place, sid) && (Rival(me, w, place, sid) ==> Rival(me, u, place, sid));
    }
  }

  lemma ChosenArePruned(me: Actor, w: World, w': World, place: Place, picked: set<string>)
    requires AreChosen(me, w, place, picked) && Grows(w, w') && w'.chosen <= w'.pruned
    ensures forall sid :: sid in picked ==> WasPruned(w', sid)
  {
    forall sid | sid in picked ensures WasPruned(w', sid) {
      assert Pick(me.scope.job, place, sid) in w'.pruned;
    }
  }

  /** The cutoff of the age rule would lie before year 1. */
  predicate AgeOverflows(cfg: Config, now: Calendar.DateTime) {
    cfg.ageDays > 0 && Calendar.Ordinal(now.date) - cfg.ageDays < 1
  }

  /** Whatever retention looks at, the job owns: by its scope, or because the marker names it. */
  lemma MarkedIsOwned(me: Actor, w: World, sid: string)
    requires Inv(w) && MarkedFor(w, sid) == Some(me.scope.job)
    ensures Owns(me.scope, sid, Local, MarkedFor(w, sid))
  {
  }

  lemma ListedAreMade(w: World, place: Place, candidates: set<string>)
    requires Inv(w) && forall sid :: sid in candidates ==> ManifestAt(place, sid) in w.store
    ensures forall sid :: sid in candidates ==> sid in w.made
  {
    forall sid | sid in candidates ensures sid in w.made {
      assert ContentFits(w, ManifestAt(place, sid), w.store[ManifestAt(place, sid)]);
    }
  }

  /** While only others are at work, the same snapshots are marked for this job. */
  lemma PendingStays(me: Actor, u: World, w: World)
    requires Inv(u) && Progress(me, u, w, iset{})
    ensures PendingOf(w, me.scope.job) == PendingOf(u, me.scope.job)
  {
    forall sid | MarkedFor(u, sid) == Some(me.scope.job) ensures MarkedFor(w, sid) == Some(me.scope.job) {
      OwnOrPlainMarked(me, u, sid);
      MarkStays(me, u, w, sid, iset{});
    }
  }

  /** What the policy selects of the candidates, listed when others have had their turn, may be chosen. */
  lemma CandidatesAreOwn(me: Actor, u: World, w: World, place: Place, only: Option<set<string>>,
                         snaps: seq<Snapshot>, now: Calendar.DateTime, selected: set<string>)
    requires Inv(u) && Inv(w) && Progress(me, u, w, iset{})
    requires only.Some? ==> place == Local && only.value == PendingOf(u, me.scope.job)
    requires Selects(me.policy, snaps, CandidatesIn(w, me.scope, place, only), now, selected)
    ensures Allowed(me, w, Step.Select(place, selected))
    ensures OnlyKeys(me, w, Apply(me, w, Step.Select(place, selected)), iset{})
    ensures forall sid :: sid in CandidatesIn(w, me.scope, place, only) ==>
      !Foreign(me, sid) && sid in w.made && MayPrune(me, w, place, sid)
  {
    var candidates := CandidatesIn(w, me.scope, place, only);
    ListedAreMade(w, place, candidates);
    forall sid | sid in candidates ensures Owns(me.scope, sid, place, MarkerSeen(w, place, sid)) && !Foreign(me, sid) {
      if only.Some? {
        PendingIsOwn(me, u, w, sid);
      }
    }
    PendingStays(me, u, w);
    assert CandidatesIn(w, me.scope, place, only) == LookedAt(w, me.scope, place, only.Some?);
    SelectChangesNoKey(me, w, Step.Select(place, selected));
  }

  lemma PendingIsOwn(me: Actor, u: World, w: World, sid: string)
    requires Inv(u) && Inv(w) && Progress(me, u, w, iset{}) && MarkedFor(u, sid) == Some(me.scope.job)
    ensures Owns(me.scope, sid, Local, MarkerSeen(w, Local, sid)) && !Foreign(me, sid)
  {
    OwnOrPlainMarked(me, u, sid);
    MarkStays(me, u, w, sid, iset{});
    MarkedIsOwned(me, w, sid);
  }

  lemma SelectChangesNoKey(me: Actor, w: World, step: Step)
    requires step.Select?
    ensures OnlyKeys(me, w, Apply(me, w, step), iset{})
  {
    forall s ensures PlainStays(me, w, Apply(me, w, step), iset{}, s) {
    }
  }

  /** After a successful retention the job's own snapshots at the place are the earlier ones but the chosen. */
  lemma CandidatesLeft(me: Actor, u: World, w: World, w': World, place: Place, picked: set<string>)
    requires me.alone && Progress(me, w, w', AllOfAt(place, picked)) && AllGoneAt(me, u, w', place, picked)
    ensures CandidatesIn(w', me.scope, place, None) == CandidatesIn(w, me.scope, place, None) - picked
  {
    forall sid | sid !in picked
      ensures sid in CandidatesIn(w', me.scope, place, None) <==> sid in CandidatesIn(w, me.scope, place, None)
    {
      assert SameAt(w, w', ManifestAt(place, sid)) && SameAt(w, w', MarkerOf(sid));
      assert ManifestAt(place, sid).key.sid == sid;
    }
    forall sid | sid in picked ensures sid !in CandidatesIn(w', me.scope, place, None) {
      assert GoneAt(me, u, w', place, sid);
      assert ManifestAt(place, sid) == At(place, Key(sid, Manifest)) && ManifestAt(place, sid) !in w'.store;
    }
  }

  /** Of the snapshots retention looked at, so many are left. */
  lemma FewAreLeft(snaps: seq<Snapshot>, sids: set<string>, cfg: Config, now: Calendar.DateTime, picked: set<string>)
    requires AreSnapshots(snaps, sids, now) && SelectPrunable(snaps, cfg, now) == Some(picked) && cfg.count >= 1
    requires cfg.tiers.daily >= 0 && cfg.tiers.weekly >= 0 && cfg.tiers.monthly >= 0
    ensures |sids - picked| <= cfg.count + cfg.tiers.daily + cfg.tiers.weekly + cfg.tiers.monthly
    ensures cfg.ageDays <= 0 ==> |sids - picked| >= if cfg.count < |sids| then cfg.count else |sids|
  {
    RetentionLaws.AtMostStay(snaps, cfg, now);
    if cfg.ageDays <= 0 {
      RetentionLaws.AtLeastStay(snaps, cfg, now);
      RetentionLaws.IdsAreIdSet(snaps);
      Order.DistinctCount(Ids(snaps));
    }
  }

  /** At each of the places, no more of the job's own snapshots than the policy allows, for a count of at least 1. */
  ghost predicate FewAtAll(w: World, scope: Scope, places: seq<Place>, cfg: Config) {
    cfg.count >= 1 && cfg.tiers.daily >= 0 && cfg.tiers.weekly >= 0 && cfg.tiers.monthly >= 0 ==>
      forall place :: place in places ==>
        |CandidatesIn(w, scope, place, None)| <= cfg.count + cfg.tiers.daily + cfg.tiers.weekly + cfg.tiers.monthly
  }

  /**
   Where plain snapshots at the place are this job's, none that is listed in the data dir waits for another job
   beside it.
   */
  ghost predicate Undisputed(me: Actor, w: World, place: Place) {
    forall sid {:trigger Rival(me, w, place, sid)} :: Rival(me, w, place, sid) ==> !OwnsPlain(me, place, sid)
  }

  ghost predicate AllUndisputed(me: Actor, w: World, places: seq<Place>) {
    forall place :: place in places ==> Undisputed(me, w, place)
  }

  lemma StillUndisputed(me: Actor, w: World, w': World, places: seq<Place>)
    requires FewerRivals(me, w, w') && AllUndisputed(me, w, places)
    ensures AllUndisputed(me, w', places)
  {
    forall place, sid | place in places && Rival(me, w', place, sid) ensures !OwnsPlain(me, place, sid) {
      assert Undisputed(me, w, place) && Rival(me, w, place, sid);
    }
  }

  /** At an undisputed place no snapshot becomes the job's own, whatever others do. */
  lemma CandidatesShrink(me: Actor, w: World, w': World, place: Place)
    requires NothingNew(me, w, w') && Undisputed(me, w, place)
    ensures CandidatesIn(w', me.scope, place, None) <= CandidatesIn(w, me.scope, place, None)
  {
    forall sid | sid in CandidatesIn(w', me.scope, place, None) ensures sid in CandidatesIn(w, me.scope, place, None) {
      WasCandidate(me, w, w', place, sid);
    }
  }

  lemma WasCandidate(me: Actor, w: World, w': World, place: Place, sid: string)
    requires NothingNew(me, w, w') && (Rival(me, w, place, sid) ==> !OwnsPlain(me, place, sid))
    requires sid in CandidatesIn(w', me.scope, place, None)
    ensures sid in CandidatesIn(w, me.scope, place, None)
  {
    assert !Foreign(me, sid) && NothingNewOf(me, w, w', sid);
    assert ManifestAt(place, sid) == At(place, Key(sid, Manifest));
    assert ManifestAt(place, sid) in w.store || RivalMayAdd(me, w, w', place, sid);
  }

  /** So the bound holds on, whatever this job removes and whatever other jobs do. */
  lemma StillFew(me: Actor, w: World, w': World, places: seq<Place>, cfg: Config)
    requires NothingNew(me, w, w') && FewAtAll(w, me.scope, places, cfg) && AllUndisputed(me, w, places)
    ensures FewAtAll(w', me.scope, places, cfg)
  {
    forall p | p in places
      ensures |CandidatesIn(w', me.scope, p, None)| <= |CandidatesIn(w, me.scope, p, None)|
    {
      CandidatesShrink(me, w, w', p);
      RetentionLaws.SubsetSize(CandidatesIn(w', me.scope, p, None), CandidatesIn(w, me.scope, p, None));
    }
  }

  /** After one more place: its own snapshots are among those retention looked at there and did not choose. */
  lemma FewAtOneMore(me: Actor, w: World, w': World, places: seq<Place>, i: nat, cfg: Config, now: Calendar.DateTime,
                     snaps: seq<Snapshot>, picked: set<string>)
    requires i < |places| && FewAtAll(w, me.scope, places[..i], cfg) && NothingNew(me, w, w')
    requires AllUndisputed(me, w, places[..i])
    requires AreSnapshots(snaps, IdSet(snaps), now) && SelectPrunable(snaps, cfg, now) == Some(picked)
    requires CandidatesIn(w', me.scope, places[i], None) <= IdSet(snaps) - picked
    ensures FewAtAll(w', me.scope, places[..i + 1], cfg)
  {
    StillFew(me, w, w', places[..i], cfg);
    if cfg.count >= 1 && cfg.tiers.daily >= 0 && cfg.tiers.weekly >= 0 && cfg.tiers.monthly >= 0 {
      FewAreLeft(snaps, IdSet(snaps), cfg, now, picked);
      RetentionLaws.SubsetSize(CandidatesIn(w', me.scope, places[i], None), IdSet(snaps) - picked);
    }
    TakeOneMore(places, i);
  }

  /** Among the snapshots retention looked at, the chosen are gone and none has come up since. */
  lemma OwnAreLeft(me: Actor, w: World, w': World, place: Place, candidates: set<string>, picked: set<string>)
    requires NothingNew(me, w, w') && AllGoneAt(me, w, w', place, picked) && AreChosen(me, w, place, picked)
    requires CandidatesIn(w, me.scope, place, None) == candidates && Undisputed(me, w, place)
    ensures CandidatesIn(w', me.scope, place, None) <= candidates - picked
  {
    CandidatesShrink(me, w, w', place);
    forall sid | sid in picked ensures sid !in CandidatesIn(w', me.scope, place, None) {
      assert GoneAt(me, w, w', place, sid);
      assert ManifestAt(place, sid) == At(place, Key(sid, Manifest)) && ManifestAt(place, sid) !in w'.store;
    }
  }

  /** An intact copy of a snapshot this job uploads is still intact, or retention chose the snapshot. */
  ghost predicate IntactOrPruned(me: Actor, w: World, w': World) {
    forall place, sid :: Uploads(me, sid) && Intact(w, place, sid) ==> Intact(w', place, sid) || WasPruned(w', sid)
  }

  lemma RetentionEffect(me: Actor, w: World, w': World, place: Place, picked: set<string>)
    requires Progress(me, w, w', AllOfAt(place, picked)) && forall s :: s in picked ==> WasPruned(w', s)
    ensures IntactOrPruned(me, w, w')
    ensures forall s :: Uploads(me, s) && s !in picked ==> IntactStays(w, w', s)
  {
    forall p, s | Uploads(me, s) && Intact(w, p, s) && s !in picked ensures Intact(w', p, s) {
      IntactOutside(me, w, w', p, s, AllOfAt(place, picked));
    }
  }

  /** A round of retention: chosen between `u` and `v`, then deleted. */
  lemma RoundEnded(me: Actor, u: World, v: World, w: World, place: Place, picked: set<string>)
    requires Progress(me, u, v, iset{}) && NothingNew(me, u, v) && AreChosen(me, v, place, picked)
    requires Progress(me, v, w, AllOfAt(place, picked)) && NothingNew(me, v, w) && Inv(w)
    ensures Progress(me, u, w, AllOfAt(place, picked)) && NothingNew(me, u, w) && IntactOrPruned(me, u, w)
    ensures forall sid :: sid in picked ==> WasPruned(w, sid)
    ensures forall s :: Uploads(me, s) && s !in picked ==> IntactStays(u, w, s)
    ensures AllGoneAt(me, v, w, place, picked) ==> AllGoneAt(me, u, w, place, picked)
  {
    ChosenArePruned(me, v, w, place, picked);
    ProgressOver(me, u, v, w, iset{}, AllOfAt(place, picked), AllOfAt(place, picked));
    NothingNewOver(me, u, v, w);
    RetentionEffect(me, u, w, place, picked);
    if AllGoneAt(me, v, w, place, picked) {
      StillAllGone(me, u, v, w, place, picked);
    }
  }

  /** What it leaves of the job's own snapshots at the place. */
  lemma RoundLeaves(me: Actor, u: World, v: World, w: World, place: Place, candidates: set<string>, picked: set<string>)
    requires Progress(me, u, v, iset{}) && AreChosen(me, v, place, picked)
    requires candidates == CandidatesIn(v, me.scope, place, None)
    requires NothingNew(me, v, w) && AllGoneAt(me, v, w, place, picked) && Progress(me, u, w, AllOfAt(place, picked))
    ensures Undisputed(me, u, place) ==> CandidatesIn(w, me.scope, place, None) <= candidates - picked
    ensures me.alone ==> CandidatesIn(w, me.scope, place, None) == CandidatesIn(u, me.scope, place, None) - picked
  {
    if Undisputed(me, u, place) {
      StillUndisputed(me, u, v, [place]);
      OwnAreLeft(me, v, w, place, candidates, picked);
    }
    if me.alone {
      CandidatesLeft(me, v, u, w, place, picked);
    }
  }

  // ---- Among the pending snapshots, where the data dir only stood in ----

  /** Of the pending snapshots listed, the chosen are gone and none has come up since. */
  lemma PendingIsLeft(me: Actor, v: World, w: World, picked: set<string>)
    requires Inv(v) && NothingNew(me, v, w) && AllGoneAt(me, v, w, Local, picked)
    ensures LookedAt(w, me.scope, Local, true) <= LookedAt(v, me.scope, Local, true) - picked
  {
    forall sid | sid in LookedAt(w, me.scope, Local, true)
      ensures sid in LookedAt(v, me.scope, Local, true) && sid !in picked
    {
      OwnOrPlainMarked(me, v, sid);
      assert NothingNewOf(me, v, w, sid);
      NoneAddedLocally(me, v, w, sid);
      assert ManifestAt(Local, sid) == At(Local, Key(sid, Manifest)) && ManifestAt(Local, sid) in w.store;
      assert sid in picked ==> GoneAt(me, v, w, Local, sid);
    }
  }

  /** At most as many pending snapshots listed in the data dir as the policy allows, for a count of at least 1. */
  ghost predicate FewPending(w: World, scope: Scope, cfg: Config) {
    cfg.count >= 1 && cfg.tiers.daily >= 0 && cfg.tiers.weekly >= 0 && cfg.tiers.monthly >= 0 ==>
      |set sid | sid in ListedIds(w, Local) && MarkedFor(w, sid) == Some(scope.job)|
        <= cfg.count + cfg.tiers.daily + cfg.tiers.weekly + cfg.tiers.monthly
  }

  lemma PendingListed(w: World, scope: Scope)
    ensures LookedAt(w, scope, Local, true) ==
      set sid | sid in ListedIds(w, Local) && MarkedFor(w, sid) == Some(scope.job)
  {
  }

  lemma FewPendingLeft(w: World, scope: Scope, cfg: Config, now: Calendar.DateTime, snaps: seq<Snapshot>,
                       picked: set<string>)
    requires AreSnapshots(snaps, IdSet(snaps), now) && SelectPrunable(snaps, cfg, now) == Some(picked)
    requires LookedAt(w, scope, Local, true) <= IdSet(snaps) - picked
    ensures FewPending(w, scope, cfg)
  {
    PendingListed(w, scope);
    if cfg.count >= 1 && cfg.tiers.daily >= 0 && cfg.tiers.weekly >= 0 && cfg.tiers.monthly >= 0 {
      FewAreLeft(snaps, IdSet(snaps), cfg, now, picked);
      RetentionLaws.SubsetSize(LookedAt(w, scope, Local, true), IdSet(snaps) - picked);
    }
  }

  lemma StillFewPending(me: Actor, w: World, w': World, cfg: Config)
    requires Inv(w) && NothingNew(me, w, w') && FewPending(w, me.scope, cfg)
    ensures FewPending(w', me.scope, cfg)
  {
    PendingIsLeft(me, w, w', {});
    PendingListed(w, me.scope);
    PendingListed(w', me.scope);
    RetentionLaws.SubsetSize(LookedAt(w', me.scope, Local, true), LookedAt(w, me.scope, Local, true));
  }

  // ---- What exactly a lone run's retention leaves ----

  /** Nothing of this place's keys has changed, nor, for the data dir, of its markers. */
  ghost predicate SamePlace(w: World, w': World, place: Place) {
    forall loc: Loc :: loc.place == place ==> SameAt(w, w', loc)
  }

  lemma SameLookedAt(w: World, w': World, scope: Scope, place: Place, standIn: bool)
    requires SamePlace(w, w', place) && (standIn ==> place == Local)
    ensures LookedAt(w', scope, place, standIn) == LookedAt(w, scope, place, standIn)
  {
    forall sid ensures sid in LookedAt(w', scope, place, standIn) <==> sid in LookedAt(w, scope, place, standIn) {
      assert SameAt(w, w', ManifestAt(place, sid));
      assert place == Local ==> SameAt(w, w', MarkerOf(sid));
    }
  }

  /** What was left exactly still is where nothing has changed since. */
  lemma LeftSince(u: World, w: World, w': World, scope: Scope, place: Place, standIn: bool, cfg: Config,
                  now: Calendar.DateTime)
    requires LeftExactly(u, w, scope, place, standIn, cfg, now) && SamePlace(w, w', place)
    requires (standIn ==> place == Local)
    ensures LeftExactly(u, w', scope, place, standIn, cfg, now)
  {
    SameLookedAt(w, w', scope, place, standIn);
  }

  /** A lone round: of those looked at, just the chosen are gone. */
  lemma LookedAtLeft(me: Actor, u: World, w: World, w': World, place: Place, standIn: bool, picked: set<string>)
    requires me.alone && Progress(me, w, w', AllOfAt(place, picked)) && AllGoneAt(me, u, w', place, picked)
    requires standIn ==> place == Local
    ensures LookedAt(w', me.scope, place, standIn) == LookedAt(w, me.scope, place, standIn) - picked
  {
    forall sid | sid !in picked
      ensures sid in LookedAt(w', me.scope, place, standIn) <==> sid in LookedAt(w, me.scope, place, standIn)
    {
      assert SameAt(w, w', ManifestAt(place, sid)) && SameAt(w, w', MarkerOf(sid));
      assert ManifestAt(place, sid).key.sid == sid;
    }
    forall sid | sid in picked ensures sid !in LookedAt(w', me.scope, place, standIn) {
      assert GoneAt(me, u, w', place, sid);
      assert ManifestAt(place, sid) == At(place, Key(sid, Manifest)) && ManifestAt(place, sid) !in w'.store;
    }
  }

  lemma RoundLeavesExactly(me: Actor, u: World, w: World, place: Place, standIn: bool, cfg: Config,
                           now: Calendar.DateTime, snaps: seq<Snapshot>, picked: set<string>)
    requires me.alone && Progress(me, u, w, AllOfAt(place, picked)) && AllGoneAt(me, u, w, place, picked)
    requires standIn ==> place == Local
    requires AreSnapshots(snaps, LookedAt(u, me.scope, place, standIn), now)
    requires SelectPrunable(snaps, cfg, now) == Some(picked)
    ensures LeftExactly(u, w, me.scope, place, standIn, cfg, now)
  {
    LookedAtLeft(me, u, u, w, place, standIn, picked);
    SelectedAre(u, me.scope, place, standIn, cfg, now, snaps, picked);
  }

  lemma OthersSamePlace(me: Actor, w: World, w': World, place: Place, other: Place, picked: set<string>)
    requires me.alone && Progress(me, w, w', AllOfAt(place, picked)) && other != place
    ensures SamePlace(w, w', other)
  {
  }

  lemma NothingPickedSamePlace(me: Actor, w: World, w': World, place: Place)
    requires me.alone && Progress(me, w, w', AllOfAt(place, {}))
    ensures SamePlace(w, w', place)
  {
  }

  /** The keys of the run's own ids are as before at every other place than these. */
  ghost predicate OnlyAt(me: Actor, w: World, w': World, places: set<Place>) {
    forall loc: Loc :: Uploads(me, loc.key.sid) && loc.place !in places ==> SameAt(w, w', loc)
  }

  lemma OnlyAtOver(me: Actor, u: World, v: World, w: World, xs: set<Place>, place: Place, picked: set<string>)
    requires OnlyAt(me, u, v, xs) && Progress(me, v, w, AllOfAt(place, picked))
    ensures OnlyAt(me, u, w, xs + {place})
  {
    forall loc: Loc | Uploads(me, loc.key.sid) && loc.place !in xs + {place} ensures SameAt(u, w, loc) {
      assert SameAt(u, v, loc) && SameAt(v, w, loc);
    }
  }

  function PlaceSet(places: seq<Place>): set<Place> { set place | place in places }

  /** Each of these places has been pruned of just what the policy selected there in `u`. */
  ghost predicate AllLeftExactly(me: Actor, u: World, w: World, places: seq<Place>, cfg: Config,
                                 now: Calendar.DateTime) {
    forall place :: place in places ==> LeftExactly(u, w, me.scope, place, false, cfg, now)
  }

  /** One more place, or one pruned before. */
  lemma OneMoreLeftExactly(me: Actor, u: World, w: World, w': World, places: seq<Place>, place: Place, cfg: Config,
                           now: Calendar.DateTime, snaps: seq<Snapshot>, picked: set<string>)
    requires me.alone && AllLeftExactly(me, u, w, places, cfg, now) && OnlyAt(me, u, w, PlaceSet(places))
    requires Progress(me, w, w', AllOfAt(place, picked)) && AllGoneAt(me, w, w', place, picked)
    requires AreSnapshots(snaps, LookedAt(w, me.scope, place, false), now)
    requires SelectPrunable(snaps, cfg, now) == Some(picked)
    ensures AllLeftExactly(me, u, w', places + [place], cfg, now)
  {
    forall p | p in places + [place] ensures LeftExactly(u, w', me.scope, p, false, cfg, now) {
      if p != place {
        OthersSamePlace(me, w, w', place, p, picked);
        LeftSince(u, w, w', me.scope, p, false, cfg, now);
      } else if p in places {
        PrunedTwice(me, u, w, w', p, cfg, now, snaps, picked);
      } else {
        assert SamePlace(u, w, place);
        SameLookedAt(u, w, me.scope, place, false);
        RoundLeavesExactly(me, w, w', place, false, cfg, now, snaps, picked);
        SelectedAre(w, me.scope, place, false, cfg, now, snaps, picked);
        SelectedAre(u, me.scope, place, false, cfg, now, snaps, picked);
      }
    }
  }

  lemma PrunedTwice(me: Actor, u: World, w: World, w': World, place: Place, cfg: Config, now: Calendar.DateTime,
                    snaps: seq<Snapshot>, picked: set<string>)
    requires me.alone && LeftExactly(u, w, me.scope, place, false, cfg, now)
    requires Progress(me, w, w', AllOfAt(place, picked))
    requires AreSnapshots(snaps, LookedAt(w, me.scope, place, false), now)
    requires SelectPrunable(snaps, cfg, now) == Some(picked)
    ensures LeftExactly(u, w', me.scope, place, false, cfg, now)
  {
    var before := Selectable.SnapshotsOfIds(LookedAt(u, me.scope, place, false), now);
    NothingMore(u, w, me.scope, place, cfg, now, before, snaps, picked);
    NothingPickedSamePlace(me, w, w', place);
    LeftSince(u, w, w', me.scope, place, false, cfg, now);
  }

  /** Where a run prunes: its destinations, and the data dir if it stood in. */
  function RetainedPlaces(destinations: seq<Place>, fallback: bool): set<Place> {
    PlaceSet(destinations) + if fallback then {Local} else {}
  }

  /** The round among the pending snapshots, after those at the destinations. */
  lemma FallbackRetained(me: Actor, u: World, w: World, w': World, destinations: seq<Place>, cfg: Config,
                         now: Calendar.DateTime, errors: seq<Problem>, snaps: seq<Snapshot>, picked: set<string>)
    requires Local !in destinations && OnlyAt(me, u, w, PlaceSet(destinations))
    requires Progress(me, w, w', AllOfAt(Local, picked))
    requires errors == [] ==>
      && AllGoneAt(me, w, w', Local, picked) && SelectPrunable(snaps, cfg, now) == Some(picked)
      && AreSnapshots(snaps, IdSet(snaps), now) && LookedAt(w', me.scope, Local, true) <= IdSet(snaps) - picked
    requires errors == [] && me.alone ==>
      AllLeftExactly(me, u, w, destinations, cfg, now) && IdSet(snaps) == LookedAt(w, me.scope, Local, true)
    ensures OnlyAt(me, u, w', RetainedPlaces(destinations, true))
    ensures errors == [] ==> FewPending(w', me.scope, cfg)
    ensures errors == [] && me.alone ==>
      AllLeftExactly(me, u, w', destinations, cfg, now) && LeftExactly(u, w', me.scope, Local, true, cfg, now)
  {
    OnlyAtOver(me, u, w, w', PlaceSet(destinations), Local, picked);
    if errors == [] {
      FewPendingLeft(w', me.scope, cfg, now, snaps, picked);
      if me.alone {
        forall p | p in destinations ensures LeftExactly(u, w', me.scope, p, false, cfg, now) {
          OthersSamePlace(me, w, w', Local, p, picked);
          LeftSince(u, w, w', me.scope, p, false, cfg, now);
        }
        assert SamePlace(u, w, Local);
        SameLookedAt(u, w, me.scope, Local, true);
        RoundLeavesExactly(me, w, w', Local, true, cfg, now, snaps, picked);
        SelectedAre(w, me.scope, Local, true, cfg, now, snaps, picked);
        SelectedAre(u, me.scope, Local, true, cfg, now, snaps, picked);
      }
    }
  }

  /** No snapshot that could be this job's has been built. */
  ghost predicate OnlyOlder(me: Actor, w: World, w': World) {
    forall sid :: !Foreign(me, sid) && sid in w'.made ==> sid in w.made
  }

  lemma NowChosen(me: Actor, w: World, place: Place, picked: set<string>)
    requires forall sid :: sid in picked ==> !Foreign(me, sid) && sid in w.made && MayPrune(me, w, place, sid)
    ensures AreChosen(me, Apply(me, w, Step.Select(place, picked)), place, picked)
    ensures NothingNew(me, w, Apply(me, w, Step.Select(place, picked)))
  {
    var w' := Apply(me, w, Step.Select(place, picked));
    SameStoreNothingNew(me, w, w');
    forall sid | sid in picked ensures MayPrune(me, w', place, sid) {
      MayPruneStays(me, w, w', place, sid);
    }
  }

  /** What rounds of retention leave alone. */
  ghost predicate Tidied(me: Actor, w: World, w': World) {
    Onward(w, w') && NothingNew(me, w, w') && IntactOrPruned(me, w, w') && OnlyOlder(me, w, w')
  }

  lemma Retained(me: Actor, u: World, v: World, w: World)
    requires Tidied(me, u, v) && Tidied(me, v, w)
    ensures Tidied(me, u, w)
  {
    OnwardTransitive(u, v, w);
    NothingNewOver(me, u, v, w);
    forall place, sid | Uploads(me, sid) && Intact(u, place, sid) ensures Intact(w, place, sid) || WasPruned(w, sid) {
      if WasPruned(v, sid) {
        PrunedGrows(v, w, sid);
      }
    }
  }

  // ---- The local copy ----

  /** Whether a job that keeps no local copies has one to drop. */
  predicate WouldGo(job: Job, stored: seq<Place>) {
    !job.keepLocal && HasLocal(job.specs) && Local in stored
  }

  /** It goes exactly if an off-site place stored this snapshot. */
  predicate LocalGoes(job: Job, stored: seq<Place>) {
    WouldGo(job, stored) && Offsites(stored) != []
  }

  ghost function Dropped(job: Job, stored: seq<Place>, sid: string): iset<Loc> {
    if LocalGoes(job, stored) then Files(sid, [Local]) else iset{}
  }

  // ---- The whole run ----

  // ---- Where the data dir stood in ----

  /** No destination stored the snapshot and the data dir is none of them: it was to step in. */
  predicate StoodIn(destinations: seq<Place>, stored: seq<Place>) {
    Local !in destinations && (stored == [] || Local in stored)
  }

  function DroppedIds(job: Job, stored: seq<Place>, sid: string): set<string> {
    if LocalGoes(job, stored) then {sid} else {}
  }

  /** From `u` to `w`, of the snapshots looked at just those selected and these are gone. */
  ghost predicate LeftBut(u: World, w: World, scope: Scope, place: Place, standIn: bool, cfg: Config,
                          now: Calendar.DateTime, gone: set<string>) {
    forall sid :: sid in LookedAt(w, scope, place, standIn) <==>
      && sid in LookedAt(u, scope, place, standIn) && sid !in gone
      && !IsSelectedIn(u, scope, place, standIn, cfg, now, sid)
  }

  /**
   What retention and the drop of the local copy leave of the job's own snapshots at its destinations and,
   if the data dir stood in, of its pending ones there.
   */
  ghost predicate LeftAtAll(scope: Scope, u: World, w: World, destinations: seq<Place>, standIn: bool, cfg: Config,
                            now: Calendar.DateTime, dropped: set<string>) {
    && (forall place :: place in destinations ==>
          LeftBut(u, w, scope, place, false, cfg, now, if place == Local then dropped else {}))
    && (standIn ==> LeftBut(u, w, scope, Local, true, cfg, now, {}))
  }

  /** After retention, before the drop. */
  ghost predicate RetentionDone(me: Actor, u: World, w: World, destinations: seq<Place>, standIn: bool, cfg: Config,
                                now: Calendar.DateTime) {
    && (AllUndisputed(me, u, destinations) ==> FewAtAll(w, me.scope, destinations, cfg))
    && (standIn ==> FewPending(w, me.scope, cfg))
    && (me.alone ==>
          && AllLeftExactly(me, u, w, destinations, cfg, now)
          && (standIn ==> LeftExactly(u, w, me.scope, Local, true, cfg, now)))
  }

  lemma DropLeavesLocally(me: Actor, v: World, w: World, sid: string)
    requires me.alone && Progress(me, v, w, Files(sid, [Local])) && ManifestAt(Local, sid) !in w.store
    ensures LookedAt(w, me.scope, Local, false) == LookedAt(v, me.scope, Local, false) - {sid}
  {
    forall s | s != sid ensures s in LookedAt(w, me.scope, Local, false) <==> s in LookedAt(v, me.scope, Local, false) {
      assert SameAt(v, w, ManifestAt(Local, s)) && SameAt(v, w, MarkerOf(s));
    }
  }

  lemma DropLeaves(me: Actor, job: Job, u: World, v: World, w: World, destinations: seq<Place>, stored: seq<Place>,
                   sid: string, now: Calendar.DateTime)
    requires me.alone && Uploads(me, sid)
    requires RetentionDone(me, u, v, destinations, StoodIn(destinations, stored), job.retention, now)
    requires Progress(me, v, w, Dropped(job, stored, sid))
    requires LocalGoes(job, stored) ==> ManifestAt(Local, sid) !in w.store && Local in destinations
    ensures LeftAtAll(me.scope, u, w, destinations, StoodIn(destinations, stored), job.retention, now,
                      DroppedIds(job, stored, sid))
  {
    var gone := DroppedIds(job, stored, sid);
    forall place | place in destinations
      ensures LeftBut(u, w, me.scope, place, false, job.retention, now, if place == Local then gone else {})
    {
      if place == Local && LocalGoes(job, stored) {
        DropLeavesLocally(me, v, w, sid);
      } else {
        assert SamePlace(v, w, place);
        LeftSince(u, v, w, me.scope, place, false, job.retention, now);
      }
    }
    if StoodIn(destinations, stored) {
      assert SamePlace(v, w, Local);
      LeftSince(u, v, w, me.scope, Local, true, job.retention, now);
    }
  }

  /** What the policy allows, and in a lone run just what it leaves, once the local copy is dropped as well. */
  ghost predicate RetentionEnded(me: Actor, u: World, w: World, destinations: seq<Place>, standIn: bool, cfg: Config,
                                 now: Calendar.DateTime, dropped: set<string>) {
    && (AllUndisputed(me, u, destinations) ==> FewAtAll(w, me.scope, destinations, cfg))
    && (standIn ==> FewPending(w, me.scope, cfg))
    && (me.alone ==> LeftAtAll(me.scope, u, w, destinations, standIn, cfg, now, dropped))
  }

  lemma DropEnds(me: Actor, job: Job, u: World, v: World, w: World, destinations: seq<Place>, stored: seq<Place>,
                 sid: string, now: Calendar.DateTime)
    requires Inv(v) && Uploads(me, sid) && NothingNew(me, u, v) && NothingNew(me, v, w)
    requires RetentionDone(me, u, v, destinations, StoodIn(destinations, stored), job.retention, now)
    requires Progress(me, v, w, Dropped(job, stored, sid))
    requires LocalGoes(job, stored) ==> ManifestAt(Local, sid) !in w.store && Local in destinations
    ensures RetentionEnded(me, u, w, destinations, StoodIn(destinations, stored), job.retention, now,
                           DroppedIds(job, stored, sid))
  {
    if AllUndisputed(me, u, destinations) {
      NothingNewFewerRivals(me, u, v);
      StillUndisputed(me, u, v, destinations);
      StillFew(me, v, w, destinations, job.retention);
    }
    if StoodIn(destinations, stored) {
      StillFewPending(me, v, w, job.retention);
    }
    if me.alone {
      DropLeaves(me, job, u, v, w, destinations, stored, sid, now);
    }
  }

  /** The drop touches the data dir only, which is then one of the destinations. */
  lemma DropOnlyAt(me: Actor, job: Job, u: World, v: World, w: World, destinations: seq<Place>, stored: seq<Place>,
                   sid: string)
    requires OnlyAt(me, u, v, RetainedPlaces(destinations, StoodIn(destinations, stored)))
    requires Progress(me, v, w, Dropped(job, stored, sid)) && (LocalGoes(job, stored) ==> Local in destinations)
    ensures OnlyAt(me, u, w, RetainedPlaces(destinations, StoodIn(destinations, stored)))
  {
    var places := RetainedPlaces(destinations, StoodIn(destinations, stored));
    forall loc: Loc | Uploads(me, loc.key.sid) && loc.place !in places ensures SameAt(u, w, loc) {
      assert SameAt(u, v, loc) && SameAt(v, w, loc);
    }
  }

  /** The new snapshot is built and intact where stored; what concerns the job's other snapshots is as before. */
  ghost predicate Delivered(me: Actor, w: World, w': World, sid: string, stored: seq<Place>) {
    && sid in w'.made && MarkedFor(w', sid) == None && AtAll(me, w', stored, sid) && FewerRivals(me, w, w')
    && (forall s :: MarkedFor(w', s) == Some(me.scope.job) ==> MarkedFor(w, s) == Some(me.scope.job))
    && (forall s :: MarkedFor(w, s) == Some(me.scope.job) && s != sid ==>
          MarkedFor(w', s) == Some(me.scope.job) && (InDataDir(w', s) <==> InDataDir(w, s)))
    && (forall s :: !Foreign(me, s) && s in w'.made ==> s in w.made || s == sid) && LocalIntactStay(me, w, w')
  }

  lemma DeliveredLocally(me: Actor, w: World, w1: World, w2: World, w3: World, sid: string, artifact: Artifact)
    requires Progress(me, w, w1, iset{}) && w2 == Apply(me, w1, Step.Make(sid, artifact)) && sid !in w.made
    requires Progress(me, w2, w3, FilesAnywhere(sid)) && Uploads(me, sid)
    ensures LocalIntactStay(me, w, w3)
  {
    forall s | Uploads(me, s) && Intact(w, Local, s) ensures Intact(w3, Local, s) {
      IntactOutside(me, w, w1, Local, s, iset{});
      IntactOutside(me, w2, w3, Local, s, FilesAnywhere(sid));
    }
  }

  lemma DeliveredAfter(me: Actor, w: World, w1: World, w2: World, w3: World, sid: string, artifact: Artifact,
                       stored: seq<Place>)
    requires Inv(w) && Uploads(me, sid) && Progress(me, w, w1, iset{}) && w2 == Apply(me, w1, Step.Make(sid, artifact))
    requires sid !in w.made
    requires Progress(me, w2, w3, FilesAnywhere(sid)) && NoFiles(w2, sid)
    requires MarkedFor(w3, sid) == None && AtAll(me, w3, stored, sid)
    ensures Delivered(me, w, w3, sid, stored)
  {
    assert MarkedFor(w2, sid) == None;
    DeliveredLocally(me, w, w1, w2, w3, sid, artifact);
    forall place, s | Rival(me, w3, place, s) ensures Rival(me, w, place, s) {
      assert Rival(me, w2, place, s) && Rival(me, w1, place, s);
    }
    forall s | MarkedFor(w3, s) == Some(me.scope.job) ensures MarkedFor(w, s) == Some(me.scope.job) {
      assert MarkedFor(w2, s) == Some(me.scope.job);
      assert MarkedFor(w1, s) == Some(me.scope.job);
    }
    forall s | MarkedFor(w, s) == Some(me.scope.job) && s != sid
      ensures MarkedFor(w3, s) == Some(me.scope.job) && (InDataDir(w3, s) <==> InDataDir(w, s))
    {
      OwnOrPlainMarked(me, w, s);
      MarkStays(me, w, w1, s, iset{});
      InDataDirStays(me, w, w1, s, iset{});
      assert MarkedFor(w2, s) == Some(me.scope.job) && (Catches(me, w1, s) ==> Catches(me, w2, s));
      MarkStays(me, w2, w3, s, FilesAnywhere(sid));
      InDataDirStays(me, w2, w3, s, FilesAnywhere(sid));
    }
  }

  /**
   The backlog of `u` is dealt with: but for the snapshots reported as still pending, none is marked
   for the job any more, and those whole in the data dir at the start are at every off-site
   place of the run, unless retention chose them since.
   */
  ghost predicate BacklogDone(job: string, u: World, w: World, offsite: seq<Place>, problems: seq<Problem>) {
    && (forall sid :: MarkedFor(w, sid) == Some(job) ==> StillPending(sid) in problems)
    && (forall sid, place :: MarkedFor(u, sid) == Some(job) && InDataDir(u, sid) && place in offsite ==>
      StillPending(sid) in problems || Intact(w, place, sid) || WasPruned(w, sid))
  }

  lemma BacklogIsDone(me: Actor, job: Job, u: World, v: World, w: World, sid: string, stored: seq<Place>,
                      errors: seq<Problem>,
                      problems: seq<Problem>)
    requires Delivered(me, u, v, sid, stored) && CaughtUpOn(me, job, v, w, Offsites(stored), errors)
    requires job.name == me.scope.job && MarkedFor(u, sid) == None
    requires forall problem :: problem in errors ==> problem in problems
    ensures BacklogDone(me.scope.job, u, w, Offsites(stored), problems)
  {
    forall s, place | MarkedFor(u, s) == Some(me.scope.job) && InDataDir(u, s) && place in Offsites(stored)
      ensures StillPending(s) in problems || Intact(w, place, s) || WasPruned(w, s)
    {
      if StillPending(s) !in errors {
        assert Settled(me, job, v, w, Offsites(stored), s);
        assert Reached(me, w, place, s);
      }
    }
  }

  lemma StoredAndTracked(me: Actor, job: Job, u: World, v: World, w: World, sid: string, destinations: seq<Place>,
                         stored: seq<Place>,
                         problems: seq<Problem>, errors: seq<Problem>, aborted: bool)
    requires Delivered(me, u, v, sid, stored) && Told(job, destinations, stored, problems) && Onward(v, w)
    requires OnlyKeys(me, v, w, NotFilesOf(sid)) && FewerRivals(me, v, w) && Inv(w) && Uploads(me, sid)
    requires AtAll(me, v, stored, sid)
    requires job.name == me.scope.job && MarkedFor(u, sid) == None && (KeepsLocal(job) ==> LocalFilesKept(me, v, w))
    requires !aborted && Offsites(stored) != [] ==> CaughtUpOn(me, job, v, w, Offsites(stored), errors)
    ensures FewerRivals(me, u, w) && (KeepsLocal(job) ==> LocalIntactStay(me, u, w))
    ensures AtAll(me, w, stored, sid) && OnlyAdds(me, u, w, sid) && Told(job, destinations, stored, problems + errors)
    ensures !aborted && Offsites(stored) != [] ==> BacklogDone(me.scope.job, u, w, Offsites(stored), problems + errors)
    ensures problems + errors != [] <==> problems != [] || errors != []
  {
    StillAtAll(me, v, w, stored, sid, NotFilesOf(sid));
    if KeepsLocal(job) {
      LocalFilesAreIntact(me, u, v, w, NotFilesOf(sid));
    }
    if !aborted && Offsites(stored) != [] {
      BacklogIsDone(me, job, u, v, w, sid, stored, errors, problems + errors);
    }
  }

  /**
   What a run in which no operation failed leaves: the snapshot stored at every destination, the data dir
   standing in if there is none, and - given an off-site one - no marker of the job.
   */
  lemma FaultlessRun(job: Job, u: World, w: World, destinations: seq<Place>, stored: seq<Place>, problems: seq<Problem>)
    requires Told(job, destinations, stored, problems) && OnlyTidying(problems)
    requires Offsites(stored) != [] ==> BacklogDone(job.name, u, w, Offsites(stored), problems)
    ensures stored != [] && (HasLocal(job.specs) ==> Local in stored) && forall place :: place in destinations ==>
      place in stored
    ensures forall spec :: spec in job.specs && spec.S3Spec? && spec.bucket != "" ==>
      S3(spec.endpoint, spec.bucket, spec.prefix) in stored
    ensures OffsiteConfigured(job) ==> forall sid :: MarkedFor(w, sid) != Some(job.name)
    ensures OffsiteConfigured(job) ==> forall sid, place ::
      MarkedFor(u, sid) == Some(job.name) && InDataDir(u, sid) && place in Offsites(stored) ==>
        Intact(w, place, sid) || WasPruned(w, sid)
  {
    OffsitesMeans(stored);
  }

  /** Of what could be this job's, nothing has been built or marked but `sid`. */
  ghost predicate OnlyAdds(me: Actor, w: World, w': World, sid: string) {
    forall s :: !Foreign(me, s) && s in w'.made ==> s in w.made || s == sid
  }

  /**
   What retention and the drop of the local copy leave, from `u` to `w`: intact copies stay, but for the
   local one of `sid` if the job keeps none, or retention chose the snapshot - never `sid`, if it is the newest.
   */
  ghost predicate AfterRetention(me: Actor, u: World, w: World, sid: string, keepLocal: bool, newest: bool) {
    && Onward(u, w)
    && (forall s :: MarkedFor(w, s) == Some(me.scope.job) ==> MarkedFor(u, s) == Some(me.scope.job))
    && (forall place, s :: Uploads(me, s) && (s != sid || place != Local || keepLocal) && Intact(u, place, s) ==>
      Intact(w, place, s) || (WasPruned(w, s) && !(newest && s == sid)))
  }

  lemma DropAfterRetention(me: Actor, u: World, v: World, w: World, job: Job, stored: seq<Place>, sid: string,
                           newest: bool)
    requires Onward(u, v) && NothingNew(me, u, v) && IntactOrPruned(me, u, v)
    requires newest ==> IntactStays(u, v, sid)
    requires Progress(me, v, w, Dropped(job, stored, sid))
    ensures AfterRetention(me, u, w, sid, job.keepLocal, newest)
  {
    OnwardTransitive(u, v, w);
    forall place, s | Uploads(me, s) && (s != sid || place != Local || job.keepLocal) && Intact(u, place, s)
      ensures Intact(w, place, s) || (WasPruned(w, s) && !(newest && s == sid))
    {
      if Intact(v, place, s) {
        IntactOutside(me, v, w, place, s, Dropped(job, stored, sid));
      } else {
        PrunedGrows(v, w, s);
      }
    }
  }

  /**
   The snapshot is still where it was stored, but for a local copy the job does not keep; the newest one
   certainly.
   */
  ghost predicate StillStored(w: World, stored: seq<Place>, sid: string, keepLocal: bool, newest: bool) {
    forall place :: place in stored && (place != Local || keepLocal) ==>
      Intact(w, place, sid) || (WasPruned(w, sid) && !newest)
  }

  lemma RunDone(me: Actor, u: World, v: World, w: World, sid: string, stored: seq<Place>, problems: seq<Problem>,
                errors: seq<Problem>, keepLocal: bool, newest: bool)
    ensures Ending(me, u, v, w, sid, stored, keepLocal, newest) ==>
      && Onward(u, w) && StillStored(w, stored, sid, keepLocal, newest)
      && (keepLocal && LocalIntactStay(me, u, v) ==> LocalIntactStay(me, u, w))
      && (Tracked(v, sid) ==> Tracked(w, sid))
      && (BacklogDone(me.scope.job, u, v, Offsites(stored), problems) ==>
            BacklogDone(me.scope.job, u, w, Offsites(stored), problems + errors))
  {
    if Ending(me, u, v, w, sid, stored, keepLocal, newest) {
      OnwardTransitive(u, v, w);
      if BacklogDone(me.scope.job, u, v, Offsites(stored), problems) {
        BacklogStaysDone(me, u, v, w, stored, problems, errors);
      }
      forall place | place in stored && (place != Local || keepLocal)
        ensures Intact(w, place, sid) || (WasPruned(w, sid) && !newest)
      {
        assert Reached(me, v, place, sid);
      }
      LocalCopiesStay(me, u, v, w, sid, keepLocal, newest);
    }
  }

  /** The end of a run, from `v` to `w`, that began in `u`. */
  ghost predicate Ending(me: Actor, u: World, v: World, w: World, sid: string, stored: seq<Place>, keepLocal: bool,
                         newest: bool) {
    && Onward(u, v) && AfterRetention(me, v, w, sid, keepLocal, newest) && Uploads(me, sid) && AtAll(me, v, stored, sid)
    && Inv(w) && MarkedFor(u, sid) == None
  }

  lemma BacklogStaysDone(me: Actor, u: World, v: World, w: World, stored: seq<Place>, problems: seq<Problem>,
                         errors: seq<Problem>)
    requires Onward(v, w) && Inv(w) && BacklogDone(me.scope.job, u, v, Offsites(stored), problems)
    requires forall s :: MarkedFor(w, s) == Some(me.scope.job) ==> MarkedFor(v, s) == Some(me.scope.job)
    ensures BacklogDone(me.scope.job, u, w, Offsites(stored), problems + errors)
  {
    forall s, place | MarkedFor(u, s) == Some(me.scope.job) && InDataDir(u, s) && place in Offsites(stored)
      ensures StillPending(s) in problems + errors || Intact(w, place, s) || WasPruned(w, s)
    {
      OffsitesMeans(stored);
      if WasPruned(v, s) {
        PrunedGrows(v, w, s);
      } else if Intact(v, place, s) {
        OffsiteCopyStays(v, w, place, s);
      }
    }
  }

  /** What retention leaves, seen from the start of the run. */
  lemma LeftOfRun(me: Actor, job: Job, u: World, v: World, w: World, destinations: seq<Place>, stored: seq<Place>,
                  sid: string, problems: seq<Problem>, errors: seq<Problem>, now: Calendar.DateTime)
    ensures FewerRivals(me, u, v) && LeftWell(me, job, v, w, destinations, stored, sid, errors, now) ==>
      LeftWell(me, job, v, w, destinations, stored, sid, problems + errors, now)
      && (RetentionWorked(problems + errors) && AllUndisputed(me, u, destinations) ==>
            FewAtAll(w, me.scope, destinations, job.retention))
  {
    if RetentionWorked(problems + errors) {
      forall place ensures RetentionFailed(place) !in errors {
        assert RetentionFailed(place) !in problems + errors;
      }
      if FewerRivals(me, u, v) && AllUndisputed(me, u, destinations) {
        StillUndisputed(me, u, v, destinations);
      }
    }
  }

  /** With no failure of retention among the problems, it ended well. */
  ghost predicate LeftWell(me: Actor, job: Job, v: World, w: World, destinations: seq<Place>, stored: seq<Place>,
                           sid: string, problems: seq<Problem>, now: Calendar.DateTime) {
    RetentionWorked(problems) ==>
      RetentionEnded(me, v, w, destinations, StoodIn(destinations, stored), job.retention, now,
                     DroppedIds(job, stored, sid))
  }

  /** Retention from `u` to `v`, then the drop of the local copy. */
  ghost predicate Dropping(me: Actor, job: Job, u: World, v: World, w: World, destinations: seq<Place>,
                           stored: seq<Place>, sid: string, newest: bool) {
    && Inv(v) && Uploads(me, sid) && Tidied(me, u, v) && NothingNew(me, v, w)
    && Progress(me, v, w, Dropped(job, stored, sid)) && (newest ==> IntactStays(u, v, sid))
    && OnlyAt(me, u, v, RetainedPlaces(destinations, StoodIn(destinations, stored)))
    && (HasLocal(job.specs) ==> Local in destinations)
  }

  lemma DropDone(me: Actor, job: Job, u: World, v: World, w: World, destinations: seq<Place>, stored: seq<Place>,
                 sid: string, now: Calendar.DateTime, newest: bool)
    ensures Dropping(me, job, u, v, w, destinations, stored, sid, newest) ==>
      && OnlyAt(me, u, w, RetainedPlaces(destinations, StoodIn(destinations, stored)))
      && AfterRetention(me, u, w, sid, job.keepLocal, newest)
    ensures Dropping(me, job, u, v, w, destinations, stored, sid, newest)
            && RetentionDone(me, u, v, destinations, StoodIn(destinations, stored), job.retention, now)
            && (LocalGoes(job, stored) ==> ManifestAt(Local, sid) !in w.store) ==>
      RetentionEnded(me, u, w, destinations, StoodIn(destinations, stored), job.retention, now,
                     DroppedIds(job, stored, sid))
  {
    if Dropping(me, job, u, v, w, destinations, stored, sid, newest) {
      DropOnlyAt(me, job, u, v, w, destinations, stored, sid);
      DropAfterRetention(me, u, v, w, job, stored, sid, newest);
      if RetentionDone(me, u, v, destinations, StoodIn(destinations, stored), job.retention, now)
         && (LocalGoes(job, stored) ==> ManifestAt(Local, sid) !in w.store) {
        DropEnds(me, job, u, v, w, destinations, stored, sid, now);
      }
    }
  }

  lemma LocalCopiesStay(me: Actor, u: World, v: World, w: World, sid: string, keepLocal: bool, newest: bool)
    requires AfterRetention(me, v, w, sid, keepLocal, newest)
    ensures keepLocal && LocalIntactStay(me, u, v) ==> LocalIntactStay(me, u, w)
  {
    if keepLocal && LocalIntactStay(me, u, v) {
      forall s | Uploads(me, s) && Intact(u, Local, s) ensures Intact(w, Local, s) || WasPruned(w, s) {
        if WasPruned(v, s) {
          PrunedGrows(v, w, s);
        }
      }
    }
  }

  // ---- What a run leaves ----

  /** What a completed run reports: its destinations, where the snapshot is stored, and the problems. */
  datatype Report = Report(destinations: seq<Place>, stored: seq<Place>, problems: seq<Problem>)

  /** From `u` to `v` the run has stored and tracked its snapshot. */
  ghost predicate StoredSince(me: Actor, job: Job, u: World, v: World, destinations: seq<Place>, stored: seq<Place>,
                              problems: seq<Problem>, sid: string) {
    && Onward(u, v) && Told(job, destinations, stored, problems) && AtAll(me, v, stored, sid)
    && OnlyAdds(me, u, v, sid) && FewerRivals(me, u, v) && MarkedFor(u, sid) == None
    && (OffsiteConfigured(job) && stored != [] ==> Tracked(v, sid))
    && (Offsites(stored) != [] ==> BacklogDone(me.scope.job, u, v, Offsites(stored), problems))
    && (KeepsLocal(job) ==> LocalIntactStay(me, u, v))
    && (MarkedFor(v, sid) != None ==> OffsiteConfigured(job) && stored != [] && Offsites(stored) == [])
  }

  /** From `v` to `w` it has pruned, and dropped the local copy the job does not keep. */
  ghost predicate TidiedSince(me: Actor, job: Job, v: World, w: World, destinations: seq<Place>, stored: seq<Place>,
                              sid: string, errors: seq<Problem>, now: Calendar.DateTime, newest: bool) {
    && LeftWell(me, job, v, w, destinations, stored, sid, errors, now)
    && OnlyAt(me, v, w, RetainedPlaces(destinations, StoodIn(destinations, stored)))
    && (LocalGoes(job, stored) ==> !InDataDir(w, sid)) && OnlyTidying(errors)
    && (WouldGo(job, stored) && !LocalGoes(job, stored) ==> KeptLocalCopy in errors)
    && AfterRetention(me, v, w, sid, job.keepLocal, newest)
  }

  /**
   What retention leaves: with no failure, at most as many own snapshots as the policy allows at each destination
   undisputed at the start, and as many pending ones where the data dir stood in; in a lone run, just what the policy
   selects and the local copy not kept are gone. Nothing else of the job is touched.
   */
  ghost predicate RetainedSince(me: Actor, job: Job, u: World, v: World, w: World, report: Report, sid: string,
                                now: Calendar.DateTime) {
    var standIn := StoodIn(report.destinations, report.stored);
    && OnlyAt(me, v, w, RetainedPlaces(report.destinations, standIn))
    && (RetentionWorked(report.problems) ==>
          && (AllUndisputed(me, u, report.destinations) ==> FewAtAll(w, me.scope, report.destinations, job.retention))
          && (standIn ==> FewPending(w, me.scope, job.retention))
          && (me.alone ==>
                LeftAtAll(me.scope, v, w, report.destinations, standIn, job.retention, now,
                          DroppedIds(job, report.stored, sid))))
  }

  /**
   What a completed run from `u` to `w` leaves, `v` being the storage once its snapshot was stored and tracked. No
   destination goes missing. The snapshot is tracked, and marked only if the data dir alone stored it; it is where it
   was stored, but for a local copy the job does not keep, whose staying is reported, or retention chose it - never the
   newest. The backlog is dealt with.
   */
  ghost predicate Ended(me: Actor, job: Job, u: World, v: World, w: World, report: Report, sid: string,
                        now: Calendar.DateTime, newest: bool) {
    && Told(job, report.destinations, report.stored, report.problems)
    && (OffsiteConfigured(job) && report.stored != [] ==> Tracked(w, sid))
    && (MarkedFor(w, sid) == Some(me.scope.job) ==>
          OffsiteConfigured(job) && report.stored != [] && Offsites(report.stored) == [])
    && (Offsites(report.stored) != [] ==> BacklogDone(me.scope.job, u, w, Offsites(report.stored), report.problems))
    && StillStored(w, report.stored, sid, job.keepLocal, newest)
    && (WouldGo(job, report.stored) ==>
          if LocalGoes(job, report.stored) then !InDataDir(w, sid) else KeptLocalCopy in report.problems)
    && Onward(u, v) && Onward(v, w) && AtAll(me, v, report.stored, sid)
    && RetainedSince(me, job, u, v, w, report, sid, now)
  }

  lemma RunEnds(me: Actor, job: Job, u: World, v: World, w: World, destinations: seq<Place>, stored: seq<Place>,
                problems: seq<Problem>, errors: seq<Problem>, sid: string, now: Calendar.DateTime, newest: bool)
    requires Inv(w) && Uploads(me, sid)
    requires StoredSince(me, job, u, v, destinations, stored, problems, sid)
    requires TidiedSince(me, job, v, w, destinations, stored, sid, errors, now, newest)
    ensures Ended(me, job, u, v, w, Report(destinations, stored, problems + errors), sid, now, newest)
  {
    RunDone(me, u, v, w, sid, stored, problems, errors, job.keepLocal, newest);
    assert Ending(me, u, v, w, sid, stored, job.keepLocal, newest);
    LeftOfRun(me, job, u, v, w, destinations, stored, sid, problems, errors, now);
  }

  lemma LocalsAtEnd(me: Actor, job: Job, u: World, v: World, w: World, sid: string, newest: bool)
    requires AfterRetention(me, v, w, sid, job.keepLocal, newest) && (KeepsLocal(job) ==> LocalIntactStay(me, u, v))
    ensures KeepsLocal(job) ==> LocalIntactStay(me, u, w)
  {
    LocalCopiesStay(me, u, v, w, sid, job.keepLocal, newest);
  }
}
