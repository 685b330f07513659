/** Which job a snapshot belongs to, in a config with one job or several. */
module Ownership {
  import opened Wrappers
  import opened Sequences
  import opened SnapshotIds
  import Calendar
  import Retention

  /** A destination of a job's config. An S3 destination without a bucket is not configured. */
  datatype Spec = LocalSpec | S3Spec(endpoint: string, bucket: string, prefix: string)

  /** Where snapshots are stored: the data dir, or one S3 bucket and prefix. */
  datatype Place = Local | S3(endpoint: string, bucket: string, prefix: string)

  datatype Job = Job(name: string, specs: seq<Spec>, keepLocal: bool, retention: Retention.Config)

  predicate HasBucket(spec: Spec) {
    spec.S3Spec? && spec.bucket != ""
  }

  function S3PlaceOf(spec: Spec): Place
    requires spec.S3Spec?
  {
    S3(spec.endpoint, spec.bucket, spec.prefix)
  }

  predicate HasLocal(specs: seq<Spec>) {
    LocalSpec in specs
  }

  predicate OffsiteConfigured(job: Job) {
    exists spec :: spec in job.specs && HasBucket(spec)
  }

  /** The places a job stores snapshots in: its buckets, and the data dir if it has a local destination or no bucket. */
  ghost predicate StoresAt(job: Job, place: Place) {
    if place == Local then HasLocal(job.specs) || !OffsiteConfigured(job)
    else exists spec :: (spec in job.specs && spec.S3Spec? && spec.bucket != ""
                         && place == S3(spec.endpoint, spec.bucket, spec.prefix))
  }

  /** The buckets of a job's config. */
  function BucketsOf(job: Job): (r: set<Place>)
    ensures forall place :: place in r <==> place != Local && StoresAt(job, place)
  {
    set spec | spec in job.specs && HasBucket(spec) :: S3PlaceOf(spec)
  }

  /** `job_places` */
  method JobPlaces(job: Job) returns (places: seq<Place>)
    ensures forall place :: place in places <==> StoresAt(job, place)
  {
    places := [];
    for i := 0 to |job.specs|
      invariant forall place :: place in places <==>
        exists k :: 0 <= k < i && HasBucket(job.specs[k]) && S3PlaceOf(job.specs[k]) == place
    {
      if HasBucket(job.specs[i]) {
        places := places + [S3PlaceOf(job.specs[i])];
      }
    }
    assert OffsiteConfigured(job) ==> places != [] by {
      if OffsiteConfigured(job) {
        var spec :| spec in job.specs && HasBucket(spec);
        assert S3PlaceOf(spec) in places;
      }
    }
    assert places != [] ==> places[0] in places;
    if places == [] || HasLocal(job.specs) {
      places := places + [Local];
    }
  }

  datatype Scope = Scope(job: string, scoped: bool, plainAt: Option<set<Place>>)

  /** `SnapshotScope.owns`; `marked` is the job the pending marker of the snapshot names. */
  predicate Owns(scope: Scope, sid: string, place: Place, marked: Option<string>) {
    match SlugOf(sid)
    case Some(slug) => slug == JobSlug(scope.job)
    case None =>
      match scope.plainAt
      case None => true
      case Some(places) => if marked.Some? then marked.value == scope.job else place in places
  }

  /** The first job, in config order, that stores snapshots at `place`. */
  ghost predicate IsFirstAt(jobs: seq<Job>, place: Place, name: string) {
    exists i :: 0 <= i < |jobs| && jobs[i].name == name && StoresAt(jobs[i], place)
      && forall k :: 0 <= k < i ==> !StoresAt(jobs[k], place)
  }

  ghost predicate IsScopeOf(jobs: seq<Job>, job: Job, scope: Scope) {
    && scope.job == job.name
    && scope.scoped == (|jobs| > 1) == scope.plainAt.Some?
    && (scope.scoped ==> forall place :: place in scope.plainAt.value <==> IsFirstAt(jobs, place, job.name))
  }

  ghost predicate StoredBefore(jobs: seq<Job>, i: nat, place: Place) {
    exists k :: 0 <= k < i && k < |jobs| && StoresAt(jobs[k], place)
  }

  /** `first` names the first job at every place that one of the first `i` jobs stores at. */
  ghost predicate FirstSoFar(jobs: seq<Job>, i: nat, first: map<Place, string>) {
    && (forall place :: place in first <==> StoredBefore(jobs, i, place))
    && (forall place :: place in first ==> IsFirstAt(jobs, place, first[place]))
  }

  /** Places not in the map yet are put there. */
  ghost predicate PlacesAdded(first: map<Place, string>, r: map<Place, string>, places: seq<Place>, name: string) {
    && (forall place :: place in r <==> place in first || place in places)
    && (forall place :: place in r ==> r[place] == if place in first then first[place] else name)
  }

  method AddPlaces(first: map<Place, string>, places: seq<Place>, name: string) returns (r: map<Place, string>)
    ensures PlacesAdded(first, r, places, name)
  {
    r := first;
    for p := 0 to |places|
      invariant PlacesAdded(first, r, places[..p], name)
    {
      TakeOneMore(places, p);
      if places[p] !in r {
        r := r[places[p] := name];
      }
    }
    assert places[..|places|] == places;
  }

  lemma FirstGrows(jobs: seq<Job>, i: nat, first: map<Place, string>, r: map<Place, string>, places: seq<Place>)
    requires i < |jobs| && FirstSoFar(jobs, i, first) && PlacesAdded(first, r, places, jobs[i].name)
    requires forall place :: place in places <==> StoresAt(jobs[i], place)
    ensures FirstSoFar(jobs, i + 1, r)
  {
    forall place ensures StoredBefore(jobs, i + 1, place) <==> StoredBefore(jobs, i, place) || place in places {
      StoredOneMore(jobs, i, place);
    }
    forall place | place in r ensures IsFirstAt(jobs, place, r[place]) {
      if place !in first {
        NewIsFirst(jobs, i, place);
      }
    }
  }

  lemma NewIsFirst(jobs: seq<Job>, i: nat, place: Place)
    requires i < |jobs| && StoresAt(jobs[i], place) && !StoredBefore(jobs, i, place)
    ensures IsFirstAt(jobs, place, jobs[i].name)
  {
  }

  lemma StoredOneMore(jobs: seq<Job>, i: nat, place: Place)
    requires i < |jobs|
    ensures StoredBefore(jobs, i + 1, place) <==> StoredBefore(jobs, i, place) || StoresAt(jobs[i], place)
  {
    if StoredBefore(jobs, i + 1, place) {
      var k :| 0 <= k < i + 1 && StoresAt(jobs[k], place);
      assert k < i || k == i;
    }
    assert StoresAt(jobs[i], place) ==> StoredBefore(jobs, i + 1, place);
  }

  lemma ScopeIsUnique(jobs: seq<Job>, job: Job, x: Scope, y: Scope)
    requires IsScopeOf(jobs, job, x) && IsScopeOf(jobs, job, y)
    ensures x == y
  {
    if x.scoped {
      assert x.plainAt.value == y.plainAt.value;
    }
  }

  /** `scope_for` */
  method ScopeFor(jobs: seq<Job>, job: Job) returns (scope: Scope)
    ensures IsScopeOf(jobs, job, scope)
  {
    if |jobs| <= 1 {
      return Scope(job.name, false, None);
    }
    var first: map<Place, string> := map[];
    for i := 0 to |jobs|
      invariant FirstSoFar(jobs, i, first)
    {
      var places := JobPlaces(jobs[i]);
      var more := AddPlaces(first, places, jobs[i].name);
      FirstGrows(jobs, i, first, more, places);
      first := more;
    }
    var mine := set place | place in first && first[place] == job.name;
    forall place | IsFirstAt(jobs, place, job.name) ensures place in mine {
      FirstIsUnique(jobs, place, first[place], job.name);
    }
    scope := Scope(job.name, true, Some(mine));
  }

  lemma FirstIsUnique(jobs: seq<Job>, place: Place, a: string, b: string)
    requires IsFirstAt(jobs, place, a) && IsFirstAt(jobs, place, b)
    ensures a == b
  {
    var i :| 0 <= i < |jobs| && jobs[i].name == a && StoresAt(jobs[i], place)
      && forall k :: 0 <= k < i ==> !StoresAt(jobs[k], place);
    var j :| 0 <= j < |jobs| && jobs[j].name == b && StoresAt(jobs[j], place)
      && forall k :: 0 <= k < j ==> !StoresAt(jobs[k], place);
    assert !(i < j) && !(j < i);
  }

  /**
   Among several jobs no snapshot, at any place and under any marker, belongs to two of them -
   exactly when their names stay different as slugs.
   */
  lemma OwnershipDisjointExactly(jobs: seq<Job>, a: Job, x: Scope, b: Job, y: Scope)
    requires |jobs| > 1 && IsScopeOf(jobs, a, x) && IsScopeOf(jobs, b, y)
    ensures (forall sid, place, marked :: !(Owns(x, sid, place, marked) && Owns(y, sid, place, marked)))
      <==> JobSlug(a.name) != JobSlug(b.name)
  {
    if JobSlug(a.name) == JobSlug(b.name) {
      var now := Calendar.DateTime(Calendar.Date(2026, 7, 5), 0);
      var sid := NewSnapshotId(now, Some(a.name));
      ParseUndoesNew(now, Some(a.name));
      assert Owns(x, sid, Local, None) && Owns(y, sid, Local, None);
    } else {
      forall sid, place, marked | Owns(x, sid, place, marked) && Owns(y, sid, place, marked) ensures false {
        assert SlugOf(sid) == None && marked == None;
        FirstIsUnique(jobs, place, a.name, b.name);
      }
    }
  }

  /** Every snapshot has an owner, except one named after, marked for, or stored where no configured job stores. */
  lemma OwnerExists(jobs: seq<Job>, scopes: seq<Scope>, sid: string, place: Place, marked: Option<string>)
    requires |jobs| == |scopes| > 1 && forall i :: 0 <= i < |jobs| ==> IsScopeOf(jobs, jobs[i], scopes[i])
    ensures (exists i :: 0 <= i < |jobs| && Owns(scopes[i], sid, place, marked)) <==>
      if SlugOf(sid).Some? then exists i :: 0 <= i < |jobs| && JobSlug(jobs[i].name) == SlugOf(sid).value
      else if marked.Some? then exists i :: 0 <= i < |jobs| && jobs[i].name == marked.value
      else exists i :: 0 <= i < |jobs| && StoresAt(jobs[i], place)
  {
    if SlugOf(sid).Some? {
      forall i | 0 <= i < |jobs|
        ensures Owns(scopes[i], sid, place, marked) <==> JobSlug(jobs[i].name) == SlugOf(sid).value
      {
      }
    } else if marked.Some? {
      forall i | 0 <= i < |jobs| ensures Owns(scopes[i], sid, place, marked) <==> jobs[i].name == marked.value {
      }
    } else {
      if i :| 0 <= i < |jobs| && StoresAt(jobs[i], place) {
        var f := FirstStore(jobs, place, i);
        assert IsFirstAt(jobs, place, jobs[f].name);
        assert Owns(scopes[f], sid, place, marked);
      }
      forall i | 0 <= i < |jobs| && Owns(scopes[i], sid, place, marked)
        ensures exists k :: 0 <= k < |jobs| && StoresAt(jobs[k], place)
      {
        assert IsFirstAt(jobs, place, jobs[i].name);
      }
    }
  }

  lemma {:induction false} FirstStore(jobs: seq<Job>, place: Place, i: nat) returns (f: nat)
    requires i < |jobs| && StoresAt(jobs[i], place)
    ensures f <= i && StoresAt(jobs[f], place) && forall k :: 0 <= k < f ==> !StoresAt(jobs[k], place)
  {
    if k :| 0 <= k < i && StoresAt(jobs[k], place) {
      f := FirstStore(jobs, place, k);
    } else {
      f := i;
    }
  }

  /** A single job owns every snapshot but one whose id names another job. */
  lemma SingleJobOwns(job: Job, scope: Scope, sid: string, place: Place, marked: Option<string>)
    requires IsScopeOf([job], job, scope)
    ensures Owns(scope, sid, place, marked) <==> SlugOf(sid) == None || SlugOf(sid) == Some(JobSlug(job.name))
  {
  }
}
