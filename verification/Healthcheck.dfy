/** The healthcheck: its verdict as a function of the run records and manifests in the data dir. */
module Healthcheck {
  import opened Wrappers
  import opened Ownership
  import opened Sequences
  import RunState
  import SnapshotIds

  /** A manifest in the data dir, as far as it can be read; `failed` if a component failed or its status is error. */
  datatype Manifest = Unreadable | Readable(createdAt: int, failed: bool)

  /** A run the check knows of: from a record (`job`, rank 1) or from a manifest (`sid`, rank 0). */
  datatype KnownRun = KnownRun(at: int, rank: int, failed: bool, job: Option<string>, sid: string)

  /** A configured job with its own max age, if it has one; ages are microseconds. */
  datatype Watched = Watched(job: Job, maxAge: Option<int>)

  // ---- The verdict over one set of runs ----

  predicate Before(a: KnownRun, b: KnownRun) {
    a.at < b.at || (a.at == b.at && a.rank < b.rank)
  }

  /** `max(runs, key=...)`: the first of the greatest. */
  function Latest(runs: seq<KnownRun>): (r: KnownRun)
    requires runs != []
    ensures r in runs && forall x :: x in runs ==> !Before(r, x)
  {
    if |runs| == 1 then runs[0]
    else
      var last := |runs| - 1;
      var best := Latest(runs[..last]);
      assert forall x :: x in runs <==> x in runs[..last] || x == runs[last];
      if Before(best, runs[last]) then runs[last] else best
  }

  /** `_judge` */
  predicate Judge(runs: seq<KnownRun>, maxAge: int, now: int, started: Option<int>) {
    if runs == [] then started.Some? && now - started.value <= maxAge
    else !Latest(runs).failed && now - Latest(runs).at <= maxAge
  }

  // ---- The runs of the data dir ----

  /** What the check reads. */
  datatype Snapshot = Snapshot(
    writable: bool, manifests: map<string, Manifest>, markers: map<string, string>,
    records: RunState.Files, started: Option<int>)

  function RunOf(record: RunState.RunRecord): KnownRun {
    KnownRun(record.at, 1, record.status.Error?, Some(record.job), "")
  }

  ghost predicate IsManifestRun(s: Snapshot, run: KnownRun) {
    && run.sid in s.manifests && s.manifests[run.sid].Readable?
    && run == KnownRun(s.manifests[run.sid].createdAt, 0, s.manifests[run.sid].failed, None, run.sid)
  }

  ghost predicate IsRecordRun(s: Snapshot, run: KnownRun) {
    exists r :: RunState.IsRecord(s.records, r) && run == RunOf(r)
  }

  ghost predicate AreRuns(s: Snapshot, runs: seq<KnownRun>) {
    forall run :: run in runs <==> IsManifestRun(s, run) || IsRecordRun(s, run)
  }

  function MarkedFor(s: Snapshot, sid: string): Option<string> {
    if sid in s.markers then Some(s.markers[sid]) else None
  }

  /** Whether a run counts for a job, with several jobs configured. */
  predicate CountsFor(s: Snapshot, scope: Scope, run: KnownRun) {
    if run.job.Some? then run.job.value == scope.job else Owns(scope, run.sid, Local, MarkedFor(s, run.sid))
  }

  function OwnRuns(runs: seq<KnownRun>, s: Snapshot, scope: Scope): seq<KnownRun> {
    Filter(runs, run => CountsFor(s, scope, run))
  }

  function MaxAge(watched: Watched, default: int): int {
    if watched.maxAge.Some? then watched.maxAge.value else default
  }

  ghost predicate IsHealthyJob(s: Snapshot, runs: seq<KnownRun>, scope: Scope, maxAge: int, now: int) {
    Judge(OwnRuns(runs, s, scope), maxAge, now, s.started)
  }

  function JobsOf(jobs: seq<Watched>): seq<Job> {
    seq(|jobs|, i requires 0 <= i < |jobs| => jobs[i].job)
  }

  /** The verdict over all jobs, from the runs in the order they were listed. */
  ghost predicate IsHealthy(s: Snapshot, runs: seq<KnownRun>, jobs: seq<Watched>, default: int, now: int) {
    if |jobs| <= 1 then Judge(runs, if jobs == [] then default else MaxAge(jobs[0], default), now, s.started)
    else forall i, scope :: 0 <= i < |jobs| && IsScopeOf(JobsOf(jobs), jobs[i].job, scope) ==>
      IsHealthyJob(s, runs, scope, MaxAge(jobs[i], default), now)
  }

  class DataDir {
    var writable: bool
    var manifests: map<string, Manifest>
    var markers: map<string, string>
    const state: RunState.StateDir
    var started: Option<int>

    constructor (state: RunState.StateDir)
      ensures this.state == state
    {
      this.state := state;
      writable, manifests, markers, started := true, map[], map[], None;
    }

    function View(): Snapshot
      reads this, state
    {
      Snapshot(writable, manifests, markers, state.files, started)
    }

    /** `_manifest_runs`: manifests that cannot be read are passed over. */
    method ManifestRuns() returns (runs: seq<KnownRun>)
      ensures forall run :: run in runs <==> IsManifestRun(View(), run)
    {
      runs := [];
      var rest := manifests.Keys;
      while rest != {}
        invariant rest <= manifests.Keys
        invariant forall run :: run in runs <==> IsManifestRun(View(), run) && run.sid !in rest
        decreases |rest|
      {
        var sid :| sid in rest;
        rest := rest - {sid};
        if manifests[sid].Readable? {
          runs := runs + [KnownRun(manifests[sid].createdAt, 0, manifests[sid].failed, None, sid)];
        }
      }
    }

    /** `_record_runs` */
    method RecordRuns() returns (runs: seq<KnownRun>)
      ensures forall run :: run in runs <==> IsRecordRun(View(), run)
    {
      runs := [];
      var records := state.ReadRuns();
      var i := 0;
      while i < |records|
        invariant i <= |records|
        invariant forall run :: run in runs <==> exists k :: 0 <= k < i && run == RunOf(records[k])
      {
        runs := runs + [RunOf(records[i])];
        i := i + 1;
      }
      forall run ensures run in runs <==> IsRecordRun(View(), run) {
        if k :| 0 <= k < |records| && run == RunOf(records[k]) {
          assert records[k] in records;
        }
      }
    }

    /** `check`: whether all is well, judged by the runs of the data dir in the order they were listed. */
    method Check(jobs: seq<Watched>, default: int, now: int) returns (healthy: bool)
      ensures exists runs ::
        AreRuns(View(), runs) && (healthy <==> writable && IsHealthy(View(), runs, jobs, default, now))
    {
      var fromManifests := ManifestRuns();
      var fromRecords := RecordRuns();
      var all := fromManifests + fromRecords;
      assert AreRuns(View(), all);
      if !writable {
        return false;
      }
      if |jobs| <= 1 {
        healthy := Judge(all, if jobs == [] then default else MaxAge(jobs[0], default), now, started);
        assert healthy <==> IsHealthy(View(), all, jobs, default, now);
        return;
      }
      healthy := true;
      for i := 0 to |jobs|
        invariant healthy <==> forall k, scope :: 0 <= k < i && IsScopeOf(JobsOf(jobs), jobs[k].job, scope) ==>
          IsHealthyJob(View(), all, scope, MaxAge(jobs[k], default), now)
      {
        var scope := ScopeFor(JobsOf(jobs), jobs[i].job);
        var own := OwnRuns(all, View(), scope);
        var verdict := Judge(own, MaxAge(jobs[i], default), now, started);
        forall other | IsScopeOf(JobsOf(jobs), jobs[i].job, other) ensures other == scope {
          ScopeIsUnique(JobsOf(jobs), jobs[i].job, other, scope);
        }
        healthy := healthy && verdict;
      }
      assert healthy <==> IsHealthy(View(), all, jobs, default, now);
    }
  }

  // ---- The verdict after a run ----

  /** `record` is the last run of its job that the check can know of. */
  ghost predicate IsLastRun(s: Snapshot, scope: Scope, record: RunState.RunRecord) {
    && record.job == scope.job
    && RunState.InPlace(s.records) && RunState.JobFile(record.job) in s.records
    && s.records[RunState.JobFile(record.job)] == RunState.Parsed(record)
    && forall sid :: sid in s.manifests && s.manifests[sid].Readable? && Owns(scope, sid, Local, MarkedFor(s, sid)) ==>
      s.manifests[sid].createdAt <= record.at
  }

  /** The record beats every manifest of the job's own, the one of the same run included. */
  lemma RecordIsLatest(s: Snapshot, runs: seq<KnownRun>, scope: Scope, record: RunState.RunRecord)
    requires AreRuns(s, runs) && IsLastRun(s, scope, record)
    ensures OwnRuns(runs, s, scope) != [] && Latest(OwnRuns(runs, s, scope)) == RunOf(record)
  {
    var own, last := OwnRuns(runs, s, scope), RunOf(record);
    RunState.JobFileIsRecordFile(record.job);
    assert RunState.IsRecord(s.records, record);
    assert IsRecordRun(s, last);
    assert last in own;
    var latest := Latest(own);
    assert IsManifestRun(s, latest) || IsRecordRun(s, latest);
    if IsRecordRun(s, latest) {
      OneRecordPerJob(s, latest, record);
    }
  }

  lemma OneRecordPerJob(s: Snapshot, run: KnownRun, record: RunState.RunRecord)
    requires RunState.InPlace(s.records) && IsRecordRun(s, run) && run.job == Some(record.job)
    requires RunState.JobFile(record.job) in s.records
    requires s.records[RunState.JobFile(record.job)] == RunState.Parsed(record)
    ensures run == RunOf(record)
  {
    var r :| RunState.IsRecord(s.records, r) && run == RunOf(r);
    var f :| f in s.records && RunState.IsRecordFile(f) && s.records[f] == RunState.Parsed(r);
  }

  /**
   While a run is a job's newest, the job is healthy exactly if the run did not end in error and is no older
   than the max age - whatever runs other jobs add in record files of their own.
   */
  lemma VerdictAfterRun(s: Snapshot, runs: seq<KnownRun>, scope: Scope, record: RunState.RunRecord,
                        others: seq<RunState.RunRecord>,
                        maxAge: int, now: int)
    requires IsLastRun(s, scope, record) && forall r :: r in others ==>
      RunState.JobFile(r.job) != RunState.JobFile(record.job)
    requires AreRuns(s.(records := RunState.RecordAll(s.records, others)), runs)
    ensures IsHealthyJob(s.(records := RunState.RecordAll(s.records, others)), runs, scope, maxAge, now)
       <==> !record.status.Error? && now - record.at <= maxAge
  {
    var later := s.(records := RunState.RecordAll(s.records, others));
    RunState.OthersKeepFile(s.records, others, record.job);
    assert forall sid :: MarkedFor(later, sid) == MarkedFor(s, sid);
    RecordIsLatest(later, runs, scope, record);
  }

  // ---- The verdict over all jobs ----

  /** Each job is judged by the max age it is given, or else the default one. */
  lemma HealthyOfAll(s: Snapshot, runs: seq<KnownRun>, jobs: seq<Watched>, scopes: seq<Scope>, default: int, now: int)
    requires |jobs| > 1 && |scopes| == |jobs|
    requires forall i :: 0 <= i < |jobs| ==> IsScopeOf(JobsOf(jobs), jobs[i].job, scopes[i])
    ensures IsHealthy(s, runs, jobs, default, now) <==> forall i :: 0 <= i < |jobs| ==>
      IsHealthyJob(s, runs, scopes[i], if jobs[i].maxAge.Some? then jobs[i].maxAge.value else default, now)
  {
    forall i, scope | 0 <= i < |jobs| && IsScopeOf(JobsOf(jobs), jobs[i].job, scope) ensures scope == scopes[i] {
      ScopeIsUnique(JobsOf(jobs), jobs[i].job, scope, scopes[i]);
    }
  }

  /** Before any run, all is well as long as the daemon has been up for no longer than every job's max age. */
  lemma HealthyBeforeAnyRun(s: Snapshot, jobs: seq<Watched>, scopes: seq<Scope>, default: int, now: int)
    requires |scopes| == |jobs|
    requires forall i :: 0 <= i < |jobs| ==> IsScopeOf(JobsOf(jobs), jobs[i].job, scopes[i])
    ensures IsHealthy(s, [], jobs, default, now) <==>
      && s.started.Some? && (jobs == [] ==> now - s.started.value <= default)
      && forall i :: 0 <= i < |jobs| ==>
           now - s.started.value <= if jobs[i].maxAge.Some? then jobs[i].maxAge.value else default
  {
    if |jobs| > 1 {
      HealthyOfAll(s, [], jobs, scopes, default, now);
      assert forall i :: 0 <= i < |jobs| ==> OwnRuns([], s, scopes[i]) == [];
      assert jobs[0] in jobs;
    }
  }

  /** With one job or none every run counts, and the newest one decides. */
  lemma HealthyOfOne(s: Snapshot, runs: seq<KnownRun>, jobs: seq<Watched>, newest: KnownRun, default: int, now: int)
    requires |jobs| <= 1 && newest in runs && forall run :: run in runs ==> run == newest || Before(run, newest)
    ensures IsHealthy(s, runs, jobs, default, now) <==>
      && !newest.failed
      && now - newest.at <= if |jobs| == 1 && jobs[0].maxAge.Some? then jobs[0].maxAge.value else default
  {
    assert Latest(runs) == newest;
  }

  /**
   Once every job has run, all is well exactly if no job's last run ended in error and none is older than the job's max
   age, or the default one.
   */
  lemma HealthyAfterRuns(s: Snapshot, runs: seq<KnownRun>, jobs: seq<Watched>, scopes: seq<Scope>,
                         last: seq<RunState.RunRecord>, default: int, now: int)
    requires AreRuns(s, runs) && |jobs| > 1 && |scopes| == |last| == |jobs|
    requires forall i :: 0 <= i < |jobs| ==>
      IsScopeOf(JobsOf(jobs), jobs[i].job, scopes[i]) && IsLastRun(s, scopes[i], last[i])
    ensures IsHealthy(s, runs, jobs, default, now) <==> forall i :: 0 <= i < |jobs| ==>
      !last[i].status.Error?
      && now - last[i].at <= if jobs[i].maxAge.Some? then jobs[i].maxAge.value else default
  {
    HealthyOfAll(s, runs, jobs, scopes, default, now);
    forall i | 0 <= i < |jobs|
      ensures OwnRuns(runs, s, scopes[i]) != [] && Latest(OwnRuns(runs, s, scopes[i])) == RunOf(last[i])
    {
      RecordIsLatest(s, runs, scopes[i], last[i]);
    }
  }

  /** The verdict on the job of `record` after a run of another job, if `record` is its last run. */
  ghost predicate RightAfter(s: Snapshot, runs: seq<KnownRun>, scope: Scope, record: RunState.RunRecord,
                             other: RunState.RunRecord,
                             maxAge: int, now: int) {
    var later := s.(records := RunState.RecordAll(s.records, [other]));
    IsLastRun(s, scope, record) && AreRuns(later, runs) ==>
      (IsHealthyJob(later, runs, scope, maxAge, now) <==> !record.status.Error? && now - record.at <= maxAge)
  }

  /** Whatever job `b` records, the verdict on job `a` is right. */
  ghost predicate NeverMisled(a: string, b: string) {
    forall s, runs, scope, record: RunState.RunRecord, other: RunState.RunRecord, maxAge, now ::
      record.job == a && other.job == b ==>
      RightAfter(s, runs, scope, record, other, maxAge, now)
  }

  /** A job's verdict is right whatever another job records, exactly if the two have record files of their own. */
  lemma NeverMisledExactly(a: string, b: string)
    requires a != b
    ensures NeverMisled(a, b) <==> RunState.JobFile(a) != RunState.JobFile(b)
  {
    if RunState.JobFile(a) != RunState.JobFile(b) {
      forall s, runs, scope, record: RunState.RunRecord, other: RunState.RunRecord, maxAge, now | record.job == a
        && other.job == b
        ensures RightAfter(s, runs, scope, record, other, maxAge, now)
      {
        var later := s.(records := RunState.RecordAll(s.records, [other]));
        if IsLastRun(s, scope, record) && AreRuns(later, runs) {
          VerdictAfterRun(s, runs, scope, record, [other], maxAge, now);
        }
      }
    } else {
      var failed, good := RunState.RunRecord(a, "", RunState.Error, 0), RunState.RunRecord(b, "", RunState.Success, 0);
      SharedFileHidesFailure(failed, good, Scope(a, true, Some({})), 0, 0);
    }
  }

  /**
   Where two jobs share a record file, a run of the one hides that the only run of the other failed: no run of the
   failed job is known any more, and the daemon has just started.
   */
  lemma SharedFileHidesFailure(failed: RunState.RunRecord, good: RunState.RunRecord, scope: Scope, maxAge: int,
                               now: int)
    requires failed.job != good.job && RunState.JobFile(failed.job) == RunState.JobFile(good.job)
    requires failed.status.Error? && scope.job == failed.job && maxAge >= 0
    ensures
      var s := Snapshot(true, map[], map[], map[RunState.JobFile(failed.job) := RunState.Parsed(failed)], Some(now));
      var later := s.(records := RunState.RecordAll(s.records, [good]));
      && IsLastRun(s, scope, failed) && AreRuns(later, [RunOf(good)])
      && IsHealthyJob(later, [RunOf(good)], scope, maxAge, now)
        && !RightAfter(s, [RunOf(good)], scope, failed, good, maxAge, now)
  {
    var f := RunState.JobFile(failed.job);
    var s := Snapshot(true, map[], map[], map[f := RunState.Parsed(failed)], Some(now));
    var later := s.(records := RunState.RecordAll(s.records, [good]));
    Replaced(s.records, good);
    RunState.JobFileIsRecordFile(good.job);
    assert later.records == map[f := RunState.Parsed(good)];
    assert RunState.IsRecord(later.records, good);
    forall run | IsRecordRun(later, run) ensures run == RunOf(good) {
      OneRecordPerJob(later, run, good);
    }
    NoneKept([RunOf(good)], run => CountsFor(later, scope, run));
  }

  lemma Replaced(files: RunState.Files, record: RunState.RunRecord)
    ensures RunState.RecordAll(files, [record]) == files[RunState.JobFile(record.job) := RunState.Parsed(record)]
  {
    assert [record][1..] == [];
  }

  /** Slugs that differ do not keep record files apart. */
  lemma SlugsDoNotTell()
    ensures SnapshotIds.JobSlug("a b") != SnapshotIds.JobSlug("a_b")
    ensures RunState.JobFile("a b") == RunState.JobFile("a_b")
  {
    SlugsOfExample();
    RunState.SharedFileExactly("a b", "a_b");
  }

  lemma SlugsOfExample()
    ensures SnapshotIds.JobSlug("a b") != SnapshotIds.JobSlug("a_b") && RunState.SafelyEqual("a b", "a_b")
  {
    assert SnapshotIds.JobSlug("a_b") == "a_b";
    assert !SnapshotIds.IsSlug("a b") by { assert "a b"[1] == ' '; }
  }
}
