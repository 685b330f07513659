/** The `prune` command: every job's retention over its own snapshots in the data dir. */
module Prune {
  import opened Wrappers
  import opened Sequences
  import opened SnapshotIds
  import opened SnapshotKeys
  import opened Ownership
  import opened Storage
  import opened Choices
  import opened Protocol
  import opened Interleaving
  import opened Contention
  import opened Retention
  import opened Texts
  import opened RunFrames
  import opened Runner
  import RetentionLaws
  import RetentionRules
  import Selectable
  import Order
  import Calendar

  datatype Outcome = NoJobs | NoSuchJob | Done | Failed

  /** The retention `prune` applies for a job; `--keep` overrides the count. */
  function PolicyOf(job: Job, keep: Option<int>): Config {
    if keep.Some? then job.retention.(count := keep.value) else job.retention
  }

  ghost predicate ChosenBy(w: World, job: Job, scope: Scope, keep: Option<int>, now: Calendar.DateTime, sid: string) {
    exists snaps :: AreSnapshots(snaps, CandidatesIn(w, scope, Local, None), now)
      && SelectPrunable(snaps, PolicyOf(job, keep), now).Some?
      && sid in SelectPrunable(snaps, PolicyOf(job, keep), now).value
  }

  /** One of the first |scopes| target jobs, with its scope, is chosen by `p`. */
  ghost predicate SomeTarget(targets: seq<Job>, scopes: seq<Scope>, p: (Job, Scope) -> bool)
    requires |scopes| <= |targets|
  {
    exists i :: 0 <= i < |scopes| && p(targets[i], scopes[i])
  }

  lemma OneMoreTarget(targets: seq<Job>, scopes: seq<Scope>, scope: Scope, p: (Job, Scope) -> bool)
    requires |scopes| < |targets|
    ensures SomeTarget(targets, scopes + [scope], p) <==> SomeTarget(targets, scopes, p) || p(targets[|scopes|], scope)
  {
    var more := scopes + [scope];
    assert more[|scopes|] == scope && forall i :: 0 <= i < |scopes| ==> more[i] == scopes[i];
  }

  /** `sid` is chosen by the policy of one of the first |scopes| target jobs, among that job's own snapshots. */
  ghost predicate IsChosen(w: World, targets: seq<Job>, scopes: seq<Scope>, keep: Option<int>, now: Calendar.DateTime,
                           sid: string)
    requires |scopes| <= |targets|
  {
    SomeTarget(targets, scopes, (job, scope) => ChosenBy(w, job, scope, keep, now, sid))
  }

  lemma ChosenAre(w: World, job: Job, scope: Scope, keep: Option<int>, now: Calendar.DateTime, snaps: seq<Snapshot>)
    requires AreSnapshots(snaps, CandidatesIn(w, scope, Local, None), now)
    requires SelectPrunable(snaps, PolicyOf(job, keep), now).Some?
    ensures forall sid :: sid in SelectPrunable(snaps, PolicyOf(job, keep), now).value <==>
      ChosenBy(w, job, scope, keep, now, sid)
  {
    forall sid | ChosenBy(w, job, scope, keep, now, sid)
      ensures sid in SelectPrunable(snaps, PolicyOf(job, keep), now).value
    {
      var others :| AreSnapshots(others, CandidatesIn(w, scope, Local, None), now)
        && SelectPrunable(others, PolicyOf(job, keep), now).Some?
        && sid in SelectPrunable(others, PolicyOf(job, keep), now).value;
      SelectionIgnoresOrder(others, snaps, CandidatesIn(w, scope, Local, None), PolicyOf(job, keep), now);
    }
  }

  lemma ChosenAreOwn(w: World, me: Actor, snaps: seq<Snapshot>, chosen: set<string>)
    requires Inv(w) && IdSet(snaps) == CandidatesIn(w, me.scope, Local, None) && chosen <= IdSet(snaps)
    ensures forall sid :: sid in chosen ==> !Foreign(me, sid) && sid in w.made
  {
    ListedAreMade(w, Local, chosen);
  }

  lemma MoreChosen(w: World, targets: seq<Job>, scopes: seq<Scope>, scope: Scope, keep: Option<int>,
                   now: Calendar.DateTime, chosen: set<string>)
    requires |scopes| < |targets|
    requires forall sid :: sid in chosen <==> ChosenBy(w, targets[|scopes|], scope, keep, now, sid)
    ensures Chosen(w, targets, scopes + [scope], keep, now) == Chosen(w, targets, scopes, keep, now) + AsIset(chosen)
  {
    forall sid
      ensures IsChosen(w, targets, scopes + [scope], keep, now, sid) <==>
        IsChosen(w, targets, scopes, keep, now, sid) || sid in chosen
    {
      OneMoreTarget(targets, scopes, scope, (job, scope) => ChosenBy(w, job, scope, keep, now, sid));
    }
  }

  /** Only files of the snapshots in `gone` are missing from the data dir, and nothing else has changed. */
  ghost predicate OnlyGone(w: World, w': World, gone: iset<string>) {
    && (forall loc :: loc in w'.store ==> loc in w.store && w'.store[loc] == w.store[loc])
    && (forall loc: Loc :: loc in w.store && loc !in w'.store ==> loc.place == Local && loc.key.sid in gone)
  }

  ghost function AsIset(s: set<string>): iset<string> {
    iset sid | sid in s
  }

  /** The snapshots chosen for the first |scopes| targets. */
  ghost function Chosen(w: World, targets: seq<Job>, scopes: seq<Scope>, keep: Option<int>,
                        now: Calendar.DateTime): iset<string>
    requires |scopes| <= |targets|
  {
    iset sid | IsChosen(w, targets, scopes, keep, now, sid)
  }

  lemma SameWorld(w: World)
    ensures NoLoss(w, w) && Grows(w, w)
  {
  }

  ghost predicate NoneLeft(w: World, gone: iset<string>) {
    forall loc: Loc :: loc in w.store && loc.place == Local ==> loc.key.sid !in gone
  }

  /** Choosing snapshots changes no file. */
  lemma ChoosingKeepsInv(w: World, picks: set<Pick>)
    requires Inv(w)
    ensures var w' := w.(pruned := w.pruned + picks, chosen := w.chosen + picks);
      Inv(w') && Grows(w, w') && NoLoss(w, w')
  {
    var w' := w.(pruned := w.pruned + picks, chosen := w.chosen + picks);
    assert forall sid :: MarkedFor(w', sid) == MarkedFor(w, sid);
    assert forall place, sid :: Intact(w, place, sid) ==> Intact(w', place, sid);
    forall sid | MarkedFor(w', sid).Some? ensures Somewhere(w', sid) || WasPruned(w', sid) {
      if WasPruned(w, sid) {
        PrunedGrows(w, w', sid);
      }
    }
    assert forall loc :: loc in w.store ==> ContentFits(w, loc, w.store[loc]) ==> ContentFits(w', loc, w.store[loc]);
    assert forall place, sid :: place != Local && ManifestAt(place, sid) in w.store ==>
      ArchiveAt(w', place, sid) == ArchiveAt(w, place, sid);
  }

  /** Where the loop over the target jobs stands: the first |scopes| have been pruned. */
  ghost predicate TargetsPruned(w0: World, w: World, targets: seq<Job>, scopes: seq<Scope>, keep: Option<int>,
                                now: Calendar.DateTime, named: set<string>, dryRun: bool) {
    && |scopes| <= |targets| && Inv(w) && NoLoss(w0, w) && Grows(w0, w)
    && AsIset(named) == Chosen(w0, targets, scopes, keep, now)
    && OnlyGone(w0, w, Chosen(w0, targets, scopes, keep, now))
    && (if dryRun then w == w0 else NoneLeft(w, Chosen(w0, targets, scopes, keep, now)))
  }

  lemma PruneWentOn(w0: World, w: World, w': World, targets: seq<Job>, scopes: seq<Scope>, scope: Scope,
                    keep: Option<int>, now: Calendar.DateTime, named: set<string>, chosen: set<string>)
    requires TargetsPruned(w0, w, targets, scopes, keep, now, named, false) && |scopes| < |targets|
    requires Inv(w') && NoLoss(w, w') && Grows(w, w') && OnlyGone(w, w', AsIset(chosen))
    requires forall sid :: sid in chosen <==> ChosenBy(w0, targets[|scopes|], scope, keep, now, sid)
    ensures NoLoss(w0, w') && OnlyGone(w0, w', Chosen(w0, targets, scopes + [scope], keep, now))
    ensures AsIset(named + chosen) == Chosen(w0, targets, scopes + [scope], keep, now)
    ensures NoneLeft(w', AsIset(chosen)) ==>
      TargetsPruned(w0, w', targets, scopes + [scope], keep, now, named + chosen, false)
  {
    MoreChosen(w0, targets, scopes, scope, keep, now, chosen);
    NoLossTransitive(w0, w, w');
  }

  lemma DryRunGoesOn(w0: World, targets: seq<Job>, scopes: seq<Scope>, scope: Scope, keep: Option<int>,
                     now: Calendar.DateTime, named: set<string>, chosen: set<string>)
    requires TargetsPruned(w0, w0, targets, scopes, keep, now, named, true) && |scopes| < |targets|
    requires forall sid :: sid in chosen <==> ChosenBy(w0, targets[|scopes|], scope, keep, now, sid)
    ensures TargetsPruned(w0, w0, targets, scopes + [scope], keep, now, named + chosen, true)
  {
    MoreChosen(w0, targets, scopes, scope, keep, now, chosen);
  }

  /** The scopes of the first |scopes| target jobs. */
  ghost predicate AreScopesOf(jobs: seq<Job>, targets: seq<Job>, scopes: seq<Scope>) {
    |scopes| <= |targets| && forall i :: 0 <= i < |scopes| ==> IsScopeOf(jobs, targets[i], scopes[i])
  }

  lemma OneMoreScope(jobs: seq<Job>, targets: seq<Job>, scopes: seq<Scope>, scope: Scope)
    requires AreScopesOf(jobs, targets, scopes) && |scopes| < |targets| && IsScopeOf(jobs, targets[|scopes|], scope)
    ensures AreScopesOf(jobs, targets, scopes + [scope])
  {
  }

  /** `prune` over the same jobs in any order, or named twice, chooses the same snapshots. */
  lemma AnyOrderPrunesTheSame(jobs: seq<Job>, w: World, ts: seq<Job>, xs: seq<Scope>, us: seq<Job>, ys: seq<Scope>,
                              keep: Option<int>, now: Calendar.DateTime)
    requires AreScopesOf(jobs, ts, xs) && |xs| == |ts| && AreScopesOf(jobs, us, ys) && |ys| == |us|
    requires forall job :: job in ts <==> job in us
    ensures Chosen(w, ts, xs, keep, now) == Chosen(w, us, ys, keep, now)
  {
    forall sid ensures sid in Chosen(w, ts, xs, keep, now) <==> sid in Chosen(w, us, ys, keep, now) {
      var p := (job, scope) => ChosenBy(w, job, scope, keep, now, sid);
      ChosenEitherWay(jobs, ts, xs, us, ys, p);
      ChosenEitherWay(jobs, us, ys, ts, xs, p);
    }
  }

  lemma ChosenEitherWay(jobs: seq<Job>, ts: seq<Job>, xs: seq<Scope>, us: seq<Job>, ys: seq<Scope>,
                        p: (Job, Scope) -> bool)
    requires AreScopesOf(jobs, ts, xs) && |xs| == |ts| && AreScopesOf(jobs, us, ys) && |ys| == |us|
    requires forall job :: job in ts ==> job in us
    ensures SomeTarget(ts, xs, p) ==> SomeTarget(us, ys, p)
  {
    if i :| 0 <= i < |xs| && p(ts[i], xs[i]) {
      assert ts[i] in us;
      var k :| 0 <= k < |us| && us[k] == ts[i];
      ScopeIsUnique(jobs, ts[i], xs[i], ys[k]);
      assert p(us[k], ys[k]);
    }
  }

  /** A snapshot chosen for one job belongs to it, and to no other job whose name differs as a slug. */
  lemma ChosenBelongsToItsJob(jobs: seq<Job>, w: World, a: Job, x: Scope, b: Job, y: Scope, keep: Option<int>,
                              now: Calendar.DateTime, sid: string)
    requires |jobs| > 1 && IsScopeOf(jobs, a, x) && IsScopeOf(jobs, b, y) && JobSlug(a.name) != JobSlug(b.name)
    requires ChosenBy(w, a, x, keep, now, sid)
    ensures Owns(x, sid, Local, MarkedFor(w, sid)) && !Owns(y, sid, Local, MarkedFor(w, sid))
  {
    var snaps :| AreSnapshots(snaps, CandidatesIn(w, x, Local, None), now)
      && SelectPrunable(snaps, PolicyOf(a, keep), now).Some?
      && sid in SelectPrunable(snaps, PolicyOf(a, keep), now).value;
    assert sid in IdSet(snaps);
    OwnershipDisjointExactly(jobs, a, x, b, y);
  }

  // ---- What is left of each job's own snapshots ----

  /** The target's own snapshots in the data dir that another target, which is not the same, has among its own. */
  ghost function Shared(w: World, targets: seq<Job>, scopes: seq<Scope>, i: nat): set<string>
    requires i < |targets| == |scopes|
  {
    set sid | sid in CandidatesIn(w, scopes[i], Local, None) && IsShared(w, targets, scopes, i, sid)
  }

  ghost predicate IsShared(w: World, targets: seq<Job>, scopes: seq<Scope>, i: nat, sid: string)
    requires i < |targets| == |scopes|
  {
    exists j :: 0 <= j < |targets| && targets[j] != targets[i] && sid in CandidatesIn(w, scopes[j], Local, None)
  }

  /** Jobs that differ as slugs share no snapshot. */
  lemma NothingShared(jobs: seq<Job>, w: World, targets: seq<Job>, scopes: seq<Scope>, i: nat)
    requires |jobs| > 1 && AreScopesOf(jobs, targets, scopes) && i < |targets| == |scopes|
    requires forall j :: 0 <= j < |targets| && targets[j] != targets[i] ==>
      JobSlug(targets[j].name) != JobSlug(targets[i].name)
    ensures Shared(w, targets, scopes, i) == {}
  {
    forall sid | sid in CandidatesIn(w, scopes[i], Local, None) ensures !IsShared(w, targets, scopes, i, sid) {
      forall j | 0 <= j < |targets| && targets[j] != targets[i]
        ensures sid !in CandidatesIn(w, scopes[j], Local, None)
      {
        OwnershipDisjointExactly(jobs, targets[i], scopes[i], targets[j], scopes[j]);
      }
    }
  }

  /** Without an age limit as many are left as the count says, or all if it says nothing; but for the shared ones. */
  ghost predicate EnoughLeft(w0: World, w: World, targets: seq<Job>, scopes: seq<Scope>, i: nat, count: int)
    requires i < |targets| == |scopes|
  {
    var own := CandidatesIn(w0, scopes[i], Local, None);
    targets[i].retention.ageDays <= 0 ==>
      |CandidatesIn(w, scopes[i], Local, None)| + |Shared(w0, targets, scopes, i)|
        >= if 1 <= count < |own| then count else |own|
  }

  /** Among the job's own snapshots, this one is due by its policy, with the count given, and nothing spares it. */
  ghost predicate IsDueFor(w: World, job: Job, scope: Scope, count: int, now: Calendar.DateTime, sid: string) {
    exists snaps: seq<Snapshot>, s: Snapshot ::
      AreSnapshots(snaps, CandidatesIn(w, scope, Local, None), now) && s in snaps && s.id == sid
      && RetentionRules.IsDue(snaps, job.retention.(count := count), now, s)
      && !RetentionRules.IsSpared(snaps, job.retention, s)
  }

  lemma DueExactly(w: World, job: Job, scope: Scope, keep: Option<int>, now: Calendar.DateTime, sid: string)
    requires Calendar.Valid(now) && !AgeOverflows(job.retention, now)
    ensures ChosenBy(w, job, scope, keep, now, sid) <==>
      IsDueFor(w, job, scope, if keep.Some? then keep.value else job.retention.count, now, sid)
  {
    var count := if keep.Some? then keep.value else job.retention.count;
    var own := CandidatesIn(w, scope, Local, None);
    if ChosenBy(w, job, scope, keep, now, sid) {
      var snaps :| AreSnapshots(snaps, own, now) && SelectPrunable(snaps, PolicyOf(job, keep), now).Some?
        && sid in SelectPrunable(snaps, PolicyOf(job, keep), now).value;
      var s: Snapshot :| s in snaps && s.id == sid;
      DueOf(snaps, own, job, keep, now, s);
    }
    if IsDueFor(w, job, scope, count, now, sid) {
      var snaps: seq<Snapshot>, s: Snapshot :| AreSnapshots(snaps, own, now) && s in snaps && s.id == sid
        && RetentionRules.IsDue(snaps, job.retention.(count := count), now, s)
        && !RetentionRules.IsSpared(snaps, job.retention, s);
      DueOf(snaps, own, job, keep, now, s);
    }
  }

  lemma DueOf(snaps: seq<Snapshot>, own: set<string>, job: Job, keep: Option<int>, now: Calendar.DateTime, s: Snapshot)
    requires Calendar.Valid(now) && !AgeOverflows(job.retention, now) && AreSnapshots(snaps, own, now) && s in snaps
    ensures var count := if keep.Some? then keep.value else job.retention.count;
      && SelectPrunable(snaps, PolicyOf(job, keep), now).Some?
      && (s.id in SelectPrunable(snaps, PolicyOf(job, keep), now).value <==>
            RetentionRules.IsDue(snaps, job.retention.(count := count), now, s)
            && !RetentionRules.IsSpared(snaps, job.retention, s))
  {
    RetentionRules.TimesAreValid(snaps, now);
    RetentionRules.SelectsExactly(snaps, PolicyOf(job, keep), now);
    RetentionRules.SelectedByTheRules(snaps, PolicyOf(job, keep), now, s);
  }

  /** Of the target's own snapshots, just those due for one of the targets are gone. */
  ghost predicate LeftByTheRules(w0: World, w: World, targets: seq<Job>, scopes: seq<Scope>, keep: Option<int>,
                                 now: Calendar.DateTime, i: nat)
    requires i < |targets| == |scopes|
  {
    forall sid :: sid in CandidatesIn(w, scopes[i], Local, None) <==>
      sid in CandidatesIn(w0, scopes[i], Local, None) && !IsDueForSome(w0, targets, scopes, keep, now, sid)
  }

  ghost predicate IsDueForSome(w: World, targets: seq<Job>, scopes: seq<Scope>, keep: Option<int>,
                               now: Calendar.DateTime, sid: string)
    requires |targets| == |scopes|
  {
    exists j :: 0 <= j < |targets| && IsDueFor(w, targets[j], scopes[j],
      if keep.Some? then keep.value else targets[j].retention.count, now, sid)
  }

  /** The age limits of the first `n` targets do not reach before year 1. */
  ghost predicate HaveCutoffs(targets: seq<Job>, n: nat, now: Calendar.DateTime)
    requires n <= |targets|
  {
    forall i :: 0 <= i < n ==> !AgeOverflows(targets[i].retention, now)
  }

  lemma OneMoreCutoff(targets: seq<Job>, n: nat, now: Calendar.DateTime, snaps: seq<Snapshot>, cfg: Config)
    requires n < |targets| && HaveCutoffs(targets, n, now) && cfg.ageDays == targets[n].retention.ageDays
    requires SelectPrunable(snaps, cfg, now).Some?
    ensures HaveCutoffs(targets, n + 1, now)
  {
    RetentionRules.SelectsExactly(snaps, cfg, now);
  }

  /** A selection comes to nothing only where the age limit reaches before year 1. */
  lemma NoCutoff(targets: seq<Job>, n: nat, now: Calendar.DateTime, snaps: seq<Snapshot>, cfg: Config)
    requires n < |targets| && cfg.ageDays == targets[n].retention.ageDays && SelectPrunable(snaps, cfg, now).None?
    ensures !HaveCutoffs(targets, |targets|, now)
  {
    RetentionRules.SelectsExactly(snaps, cfg, now);
  }

  /**
   What is left of one target's own snapshots, the count being that of `keep` or else the configured one: no more than
   the policy allows, enough of them, and just those the rules leave.
   */
  ghost predicate LeftForTarget(w0: World, w: World, targets: seq<Job>, scopes: seq<Scope>, keep: Option<int>,
                                now: Calendar.DateTime, i: nat)
    requires i < |targets| == |scopes|
  {
    var count := if keep.Some? then keep.value else targets[i].retention.count;
    && FewAtAll(w, scopes[i], [Local], targets[i].retention.(count := count))
    && EnoughLeft(w0, w, targets, scopes, i, count)
    && LeftByTheRules(w0, w, targets, scopes, keep, now, i)
  }

  /** The target's own snapshots, less those chosen for any target. */
  lemma OwnLeft(w0: World, w: World, scope: Scope, gone: iset<string>)
    requires OnlyGone(w0, w, gone) && NoneLeft(w, gone)
    ensures forall sid :: sid in CandidatesIn(w, scope, Local, None) <==>
      sid in CandidatesIn(w0, scope, Local, None) && sid !in gone
  {
    forall sid
      ensures sid in CandidatesIn(w, scope, Local, None) <==>
        sid in CandidatesIn(w0, scope, Local, None) && sid !in gone
    {
      assert ManifestAt(Local, sid).key.sid == sid && MarkerOf(sid).key.sid == sid;
    }
  }

  /** What `prune` promises of one target, in numbers and by the rules. */
  lemma TargetLeft(w0: World, w: World, targets: seq<Job>, scopes: seq<Scope>, keep: Option<int>,
                   now: Calendar.DateTime, i: nat)
    requires Calendar.Valid(now) && i < |targets| == |scopes|
    requires HaveCutoffs(targets, |targets|, now)
    requires forall j :: 0 <= j < |targets| && targets[j] == targets[i] ==> scopes[j] == scopes[i]
    requires var gone := Chosen(w0, targets, scopes, keep, now); OnlyGone(w0, w, gone) && NoneLeft(w, gone)
    ensures LeftForTarget(w0, w, targets, scopes, keep, now, i)
  {
    OwnLeft(w0, w, scopes[i], Chosen(w0, targets, scopes, keep, now));
    LeftInNumbers(w0, w, targets, scopes, keep, now, i);
    forall sid ensures sid in Chosen(w0, targets, scopes, keep, now) <==>
      IsDueForSome(w0, targets, scopes, keep, now, sid)
    {
      forall j | 0 <= j < |targets| {
        DueExactly(w0, targets[j], scopes[j], keep, now, sid);
      }
    }
  }

  lemma EnoughStay(snaps: seq<Snapshot>, own: set<string>, cfg: Config, now: Calendar.DateTime, picked: set<string>)
    requires AreSnapshots(snaps, own, now) && SelectPrunable(snaps, cfg, now) == Some(picked)
    ensures cfg.ageDays <= 0 ==> |own - picked| >= if 1 <= cfg.count < |own| then cfg.count else |own|
  {
    RetentionLaws.IdsAreIdSet(snaps);
    Order.DistinctCount(Ids(snaps));
    if cfg.ageDays <= 0 {
      if cfg.count >= 1 {
        RetentionLaws.AtLeastStay(snaps, cfg, now);
      } else {
        assert picked == {};
        assert own - picked == own;
      }
    }
  }

  /** What is gone though the target's own policy did not choose it, another one did. */
  lemma ChosenElsewhere(w: World, targets: seq<Job>, scopes: seq<Scope>, keep: Option<int>, now: Calendar.DateTime,
                        i: nat, sid: string)
    requires i < |targets| == |scopes| && sid in CandidatesIn(w, scopes[i], Local, None)
    requires forall j :: 0 <= j < |targets| && targets[j] == targets[i] ==> scopes[j] == scopes[i]
    requires IsChosen(w, targets, scopes, keep, now, sid) && !ChosenBy(w, targets[i], scopes[i], keep, now, sid)
    ensures sid in Shared(w, targets, scopes, i)
  {
    var p := (job, scope) => ChosenBy(w, job, scope, keep, now, sid);
    var j :| 0 <= j < |scopes| && p(targets[j], scopes[j]);
    var snaps :| AreSnapshots(snaps, CandidatesIn(w, scopes[j], Local, None), now)
      && SelectPrunable(snaps, PolicyOf(targets[j], keep), now).Some?
      && sid in SelectPrunable(snaps, PolicyOf(targets[j], keep), now).value;
    assert sid in IdSet(snaps);
    assert targets[j] != targets[i];
  }

  lemma LeftInNumbers(w0: World, w: World, targets: seq<Job>, scopes: seq<Scope>, keep: Option<int>,
                      now: Calendar.DateTime, i: nat)
    requires i < |targets| == |scopes| && !AgeOverflows(targets[i].retention, now)
    requires forall j :: 0 <= j < |targets| && targets[j] == targets[i] ==> scopes[j] == scopes[i]
    requires forall sid :: sid in CandidatesIn(w, scopes[i], Local, None) <==>
      sid in CandidatesIn(w0, scopes[i], Local, None) && sid !in Chosen(w0, targets, scopes, keep, now)
    ensures var count := if keep.Some? then keep.value else targets[i].retention.count;
      && FewAtAll(w, scopes[i], [Local], targets[i].retention.(count := count))
      && EnoughLeft(w0, w, targets, scopes, i, count)
  {
    var own, left := CandidatesIn(w0, scopes[i], Local, None), CandidatesIn(w, scopes[i], Local, None);
    var cfg := PolicyOf(targets[i], keep);
    var snaps := Selectable.SnapshotsOfIds(own, now);
    RetentionRules.SelectsExactly(snaps, cfg, now);
    var picked := SelectPrunable(snaps, cfg, now).value;
    ChosenAre(w0, targets[i], scopes[i], keep, now, snaps);
    forall sid | sid in own && sid !in picked ensures sid in left || sid in Shared(w0, targets, scopes, i) {
      if sid !in left {
        ChosenElsewhere(w0, targets, scopes, keep, now, i, sid);
      }
    }
    forall sid | sid in picked ensures sid !in left {
      OwnChosen(w0, targets, scopes, keep, now, i, sid);
    }
    NumbersLeft(snaps, own, left, Shared(w0, targets, scopes, i), cfg, now, picked);
  }

  lemma OwnChosen(w: World, targets: seq<Job>, scopes: seq<Scope>, keep: Option<int>, now: Calendar.DateTime, i: nat,
                  sid: string)
    requires i < |targets| == |scopes| && ChosenBy(w, targets[i], scopes[i], keep, now, sid)
    ensures sid in Chosen(w, targets, scopes, keep, now)
  {
    var p := (job, scope) => ChosenBy(w, job, scope, keep, now, sid);
    assert p(targets[i], scopes[i]);
  }

  lemma NumbersLeft(snaps: seq<Snapshot>, own: set<string>, left: set<string>, shared: set<string>, cfg: Config,
                    now: Calendar.DateTime, picked: set<string>)
    requires AreSnapshots(snaps, own, now) && SelectPrunable(snaps, cfg, now) == Some(picked)
    requires left <= own - picked <= left + shared
    ensures cfg.count >= 1 && cfg.tiers.daily >= 0 && cfg.tiers.weekly >= 0 && cfg.tiers.monthly >= 0 ==>
      |left| <= cfg.count + cfg.tiers.daily + cfg.tiers.weekly + cfg.tiers.monthly
    ensures cfg.ageDays <= 0 ==> |left| + |shared| >= if 1 <= cfg.count < |own| then cfg.count else |own|
  {
    RetentionLaws.SubsetSize(left, own - picked);
    RetentionLaws.SubsetSize(own - picked, left + shared);
    if cfg.count >= 1 && cfg.tiers.daily >= 0 && cfg.tiers.weekly >= 0 && cfg.tiers.monthly >= 0 {
      FewAreLeft(snaps, own, cfg, now, picked);
    }
    EnoughStay(snaps, own, cfg, now, picked);
  }

  lemma AllTargetsLeft(jobs: seq<Job>, w0: World, w: World, targets: seq<Job>, scopes: seq<Scope>, keep: Option<int>,
                       now: Calendar.DateTime)
    requires Calendar.Valid(now) && AreScopesOf(jobs, targets, scopes) && |targets| == |scopes|
    requires HaveCutoffs(targets, |targets|, now)
    requires var gone := Chosen(w0, targets, scopes, keep, now); OnlyGone(w0, w, gone) && NoneLeft(w, gone)
    ensures forall i :: 0 <= i < |targets| ==> LeftForTarget(w0, w, targets, scopes, keep, now, i)
  {
    forall i | 0 <= i < |targets| ensures LeftForTarget(w0, w, targets, scopes, keep, now, i) {
      forall j | 0 <= j < |targets| && targets[j] == targets[i] ensures scopes[j] == scopes[i] {
        ScopeIsUnique(jobs, targets[i], scopes[i], scopes[j]);
      }
      TargetLeft(w0, w, targets, scopes, keep, now, i);
    }
  }

  /** The glob for the id, a dot and a star finds the files of the snapshot and of no other. */
  lemma FoundAreOwn(w: World, sid: string)
    requires Inv(w) && sid in w.made
    ensures forall loc: Loc :: loc in w.store ==> (StartsWith(Text(loc.key), sid + ".") <==> loc.key.sid == sid)
  {
    forall loc: Loc | loc in w.store ensures StartsWith(Text(loc.key), sid + ".") <==> loc.key.sid == sid {
      assert ContentFits(w, loc, w.store[loc]);
      assert sid != loc.key.sid ==> Apart(sid, loc.key.sid);
      PrefixFindsOwn(sid, loc.key);
    }
  }

  /**
   The files of a chosen snapshot go in any order. While they do, those left belong to no other job exactly if the
   id names the job, or its marker is still there or never was, or the job is the first to store in the data dir, or
   nobody stores there.
   */
  lemma UnlinkedIsNobodyElsesExactly(jobs: seq<Job>, scopes: seq<Scope>, p: nat, w0: World, w: World, sid: string,
                                     gone: iset<string>)
    requires Configured(jobs, scopes) && p < |jobs| && Owns(scopes[p], sid, Local, MarkedFor(w0, sid))
    requires OnlyGone(w0, w, gone)
    ensures NobodyElses(scopes, p, w, Local, sid) <==>
      || SlugOf(sid).Some? || MarkedFor(w, sid) == MarkedFor(w0, sid)
      || IsFirstAt(jobs, Local, jobs[p].name) || NobodyStores(jobs, Local)
  {
    NobodyElsesExactly(jobs, scopes, p, w, Local, sid);
    assert MarkedFor(w, sid) == None || MarkedFor(w, sid) == MarkedFor(w0, sid);
  }

  /** What `prune` unlinks for a snapshot. */
  function Found(w: World, sid: string): set<Loc> {
    set loc | loc in w.store && loc.place == Local && StartsWith(Text(loc.key), sid + ".")
  }

  /**
   Where an id continues another after a dot, pruning the shorter one takes the last copy of a snapshot nobody
   chose.
   */
  lemma DottedSnapshotIsLost(w: World)
    requires w.made == map["a" := Artifact(Plain, 1), "a.b" := Artifact(Plain, 2)]
    requires w.pruned == {Pick("job", Local, "a")}
    requires w.store == map[
      At(Local, Key("a", Archive(Plain))) := Whole(1), ManifestAt(Local, "a") := Sidecar(Sha256(1)),
      At(Local, Key("a.b", Archive(Plain))) := Whole(2), ManifestAt(Local, "a.b") := Sidecar(Sha256(2))]
    ensures Intact(w, Local, "a.b") && !WasPruned(w, "a.b") && !Apart("a", "a.b")
    ensures !Somewhere(w.(store := w.store - Found(w, "a")), "a.b")
  {
    DottedIdIsFound(Manifest);
    var w' := w.(store := w.store - Found(w, "a"));
    assert ManifestAt(Local, "a.b") in Found(w, "a");
    forall place ensures !Intact(w', place, "a.b") {
      assert ManifestAt(place, "a.b") !in w'.store;
    }
  }

  class DataDir {
    const now: Calendar.DateTime
    var world: World
    /** How many calls of the system failed. */
    ghost var faults: nat

    constructor (world: World, now: Calendar.DateTime)
      ensures this.world == world && this.now == now
    {
      this.world, this.now := world, now;
    }

    /** `for p in dd.glob(f"{sid}.*"): p.unlink(missing_ok=True)`, in any order; an unlink may fail. */
    method UnlinkAll(ghost me: Actor, sid: string) returns (ok: bool)
      requires Inv(world) && Pick(me.scope.job, Local, sid) in world.chosen && !Foreign(me, sid) && sid in world.made
      requires me.alone
      modifies this`world, this`faults
      ensures Inv(world) && NoLoss(old(world), world) && Grows(old(world), world)
      ensures OnlyGone(old(world), world, iset{sid}) && (ok ==> NoneLeft(world, iset{sid}))
      ensures faults == old(faults) + if ok then 0 else 1
    {
      SameWorld(world);
      var rest := Found(world, sid);
      FoundAreOwn(world, sid);
      while rest != {}
        invariant Inv(world) && NoLoss(old(world), world) && Grows(old(world), world)
        invariant OnlyGone(old(world), world, iset{sid}) && faults == old(faults)
        invariant forall loc: Loc :: loc in rest ==> loc.place == Local && loc.key.sid == sid
        invariant forall loc: Loc :: loc in world.store && loc.place == Local && loc.key.sid == sid ==> loc in rest
        decreases rest
      {
        if * {
          faults := faults + 1;
          return false;
        }
        var loc :| loc in rest;
        ghost var w := world;
        StepSafe(me, w, Step.Prune(loc.place, loc.key));
        world := world.(store := world.store - {loc});
        NoLossTransitive(old(world), w, world);
        rest := rest - {loc};
      }
      return true;
    }

    /** One job's turn: unlink the files of its chosen snapshots. */
    method PruneJob(me: Actor, chosen: set<string>) returns (ok: bool)
      requires Inv(world) && me.alone && forall sid :: sid in chosen ==> !Foreign(me, sid) && sid in world.made
      modifies this`world, this`faults
      ensures Inv(world) && NoLoss(old(world), world) && Grows(old(world), world)
      ensures OnlyGone(old(world), world, AsIset(chosen)) && (ok ==> NoneLeft(world, AsIset(chosen)))
      ensures faults == old(faults) + if ok then 0 else 1
    {
      var picks := set sid | sid in chosen :: Pick(me.scope.job, Local, sid);
      ChoosingKeepsInv(world, picks);
      world := world.(pruned := world.pruned + picks, chosen := world.chosen + picks);
      ghost var w1 := world;
      ok := UnlinkChosen(me, chosen);
      NoLossTransitive(old(world), w1, world);
    }

    /** The files of the chosen snapshots, one snapshot after the other. */
    method UnlinkChosen(ghost me: Actor, chosen: set<string>) returns (ok: bool)
      requires Inv(world) && me.alone
      requires forall sid :: sid in chosen ==>
        Pick(me.scope.job, Local, sid) in world.chosen && !Foreign(me, sid) && sid in world.made
      modifies this`world, this`faults
      ensures Inv(world) && NoLoss(old(world), world) && Grows(old(world), world)
      ensures OnlyGone(old(world), world, AsIset(chosen)) && (ok ==> NoneLeft(world, AsIset(chosen)))
      ensures faults == old(faults) + if ok then 0 else 1
    {
      SameWorld(world);
      var rest := chosen;
      while rest != {}
        invariant rest <= chosen && Inv(world) && NoLoss(old(world), world) && Grows(old(world), world)
        invariant OnlyGone(old(world), world, AsIset(chosen)) && NoneLeft(world, AsIset(chosen - rest))
        invariant faults == old(faults)
        decreases rest
      {
        var sid :| sid in rest;
        ghost var w := world;
        ok := UnlinkAll(me, sid);
        NoLossTransitive(old(world), w, world);
        if !ok {
          return false;
        }
        rest := rest - {sid};
      }
      assert chosen - rest == chosen;
      return true;
    }

    method Targets(jobs: seq<Job>, only: Option<string>) returns (targets: seq<Job>)
      ensures forall job :: job in targets <==> job in jobs && (only == None || only == Some(job.name))
    {
      targets := [];
      for i := 0 to |jobs|
        invariant forall job :: job in targets <==> job in jobs[..i] && (only == None || only == Some(job.name))
      {
        TakeOneMore(jobs, i);
        if only == None || only == Some(jobs[i].name) {
          targets := targets + [jobs[i]];
        }
      }
      assert jobs[..|jobs|] == jobs;
    }

    /**
     `prune`: what is listed and marked is read once; then each target job's policy is applied to its
     own snapshots, and every file of a chosen one is unlinked. Of the chosen snapshots no file is left
     and no other file is touched - a condition that does not depend on the order of the jobs.
     */
    method Prune(jobs: seq<Job>, keep: Option<int>, dryRun: bool, only: Option<string>)
      returns (outcome: Outcome, targets: seq<Job>, scopes: seq<Scope>, named: set<string>)
      requires Inv(world) && Calendar.Valid(now)
      modifies this`world, this`faults
      ensures Inv(world) && NoLoss(old(world), world)
      ensures AreScopesOf(jobs, targets, scopes)
      ensures forall job :: job in targets <==> job in jobs && (only == None || only == Some(job.name))
      ensures jobs == [] <==> outcome == NoJobs
      ensures jobs != [] && targets == [] <==> outcome == NoSuchJob
      ensures OnlyGone(old(world), world, Chosen(old(world), targets, scopes, keep, now))
      ensures dryRun ==> world == old(world)
      ensures outcome == Failed ==> faults == old(faults) + 1 || !HaveCutoffs(targets, |targets|, now)
      ensures outcome != Failed ==> faults == old(faults)
      ensures AsIset(named) == Chosen(old(world), targets, scopes, keep, now)
      ensures outcome == Done ==> |scopes| == |targets|
      ensures outcome == Done && !dryRun ==> NoneLeft(world, Chosen(old(world), targets, scopes, keep, now))
      ensures outcome == Done && !dryRun ==>
        forall i :: 0 <= i < |targets| ==> LeftForTarget(old(world), world, targets, scopes, keep, now, i)
    {
      SameWorld(world);
      targets, scopes, named := [], [], {};
      if jobs == [] {
        return NoJobs, targets, scopes, named;
      }
      targets := Targets(jobs, only);
      if targets == [] {
        assert jobs[0] in jobs;
        return NoSuchJob, targets, scopes, named;
      }
      outcome, scopes, named := PruneTargets(jobs, targets, keep, dryRun);
    }

    /** The loop over the target jobs. */
    method PruneTargets(jobs: seq<Job>, targets: seq<Job>, keep: Option<int>, dryRun: bool)
      returns (outcome: Outcome, scopes: seq<Scope>, named: set<string>)
      requires Inv(world) && Calendar.Valid(now)
      modifies this`world, this`faults
      ensures Inv(world) && NoLoss(old(world), world) && AreScopesOf(jobs, targets, scopes)
      ensures outcome == Done || outcome == Failed
      ensures OnlyGone(old(world), world, Chosen(old(world), targets, scopes, keep, now))
      ensures dryRun ==> world == old(world)
      ensures outcome == Failed ==> faults == old(faults) + 1 || !HaveCutoffs(targets, |targets|, now)
      ensures outcome != Failed ==> faults == old(faults)
      ensures AsIset(named) == Chosen(old(world), targets, scopes, keep, now)
      ensures outcome == Done ==> |scopes| == |targets|
      ensures outcome == Done && !dryRun ==> NoneLeft(world, Chosen(old(world), targets, scopes, keep, now))
      ensures outcome == Done && !dryRun ==>
        forall i :: 0 <= i < |targets| ==> LeftForTarget(old(world), world, targets, scopes, keep, now, i)
    {
      ghost var w0 := world;
      SameWorld(world);
      scopes, named := [], {};
      var start := world;
      while |scopes| < |targets|
        invariant TargetsPruned(w0, world, targets, scopes, keep, now, named, dryRun)
        invariant AreScopesOf(jobs, targets, scopes)
        invariant HaveCutoffs(targets, |scopes|, now) && faults == old(faults)
      {
        var target := targets[|scopes|];
        var scope := ScopeFor(jobs, target);
        var snaps := SnapshotsOf(CandidatesIn(start, scope, Local, None), now);
        var selected := SelectPrunable(snaps, PolicyOf(target, keep), now);
        if selected.None? {
          NoCutoff(targets, |scopes|, now, snaps, PolicyOf(target, keep));
          return Failed, scopes, named;
        }
        ghost var w, before := world, scopes;
        OneMoreScope(jobs, targets, scopes, scope);
        OneMoreCutoff(targets, |scopes|, now, snaps, PolicyOf(target, keep));
        ChosenAre(w0, target, scope, keep, now, snaps);
        var me := Actor(scope, true, {}, PolicyOf(target, keep), map[]);
        ChosenAreOwn(w0, me, snaps, selected.value);
        var ok := true;
        if !dryRun {
          ok := PruneJob(me, selected.value);
        }
        scopes := scopes + [scope];
        if !dryRun {
          PruneWentOn(w0, w, world, targets, before, scope, keep, now, named, selected.value);
        } else {
          DryRunGoesOn(w0, targets, before, scope, keep, now, named, selected.value);
        }
        named := named + selected.value;
        if !ok {
          return Failed, scopes, named;
        }
      }
      outcome := Done;
      if !dryRun {
        AllTargetsLeft(jobs, w0, world, targets, scopes, keep, now);
      }
    }
  }
}
