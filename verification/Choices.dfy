/** What retention looks at in a place, and what it may choose there. */
module Choices {
  import opened Wrappers
  import opened SnapshotKeys
  import opened Texts
  import opened Ownership
  import opened Storage
  import opened Retention
  import RetentionLaws
  import Calendar

  /** One snapshot for each id, with the time its id tells. */
  ghost predicate AreSnapshots(snaps: seq<Snapshot>, sids: set<string>, now: Calendar.DateTime) {
    && DistinctIds(snaps) && IdSet(snaps) == sids
    && forall s :: s in snaps ==> s.when == RetentionLaws.SnapshotTime(s.id, now)
  }

  lemma OneMoreSnapshot(snaps: seq<Snapshot>, sids: set<string>, sid: string, now: Calendar.DateTime)
    requires AreSnapshots(snaps, sids, now) && sid !in sids
    ensures AreSnapshots(snaps + [Snapshot(sid, RetentionLaws.SnapshotTime(sid, now))], sids + {sid}, now)
  {
    var s := Snapshot(sid, RetentionLaws.SnapshotTime(sid, now));
    var all := snaps + [s];
    assert IdSet(all) == IdSet(snaps) + {sid};
    forall i, j | 0 <= i < j < |all| ensures Ids(all)[i] != Ids(all)[j] {
      if j < |snaps| {
        assert Ids(snaps)[i] != Ids(snaps)[j];
      } else {
        assert snaps[i] in snaps;
      }
    }
  }

  const MANIFEST_SUFFIX := ".manifest.json"

  predicate IsManifestText(text: string) {
    EndsWith(text, MANIFEST_SUFFIX) && '/' !in text
  }

  /** The key without the suffix. */
  function IdOf(text: string): string
    requires IsManifestText(text)
  {
    text[..|text| - |MANIFEST_SUFFIX|]
  }

  lemma ManifestTextMeans(key: Key)
    ensures IsManifestText(Text(key)) <==> key.kind == Manifest && '/' !in key.sid
    ensures IsManifestText(Text(key)) ==> IdOf(Text(key)) == key.sid
  {
    ManifestSuffix(key);
  }

  /** `{k[:-14] for k in list_keys() if k.endswith(".manifest.json") and "/" not in k}` */
  function CutTexts(w: World, place: Place): set<string> {
    set loc | loc in w.store && loc.place == place && IsManifestText(Text(loc.key)) :: IdOf(Text(loc.key))
  }

  lemma CutTextsAreIds(w: World, place: Place, sid: string)
    ensures sid in CutTexts(w, place) <==> ManifestAt(place, sid) in w.store && '/' !in sid
  {
    if sid in CutTexts(w, place) {
      var loc :| loc in w.store && loc.place == place && IsManifestText(Text(loc.key)) && IdOf(Text(loc.key)) == sid;
      ManifestTextMeans(loc.key);
      assert loc == ManifestAt(place, sid);
    }
    ManifestTextMeans(Key(sid, Manifest));
  }

  function ListedIds(w: World, place: Place): (r: set<string>)
    ensures forall sid :: sid in r <==> ManifestAt(place, sid) in w.store && '/' !in sid
  {
    assert forall sid :: sid in CutTexts(w, place) <==> ManifestAt(place, sid) in w.store && '/' !in sid by {
      forall sid ensures sid in CutTexts(w, place) <==> ManifestAt(place, sid) in w.store && '/' !in sid {
        CutTextsAreIds(w, place, sid);
      }
    }
    CutTexts(w, place)
  }

  /** The listed snapshots retention looks at: those in `only`, or else the job's own. */
  function CandidatesIn(w: World, scope: Scope, place: Place, only: Option<set<string>>): set<string> {
    set sid | sid in ListedIds(w, place)
      && (if only.Some? then sid in only.value else Owns(scope, sid, place, MarkerSeen(w, place, sid)))
  }

  lemma SameCandidates(w: World, w': World, scope: Scope, place: Place, only: Option<set<string>>)
    requires w'.store == w.store
    ensures CandidatesIn(w', scope, place, only) == CandidatesIn(w, scope, place, only)
  {
    forall sid ensures MarkerSeen(w', place, sid) == MarkerSeen(w, place, sid) {
    }
  }

  // ---- A choice ----

  /** The snapshots in the data dir that are marked for the job. */
  function PendingOf(w: World, job: string): (r: set<string>)
    ensures forall sid :: sid in r <==> MarkedFor(w, sid) == Some(job)
  {
    set loc | loc in w.store && loc == MarkerOf(loc.key.sid) && w.store[loc] == PendingFor(job) :: loc.key.sid
  }

  /** What a round of retention looks at: the job's own or, where the data dir only stood in, its pending snapshots. */
  function LookedAt(w: World, scope: Scope, place: Place, standIn: bool): set<string> {
    CandidatesIn(w, scope, place, if standIn then Some(PendingOf(w, scope.job)) else None)
  }

  /** At `now` the policy selects just `sids` of these snapshots. */
  ghost predicate Selects(cfg: Config, snaps: seq<Snapshot>, looked: set<string>, now: Calendar.DateTime,
                          sids: set<string>) {
    Calendar.Valid(now) && AreSnapshots(snaps, looked, now) && SelectPrunable(snaps, cfg, now) == Some(sids)
  }

  /** A round of retention may choose these at the place. */
  ghost predicate MayChoose(w: World, scope: Scope, cfg: Config, place: Place, sids: set<string>) {
    exists standIn, snaps, now ::
      (standIn ==> place == Local) && Selects(cfg, snaps, LookedAt(w, scope, place, standIn), now, sids)
  }

  // ---- What is selected, in whatever order it is listed ----

  /** The order snapshots are listed in does not matter to retention. */
  lemma SelectionIgnoresOrder(xs: seq<Snapshot>, ys: seq<Snapshot>, sids: set<string>, cfg: Config,
                              now: Calendar.DateTime)
    requires AreSnapshots(xs, sids, now) && AreSnapshots(ys, sids, now)
    requires SelectPrunable(xs, cfg, now).Some?
    ensures SelectPrunable(ys, cfg, now) == SelectPrunable(xs, cfg, now)
  {
    forall s ensures s in xs <==> s in ys {
      if s in xs {
        SameSnapshots(xs, ys, sids, now, s);
      }
      if s in ys {
        SameSnapshots(ys, xs, sids, now, s);
      }
    }
    AgeIgnoresOrder(xs, ys, cfg.ageDays, now);
    var a, b := SelectPrunable(xs, cfg, now).value, SelectPrunable(ys, cfg, now).value;
    forall s | s in xs ensures s.id in a <==> s.id in b {
      SelectedAlike(xs, ys, cfg, now, s);
    }
    SameChoice(xs, ys, a, b);
  }

  lemma SameChoice(xs: seq<Snapshot>, ys: seq<Snapshot>, a: set<string>, b: set<string>)
    requires IdSet(xs) == IdSet(ys) && a <= IdSet(xs) && b <= IdSet(ys)
    requires forall s :: s in xs ==> (s.id in a <==> s.id in b)
    ensures a == b
  {
    forall id | id in IdSet(xs) ensures id in a <==> id in b {
      var s :| s in xs && s.id == id;
    }
  }

  lemma AgeIgnoresOrder(xs: seq<Snapshot>, ys: seq<Snapshot>, days: int, now: Calendar.DateTime)
    ensures AgePrunable(xs, days, now).Some? <==> AgePrunable(ys, days, now).Some?
  {
  }

  lemma SelectedAlike(xs: seq<Snapshot>, ys: seq<Snapshot>, cfg: Config, now: Calendar.DateTime, s: Snapshot)
    requires DistinctIds(xs) && DistinctIds(ys) && IdSet(xs) == IdSet(ys)
    requires (forall t :: t in xs <==> t in ys) && s in xs
    requires SelectPrunable(xs, cfg, now).Some? && SelectPrunable(ys, cfg, now).Some?
    ensures s.id in SelectPrunable(xs, cfg, now).value <==> s.id in SelectPrunable(ys, cfg, now).value
  {
    SameProtected(xs, ys, cfg);
    RetentionLaws.SelectedExactly(xs, cfg, now, s);
    RetentionLaws.SelectedExactly(ys, cfg, now, s);
  }

  lemma SameSnapshots(xs: seq<Snapshot>, ys: seq<Snapshot>, sids: set<string>, now: Calendar.DateTime, s: Snapshot)
    requires AreSnapshots(xs, sids, now) && AreSnapshots(ys, sids, now) && s in xs
    ensures s in ys
  {
    assert s.id in IdSet(ys);
  }

  lemma SameProtected(xs: seq<Snapshot>, ys: seq<Snapshot>, cfg: Config)
    requires forall s :: s in xs <==> s in ys
    ensures Protected(xs, cfg) == Protected(ys, cfg)
  {
    SameTier(xs, ys, cfg.tiers.daily, ByTier(Calendar.Daily));
    SameTier(xs, ys, cfg.tiers.weekly, ByTier(Calendar.Weekly));
    SameTier(xs, ys, cfg.tiers.monthly, ByTier(Calendar.Monthly));
    assert ProtectedLast(xs) == ProtectedLast(ys);
  }

  lemma SameTier(xs: seq<Snapshot>, ys: seq<Snapshot>, count: int, bucket: Grouping)
    requires forall s :: s in xs <==> s in ys
    ensures TierKeep(xs, count, bucket) == TierKeep(ys, count, bucket)
  {
    assert Buckets(xs, bucket) == Buckets(ys, bucket);
    forall s | s in xs
      ensures Newer(xs, bucket, bucket(s)) == Newer(ys, bucket, bucket(s))
      ensures IsNewestOfBucket(xs, bucket, s) <==> IsNewestOfBucket(ys, bucket, s)
    {
    }
  }

  /** The policy selects this one of those looked at. */
  ghost predicate IsSelectedIn(w: World, scope: Scope, place: Place, standIn: bool, cfg: Config,
                               now: Calendar.DateTime, sid: string) {
    exists snaps :: AreSnapshots(snaps, LookedAt(w, scope, place, standIn), now)
      && SelectPrunable(snaps, cfg, now).Some? && sid in SelectPrunable(snaps, cfg, now).value
  }

  /** From `u` to `w`, of the snapshots looked at just those selected are gone. */
  ghost predicate LeftExactly(u: World, w: World, scope: Scope, place: Place, standIn: bool, cfg: Config,
                              now: Calendar.DateTime) {
    forall sid :: sid in LookedAt(w, scope, place, standIn) <==>
      sid in LookedAt(u, scope, place, standIn) && !IsSelectedIn(u, scope, place, standIn, cfg, now, sid)
  }

  lemma SelectedAre(w: World, scope: Scope, place: Place, standIn: bool, cfg: Config, now: Calendar.DateTime,
                    snaps: seq<Snapshot>, picked: set<string>)
    requires AreSnapshots(snaps, LookedAt(w, scope, place, standIn), now)
    requires SelectPrunable(snaps, cfg, now) == Some(picked)
    ensures forall sid :: IsSelectedIn(w, scope, place, standIn, cfg, now, sid) <==> sid in picked
  {
    forall sid | IsSelectedIn(w, scope, place, standIn, cfg, now, sid) ensures sid in picked {
      var others :| AreSnapshots(others, LookedAt(w, scope, place, standIn), now)
        && SelectPrunable(others, cfg, now).Some? && sid in SelectPrunable(others, cfg, now).value;
      SelectionIgnoresOrder(others, snaps, LookedAt(w, scope, place, standIn), cfg, now);
    }
  }

  /** What is left of those looked at has nothing more to select. */
  lemma NothingMore(u: World, w: World, scope: Scope, place: Place, cfg: Config, now: Calendar.DateTime,
                    before: seq<Snapshot>, snaps: seq<Snapshot>, picked: set<string>)
    requires LeftExactly(u, w, scope, place, false, cfg, now)
    requires AreSnapshots(before, LookedAt(u, scope, place, false), now)
    requires AreSnapshots(snaps, LookedAt(w, scope, place, false), now)
    requires SelectPrunable(snaps, cfg, now) == Some(picked)
    ensures picked == {}
  {
    AgeIgnoresOrder(before, snaps, cfg.ageDays, now);
    var selected := SelectPrunable(before, cfg, now).value;
    SelectedAre(u, scope, place, false, cfg, now, before, selected);
    var rest := RetentionLaws.Without(before, selected);
    RetentionLaws.SelectionSettles(before, cfg, now);
    RetentionLaws.WithoutKeepsDistinct(before, selected);
    assert IdSet(rest) == LookedAt(w, scope, place, false) by {
      forall sid ensures sid in IdSet(rest) <==> sid in LookedAt(w, scope, place, false) {
        assert sid in IdSet(before) <==> sid in LookedAt(u, scope, place, false);
      }
    }
    SelectionIgnoresOrder(rest, snaps, LookedAt(w, scope, place, false), cfg, now);
  }
}
