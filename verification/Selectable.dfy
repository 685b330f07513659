/** What the retention policy of a job may select, given which snapshots can lie beside one another. */
module Selectable {
  import opened Wrappers
  import opened Calendar
  import opened Retention
  import opened SnapshotIds
  import opened Choices
  import RetentionLaws
  import Order

  ghost predicate AllIn(ids: set<string>, pool: iset<string>) {
    forall id :: id in ids ==> id in pool
  }

  /** Among some snapshots of the pool, at some time, the policy selects this one. */
  ghost predicate MayBeSelected(cfg: Config, sid: string, pool: iset<string>) {
    exists snaps, now, sids :: Selects(cfg, snaps, IdSet(snaps), now, sids) && sid in sids && AllIn(IdSet(snaps), pool)
  }

  lemma MoreMayBeSelected(cfg: Config, sid: string, pool: iset<string>, more: iset<string>)
    requires MayBeSelected(cfg, sid, pool) && pool <= more
    ensures MayBeSelected(cfg, sid, more)
  {
    var snaps, now, sids :|
      Selects(cfg, snaps, IdSet(snaps), now, sids) && sid in sids && AllIn(IdSet(snaps), pool);
    assert AllIn(IdSet(snaps), more);
  }

  lemma {:induction false} SnapshotsOfIds(sids: set<string>, now: DateTime) returns (snaps: seq<Snapshot>)
    ensures AreSnapshots(snaps, sids, now)
    decreases |sids|
  {
    snaps := [];
    if sids != {} {
      var sid :| sid in sids;
      snaps := SnapshotsOfIds(sids - {sid}, now);
      OneMoreSnapshot(snaps, sids - {sid}, sid, now);
      snaps := snaps + [Snapshot(sid, RetentionLaws.SnapshotTime(sid, now))];
      assert sids - {sid} + {sid} == sids;
    }
  }

  /** Beside more snapshots, what was selected still is. */
  lemma SelectedAmongMore(cfg: Config, snaps: seq<Snapshot>, now: DateTime, sids: set<string>, looked: set<string>)
    returns (all: seq<Snapshot>, more: set<string>)
    requires Selects(cfg, snaps, IdSet(snaps), now, sids) && IdSet(snaps) <= looked
    ensures Selects(cfg, all, looked, now, more) && sids <= more
  {
    all := SnapshotsOfIds(looked, now);
    forall s | s in snaps ensures s in all {
      assert s.id in IdSet(snaps);
      assert s.id in IdSet(all);
    }
    RetentionLaws.SelectionGrows(snaps, all, cfg, now);
    more := SelectPrunable(all, cfg, now).value;
  }

  // ---- When the policy can select a snapshot at all ----

  /** Prunes by count or by age. */
  predicate IsOn(cfg: Config) {
    cfg.count > 0 || cfg.ageDays > 0
  }

  lemma OffSelectsNothing(cfg: Config, sid: string, pool: iset<string>)
    requires !IsOn(cfg)
    ensures !MayBeSelected(cfg, sid, pool)
  {
    forall snaps: seq<Snapshot>, now, sids | Selects(cfg, snaps, IdSet(snaps), now, sids) ensures sid !in sids {
      if sid in sids {
        var s :| s in snaps && s.id == sid;
        RetentionLaws.SelectedExactly(snaps, cfg, now, s);
      }
    }
  }

  /** Each of these is newer than those before it, by name and in every tier. */
  ghost predicate Climbing(snaps: seq<Snapshot>) {
    forall i, j :: 0 <= i < j < |snaps| ==> IsAbove(snaps[i], snaps[j])
  }

  predicate IsAbove(s: Snapshot, t: Snapshot) {
    Order.Less(s.id, t.id) && forall tier: Tier :: BucketBefore(BucketOf(tier, s.when), BucketOf(tier, t.when))
  }

  lemma ClimbingIsDistinct(snaps: seq<Snapshot>)
    requires Climbing(snaps)
    ensures DistinctIds(snaps)
  {
    forall i, j | 0 <= i < j < |snaps| ensures Ids(snaps)[i] != Ids(snaps)[j] {
      assert IsAbove(snaps[i], snaps[j]);
      Order.LessIrreflexive(snaps[i].id);
    }
  }

  /** With as many newer ones as the policy keeps, the first is selected. */
  lemma FirstIsSelected(snaps: seq<Snapshot>, cfg: Config, now: DateTime)
    requires Climbing(snaps) && |snaps| > 1 && SelectPrunable(snaps, cfg, now).Some?
    requires cfg.tiers.daily < |snaps| && cfg.tiers.weekly < |snaps| && cfg.tiers.monthly < |snaps|
    requires 0 < cfg.count < |snaps| || RetentionLaws.Expired(snaps[0], cfg, now)
    ensures snaps[0].id in SelectPrunable(snaps, cfg, now).value
  {
    ClimbingIsDistinct(snaps);
    assert snaps[0] in snaps;
    AllAreNewer(snaps);
    FirstIsUnprotected(snaps, cfg);
    RetentionLaws.SelectedExactly(snaps, cfg, now, snaps[0]);
  }

  lemma FirstIsUnprotected(snaps: seq<Snapshot>, cfg: Config)
    requires Climbing(snaps) && |snaps| > 1
    requires cfg.tiers.daily < |snaps| && cfg.tiers.weekly < |snaps| && cfg.tiers.monthly < |snaps|
    ensures snaps[0].id !in Protected(snaps, cfg)
  {
    NotKept(snaps, cfg.tiers.daily, Daily);
    NotKept(snaps, cfg.tiers.weekly, Weekly);
    NotKept(snaps, cfg.tiers.monthly, Monthly);
    FirstIsNotLast(snaps, snaps[0], snaps[1]);
  }

  lemma FirstIsNotLast(snaps: seq<Snapshot>, s: Snapshot, t: Snapshot)
    requires Climbing(snaps) && |snaps| > 1 && s == snaps[0] && t == snaps[1]
    ensures s.id !in ProtectedLast(snaps)
  {
    assert IsAbove(s, t) && t in snaps;
  }

  lemma AllAreNewer(snaps: seq<Snapshot>)
    requires Climbing(snaps) && snaps != []
    ensures |RetentionLaws.NewerIds(snaps, snaps[0].id)| >= |snaps| - 1
  {
    ClimbingIsDistinct(snaps);
    var ids := Ids(snaps)[1..];
    Order.DistinctCount(ids);
    forall id | id in Order.Elements(ids) ensures id in RetentionLaws.NewerIds(snaps, snaps[0].id) {
      var k :| 0 <= k < |ids| && ids[k] == id;
      assert IsAbove(snaps[0], snaps[k + 1]) && snaps[k + 1] in snaps;
    }
    RetentionLaws.SubsetSize(Order.Elements(ids), RetentionLaws.NewerIds(snaps, snaps[0].id));
  }

  lemma NotKept(snaps: seq<Snapshot>, count: int, tier: Tier)
    requires Climbing(snaps) && snaps != [] && count < |snaps|
    ensures snaps[0].id !in TierKeep(snaps, count, ByTier(tier))
  {
    ClimbingIsDistinct(snaps);
    AllAreAbove(snaps, tier);
    forall s | s in snaps && s.id == snaps[0].id ensures s == snaps[0] {
      RetentionLaws.SameId(snaps, s, snaps[0]);
    }
  }

  lemma AllAreAbove(snaps: seq<Snapshot>, tier: Tier)
    requires Climbing(snaps) && snaps != []
    ensures |Newer(snaps, ByTier(tier), ByTier(tier)(snaps[0]))| >= |snaps| - 1
  {
    var bucket := ByTier(tier);
    var buckets := seq(|snaps| - 1, k requires 0 <= k < |snaps| - 1 => bucket(snaps[k + 1]));
    BucketOrder();
    forall i, j | 0 <= i < j < |buckets| ensures buckets[i] != buckets[j] {
      assert IsAbove(snaps[i + 1], snaps[j + 1]);
    }
    Order.DistinctCount(buckets);
    forall b | b in Order.Elements(buckets) ensures b in Newer(snaps, bucket, bucket(snaps[0])) {
      var k :| 0 <= k < |buckets| && buckets[k] == b;
      assert IsAbove(snaps[0], snaps[k + 1]) && snaps[k + 1] in snaps;
      assert b in Buckets(snaps, bucket);
    }
    RetentionLaws.SubsetSize(Order.Elements(buckets), Newer(snaps, bucket, bucket(snaps[0])));
  }

  // ---- Engine ids: a snapshot a month pushes any older one out ----

  /** The months after year `y`. */
  function Months(y: int): int {
    12 * (MAX_YEAR - y)
  }

  /** The policy keeps no more than a snapshot for each of those months, and reaches back less than those years. */
  predicate HasRoom(cfg: Config, y: int) {
    && MIN_YEAR <= y < MAX_YEAR && cfg.count <= Months(y) && cfg.ageDays < 365 * (MAX_YEAR - y)
    && cfg.tiers.daily <= Months(y) && cfg.tiers.weekly <= Months(y) && cfg.tiers.monthly <= Months(y)
  }

  predicate MonthBefore(a: Date, b: Date) {
    a.year < b.year || (a.year == b.year && a.month < b.month)
  }

  /** In a later month, and a week later at least. */
  predicate Earlier(s: DateTime, t: DateTime) {
    MonthBefore(s.date, t.date) && Ordinal(s.date) + 7 <= Ordinal(t.date)
  }

  lemma LaterMonth(s: DateTime, t: DateTime)
    requires Valid(s) && Valid(t) && Earlier(s, t)
    ensures Instant(s) < Instant(t)
    ensures forall tier: Tier :: BucketBefore(BucketOf(tier, s), BucketOf(tier, t))
  {
    LaterWeek(s.date, t.date);
    LaterDay(Ordinal(s.date), s.micros, Ordinal(t.date), t.micros);
    forall tier: Tier ensures BucketBefore(BucketOf(tier, s), BucketOf(tier, t)) {
      match tier
      case Daily =>
      case Weekly =>
      case Monthly =>
    }
  }

  lemma LaterDay(a: int, x: int, b: int, y: int)
    requires a < b && 0 <= x < DAY && 0 <= y < DAY
    ensures a * DAY + x < b * DAY + y
  {
  }

  lemma LaterWeek(a: Date, b: Date)
    requires ValidDate(a) && ValidDate(b) && Ordinal(a) + 7 <= Ordinal(b)
    ensures BucketBefore(IsoWeek(a), IsoWeek(b))
  {
    SameIsoWeek(a, b);
  }

  lemma NextMonth(s: DateTime, t: DateTime)
    requires Valid(s) && Valid(t) && MonthBefore(s.date, t.date) && t.date.day == 15
    requires s.date.day <= 15 || s.date.year < t.date.year
    ensures Earlier(s, t)
  {
    if s.date.year < t.date.year {
      OrdinalOrder(s.date, t.date.(day := 8));
    } else {
      OrdinalOrder(s.date.(day := 22), t.date);
    }
  }

  /** The first, and the 15th of each of the `n` months after year `y`. */
  ghost predicate AreMonthly(times: seq<DateTime>, y: int, n: nat) {
    && |times| == n + 1 && Valid(times[0]) && times[0].date.year <= y
    && (forall i :: 0 < i <= n ==> IsMonthAfter(times[i], y, i))
    && (forall i, j :: 0 <= i < j <= n ==> Earlier(times[i], times[j]))
  }

  predicate IsMonthAfter(t: DateTime, y: int, i: int) {
    Valid(t) && t.date.year > y && 12 * (t.date.year - y - 1) + t.date.month == i && t.date.day == 15
  }

  lemma OneMoreMonth(times: seq<DateTime>, y: int, n: nat, next: DateTime)
    requires AreMonthly(times, y, n) && IsMonthAfter(next, y, n + 1) && Earlier(times[n], next)
    ensures AreMonthly(times + [next], y, n + 1)
  {
    var more := times + [next];
    forall i, j | 0 <= i < j <= n + 1 ensures Earlier(more[i], more[j]) {
      if i < n && j == n + 1 {
        assert Earlier(times[i], times[n]);
      } else if j <= n {
        assert Earlier(times[i], times[j]);
      }
    }
  }

  function FollowingMonth(last: DateTime, y: int, n: nat): DateTime {
    var date := if n == 0 then Date(y + 1, 1, 15)
                else if last.date.month == 12 then Date(last.date.year + 1, 1, 15)
                else Date(last.date.year, last.date.month + 1, 15);
    DateTime(date, 0)
  }

  lemma FollowingIsNext(last: DateTime, y: int, n: nat)
    requires Valid(last) && n < Months(y) && y >= MIN_YEAR
    requires if n == 0 then last.date.year <= y else IsMonthAfter(last, y, n)
    ensures IsMonthAfter(FollowingMonth(last, y, n), y, n + 1) && Earlier(last, FollowingMonth(last, y, n))
  {
    NextMonth(last, FollowingMonth(last, y, n));
  }

  lemma {:induction false} MonthlyTimes(t: DateTime, y: int, n: nat) returns (times: seq<DateTime>)
    requires Valid(t) && t.date.year <= y && n <= Months(y)
    ensures AreMonthly(times, y, n) && times[0] == t
  {
    times := [t];
    if n > 0 {
      times := MonthlyTimes(t, y, n - 1);
      FollowingIsNext(times[n - 1], y, n - 1);
      OneMoreMonth(times, y, n - 1, FollowingMonth(times[n - 1], y, n - 1));
      times := times + [FollowingMonth(times[n - 1], y, n - 1)];
    }
  }

  /** A snapshot as its id tells it. */
  function Taken(t: DateTime, job: Option<string>): Snapshot
    requires Valid(t)
  {
    Snapshot(NewSnapshotId(t, job), WholeSecond(t))
  }

  lemma LaterIsAbove(s: DateTime, j: Option<string>, t: DateTime, k: Option<string>, x: Snapshot, y: Snapshot)
    requires Valid(s) && Valid(t) && Earlier(s, t) && x == Taken(s, j) && y == Taken(t, k)
    ensures IsAbove(x, y)
  {
    LaterMonth(WholeSecond(s), WholeSecond(t));
    IdOrderIsTimeOrder(s, j, t, k);
  }

  /** The plain snapshot taken first, and the job's own taken later. */
  ghost predicate AreTaken(times: seq<DateTime>, job: string, snaps: seq<Snapshot>) {
    && |snaps| == |times| > 0
    && forall i :: 0 <= i < |times| ==> IsTaken(times[i], if i == 0 then None else Some(job), snaps[i])
  }

  predicate IsTaken(t: DateTime, job: Option<string>, s: Snapshot) {
    Valid(t) && s == Taken(t, job)
  }

  lemma TakenClimb(times: seq<DateTime>, y: int, n: nat, job: string, snaps: seq<Snapshot>)
    requires AreMonthly(times, y, n) && AreTaken(times, job, snaps)
    ensures Climbing(snaps)
  {
    forall i, j | 0 <= i < j < |snaps| ensures IsAbove(snaps[i], snaps[j]) {
      assert IsTaken(times[i], if i == 0 then None else Some(job), snaps[i]);
      assert IsTaken(times[j], Some(job), snaps[j]);
      LaterIsAbove(times[i], if i == 0 then None else Some(job), times[j], Some(job), snaps[i], snaps[j]);
    }
  }

  const LAST_DAY := DateTime(Date(MAX_YEAR, 12, 31), 0)

  lemma LongAgo(t: DateTime, y: int, days: int)
    requires Valid(t) && t.date.year <= y < MAX_YEAR && days < 365 * (MAX_YEAR - y)
    ensures Ordinal(LAST_DAY.date) - days >= 1 && Instant(t) < Instant(LAST_DAY) - days * DAY
  {
    DaysLeft(t.date, y);
    EarlierByDays(Ordinal(t.date), t.micros, Ordinal(LAST_DAY.date), days);
  }

  lemma EarlierByDays(a: int, micros: int, b: int, days: int)
    requires a + days + 1 <= b && 0 <= micros < DAY
    ensures a * DAY + micros < b * DAY - days * DAY
  {
  }

  lemma DaysLeft(d: Date, y: int)
    requires ValidDate(d) && d.year <= y < MAX_YEAR
    ensures Ordinal(d) >= 1 && Ordinal(d) + 365 * (MAX_YEAR - y) <= Ordinal(LAST_DAY.date)
  {
    LastDay();
    OrdinalWithinYear(d);
    YearsGrow(d.year + 1, y + 1);
    YearsGrow(y + 1, MAX_YEAR + 1);
    YearsGrow(1, d.year);
  }

  lemma LastDay()
    ensures Ordinal(LAST_DAY.date) == DaysBeforeYear(MAX_YEAR + 1)
  {
    MonthTable(MAX_YEAR);
    YearLength(MAX_YEAR);
  }

  lemma TakenTellTimes(t: DateTime, job: Option<string>, s: Snapshot)
    requires IsTaken(t, job, s)
    ensures forall now :: RetentionLaws.SnapshotTime(s.id, now) == s.when
  {
    ParseUndoesNew(t, job);
  }

  lemma TakenAreIn(times: seq<DateTime>, y: int, n: nat, job: string, snaps: seq<Snapshot>, pool: iset<string>,
                   now: DateTime)
    requires AreMonthly(times, y, n) && AreTaken(times, job, snaps) && NewSnapshotId(times[0], None) in pool
    requires forall t :: Valid(t) && t.date.year > y ==> NewSnapshotId(t, Some(job)) in pool
    ensures AllIn(IdSet(snaps), pool) && forall s :: s in snaps ==> s.when == RetentionLaws.SnapshotTime(s.id, now)
  {
    forall i | 0 <= i < |snaps|
      ensures snaps[i].id in pool && snaps[i].when == RetentionLaws.SnapshotTime(snaps[i].id, now)
    {
      var k := if i == 0 then None else Some(job);
      assert IsTaken(times[i], k, snaps[i]);
      TakenTellTimes(times[i], k, snaps[i]);
      assert i > 0 ==> IsMonthAfter(times[i], y, i);
    }
  }

  /**
   A plain engine id of year `y` or earlier may be selected exactly if the policy prunes at all, where the job may
   have taken snapshots at any time in later years.
   */
  lemma EngineIdMayBeSelectedExactly(cfg: Config, t: DateTime, y: int, job: string, pool: iset<string>)
    requires Valid(t) && t.date.year <= y && HasRoom(cfg, y) && NewSnapshotId(t, None) in pool
    requires forall u :: Valid(u) && u.date.year > y ==> NewSnapshotId(u, Some(job)) in pool
    ensures MayBeSelected(cfg, NewSnapshotId(t, None), pool) <==> IsOn(cfg)
  {
    if IsOn(cfg) {
      var times := MonthlyTimes(t, y, Months(y));
      var snaps := TakenAt(times, job);
      TakenClimb(times, y, Months(y), job, snaps);
      ClimbingIsDistinct(snaps);
      TakenAreIn(times, y, Months(y), job, snaps, pool, LAST_DAY);
      LongAgo(t, y, if cfg.ageDays > 0 then cfg.ageDays else 0);
      assert IsTaken(times[0], None, snaps[0]);
      FirstIsSelectedAtLast(snaps, cfg, t);
      assert Selects(cfg, snaps, IdSet(snaps), LAST_DAY, SelectPrunable(snaps, cfg, LAST_DAY).value);
    } else {
      OffSelectsNothing(cfg, NewSnapshotId(t, None), pool);
    }
  }

  lemma TakenAt(times: seq<DateTime>, job: string) returns (snaps: seq<Snapshot>)
    requires times != [] && forall i :: 0 <= i < |times| ==> Valid(times[i])
    ensures AreTaken(times, job, snaps)
  {
    snaps := seq(|times|, i requires 0 <= i < |times| => Taken(times[i], if i == 0 then None else Some(job)));
  }

  lemma FirstIsSelectedAtLast(snaps: seq<Snapshot>, cfg: Config, t: DateTime)
    requires Climbing(snaps) && |snaps| > 1 && IsOn(cfg) && snaps[0].when == WholeSecond(t) && Valid(t)
    requires cfg.tiers.daily < |snaps| && cfg.tiers.weekly < |snaps| && cfg.tiers.monthly < |snaps|
    requires cfg.count < |snaps|
    requires cfg.ageDays > 0 ==>
      Ordinal(LAST_DAY.date) - cfg.ageDays >= 1 && Instant(t) < Instant(LAST_DAY) - cfg.ageDays * DAY
    ensures SelectPrunable(snaps, cfg, LAST_DAY).Some?
    ensures snaps[0].id in SelectPrunable(snaps, cfg, LAST_DAY).value
  {
    assert Instant(WholeSecond(t)) <= Instant(t);
    FirstIsSelected(snaps, cfg, LAST_DAY);
  }
}
