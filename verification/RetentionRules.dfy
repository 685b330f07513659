/**
 What the policy promises for each snapshot, in the calendar's own terms: days, Monday-to-Sunday weeks and months, and
 ids as strings. Nothing here speaks of how the selection is put together.
 */
module RetentionRules {
  import opened Wrappers
  import opened Calendar
  import opened Retention
  import opened RetentionLaws
  import SnapshotIds
  import Order

  // ---- Calendar periods ----

  /** The day, the week counted from that of 1 January of year 1, or the month a time lies in. */
  function PeriodOf(tier: Tier, t: DateTime): int {
    match tier
    case Daily => Ordinal(t.date)
    case Weekly => WeekIndex(Ordinal(t.date))
    case Monthly => 12 * t.date.year + t.date.month
  }

  lemma PeriodsAreBuckets(tier: Tier, s: DateTime, t: DateTime)
    requires Valid(s) && Valid(t)
    ensures BucketOf(tier, s) == BucketOf(tier, t) <==> PeriodOf(tier, s) == PeriodOf(tier, t)
    ensures BucketBefore(BucketOf(tier, s), BucketOf(tier, t)) <==> PeriodOf(tier, s) < PeriodOf(tier, t)
  {
    match tier
    case Daily =>
      OrdinalOrder(s.date, t.date);
    case Weekly =>
      SameIsoWeek(s.date, t.date);
    case Monthly =>
  }

  /** No other snapshot of the period has a greater id. */
  predicate IsGreatestOfPeriod(snaps: seq<Snapshot>, tier: Tier, s: Snapshot) {
    forall t :: t in snaps && PeriodOf(tier, t.when) == PeriodOf(tier, s.when) ==> !Order.Less(s.id, t.id)
  }

  function Image<T, A>(xs: set<T>, f: T -> A): set<A> {
    set x | x in xs :: f(x)
  }

  function PeriodBy(tier: Tier): Snapshot -> int {
    (s: Snapshot) => PeriodOf(tier, s.when)
  }

  function LaterOnes(snaps: seq<Snapshot>, tier: Tier, s: Snapshot): set<Snapshot> {
    set t | t in snaps && PeriodOf(tier, t.when) > PeriodOf(tier, s.when)
  }

  /** The later periods that hold a snapshot. */
  function LaterPeriods(snaps: seq<Snapshot>, tier: Tier, s: Snapshot): set<int> {
    Image(LaterOnes(snaps, tier, s), PeriodBy(tier))
  }

  /** One of the `n` latest periods that hold a snapshot is this one's, and it has the greatest id there. */
  predicate IsTierKept(snaps: seq<Snapshot>, tier: Tier, n: int, s: Snapshot) {
    |LaterPeriods(snaps, tier, s)| < n && IsGreatestOfPeriod(snaps, tier, s)
  }

  ghost predicate HaveTimes(snaps: seq<Snapshot>) {
    forall s :: s in snaps ==> Valid(s.when)
  }

  /** The times retention reads off the ids are times of the calendar. */
  lemma TimesAreValid(snaps: seq<Snapshot>, now: DateTime)
    requires Valid(now) && forall s :: s in snaps ==> s.when == SnapshotTime(s.id, now)
    ensures HaveTimes(snaps)
  {
    forall s | s in snaps ensures Valid(s.when) {
      ParsedIsValid(s.id[..if |s.id| < SnapshotIds.STAMP_LENGTH then |s.id| else SnapshotIds.STAMP_LENGTH]);
    }
  }

  lemma ParsedIsValid(stamp: string)
    ensures SnapshotIds.ParseStamp(stamp).Some? ==> Valid(SnapshotIds.ParseStamp(stamp).value)
  {
  }

  // ---- As many periods as buckets ----

  /** Two ways to group the same things make as many groups. */
  lemma {:induction false} AsManyGroups<T(!new), A, B>(xs: set<T>, f: T -> A, g: T -> B)
    requires forall x, y :: x in xs && y in xs ==> (f(x) == f(y) <==> g(x) == g(y))
    ensures |Image(xs, f)| == |Image(xs, g)|
    decreases |xs|
  {
    if xs != {} {
      var x :| x in xs;
      var rest := xs - {x};
      AsManyGroups(rest, f, g);
      OneMoreOfImage(xs, f, x);
      OneMoreOfImage(xs, g, x);
      InImage(rest, f, g, x);
    }
  }

  lemma InImage<T(!new), A, B>(xs: set<T>, f: T -> A, g: T -> B, x: T)
    requires forall y :: y in xs ==> (f(x) == f(y) <==> g(x) == g(y))
    ensures f(x) in Image(xs, f) <==> g(x) in Image(xs, g)
  {
    if f(x) in Image(xs, f) {
      var y :| y in xs && f(y) == f(x);
      assert g(y) in Image(xs, g);
    }
    if g(x) in Image(xs, g) {
      var y :| y in xs && g(y) == g(x);
      assert f(y) in Image(xs, f);
    }
  }

  lemma OneMoreOfImage<T(!new), A>(xs: set<T>, f: T -> A, x: T)
    requires x in xs
    ensures Image(xs, f) == Image(xs - {x}, f) + {f(x)}
  {
  }

  lemma GroupedAlike(snaps: seq<Snapshot>, tier: Tier, s: Snapshot, t: Snapshot)
    requires HaveTimes(snaps) && s in snaps && t in snaps
    ensures ByTier(tier)(s) == ByTier(tier)(t) <==> PeriodBy(tier)(s) == PeriodBy(tier)(t)
    ensures BucketBefore(ByTier(tier)(s), ByTier(tier)(t)) <==> PeriodBy(tier)(s) < PeriodBy(tier)(t)
  {
    PeriodsAreBuckets(tier, s.when, t.when);
  }

  lemma AsManyPeriods(snaps: seq<Snapshot>, tier: Tier, s: Snapshot)
    requires HaveTimes(snaps) && s in snaps
    ensures |Newer(snaps, ByTier(tier), ByTier(tier)(s))| == |LaterPeriods(snaps, tier, s)|
  {
    var later := LaterOnes(snaps, tier, s);
    forall t, u | t in later && u in later
      ensures ByTier(tier)(t) == ByTier(tier)(u) <==> PeriodBy(tier)(t) == PeriodBy(tier)(u)
    {
      GroupedAlike(snaps, tier, t, u);
    }
    AsManyGroups(later, ByTier(tier), PeriodBy(tier));
    LaterBuckets(snaps, tier, s);
  }

  lemma LaterBuckets(snaps: seq<Snapshot>, tier: Tier, s: Snapshot)
    requires HaveTimes(snaps) && s in snaps
    ensures Newer(snaps, ByTier(tier), ByTier(tier)(s)) == Image(LaterOnes(snaps, tier, s), ByTier(tier))
  {
    var newer, later := Newer(snaps, ByTier(tier), ByTier(tier)(s)), LaterOnes(snaps, tier, s);
    forall b | b in newer ensures b in Image(later, ByTier(tier)) {
      var t :| t in snaps && ByTier(tier)(t) == b;
      GroupedAlike(snaps, tier, s, t);
      assert t in later;
    }
    forall t | t in later ensures ByTier(tier)(t) in newer {
      GroupedAlike(snaps, tier, s, t);
      assert ByTier(tier)(t) in Buckets(snaps, ByTier(tier));
    }
  }

  lemma GreatestOfBoth(snaps: seq<Snapshot>, tier: Tier, s: Snapshot)
    requires HaveTimes(snaps) && s in snaps
    ensures IsNewestOfBucket(snaps, ByTier(tier), s) <==> IsGreatestOfPeriod(snaps, tier, s)
  {
    forall t | t in snaps
      ensures ByTier(tier)(t) == ByTier(tier)(s) <==> PeriodOf(tier, t.when) == PeriodOf(tier, s.when)
    {
      GroupedAlike(snaps, tier, t, s);
    }
  }

  lemma KeptByTierExactly(snaps: seq<Snapshot>, tier: Tier, n: int, s: Snapshot)
    requires DistinctIds(snaps) && HaveTimes(snaps) && s in snaps
    ensures s.id in TierKeep(snaps, n, ByTier(tier)) <==> IsTierKept(snaps, tier, n, s)
  {
    AsManyPeriods(snaps, tier, s);
    GreatestOfBoth(snaps, tier, s);
    KeptMeans(snaps, n, ByTier(tier), s);
  }

  lemma KeptMeans(snaps: seq<Snapshot>, n: int, bucket: Grouping, s: Snapshot)
    requires DistinctIds(snaps) && s in snaps
    ensures s.id in TierKeep(snaps, n, bucket) <==>
      |Newer(snaps, bucket, bucket(s))| < n && IsNewestOfBucket(snaps, bucket, s)
  {
    if s.id in TierKeep(snaps, n, bucket) {
      var t :| t in snaps && t.id == s.id && |Newer(snaps, bucket, bucket(t))| < n
        && IsNewestOfBucket(snaps, bucket, t);
      SameId(snaps, s, t);
    }
  }

  // ---- The decision ----

  function NewerOnes(snaps: seq<Snapshot>, s: Snapshot): set<Snapshot> {
    set t | t in snaps && Order.Less(s.id, t.id)
  }

  /** At least `count` others have a greater id, or the snapshot is older than the age limit. */
  predicate IsDue(snaps: seq<Snapshot>, cfg: Config, now: DateTime, s: Snapshot) {
    || (cfg.count > 0 && |NewerOnes(snaps, s)| >= cfg.count)
    || (cfg.ageDays > 0 && Instant(s.when) < Instant(now) - cfg.ageDays * DAY)
  }

  /** A tier keeps it, or it is the last one and `smart_last` is on. */
  predicate IsSpared(snaps: seq<Snapshot>, cfg: Config, s: Snapshot) {
    || IsTierKept(snaps, Daily, cfg.tiers.daily, s)
    || IsTierKept(snaps, Weekly, cfg.tiers.weekly, s)
    || IsTierKept(snaps, Monthly, cfg.tiers.monthly, s)
    || (cfg.smartLast && NewerOnes(snaps, s) == {})
  }

  /** The policy gives an answer unless its age limit reaches before year 1. */
  lemma SelectsExactly(snaps: seq<Snapshot>, cfg: Config, now: DateTime)
    ensures SelectPrunable(snaps, cfg, now).Some? <==> cfg.ageDays <= 0 || Ordinal(now.date) - cfg.ageDays >= 1
  {
  }

  /** A snapshot is selected exactly if it is due and not spared. */
  lemma SelectedByTheRules(snaps: seq<Snapshot>, cfg: Config, now: DateTime, s: Snapshot)
    requires DistinctIds(snaps) && HaveTimes(snaps) && s in snaps && SelectPrunable(snaps, cfg, now).Some?
    ensures s.id in SelectPrunable(snaps, cfg, now).value <==>
      IsDue(snaps, cfg, now, s) && !IsSpared(snaps, cfg, s)
  {
    SelectedExactly(snaps, cfg, now, s);
    AsManyNewer(snaps, s);
    SparedExactly(snaps, cfg, s);
  }

  lemma SparedExactly(snaps: seq<Snapshot>, cfg: Config, s: Snapshot)
    requires DistinctIds(snaps) && HaveTimes(snaps) && s in snaps
    ensures s.id in Protected(snaps, cfg) <==> IsSpared(snaps, cfg, s)
  {
    KeptByTierExactly(snaps, Daily, cfg.tiers.daily, s);
    KeptByTierExactly(snaps, Weekly, cfg.tiers.weekly, s);
    KeptByTierExactly(snaps, Monthly, cfg.tiers.monthly, s);
    LastExactly(snaps, s);
  }

  function IdBy(): Snapshot -> string {
    (s: Snapshot) => s.id
  }

  function Itself(): Snapshot -> Snapshot {
    (s: Snapshot) => s
  }

  lemma IdsOf(snaps: seq<Snapshot>, s: Snapshot)
    ensures NewerIds(snaps, s.id) == Image(NewerOnes(snaps, s), IdBy())
  {
    var newer := NewerOnes(snaps, s);
    forall id | id in NewerIds(snaps, s.id) ensures id in Image(newer, IdBy()) {
      var t :| t in snaps && t.id == id;
      assert t in newer && IdBy()(t) == id;
    }
  }

  lemma Themselves(xs: set<Snapshot>)
    ensures Image(xs, Itself()) == xs
  {
    forall x | x in xs ensures x in Image(xs, Itself()) {
      assert Itself()(x) == x;
    }
  }

  lemma AsManyNewer(snaps: seq<Snapshot>, s: Snapshot)
    requires DistinctIds(snaps)
    ensures |NewerIds(snaps, s.id)| == |NewerOnes(snaps, s)|
  {
    var newer := NewerOnes(snaps, s);
    forall t, u | t in newer && u in newer && t.id == u.id ensures t == u {
      SameId(snaps, t, u);
    }
    AsManyGroups(newer, IdBy(), Itself());
    IdsOf(snaps, s);
    Themselves(newer);
  }

  lemma LastExactly(snaps: seq<Snapshot>, s: Snapshot)
    requires DistinctIds(snaps) && s in snaps
    ensures s.id in ProtectedLast(snaps) <==> NewerOnes(snaps, s) == {}
  {
    if s.id in ProtectedLast(snaps) {
      var t :| t in snaps && t.id == s.id && forall u | u in snaps :: !Order.Less(t.id, u.id);
    }
    if NewerOnes(snaps, s) == {} {
      forall t | t in snaps ensures !Order.Less(s.id, t.id) {
        assert t !in NewerOnes(snaps, s);
      }
    }
  }

  /** With `smart_last`, whatever the rest of the policy says, the snapshot with the greatest id stays. */
  lemma SomethingStays(snaps: seq<Snapshot>, cfg: Config, now: DateTime) returns (last: Snapshot)
    requires DistinctIds(snaps) && snaps != [] && cfg.smartLast && SelectPrunable(snaps, cfg, now).Some?
    ensures last in snaps && forall t :: t in snaps ==> t == last || Order.Less(t.id, last.id)
    ensures last.id !in SelectPrunable(snaps, cfg, now).value
  {
    var one: Grouping := (s: Snapshot) => Bucket(0, 0, 0);
    assert one(snaps[0]) in Buckets(snaps, one);
    last := NewestExists(snaps, one, Bucket(0, 0, 0));
    forall t | t in snaps ensures t == last || Order.Less(t.id, last.id) {
      assert one(t) == one(last);
      Order.LessTotal(t.id, last.id);
      if t.id == last.id {
        SameId(snaps, t, last);
      }
    }
    assert NewerOnes(snaps, last) == {};
    LastExactly(snaps, last);
  }

  function CountOf(tiers: Tiers, tier: Tier): int {
    match tier
    case Daily => tiers.daily
    case Weekly => tiers.weekly
    case Monthly => tiers.monthly
  }

  /** Each of the latest days, weeks and months that hold a snapshot, as many as the tier says, keeps its greatest. */
  lemma PeriodsKeepOne(snaps: seq<Snapshot>, cfg: Config, now: DateTime, tier: Tier, s: Snapshot)
    returns (kept: Snapshot)
    requires DistinctIds(snaps) && HaveTimes(snaps) && s in snaps && SelectPrunable(snaps, cfg, now).Some?
    requires |LaterPeriods(snaps, tier, s)| < CountOf(cfg.tiers, tier)
    ensures kept in snaps && PeriodOf(tier, kept.when) == PeriodOf(tier, s.when)
    ensures IsGreatestOfPeriod(snaps, tier, kept) && kept.id !in SelectPrunable(snaps, cfg, now).value
  {
    kept := GreatestOfPeriod(snaps, tier, s);
    assert LaterOnes(snaps, tier, kept) == LaterOnes(snaps, tier, s);
    KeptIsSpared(snaps, cfg, tier, kept);
    SelectedByTheRules(snaps, cfg, now, kept);
  }

  lemma KeptIsSpared(snaps: seq<Snapshot>, cfg: Config, tier: Tier, s: Snapshot)
    requires IsTierKept(snaps, tier, CountOf(cfg.tiers, tier), s)
    ensures IsSpared(snaps, cfg, s)
  {
  }

  lemma GreatestOfPeriod(snaps: seq<Snapshot>, tier: Tier, s: Snapshot) returns (r: Snapshot)
    requires HaveTimes(snaps) && s in snaps
    ensures r in snaps && PeriodOf(tier, r.when) == PeriodOf(tier, s.when) && IsGreatestOfPeriod(snaps, tier, r)
  {
    assert ByTier(tier)(s) in Buckets(snaps, ByTier(tier));
    r := NewestExists(snaps, ByTier(tier), ByTier(tier)(s));
    GroupedAlike(snaps, tier, r, s);
    GreatestOfBoth(snaps, tier, r);
  }
}
