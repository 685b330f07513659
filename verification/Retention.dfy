/** Retention: which of a job's snapshots to prune. Count, age, tier and last-backup rules and their composition. */
module Retention {
  import opened Wrappers
  import opened Calendar
  import Order

  datatype Snapshot = Snapshot(id: string, when: DateTime)

  datatype Tiers = Tiers(daily: int, weekly: int, monthly: int)

  datatype Config = Config(count: int, ageDays: int, tiers: Tiers, smartLast: bool)

  function Ids(snaps: seq<Snapshot>): (r: seq<string>)
    ensures |r| == |snaps|
    ensures forall i :: 0 <= i < |snaps| ==> r[i] == snaps[i].id
    ensures forall s :: s in snaps ==> s.id in r
  {
    seq(|snaps|, i requires 0 <= i < |snaps| => snaps[i].id)
  }

  function IdSet(snaps: seq<Snapshot>): set<string> {
    set s | s in snaps :: s.id
  }

  ghost predicate DistinctIds(snaps: seq<Snapshot>) {
    Order.Distinct(Ids(snaps))
  }

  // ---- The rules ----

  /** `count.select_prunable`: all but the newest `keep` by id. */
  function CountPrunable(snaps: seq<Snapshot>, keep: int): set<string> {
    if keep <= 0 || keep >= |snaps| then {}
    else set id | id in Order.Descending(Ids(snaps), Order.Less)[keep..]
  }

  /** `age.select_prunable`; None where the cutoff would lie before year 1, which raises OverflowError. */
  function AgePrunable(snaps: seq<Snapshot>, maxAgeDays: int, now: DateTime): Option<set<string>> {
    if maxAgeDays <= 0 then Some({})
    else if Ordinal(now.date) - maxAgeDays < 1 then None
    else Some(set s | s in snaps && Instant(s.when) < Instant(now) - maxAgeDays * DAY :: s.id)
  }

  /** `smart.protected_last`: the greatest id. */
  function ProtectedLast(snaps: seq<Snapshot>): set<string> {
    set s | s in snaps && (forall t | t in snaps :: !Order.Less(s.id, t.id)) :: s.id
  }

  /** How a tier groups snapshots. */
  type Grouping = Snapshot -> Bucket

  function ByTier(tier: Tier): Grouping {
    (s: Snapshot) => BucketOf(tier, s.when)
  }

  function Buckets(snaps: seq<Snapshot>, bucket: Grouping): set<Bucket> {
    set s | s in snaps :: bucket(s)
  }

  /** The buckets after `b` that hold a snapshot. */
  function Newer(snaps: seq<Snapshot>, bucket: Grouping, b: Bucket): set<Bucket> {
    set c | c in Buckets(snaps, bucket) && BucketBefore(b, c)
  }

  predicate IsNewestOfBucket(snaps: seq<Snapshot>, bucket: Grouping, s: Snapshot) {
    forall t | t in snaps && bucket(t) == bucket(s) :: !Order.Less(s.id, t.id)
  }

  /** One tier keeps the greatest id of each of the newest `count` buckets. */
  function TierKeep(snaps: seq<Snapshot>, count: int, bucket: Grouping): set<string> {
    set s | s in snaps && |Newer(snaps, bucket, bucket(s))| < count && IsNewestOfBucket(snaps, bucket, s) :: s.id
  }

  function TiersKeep(snaps: seq<Snapshot>, tiers: Tiers): set<string> {
    TierKeep(snaps, tiers.daily, ByTier(Daily)) + TierKeep(snaps, tiers.weekly, ByTier(Weekly))
    + TierKeep(snaps, tiers.monthly, ByTier(Monthly))
  }

  function Protected(snaps: seq<Snapshot>, cfg: Config): set<string> {
    TiersKeep(snaps, cfg.tiers) + (if cfg.smartLast then ProtectedLast(snaps) else {})
  }

  /** `manager.select_prunable` */
  function SelectPrunable(snaps: seq<Snapshot>, cfg: Config, now: DateTime): (r: Option<set<string>>)
    ensures r.Some? ==> r.value <= IdSet(snaps)
  {
    var aged :- AgePrunable(snaps, cfg.ageDays, now);
    CountPrunableAreIds(snaps, cfg.count);
    Some(CountPrunable(snaps, cfg.count) + aged - Protected(snaps, cfg))
  }

  lemma CountPrunableAreIds(snaps: seq<Snapshot>, keep: int)
    ensures CountPrunable(snaps, keep) <= IdSet(snaps)
  {
    var ids := Ids(snaps);
    var sorted := Order.Descending(ids, Order.Less);
    forall i | 0 <= i < |sorted| ensures sorted[i] in IdSet(snaps) {
      assert sorted[i] in multiset(sorted);
      assert sorted[i] in multiset(ids);
      var k :| 0 <= k < |ids| && ids[k] == sorted[i];
      assert snaps[k] in snaps;
    }
  }

  // ---- The tier loop ----

  /** What the dict `newest_in_bucket` holds once the snapshots `seen` went through the loop. */
  ghost predicate HoldsNewest(seen: seq<Snapshot>, bucket: Grouping, newest: map<Bucket, Snapshot>) {
    && newest.Keys == Buckets(seen, bucket)
    && (forall b :: b in newest ==>
          newest[b] in seen && bucket(newest[b]) == b && IsNewestOfBucket(seen, bucket, newest[b]))
  }

  /** `gfs._keep_for_tier`; `order` is the insertion order of the dict `newest`. */
  method KeepForTier(snaps: seq<Snapshot>, count: int, bucket: Grouping) returns (kept: set<string>)
    ensures kept == TierKeep(snaps, count, bucket)
  {
    if count <= 0 {
      return {};
    }
    var newest: map<Bucket, Snapshot> := map[];
    var order: seq<Bucket> := [];
    for i := 0 to |snaps|
      invariant HoldsNewest(snaps[..i], bucket, newest)
      invariant newest.Keys == Order.Elements(order) && Order.Distinct(order)
    {
      var snap := snaps[i];
      var key := bucket(snap);
      assert snaps[..i + 1] == snaps[..i] + [snap];
      if key !in newest {
        FirstOfBucket(snaps[..i], bucket, newest, snap);
        newest := newest[key := snap];
        order := order + [key];
      } else if Order.Less(newest[key].id, snap.id) {
        NewerOfBucket(snaps[..i], bucket, newest, snap);
        newest := newest[key := snap];
      } else {
        OlderOfBucket(snaps[..i], bucket, newest, snap);
      }
    }
    assert snaps[..|snaps|] == snaps;
    var n := if count < |order| then count else |order|;
    var keptBuckets := Order.Descending(order, BucketBefore)[..n];
    kept := set b | b in keptBuckets && b in newest :: newest[b].id;
    forall b | b in newest ensures b in keptBuckets <==> |Newer(snaps, bucket, b)| < count {
      TopBucket(snaps, count, bucket, order, b);
    }
    KeptAreTierKeep(snaps, count, bucket, newest, keptBuckets);
  }

  lemma BucketsGrowByOne(seen: seq<Snapshot>, bucket: Grouping, snap: Snapshot)
    ensures Buckets(seen + [snap], bucket) == Buckets(seen, bucket) + {bucket(snap)}
  {
    assert forall t :: t in seen + [snap] <==> t in seen || t == snap;
  }

  lemma FirstOfBucket(seen: seq<Snapshot>, bucket: Grouping, newest: map<Bucket, Snapshot>, snap: Snapshot)
    requires HoldsNewest(seen, bucket, newest) && bucket(snap) !in newest
    ensures HoldsNewest(seen + [snap], bucket, newest[bucket(snap) := snap])
  {
    BucketsGrowByOne(seen, bucket, snap);
    Order.LessIrreflexive(snap.id);
    forall t | t in seen ensures bucket(t) != bucket(snap) {
      assert bucket(t) in Buckets(seen, bucket);
    }
  }

  lemma NewerOfBucket(seen: seq<Snapshot>, bucket: Grouping, newest: map<Bucket, Snapshot>, snap: Snapshot)
    requires HoldsNewest(seen, bucket, newest)
    requires bucket(snap) in newest && Order.Less(newest[bucket(snap)].id, snap.id)
    ensures HoldsNewest(seen + [snap], bucket, newest[bucket(snap) := snap])
  {
    BucketsGrowByOne(seen, bucket, snap);
    Order.LessIrreflexive(snap.id);
    var current := newest[bucket(snap)];
    forall t | t in seen && bucket(t) == bucket(snap) ensures !Order.Less(snap.id, t.id) {
      assert !Order.Less(current.id, t.id);
      if Order.Less(snap.id, t.id) {
        Order.LessTransitive(current.id, snap.id, t.id);
      }
    }
  }

  lemma OlderOfBucket(seen: seq<Snapshot>, bucket: Grouping, newest: map<Bucket, Snapshot>, snap: Snapshot)
    requires HoldsNewest(seen, bucket, newest)
    requires bucket(snap) in newest && !Order.Less(newest[bucket(snap)].id, snap.id)
    ensures HoldsNewest(seen + [snap], bucket, newest)
  {
    BucketsGrowByOne(seen, bucket, snap);
  }

  lemma BucketsStrictTotal()
    ensures Order.StrictTotal(BucketBefore)
  {
    BucketOrder();
  }

  /** The buckets the sort puts first are those that fewer than `count` others come after. */
  lemma TopBucket(snaps: seq<Snapshot>, count: int, bucket: Grouping, order: seq<Bucket>, b: Bucket)
    requires count > 0 && Order.Distinct(order)
    requires Buckets(snaps, bucket) == Order.Elements(order) && b in order
    ensures var n := if count < |order| then count else |order|;
      b in Order.Descending(order, BucketBefore)[..n] <==> |Newer(snaps, bucket, b)| < count
  {
    BucketsStrictTotal();
    Order.DescendingFirst(order, BucketBefore, count, b);
    assert Newer(snaps, bucket, b) == Order.Above(Order.Elements(order), b, BucketBefore);
  }

  /** Each bucket has one greatest id. */
  lemma KeptAreTierKeep(snaps: seq<Snapshot>, count: int, bucket: Grouping, newest: map<Bucket, Snapshot>,
                        keptBuckets: seq<Bucket>)
    requires HoldsNewest(snaps, bucket, newest)
    requires forall b :: b in newest ==> (b in keptBuckets <==> |Newer(snaps, bucket, b)| < count)
    ensures (set b | b in keptBuckets && b in newest :: newest[b].id) == TierKeep(snaps, count, bucket)
  {
    var kept := set b | b in keptBuckets && b in newest :: newest[b].id;
    forall s | s in snaps && |Newer(snaps, bucket, bucket(s))| < count && IsNewestOfBucket(snaps, bucket, s)
      ensures s.id in kept
    {
      var b := bucket(s);
      assert b in Buckets(snaps, bucket);
      Order.LessTotal(s.id, newest[b].id);
      assert newest[b].id == s.id;
    }
    forall b | b in keptBuckets && b in newest ensures newest[b].id in TierKeep(snaps, count, bucket) {
      assert bucket(newest[b]) == b;
    }
  }

  /** `gfs.select_keep` */
  method SelectKeep(snaps: seq<Snapshot>, tiers: Tiers) returns (keep: set<string>)
    ensures keep == TiersKeep(snaps, tiers)
  {
    keep := {};
    var tier := KeepForTier(snaps, tiers.daily, ByTier(Daily));
    keep := keep + tier;
    tier := KeepForTier(snaps, tiers.weekly, ByTier(Weekly));
    keep := keep + tier;
    tier := KeepForTier(snaps, tiers.monthly, ByTier(Monthly));
    keep := keep + tier;
  }
}
