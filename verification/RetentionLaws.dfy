/** What the retention decision guarantees: exact ranks, sizes, and that deleting in part and selecting again agree. */
module RetentionLaws {
  import opened Wrappers
  import opened Calendar
  import opened Retention
  import opened SnapshotIds
  import Order

  // ---- Count and last: ranks by id ----

  ghost function NewerIds(snaps: seq<Snapshot>, id: string): set<string> {
    Order.Above(IdSet(snaps), id, Order.Less)
  }

  lemma IdsAreIdSet(snaps: seq<Snapshot>)
    ensures Order.Elements(Ids(snaps)) == IdSet(snaps)
  {
    forall id | id in Ids(snaps) ensures id in IdSet(snaps) {
      var i :| 0 <= i < |snaps| && Ids(snaps)[i] == id;
      assert snaps[i] in snaps;
    }
  }

  /** `count` prunes exactly the snapshots that at least `keep` newer ids exceed, and never anything for `keep <= 0`. */
  lemma CountPrunesByRank(snaps: seq<Snapshot>, keep: int, id: string)
    requires DistinctIds(snaps) && id in IdSet(snaps)
    ensures id in CountPrunable(snaps, keep) <==> keep > 0 && |NewerIds(snaps, id)| >= keep
  {
    Order.LessIsStrictTotal();
    IdsAreIdSet(snaps);
    assert id in Ids(snaps);
    Order.DistinctCount(Ids(snaps));
    if 0 < keep < |snaps| {
      Order.DescendingTop(Ids(snaps), Order.Less, keep, id);
    } else if keep > 0 {
      assert id !in NewerIds(snaps, id);
      Order.ProperSubsetSmaller(NewerIds(snaps, id), IdSet(snaps), id);
    }
  }

  /** Cutting a list without repetitions splits its elements. */
  lemma SplitElements<T(!new)>(xs: seq<T>, k: nat)
    requires Order.Distinct(xs) && k <= |xs|
    ensures forall x :: x in xs[..k] <==> x in xs && x !in xs[k..]
  {
    forall x ensures x in xs[..k] <==> x in xs && x !in xs[k..] {
      assert xs == xs[..k] + xs[k..];
      if x in xs[..k] {
        var i :| 0 <= i < k && xs[..k][i] == x;
        forall j | 0 <= j < |xs[k..]| ensures xs[k..][j] != x {
          assert xs[i] != xs[k + j];
        }
      }
    }
  }

  lemma SameElements<T(!new)>(xs: seq<T>, ys: seq<T>)
    requires multiset(xs) == multiset(ys)
    ensures forall x :: x in xs <==> x in ys
  {
    assert forall x :: x in xs <==> x in multiset(xs);
    assert forall x :: x in ys <==> x in multiset(ys);
  }

  /** Count leaves the newest min(keep, n). */
  lemma CountLeaves(snaps: seq<Snapshot>, keep: int)
    requires DistinctIds(snaps) && keep > 0
    ensures |IdSet(snaps) - CountPrunable(snaps, keep)| == if keep < |snaps| then keep else |snaps|
  {
    IdsAreIdSet(snaps);
    var ids := Ids(snaps);
    Order.DistinctCount(ids);
    if keep < |snaps| {
      var sorted := Order.Descending(ids, Order.Less);
      Order.DistinctByMultiset(ids, sorted);
      SameElements(ids, sorted);
      SplitElements(sorted, keep);
      Order.DistinctCount(sorted[..keep]);
      assert IdSet(snaps) - CountPrunable(snaps, keep) == Order.Elements(sorted[..keep]);
    }
  }

  // ---- The tiers: one snapshot for each of the newest buckets ----

  ghost function TopBuckets(snaps: seq<Snapshot>, count: int, bucket: Grouping): set<Bucket> {
    set b | b in Buckets(snaps, bucket) && |Newer(snaps, bucket, b)| < count
  }

  lemma {:induction false} SetAsSeq<T(!new)>(s: set<T>) returns (xs: seq<T>)
    ensures Order.Distinct(xs) && Order.Elements(xs) == s && |xs| == |s|
    decreases |s|
  {
    if s == {} {
      xs := [];
    } else {
      var x :| x in s;
      xs := SetAsSeq(s - {x});
      assert x !in Order.Elements(xs);
      xs := [x] + xs;
    }
  }

  /** There are min(count, buckets) top buckets. */
  lemma TopBucketCount(snaps: seq<Snapshot>, count: int, bucket: Grouping)
    requires count > 0
    ensures |TopBuckets(snaps, count, bucket)| ==
      if count < |Buckets(snaps, bucket)| then count else |Buckets(snaps, bucket)|
  {
    var order := SetAsSeq(Buckets(snaps, bucket));
    var n := if count < |order| then count else |order|;
    var sorted := Order.Descending(order, BucketBefore);
    Order.DistinctByMultiset(order, sorted);
    Order.DistinctCount(sorted[..n]);
    assert TopBuckets(snaps, count, bucket) == Order.Elements(sorted[..n]) by {
      forall b | b in Buckets(snaps, bucket) ensures b in sorted[..n] <==> b in TopBuckets(snaps, count, bucket) {
        assert b in Order.Elements(order);
        TopBucket(snaps, count, bucket, order, b);
      }
      forall b | b in sorted[..n] ensures b in Buckets(snaps, bucket) {
        assert b in multiset(sorted);
        assert b in multiset(order);
        assert b in Order.Elements(order);
      }
    }
  }

  /** Some snapshot of a bucket has its greatest id. */
  lemma {:induction false} NewestExists(snaps: seq<Snapshot>, bucket: Grouping, b: Bucket) returns (s: Snapshot)
    requires b in Buckets(snaps, bucket)
    ensures s in snaps && bucket(s) == b && IsNewestOfBucket(snaps, bucket, s)
  {
    var last := snaps[|snaps| - 1];
    var rest := snaps[..|snaps| - 1];
    assert snaps == rest + [last];
    if b !in Buckets(rest, bucket) {
      s := last;
      Order.LessIrreflexive(s.id);
      forall t | t in rest ensures bucket(t) != b {
        assert bucket(t) in Buckets(rest, bucket);
      }
    } else {
      var r := NewestExists(rest, bucket, b);
      s := r;
      if bucket(last) == b && Order.Less(r.id, last.id) {
        s := last;
        Order.LessIrreflexive(s.id);
        forall t | t in rest && bucket(t) == b ensures !Order.Less(last.id, t.id) {
          if Order.Less(last.id, t.id) {
            Order.LessTransitive(r.id, last.id, t.id);
          }
        }
      }
    }
  }

  lemma SameId(snaps: seq<Snapshot>, s: Snapshot, t: Snapshot)
    requires DistinctIds(snaps) && s in snaps && t in snaps && s.id == t.id
    ensures s == t
  {
    var i :| 0 <= i < |snaps| && snaps[i] == s;
    var j :| 0 <= j < |snaps| && snaps[j] == t;
    assert Ids(snaps)[i] == Ids(snaps)[j];
  }

  /**
   The loop keeps one snapshot, the greatest id, for each of the newest min(count, buckets)
   buckets: as many ids as there are such buckets, and a kept one in each of them.
   */
  lemma TierKeepsOnePerBucket(snaps: seq<Snapshot>, count: int, bucket: Grouping)
    requires DistinctIds(snaps) && count > 0
    ensures |TierKeep(snaps, count, bucket)| ==
      if count < |Buckets(snaps, bucket)| then count else |Buckets(snaps, bucket)|
    ensures forall b :: b in TopBuckets(snaps, count, bucket) ==>
      exists s :: s in snaps && bucket(s) == b && s.id in TierKeep(snaps, count, bucket)
  {
    var tops := TopBuckets(snaps, count, bucket);
    TopBucketCount(snaps, count, bucket);
    var bs := SetAsSeq(tops);
    assert forall i :: 0 <= i < |bs| ==> bs[i] in Order.Elements(bs);
    var kept := NewestOfEach(snaps, bucket, bs);
    var ids := Ids(kept);
    NewestAreDistinct(snaps, bucket, bs, kept);
    Order.DistinctCount(ids);
    NewestAreKept(snaps, count, bucket, bs, kept);
    forall b | b in tops ensures exists s :: s in snaps && bucket(s) == b && s.id in TierKeep(snaps, count, bucket) {
      var s := NewestExists(snaps, bucket, b);
      assert s.id in TierKeep(snaps, count, bucket);
    }
  }

  ghost predicate AreNewestOf(snaps: seq<Snapshot>, bucket: Grouping, bs: seq<Bucket>, kept: seq<Snapshot>) {
    && |kept| == |bs|
    && (forall i :: 0 <= i < |bs| ==>
      kept[i] in snaps && bucket(kept[i]) == bs[i] && IsNewestOfBucket(snaps, bucket, kept[i]))
  }

  lemma NewestAreDistinct(snaps: seq<Snapshot>, bucket: Grouping, bs: seq<Bucket>, kept: seq<Snapshot>)
    requires DistinctIds(snaps) && Order.Distinct(bs) && AreNewestOf(snaps, bucket, bs, kept)
    ensures Order.Distinct(Ids(kept))
  {
    forall i, j | 0 <= i < j < |kept| ensures kept[i].id != kept[j].id {
      if kept[i].id == kept[j].id {
        SameId(snaps, kept[i], kept[j]);
      }
    }
  }

  lemma NewestAreKept(snaps: seq<Snapshot>, count: int, bucket: Grouping, bs: seq<Bucket>, kept: seq<Snapshot>)
    requires AreNewestOf(snaps, bucket, bs, kept)
    requires Order.Elements(bs) == TopBuckets(snaps, count, bucket)
    ensures TierKeep(snaps, count, bucket) == Order.Elements(Ids(kept))
  {
    var ids := Ids(kept);
    forall i | 0 <= i < |kept| ensures ids[i] in TierKeep(snaps, count, bucket) {
      assert bs[i] in Order.Elements(bs);
    }
    forall s | s in snaps && |Newer(snaps, bucket, bucket(s))| < count && IsNewestOfBucket(snaps, bucket, s)
      ensures s.id in ids
    {
      assert bucket(s) in TopBuckets(snaps, count, bucket);
      var i :| 0 <= i < |bs| && bs[i] == bucket(s);
      Order.LessTotal(s.id, kept[i].id);
      assert ids[i] == s.id;
    }
  }

  lemma {:induction false} NewestOfEach(snaps: seq<Snapshot>, bucket: Grouping, bs: seq<Bucket>)
    returns (kept: seq<Snapshot>)
    requires forall i :: 0 <= i < |bs| ==> bs[i] in Buckets(snaps, bucket)
    ensures AreNewestOf(snaps, bucket, bs, kept)
  {
    if bs == [] {
      kept := [];
    } else {
      var first := NewestExists(snaps, bucket, bs[0]);
      var rest := NewestOfEach(snaps, bucket, bs[1..]);
      kept := [first] + rest;
    }
  }

  // ---- Deleting part of the selection and selecting again ----

  function Without(snaps: seq<Snapshot>, gone: set<string>): (r: seq<Snapshot>)
    ensures forall s :: s in r <==> s in snaps && s.id !in gone
  {
    if snaps == [] then []
    else
      assert snaps == [snaps[0]] + snaps[1..];
      (if snaps[0].id in gone then [] else [snaps[0]]) + Without(snaps[1..], gone)
  }

  lemma {:induction false} WithoutKeepsDistinct(snaps: seq<Snapshot>, gone: set<string>)
    requires DistinctIds(snaps)
    ensures DistinctIds(Without(snaps, gone))
  {
    if snaps != [] {
      var first, tail := snaps[0], snaps[1..];
      assert forall i :: 0 <= i < |tail| ==> Ids(tail)[i] == Ids(snaps)[i + 1];
      WithoutKeepsDistinct(tail, gone);
      var rest := Without(tail, gone);
      forall s | s in tail ensures s.id != first.id {
        var k :| 0 <= k < |tail| && tail[k] == s;
        assert Ids(snaps)[0] != Ids(snaps)[k + 1];
      }
      ConsDistinct(first, rest);
    }
  }

  lemma ConsDistinct(first: Snapshot, rest: seq<Snapshot>)
    requires DistinctIds(rest) && forall s :: s in rest ==> s.id != first.id
    ensures DistinctIds([first] + rest)
  {
    var all := [first] + rest;
    forall i, j | 0 <= i < j < |all| ensures Ids(all)[i] != Ids(all)[j] {
      assert all[j] == rest[j - 1] && rest[j - 1] in rest;
      if i > 0 {
        assert Ids(rest)[i - 1] != Ids(rest)[j - 1];
      }
    }
  }

  lemma BucketsWithout(snaps: seq<Snapshot>, gone: set<string>, bucket: Grouping)
    ensures Buckets(Without(snaps, gone), bucket) <= Buckets(snaps, bucket)
    ensures forall b :: Newer(Without(snaps, gone), bucket, b) <= Newer(snaps, bucket, b)
  {
  }

  /** Bucket b is among the newest `count` exactly when it still is once nothing a tier keeps is gone. */
  lemma TopBucketsStay(snaps: seq<Snapshot>, gone: set<string>, count: int, bucket: Grouping, b: Bucket)
    requires DistinctIds(snaps) && count > 0 && gone !! TierKeep(snaps, count, bucket)
    requires b in Buckets(Without(snaps, gone), bucket)
    ensures |Newer(snaps, bucket, b)| < count <==> |Newer(Without(snaps, gone), bucket, b)| < count
  {
    var rest := Without(snaps, gone);
    BucketsWithout(snaps, gone, bucket);
    SubsetSize(Newer(rest, bucket, b), Newer(snaps, bucket, b));
    var tops := TopBuckets(snaps, count, bucket);
    if |Newer(snaps, bucket, b)| >= count {
      TopBucketCount(snaps, count, bucket);
      SubsetSize(Newer(snaps, bucket, b), Buckets(snaps, bucket));
      assert tops <= Newer(rest, bucket, b) by {
        forall c | c in tops ensures c in Newer(rest, bucket, b) {
          TopIsNewer(snaps, count, bucket, c, b);
          var s := NewestExists(snaps, bucket, c);
          assert s.id in TierKeep(snaps, count, bucket);
          assert s in rest;
        }
      }
      SubsetSize(tops, Newer(rest, bucket, b));
    }
  }

  lemma TopIsNewer(snaps: seq<Snapshot>, count: int, bucket: Grouping, c: Bucket, b: Bucket)
    requires c in TopBuckets(snaps, count, bucket) && b in Buckets(snaps, bucket)
    requires |Newer(snaps, bucket, b)| >= count
    ensures BucketBefore(b, c)
  {
    BucketOrder();
    if BucketBefore(c, b) {
      assert Newer(snaps, bucket, b) <= Newer(snaps, bucket, c);
      SubsetSize(Newer(snaps, bucket, b), Newer(snaps, bucket, c));
    }
  }

  lemma SubsetSize<T>(a: set<T>, b: set<T>)
    requires a <= b
    ensures |a| <= |b|
  {
    assert b == a + (b - a);
  }

  /** Deleting snapshots no tier keeps changes nothing a tier keeps. */
  lemma TierKeepStays(snaps: seq<Snapshot>, gone: set<string>, count: int, bucket: Grouping)
    requires DistinctIds(snaps) && gone !! TierKeep(snaps, count, bucket)
    ensures TierKeep(Without(snaps, gone), count, bucket) == TierKeep(snaps, count, bucket)
  {
    if count > 0 {
      var rest := Without(snaps, gone);
      forall s | s in rest && |Newer(rest, bucket, bucket(s))| < count && IsNewestOfBucket(rest, bucket, s)
        ensures s.id in TierKeep(snaps, count, bucket)
      {
        assert bucket(s) in Buckets(rest, bucket);
        assert bucket(s) in Buckets(snaps, bucket);
        TopBucketsStay(snaps, gone, count, bucket, bucket(s));
        var t := NewestExists(snaps, bucket, bucket(s));
        assert t.id in TierKeep(snaps, count, bucket);
        assert t in rest;
        Order.LessTotal(s.id, t.id);
      }
      forall s | s in snaps && |Newer(snaps, bucket, bucket(s))| < count && IsNewestOfBucket(snaps, bucket, s)
        ensures s.id in TierKeep(rest, count, bucket)
      {
        assert s.id in TierKeep(snaps, count, bucket);
        assert s in rest;
        assert bucket(s) in Buckets(rest, bucket);
        TopBucketsStay(snaps, gone, count, bucket, bucket(s));
        assert IsNewestOfBucket(rest, bucket, s);
      }
    } else {
      assert forall s :: s in snaps ==> |Newer(snaps, bucket, bucket(s))| >= count;
    }
  }

  lemma ProtectedStays(snaps: seq<Snapshot>, gone: set<string>, cfg: Config)
    requires DistinctIds(snaps) && gone !! Protected(snaps, cfg)
    ensures Protected(Without(snaps, gone), cfg) == Protected(snaps, cfg)
  {
    TierKeepStays(snaps, gone, cfg.tiers.daily, ByTier(Daily));
    TierKeepStays(snaps, gone, cfg.tiers.weekly, ByTier(Weekly));
    TierKeepStays(snaps, gone, cfg.tiers.monthly, ByTier(Monthly));
    if cfg.smartLast {
      LastStays(snaps, gone);
    }
  }

  lemma LastStays(snaps: seq<Snapshot>, gone: set<string>)
    requires gone !! ProtectedLast(snaps)
    ensures ProtectedLast(Without(snaps, gone)) == ProtectedLast(snaps)
  {
    var rest := Without(snaps, gone);
    if snaps != [] {
      var one: Grouping := (s: Snapshot) => Bucket(0, 0, 0);
      assert one(snaps[0]) in Buckets(snaps, one);
      var last := NewestExists(snaps, one, Bucket(0, 0, 0));
      assert forall t :: t in snaps ==> one(t) == one(last);
      assert last.id in ProtectedLast(snaps);
      assert last in rest;
      forall s | s in rest && (forall t | t in rest :: !Order.Less(s.id, t.id)) ensures s.id in ProtectedLast(snaps) {
        Order.LessTotal(s.id, last.id);
      }
    }
  }

  /** No snapshot with a greater id was taken earlier. */
  ghost predicate OrderedLikeTimes(snaps: seq<Snapshot>) {
    forall s, t :: s in snaps && t in snaps && Order.Less(s.id, t.id) ==> Instant(s.when) <= Instant(t.when)
  }

  /** Too old under the age rule. */
  predicate Expired(s: Snapshot, cfg: Config, now: DateTime) {
    cfg.ageDays > 0 && Instant(s.when) < Instant(now) - cfg.ageDays * DAY
  }

  /** Beyond the count: at least `count` newer ids. */
  ghost predicate Surplus(snaps: seq<Snapshot>, s: Snapshot, cfg: Config) {
    cfg.count > 0 && |NewerIds(snaps, s.id)| >= cfg.count
  }

  /** The whole decision for one snapshot: surplus or expired, and not protected by a tier or as the last one. */
  lemma SelectedExactly(snaps: seq<Snapshot>, cfg: Config, now: DateTime, s: Snapshot)
    requires DistinctIds(snaps) && s in snaps && SelectPrunable(snaps, cfg, now).Some?
    ensures s.id in SelectPrunable(snaps, cfg, now).value <==>
      (Surplus(snaps, s, cfg) || Expired(s, cfg, now)) && s.id !in Protected(snaps, cfg)
  {
    CountPrunesByRank(snaps, cfg.count, s.id);
    AgedExactly(snaps, cfg, now, s);
  }

  lemma AgedExactly(snaps: seq<Snapshot>, cfg: Config, now: DateTime, s: Snapshot)
    requires DistinctIds(snaps) && s in snaps && AgePrunable(snaps, cfg.ageDays, now).Some?
    ensures s.id in AgePrunable(snaps, cfg.ageDays, now).value <==> Expired(s, cfg, now)
  {
    if s.id in AgePrunable(snaps, cfg.ageDays, now).value {
      var t :| t in snaps && Instant(t.when) < Instant(now) - cfg.ageDays * DAY && t.id == s.id;
      SameId(snaps, s, t);
    }
  }

  /** Selecting again never reaches beyond the first selection. */
  lemma SelectionShrinks(snaps: seq<Snapshot>, gone: set<string>, cfg: Config, now: DateTime)
    requires DistinctIds(snaps) && SelectPrunable(snaps, cfg, now).Some?
    requires gone <= SelectPrunable(snaps, cfg, now).value
    ensures SelectPrunable(Without(snaps, gone), cfg, now).Some?
    ensures SelectPrunable(Without(snaps, gone), cfg, now).value <= SelectPrunable(snaps, cfg, now).value - gone
  {
    var rest := Without(snaps, gone);
    ProtectedStays(snaps, gone, cfg);
    WithoutKeepsDistinct(snaps, gone);
    forall id | id in SelectPrunable(rest, cfg, now).value ensures id in SelectPrunable(snaps, cfg, now).value - gone {
      assert id in IdSet(rest);
      var s :| s in rest && s.id == id;
      SelectedExactly(rest, cfg, now, s);
      SelectedExactly(snaps, cfg, now, s);
      SubsetSize(NewerIds(rest, id), NewerIds(snaps, id));
    }
  }

  /** Selecting on the survivors of a complete retention gives nothing. */
  lemma SelectionSettles(snaps: seq<Snapshot>, cfg: Config, now: DateTime)
    requires DistinctIds(snaps) && SelectPrunable(snaps, cfg, now).Some?
    ensures SelectPrunable(Without(snaps, SelectPrunable(snaps, cfg, now).value), cfg, now) == Some({})
  {
    var selected := SelectPrunable(snaps, cfg, now).value;
    SelectionShrinks(snaps, selected, cfg, now);
    assert SelectPrunable(Without(snaps, selected), cfg, now).value == {};
  }

  /** What is selected among some snapshots is selected among more. */
  lemma SelectionGrows(xs: seq<Snapshot>, ys: seq<Snapshot>, cfg: Config, now: DateTime)
    requires DistinctIds(xs) && DistinctIds(ys) && SelectPrunable(xs, cfg, now).Some?
    requires forall s :: s in xs ==> s in ys
    ensures SelectPrunable(ys, cfg, now).Some?
    ensures SelectPrunable(xs, cfg, now).value <= SelectPrunable(ys, cfg, now).value
  {
    forall id | id in SelectPrunable(xs, cfg, now).value ensures id in SelectPrunable(ys, cfg, now).value {
      assert id in IdSet(xs);
      var s :| s in xs && s.id == id;
      SelectedExactly(xs, cfg, now, s);
      SubsetSize(NewerIds(xs, id), NewerIds(ys, id));
      LessProtected(xs, ys, cfg, s);
      SelectedExactly(ys, cfg, now, s);
    }
  }

  lemma LessProtected(xs: seq<Snapshot>, ys: seq<Snapshot>, cfg: Config, s: Snapshot)
    requires DistinctIds(ys) && s in xs && forall t :: t in xs ==> t in ys
    ensures s.id in Protected(ys, cfg) ==> s.id in Protected(xs, cfg)
  {
    LessKept(xs, ys, cfg.tiers.daily, ByTier(Daily), s);
    LessKept(xs, ys, cfg.tiers.weekly, ByTier(Weekly), s);
    LessKept(xs, ys, cfg.tiers.monthly, ByTier(Monthly), s);
    if s.id in ProtectedLast(ys) {
      var t :| t in ys && t.id == s.id && forall u | u in ys :: !Order.Less(t.id, u.id);
      assert s.id in ProtectedLast(xs);
    }
  }

  lemma LessKept(xs: seq<Snapshot>, ys: seq<Snapshot>, count: int, bucket: Grouping, s: Snapshot)
    requires DistinctIds(ys) && s in xs && forall t :: t in xs ==> t in ys
    ensures s.id in TierKeep(ys, count, bucket) ==> s.id in TierKeep(xs, count, bucket)
  {
    if s.id in TierKeep(ys, count, bucket) {
      var t :| t in ys && |Newer(ys, bucket, bucket(t))| < count && IsNewestOfBucket(ys, bucket, t) && t.id == s.id;
      SameId(ys, s, t);
      assert Buckets(xs, bucket) <= Buckets(ys, bucket);
      SubsetSize(Newer(xs, bucket, bucket(s)), Newer(ys, bucket, bucket(s)));
    }
  }

  /**
   A retention that stopped half-way is finished by the next one: whatever part of the selection
   is already deleted, selecting on the rest gives exactly the remaining part.
   */
  lemma SelectionResumes(snaps: seq<Snapshot>, gone: set<string>, cfg: Config, now: DateTime)
    requires DistinctIds(snaps) && OrderedLikeTimes(snaps) && SelectPrunable(snaps, cfg, now).Some?
    requires gone <= SelectPrunable(snaps, cfg, now).value
    ensures SelectPrunable(Without(snaps, gone), cfg, now) == Some(SelectPrunable(snaps, cfg, now).value - gone)
  {
    var rest := Without(snaps, gone);
    var selected := SelectPrunable(snaps, cfg, now).value;
    SelectionShrinks(snaps, gone, cfg, now);
    ProtectedStays(snaps, gone, cfg);
    WithoutKeepsDistinct(snaps, gone);
    var again := SelectPrunable(rest, cfg, now).value;
    forall id | id in selected - gone ensures id in again {
      assert id in IdSet(snaps);
      var s :| s in snaps && s.id == id;
      SelectedExactly(snaps, cfg, now, s);
      SelectedExactly(rest, cfg, now, s);
      if !Expired(s, cfg, now) {
        SurplusStays(snaps, gone, cfg, now, s);
      }
    }
    assert again == selected - gone;
  }

  /** The newest `count` snapshots are gone only by age, and then everything older is expired too. */
  lemma SurplusStays(snaps: seq<Snapshot>, gone: set<string>, cfg: Config, now: DateTime, s: Snapshot)
    requires DistinctIds(snaps) && OrderedLikeTimes(snaps) && SelectPrunable(snaps, cfg, now).Some?
    requires gone <= SelectPrunable(snaps, cfg, now).value
    requires s in snaps && s.id !in gone && Surplus(snaps, s, cfg) && !Expired(s, cfg, now)
    ensures Surplus(Without(snaps, gone), s, cfg)
  {
    var rest := Without(snaps, gone);
    var top := IdSet(snaps) - CountPrunable(snaps, cfg.count);
    IdsAreIdSet(snaps);
    Order.DistinctCount(Ids(snaps));
    SubsetSize(NewerIds(snaps, s.id), IdSet(snaps));
    CountLeaves(snaps, cfg.count);
    forall id | id in top ensures id in NewerIds(rest, s.id) {
      var t :| t in snaps && t.id == id;
      CountPrunesByRank(snaps, cfg.count, id);
      FewerNewer(snaps, t, s, cfg.count);
      SelectedExactly(snaps, cfg, now, t);
      assert t in rest;
    }
    SubsetSize(top, NewerIds(rest, s.id));
  }

  lemma FewerNewer(snaps: seq<Snapshot>, t: Snapshot, s: Snapshot, keep: int)
    requires DistinctIds(snaps) && t in snaps && s in snaps
    requires |NewerIds(snaps, t.id)| < keep <= |NewerIds(snaps, s.id)|
    ensures Order.Less(s.id, t.id)
  {
    Order.LessTotal(s.id, t.id);
    if Order.Less(t.id, s.id) {
      Order.LessIsStrictTotal();
      SubsetSize(NewerIds(snaps, s.id), NewerIds(snaps, t.id));
    }
  }

  // ---- When exactly a partial deletion can be resumed ----

  /** Whatever part of the selection is deleted, selecting again gives exactly the rest. */
  ghost predicate Resumes(snaps: seq<Snapshot>, cfg: Config, now: DateTime) {
    SelectPrunable(snaps, cfg, now).Some? && forall gone :: gone <= SelectPrunable(snaps, cfg, now).value ==>
      SelectPrunable(Without(snaps, gone), cfg, now) == Some(SelectPrunable(snaps, cfg, now).value - gone)
  }

  /** Kept by the policy: protected, or neither surplus nor expired. */
  ghost predicate IsKept(snaps: seq<Snapshot>, t: Snapshot, cfg: Config, now: DateTime) {
    t.id in Protected(snaps, cfg) || (!Surplus(snaps, t, cfg) && !Expired(t, cfg, now))
  }

  /** The newer ids of `s` the policy keeps. */
  ghost function KeptNewer(snaps: seq<Snapshot>, s: Snapshot, cfg: Config, now: DateTime): set<string> {
    set t | t in snaps && Order.Less(s.id, t.id) && IsKept(snaps, t, cfg, now) :: t.id
  }

  /** Only its rank selects the snapshot. */
  ghost predicate OnlySurplus(snaps: seq<Snapshot>, s: Snapshot, cfg: Config, now: DateTime) {
    s in snaps && Surplus(snaps, s, cfg) && !Expired(s, cfg, now) && s.id !in Protected(snaps, cfg)
  }

  /**
   A retention that stopped half-way, at whatever point, is finished by the next one exactly if every snapshot
   that only its rank selects has `count` newer ones that the policy keeps.
   */
  lemma SelectionResumesExactly(snaps: seq<Snapshot>, cfg: Config, now: DateTime)
    requires DistinctIds(snaps) && SelectPrunable(snaps, cfg, now).Some?
    ensures Resumes(snaps, cfg, now) <==>
      forall s :: OnlySurplus(snaps, s, cfg, now) ==> |KeptNewer(snaps, s, cfg, now)| >= cfg.count
  {
    var selected := SelectPrunable(snaps, cfg, now).value;
    if forall s :: OnlySurplus(snaps, s, cfg, now) ==> |KeptNewer(snaps, s, cfg, now)| >= cfg.count {
      forall gone | gone <= selected ensures SelectPrunable(Without(snaps, gone), cfg, now) == Some(selected - gone) {
        EnoughKept(snaps, gone, cfg, now);
      }
    }
    if Resumes(snaps, cfg, now) {
      forall s | OnlySurplus(snaps, s, cfg, now) ensures |KeptNewer(snaps, s, cfg, now)| >= cfg.count {
        SelectedExactly(snaps, cfg, now, s);
        LastOfSelection(snaps, s, cfg, now);
      }
    }
  }

  lemma EnoughKept(snaps: seq<Snapshot>, gone: set<string>, cfg: Config, now: DateTime)
    requires DistinctIds(snaps) && SelectPrunable(snaps, cfg, now).Some?
    requires gone <= SelectPrunable(snaps, cfg, now).value
    requires forall s :: OnlySurplus(snaps, s, cfg, now) ==> |KeptNewer(snaps, s, cfg, now)| >= cfg.count
    ensures SelectPrunable(Without(snaps, gone), cfg, now) == Some(SelectPrunable(snaps, cfg, now).value - gone)
  {
    var rest, selected := Without(snaps, gone), SelectPrunable(snaps, cfg, now).value;
    SelectionShrinks(snaps, gone, cfg, now);
    ProtectedStays(snaps, gone, cfg);
    WithoutKeepsDistinct(snaps, gone);
    forall id | id in selected - gone ensures id in SelectPrunable(rest, cfg, now).value {
      var s :| s in snaps && s.id == id;
      SelectedExactly(snaps, cfg, now, s);
      SelectedExactly(rest, cfg, now, s);
      if !Expired(s, cfg, now) {
        assert OnlySurplus(snaps, s, cfg, now);
        KeptNewerStay(snaps, gone, s, cfg, now);
        SubsetSize(KeptNewer(snaps, s, cfg, now), NewerIds(rest, id));
      }
    }
    assert SelectPrunable(rest, cfg, now).value == selected - gone;
  }

  lemma KeptNewerStay(snaps: seq<Snapshot>, gone: set<string>, s: Snapshot, cfg: Config, now: DateTime)
    requires DistinctIds(snaps) && SelectPrunable(snaps, cfg, now).Some?
    requires gone <= SelectPrunable(snaps, cfg, now).value
    ensures KeptNewer(snaps, s, cfg, now) <= NewerIds(Without(snaps, gone), s.id)
  {
    forall t | t in snaps && IsKept(snaps, t, cfg, now) ensures t in Without(snaps, gone) {
      SelectedExactly(snaps, cfg, now, t);
    }
  }

  /** With the rest of the selection gone, the newer ids left are the kept ones: fewer than `count` do not select it. */
  lemma LastOfSelection(snaps: seq<Snapshot>, s: Snapshot, cfg: Config, now: DateTime)
    requires DistinctIds(snaps) && Resumes(snaps, cfg, now) && OnlySurplus(snaps, s, cfg, now)
    requires s.id in SelectPrunable(snaps, cfg, now).value
    ensures |KeptNewer(snaps, s, cfg, now)| >= cfg.count
  {
    var gone := SelectPrunable(snaps, cfg, now).value - {s.id};
    var rest := Without(snaps, gone);
    WithoutKeepsDistinct(snaps, gone);
    assert SelectPrunable(rest, cfg, now) == Some(SelectPrunable(snaps, cfg, now).value - gone);
    assert s.id in SelectPrunable(rest, cfg, now).value;
    SelectedExactly(rest, cfg, now, s);
    NewerAreKept(snaps, s, cfg, now);
    SubsetSize(NewerIds(rest, s.id), KeptNewer(snaps, s, cfg, now));
  }

  lemma NewerAreKept(snaps: seq<Snapshot>, s: Snapshot, cfg: Config, now: DateTime)
    requires DistinctIds(snaps) && SelectPrunable(snaps, cfg, now).Some?
    ensures NewerIds(Without(snaps, SelectPrunable(snaps, cfg, now).value - {s.id}), s.id) <= KeptNewer(snaps, s, cfg,
      now)
  {
    Order.LessIrreflexive(s.id);
    forall t | t in Without(snaps, SelectPrunable(snaps, cfg, now).value - {s.id}) && Order.Less(s.id, t.id)
      ensures t.id in KeptNewer(snaps, s, cfg, now)
    {
      SelectedExactly(snaps, cfg, now, t);
    }
  }

  const TODAY := DateTime(Date(2026, 3, 5), 0)
  const JANUARY_ID := "2026-01-01_00-00-00"
  const MANUAL_ID := "0-before-upgrade"
  const KEEP_ONE := Config(1, 30, Tiers(0, 0, 0), false)

  /**
   An id the engine did not write counts as taken now. With one to keep for at most 30 days, the first selection
   holds both snapshots - the manual one, smaller by name, as surplus, the engine's of January as expired. Once
   the engine's is deleted, the manual one is the newest left and no longer selected.
   */
  lemma UnorderedIdsDoNotResume(snaps: seq<Snapshot>)
    requires snaps == [Snapshot(MANUAL_ID, SnapshotTime(MANUAL_ID, TODAY)),
                       Snapshot(JANUARY_ID, SnapshotTime(JANUARY_ID, TODAY))]
    ensures DistinctIds(snaps) && SelectPrunable(snaps, KEEP_ONE, TODAY) == Some({MANUAL_ID, JANUARY_ID})
    ensures SelectPrunable(Without(snaps, {JANUARY_ID}), KEEP_ONE, TODAY) == Some({})
    ensures !Resumes(snaps, KEEP_ONE, TODAY)
  {
    var a, x := snaps[0], snaps[1];
    ManualIdTime();
    JanuaryIdTime();
    assert Ids(snaps)[0] != Ids(snaps)[1];
    TwoDoNotResume(snaps, a, x, KEEP_ONE, TODAY);
  }

  lemma ManualIdTime()
    ensures SnapshotTime(MANUAL_ID, TODAY) == TODAY && Order.Less(MANUAL_ID, JANUARY_ID)
  {
    assert MANUAL_ID[..16][1] == '-';
    assert MANUAL_ID[0] < JANUARY_ID[0];
  }

  lemma JanuaryIdTime()
    ensures Instant(SnapshotTime(JANUARY_ID, TODAY)) < Instant(TODAY) - 30 * DAY && Ordinal(TODAY.date) - 30 >= 1
  {
    var january := DateTime(Date(2026, 1, 1), 0);
    JanuaryIdIs(january);
    ParseUndoesNew(january, None);
    SixtyThreeDays(TODAY.date, january.date);
  }

  lemma SixtyThreeDays(a: Date, b: Date)
    requires a == Date(2026, 3, 5) && b == Date(2026, 1, 1)
    ensures Ordinal(a) == Ordinal(b) + 63 && Ordinal(a) > 30
  {
    assert DaysBeforeMonth(2026, 3) == DaysBeforeMonth(2026, 2) + 28;
    assert DaysBeforeMonth(2026, 2) == DaysBeforeMonth(2026, 1) + 31;
  }

  lemma JanuaryIdIs(january: DateTime)
    requires january == DateTime(Date(2026, 1, 1), 0)
    ensures Valid(january) && NewSnapshotId(january, None) == JANUARY_ID && WholeSecond(january) == january
  {
    assert DateText(january.date) == "2026-01-01";
    assert TimeText(0) == "00-00-00";
    assert Stamp(january) == "2026-01-01" + "_" + "00-00-00";
  }

  /** Two snapshots, the newer one by name expired and the other not, and one to keep. */
  lemma TwoDoNotResume(snaps: seq<Snapshot>, a: Snapshot, x: Snapshot, cfg: Config, now: DateTime)
    requires DistinctIds(snaps) && forall s :: s in snaps <==> s == a || s == x
    requires Order.Less(a.id, x.id) && Expired(x, cfg, now) && !Expired(a, cfg, now)
    requires cfg.count == 1 && cfg.tiers == Tiers(0, 0, 0) && !cfg.smartLast
    requires Ordinal(now.date) - cfg.ageDays >= 1
    ensures SelectPrunable(snaps, cfg, now) == Some({a.id, x.id})
    ensures SelectPrunable(Without(snaps, {x.id}), cfg, now) == Some({}) && !Resumes(snaps, cfg, now)
  {
    Order.LessIrreflexive(a.id);
    BothSelected(snaps, a, x, cfg, now);
    NoneSelected(snaps, a, x, cfg, now);
    DoesNotResume(snaps, {x.id}, a.id, cfg, now);
  }

  lemma DoesNotResume(snaps: seq<Snapshot>, gone: set<string>, id: string, cfg: Config, now: DateTime)
    requires SelectPrunable(snaps, cfg, now).Some? && gone <= SelectPrunable(snaps, cfg, now).value
    requires id in SelectPrunable(snaps, cfg, now).value && id !in gone
    requires SelectPrunable(Without(snaps, gone), cfg, now).Some?
    requires id !in SelectPrunable(Without(snaps, gone), cfg, now).value
    ensures !Resumes(snaps, cfg, now)
  {
  }

  lemma CutoffIsReal(snaps: seq<Snapshot>, cfg: Config, now: DateTime)
    requires Ordinal(now.date) - cfg.ageDays >= 1
    ensures SelectPrunable(snaps, cfg, now).Some?
  {
  }

  lemma BothSelected(snaps: seq<Snapshot>, a: Snapshot, x: Snapshot, cfg: Config, now: DateTime)
    requires DistinctIds(snaps) && forall s :: s in snaps <==> s == a || s == x
    requires Order.Less(a.id, x.id) && Expired(x, cfg, now)
    requires cfg.count == 1 && cfg.tiers == Tiers(0, 0, 0) && !cfg.smartLast && Ordinal(now.date) - cfg.ageDays >= 1
    ensures SelectPrunable(snaps, cfg, now) == Some({a.id, x.id})
  {
    CutoffIsReal(snaps, cfg, now);
    OneNewer(snaps, a, x, cfg);
    UnprotectedSelected(snaps, cfg, now, a);
    UnprotectedSelected(snaps, cfg, now, x);
    TwoIds(snaps, a, x);
    AllOfTwo(SelectPrunable(snaps, cfg, now).value, a.id, x.id);
  }

  lemma TwoIds(snaps: seq<Snapshot>, a: Snapshot, x: Snapshot)
    requires forall s :: s in snaps <==> s == a || s == x
    ensures IdSet(snaps) == {a.id, x.id}
  {
    assert a in snaps && x in snaps;
  }

  lemma AllOfTwo(ids: set<string>, a: string, x: string)
    requires ids <= {a, x} && a in ids && x in ids
    ensures ids == {a, x}
  {
  }

  lemma NoneSelected(snaps: seq<Snapshot>, a: Snapshot, x: Snapshot, cfg: Config, now: DateTime)
    requires DistinctIds(snaps) && forall s :: s in snaps <==> s == a || s == x
    requires SelectPrunable(snaps, cfg, now) == Some({a.id, x.id}) && Order.Less(a.id, x.id) && !Expired(a, cfg, now)
    requires cfg.count == 1
    ensures SelectPrunable(Without(snaps, {x.id}), cfg, now) == Some({})
  {
    Order.LessIrreflexive(a.id);
    SelectionShrinks(snaps, {x.id}, cfg, now);
    WithoutKeepsDistinct(snaps, {x.id});
    LastOneStays(Without(snaps, {x.id}), a, cfg, now);
    NoneOfTwo(SelectPrunable(Without(snaps, {x.id}), cfg, now).value, a.id, x.id);
  }

  lemma NoneOfTwo(ids: set<string>, a: string, x: string)
    requires ids <= {a, x} - {x} && a !in ids
    ensures ids == {}
  {
  }

  lemma OneNewer(snaps: seq<Snapshot>, a: Snapshot, x: Snapshot, cfg: Config)
    requires a in snaps && x in snaps && Order.Less(a.id, x.id) && cfg.count == 1
    ensures Surplus(snaps, a, cfg)
  {
    assert x.id in IdSet(snaps);
    SubsetSize({x.id}, NewerIds(snaps, a.id));
  }

  lemma LastOneStays(rest: seq<Snapshot>, a: Snapshot, cfg: Config, now: DateTime)
    requires forall s :: s in rest <==> s == a
    requires DistinctIds(rest) && !Expired(a, cfg, now) && SelectPrunable(rest, cfg, now).Some?
    ensures a.id !in SelectPrunable(rest, cfg, now).value
  {
    Order.LessIrreflexive(a.id);
    assert a in rest;
    NoneNewer(rest, a);
    SelectedExactly(rest, cfg, now, a);
  }

  lemma UnprotectedSelected(snaps: seq<Snapshot>, cfg: Config, now: DateTime, s: Snapshot)
    requires DistinctIds(snaps) && s in snaps && cfg.tiers == Tiers(0, 0, 0) && !cfg.smartLast
    requires SelectPrunable(snaps, cfg, now).Some? && (Surplus(snaps, s, cfg) || Expired(s, cfg, now))
    ensures s.id in SelectPrunable(snaps, cfg, now).value && s.id in IdSet(snaps)
  {
    NothingProtected(snaps, cfg);
    SelectedExactly(snaps, cfg, now, s);
  }

  lemma NothingProtected(snaps: seq<Snapshot>, cfg: Config)
    requires cfg.tiers == Tiers(0, 0, 0) && !cfg.smartLast
    ensures Protected(snaps, cfg) == {}
  {
    forall bucket: Grouping ensures TierKeep(snaps, 0, bucket) == {} {
    }
  }

  // ---- How many stay ----

  lemma SmallUnion<T>(a: set<T>, b: set<T>)
    ensures |a + b| <= |a| + |b|
  {
    assert a + b == a + (b - a);
    SubsetSize(b - a, b);
  }

  lemma TierKeepSize(snaps: seq<Snapshot>, count: int, bucket: Grouping)
    requires DistinctIds(snaps)
    ensures |TierKeep(snaps, count, bucket)| <= if count > 0 then count else 0
  {
    if count > 0 {
      TierKeepsOnePerBucket(snaps, count, bucket);
    } else {
      assert TierKeep(snaps, count, bucket) == {};
    }
  }

  /** The survivors of a complete retention. */
  function Survivors(snaps: seq<Snapshot>, cfg: Config, now: DateTime): set<string>
    requires SelectPrunable(snaps, cfg, now).Some?
  {
    IdSet(snaps) - SelectPrunable(snaps, cfg, now).value
  }

  /** At most count + daily + weekly + monthly stay: the protected last one is among the newest `count`. */
  lemma AtMostStay(snaps: seq<Snapshot>, cfg: Config, now: DateTime)
    requires DistinctIds(snaps) && SelectPrunable(snaps, cfg, now).Some?
    requires cfg.count >= 1 && cfg.tiers.daily >= 0 && cfg.tiers.weekly >= 0 && cfg.tiers.monthly >= 0
    ensures |Survivors(snaps, cfg, now)| <= cfg.count + cfg.tiers.daily + cfg.tiers.weekly + cfg.tiers.monthly
  {
    var newest := IdSet(snaps) - CountPrunable(snaps, cfg.count);
    var d, w, m := TierKeep(snaps, cfg.tiers.daily, ByTier(Daily)), TierKeep(snaps, cfg.tiers.weekly, ByTier(Weekly)),
      TierKeep(snaps, cfg.tiers.monthly, ByTier(Monthly));
    CountLeaves(snaps, cfg.count);
    TierKeepSize(snaps, cfg.tiers.daily, ByTier(Daily));
    TierKeepSize(snaps, cfg.tiers.weekly, ByTier(Weekly));
    TierKeepSize(snaps, cfg.tiers.monthly, ByTier(Monthly));
    forall id | id in ProtectedLast(snaps) ensures id in newest {
      assert NewerIds(snaps, id) == {};
      CountPrunesByRank(snaps, cfg.count, id);
    }
    assert Survivors(snaps, cfg, now) <= newest + (d + w + m);
    SubsetSize(Survivors(snaps, cfg, now), newest + (d + w + m));
    SmallUnion(newest, d + w + m);
    SmallUnion(d + w, m);
    SmallUnion(d, w);
  }

  /** Without the age rule at least min(count, n) stay. */
  lemma AtLeastStay(snaps: seq<Snapshot>, cfg: Config, now: DateTime)
    requires DistinctIds(snaps) && cfg.ageDays <= 0 && cfg.count >= 1
    ensures SelectPrunable(snaps, cfg, now).Some?
    ensures |Survivors(snaps, cfg, now)| >= if cfg.count < |snaps| then cfg.count else |snaps|
  {
    CountLeaves(snaps, cfg.count);
    SubsetSize(IdSet(snaps) - CountPrunable(snaps, cfg.count), Survivors(snaps, cfg, now));
  }

  // ---- The snapshot just written ----

  /** The newest snapshot by id, taken within the current second, is never selected. */
  lemma NewestOfNowStays(snaps: seq<Snapshot>, cfg: Config, now: DateTime, s: Snapshot)
    requires DistinctIds(snaps) && s in snaps && SelectPrunable(snaps, cfg, now).Some?
    requires forall t :: t in snaps ==> !Order.Less(s.id, t.id)
    requires Instant(now) < Instant(s.when) + SECOND
    ensures s.id !in SelectPrunable(snaps, cfg, now).value
  {
    NoneNewer(snaps, s);
    RecentNotExpired(s, cfg, now);
    SelectedExactly(snaps, cfg, now, s);
  }

  lemma RecentNotExpired(s: Snapshot, cfg: Config, now: DateTime)
    requires Instant(now) < Instant(s.when) + SECOND
    ensures !Expired(s, cfg, now)
  {
    if cfg.ageDays > 0 {
      AgeInDays(Instant(s.when), Instant(now), cfg.ageDays);
    }
  }

  lemma AgeInDays(when: int, now: int, days: int)
    requires days > 0 && now < when + DAY
    ensures when >= now - days * DAY
  {
  }

  lemma NoneNewer(snaps: seq<Snapshot>, s: Snapshot)
    requires forall t :: t in snaps ==> !Order.Less(s.id, t.id)
    ensures NewerIds(snaps, s.id) == {}
  {
  }

  /** The ids the engine writes are ordered like the times they stand for. */
  lemma EngineIdsOrderedLikeTimes(snaps: seq<Snapshot>, now: DateTime)
    requires forall s :: s in snaps ==> s.when == SnapshotTime(s.id, now)
    requires forall s :: s in snaps ==> exists t, k :: Valid(t) && s.id == NewSnapshotId(t, k)
    ensures OrderedLikeTimes(snaps)
  {
    forall x, y | x in snaps && y in snaps && Order.Less(x.id, y.id) ensures Instant(x.when) <= Instant(y.when) {
      var s, j :| Valid(s) && x.id == NewSnapshotId(s, j);
      var t, k :| Valid(t) && y.id == NewSnapshotId(t, k);
      ParseUndoesNew(s, j);
      ParseUndoesNew(t, k);
      IdOrderIsTimeOrder(s, j, t, k);
    }
  }

  /** An id the engine wrote for a run that started before `now`, seen by a run of `job` at `now`. */
  ghost predicate EarlierRun(id: string, now: DateTime, job: Option<string>) {
    exists t, k :: Valid(t) && id == NewSnapshotId(t, k)
      && (Instant(WholeSecond(t)) < Instant(WholeSecond(now))
          || (WholeSecond(t) == WholeSecond(now) && Order.Less(Suffix(k), Suffix(job))))
  }

  /** `parse_snapshot_timestamp` */
  function SnapshotTime(sid: string, fallback: DateTime): DateTime {
    match ParseSnapshotId(sid)
    case NotGenerated => fallback
    case Generated(when, _) => when
  }

  /**
   A run never prunes what it has just written, whatever the policy - `smart_last` off and any
   `age_days` included - although the id holds only the whole second of its start.
   */
  lemma FreshSnapshotStays(snaps: seq<Snapshot>, cfg: Config, now: DateTime, job: Option<string>)
    requires Valid(now) && DistinctIds(snaps) && SelectPrunable(snaps, cfg, now).Some?
    requires forall s :: s in snaps ==> s.when == SnapshotTime(s.id, now)
    requires forall s :: s in snaps && s.id != NewSnapshotId(now, job) ==> EarlierRun(s.id, now, job)
    ensures NewSnapshotId(now, job) !in SelectPrunable(snaps, cfg, now).value
  {
    var sid := NewSnapshotId(now, job);
    if sid in IdSet(snaps) {
      var s :| s in snaps && s.id == sid;
      ParseUndoesNew(now, job);
      assert s.when == WholeSecond(now);
      assert Instant(now) < Instant(s.when) + SECOND;
      forall t | t in snaps ensures !Order.Less(s.id, t.id) {
        Order.LessIrreflexive(sid);
        if t.id != sid {
          EarlierRunIsLess(t.id, now, job);
          if Order.Less(sid, t.id) {
            Order.LessTransitive(sid, t.id, sid);
          }
        }
      }
      NewestOfNowStays(snaps, cfg, now, s);
    }
  }

  lemma EarlierRunIsLess(id: string, now: DateTime, job: Option<string>)
    requires Valid(now) && EarlierRun(id, now, job)
    ensures Order.Less(id, NewSnapshotId(now, job))
  {
    var t, k :| Valid(t) && id == NewSnapshotId(t, k)
      && (Instant(WholeSecond(t)) < Instant(WholeSecond(now))
          || (WholeSecond(t) == WholeSecond(now) && Order.Less(Suffix(k), Suffix(job))));
    IdOrderIsTimeOrder(t, k, now, job);
  }
}
