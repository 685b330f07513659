/** The orders the engine sorts by: Python's order on strings, and sorting with reverse=True. */
module Order {

  /** Python's `a < b` on strings: the first differing character decides, a proper prefix comes first. */
  predicate Less(a: string, b: string)
    decreases |a|
  {
    if b == "" then false
    else if a == "" then true
    else a[0] < b[0] || (a[0] == b[0] && Less(a[1..], b[1..]))
  }

  lemma {:induction false} LessIrreflexive(a: string)
    ensures !Less(a, a)
    decreases |a|
  {
    if a != "" {
      LessIrreflexive(a[1..]);
    }
  }

  lemma {:induction false} LessTransitive(a: string, b: string, c: string)
    requires Less(a, b) && Less(b, c)
    ensures Less(a, c)
    decreases |a|
  {
    if a != "" && a[0] == b[0] == c[0] {
      LessTransitive(a[1..], b[1..], c[1..]);
    }
  }

  lemma {:induction false} LessTotal(a: string, b: string)
    ensures a == b || Less(a, b) || Less(b, a)
    decreases |a|
  {
    if a != "" && b != "" && a[0] == b[0] {
      LessTotal(a[1..], b[1..]);
      assert a == [a[0]] + a[1..] && b == [b[0]] + b[1..];
    }
  }

  /** A common prefix decides nothing. */
  lemma {:induction false} LessCommonPrefix(p: string, a: string, b: string)
    ensures Less(p + a, p + b) == Less(a, b)
    decreases |p|
  {
    if p == "" {
      assert p + a == a && p + b == b;
    } else {
      assert (p + a)[1..] == p[1..] + a && (p + b)[1..] == p[1..] + b;
      LessCommonPrefix(p[1..], a, b);
    }
  }

  /** What follows a difference is never compared. */
  lemma {:induction false} LessDecidedEarly(a: string, b: string, x: string, y: string)
    requires |a| == |b| && Less(a, b)
    ensures Less(a + x, b + y)
    decreases |a|
  {
    assert (a + x)[0] == a[0] && (b + y)[0] == b[0];
    if a[0] == b[0] {
      assert (a + x)[1..] == a[1..] + x && (b + y)[1..] == b[1..] + y;
      LessDecidedEarly(a[1..], b[1..], x, y);
    }
  }

  ghost predicate StrictOrder<T(!new)>(less: (T, T) -> bool) {
    && (forall x :: !less(x, x))
    && (forall x, y, z :: less(x, y) && less(y, z) ==> less(x, z))
  }

  ghost predicate StrictTotal<T(!new)>(less: (T, T) -> bool) {
    && StrictOrder(less)
    && (forall x, y :: x == y || less(x, y) || less(y, x))
  }

  lemma LessIsStrictTotal()
    ensures StrictTotal(Less)
  {
    forall x { LessIrreflexive(x); }
    forall x, y, z | Less(x, y) && Less(y, z) ensures Less(x, z) { LessTransitive(x, y, z); }
    forall x, y ensures x == y || Less(x, y) || Less(y, x) { LessTotal(x, y); }
  }

  function InsertDescending<T>(x: T, xs: seq<T>, less: (T, T) -> bool): (r: seq<T>)
    ensures multiset(r) == multiset(xs) + multiset{x}
    ensures |r| == |xs| + 1
  {
    if xs == [] || less(xs[0], x) then [x] + xs
    else
      assert xs == [xs[0]] + xs[1..];
      [xs[0]] + InsertDescending(x, xs[1..], less)
  }

  /** `sorted(xs, reverse=True)`, for elements that are pairwise different. */
  function Descending<T>(xs: seq<T>, less: (T, T) -> bool): (r: seq<T>)
    ensures multiset(r) == multiset(xs)
    ensures |r| == |xs|
  {
    if xs == [] then []
    else
      assert xs == [xs[0]] + xs[1..];
      InsertDescending(xs[0], Descending(xs[1..], less), less)
  }

  ghost predicate IsDescending<T>(xs: seq<T>, less: (T, T) -> bool) {
    forall i, j :: 0 <= i < j < |xs| ==> !less(xs[i], xs[j])
  }

  ghost predicate Distinct<T>(xs: seq<T>) {
    forall i, j :: 0 <= i < j < |xs| ==> xs[i] != xs[j]
  }

  lemma {:induction false} InsertKeepsDescending<T(!new)>(x: T, xs: seq<T>, less: (T, T) -> bool)
    requires StrictOrder(less) && IsDescending(xs, less)
    ensures IsDescending(InsertDescending(x, xs, less), less)
  {
    if xs != [] && !less(xs[0], x) {
      InsertKeepsDescending(x, xs[1..], less);
      var r := InsertDescending(x, xs[1..], less);
      forall j | 0 <= j < |r| ensures !less(xs[0], r[j]) {
        assert r[j] in multiset(r);
        assert r[j] == x || r[j] in multiset(xs[1..]);
        if r[j] != x {
          assert r[j] in xs[1..];
        }
      }
    } else if xs != [] {
      forall j | 0 <= j < |xs| ensures !less(x, xs[j]) {
        var first, y := xs[0], xs[j];
        assert less(first, x) && !less(first, y);
      }
    }
  }

  lemma {:induction false} DescendingIsDescending<T(!new)>(xs: seq<T>, less: (T, T) -> bool)
    requires StrictOrder(less)
    ensures IsDescending(Descending(xs, less), less)
  {
    if xs != [] {
      DescendingIsDescending(xs[1..], less);
      InsertKeepsDescending(xs[0], Descending(xs[1..], less), less);
    }
  }

  lemma {:induction false} DistinctByMultiset<T(!new)>(xs: seq<T>, ys: seq<T>)
    requires multiset(xs) == multiset(ys) && Distinct(xs)
    ensures Distinct(ys)
  {
    forall i, j | 0 <= i < j < |ys| ensures ys[i] != ys[j] {
      if ys[i] == ys[j] {
        var y := ys[i];
        assert ys == ys[..i] + [y] + ys[i + 1..j] + [y] + ys[j + 1..];
        assert multiset(ys)[y] >= 2;
        DistinctOnce(xs, y);
      }
    }
  }

  lemma {:induction false} DistinctOnce<T>(xs: seq<T>, y: T)
    requires Distinct(xs)
    ensures multiset(xs)[y] <= 1
  {
    if xs != [] {
      assert xs == [xs[0]] + xs[1..];
      DistinctOnce(xs[1..], y);
      if xs[0] == y {
        assert y !in xs[1..];
        assert y !in multiset(xs[1..]);
      }
    }
  }

  ghost function Elements<T(!new)>(xs: seq<T>): (r: set<T>)
    ensures forall x :: x in r <==> x in xs
  {
    set x | x in xs
  }

  lemma {:induction false} DistinctCount<T(!new)>(xs: seq<T>)
    requires Distinct(xs)
    ensures |Elements(xs)| == |xs|
  {
    if xs != [] {
      DistinctCount(xs[1..]);
      assert xs == [xs[0]] + xs[1..];
      assert Elements(xs) == {xs[0]} + Elements(xs[1..]);
    } else {
      assert Elements(xs) == {};
    }
  }

  /** The elements of `pool` that come after `x`. */
  ghost function Above<T>(pool: set<T>, x: T, less: (T, T) -> bool): set<T> {
    set y | y in pool && less(x, y)
  }

  lemma SameElements<T(!new)>(xs: seq<T>, ys: seq<T>, y: T)
    requires multiset(xs) == multiset(ys)
    ensures y in xs <==> y in ys
  {
    assert y in xs <==> y in multiset(xs);
    assert y in ys <==> y in multiset(ys);
  }

  /** In a sorted list without duplicates, the elements that exceed the one at `i` are those before it. */
  lemma AboveIsBefore<T(!new)>(ys: seq<T>, less: (T, T) -> bool, i: nat, y: T)
    requires StrictTotal(less) && Distinct(ys) && IsDescending(ys, less) && i < |ys| && y in ys
    ensures less(ys[i], y) <==> y in ys[..i]
  {
    var k :| 0 <= k < |ys| && ys[k] == y;
    if k < i {
      assert ys[..i][k] == y && !less(y, ys[i]) && y != ys[i];
    } else {
      assert k > i ==> !less(ys[i], y);
      assert y !in ys[..i];
    }
  }

  /** Sorting ranks: position i of the sorted list holds the element that exactly i others exceed. */
  lemma DescendingRank<T(!new)>(xs: seq<T>, less: (T, T) -> bool, i: nat)
    requires StrictTotal(less) && Distinct(xs) && i < |xs|
    ensures |Above(Elements(xs), Descending(xs, less)[i], less)| == i
    ensures Descending(xs, less)[i] in xs
  {
    var ys := Descending(xs, less);
    DescendingIsDescending(xs, less);
    DistinctByMultiset(xs, ys);
    RankInSorted(xs, ys, less, i);
    SameElements(xs, ys, ys[i]);
    DistinctCount(ys[..i]);
  }

  lemma RankInSorted<T(!new)>(xs: seq<T>, ys: seq<T>, less: (T, T) -> bool, i: nat)
    requires StrictTotal(less) && multiset(xs) == multiset(ys) && Distinct(ys) && IsDescending(ys, less) && i < |ys|
    ensures Above(Elements(xs), ys[i], less) == Elements(ys[..i])
  {
    forall y ensures y in xs && less(ys[i], y) <==> y in ys[..i] {
      SameElements(xs, ys, y);
      if y in ys {
        AboveIsBefore(ys, less, i, y);
      }
    }
  }

  /** So the first `n` of the sorted list are the elements fewer than `n` others exceed. */
  lemma DescendingTop<T(!new)>(xs: seq<T>, less: (T, T) -> bool, n: nat, x: T)
    requires StrictTotal(less) && Distinct(xs) && n <= |xs| && x in xs
    ensures x in Descending(xs, less)[..n] <==> |Above(Elements(xs), x, less)| < n
    ensures x in Descending(xs, less)[n..] <==> |Above(Elements(xs), x, less)| >= n
  {
    var ys := Descending(xs, less);
    assert x in multiset(ys);
    var k :| 0 <= k < |ys| && ys[k] == x;
    DescendingRank(xs, less, k);
    DescendingIsDescending(xs, less);
    DistinctByMultiset(xs, ys);
    if k < n {
      assert ys[..n][k] == x;
    } else {
      assert ys[n..][k - n] == x;
    }
  }

  lemma ProperSubsetSmaller<T>(a: set<T>, b: set<T>, x: T)
    requires a <= b && x in b && x !in a
    ensures |a| < |b|
  {
    assert b == a + (b - a);
    assert x in b - a;
  }

  /** The same for a count that may exceed the length of the list. */
  lemma DescendingFirst<T(!new)>(xs: seq<T>, less: (T, T) -> bool, count: nat, x: T)
    requires StrictTotal(less) && Distinct(xs) && x in xs
    ensures x in Descending(xs, less)[..if count < |xs| then count else |xs|] <==>
      |Above(Elements(xs), x, less)| < count
  {
    DescendingTop(xs, less, if count < |xs| then count else |xs|, x);
    DistinctCount(xs);
    ProperSubsetSmaller(Above(Elements(xs), x, less), Elements(xs), x);
  }
}
