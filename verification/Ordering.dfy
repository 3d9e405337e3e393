/**
 Byte-wise string order, sorted key listings (Go's sort.Strings over map keys, SQL's ORDER BY id),
 and the bounded batches that ORDER BY time, id LIMIT n selects.
 */
module Ordering {

  predicate Less(a: string, b: string) {
    |b| > 0 && (|a| == 0 || a[0] < b[0] || (a[0] == b[0] && Less(a[1..], b[1..])))
  }

  /** The strings agree up to some place where the first one ends or holds the smaller character. */
  ghost predicate Splits(a: string, b: string, k: nat) {
    k <= |a| && k < |b| && a[..k] == b[..k] && (k == |a| || a[k] < b[k])
  }

  lemma {:induction false} LessExactly(a: string, b: string)
    ensures Less(a, b) <==> exists k: nat :: Splits(a, b, k)
  {
    if |a| > 0 && |b| > 0 && a[0] == b[0] {
      LessExactly(a[1..], b[1..]);
      if Less(a, b) {
        var k: nat :| Splits(a[1..], b[1..], k);
        assert a[..k + 1] == [a[0]] + a[1..][..k] && b[..k + 1] == [b[0]] + b[1..][..k];
        assert Splits(a, b, k + 1);
      }
      if k: nat :| Splits(a, b, k) {
        assert k > 0;
        assert a[1..][..k - 1] == a[..k][1..] && b[1..][..k - 1] == b[..k][1..];
        assert Splits(a[1..], b[1..], k - 1);
      }
    } else if |b| > 0 && (|a| == 0 || a[0] < b[0]) {
      assert a[..0] == b[..0] && Splits(a, b, 0);
    } else {
      forall k: nat ensures !Splits(a, b, k) {
        if 0 < k <= |a| && k < |b| { assert a[..k][0] == a[0] && b[..k][0] == b[0]; }
      }
    }
  }

  lemma {:induction false} LessIrreflexive(a: string)
    ensures !Less(a, a)
  {
    if |a| > 0 { LessIrreflexive(a[1..]); }
  }

  lemma {:induction false} LessTransitive(a: string, b: string, c: string)
    requires Less(a, b) && Less(b, c)
    ensures Less(a, c)
  {
    if |a| > 0 && a[0] == b[0] && b[0] == c[0] {
      LessTransitive(a[1..], b[1..], c[1..]);
    }
  }

  lemma {:induction false} LessTotal(a: string, b: string)
    ensures a == b || Less(a, b) || Less(b, a)
  {
    if |a| > 0 && |b| > 0 && a[0] == b[0] {
      LessTotal(a[1..], b[1..]);
      assert a == [a[0]] + a[1..] && b == [b[0]] + b[1..];
    }
  }

  /** strings.HasPrefix. */
  predicate Prefixed(prefix: string, s: string) { |prefix| <= |s| && s[..|prefix|] == prefix }

  /** Strictly ascending, hence without duplicates. */
  predicate Ascending(keys: seq<string>) {
    forall i, j :: 0 <= i < j < |keys| ==> Less(keys[i], keys[j])
  }

  ghost predicate Least(m: string, keys: set<string>) {
    m in keys && forall x :: x in keys ==> x == m || Less(m, x)
  }

  lemma {:induction false} LeastExists(keys: set<string>)
    requires keys != {}
    ensures exists m :: Least(m, keys)
  {
    var m :| m in keys;
    var rest := keys - {m};
    if rest == {} {
      assert keys == {m};
      assert Least(m, keys);
    } else {
      LeastExists(rest);
      var n :| Least(n, rest);
      LessTotal(m, n);
      if Less(n, m) {
        assert Least(n, keys);
      } else {
        forall x | x in keys ensures x == m || Less(m, x) {
          if x != m && x != n { LessTransitive(m, n, x); }
        }
        assert Least(m, keys);
      }
    }
  }

  /** The keys in ascending order. */
  ghost function InOrder(keys: set<string>): (ordered: seq<string>)
    ensures Ascending(ordered)
    ensures forall x :: x in ordered <==> x in keys
    ensures |ordered| == |keys|
  {
    if keys == {} then []
    else
      LeastExists(keys);
      var least :| Least(least, keys);
      [least] + InOrder(keys - {least})
  }

  /** A set has only one ascending listing. */
  lemma {:induction false} AscendingUnique(a: seq<string>, b: seq<string>)
    requires Ascending(a) && Ascending(b)
    requires |a| == |b| && forall x :: x in a <==> x in b
    ensures a == b
  {
    if a != [] {
      assert a[0] in b;
      assert b != [] && b[0] in a;
      if a[0] != b[0] {
        var i :| 0 <= i < |b| && b[i] == a[0];
        var j :| 0 <= j < |a| && a[j] == b[0];
        LessTransitive(a[0], b[0], a[0]);
        LessIrreflexive(a[0]);
      }
      LessIrreflexive(a[0]);
      forall x ensures x in a[1..] <==> x in b[1..] {
        assert x in a <==> x == a[0] || x in a[1..];
        assert x in b <==> x == b[0] || x in b[1..];
        if x == a[0] {
          assert x !in a[1..] && x !in b[1..];
        }
      }
      AscendingUnique(a[1..], b[1..]);
      assert a == [a[0]] + a[1..] && b == [b[0]] + b[1..];
    }
  }

  lemma AscendingDistinct(keys: seq<string>, i: nat, j: nat)
    requires Ascending(keys) && i < |keys| && j < |keys| && keys[i] == keys[j]
    ensures i == j
  {
    LessIrreflexive(keys[i]);
  }

  lemma AscendingSize(keys: seq<string>)
    requires Ascending(keys)
    ensures |set k | k in keys| == |keys|
  {
    if keys != [] {
      var n := |keys| - 1;
      AscendingSize(keys[..n]);
      if keys[n] in keys[..n] {
        var i :| 0 <= i < n && keys[..n][i] == keys[n];
        AscendingDistinct(keys, i, n);
      }
      assert (set k | k in keys) == (set k | k in keys[..n]) + {keys[n]};
    }
  }

  /** sortedKeys: collect, then sort. */
  method SortKeys(keys: set<string>) returns (ordered: seq<string>)
    ensures ordered == InOrder(keys)
  {
    ordered := [];
    var rest := keys;
    while rest != {}
      invariant Ascending(ordered)
      invariant rest <= keys
      invariant forall x :: x in ordered <==> x in keys - rest
      invariant |ordered| + |rest| == |keys|
      decreases rest
    {
      var k :| k in rest;
      rest := rest - {k};
      ordered := InsertKey(ordered, k);
    }
    AscendingUnique(ordered, InOrder(keys));
  }

  method InsertKey(ordered: seq<string>, k: string) returns (r: seq<string>)
    requires Ascending(ordered) && k !in ordered
    ensures Ascending(r)
    ensures |r| == |ordered| + 1 && forall x :: x in r <==> x in ordered || x == k
  {
    var i := 0;
    while i < |ordered| && Less(ordered[i], k)
      invariant 0 <= i <= |ordered|
      invariant forall j :: 0 <= j < i ==> Less(ordered[j], k)
    {
      i := i + 1;
    }
    if i < |ordered| {
      LessTotal(ordered[i], k);
      forall j | i <= j < |ordered| ensures Less(k, ordered[j]) {
        if i < j { LessTransitive(k, ordered[i], ordered[j]); }
      }
    }
    r := ordered[..i] + [k] + ordered[i..];
    assert ordered == ordered[..i] + ordered[i..];
  }

  // ---- ORDER BY time, id LIMIT n ----

  predicate Before(times: map<string, int>, a: string, b: string)
    requires a in times && b in times
  {
    times[a] < times[b] || (times[a] == times[b] && Less(a, b))
  }

  ghost predicate First(times: map<string, int>, ids: set<string>, m: string) {
    && m in ids && ids <= times.Keys
    && forall x :: x in ids && x != m ==> Before(times, m, x)
  }

  lemma {:induction false} FirstExists(times: map<string, int>, ids: set<string>)
    requires ids != {} && ids <= times.Keys
    ensures exists m :: First(times, ids, m)
  {
    var m :| m in ids;
    var rest := ids - {m};
    if rest == {} {
      assert ids == {m};
      assert First(times, ids, m);
    } else {
      FirstExists(times, rest);
      var n :| First(times, rest, n);
      LessTotal(m, n);
      if Before(times, n, m) {
        assert First(times, ids, n);
      } else {
        forall x | x in ids && x != m ensures Before(times, m, x) {
          if x != n {
            assert x in rest && Before(times, n, x);
            if times[m] == times[n] == times[x] { LessTransitive(m, n, x); }
          }
        }
        assert First(times, ids, m);
      }
    }
  }

  ghost predicate IsBatch(times: map<string, int>, ids: set<string>, limit: nat, chosen: set<string>) {
    && chosen <= ids <= times.Keys && |chosen| <= limit
    && (|chosen| < limit ==> chosen == ids)
    && forall a, b :: a in chosen && b in ids && b !in chosen ==> Before(times, a, b)
  }

  lemma {:induction false} BatchExists(times: map<string, int>, ids: set<string>, limit: nat)
    requires ids <= times.Keys
    ensures exists chosen :: IsBatch(times, ids, limit, chosen)
    decreases limit
  {
    if limit == 0 || ids == {} {
      assert IsBatch(times, ids, limit, {});
    } else {
      FirstExists(times, ids);
      var m :| First(times, ids, m);
      BatchExists(times, ids - {m}, limit - 1);
      var others :| IsBatch(times, ids - {m}, limit - 1, others);
      assert IsBatch(times, ids, limit, {m} + others);
    }
  }

  /** The first `limit` of `ids` in (time, id) order, or all of them when there are fewer. */
  ghost function Batch(times: map<string, int>, ids: set<string>, limit: nat): (chosen: set<string>)
    requires ids <= times.Keys
    ensures chosen <= ids && |chosen| <= limit
    ensures |chosen| < limit ==> chosen == ids
  {
    BatchExists(times, ids, limit);
    var chosen :| IsBatch(times, ids, limit, chosen);
    chosen
  }

  lemma BatchIsBatch(times: map<string, int>, ids: set<string>, limit: nat)
    requires ids <= times.Keys
    ensures IsBatch(times, ids, limit, Batch(times, ids, limit))
  {
  }

  lemma BatchIsFirst(times: map<string, int>, ids: set<string>, limit: nat, a: string, b: string)
    requires ids <= times.Keys
    requires a in Batch(times, ids, limit) && b in ids && b !in Batch(times, ids, limit)
    ensures Before(times, a, b)
  {
    BatchIsBatch(times, ids, limit);
  }

  method PickFirst(times: map<string, int>, ids: set<string>) returns (m: string)
    requires ids != {} && ids <= times.Keys
    ensures First(times, ids, m)
  {
    m :| m in ids;
    var rest := ids - {m};
    while rest != {}
      invariant rest < ids && m in ids - rest
      invariant First(times, ids - rest, m)
      decreases rest
    {
      var n :| n in rest;
      ghost var seen := ids - rest;
      LessTotal(m, n);
      if Before(times, n, m) {
        forall x | x in seen + {n} && x != n ensures Before(times, n, x) {
          if x != m {
            assert Before(times, m, x);
            if times[n] == times[m] == times[x] { LessTransitive(n, m, x); }
          }
        }
        m := n;
      }
      rest := rest - {n};
      assert ids - rest == seen + {n};
    }
    assert ids - rest == ids;
  }

  lemma SubsetSize(a: set<string>, b: set<string>)
    requires a <= b
    ensures |a| <= |b| && (|a| == |b| ==> a == b)
  {
    assert b == a + (b - a);
  }

  lemma BatchUnique(times: map<string, int>, ids: set<string>, limit: nat, x: set<string>, y: set<string>)
    requires IsBatch(times, ids, limit, x) && IsBatch(times, ids, limit, y)
    ensures x == y
  {
    SubsetSize(x, ids);
    SubsetSize(y, ids);
    if x != y {
      if x <= y { SubsetSize(x, y); }
      if y <= x { SubsetSize(y, x); }
      var a :| a in x && a !in y;
      var b :| b in y && b !in x;
      assert Before(times, a, b) && Before(times, b, a);
      if Less(a, b) && Less(b, a) {
        LessTransitive(a, b, a);
        LessIrreflexive(a);
      }
    }
  }

  /** ORDER BY time, id LIMIT n. */
  method PickBatch(times: map<string, int>, ids: set<string>, limit: nat) returns (chosen: set<string>)
    requires ids <= times.Keys
    ensures chosen == Batch(times, ids, limit)
  {
    chosen := PickBest(times, ids, limit);
    BatchIsBatch(times, ids, limit);
    BatchUnique(times, ids, limit, chosen, Batch(times, ids, limit));
  }

  method PickBest(times: map<string, int>, ids: set<string>, limit: nat) returns (chosen: set<string>)
    requires ids <= times.Keys
    ensures IsBatch(times, ids, limit, chosen)
  {
    chosen := {};
    var rest := ids;
    while |chosen| < limit && rest != {}
      invariant chosen <= ids && rest == ids - chosen && |chosen| <= limit
      invariant forall a, b :: a in chosen && b in rest ==> Before(times, a, b)
      decreases rest
    {
      var m := PickFirst(times, rest);
      chosen, rest := chosen + {m}, rest - {m};
    }
  }
}
