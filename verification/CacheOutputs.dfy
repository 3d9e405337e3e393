/**
 The outputs a run reports: listed in path order, compared by path, hash and size.
 */
module CacheOutputs {
  import opened Ordering

  datatype Output = Output(path: string, hash: string, size: int, ref: string)

  // ---- Outputs in path order ----

  function InsertByPath(o: Output, sorted: seq<Output>): (r: seq<Output>)
    ensures multiset(r) == multiset{o} + multiset(sorted)
    ensures |r| == |sorted| + 1
  {
    if sorted == [] || !Less(sorted[0].path, o.path) then [o] + sorted
    else
      assert sorted == [sorted[0]] + sorted[1..];
      [sorted[0]] + InsertByPath(o, sorted[1..])
  }

  function SortByPath(outputs: seq<Output>): (r: seq<Output>)
    ensures multiset(r) == multiset(outputs)
    ensures |r| == |outputs|
  {
    if outputs == [] then []
    else
      var n := |outputs| - 1;
      assert outputs == outputs[..n] + [outputs[n]];
      InsertByPath(outputs[n], SortByPath(outputs[..n]))
  }

  function Paths(outputs: seq<Output>): (r: seq<string>)
    ensures |r| == |outputs|
  {
    seq(|outputs|, i requires 0 <= i < |outputs| => outputs[i].path)
  }

  predicate DistinctPaths(outputs: seq<Output>) {
    forall i, j :: 0 <= i < j < |outputs| ==> outputs[i].path != outputs[j].path
  }

  predicate AtMost(a: string, b: string) { a == b || Less(a, b) }

  lemma AtMostTransitive(a: string, b: string, c: string)
    requires AtMost(a, b) && AtMost(b, c)
    ensures AtMost(a, c)
  {
    if a != b && b != c { LessTransitive(a, b, c); }
  }

  predicate InPathOrder(outputs: seq<Output>) {
    forall i, j :: 0 <= i < j < |outputs| ==> AtMost(outputs[i].path, outputs[j].path)
  }

  lemma {:induction false} InsertOrdered(o: Output, sorted: seq<Output>)
    requires InPathOrder(sorted)
    ensures InPathOrder(InsertByPath(o, sorted))
  {
    var r := InsertByPath(o, sorted);
    if sorted == [] {
    } else if !Less(sorted[0].path, o.path) {
      LessTotal(sorted[0].path, o.path);
      forall j | 0 <= j < |sorted| ensures AtMost(o.path, sorted[j].path) {
        if j > 0 { AtMostTransitive(o.path, sorted[0].path, sorted[j].path); }
      }
    } else {
      var tail := InsertByPath(o, sorted[1..]);
      InsertOrdered(o, sorted[1..]);
      forall j | 0 <= j < |tail| ensures AtMost(sorted[0].path, tail[j].path) {
        FromInsert(o, sorted[1..], j);
      }
    }
  }

  lemma FromInsert(o: Output, rest: seq<Output>, k: nat)
    requires k < |InsertByPath(o, rest)|
    ensures InsertByPath(o, rest)[k] == o || InsertByPath(o, rest)[k] in rest
  {
    assert InsertByPath(o, rest)[k] in multiset(InsertByPath(o, rest));
  }

  lemma {:induction false} SortOrdered(outputs: seq<Output>)
    ensures InPathOrder(SortByPath(outputs))
  {
    if outputs != [] {
      SortOrdered(outputs[..|outputs| - 1]);
      InsertOrdered(outputs[|outputs| - 1], SortByPath(outputs[..|outputs| - 1]));
    }
  }

  lemma OrderedAscends(outputs: seq<Output>)
    requires InPathOrder(outputs) && DistinctPaths(outputs)
    ensures Ascending(Paths(outputs))
  {
  }

  lemma SortAscends(outputs: seq<Output>)
    requires DistinctPaths(outputs)
    ensures Ascending(Paths(SortByPath(outputs)))
  {
    SortOrdered(outputs);
    SortDistinct(outputs);
    OrderedAscends(SortByPath(outputs));
  }

  /** Whether paths repeat does not depend on the order: each path's occurrences are counted. */
  lemma SortDistinct(outputs: seq<Output>)
    ensures DistinctPaths(SortByPath(outputs)) <==> DistinctPaths(outputs)
  {
    DistinctByCount(outputs);
    DistinctByCount(SortByPath(outputs));
  }

  ghost predicate NoTwo(m: multiset<Output>) {
    forall a, b :: a in m && b in m && a.path == b.path ==> a == b && m[a] == 1
  }

  lemma DistinctByCount(outputs: seq<Output>)
    ensures DistinctPaths(outputs) <==> NoTwo(multiset(outputs))
  {
    if DistinctPaths(outputs) {
      forall a, b | a in multiset(outputs) && b in multiset(outputs) && a.path == b.path
        ensures a == b && multiset(outputs)[a] == 1
      {
        var i :| 0 <= i < |outputs| && outputs[i] == a;
        var j :| 0 <= j < |outputs| && outputs[j] == b;
        assert i == j;
        OnceAt(outputs, i);
      }
    } else {
      var i, j :| 0 <= i < j < |outputs| && outputs[i].path == outputs[j].path;
      assert outputs[i] in multiset(outputs) && outputs[j] in multiset(outputs);
      if outputs[i] == outputs[j] { TwiceAt(outputs, i, j); }
    }
  }

  lemma OnceAt(outputs: seq<Output>, i: nat)
    requires DistinctPaths(outputs) && i < |outputs|
    ensures multiset(outputs)[outputs[i]] == 1
  {
    assert outputs == outputs[..i] + [outputs[i]] + outputs[i + 1..];
    assert outputs[i] !in outputs[..i] && outputs[i] !in outputs[i + 1..];
  }

  lemma TwiceAt(outputs: seq<Output>, i: nat, j: nat)
    requires i < j < |outputs| && outputs[i] == outputs[j]
    ensures multiset(outputs)[outputs[i]] >= 2
  {
    assert outputs == outputs[..j] + [outputs[j]] + outputs[j + 1..];
    assert outputs[..j][i] == outputs[i] && outputs[i] in multiset(outputs[..j]);
  }

  /** sort.Slice by path. */
  method Sort(outputs: seq<Output>) returns (sorted: seq<Output>)
    ensures sorted == SortByPath(outputs)
  {
    sorted := [];
    for i := 0 to |outputs|
      invariant sorted == SortByPath(outputs[..i])
    {
      assert outputs[..i + 1][..i] == outputs[..i];
      sorted := InsertByPath(outputs[i], sorted);
    }
    assert outputs[..|outputs|] == outputs;
  }

  // ---- Validation ----

  predicate ValidOutput(o: Output) {
    o.path != "" && Prefixed("sha256:", o.hash) && o.size >= 0 && o.ref != ""
  }

  predicate ValidOutputs(outputs: seq<Output>) {
    outputs != [] && DistinctPaths(outputs) && forall o :: o in outputs ==> ValidOutput(o)
  }

  lemma {:induction false} NeighboursSuffice(outputs: seq<Output>, i: nat, j: nat)
    requires InPathOrder(outputs) && i < j < |outputs|
    requires forall k :: 0 < k < |outputs| ==> outputs[k - 1].path != outputs[k].path
    ensures Less(outputs[i].path, outputs[j].path)
  {
    assert outputs[j - 1].path != outputs[j].path && AtMost(outputs[j - 1].path, outputs[j].path);
    if i < j - 1 {
      NeighboursSuffice(outputs, i, j - 1);
      LessTransitive(outputs[i].path, outputs[j - 1].path, outputs[j].path);
    }
  }

  /** The loop over sorted outputs compares neighbours only; that finds every repeated path. */
  method CheckOutputs(outputs: seq<Output>) returns (ok: bool)
    requires InPathOrder(outputs)
    ensures ok <==> ValidOutputs(outputs)
  {
    if outputs == [] {
      return false;
    }
    for i := 0 to |outputs|
      invariant forall k :: 0 <= k < i ==> ValidOutput(outputs[k])
      invariant forall k :: 0 < k < i ==> outputs[k - 1].path != outputs[k].path
    {
      if !ValidOutput(outputs[i]) {
        assert outputs[i] in outputs;
        return false;
      }
      if i > 0 && outputs[i - 1].path == outputs[i].path {
        return false;
      }
    }
    forall i, j | 0 <= i < j < |outputs| ensures outputs[i].path != outputs[j].path {
      NeighboursSuffice(outputs, i, j);
      LessIrreflexive(outputs[i].path);
    }
    return true;
  }

  lemma SortValid(outputs: seq<Output>)
    ensures ValidOutputs(SortByPath(outputs)) <==> ValidOutputs(outputs)
  {
    SortDistinct(outputs);
    forall o ensures o in SortByPath(outputs) <==> o in outputs {
      assert o in multiset(SortByPath(outputs)) <==> o in multiset(outputs);
    }
  }

  /** What sameCacheOutputs compares. */
  datatype Fact = Fact(path: string, hash: string, size: int)

  function FactOf(o: Output): Fact { Fact(o.path, o.hash, o.size) }

  function Facts(outputs: seq<Output>): (r: seq<Fact>)
    ensures |r| == |outputs|
  {
    seq(|outputs|, i requires 0 <= i < |outputs| => FactOf(outputs[i]))
  }

  method SameOutputs(left: seq<Output>, right: seq<Output>) returns (same: bool)
    ensures same <==> Facts(left) == Facts(right)
  {
    if |left| != |right| {
      return false;
    }
    for i := 0 to |left|
      invariant forall j :: 0 <= j < i ==> FactOf(left[j]) == FactOf(right[j])
    {
      if left[i].path != right[i].path || left[i].hash != right[i].hash || left[i].size != right[i].size {
        assert Facts(left)[i] != Facts(right)[i];
        return false;
      }
    }
    return true;
  }

  ghost function FactSet(outputs: seq<Output>): set<Fact> {
    set o | o in outputs :: FactOf(o)
  }

  lemma SortKeepsFacts(outputs: seq<Output>)
    ensures FactSet(SortByPath(outputs)) == FactSet(outputs)
  {
    forall o ensures o in SortByPath(outputs) <==> o in outputs {
      assert o in multiset(SortByPath(outputs)) <==> o in multiset(outputs);
    }
  }

  /** Sorting makes the comparison independent of the order in which outputs were reported. */
  lemma SortCanonical(a: seq<Output>, b: seq<Output>)
    requires DistinctPaths(a) && DistinctPaths(b)
    ensures Facts(SortByPath(a)) == Facts(SortByPath(b)) <==> FactSet(a) == FactSet(b)
  {
    SortKeepsFacts(a);
    SortKeepsFacts(b);
    SortAscends(a);
    SortAscends(b);
    if FactSet(a) == FactSet(b) {
      FactsUnique(SortByPath(a), SortByPath(b));
    }
    if Facts(SortByPath(a)) == Facts(SortByPath(b)) {
      SameFactSet(SortByPath(a), SortByPath(b));
    }
  }

  lemma SameFactSet(x: seq<Output>, y: seq<Output>)
    requires Facts(x) == Facts(y)
    ensures FactSet(x) == FactSet(y)
  {
    FactSetListed(x);
    FactSetListed(y);
  }

  lemma FactSetListed(x: seq<Output>)
    ensures forall f :: f in FactSet(x) <==> f in Facts(x)
  {
    forall f ensures f in FactSet(x) <==> f in Facts(x) {
      if f in FactSet(x) {
        var o :| o in x && FactOf(o) == f;
        var i :| 0 <= i < |x| && x[i] == o;
        assert Facts(x)[i] == f;
      }
      if f in Facts(x) {
        var i :| 0 <= i < |x| && Facts(x)[i] == f;
        assert x[i] in x && FactOf(x[i]) == f;
      }
    }
  }

  lemma FactsUnique(x: seq<Output>, y: seq<Output>)
    requires Ascending(Paths(x)) && Ascending(Paths(y)) && FactSet(x) == FactSet(y)
    ensures Facts(x) == Facts(y)
  {
    PathsFromFacts(x, y);
    PathsFromFacts(y, x);
    AscendingSize(Paths(x));
    AscendingSize(Paths(y));
    assert (set k | k in Paths(x)) == (set k | k in Paths(y));
    AscendingUnique(Paths(x), Paths(y));
    FactSetListed(x);
    FactSetListed(y);
    forall i | 0 <= i < |x| ensures Facts(x)[i] == Facts(y)[i] {
      assert Facts(x)[i] in Facts(x);
      var j :| 0 <= j < |y| && Facts(y)[j] == Facts(x)[i];
      assert Paths(y)[j] == Paths(x)[i] == Paths(y)[i];
      AscendingDistinct(Paths(y), i, j);
    }
  }

  lemma PathsFromFacts(x: seq<Output>, y: seq<Output>)
    requires FactSet(x) == FactSet(y)
    ensures forall p :: p in Paths(x) ==> p in Paths(y)
  {
    FactSetListed(x);
    FactSetListed(y);
    forall p | p in Paths(x) ensures p in Paths(y) {
      var i :| 0 <= i < |x| && Paths(x)[i] == p;
      assert Facts(x)[i] in Facts(x);
      var j :| 0 <= j < |y| && Facts(y)[j] == Facts(x)[i];
      assert Paths(y)[j] == p;
    }
  }
}
