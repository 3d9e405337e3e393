/**
 What retention must keep: the runs and artifacts that current records refer to, the newest runs,
 and the blobs retained artifacts and live cache entries still need.
 */
module Protection {
  import opened Wrappers
  import opened JsonValues
  import opened Ordering

  datatype RunView = RunView(running: bool, streams: bool, finished: Option<int>, prepared: Option<int>)

  datatype ArtifactView = ArtifactView(runRef: string, hash: string, stored: bool)

  /** A record as cleanup reads it; `run` and `artifact` are what its payload decodes to, if it does. */
  datatype Record = Record(
    id: string, kind: string, server: bool, current: bool, updated: int, evidence: seq<string>,
    payload: Json, run: Option<RunView>, artifact: Option<ArtifactView>)

  // ---- References ----

  function TrimRecord(s: string): string { if Prefixed("record:", s) then s[7..] else s }

  predicate HexDigit(c: char) { '0' <= c <= '9' || 'a' <= c <= 'f' }

  predicate ValidID(prefix: string, id: string) {
    Prefixed(prefix, id) && |id| == |prefix| + 32 && forall i :: |prefix| <= i < |id| ==> HexDigit(id[i])
  }

  predicate ValidRunID(id: string) { ValidID("run_", id) }

  predicate RefersTo(text: string, id: string) {
    id == TrimRecord(text) && (ValidRunID(id) || ValidID("artifact_", id))
  }

  /** The id is referred to by some string anywhere in the document. */
  ghost predicate Names(j: Json, id: string) {
    match j
    case JString(text) => RefersTo(text, id)
    case JArray(items) => exists i :: 0 <= i < |items| && Names(items[i], id)
    case JObject(fields) => exists k :: k in fields && Names(fields[k], id)
    case _ => false
  }

  ghost predicate ProtectedBy(r: Record, id: string) {
    && r.current && !r.server
    && ((exists i :: 0 <= i < |r.evidence| && RefersTo(r.evidence[i], id)) || Names(r.payload, id))
  }

  ghost predicate Protected(all: seq<Record>, id: string) {
    exists i :: 0 <= i < |all| && ProtectedBy(all[i], id)
  }

  /** collectProtectedRef. */
  method CollectRef(text: string, known: set<string>) returns (refs: set<string>)
    ensures forall id :: id in refs <==> id in known || RefersTo(text, id)
  {
    var value := TrimRecord(text);
    refs := known;
    if ValidRunID(value) || ValidID("artifact_", value) {
      refs := refs + {value};
    }
  }

  /** collectProtectedRefs: the walk over arrays and objects. */
  method CollectRefs(j: Json, known: set<string>) returns (refs: set<string>)
    ensures forall id :: id in refs <==> id in known || Names(j, id)
    decreases j
  {
    refs := known;
    match j {
      case JString(text) =>
        refs := CollectRef(text, refs);
      case JArray(items) =>
        for n := 0 to |items|
          invariant forall id :: id in refs <==> id in known || exists i :: 0 <= i < n && Names(items[i], id)
        {
          refs := CollectRefs(items[n], refs);
        }
      case JObject(fields) =>
        var rest := fields.Keys;
        while rest != {}
          invariant rest <= fields.Keys
          invariant forall id :: id in refs <==> id in known || exists k :: k in fields.Keys - rest
                                                                  && Names(fields[k], id)
          decreases rest
        {
          var k :| k in rest;
          refs := CollectRefs(fields[k], refs);
          rest := rest - {k};
        }
      case _ =>
    }
  }

  method CollectEvidence(evidence: seq<string>, known: set<string>) returns (refs: set<string>)
    ensures forall id :: id in refs <==> id in known || exists i :: 0 <= i < |evidence| && RefersTo(evidence[i], id)
  {
    refs := known;
    for n := 0 to |evidence|
      invariant forall id :: id in refs <==> id in known || exists i :: 0 <= i < n && RefersTo(evidence[i], id)
    {
      refs := CollectRef(evidence[n], refs);
    }
  }

  method CollectRecord(r: Record, known: set<string>) returns (refs: set<string>)
    ensures forall id :: id in refs <==> id in known || ProtectedBy(r, id)
  {
    refs := known;
    if r.current && !r.server {
      refs := CollectEvidence(r.evidence, refs);
      refs := CollectRefs(r.payload, refs);
    }
  }

  method CollectProtected(all: seq<Record>) returns (protected: set<string>)
    ensures forall id :: id in protected <==> Protected(all, id)
  {
    protected := {};
    for n := 0 to |all|
      invariant forall id :: id in protected <==> exists i :: 0 <= i < n && ProtectedBy(all[i], id)
    {
      protected := CollectRecord(all[n], protected);
    }
  }

  // ---- Newest runs first ----

  /** runRetentionTime. */
  function RetentionTime(r: Record): int {
    match r.run
    case Some(v) =>
      if v.finished.Some? then v.finished.value else if v.prepared.Some? then v.prepared.value else r.updated
    case None => r.updated
  }

  predicate NewestFirst(runs: seq<Record>) {
    forall i, j :: 0 <= i < j < |runs| ==> RetentionTime(runs[i]) >= RetentionTime(runs[j])
  }

  /** A stable insertion: after every run at least as new. */
  function InsertRun(sorted: seq<Record>, r: Record): (s: seq<Record>)
    ensures |s| == |sorted| + 1
  {
    if sorted != [] && RetentionTime(sorted[0]) >= RetentionTime(r) then [sorted[0]] + InsertRun(sorted[1..], r)
    else [r] + sorted
  }

  function SortRuns(runs: seq<Record>): (s: seq<Record>)
    ensures |s| == |runs|
  {
    if runs == [] then [] else InsertRun(SortRuns(runs[..|runs| - 1]), runs[|runs| - 1])
  }

  /** How many of the runs are at least as new as `t`. */
  function AsNewAs(runs: seq<Record>, t: int): nat {
    if runs == [] then 0 else (if RetentionTime(runs[0]) >= t then 1 else 0) + AsNewAs(runs[1..], t)
  }

  lemma {:induction false} InsertRunOrdered(sorted: seq<Record>, r: Record)
    requires NewestFirst(sorted)
    ensures NewestFirst(InsertRun(sorted, r))
    ensures forall x :: x in InsertRun(sorted, r) <==> x in sorted || x == r
    ensures forall t ::
              AsNewAs(InsertRun(sorted, r), t) == AsNewAs(sorted, t) + (if RetentionTime(r) >= t then 1 else 0)
  {
    if sorted != [] && RetentionTime(sorted[0]) >= RetentionTime(r) {
      InsertRunOrdered(sorted[1..], r);
      var tail := InsertRun(sorted[1..], r);
      assert InsertRun(sorted, r)[1..] == tail;
      forall j | 0 <= j < |tail| ensures RetentionTime(sorted[0]) >= RetentionTime(tail[j]) {
        assert tail[j] in tail;
      }
      assert sorted == [sorted[0]] + sorted[1..];
    } else {
      assert InsertRun(sorted, r)[1..] == sorted;
    }
  }

  lemma {:induction false} AsNewAsAppend(runs: seq<Record>, r: Record, t: int)
    ensures AsNewAs(runs + [r], t) == AsNewAs(runs, t) + (if RetentionTime(r) >= t then 1 else 0)
  {
    if runs == [] {
      assert (runs + [r])[1..] == [];
    } else {
      assert (runs + [r])[1..] == runs[1..] + [r];
      AsNewAsAppend(runs[1..], r, t);
    }
  }

  lemma {:induction false} SortRunsOrdered(runs: seq<Record>)
    ensures NewestFirst(SortRuns(runs))
    ensures forall x :: x in SortRuns(runs) <==> x in runs
    ensures forall t :: AsNewAs(SortRuns(runs), t) == AsNewAs(runs, t)
  {
    if runs != [] {
      var n := |runs| - 1;
      SortRunsOrdered(runs[..n]);
      InsertRunOrdered(SortRuns(runs[..n]), runs[n]);
      assert runs == runs[..n] + [runs[n]];
      forall t ensures AsNewAs(SortRuns(runs), t) == AsNewAs(runs, t) {
        AsNewAsAppend(runs[..n], runs[n], t);
      }
    }
  }

  lemma {:induction false} EarlierAsNew(sorted: seq<Record>, i: nat)
    requires NewestFirst(sorted) && i < |sorted|
    ensures AsNewAs(sorted, RetentionTime(sorted[i])) > i
  {
    if i > 0 {
      EarlierAsNew(sorted[1..], i - 1);
      assert sorted[1..][i - 1] == sorted[i];
    }
  }

  /** sort.SliceStable by retention time, newest first. */
  method SortNewest(runs: seq<Record>) returns (sorted: seq<Record>)
    ensures sorted == SortRuns(runs)
  {
    sorted := [];
    for n := 0 to |runs|
      invariant sorted == SortRuns(runs[..n])
    {
      assert runs[..n + 1][..n] == runs[..n];
      sorted := InsertRun(sorted, runs[n]);
    }
    assert runs[..|runs|] == runs;
  }

  // ---- Eligible runs and the hashes to keep ----

  /** A listed run past the newest `keep`, older than the cutoff, and not referred to. */
  ghost predicate MayExpire(sorted: seq<Record>, i: int, keep: int, cutoff: int, all: seq<Record>) {
    && 0 <= i < |sorted| && keep <= i && RetentionTime(sorted[i]) < cutoff && ValidRunID(sorted[i].id)
    && !Protected(all, sorted[i].id)
  }

  ghost predicate Eligible(sorted: seq<Record>, keep: int, cutoff: int, all: seq<Record>, id: string) {
    exists i :: MayExpire(sorted, i, keep, cutoff, all) && sorted[i].id == id
  }

  method EligibleRuns(sorted: seq<Record>, keep: int, cutoff: int, ghost all: seq<Record>, protected: set<string>)
    returns (eligible: set<string>)
    requires forall id :: id in protected <==> Protected(all, id)
    ensures forall id :: id in eligible <==> Eligible(sorted, keep, cutoff, all, id)
  {
    eligible := {};
    for n := 0 to |sorted|
      invariant forall id :: id in eligible <==> exists i :: 0 <= i < n && MayExpire(sorted, i, keep, cutoff, all)
                                                   && sorted[i].id == id
    {
      if n >= keep && RetentionTime(sorted[n]) < cutoff && ValidRunID(sorted[n].id) && sorted[n].id !in protected {
        assert MayExpire(sorted, n, keep, cutoff, all);
        eligible := eligible + {sorted[n].id};
      }
    }
  }

  predicate IsArtifact(r: Record) { r.kind == "artifact" && r.server && r.artifact.Some? }

  function RunOf(r: Record): string
    requires r.artifact.Some?
  { TrimRecord(r.artifact.value.runRef) }

  /** An artifact of a run that stays, or one that a current record names, keeps its blob. */
  predicate KeepsBlob(r: Record, eligible: set<string>, protected: set<string>) {
    IsArtifact(r) && (RunOf(r) !in eligible || r.id in protected)
  }

  /** Some artifact record keeps its blob, whose hash this is. */
  predicate KeptHash(all: seq<Record>, eligible: set<string>, protected: set<string>, h: string) {
    exists i :: 0 <= i < |all| && KeepsBlob(all[i], eligible, protected) && all[i].artifact.value.hash == h
  }

  predicate Lists(byRun: map<string, seq<Record>>, run: string, r: Record) {
    run in byRun && r in byRun[run]
  }

  method IndexArtifacts(all: seq<Record>, eligible: set<string>, protected: set<string>, cached: set<string>)
    returns (byRun: map<string, seq<Record>>, kept: set<string>)
    ensures forall h :: h in kept <==> h in cached || KeptHash(all, eligible, protected, h)
    ensures forall run, r :: Lists(byRun, run, r) <==> r in all && IsArtifact(r) && RunOf(r) == run
  {
    byRun, kept := map[], cached;
    for n := 0 to |all|
      invariant forall h :: h in kept <==> h in cached || KeptHash(all[..n], eligible, protected, h)
      invariant forall run, r :: Lists(byRun, run, r) <==> r in all[..n] && IsArtifact(r) && RunOf(r) == run
    {
      var r := all[n];
      assert all[..n + 1] == all[..n] + [r];
      if IsArtifact(r) {
        byRun := Filed(byRun, RunOf(r), r);
        if RunOf(r) !in eligible || r.id in protected {
          kept := kept + {r.artifact.value.hash};
        }
      }
    }
    assert all[..|all|] == all;
  }

  function Filed(byRun: map<string, seq<Record>>, run: string, r: Record): (filed: map<string, seq<Record>>)
    ensures forall other, x :: Lists(filed, other, x) <==> Lists(byRun, other, x) || (other == run && x == r)
  {
    byRun[run := (if run in byRun then byRun[run] else []) + [r]]
  }
}
