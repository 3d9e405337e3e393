/**
 cleanupExpiredRuns: stream directories of old runs and blobs nothing retained needs are removed,
 at most `limit` of them, and the remaining budget goes to expired cache entries.
 */
module Retention {
  import opened Ordering
  import opened Protection
  import opened RetentionRules
  import CacheStore

  /** Removals the file system refuses, and records whose revision has moved on. */
  datatype Faults = Faults(directories: set<string>, blobs: set<string>, records: set<string>)

  /** What the pass has gathered before it removes anything; `runs` are newest first. */
  datatype Findings = Findings(
    runs: seq<Record>, keep: int, cutoff: int, protected: set<string>, kept: set<string>,
    byRun: map<string, seq<Record>>, faults: Faults, limit: nat)

  /** Files on disk and record updates made; `removed` counts them, `ok` is false once an update failed. */
  datatype Progress = Progress(
    directories: set<string>, blobs: set<string>, released: set<string>, deleted: set<string>, removed: nat, ok: bool)

  predicate ValidHash(hash: string) { Prefixed("sha256:", hash) && |hash| == 71 }

  // ---- One artifact, one run, the whole pass ----

  /** An artifact record whose blob the pass may remove. */
  predicate Droppable(f: Findings, r: Record) {
    r.id !in f.protected && r.artifact.Some? && r.artifact.value.stored && r.artifact.value.hash !in f.kept
        && ValidHash(r.artifact.value.hash)
  }

  function DropBlob(f: Findings, p: Progress, r: Record): Progress {
    if !Droppable(f, r) || r.artifact.value.hash in f.faults.blobs then p
    else
      var q := p.(blobs := p.blobs - {r.artifact.value.hash});
      if r.id in f.faults.records then q.(ok := false) else q.(deleted := q.deleted + {r.id}, removed := q.removed + 1)
  }

  predicate Halts(f: Findings, p: Progress) { !p.ok || p.removed >= f.limit }

  function DropBlobs(f: Findings, p: Progress, list: seq<Record>): Progress {
    if list == [] then p
    else
      var q := DropBlobs(f, p, list[..|list| - 1]);
      if Halts(f, q) then q else DropBlob(f, q, list[|list| - 1])
  }

  predicate Expires(f: Findings, i: nat)
    requires i < |f.runs|
  {
    var r := f.runs[i];
    i >= f.keep && RetentionTime(r) < f.cutoff && ValidRunID(r.id) && r.id !in f.protected && r.run.Some?
        && !r.run.value.running
  }

  function DropStreams(f: Findings, p: Progress, r: Record): Progress {
    if r.run.None? || !r.run.value.streams || r.id in f.faults.directories then p
    else
      var q := p.(directories := p.directories - {r.id});
      if r.id in f.faults.records then q.(ok := false)
          else q.(released := q.released + {r.id}, removed := q.removed + 1)
  }

  function ArtifactsOf(f: Findings, id: string): seq<Record> {
    if id in f.byRun then f.byRun[id] else []
  }

  function DropRun(f: Findings, p: Progress, i: nat): Progress
    requires i < |f.runs|
  {
    if !Expires(f, i) then p
    else
      var q := DropStreams(f, p, f.runs[i]);
      if !q.ok then q else DropBlobs(f, q, ArtifactsOf(f, f.runs[i].id))
  }

  function Sweep(f: Findings, p: Progress, n: nat): Progress
    requires n <= |f.runs|
  {
    if n == 0 then p
    else
      var q := Sweep(f, p, n - 1);
      if Halts(f, q) then q else DropRun(f, q, n - 1)
  }

  // ---- Nothing that must stay is removed ----

  ghost predicate BlobGoes(f: Findings, h: string) {
    exists i, r :: 0 <= i < |f.runs| && Expires(f, i) && r in ArtifactsOf(f, f.runs[i].id) && Droppable(f, r)
        && r.artifact.value.hash == h
  }

  ghost predicate StreamsGo(f: Findings, id: string) {
    exists i :: 0 <= i < |f.runs| && Expires(f, i) && f.runs[i].id == id && f.runs[i].run.value.streams
  }

  function Spent(a: Progress, b: Progress): nat {
    |a.directories - b.directories| + |a.blobs - b.blobs|
  }

  /** `b` may follow `a`: only what may go has gone, and the count covers it. */
  ghost predicate Safe(f: Findings, a: Progress, b: Progress) {
    && b.directories <= a.directories && b.blobs <= a.blobs
    && (forall h :: h in a.blobs && h !in b.blobs ==> BlobGoes(f, h))
    && (forall d :: d in a.directories && d !in b.directories ==> StreamsGo(f, d))
    && a.removed <= b.removed <= f.limit && (b.ok || b.removed < f.limit)
    && Spent(a, b) <= b.removed - a.removed + (if b.ok then 0 else 1)
  }

  lemma OneLess(before: set<string>, after: set<string>, x: string)
    ensures |before - (after - {x})| <= |before - after| + 1
  {
    var gone := before - after;
    assert before - (after - {x}) <= gone + {x};
    SubsetSize(before - (after - {x}), gone + {x});
  }

  lemma DropBlobSafe(f: Findings, a: Progress, p: Progress, r: Record)
    requires Safe(f, a, p) && !Halts(f, p) && (Droppable(f, r) ==> BlobGoes(f, r.artifact.value.hash))
    ensures Safe(f, a, DropBlob(f, p, r))
  {
    if Droppable(f, r) { OneLess(a.blobs, p.blobs, r.artifact.value.hash); }
  }

  lemma {:induction false} DropBlobsSafe(f: Findings, a: Progress, p: Progress, i: nat, list: seq<Record>)
    requires Safe(f, a, p) && i < |f.runs| && Expires(f, i)
    requires forall r :: r in list ==> r in ArtifactsOf(f, f.runs[i].id)
    ensures Safe(f, a, DropBlobs(f, p, list))
  {
    if list != [] {
      var n := |list| - 1;
      DropBlobsSafe(f, a, p, i, list[..n]);
      var q := DropBlobs(f, p, list[..n]);
      if !Halts(f, q) {
        assert list[n] in list;
        DropBlobSafe(f, a, q, list[n]);
      }
    }
  }

  lemma DropStreamsSafe(f: Findings, a: Progress, p: Progress, i: nat)
    requires Safe(f, a, p) && !Halts(f, p) && i < |f.runs| && Expires(f, i)
    ensures Safe(f, a, DropStreams(f, p, f.runs[i]))
  {
    OneLess(a.directories, p.directories, f.runs[i].id);
  }

  lemma {:induction false} SweepSafe(f: Findings, a: Progress, n: nat)
    requires n <= |f.runs| && a.ok && a.removed <= f.limit
    ensures Safe(f, a, Sweep(f, a, n))
  {
    if n == 0 {
      assert a.directories - a.directories == {} && a.blobs - a.blobs == {};
    } else {
      SweepSafe(f, a, n - 1);
      var q := Sweep(f, a, n - 1);
      if !Halts(f, q) && Expires(f, n - 1) {
        DropStreamsSafe(f, a, q, n - 1);
        var s := DropStreams(f, q, f.runs[n - 1]);
        if s.ok { DropBlobsSafe(f, a, s, n - 1, ArtifactsOf(f, f.runs[n - 1].id)); }
      }
    }
  }

  lemma SweepSpends(f: Findings, a: Progress)
    requires a.ok && a.removed == 0
    ensures var z := Sweep(f, a, |f.runs|);
      z.removed <= f.limit && Spent(a, z) <= (if z.ok then z.removed else f.limit)
  {
    SweepSafe(f, a, |f.runs|);
  }

  // ---- Below the limit, everything that may go is gone ----

  ghost predicate Gone(f: Findings, p: Progress, r: Record) {
    Droppable(f, r) && r.artifact.value.hash !in f.faults.blobs ==> r.artifact.value.hash !in p.blobs
                                                                      && r.id in p.deleted
  }

  ghost predicate RunGone(f: Findings, p: Progress, i: nat)
    requires i < |f.runs|
  {
    Expires(f, i) ==>
      && (f.runs[i].run.value.streams && f.runs[i].id !in f.faults.directories ==> f.runs[i].id !in p.directories
                                                                                     && f.runs[i].id in p.released)
      && forall r :: r in ArtifactsOf(f, f.runs[i].id) ==> Gone(f, p, r)
  }

  predicate Onward(p: Progress, q: Progress) {
    q.directories <= p.directories && q.blobs <= p.blobs && p.released <= q.released && p.deleted <= q.deleted
        && p.removed <= q.removed
  }

  lemma {:induction false} DropBlobsDone(f: Findings, p: Progress, list: seq<Record>)
    ensures var q := DropBlobs(f, p, list); Onward(p, q) && (!Halts(f, q) ==> forall r :: r in list ==> Gone(f, q, r))
  {
    if list != [] {
      DropBlobsDone(f, p, list[..|list| - 1]);
      assert list == list[..|list| - 1] + [list[|list| - 1]];
    }
  }

  lemma DropRunDone(f: Findings, p: Progress, i: nat)
    requires i < |f.runs|
    ensures var q := DropRun(f, p, i); Onward(p, q) && (!Halts(f, q) ==> RunGone(f, q, i))
  {
    if Expires(f, i) {
      var s := DropStreams(f, p, f.runs[i]);
      if s.ok { DropBlobsDone(f, s, ArtifactsOf(f, f.runs[i].id)); }
    }
  }

  lemma RunStaysGone(f: Findings, p: Progress, q: Progress, i: nat)
    requires i < |f.runs| && RunGone(f, p, i) && Onward(p, q)
    ensures RunGone(f, q, i)
  {
    if Expires(f, i) {
      forall r | r in ArtifactsOf(f, f.runs[i].id) ensures Gone(f, q, r) {
        assert Gone(f, p, r);
      }
    }
  }

  lemma {:induction false} SweepDone(f: Findings, a: Progress, n: nat)
    requires n <= |f.runs|
    ensures !Halts(f, Sweep(f, a, n)) ==> forall i :: 0 <= i < n ==> RunGone(f, Sweep(f, a, n), i)
  {
    if n > 0 {
      SweepDone(f, a, n - 1);
      var q := Sweep(f, a, n - 1);
      if !Halts(f, q) {
        DropRunDone(f, q, n - 1);
        var z := DropRun(f, q, n - 1);
        forall i | 0 <= i < n && !Halts(f, z) ensures RunGone(f, z, i) {
          if i < n - 1 { RunStaysGone(f, q, z, i); }
        }
      }
    }
  }

  // ---- The pass ----

  /** Findings are what the two listings and the cache say. */
  ghost predicate Gathered(f: Findings, all: seq<Record>, runs: seq<Record>, eligible: set<string>,
                           cached: set<string>) {
    && f.runs == SortRuns(runs)
    && (forall id :: id in f.protected <==> Protected(all, id))
    && (forall id :: id in eligible <==> Eligible(f.runs, f.keep, f.cutoff, all, id))
    && (forall h :: h in f.kept <==> h in cached || KeptHash(all, eligible, f.protected, h))
    && (forall run, r :: Lists(f.byRun, run, r) <==> r in all && IsArtifact(r) && RunOf(r) == run)
  }

  /** A place among the newest expires exactly when the run listed there is over. */
  lemma ExpiresExactly(f: Findings, all: seq<Record>, runs: seq<Record>, eligible: set<string>, cached: set<string>,
                       i: nat) returns (k: nat)
    requires Gathered(f, all, runs, eligible, cached) && i < |f.runs|
    ensures k < |runs| && f.runs[i] == runs[k]
    ensures Expires(f, i) <==> Over(all, runs, f.keep, f.cutoff, k)
  {
    k := SortedExpired(all, runs, f.keep, f.cutoff, i);
  }

  lemma OverExpires(f: Findings, all: seq<Record>, runs: seq<Record>, eligible: set<string>, cached: set<string>,
                    k: nat) returns (i: nat)
    requires Gathered(f, all, runs, eligible, cached) && Over(all, runs, f.keep, f.cutoff, k)
    ensures i < |f.runs| && f.runs[i] == runs[k] && Expires(f, i)
  {
    i := Rank(runs, k);
    ExpiredSorted(all, runs, f.keep, f.cutoff, k);
  }

  lemma StreamsGoExactly(f: Findings, all: seq<Record>, runs: seq<Record>, eligible: set<string>, cached: set<string>,
                         d: string)
    requires Gathered(f, all, runs, eligible, cached)
    ensures StreamsGo(f, d) <==> MayLoseStreams(all, runs, f.keep, f.cutoff, d)
  {
    if StreamsGo(f, d) {
      var i :| 0 <= i < |f.runs| && Expires(f, i) && f.runs[i].id == d && f.runs[i].run.value.streams;
      var k := ExpiresExactly(f, all, runs, eligible, cached, i);
    }
    if MayLoseStreams(all, runs, f.keep, f.cutoff, d) {
      var k: nat :| Over(all, runs, f.keep, f.cutoff, k) && runs[k].id == d && runs[k].run.value.streams;
      var i := OverExpires(f, all, runs, eligible, cached, k);
    }
  }

  lemma KeptExactly(f: Findings, all: seq<Record>, runs: seq<Record>, eligible: set<string>, cached: set<string>,
                    h: string)
    requires Gathered(f, all, runs, eligible, cached)
    ensures h in f.kept <==> h in cached || Needed(all, runs, f.keep, f.cutoff, h)
  {
    forall i | 0 <= i < |all| && IsArtifact(all[i])
      ensures KeepsBlob(all[i], eligible, f.protected)
              <==> Protected(all, all[i].id) || !RunExpired(all, runs, f.keep, f.cutoff, all[i])
    {
      RunEligible(all, runs, f.keep, f.cutoff, all[i]);
    }
    if i :| 0 <= i < |all| && KeepsBlob(all[i], eligible, f.protected) && all[i].artifact.value.hash == h {
      assert NeedsBlob(all, runs, f.keep, f.cutoff, h, i);
    }
  }

  /** The artifacts filed under an expired run are those that belong to it. */
  lemma FiledExactly(f: Findings, all: seq<Record>, runs: seq<Record>, eligible: set<string>, cached: set<string>,
                     id: string, r: Record)
    requires Gathered(f, all, runs, eligible, cached) && RunId(id)
    ensures r in ArtifactsOf(f, id) <==> r in all && IsArtifact(r) && BelongsTo(r, id)
  {
    assert Lists(f.byRun, id, r) <==> r in ArtifactsOf(f, id);
    if r.artifact.Some? { BelongsExactly(r, id); }
  }

  lemma Sha256Exactly(h: string)
    ensures ValidHash(h) <==> Sha256(h)
  {
  }

  /** An artifact record of a run that is over is droppable exactly when its stored blob is not needed. */
  lemma DroppableExactly(f: Findings, all: seq<Record>, runs: seq<Record>, eligible: set<string>, cached: set<string>,
                         i: int)
    requires Gathered(f, all, runs, eligible, cached) && 0 <= i < |all| && IsArtifact(all[i])
    ensures var h := all[i].artifact.value.hash;
      Droppable(f, all[i]) <==> all[i].artifact.value.stored && h !in cached && Sha256(h)
                                && !Needed(all, runs, f.keep, f.cutoff, h)
  {
    var h := all[i].artifact.value.hash;
    KeptExactly(f, all, runs, eligible, cached, h);
    Sha256Exactly(h);
    if Protected(all, all[i].id) { assert NeedsBlob(all, runs, f.keep, f.cutoff, h, i); }
  }

  lemma BlobGoesOnly(f: Findings, all: seq<Record>, runs: seq<Record>, eligible: set<string>, cached: set<string>,
                     h: string)
    requires Gathered(f, all, runs, eligible, cached) && BlobGoes(f, h)
    ensures MayDrop(all, runs, f.keep, f.cutoff, h) && h !in cached
  {
    var i, r :| 0 <= i < |f.runs| && Expires(f, i) && r in ArtifactsOf(f, f.runs[i].id) && Droppable(f, r)
        && r.artifact.value.hash == h;
    var k := ExpiresExactly(f, all, runs, eligible, cached, i);
    FiledExactly(f, all, runs, eligible, cached, runs[k].id, r);
    var j :| 0 <= j < |all| && all[j] == r;
    DroppableExactly(f, all, runs, eligible, cached, j);
    assert DropsFor(all, runs, f.keep, f.cutoff, h, k, j);
  }

  /** Every artifact record a needless blob is stored for is among those the pass looks at. */
  lemma DropsFound(f: Findings, all: seq<Record>, runs: seq<Record>, eligible: set<string>, cached: set<string>,
                   h: string, k: nat, j: int) returns (i: nat)
    requires Gathered(f, all, runs, eligible, cached) && DropsFor(all, runs, f.keep, f.cutoff, h, k, j)
    requires !Needed(all, runs, f.keep, f.cutoff, h) && Sha256(h) && h !in cached
    ensures i < |f.runs| && Expires(f, i) && all[j] in ArtifactsOf(f, f.runs[i].id) && Droppable(f, all[j])
  {
    i := OverExpires(f, all, runs, eligible, cached, k);
    FiledExactly(f, all, runs, eligible, cached, runs[k].id, all[j]);
    DroppableExactly(f, all, runs, eligible, cached, j);
  }

  /** Whatever a pass removes may go: no stream directory, blob or needed hash beyond that. */
  lemma SweepProtects(f: Findings, all: seq<Record>, runs: seq<Record>, eligible: set<string>, cached: set<string>,
                      a: Progress)
    requires Gathered(f, all, runs, eligible, cached) && a.ok && a.removed <= f.limit
    ensures var z := Sweep(f, a, |f.runs|);
      && (forall h :: h in a.blobs && h !in z.blobs ==> MayDrop(all, runs, f.keep, f.cutoff, h) && h !in cached)
      && (forall d :: d in a.directories && d !in z.directories ==> MayLoseStreams(all, runs, f.keep, f.cutoff, d))
  {
    SweepSafe(f, a, |f.runs|);
    var z := Sweep(f, a, |f.runs|);
    forall h | h in a.blobs && h !in z.blobs ensures MayDrop(all, runs, f.keep, f.cutoff, h) && h !in cached {
      BlobGoesOnly(f, all, runs, eligible, cached, h);
    }
    forall d | d in a.directories && d !in z.directories ensures MayLoseStreams(all, runs, f.keep, f.cutoff, d) {
      StreamsGoExactly(f, all, runs, eligible, cached, d);
    }
  }

  /** The streams that may be lost are gone and their records say so. */
  ghost predicate StreamsCleared(all: seq<Record>, runs: seq<Record>, keep: int, cutoff: int, faults: Faults,
                                 z: Progress) {
    forall d :: MayLoseStreams(all, runs, keep, cutoff, d) && d !in faults.directories ==>
      d !in z.directories && d in z.released
  }

  /** The blobs that may be dropped are gone and the records they were stored for say so. */
  ghost predicate BlobsCleared(all: seq<Record>, runs: seq<Record>, keep: int, cutoff: int, faults: Faults,
                               cached: set<string>, z: Progress) {
    forall h, k: nat, i ::
      && DropsFor(all, runs, keep, cutoff, h, k, i) && !Needed(all, runs, keep, cutoff, h) && Sha256(h)
      && h !in cached && h !in faults.blobs
      ==> h !in z.blobs && all[i].id in z.deleted
  }

  /** Everything that may go has gone. */
  ghost predicate Cleared(all: seq<Record>, runs: seq<Record>, keep: int, cutoff: int, faults: Faults,
                          cached: set<string>, z: Progress) {
    StreamsCleared(all, runs, keep, cutoff, faults, z) && BlobsCleared(all, runs, keep, cutoff, faults, cached, z)
  }

  /** A pass that was not stopped removes everything that may go. */
  lemma SweepCompletes(f: Findings, all: seq<Record>, runs: seq<Record>, eligible: set<string>, cached: set<string>,
                       a: Progress)
    requires Gathered(f, all, runs, eligible, cached) && !Halts(f, Sweep(f, a, |f.runs|))
    ensures StreamsCleared(all, runs, f.keep, f.cutoff, f.faults, Sweep(f, a, |f.runs|))
    ensures BlobsCleared(all, runs, f.keep, f.cutoff, f.faults, cached, Sweep(f, a, |f.runs|))
  {
    SweepDone(f, a, |f.runs|);
    var z := Sweep(f, a, |f.runs|);
    forall d | MayLoseStreams(all, runs, f.keep, f.cutoff, d) && d !in f.faults.directories
      ensures d !in z.directories && d in z.released
    {
      StreamsGoExactly(f, all, runs, eligible, cached, d);
      var i :| 0 <= i < |f.runs| && Expires(f, i) && f.runs[i].id == d && f.runs[i].run.value.streams;
      assert RunGone(f, z, i);
    }
    forall h, k: nat, j | DropsFor(all, runs, f.keep, f.cutoff, h, k, j) && !Needed(all, runs, f.keep, f.cutoff, h)
                          && Sha256(h) && h !in cached && h !in f.faults.blobs
      ensures h !in z.blobs && all[j].id in z.deleted
    {
      var i := DropsFound(f, all, runs, eligible, cached, h, k, j);
      assert RunGone(f, z, i) && Gone(f, z, all[j]);
    }
  }

  /** From `a` to `z` only streams that may be lost and blobs that nothing needs have gone. */
  ghost predicate OnlyNeedless(all: seq<Record>, runs: seq<Record>, keep: int, cutoff: int, cached: set<string>,
                               a: Progress, z: Progress) {
    && (forall h :: h in a.blobs && h !in z.blobs ==> MayDrop(all, runs, keep, cutoff, h) && h !in cached)
    && (forall d :: d in a.directories && d !in z.directories ==> MayLoseStreams(all, runs, keep, cutoff, d))
  }

  /** From `a` to `z` only what may go has gone, and unless the pass was stopped all of it. */
  ghost predicate Sound(all: seq<Record>, runs: seq<Record>, keep: int, cutoff: int, faults: Faults, limit: nat,
                        cached: set<string>, a: Progress, z: Progress) {
    && OnlyNeedless(all, runs, keep, cutoff, cached, a, z)
    && (z.ok && z.removed < limit ==> Cleared(all, runs, keep, cutoff, faults, cached, z))
  }

  lemma PassSound(f: Findings, all: seq<Record>, runs: seq<Record>, eligible: set<string>, cached: set<string>,
                  a: Progress)
    requires Gathered(f, all, runs, eligible, cached) && a.ok && a.removed <= f.limit
    ensures Sound(all, runs, f.keep, f.cutoff, f.faults, f.limit, cached, a, Sweep(f, a, |f.runs|))
  {
    SweepProtects(f, all, runs, eligible, cached, a);
    if !Halts(f, Sweep(f, a, |f.runs|)) { SweepCompletes(f, all, runs, eligible, cached, a); }
  }

  /** The two listings, collected and indexed as the pass does before removing anything. */
  method Gather(all: seq<Record>, runs: seq<Record>, keep: int, cutoff: int, cached: set<string>, faults: Faults,
                limit: nat)
    returns (f: Findings, eligible: set<string>)
    ensures Gathered(f, all, runs, eligible, cached)
    ensures f.keep == keep && f.cutoff == cutoff && f.faults == faults && f.limit == limit
  {
    var protected := CollectProtected(all);
    var sorted := SortNewest(runs);
    eligible := EligibleRuns(sorted, keep, cutoff, all, protected);
    var byRun, kept := IndexArtifacts(all, eligible, protected, cached);
    f := Findings(sorted, keep, cutoff, protected, kept, byRun, faults, limit);
  }

  /** Findings from which sweeping is sound. */
  method Find(all: seq<Record>, runs: seq<Record>, keep: int, cutoff: int, cached: set<string>, faults: Faults,
              limit: nat, ghost a: Progress)
    returns (f: Findings)
    requires a.ok && a.removed <= limit
    ensures f.runs == SortRuns(runs) && f.keep == keep && f.cutoff == cutoff && f.faults == faults && f.limit == limit
    ensures Sound(all, runs, keep, cutoff, faults, limit, cached, a, Sweep(f, a, |f.runs|))
  {
    var findings, eligible := Gather(all, runs, keep, cutoff, cached, faults, limit);
    f := findings;
    PassSound(f, all, runs, eligible, cached, a);
  }

  class Disk {
    var directories: set<string>
    var blobs: set<string>
    var released: set<string>    // run records now saying streams_retained is false
    var deleted: set<string>     // artifact records now saying storage is deleted

    ghost function Now(removed: nat, ok: bool): Progress
      reads this
    {
      Progress(directories, blobs, released, deleted, removed, ok)
    }

    method RemoveBlob(f: Findings, r: Record, spent: nat) returns (removed: nat, ok: bool)
      modifies this`blobs, this`deleted
      ensures Now(removed, ok) == DropBlob(f, old(Now(spent, true)), r)
    {
      if !Droppable(f, r) || r.artifact.value.hash in f.faults.blobs {
        return spent, true;
      }
      var hash := r.artifact.value.hash;
      blobs := blobs - {hash};
      if r.id in f.faults.records {
        return spent, false;
      }
      deleted := deleted + {r.id};
      return spent + 1, true;
    }

    method RemoveBlobs(f: Findings, list: seq<Record>, spent: nat) returns (removed: nat, ok: bool)
      modifies this`blobs, this`deleted
      ensures Now(removed, ok) == DropBlobs(f, old(Now(spent, true)), list)
    {
      removed, ok := spent, true;
      ghost var start := Now(spent, true);
      for n := 0 to |list|
        invariant Now(removed, ok) == DropBlobs(f, start, list[..n])
        invariant directories == start.directories && released == start.released
      {
        assert list[..n + 1][..n] == list[..n];
        if ok && removed < f.limit {
          removed, ok := RemoveBlob(f, list[n], removed);
        }
      }
      assert list[..|list|] == list;
    }

    method RemoveStreams(f: Findings, r: Record, spent: nat) returns (removed: nat, ok: bool)
      modifies this`directories, this`released
      ensures Now(removed, ok) == DropStreams(f, old(Now(spent, true)), r)
    {
      if r.run.None? || !r.run.value.streams || r.id in f.faults.directories {
        return spent, true;
      }
      directories := directories - {r.id};
      if r.id in f.faults.records {
        return spent, false;
      }
      released := released + {r.id};
      return spent + 1, true;
    }

    method SweepRuns(f: Findings) returns (removed: nat, ok: bool)
      modifies this
      ensures Now(removed, ok) == Sweep(f, old(Now(0, true)), |f.runs|)
    {
      removed, ok := 0, true;
      ghost var start := Now(0, true);
      for n := 0 to |f.runs|
        invariant Now(removed, ok) == Sweep(f, start, n)
      {
        if ok && removed < f.limit && Expires(f, n) {
          removed, ok := RemoveStreams(f, f.runs[n], removed);
          if ok {
            removed, ok := RemoveBlobs(f, ArtifactsOf(f, f.runs[n].id), removed);
          }
        }
      }
    }

    /** Removing what was found, then expiring cache entries with what is left of the budget. */
    method Remove(f: Findings, now: int, cache: CacheStore.CacheTable) returns (ok: bool, removed: nat)
      modifies this, cache
      ensures removed <= f.limit && Now(removed, ok) == Sweep(f, old(Now(0, true)), |f.runs|)
      ensures ok ==> cache.rows == CacheStore.Swept(old(cache.rows), now, f.limit - removed)
      ensures |old(directories) - directories| + |old(blobs) - blobs|
              + |old(cache.rows).Keys - cache.rows.Keys| <= f.limit
    {
      ghost var start := Now(0, true);
      removed, ok := SweepRuns(f);
      SweepSpends(f, start);
      ExpireWithin(cache, now, f.limit - removed, ok);
    }

    /** The pass once everything is listed. */
    method Pass(now: int, limit: nat, all: seq<Record>, runs: seq<Record>, keep: int, cutoff: int, cached: set<string>,
                cache: CacheStore.CacheTable, faults: Faults)
      returns (ok: bool, removed: nat, ghost f: Findings)
      modifies this, cache
      ensures Sound(all, runs, keep, cutoff, faults, limit, cached, old(Now(0, true)), Now(removed, ok))
      ensures f.runs == SortRuns(runs) && f.keep == keep && f.cutoff == cutoff && f.limit == limit
      ensures Finished(f, old(Now(0, true)), Now(removed, ok))
      ensures |old(directories) - directories| + |old(blobs) - blobs|
              + |old(cache.rows).Keys - cache.rows.Keys| <= limit
      ensures ok ==> cache.rows == CacheStore.Swept(old(cache.rows), now, Left(limit, removed))
    {
      ghost var start := Now(0, true);
      var findings := Find(all, runs, keep, cutoff, cached, faults, limit, start);
      f := findings;
      ok, removed := Remove(findings, now, cache);
      SweepFinished(f, start);
    }

    /**
     cleanupExpiredRuns. `complete` says that the listing of all records was not cut short; without a
     complete listing nothing is removed.
     */
    method Cleanup(now: int, limit: int, all: seq<Record>, complete: bool, runs: seq<Record>, keep: int, age: int,
                   cache: CacheStore.CacheTable, faults: Faults) returns (ok: bool, removed: nat, ghost f: Findings)
      modifies this, cache
      ensures Proceeds(limit, complete, old(cache.rows), now) ==>
                Sound(all, runs, keep, Cutoff(now, age), faults, limit, CacheStore.LiveHashes(old(cache.rows), now),
                    old(Now(0, true)), Now(removed, ok))
      ensures !Proceeds(limit, complete, old(cache.rows), now) ==>
                Now(removed, true) == old(Now(0, true)) && cache.rows == old(cache.rows) && (ok <==> 0 < limit <= 64)
      ensures f.runs == SortRuns(runs) && f.keep == keep && f.cutoff == Cutoff(now, age)
      ensures |old(directories) - directories| + |old(blobs) - blobs|
              + |old(cache.rows).Keys - cache.rows.Keys| <= if 0 < limit <= 64 then limit else 0
      ensures Proceeds(limit, complete, old(cache.rows), now) ==> f.limit == limit
                                                                    && Finished(f, old(Now(0, true)), Now(removed, ok))
      ensures Proceeds(limit, complete, old(cache.rows), now) && ok ==>
          cache.rows == CacheStore.Swept(old(cache.rows), now, Left(limit, removed))
    {
      f := Findings(SortRuns(runs), keep, Cutoff(now, age), {}, {}, map[], faults, 0);
      Nothing(directories, blobs, cache.rows.Keys);
      if limit <= 0 || limit > 64 {
        return false, 0, f;
      }
      if !complete {
        return true, 0, f;
      }
      var cached, listed := cache.ProtectedHashes(now, 10000);
      if !listed {
        return true, 0, f;
      }
      ok, removed, f := Pass(now, limit, all, runs, keep, Cutoff(now, age), cached, cache, faults);
    }
  }

  /** The cache's share of the budget, unless the pass failed. */
  method ExpireWithin(cache: CacheStore.CacheTable, now: int, budget: nat, ok: bool)
    modifies cache
    ensures ok ==> cache.rows == CacheStore.Swept(old(cache.rows), now, budget)
    ensures |old(cache.rows).Keys - cache.rows.Keys| <= if ok then budget else 0
  {
    if ok {
      CacheStore.ExpiryCount(cache.rows, now, budget);
      var count := cache.Expire(now, budget);
    } else {
      assert cache.rows.Keys - cache.rows.Keys == {};
    }
  }

  /** Only runs from before this time are old. */
  function Cutoff(now: int, age: int): int { now - age }

  /** What the removals leave of the budget. */
  function Left(limit: int, removed: nat): nat { if removed <= limit then limit - removed else 0 }

  /** The pass gets as far as removing things. */
  ghost predicate Proceeds(limit: int, complete: bool, rows: CacheStore.Table, now: int) {
    0 < limit <= 64 && complete && |CacheStore.LiveKeys(rows, now)| <= 10000
  }

  /** Unless it was stopped by the limit or a failed update, all that may go has gone. */
  ghost predicate Finished(f: Findings, a: Progress, z: Progress) {
    && z == Sweep(f, a, |f.runs|) && z.removed <= f.limit
    && (!Halts(f, z) ==> forall i :: 0 <= i < |f.runs| ==> RunGone(f, z, i))
  }

  lemma SweepFinished(f: Findings, a: Progress)
    requires a.ok && a.removed <= f.limit
    ensures Finished(f, a, Sweep(f, a, |f.runs|))
  {
    SweepSafe(f, a, |f.runs|);
    SweepDone(f, a, |f.runs|);
  }

  lemma Nothing(a: set<string>, b: set<string>, c: set<string>)
    ensures |a - a| == 0 && |b - b| == 0 && |c - c| == 0
  {
    assert a - a == {} && b - b == {} && c - c == {};
  }
}
