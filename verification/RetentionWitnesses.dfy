/** A blob that a still-running run's artifact names, and exactly when a pass removes it. */
module RetentionWitnesses {
  import opened Wrappers
  import opened JsonValues
  import opened Protection
  import opened RetentionRules
  import opened Retention

  /**
   A pass that was not stopped removes a blob exactly when some finished, expired run has a stored artifact
   with that hash and neither a record nor the cache needs it; whether a run of another artifact is still
   running plays no part.
   */
  lemma BlobGoesExactly(f: Findings, all: seq<Record>, runs: seq<Record>, eligible: set<string>, cached: set<string>,
                        a: Progress, h: string)
    requires Gathered(f, all, runs, eligible, cached)
    requires a.ok && a.removed <= f.limit && h in a.blobs && h !in f.faults.blobs
    requires !Halts(f, Sweep(f, a, |f.runs|))
    ensures h !in Sweep(f, a, |f.runs|).blobs <==> MayDrop(all, runs, f.keep, f.cutoff, h) && h !in cached
  {
    SweepProtects(f, all, runs, eligible, cached, a);
    if MayDrop(all, runs, f.keep, f.cutoff, h) && h !in cached {
      SweepCompletes(f, all, runs, eligible, cached, a);
      var k: nat, i :| DropsFor(all, runs, f.keep, f.cutoff, h, k, i);
    }
  }

  /** A stream directory goes exactly when its run is over, old, past the newest ones and not referred to. */
  lemma DirectoryGoesExactly(f: Findings, all: seq<Record>, runs: seq<Record>, eligible: set<string>,
                             cached: set<string>, a: Progress, d: string)
    requires Gathered(f, all, runs, eligible, cached)
    requires a.ok && a.removed <= f.limit && d in a.directories && d !in f.faults.directories
    requires !Halts(f, Sweep(f, a, |f.runs|))
    ensures d !in Sweep(f, a, |f.runs|).directories <==> MayLoseStreams(all, runs, f.keep, f.cutoff, d)
  {
    SweepProtects(f, all, runs, eligible, cached, a);
    SweepCompletes(f, all, runs, eligible, cached, a);
  }

  // ---- Two old runs, one of them still running, with an artifact of the same bytes each ----

  function Digits(c: char): string { seq(32, _ => c) }

  function Run(id: string, running: bool): Record {
    Record(id, "run", true, true, 1, [], JNull, Some(RunView(running, false, None, Some(1))), None)
  }

  function Artifact(id: string, run: string, hash: string): Record {
    Record(id, "artifact", true, true, 1, [], JNull, None, Some(ArtifactView("record:" + run, hash, true)))
  }

  const FINISHED: string := "run_" + Digits('a')
  const RUNNING: string := "run_" + Digits('b')
  const HASH: string := "sha256:" + Digits('0') + Digits('1')
  const RUNS: seq<Record> := [Run(FINISHED, false), Run(RUNNING, true)]
  const ARTIFACTS: seq<Record> := [Artifact("artifact_" + Digits('a'), FINISHED, HASH),
      Artifact("artifact_" + Digits('b'), RUNNING, HASH)]

  function Gatherings(): Findings {
    Findings(RUNS, 0, 2, {}, {}, map[FINISHED := [ARTIFACTS[0]], RUNNING := [ARTIFACTS[1]]], Faults({}, {}, {}), 64)
  }

  lemma RunIDs()
    ensures ValidRunID(FINISHED) && ValidRunID(RUNNING) && ValidHash(HASH)
    ensures TrimRecord("record:" + FINISHED) == FINISHED && TrimRecord("record:" + RUNNING) == RUNNING
    ensures FINISHED != RUNNING
  {
    assert FINISHED[4] == 'a' && RUNNING[4] == 'b';
    assert ("record:" + FINISHED)[7..] == FINISHED && ("record:" + RUNNING)[7..] == RUNNING;
  }

  lemma NothingProtected(id: string)
    ensures !Protected(RUNS + ARTIFACTS, id)
  {
  }

  lemma TwoSorted(a: Record, b: Record)
    requires RetentionTime(a) == RetentionTime(b)
    ensures SortRuns([a, b]) == [a, b]
  {
    assert [a, b][..1] == [a] && [a][..0] == [];
    assert SortRuns([a]) == InsertRun(SortRuns([]), a) == [a] + [];
    assert InsertRun([], b) == [b] + [];
    assert [a][1..] == [];
    assert InsertRun([a], b) == [a] + InsertRun([], b);
  }

  lemma BothEligible(id: string)
    ensures id in {FINISHED, RUNNING} <==> Eligible(RUNS, 0, 2, RUNS + ARTIFACTS, id)
  {
    RunIDs();
    NothingProtected(id);
    if id == FINISHED { assert MayExpire(RUNS, 0, 0, 2, RUNS + ARTIFACTS); }
    if id == RUNNING { assert MayExpire(RUNS, 1, 0, 2, RUNS + ARTIFACTS); }
  }

  lemma NoneKept(h: string)
    ensures !KeptHash(RUNS + ARTIFACTS, {FINISHED, RUNNING}, {}, h)
  {
    RunIDs();
  }

  lemma BothListed(run: string, r: Record)
    ensures Lists(Gatherings().byRun, run, r) <==> r in RUNS + ARTIFACTS && IsArtifact(r) && RunOf(r) == run
  {
    RunIDs();
    var (a, b) := (ARTIFACTS[0], ARTIFACTS[1]);
    assert r in RUNS + ARTIFACTS <==> r in RUNS || r == a || r == b;
    assert r in RUNS ==> !IsArtifact(r);
    assert IsArtifact(a) && RunOf(a) == FINISHED && IsArtifact(b) && RunOf(b) == RUNNING;
    TwoLists(FINISHED, RUNNING, a, b, run, r);
  }

  lemma TwoLists(x: string, y: string, a: Record, b: Record, run: string, r: Record)
    requires x != y
    ensures Lists(map[x := [a], y := [b]], run, r) <==> (run == x && r == a) || (run == y && r == b)
  {
  }

  /** These are the findings of a pass over the two listings, with room for no recent run. */
  lemma AreGathered()
    ensures Gathered(Gatherings(), RUNS + ARTIFACTS, RUNS, {FINISHED, RUNNING}, {})
  {
    var f, all := Gatherings(), RUNS + ARTIFACTS;
    TwoSorted(RUNS[0], RUNS[1]);
    assert [RUNS[0], RUNS[1]] == RUNS;
    forall id ensures id in f.protected <==> Protected(all, id) { NothingProtected(id); }
    forall id ensures id in {FINISHED, RUNNING} <==> Eligible(f.runs, f.keep, f.cutoff, all, id) { BothEligible(id); }
    forall h ensures h in f.kept <==> h in {} || KeptHash(all, {FINISHED, RUNNING}, f.protected, h) { NoneKept(h); }
    forall run, r ensures Lists(f.byRun, run, r) <==> r in all && IsArtifact(r) && RunOf(r) == run {
      BothListed(run, r);
    }
  }

  /** The blob is removed on account of the finished run, although a running run's artifact names it. */
  lemma RunningBlobRemoved(a: Progress)
    requires a == Progress({}, {HASH}, {}, {}, 0, true)
    ensures Gathered(Gatherings(), RUNS + ARTIFACTS, RUNS, {FINISHED, RUNNING}, {})
    ensures RUNS[1].run.value.running && RunOf(ARTIFACTS[1]) == RUNS[1].id && ARTIFACTS[1].artifact.value.hash == HASH
    ensures HASH !in Sweep(Gatherings(), a, 2).blobs
  {
    AreGathered();
    RunIDs();
    var f := Gatherings();
    assert ARTIFACTS[0] in ArtifactsOf(f, f.runs[0].id) && Droppable(f, ARTIFACTS[0]) && Expires(f, 0);
    SweepsFirst(f, a);
  }

  lemma SweepsFirst(f: Findings, a: Progress)
    requires f == Gatherings() && a == Progress({}, {HASH}, {}, {}, 0, true)
    requires Droppable(f, ARTIFACTS[0]) && Expires(f, 0) && !Expires(f, 1)
    ensures HASH !in Sweep(f, a, 2).blobs
  {
    var list := ArtifactsOf(f, FINISHED);
    assert list[..0] == [];
    assert DropBlobs(f, a, []) == a;
    var q := DropBlobs(f, a, list);
    assert HASH !in q.blobs;
    assert Sweep(f, a, 0) == a;
    assert Sweep(f, a, 1) == q;
  }
}
