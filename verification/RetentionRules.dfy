/**
 What retention may remove, in the records' own fields and over the listing as it was read, and that
 sorting newest first finds exactly these runs.
 */
module RetentionRules {
  import opened Wrappers
  import opened Protection

  // ---- The age of a run ----

  /** `t` is when the run finished, or else when it was prepared, or else when its record was last written. */
  predicate Dated(r: Record, t: int) {
    match r.run
    case None => t == r.updated
    case Some(v) =>
      match (v.finished, v.prepared)
      case (Some(finished), _) => t == finished
      case (None, Some(prepared)) => t == prepared
      case (None, None) => t == r.updated
  }

  lemma DatedExactly(r: Record, t: int)
    ensures Dated(r, t) <==> t == RetentionTime(r)
  {
  }

  ghost predicate OlderThan(r: Record, cutoff: int) {
    exists t :: Dated(r, t) && t < cutoff
  }

  /** `a` is dated after `b`. */
  ghost predicate Newer(a: Record, b: Record) {
    exists s, t :: Dated(a, s) && Dated(b, t) && s > t
  }

  lemma OlderExactly(r: Record, cutoff: int)
    ensures OlderThan(r, cutoff) <==> RetentionTime(r) < cutoff
  {
    DatedExactly(r, RetentionTime(r));
    if OlderThan(r, cutoff) {
      var t :| Dated(r, t) && t < cutoff;
      DatedExactly(r, t);
    }
  }

  lemma NewerExactly(a: Record, b: Record)
    ensures Newer(a, b) <==> RetentionTime(a) > RetentionTime(b)
  {
    DatedExactly(a, RetentionTime(a));
    DatedExactly(b, RetentionTime(b));
    if Newer(a, b) {
      var s, t :| Dated(a, s) && Dated(b, t) && s > t;
      DatedExactly(a, s);
      DatedExactly(b, t);
    }
  }

  /** The listed runs that come before run `k` among the newest: newer ones, and equally new ones listed earlier. */
  ghost function Ahead(runs: seq<Record>, k: nat): set<nat>
    requires k < |runs|
  {
    set j: nat | j < |runs| && (Newer(runs[j], runs[k]) || (j < k && !Newer(runs[k], runs[j])))
  }

  // ---- Sorting newest first ----

  /** Where a stable insertion puts a run. */
  ghost predicate InsertsAt(sorted: seq<Record>, r: Record, at: nat) {
    && at <= |sorted| && InsertRun(sorted, r) == sorted[..at] + [r] + sorted[at..]
    && (forall j :: 0 <= j < at ==> RetentionTime(sorted[j]) >= RetentionTime(r))
    && forall j :: at <= j < |sorted| ==> RetentionTime(sorted[j]) < RetentionTime(r)
  }

  lemma {:induction false} InsertionPoint(sorted: seq<Record>, r: Record) returns (at: nat)
    requires NewestFirst(sorted)
    ensures InsertsAt(sorted, r, at)
  {
    at := 0;
    if sorted != [] && RetentionTime(sorted[0]) >= RetentionTime(r) {
      var rest := InsertionPoint(sorted[1..], r);
      at := rest + 1;
      assert sorted[..at] == [sorted[0]] + sorted[1..][..rest] && sorted[at..] == sorted[1..][rest..];
      forall j | 0 <= j < at ensures RetentionTime(sorted[j]) >= RetentionTime(r) {
        if j > 0 { assert sorted[j] == sorted[1..][j - 1]; }
      }
      forall j | at <= j < |sorted| ensures RetentionTime(sorted[j]) < RetentionTime(r) {
        assert sorted[j] == sorted[1..][j - 1];
      }
    }
  }

  /** The place of run `k` among the newest. */
  ghost function Rank(runs: seq<Record>, k: nat): nat
    requires k < |runs|
  {
    |Ahead(runs, k)|
  }

  /** Appending a run moves the runs it is newer than one place down. */
  lemma RankBefore(runs: seq<Record>, r: Record, k: nat)
    requires k < |runs|
    ensures Rank(runs + [r], k) == Rank(runs, k) + if RetentionTime(r) > RetentionTime(runs[k]) then 1 else 0
  {
    var n := |runs|;
    NewerExactly(r, runs[k]);
    assert Ahead(runs + [r], k) == Ahead(runs, k) + if Newer(r, runs[k]) then {n} else {};
  }

  ghost function AtLeast(runs: seq<Record>, t: int): set<nat> {
    set j: nat | j < |runs| && RetentionTime(runs[j]) >= t
  }

  lemma {:induction false} AtLeastCounted(runs: seq<Record>, t: int)
    ensures |AtLeast(runs, t)| == AsNewAs(runs, t)
  {
    if runs != [] {
      var n := |runs| - 1;
      AtLeastCounted(runs[..n], t);
      assert runs == runs[..n] + [runs[n]];
      AsNewAsAppend(runs[..n], runs[n], t);
      assert AtLeast(runs, t) == AtLeast(runs[..n], t) + if RetentionTime(runs[n]) >= t then {n} else {};
    }
  }

  lemma {:induction false} CountSplit(sorted: seq<Record>, at: nat, t: int)
    requires at <= |sorted| && forall j :: 0 <= j < at ==> RetentionTime(sorted[j]) >= t
    requires forall j :: at <= j < |sorted| ==> RetentionTime(sorted[j]) < t
    ensures AsNewAs(sorted, t) == at
  {
    if sorted != [] {
      CountSplit(sorted[1..], if at == 0 then 0 else at - 1, t);
    }
  }

  lemma AheadOfLast(runs: seq<Record>, r: Record)
    ensures Ahead(runs + [r], |runs|) == AtLeast(runs, RetentionTime(r))
  {
    var longer, n := runs + [r], |runs|;
    forall j: nat | j < n ensures j in Ahead(longer, n) <==> j in AtLeast(runs, RetentionTime(r)) {
      NewerExactly(longer[j], r);
      NewerExactly(r, longer[j]);
    }
    NewerExactly(r, r);
  }

  lemma SortedCount(runs: seq<Record>, t: int)
    ensures AsNewAs(SortRuns(runs), t) == AsNewAs(runs, t)
  {
    SortRunsOrdered(runs);
  }

  lemma InsertedCount(sorted: seq<Record>, r: Record, at: nat)
    requires InsertsAt(sorted, r, at)
    ensures AsNewAs(sorted, RetentionTime(r)) == at
  {
    CountSplit(sorted, at, RetentionTime(r));
  }

  /** The appended run goes after every run at least as new. */
  lemma RankLast(runs: seq<Record>, r: Record, at: nat)
    requires InsertsAt(SortRuns(runs), r, at)
    ensures Rank(runs + [r], |runs|) == at
  {
    AheadOfLast(runs, r);
    AtLeastCounted(runs, RetentionTime(r));
    InsertedCount(SortRuns(runs), r, at);
    SortedCount(runs, RetentionTime(r));
  }

  lemma SortsLast(runs: seq<Record>)
    requires runs != []
    ensures var n := |runs| - 1; SortRuns(runs) == InsertRun(SortRuns(runs[..n]), runs[n])
  {
  }

  /** Run `k` of the listing is found at its rank. */
  lemma {:induction false} SortedAtRank(runs: seq<Record>, k: nat)
    requires k < |runs|
    ensures Rank(runs, k) < |runs| && SortRuns(runs)[Rank(runs, k)] == runs[k]
  {
    var n := |runs| - 1;
    var sorted := SortRuns(runs[..n]);
    SortRunsOrdered(runs[..n]);
    var at := InsertionPoint(sorted, runs[n]);
    assert runs == runs[..n] + [runs[n]];
    SortsLast(runs);
    if k == n {
      RankLast(runs[..n], runs[n], at);
    } else {
      SortedAtRank(runs[..n], k);
      RankBefore(runs[..n], runs[n], k);
    }
  }

  /** Every place of the sorted listing is some run's rank. */
  lemma {:induction false} RankedFrom(runs: seq<Record>, i: nat) returns (k: nat)
    requires i < |runs|
    ensures k < |runs| && Rank(runs, k) == i && SortRuns(runs)[i] == runs[k]
  {
    var n := |runs| - 1;
    var sorted := SortRuns(runs[..n]);
    SortRunsOrdered(runs[..n]);
    var at := InsertionPoint(sorted, runs[n]);
    assert runs == runs[..n] + [runs[n]];
    SortsLast(runs);
    if i == at {
      k := n;
      RankLast(runs[..n], runs[n], at);
    } else {
      k := RankedFrom(runs[..n], if i < at then i else i - 1);
      RankBefore(runs[..n], runs[n], k);
    }
  }

  // ---- Ids and references ----

  predicate LowerHex(s: string) {
    |s| == 32 && forall i :: 0 <= i < 32 ==> s[i] in "0123456789abcdef"
  }

  predicate RunId(id: string) { |id| == 36 && id[..4] == "run_" && LowerHex(id[4..]) }

  predicate ArtifactId(id: string) { |id| == 41 && id[..9] == "artifact_" && LowerHex(id[9..]) }

  lemma RunIdExactly(id: string)
    ensures ValidRunID(id) <==> RunId(id)
  {
    if ValidRunID(id) {
      forall i | 0 <= i < 32 ensures id[4..][i] in "0123456789abcdef" { HexExactly(id[i + 4]); }
    }
    if RunId(id) {
      forall i | 4 <= i < |id| ensures HexDigit(id[i]) {
        HexExactly(id[i]);
        assert id[i] == id[4..][i - 4];
      }
    }
  }

  lemma ArtifactIdExactly(id: string)
    ensures ValidID("artifact_", id) <==> ArtifactId(id)
  {
    if ValidID("artifact_", id) {
      forall i | 0 <= i < 32 ensures id[9..][i] in "0123456789abcdef" { HexExactly(id[i + 9]); }
    }
    if ArtifactId(id) {
      forall i | 9 <= i < |id| ensures HexDigit(id[i]) {
        HexExactly(id[i]);
        assert id[i] == id[9..][i - 9];
      }
    }
  }

  lemma HexExactly(c: char)
    ensures HexDigit(c) <==> c in "0123456789abcdef"
  {
    var digits := "0123456789abcdef";
    if HexDigit(c) {
      var i := if c <= '9' then c as int - '0' as int else c as int - 'a' as int + 10;
      assert digits[i] == c;
    }
  }

  lemma TrimExactly(text: string, id: string)
    requires |id| >= 2 && (id[0] != 'r' || id[1] != 'e')
    ensures TrimRecord(text) == id <==> text == id || text == "record:" + id
  {
    if text == "record:" + id { assert text[..7] == "record:" && text[7..] == id; }
    if TrimRecord(text) == id && text != id { assert text == text[..7] + text[7..]; }
    if text == id && |text| >= 7 { assert text[0] != "record:"[0] || text[1] != "record:"[1]; }
  }

  /** A text refers to a run or an artifact when it is its id, with or without "record:" before it. */
  lemma RefersExactly(text: string, id: string)
    ensures RefersTo(text, id) <==> (RunId(id) || ArtifactId(id)) && (text == id || text == "record:" + id)
  {
    RunIdExactly(id);
    ArtifactIdExactly(id);
    if RunId(id) { assert id[1] == id[..4][1]; TrimExactly(text, id); }
    if ArtifactId(id) { assert id[0] == id[..9][0]; TrimExactly(text, id); }
  }

  // ---- What may go ----

  /** Run `k` of the listing is old, past the newest `keep`, and named by no current record of a user. */
  ghost predicate Expired(all: seq<Record>, runs: seq<Record>, keep: int, cutoff: int, k: nat) {
    && k < |runs| && |Ahead(runs, k)| >= keep && OlderThan(runs[k], cutoff) && RunId(runs[k].id)
    && !Protected(all, runs[k].id)
  }

  /** An expired run that has ended. */
  ghost predicate Over(all: seq<Record>, runs: seq<Record>, keep: int, cutoff: int, k: nat) {
    Expired(all, runs, keep, cutoff, k) && runs[k].run.Some? && !runs[k].run.value.running
  }

  /** The stream directory `d` of such a run is still there. */
  ghost predicate MayLoseStreams(all: seq<Record>, runs: seq<Record>, keep: int, cutoff: int, d: string) {
    exists k: nat :: Over(all, runs, keep, cutoff, k) && runs[k].id == d && runs[k].run.value.streams
  }

  /** A server's artifact record for the hash. */
  predicate ArtifactOf(r: Record, h: string) {
    r.kind == "artifact" && r.server && r.artifact.Some? && r.artifact.value.hash == h
  }

  predicate BelongsTo(r: Record, id: string) {
    r.artifact.Some? && (r.artifact.value.runRef == id || r.artifact.value.runRef == "record:" + id)
  }

  /** The run of the artifact has expired. */
  ghost predicate RunExpired(all: seq<Record>, runs: seq<Record>, keep: int, cutoff: int, r: Record) {
    exists k: nat :: Expired(all, runs, keep, cutoff, k) && BelongsTo(r, runs[k].id)
  }

  /** A record needs the blob: an artifact that a current record names, or one whose run has not expired. */
  ghost predicate Needed(all: seq<Record>, runs: seq<Record>, keep: int, cutoff: int, h: string) {
    exists i :: NeedsBlob(all, runs, keep, cutoff, h, i)
  }

  ghost predicate NeedsBlob(all: seq<Record>, runs: seq<Record>, keep: int, cutoff: int, h: string, i: int) {
    && 0 <= i < |all| && ArtifactOf(all[i], h)
    && (Protected(all, all[i].id) || !RunExpired(all, runs, keep, cutoff, all[i]))
  }

  predicate Sha256(h: string) { |h| == 71 && h[..7] == "sha256:" }

  /** A blob nobody needs, stored for an artifact of an expired run that has ended. */
  ghost predicate MayDrop(all: seq<Record>, runs: seq<Record>, keep: int, cutoff: int, h: string) {
    && !Needed(all, runs, keep, cutoff, h) && Sha256(h)
    && exists k: nat, i :: DropsFor(all, runs, keep, cutoff, h, k, i)
  }

  ghost predicate DropsFor(all: seq<Record>, runs: seq<Record>, keep: int, cutoff: int, h: string, k: nat, i: int) {
    && Over(all, runs, keep, cutoff, k) && 0 <= i < |all| && ArtifactOf(all[i], h) && all[i].artifact.value.stored
    && BelongsTo(all[i], runs[k].id)
  }

  // ---- The same found through the sorted listing ----

  lemma ExpiredSorted(all: seq<Record>, runs: seq<Record>, keep: int, cutoff: int, k: nat)
    requires k < |runs|
    ensures var i := Rank(runs, k);
      && i < |runs| && SortRuns(runs)[i] == runs[k]
      && (Expired(all, runs, keep, cutoff, k) <==> MayExpire(SortRuns(runs), i, keep, cutoff, all))
  {
    SortedAtRank(runs, k);
    OlderExactly(runs[k], cutoff);
    RunIdExactly(runs[k].id);
  }

  /** A place of the sorted listing may expire exactly when the run found there has expired. */
  lemma SortedExpired(all: seq<Record>, runs: seq<Record>, keep: int, cutoff: int, i: nat) returns (k: nat)
    requires i < |runs|
    ensures k < |runs| && SortRuns(runs)[i] == runs[k]
    ensures MayExpire(SortRuns(runs), i, keep, cutoff, all) <==> Expired(all, runs, keep, cutoff, k)
  {
    k := RankedFrom(runs, i);
    ExpiredSorted(all, runs, keep, cutoff, k);
  }

  lemma EligibleExactly(all: seq<Record>, runs: seq<Record>, keep: int, cutoff: int, id: string)
    ensures Eligible(SortRuns(runs), keep, cutoff, all, id)
        <==> exists k: nat :: Expired(all, runs, keep, cutoff, k) && runs[k].id == id
  {
    if Eligible(SortRuns(runs), keep, cutoff, all, id) {
      var i :| MayExpire(SortRuns(runs), i, keep, cutoff, all) && SortRuns(runs)[i].id == id;
      var k := SortedExpired(all, runs, keep, cutoff, i);
    }
    if k: nat :| Expired(all, runs, keep, cutoff, k) && runs[k].id == id {
      ExpiredSorted(all, runs, keep, cutoff, k);
    }
  }

  lemma BelongsExactly(r: Record, id: string)
    requires r.artifact.Some? && RunId(id)
    ensures RunOf(r) == id <==> BelongsTo(r, id)
  {
    assert id[1] == id[..4][1];
    TrimExactly(r.artifact.value.runRef, id);
  }

  lemma RunEligible(all: seq<Record>, runs: seq<Record>, keep: int, cutoff: int, r: Record)
    requires r.artifact.Some?
    ensures Eligible(SortRuns(runs), keep, cutoff, all, RunOf(r)) <==> RunExpired(all, runs, keep, cutoff, r)
  {
    EligibleExactly(all, runs, keep, cutoff, RunOf(r));
    forall k: nat | Expired(all, runs, keep, cutoff, k) ensures RunOf(r) == runs[k].id <==> BelongsTo(r, runs[k].id) {
      BelongsExactly(r, runs[k].id);
    }
  }
}
