/** Successor links between memos: chains that never branch and never close. */
module RecordLinks {
  import opened Wrappers
  import opened JsonValues
  import opened Records
  import opened RecordArchives
  import opened RecordTransfers
  import opened RecordService
  import opened RecordSystem

  predicate Linked(r: Record) {
    r.kind == "memo" && r.supersedes != ""
  }

  /** Every link leads to an older memo of the same identity. */
  ghost predicate Ranked(records: map<Id, Record>, rank: map<Id, nat>, bound: nat) {
    && rank.Keys == records.Keys
    && (forall id :: id in rank ==> rank[id] < bound)
    && (forall id :: id in records && Linked(records[id]) ==> LinkDescends(records, rank, id))
  }

  predicate LinkDescends(records: map<Id, Record>, rank: map<Id, nat>, id: Id)
    requires id in records && rank.Keys == records.Keys
  {
    var target := records[id].supersedes;
    && target in records && records[target].kind == "memo"
        && Owned(records[target], records[id].project, records[id].workspace)
    && rank[target] < rank[id]
  }

  /** The successor links are closed and acyclic. */
  ghost predicate Acyclic(records: map<Id, Record>) {
    exists rank: map<Id, nat>, bound: nat :: Ranked(records, rank, bound)
  }

  /** A walk along successor links. */
  predicate Walk(records: map<Id, Record>, path: seq<Id>) {
    && (forall i :: 0 <= i < |path| ==> path[i] in records)
    && forall i :: 0 <= i < |path| - 1 ==> Linked(records[path[i]]) && path[i + 1] == records[path[i]].supersedes
  }

  lemma {:induction false} WalkDescends(records: map<Id, Record>, rank: map<Id, nat>, bound: nat, path: seq<Id>)
    requires Ranked(records, rank, bound) && Walk(records, path) && |path| > 0
    ensures rank[path[|path| - 1]] + |path| - 1 <= rank[path[0]]
  {
    if |path| > 1 {
      var shorter := path[..|path| - 1];
      WalkDescends(records, rank, bound, shorter);
      assert path[|path| - 2] == shorter[|shorter| - 1];
      assert LinkDescends(records, rank, path[|path| - 2]);
    }
  }

  /** No walk returns to where it started. */
  lemma NoCycle(records: map<Id, Record>, path: seq<Id>)
    requires Acyclic(records) && Walk(records, path) && |path| > 1
    ensures path[0] != path[|path| - 1]
  {
    var rank: map<Id, nat>, bound: nat :| Ranked(records, rank, bound);
    WalkDescends(records, rank, bound, path);
  }

  /** Chains do not merge: a memo has at most one successor. */
  lemma OneSuccessor(s: Store, a: Id, b: Id)
    requires IndexesUnique(s.records) && Acyclic(s.records)
    requires a in s.records && b in s.records && Linked(s.records[a]) && Linked(s.records[b])
    requires s.records[a].supersedes == s.records[b].supersedes
    ensures a == b
  {
    var rank: map<Id, nat>, bound: nat :| Ranked(s.records, rank, bound);
    assert LinkDescends(s.records, rank, a) && LinkDescends(s.records, rank, b);
    assert a != b ==> !Collide(s.records[a], s.records[b]);
  }

  // ---- Writers ----

  /** Rewriting a record with its own link, or any record that is not a memo, keeps the chains. */
  lemma RewriteKeeps(records: map<Id, Record>, r: Record)
    requires Acyclic(records) && r.id in records
    requires r.kind == records[r.id].kind && Owned(r, records[r.id].project, records[r.id].workspace)
    requires r.kind == "memo" ==> r.supersedes == records[r.id].supersedes
    ensures Acyclic(records[r.id := r])
  {
    var rank: map<Id, nat>, bound: nat :| Ranked(records, rank, bound);
    forall id | id in records && Linked(records[r.id := r][id]) ensures LinkDescends(records[r.id := r], rank, id) {
      assert LinkDescends(records, rank, id);
    }
    assert Ranked(records[r.id := r], rank, bound);
  }

  /** A new record may only link to an existing memo of its identity. */
  lemma AddKeeps(records: map<Id, Record>, r: Record)
    requires Acyclic(records) && r.id !in records
    requires Linked(r) ==> r.supersedes in records && records[r.supersedes].kind == "memo"
                           && Owned(records[r.supersedes], r.project, r.workspace)
    ensures Acyclic(records[r.id := r])
  {
    var rank: map<Id, nat>, bound: nat :| Ranked(records, rank, bound);
    var grown, more := rank[r.id := bound], records[r.id := r];
    forall id | id in more && Linked(more[id]) ensures LinkDescends(more, grown, id) {
      if id != r.id { assert LinkDescends(records, rank, id); }
    }
    assert Ranked(more, grown, bound + 1);
  }

  /** Links of one identity stay inside it, so its rows alone are closed and acyclic. */
  lemma PartAcyclic(left: map<Id, Record>, right: map<Id, Record>, project: string, workspace: string)
    requires Acyclic(left + right)
    requires forall id :: id in left ==> !Owned(left[id], project, workspace)
    requires forall id :: id in right ==> Owned(right[id], project, workspace)
    ensures Acyclic(right)
  {
    var all := left + right;
    var rank: map<Id, nat>, bound: nat :| Ranked(all, rank, bound);
    var own := map id | id in right :: rank[id];
    forall id | id in right && Linked(right[id]) ensures LinkDescends(right, own, id) {
      assert LinkDescends(all, rank, id);
    }
    assert Ranked(right, own, bound);
  }

  /** Restore keeps the chains exactly when the archive's own links are closed and acyclic. */
  lemma RestoreLinks(s: Store, project: string, workspace: string, a: Archive)
    requires Acyclic(s.records) && Restore(s, project, workspace, a).Ok?
    ensures Acyclic(Restore(s, project, workspace, a).value.records) <==>
        Acyclic(RebaseRows(ById(a.records), project, workspace))
  {
    var moved := RebaseRows(ById(a.records), project, workspace);
    NoneOwned(s, project, workspace);
    assert Restore(s, project, workspace, a).value.records == s.records + moved;
    JoinedAcyclic(s.records, moved, project, workspace);
  }

  lemma NoneOwned(s: Store, project: string, workspace: string)
    requires OwnedIds(s, project, workspace) == {}
    ensures forall id :: id in s.records ==> !Owned(s.records[id], project, workspace)
  {
    forall id | id in s.records ensures !Owned(s.records[id], project, workspace) {
      assert id !in OwnedIds(s, project, workspace);
    }
  }

  lemma JoinedAcyclic(left: map<Id, Record>, right: map<Id, Record>, project: string, workspace: string)
    requires Acyclic(left) && left.Keys !! right.Keys
    requires forall id :: id in left ==> !Owned(left[id], project, workspace)
    requires forall id :: id in right ==> Owned(right[id], project, workspace)
    ensures Acyclic(left + right) <==> Acyclic(right)
  {
    if Acyclic(right) { UnionAcyclic(left, right); }
    if Acyclic(left + right) { PartAcyclic(left, right, project, workspace); }
  }

  lemma UnionAcyclic(left: map<Id, Record>, right: map<Id, Record>)
    requires Acyclic(left) && Acyclic(right) && left.Keys !! right.Keys
    ensures Acyclic(left + right)
  {
    var lr: map<Id, nat>, lb: nat :| Ranked(left, lr, lb);
    var rr: map<Id, nat>, rb: nat :| Ranked(right, rr, rb);
    var both := left + right;
    forall id | id in both && Linked(both[id]) ensures LinkDescends(both, lr + rr, id) {
      if id in right { assert LinkDescends(right, rr, id); } else { assert LinkDescends(left, lr, id); }
    }
    assert Ranked(both, lr + rr, lb + rb);
  }

  lemma SelfLink(records: map<Id, Record>, id: Id)
    requires id in records && Linked(records[id]) && records[id].supersedes == id
    ensures !Acyclic(records)
  {
    forall rank: map<Id, nat>, bound: nat ensures !Ranked(records, rank, bound) {
      assert rank.Keys == records.Keys ==> !LinkDescends(records, rank, id);
    }
  }

  /** Validation does not look at links: an archive whose memo supersedes itself is accepted and closes a cycle. */
  lemma RestoreCanCloseCycle()
    ensures exists a: Archive :: Restore(EMPTY, "p", "w", a).Ok? && !Acyclic(Restore(EMPTY, "p", "w", a).value.records)
  {
    var payload := Payload("{}", Some(JObject(map[])));
    var r := Record("m", "memo", "memo.v1", "p", "w", 1, "user_asserted", "intention", "current", 1, 1, payload, [],
        "m");
    var a := Archive([r], [RevisionOf(r)], []);
    RestoreSingleton(r);
    var all := Restore(EMPTY, "p", "w", a).value.records;
    SelfLink(all, "m");
  }

  // ---- Every run ----

  /** What the services issue: creates carry no link, observations are not memos, archives hold closed acyclic links. */
  ghost predicate ServiceIssued(a: Action) {
    match a
    case Create(r) => !Linked(r)
    case Observe(kind, _, _) => kind in {"environment", "run", "artifact"}
    case RestoreArchive(project, workspace, archive) => Acyclic(RebaseRows(ById(archive.records), project, workspace))
    case _ => true
  }

  lemma UpdateLinks(s: Store, kind: string, u: Update, now: int)
    requires HistoryComplete(s) && Acyclic(s.records) && UpdateRecord(s, kind, u, now).Ok?
    requires kind != "memo" || u.supersedes == s.records[u.id].supersedes
    ensures Acyclic(UpdateRecord(s, kind, u, now).value.records)
  {
    RewriteKeeps(s.records, Updated(s.records[u.id], u, now));
  }

  lemma ReplaceLinks(s: Store, r: Replace)
    requires HistoryComplete(s) && Acyclic(s.records) && ReplaceMemo(s, r).Ok?
    ensures Acyclic(ReplaceMemo(s, r).value.records)
  {
    var retired := Superseded(s.records[r.oldId], r.successor.createdAt);
    RewriteKeeps(s.records, retired);
    AddKeeps(s.records[retired.id := retired], r.successor);
  }

  lemma DirectLinks(s: Store, a: Action)
    requires HistoryComplete(s) && Acyclic(s.records) && ServiceIssued(a)
    ensures Acyclic(DirectStep(s, a).records)
  {
    match a
    case Create(r) => if Insert(s, r).Ok? { AddKeeps(s.records, r); }
    case ReplaceWith(r) => if ReplaceMemo(s, r).Ok? { ReplaceLinks(s, r); }
    case Import(r, hash, parser, now) =>
      if ImportVerification(s, r, hash, parser, now).Ok? && !ImportVerification(s, r, hash, parser, now).value.2 {
        AddKeeps(s.records, r);
      }
    case Observe(kind, u, now) => if UpdateRecord(s, kind, u, now).Ok? { UpdateLinks(s, kind, u, now); }
    case RestoreArchive(project, workspace, archive) =>
      if Restore(s, project, workspace, archive).Ok? { RestoreLinks(s, project, workspace, archive); }
    case _ =>
  }

  /** An update through the service carries the link of the very revision it replaces. */
  lemma CommitLinks(n: Normal, s: Store, k: Call, now: int)
    requires HistoryComplete(s) && Acyclic(s.records) && k.Ready? && CallSound(n, s, k)
    ensures Acyclic(Outcome(UpdateRecord(s, k.kind, k.update, now), s).records)
  {
    if UpdateRecord(s, k.kind, k.update, now).Ok? {
      LiveIsHistory(s, k.update.id);
      UpdateLinks(s, k.kind, k.update, now);
    }
  }

  lemma StepLinks(n: Normal, y: System, a: Action)
    requires SystemInv(n, y) && Acyclic(y.store.records) && ServiceIssued(a)
    ensures Acyclic(Step(n, y, a).store.records)
  {
    if a.Commit? {
      if a.call in y.calls && y.calls[a.call].Ready? {
        CommitLinks(n, y.store, y.calls[a.call], a.now);
        CommitStore(n, y, a.call, a.now);
      }
    } else {
      DirectLinks(y.store, a);
    }
  }

  /** In every run of the services, successor links form closed acyclic chains. */
  lemma {:induction false} ReachableAcyclic(n: Normal, actions: seq<Action>)
    requires forall i :: 0 <= i < |actions| ==> ClockOk(actions[i]) && ServiceIssued(actions[i])
    ensures Acyclic(Run(n, INITIAL, actions).store.records)
  {
    if actions == [] {
      assert Ranked(EMPTY.records, map[], 0);
    } else {
      var earlier := actions[..|actions| - 1];
      ReachableAcyclic(n, earlier);
      ReachableSound(n, earlier);
      StepLinks(n, Run(n, INITIAL, earlier), actions[|actions| - 1]);
    }
  }

  // ---- Backups ----

  lemma OwnedRanked(s: Store, project: string, workspace: string, rank: map<Id, nat>, bound: nat)
    requires Ranked(s.records, rank, bound)
    ensures Ranked(OwnedRows(s, project, workspace), map id | id in OwnedIds(s, project, workspace) :: rank[id], bound)
  {
    var rows, own := OwnedRows(s, project, workspace), map id | id in OwnedIds(s, project, workspace) :: rank[id];
    forall id | id in rows && Linked(rows[id]) ensures LinkDescends(rows, own, id) {
      assert LinkDescends(s.records, rank, id);
      assert s.records[id].supersedes in OwnedIds(s, project, workspace);
    }
  }

  lemma RebaseRanked(rows: map<Id, Record>, project: string, workspace: string, rank: map<Id, nat>, bound: nat)
    requires Ranked(rows, rank, bound)
    ensures Ranked(RebaseRows(rows, project, workspace), rank, bound)
  {
    var moved := RebaseRows(rows, project, workspace);
    forall id | id in moved && Linked(moved[id]) ensures LinkDescends(moved, rank, id) {
      assert LinkDescends(rows, rank, id);
    }
  }

  /** One identity's rows, moved to another, keep closed acyclic links. */
  lemma MovedAcyclic(s: Store, project: string, workspace: string, project': string, workspace': string)
    requires Acyclic(s.records)
    ensures Acyclic(RebaseRows(OwnedRows(s, project, workspace), project', workspace'))
  {
    var rank: map<Id, nat>, bound: nat :| Ranked(s.records, rank, bound);
    var own := map id | id in OwnedIds(s, project, workspace) :: rank[id];
    OwnedRanked(s, project, workspace, rank, bound);
    RebaseRanked(OwnedRows(s, project, workspace), project', workspace', own, bound);
  }

  /** An archive exported in any run of the services can be restored in another: its links are acyclic. */
  lemma ExportAcyclic(n: Normal, actions: seq<Action>, project: string, workspace: string, project': string,
                      workspace': string)
    requires forall i :: 0 <= i < |actions| ==> ClockOk(actions[i]) && ServiceIssued(actions[i])
    ensures var s := Run(n, INITIAL, actions).store;
      Inv(s) && ServiceIssued(RestoreArchive(project', workspace', ExportOf(s, project, workspace)))
  {
    ReachableSound(n, actions);
    ReachableAcyclic(n, actions);
    var s := Run(n, INITIAL, actions).store;
    ExportRows(s, project, workspace);
    MovedAcyclic(s, project, workspace, project', workspace');
  }
}
