/** ExportRecords and RestoreRecords as they run: listing loops, and row-by-row inserts that commit at the end. */
module RecordTransferMethods {
  import opened Wrappers
  import opened Ordering
  import opened Records
  import opened RecordArchives
  import opened RecordTransfers

  method ListRows(records: map<Id, Record>, ids: seq<Id>, ghost s: Store) returns (rows: seq<Record>)
    requires records == s.records && forall i :: 0 <= i < |ids| ==> ids[i] in s.records
    ensures rows == RowsOf(s, ids)
  {
    rows := [];
    for i := 0 to |ids|
      invariant rows == RowsOf(s, ids[..i])
    {
      rows := rows + [records[ids[i]]];
      assert ids[..i + 1][..i] == ids[..i];
    }
    assert ids[..|ids|] == ids;
  }

  method ListHistories(records: map<Id, Record>, revisions: map<(Id, nat), Revision>, ids: seq<Id>, ghost s: Store)
    returns (rows: seq<Revision>)
    requires records == s.records && revisions == s.revisions && Listed(s, ids)
    ensures rows == HistoriesOf(s, ids)
  {
    rows := [];
    for i := 0 to |ids|
      invariant rows == HistoriesOf(s, ids[..i])
    {
      var id := ids[i];
      assert ids[..i + 1][..i] == ids[..i];
      var own := [];
      for n := 0 to records[id].revision
        invariant own == HistoryRows(s, id, n)
      {
        own := own + [revisions[(id, n + 1)]];
      }
      rows := rows + own;
    }
    assert ids[..|ids|] == ids;
  }

  method ListReceiptRows(imports: map<ImportKey, Receipt>, project: string, workspace: string, h: string,
                         parsers: seq<string>, ghost s: Store)
    returns (rows: seq<Receipt>)
    requires imports == s.imports
    requires forall i :: 0 <= i < |parsers| ==> ImportKey(project, workspace, h, parsers[i]) in s.imports
    ensures rows == ReceiptRows(s, project, workspace, h, parsers)
  {
    rows := [];
    for j := 0 to |parsers|
      invariant rows == ReceiptRows(s, project, workspace, h, parsers[..j])
    {
      rows := rows + [imports[ImportKey(project, workspace, h, parsers[j])]];
      assert parsers[..j + 1][..j] == parsers[..j];
    }
    assert parsers[..|parsers|] == parsers;
  }

  method ListReceiptsFor(imports: map<ImportKey, Receipt>, project: string, workspace: string, h: string,
                         ghost s: Store)
    returns (rows: seq<Receipt>)
    requires imports == s.imports
    ensures rows == ReceiptsFor(s, project, workspace, h)
  {
    var parsers := SortKeys(set k | k in imports && k.project == project && k.workspace == workspace
                              && k.sourceHash == h :: k.parserRevision);
    ParsersListed(s, project, workspace, h);
    forall i | 0 <= i < |parsers| ensures ImportKey(project, workspace, h, parsers[i]) in s.imports {
      assert parsers[i] in parsers;
    }
    rows := ListReceiptRows(imports, project, workspace, h, parsers, s);
  }

  method ListReceipts(imports: map<ImportKey, Receipt>, project: string, workspace: string, ghost s: Store)
    returns (rows: seq<Receipt>)
    requires imports == s.imports
    ensures rows == ReceiptsOf(s, project, workspace, InOrder(ImportHashes(s, project, workspace)))
  {
    var hashes := SortKeys(set k | k in imports && k.project == project && k.workspace == workspace :: k.sourceHash);
    rows := ListReceiptsByHash(imports, project, workspace, hashes, s);
  }

  method ListReceiptsByHash(imports: map<ImportKey, Receipt>, project: string, workspace: string, hashes: seq<string>,
                            ghost s: Store)
    returns (rows: seq<Receipt>)
    requires imports == s.imports
    ensures rows == ReceiptsOf(s, project, workspace, hashes)
  {
    rows := [];
    for i := 0 to |hashes|
      invariant rows == ReceiptsOf(s, project, workspace, hashes[..i])
    {
      var own := ListReceiptsFor(imports, project, workspace, hashes[i], s);
      ReceiptsNext(s, project, workspace, hashes, i);
      rows := rows + own;
    }
    assert hashes[..|hashes|] == hashes;
  }

  lemma ReceiptsNext(s: Store, project: string, workspace: string, hashes: seq<string>, i: nat)
    requires i < |hashes|
    ensures ReceiptsOf(s, project, workspace, hashes[..i + 1])
         == ReceiptsOf(s, project, workspace, hashes[..i]) + ReceiptsFor(s, project, workspace, hashes[i])
  {
    assert hashes[..i + 1][..i] == hashes[..i];
  }

  method ExportRecords(repo: RecordRepository, project: string, workspace: string, limit: nat)
    returns (result: Result<Archive, StoreError>)
    requires repo.Valid()
    ensures result ==
      if project == "" || workspace == "" || limit == 0 || limit > MAX_ITEMS
          || Size(ExportOf(repo.State(), project, workspace)) > limit
      then Err(Conflict) else Ok(ExportOf(repo.State(), project, workspace))
  {
    if project == "" || workspace == "" || limit == 0 || limit > MAX_ITEMS { return Err(Conflict); }
    ghost var s := repo.State();
    var records := repo.records;
    var ids := SortKeys(set id | id in records && Owned(records[id], project, workspace));
    OwnedListed(s, project, workspace);
    var rows := ListRows(repo.records, ids, s);
    var history := ListHistories(repo.records, repo.revisions, ids, s);
    var receipts := ListReceipts(repo.imports, project, workspace, s);
    if |rows| + |history| + |receipts| > limit { return Err(Conflict); }
    result := Ok(Archive(rows, history, receipts));
  }

  // ---- Restore ----

  lemma NewId(rows: seq<Record>, k: nat)
    requires k < |rows| && DistinctIds(rows)
    ensures rows[k].id !in ById(rows[..k]) && rows[k].id in ById(rows)
  {
    ByIdHas(rows, k);
    if rows[k].id in ById(rows[..k]) { var i := ByIdFrom(rows[..k], rows[k].id); }
  }

  lemma NewNumber(history: seq<Revision>, k: nat)
    requires k < |history| && DistinctNumbers(history)
    ensures var key := (history[k].recordId, history[k].number);
      key !in ByNumber(history[..k]) && key in ByNumber(history)
  {
    ByNumberHas(history, k);
    var key := (history[k].recordId, history[k].number);
    if key in ByNumber(history[..k]) { var i := ByNumberFrom(history[..k], key); }
  }

  /** What the row loop has inserted after `k` rows. */
  ghost function Inserted(records: map<Id, Record>, rows: seq<Record>, k: nat, project: string,
                          workspace: string): map<Id, Record>
    requires k <= |rows|
  {
    records + RebaseRows(ById(rows[..k]), project, workspace)
  }

  ghost predicate RowsFit(records: map<Id, Record>, rows: seq<Record>, k: nat, project: string, workspace: string)
    requires k <= |rows|
  {
    ById(rows[..k]).Keys !! records.Keys && IndexesUnique(Inserted(records, rows, k, project, workspace))
  }

  lemma NextInserted(records: map<Id, Record>, rows: seq<Record>, k: nat, project: string, workspace: string)
    requires k < |rows|
    ensures Inserted(records, rows, k + 1, project, workspace)
         == Inserted(records, rows, k, project, workspace)[rows[k].id := Rebase(rows[k], project, workspace)]
    ensures ById(rows[..k + 1]).Keys == ById(rows[..k]).Keys + {rows[k].id}
  {
    assert rows[..k + 1][..k] == rows[..k];
  }

  /** One more row fits exactly when its id is new and the indexes accept it. */
  lemma RowFits(records: map<Id, Record>, rows: seq<Record>, k: nat, project: string, workspace: string)
    requires k < |rows| && DistinctIds(rows) && RowsFit(records, rows, k, project, workspace)
    ensures var (m, r) := (Inserted(records, rows, k, project, workspace), Rebase(rows[k], project, workspace));
      RowsFit(records, rows, k + 1, project, workspace) <==> r.id !in m && IndexesAccept(m, r)
  {
    var m, r := Inserted(records, rows, k, project, workspace), Rebase(rows[k], project, workspace);
    NextInserted(records, rows, k, project, workspace);
    NewId(rows, k);
    assert r.id in m <==> r.id in records;
    UniqueExtend(m, r);
  }

  lemma UniqueExtend(m: map<Id, Record>, r: Record)
    requires IndexesUnique(m)
    ensures r.id !in m ==> (IndexesUnique(m[r.id := r]) <==> IndexesAccept(m, r))
  {
    assert forall a, b :: Collide(a, b) == Collide(b, a);
    if r.id !in m && IndexesUnique(m[r.id := r]) {
      forall id | id in m && id != r.id ensures !Collide(m[id], r) {
        assert id in m[r.id := r] && r.id in m[r.id := r];
      }
    }
  }

  /** A prefix that does not fit is part of no list that fits. */
  lemma {:induction false} PrefixFits(records: map<Id, Record>, rows: seq<Record>, k: nat, project: string,
                                      workspace: string)
    requires k <= |rows| && DistinctIds(rows) && RowsFit(records, rows, |rows|, project, workspace)
    ensures RowsFit(records, rows, k, project, workspace)
  {
    assert rows[..|rows|] == rows;
    var m, whole := Inserted(records, rows, k, project, workspace), Inserted(records, rows, |rows|, project, workspace);
    forall id | id in ById(rows[..k]) ensures id in ById(rows) && ById(rows)[id] == ById(rows[..k])[id] {
      var i := ByIdFrom(rows[..k], id);
      ByIdHas(rows, i);
    }
    forall id | id in m ensures id in whole && whole[id] == m[id] { }
  }

  /** Insert each rebased row; the unique indexes see the rows inserted before it. */
  method InsertRows(records: map<Id, Record>, rows: seq<Record>, project: string, workspace: string)
    returns (ok: bool, out: map<Id, Record>)
    requires IndexesUnique(records) && DistinctIds(rows)
    ensures ok <==> RowsFit(records, rows, |rows|, project, workspace)
    ensures ok ==> out == Inserted(records, rows, |rows|, project, workspace)
  {
    out := records;
    var k := 0;
    while k < |rows|
      invariant 0 <= k <= |rows|
      invariant out == Inserted(records, rows, k, project, workspace)
      invariant RowsFit(records, rows, k, project, workspace)
    {
      var r := Rebase(rows[k], project, workspace);
      RowFits(records, rows, k, project, workspace);
      if r.id in out || !IndexesAccept(out, r) {
        ghost var fits := RowsFit(records, rows, |rows|, project, workspace);
        if fits { PrefixFits(records, rows, k + 1, project, workspace); }
        return false, out;
      }
      NextInserted(records, rows, k, project, workspace);
      out := out[r.id := r];
      k := k + 1;
    }
    ok := true;
  }

  method InsertRevisions(revisions: map<(Id, nat), Revision>, history: seq<Revision>)
    returns (ok: bool, out: map<(Id, nat), Revision>)
    requires DistinctNumbers(history)
    ensures ok <==> ByNumber(history).Keys !! revisions.Keys
    ensures ok ==> out == revisions + ByNumber(history)
  {
    out := revisions;
    var k := 0;
    while k < |history|
      invariant 0 <= k <= |history|
      invariant out == revisions + ByNumber(history[..k]) && ByNumber(history[..k]).Keys !! revisions.Keys
    {
      var key := (history[k].recordId, history[k].number);
      NewNumber(history, k);
      if key in out { return false, out; }
      out := out[key := history[k]];
      assert history[..k + 1][..k] == history[..k];
      k := k + 1;
    }
    assert history[..k] == history;
    ok := true;
  }

  method InsertReceipts(imports: map<ImportKey, Receipt>, receipts: seq<Receipt>, project: string, workspace: string)
    returns (ok: bool, out: map<ImportKey, Receipt>)
    ensures ok <==> DistinctReceipts(receipts) && ByImport(receipts, project, workspace).Keys !! imports.Keys
    ensures ok ==> out == imports + ByImport(receipts, project, workspace)
  {
    out := imports;
    var k := 0;
    while k < |receipts|
      invariant 0 <= k <= |receipts|
      invariant DistinctReceipts(receipts[..k])
      invariant out == imports + ByImport(receipts[..k], project, workspace)
      invariant ByImport(receipts[..k], project, workspace).Keys !! imports.Keys
    {
      var v := receipts[k];
      var key := ImportKey(project, workspace, v.sourceHash, v.parserRevision);
      if key in out {
        ByImportHas(receipts, project, workspace, k);
        if key in ByImport(receipts[..k], project, workspace) {
          var i := ByImportFrom(receipts[..k], project, workspace, key);
          assert (receipts[i].sourceHash, receipts[i].parserRevision)
              == (receipts[k].sourceHash, receipts[k].parserRevision);
        }
        return false, out;
      }
      forall i | 0 <= i < k
        ensures (receipts[i].sourceHash, receipts[i].parserRevision) != (v.sourceHash, v.parserRevision)
      {
        ByImportHas(receipts[..k], project, workspace, i);
      }
      out := out[key := v];
      assert receipts[..k + 1][..k] == receipts[..k];
      k := k + 1;
    }
    assert receipts[..k] == receipts;
    ok := true;
  }

  /** The insert loops succeed exactly when every constraint accepts the archive. */
  method InsertAll(s: Store, project: string, workspace: string, a: Archive) returns (ok: bool, t: Store)
    requires IndexesUnique(s.records) && ArchiveValid(a)
    ensures ok <==> ConstraintsAccept(s, project, workspace, a)
    ensures ok ==> t == Merged(s, project, workspace, a)
  {
    var rows, history, receipts;
    t := s;
    assert a.records[..|a.records|] == a.records;
    ok, rows := InsertRows(s.records, a.records, project, workspace);
    if !ok { return; }
    ok, history := InsertRevisions(s.revisions, a.revisions);
    if !ok { return; }
    ok, receipts := InsertReceipts(s.imports, a.imports, project, workspace);
    t := Store(rows, history, receipts);
  }

  method Commit(repo: RecordRepository, t: Store)
    requires Inv(t)
    modifies repo
    ensures repo.State() == t && repo.Valid()
  {
    repo.records, repo.revisions, repo.imports := t.records, t.revisions, t.imports;
  }

  /** The revision and receipt checks repeated inside the source's transaction cannot fail after Validate. */
  method RestoreRecords(repo: RecordRepository, project: string, workspace: string, a: Archive)
    returns (err: Option<StoreError>)
    requires repo.Valid()
    modifies repo
    ensures repo.Valid()
    ensures match Restore(old(repo.State()), project, workspace, a)
            case Ok(t) => err.None? && repo.State() == t
            case Err(e) => err == Some(e) && repo.State() == old(repo.State())
  {
    if project == "" || workspace == "" || |a.records| + |a.revisions| + |a.imports| > MAX_ITEMS {
      return Some(Conflict);
    }
    var valid := Validate(a);
    if !valid { return Some(Conflict); }
    var before := Store(repo.records, repo.revisions, repo.imports);
    var existing := set id | id in before.records && Owned(before.records[id], project, workspace);
    assert existing == OwnedIds(before, project, workspace);
    if existing != {} { return Some(Conflict); }
    var ok, t := InsertAll(before, project, workspace, a);
    if !ok { return Some(Storage); }
    RestoreKeeps(before, project, workspace, a);
    Commit(repo, t);
    err := None;
  }
}
