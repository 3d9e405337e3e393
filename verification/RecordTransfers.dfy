/** ExportRecords and RestoreRecords, and the round trip between two identities. */
module RecordTransfers {
  import opened Wrappers
  import opened Ordering
  import opened Records
  import opened RecordArchives

  // ---- What an export lists, in order ----

  ghost function OwnedIds(s: Store, project: string, workspace: string): set<Id> {
    set id | id in s.records && Owned(s.records[id], project, workspace)
  }

  ghost function RowsOf(s: Store, ids: seq<Id>): (rows: seq<Record>)
    requires forall i :: 0 <= i < |ids| ==> ids[i] in s.records
    ensures |rows| == |ids| && forall i :: 0 <= i < |ids| ==> rows[i] == s.records[ids[i]]
  {
    if ids == [] then [] else RowsOf(s, ids[..|ids| - 1]) + [s.records[ids[|ids| - 1]]]
  }

  ghost function HistoryRows(s: Store, id: Id, n: nat): (rows: seq<Revision>)
    requires forall k :: 1 <= k <= n ==> (id, k) in s.revisions
    ensures |rows| == n && forall k :: 0 <= k < n ==> rows[k] == s.revisions[(id, k + 1)]
  {
    if n == 0 then [] else HistoryRows(s, id, n - 1) + [s.revisions[(id, n)]]
  }

  ghost predicate Listed(s: Store, ids: seq<Id>) {
    HistoryComplete(s) && Ascending(ids) && forall i :: 0 <= i < |ids| ==> ids[i] in s.records
  }

  ghost function HistoriesOf(s: Store, ids: seq<Id>): seq<Revision>
    requires Listed(s, ids)
  {
    if ids == [] then []
    else
      var last := ids[|ids| - 1];
      HistoriesOf(s, ids[..|ids| - 1]) + HistoryRows(s, last, s.records[last].revision)
  }

  ghost function ImportHashes(s: Store, project: string, workspace: string): set<string> {
    set k | k in s.imports && k.project == project && k.workspace == workspace :: k.sourceHash
  }

  ghost function ImportParsers(s: Store, project: string, workspace: string, hash: string): set<string> {
    set k | k in s.imports && k.project == project && k.workspace == workspace && k.sourceHash == hash ::
        k.parserRevision
  }

  ghost function ReceiptRows(s: Store, project: string, workspace: string, hash: string,
                             parsers: seq<string>): (rows: seq<Receipt>)
    requires forall i :: 0 <= i < |parsers| ==> ImportKey(project, workspace, hash, parsers[i]) in s.imports
    ensures |rows| == |parsers|
    ensures forall i :: 0 <= i < |parsers| ==> rows[i] == s.imports[ImportKey(project, workspace, hash, parsers[i])]
  {
    if parsers == [] then []
    else ReceiptRows(s, project, workspace, hash, parsers[..|parsers| - 1])
         + [s.imports[ImportKey(project, workspace, hash, parsers[|parsers| - 1])]]
  }

  lemma ParsersListed(s: Store, project: string, workspace: string, hash: string)
    ensures forall q :: q in InOrder(ImportParsers(s, project, workspace, hash)) ==>
              ImportKey(project, workspace, hash, q) in s.imports
  {
  }

  ghost function ReceiptsFor(s: Store, project: string, workspace: string, hash: string): seq<Receipt> {
    ParsersListed(s, project, workspace, hash);
    ReceiptRows(s, project, workspace, hash, InOrder(ImportParsers(s, project, workspace, hash)))
  }

  ghost function ReceiptsOf(s: Store, project: string, workspace: string, hashes: seq<string>): seq<Receipt> {
    if hashes == [] then []
    else ReceiptsOf(s, project, workspace, hashes[..|hashes| - 1]) + ReceiptsFor(s, project, workspace,
        hashes[|hashes| - 1])
  }

  ghost function ExportOf(s: Store, project: string, workspace: string): Archive
    requires Inv(s)
  {
    var ids := InOrder(OwnedIds(s, project, workspace));
    assert forall i :: 0 <= i < |ids| ==> ids[i] in OwnedIds(s, project, workspace);
    Archive(RowsOf(s, ids), HistoriesOf(s, ids),
            ReceiptsOf(s, project, workspace, InOrder(ImportHashes(s, project, workspace))))
  }

  ghost function Size(a: Archive): nat {
    |a.records| + |a.revisions| + |a.imports|
  }

  // ---- The listings as tables ----

  lemma {:induction false} ByNumberConcat(a: seq<Revision>, b: seq<Revision>)
    ensures ByNumber(a + b) == ByNumber(a) + ByNumber(b)
  {
    if b == [] {
      assert a + b == a;
    } else {
      assert (a + b)[..|a + b| - 1] == a + b[..|b| - 1];
      ByNumberConcat(a, b[..|b| - 1]);
    }
  }

  lemma {:induction false} RowsTable(s: Store, ids: seq<Id>)
    requires Listed(s, ids)
    ensures DistinctIds(RowsOf(s, ids))
    ensures forall id :: id in ById(RowsOf(s, ids)) <==> id in ids
    ensures forall id :: id in ids ==> ById(RowsOf(s, ids))[id] == s.records[id]
  {
    var rows := RowsOf(s, ids);
    forall i, j | 0 <= i < j < |ids| ensures rows[i].id != rows[j].id {
      LessIrreflexive(ids[i]);
    }
    forall id ensures id in ById(rows) <==> id in ids {
      if id in ById(rows) { var i := ByIdFrom(rows, id); assert ids[i] == id; }
      if id in ids { var i :| 0 <= i < |ids| && ids[i] == id; ByIdHas(rows, i); }
    }
    forall id | id in ids ensures ById(rows)[id] == s.records[id] {
      var i :| 0 <= i < |ids| && ids[i] == id;
      ByIdHas(rows, i);
    }
  }

  /** The listing holds exactly the stored revisions of the given records. */
  ghost predicate ListsHistories(history: seq<Revision>, s: Store, ids: set<Id>) {
    forall id, n: nat ::
      && ((id, n) in ByNumber(history) <==> (id, n) in s.revisions && id in ids)
      && ((id, n) in ByNumber(history) ==> ByNumber(history)[(id, n)] == s.revisions[(id, n)])
  }

  lemma HistoryRowsAt(s: Store, id: Id, i: nat)
    requires HistoryComplete(s) && id in s.records && i < s.records[id].revision
    ensures var rows := HistoryRows(s, id, s.records[id].revision); rows[i].recordId == id && rows[i].number == i + 1
  {
    assert SoundRevision(s.revisions[(id, i + 1)], id, i + 1);
  }

  lemma HistoryRowsTable(s: Store, id: Id)
    requires HistoryComplete(s) && id in s.records
    ensures var rows := HistoryRows(s, id, s.records[id].revision);
      DistinctNumbers(rows) && ListsHistories(rows, s, {id})
    ensures forall v :: v in HistoryRows(s, id, s.records[id].revision) ==> v.recordId == id
  {
    var rows := HistoryRows(s, id, s.records[id].revision);
    forall i | 0 <= i < |rows| ensures rows[i].recordId == id && rows[i].number == i + 1 { HistoryRowsAt(s, id, i); }
    HistoryRowsListed(s, id, rows);
  }

  lemma HistoryRowsListed(s: Store, id: Id, rows: seq<Revision>)
    requires HistoryComplete(s) && id in s.records && rows == HistoryRows(s, id, s.records[id].revision)
    requires forall i :: 0 <= i < |rows| ==> rows[i].recordId == id && rows[i].number == i + 1
    ensures DistinctNumbers(rows) && ListsHistories(rows, s, {id})
  {
    forall x, n: nat ensures
      && ((x, n) in ByNumber(rows) <==> (x, n) in s.revisions && x in {id})
      && ((x, n) in ByNumber(rows) ==> ByNumber(rows)[(x, n)] == s.revisions[(x, n)])
    {
      if (x, n) in ByNumber(rows) { var i := ByNumberFrom(rows, (x, n)); }
      if x == id && (id, n) in s.revisions { ByNumberHas(rows, n - 1); }
    }
  }

  lemma ListsConcat(a: seq<Revision>, b: seq<Revision>, s: Store, left: set<Id>, right: set<Id>)
    requires ListsHistories(a, s, left) && ListsHistories(b, s, right)
    ensures ListsHistories(a + b, s, left + right)
  {
    ByNumberConcat(a, b);
  }

  lemma DistinctConcat(a: seq<Revision>, b: seq<Revision>)
    requires DistinctNumbers(a) && DistinctNumbers(b)
    requires forall v, w :: v in a && w in b ==> v.recordId != w.recordId
    ensures DistinctNumbers(a + b)
  {
    var c := a + b;
    forall i, j | 0 <= i < j < |c| ensures (c[i].recordId, c[i].number) != (c[j].recordId, c[j].number) {
      if i < |a| <= j { assert c[i] in a && c[j] in b; }
    }
  }

  ghost function Elements(ids: seq<string>): set<string> {
    set x | x in ids
  }

  lemma ElementsSplit(ids: seq<string>)
    requires |ids| > 0 && Ascending(ids)
    ensures Elements(ids) == Elements(ids[..|ids| - 1]) + {ids[|ids| - 1]}
    ensures ids[|ids| - 1] !in Elements(ids[..|ids| - 1])
  {
    var last := |ids| - 1;
    assert ids == ids[..last] + [ids[last]];
    LessIrreflexive(ids[last]);
  }

  lemma {:induction false} HistoriesTable(s: Store, ids: seq<Id>)
    requires Listed(s, ids)
    ensures DistinctNumbers(HistoriesOf(s, ids)) && ListsHistories(HistoriesOf(s, ids), s, Elements(ids))
    ensures forall v :: v in HistoriesOf(s, ids) ==> v.recordId in Elements(ids)
  {
    if ids != [] {
      var shorter, last := ids[..|ids| - 1], ids[|ids| - 1];
      var a, b := HistoriesOf(s, shorter), HistoryRows(s, last, s.records[last].revision);
      HistoriesTable(s, shorter);
      HistoryRowsTable(s, last);
      ElementsSplit(ids);
      ListsConcat(a, b, s, Elements(shorter), {last});
      DistinctConcat(a, b);
    }
  }

  lemma {:induction false} ByImportConcat(a: seq<Receipt>, b: seq<Receipt>, project: string, workspace: string)
    ensures ByImport(a + b, project, workspace) == ByImport(a, project, workspace) + ByImport(b, project, workspace)
  {
    if b == [] {
      assert a + b == a;
    } else {
      assert (a + b)[..|a + b| - 1] == a + b[..|b| - 1];
      ByImportConcat(a, b[..|b| - 1], project, workspace);
    }
  }

  lemma {:induction false} ByImportHas(rows: seq<Receipt>, project: string, workspace: string, i: nat)
    requires i < |rows|
    ensures var k := ImportKey(project, workspace, rows[i].sourceHash, rows[i].parserRevision);
      k in ByImport(rows, project, workspace)
          && (DistinctReceipts(rows) ==> ByImport(rows, project, workspace)[k] == rows[i])
  {
    if i < |rows| - 1 { ByImportHas(rows[..|rows| - 1], project, workspace, i); }
  }

  lemma {:induction false} ByImportFrom(rows: seq<Receipt>, project: string, workspace: string, k: ImportKey)
    returns (i: nat)
    requires k in ByImport(rows, project, workspace)
    ensures i < |rows| && k == ImportKey(project, workspace, rows[i].sourceHash, rows[i].parserRevision)
    ensures ByImport(rows, project, workspace)[k] == rows[i]
  {
    var last := |rows| - 1;
    i := last;
    if k != ImportKey(project, workspace, rows[last].sourceHash, rows[last].parserRevision) {
      i := ByImportFrom(rows[..last], project, workspace, k);
    }
  }

  /** The listing holds exactly the stored receipts of this identity with the given source hashes. */
  ghost predicate ListsReceipts(rows: seq<Receipt>, s: Store, project: string, workspace: string, hashes: set<string>) {
    forall k ::
      && (k in ByImport(rows, project, workspace) <==>
          k in s.imports && k.project == project && k.workspace == workspace && k.sourceHash in hashes)
      && (k in ByImport(rows, project, workspace) ==> ByImport(rows, project, workspace)[k] == s.imports[k])
  }

  lemma ReceiptsForShape(s: Store, project: string, workspace: string, hash: string)
    requires ReceiptsSound(s)
    ensures var rows, parsers := ReceiptsFor(s, project, workspace, hash),
              InOrder(ImportParsers(s, project, workspace, hash));
      && |rows| == |parsers| && DistinctReceipts(rows)
      && forall i :: 0 <= i < |rows| ==>
        && rows[i].sourceHash == hash && rows[i].parserRevision == parsers[i]
        && var k := ImportKey(project, workspace, hash, parsers[i]); k in s.imports && rows[i] == s.imports[k]
  {
    var parsers := InOrder(ImportParsers(s, project, workspace, hash));
    var rows := ReceiptsFor(s, project, workspace, hash);
    ParsersListed(s, project, workspace, hash);
    forall i | 0 <= i < |rows| ensures
      && rows[i].sourceHash == hash && rows[i].parserRevision == parsers[i]
      && var k := ImportKey(project, workspace, hash, parsers[i]); k in s.imports && rows[i] == s.imports[k]
    {
      var k := ImportKey(project, workspace, hash, parsers[i]);
      assert parsers[i] in parsers;
      assert SoundReceipt(s, k, s.imports[k]);
    }
    forall i, j | 0 <= i < j < |rows| ensures rows[i].parserRevision != rows[j].parserRevision {
      LessIrreflexive(parsers[i]);
    }
  }

  lemma ReceiptRowsTable(s: Store, project: string, workspace: string, hash: string)
    requires ReceiptsSound(s)
    ensures ListsReceipts(ReceiptsFor(s, project, workspace, hash), s, project, workspace, {hash})
  {
    ReceiptsForShape(s, project, workspace, hash);
    var parsers := InOrder(ImportParsers(s, project, workspace, hash));
    var rows := ReceiptsFor(s, project, workspace, hash);
    forall k ensures
      && (k in ByImport(rows, project, workspace) <==> k in s.imports && k.project == project
                                                         && k.workspace == workspace && k.sourceHash in {hash})
      && (k in ByImport(rows, project, workspace) ==> ByImport(rows, project, workspace)[k] == s.imports[k])
    {
      if k in ByImport(rows, project, workspace) { var i := ByImportFrom(rows, project, workspace, k); }
      if k in s.imports && k.project == project && k.workspace == workspace && k.sourceHash == hash {
        assert k.parserRevision in parsers;
        var i :| 0 <= i < |parsers| && parsers[i] == k.parserRevision;
        ByImportHas(rows, project, workspace, i);
      }
    }
  }

  lemma ListsReceiptsConcat(a: seq<Receipt>, b: seq<Receipt>, s: Store, project: string, workspace: string,
                            left: set<string>, right: set<string>)
    requires ListsReceipts(a, s, project, workspace, left) && ListsReceipts(b, s, project, workspace, right)
    ensures ListsReceipts(a + b, s, project, workspace, left + right)
  {
    ByImportConcat(a, b, project, workspace);
  }

  lemma DistinctReceiptsConcat(a: seq<Receipt>, b: seq<Receipt>)
    requires DistinctReceipts(a) && DistinctReceipts(b)
    requires forall v, w :: v in a && w in b ==> v.sourceHash != w.sourceHash
    ensures DistinctReceipts(a + b)
  {
    var c := a + b;
    forall i, j | 0 <= i < j < |c|
      ensures (c[i].sourceHash, c[i].parserRevision) != (c[j].sourceHash, c[j].parserRevision)
    {
      if i < |a| <= j { assert c[i] in a && c[j] in b; }
    }
  }

  lemma {:induction false} ReceiptsTable(s: Store, project: string, workspace: string, hashes: seq<string>)
    requires ReceiptsSound(s) && Ascending(hashes)
    ensures var rows := ReceiptsOf(s, project, workspace, hashes);
      && DistinctReceipts(rows) && ListsReceipts(rows, s, project, workspace, Elements(hashes))
      && forall v :: v in rows ==> v.sourceHash in Elements(hashes)
  {
    if hashes != [] {
      var shorter, h := hashes[..|hashes| - 1], hashes[|hashes| - 1];
      var a := ReceiptsOf(s, project, workspace, shorter);
      var b := ReceiptsFor(s, project, workspace, h);
      ReceiptsTable(s, project, workspace, shorter);
      ReceiptRowsTable(s, project, workspace, h);
      ReceiptsForShape(s, project, workspace, h);
      ElementsSplit(hashes);
      ListsReceiptsConcat(a, b, s, project, workspace, Elements(shorter), {h});
      DistinctReceiptsConcat(a, b);
    }
  }

  // ---- RestoreRecords ----

  function Rebase(r: Record, project: string, workspace: string): Record {
    r.(project := project, workspace := workspace)
  }

  ghost function RebaseRows(rows: map<Id, Record>, project: string, workspace: string): map<Id, Record> {
    map id | id in rows :: Rebase(rows[id], project, workspace)
  }

  ghost function Merged(s: Store, project: string, workspace: string, a: Archive): Store {
    Store(s.records + RebaseRows(ById(a.records), project, workspace),
          s.revisions + ByNumber(a.revisions),
          s.imports + ByImport(a.imports, project, workspace))
  }

  /** Every key and index constraint accepts the archive's rows beside the stored ones. */
  ghost predicate ConstraintsAccept(s: Store, project: string, workspace: string, a: Archive) {
    && ById(a.records).Keys !! s.records.Keys && IndexesUnique(Merged(s, project, workspace, a).records)
    && ByNumber(a.revisions).Keys !! s.revisions.Keys
    && DistinctReceipts(a.imports) && ByImport(a.imports, project, workspace).Keys !! s.imports.Keys
  }

  ghost function Restore(s: Store, project: string, workspace: string, a: Archive): Result<Store, StoreError> {
    if project == "" || workspace == "" || Size(a) > MAX_ITEMS || !ArchiveValid(a) then Err(Conflict)
    else if OwnedIds(s, project, workspace) != {} then Err(Conflict)
    else if !ConstraintsAccept(s, project, workspace, a) then Err(Storage)
    else Ok(Merged(s, project, workspace, a))
  }

  /** Rebasing keeps histories complete: ownership is not part of a revision. */
  lemma RebaseHistory(rows: map<Id, Record>, history: map<(Id, nat), Revision>, project: string, workspace: string)
    requires HistoryComplete(Store(rows, history, map[])) && project != "" && workspace != ""
    ensures HistoryComplete(Store(RebaseRows(rows, project, workspace), history, map[]))
  {
    var s, t := Store(rows, history, map[]), Store(RebaseRows(rows, project, workspace), history, map[]);
    forall id, n: nat ensures (id, n) in t.revisions <==> id in t.records && 1 <= n <= t.records[id].revision {
      assert (id, n) in s.revisions <==> id in s.records && 1 <= n <= s.records[id].revision;
    }
    forall id | id in t.records ensures t.revisions[(id, t.records[id].revision)] == RevisionOf(t.records[id]) {
      assert id in s.records;
    }
  }

  lemma UnionHistory(s: Store, t: Store)
    requires HistoryComplete(s) && HistoryComplete(t) && s.records.Keys !! t.records.Keys
    ensures HistoryComplete(Store(s.records + t.records, s.revisions + t.revisions, map[]))
  {
    var u := Store(s.records + t.records, s.revisions + t.revisions, map[]);
    forall id, n: nat ensures (id, n) in u.revisions <==> id in u.records && 1 <= n <= u.records[id].revision {
      assert (id, n) in s.revisions <==> id in s.records && 1 <= n <= s.records[id].revision;
      assert (id, n) in t.revisions <==> id in t.records && 1 <= n <= t.records[id].revision;
    }
    forall id, n: nat | (id, n) in u.revisions ensures SoundRevision(u.revisions[(id, n)], id, n) {
      if (id, n) in t.revisions { } else { assert (id, n) in s.revisions; }
    }
    forall id | id in u.records ensures
      && u.records[id].id == id && WellFormed(u.records[id])
      && u.revisions[(id, u.records[id].revision)] == RevisionOf(u.records[id])
    {
      if id in t.records {
        assert (id, t.records[id].revision) in t.revisions;
      } else {
        assert (id, s.records[id].revision) in s.revisions && (id, s.records[id].revision) !in t.revisions;
      }
    }
  }

  lemma RestoreReceipts(s: Store, project: string, workspace: string, a: Archive)
    requires ReceiptsSound(s) && ArchiveValid(a) && ById(a.records).Keys !! s.records.Keys
    ensures ReceiptsSound(Merged(s, project, workspace, a))
  {
    var t := Merged(s, project, workspace, a);
    forall k | k in t.imports ensures SoundReceipt(t, k, t.imports[k]) {
      if k in ByImport(a.imports, project, workspace) {
        var i := ByImportFrom(a.imports, project, workspace, k);
        assert ReceiptValid(ById(a.records), a.imports[i]);
      } else {
        assert SoundReceipt(s, k, s.imports[k]);
      }
    }
  }

  lemma MergedHistory(s: Store, project: string, workspace: string, a: Archive)
    requires HistoryComplete(s) && ArchiveValid(a) && project != "" && workspace != ""
    requires ById(a.records).Keys !! s.records.Keys
    ensures HistoryComplete(Merged(s, project, workspace, a))
  {
    var t := Merged(s, project, workspace, a);
    RebaseHistory(ById(a.records), ByNumber(a.revisions), project, workspace);
    UnionHistory(s, Store(RebaseRows(ById(a.records), project, workspace), ByNumber(a.revisions), map[]));
    HistoryIgnoresImports(Store(t.records, t.revisions, map[]), t.imports);
  }

  lemma MergedAppends(s: Store, project: string, workspace: string, a: Archive)
    requires ConstraintsAccept(s, project, workspace, a)
    ensures Appends(s, Merged(s, project, workspace, a))
  {
  }

  /** Restoring any archive the code accepts keeps the store invariant and only appends. */
  lemma RestoreKeeps(s: Store, project: string, workspace: string, a: Archive)
    requires Inv(s) && Restore(s, project, workspace, a).Ok?
    ensures Inv(Restore(s, project, workspace, a).value) && Appends(s, Restore(s, project, workspace, a).value)
  {
    MergedHistory(s, project, workspace, a);
    RestoreReceipts(s, project, workspace, a);
    MergedAppends(s, project, workspace, a);
  }

  lemma HistoryIgnoresImports(s: Store, imports: map<ImportKey, Receipt>)
    requires HistoryComplete(s)
    ensures HistoryComplete(s.(imports := imports))
  {
    var t := s.(imports := imports);
    forall id, n: nat ensures (id, n) in t.revisions <==> id in t.records && 1 <= n <= t.records[id].revision {
      assert (id, n) in s.revisions <==> id in s.records && 1 <= n <= s.records[id].revision;
    }
  }

  // ---- The round trip ----

  lemma OwnedListed(s: Store, project: string, workspace: string)
    requires HistoryComplete(s)
    ensures Listed(s, InOrder(OwnedIds(s, project, workspace)))
  {
    var ids := InOrder(OwnedIds(s, project, workspace));
    forall i | 0 <= i < |ids| ensures ids[i] in s.records { assert ids[i] in ids; }
  }

  lemma ExportRowsValid(s: Store, project: string, workspace: string)
    requires Inv(s)
    ensures DistinctIds(ExportOf(s, project, workspace).records) && SingleOwner(ExportOf(s, project, workspace).records)
  {
    var rows := ExportOf(s, project, workspace).records;
    var ids := InOrder(OwnedIds(s, project, workspace));
    OwnedListed(s, project, workspace);
    RowsTable(s, ids);
    forall i | 0 <= i < |rows| ensures Owned(rows[i], project, workspace) { assert ids[i] in ids; }
  }

  lemma ExportRevisionsValid(s: Store, project: string, workspace: string)
    requires Inv(s)
    ensures var a := ExportOf(s, project, workspace);
      DistinctNumbers(a.revisions) && HistoryComplete(Store(ById(a.records), ByNumber(a.revisions), map[]))
  {
    var ids := InOrder(OwnedIds(s, project, workspace));
    OwnedListed(s, project, workspace);
    HistoriesTable(s, ids);
    ExportHistory(s, ids);
  }

  lemma ExportReceiptsValid(s: Store, project: string, workspace: string)
    requires Inv(s)
    ensures var a := ExportOf(s, project, workspace);
      DistinctReceipts(a.imports) && forall i :: 0 <= i < |a.imports| ==> ReceiptValid(ById(a.records), a.imports[i])
  {
    var a := ExportOf(s, project, workspace);
    ReceiptsTable(s, project, workspace, InOrder(ImportHashes(s, project, workspace)));
    forall i | 0 <= i < |a.imports| ensures ReceiptValid(ById(a.records), a.imports[i]) {
      ExportReceiptValid(s, project, workspace, i);
    }
  }

  /** Every export is a valid archive. */
  lemma ExportValid(s: Store, project: string, workspace: string)
    requires Inv(s)
    ensures ArchiveValid(ExportOf(s, project, workspace)) && DistinctReceipts(ExportOf(s, project, workspace).imports)
  {
    ExportRowsValid(s, project, workspace);
    ExportRevisionsValid(s, project, workspace);
    ExportReceiptsValid(s, project, workspace);
  }

  lemma ExportReceiptValid(s: Store, project: string, workspace: string, i: nat)
    requires Inv(s) && i < |ExportOf(s, project, workspace).imports|
    ensures ReceiptValid(ById(ExportOf(s, project, workspace).records), ExportOf(s, project, workspace).imports[i])
  {
    var a := ExportOf(s, project, workspace);
    var ids := InOrder(OwnedIds(s, project, workspace));
    OwnedListed(s, project, workspace);
    RowsTable(s, ids);
    ReceiptsTable(s, project, workspace, InOrder(ImportHashes(s, project, workspace)));
    ByImportHas(a.imports, project, workspace, i);
    var k := ImportKey(project, workspace, a.imports[i].sourceHash, a.imports[i].parserRevision);
    assert SoundReceipt(s, k, s.imports[k]);
    assert a.imports[i].recordId in ids;
  }

  lemma ExportHistory(s: Store, ids: seq<Id>)
    requires Listed(s, ids)
    ensures HistoryComplete(Store(ById(RowsOf(s, ids)), ByNumber(HistoriesOf(s, ids)), map[]))
  {
    RowsTable(s, ids);
    HistoriesTable(s, ids);
    var t := Store(ById(RowsOf(s, ids)), ByNumber(HistoriesOf(s, ids)), map[]);
    forall id, n: nat ensures (id, n) in t.revisions <==> id in t.records && 1 <= n <= t.records[id].revision {
      assert (id, n) in s.revisions <==> id in s.records && 1 <= n <= s.records[id].revision;
    }
    forall id | id in t.records ensures t.revisions[(id, t.records[id].revision)] == RevisionOf(t.records[id]) {
      assert (id, s.records[id].revision) in t.revisions;
    }
  }

  function RebaseAll(rows: seq<Record>, project: string, workspace: string): (rebased: seq<Record>)
    ensures |rebased| == |rows| && forall i :: 0 <= i < |rows| ==> rebased[i] == Rebase(rows[i], project, workspace)
  {
    if rows == [] then []
        else RebaseAll(rows[..|rows| - 1], project, workspace) + [Rebase(rows[|rows| - 1], project, workspace)]
  }

  /** Rows of one owner keep their index entries apart, and apart from other owners, when rebased. */
  lemma RebasedIndexes(s: Store, project: string, workspace: string, t: Store, project': string, workspace': string)
    requires IndexesUnique(s.records) && IndexesUnique(t.records)
    requires OwnedIds(t, project', workspace') == {}
    requires OwnedIds(s, project, workspace) !! t.records.Keys
    ensures IndexesUnique(t.records + RebaseRows(OwnedRows(s, project, workspace), project', workspace'))
  {
    var moved := RebaseRows(OwnedRows(s, project, workspace), project', workspace');
    forall x, y | x in moved && y in moved && x != y ensures !Collide(moved[x], moved[y]) {
      RebaseCollide(s.records[x], s.records[y], project', workspace');
    }
    forall x, y | x in moved && y in t.records
      ensures !Collide(moved[x], t.records[y]) && !Collide(t.records[y], moved[x])
    {
      assert y !in OwnedIds(t, project', workspace');
      OwnersApart(moved[x], t.records[y]);
    }
  }

  lemma OwnersApart(a: Record, b: Record)
    requires !Owned(b, a.project, a.workspace)
    ensures !Collide(a, b) && !Collide(b, a)
  {
  }

  lemma RebaseCollide(a: Record, b: Record, project: string, workspace: string)
    requires Owned(a, b.project, b.workspace)
    ensures Collide(Rebase(a, project, workspace), Rebase(b, project, workspace)) <==> Collide(a, b)
  {
  }

  ghost function OwnedRows(s: Store, project: string, workspace: string): map<Id, Record> {
    map id | id in OwnedIds(s, project, workspace) :: s.records[id]
  }

  lemma SameRows(a: map<Id, Record>, b: map<Id, Record>)
    requires (forall id :: id in a <==> id in b) && forall id :: id in a ==> a[id] == b[id]
    ensures a == b
  {
  }

  lemma ExportRows(s: Store, project: string, workspace: string)
    requires HistoryComplete(s)
    ensures Listed(s, InOrder(OwnedIds(s, project, workspace)))
    ensures ById(RowsOf(s, InOrder(OwnedIds(s, project, workspace)))) == OwnedRows(s, project, workspace)
  {
    var ids := InOrder(OwnedIds(s, project, workspace));
    OwnedListed(s, project, workspace);
    RowsTable(s, ids);
    SameRows(ById(RowsOf(s, ids)), OwnedRows(s, project, workspace));
  }

  lemma ExportHistories(s: Store, project: string, workspace: string)
    requires HistoryComplete(s)
    ensures Listed(s, InOrder(OwnedIds(s, project, workspace)))
    ensures ListsHistories(HistoriesOf(s, InOrder(OwnedIds(s, project, workspace))), s, OwnedIds(s, project, workspace))
  {
    var ids := InOrder(OwnedIds(s, project, workspace));
    OwnedListed(s, project, workspace);
    HistoriesTable(s, ids);
    assert Elements(ids) == OwnedIds(s, project, workspace);
  }

  lemma ExportReceipts(s: Store, project: string, workspace: string)
    requires ReceiptsSound(s)
    ensures ListsReceipts(ReceiptsOf(s, project, workspace, InOrder(ImportHashes(s, project, workspace))), s, project,
        workspace,
                          ImportHashes(s, project, workspace))
  {
    var hashes := InOrder(ImportHashes(s, project, workspace));
    ReceiptsTable(s, project, workspace, hashes);
    assert Elements(hashes) == ImportHashes(s, project, workspace);
  }

  /** An identity without records has no receipts either. */
  lemma EmptyIdentity(t: Store, project: string, workspace: string, k: ImportKey)
    requires ReceiptsSound(t) && OwnedIds(t, project, workspace) == {}
    ensures k in t.imports ==> k.project != project || k.workspace != workspace
  {
    if k in t.imports {
      assert SoundReceipt(t, k, t.imports[k]);
      assert t.imports[k].recordId !in OwnedIds(t, project, workspace);
    }
  }

  lemma ExportApart(s: Store, project: string, workspace: string, t: Store, project': string, workspace': string)
    requires Inv(s) && Inv(t)
    requires OwnedIds(t, project', workspace') == {} && OwnedIds(s, project, workspace) !! t.records.Keys
    ensures var a := ExportOf(s, project, workspace);
      && ByNumber(a.revisions).Keys !! t.revisions.Keys
      && ByImport(a.imports, project', workspace').Keys !! t.imports.Keys
  {
    var a := ExportOf(s, project, workspace);
    ExportHistories(s, project, workspace);
    forall k | k in ByNumber(a.revisions) ensures k !in t.revisions {
      assert k == (k.0, k.1);
      assert (k.0, k.1) in t.revisions ==> k.0 in t.records;
    }
    forall k | k in ByImport(a.imports, project', workspace') ensures k !in t.imports {
      var i := ByImportFrom(a.imports, project', workspace', k);
      EmptyIdentity(t, project', workspace', k);
    }
  }

  lemma ExportRestorable(s: Store, project: string, workspace: string, t: Store, project': string, workspace': string)
    requires Inv(s) && Inv(t) && project' != "" && workspace' != ""
    requires Size(ExportOf(s, project, workspace)) <= MAX_ITEMS
    requires OwnedIds(t, project', workspace') == {} && OwnedIds(s, project, workspace) !! t.records.Keys
    ensures Restore(t, project', workspace', ExportOf(s, project, workspace)).Ok?
  {
    ExportValid(s, project, workspace);
    ExportRows(s, project, workspace);
    RebasedIndexes(s, project, workspace, t, project', workspace');
    ExportApart(s, project, workspace, t, project', workspace');
  }

  // ---- An archive of one record ----

  /** A record at revision 1 and its only revision are a valid archive. */
  lemma SingletonArchive(r: Record)
    requires Insertable(r)
    ensures var a := Archive([r], [RevisionOf(r)], []);
      ArchiveValid(a) && ById(a.records) == map[r.id := r] && ByNumber(a.revisions) == map[(r.id, 1) := RevisionOf(r)]
  {
    var a := Archive([r], [RevisionOf(r)], []);
    assert ById(a.records) == map[r.id := r] by { assert a.records[..0] == []; }
    assert ByNumber(a.revisions) == map[(r.id, 1) := RevisionOf(r)] by { assert a.revisions[..0] == []; }
    var s := Store(ById(a.records), ByNumber(a.revisions), map[]);
    forall id, n: nat ensures (id, n) in s.revisions <==> id in s.records && 1 <= n <= s.records[id].revision { }
  }

  /** Restored into an empty store it is the whole store. */
  lemma RestoreSingleton(r: Record)
    requires Insertable(r)
    ensures Restore(EMPTY, r.project, r.workspace, Archive([r], [RevisionOf(r)], []))
         == Ok(Store(map[r.id := r], map[(r.id, 1) := RevisionOf(r)], map[]))
  {
    var a := Archive([r], [RevisionOf(r)], []);
    SingletonArchive(r);
    assert RebaseRows(map[r.id := r], r.project, r.workspace) == map[r.id := r];
    assert Merged(EMPTY, r.project, r.workspace, a) == Store(map[r.id := r], map[(r.id, 1) := RevisionOf(r)], map[]);
  }
}
