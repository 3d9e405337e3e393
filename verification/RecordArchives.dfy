/** Export of one identity's durable records, archive validation, and restore under another identity. */
module RecordArchives {
  import opened Wrappers
  import opened Clocks
  import opened Records

  const MAX_ITEMS := 100000

  datatype Archive = Archive(records: seq<Record>, revisions: seq<Revision>, imports: seq<Receipt>)

  // ---- The tables an archive denotes ----

  ghost function ById(rows: seq<Record>): map<Id, Record> {
    if rows == [] then map[]
    else var last := rows[|rows| - 1]; ById(rows[..|rows| - 1])[last.id := last]
  }

  ghost function ByNumber(history: seq<Revision>): map<(Id, nat), Revision> {
    if history == [] then map[]
    else var last := history[|history| - 1]; ByNumber(history[..|history| - 1])[(last.recordId, last.number) := last]
  }

  ghost function ByImport(receipts: seq<Receipt>, project: string, workspace: string): map<ImportKey, Receipt> {
    if receipts == [] then map[]
    else
      var last := receipts[|receipts| - 1];
      ByImport(receipts[..|receipts| - 1], project, workspace)
      [ImportKey(project, workspace, last.sourceHash, last.parserRevision) := last]
  }

  predicate DistinctIds(rows: seq<Record>) {
    forall i, j :: 0 <= i < j < |rows| ==> rows[i].id != rows[j].id
  }

  predicate DistinctNumbers(history: seq<Revision>) {
    forall i, j :: 0 <= i < j < |history| ==>
        (history[i].recordId, history[i].number) != (history[j].recordId, history[j].number)
  }

  predicate DistinctReceipts(receipts: seq<Receipt>) {
    forall i, j :: 0 <= i < j < |receipts| ==>
      (receipts[i].sourceHash, receipts[i].parserRevision) != (receipts[j].sourceHash, receipts[j].parserRevision)
  }

  predicate SingleOwner(rows: seq<Record>) {
    forall i, j :: 0 <= i < |rows| && 0 <= j < |rows| ==> Owned(rows[i], rows[j].project, rows[j].workspace)
  }

  /** An archive is valid when its rows are one identity's store with a complete history. */
  ghost predicate ArchiveValid(a: Archive) {
    && DistinctIds(a.records) && SingleOwner(a.records) && DistinctNumbers(a.revisions)
    && HistoryComplete(Store(ById(a.records), ByNumber(a.revisions), map[]))
    && forall i :: 0 <= i < |a.imports| ==> ReceiptValid(ById(a.records), a.imports[i])
  }

  predicate ReceiptValid(rows: map<Id, Record>, v: Receipt) {
    && v.recordId in rows && rows[v.recordId].kind == "verification"
    && v.sourceHash != "" && v.parserRevision != "" && v.importedAt != ZERO_TIME
  }

  lemma {:induction false} ByIdHas(rows: seq<Record>, i: nat)
    requires i < |rows| && DistinctIds(rows)
    ensures rows[i].id in ById(rows) && ById(rows)[rows[i].id] == rows[i]
  {
    var last := |rows| - 1;
    if i < last {
      ByIdHas(rows[..last], i);
    }
  }

  lemma {:induction false} ByIdFrom(rows: seq<Record>, id: Id) returns (i: nat)
    requires id in ById(rows)
    ensures i < |rows| && rows[i].id == id && ById(rows)[id] == rows[i]
  {
    var last := |rows| - 1;
    i := last;
    if rows[last].id != id { i := ByIdFrom(rows[..last], id); }
  }

  lemma {:induction false} ByNumberHas(history: seq<Revision>, i: nat)
    requires i < |history| && DistinctNumbers(history)
    ensures var k := (history[i].recordId, history[i].number);
      k in ByNumber(history) && ByNumber(history)[k] == history[i]
  {
    var last := |history| - 1;
    if i < last {
      ByNumberHas(history[..last], i);
    }
  }

  lemma {:induction false} ByNumberFrom(history: seq<Revision>, k: (Id, nat)) returns (i: nat)
    requires k in ByNumber(history)
    ensures i < |history| && (history[i].recordId, history[i].number) == k && ByNumber(history)[k] == history[i]
  {
    var last := |history| - 1;
    i := last;
    if (history[last].recordId, history[last].number) != k { i := ByNumberFrom(history[..last], k); }
  }

  // ---- validateRecordArchive ----

  lemma {:induction false} CountedRange(numbers: set<nat>, k: nat)
    requires forall n :: 1 <= n <= k ==> n in numbers
    ensures |numbers| >= k
    ensures |numbers| == k ==> forall n :: n in numbers ==> 1 <= n <= k
  {
    if k > 0 {
      CountedRange(numbers - {k}, k - 1);
      assert forall n :: n in numbers ==> n == k || n in numbers - {k};
    } else if |numbers| == 0 {
      assert numbers == {};
    }
  }

  lemma DistinctPrefix(rows: seq<Record>, k: nat)
    requires DistinctIds(rows) && k <= |rows|
    ensures DistinctIds(rows[..k])
  {
  }

  /** The index of the first k rows tells whether row k repeats an id, and grows by it. */
  lemma RowNext(rows: seq<Record>, k: nat)
    requires k < |rows| && DistinctIds(rows[..k])
    ensures rows[k].id in ById(rows[..k]) <==> !DistinctIds(rows[..k + 1])
    ensures ById(rows[..k + 1]) == ById(rows[..k])[rows[k].id := rows[k]]
  {
    assert rows[..k + 1][..k] == rows[..k];
    if rows[k].id in ById(rows[..k]) {
      var i := ByIdFrom(rows[..k], rows[k].id);
      assert rows[..k + 1][i].id == rows[..k + 1][k].id;
    } else {
      forall i | 0 <= i < k ensures rows[i].id != rows[k].id { ByIdHas(rows[..k], i); }
    }
  }

  /** The first k rows are well formed, have one owner and distinct ids, and are indexed. */
  ghost predicate Scanned(rows: seq<Record>, k: nat, project: string, workspace: string, byId: map<Id, Record>) {
    && k <= |rows|
    && (forall i :: 0 <= i < k ==> WellFormed(rows[i]) && Owned(rows[i], project, workspace))
    && (k == 0 <==> project == "")
    && DistinctIds(rows[..k]) && byId == ById(rows[..k])
  }

  ghost predicate RowsSound(rows: seq<Record>) {
    (forall i :: 0 <= i < |rows| ==> WellFormed(rows[i])) && SingleOwner(rows) && DistinctIds(rows)
  }

  lemma ScannedNext(rows: seq<Record>, k: nat, project: string, workspace: string, byId: map<Id, Record>)
    requires k < |rows| && Scanned(rows, k, project, workspace, byId) && WellFormed(rows[k]) && rows[k].id !in byId
    requires project == "" || Owned(rows[k], project, workspace)
    ensures Scanned(rows, k + 1, rows[k].project, rows[k].workspace, byId[rows[k].id := rows[k]])
  {
    RowNext(rows, k);
  }

  lemma ScannedRefused(rows: seq<Record>, k: nat, project: string, workspace: string, byId: map<Id, Record>)
    requires k < |rows| && Scanned(rows, k, project, workspace, byId)
    requires (project != "" && !Owned(rows[k], project, workspace)) || rows[k].id in byId
    ensures !RowsSound(rows)
  {
    RowNext(rows, k);
    if DistinctIds(rows) { DistinctPrefix(rows, k + 1); }
    if project != "" { assert Owned(rows[0], project, workspace); }
  }

  lemma ScannedAll(rows: seq<Record>, project: string, workspace: string, byId: map<Id, Record>)
    requires Scanned(rows, |rows|, project, workspace, byId)
    ensures RowsSound(rows) && byId == ById(rows)
  {
    assert rows[..|rows|] == rows;
  }

  /** The rows loop: shape, single ownership and distinct ids. */
  method IndexRows(rows: seq<Record>) returns (ok: bool, byId: map<Id, Record>)
    ensures ok <==> RowsSound(rows)
    ensures ok ==> byId == ById(rows)
  {
    byId := map[];
    var project, workspace := "", "";
    var k := 0;
    while k < |rows|
      invariant Scanned(rows, k, project, workspace, byId)
    {
      var r := rows[k];
      if !WellFormed(r) { return false, byId; }
      if project != "" && !Owned(r, project, workspace) {
        ScannedRefused(rows, k, project, workspace, byId);
        return false, byId;
      }
      if r.id in byId {
        ScannedRefused(rows, k, project, workspace, byId);
        return false, byId;
      }
      ScannedNext(rows, k, project, workspace, byId);
      if project == "" { project, workspace := r.project, r.workspace; }
      byId := byId[r.id := r];
      k := k + 1;
    }
    ScannedAll(rows, project, workspace, byId);
    ok := true;
  }

  ghost function Flat(nested: map<Id, map<nat, Revision>>, id: Id, n: nat): Option<Revision> {
    if id in nested && n in nested[id] then Some(nested[id][n]) else None
  }

  /** The nested index holds exactly the given revisions. */
  ghost predicate Indexes(nested: map<Id, map<nat, Revision>>, history: seq<Revision>) {
    forall id, n: nat :: Flat(nested, id, n) == if (id, n) in ByNumber(history) then Some(ByNumber(history)[(id, n)])
                                                  else None
  }

  lemma DistinctNumbersPrefix(history: seq<Revision>, k: nat)
    requires k <= |history|
    ensures DistinctNumbers(history) ==> DistinctNumbers(history[..k])
  {
  }

  /** The nested index of the first k revisions tells whether revision k repeats a number. */
  lemma RevisionKnown(nested: map<Id, map<nat, Revision>>, history: seq<Revision>, k: nat)
    requires k < |history| && DistinctNumbers(history[..k]) && Indexes(nested, history[..k])
    ensures Flat(nested, history[k].recordId, history[k].number).Some? <==> !DistinctNumbers(history[..k + 1])
  {
    var v := history[k];
    assert history[..k + 1][..k] == history[..k];
    if Flat(nested, v.recordId, v.number).Some? {
      var i := ByNumberFrom(history[..k], (v.recordId, v.number));
      assert history[..k + 1][i] == history[i] && history[..k + 1][k] == v;
    } else {
      forall i | 0 <= i < k ensures (history[i].recordId, history[i].number) != (v.recordId, v.number) {
        ByNumberHas(history[..k], i);
      }
    }
  }

  function Nested(nested: map<Id, map<nat, Revision>>, v: Revision): map<Id, map<nat, Revision>> {
    nested[v.recordId := (if v.recordId in nested then nested[v.recordId] else map[])[v.number := v]]
  }

  /** And grows by it. */
  lemma RevisionNext(nested: map<Id, map<nat, Revision>>, history: seq<Revision>, k: nat)
    requires k < |history| && Indexes(nested, history[..k])
    ensures Indexes(Nested(nested, history[k]), history[..k + 1])
  {
    assert history[..k + 1][..k] == history[..k];
    var after := Nested(nested, history[k]);
    forall id, n: nat ensures Flat(after, id, n) ==
      if (id, n) == (history[k].recordId, history[k].number) then Some(history[k]) else Flat(nested, id, n)
    {
    }
  }

  /** The revisions loop: shape, known record, and no duplicate number. */
  method IndexRevisions(history: seq<Revision>, byId: map<Id, Record>)
    returns (ok: bool, nested: map<Id, map<nat, Revision>>)
    ensures ok <==>
      && (forall i :: 0 <= i < |history| ==> history[i].recordId in byId
                                               && SoundRevision(history[i], history[i].recordId, history[i].number))
      && DistinctNumbers(history)
    ensures ok ==> Indexes(nested, history)
  {
    nested := map[];
    var k := 0;
    while k < |history|
      invariant 0 <= k <= |history|
      invariant forall i :: 0 <= i < k ==> history[i].recordId in byId
                                             && SoundRevision(history[i], history[i].recordId, history[i].number)
      invariant DistinctNumbers(history[..k])
      invariant Indexes(nested, history[..k])
    {
      var v := history[k];
      if v.recordId !in byId || !SoundRevision(v, v.recordId, v.number) { return false, nested; }
      var byNumber := if v.recordId in nested then nested[v.recordId] else map[];
      RevisionKnown(nested, history, k);
      DistinctNumbersPrefix(history, k + 1);
      if v.number in byNumber { return false, nested; }
      RevisionNext(nested, history, k);
      nested := nested[v.recordId := byNumber[v.number := v]];
      k := k + 1;
    }
    assert history[..k] == history;
    ok := true;
  }

  ghost predicate HistoryOf(nested: map<Id, map<nat, Revision>>, r: Record) {
    && (forall n: nat :: Flat(nested, r.id, n).Some? <==> 1 <= n <= r.revision)
    && Flat(nested, r.id, r.revision) == Some(RevisionOf(r))
  }

  /** One record against its revisions: the count, every number, and the latest row. */
  method CheckHistory(nested: map<Id, map<nat, Revision>>, r: Record) returns (ok: bool)
    requires r.revision != 0
    requires forall n: nat :: Flat(nested, r.id, n).Some? ==> SoundRevision(Flat(nested, r.id, n).value, r.id, n)
    ensures ok <==> HistoryOf(nested, r)
  {
    var byNumber := if r.id in nested then nested[r.id] else map[];
    assert forall n: nat :: Flat(nested, r.id, n).Some? <==> n in byNumber;
    assert (forall n :: n in byNumber ==> 1 <= n <= r.revision) && (forall n :: 1 <= n <= r.revision ==> n in byNumber)
      ==> |byNumber| == r.revision by {
      if (forall n :: n in byNumber ==> 1 <= n <= r.revision) && (forall n :: 1 <= n <= r.revision ==> n in byNumber) {
        RangeSize(byNumber.Keys, r.revision);
      }
    }
    if |byNumber| != r.revision { return false; }
    var n := 1;
    while n <= r.revision
      invariant 1 <= n <= r.revision + 1
      invariant forall m :: 1 <= m < n ==> m in byNumber
    {
      if n !in byNumber {
        assert Flat(nested, r.id, n).None?;
        return false;
      }
      n := n + 1;
    }
    CountedRange(byNumber.Keys, r.revision);
    var latest := byNumber[r.revision];
    ok := latest.updatedAt == r.updatedAt && latest.payload == r.payload && latest.validity == r.validity
          && latest.supersedes == r.supersedes && latest.evidence == r.evidence;
    assert Flat(nested, r.id, r.revision) == Some(latest);
    assert SoundRevision(latest, r.id, r.revision);
  }

  lemma {:induction false} RangeSize(numbers: set<nat>, k: nat)
    requires forall n :: n in numbers <==> 1 <= n <= k
    ensures |numbers| == k
  {
    if k > 0 { RangeSize(numbers - {k}, k - 1); }
    else { assert numbers == {}; }
  }

  lemma RowsKeyed(rows: seq<Record>)
    requires forall i :: 0 <= i < |rows| ==> WellFormed(rows[i])
    ensures forall id :: id in ById(rows) ==> ById(rows)[id].id == id && WellFormed(ById(rows)[id])
  {
    forall id | id in ById(rows) ensures ById(rows)[id].id == id && WellFormed(ById(rows)[id]) {
      var i := ByIdFrom(rows, id);
    }
  }

  ghost predicate Keyed(byId: map<Id, Record>) {
    forall id :: id in byId ==> byId[id].id == id && WellFormed(byId[id])
  }

  ghost predicate FlatIs(nested: map<Id, map<nat, Revision>>, revisions: map<(Id, nat), Revision>) {
    forall id, n: nat :: Flat(nested, id, n) == if (id, n) in revisions then Some(revisions[(id, n)]) else None
  }

  ghost predicate AllSound(nested: map<Id, map<nat, Revision>>, byId: map<Id, Record>) {
    forall id, n: nat :: Flat(nested, id, n).Some? ==> id in byId && SoundRevision(Flat(nested, id, n).value, id, n)
  }

  lemma HistoriesComplete(s: Store, nested: map<Id, map<nat, Revision>>)
    requires Keyed(s.records) && FlatIs(nested, s.revisions) && AllSound(nested, s.records)
    requires forall id :: id in s.records ==> HistoryOf(nested, s.records[id])
    ensures HistoryComplete(s)
  {
    forall id, n: nat ensures (id, n) in s.revisions <==> id in s.records && 1 <= n <= s.records[id].revision {
      assert Flat(nested, id, n).Some? <==> (id, n) in s.revisions;
      if id in s.records { assert HistoryOf(nested, s.records[id]); }
    }
    forall id, n | (id, n) in s.revisions ensures SoundRevision(s.revisions[(id, n)], id, n) {
      assert Flat(nested, id, n) == Some(s.revisions[(id, n)]);
    }
    forall id | id in s.records ensures s.revisions[(id, s.records[id].revision)] == RevisionOf(s.records[id]) {
      assert HistoryOf(nested, s.records[id]);
      assert Flat(nested, id, s.records[id].revision) == Some(s.revisions[(id, s.records[id].revision)]);
    }
  }

  lemma CompleteHistories(s: Store, nested: map<Id, map<nat, Revision>>, id: Id)
    requires HistoryComplete(s) && FlatIs(nested, s.revisions) && id in s.records
    ensures HistoryOf(nested, s.records[id])
  {
    forall n: nat ensures Flat(nested, id, n).Some? <==> 1 <= n <= s.records[id].revision {
      assert (id, n) in s.revisions <==> 1 <= n <= s.records[id].revision;
    }
    assert (id, s.records[id].revision) in s.revisions;
  }

  /** The per-record checks together are the completeness of the whole history. */
  lemma HistoriesMeanComplete(a: Archive, byId: map<Id, Record>, nested: map<Id, map<nat, Revision>>)
    requires byId == ById(a.records) && DistinctIds(a.records) && forall i :: 0 <= i < |a.records| ==>
                                                                    WellFormed(a.records[i])
    requires Indexes(nested, a.revisions) && AllSound(nested, byId)
    ensures (forall id :: id in byId ==> HistoryOf(nested, byId[id]))
       <==> HistoryComplete(Store(ById(a.records), ByNumber(a.revisions), map[]))
  {
    var s := Store(ById(a.records), ByNumber(a.revisions), map[]);
    RowsKeyed(a.records);
    if forall id :: id in byId ==> HistoryOf(nested, byId[id]) { HistoriesComplete(s, nested); }
    if HistoryComplete(s) {
      forall id | id in byId ensures HistoryOf(nested, byId[id]) { CompleteHistories(s, nested, id); }
    }
  }

  lemma CompleteRows(a: Archive)
    requires ArchiveValid(a)
    ensures forall i :: 0 <= i < |a.records| ==> WellFormed(a.records[i])
    ensures forall i :: 0 <= i < |a.revisions| ==>
      a.revisions[i].recordId in ById(a.records)
          && SoundRevision(a.revisions[i], a.revisions[i].recordId, a.revisions[i].number)
  {
    var s := Store(ById(a.records), ByNumber(a.revisions), map[]);
    forall i | 0 <= i < |a.records| ensures WellFormed(a.records[i]) {
      ByIdHas(a.records, i);
      assert WellFormed(s.records[a.records[i].id]);
    }
    forall i | 0 <= i < |a.revisions| ensures
      a.revisions[i].recordId in ById(a.records)
          && SoundRevision(a.revisions[i], a.revisions[i].recordId, a.revisions[i].number)
    {
      ByNumberHas(a.revisions, i);
      assert (a.revisions[i].recordId, a.revisions[i].number) in s.revisions;
    }
  }

  method CheckHistories(a: Archive, byId: map<Id, Record>, nested: map<Id, map<nat, Revision>>) returns (ok: bool)
    requires byId == ById(a.records) && DistinctIds(a.records) && forall i :: 0 <= i < |a.records| ==>
                                                                    WellFormed(a.records[i])
    requires Indexes(nested, a.revisions)
    requires AllSound(nested, byId)
    ensures ok <==> HistoryComplete(Store(ById(a.records), ByNumber(a.revisions), map[]))
  {
    HistoriesMeanComplete(a, byId, nested);
    var todo := byId.Keys;
    while todo != {}
      invariant todo <= byId.Keys
      invariant forall id :: id in byId.Keys - todo ==> HistoryOf(nested, byId[id])
      decreases todo
    {
      var id :| id in todo;
      todo := todo - {id};
      var i := ByIdFrom(a.records, id);
      ok := CheckHistory(nested, byId[id]);
      if !ok { return; }
    }
    ok := true;
  }

  lemma FlatSound(history: seq<Revision>, byId: map<Id, Record>, nested: map<Id, map<nat, Revision>>)
    requires Indexes(nested, history)
    requires forall i :: 0 <= i < |history| ==> history[i].recordId in byId
                                                  && SoundRevision(history[i], history[i].recordId, history[i].number)
    ensures AllSound(nested, byId)
  {
    forall id, n: nat | Flat(nested, id, n).Some?
      ensures id in byId && SoundRevision(Flat(nested, id, n).value, id, n)
    {
      var i := ByNumberFrom(history, (id, n));
    }
  }

  /** The receipts loop. */
  method CheckReceipts(byId: map<Id, Record>, imports: seq<Receipt>) returns (ok: bool)
    ensures ok <==> forall i :: 0 <= i < |imports| ==> ReceiptValid(byId, imports[i])
  {
    for k := 0 to |imports|
      invariant forall i :: 0 <= i < k ==> ReceiptValid(byId, imports[i])
    {
      if !ReceiptValid(byId, imports[k]) { return false; }
    }
    ok := true;
  }

  /** The rows and revisions of an archive, as far as the loops before the histories look at them. */
  ghost predicate RowsValid(a: Archive) {
    && RowsSound(a.records)
    && (forall i :: 0 <= i < |a.revisions| ==>
          a.revisions[i].recordId in ById(a.records)
              && SoundRevision(a.revisions[i], a.revisions[i].recordId, a.revisions[i].number))
    && DistinctNumbers(a.revisions)
  }

  lemma ValidParts(a: Archive)
    ensures ArchiveValid(a) <==>
      && RowsValid(a) && HistoryComplete(Store(ById(a.records), ByNumber(a.revisions), map[]))
      && forall i :: 0 <= i < |a.imports| ==> ReceiptValid(ById(a.records), a.imports[i])
  {
    if ArchiveValid(a) { CompleteRows(a); }
  }

  /** The first three loops together. */
  method CheckRows(a: Archive) returns (ok: bool, byId: map<Id, Record>)
    ensures ok <==> RowsValid(a) && HistoryComplete(Store(ById(a.records), ByNumber(a.revisions), map[]))
    ensures ok ==> byId == ById(a.records)
  {
    ok, byId := IndexRows(a.records);
    if !ok { return; }
    var nested;
    ok, nested := IndexRevisions(a.revisions, byId);
    if !ok { return; }
    FlatSound(a.revisions, byId, nested);
    ok := CheckHistories(a, byId, nested);
  }

  /** validateRecordArchive accepts exactly the valid archives. */
  method Validate(a: Archive) returns (ok: bool)
    ensures ok <==> ArchiveValid(a)
  {
    ValidParts(a);
    var byId;
    ok, byId := CheckRows(a);
    if ok { ok := CheckReceipts(byId, a.imports); }
  }
}
