/**
 The durable record store: three tables, their keys, the two partial unique indexes and the
 memo-topic trigger, and the transactions that write them. A transaction is one atomic step.
 */
module Records {
  import opened Wrappers
  import opened JsonValues
  import opened Clocks

  type Id = string

  const MAX_PAYLOAD := 64 * 1024
  const MAX_EVIDENCE := 128

  /** A raw JSON message: its text and what it parses to (None when json.Valid is false). */
  datatype Payload = Payload(text: string, value: Option<Json>)

  datatype Record = Record(
    id: Id, kind: string, schemaVersion: string, project: string, workspace: string,
    revision: nat, source: string, writerClass: string, validity: string,
    createdAt: int, updatedAt: int, payload: Payload, evidence: seq<string>, supersedes: Id)

  datatype Revision = Revision(
    recordId: Id, number: nat, updatedAt: int, payload: Payload, evidence: seq<string>,
    validity: string, supersedes: Id)

  datatype ImportKey = ImportKey(project: string, workspace: string, sourceHash: string, parserRevision: string)
  datatype Receipt = Receipt(sourceHash: string, parserRevision: string, recordId: Id, importedAt: int)

  /** NotFound and Conflict are the store's sentinel errors; Storage is any other driver error. */
  datatype StoreError = NotFound | Conflict | Storage

  datatype Store = Store(
    records: map<Id, Record>,
    revisions: map<(Id, nat), Revision>,
    imports: map<ImportKey, Receipt>)

  const EMPTY := Store(map[], map[], map[])

  datatype Update = Update(
    project: string, workspace: string, id: Id, expected: nat, payload: Payload,
    evidence: seq<string>, validity: string, supersedes: Id)

  datatype Replace = Replace(project: string, workspace: string, oldId: Id, expected: nat, successor: Record)

  // ---- Rows ----

  predicate ValidPayload(p: Payload) {
    p.value.Some? && |p.text| <= MAX_PAYLOAD
  }

  /** What every stored record satisfies, whatever its revision. */
  predicate WellFormed(r: Record) {
    && r.id != "" && r.kind != "" && r.schemaVersion != "" && r.project != "" && r.workspace != ""
    && r.revision != 0 && r.source != "" && r.writerClass != "" && r.validity != ""
    && r.createdAt != ZERO_TIME && r.updatedAt != ZERO_TIME
    && ValidPayload(r.payload) && |r.evidence| <= MAX_EVIDENCE
  }

  /** validateRecord: a record about to be inserted. */
  predicate Insertable(r: Record) {
    WellFormed(r) && r.revision == 1
  }

  function RevisionOf(r: Record): Revision {
    Revision(r.id, r.revision, r.updatedAt, r.payload, r.evidence, r.validity, r.supersedes)
  }

  predicate Owned(r: Record, project: string, workspace: string) {
    r.project == project && r.workspace == workspace
  }

  // ---- Partial unique indexes and the immutability trigger ----

  datatype Topic = Topic(project: string, workspace: string, scope: Json, configuration: Json, key: string)

  /** The records_current_memo_topic index entry; a row with a NULL column never collides. */
  function TopicOf(r: Record): Option<Topic> {
    if r.kind == "memo" && r.validity == "current" && r.payload.value.Some? then
      var doc := r.payload.value.value;
      match (Extract(doc, "topic_key"), Extract(doc, "scope"), Extract(doc, "configuration"))
      case (Some(JString(key)), Some(scope), Some(configuration)) =>
        if key != "" then Some(Topic(r.project, r.workspace, scope, configuration, key)) else None
      case _ => None
    else None
  }

  /** The records_memo_successor index entry. */
  function LinkOf(r: Record): Option<(string, string, Id)> {
    if r.kind == "memo" && r.supersedes != "" then Some((r.project, r.workspace, r.supersedes)) else None
  }

  predicate Collide(a: Record, b: Record) {
    || (TopicOf(a).Some? && TopicOf(a) == TopicOf(b))
    || (LinkOf(a).Some? && LinkOf(a) == LinkOf(b))
  }

  /** Both unique indexes accept `r` beside the rows other than its own. */
  predicate IndexesAccept(records: map<Id, Record>, r: Record) {
    forall id :: id in records && id != r.id ==> !Collide(records[id], r)
  }

  /** The trigger records_memo_topic_identity_immutable fires. */
  predicate TopicChanged(prior: Record, updated: Record) {
    && prior.kind == "memo" && prior.validity == "current" && updated.validity == "current"
    && prior.payload.value.Some? && updated.payload.value.Some?
    && var (a, b) := (prior.payload.value.value, updated.payload.value.value);
       || ExtractOrEmpty(a, "topic_key") != ExtractOrEmpty(b, "topic_key")
       || (ExtractOrEmpty(a, "topic_key") != JString("")
           && (|| ExtractOrEmpty(a, "scope") != ExtractOrEmpty(b, "scope")
               || ExtractOrEmpty(a, "configuration") != ExtractOrEmpty(b, "configuration")))
  }

  // ---- Transactions ----

  function Lookup(s: Store, project: string, workspace: string, id: Id): Result<Record, StoreError> {
    if id in s.records && Owned(s.records[id], project, workspace) then Ok(s.records[id]) else Err(NotFound)
  }

  function PutRow(s: Store, r: Record): Store {
    s.(records := s.records[r.id := r], revisions := s.revisions[(r.id, r.revision) := RevisionOf(r)])
  }

  function Insert(s: Store, r: Record): Result<Store, StoreError> {
    if !Insertable(r) || r.id in s.records || !IndexesAccept(s.records, r) || (r.id, r.revision) in s.revisions
    then Err(Conflict)
    else Ok(PutRow(s, r))
  }

  predicate ValidUpdate(u: Update) {
    && u.project != "" && u.workspace != "" && u.id != "" && u.expected != 0 && u.validity != ""
    && ValidPayload(u.payload) && |u.evidence| <= MAX_EVIDENCE
  }

  function Updated(current: Record, u: Update, now: int): Record {
    current.(revision := current.revision + 1, updatedAt := now, payload := u.payload,
             evidence := u.evidence, validity := u.validity, supersedes := u.supersedes)
  }

  function UpdateRecord(s: Store, kind: string, u: Update, now: int): Result<Store, StoreError> {
    if !ValidUpdate(u) then Err(Conflict)
    else match Lookup(s, u.project, u.workspace, u.id)
      case Err(e) => Err(e)
      case Ok(current) =>
        if current.kind != kind || current.revision != u.expected then Err(Conflict)
        else
          var next := Updated(current, u, now);
          if TopicChanged(current, next) then Err(Conflict)
          else if !IndexesAccept(s.records, next) || (next.id, next.revision) in s.revisions then Err(Storage)
          else Ok(PutRow(s, next))
  }

  function Superseded(prior: Record, at: int): Record {
    prior.(revision := prior.revision + 1, updatedAt := at, validity := "superseded")
  }

  function ReplaceMemo(s: Store, r: Replace): Result<Store, StoreError> {
    if r.project == "" || r.workspace == "" || r.oldId == "" || r.expected == 0
       || r.successor.kind != "memo" || r.successor.supersedes != r.oldId
       || !Owned(r.successor, r.project, r.workspace) || !Insertable(r.successor)
    then Err(Conflict)
    else match Lookup(s, r.project, r.workspace, r.oldId)
      case Err(e) => Err(e)
      case Ok(prior) =>
        if prior.kind != "memo" || prior.validity != "current" || prior.revision != r.expected then Err(Conflict)
        else
          var retired := Superseded(prior, r.successor.createdAt);
          if !IndexesAccept(s.records, retired) || (retired.id, retired.revision) in s.revisions then Err(Storage)
          else Insert(PutRow(s, retired), r.successor)
  }

  /** The new store, the record returned, and whether it was already imported. */
  function ImportVerification(s: Store, r: Record, sourceHash: string, parserRevision: string, now: int)
    : Result<(Store, Record, bool), StoreError>
  {
    var key := ImportKey(r.project, r.workspace, sourceHash, parserRevision);
    if r.kind != "verification" || r.writerClass != "importer" || sourceHash == "" || parserRevision == ""
        then Err(Conflict)
    else if key in s.imports then
      match Lookup(s, r.project, r.workspace, s.imports[key].recordId)
      case Err(e) => Err(e)
      case Ok(existing) => Ok((s, existing, true))
    else
      match Insert(s, r)
      case Err(e) => Err(e)
      case Ok(t) => Ok((t.(imports := t.imports[key := Receipt(sourceHash, parserRevision, r.id, now)]), r, false))
  }

  // ---- The store invariant ----

  /** Each record has exactly revisions 1..revision, well formed, and the last one is the live record. */
  ghost predicate HistoryComplete(s: Store) {
    && (forall id :: id in s.records ==> s.records[id].id == id && WellFormed(s.records[id]))
    && (forall id, n :: (id, n) in s.revisions <==> id in s.records && 1 <= n <= s.records[id].revision)
    && (forall id, n :: (id, n) in s.revisions ==> SoundRevision(s.revisions[(id, n)], id, n))
    && (forall id :: id in s.records ==> s.revisions[(id, s.records[id].revision)] == RevisionOf(s.records[id]))
  }

  predicate SoundRevision(v: Revision, id: Id, n: nat) {
    && v.recordId == id && v.number == n && n != 0 && v.updatedAt != ZERO_TIME && v.validity != ""
    && ValidPayload(v.payload) && |v.evidence| <= MAX_EVIDENCE
  }

  /** No two rows share a current memo topic, and no two memos succeed the same memo. */
  ghost predicate IndexesUnique(records: map<Id, Record>) {
    forall a, b :: a in records && b in records && a != b ==> !Collide(records[a], records[b])
  }

  ghost predicate ReceiptsSound(s: Store) {
    forall k :: k in s.imports ==> SoundReceipt(s, k, s.imports[k])
  }

  predicate SoundReceipt(s: Store, k: ImportKey, v: Receipt) {
    && v.sourceHash == k.sourceHash != "" && v.parserRevision == k.parserRevision != "" && v.importedAt != ZERO_TIME
    && v.recordId in s.records && Owned(s.records[v.recordId], k.project, k.workspace)
    && s.records[v.recordId].kind == "verification"
  }

  ghost predicate Inv(s: Store) {
    HistoryComplete(s) && IndexesUnique(s.records) && ReceiptsSound(s)
  }

  /** `later` only appended to `earlier`: rows keep their identity, history is never rewritten. */
  ghost predicate Appends(earlier: Store, later: Store) {
    && (forall id :: id in earlier.records ==> id in later.records
                                                 && SameIdentity(earlier.records[id], later.records[id]))
    && (forall k :: k in earlier.revisions ==> k in later.revisions && later.revisions[k] == earlier.revisions[k])
    && (forall k :: k in earlier.imports ==> k in later.imports && later.imports[k] == earlier.imports[k])
  }

  predicate SameIdentity(a: Record, b: Record) {
    && b.kind == a.kind && b.schemaVersion == a.schemaVersion && Owned(b, a.project, a.workspace)
    && b.source == a.source && b.writerClass == a.writerClass && b.createdAt == a.createdAt
    && a.revision <= b.revision
  }

  lemma AppendsTransitive(a: Store, b: Store, c: Store)
    requires Appends(a, b) && Appends(b, c)
    ensures Appends(a, c)
  {
    forall id | id in a.records ensures id in c.records && SameIdentity(a.records[id], c.records[id]) {
      assert id in b.records;
    }
  }

  /** `r` is the first row of a new record, or the next revision of an existing one. */
  ghost predicate NextRow(s: Store, r: Record) {
    && WellFormed(r)
    && if r.id in s.records then SameIdentity(s.records[r.id], r) && r.revision == s.records[r.id].revision + 1
       else r.revision == 1
  }

  lemma PutRowHistory(s: Store, r: Record)
    requires HistoryComplete(s) && NextRow(s, r)
    ensures HistoryComplete(PutRow(s, r))
  {
    var t := PutRow(s, r);
    forall id, n ensures (id, n) in t.revisions <==> id in t.records && 1 <= n <= t.records[id].revision {
      assert (id, n) in s.revisions <==> id in s.records && 1 <= n <= s.records[id].revision;
    }
    forall id, n | (id, n) in t.revisions ensures SoundRevision(t.revisions[(id, n)], id, n) {
      if (id, n) != (r.id, r.revision) { assert (id, n) in s.revisions; }
    }
    forall id | id in t.records ensures t.revisions[(id, t.records[id].revision)] == RevisionOf(t.records[id]) {
      if id != r.id { assert id in s.records; }
    }
  }

  lemma PutRowAppends(s: Store, r: Record)
    requires HistoryComplete(s) && NextRow(s, r)
    ensures Appends(s, PutRow(s, r))
  {
    assert (r.id, r.revision) !in s.revisions;
  }

  lemma PutRowReceipts(s: Store, r: Record)
    requires ReceiptsSound(s) && NextRow(s, r)
    ensures ReceiptsSound(PutRow(s, r))
  {
    forall k | k in s.imports ensures SoundReceipt(PutRow(s, r), k, s.imports[k]) {
      assert SoundReceipt(s, k, s.imports[k]);
    }
  }

  /** Writing the next row keeps the invariant and appends. */
  lemma PutRowKeeps(s: Store, r: Record)
    requires Inv(s) && NextRow(s, r) && IndexesAccept(s.records, r)
    ensures Inv(PutRow(s, r)) && Appends(s, PutRow(s, r))
  {
    PutRowHistory(s, r);
    PutRowReceipts(s, r);
    PutRowAppends(s, r);
    assert forall a, b :: Collide(a, b) == Collide(b, a);
  }

  lemma InsertKeeps(s: Store, r: Record)
    requires Inv(s) && Insert(s, r).Ok?
    ensures Inv(Insert(s, r).value) && Appends(s, Insert(s, r).value)
  {
    PutRowKeeps(s, r);
  }

  lemma UpdateKeeps(s: Store, kind: string, u: Update, now: int)
    requires Inv(s) && now != ZERO_TIME && UpdateRecord(s, kind, u, now).Ok?
    ensures Inv(UpdateRecord(s, kind, u, now).value) && Appends(s, UpdateRecord(s, kind, u, now).value)
  {
    PutRowKeeps(s, Updated(s.records[u.id], u, now));
  }

  lemma ReplaceKeeps(s: Store, r: Replace)
    requires Inv(s) && ReplaceMemo(s, r).Ok?
    ensures Inv(ReplaceMemo(s, r).value) && Appends(s, ReplaceMemo(s, r).value)
    ensures var t := ReplaceMemo(s, r).value;
      && t.records[r.oldId].validity == "superseded" && t.records[r.oldId].payload == s.records[r.oldId].payload
      && r.successor.id !in s.records && t.records[r.successor.id] == r.successor
  {
    var retired := Superseded(s.records[r.oldId], r.successor.createdAt);
    PutRowKeeps(s, retired);
    PutRowKeeps(PutRow(s, retired), r.successor);
    AppendsTransitive(s, PutRow(s, retired), ReplaceMemo(s, r).value);
  }

  lemma ImportKeeps(s: Store, r: Record, sourceHash: string, parserRevision: string, now: int)
    requires Inv(s) && now != ZERO_TIME && ImportVerification(s, r, sourceHash, parserRevision, now).Ok?
    ensures var (t, kept, duplicate) := ImportVerification(s, r, sourceHash, parserRevision, now).value;
      && Inv(t) && Appends(s, t)
      && (duplicate ==> t == s)
      && (!duplicate ==> kept == r)
      && ImportVerification(t, r, sourceHash, parserRevision, now).value == (t, kept, true)
  {
    var key := ImportKey(r.project, r.workspace, sourceHash, parserRevision);
    if key !in s.imports {
      InsertKeeps(s, r);
      var t := Insert(s, r).value;
      AddReceipt(t, key, Receipt(sourceHash, parserRevision, r.id, now));
      AppendsTransitive(s, t, t.(imports := t.imports[key := Receipt(sourceHash, parserRevision, r.id, now)]));
    }
  }

  lemma AddReceipt(t: Store, key: ImportKey, v: Receipt)
    requires Inv(t) && key !in t.imports && SoundReceipt(t, key, v)
    ensures var u := t.(imports := t.imports[key := v]); Inv(u) && Appends(t, u)
  {
    var u := t.(imports := t.imports[key := v]);
    forall k | k in u.imports ensures SoundReceipt(u, k, u.imports[k]) {
      if k != key { assert SoundReceipt(t, k, t.imports[k]); }
    }
  }

  /** The SQLite adapter: three tables changed by transactions that commit or leave them as they were. */
  class RecordRepository {
    var records: map<Id, Record>
    var revisions: map<(Id, nat), Revision>
    var imports: map<ImportKey, Receipt>

    ghost function State(): Store
      reads this
    {
      Store(records, revisions, imports)
    }

    ghost predicate Valid()
      reads this
    {
      Inv(State())
    }

    constructor ()
      ensures Valid() && State() == EMPTY
    {
      records, revisions, imports := map[], map[], map[];
    }

    method Create(r: Record) returns (err: Option<StoreError>)
      requires Valid()
      modifies this
      ensures Valid()
      ensures match Insert(old(State()), r)
              case Ok(t) => err.None? && State() == t
              case Err(e) => err == Some(e) && State() == old(State())
    {
      if !Insertable(r) { return Some(Conflict); }
      if r.id in records || !IndexesAccept(records, r) || (r.id, r.revision) in revisions { return Some(Conflict); }
      InsertKeeps(State(), r);
      records := records[r.id := r];
      revisions := revisions[(r.id, r.revision) := RevisionOf(r)];
      err := None;
    }

    method UpdateRow(kind: string, u: Update, now: int) returns (err: Option<StoreError>)
      requires Valid() && now != ZERO_TIME
      modifies this
      ensures Valid()
      ensures match UpdateRecord(old(State()), kind, u, now)
              case Ok(t) => err.None? && State() == t
              case Err(e) => err == Some(e) && State() == old(State())
    {
      if !ValidUpdate(u) { return Some(Conflict); }
      if u.id !in records || !Owned(records[u.id], u.project, u.workspace) { return Some(NotFound); }
      var current := records[u.id];
      if current.kind != kind || current.revision != u.expected { return Some(Conflict); }
      var next := current.(revision := current.revision + 1);
      next := next.(updatedAt := now, payload := u.payload, evidence := u.evidence);
      next := next.(validity := u.validity, supersedes := u.supersedes);
      if TopicChanged(current, next) { return Some(Conflict); }
      if !IndexesAccept(records, next) || (next.id, next.revision) in revisions { return Some(Storage); }
      assert next == Updated(current, u, now);
      UpdateKeeps(State(), kind, u, now);
      records := records[next.id := next];
      revisions := revisions[(next.id, next.revision) := RevisionOf(next)];
      err := None;
    }

    method ReplaceRow(r: Replace) returns (err: Option<StoreError>)
      requires Valid()
      modifies this
      ensures Valid()
      ensures match ReplaceMemo(old(State()), r)
              case Ok(t) => err.None? && State() == t
              case Err(e) => err == Some(e) && State() == old(State())
    {
      if r.project == "" || r.workspace == "" || r.oldId == "" || r.expected == 0 { return Some(Conflict); }
      if r.successor.kind != "memo" || r.successor.supersedes != r.oldId { return Some(Conflict); }
      if !Owned(r.successor, r.project, r.workspace) || !Insertable(r.successor) { return Some(Conflict); }
      if r.oldId !in records || !Owned(records[r.oldId], r.project, r.workspace) { return Some(NotFound); }
      var prior := records[r.oldId];
      if prior.kind != "memo" || prior.validity != "current" || prior.revision != r.expected { return Some(Conflict); }
      var retired := prior.(revision := prior.revision + 1, updatedAt := r.successor.createdAt,
          validity := "superseded");
      if !IndexesAccept(records, retired) || (retired.id, retired.revision) in revisions { return Some(Storage); }
      // Inside the transaction the retired row is visible to the insert's indexes.
      var rows := records[retired.id := retired];
      var history := revisions[(retired.id, retired.revision) := RevisionOf(retired)];
      var n := r.successor;
      if n.id in rows || !IndexesAccept(rows, n) || (n.id, n.revision) in history { return Some(Conflict); }
      ReplaceKeeps(State(), r);
      records := rows[n.id := n];
      revisions := history[(n.id, n.revision) := RevisionOf(n)];
      err := None;
    }

    method ImportRow(r: Record, sourceHash: string, parserRevision: string, now: int)
      returns (result: Result<(Record, bool), StoreError>)
      requires Valid() && now != ZERO_TIME
      modifies this
      ensures Valid()
      ensures match ImportVerification(old(State()), r, sourceHash, parserRevision, now)
              case Ok((t, kept, duplicate)) => result == Ok((kept, duplicate)) && State() == t
              case Err(e) => result == Err(e) && State() == old(State())
    {
      if r.kind != "verification" || r.writerClass != "importer" || sourceHash == "" || parserRevision == "" {
        return Err(Conflict);
      }
      var key := ImportKey(r.project, r.workspace, sourceHash, parserRevision);
      if key in imports {
        var existing := imports[key].recordId;
        if existing !in records || !Owned(records[existing], r.project, r.workspace) { return Err(NotFound); }
        return Ok((records[existing], true));
      }
      if !Insertable(r) || r.id in records || !IndexesAccept(records, r) || (r.id, r.revision) in revisions {
        return Err(Conflict);
      }
      ImportKeeps(State(), r, sourceHash, parserRevision, now);
      records := records[r.id := r];
      revisions := revisions[(r.id, r.revision) := RevisionOf(r)];
      imports := imports[key := Receipt(sourceHash, parserRevision, r.id, now)];
      result := Ok((r, false));
    }
  }
}
