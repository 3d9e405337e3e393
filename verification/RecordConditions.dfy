/** Exactly when each transaction of a sound record store succeeds, and everything it then changes. */
module RecordConditions {
  import opened Wrappers
  import opened JsonValues
  import opened Records
  import opened RecordArchives
  import opened RecordTransfers
  import opened RecordSystem
  import opened RecordService
  import opened Ordering

  // ---- The two unique indexes ----

  /** Two current memos of one owner with the same non-empty topic key, scope and configuration. */
  predicate SameTopic(a: Record, b: Record) {
    && a.kind == "memo" && b.kind == "memo" && a.validity == "current" && b.validity == "current"
    && a.project == b.project && a.workspace == b.workspace
    && a.payload.value.Some? && a.payload.value.value.JObject? && b.payload.value.Some?
    && b.payload.value.value.JObject?
    && var x, y := a.payload.value.value.fields, b.payload.value.value.fields;
       && "topic_key" in x && "topic_key" in y && x["topic_key"] == y["topic_key"]
       && x["topic_key"].JString? && x["topic_key"].text != ""
       && "scope" in x && "scope" in y && x["scope"] == y["scope"] != JNull
       && "configuration" in x && "configuration" in y && x["configuration"] == y["configuration"] != JNull
  }

  /** Two memos of one owner that supersede the same memo. */
  predicate SameLink(a: Record, b: Record) {
    && a.kind == "memo" && b.kind == "memo" && a.project == b.project && a.workspace == b.workspace
    && a.supersedes == b.supersedes != ""
  }

  lemma CollideExactly(a: Record, b: Record)
    ensures Collide(a, b) <==> SameTopic(a, b) || SameLink(a, b)
  {
  }

  /** No row but the one with id `own` holds the topic or the successor link of `r`. */
  ghost predicate Vacant(s: Store, own: Id, r: Record) {
    forall id :: id in s.records && id != own ==> !SameTopic(s.records[id], r) && !SameLink(s.records[id], r)
  }

  lemma VacantExactly(s: Store, r: Record)
    ensures IndexesAccept(s.records, r) <==> Vacant(s, r.id, r)
  {
    forall id | id in s.records ensures Collide(s.records[id], r)
        <==> SameTopic(s.records[id], r) || SameLink(s.records[id], r)
    {
      CollideExactly(s.records[id], r);
    }
  }

  // ---- Insert ----

  /** `t` is `s` with one more revision, the last of row `r`. */
  ghost predicate Wrote(s: Store, t: Store, r: Record) {
    && t.records == s.records[r.id := r] && t.imports == s.imports
    && (r.id, r.revision) !in s.revisions
    && t.revisions == s.revisions[(r.id, r.revision) := Revision(r.id, r.revision, r.updatedAt, r.payload, r.evidence,
        r.validity, r.supersedes)]
  }

  lemma NewRevisionFree(s: Store, id: Id, n: nat)
    requires HistoryComplete(s) && (id !in s.records || n > s.records[id].revision)
    ensures (id, n) !in s.revisions
  {
  }

  /** A row is created exactly when it is acceptable, its id is new and no index holds its keys. */
  lemma InsertExactly(s: Store, r: Record)
    requires Inv(s)
    ensures Insert(s, r).Ok? <==> Insertable(r) && r.id !in s.records && Vacant(s, r.id, r)
    ensures Insert(s, r).Ok? ==> Wrote(s, Insert(s, r).value, r)
  {
    VacantExactly(s, r);
    if r.id !in s.records { NewRevisionFree(s, r.id, r.revision); }
  }

  // ---- Update ----

  /** The caller's own row of the kind, at exactly the revision the caller read. */
  predicate AtExpected(s: Store, kind: string, project: string, workspace: string, id: Id, expected: nat) {
    && id in s.records && s.records[id].project == project && s.records[id].workspace == workspace
    && s.records[id].kind == kind && s.records[id].revision == expected
  }

  /** Both rows are current memos and their topic keys differ, or the key is set and scope or configuration differs. */
  predicate MovesTopic(a: Record, b: Record) {
    && a.kind == "memo" && a.validity == "current" && b.validity == "current"
    && a.payload.value.Some? && b.payload.value.Some?
    && (|| TopicPart(a, "topic_key") != TopicPart(b, "topic_key")
        || (TopicPart(a, "topic_key") != JString("")
            && (|| TopicPart(a, "scope") != TopicPart(b, "scope")
                || TopicPart(a, "configuration") != TopicPart(b, "configuration"))))
  }

  /** A member of the payload; missing and null count as the empty text. */
  function TopicPart(r: Record, name: string): Json {
    if r.payload.value.Some? && r.payload.value.value.JObject? && name in r.payload.value.value.fields
       && r.payload.value.value.fields[name] != JNull
    then r.payload.value.value.fields[name]
    else JString("")
  }

  lemma MovesTopicExactly(a: Record, b: Record)
    ensures TopicChanged(a, b) <==> MovesTopic(a, b)
  {
  }

  /** The row an update leaves. */
  function AfterUpdate(prior: Record, u: Update, now: int): Record {
    Record(prior.id, prior.kind, prior.schemaVersion, prior.project, prior.workspace, prior.revision + 1, prior.source,
           prior.writerClass, u.validity, prior.createdAt, now, u.payload, u.evidence, u.supersedes)
  }

  /**
   An update succeeds exactly when it finds the caller's row of that kind at the expected revision, its
   content is acceptable, the topic of a current memo stays and no other row holds its keys. It then takes
   the row from revision expected to expected + 1.
   */
  lemma UpdateExactly(s: Store, kind: string, u: Update, now: int)
    requires Inv(s)
    ensures UpdateRecord(s, kind, u, now).Ok? <==>
            && AtExpected(s, kind, u.project, u.workspace, u.id, u.expected)
            && u.validity != "" && ValidPayload(u.payload) && |u.evidence| <= 128
            && !MovesTopic(s.records[u.id], AfterUpdate(s.records[u.id], u, now))
            && Vacant(s, u.id, AfterUpdate(s.records[u.id], u, now))
    ensures UpdateRecord(s, kind, u, now).Ok? ==>
              Wrote(s, UpdateRecord(s, kind, u, now).value, AfterUpdate(s.records[u.id], u, now))
  {
    if AtExpected(s, kind, u.project, u.workspace, u.id, u.expected) {
      assert WellFormed(s.records[u.id]);
      var next := AfterUpdate(s.records[u.id], u, now);
      assert next == Updated(s.records[u.id], u, now);
      MovesTopicExactly(s.records[u.id], next);
      VacantExactly(s, next);
      NewRevisionFree(s, u.id, u.expected + 1);
    }
  }

  // ---- Replace ----

  /** The replaced memo: superseded, one revision later, its content as it was. */
  function Retired(prior: Record, at: int): Record {
    Record(prior.id, prior.kind, prior.schemaVersion, prior.project, prior.workspace, prior.revision + 1, prior.source,
           prior.writerClass, "superseded", prior.createdAt, at, prior.payload, prior.evidence, prior.supersedes)
  }

  /** The row the indexes already accept is accepted when it retires. */
  lemma RetiredVacant(s: Store, id: Id, at: int)
    requires Inv(s) && id in s.records
    ensures IndexesAccept(s.records, Retired(s.records[id], at))
  {
    var prior, retired := s.records[id], Retired(s.records[id], at);
    forall other | other in s.records && other != id ensures !Collide(s.records[other], retired) {
      assert !Collide(s.records[other], prior);
    }
  }

  /** The caller's own current memo at exactly the revision the caller read. */
  predicate CurrentAtExpected(s: Store, r: Replace) {
    AtExpected(s, "memo", r.project, r.workspace, r.oldId, r.expected) && s.records[r.oldId].validity == "current"
  }

  /** An acceptable new memo of the same owner that names the old one, and whose keys only the old row holds. */
  ghost predicate NewSuccessor(s: Store, r: Replace) {
    var n := r.successor;
    && n.kind == "memo" && n.supersedes == r.oldId && n.project == r.project && n.workspace == r.workspace
    && Insertable(n) && n.id !in s.records && Vacant(s, r.oldId, n)
  }

  lemma SuccessorVacant(s: Store, r: Replace)
    requires CurrentAtExpected(s, r) && r.successor.kind == "memo" && r.successor.supersedes == r.oldId != ""
    requires r.successor.id !in s.records && Owned(r.successor, r.project, r.workspace)
    requires s.records[r.oldId].id == r.oldId
    ensures var retired := Retired(s.records[r.oldId], r.successor.createdAt);
      IndexesAccept(PutRow(s, retired).records, r.successor)
      <==> Vacant(s, r.oldId, r.successor) && s.records[r.oldId].supersedes != r.oldId
  {
    var retired := Retired(s.records[r.oldId], r.successor.createdAt);
    var t := PutRow(s, retired);
    VacantExactly(t, r.successor);
    assert SameLink(retired, r.successor) <==> s.records[r.oldId].supersedes == r.oldId;
    if Vacant(t, r.successor.id, r.successor) {
      assert !SameLink(t.records[r.oldId], r.successor);
      forall id | id in s.records && id != r.oldId
        ensures !SameTopic(s.records[id], r.successor) && !SameLink(s.records[id], r.successor)
      {
        assert t.records[id] == s.records[id];
      }
    }
  }

  /** The store after a replacement: the old row retired, its successor added, one revision of each. */
  ghost predicate Replaced(s: Store, t: Store, r: Replace)
    requires r.oldId in s.records
  {
    var retired := Retired(s.records[r.oldId], r.successor.createdAt);
    && t.records == s.records[r.oldId := retired][r.successor.id := r.successor] && t.imports == s.imports
    && (r.oldId, r.expected) in s.revisions && (r.oldId, r.expected + 1) !in s.revisions
    && (r.successor.id, 1) !in s.revisions
    && t.revisions
       == s.revisions[(r.oldId, r.expected + 1) := RevisionOf(retired)][(r.successor.id, 1) := RevisionOf(r.successor)]
  }

  /**
   A replacement succeeds exactly when it finds the caller's current memo at the expected revision and the
   successor is new and acceptable; only a memo that supersedes itself, which an archive can bring in, can
   never be replaced. It then takes revision expected to expected + 1 and touches no other row.
   */
  lemma ReplaceExactly(s: Store, r: Replace)
    requires Inv(s)
    ensures ReplaceMemo(s, r).Ok? <==>
            CurrentAtExpected(s, r) && NewSuccessor(s, r) && s.records[r.oldId].supersedes != r.oldId
    ensures ReplaceMemo(s, r).Ok? ==> Replaced(s, ReplaceMemo(s, r).value, r)
  {
    if CurrentAtExpected(s, r) && r.successor.kind == "memo" && r.successor.supersedes == r.oldId
       && Owned(r.successor, r.project, r.workspace) && Insertable(r.successor)
    {
      var prior := s.records[r.oldId];
      assert WellFormed(prior) && prior.id == r.oldId;
      var retired := Retired(prior, r.successor.createdAt);
      assert retired == Superseded(prior, r.successor.createdAt);
      LiveIsHistory(s, r.oldId);
      RetiredVacant(s, r.oldId, r.successor.createdAt);
      NewRevisionFree(s, r.oldId, r.expected + 1);
      if r.successor.id !in s.records {
        NewRevisionFree(s, r.successor.id, 1);
        SuccessorVacant(s, r);
      }
    }
  }

  /** A replacement that read another revision than the live one is refused as a conflict. */
  lemma StaleRefused(s: Store, r: Replace)
    requires r.oldId in s.records && Owned(s.records[r.oldId], r.project, r.workspace)
    requires s.records[r.oldId].revision != r.expected
    ensures ReplaceMemo(s, r) == Err(Conflict)
  {
  }

  // ---- Import ----

  /**
   A verification report is returned as it was imported when its receipt exists, and otherwise inserted
   together with its receipt, exactly when the row can be created.
   */
  lemma ImportExactly(s: Store, r: Record, sourceHash: string, parserRevision: string, now: int)
    requires Inv(s)
    ensures var result := ImportVerification(s, r, sourceHash, parserRevision, now);
      var key := ImportKey(r.project, r.workspace, sourceHash, parserRevision);
      && (result.Ok? <==>
          && r.kind == "verification" && r.writerClass == "importer" && sourceHash != "" && parserRevision != ""
          && (key in s.imports || (Insertable(r) && r.id !in s.records && Vacant(s, r.id, r))))
      && (result.Ok? ==> (result.value.2 <==> key in s.imports))
      && (result.Ok? && key in s.imports ==>
            result.value.0 == s && s.imports[key].recordId in s.records
            && result.value.1 == s.records[s.imports[key].recordId])
      && (result.Ok? && key !in s.imports ==>
            Wrote(s, result.value.0.(imports := s.imports), r) && result.value.1 == r
            && result.value.0.imports == s.imports[key := Receipt(sourceHash, parserRevision, r.id, now)])
  {
    InsertExactly(s, r);
    var key := ImportKey(r.project, r.workspace, sourceHash, parserRevision);
    if key in s.imports { assert SoundReceipt(s, key, s.imports[key]); }
  }

  // ---- Restore ----

  /** Nothing belongs to the identity. */
  ghost predicate Unused(s: Store, project: string, workspace: string) {
    forall id :: id in s.records ==> s.records[id].project != project || s.records[id].workspace != workspace
  }

  /** A row of `t` is a row of `s`, or a row of the archive now owned by the identity. */
  ghost predicate RestoredRow(s: Store, t: Store, rows: map<Id, Record>, project: string, workspace: string, id: Id)
    requires id in t.records
  {
    if id in s.records then t.records[id] == s.records[id]
    else id in rows && t.records[id] == rows[id].(project := project, workspace := workspace)
  }

  lemma MergedRows(s: Store, project: string, workspace: string, a: Archive)
    requires ById(a.records).Keys !! s.records.Keys
    ensures var t := Merged(s, project, workspace, a);
      && t.records.Keys == s.records.Keys + ById(a.records).Keys
      && forall id :: id in t.records ==> RestoredRow(s, t, ById(a.records), project, workspace, id)
  {
  }

  lemma NoneOwned(s: Store, project: string, workspace: string)
    ensures OwnedIds(s, project, workspace) == {} <==> Unused(s, project, workspace)
  {
    if OwnedIds(s, project, workspace) == {} {
      forall id | id in s.records ensures s.records[id].project != project || s.records[id].workspace != workspace {
        assert id !in OwnedIds(s, project, workspace);
      }
    }
  }

  /** Restore refuses anything larger, an identity in use, and ids in use. */
  lemma RestoreOpens(s: Store, project: string, workspace: string, a: Archive)
    requires Restore(s, project, workspace, a).Ok?
    ensures |a.records| + |a.revisions| + |a.imports| <= 100000 && OwnedIds(s, project, workspace) == {}
    ensures DistinctIds(a.records) && ById(a.records).Keys !! s.records.Keys
    ensures Restore(s, project, workspace, a).value == Merged(s, project, workspace, a)
  {
    assert ConstraintsAccept(s, project, workspace, a);
    assert ArchiveValid(a);
  }

  /**
   An accepted restore finds the identity unused and leaves it holding exactly the archive's rows, under
   ids nothing else had; every other row stays.
   */
  lemma RestoreExactly(s: Store, project: string, workspace: string, a: Archive)
    requires Restore(s, project, workspace, a).Ok?
    ensures |a.records| + |a.revisions| + |a.imports| <= 100000 && Unused(s, project, workspace)
    ensures forall i :: 0 <= i < |a.records| ==> a.records[i].id !in s.records
    ensures var t := Restore(s, project, workspace, a).value;
      && t.records.Keys == s.records.Keys + ById(a.records).Keys
      && forall id :: id in t.records ==> RestoredRow(s, t, ById(a.records), project, workspace, id)
  {
    RestoreOpens(s, project, workspace, a);
    NoneOwned(s, project, workspace);
    MergedRows(s, project, workspace, a);
    forall i | 0 <= i < |a.records| ensures a.records[i].id !in s.records { ByIdHas(a.records, i); }
  }

  // ---- Export ----

  /** The archive's rows, revisions and receipts are exactly those of the identity. */
  ghost predicate HoldsIdentity(a: Archive, s: Store, project: string, workspace: string) {
    && (forall id :: id in ById(a.records) <==> OwnsRow(s, project, workspace, id))
    && (forall id :: id in ById(a.records) ==> id in s.records && ById(a.records)[id] == s.records[id])
    && (forall id, n: nat :: (id, n) in ByNumber(a.revisions) <==>
                             (id, n) in s.revisions && OwnsRow(s, project, workspace, id))
    && (forall id, n: nat :: (id, n) in ByNumber(a.revisions) ==>
                             (id, n) in s.revisions && ByNumber(a.revisions)[(id, n)] == s.revisions[(id, n)])
    && (forall k :: k in ByImport(a.imports, project, workspace) <==>
                    k in s.imports && k.project == project && k.workspace == workspace)
    && (forall k :: k in ByImport(a.imports, project, workspace) ==>
                    k in s.imports && ByImport(a.imports, project, workspace)[k] == s.imports[k])
  }

  predicate OwnsRow(s: Store, project: string, workspace: string, id: Id) {
    id in s.records && s.records[id].project == project && s.records[id].workspace == workspace
  }

  lemma ExportRowsExactly(s: Store, project: string, workspace: string)
    requires HistoryComplete(s)
    ensures var ids := InOrder(OwnedIds(s, project, workspace));
      && Listed(s, ids) && (forall id :: id in ById(RowsOf(s, ids)) <==> OwnsRow(s, project, workspace, id))
      && forall id :: id in ById(RowsOf(s, ids)) ==> id in s.records && ById(RowsOf(s, ids))[id] == s.records[id]
  {
    ExportRows(s, project, workspace);
  }

  /** An export leaves nothing of the identity out and takes nothing else in; rows are listed by id. */
  lemma ExportComplete(s: Store, project: string, workspace: string)
    requires Inv(s)
    ensures HoldsIdentity(ExportOf(s, project, workspace), s, project, workspace)
    ensures var rows := ExportOf(s, project, workspace).records;
      forall i, j :: 0 <= i < j < |rows| ==> Less(rows[i].id, rows[j].id)
  {
    ExportRowsExactly(s, project, workspace);
    ExportHistories(s, project, workspace);
    ExportReceipts(s, project, workspace);
    forall k | k in s.imports && k.project == project && k.workspace == workspace
      ensures k.sourceHash in ImportHashes(s, project, workspace)
    {
    }
  }

  // ---- Topics ----

  predicate RowKeepsTopic(before: map<Id, Record>, after: map<Id, Record>, id: Id) {
    id in before && id in after ==> !MovesTopic(before[id], after[id])
  }

  ghost predicate KeepsTopics(s: Store, t: Store) {
    forall id :: id in s.records ==> RowKeepsTopic(s.records, t.records, id)
  }

  lemma SameRowKeepsTopic(r: Record)
    ensures !MovesTopic(r, r)
  {
  }

  lemma OneRowChanged(s: Store, t: Store, r: Record)
    requires t.records == s.records[r.id := r] && (r.id in s.records ==> !MovesTopic(s.records[r.id], r))
    ensures KeepsTopics(s, t)
  {
  }

  lemma UpdateKeepsTopics(s: Store, kind: string, u: Update, now: int)
    requires Inv(s)
    ensures KeepsTopics(s, Outcome(UpdateRecord(s, kind, u, now), s))
  {
    UpdateExactly(s, kind, u, now);
    if UpdateRecord(s, kind, u, now).Ok? {
      assert WellFormed(s.records[u.id]);
      OneRowChanged(s, UpdateRecord(s, kind, u, now).value, AfterUpdate(s.records[u.id], u, now));
    }
  }

  lemma ReplaceKeepsTopics(s: Store, r: Replace)
    requires Inv(s)
    ensures KeepsTopics(s, Outcome(ReplaceMemo(s, r), s))
  {
    ReplaceExactly(s, r);
  }

  lemma InsertKeepsTopics(s: Store, r: Record)
    requires Inv(s)
    ensures KeepsTopics(s, Outcome(Insert(s, r), s))
  {
    InsertExactly(s, r);
  }

  lemma ImportKeepsTopics(s: Store, r: Record, sourceHash: string, parserRevision: string, now: int)
    requires Inv(s)
    ensures KeepsTopics(s, DirectStep(s, Import(r, sourceHash, parserRevision, now)))
  {
    ImportExactly(s, r, sourceHash, parserRevision, now);
  }

  lemma AppendedKeepsTopics(s: Store, t: Store)
    requires forall id :: id in s.records ==> id in t.records && t.records[id] == s.records[id]
    ensures KeepsTopics(s, t)
  {
  }

  lemma RestoreKeepsTopics(s: Store, project: string, workspace: string, a: Archive)
    requires Inv(s)
    ensures KeepsTopics(s, Outcome(Restore(s, project, workspace, a), s))
  {
    if Restore(s, project, workspace, a).Ok? {
      RestoreExactly(s, project, workspace, a);
      AppendedKeepsTopics(s, Restore(s, project, workspace, a).value);
    }
  }

  /** No direct transaction moves the topic of a memo that stays current. */
  lemma DirectKeepsTopics(s: Store, a: Action)
    requires Inv(s)
    ensures KeepsTopics(s, DirectStep(s, a))
  {
    if a.Create? || a.ReplaceWith? || a.Observe? {
      RowKeepsTopics(s, a);
    } else if a.Import? {
      ImportKeepsTopics(s, a.record, a.sourceHash, a.parserRevision, a.now);
    } else if a.RestoreArchive? {
      RestoreKeepsTopics(s, a.project, a.workspace, a.archive);
    } else {
      AppendedKeepsTopics(s, s);
    }
  }

  lemma RowKeepsTopics(s: Store, a: Action)
    requires Inv(s) && (a.Create? || a.ReplaceWith? || a.Observe?)
    ensures KeepsTopics(s, DirectStep(s, a))
  {
    if a.Create? {
      InsertKeepsTopics(s, a.record);
    } else if a.ReplaceWith? {
      ReplaceKeepsTopics(s, a.replace);
    } else {
      UpdateKeepsTopics(s, a.kind, a.update, a.now);
    }
  }

  lemma StepStore(n: Normal, y: System, a: Action)
    ensures Step(n, y, a).store == if a.Commit? then
                if a.call in y.calls && y.calls[a.call].Ready? then
                  Outcome(UpdateRecord(y.store, y.calls[a.call].kind, y.calls[a.call].update, a.now), y.store)
                else y.store
              else DirectStep(y.store, a)
  {
  }

  /**
   Whatever any caller does, a memo that stays current keeps its topic key, and with one its scope and
   configuration.
   */
  lemma TopicStays(n: Normal, y: System, a: Action)
    requires Inv(y.store)
    ensures KeepsTopics(y.store, Step(n, y, a).store)
  {
    StepStore(n, y, a);
    if a.Commit? {
      if a.call in y.calls && y.calls[a.call].Ready? {
        UpdateKeepsTopics(y.store, y.calls[a.call].kind, y.calls[a.call].update, a.now);
      }
    } else {
      DirectKeepsTopics(y.store, a);
    }
  }

  // ---- An undisturbed update ----

  /** What the service submits for the request: the merged payload and evidence, current, with the link the row had. */
  function Submitted(n: Normal, r: Record, kind: string, patch: Patch): Update
    requires PayloadFields(r.payload).Some?
  {
    var m := Merge(PayloadFields(r.payload).value, r.source, r.evidence, patch);
    Update(r.project, r.workspace, r.id, r.revision, Rendered(n, WritePayload(n, kind, m)), Texts(m, "evidence_refs"),
           "current", r.supersedes)
  }

  /** The store takes the submitted update of the row. */
  ghost predicate Storable(s: Store, u: Update, now: int)
    requires u.id in s.records
  {
    && ValidPayload(u.payload) && |u.evidence| <= 128
    && !MovesTopic(s.records[u.id], AfterUpdate(s.records[u.id], u, now))
    && Vacant(s, u.id, AfterUpdate(s.records[u.id], u, now))
  }

  lemma LoadsAndReloads(n: Normal, s: Store, r: Record, kind: string, patch: Patch)
    requires HistoryComplete(s) && r.id in s.records && s.records[r.id] == r && r.kind == kind && Writable(kind)
    requires PayloadFields(r.payload).Some?
    requires Accepted(n, kind, PayloadFields(r.payload).value, r.source, r.evidence, patch)
    ensures var k := LoadCall(n, s, kind, r.project, r.workspace, r.id, r.revision, patch);
      && k.Some? && k.value.Prepared?
      && ReloadCall(s, k.value) == Some(Ready(kind, Submitted(n, r, kind, patch), Some(patch)))
  {
  }

  /**
   An accepted request for the live revision is committed when nobody interferes between its reads and its
   transaction and the store takes the merged row: the revision is taken by exactly this request.
   */
  lemma UndisturbedCommits(n: Normal, y: System, c: nat, id: Id, kind: string, patch: Patch, now: int)
    requires Inv(y.store) && id in y.store.records && y.store.records[id].kind == kind && Writable(kind)
    requires PayloadFields(y.store.records[id].payload).Some?
    requires var r := y.store.records[id];
      && Accepted(n, kind, PayloadFields(r.payload).value, r.source, r.evidence, patch)
      && r.id == id && Storable(y.store, Submitted(n, r, kind, patch), now)
    ensures var r := y.store.records[id];
      var loaded := Step(n, y, Load(c, kind, r.project, r.workspace, id, r.revision, patch));
      var z := Step(n, Step(n, loaded, Reload(c)), Commit(c, now));
      && z.wins == y.wins + [Win(kind, id, r.revision, Some(patch))]
      && Wrote(y.store, z.store, AfterUpdate(r, Submitted(n, r, kind, patch), now))
  {
    var r := y.store.records[id];
    LoadsAndReloads(n, y.store, r, kind, patch);
    var loaded := Step(n, y, Load(c, kind, r.project, r.workspace, id, r.revision, patch));
    var ready := Step(n, loaded, Reload(c));
    assert ready.store == y.store && c in ready.calls && ready.wins == y.wins;
    assert ready.calls[c] == Ready(kind, Submitted(n, r, kind, patch), Some(patch));
    UpdateExactly(y.store, kind, Submitted(n, r, kind, patch), now);
    CommitStore(n, ready, c, now);
  }
}
