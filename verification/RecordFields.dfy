/** What a committed update leaves in each field, over every run of the services. */
module RecordFields {
  import opened Wrappers
  import opened Records
  import opened RecordArchives
  import opened RecordTransfers
  import opened RecordService
  import opened RecordSystem

  // ---- Every stored memo and checkpoint holds what the service would write ----

  predicate CanonicalPayload(n: Normal, kind: string, payload: Payload) {
    Writable(kind) ==> PayloadFields(payload).Some? && Canonical(n, kind, PayloadFields(payload).value)
  }

  ghost predicate CanonicalRow(n: Normal, s: Store, key: (Id, nat))
    requires key in s.revisions
  {
    key.0 in s.records ==> CanonicalPayload(n, s.records[key.0].kind, s.revisions[key].payload)
  }

  ghost predicate CanonicalStore(n: Normal, s: Store) {
    forall key :: key in s.revisions ==> CanonicalRow(n, s, key)
  }

  /** An archive whose memo and checkpoint revisions are all canonical, such as an export of a service's own store. */
  ghost predicate CanonicalArchive(n: Normal, a: Archive) {
    CanonicalStore(n, Store(ById(a.records), ByNumber(a.revisions), map[]))
  }

  /** What the services issue: payloads they have written themselves. */
  ghost predicate ServiceWritten(n: Normal, a: Action) {
    match a
    case Create(r) => CanonicalPayload(n, r.kind, r.payload)
    case ReplaceWith(r) => CanonicalPayload(n, r.successor.kind, r.successor.payload)
    case Observe(kind, _, _) => !Writable(kind)
    case RestoreArchive(_, _, archive) => CanonicalArchive(n, archive)
    case _ => true
  }

  lemma PutRowCanonical(n: Normal, s: Store, r: Record)
    requires CanonicalStore(n, s) && CanonicalPayload(n, r.kind, r.payload)
    requires r.id in s.records ==> r.kind == s.records[r.id].kind
    requires forall key :: key in s.revisions ==> key.0 in s.records
    ensures CanonicalStore(n, PutRow(s, r))
  {
    var t := PutRow(s, r);
    forall key | key in t.revisions ensures CanonicalRow(n, t, key) {
      if key != (r.id, r.revision) { assert CanonicalRow(n, s, key); }
    }
  }

  lemma HistoryKnown(s: Store)
    requires HistoryComplete(s)
    ensures forall key :: key in s.revisions ==> key.0 in s.records
  {
    forall key | key in s.revisions ensures key.0 in s.records {
      assert (key.0, key.1) in s.revisions;
    }
  }

  /** The live payload is the last revision's. */
  lemma LiveCanonical(n: Normal, s: Store, id: Id)
    requires HistoryComplete(s) && CanonicalStore(n, s) && id in s.records
    ensures CanonicalPayload(n, s.records[id].kind, s.records[id].payload)
  {
    LiveIsHistory(s, id);
    assert CanonicalRow(n, s, (id, s.records[id].revision));
  }

  lemma UpdateCanonical(n: Normal, s: Store, kind: string, u: Update, now: int)
    requires HistoryComplete(s) && CanonicalStore(n, s) && UpdateRecord(s, kind, u, now).Ok?
    requires CanonicalPayload(n, kind, u.payload)
    ensures CanonicalStore(n, UpdateRecord(s, kind, u, now).value)
  {
    HistoryKnown(s);
    PutRowCanonical(n, s, Updated(s.records[u.id], u, now));
  }

  lemma ReplaceCanonical(n: Normal, s: Store, r: Replace)
    requires HistoryComplete(s) && CanonicalStore(n, s) && ReplaceMemo(s, r).Ok?
    requires CanonicalPayload(n, r.successor.kind, r.successor.payload)
    ensures CanonicalStore(n, ReplaceMemo(s, r).value)
  {
    HistoryKnown(s);
    var retired := Superseded(s.records[r.oldId], r.successor.createdAt);
    LiveCanonical(n, s, r.oldId);
    PutRowCanonical(n, s, retired);
    PutRowCanonical(n, PutRow(s, retired), r.successor);
  }

  lemma InsertCanonical(n: Normal, s: Store, r: Record)
    requires HistoryComplete(s) && CanonicalStore(n, s) && Insert(s, r).Ok? && CanonicalPayload(n, r.kind, r.payload)
    ensures CanonicalStore(n, Insert(s, r).value)
  {
    HistoryKnown(s);
    PutRowCanonical(n, s, r);
  }

  lemma ImportCanonical(n: Normal, s: Store, r: Record, sourceHash: string, parserRevision: string, now: int)
    requires HistoryComplete(s) && CanonicalStore(n, s) && ImportVerification(s, r, sourceHash, parserRevision, now).Ok?
    ensures CanonicalStore(n, ImportVerification(s, r, sourceHash, parserRevision, now).value.0)
  {
    var (t, _, duplicate) := ImportVerification(s, r, sourceHash, parserRevision, now).value;
    if !duplicate {
      InsertCanonical(n, s, r);
      SameRowsCanonical(n, Insert(s, r).value, t);
    }
  }

  lemma SameRowsCanonical(n: Normal, s: Store, t: Store)
    requires CanonicalStore(n, s) && t.records == s.records && t.revisions == s.revisions
    ensures CanonicalStore(n, t)
  {
    forall key | key in t.revisions ensures CanonicalRow(n, t, key) {
      assert CanonicalRow(n, s, key);
    }
  }

  lemma RestoreCanonical(n: Normal, s: Store, project: string, workspace: string, a: Archive)
    requires Inv(s) && CanonicalStore(n, s) && CanonicalArchive(n, a) && Restore(s, project, workspace, a).Ok?
    ensures CanonicalStore(n, Restore(s, project, workspace, a).value)
  {
    HistoryKnown(s);
    var own := Store(ById(a.records), ByNumber(a.revisions), map[]);
    HistoryKnown(own);
    var t := Restore(s, project, workspace, a).value;
    forall key | key in t.revisions ensures CanonicalRow(n, t, key) {
      if key in own.revisions { assert CanonicalRow(n, own, key); } else { assert CanonicalRow(n, s, key); }
    }
  }

  /** A pending update that will commit carries a canonical payload. */
  lemma CallCanonical(n: Normal, s: Store, k: Call)
    requires SoundNormal(n) && HistoryComplete(s) && CanonicalStore(n, s) && k.Ready? && CallSound(n, s, k)
    requires k.kind == s.records[k.update.id].kind
    ensures CanonicalPayload(n, k.kind, k.update.payload)
  {
    match k.request {
      case Some(p) =>
        var before := s.revisions[(k.update.id, k.update.expected)];
        WrittenCanonical(n, k.kind,
            Merge(PayloadFields(before.payload).value, s.records[k.update.id].source, before.evidence, p));
      case None =>
        assert CanonicalRow(n, s, (k.update.id, k.update.expected));
    }
  }

  lemma CommitCanonical(n: Normal, s: Store, k: Call, now: int)
    requires SoundNormal(n) && HistoryComplete(s) && CanonicalStore(n, s) && k.Ready? && CallSound(n, s, k)
    ensures CanonicalStore(n, Outcome(UpdateRecord(s, k.kind, k.update, now), s))
  {
    if UpdateRecord(s, k.kind, k.update, now).Ok? {
      CallCanonical(n, s, k);
      UpdateCanonical(n, s, k.kind, k.update, now);
    }
  }

  lemma DirectCanonical(n: Normal, s: Store, a: Action)
    requires Inv(s) && CanonicalStore(n, s) && ServiceWritten(n, a)
    ensures CanonicalStore(n, DirectStep(s, a))
  {
    match a
    case Create(r) => if Insert(s, r).Ok? { InsertCanonical(n, s, r); }
    case ReplaceWith(r) => if ReplaceMemo(s, r).Ok? { ReplaceCanonical(n, s, r); }
    case Import(r, hash, parser, now) => if ImportVerification(s, r, hash, parser,
                                           now).Ok? { ImportCanonical(n, s, r, hash, parser, now); }
    case Observe(kind, u, now) => if UpdateRecord(s, kind, u, now).Ok? { UpdateCanonical(n, s, kind, u, now); }
    case RestoreArchive(project, workspace, archive) =>
      if Restore(s, project, workspace, archive).Ok? { RestoreCanonical(n, s, project, workspace, archive); }
    case _ =>
  }

  lemma StepCanonical(n: Normal, y: System, a: Action)
    requires SoundNormal(n) && SystemInv(n, y) && CanonicalStore(n, y.store) && ServiceWritten(n, a)
    ensures CanonicalStore(n, Step(n, y, a).store)
  {
    if a.Commit? {
      if a.call in y.calls && y.calls[a.call].Ready? {
        CommitCanonical(n, y.store, y.calls[a.call], a.now);
        CommitStore(n, y, a.call, a.now);
      }
    } else {
      DirectCanonical(n, y.store, a);
    }
  }

  ghost predicate ServiceRun(n: Normal, actions: seq<Action>) {
    forall i :: 0 <= i < |actions| ==> ClockOk(actions[i]) && ServiceWritten(n, actions[i])
  }

  /** In every run of the services each memo and checkpoint revision is canonical. */
  lemma {:induction false} ReachableCanonical(n: Normal, actions: seq<Action>)
    requires SoundNormal(n) && ServiceRun(n, actions)
    ensures CanonicalStore(n, Run(n, INITIAL, actions).store)
  {
    if actions != [] {
      var earlier := actions[..|actions| - 1];
      ReachableCanonical(n, earlier);
      ReachableSound(n, earlier);
      StepCanonical(n, Run(n, INITIAL, earlier), actions[|actions| - 1]);
    }
  }

  // ---- Every committed update, field by field ----

  /** Revision `expected` + 1 differs from revision `expected` in exactly what the patch supplies. */
  ghost predicate FieldsUpdated(n: Normal, s: Store, w: Win, p: Patch) {
    && (w.id, w.expected) in s.revisions && (w.id, w.expected + 1) in s.revisions
    && var before, after := s.revisions[(w.id, w.expected)], s.revisions[(w.id, w.expected + 1)];
       && PayloadFields(before.payload).Some? && PayloadFields(after.payload).Some?
       && (forall name ::
             FieldChange(n, w.kind, PayloadFields(before.payload).value, PayloadFields(after.payload).value, p, name))
       && after.evidence == if Supplied(p, "evidence_refs").Some? then TextsIn(Supplied(p, "evidence_refs").value)
                              else before.evidence
  }

  /** An omitted field is kept; a supplied one is written, null and empty values included. */
  ghost predicate FieldChange(n: Normal, kind: string, before: Fields, after: Fields, p: Patch, name: string) {
    At(after, name) == match Supplied(p, name)
                       case Some(v) => Written(n, kind, name, v)
                       case None => At(before, name)
  }

  lemma OverlayFields(n: Normal, kind: string, before: Revision, source: string, p: Patch, payload: Payload,
                      evidence: seq<string>, name: string)
    requires SoundNormal(n) && OverlayOf(n, kind, before, source, p, payload, evidence)
    requires CanonicalPayload(n, kind, before.payload)
    ensures FieldChange(n, kind, PayloadFields(before.payload).value, PayloadFields(payload).value, p, name)
  {
    FieldUpdated(n, kind, PayloadFields(before.payload).value, source, before.evidence, p, name);
  }

  lemma OverlayEvidence(n: Normal, kind: string, before: Revision, source: string, p: Patch, payload: Payload,
                        evidence: seq<string>)
    requires OverlayOf(n, kind, before, source, p, payload, evidence)
    ensures PayloadFields(before.payload).Some? && PayloadFields(payload).Some?
    ensures evidence == if Supplied(p, "evidence_refs").Some? then TextsIn(Supplied(p, "evidence_refs").value)
                          else before.evidence
  {
    EvidenceUpdated(PayloadFields(before.payload).value, source, before.evidence, p);
  }

  lemma WinFields(n: Normal, s: Store, w: Win, p: Patch)
    requires SoundNormal(n) && WinSound(n, s, w) && w.patch == Some(p) && CanonicalStore(n, s)
    ensures FieldsUpdated(n, s, w, p)
  {
    var before, after := s.revisions[(w.id, w.expected)], s.revisions[(w.id, w.expected + 1)];
    var source := s.records[w.id].source;
    assert CanonicalRow(n, s, (w.id, w.expected));
    OverlayEvidence(n, w.kind, before, source, p, after.payload, after.evidence);
    forall name
      ensures FieldChange(n, w.kind, PayloadFields(before.payload).value, PayloadFields(after.payload).value, p, name)
    {
      OverlayFields(n, w.kind, before, source, p, after.payload, after.evidence, name);
    }
  }

  /**
   No lost fields: in every run of the services, each committed update kept every field it omitted and
   wrote every field it supplied, whatever other writers did between its reads and its commit.
   */
  lemma EveryFieldKept(n: Normal, actions: seq<Action>, i: nat)
    requires SoundNormal(n) && ServiceRun(n, actions)
    requires i < |Run(n, INITIAL, actions).wins| && Run(n, INITIAL, actions).wins[i].patch.Some?
    ensures var y := Run(n, INITIAL, actions); FieldsUpdated(n, y.store, y.wins[i], y.wins[i].patch.value)
  {
    ReachableSound(n, actions);
    ReachableCanonical(n, actions);
    var y := Run(n, INITIAL, actions);
    assert WinSound(n, y.store, y.wins[i]);
    WinFields(n, y.store, y.wins[i], y.wins[i].patch.value);
  }

  /** An archive exported in any run of the services is one they could have written. */
  lemma ExportCanonical(n: Normal, actions: seq<Action>, project: string, workspace: string)
    requires SoundNormal(n) && ServiceRun(n, actions)
    ensures var s := Run(n, INITIAL, actions).store; Inv(s) && CanonicalArchive(n, ExportOf(s, project, workspace))
  {
    ReachableSound(n, actions);
    ReachableCanonical(n, actions);
    StoreExportCanonical(n, Run(n, INITIAL, actions).store, project, workspace);
  }

  lemma StoreExportCanonical(n: Normal, s: Store, project: string, workspace: string)
    requires Inv(s) && CanonicalStore(n, s)
    ensures CanonicalArchive(n, ExportOf(s, project, workspace))
  {
    var a := ExportOf(s, project, workspace);
    ExportRows(s, project, workspace);
    ExportHistories(s, project, workspace);
    var own := Store(ById(a.records), ByNumber(a.revisions), map[]);
    forall key | key in own.revisions ensures CanonicalRow(n, own, key) {
      var (id, k) := key;
      assert (id, k) in s.revisions && own.revisions[(id, k)] == s.revisions[(id, k)];
      assert CanonicalRow(n, s, (id, k));
    }
  }
}
