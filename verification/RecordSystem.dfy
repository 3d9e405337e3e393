/** Concurrent writers over one record store: every interleaving of service calls and direct transactions. */
module RecordSystem {
  import opened Wrappers
  import opened Clocks
  import opened Records
  import opened RecordArchives
  import opened RecordTransfers
  import opened RecordService

  /** A service call between its reads and its transaction. */
  datatype Call =
    | Prepared(kind: string, project: string, workspace: string, id: Id, expected: nat, patch: Patch, payload: Payload,
        evidence: seq<string>)
    | Ready(kind: string, update: Update, request: Option<Patch>)

  /**
   A revision that a service update or a memo replacement took from `expected` to `expected` + 1; no
   patch means the record was retired as superseded.
   */
  datatype Win = Win(kind: string, id: Id, expected: nat, patch: Option<Patch>)

  datatype System = System(store: Store, calls: map<nat, Call>, wins: seq<Win>)

  const INITIAL := System(EMPTY, map[], [])

  datatype Action =
    | Load(call: nat, kind: string, project: string, workspace: string, id: Id, expected: nat, patch: Patch)
    | Reload(call: nat)
    | Retire(call: nat, kind: string, project: string, workspace: string, id: Id, expected: nat)
    | Commit(call: nat, now: int)
    | Create(record: Record)
    | ReplaceWith(replace: Replace)
    | Import(record: Record, sourceHash: string, parserRevision: string, now: int)
    | Observe(kind: string, update: Update, now: int)
    | RestoreArchive(project: string, workspace: string, archive: Archive)

  /** recordForUpdate and mutate both look up the record and compare kind and revision. */
  function Checked(s: Store, kind: string, project: string, workspace: string, id: Id, expected: nat): Option<Record> {
    match Lookup(s, project, workspace, id)
    case Err(_) => None
    case Ok(r) => if r.kind == kind && r.revision == expected then Some(r) else None
  }

  function Outcome(r: Result<Store, StoreError>, s: Store): Store {
    if r.Ok? then r.value else s
  }

  /** The two kinds of records the service updates from requests. */
  predicate Writable(kind: string) {
    kind == "memo" || kind == "checkpoint"
  }

  /** recordForUpdate and mergeRecordUpdate: the payload this call will submit, unless the merged request is refused. */
  function LoadCall(n: Normal, s: Store, kind: string, project: string, workspace: string, id: Id, expected: nat,
                    patch: Patch): Option<Call> {
    var found := Checked(s, kind, project, workspace, id, expected);
    if !Writable(kind) || found.None? || PayloadFields(found.value.payload).None? then None
    else
      var r := found.value;
      var m := Merge(PayloadFields(r.payload).value, r.source, r.evidence, patch);
      if !Accepted(n, kind, PayloadFields(r.payload).value, r.source, r.evidence, patch) then None
      else Some(Prepared(kind, project, workspace, id, expected, patch, Rendered(n, WritePayload(n, kind, m)),
          Texts(m, "evidence_refs")))
  }

  /** mutate in update mode: read again, keep the successor link. */
  function ReloadCall(s: Store, p: Call): Option<Call>
    requires p.Prepared?
  {
    var found := Checked(s, p.kind, p.project, p.workspace, p.id, p.expected);
    if found.None? then None
    else Some(Ready(p.kind, Update(p.project, p.workspace, p.id, p.expected, p.payload, p.evidence, "current",
        found.value.supersedes), Some(p.patch)))
  }

  /** mutate in supersede mode: resubmit the record's own payload as superseded. */
  function RetireCall(s: Store, kind: string, project: string, workspace: string, id: Id, expected: nat): Option<Call> {
    var found := Checked(s, kind, project, workspace, id, expected);
    if found.None? then None
    else
      var r := found.value;
      Some(Ready(kind, Update(project, workspace, id, expected, r.payload, r.evidence, "superseded", r.supersedes),
          None))
  }

  function WithCall(y: System, c: nat, k: Option<Call>): System {
    y.(calls := if k.Some? then y.calls[c := k.value] else y.calls - {c})
  }

  function CommitStep(y: System, c: nat, now: int): System
    requires c in y.calls && y.calls[c].Ready?
  {
    var k := y.calls[c];
    var result := UpdateRecord(y.store, k.kind, k.update, now);
    if result.Err? then y.(calls := y.calls - {c})
    else System(result.value, y.calls - {c}, y.wins + [Win(k.kind, k.update.id, k.update.expected, k.request)])
  }

  /** A memo replacement takes the old memo's revision just as a service update does. */
  function ReplaceStep(y: System, r: Replace): System {
    var result := ReplaceMemo(y.store, r);
    if result.Err? then y else System(result.value, y.calls, y.wins + [Win("memo", r.oldId, r.expected, None)])
  }

  ghost function DirectStep(s: Store, a: Action): Store {
    match a
    case Create(r) => Outcome(Insert(s, r), s)
    case ReplaceWith(r) => Outcome(ReplaceMemo(s, r), s)
    case Import(r, hash, parser, now) =>
      var result := ImportVerification(s, r, hash, parser, now);
      if result.Ok? then result.value.0 else s
    case Observe(kind, u, now) => Outcome(UpdateRecord(s, kind, u, now), s)
    case RestoreArchive(project, workspace, archive) => Outcome(Restore(s, project, workspace, archive), s)
    case _ => s
  }

  ghost function Step(n: Normal, y: System, a: Action): System {
    match a
    case Load(c, kind, project, workspace, id, expected, patch) =>
      WithCall(y, c, LoadCall(n, y.store, kind, project, workspace, id, expected, patch))
    case Reload(c) => if c in y.calls && y.calls[c].Prepared? then WithCall(y, c, ReloadCall(y.store, y.calls[c]))
                        else y
    case Retire(c, kind, project, workspace, id, expected) =>
      WithCall(y, c, RetireCall(y.store, kind, project, workspace, id, expected))
    case Commit(c, now) => if c in y.calls && y.calls[c].Ready? then CommitStep(y, c, now) else y
    case ReplaceWith(r) => ReplaceStep(y, r)
    case _ => y.(store := DirectStep(y.store, a))
  }

  /** The server clock never reads year 1. */
  predicate ClockOk(a: Action) {
    match a
    case Commit(_, now) => now != ZERO_TIME
    case Import(_, _, _, now) => now != ZERO_TIME
    case Observe(_, _, now) => now != ZERO_TIME
    case _ => true
  }

  ghost function Run(n: Normal, y: System, actions: seq<Action>): System {
    if actions == [] then y else Step(n, Run(n, y, actions[..|actions| - 1]), actions[|actions| - 1])
  }

  // ---- What each pending call and each committed update is worth ----

  /** The revision overlaid by exactly the patch, which was accepted. */
  predicate OverlayOf(n: Normal, kind: string, before: Revision, source: string, patch: Patch, payload: Payload,
                      evidence: seq<string>) {
    && Writable(kind) && PayloadFields(before.payload).Some?
    && var m := Merge(PayloadFields(before.payload).value, source, before.evidence, patch);
       && Accepted(n, kind, PayloadFields(before.payload).value, source, before.evidence, patch)
       && payload == Rendered(n, WritePayload(n, kind, m)) && evidence == Texts(m, "evidence_refs")
  }

  /** `payload` and `evidence` are revision `expected` overlaid by exactly the patch. */
  ghost predicate Overlays(n: Normal, s: Store, kind: string, id: Id, expected: nat, patch: Patch, payload: Payload,
                           evidence: seq<string>) {
    && id in s.records && (id, expected) in s.revisions
    && OverlayOf(n, kind, s.revisions[(id, expected)], s.records[id].source, patch, payload, evidence)
  }

  ghost predicate CallSound(n: Normal, s: Store, c: Call) {
    match c
    case Prepared(kind, _, _, id, expected, patch, payload, evidence) => Overlays(n, s, kind, id, expected, patch,
                                                                           payload, evidence)
    case Ready(kind, u, patch) =>
      && u.id in s.records && (u.id, u.expected) in s.revisions
      && u.supersedes == s.revisions[(u.id, u.expected)].supersedes
      && match patch
         case Some(p) => u.validity == "current" && Overlays(n, s, kind, u.id, u.expected, p, u.payload, u.evidence)
         case None =>
           && u.validity == "superseded" && u.payload == s.revisions[(u.id, u.expected)].payload
           && u.evidence == s.revisions[(u.id, u.expected)].evidence
  }

  /** The committed revision is its predecessor overlaid by exactly what the request supplied. */
  ghost predicate WinSound(n: Normal, s: Store, w: Win) {
    && w.id in s.records && w.expected < s.records[w.id].revision && s.records[w.id].kind == w.kind
    && (w.id, w.expected) in s.revisions && (w.id, w.expected + 1) in s.revisions
    && var before, after := s.revisions[(w.id, w.expected)], s.revisions[(w.id, w.expected + 1)];
       && after.supersedes == before.supersedes
       && match w.patch
          case Some(p) => after.validity == "current"
                            && Overlays(n, s, w.kind, w.id, w.expected, p, after.payload, after.evidence)
          case None => after.validity == "superseded" && after.payload == before.payload
                         && after.evidence == before.evidence
  }

  ghost predicate CallsSound(n: Normal, s: Store, calls: map<nat, Call>) {
    forall c :: c in calls ==> CallSound(n, s, calls[c])
  }

  /** Every committed update is sound, and no revision was committed over twice. */
  ghost predicate WinsSound(n: Normal, s: Store, wins: seq<Win>) {
    && (forall i :: 0 <= i < |wins| ==> WinSound(n, s, wins[i]))
    && (forall i, j :: 0 <= i < j < |wins| ==> (wins[i].id, wins[i].expected) != (wins[j].id, wins[j].expected))
  }

  ghost predicate SystemInv(n: Normal, y: System) {
    Inv(y.store) && CallsSound(n, y.store, y.calls) && WinsSound(n, y.store, y.wins)
  }

  lemma CallStays(n: Normal, s: Store, t: Store, c: Call)
    requires CallSound(n, s, c) && Appends(s, t)
    ensures CallSound(n, t, c)
  {
  }

  lemma WinStays(n: Normal, s: Store, t: Store, w: Win)
    requires WinSound(n, s, w) && Appends(s, t)
    ensures WinSound(n, t, w)
  {
  }

  lemma SoundStays(n: Normal, s: Store, t: Store, calls: map<nat, Call>, wins: seq<Win>)
    requires CallsSound(n, s, calls) && WinsSound(n, s, wins) && Appends(s, t)
    ensures CallsSound(n, t, calls) && WinsSound(n, t, wins)
  {
    forall c | c in calls ensures CallSound(n, t, calls[c]) { CallStays(n, s, t, calls[c]); }
    forall i | 0 <= i < |wins| ensures WinSound(n, t, wins[i]) { WinStays(n, s, t, wins[i]); }
  }

  /** The live row is the last revision, so what a call reads is what history records. */
  lemma LiveIsHistory(s: Store, id: Id)
    requires HistoryComplete(s) && id in s.records
    ensures var r := s.records[id];
      (id, r.revision) in s.revisions && s.revisions[(id, r.revision)] == RevisionOf(r)
  {
    assert WellFormed(s.records[id]);
  }

  /** What a successful update leaves: the revision it was based on, and the next one behind the live row. */
  ghost predicate Advanced(s: Store, t: Store, kind: string, u: Update) {
    && u.id in s.records && (u.id, u.expected) in s.revisions
    && u.id in t.records && t.records[u.id].kind == kind && t.records[u.id].source == s.records[u.id].source
    && t.records[u.id].revision == u.expected + 1
    && (u.id, u.expected) in t.revisions && t.revisions[(u.id, u.expected)] == s.revisions[(u.id, u.expected)]
    && (u.id, u.expected + 1) in t.revisions
    && var after := t.revisions[(u.id, u.expected + 1)];
       after.payload == u.payload && after.evidence == u.evidence && after.validity == u.validity
           && after.supersedes == u.supersedes
  }

  lemma UpdateAdvances(s: Store, kind: string, u: Update, now: int)
    requires HistoryComplete(s) && UpdateRecord(s, kind, u, now).Ok?
    ensures Advanced(s, UpdateRecord(s, kind, u, now).value, kind, u) && u.expected == s.records[u.id].revision
  {
    LiveIsHistory(s, u.id);
  }

  lemma CallWins(n: Normal, s: Store, t: Store, k: Call)
    requires k.Ready? && CallSound(n, s, k) && Advanced(s, t, k.kind, k.update)
    ensures WinSound(n, t, Win(k.kind, k.update.id, k.update.expected, k.request))
  {
  }

  /** A pending call whose transaction succeeds leaves a sound committed update. */
  lemma CommittedSound(n: Normal, s: Store, k: Call, now: int)
    requires HistoryComplete(s) && k.Ready? && CallSound(n, s, k) && UpdateRecord(s, k.kind, k.update, now).Ok?
    ensures var u := k.update;
      && u.id in s.records && u.expected == s.records[u.id].revision
      && WinSound(n, UpdateRecord(s, k.kind, u, now).value, Win(k.kind, u.id, u.expected, k.request))
  {
    UpdateAdvances(s, k.kind, k.update, now);
    CallWins(n, s, UpdateRecord(s, k.kind, k.update, now).value, k);
  }

  /** A new committed update at the live revision repeats no earlier one. */
  lemma WinsExtend(n: Normal, s: Store, t: Store, wins: seq<Win>, w: Win)
    requires WinsSound(n, s, wins) && WinsSound(n, t, wins) && WinSound(n, t, w)
    requires w.id in s.records && w.expected == s.records[w.id].revision
    ensures WinsSound(n, t, wins + [w])
  {
    forall i | 0 <= i < |wins| ensures (wins[i].id, wins[i].expected) != (w.id, w.expected) {
      assert WinSound(n, s, wins[i]);
    }
  }

  lemma CommitKeeps(n: Normal, y: System, c: nat, now: int)
    requires SystemInv(n, y) && now != ZERO_TIME && c in y.calls && y.calls[c].Ready?
    ensures SystemInv(n, CommitStep(y, c, now))
    ensures CommitStep(y, c, now).store == y.store || Appends(y.store, CommitStep(y, c, now).store)
  {
    var k, s := y.calls[c], y.store;
    if UpdateRecord(s, k.kind, k.update, now).Ok? {
      var t := UpdateRecord(s, k.kind, k.update, now).value;
      UpdateKeeps(s, k.kind, k.update, now);
      SoundStays(n, s, t, y.calls, y.wins);
      CommittedSound(n, s, k, now);
      WinsExtend(n, s, t, y.wins, Win(k.kind, k.update.id, k.update.expected, k.request));
    }
  }

  /** A replacement that succeeds found the live revision at exactly the expected one and retired it. */
  lemma ReplacedSound(n: Normal, s: Store, r: Replace)
    requires HistoryComplete(s) && ReplaceMemo(s, r).Ok?
    ensures r.oldId in s.records && r.expected == s.records[r.oldId].revision
    ensures WinSound(n, ReplaceMemo(s, r).value, Win("memo", r.oldId, r.expected, None))
  {
    LiveIsHistory(s, r.oldId);
  }

  lemma ReplaceStepKeeps(n: Normal, y: System, r: Replace)
    requires SystemInv(n, y)
    ensures SystemInv(n, ReplaceStep(y, r))
    ensures ReplaceStep(y, r).store == y.store || Appends(y.store, ReplaceStep(y, r).store)
  {
    if ReplaceMemo(y.store, r).Ok? {
      var t := ReplaceMemo(y.store, r).value;
      ReplaceKeeps(y.store, r);
      SoundStays(n, y.store, t, y.calls, y.wins);
      ReplacedSound(n, y.store, r);
      WinsExtend(n, y.store, t, y.wins, Win("memo", r.oldId, r.expected, None));
    }
  }

  lemma LoadSound(n: Normal, s: Store, kind: string, project: string, workspace: string, id: Id, expected: nat,
                  patch: Patch)
    requires HistoryComplete(s)
    ensures var k := LoadCall(n, s, kind, project, workspace, id, expected, patch); k.Some? ==> CallSound(n, s, k.value)
  {
    if id in s.records { LiveIsHistory(s, id); }
  }

  lemma ReloadSound(n: Normal, s: Store, p: Call)
    requires HistoryComplete(s) && p.Prepared? && CallSound(n, s, p)
    ensures ReloadCall(s, p).Some? ==> CallSound(n, s, ReloadCall(s, p).value)
  {
    if p.id in s.records { LiveIsHistory(s, p.id); }
  }

  lemma RetireSound(n: Normal, s: Store, kind: string, project: string, workspace: string, id: Id, expected: nat)
    requires HistoryComplete(s)
    ensures var k := RetireCall(s, kind, project, workspace, id, expected); k.Some? ==> CallSound(n, s, k.value)
  {
    if id in s.records { LiveIsHistory(s, id); }
  }

  /** A direct transaction either fails or appends to the store. */
  lemma DirectKeeps(s: Store, a: Action)
    requires Inv(s) && ClockOk(a)
    ensures Inv(DirectStep(s, a)) && (DirectStep(s, a) == s || Appends(s, DirectStep(s, a)))
  {
    match a
    case Create(r) => if Insert(s, r).Ok? { InsertKeeps(s, r); }
    case ReplaceWith(r) => if ReplaceMemo(s, r).Ok? { ReplaceKeeps(s, r); }
    case Import(r, hash, parser, now) => if ImportVerification(s, r, hash, parser,
                                           now).Ok? { ImportKeeps(s, r, hash, parser, now); }
    case Observe(kind, u, now) => if UpdateRecord(s, kind, u, now).Ok? { UpdateKeeps(s, kind, u, now); }
    case RestoreArchive(project, workspace, archive) =>
      if Restore(s, project, workspace, archive).Ok? { RestoreKeeps(s, project, workspace, archive); }
    case _ =>
  }

  lemma WithCallKeeps(n: Normal, y: System, c: nat, k: Option<Call>)
    requires SystemInv(n, y) && (k.Some? ==> CallSound(n, y.store, k.value))
    ensures SystemInv(n, WithCall(y, c, k)) && WithCall(y, c, k).store == y.store
  {
  }

  lemma DirectSystemKeeps(n: Normal, y: System, a: Action)
    requires SystemInv(n, y) && ClockOk(a)
    ensures var z := y.(store := DirectStep(y.store, a));
      SystemInv(n, z) && (z.store == y.store || Appends(y.store, z.store))
  {
    DirectKeeps(y.store, a);
    if DirectStep(y.store, a) != y.store { SoundStays(n, y.store, DirectStep(y.store, a), y.calls, y.wins); }
  }

  /** Every action by any caller keeps the system invariant and only appends to the store. */
  lemma StepKeeps(n: Normal, y: System, a: Action)
    requires SystemInv(n, y) && ClockOk(a)
    ensures SystemInv(n, Step(n, y, a))
    ensures Step(n, y, a).store == y.store || Appends(y.store, Step(n, y, a).store)
  {
    match a
    case Load(c, kind, project, workspace, id, expected, patch) =>
      LoadSound(n, y.store, kind, project, workspace, id, expected, patch);
      WithCallKeeps(n, y, c, LoadCall(n, y.store, kind, project, workspace, id, expected, patch));
    case Reload(c) =>
      if c in y.calls && y.calls[c].Prepared? {
        ReloadSound(n, y.store, y.calls[c]);
        WithCallKeeps(n, y, c, ReloadCall(y.store, y.calls[c]));
      }
    case Retire(c, kind, project, workspace, id, expected) =>
      RetireSound(n, y.store, kind, project, workspace, id, expected);
      WithCallKeeps(n, y, c, RetireCall(y.store, kind, project, workspace, id, expected));
    case Commit(c, now) => if c in y.calls && y.calls[c].Ready? { CommitKeeps(n, y, c, now); }
    case ReplaceWith(r) => ReplaceStepKeeps(n, y, r);
    case _ => DirectSystemKeeps(n, y, a);
  }

  /** In every reachable system histories are complete, topics and successors unique, and no update was lost. */
  lemma {:induction false} ReachableSound(n: Normal, actions: seq<Action>)
    requires forall i :: 0 <= i < |actions| ==> ClockOk(actions[i])
    ensures SystemInv(n, Run(n, INITIAL, actions))
  {
    if actions != [] {
      ReachableSound(n, actions[..|actions| - 1]);
      StepKeeps(n, Run(n, INITIAL, actions[..|actions| - 1]), actions[|actions| - 1]);
    }
  }

  /** In every reachable store a scope, configuration and topic have at most one current memo per identity. */
  lemma OneCurrentMemo(n: Normal, actions: seq<Action>, a: Id, b: Id)
    requires forall i :: 0 <= i < |actions| ==> ClockOk(actions[i])
    requires var rows := Run(n, INITIAL, actions).store.records;
      a in rows && b in rows && TopicOf(rows[a]).Some? && TopicOf(rows[a]) == TopicOf(rows[b])
    ensures a == b
  {
    ReachableSound(n, actions);
    var rows := Run(n, INITIAL, actions).store.records;
    assert a != b ==> !Collide(rows[a], rows[b]);
  }

  /** `t` differs from `s` by a committed update that is sound and repeats none of `wins`. */
  ghost predicate UpdateNotLost(n: Normal, s: Store, t: Store, wins: seq<Win>, k: Call)
    requires k.Ready?
  {
    && WinSound(n, t, Win(k.kind, k.update.id, k.update.expected, k.request))
    && (k.update.id, k.update.expected) in s.revisions
    && t.revisions[(k.update.id, k.update.expected)] == s.revisions[(k.update.id, k.update.expected)]
    && forall i :: 0 <= i < |wins| ==> (wins[i].id, wins[i].expected) != (k.update.id, k.update.expected)
  }

  lemma CommitNotLost(n: Normal, s: Store, wins: seq<Win>, k: Call, now: int)
    requires HistoryComplete(s) && WinsSound(n, s, wins) && k.Ready? && CallSound(n, s, k)
    requires UpdateRecord(s, k.kind, k.update, now).Ok?
    ensures UpdateNotLost(n, s, UpdateRecord(s, k.kind, k.update, now).value, wins, k)
  {
    CommittedSound(n, s, k, now);
    LiveIsHistory(s, k.update.id);
    forall i | 0 <= i < |wins| ensures (wins[i].id, wins[i].expected) != (k.update.id, k.update.expected) {
      assert WinSound(n, s, wins[i]);
    }
  }

  lemma CommitStore(n: Normal, y: System, c: nat, now: int)
    requires c in y.calls && y.calls[c].Ready?
    ensures var k := y.calls[c]; UpdateRecord(y.store, k.kind, k.update, now).Ok? ==>
              Step(n, y, Commit(c, now)).wins == y.wins + [Win(k.kind, k.update.id, k.update.expected, k.request)]
    ensures Step(n, y, Commit(c, now)).store
        == Outcome(UpdateRecord(y.store, y.calls[c].kind, y.calls[c].update, now), y.store)
  {
  }

  lemma StepNotLost(n: Normal, y: System, c: nat, now: int)
    requires SystemInv(n, y) && c in y.calls && y.calls[c].Ready?
    requires UpdateRecord(y.store, y.calls[c].kind, y.calls[c].update, now).Ok?
    ensures UpdateNotLost(n, y.store, Step(n, y, Commit(c, now)).store, y.wins, y.calls[c])
    ensures var k := y.calls[c];
      Step(n, y, Commit(c, now)).wins == y.wins + [Win(k.kind, k.update.id, k.update.expected, k.request)]
  {
    CommitStore(n, y, c, now);
    var t := Step(n, y, Commit(c, now)).store;
    assert UpdateNotLost(n, y.store, t, y.wins, y.calls[c]) by {
      CommitNotLost(n, y.store, y.wins, y.calls[c], now);
    }
  }

  /** No lost updates: whatever ran in between, a commit that succeeds overlaid the revision it was based on, once. */
  lemma NoLostUpdate(n: Normal, actions: seq<Action>, y: System, c: nat, now: int)
    requires y == Run(n, INITIAL, actions) && forall i :: 0 <= i < |actions| ==> ClockOk(actions[i])
    requires c in y.calls && y.calls[c].Ready? && UpdateRecord(y.store, y.calls[c].kind, y.calls[c].update, now).Ok?
    ensures UpdateNotLost(n, y.store, Step(n, y, Commit(c, now)).store, y.wins, y.calls[c])
    ensures var k := y.calls[c];
      Step(n, y, Commit(c, now)).wins == y.wins + [Win(k.kind, k.update.id, k.update.expected, k.request)]
  {
    ReachableSound(n, actions);
    StepNotLost(n, y, c, now);
  }

  /** `t` took revision `expected` of the old memo, which is still as it was, and none of `wins` had taken it. */
  ghost predicate ReplacementNotLost(n: Normal, s: Store, t: Store, wins: seq<Win>, r: Replace) {
    && r.oldId in s.records && s.records[r.oldId].revision == r.expected && s.records[r.oldId].validity == "current"
    && r.oldId in t.records && t.records[r.oldId].revision == r.expected + 1
    && WinSound(n, t, Win("memo", r.oldId, r.expected, None))
    && (r.oldId, r.expected) in s.revisions && t.revisions[(r.oldId, r.expected)] == s.revisions[(r.oldId, r.expected)]
    && forall i :: 0 <= i < |wins| ==> (wins[i].id, wins[i].expected) != (r.oldId, r.expected)
  }

  lemma ReplaceNotLost(n: Normal, s: Store, wins: seq<Win>, r: Replace)
    requires HistoryComplete(s) && WinsSound(n, s, wins) && ReplaceMemo(s, r).Ok?
    ensures ReplacementNotLost(n, s, ReplaceMemo(s, r).value, wins, r)
  {
    ReplacedSound(n, s, r);
    LiveIsHistory(s, r.oldId);
    forall i | 0 <= i < |wins| ensures (wins[i].id, wins[i].expected) != (r.oldId, r.expected) {
      assert WinSound(n, s, wins[i]);
    }
  }

  lemma ReplaceStepNotLost(n: Normal, y: System, r: Replace)
    requires SystemInv(n, y) && ReplaceMemo(y.store, r).Ok?
    ensures ReplacementNotLost(n, y.store, ReplaceStep(y, r).store, y.wins, r)
    ensures ReplaceStep(y, r).wins == y.wins + [Win("memo", r.oldId, r.expected, None)]
  {
    assert ReplacementNotLost(n, y.store, ReplaceStep(y, r).store, y.wins, r) by {
      ReplaceNotLost(n, y.store, y.wins, r);
    }
  }

  lemma StepReplaces(n: Normal, y: System, r: Replace)
    ensures Step(n, y, ReplaceWith(r)) == ReplaceStep(y, r)
  {
  }

  /** No lost replacements: one that succeeds retired the revision its caller had read, which nobody took before. */
  lemma NoLostReplacement(n: Normal, actions: seq<Action>, y: System, r: Replace)
    requires y == Run(n, INITIAL, actions) && forall i :: 0 <= i < |actions| ==> ClockOk(actions[i])
    requires ReplaceMemo(y.store, r).Ok?
    ensures ReplacementNotLost(n, y.store, Step(n, y, ReplaceWith(r)).store, y.wins, r)
    ensures Step(n, y, ReplaceWith(r)).wins == y.wins + [Win("memo", r.oldId, r.expected, None)]
  {
    ReachableSound(n, actions);
    StepReplaces(n, y, r);
    ReplaceStepNotLost(n, y, r);
  }

  /**
   Over every run each revision of a record is taken at most once, by one service update or one memo
   replacement, and the record has moved past it.
   */
  lemma TakenOnce(n: Normal, actions: seq<Action>, i: nat, j: nat)
    requires forall k :: 0 <= k < |actions| ==> ClockOk(actions[k])
    requires i < |Run(n, INITIAL, actions).wins| && j < |Run(n, INITIAL, actions).wins|
    requires var wins := Run(n, INITIAL, actions).wins;
      wins[i].id == wins[j].id && wins[i].expected == wins[j].expected
    ensures i == j
    ensures var y := Run(n, INITIAL, actions);
      y.wins[i].id in y.store.records && y.wins[i].expected < y.store.records[y.wins[i].id].revision
  {
    ReachableSound(n, actions);
    var y := Run(n, INITIAL, actions);
    assert WinSound(n, y.store, y.wins[i]);
  }
}
