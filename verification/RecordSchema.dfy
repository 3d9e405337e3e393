/** What memos and checkpoints hold, member by member, and what an update does to each of them. */
module RecordSchema {
  import opened Wrappers
  import opened JsonValues
  import opened Records
  import opened RecordService
  import opened RecordSystem
  import opened RecordFields

  // ---- What one given value leaves ----

  /** A text that is always stored; missing and null leave "". */
  predicate StoresText(after: Fields, name: string, v: Option<Json>) {
    && name in after && after[name].JString?
    && match v
       case Some(JString(t)) => after[name].text == t
       case Some(JNull) => after[name].text == ""
       case None => after[name].text == ""
       case Some(_) => true
  }

  /** A text that is stored in the form `f` unless it is empty, missing or null. */
  predicate StoresOptional(after: Fields, name: string, v: Option<Json>, f: string -> string) {
    match v
    case Some(JString(t)) => if f(t) == "" then name !in after else name in after && after[name] == JString(f(t))
    case Some(JNull) => name !in after
    case None => name !in after
    case Some(_) => true
  }

  function Verbatim(x: string): string { x }

  /** A list of texts that is always stored; missing and null leave []. */
  predicate StoresList(after: Fields, name: string, v: Option<Json>) {
    && name in after && after[name].JArray?
    && match v
       case Some(JArray(items)) =>
         && |after[name].items| == |items|
         && forall i :: 0 <= i < |items| ==>
              after[name].items[i] == if items[i].JString? then items[i] else JString("")
       case Some(JNull) => after[name].items == []
       case None => after[name].items == []
       case Some(_) => true
  }

  // ---- What a write leaves, whether it creates or updates ----

  predicate MemoTextsHold(m: Fields, after: Fields) {
    && StoresText(after, "memo_kind", At(m, "memo_kind"))
    && StoresText(after, "scope", At(m, "scope"))
    && StoresText(after, "configuration", At(m, "configuration"))
    && StoresText(after, "content", At(m, "content"))
    && StoresText(after, "invalidation_condition", At(m, "invalidation_condition"))
  }

  predicate MemoOptionsHold(n: Normal, m: Fields, after: Fields) {
    && StoresOptional(after, "topic_key", At(m, "topic_key"), n.lower)
    && StoresOptional(after, "title", At(m, "title"), Verbatim)
    && StoresOptional(after, "summary", At(m, "summary"), Verbatim)
    && StoresOptional(after, "temporal_kind", At(m, "temporal_kind"), Verbatim)
    && StoresOptional(after, "as_of", At(m, "as_of"), n.utc)
  }

  /** The memo written for the request members `m`. */
  predicate MemoHolds(n: Normal, m: Fields, after: Fields) {
    && MemoTextsHold(m, after) && MemoOptionsHold(n, m, after)
    && At(after, "host") == (if "host" in m && m["host"] != JNull then Some(n.host(m["host"])) else None)
    && after.Keys <= MemoMembers()
  }

  function MemoMembers(): set<string> {
    {"memo_kind", "scope", "configuration", "content", "invalidation_condition", "topic_key", "title", "summary",
     "temporal_kind", "as_of", "host"}
  }

  /** The checkpoint written for the request members `m`. */
  predicate CheckpointHolds(m: Fields, after: Fields) {
    && StoresText(after, "goal", At(m, "goal"))
    && StoresText(after, "baseline_commit", At(m, "baseline_commit"))
    && StoresText(after, "next_action", At(m, "next_action"))
    && StoresText(after, "change_summary", At(m, "change_summary"))
    && StoresList(after, "run_refs", At(m, "run_refs"))
    && StoresList(after, "remaining_checks", At(m, "remaining_checks"))
    && StoresList(after, "background_refs", At(m, "background_refs"))
    && StoresList(after, "risks", At(m, "risks"))
    && At(after, "dirty") == Some(if "dirty" in m then m["dirty"] else JNull)
    && after.Keys == {"goal", "baseline_commit", "next_action", "change_summary", "run_refs", "remaining_checks",
                      "background_refs", "risks", "dirty"}
  }

  lemma TextHolds(n: Normal, m: Fields, name: string)
    requires name in MEMO_FIXED
    ensures StoresText(MemoPayload(n, m), name, At(m, name))
  {
    MemoFieldAt(n, m, name);
    assert At(MemoPayload(n, m), name) == Some(JString(Text(m, name)));
  }

  lemma OptionalHolds(n: Normal, m: Fields, name: string, f: string -> string)
    requires KeepsEmpty(n) && name in MEMO_OPTIONAL && name !in MEMO_FIXED
    requires forall x :: f(x) == Form(n, name, x)
    ensures StoresOptional(MemoPayload(n, m), name, At(m, name), f)
  {
    MemoFieldAt(n, m, name);
  }

  lemma TextsHold(n: Normal, m: Fields)
    ensures MemoTextsHold(m, MemoPayload(n, m))
  {
    TextHolds(n, m, "memo_kind");
    TextHolds(n, m, "scope");
    TextHolds(n, m, "configuration");
    TextHolds(n, m, "content");
    TextHolds(n, m, "invalidation_condition");
  }

  lemma OptionsHold(n: Normal, m: Fields)
    requires KeepsEmpty(n)
    ensures MemoOptionsHold(n, m, MemoPayload(n, m))
  {
    OptionalHolds(n, m, "topic_key", n.lower);
    OptionalHolds(n, m, "title", Verbatim);
    OptionalHolds(n, m, "summary", Verbatim);
    OptionalHolds(n, m, "temporal_kind", Verbatim);
    OptionalHolds(n, m, "as_of", n.utc);
  }

  lemma OnlyMemoMembers(n: Normal, m: Fields)
    ensures MemoPayload(n, m).Keys <= MemoMembers()
  {
  }

  /** The payload of a memo, by the names of its members. */
  lemma WritesMemo(n: Normal, m: Fields)
    requires KeepsEmpty(n)
    ensures MemoHolds(n, m, WritePayload(n, "memo", m))
  {
    TextsHold(n, m);
    OptionsHold(n, m);
    OnlyMemoMembers(n, m);
    MemoFieldAt(n, m, "host");
  }

  lemma CheckpointTextHolds(m: Fields, name: string)
    requires name in CHECKPOINT_TEXTS
    ensures StoresText(CheckpointPayload(m), name, At(m, name))
  {
    CheckpointFieldAt(m, name);
    assert At(CheckpointPayload(m), name) == Some(JString(Text(m, name)));
  }

  lemma CheckpointListHolds(m: Fields, name: string)
    requires name in CHECKPOINT_LISTS && name !in CHECKPOINT_TEXTS
    ensures StoresList(CheckpointPayload(m), name, At(m, name))
  {
    CheckpointFieldAt(m, name);
    assert At(CheckpointPayload(m), name) == Some(Strings(Texts(m, name)));
  }

  /** The payload of a checkpoint, by the names of its members. */
  lemma WritesCheckpoint(n: Normal, m: Fields)
    ensures CheckpointHolds(m, WritePayload(n, "checkpoint", m))
  {
    CheckpointTextHolds(m, "goal");
    CheckpointTextHolds(m, "baseline_commit");
    CheckpointTextHolds(m, "next_action");
    CheckpointTextHolds(m, "change_summary");
    CheckpointListHolds(m, "run_refs");
    CheckpointListHolds(m, "remaining_checks");
    CheckpointListHolds(m, "background_refs");
    CheckpointListHolds(m, "risks");
    CheckpointFieldAt(m, "dirty");
  }

  lemma MemoMemberFits(n: Normal, m: Fields, name: string)
    requires MemoFits(n, m) && name in MEMO_FIXED + MEMO_OPTIONAL
    ensures TextFits(m, name)
  {
  }

  lemma MemoTextMember(name: string)
    requires name in MemoMembers() - {"host"}
    ensures name in MEMO_FIXED + MEMO_OPTIONAL && name != "source" && name != "evidence_refs"
  {
  }

  /** A supplied memo text that is neither a string nor null refuses the request. */
  lemma MemoTextFits(n: Normal, payload: Fields, source: string, evidence: seq<string>, p: Patch, name: string)
    requires Decodes(n) && Accepted(n, "memo", payload, source, evidence, p) && Supplied(p, name).Some?
    requires name in MemoMembers() - {"host"}
    ensures Supplied(p, name).value.JString? || Supplied(p, name).value == JNull
  {
    var m := Merge(payload, source, evidence, p);
    MemoTextMember(name);
    MergedAt(payload, source, evidence, p, name);
    assert MemoFits(n, m);
    MemoMemberFits(n, m, name);
  }

  /** So does a supplied checkpoint member of the wrong type. */
  lemma CheckpointMemberFits(n: Normal, payload: Fields, source: string, evidence: seq<string>, p: Patch, name: string)
    requires Decodes(n) && Accepted(n, "checkpoint", payload, source, evidence, p) && Supplied(p, name).Some?
    requires Supplied(p, name).value != JNull
    ensures name in {"goal", "baseline_commit", "next_action", "change_summary"} ==>
              Supplied(p, name).value.JString?
    ensures name in {"run_refs", "remaining_checks", "background_refs", "risks"} ==>
              Supplied(p, name).value.JArray?
    ensures name == "dirty" ==> Supplied(p, name).value.JBool?
  {
    var m := Merge(payload, source, evidence, p);
    assert CheckpointFits(m);
    if name != "source" && name != "evidence_refs" { MergedAt(payload, source, evidence, p, name); }
    assert name in CHECKPOINT_TEXTS ==> TextFits(m, name);
    assert name in CHECKPOINT_LISTS ==> ListFits(m, name);
  }

  // ---- What an update changes ----

  predicate Kept(before: Fields, after: Fields, name: string) {
    At(after, name) == At(before, name)
  }

  predicate TextUpdated(before: Fields, after: Fields, p: Patch, name: string) {
    if Supplied(p, name).Some? then StoresText(after, name, Supplied(p, name)) else Kept(before, after, name)
  }

  predicate OptionalUpdated(before: Fields, after: Fields, p: Patch, name: string, f: string -> string) {
    if Supplied(p, name).Some? then StoresOptional(after, name, Supplied(p, name), f) else Kept(before, after, name)
  }

  predicate ListUpdated(before: Fields, after: Fields, p: Patch, name: string) {
    if Supplied(p, name).Some? then StoresList(after, name, Supplied(p, name)) else Kept(before, after, name)
  }

  /** A supplied host is stored in normal form, a null one removes it, an omitted one stays. */
  predicate HostUpdated(n: Normal, before: Fields, after: Fields, p: Patch) {
    match Supplied(p, "host")
    case Some(v) => At(after, "host") == if v == JNull then None else Some(n.host(v))
    case None => Kept(before, after, "host")
  }

  predicate MemoUpdated(n: Normal, before: Fields, after: Fields, p: Patch) {
    && TextUpdated(before, after, p, "memo_kind") && TextUpdated(before, after, p, "scope")
    && TextUpdated(before, after, p, "configuration") && TextUpdated(before, after, p, "content")
    && TextUpdated(before, after, p, "invalidation_condition")
    && OptionalUpdated(before, after, p, "topic_key", n.lower) && OptionalUpdated(before, after, p, "title", Verbatim)
    && OptionalUpdated(before, after, p, "summary", Verbatim)
    && OptionalUpdated(before, after, p, "temporal_kind", Verbatim)
    && OptionalUpdated(before, after, p, "as_of", n.utc) && HostUpdated(n, before, after, p)
  }

  predicate CheckpointUpdated(before: Fields, after: Fields, p: Patch) {
    && TextUpdated(before, after, p, "goal") && TextUpdated(before, after, p, "baseline_commit")
    && TextUpdated(before, after, p, "next_action") && TextUpdated(before, after, p, "change_summary")
    && ListUpdated(before, after, p, "run_refs") && ListUpdated(before, after, p, "remaining_checks")
    && ListUpdated(before, after, p, "background_refs") && ListUpdated(before, after, p, "risks")
    && (match Supplied(p, "dirty")
        case Some(v) => At(after, "dirty") == Some(v)
        case None => Kept(before, after, "dirty"))
  }

  lemma TextChange(n: Normal, before: Fields, after: Fields, p: Patch, name: string)
    requires FieldChange(n, "memo", before, after, p, name) && name in MEMO_FIXED
    ensures TextUpdated(before, after, p, name)
  {
    if Supplied(p, name).Some? { assert At(after, name) == Some(JString(Element(Supplied(p, name).value))); }
  }

  lemma OptionalChange(n: Normal, before: Fields, after: Fields, p: Patch, name: string, f: string -> string)
    requires FieldChange(n, "memo", before, after, p, name) && name in MEMO_OPTIONAL && name !in MEMO_FIXED
    requires forall x :: f(x) == Form(n, name, x)
    ensures OptionalUpdated(before, after, p, name, f)
  {
  }

  lemma MemoChange(n: Normal, before: Fields, after: Fields, p: Patch)
    requires forall name :: FieldChange(n, "memo", before, after, p, name)
    ensures MemoUpdated(n, before, after, p)
  {
    TextChange(n, before, after, p, "memo_kind");
    TextChange(n, before, after, p, "scope");
    TextChange(n, before, after, p, "configuration");
    TextChange(n, before, after, p, "content");
    TextChange(n, before, after, p, "invalidation_condition");
    OptionalChange(n, before, after, p, "topic_key", n.lower);
    OptionalChange(n, before, after, p, "title", Verbatim);
    OptionalChange(n, before, after, p, "summary", Verbatim);
    OptionalChange(n, before, after, p, "temporal_kind", Verbatim);
    OptionalChange(n, before, after, p, "as_of", n.utc);
    assert FieldChange(n, "memo", before, after, p, "host");
  }

  lemma CheckpointTextChange(n: Normal, before: Fields, after: Fields, p: Patch, name: string)
    requires FieldChange(n, "checkpoint", before, after, p, name) && name in CHECKPOINT_TEXTS
    ensures TextUpdated(before, after, p, name)
  {
    if Supplied(p, name).Some? { assert At(after, name) == Some(JString(Element(Supplied(p, name).value))); }
  }

  lemma CheckpointListChange(n: Normal, before: Fields, after: Fields, p: Patch, name: string)
    requires FieldChange(n, "checkpoint", before, after, p, name)
    requires name in CHECKPOINT_LISTS && name !in CHECKPOINT_TEXTS
    ensures ListUpdated(before, after, p, name)
  {
    if Supplied(p, name).Some? { assert At(after, name) == Some(Strings(TextsIn(Supplied(p, name).value))); }
  }

  lemma CheckpointChange(n: Normal, before: Fields, after: Fields, p: Patch)
    requires forall name :: FieldChange(n, "checkpoint", before, after, p, name)
    ensures CheckpointUpdated(before, after, p)
  {
    CheckpointTextChange(n, before, after, p, "goal");
    CheckpointTextChange(n, before, after, p, "baseline_commit");
    CheckpointTextChange(n, before, after, p, "next_action");
    CheckpointTextChange(n, before, after, p, "change_summary");
    CheckpointListChange(n, before, after, p, "run_refs");
    CheckpointListChange(n, before, after, p, "remaining_checks");
    CheckpointListChange(n, before, after, p, "background_refs");
    CheckpointListChange(n, before, after, p, "risks");
    assert FieldChange(n, "checkpoint", before, after, p, "dirty");
  }

  // ---- Over every run of the services ----

  /** Every stored memo and checkpoint has exactly the members of its kind, each in the form a write gives it. */
  ghost predicate WellShaped(n: Normal, s: Store, id: Id, number: nat)
    requires (id, number) in s.revisions && id in s.records
  {
    var fields := PayloadFields(s.revisions[(id, number)].payload);
    && (s.records[id].kind == "memo" ==> fields.Some? && MemoHolds(n, fields.value, fields.value))
    && (s.records[id].kind == "checkpoint" ==> fields.Some? && CheckpointHolds(fields.value, fields.value))
  }

  lemma CanonicalShape(n: Normal, s: Store, id: Id, number: nat)
    requires SoundNormal(n) && CanonicalStore(n, s) && (id, number) in s.revisions && id in s.records
    ensures WellShaped(n, s, id, number)
  {
    assert CanonicalRow(n, s, (id, number));
    if Writable(s.records[id].kind) {
      var fields := PayloadFields(s.revisions[(id, number)].payload).value;
      WritesMemo(n, fields);
      WritesCheckpoint(n, fields);
    }
  }

  lemma ReachableShaped(n: Normal, actions: seq<Action>, id: Id, number: nat)
    requires SoundNormal(n) && ServiceRun(n, actions)
    requires var s := Run(n, INITIAL, actions).store; (id, number) in s.revisions && id in s.records
    ensures WellShaped(n, Run(n, INITIAL, actions).store, id, number)
  {
    ReachableCanonical(n, actions);
    CanonicalShape(n, Run(n, INITIAL, actions).store, id, number);
  }

  /** Revision `expected` + 1 differs from revision `expected` in exactly the members the patch supplies. */
  ghost predicate MembersUpdated(n: Normal, s: Store, w: Win, p: Patch) {
    && (w.id, w.expected) in s.revisions && (w.id, w.expected + 1) in s.revisions
    && var before := PayloadFields(s.revisions[(w.id, w.expected)].payload);
       var after := PayloadFields(s.revisions[(w.id, w.expected + 1)].payload);
       && before.Some? && after.Some?
       && (|| (w.kind == "memo" && MemoUpdated(n, before.value, after.value, p))
           || (w.kind == "checkpoint" && CheckpointUpdated(before.value, after.value, p)))
  }

  lemma FieldsAreMembers(n: Normal, s: Store, w: Win, p: Patch)
    requires FieldsUpdated(n, s, w, p) && Writable(w.kind)
    ensures MembersUpdated(n, s, w, p)
  {
    var before := PayloadFields(s.revisions[(w.id, w.expected)].payload).value;
    var after := PayloadFields(s.revisions[(w.id, w.expected + 1)].payload).value;
    if w.kind == "memo" { MemoChange(n, before, after, p); } else { CheckpointChange(n, before, after, p); }
  }

  lemma WinWritable(n: Normal, s: Store, w: Win)
    requires WinSound(n, s, w) && w.patch.Some?
    ensures Writable(w.kind)
  {
  }

  /**
   In every run of the services each committed memo update stored the supplied memo_kind, scope,
   configuration, content, invalidation_condition, title, summary and temporal_kind verbatim, the topic_key
   in lower case, as_of in UTC and the host in normal form, and kept each of them that it omitted; each
   committed checkpoint update did the same for its nine members.
   */
  lemma EveryMemberUpdated(n: Normal, actions: seq<Action>, i: nat)
    requires SoundNormal(n) && ServiceRun(n, actions)
    requires i < |Run(n, INITIAL, actions).wins| && Run(n, INITIAL, actions).wins[i].patch.Some?
    ensures var y := Run(n, INITIAL, actions); MembersUpdated(n, y.store, y.wins[i], y.wins[i].patch.value)
  {
    ReachableSound(n, actions);
    EveryFieldKept(n, actions, i);
    var y := Run(n, INITIAL, actions);
    WinWritable(n, y.store, y.wins[i]);
    FieldsAreMembers(n, y.store, y.wins[i], y.wins[i].patch.value);
  }
}
