/**
 Partial updates through the records service. The service reads a record, merges the request into it,
 reads it again for provenance, and only then commits a revision-checked transaction; any other
 writer may run between these steps.
 */
module RecordService {
  import opened Wrappers
  import opened JsonValues
  import opened Records

  type Fields = map<string, Json>

  /** A decoded request: its non-zero fields re-marshalled, the members present on the wire, its non-nil lists. */
  datatype Patch = Patch(marshalled: Fields, present: Fields, lists: map<string, Option<seq<string>>>)

  function Strings(list: seq<string>): Json {
    JArray(seq(|list|, i requires 0 <= i < |list| => JString(list[i])))
  }

  /** The value a request supplies for a field, if any: a non-nil list wins over the wire, the wire over the struct. */
  function Supplied(p: Patch, name: string): Option<Json> {
    if name in p.lists && p.lists[name].Some? then Some(Strings(p.lists[name].value))
    else if name in p.present then Some(p.present[name])
    else if name in p.marshalled then Some(p.marshalled[name])
    else None
  }

  /** What the record holds for a field: its payload, with source and evidence_refs taken from the row. */
  function Stored(payload: Fields, source: string, evidence: seq<string>, name: string): Option<Json> {
    if name == "source" then Some(JString(source))
    else if name == "evidence_refs" then Some(Strings(evidence))
    else if name in payload then Some(payload[name])
    else None
  }

  /** `merged` is the stored fields overlaid by exactly the supplied ones. */
  ghost predicate Overlaid(merged: Fields, payload: Fields, source: string, evidence: seq<string>, p: Patch) {
    forall name ::
      (if name in merged then Some(merged[name]) else None)
      == if Supplied(p, name).Some? then Supplied(p, name) else Stored(payload, source, evidence, name)
  }

  function PayloadFields(p: Payload): Option<Fields> {
    if p.value.Some? && p.value.value.JObject? then Some(p.value.value.fields) else None
  }

  /** for key, value := range patch { base[key] = value } */
  method OverlayInto(base: Fields, patch: Fields) returns (out: Fields)
    ensures out == base + patch
  {
    out := base;
    var todo := patch.Keys;
    while todo != {}
      invariant todo <= patch.Keys
      invariant out == base + (patch - todo)
      decreases todo
    {
      var key :| key in todo;
      todo := todo - {key};
      out := out[key := patch[key]];
    }
  }

  function NonNil(lists: map<string, Option<seq<string>>>): Fields {
    map k | k in lists && lists[k].Some? :: Strings(lists[k].value)
  }

  method OverlayLists(base: Fields, lists: map<string, Option<seq<string>>>) returns (out: Fields)
    ensures out == base + NonNil(lists)
  {
    out := base;
    var todo := lists.Keys;
    while todo != {}
      invariant todo <= lists.Keys
      invariant out == base + (NonNil(lists) - todo)
      decreases todo
    {
      var key :| key in todo;
      todo := todo - {key};
      if lists[key].Some? { out := out[key := Strings(lists[key].value)]; }
    }
  }

  /** mergeRecordUpdate: the wire members and lists laid over the request, then the request over the record. */
  method MergeRecordUpdate(payload: Payload, source: string, evidence: seq<string>, p: Patch)
    returns (merged: Option<Fields>)
    ensures merged.None? <==> PayloadFields(payload).None?
    ensures merged.Some? ==> Overlaid(merged.value, PayloadFields(payload).value, source, evidence, p)
    ensures merged.Some? ==> merged.value == Merge(PayloadFields(payload).value, source, evidence, p)
  {
    if PayloadFields(payload).None? { return None; }
    var base := PayloadFields(payload).value;
    var patch := OverlayInto(p.marshalled, p.present);
    patch := OverlayLists(patch, p.lists);
    base := base["source" := JString(source)];
    base := base["evidence_refs" := Strings(evidence)];
    base := OverlayInto(base, patch);
    MergeOverlays(PayloadFields(payload).value, source, evidence, p);
    merged := Some(base);
  }

  function Merge(payload: Fields, source: string, evidence: seq<string>, p: Patch): Fields {
    var base := payload["source" := JString(source)]["evidence_refs" := Strings(evidence)];
    base + (p.marshalled + p.present + NonNil(p.lists))
  }

  lemma MergeOverlays(payload: Fields, source: string, evidence: seq<string>, p: Patch)
    ensures Overlaid(Merge(payload, source, evidence, p), payload, source, evidence, p)
  {
  }

  /** A non-nil list wins over the wire member, the wire member over the struct field, and that over the record. */
  lemma MergePrecedence(payload: Fields, source: string, evidence: seq<string>, p: Patch, name: string)
    requires name != "source" && name != "evidence_refs"
    ensures var m := Merge(payload, source, evidence, p);
      && (name in p.lists && p.lists[name].Some? ==>
            name in m && m[name] == JArray(seq(|p.lists[name].value|, i requires 0 <= i < |p.lists[name].value| =>
                JString(p.lists[name].value[i]))))
      && (name in p.present && (name in p.lists ==> p.lists[name].None?) ==> name in m && m[name] == p.present[name])
      && (name in p.marshalled && name !in p.present && (name in p.lists ==> p.lists[name].None?) ==>
            name in m && m[name] == p.marshalled[name])
      && (name !in p.marshalled && name !in p.present && (name in p.lists ==> p.lists[name].None?) ==>
            (name in m <==> name in payload) && (name in m ==> m[name] == payload[name]))
  {
  }

  // ---- Decoding the merged request ----

  /**
   What the service does to a merged request: whether it is accepted (decoding, request validation and
   the checks against the stored record, given the kind, the stored fields and the merged ones),
   lower-casing, rewriting a timestamp in UTC, host decoding and normalisation, and json.Marshal.
   */
  datatype Normal = Normal(
    accepts: (string, Fields, Fields) -> bool, lower: string -> string, utc: string -> string,
    hostFits: Json -> bool, host: Json -> Json, render: Json -> string)

  ghost predicate SoundNormal(n: Normal) {
    && (forall x :: n.lower(n.lower(x)) == n.lower(x) && n.utc(n.utc(x)) == n.utc(x))
    && KeepsEmpty(n)
    && (forall h :: n.host(n.host(h)) == n.host(h) && (n.host(h) == JNull <==> h == JNull))
  }

  /** No text stays no text. */
  predicate KeepsEmpty(n: Normal) {
    n.lower("") == "" && n.utc("") == ""
  }

  /** Topic keys are lower-cased and as_of is moved to UTC; every other text is stored verbatim. */
  function Form(n: Normal, name: string, x: string): string {
    if name == "topic_key" then n.lower(x) else if name == "as_of" then n.utc(x) else x
  }

  const MEMO_FIXED := {"memo_kind", "scope", "configuration", "content", "invalidation_condition"}
  const MEMO_OPTIONAL := {"topic_key", "title", "summary", "temporal_kind", "as_of"}
  const CHECKPOINT_TEXTS := {"goal", "baseline_commit", "next_action", "change_summary"}
  const CHECKPOINT_LISTS := {"run_refs", "remaining_checks", "background_refs", "risks"}
  const REQUEST_TEXTS := {"mode", "id", "supersedes", "source", "response_view"}

  /** A member that is missing or null leaves the field at its zero value. */
  predicate Blank(m: Fields, name: string) {
    name !in m || m[name] == JNull
  }

  predicate TextFits(m: Fields, name: string) {
    Blank(m, name) || m[name].JString?
  }

  predicate ListFits(m: Fields, name: string) {
    Blank(m, name) || (m[name].JArray? && forall i :: 0 <= i < |m[name].items| ==> m[name].items[i] == JNull
                                                                                     || m[name].items[i].JString?)
  }

  predicate RequestFits(m: Fields) {
    && (forall name :: name in REQUEST_TEXTS ==> TextFits(m, name))
    && (Blank(m, "expected_revision") || m["expected_revision"].JNumber?) && ListFits(m, "evidence_refs")
  }

  predicate MemoFits(n: Normal, m: Fields) {
    && RequestFits(m) && (forall name :: name in MEMO_FIXED + MEMO_OPTIONAL ==> TextFits(m, name))
    && (Blank(m, "host") || n.hostFits(m["host"]))
  }

  predicate CheckpointFits(m: Fields) {
    && RequestFits(m) && (forall name :: name in CHECKPOINT_TEXTS ==> TextFits(m, name))
    && (forall name :: name in CHECKPOINT_LISTS ==> ListFits(m, name))
    && (Blank(m, "dirty") || m["dirty"].JBool?)
  }

  /** json.Unmarshal into the typed request succeeds. */
  predicate Fits(n: Normal, kind: string, m: Fields) {
    if kind == "memo" then MemoFits(n, m) else CheckpointFits(m)
  }

  /** Only merged requests that decode are accepted. */
  ghost predicate Decodes(n: Normal) {
    forall kind, base, m :: n.accepts(kind, base, m) ==> Fits(n, kind, m)
  }

  const NOTHING := Patch(map[], map[], map[])

  /** The stored fields the request is merged into, source and evidence included. */
  function Base(payload: Fields, source: string, evidence: seq<string>): Fields {
    Merge(payload, source, evidence, NOTHING)
  }

  predicate Accepted(n: Normal, kind: string, payload: Fields, source: string, evidence: seq<string>, p: Patch) {
    n.accepts(kind, Base(payload, source, evidence), Merge(payload, source, evidence, p))
  }

  /** A stored member of the wrong type refuses every update that does not replace it. */
  lemma WrongTypeRefused(n: Normal, payload: Fields, source: string, evidence: seq<string>, p: Patch, name: string)
    requires Decodes(n) && name in MEMO_FIXED + MEMO_OPTIONAL
    requires !TextFits(payload, name) && Supplied(p, name).None?
    ensures !Accepted(n, "memo", payload, source, evidence, p)
  {
    PayloadNames("memo", name);
    var m := Merge(payload, source, evidence, p);
    MergedAt(payload, source, evidence, p, name);
    assert At(m, name) == At(payload, name);
    assert !TextFits(m, name);
    assert !Fits(n, "memo", m);
  }

  function Text(m: Fields, name: string): string {
    if name in m && m[name].JString? then m[name].text else ""
  }

  function Element(j: Json): string {
    if j.JString? then j.text else ""
  }

  function TextsIn(j: Json): seq<string> {
    if j.JArray? then seq(|j.items|, i requires 0 <= i < |j.items| => Element(j.items[i])) else []
  }

  function Texts(m: Fields, name: string): seq<string> {
    if name in m then TextsIn(m[name]) else []
  }

  // ---- What a write stores ----

  /** WriteMemo's payload: fixed fields always, optional ones and the host only when non-empty. */
  function MemoField(n: Normal, m: Fields, name: string): Option<Json> {
    if name in MEMO_FIXED then Some(JString(Text(m, name)))
    else if name in MEMO_OPTIONAL then
      if Form(n, name, Text(m, name)) != "" then Some(JString(Form(n, name, Text(m, name)))) else None
    else if name in m && m[name] != JNull then Some(n.host(m[name])) else None
  }

  function MemoPayload(n: Normal, m: Fields): Fields {
    map f | f in MEMO_FIXED + MEMO_OPTIONAL + {"host"} && MemoField(n, m, f).Some? :: MemoField(n, m, f).value
  }

  /** WriteCheckpoint's payload: every field always, missing lists as []. */
  function CheckpointField(m: Fields, name: string): Json {
    if name in CHECKPOINT_TEXTS then JString(Text(m, name))
    else if name in CHECKPOINT_LISTS then Strings(Texts(m, name))
    else if name in m then m[name] else JNull
  }

  function CheckpointPayload(m: Fields): Fields {
    map f | f in CHECKPOINT_TEXTS + CHECKPOINT_LISTS + {"dirty"} :: CheckpointField(m, f)
  }

  function WritePayload(n: Normal, kind: string, m: Fields): Fields {
    if kind == "memo" then MemoPayload(n, m) else CheckpointPayload(m)
  }

  function Rendered(n: Normal, fields: Fields): Payload {
    Payload(n.render(JObject(fields)), Some(JObject(fields)))
  }

  function At(m: Fields, name: string): Option<Json> {
    if name in m then Some(m[name]) else None
  }

  predicate PayloadName(kind: string, name: string) {
    if kind == "memo" then name in MEMO_FIXED + MEMO_OPTIONAL + {"host"}
    else name in CHECKPOINT_TEXTS + CHECKPOINT_LISTS + {"dirty"}
  }

  lemma PayloadNames(kind: string, name: string)
    requires PayloadName(kind, name)
    ensures name != "source" && name != "evidence_refs"
  {
  }

  /** A merged payload field is the supplied value, or else the stored one. */
  lemma MergedAt(payload: Fields, source: string, evidence: seq<string>, p: Patch, name: string)
    requires name != "source" && name != "evidence_refs"
    ensures At(Merge(payload, source, evidence, p), name) == if Supplied(p, name).Some? then Supplied(p, name)
                                                               else At(payload, name)
  {
    MergeOverlays(payload, source, evidence, p);
  }

  // ---- Field by field ----

  /** What a supplied value leaves in a memo: null and empty text clear; a fixed field keeps an empty text. */
  function MemoWritten(n: Normal, name: string, v: Json): Option<Json> {
    if name in MEMO_FIXED then Some(JString(Element(v)))
    else if name in MEMO_OPTIONAL then
      if v == JNull || Form(n, name, Element(v)) == "" then None else Some(JString(Form(n, name, Element(v))))
    else if name == "host" && v != JNull then Some(n.host(v))
    else None
  }

  /** What a supplied value leaves in a checkpoint: null is the empty text, the empty list, or an unknown flag. */
  function CheckpointWritten(name: string, v: Json): Option<Json> {
    if name in CHECKPOINT_TEXTS then Some(JString(Element(v)))
    else if name in CHECKPOINT_LISTS then Some(Strings(TextsIn(v)))
    else if name == "dirty" then Some(v)
    else None
  }

  function Written(n: Normal, kind: string, name: string, v: Json): Option<Json> {
    if kind == "memo" then MemoWritten(n, name, v) else CheckpointWritten(name, v)
  }

  lemma MemoFieldAt(n: Normal, m: Fields, name: string)
    ensures At(MemoPayload(n, m), name) == if PayloadName("memo", name) then MemoField(n, m, name) else None
  {
  }

  /**
   A memo update, field by field, whatever was stored: a supplied value is written, explicit null and
   explicit emptiness included; an omitted field becomes what writing the stored payload again gives.
   */
  lemma MemoFieldUpdated(n: Normal, before: Fields, source: string, evidence: seq<string>, p: Patch, name: string)
    requires KeepsEmpty(n)
    ensures var after := MemoPayload(n, Merge(before, source, evidence, p));
      At(after, name) == if Supplied(p, name).Some? then MemoWritten(n, name, Supplied(p, name).value)
                         else At(MemoPayload(n, before), name)
  {
    var m := Merge(before, source, evidence, p);
    MemoFieldAt(n, m, name);
    MemoFieldAt(n, before, name);
    if PayloadName("memo", name) {
      PayloadNames("memo", name);
      MergedAt(before, source, evidence, p, name);
    }
  }

  lemma CheckpointFieldAt(m: Fields, name: string)
    ensures At(CheckpointPayload(m), name) == if PayloadName("checkpoint", name) then Some(CheckpointField(m, name))
                                                else None
  {
  }

  /** The same for a checkpoint, the dirty flag included. */
  lemma CheckpointFieldUpdated(before: Fields, source: string, evidence: seq<string>, p: Patch, name: string)
    ensures var after := CheckpointPayload(Merge(before, source, evidence, p));
      At(after, name) == if Supplied(p, name).Some? then CheckpointWritten(name, Supplied(p, name).value)
                         else At(CheckpointPayload(before), name)
  {
    var m := Merge(before, source, evidence, p);
    CheckpointFieldAt(m, name);
    CheckpointFieldAt(before, name);
    if PayloadName("checkpoint", name) {
      PayloadNames("checkpoint", name);
      MergedAt(before, source, evidence, p, name);
    }
  }

  /** The record's evidence: the supplied list, or else what it was. */
  lemma EvidenceUpdated(before: Fields, source: string, evidence: seq<string>, p: Patch)
    ensures var after := Texts(Merge(before, source, evidence, p), "evidence_refs");
      after == if Supplied(p, "evidence_refs").Some? then TextsIn(Supplied(p, "evidence_refs").value) else evidence
  {
    MergeOverlays(before, source, evidence, p);
    StringsTextsIn(evidence);
    assert At(Merge(before, source, evidence, p), "evidence_refs")
        == if Supplied(p, "evidence_refs").Some? then Supplied(p, "evidence_refs") else Some(Strings(evidence));
  }

  lemma StringsTextsIn(list: seq<string>)
    ensures TextsIn(Strings(list)) == list
  {
  }

  lemma FieldUpdated(n: Normal, kind: string, before: Fields, source: string, evidence: seq<string>, p: Patch,
                     name: string)
    requires KeepsEmpty(n)
    ensures var after := WritePayload(n, kind, Merge(before, source, evidence, p));
      At(after, name) == if Supplied(p, name).Some? then Written(n, kind, name, Supplied(p, name).value)
                         else At(WritePayload(n, kind, before), name)
  {
    if kind == "memo" {
      MemoFieldUpdated(n, before, source, evidence, p, name);
    } else {
      CheckpointFieldUpdated(before, source, evidence, p, name);
    }
  }

  // ---- When omitted fields are kept ----

  /** Writing the payload again changes nothing: it holds exactly what the service would write. */
  predicate Canonical(n: Normal, kind: string, fields: Fields) {
    WritePayload(n, kind, fields) == fields
  }

  lemma SameFields(a: Fields, b: Fields)
    requires forall name :: At(a, name) == At(b, name)
    ensures a == b
  {
    forall name ensures name in a <==> name in b { assert At(a, name) == At(b, name); }
    forall name | name in a ensures a[name] == b[name] { assert At(a, name) == At(b, name); }
  }

  lemma MemoCanonical(n: Normal, m: Fields)
    requires SoundNormal(n)
    ensures MemoPayload(n, MemoPayload(n, m)) == MemoPayload(n, m)
  {
    var once := MemoPayload(n, m);
    forall name ensures At(MemoPayload(n, once), name) == At(once, name) {
      MemoFieldAt(n, once, name);
      MemoFieldAt(n, m, name);
    }
    SameFields(MemoPayload(n, once), once);
  }

  lemma CheckpointCanonical(m: Fields)
    ensures CheckpointPayload(CheckpointPayload(m)) == CheckpointPayload(m)
  {
    var once := CheckpointPayload(m);
    forall name ensures At(CheckpointPayload(once), name) == At(once, name) {
      CheckpointFieldAt(once, name);
      CheckpointFieldAt(m, name);
      StringsTextsIn(Texts(m, name));
    }
    SameFields(CheckpointPayload(once), once);
  }

  /** Whatever the service writes is canonical. */
  lemma WrittenCanonical(n: Normal, kind: string, m: Fields)
    requires SoundNormal(n)
    ensures Canonical(n, kind, WritePayload(n, kind, m))
  {
    if kind == "memo" { MemoCanonical(n, m); } else { CheckpointCanonical(m); }
  }

  /** Every accepted update keeps every field it does not supply. */
  ghost predicate KeepsOmitted(n: Normal, kind: string, before: Fields, source: string, evidence: seq<string>) {
    forall p, name :: Accepted(n, kind, before, source, evidence, p) && Supplied(p, name).None?
      ==> At(WritePayload(n, kind, Merge(before, source, evidence, p)), name) == At(before, name)
  }

  /**
   Where an update that supplies nothing is accepted, every accepted update keeps what it omits if and
   only if the stored payload is canonical: a restored payload with other members loses them.
   */
  lemma OmittedKeptExactly(n: Normal, kind: string, before: Fields, source: string, evidence: seq<string>)
    requires KeepsEmpty(n)
    requires Accepted(n, kind, before, source, evidence, NOTHING)
    ensures KeepsOmitted(n, kind, before, source, evidence) <==> Canonical(n, kind, before)
  {
    if Canonical(n, kind, before) {
      forall p, name | Accepted(n, kind, before, source, evidence, p) && Supplied(p, name).None?
        ensures At(WritePayload(n, kind, Merge(before, source, evidence, p)), name) == At(before, name)
      {
        FieldUpdated(n, kind, before, source, evidence, p, name);
      }
    }
    if KeepsOmitted(n, kind, before, source, evidence) {
      forall name ensures At(WritePayload(n, kind, before), name) == At(before, name) {
        FieldUpdated(n, kind, before, source, evidence, NOTHING, name);
        assert Supplied(NOTHING, name).None?;
      }
      SameFields(WritePayload(n, kind, before), before);
    }
  }
}
