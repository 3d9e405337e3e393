/** Inputs on which stored memos do less than one might expect, each with its exact condition. */
module RecordWitnesses {
  import opened Wrappers
  import opened JsonValues
  import opened Records
  import opened RecordArchives
  import opened RecordTransfers
  import opened RecordService
  import opened RecordSystem
  import opened RecordFields

  // ---- A member the service does not know ----

  /** A member outside the schema plays no part in what is written. */
  lemma UnknownMemberIgnored(n: Normal, fields: Fields, extra: string, x: Json)
    requires KeepsEmpty(n) && Canonical(n, "memo", fields) && !PayloadName("memo", extra)
    requires extra != "source" && extra != "evidence_refs"
    ensures MemoPayload(n, Merge(fields[extra := x], "user_asserted", [], NOTHING)) == fields
  {
    var before := fields[extra := x];
    var after := MemoPayload(n, Merge(before, "user_asserted", [], NOTHING));
    forall name ensures At(after, name) == At(fields, name) {
      MemoFieldUpdated(n, before, "user_asserted", [], NOTHING, name);
      MemoFieldAt(n, before, name);
      MemoFieldAt(n, fields, name);
    }
    SameFields(after, fields);
  }

  function RestoredMemo(text: string, fields: Fields): Record {
    Record("m", "memo", "memo.v1", "p", "w", 1, "user_asserted", "intention", "current", 1, 1,
           Payload(text, Some(JObject(fields))), [], "")
  }

  /** Restore, then an update that supplies nothing. */
  function EmptyUpdate(r: Record): seq<Action> {
    [RestoreArchive("p", "w", Archive([r], [RevisionOf(r)], [])), Load(0, "memo", "p", "w", "m", 1, NOTHING), Reload(0),
        Commit(0, 2)]
  }

  function OneRow(r: Record): Store {
    Store(map[r.id := r], map[(r.id, 1) := RevisionOf(r)], map[])
  }

  function EmptyCall(n: Normal, fields: Fields): Call {
    Prepared("memo", "p", "w", "m", 1, NOTHING, Rendered(n, fields), [])
  }

  lemma LoadsEmpty(n: Normal, text: string, fields: Fields, extra: string, x: Json)
    requires Droppable(n, text, fields, extra, x)
    ensures LoadCall(n, OneRow(RestoredMemo(text, fields[extra := x])), "memo", "p", "w", "m", 1, NOTHING)
        == Some(EmptyCall(n, fields))
  {
    UnknownMemberIgnored(n, fields, extra, x);
    EvidenceUpdated(fields[extra := x], "user_asserted", [], NOTHING);
  }

  lemma CommitsEmpty(n: Normal, text: string, fields: Fields, before: Fields)
    requires |n.render(JObject(fields))| <= MAX_PAYLOAD
    requires "topic_key" !in before && "topic_key" !in fields
    ensures var r := RestoredMemo(text, before); var k := ReloadCall(OneRow(r), EmptyCall(n, fields));
      && k.Some? && k.value.Ready? && k.value.request == Some(NOTHING) && k.value.kind == "memo"
      && k.value.update == Update("p", "w", "m", 1, Rendered(n, fields), [], "current", "")
      && UpdateRecord(OneRow(r), "memo", k.value.update, 2) == Ok(PutRow(OneRow(r), Updated(r, k.value.update, 2)))
  {
  }

  lemma RunAppend(n: Normal, actions: seq<Action>, a: Action)
    ensures Run(n, INITIAL, actions + [a]) == Step(n, Run(n, INITIAL, actions), a)
  {
    assert (actions + [a])[..|actions|] == actions;
  }

  ghost predicate Droppable(n: Normal, text: string, fields: Fields, extra: string, x: Json) {
    && KeepsEmpty(n) && Canonical(n, "memo", fields) && At(fields, "topic_key") == None
    && !PayloadName("memo", extra) && extra != "source" && extra != "evidence_refs"
    && Accepted(n, "memo", fields[extra := x], "user_asserted", [], NOTHING)
    && |text| <= MAX_PAYLOAD && |n.render(JObject(fields))| <= MAX_PAYLOAD
  }

  lemma NoTopic(fields: Fields, extra: string, x: Json)
    requires At(fields, "topic_key") == None && !PayloadName("memo", extra)
    ensures "topic_key" !in fields && "topic_key" !in fields[extra := x]
  {
    assert PayloadName("memo", "topic_key");
  }

  lemma AfterRestore(n: Normal, r: Record)
    requires Insertable(r) && r.project == "p" && r.workspace == "w"
    ensures Run(n, INITIAL, EmptyUpdate(r)[..1]) == System(OneRow(r), map[], [])
  {
    RestoreSingleton(r);
    RunAppend(n, [], EmptyUpdate(r)[0]);
    assert [] + [EmptyUpdate(r)[0]] == EmptyUpdate(r)[..1];
  }

  lemma AfterLoad(n: Normal, text: string, fields: Fields, extra: string, x: Json)
    requires Droppable(n, text, fields, extra, x)
    ensures var r := RestoredMemo(text, fields[extra := x]);
      Run(n, INITIAL, EmptyUpdate(r)[..2]) == System(OneRow(r), map[0 := EmptyCall(n, fields)], [])
  {
    var r := RestoredMemo(text, fields[extra := x]);
    AfterRestore(n, r);
    LoadsEmpty(n, text, fields, extra, x);
    RunAppend(n, EmptyUpdate(r)[..1], EmptyUpdate(r)[1]);
    assert EmptyUpdate(r)[..1] + [EmptyUpdate(r)[1]] == EmptyUpdate(r)[..2];
  }

  lemma AfterReload(n: Normal, text: string, fields: Fields, extra: string, x: Json) returns (k: Call)
    requires Droppable(n, text, fields, extra, x)
    ensures var r := RestoredMemo(text, fields[extra := x]);
      && ReloadCall(OneRow(r), EmptyCall(n, fields)) == Some(k)
      && Run(n, INITIAL, EmptyUpdate(r)[..3]) == System(OneRow(r), map[0 := k], [])
  {
    var r := RestoredMemo(text, fields[extra := x]);
    AfterLoad(n, text, fields, extra, x);
    NoTopic(fields, extra, x);
    CommitsEmpty(n, text, fields, fields[extra := x]);
    k := ReloadCall(OneRow(r), EmptyCall(n, fields)).value;
    RunAppend(n, EmptyUpdate(r)[..2], EmptyUpdate(r)[2]);
    assert EmptyUpdate(r)[..2] + [EmptyUpdate(r)[2]] == EmptyUpdate(r)[..3];
    Reloaded(n, OneRow(r), EmptyCall(n, fields), k);
  }

  lemma Reloaded(n: Normal, s: Store, prepared: Call, k: Call)
    requires prepared.Prepared? && ReloadCall(s, prepared) == Some(k)
    ensures Step(n, System(s, map[0 := prepared], []), Reload(0)) == System(s, map[0 := k], [])
  {
    assert map[0 := prepared][0 := k] == map[0 := k];
  }

  /**
   Any memo the service could have written, with one more member and restored from an archive, loses that
   member in an update that supplies nothing at all.
   */
  lemma RestoredMemberLost(n: Normal, text: string, fields: Fields, extra: string, x: Json)
    requires Droppable(n, text, fields, extra, x)
    ensures var y := Run(n, INITIAL, EmptyUpdate(RestoredMemo(text, fields[extra := x])));
      && y.wins == [Win("memo", "m", 1, Some(NOTHING))]
      && ("m", 1) in y.store.revisions && y.store.revisions[("m", 1)].payload.value == Some(JObject(fields[extra := x]))
      && ("m", 2) in y.store.revisions && y.store.revisions[("m", 2)].payload.value == Some(JObject(fields))
  {
    var r := RestoredMemo(text, fields[extra := x]);
    var k := AfterReload(n, text, fields, extra, x);
    NoTopic(fields, extra, x);
    CommitsEmpty(n, text, fields, fields[extra := x]);
    RunAppend(n, EmptyUpdate(r)[..3], EmptyUpdate(r)[3]);
    assert EmptyUpdate(r)[..3] + [EmptyUpdate(r)[3]] == EmptyUpdate(r);
    Committed(n, System(OneRow(r), map[0 := k], []), 2);
  }

  lemma Committed(n: Normal, y: System, now: int)
    requires 0 in y.calls && y.calls[0].Ready? && UpdateRecord(y.store, y.calls[0].kind, y.calls[0].update, now).Ok?
    ensures var z := Step(n, y, Commit(0, now)); var k := y.calls[0];
      && z.store == UpdateRecord(y.store, k.kind, k.update, now).value
      && z.wins == y.wins + [Win(k.kind, k.update.id, k.update.expected, k.request)]
  {
  }

  // ---- Memos that share a topic key ----

  /** The scope or the configuration is missing or null in one of the two, or differs. */
  predicate Apart(a: Json, b: Json) {
    || Extract(a, "scope").None? || Extract(b, "scope").None? || Extract(a, "scope") != Extract(b, "scope")
    || Extract(a, "configuration").None? || Extract(b, "configuration").None?
    || Extract(a, "configuration") != Extract(b, "configuration")
  }

  predicate CurrentMemo(r: Record, key: string) {
    r.kind == "memo" && r.validity == "current" && r.payload.value.Some?
        && Extract(r.payload.value.value, "topic_key") == Some(JString(key))
  }

  lemma TopicsCollide(a: Record, b: Record, key: string)
    requires CurrentMemo(a, key) && CurrentMemo(b, key) && key != "" && Owned(b, a.project, a.workspace)
    ensures TopicOf(a).Some? && TopicOf(a) == TopicOf(b) <==> !Apart(a.payload.value.value, b.payload.value.value)
  {
  }

  ghost predicate Coexist(n: Normal, actions: seq<Action>, a: Record, b: Record) {
    && (forall i :: 0 <= i < |actions| ==> ClockOk(actions[i]))
    && var rows := Run(n, INITIAL, actions).store.records;
       a.id in rows && rows[a.id] == a && b.id in rows && rows[b.id] == b
  }

  /**
   Two current memos of one identity with one topic key can be stored together exactly when the scope or
   the configuration is missing, null or different in one of them.
   */
  lemma SharedTopicCoexists(n: Normal, a: Record, b: Record, key: string)
    requires Insertable(a) && Insertable(b) && a.id != b.id && a.supersedes == "" && b.supersedes == ""
    requires CurrentMemo(a, key) && CurrentMemo(b, key) && key != "" && Owned(b, a.project, a.workspace)
    ensures (exists actions :: Coexist(n, actions, a, b)) <==> Apart(a.payload.value.value, b.payload.value.value)
  {
    TopicsCollide(a, b, key);
    if actions :| Coexist(n, actions, a, b) {
      ReachableSound(n, actions);
      var rows := Run(n, INITIAL, actions).store.records;
      assert !Collide(rows[a.id], rows[b.id]);
    }
    if Apart(a.payload.value.value, b.payload.value.value) { BothCreated(n, a, b); }
  }

  lemma BothCreated(n: Normal, a: Record, b: Record)
    requires Insertable(a) && Insertable(b) && a.id != b.id && !Collide(a, b)
    ensures Coexist(n, [Create(a), Create(b)], a, b)
  {
    RunAppend(n, [], Create(a));
    RunAppend(n, [Create(a)], Create(b));
    assert [] + [Create(a)] == [Create(a)] && [Create(a)] + [Create(b)] == [Create(a), Create(b)];
    assert Run(n, INITIAL, [Create(a)]).store == OneRow(a);
  }

  function TopicMemo(id: Id): Record {
    Record(id, "memo", "memo.v3", "p", "w", 1, "user_asserted", "intention", "current", 1, 1,
           Payload("{}", Some(JObject(map["topic_key" := JString("k")]))), [], "")
  }

  /** Such a pair: neither memo has a scope or a configuration. */
  lemma TwoCurrentMemos(n: Normal) returns (actions: seq<Action>)
    ensures Coexist(n, actions, TopicMemo("a"), TopicMemo("b")) && CurrentMemo(TopicMemo("a"), "k")
    ensures CurrentMemo(TopicMemo("b"), "k")
  {
    SharedTopicCoexists(n, TopicMemo("a"), TopicMemo("b"), "k");
    actions :| Coexist(n, actions, TopicMemo("a"), TopicMemo("b"));
  }

  /** The services always write both, so in their runs a topic key is held once per scope and configuration. */
  lemma ServiceTopicsUnique(n: Normal, actions: seq<Action>, a: Id, b: Id, key: string)
    requires SoundNormal(n) && ServiceRun(n, actions) && key != ""
    requires var rows := Run(n, INITIAL, actions).store.records;
      && a in rows && b in rows && CurrentMemo(rows[a], key) && CurrentMemo(rows[b], key)
      && Owned(rows[b], rows[a].project, rows[a].workspace)
    ensures var rows := Run(n, INITIAL, actions).store.records;
      a != b ==>
        var left, right := rows[a].payload.value.value, rows[b].payload.value.value;
        && Extract(left, "scope").Some? && Extract(left, "configuration").Some?
        && (Extract(left, "scope") != Extract(right, "scope")
            || Extract(left, "configuration") != Extract(right, "configuration"))
  {
    var s := Run(n, INITIAL, actions).store;
    ReachableSound(n, actions);
    ReachableCanonical(n, actions);
    LiveCanonical(n, s, a);
    LiveCanonical(n, s, b);
    MemoHasTopicFields(n, s.records[a].payload);
    MemoHasTopicFields(n, s.records[b].payload);
    TopicsCollide(s.records[a], s.records[b], key);
    assert a != b ==> !Collide(s.records[a], s.records[b]);
  }

  lemma MemoHasTopicFields(n: Normal, payload: Payload)
    requires CanonicalPayload(n, "memo", payload)
    ensures payload.value.Some? && Extract(payload.value.value, "scope").Some?
    ensures Extract(payload.value.value, "configuration").Some?
  {
    var fields := PayloadFields(payload).value;
    MemoFieldAt(n, fields, "scope");
    MemoFieldAt(n, fields, "configuration");
    assert At(fields, "scope") == Some(JString(Text(fields, "scope")));
    assert At(fields, "configuration") == Some(JString(Text(fields, "configuration")));
  }
}
