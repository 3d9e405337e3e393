/**
 The reuse cache's table, for one project and workspace: observations are published, entries are
 used, quarantined and expired. Each operation is one transaction.
 */
module CacheStore {
  import opened Wrappers
  import opened Ordering
  import opened Clocks
  import opened CacheOutputs

  datatype State = Active | Quarantined

  /** What a completed run reports under a cache key. */
  datatype Observation = Observation(
    capability: string, revision: string, configuration: string, source: string,
    outputs: seq<Output>, refs: seq<string>, at: int, expires: int)

  /** A row; `origin` is the observation it was inserted for. */
  datatype Entry = Entry(
    origin: Observation, state: State, reason: string, outputs: seq<Output>, refs: seq<string>,
    observed: int, used: int, expires: int, observations: nat, hits: nat)

  type Table = map<string, Entry>

  // ---- The transactions ----

  predicate ValidKey(key: string) {
    Prefixed("hmac-sha256:", key) && |key| == 76
  }

  predicate ValidObservation(key: string, o: Observation) {
    && ValidKey(key) && o.capability != "" && o.revision != "" && o.configuration != "" && o.source != ""
    && o.at != ZERO_TIME && o.expires != ZERO_TIME && ValidOutputs(o.outputs)
  }

  function Inserted(o: Observation): Entry {
    Entry(o, Active, "", SortByPath(o.outputs), o.refs, o.at, o.at, o.expires, 1, 0)
  }

  /** A later observation: an entry whose outputs differ is quarantined, and never leaves quarantine. */
  function Observed(e: Entry, o: Observation): Entry {
    var seen := e.(observed := o.at, expires := o.expires, observations := e.observations + 1);
    if e.state.Quarantined? then seen
    else if Facts(e.outputs) != Facts(SortByPath(o.outputs))
           then seen.(state := Quarantined, reason := "output_mismatch")
    else if o.refs != [] then seen.(refs := o.refs)
    else seen
  }

  function Published(t: Table, key: string, o: Observation): Table {
    if !ValidObservation(key, o) then t
    else if key !in t then t[key := Inserted(o)]
    else t[key := Observed(t[key], o)]
  }

  function Used(t: Table, key: string, at: int): Table {
    if key in t && t[key].state.Active? then t[key := t[key].(used := at, hits := t[key].hits + 1)] else t
  }

  function Condemned(t: Table, key: string, reason: string, at: int): Table {
    if reason != "" && |reason| <= 128 && key in t
    then t[key := t[key].(state := Quarantined, reason := reason, observed := at)] else t
  }

  function Expiries(t: Table): map<string, int> { map k | k in t :: t[k].expires }

  function Expired(t: Table, now: int): set<string> { set k | k in t && t[k].expires <= now }

  /** The oldest `limit` expired entries go. */
  ghost function Swept(t: Table, now: int, limit: nat): Table {
    t - Batch(Expiries(t), Expired(t, now), limit)
  }

  datatype Event =
    | Publish(key: string, observation: Observation)
    | Use(key: string, at: int)
    | Quarantine(key: string, reason: string, at: int)
    | Expire(now: int, limit: nat)

  ghost function Apply(t: Table, e: Event): Table {
    match e
    case Publish(key, o) => Published(t, key, o)
    case Use(key, at) => Used(t, key, at)
    case Quarantine(key, reason, at) => Condemned(t, key, reason, at)
    case Expire(now, limit) => Swept(t, now, limit)
  }

  ghost function Run(events: seq<Event>): Table {
    if events == [] then map[] else Apply(Run(events[..|events| - 1]), events[|events| - 1])
  }

  // ---- What the entries remember, told from the events alone ----

  /** What was done to a key since its entry was inserted, the insertion first. */
  type Story = seq<Event>

  ghost function Told(stories: map<string, Story>, e: Event, after: Table): map<string, Story> {
    match e
    case Publish(key, o) =>
      if !ValidObservation(key, o) then stories
      else stories[key := (if key in stories then stories[key] else []) + [e]]
    case Use(key, at) => if key in stories then stories[key := stories[key] + [e]] else stories
    case Quarantine(key, reason, at) =>
      if reason != "" && |reason| <= 128 && key in stories then stories[key := stories[key] + [e]] else stories
    case Expire(now, limit) => map k | k in stories && k in after :: stories[k]
  }

  ghost function Stories(events: seq<Event>): map<string, Story> {
    if events == [] then map[]
    else
      var past := events[..|events| - 1];
      Told(Stories(past), events[|events| - 1], Run(events))
  }

  /** The story of an entry begins with its insertion. */
  predicate Begun(story: Story) {
    story != [] && story[0].Publish?
  }

  /** Every observation reports what the first one did, and nobody condemned the entry. */
  ghost predicate Clean(story: Story)
    requires Begun(story)
  {
    && (forall i :: 0 <= i < |story| && story[i].Publish? ==> SameReport(story[0].observation, story[i].observation))
    && (forall i :: 0 <= i < |story| ==> !story[i].Quarantine?)
  }

  ghost predicate SameReport(a: Observation, b: Observation) {
    FactSet(a.outputs) == FactSet(b.outputs)
  }

  function Earlier(story: Story): Story
    requires story != []
  { story[..|story| - 1] }

  function Latest(story: Story): Event
    requires story != []
  { story[|story| - 1] }

  /** The number of observations. */
  function Observations(story: Story): nat {
    if story == [] then 0 else Observations(Earlier(story)) + if Latest(story).Publish? then 1 else 0
  }

  /** The expiry that the last observation asked for. */
  function LastExpiry(story: Story): int
    requires Begun(story)
  {
    if Latest(story).Publish? then Latest(story).observation.expires else LastExpiry(Earlier(story))
  }

  /** When the entry was last observed or condemned. */
  function LastObserved(story: Story): int
    requires Begun(story)
  {
    match Latest(story)
    case Publish(_, o) => o.at
    case Quarantine(_, _, at) => at
    case _ => LastObserved(Earlier(story))
  }

  /** The number of uses while the entry was active. */
  ghost function Hits(story: Story): nat
    requires Begun(story)
  {
    if |story| == 1 then 0
    else Hits(Earlier(story)) + if Latest(story).Use? && Clean(Earlier(story)) then 1 else 0
  }

  /** The last such use, or the insertion. */
  ghost function LastUsed(story: Story): int
    requires Begun(story)
  {
    if |story| == 1 then story[0].observation.at
    else if Latest(story).Use? && Clean(Earlier(story)) then Latest(story).at
    else LastUsed(Earlier(story))
  }

  /** The qualifications of the last observation that gave any while the entry was active, or the first one's. */
  ghost function LastRefs(story: Story): seq<string>
    requires Begun(story)
  {
    if |story| == 1 then story[0].observation.refs
    else if Latest(story).Publish? && Clean(story) && Latest(story).observation.refs != []
    then Latest(story).observation.refs
    else LastRefs(Earlier(story))
  }

  /** Why the entry is quarantined: the last condemnation, or else the first observation that differed. */
  ghost function LastReason(story: Story): string
    requires Begun(story)
  {
    if Clean(story) then ""
    else if Latest(story).Quarantine? then Latest(story).reason
    else if Clean(Earlier(story)) then "output_mismatch"
    else LastReason(Earlier(story))
  }

  /** An entry's row against its story, column by column. */
  ghost predicate Faithful(e: Entry, story: Story) {
    && Begun(story) && e.origin == story[0].observation
    && ValidOutputs(e.outputs) && InPathOrder(e.outputs) && FactSet(e.outputs) == FactSet(e.origin.outputs)
    && e.outputs == SortByPath(e.origin.outputs)
    && (e.state.Active? <==> Clean(story)) && e.reason == LastReason(story)
    && e.observations == Observations(story) && e.observed == LastObserved(story) && e.expires == LastExpiry(story)
    && e.hits == Hits(story) && e.used == LastUsed(story) && e.refs == LastRefs(story)
  }

  ghost predicate AllFaithful(t: Table, stories: map<string, Story>) {
    t.Keys == stories.Keys && forall k :: k in t ==> Faithful(t[k], stories[k])
  }

  lemma InsertedFaithful(key: string, o: Observation)
    requires ValidObservation(key, o)
    ensures Faithful(Inserted(o), [Publish(key, o)])
  {
    SortValid(o.outputs);
    SortOrdered(o.outputs);
    SortKeepsFacts(o.outputs);
    assert Earlier([Publish(key, o)]) == [];
  }

  lemma SameFactsSameSet(e: Entry, o: Observation)
    requires ValidOutputs(e.outputs) && InPathOrder(e.outputs) && ValidOutputs(o.outputs)
    ensures Facts(e.outputs) == Facts(SortByPath(o.outputs)) <==> FactSet(e.outputs) == FactSet(o.outputs)
  {
    SortValid(o.outputs);
    SortOrdered(o.outputs);
    SortKeepsFacts(o.outputs);
    OrderedAscends(e.outputs);
    OrderedAscends(SortByPath(o.outputs));
    if FactSet(e.outputs) == FactSet(o.outputs) { FactsUnique(e.outputs, SortByPath(o.outputs)); }
    if Facts(e.outputs) == Facts(SortByPath(o.outputs)) { SameFactSet(e.outputs, SortByPath(o.outputs)); }
  }

  /** The story goes on. */
  lemma CleanNext(story: Story, e: Event)
    requires Begun(story)
    ensures Begun(story + [e]) && Earlier(story + [e]) == story && Latest(story + [e]) == e
    ensures Clean(story + [e]) <==>
            Clean(story) && !e.Quarantine? && (e.Publish? ==> SameReport(story[0].observation, e.observation))
  {
    var longer := story + [e];
    if Clean(longer) {
      forall i | 0 <= i < |story| ensures !story[i].Quarantine? { assert longer[i] == story[i]; }
      forall i | 0 <= i < |story| && story[i].Publish?
        ensures SameReport(story[0].observation, story[i].observation)
      {
        assert longer[i] == story[i];
      }
      assert longer[|story|] == e;
    }
  }

  lemma ObservedFaithful(e: Entry, story: Story, key: string, o: Observation)
    requires Faithful(e, story) && ValidOutputs(o.outputs)
    ensures Faithful(Observed(e, o), story + [Publish(key, o)])
  {
    SameFactsSameSet(e, o);
    CleanNext(story, Publish(key, o));
  }

  lemma OneChanges(t: Table, stories: map<string, Story>, key: string, e: Entry, story: Story)
    requires AllFaithful(t, stories) && Faithful(e, story)
    ensures AllFaithful(t[key := e], stories[key := story])
  {
  }

  lemma SomeGo(t: Table, stories: map<string, Story>, gone: set<string>)
    requires AllFaithful(t, stories)
    ensures AllFaithful(t - gone, map k | k in stories && k in t - gone :: stories[k])
  {
  }

  lemma PublishFaithful(t: Table, stories: map<string, Story>, key: string, o: Observation)
    requires AllFaithful(t, stories) && ValidObservation(key, o)
    ensures AllFaithful(Published(t, key, o), Told(stories, Publish(key, o), Published(t, key, o)))
  {
    if key in t {
      ObservedFaithful(t[key], stories[key], key, o);
      OneChanges(t, stories, key, Observed(t[key], o), stories[key] + [Publish(key, o)]);
    } else {
      InsertedFaithful(key, o);
      assert [] + [Publish(key, o)] == [Publish(key, o)];
      OneChanges(t, stories, key, Inserted(o), [Publish(key, o)]);
    }
  }

  lemma UsedFaithful(e: Entry, story: Story, key: string, at: int)
    requires Faithful(e, story)
    ensures Faithful(if e.state.Active? then e.(used := at, hits := e.hits + 1) else e, story + [Use(key, at)])
  {
    CleanNext(story, Use(key, at));
  }

  lemma CondemnedFaithful(e: Entry, story: Story, key: string, reason: string, at: int)
    requires Faithful(e, story)
    ensures Faithful(e.(state := Quarantined, reason := reason, observed := at), story + [Quarantine(key, reason, at)])
  {
    CleanNext(story, Quarantine(key, reason, at));
  }

  lemma UseFaithful(t: Table, stories: map<string, Story>, key: string, at: int)
    requires AllFaithful(t, stories)
    ensures AllFaithful(Used(t, key, at), Told(stories, Use(key, at), Used(t, key, at)))
  {
    if key in t {
      var e := t[key];
      UsedFaithful(e, stories[key], key, at);
      OneChanges(t, stories, key, if e.state.Active? then e.(used := at, hits := e.hits + 1) else e,
          stories[key] + [Use(key, at)]);
      assert t[key := t[key]] == t;
    }
  }

  lemma CondemnFaithful(t: Table, stories: map<string, Story>, key: string, reason: string, at: int)
    requires AllFaithful(t, stories)
    ensures AllFaithful(Condemned(t, key, reason, at),
        Told(stories, Quarantine(key, reason, at), Condemned(t, key, reason, at)))
  {
    if key in t {
      CondemnedFaithful(t[key], stories[key], key, reason, at);
      OneChanges(t, stories, key, t[key].(state := Quarantined, reason := reason, observed := at),
          stories[key] + [Quarantine(key, reason, at)]);
    }
  }

  lemma ExpireFaithful(t: Table, stories: map<string, Story>, now: int, limit: nat)
    requires AllFaithful(t, stories)
    ensures AllFaithful(Swept(t, now, limit), Told(stories, Expire(now, limit), Swept(t, now, limit)))
  {
    SomeGo(t, stories, Batch(Expiries(t), Expired(t, now), limit));
  }

  lemma ApplyFaithful(t: Table, stories: map<string, Story>, e: Event)
    requires AllFaithful(t, stories)
    ensures AllFaithful(Apply(t, e), Told(stories, e, Apply(t, e)))
  {
    match e {
      case Publish(key, o) =>
        if ValidObservation(key, o) { PublishFaithful(t, stories, key, o); }
      case Use(key, at) =>
        UseFaithful(t, stories, key, at);
      case Quarantine(key, reason, at) =>
        CondemnFaithful(t, stories, key, reason, at);
      case Expire(now, limit) =>
        ExpireFaithful(t, stories, now, limit);
    }
  }

  /**
   After any operations: a row counts the observations since its insertion, keeps the first one's outputs,
   lives as long as the last one asked, is active exactly when they all agree and nobody condemned it, and
   counts the uses it had while active.
   */
  lemma {:induction false} RunFaithful(events: seq<Event>)
    ensures AllFaithful(Run(events), Stories(events))
  {
    if events != [] {
      var past := events[..|events| - 1];
      RunFaithful(past);
      ApplyFaithful(Run(past), Stories(past), events[|events| - 1]);
    }
  }

  /** Quarantine is left only by deletion. */
  lemma QuarantineSticks(t: Table, e: Event, key: string)
    requires key in t && t[key].state.Quarantined? && key in Apply(t, e)
    ensures Apply(t, e)[key].state.Quarantined? && Apply(t, e)[key].outputs == t[key].outputs
  {
  }

  lemma ExpiryCount(t: Table, now: int, limit: nat)
    ensures |t.Keys - Swept(t, now, limit).Keys| <= limit
  {
    assert t.Keys - Swept(t, now, limit).Keys == Batch(Expiries(t), Expired(t, now), limit);
  }

  /** Expiry deletes only expired entries, at most the limit, and leaves the others as they were. */
  lemma ExpiryBounds(t: Table, now: int, limit: nat)
    ensures |t.Keys - Swept(t, now, limit).Keys| <= limit
    ensures forall k :: k in t && k !in Swept(t, now, limit) ==> t[k].expires <= now
    ensures forall k :: k in Swept(t, now, limit) ==> k in t && Swept(t, now, limit)[k] == t[k]
  {
    var gone := Batch(Expiries(t), Expired(t, now), limit);
    assert t.Keys - Swept(t, now, limit).Keys == gone;
  }

  /** An expired entry is kept only when `limit` others went, each expired before it. */
  lemma ExpiryOldest(t: Table, now: int, limit: nat, kept: string)
    requires kept in Swept(t, now, limit) && t[kept].expires <= now
    ensures |t.Keys - Swept(t, now, limit).Keys| == limit
    ensures forall k :: k in t && k !in Swept(t, now, limit) ==>
              t[k].expires < t[kept].expires || (t[k].expires == t[kept].expires && Less(k, kept))
  {
    var gone := Batch(Expiries(t), Expired(t, now), limit);
    assert t.Keys - Swept(t, now, limit).Keys == gone;
    BatchIsBatch(Expiries(t), Expired(t, now), limit);
  }

  // ---- Hashes that must be kept ----

  predicate Serves(e: Entry, now: int) { e.state.Active? && e.expires > now }

  /** The entries that can still be reused: active and not expired. */
  function LiveKeys(t: Table, now: int): set<string> {
    set k | k in t && t[k].state.Active? && t[k].expires > now
  }

  /** The output hashes of every active entry that has not expired. */
  ghost function LiveHashes(t: Table, now: int): set<string> {
    set k, o | k in t && t[k].state.Active? && t[k].expires > now && o in t[k].outputs :: o.hash
  }

  function Hashes(outputs: seq<Output>): set<string> { set o | o in outputs :: o.hash }

  class CacheTable {
    var rows: Table

    constructor ()
      ensures rows == map[]
    {
      rows := map[];
    }

    /** PublishCacheObservation: None when the observation is refused. */
    method Publish(key: string, o: Observation) returns (r: Option<Entry>)
      modifies this
      ensures rows == Published(old(rows), key, o)
      ensures r.Some? <==> ValidObservation(key, o)
      ensures r.Some? ==> key in rows && r.value == rows[key]
    {
      var sorted := Sort(o.outputs);
      SortOrdered(o.outputs);
      SortValid(o.outputs);
      var ok := CheckOutputs(sorted);
      if !ok || !ValidKey(key) || o.capability == "" || o.revision == "" || o.configuration == "" || o.source == ""
         || o.at == ZERO_TIME || o.expires == ZERO_TIME {
        return None;
      }
      if key !in rows {
        var entry := Entry(o, Active, "", sorted, o.refs, o.at, o.at, o.expires, 1, 0);
        rows := rows[key := entry];
        return Some(entry);
      }
      var current := Observe(rows[key], o, sorted);
      rows := rows[key := current];
      return Some(current);
    }

    /** The update of a row that is already there. */
    static method Observe(row: Entry, o: Observation, sorted: seq<Output>) returns (current: Entry)
      requires sorted == SortByPath(o.outputs)
      ensures current == Observed(row, o)
    {
      current := row.(observed := o.at, expires := o.expires, observations := row.observations + 1);
      if !current.state.Quarantined? {
        var same := SameOutputs(current.outputs, sorted);
        if !same {
          current := current.(state := Quarantined, reason := "output_mismatch");
        }
      }
      if !current.state.Quarantined? && |o.refs| > 0 {
        current := current.(refs := o.refs);
      }
    }

    /** MarkCacheHit: only an active entry is used. */
    method Use(key: string, at: int) returns (found: bool)
      modifies this
      ensures rows == Used(old(rows), key, at)
      ensures found <==> key in old(rows) && old(rows)[key].state.Active?
    {
      if key !in rows || !rows[key].state.Active? {
        return false;
      }
      var e := rows[key];
      rows := rows[key := e.(used := at, hits := e.hits + 1)];
      return true;
    }

    /** QuarantineCacheEntry. */
    method Quarantine(key: string, reason: string, at: int) returns (found: bool)
      modifies this
      ensures rows == Condemned(old(rows), key, reason, at)
      ensures found <==> reason != "" && |reason| <= 128 && key in old(rows)
    {
      if reason == "" || |reason| > 128 || key !in rows {
        return false;
      }
      rows := rows[key := rows[key].(state := Quarantined, reason := reason, observed := at)];
      return true;
    }

    /** DeleteExpiredCacheEntries. */
    method Expire(now: int, limit: nat) returns (count: nat)
      modifies this
      ensures rows == Swept(old(rows), now, limit)
      ensures count == |old(rows).Keys - rows.Keys|
    {
      if limit == 0 {
        assert rows - {} == rows;
        assert rows.Keys - rows.Keys == {};
        return 0;
      }
      var gone := PickBatch(Expiries(rows), Expired(rows, now), limit);
      ghost var before := rows;
      rows := rows - gone;
      assert before.Keys - rows.Keys == gone;
      return |gone|;
    }

    /** ListProtectedCacheHashes: the hashes of live entries, complete unless there are more than `limit`. */
    method ProtectedHashes(now: int, limit: nat) returns (hashes: set<string>, complete: bool)
      ensures limit > 0 ==> (complete <==> |LiveKeys(rows, now)| <= limit)
      ensures limit == 0 ==> !complete
      ensures complete ==> hashes == LiveHashes(rows, now)
    {
      if limit == 0 {
        return {}, false;
      }
      var live := set k | k in rows && Serves(rows[k], now);
      assert live == LiveKeys(rows, now);
      var keys := SortKeys(live);
      hashes := {};
      var count := 0;
      while count < |keys| && count < limit
        invariant count <= |keys| && count <= limit
        invariant forall h :: h in hashes <==> exists i :: 0 <= i < count && keys[i] in rows
                                                 && h in Hashes(rows[keys[i]].outputs)
      {
        assert keys[count] in live;
        hashes := hashes + Hashes(rows[keys[count]].outputs);
        count := count + 1;
      }
      complete := |keys| <= limit;
      if complete { ServedByKeys(rows, now, keys, hashes); }
    }
  }

  lemma ServedByKeys(t: Table, now: int, keys: seq<string>, hashes: set<string>)
    requires forall k :: k in keys <==> k in t && Serves(t[k], now)
    requires forall h :: h in hashes <==> exists i :: 0 <= i < |keys| && keys[i] in t && h in Hashes(t[keys[i]].outputs)
    ensures hashes == LiveHashes(t, now)
  {
    forall h ensures h in hashes <==> h in LiveHashes(t, now) {
      if h in hashes {
        var i :| 0 <= i < |keys| && keys[i] in t && h in Hashes(t[keys[i]].outputs);
        assert keys[i] in keys;
        var o :| o in t[keys[i]].outputs && o.hash == h;
      }
      if h in LiveHashes(t, now) {
        var k, o :| k in t && t[k].state.Active? && t[k].expires > now && o in t[k].outputs && o.hash == h;
        assert Serves(t[k], now) && k in keys;
        var i :| 0 <= i < |keys| && keys[i] == k;
        assert h in Hashes(t[keys[i]].outputs);
      }
    }
  }
}
