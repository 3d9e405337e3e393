/**
 Catalog generations: immutable snapshots of a workspace's capabilities, of which one per workspace
 is current. The others carry a retirement row; pruning follows it. Result sets refer to generations.
 */
module Catalog {
  import opened Wrappers
  import opened Ordering
  import opened Clocks

  /** `valid` says whether the document is JSON. */
  datatype Item = Item(id: string, revision: string, source: string, document: string, valid: bool)

  datatype Issue = Issue(code: string, source: string, detail: string, valid: bool)

  datatype Content = Content(items: seq<Item>, issues: seq<Issue>)

  datatype Generation = Generation(workspace: string, fingerprint: string, created: int, content: Content)

  datatype ResultSet = ResultSet(workspace: string, query: string, generation: string, created: int, expires: int,
      items: seq<string>)

  datatype Tables = Tables(
    generations: map<string, Generation>, current: map<string, string>,
    retirements: map<string, int>, sets: map<string, ResultSet>)

  datatype Refusal = Invalid | IdentityMismatch

  // ---- The invariant ----

  /** What the foreign keys and publishing guarantee: a workspace's current generation is one of its own. */
  ghost predicate Referential(t: Tables) {
    && "" !in t.generations
    && t.retirements.Keys <= t.generations.Keys
    && forall w :: w in t.current ==> t.current[w] in t.generations && t.generations[t.current[w]].workspace == w
  }

  predicate IsCurrent(t: Tables, id: string) {
    exists w :: w in t.current && t.current[w] == id
  }

  /** Retirement rows exist for exactly the generations that are not current. */
  ghost predicate Inv(t: Tables) {
    && Referential(t)
    && forall id :: id in t.retirements <==> id in t.generations && !IsCurrent(t, id)
  }

  lemma CurrentInWorkspace(t: Tables, id: string)
    requires Referential(t) && id in t.generations
    ensures IsCurrent(t, id) <==> t.generations[id].workspace in t.current
                                    && t.current[t.generations[id].workspace] == id
  {
  }

  // ---- Initialization ----

  /**
   initializeCatalogRetention. `column` holds the retired_at values of the pre-release schema when it
   is being recovered, and is empty otherwise. Rows already present win.
   */
  ghost function Initialized(t: Tables, column: map<string, int>, now: int): Tables {
    t.(retirements := Unobserved(t, now) + (Recovered(t, column) + t.retirements))
  }

  /** The rows the recovery statement offers. */
  function Recovered(t: Tables, column: map<string, int>): map<string, int> {
    map id | id in column && id in t.generations && !IsCurrent(t, id) :: column[id]
  }

  /** The rows the last statement offers: every generation that is not current. */
  function Unobserved(t: Tables, now: int): map<string, int> {
    map id | id in t.generations && !IsCurrent(t, id) :: now
  }

  /** Known retirement times are kept; unknown ones get a fresh grace period. */
  lemma InitializedTimes(t: Tables, column: map<string, int>, now: int, id: string)
    requires Referential(t) && id in Initialized(t, column, now).retirements
    ensures Initialized(t, column, now).retirements[id] ==
      if id in t.retirements then t.retirements[id] else if id in column then column[id] else now
  {
  }

  /** Initialization establishes the invariant exactly when no row it finds names a current generation. */
  lemma InitializeEstablishes(t: Tables, column: map<string, int>, now: int)
    requires Referential(t)
    ensures Inv(Initialized(t, column, now)) <==> forall id :: id in t.retirements ==> !IsCurrent(t, id)
  {
    var z := Initialized(t, column, now);
    assert forall id :: IsCurrent(z, id) <==> IsCurrent(t, id);
    assert forall id :: id in z.retirements <==> id in t.retirements || (id in t.generations && !IsCurrent(t, id));
  }

  /** A row that names a current generation is the input that fails: it survives initialization. */
  lemma StaleRowSurvives(now: int)
    ensures var g := Generation("w", "f", 0, Content([], []));
      var t := Tables(map["g" := g], map["w" := "g"], map["g" := 0], map[]);
      Referential(t) && IsCurrent(t, "g") && "g" in Initialized(t, map[], now).retirements
          && !Inv(Initialized(t, map[], now))
  {
    var t := Tables(map["g" := Generation("w", "f", 0, Content([], []))], map["w" := "g"], map["g" := 0], map[]);
    assert t.current["w"] == "g";
    InitializeEstablishes(t, map[], now);
  }

  /** Initializing again changes nothing. */
  lemma InitializeAgain(t: Tables, column: map<string, int>, now: int)
    requires Inv(t)
    ensures Initialized(t, column, now) == t
  {
    assert Unobserved(t, now).Keys <= t.retirements.Keys && Recovered(t, column).Keys <= t.retirements.Keys;
  }

  // ---- Publishing ----

  /** activateCatalogGeneration with the insert and update triggers; `clock` is the database's own clock. */
  function Activated(t: Tables, workspace: string, id: string, created: int, clock: int): Tables {
    if workspace !in t.current then
      t.(current := t.current[workspace := id], retirements := t.retirements - {id})
    else
      var previous := t.current[workspace];
      if previous == id then t
      else
        t.(current := t.current[workspace := id],
           retirements := t.retirements[previous := if previous != "" then created else clock] - {id})
  }

  lemma ActivatedCurrent(t: Tables, id: string, created: int, clock: int, other: string)
    requires Inv(t) && id in t.generations
    ensures var z := Activated(t, t.generations[id].workspace, id, created, clock);
      IsCurrent(z, other) <==>
          other == id || (IsCurrent(t, other) && t.generations[other].workspace != t.generations[id].workspace)
  {
    var w := t.generations[id].workspace;
    var z := Activated(t, w, id, created, clock);
    assert z.current == t.current[w := id];
    assert other == id ==> z.current[w] == other;
    if IsCurrent(t, other) && t.generations[other].workspace != w {
      assert z.current[t.generations[other].workspace] == other;
    }
  }

  lemma ActivatedKeeps(t: Tables, id: string, created: int, clock: int)
    requires Inv(t) && id in t.generations
    ensures Inv(Activated(t, t.generations[id].workspace, id, created, clock))
  {
    var w := t.generations[id].workspace;
    var z := Activated(t, w, id, created, clock);
    forall other ensures other in z.retirements <==> other in z.generations && !IsCurrent(z, other) {
      ActivatedCurrent(t, id, created, clock, other);
      if other in t.generations { CurrentInWorkspace(t, other); }
    }
  }

  predicate DistinctIDs(items: seq<Item>) {
    forall i, j :: 0 <= i < j < |items| ==> items[i].id != items[j].id
  }

  predicate ValidItem(item: Item) {
    item.id != "" && item.revision != "" && item.source != "" && item.valid
  }

  /** validateGeneration. */
  predicate Publishable(id: string, g: Generation) {
    && id != "" && g.workspace != "" && g.fingerprint != "" && g.created != ZERO_TIME && DistinctIDs(g.content.items)
    && (forall i :: 0 <= i < |g.content.items| ==> ValidItem(g.content.items[i]))
    && forall i :: 0 <= i < |g.content.issues| ==> g.content.issues[i].code != "" && g.content.issues[i].valid
  }

  /** PublishCatalogGeneration: an existing generation keeps its rows and is only made current again. */
  function Published(t: Tables, id: string, g: Generation, clock: int): Result<Tables, Refusal> {
    if !Publishable(id, g) then Err(Invalid)
    else if id !in t.generations then
      Ok(Activated(t.(generations := t.generations[id := g]), g.workspace, id, g.created, clock))
    else if t.generations[id].workspace != g.workspace || t.generations[id].fingerprint != g.fingerprint
           then Err(IdentityMismatch)
    else Ok(Activated(t, g.workspace, id, g.created, clock))
  }

  /** The inserted generation, were it retired at once. */
  function Retired(t: Tables, id: string, g: Generation): Tables {
    t.(generations := t.generations[id := g], retirements := t.retirements[id := 0])
  }

  lemma RetiredKeeps(t: Tables, id: string, g: Generation)
    requires Inv(t) && id !in t.generations && id != ""
    ensures Inv(Retired(t, id, g))
  {
    assert forall other :: IsCurrent(Retired(t, id, g), other) <==> IsCurrent(t, other);
  }

  /** Activation removes the retirement row, so inserting it first makes no difference. */
  lemma RetiredActivated(t: Tables, id: string, g: Generation, clock: int)
    requires Referential(t) && id !in t.generations
    ensures Activated(t.(generations := t.generations[id := g]), g.workspace, id, g.created, clock)
         == Activated(Retired(t, id, g), g.workspace, id, g.created, clock)
  {
    assert t.retirements - {id} == t.retirements[id := 0] - {id};
    if g.workspace in t.current {
      var previous := t.current[g.workspace];
      var stamp := if previous != "" then g.created else clock;
      assert t.retirements[previous := stamp] - {id} == t.retirements[id := 0][previous := stamp] - {id};
    }
  }

  lemma InsertedActivatedKeeps(t: Tables, id: string, g: Generation, clock: int)
    requires Inv(t) && id !in t.generations && id != ""
    ensures Inv(Activated(t.(generations := t.generations[id := g]), g.workspace, id, g.created, clock))
  {
    RetiredKeeps(t, id, g);
    RetiredActivated(t, id, g, clock);
    ActivatedKeeps(Retired(t, id, g), id, g.created, clock);
  }

  lemma PublishKeeps(t: Tables, id: string, g: Generation, clock: int)
    requires Inv(t) && Published(t, id, g, clock).Ok?
    ensures var z := Published(t, id, g, clock).value;
      Inv(z) && g.workspace in z.current && z.current[g.workspace] == id
  {
    if id in t.generations {
      ActivatedKeeps(t, id, g.created, clock);
    } else {
      InsertedActivatedKeeps(t, id, g, clock);
    }
  }

  /** Publishing never changes a generation that is already there. */
  lemma PublishImmutable(t: Tables, id: string, g: Generation, clock: int, other: string)
    requires Published(t, id, g, clock).Ok? && other in t.generations
    ensures other in Published(t, id, g, clock).value.generations
    ensures Published(t, id, g, clock).value.generations[other] == t.generations[other]
  {
  }

  /** What publishing leaves: only the replaced generation is retired, at the time the new one was created. */
  ghost predicate Replaced(t: Tables, z: Tables, id: string, g: Generation) {
    && z.current == t.current[g.workspace := id] && z.sets == t.sets
    && z.generations == (if id in t.generations then t.generations else t.generations[id := g])
    && (forall other :: other in z.retirements <==>
          other != id && (other in t.retirements || (g.workspace in t.current && t.current[g.workspace] == other)))
    && (forall other :: other in z.retirements ==>
          z.retirements[other]
          == if g.workspace in t.current && t.current[g.workspace] == other then g.created else t.retirements[other])
  }

  /** A generation is published exactly when it is valid and its id, if known, has its workspace and fingerprint. */
  lemma PublishExactly(t: Tables, id: string, g: Generation, clock: int)
    requires Inv(t)
    ensures Published(t, id, g, clock).Ok? <==>
            && Publishable(id, g)
            && (id in t.generations ==>
                  t.generations[id].workspace == g.workspace && t.generations[id].fingerprint == g.fingerprint)
    ensures Published(t, id, g, clock).Ok? ==> Replaced(t, Published(t, id, g, clock).value, id, g)
  {
    if Published(t, id, g, clock).Ok? {
      var u := if id in t.generations then t else t.(generations := t.generations[id := g]);
      ActivatedExactly(t, u, id, g, clock);
    }
  }

  lemma ActivatedExactly(t: Tables, u: Tables, id: string, g: Generation, clock: int)
    requires Inv(t) && u == t.(generations := if id in t.generations then t.generations else t.generations[id := g])
    requires id in t.generations ==> t.generations[id].workspace == g.workspace
    ensures Replaced(t, Activated(u, g.workspace, id, g.created, clock), id, g)
  {
    if g.workspace in t.current {
      var previous := t.current[g.workspace];
      assert IsCurrent(t, previous) && previous != "";
      if previous == id { assert t.current[g.workspace := id] == t.current; }
    }
  }

  // ---- Withdrawing ----

  /** A current_catalog row deleted by another tool, with the delete trigger. */
  function Withdrawn(t: Tables, workspace: string, clock: int): Tables {
    if workspace !in t.current then t
    else
      var id := t.current[workspace];
      t.(current := t.current - {workspace}, retirements := if id in t.generations then t.retirements[id := clock]
                                                              else t.retirements)
  }

  lemma WithdrawKeeps(t: Tables, workspace: string, clock: int)
    requires Inv(t)
    ensures Inv(Withdrawn(t, workspace, clock))
  {
    var z := Withdrawn(t, workspace, clock);
    if workspace in t.current {
      forall other ensures other in z.retirements <==> other in z.generations && !IsCurrent(z, other) {
        if other in t.generations { CurrentInWorkspace(t, other); }
        assert IsCurrent(t, other) && other != t.current[workspace] ==>
            z.current[t.generations[other].workspace] == other;
      }
    }
  }

  // ---- Pruning ----

  predicate HasLiveSet(t: Tables, id: string, now: int) {
    exists s :: s in t.sets && t.sets[s].generation == id && t.sets[s].expires > now
  }

  function Prunable(t: Tables, workspace: string, before: int, now: int): set<string> {
    set id | id in t.generations && t.generations[id].workspace == workspace && id in t.retirements
        && t.retirements[id] <= before
      && !IsCurrent(t, id) && !HasLiveSet(t, id, now)
  }

  /** DeleteRetiredCatalogGenerations: retirement rows go with their generations. */
  ghost function Pruned(t: Tables, workspace: string, before: int, now: int, limit: nat): Tables {
    var gone := Batch(t.retirements, Prunable(t, workspace, before, now), limit);
    t.(generations := t.generations - gone, retirements := t.retirements - gone)
  }

  lemma PruneKeeps(t: Tables, workspace: string, before: int, now: int, limit: nat)
    requires Inv(t)
    ensures Inv(Pruned(t, workspace, before, now, limit))
  {
    var z := Pruned(t, workspace, before, now, limit);
    assert forall id :: IsCurrent(z, id) <==> IsCurrent(t, id);
    assert forall w :: w in t.current ==> IsCurrent(t, t.current[w]);
  }

  /**
   What pruning selects: a generation of the workspace that was retired at or before the cutoff, that no
   workspace has as its current one and that no unexpired result set refers to.
   */
  ghost predicate MayGo(t: Tables, workspace: string, before: int, now: int, id: string) {
    && id in t.generations && t.generations[id].workspace == workspace
    && id in t.retirements && t.retirements[id] <= before
    && (forall w :: w in t.current ==> t.current[w] != id)
    && (forall s :: s in t.sets && t.sets[s].generation == id ==> t.sets[s].expires <= now)
  }

  lemma PrunableExactly(t: Tables, workspace: string, before: int, now: int, id: string)
    ensures id in Prunable(t, workspace, before, now) <==> MayGo(t, workspace, before, now, id)
  {
  }

  /** Pruning takes only what may go, at most `limit` of it, and leaves everything else as it was. */
  lemma PruneSpares(t: Tables, workspace: string, before: int, now: int, limit: nat)
    ensures var z := Pruned(t, workspace, before, now, limit);
      && |t.generations.Keys - z.generations.Keys| <= limit
      && (forall id :: id in z.generations ==> id in t.generations && z.generations[id] == t.generations[id])
      && (forall id :: id in t.generations && id !in z.generations ==> MayGo(t, workspace, before, now, id))
      && (forall id :: id in z.retirements <==> id in t.retirements && (id in t.generations ==> id in z.generations))
      && (forall id :: id in z.retirements ==> z.retirements[id] == t.retirements[id])
      && z.current == t.current && z.sets == t.sets
  {
    GoneKeys(t.generations, Batch(t.retirements, Prunable(t, workspace, before, now), limit));
    forall id | id in t.generations && id !in Pruned(t, workspace, before, now, limit).generations
      ensures MayGo(t, workspace, before, now, id)
    {
      PrunableExactly(t, workspace, before, now, id);
    }
  }

  lemma GoneKeys(generations: map<string, Generation>, gone: set<string>)
    requires gone <= generations.Keys
    ensures generations.Keys - (generations - gone).Keys == gone
    ensures forall id :: id in generations && id !in generations - gone ==> id in gone
  {
  }

  /** A generation that may go is kept only when `limit` others went, each retired before it. */
  lemma PruneOldest(t: Tables, workspace: string, before: int, now: int, limit: nat, kept: string)
    requires MayGo(t, workspace, before, now, kept) && kept in Pruned(t, workspace, before, now, limit).generations
    ensures var z := Pruned(t, workspace, before, now, limit);
      && |t.generations.Keys - z.generations.Keys| == limit
      && forall id :: id in t.generations && id !in z.generations ==>
           && id in t.retirements
           && (|| t.retirements[id] < t.retirements[kept]
               || (t.retirements[id] == t.retirements[kept] && Less(id, kept)))
  {
    var ids := Prunable(t, workspace, before, now);
    var gone := Batch(t.retirements, ids, limit);
    PrunableExactly(t, workspace, before, now, kept);
    assert t.generations.Keys - (t.generations - gone).Keys == gone;
    BatchIsBatch(t.retirements, ids, limit);
  }

  // ---- Result sets ----

  function Expiries(sets: map<string, ResultSet>): map<string, int> { map s | s in sets :: sets[s].expires }

  function ExpiredSets(sets: map<string, ResultSet>, now: int): set<string> {
    set s | s in sets && sets[s].expires <= now
  }

  /** DeleteExpiredResultSets. */
  ghost function Reclaimed(t: Tables, now: int, limit: nat): Tables {
    t.(sets := t.sets - Batch(Expiries(t.sets), ExpiredSets(t.sets, now), limit))
  }

  const EXPIRED_BATCH: nat := 64

  predicate ValidSet(id: string, s: ResultSet) {
    id != "" && s.workspace != "" && s.query != "" && s.generation != "" && s.created != ZERO_TIME
        && s.expires > s.created
  }

  /** CreateResultSet: reclaim a batch of expired sets, then insert; a clashing id rolls both back. */
  ghost function Created(t: Tables, id: string, s: ResultSet): Option<Tables> {
    if !ValidSet(id, s) then None
    else
      var z := Reclaimed(t, s.created, EXPIRED_BATCH);
      if id in z.sets then None else Some(z.(sets := z.sets[id := s]))
  }

  lemma ReclaimSpares(t: Tables, now: int, limit: nat, id: string)
    requires id in t.sets && t.sets[id].expires > now
    ensures id in Reclaimed(t, now, limit).sets && Reclaimed(t, now, limit).sets[id] == t.sets[id]
  {
  }

  /** Only expired sets are reclaimed, at most `limit` of them, and the others stay as they were. */
  lemma ReclaimOnly(t: Tables, now: int, limit: nat)
    ensures var z := Reclaimed(t, now, limit);
      && |t.sets.Keys - z.sets.Keys| <= limit
      && (forall id :: id in z.sets ==> id in t.sets && z.sets[id] == t.sets[id])
      && (forall id :: id in t.sets && id !in z.sets ==> t.sets[id].expires <= now)
  {
    var gone := Batch(Expiries(t.sets), ExpiredSets(t.sets, now), limit);
    assert t.sets.Keys - (t.sets - gone).Keys == gone;
  }

  /** An expired set is kept only when `limit` others went, each expired before it. */
  lemma ReclaimOldest(t: Tables, now: int, limit: nat, kept: string)
    requires kept in Reclaimed(t, now, limit).sets && t.sets[kept].expires <= now
    ensures var z := Reclaimed(t, now, limit);
      && |t.sets.Keys - z.sets.Keys| == limit
      && forall id :: id in t.sets && id !in z.sets ==>
           || t.sets[id].expires < t.sets[kept].expires
           || (t.sets[id].expires == t.sets[kept].expires && Less(id, kept))
  {
    var gone := Batch(Expiries(t.sets), ExpiredSets(t.sets, now), limit);
    assert t.sets.Keys - (t.sets - gone).Keys == gone;
    BatchIsBatch(Expiries(t.sets), ExpiredSets(t.sets, now), limit);
  }

  /** Creating a set reclaims at most 64 expired ones and is refused when its id is still taken. */
  lemma CreateReclaims(t: Tables, id: string, s: ResultSet)
    ensures var z := Reclaimed(t, s.created, 64);
      Created(t, id, s)
      == if ValidSet(id, s) && id !in z.sets then Some(z.(sets := z.sets[id := s])) else None
  {
  }

  lemma SetsLeaveInv(t: Tables, sets: map<string, ResultSet>)
    requires Inv(t)
    ensures Inv(t.(sets := sets))
  {
    assert forall id :: IsCurrent(t.(sets := sets), id) <==> IsCurrent(t, id);
  }

  ghost predicate Matches(t: Tables, id: string, workspace: string, generation: string, query: string) {
    id in t.sets && t.sets[id].workspace == workspace && t.sets[id].generation == generation
        && t.sets[id].query == query
  }

  /** FindResultSet: a matching set that lives past `minimum` and as long as any other. */
  ghost predicate Finds(t: Tables, workspace: string, generation: string, query: string, minimum: int, id: string) {
    && Matches(t, id, workspace, generation, query) && t.sets[id].expires > minimum
    && forall other :: Matches(t, other, workspace, generation, query) ==> t.sets[other].expires <= t.sets[id].expires
  }
}
