/**
 Reusing a stored result set instead of querying the catalog again. Requests, publishers, pruning and
 other writers of result sets interleave; each transaction is one event. A request, and so a refresh,
 ends within its time limit.
 */
module CatalogReuse {
  import opened Wrappers
  import opened Clocks
  import opened Catalog
  import opened CatalogRepository

  const REQUEST: int := 30 * SECOND          // the largest time limit a request may ask for
  const LIFETIME: int := 30 * MINUTE
  const MIN_REUSE: int := LIFETIME / 2

  /** What a query computes from a generation: its content, the query key and the execution flag. */
  type Query = (Content, string, bool) -> seq<string>

  datatype Work = Work(enabled: bool, key: string, items: seq<string>)

  /** A request that resolved its generation at `at`, then samples the clock, then computes its results. */
  datatype Build = Build(workspace: string, generation: string, at: int, now: Option<int>, work: Option<Work>)

  datatype World = World(tables: Tables, pending: map<nat, Build>, clock: int)

  datatype Event =
    | Tick(to: int)
    | Publish(id: string, g: Generation, sql: int)
    | Withdraw(workspace: string, sql: int)
    | Prune(workspace: string, now: int)
    | Reclaim(now: int, limit: nat)
    | Initialize(column: map<string, int>, now: int)
    | Resolve(call: nat, workspace: string)
    | Sample(call: nat)
    | Compute(call: nat, enabled: bool, key: string)
    | Persist(call: nat, id: string)
    | Other(id: string, s: ResultSet)

  // ---- The hashed query ----

  function Flag(enabled: bool): string { if enabled then "true" else "false" }

  /** What the query hash is taken of; the hash is treated as injective. */
  function Preimage(generation: string, enabled: bool, key: string): string {
    "catalog.v2" + ['\0'] + generation + ['\0'] + Flag(enabled) + ['\0'] + key
  }

  /** For one generation the preimage determines the flag and the key. */
  lemma PreimageInjective(generation: string, e: bool, k: string, e': bool, k': string)
    requires Preimage(generation, e, k) == Preimage(generation, e', k')
    ensures e == e' && k == k'
  {
    var prefix := "catalog.v2" + ['\0'] + generation + ['\0'];
    var a, b := Flag(e) + ['\0'] + k, Flag(e') + ['\0'] + k';
    assert Preimage(generation, e, k) == prefix + a && Preimage(generation, e', k') == prefix + b;
    assert a == (prefix + a)[|prefix|..] && b == (prefix + b)[|prefix|..];
    assert a[0] == Flag(e)[0] && b[0] == Flag(e')[0];
    assert k == a[|Flag(e)| + 1..] && k' == b[|Flag(e')| + 1..];
  }

  // ---- Events ----

  function StoredSet(b: Build): ResultSet
    requires b.now.Some? && b.work.Some?
  {
    var (now, work) := (b.now.value, b.work.value);
    ResultSet(b.workspace, Preimage(b.generation, work.enabled, work.key), b.generation, now, now + LIFETIME,
        work.items)
  }

  ghost predicate CatalogQuery(s: ResultSet) {
    exists e, k :: s.query == Preimage(s.generation, e, k)
  }

  /** The current generation, as Refresh returns it. */
  function Resolving(w: World, call: nat, workspace: string): World {
    var t := w.tables;
    if workspace in t.current && t.current[workspace] in t.generations && call !in w.pending
    then w.(pending := w.pending[call := Build(workspace, t.current[workspace], w.clock, None, None)]) else w
  }

  function Sampling(w: World, call: nat): World {
    if call in w.pending && w.pending[call].now.None?
    then w.(pending := w.pending[call := w.pending[call].(now := Some(w.clock))]) else w
  }

  /** The query, on whatever is stored under the resolved generation by now. */
  function Computing(w: World, query: Query, call: nat, enabled: bool, key: string): World {
    if call !in w.pending || w.pending[call].now.None? then w
    else
      var b := w.pending[call];
      if b.generation !in w.tables.generations then w.(pending := w.pending - {call})
      else
        var items := query(w.tables.generations[b.generation].content, key, enabled);
        w.(pending := w.pending[call := b.(work := Some(Work(enabled, key, items)))])
  }

  ghost function Persisting(w: World, call: nat, id: string): World {
    if call !in w.pending || w.pending[call].now.None? || w.pending[call].work.None? then w
    else
      var b := w.pending[call];
      var z := w.(pending := w.pending - {call});
      if w.clock > b.at + REQUEST then z
      else
        match Created(w.tables, id, StoredSet(b))
        case Some(t) => z.(tables := t)
        case None => z
  }

  /** A restart on the same tables: requests are lost and the tables initialized again. */
  ghost function Restarting(w: World, column: map<string, int>, now: int): World {
    w.(tables := Initialized(w.tables, column, now), pending := map[])
  }

  ghost function Publishing(w: World, id: string, g: Generation, sql: int): World {
    if g.created <= w.clock <= g.created + REQUEST && Published(w.tables, id, g, sql).Ok?
    then w.(tables := Published(w.tables, id, g, sql).value) else w
  }

  ghost function Storing(w: World, id: string, s: ResultSet): World {
    if s.created <= w.clock && !CatalogQuery(s) && Created(w.tables, id, s).Some?
    then w.(tables := Created(w.tables, id, s).value) else w
  }

  ghost function Withdrawing(w: World, workspace: string, sql: int): World {
    if w.clock - REQUEST <= sql <= w.clock then w.(tables := Withdrawn(w.tables, workspace, sql)) else w
  }

  ghost function Pruning(w: World, workspace: string, now: int): World {
    if now <= w.clock then w.(tables := Pruned(w.tables, workspace, now - HOUR, now, RETIRED_BATCH)) else w
  }

  ghost function Reclaiming(w: World, now: int, limit: nat): World {
    if now <= w.clock then w.(tables := Reclaimed(w.tables, now, limit)) else w
  }

  function Ticking(w: World, to: int): World {
    if to > w.clock then w.(clock := to) else w
  }

  ghost function Step(w: World, query: Query, e: Event): World {
    match e
    case Tick(to) => Ticking(w, to)
    case Publish(id, g, sql) => Publishing(w, id, g, sql)
    case Withdraw(workspace, sql) => Withdrawing(w, workspace, sql)
    case Prune(workspace, now) => Pruning(w, workspace, now)
    case Reclaim(now, limit) => Reclaiming(w, now, limit)
    case Initialize(column, now) => Restarting(w, column, now)
    case Resolve(call, workspace) => Resolving(w, call, workspace)
    case Sample(call) => Sampling(w, call)
    case Compute(call, enabled, key) => Computing(w, query, call, enabled, key)
    case Persist(call, id) => Persisting(w, call, id)
    case Other(id, s) => Storing(w, id, s)
  }

  ghost function RunFrom(w: World, query: Query, events: seq<Event>): World {
    if events == [] then w else Step(RunFrom(w, query, events[..|events| - 1]), query, events[|events| - 1])
  }

  const EMPTY := Tables(map[], map[], map[], map[])

  /** The server coming up on these tables. */
  ghost function Opened(t: Tables, column: map<string, int>, now: int): World {
    World(Initialized(t, column, now), map[], now)
  }

  // ---- What backs a stored or pending result ----

  ghost predicate Backed(t: Tables, query: Query, generation: string, enabled: bool, key: string, items: seq<string>) {
    generation in t.generations && items == query(t.generations[generation].content, key, enabled)
  }

  /** The generation is current, or was still current at `since`. */
  ghost predicate Guarded(t: Tables, generation: string, since: int) {
    IsCurrent(t, generation) || (generation in t.retirements && t.retirements[generation] >= since)
  }

  ghost predicate BuildInv(t: Tables, query: Query, clock: int, b: Build) {
    && b.at <= clock && (b.now.Some? ==> b.now.value <= clock)
    && (clock <= b.at + REQUEST ==>
          && b.generation in t.generations && Guarded(t, b.generation, b.at - REQUEST)
          && (b.work.Some? ==>
              Backed(t, query, b.generation, b.work.value.enabled, b.work.value.key, b.work.value.items)))
  }

  ghost predicate SetInv(t: Tables, query: Query, clock: int, s: ResultSet) {
    s.expires > clock ==> forall e, k :: s.query == Preimage(s.generation, e, k) ==>
                            Backed(t, query, s.generation, e, k, s.items)
  }

  ghost predicate WorldInv(w: World, query: Query) {
    && Inv(w.tables)
    && (forall c :: c in w.pending ==> BuildInv(w.tables, query, w.clock, w.pending[c]))
    && (forall id :: id in w.tables.sets ==> SetInv(w.tables, query, w.clock, w.tables.sets[id]))
  }

  /** Generations that back something live survive unchanged, and stay guarded. */
  ghost predicate Carries(t: Tables, z: Tables, clock: int) {
    && (forall id :: id in z.sets ==> id in t.sets && z.sets[id] == t.sets[id])
    && (forall s :: s in t.sets && t.sets[s].expires > clock && t.sets[s].generation in t.generations ==>
          Same(t, z, t.sets[s].generation))
    && (forall g, since :: g in t.generations && Recent(since, clock) && Guarded(t, g, since) ==>
          Same(t, z, g) && Guarded(z, g, since))
  }

  /** When a request that is still allowed to run may have resolved its generation, less one request's time. */
  predicate Recent(since: int, clock: int) { clock - 2 * REQUEST <= since <= clock - REQUEST }

  ghost predicate Same(t: Tables, z: Tables, id: string) {
    id in t.generations && id in z.generations && z.generations[id] == t.generations[id]
  }

  lemma CarriedBuild(t: Tables, z: Tables, query: Query, clock: int, b: Build)
    requires Carries(t, z, clock) && BuildInv(t, query, clock, b)
    ensures BuildInv(z, query, clock, b)
  {
    if clock <= b.at + REQUEST {
      assert Same(t, z, b.generation) && Guarded(z, b.generation, b.at - REQUEST);
    }
  }

  lemma CarriedSet(t: Tables, z: Tables, query: Query, clock: int, id: string)
    requires Carries(t, z, clock) && id in z.sets && id in t.sets && SetInv(t, query, clock, t.sets[id])
    ensures SetInv(z, query, clock, z.sets[id])
  {
    var s := t.sets[id];
    if s.expires > clock {
      forall e, k | s.query == Preimage(s.generation, e, k) ensures Backed(z, query, s.generation, e, k, s.items) {
        assert Backed(t, query, s.generation, e, k, s.items);
        assert Same(t, z, s.generation);
      }
    }
  }

  lemma CarriedWorld(w: World, z: Tables, query: Query)
    requires WorldInv(w, query) && Inv(z) && Carries(w.tables, z, w.clock)
    ensures WorldInv(w.(tables := z), query)
  {
    forall c | c in w.pending ensures BuildInv(z, query, w.clock, w.pending[c]) {
      CarriedBuild(w.tables, z, query, w.clock, w.pending[c]);
    }
    forall id | id in z.sets ensures SetInv(z, query, w.clock, z.sets[id]) {
      CarriedSet(w.tables, z, query, w.clock, id);
    }
  }

  // ---- Each writer carries what is live ----

  lemma PublishGuards(t: Tables, id: string, g: Generation, sql: int, other: string, since: int)
    requires Inv(t) && Published(t, id, g, sql).Ok? && other in t.generations && Guarded(t, other, since)
    requires g.created >= since
    ensures Guarded(Published(t, id, g, sql).value, other, since)
  {
    var z := Published(t, id, g, sql).value;
    var w := g.workspace;
    assert z.current == t.current[w := id];
    if IsCurrent(t, other) {
      CurrentInWorkspace(t, other);
      var v := t.generations[other].workspace;
      if v != w || other == id {
        assert z.current[v] == other;
      } else {
        assert z.retirements[other] == g.created;
      }
    } else if other == id {
      assert z.current[w] == other;
    }
  }

  lemma PublishCarries(t: Tables, id: string, g: Generation, sql: int, clock: int)
    requires Inv(t) && Published(t, id, g, sql).Ok? && g.created <= clock <= g.created + REQUEST
    ensures Carries(t, Published(t, id, g, sql).value, clock)
  {
    var z := Published(t, id, g, sql).value;
    PublishServes(t, id, g, sql);
    forall other, since | other in t.generations && Recent(since, clock) && Guarded(t, other, since)
      ensures Same(t, z, other) && Guarded(z, other, since)
    {
      PublishGuards(t, id, g, sql, other, since);
    }
  }

  lemma WithdrawCarries(t: Tables, workspace: string, sql: int, clock: int)
    requires Inv(t) && clock - REQUEST <= sql <= clock
    ensures Carries(t, Withdrawn(t, workspace, sql), clock)
  {
    var z := Withdrawn(t, workspace, sql);
    forall other, since | other in t.generations && Recent(since, clock) && Guarded(t, other, since)
      ensures Same(t, z, other) && Guarded(z, other, since)
    {
      CurrentInWorkspace(t, other);
      var v := t.generations[other].workspace;
      assert IsCurrent(t, other) && v != workspace ==> z.current[v] == other;
    }
  }

  lemma PruneLeaves(t: Tables, workspace: string, now: int, id: string)
    requires Inv(t) && id in t.generations && (HasLiveSet(t, id, now) || Guarded(t, id, now - HOUR + 1))
    ensures Same(t, Pruned(t, workspace, now - HOUR, now, RETIRED_BATCH), id)
  {
    PruneSpares(t, workspace, now - HOUR, now, RETIRED_BATCH);
    if IsCurrent(t, id) { assert id !in Prunable(t, workspace, now - HOUR, now); }
  }

  lemma PruneGuards(t: Tables, workspace: string, now: int, id: string, since: int)
    requires Inv(t) && id in t.generations && Guarded(t, id, since) && since > now - HOUR
    ensures Same(t, Pruned(t, workspace, now - HOUR, now, RETIRED_BATCH), id)
    ensures Guarded(Pruned(t, workspace, now - HOUR, now, RETIRED_BATCH), id, since)
  {
    PruneLeaves(t, workspace, now, id);
    var z := Pruned(t, workspace, now - HOUR, now, RETIRED_BATCH);
    assert IsCurrent(z, id) <==> IsCurrent(t, id);
    PruneKeeps(t, workspace, now - HOUR, now, RETIRED_BATCH);
  }

  lemma PruneCarries(t: Tables, workspace: string, now: int, clock: int)
    requires Inv(t) && now <= clock
    ensures Carries(t, Pruned(t, workspace, now - HOUR, now, RETIRED_BATCH), clock)
  {
    var z := Pruned(t, workspace, now - HOUR, now, RETIRED_BATCH);
    forall s | s in t.sets && t.sets[s].expires > clock && t.sets[s].generation in t.generations
      ensures Same(t, z, t.sets[s].generation)
    {
      assert HasLiveSet(t, t.sets[s].generation, now);
      PruneLeaves(t, workspace, now, t.sets[s].generation);
    }
    forall other, since | other in t.generations && Recent(since, clock) && Guarded(t, other, since)
      ensures Same(t, z, other) && Guarded(z, other, since)
    {
      PruneGuards(t, workspace, now, other, since);
    }
  }

  lemma FewerSetsCarry(t: Tables, sets: map<string, ResultSet>, clock: int)
    requires forall id :: id in sets ==> id in t.sets && sets[id] == t.sets[id]
    ensures Carries(t, t.(sets := sets), clock)
  {
    assert forall id :: IsCurrent(t.(sets := sets), id) <==> IsCurrent(t, id);
  }

  // ---- Every event ----

  lemma AddSet(w: World, query: Query, id: string, s: ResultSet)
    requires WorldInv(w, query) && SetInv(w.tables, query, w.clock, s)
    ensures WorldInv(w.(tables := w.tables.(sets := w.tables.sets[id := s])), query)
  {
    var z := w.tables.(sets := w.tables.sets[id := s]);
    SetsLeaveInv(w.tables, z.sets);
    assert forall g :: IsCurrent(z, g) <==> IsCurrent(w.tables, g);
    forall c | c in w.pending ensures BuildInv(z, query, w.clock, w.pending[c]) {
      assert BuildInv(w.tables, query, w.clock, w.pending[c]);
    }
    forall i | i in z.sets ensures SetInv(z, query, w.clock, z.sets[i]) {
      assert SetInv(w.tables, query, w.clock, z.sets[i]);
    }
  }

  lemma CreateKeeps(w: World, query: Query, id: string, s: ResultSet)
    requires WorldInv(w, query) && SetInv(w.tables, query, w.clock, s) && Created(w.tables, id, s).Some?
    ensures WorldInv(w.(tables := Created(w.tables, id, s).value), query)
  {
    var z := Reclaimed(w.tables, s.created, EXPIRED_BATCH);
    SetsLeaveInv(w.tables, z.sets);
    FewerSetsCarry(w.tables, z.sets, w.clock);
    CarriedWorld(w, z, query);
    assert SetInv(z, query, w.clock, s);
    AddSet(w.(tables := z), query, id, s);
  }

  lemma DropPending(w: World, query: Query, call: nat)
    requires WorldInv(w, query)
    ensures WorldInv(w.(pending := w.pending - {call}), query)
  {
  }

  lemma PersistKeeps(w: World, query: Query, call: nat, id: string)
    requires WorldInv(w, query)
    ensures WorldInv(Persisting(w, call, id), query)
  {
    if call in w.pending && w.pending[call].now.Some? && w.pending[call].work.Some? {
      DropPending(w, query, call);
      var b := w.pending[call];
      assert BuildInv(w.tables, query, w.clock, b);
      var s := StoredSet(b);
      if w.clock <= b.at + REQUEST && Created(w.tables, id, s).Some? {
        forall e, k | s.query == Preimage(s.generation, e, k)
          ensures Backed(w.tables, query, s.generation, e, k, s.items)
        {
          PreimageInjective(s.generation, e, k, b.work.value.enabled, b.work.value.key);
        }
        CreateKeeps(w.(pending := w.pending - {call}), query, id, s);
      }
    }
  }

  lemma PendingKeeps(w: World, query: Query, call: nat, b: Build)
    requires WorldInv(w, query) && BuildInv(w.tables, query, w.clock, b)
    ensures WorldInv(w.(pending := w.pending[call := b]), query)
  {
  }

  lemma ResolveKeeps(w: World, query: Query, call: nat, workspace: string)
    requires WorldInv(w, query)
    ensures WorldInv(Resolving(w, call, workspace), query)
  {
    var z := Resolving(w, call, workspace);
    if z != w {
      assert IsCurrent(w.tables, w.tables.current[workspace]);
      PendingKeeps(w, query, call, z.pending[call]);
    }
  }

  lemma SampleKeeps(w: World, query: Query, call: nat)
    requires WorldInv(w, query)
    ensures WorldInv(Sampling(w, call), query)
  {
    if call in w.pending && w.pending[call].now.None? {
      assert BuildInv(w.tables, query, w.clock, w.pending[call]);
      PendingKeeps(w, query, call, w.pending[call].(now := Some(w.clock)));
    }
  }

  lemma ComputeKeeps(w: World, query: Query, call: nat, enabled: bool, key: string)
    requires WorldInv(w, query)
    ensures WorldInv(Computing(w, query, call, enabled, key), query)
  {
    if call in w.pending && w.pending[call].now.Some? {
      assert BuildInv(w.tables, query, w.clock, w.pending[call]);
      if w.pending[call].generation in w.tables.generations {
        PendingKeeps(w, query, call, Computing(w, query, call, enabled, key).pending[call]);
      } else {
        DropPending(w, query, call);
      }
    }
  }

  lemma RestartKeeps(w: World, query: Query, column: map<string, int>, now: int)
    requires WorldInv(w, query)
    ensures WorldInv(Restarting(w, column, now), query)
  {
    InitializeAgain(w.tables, column, now);
  }

  lemma TickKeeps(w: World, query: Query, to: int)
    requires WorldInv(w, query)
    ensures WorldInv(Ticking(w, to), query)
  {
    if to <= w.clock { return; }
    forall c | c in w.pending ensures BuildInv(w.tables, query, to, w.pending[c]) {
      assert BuildInv(w.tables, query, w.clock, w.pending[c]);
    }
    forall id | id in w.tables.sets ensures SetInv(w.tables, query, to, w.tables.sets[id]) {
      assert SetInv(w.tables, query, w.clock, w.tables.sets[id]);
    }
  }

  lemma PublishingKeeps(w: World, query: Query, id: string, g: Generation, sql: int)
    requires WorldInv(w, query)
    ensures WorldInv(Publishing(w, id, g, sql), query)
  {
    if g.created <= w.clock <= g.created + REQUEST && Published(w.tables, id, g, sql).Ok? {
      PublishKeeps(w.tables, id, g, sql);
      PublishCarries(w.tables, id, g, sql, w.clock);
      CarriedWorld(w, Published(w.tables, id, g, sql).value, query);
    }
  }

  lemma WithdrawingKeeps(w: World, query: Query, workspace: string, sql: int)
    requires WorldInv(w, query)
    ensures WorldInv(Withdrawing(w, workspace, sql), query)
  {
    if w.clock - REQUEST <= sql <= w.clock {
      WithdrawKeeps(w.tables, workspace, sql);
      WithdrawCarries(w.tables, workspace, sql, w.clock);
      CarriedWorld(w, Withdrawn(w.tables, workspace, sql), query);
    }
  }

  lemma PruningKeeps(w: World, query: Query, workspace: string, now: int)
    requires WorldInv(w, query)
    ensures WorldInv(Pruning(w, workspace, now), query)
  {
    if now <= w.clock {
      PruneKeeps(w.tables, workspace, now - HOUR, now, RETIRED_BATCH);
      PruneCarries(w.tables, workspace, now, w.clock);
      CarriedWorld(w, Pruned(w.tables, workspace, now - HOUR, now, RETIRED_BATCH), query);
    }
  }

  lemma ReclaimingKeeps(w: World, query: Query, now: int, limit: nat)
    requires WorldInv(w, query)
    ensures WorldInv(Reclaiming(w, now, limit), query)
  {
    var z := Reclaimed(w.tables, now, limit);
    SetsLeaveInv(w.tables, z.sets);
    FewerSetsCarry(w.tables, z.sets, w.clock);
    CarriedWorld(w, z, query);
  }

  lemma StoringKeeps(w: World, query: Query, id: string, s: ResultSet)
    requires WorldInv(w, query)
    ensures WorldInv(Storing(w, id, s), query)
  {
    if s.created <= w.clock && !CatalogQuery(s) && Created(w.tables, id, s).Some? { CreateKeeps(w, query, id, s); }
  }

  lemma StepKeeps(w: World, query: Query, e: Event)
    requires WorldInv(w, query)
    ensures WorldInv(Step(w, query, e), query)
  {
    match e {
      case Tick(to) => TickKeeps(w, query, to);
      case Publish(id, g, sql) => PublishingKeeps(w, query, id, g, sql);
      case Withdraw(workspace, sql) => WithdrawingKeeps(w, query, workspace, sql);
      case Prune(workspace, now) => PruningKeeps(w, query, workspace, now);
      case Reclaim(now, limit) => ReclaimingKeeps(w, query, now, limit);
      case Initialize(column, now) => RestartKeeps(w, query, column, now);
      case Resolve(call, workspace) => ResolveKeeps(w, query, call, workspace);
      case Sample(call) => SampleKeeps(w, query, call);
      case Compute(call, enabled, key) => ComputeKeeps(w, query, call, enabled, key);
      case Persist(call, id) => PersistKeeps(w, query, call, id);
      case Other(id, s) => StoringKeeps(w, query, id, s);
    }
  }

  lemma {:induction false} RunKeeps(w: World, query: Query, events: seq<Event>)
    requires WorldInv(w, query)
    ensures WorldInv(RunFrom(w, query, events), query)
  {
    if events != [] {
      RunKeeps(w, query, events[..|events| - 1]);
      StepKeeps(RunFrom(w, query, events[..|events| - 1]), query, events[|events| - 1]);
    }
  }

  // ---- Retirement rows, from any database the server comes up on ----

  lemma StepExact(w: World, query: Query, e: Event)
    requires Inv(w.tables)
    ensures Inv(Step(w, query, e).tables)
  {
    match e {
      case Tick(to) =>
      case Publish(id, g, sql) => if Published(w.tables, id, g, sql).Ok? { PublishKeeps(w.tables, id, g, sql); }
      case Withdraw(workspace, sql) => WithdrawKeeps(w.tables, workspace, sql);
      case Prune(workspace, now) => PruneKeeps(w.tables, workspace, now - HOUR, now, RETIRED_BATCH);
      case Reclaim(now, limit) => SetsLeaveInv(w.tables, Reclaimed(w.tables, now, limit).sets);
      case Initialize(column, now) => InitializeAgain(w.tables, column, now);
      case Resolve(call, workspace) =>
      case Sample(call) =>
      case Compute(call, enabled, key) =>
      case Persist(call, id) => PersistExact(w, call, id);
      case Other(id, s) => if Created(w.tables, id, s).Some? { CreateExact(w.tables, id, s); }
    }
  }

  lemma CreateExact(t: Tables, id: string, s: ResultSet)
    requires Inv(t) && Created(t, id, s).Some?
    ensures Inv(Created(t, id, s).value)
  {
    SetsLeaveInv(t, Created(t, id, s).value.sets);
  }

  lemma PersistExact(w: World, call: nat, id: string)
    requires Inv(w.tables)
    ensures Inv(Persisting(w, call, id).tables)
  {
    if call in w.pending && w.pending[call].now.Some? && w.pending[call].work.Some? {
      var s := StoredSet(w.pending[call]);
      if Created(w.tables, id, s).Some? { CreateExact(w.tables, id, s); }
    }
  }

  lemma {:induction false} RunExact(w: World, query: Query, events: seq<Event>)
    requires Inv(w.tables)
    ensures Inv(RunFrom(w, query, events).tables)
  {
    if events != [] {
      RunExact(w, query, events[..|events| - 1]);
      StepExact(RunFrom(w, query, events[..|events| - 1]), query, events[|events| - 1]);
    }
  }

  /**
   Whatever tables the server comes up on, a fresh, an existing or a recovered database: over every run
   retirement rows exist for exactly the generations that are not current, if and only if no row found at
   the start names a current generation.
   */
  lemma RetirementsExact(query: Query, t: Tables, column: map<string, int>, now: int)
    requires Referential(t)
    ensures (forall events :: Inv(RunFrom(Opened(t, column, now), query, events).tables))
       <==> forall id :: id in t.retirements ==> !IsCurrent(t, id)
  {
    var w := Opened(t, column, now);
    InitializeEstablishes(t, column, now);
    assert RunFrom(w, query, []) == w && w.tables == Initialized(t, column, now);
    if Inv(w.tables) {
      forall events ensures Inv(RunFrom(w, query, events).tables) { RunExact(w, query, events); }
    } else {
      assert !Inv(RunFrom(w, query, []).tables);
    }
  }

  // ---- Reuse ----

  /** Tables whose unexpired catalog sets hold what their queries give, as every run leaves them. */
  ghost predicate Vouched(t: Tables, query: Query, now: int) {
    forall id :: id in t.sets ==> SetInv(t, query, now, t.sets[id])
  }

  /** A new database, or one an earlier run left, is a good start. */
  lemma OpenedKeeps(query: Query, t: Tables, column: map<string, int>, now: int)
    requires Inv(t) && Vouched(t, query, now)
    ensures WorldInv(Opened(t, column, now), query)
  {
    InitializeAgain(t, column, now);
  }

  /**
   Whatever happened before, a set that firstPage finds for a generation, key and flag holds what the
   query would compute now from that generation, which is still stored.
   */
  lemma ReuseAgrees(query: Query, start: World, events: seq<Event>, workspace: string, generation: string,
                    enabled: bool, key: string, now: int, id: string)
    requires WorldInv(start, query)
    requires var w := RunFrom(start, query, events);
      && now <= w.clock <= now + REQUEST
      && Finds(w.tables, workspace, generation, Preimage(generation, enabled, key), now + MIN_REUSE, id)
    ensures var t := RunFrom(start, query, events).tables;
      && generation in t.generations && t.sets[id].items == query(t.generations[generation].content, key, enabled)
      && t.sets[id].expires > now + 900 * SECOND
  {
    RunKeeps(start, query, events);
    var w := RunFrom(start, query, events);
    assert SetInv(w.tables, query, w.clock, w.tables.sets[id]);
    assert Backed(w.tables, query, generation, enabled, key, w.tables.sets[id].items);
  }

  /**
   When nothing is found, the request stores what the query computes from the generation it resolved, under
   the hash of that query, for thirty minutes from the clock reading it took.
   */
  lemma PersistStores(query: Query, start: World, events: seq<Event>, call: nat, id: string)
    requires WorldInv(start, query)
    requires var w := RunFrom(start, query, events);
      && call in w.pending && w.pending[call].now.Some? && w.pending[call].work.Some?
      && w.clock <= w.pending[call].at + REQUEST && Created(w.tables, id, StoredSet(w.pending[call])).Some?
    ensures var w := RunFrom(start, query, events); var z := Step(w, query, Persist(call, id));
      var b := w.pending[call]; var work := b.work.value;
      && b.generation in w.tables.generations && id in z.tables.sets
      && z.tables.sets[id]
         == ResultSet(b.workspace, Preimage(b.generation, work.enabled, work.key), b.generation, b.now.value,
                b.now.value + 1800 * SECOND, query(w.tables.generations[b.generation].content, work.key, work.enabled))
  {
    RunKeeps(start, query, events);
    var w := RunFrom(start, query, events);
    assert BuildInv(w.tables, query, w.clock, w.pending[call]);
  }

  /** In particular from an empty database. */
  lemma EmptyStart(query: Query, now: int)
    ensures WorldInv(Opened(EMPTY, map[], now), query)
  {
    OpenedKeeps(query, EMPTY, map[], now);
  }
}
