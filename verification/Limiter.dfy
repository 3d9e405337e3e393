/**
 The admission limiter: a bounded channel of request slots and a table of principals under one mutex.
 A table entry is a shared object, so entries live in a heap and calls keep a reference to theirs.
 Each critical section and each channel operation is one step; calls interleave between them.
 */
module Limiter {
  import opened Wrappers
  import opened Clocks

  const TWO_MINUTES: int := 2 * MINUTE
  const MAX_ENTRIES: nat := 1024

  datatype Config = Config(capacity: nat, per: int, rate: int)

  datatype Entry = Entry(minute: int, count: nat, active: int, seen: int)

  /** `states` maps principals to entries in `heap`; `next` is the next free address. */
  datatype Table = Table(heap: map<nat, Entry>, states: map<string, nat>, next: nat)

  datatype Phase =
    | Slotted(principal: string)                 // holds a slot
    | Timed(principal: string, now: int)         // has read the clock
    | Admitted(principal: string, entry: nat)    // being served
    | Leaving                                    // done or refused, slot not yet returned

  datatype Admission = Admission(principal: string, minute: int)

  /** `log` lists the admissions; `last` is the latest clock reading used under the mutex. */
  datatype World = World(slots: nat, table: Table, calls: map<nat, Phase>, log: seq<Admission>, last: int)

  datatype Event =
    | Enter(call: nat, principal: string)
    | Sample(call: nat, now: int)
    | Decide(call: nat)
    | Exit(call: nat, now: int)
    | Free(call: nat)

  /** now.Unix() / 60: whole seconds, divided toward zero. */
  function Minute(now: int): int {
    var s := now / SECOND;
    if s >= 0 then s / 60 else -((-s) / 60)
  }

  lemma MinuteMonotone(a: int, b: int)
    requires a <= b
    ensures Minute(a) <= Minute(b)
    ensures b - a > TWO_MINUTES ==> Minute(a) < Minute(b)
  {
  }

  // ---- Critical sections ----

  predicate Wellformed(t: Table) {
    && (forall p :: p in t.states ==> t.states[p] in t.heap && t.states[p] < t.next)
    && (forall p, q :: p in t.states && q in t.states && t.states[p] == t.states[q] ==> p == q)
  }

  predicate Stale(t: Table, p: string, now: int)
    requires p in t.states && t.states[p] in t.heap
  {
    now - t.heap[t.states[p]].seen > TWO_MINUTES && t.heap[t.states[p]].active == 0
  }

  function Evicted(t: Table, now: int): Table
    requires Wellformed(t)
  {
    if |t.states| >= MAX_ENTRIES then t.(states := map p | p in t.states && !Stale(t, p, now) :: t.states[p]) else t
  }

  /** The principal's entry, made if there is room. */
  function Found(t: Table, p: string): Option<Table> {
    if p in t.states then Some(t)
    else if |t.states| >= MAX_ENTRIES then None
    else Some(Table(t.heap[t.next := Entry(0, 0, 0, ZERO_TIME)], t.states[p := t.next], t.next + 1))
  }

  function Turned(e: Entry, minute: int): Entry {
    if e.minute != minute then e.(minute := minute, count := 0) else e
  }

  predicate Full(k: Config, e: Entry) { e.count >= k.rate || e.active >= k.per }

  /** The decision once the principal has an entry. */
  function Charged(k: Config, t: Table, p: string, now: int): (Table, bool)
    requires p in t.states && t.states[p] in t.heap
  {
    var e := Turned(t.heap[t.states[p]], Minute(now));
    if Full(k, e) then (t.(heap := t.heap[t.states[p] := e]), false)
    else (t.(heap := t.heap[t.states[p] := e.(count := e.count + 1, active := e.active + 1, seen := now)]), true)
  }

  /** acquire's critical section. */
  function Decided(k: Config, t: Table, p: string, now: int): (Table, bool)
    requires Wellformed(t)
  {
    var s := Evicted(t, now);
    match Found(s, p)
    case None => (s, false)
    case Some(f) => Charged(k, f, p, now)
  }

  function Released(t: Table, entry: nat, now: int): Table {
    if entry in t.heap then t.(heap := t.heap[entry := t.heap[entry].(active := t.heap[entry].active - 1, seen := now)])
        else t
  }

  // ---- Steps ----

  function Entering(k: Config, w: World, c: nat, p: string): World {
    if c !in w.calls && w.slots < k.capacity then w.(slots := w.slots + 1, calls := w.calls[c := Slotted(p)]) else w
  }

  function Sampling(w: World, c: nat, now: int): World {
    if c in w.calls && w.calls[c].Slotted? then w.(calls := w.calls[c := Timed(w.calls[c].principal, now)]) else w
  }

  function Deciding(k: Config, w: World, c: nat): World
    requires Wellformed(w.table)
  {
    if c !in w.calls || !w.calls[c].Timed? then w
    else
      var p, now := w.calls[c].principal, w.calls[c].now;
      var (t, ok) := Decided(k, w.table, p, now);
      if ok && p in t.states
      then w.(table := t, calls := w.calls[c := Admitted(p, t.states[p])], log := w.log + [Admission(p, Minute(now))],
          last := now)
      else w.(table := t, calls := w.calls[c := Leaving], last := now)
  }

  function Exiting(w: World, c: nat, now: int): World {
    if c in w.calls && w.calls[c].Admitted?
    then w.(table := Released(w.table, w.calls[c].entry, now), calls := w.calls[c := Leaving], last := now) else w
  }

  function Freeing(w: World, c: nat): World {
    if c in w.calls && w.calls[c].Leaving? && w.slots > 0 then w.(slots := w.slots - 1, calls := w.calls - {c}) else w
  }

  // ---- Counting calls ----

  ghost predicate Holds(w: World, c: nat, p: string) {
    c in w.calls && w.calls[c].Admitted? && w.calls[c].principal == p
  }

  ghost function Holders(w: World, p: string): set<nat> {
    set c | c in w.calls && w.calls[c].Admitted? && w.calls[c].principal == p
  }

  ghost predicate TableInv(k: Config, t: Table) {
    && Wellformed(t) && |t.states| <= MAX_ENTRIES
    && forall p :: p in t.states ==> t.heap[t.states[p]].active == 0 || t.heap[t.states[p]].active <= k.per
  }

  /** A listed entry counts exactly its principal's admitted calls. */
  ghost predicate Counted(w: World, p: string) {
    if p in w.table.states then w.table.states[p] in w.table.heap
        && w.table.heap[w.table.states[p]].active == |Holders(w, p)|
    else Holders(w, p) == {}
  }

  /** An admitted call's reference is the entry the table lists for its principal. */
  ghost predicate Refers(w: World, c: nat) {
    c in w.calls && w.calls[c].Admitted? ==> w.calls[c].principal in w.table.states
                                               && w.table.states[w.calls[c].principal] == w.calls[c].entry
  }

  ghost predicate Inv(k: Config, w: World) {
    && TableInv(k, w.table)
    && w.slots == |w.calls| <= k.capacity
    && (forall p :: Counted(w, p))
    && (forall c :: Refers(w, c))
  }

  function Step(k: Config, w: World, e: Event): World {
    match e
    case Enter(c, p) => Entering(k, w, c, p)
    case Sample(c, now) => Sampling(w, c, now)
    case Decide(c) => if Wellformed(w.table) then Deciding(k, w, c) else w
    case Exit(c, now) => Exiting(w, c, now)
    case Free(c) => Freeing(w, c)
  }

  // ---- What each step does to the table ----

  lemma EvictedKeeps(k: Config, t: Table, now: int)
    requires TableInv(k, t)
    ensures var z := Evicted(t, now);
      TableInv(k, z) && z.heap == t.heap && z.next == t.next
      && forall p :: p in t.states && t.heap[t.states[p]].active != 0 ==> p in z.states
  {
    var z := Evicted(t, now);
    assert z.states.Keys <= t.states.Keys;
    FewerKeys(z.states, t.states);
  }

  lemma FewerKeys(a: map<string, nat>, b: map<string, nat>)
    requires a.Keys <= b.Keys
    ensures |a| <= |b|
  {
    assert b.Keys == a.Keys + (b.Keys - a.Keys);
    assert |b.Keys| == |a.Keys| + |b.Keys - a.Keys|;
  }

  lemma FoundKeeps(k: Config, t: Table, p: string)
    requires TableInv(k, t) && Found(t, p).Some?
    ensures var z := Found(t, p).value;
      TableInv(k, z) && p in z.states && (forall q :: q in t.states ==> q in z.states && z.states[q] == t.states[q]
                                                                          && z.heap[z.states[q]] == t.heap[t.states[q]])
      && (forall q :: q in z.states && q !in t.states ==> q == p && z.heap[z.states[q]] == Entry(0, 0, 0, ZERO_TIME))
  {
    if p !in t.states {
      var z := Found(t, p).value;
      assert z.states.Keys == t.states.Keys + {p};
      assert |z.states.Keys| == |t.states.Keys| + 1;
    }
  }

  function ActiveOf(t: Table, p: string): int {
    if p in t.states && t.states[p] in t.heap then t.heap[t.states[p]].active else 0
  }

  lemma ChargedKeeps(k: Config, t: Table, p: string, now: int)
    requires TableInv(k, t) && p in t.states
    ensures var (z, ok) := Charged(k, t, p, now);
      TableInv(k, z) && z.states == t.states && ActiveOf(z, p) == ActiveOf(t, p) + (if ok then 1 else 0)
      && forall q :: q != p ==> ActiveOf(z, q) == ActiveOf(t, q)
  {
  }

  /** A decision: busy principals keep their entry, and only the admitted one's count changes. */
  lemma DecidedKeeps(k: Config, t: Table, p: string, now: int)
    requires TableInv(k, t)
    ensures var (z, ok) := Decided(k, t, p, now);
      TableInv(k, z) && (ok ==> p in z.states) && ActiveOf(z, p) == ActiveOf(t, p) + (if ok then 1 else 0)
      && (forall q :: q != p ==> ActiveOf(z, q) == ActiveOf(t, q))
      && (forall q :: ActiveOf(t, q) != 0 ==> q in z.states && z.states[q] == t.states[q])
  {
    var s := Evicted(t, now);
    EvictedKeeps(k, t, now);
    assert forall q :: ActiveOf(s, q) == ActiveOf(t, q);
    if Found(s, p).Some? {
      FoundKeeps(k, s, p);
      var f := Found(s, p).value;
      assert forall q :: ActiveOf(f, q) == ActiveOf(s, q);
      ChargedKeeps(k, f, p, now);
    }
  }

  lemma ReleasedKeeps(k: Config, t: Table, p: string, now: int)
    requires TableInv(k, t) && p in t.states && ActiveOf(t, p) > 0
    ensures var z := Released(t, t.states[p], now);
      TableInv(k, z) && z.states == t.states && ActiveOf(z, p) == ActiveOf(t, p) - 1
      && forall q :: q != p ==> ActiveOf(z, q) == ActiveOf(t, q)
  {
  }

  // ---- Every step keeps the invariant ----

  lemma SameHolders(w: World, z: World, c: nat, p: string)
    requires z.calls == w.calls - {c} || (c in z.calls && z.calls == w.calls[c := z.calls[c]])
    requires Holds(w, c, p) <==> Holds(z, c, p)
    ensures Holders(z, p) == Holders(w, p)
  {
    forall d ensures d in Holders(z, p) <==> d in Holders(w, p) {
      assert d == c ==> (d in Holders(z, p) <==> Holds(z, d, p));
    }
  }

  lemma OneMoreHolder(w: World, z: World, c: nat, p: string)
    requires c in z.calls && z.calls == w.calls[c := z.calls[c]] && !Holds(w, c, p) && Holds(z, c, p)
    ensures |Holders(z, p)| == |Holders(w, p)| + 1
  {
    assert Holders(z, p) == Holders(w, p) + {c};
  }

  lemma OneFewerHolder(w: World, z: World, c: nat, p: string)
    requires c in z.calls && z.calls == w.calls[c := z.calls[c]] && Holds(w, c, p) && !Holds(z, c, p)
    ensures |Holders(z, p)| == |Holders(w, p)| - 1
  {
    assert Holders(w, p) == Holders(z, p) + {c};
  }

  lemma ActiveCounts(w: World, p: string)
    requires Counted(w, p)
    ensures ActiveOf(w.table, p) == |Holders(w, p)|
  {
  }

  /** A step that leaves the table and every admitted call alone. */
  lemma QuietKeeps(k: Config, w: World, z: World, c: nat)
    requires Inv(k, w) && z.table == w.table && z.slots == |z.calls| <= k.capacity
    requires z.calls == w.calls - {c} || (c in z.calls && z.calls == w.calls[c := z.calls[c]] && !z.calls[c].Admitted?)
    requires c in w.calls ==> !w.calls[c].Admitted?
    ensures Inv(k, z)
  {
    forall p ensures Counted(z, p) {
      assert Counted(w, p);
      SameHolders(w, z, c, p);
    }
    forall d ensures Refers(z, d) {
      assert Refers(w, d);
    }
  }

  lemma EnteringKeeps(k: Config, w: World, c: nat, p: string)
    requires Inv(k, w)
    ensures Inv(k, Entering(k, w, c, p))
  {
    if c !in w.calls && w.slots < k.capacity {
      var z := Entering(k, w, c, p);
      assert z.calls.Keys == w.calls.Keys + {c};
      assert |z.calls.Keys| == |w.calls.Keys| + 1;
      QuietKeeps(k, w, z, c);
    }
  }

  lemma SamplingKeeps(k: Config, w: World, c: nat, now: int)
    requires Inv(k, w)
    ensures Inv(k, Sampling(w, c, now))
  {
    if c in w.calls && w.calls[c].Slotted? {
      var z := Sampling(w, c, now);
      assert z.calls.Keys == w.calls.Keys;
      assert |z.calls.Keys| == |w.calls.Keys|;
      QuietKeeps(k, w, z, c);
    }
  }

  lemma FreeingKeeps(k: Config, w: World, c: nat)
    requires Inv(k, w)
    ensures Inv(k, Freeing(w, c))
  {
    if c in w.calls && w.calls[c].Leaving? && w.slots > 0 {
      var z := Freeing(w, c);
      assert w.calls.Keys == z.calls.Keys + {c};
      assert |w.calls.Keys| == |z.calls.Keys| + 1;
      QuietKeeps(k, w, z, c);
    }
  }

  lemma SameSize(w: World, c: nat, phase: Phase)
    requires c in w.calls
    ensures |w.calls[c := phase]| == |w.calls|
  {
    assert w.calls[c := phase].Keys == w.calls.Keys;
    assert |w.calls[c := phase].Keys| == |w.calls.Keys|;
  }

  /** After a decision each principal's count still matches its admitted calls. */
  lemma DecidingCounts(k: Config, w: World, c: nat, q: string)
    requires Inv(k, w) && c in w.calls && w.calls[c].Timed?
    ensures Counted(Deciding(k, w, c), q)
  {
    var z := Deciding(k, w, c);
    var p, now := w.calls[c].principal, w.calls[c].now;
    DecidedKeeps(k, w.table, p, now);
    ActiveCounts(w, q);
    if z.calls[c] == Leaving || q != p {
      SameHolders(w, z, c, q);
    } else {
      OneMoreHolder(w, z, c, q);
    }
    assert ActiveOf(z.table, q) == |Holders(z, q)|;
  }

  lemma DecidingRefers(k: Config, w: World, c: nat, d: nat)
    requires Inv(k, w) && c in w.calls && w.calls[c].Timed?
    ensures Refers(Deciding(k, w, c), d)
  {
    DecidedKeeps(k, w.table, w.calls[c].principal, w.calls[c].now);
    assert Refers(w, d);
    if d != c && d in w.calls && w.calls[d].Admitted? {
      var q := w.calls[d].principal;
      ActiveCounts(w, q);
      assert d in Holders(w, q);
    }
  }

  lemma DecidingKeeps(k: Config, w: World, c: nat)
    requires Inv(k, w)
    ensures Inv(k, Deciding(k, w, c))
  {
    if c in w.calls && w.calls[c].Timed? {
      DecidedKeeps(k, w.table, w.calls[c].principal, w.calls[c].now);
      var z := Deciding(k, w, c);
      SameSize(w, c, z.calls[c]);
      forall q ensures Counted(z, q) { DecidingCounts(k, w, c, q); }
      forall d ensures Refers(z, d) { DecidingRefers(k, w, c, d); }
    }
  }

  lemma ExitingKeeps(k: Config, w: World, c: nat, now: int)
    requires Inv(k, w)
    ensures Inv(k, Exiting(w, c, now))
  {
    if c in w.calls && w.calls[c].Admitted? {
      var z := Exiting(w, c, now);
      var p := w.calls[c].principal;
      assert Refers(w, c);
      ActiveCounts(w, p);
      assert c in Holders(w, p);
      ReleasedKeeps(k, w.table, p, now);
      SameSize(w, c, Leaving);
      forall q ensures Counted(z, q) {
        ActiveCounts(w, q);
        if q == p { OneFewerHolder(w, z, c, q); } else { SameHolders(w, z, c, q); }
      }
      forall d ensures Refers(z, d) { assert Refers(w, d); }
    }
  }

  lemma StepKeeps(k: Config, w: World, e: Event)
    requires Inv(k, w)
    ensures Inv(k, Step(k, w, e))
  {
    match e {
      case Enter(c, p) => EnteringKeeps(k, w, c, p);
      case Sample(c, now) => SamplingKeeps(k, w, c, now);
      case Decide(c) => DecidingKeeps(k, w, c);
      case Exit(c, now) => ExitingKeeps(k, w, c, now);
      case Free(c) => FreeingKeeps(k, w, c);
    }
  }

  // ---- The limiter itself ----

  class AdmissionLimiter {
    const config: Config
    var slots: nat
    var heap: map<nat, Entry>
    var states: map<string, nat>
    var next: nat

    ghost function Now(): Table
      reads this
    {
      Table(heap, states, next)
    }

    constructor (k: Config)
      ensures config == k && slots == 0 && Now() == Table(map[], map[], 0) && TableInv(k, Now())
    {
      config, slots, heap, states, next := k, 0, map[], map[], 0;
    }

    /** The select on the channel: a slot, or an immediate refusal. */
    method TakeSlot() returns (ok: bool)
      modifies this`slots
      ensures ok <==> old(slots) < config.capacity
      ensures slots == if ok then old(slots) + 1 else old(slots)
    {
      ok := slots < config.capacity;
      if ok {
        slots := slots + 1;
      }
    }

    /** The sweep over all entries when the table is full. */
    method Evict(now: int)
      requires Wellformed(Now())
      modifies this`states
      ensures Now() == Evicted(old(Now()), now)
    {
      if |states| < MAX_ENTRIES {
        return;
      }
      var rest := states.Keys;
      ghost var t := Now();
      while rest != {}
        invariant rest <= states.Keys
        invariant states == map p | p in t.states && (p in rest || !Stale(t, p, now)) :: t.states[p]
        decreases rest
      {
        var p :| p in rest;
        rest := rest - {p};
        if now - heap[states[p]].seen > TWO_MINUTES && heap[states[p]].active == 0 {
          states := states - {p};
        }
      }
    }

    /** Look the principal up, or make room for it. */
    method Find(p: string) returns (found: bool)
      modifies this`heap, this`states, this`next
      ensures found <==> Found(old(Now()), p).Some?
      ensures Now() == if found then Found(old(Now()), p).value else old(Now())
    {
      if p !in states {
        if |states| >= MAX_ENTRIES {
          return false;
        }
        heap := heap[next := Entry(0, 0, 0, ZERO_TIME)];
        states := states[p := next];
        next := next + 1;
      }
      return true;
    }

    method Charge(p: string, now: int) returns (ok: bool)
      requires p in states && states[p] in heap
      modifies this`heap
      ensures (Now(), ok) == Charged(config, old(Now()), p, now)
    {
      var state := heap[states[p]];
      if state.minute != Minute(now) {
        state := state.(minute := Minute(now), count := 0);
      }
      ok := state.count < config.rate && state.active < config.per;
      if ok {
        state := state.(count := state.count + 1, active := state.active + 1, seen := now);
      }
      heap := heap[states[p] := state];
    }

    /** acquire's critical section; the result is the entry the caller now holds. */
    method Decide(p: string, now: int) returns (entry: Option<nat>)
      requires TableInv(config, Now())
      modifies this`heap, this`states, this`next
      ensures Now() == Decided(config, old(Now()), p, now).0 && TableInv(config, Now())
      ensures entry.Some? <==> Decided(config, old(Now()), p, now).1
      ensures entry.Some? ==> p in states && entry.value == states[p]
    {
      DecidedKeeps(config, Now(), p, now);
      EvictedKeeps(config, Now(), now);
      Evict(now);
      ghost var s := Now();
      var found := Find(p);
      if !found {
        return None;
      }
      FoundKeeps(config, s, p);
      var ok := Charge(p, now);
      return if ok then Some(states[p]) else None;
    }

    /** The release closure, which still refers to the entry it was given. */
    method Release(entry: nat, now: int)
      requires entry in heap && slots > 0
      modifies this`heap, this`slots
      ensures Now() == Released(old(Now()), entry, now) && slots == old(slots) - 1
    {
      heap := heap[entry := heap[entry].(active := heap[entry].active - 1, seen := now)];
      slots := slots - 1;
    }
  }
}
