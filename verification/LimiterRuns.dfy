/** What holds of the limiter over every interleaving of acquires and releases. */
module LimiterRuns {
  import opened Wrappers
  import opened Clocks
  import opened Ordering
  import opened Limiter

  function Start(): World {
    World(0, Table(map[], map[], 0), map[], [], 0)
  }

  function Run(k: Config, events: seq<Event>): World {
    if events == [] then Start() else Step(k, Run(k, events[..|events| - 1]), events[|events| - 1])
  }

  lemma {:induction false} RunKeeps(k: Config, events: seq<Event>)
    ensures Inv(k, Run(k, events))
  {
    if events != [] {
      RunKeeps(k, events[..|events| - 1]);
      StepKeeps(k, Run(k, events[..|events| - 1]), events[|events| - 1]);
    }
  }

  // ---- Conservation of slots ----

  function SumActive(t: Table, names: seq<string>): int {
    if names == [] then 0 else ActiveOf(t, names[0]) + SumActive(t, names[1..])
  }

  ghost function HeldBy(w: World, names: seq<string>): set<nat> {
    set c | c in w.calls && w.calls[c].Admitted? && w.calls[c].principal in names
  }

  /** Calls that hold a slot but are not being served: before their decision, or on the way out. */
  ghost function InTransit(w: World): set<nat> {
    set c | c in w.calls && !w.calls[c].Admitted?
  }

  lemma {:induction false} SumCounts(w: World, names: seq<string>)
    requires forall p :: Counted(w, p)
    requires forall i, j :: 0 <= i < j < |names| ==> names[i] != names[j]
    ensures SumActive(w.table, names) == |HeldBy(w, names)|
  {
    if names == [] {
      assert HeldBy(w, names) == {};
    } else {
      var p, rest := names[0], names[1..];
      SumCounts(w, rest);
      assert Counted(w, p);
      ActiveCounts(w, p);
      assert HeldBy(w, names) == Holders(w, p) + HeldBy(w, rest);
      assert Holders(w, p) !! HeldBy(w, rest);
    }
  }

  /** Slots in use are the listed principals' active calls plus the calls in transit, and every bound holds. */
  lemma SlotsConserved(k: Config, events: seq<Event>)
    ensures var w := Run(k, events);
      && w.slots == SumActive(w.table, InOrder(w.table.states.Keys)) + |InTransit(w)|
      && w.slots <= k.capacity && |w.table.states| <= MAX_ENTRIES
      && forall p :: p in w.table.states ==> 0 <= ActiveOf(w.table, p)
                                               && (ActiveOf(w.table, p) == 0 || ActiveOf(w.table, p) <= k.per)
  {
    RunKeeps(k, events);
    var w := Run(k, events);
    var names := InOrder(w.table.states.Keys);
    forall i, j | 0 <= i < j < |names| ensures names[i] != names[j] { LessIrreflexive(names[i]); }
    SumCounts(w, names);
    AllListed(w, names);
    forall p | p in w.table.states ensures 0 <= ActiveOf(w.table, p) {
      assert Counted(w, p);
    }
  }

  lemma AllListed(w: World, names: seq<string>)
    requires forall p :: Counted(w, p)
    requires forall p :: p in names <==> p in w.table.states
    ensures |w.calls| == |HeldBy(w, names)| + |InTransit(w)|
  {
    forall c | c in w.calls && w.calls[c].Admitted? ensures w.calls[c].principal in names {
      assert Counted(w, w.calls[c].principal);
      assert c in Holders(w, w.calls[c].principal);
    }
    assert w.calls.Keys == HeldBy(w, names) + InTransit(w);
    assert HeldBy(w, names) !! InTransit(w);
  }

  /** No step drops the entry of a principal with calls being served. */
  lemma BusyStaysListed(k: Config, events: seq<Event>, e: Event, p: string)
    requires Holders(Run(k, events), p) != {}
    ensures var t := Run(k, events).table; var z := Step(k, Run(k, events), e).table;
      p in t.states && p in z.states && z.states[p] == t.states[p]
  {
    RunKeeps(k, events);
    var w := Run(k, events);
    assert Counted(w, p);
    ActiveCounts(w, p);
    if e.Decide? && e.call in w.calls && w.calls[e.call].Timed? {
      DecidedKeeps(k, w.table, w.calls[e.call].principal, w.calls[e.call].now);
    }
  }

  // ---- The rate ----

  function Count(log: seq<Admission>, p: string, m: int): nat {
    if log == [] then 0
    else Count(log[..|log| - 1], p, m) + (if log[|log| - 1] == Admission(p, m) then 1 else 0)
  }

  lemma CountAppend(log: seq<Admission>, a: Admission, p: string, m: int)
    ensures Count(log + [a], p, m) == Count(log, p, m) + (if a == Admission(p, m) then 1 else 0)
  {
    assert (log + [a])[..|log|] == log;
  }

  function EntryOf(t: Table, p: string): Option<Entry> {
    if p in t.states && t.states[p] in t.heap then Some(t.heap[t.states[p]]) else None
  }

  /** A principal's admissions against its entry, if it has one. */
  ghost predicate Rated(k: Config, log: seq<Admission>, last: int, p: string, entry: Option<Entry>) {
    && (forall m :: Count(log, p, m) > 0 ==> Count(log, p, m) <= k.rate)
    && match entry
       case None => forall m :: Count(log, p, m) > 0 ==> m < Minute(last)
       case Some(e) =>
         && Count(log, p, e.minute) == e.count
         && e.minute <= Minute(last) && e.seen <= last
         && forall m :: Count(log, p, m) > 0 ==> m <= e.minute && (m <= Minute(e.seen) || m < e.minute)
  }

  ghost predicate RateInv(k: Config, w: World) {
    w.last >= 0 && forall p :: Rated(k, w.log, w.last, p, EntryOf(w.table, p))
  }

  /** The clock reading a step uses under the mutex, if it uses one, is no earlier than the one before. */
  ghost predicate Ordered(w: World, e: Event) {
    match e
    case Decide(c) => c in w.calls && w.calls[c].Timed? ==> w.calls[c].now >= w.last
    case Exit(c, now) => now >= w.last
    case _ => true
  }

  ghost predicate OrderedRun(k: Config, events: seq<Event>) {
    events != [] ==> OrderedRun(k, events[..|events| - 1])
                       && Ordered(Run(k, events[..|events| - 1]), events[|events| - 1])
  }

  predicate Gone(before: Option<Entry>, after: Option<Entry>, now: int) {
    before.Some? && now - before.value.seen > TWO_MINUTES && after.None?
  }

  /** Eviction and lookup: other entries stay or were stale; the principal's own stays or starts afresh. */
  lemma EvictedEntry(t: Table, now: int, q: string)
    requires Wellformed(t)
    ensures EntryOf(Evicted(t, now), q) == EntryOf(t, q) || Gone(EntryOf(t, q), EntryOf(Evicted(t, now), q), now)
  {
  }

  lemma LaterClock(k: Config, log: seq<Admission>, last: int, now: int, p: string, entry: Option<Entry>)
    requires Rated(k, log, last, p, entry) && last <= now
    ensures Rated(k, log, now, p, entry)
  {
    MinuteMonotone(last, now);
  }

  lemma EvictionRated(k: Config, log: seq<Admission>, now: int, p: string, before: Option<Entry>)
    requires Rated(k, log, now, p, before) && before.Some? && now - before.value.seen > TWO_MINUTES
    ensures Rated(k, log, now, p, None)
  {
    MinuteMonotone(before.value.seen, now);
  }

  lemma FreshRated(k: Config, log: seq<Admission>, now: int, p: string)
    requires Rated(k, log, now, p, None) && now >= 0
    ensures forall m :: Count(log, p, m) > 0 ==> m < Minute(now)
    ensures Rated(k, log, now, p, Some(Entry(Minute(now), 0, 0, ZERO_TIME)))
  {
  }

  lemma TurnedRated(k: Config, log: seq<Admission>, now: int, p: string, e: Entry)
    requires Rated(k, log, now, p, Some(e))
    ensures Rated(k, log, now, p, Some(Turned(e, Minute(now))))
  {
  }

  lemma AdmittedRated(k: Config, log: seq<Admission>, now: int, p: string, e: Entry)
    requires Rated(k, log, now, p, Some(e)) && e.minute == Minute(now) && !Full(k, e)
    ensures Rated(k, log + [Admission(p, Minute(now))], now, p,
        Some(e.(count := e.count + 1, active := e.active + 1, seen := now)))
  {
    forall m
      ensures Count(log + [Admission(p, Minute(now))], p, m) == Count(log, p, m) + (if m == Minute(now) then 1 else 0)
    {
      CountAppend(log, Admission(p, Minute(now)), p, m);
    }
  }

  lemma OtherRated(k: Config, log: seq<Admission>, now: int, p: string, a: Admission, entry: Option<Entry>)
    requires Rated(k, log, now, p, entry) && a.principal != p
    ensures Rated(k, log + [a], now, p, entry)
  {
    forall m ensures Count(log + [a], p, m) == Count(log, p, m) {
      CountAppend(log, a, p, m);
    }
  }

  /** The entry a decision charges: the surviving one, or a new one. */
  function Base(t: Table, p: string, now: int): Entry
    requires Wellformed(t)
  {
    match EntryOf(Evicted(t, now), p)
    case Some(e) => Turned(e, Minute(now))
    case None => Entry(Minute(now), 0, 0, ZERO_TIME)
  }

  lemma DecidedOthers(k: Config, t: Table, p: string, now: int, q: string)
    requires Wellformed(t) && q != p
    ensures EntryOf(Decided(k, t, p, now).0, q) == EntryOf(Evicted(t, now), q)
  {
  }

  lemma DecidedOwn(k: Config, t: Table, p: string, now: int)
    requires Wellformed(t)
    ensures var (z, ok) := Decided(k, t, p, now); var e := Base(t, p, now);
      if ok then !Full(k, e) && EntryOf(z, p) == Some(e.(count := e.count + 1, active := e.active + 1, seen := now))
      else EntryOf(z, p) == Some(e) || (EntryOf(z, p) == None && EntryOf(Evicted(t, now), p) == None)
  {
  }

  lemma EvictedRated(k: Config, log: seq<Admission>, now: int, t: Table, q: string)
    requires Wellformed(t) && Rated(k, log, now, q, EntryOf(t, q))
    ensures Rated(k, log, now, q, EntryOf(Evicted(t, now), q))
  {
    EvictedEntry(t, now, q);
    if Gone(EntryOf(t, q), EntryOf(Evicted(t, now), q), now) { EvictionRated(k, log, now, q, EntryOf(t, q)); }
  }

  lemma BaseRated(k: Config, log: seq<Admission>, now: int, t: Table, p: string)
    requires Wellformed(t) && Rated(k, log, now, p, EntryOf(t, p)) && now >= 0
    ensures Rated(k, log, now, p, Some(Base(t, p, now))) && Base(t, p, now).minute == Minute(now)
  {
    EvictedRated(k, log, now, t, p);
    match EntryOf(Evicted(t, now), p)
    case Some(e) => TurnedRated(k, log, now, p, e);
    case None => FreshRated(k, log, now, p);
  }

  lemma DecidingRated(k: Config, w: World, c: nat, q: string)
    requires Inv(k, w) && RateInv(k, w) && c in w.calls && w.calls[c].Timed? && w.calls[c].now >= w.last
    ensures var z := Deciding(k, w, c); Rated(k, z.log, z.last, q, EntryOf(z.table, q))
  {
    var p, now := w.calls[c].principal, w.calls[c].now;
    var z := Deciding(k, w, c);
    DecidedKeeps(k, w.table, p, now);
    LaterClock(k, w.log, w.last, now, q, EntryOf(w.table, q));
    EvictedRated(k, w.log, now, w.table, q);
    if q == p {
      BaseRated(k, w.log, now, w.table, p);
      DecidedOwn(k, w.table, p, now);
      var e := Base(w.table, p, now);
      if Decided(k, w.table, p, now).1 { AdmittedRated(k, w.log, now, p, e); }
    } else {
      DecidedOthers(k, w.table, p, now, q);
      OtherRated(k, w.log, now, q, Admission(p, Minute(now)), EntryOf(z.table, q));
    }
  }

  lemma ExitingRated(k: Config, w: World, c: nat, now: int, q: string)
    requires Inv(k, w) && RateInv(k, w) && now >= w.last
    ensures var z := Exiting(w, c, now); Rated(k, z.log, z.last, q, EntryOf(z.table, q))
  {
    LaterClock(k, w.log, w.last, now, q, EntryOf(w.table, q));
    if c in w.calls && w.calls[c].Admitted? {
      assert Refers(w, c);
      var e := EntryOf(w.table, q);
      if e.Some? { MinuteMonotone(e.value.seen, now); }
    }
  }

  lemma StepRated(k: Config, w: World, e: Event)
    requires Inv(k, w) && RateInv(k, w) && Ordered(w, e)
    ensures RateInv(k, Step(k, w, e))
  {
    var z := Step(k, w, e);
    forall q ensures Rated(k, z.log, z.last, q, EntryOf(z.table, q)) {
      assert Rated(k, w.log, w.last, q, EntryOf(w.table, q));
      if e.Decide? && e.call in w.calls && w.calls[e.call].Timed? { DecidingRated(k, w, e.call, q); }
      if e.Exit? { ExitingRated(k, w, e.call, e.now, q); }
    }
  }

  lemma {:induction false} RunRated(k: Config, events: seq<Event>)
    requires OrderedRun(k, events)
    ensures RateInv(k, Run(k, events))
  {
    if events != [] {
      RunRated(k, events[..|events| - 1]);
      RunKeeps(k, events[..|events| - 1]);
      StepRated(k, Run(k, events[..|events| - 1]), events[|events| - 1]);
    }
  }

  /** With clock readings in lock order, nobody exceeds the rate in any calendar minute, evictions or not. */
  lemma RateHolds(k: Config, events: seq<Event>, p: string, m: int)
    requires OrderedRun(k, events)
    ensures Count(Run(k, events).log, p, m) == 0 || Count(Run(k, events).log, p, m) <= k.rate
  {
    RunRated(k, events);
    var w := Run(k, events);
    assert Rated(k, w.log, w.last, p, EntryOf(w.table, p));
  }

  // ---- Readings out of order ----

  lemma RunOne(k: Config, events: seq<Event>, e: Event)
    ensures Run(k, events + [e]) == Step(k, Run(k, events), e)
  {
    assert (events + [e])[..|events|] == events;
  }

  /** A call that gets a slot and reads the clock, but has not been decided. */
  lemma Arrives(k: Config, events: seq<Event>, c: nat, p: string, now: int) returns (longer: seq<Event>)
    requires var w := Run(k, events); c !in w.calls && w.slots < k.capacity
    ensures var w := Run(k, events);
      Run(k, longer) == w.(slots := w.slots + 1, calls := w.calls[c := Timed(p, now)])
  {
    RunOne(k, events, Enter(c, p));
    RunOne(k, events + [Enter(c, p)], Sample(c, now));
    longer := events + [Enter(c, p)] + [Sample(c, now)];
    var w := Run(k, events);
    assert w.calls[c := Slotted(p)][c := Timed(p, now)] == w.calls[c := Timed(p, now)];
  }

  /** A table that lists only this principal, at its given minute and count. */
  predicate Only(t: Table, p: string, minute: int, count: nat, active: int) {
    && Wellformed(t) && t.states.Keys == {p}
    && t.heap[t.states[p]].minute == minute && t.heap[t.states[p]].count == count
        && t.heap[t.states[p]].active == active
  }

  lemma DecidesAgain(k: Config, t: Table, p: string, minute: int, count: nat, active: int, now: int)
    requires Only(t, p, minute, count, active) && minute != Minute(now) && k.rate == 1 && active < k.per
    ensures Decided(k, t, p, now).1 && Only(Decided(k, t, p, now).0, p, Minute(now), 1, active + 1)
  {
    assert |t.states.Keys| == 1;
  }

  lemma DecidesFirst(k: Config, p: string, now: int)
    requires k.rate == 1 && 0 < k.per
    ensures var (t, ok) := Decided(k, Table(map[], map[], 0), p, now); ok && Only(t, p, Minute(now), 1, 1)
  {
  }

  lemma Admits(k: Config, events: seq<Event>, c: nat, p: string, now: int) returns (longer: seq<Event>)
    requires c !in Run(k, events).calls && Run(k, events).slots < k.capacity && Wellformed(Run(k, events).table)
    requires Decided(k, Run(k, events).table, p, now).1 && p in Decided(k, Run(k, events).table, p, now).0.states
    ensures var w := Run(k, events); var z := Run(k, longer);
      z.table == Decided(k, w.table, p, now).0 && z.slots == w.slots + 1 && z.log == w.log + [Admission(p, Minute(now))]
      && z.calls.Keys == w.calls.Keys + {c}
  {
    longer := Arrives(k, events, c, p, now);
    RunOne(k, longer, Decide(c));
    longer := longer + [Decide(c)];
  }

  /** A reading from the previous minute, decided in between, resets the count: two calls pass where one may. */
  lemma RateNeedsOrder() returns (events: seq<Event>)
    ensures Count(Run(Config(3, 3, 1), events).log, "p", 1) == 2
  {
    var k := Config(3, 3, 1);
    var late, early := 60 * SECOND, 59 * SECOND;
    DecidesFirst(k, "p", late);
    var one := Admits(k, [], 0, "p", late);
    DecidesAgain(k, Run(k, one).table, "p", 1, 1, 1, early);
    var two := Admits(k, one, 1, "p", early);
    DecidesAgain(k, Run(k, two).table, "p", 0, 1, 2, late);
    events := Admits(k, two, 2, "p", late);
    CountThree(Admission("p", 1), Admission("p", 0), Admission("p", 1));
  }

  lemma CountThree(a: Admission, b: Admission, c: Admission)
    requires a == c && a != b
    ensures Count([] + [a] + [b] + [c], a.principal, a.minute) == 2
  {
    CountAppend([], a, a.principal, a.minute);
    CountAppend([] + [a], b, a.principal, a.minute);
    CountAppend([] + [a] + [b], c, a.principal, a.minute);
  }
}
