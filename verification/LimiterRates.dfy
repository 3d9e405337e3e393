/**
 The rate of one principal. The limiter reads the clock before it takes its lock, so decisions may see
 readings out of order; what matters is only the minute of the principal's last admission, and whether
 its entry still remembers that minute.
 */
module LimiterRates {
  import opened Wrappers
  import opened Clocks
  import opened Limiter
  import opened LimiterRuns

  // ---- Which decisions are harmless ----

  /** The minute of the principal's last admission. */
  function Last(log: seq<Admission>, p: string): Option<int> {
    if log == [] then None
    else if log[|log| - 1].principal == p then Some(log[|log| - 1].minute)
    else Last(log[..|log| - 1], p)
  }

  predicate Remembers(entry: Option<Entry>, minute: int) {
    entry.Some? && entry.value.minute == minute
  }

  /**
   The reading is in a later minute than the principal's last admission; or in the same one, which its
   entry still remembers after the sweep; or the call is refused, and either it finds no room for an
   entry or its minute is over.
   */
  predicate TimelyReading(k: Config, t: Table, log: seq<Admission>, p: string, now: int)
    requires Wellformed(t)
  {
    var last, s := Last(log, p), Evicted(t, now);
    || last.None? || last.value < Minute(now)
    || (last.value == Minute(now) && Remembers(EntryOf(s, p), Minute(now)))
    || (!Decided(k, t, p, now).1 && (Minute(now) < last.value || Found(s, p).None?))
  }

  predicate Timely(k: Config, w: World, p: string, e: Event) {
    e.Decide? && e.call in w.calls && w.calls[e.call].Timed? && w.calls[e.call].principal == p && Wellformed(w.table)
    ==> TimelyReading(k, w.table, w.log, p, w.calls[e.call].now)
  }

  /** From world `w`, every decision on the principal is timely. */
  predicate TimelyRun(k: Config, w: World, p: string, events: seq<Event>) {
    events != [] ==>
      && TimelyRun(k, w, p, events[..|events| - 1])
      && Timely(k, RunFrom(k, w, events[..|events| - 1]), p, events[|events| - 1])
  }

  function RunFrom(k: Config, w: World, events: seq<Event>): World {
    if events == [] then w else Step(k, RunFrom(k, w, events[..|events| - 1]), events[|events| - 1])
  }

  // ---- Counting ----

  lemma {:induction false} LastCounts(log: seq<Admission>, p: string)
    ensures Last(log, p).Some? ==> Count(log, p, Last(log, p).value) > 0
  {
    if log != [] { LastCounts(log[..|log| - 1], p); }
  }

  lemma LastAppend(log: seq<Admission>, a: Admission, p: string)
    ensures Last(log + [a], p) == if a.principal == p then Some(a.minute) else Last(log, p)
  {
    assert (log + [a])[..|log|] == log;
  }

  /** A principal's admissions against its entry: they never ran backwards, and the entry counts the last minute's. */
  ghost predicate Told(k: Config, log: seq<Admission>, p: string, entry: Option<Entry>) {
    && (forall m :: Count(log, p, m) > 0 ==> Count(log, p, m) <= k.rate && k.per >= 1 && Last(log, p).Some?
                                               && m <= Last(log, p).value)
    && (entry.Some? ==> EntryTold(log, p, entry.value))
  }

  predicate EntryTold(log: seq<Admission>, p: string, e: Entry) {
    match Last(log, p)
    case None => e.count == 0
    case Some(last) => (e.minute > last ==> e.count == 0) && (e.minute == last ==> e.count == Count(log, p, last))
  }

  ghost predicate ToldInv(k: Config, w: World, p: string) {
    Told(k, w.log, p, EntryOf(w.table, p))
  }

  lemma OtherTold(k: Config, log: seq<Admission>, p: string, a: Admission, entry: Option<Entry>)
    requires Told(k, log, p, entry) && a.principal != p
    ensures Told(k, log + [a], p, entry)
  {
    LastAppend(log, a, p);
    forall m ensures Count(log + [a], p, m) == Count(log, p, m) { CountAppend(log, a, p, m); }
  }

  lemma AdmittedTold(k: Config, log: seq<Admission>, p: string, minute: int, e: Entry, admitted: Entry)
    requires Told(k, log, p, Some(e)) && e.minute == minute && !Full(k, e) && e.active >= 0
    requires Last(log, p).None? || Last(log, p).value <= minute
    requires admitted.minute == minute && admitted.count == e.count + 1
    ensures Told(k, log + [Admission(p, minute)], p, Some(admitted))
  {
    LastAppend(log, Admission(p, minute), p);
    LastCounts(log, p);
    forall m ensures Count(log + [Admission(p, minute)], p, m) == Count(log, p, m) + (if m == minute then 1 else 0) {
      CountAppend(log, Admission(p, minute), p, m);
    }
    assert Count(log, p, minute) == e.count;
  }

  /** Unless the last admission is later, the entry a decision charges counts its minute. */
  lemma BaseTold(k: Config, log: seq<Admission>, t: Table, p: string, now: int)
    requires Wellformed(t) && Told(k, log, p, EntryOf(t, p))
    requires Last(log, p).None? || Last(log, p).value < Minute(now)
      || (Last(log, p).value == Minute(now) && Remembers(EntryOf(Evicted(t, now), p), Minute(now)))
    ensures Told(k, log, p, Some(Base(t, p, now)))
  {
    EvictedEntry(t, now, p);
  }

  lemma StaleTold(k: Config, log: seq<Admission>, t: Table, p: string, now: int)
    requires Wellformed(t) && Told(k, log, p, EntryOf(t, p)) && Last(log, p).Some? && Minute(now) < Last(log, p).value
    ensures Told(k, log, p, Some(Base(t, p, now)))
  {
  }

  lemma DecidedTold(k: Config, log: seq<Admission>, t: Table, p: string, now: int)
    requires TableInv(k, t) && Told(k, log, p, EntryOf(t, p)) && TimelyReading(k, t, log, p, now)
    requires ActiveOf(t, p) >= 0
    ensures var (z, ok) := Decided(k, t, p, now);
      Told(k, if ok then log + [Admission(p, Minute(now))] else log, p, EntryOf(z, p))
  {
    var last, s := Last(log, p), Evicted(t, now);
    DecidedOwn(k, t, p, now);
    EvictedEntry(t, now, p);
    if last.None? || last.value < Minute(now) || (last.value == Minute(now) && Remembers(EntryOf(s, p), Minute(now))) {
      BaseTold(k, log, t, p, now);
      var e := Base(t, p, now);
      if Decided(k, t, p, now).1 {
        AdmittedTold(k, log, p, Minute(now), e, e.(count := e.count + 1, active := e.active + 1, seen := now));
      }
    } else if Minute(now) < last.value {
      StaleTold(k, log, t, p, now);
    } else {
      NoRoomUnlisted(k, t, p, now);
    }
  }

  lemma NoRoomUnlisted(k: Config, t: Table, p: string, now: int)
    requires Wellformed(t) && Found(Evicted(t, now), p).None?
    ensures EntryOf(Decided(k, t, p, now).0, p) == None
  {
  }

  // ---- Timely decisions keep the rate ----

  lemma DecidingTold(k: Config, w: World, c: nat, p: string)
    requires Inv(k, w) && ToldInv(k, w, p) && c in w.calls && w.calls[c].Timed?
    requires w.calls[c].principal == p ==> TimelyReading(k, w.table, w.log, p, w.calls[c].now)
    ensures ToldInv(k, Deciding(k, w, c), p)
  {
    var q, now := w.calls[c].principal, w.calls[c].now;
    DecidedKeeps(k, w.table, q, now);
    ActiveCounts(w, p);
    if q == p {
      DecidedTold(k, w.log, w.table, p, now);
    } else {
      DecidedOthers(k, w.table, q, now, p);
      EvictedEntry(w.table, now, p);
      OtherTold(k, w.log, p, Admission(q, Minute(now)), EntryOf(Evicted(w.table, now), p));
    }
  }

  lemma ExitingTold(k: Config, w: World, c: nat, now: int, p: string)
    requires Inv(k, w) && ToldInv(k, w, p)
    ensures ToldInv(k, Exiting(w, c, now), p)
  {
    if c in w.calls && w.calls[c].Admitted? { assert Refers(w, c); }
  }

  lemma StepTold(k: Config, w: World, p: string, e: Event)
    requires Inv(k, w) && ToldInv(k, w, p) && Timely(k, w, p, e)
    ensures ToldInv(k, Step(k, w, e), p)
  {
    match e {
      case Enter(c, q) =>
      case Sample(c, now) =>
      case Decide(c) => if c in w.calls && w.calls[c].Timed? { DecidingTold(k, w, c, p); }
      case Exit(c, now) => ExitingTold(k, w, c, now, p);
      case Free(c) =>
    }
  }

  lemma {:induction false} RunTold(k: Config, w: World, p: string, events: seq<Event>)
    requires Inv(k, w) && ToldInv(k, w, p) && TimelyRun(k, w, p, events)
    ensures Inv(k, RunFrom(k, w, events)) && ToldInv(k, RunFrom(k, w, events), p)
  {
    if events != [] {
      RunTold(k, w, p, events[..|events| - 1]);
      StepKeeps(k, RunFrom(k, w, events[..|events| - 1]), events[|events| - 1]);
      StepTold(k, RunFrom(k, w, events[..|events| - 1]), p, events[|events| - 1]);
    }
  }

  predicate Exceeds(k: Config, w: World, p: string, m: int) {
    Count(w.log, p, m) > 0 && Count(w.log, p, m) > k.rate
  }

  lemma StartTold(k: Config, p: string)
    ensures Inv(k, Start()) && ToldInv(k, Start(), p)
  {
    RunKeeps(k, []);
  }

  /** While the principal's decisions are timely it never exceeds the rate in a calendar minute, whatever others do. */
  lemma RateHolds(k: Config, events: seq<Event>, p: string, m: int)
    requires TimelyRun(k, Start(), p, events)
    ensures !Exceeds(k, RunFrom(k, Start(), events), p, m)
  {
    StartTold(k, p);
    RunTold(k, Start(), p, events);
  }

  // ---- Readings in lock order are timely ----

  lemma {:induction false} SameRun(k: Config, events: seq<Event>)
    ensures RunFrom(k, Start(), events) == Run(k, events)
  {
    if events != [] { SameRun(k, events[..|events| - 1]); }
  }

  lemma OrderedTimely(k: Config, w: World, p: string, e: Event)
    requires Inv(k, w) && RateInv(k, w) && Ordered(w, e)
    ensures Timely(k, w, p, e)
  {
    if e.Decide? && e.call in w.calls && w.calls[e.call].Timed? && w.calls[e.call].principal == p {
      var now := w.calls[e.call].now;
      LaterClock(k, w.log, w.last, now, p, EntryOf(w.table, p));
      EvictedRated(k, w.log, now, w.table, p);
      LastCounts(w.log, p);
    }
  }

  /** A clock that never runs backwards in lock order makes every decision timely, for every principal. */
  lemma {:induction false} OrderedRunTimely(k: Config, events: seq<Event>, p: string)
    requires OrderedRun(k, events)
    ensures TimelyRun(k, Start(), p, events)
  {
    if events != [] {
      var past := events[..|events| - 1];
      OrderedRunTimely(k, past, p);
      RunRated(k, past);
      RunKeeps(k, past);
      SameRun(k, past);
      OrderedTimely(k, Run(k, past), p, events[|events| - 1]);
    }
  }

  // ---- Worlds that timely decisions lead to ----

  /** Some continuation from `w`, timely for the principal, ends in `z`. */
  ghost predicate Reaches(k: Config, w: World, p: string, z: World) {
    exists events :: Leads(k, w, p, events, z)
  }

  predicate Leads(k: Config, w: World, p: string, events: seq<Event>, z: World) {
    TimelyRun(k, w, p, events) && RunFrom(k, w, events) == z
  }

  lemma ReachesSelf(k: Config, w: World, p: string)
    ensures Reaches(k, w, p, w)
  {
    assert Leads(k, w, p, [], w);
  }

  lemma ReachesStep(k: Config, w: World, p: string, x: World, e: Event)
    requires Reaches(k, w, p, x) && Timely(k, x, p, e)
    ensures Reaches(k, w, p, Step(k, x, e))
  {
    var events :| Leads(k, w, p, events, x);
    var longer := events + [e];
    assert longer[..|events|] == events;
    assert Leads(k, w, p, longer, Step(k, x, e));
  }

  lemma {:induction false} FromKeeps(k: Config, w: World, events: seq<Event>)
    requires Inv(k, w)
    ensures Inv(k, RunFrom(k, w, events))
  {
    if events != [] {
      FromKeeps(k, w, events[..|events| - 1]);
      StepKeeps(k, RunFrom(k, w, events[..|events| - 1]), events[|events| - 1]);
    }
  }

  lemma ReachesKeeps(k: Config, w: World, p: string, x: World)
    requires Inv(k, w) && Reaches(k, w, p, x)
    ensures Inv(k, x)
  {
    var events :| Leads(k, w, p, events, x);
    FromKeeps(k, w, events);
  }

  /** A reading in a given minute. */
  function ReadingIn(minute: int): int { minute * 60 * SECOND }

  lemma ReadingInMinute(minute: int)
    ensures Minute(ReadingIn(minute)) == minute
  {
    assert ReadingIn(minute) / SECOND == minute * 60;
  }

  /** A call that has a slot and a reading. */
  function Arrived(w: World, c: nat, q: string, r: int): World {
    w.(slots := w.slots + 1, calls := w.calls[c := Timed(q, r)])
  }

  lemma Arrives(k: Config, w: World, p: string, x: World, c: nat, q: string, r: int)
    requires Inv(k, x) && Reaches(k, w, p, x) && c !in x.calls && x.slots < k.capacity
    ensures Reaches(k, w, p, Arrived(x, c, q, r)) && Inv(k, Arrived(x, c, q, r))
  {
    var y := Entering(k, x, c, q);
    ReachesStep(k, w, p, x, Enter(c, q));
    EnteringKeeps(k, x, c, q);
    ReachesStep(k, w, p, y, Sample(c, r));
    SamplingKeeps(k, y, c, r);
    assert x.calls[c := Slotted(q)][c := Timed(q, r)] == x.calls[c := Timed(q, r)];
  }

  /** A served call that leaves: its slot and place are free again, its principal one less active. */
  function Departed(w: World, c: nat, r: int): World
    requires c in w.calls && w.calls[c].Admitted? && w.slots > 0
  {
    World(w.slots - 1, Released(w.table, w.calls[c].entry, r), w.calls - {c}, w.log, r)
  }

  lemma Departs(k: Config, w: World, p: string, x: World, c: nat, r: int)
    requires Inv(k, x) && Reaches(k, w, p, x) && c in x.calls && x.calls[c].Admitted? && x.slots > 0
    ensures Reaches(k, w, p, Departed(x, c, r)) && Inv(k, Departed(x, c, r))
  {
    var y := Exiting(x, c, r);
    ReachesStep(k, w, p, x, Exit(c, r));
    ExitingKeeps(k, x, c, r);
    ReachesStep(k, w, p, y, Free(c));
    FreeingKeeps(k, y, c);
    assert x.calls[c := Leaving] - {c} == x.calls - {c};
  }

  lemma SlotHeld(k: Config, x: World, c: nat)
    requires Inv(k, x) && c in x.calls
    ensures x.slots > 0
  {
    assert x.calls.Keys != {};
  }

  // ---- Calls of an idle principal ----

  /** The principal is idle and was last seen at `r`, and call `c` can enter. */
  predicate Idle(k: Config, w: World, p: string, c: nat, r: int, e: Entry) {
    c !in w.calls && w.slots < k.capacity && EntryOf(w.table, p) == Some(e) && e.active == 0 && e.seen == r
  }

  /** An entry seen at the very reading is not swept, and is charged. */
  lemma AdmitsIdle(k: Config, t: Table, p: string, r: int, e: Entry)
    requires TableInv(k, t) && EntryOf(t, p) == Some(e) && e.active == 0 && e.seen == r && k.per >= 1
    requires Turned(e, Minute(r)).count < k.rate
    ensures EntryOf(Evicted(t, r), p) == Some(e)
    ensures var (z, ok) := Decided(k, t, p, r);
      ok && p in z.states && EntryOf(z, p) == Some(Entry(Minute(r), Turned(e, Minute(r)).count + 1, 1, r))
  {
    EvictedEntry(t, r, p);
    DecidedOwn(k, t, p, r);
    DecidedKeeps(k, t, p, r);
  }

  /** The decision on an idle principal's arrived call. */
  lemma DecidesIdle(k: Config, y: World, p: string, c: nat, r: int, e: Entry)
    requires TableInv(k, y.table) && EntryOf(y.table, p) == Some(e) && e.active == 0 && e.seen == r
    requires k.per >= 1 && Turned(e, Minute(r)).count < k.rate && c in y.calls && y.calls[c] == Timed(p, r)
    ensures var z := Deciding(k, y, c);
      && z.slots == y.slots && c in z.calls && z.calls[c].Admitted? && z.calls == y.calls[c := z.calls[c]]
      && z.log == y.log + [Admission(p, Minute(r))]
      && p in z.table.states && z.calls[c].entry == z.table.states[p]
      && EntryOf(z.table, p) == Some(Entry(Minute(r), Turned(e, Minute(r)).count + 1, 1, r))
  {
    AdmitsIdle(k, y.table, p, r, e);
  }

  /** Its last admission is over, or in the minute of the reading, which the entry remembers. */
  predicate MayAdmit(w: World, p: string, r: int, e: Entry) {
    Last(w.log, p).Some?
        && (Last(w.log, p).value < Minute(r) || (Last(w.log, p).value == Minute(r) && e.minute == Minute(r)))
  }

  lemma DecideReaches(k: Config, w: World, p: string, y: World, c: nat, r: int, e: Entry)
    requires Inv(k, y) && Reaches(k, w, p, y) && EntryOf(y.table, p) == Some(e) && e.active == 0 && e.seen == r
    requires k.per >= 1 && Turned(e, Minute(r)).count < k.rate && c in y.calls && y.calls[c] == Timed(p, r)
    requires MayAdmit(y, p, r, e)
    ensures Reaches(k, w, p, Deciding(k, y, c)) && Inv(k, Deciding(k, y, c))
  {
    AdmitsIdle(k, y.table, p, r, e);
    assert TimelyReading(k, y.table, y.log, p, r);
    ReachesStep(k, w, p, y, Decide(c));
    DecidingKeeps(k, y, c);
  }

  /** An idle principal's call is admitted and gone again. */
  lemma AdmitOnce(k: Config, w: World, p: string, x: World, c: nat, r: int, e: Entry) returns (z: World)
    requires Inv(k, w) && Reaches(k, w, p, x) && Idle(k, x, p, c, r, e)
    requires k.per >= 1 && Turned(e, Minute(r)).count < k.rate && MayAdmit(x, p, r, e)
    ensures Reaches(k, w, p, z) && z.log == x.log + [Admission(p, Minute(r))]
    ensures Idle(k, z, p, c, r, Entry(Minute(r), Turned(e, Minute(r)).count + 1, 0, r))
  {
    ReachesKeeps(k, w, p, x);
    Arrives(k, w, p, x, c, p, r);
    var y := Arrived(x, c, p, r);
    DecideReaches(k, w, p, y, c, r, e);
    DecidesIdle(k, y, p, c, r, e);
    var d := Deciding(k, y, c);
    Departs(k, w, p, d, c, r);
    z := Departed(d, c, r);
    assert z.calls == x.calls;
  }

  /** Idle in the minute of its last admission, with an entry that has forgotten some of that minute. */
  predicate Behind(k: Config, w: World, p: string, c: nat, r: int, e: Entry) {
    && Idle(k, w, p, c, r, e) && e.minute == Minute(r) && e.count <= k.rate
    && Last(w.log, p) == Some(Minute(r)) && Count(w.log, p, Minute(r)) > e.count
  }

  lemma OneCounted(log: seq<Admission>, p: string, m: int)
    ensures Last(log + [Admission(p, m)], p) == Some(m)
    ensures Count(log + [Admission(p, m)], p, m) == Count(log, p, m) + 1
  {
    LastAppend(log, Admission(p, m), p);
    CountAppend(log, Admission(p, m), p, m);
  }

  lemma StaysBehind(k: Config, w: World, p: string, x: World, c: nat, r: int, e: Entry) returns (z: World)
    requires Inv(k, w) && Reaches(k, w, p, x) && Behind(k, x, p, c, r, e) && k.per >= 1 && e.count < k.rate
    ensures Reaches(k, w, p, z) && Behind(k, z, p, c, r, Entry(Minute(r), e.count + 1, 0, r))
  {
    BehindAdmits(k, x, p, c, r, e);
    z := AdmitOnce(k, w, p, x, c, r, e);
    OneMoreBehind(k, x, z, p, c, r, e);
  }

  lemma BehindAdmits(k: Config, x: World, p: string, c: nat, r: int, e: Entry)
    requires Behind(k, x, p, c, r, e)
    ensures Idle(k, x, p, c, r, e) && MayAdmit(x, p, r, e) && Turned(e, Minute(r)) == e
  {
  }

  lemma OneMoreBehind(k: Config, x: World, z: World, p: string, c: nat, r: int, e: Entry)
    requires Behind(k, x, p, c, r, e) && e.count < k.rate && z.log == x.log + [Admission(p, Minute(r))]
    requires Idle(k, z, p, c, r, Entry(Minute(r), e.count + 1, 0, r))
    ensures Behind(k, z, p, c, r, Entry(Minute(r), e.count + 1, 0, r))
  {
    OneCounted(x.log, p, Minute(r));
  }

  /** Admissions in the last minute until the entry's count stops them: by then the real count has gone past it. */
  lemma {:induction false} FillUp(k: Config, w: World, p: string, x: World, c: nat, r: int, e: Entry) returns (z: World)
    requires Inv(k, w) && Reaches(k, w, p, x) && Behind(k, x, p, c, r, e) && k.per >= 1
    ensures Reaches(k, w, p, z) && Exceeds(k, z, p, Minute(r))
    decreases k.rate - e.count
  {
    z := x;
    if e.count < k.rate {
      z := StaysBehind(k, w, p, x, c, r, e);
      z := FillUp(k, w, p, z, c, r, Entry(Minute(r), e.count + 1, 0, r));
    }
  }

  // ---- A busy principal becomes idle ----

  lemma DepartedHolders(x: World, c: nat, p: string, r: int)
    requires c in x.calls && x.calls[c].Admitted? && x.slots > 0
    ensures Holders(Departed(x, c, r), p) == Holders(x, p) - {c}
  {
  }

  /** All calls of a busy principal leave at `r`. */
  lemma {:induction false} AllDepart(k: Config, w: World, p: string, x: World, r: int, e: Entry) returns (z: World)
    requires Inv(k, x) && Reaches(k, w, p, x) && EntryOf(x.table, p) == Some(e) && (Holders(x, p) == {} ==> e.seen == r)
    ensures Inv(k, z) && Reaches(k, w, p, z) && z.log == x.log && z.slots <= x.slots
    ensures z.calls == x.calls - Holders(x, p) && EntryOf(z.table, p) == Some(e.(active := 0, seen := r))
    decreases |Holders(x, p)|
  {
    assert Counted(x, p);
    if Holders(x, p) == {} {
      z := x;
      assert z.calls == x.calls - Holders(x, p);
    } else {
      var d :| d in Holders(x, p);
      OneDeparts(k, w, p, x, d, r, e);
      z := AllDepart(k, w, p, Departed(x, d, r), r, e.(active := e.active - 1, seen := r));
      CallsLeft(x, d, p, r);
    }
  }

  lemma OneDeparts(k: Config, w: World, p: string, x: World, d: nat, r: int, e: Entry)
    requires Inv(k, x) && Reaches(k, w, p, x) && EntryOf(x.table, p) == Some(e) && Holds(x, d, p)
    ensures x.slots > 0 && Inv(k, Departed(x, d, r)) && Reaches(k, w, p, Departed(x, d, r))
    ensures EntryOf(Departed(x, d, r).table, p) == Some(e.(active := e.active - 1, seen := r))
    ensures |Holders(Departed(x, d, r), p)| < |Holders(x, p)|
  {
    SlotHeld(k, x, d);
    Departs(k, w, p, x, d, r);
    assert Refers(x, d);
    DepartedEntry(x, d, p, r, e);
    DepartedHolders(x, d, p, r);
  }

  lemma DepartedEntry(x: World, d: nat, p: string, r: int, e: Entry)
    requires Holds(x, d, p) && x.slots > 0 && Refers(x, d) && EntryOf(x.table, p) == Some(e)
    ensures EntryOf(Departed(x, d, r).table, p) == Some(e.(active := e.active - 1, seen := r))
  {
  }

  lemma CallsLeft(x: World, d: nat, p: string, r: int)
    requires Holds(x, d, p) && x.slots > 0
    ensures Departed(x, d, r).calls - Holders(Departed(x, d, r), p) == x.calls - Holders(x, p)
  {
    DepartedHolders(x, d, p, r);
  }

  // ---- Untimely decisions can be made to exceed the rate ----

  /** What an untimely decision leaves: the principal busy, its last minute's count forgotten in part. */
  predicate Forgot(k: Config, w: World, p: string, c: nat, l: int, e: Entry) {
    && EntryOf(w.table, p) == Some(e) && e.active > 0 && e.count <= k.rate && c in w.calls
    && Count(w.log, p, l) > 0 && Last(w.log, p).Some?
    && ((e.minute == l && Last(w.log, p).value == l && Count(w.log, p, l) > e.count)
        || (e.minute < l && Last(w.log, p).value < l))
  }

  lemma UntimelyForgets(k: Config, w: World, p: string, c: nat)
    requires Inv(k, w) && ToldInv(k, w, p) && c in w.calls && w.calls[c].Timed? && w.calls[c].principal == p
    requires !TimelyReading(k, w.table, w.log, p, w.calls[c].now)
    ensures k.per >= 1 && k.rate >= 1 && Last(w.log, p).Some? && EntryOf(Deciding(k, w, c).table, p).Some?
    ensures Forgot(k, Deciding(k, w, c), p, c, Last(w.log, p).value, EntryOf(Deciding(k, w, c).table, p).value)
    ensures Deciding(k, w, c).calls[c].Leaving? || Holds(Deciding(k, w, c), c, p)
  {
    var now, l := w.calls[c].now, Last(w.log, p).value;
    LastCounts(w.log, p);
    DecidedKeeps(k, w.table, p, now);
    DecidedOwn(k, w.table, p, now);
    EvictedEntry(w.table, now, p);
    assert Counted(w, p);
    OneCounted(w.log, p, Minute(now));
    CountAppend(w.log, Admission(p, Minute(now)), p, l);
  }

  /** Free the deciding call if it was refused, and let the principal's own calls leave. */
  lemma BecomesIdle(k: Config, w: World, p: string, x: World, c: nat, r: int, e: Entry) returns (z: World)
    requires Inv(k, x) && Reaches(k, w, p, x) && EntryOf(x.table, p) == Some(e) && e.active > 0
    requires c in x.calls && (x.calls[c].Leaving? || Holds(x, c, p))
    ensures Reaches(k, w, p, z) && z.log == x.log && Idle(k, z, p, c, r, e.(active := 0, seen := r))
  {
    var y := x;
    SlotHeld(k, x, c);
    if x.calls[c].Leaving? {
      y := Freeing(x, c);
      ReachesStep(k, w, p, x, Free(c));
      FreeingKeeps(k, x, c);
    }
    assert Counted(y, p);
    ActiveCounts(y, p);
    z := AllDepart(k, w, p, y, r, e);
    FewerCalls(x, z, c);
  }

  lemma FewerCalls(x: World, z: World, c: nat)
    requires c in x.calls && z.calls.Keys <= x.calls.Keys - {c}
    ensures |z.calls| < |x.calls|
  {
    var rest := x.calls.Keys - {c};
    assert rest == z.calls.Keys + (rest - z.calls.Keys);
    assert |x.calls.Keys| == |rest| + 1 && |rest| == |z.calls.Keys| + |rest - z.calls.Keys|;
  }

  lemma ForgotExceeds(k: Config, w: World, p: string, x: World, c: nat, l: int, e: Entry) returns (z: World)
    requires Inv(k, w) && Reaches(k, w, p, x) && Forgot(k, x, p, c, l, e) && k.per >= 1 && k.rate >= 1
    requires x.calls[c].Leaving? || Holds(x, c, p)
    ensures Reaches(k, w, p, z) && Exceeds(k, z, p, l)
  {
    var r := ReadingIn(l);
    ReadingInMinute(l);
    ReachesKeeps(k, w, p, x);
    z := BecomesIdle(k, w, p, x, c, r, e);
    var idle := e.(active := 0, seen := r);
    if e.minute != l {
      OneCounted(z.log, p, l);
      z := AdmitOnce(k, w, p, z, c, r, idle);
      idle := Entry(l, 1, 0, r);
    }
    z := FillUp(k, w, p, z, c, r, idle);
  }

  /**
   While a principal's decisions have been timely, the next one lets it exceed the rate later on, with
   timely decisions only, if and only if that one is untimely.
   */
  lemma ExceedsExactly(k: Config, before: seq<Event>, p: string, c: nat)
    requires TimelyRun(k, Start(), p, before)
    requires var w := RunFrom(k, Start(), before); c in w.calls && w.calls[c].Timed? && w.calls[c].principal == p
    ensures var w := RunFrom(k, Start(), before); var z := Step(k, w, Decide(c));
      Wellformed(w.table) && (Exceedable(k, z, p) <==> !TimelyReading(k, w.table, w.log, p, w.calls[c].now))
  {
    var w := RunFrom(k, Start(), before);
    StartTold(k, p);
    RunTold(k, Start(), p, before);
    if TimelyReading(k, w.table, w.log, p, w.calls[c].now) {
      TimelyNeverExceeds(k, w, p, c);
    } else {
      UntimelyExceeds(k, w, p, c);
    }
  }

  ghost predicate Exceedable(k: Config, z: World, p: string) {
    exists later, m :: TimelyRun(k, z, p, later) && Exceeds(k, RunFrom(k, z, later), p, m)
  }

  lemma TimelyNeverExceeds(k: Config, w: World, p: string, c: nat)
    requires Inv(k, w) && ToldInv(k, w, p) && c in w.calls && w.calls[c].Timed? && w.calls[c].principal == p
    requires TimelyReading(k, w.table, w.log, p, w.calls[c].now)
    ensures !Exceedable(k, Step(k, w, Decide(c)), p)
  {
    var z := Step(k, w, Decide(c));
    DecidingKeeps(k, w, c);
    DecidingTold(k, w, c, p);
    forall later, m | TimelyRun(k, z, p, later) ensures !Exceeds(k, RunFrom(k, z, later), p, m) {
      RunTold(k, z, p, later);
    }
  }

  lemma UntimelyExceeds(k: Config, w: World, p: string, c: nat)
    requires Inv(k, w) && ToldInv(k, w, p) && c in w.calls && w.calls[c].Timed? && w.calls[c].principal == p
    requires !TimelyReading(k, w.table, w.log, p, w.calls[c].now)
    ensures Exceedable(k, Step(k, w, Decide(c)), p)
  {
    var z := Deciding(k, w, c);
    DecidingKeeps(k, w, c);
    UntimelyForgets(k, w, p, c);
    ReachesSelf(k, z, p);
    var l := Last(w.log, p).value;
    var y := ForgotExceeds(k, z, p, z, c, l, EntryOf(z.table, p).value);
    var later :| Leads(k, z, p, later, y);
    assert Exceeds(k, RunFrom(k, z, later), p, l);
  }

  // ---- A sweep in the middle of a principal's minute ----

  /** Nobody is being served, and every entry was last seen at `r`. */
  predicate Resting(w: World, r: int) {
    && w.calls == map[] && w.slots == 0 && Wellformed(w.table)
    && forall q :: q in w.table.states ==> w.table.heap[w.table.states[q]].active == 0
                                             && w.table.heap[w.table.states[q]].seen == r
  }

  lemma DecidesNew(k: Config, y: World, c: nat, q: string, r: int)
    requires TableInv(k, y.table) && q !in y.table.states && |y.table.states| < MAX_ENTRIES && k.per >= 1 && k.rate >= 1
    requires c in y.calls && y.calls[c] == Timed(q, r)
    ensures var z := Deciding(k, y, c);
      && z.slots == y.slots && c in z.calls && z.calls[c].Admitted? && z.calls[c].entry == y.table.next
          && z.calls == y.calls[c := z.calls[c]]
      && z.log == y.log + [Admission(q, Minute(r))] && z.table.states == y.table.states[q := y.table.next]
      && z.table.heap == y.table.heap[y.table.next := Entry(Minute(r), 1, 1, r)]
  {
    var blank := Entry(0, 0, 0, ZERO_TIME);
    var e := Turned(blank, Minute(r));
    assert y.table.heap[y.table.next := blank][y.table.next := e.(count := 1, active := 1, seen := r)]
        == y.table.heap[y.table.next := Entry(Minute(r), 1, 1, r)];
  }

  lemma ReachableKeeps(k: Config, p: string, x: World)
    requires Reaches(k, Start(), p, x)
    ensures Inv(k, x)
  {
    StartTold(k, p);
    ReachesKeeps(k, Start(), p, x);
  }

  predicate Roomy(k: Config) { k.capacity >= 2 && k.per >= 1 && k.rate >= 1 }

  /** A new principal's first call, from start to end. */
  function Serve(k: Config, x: World, q: string, r: int): World
    requires Wellformed(x.table) && x.slots < k.capacity
    requires var d := Deciding(k, Arrived(x, 0, q, r), 0); 0 in d.calls && d.calls[0].Admitted? && d.slots > 0
  {
    Departed(Deciding(k, Arrived(x, 0, q, r), 0), 0, r)
  }

  predicate Servable(k: Config, x: World, q: string, r: int) {
    Roomy(k) && Resting(x, r) && q !in x.table.states && |x.table.states| < MAX_ENTRIES
        && x.table.next !in x.table.states.Values
  }

  lemma NextUnused(t: Table)
    requires Wellformed(t)
    ensures t.next !in t.states.Values
  {
  }

  lemma ServeIs(k: Config, x: World, q: string, r: int)
    requires Servable(k, x, q, r) && TableInv(k, x.table)
    ensures var d := Deciding(k, Arrived(x, 0, q, r), 0); 0 in d.calls && d.calls[0].Admitted? && d.slots > 0
    ensures var z := Serve(k, x, q, r);
      && z.calls == map[] && z.slots == 0 && z.log == x.log + [Admission(q, Minute(r))]
      && z.table.states == x.table.states[q := x.table.next]
      && z.table.heap == x.table.heap[x.table.next := Entry(Minute(r), 1, 0, r)]
  {
    var y := Arrived(x, 0, q, r);
    DecidesNew(k, y, 0, q, r);
    var d := Deciding(k, y, 0);
    assert d.calls - {0} == map[];
    assert x.table.heap[x.table.next := Entry(Minute(r), 1, 1, r)][x.table.next := Entry(Minute(r), 1, 0, r)]
        == x.table.heap[x.table.next := Entry(Minute(r), 1, 0, r)];
  }

  lemma ServeReaches(k: Config, p: string, x: World, q: string, r: int)
    requires Servable(k, x, q, r) && Reaches(k, Start(), p, x) && TableInv(k, x.table)
    requires (q == p ==> Last(x.log, p).None?)
    ensures var d := Deciding(k, Arrived(x, 0, q, r), 0); 0 in d.calls && d.calls[0].Admitted? && d.slots > 0
    ensures Reaches(k, Start(), p, Serve(k, x, q, r))
  {
    ServeIs(k, x, q, r);
    ReachableKeeps(k, p, x);
    Arrives(k, Start(), p, x, 0, q, r);
    var y := Arrived(x, 0, q, r);
    ReachesStep(k, Start(), p, y, Decide(0));
    DecidingKeeps(k, y, 0);
    Departs(k, Start(), p, Deciding(k, y, 0), 0, r);
  }

  lemma ServeRests(k: Config, x: World, q: string, r: int, z: World)
    requires Resting(x, r) && z.calls == map[] && z.slots == 0 && q !in x.table.states && Wellformed(z.table)
    requires z.table.states == x.table.states[q := x.table.next]
    requires z.table.heap == x.table.heap[x.table.next := Entry(Minute(r), 1, 0, r)]
    ensures Resting(z, r) && z.table.states.Keys == x.table.states.Keys + {q}
    ensures EntryOf(z.table, q) == Some(Entry(Minute(r), 1, 0, r))
  {
  }

  lemma Serves(k: Config, p: string, x: World, q: string, r: int) returns (z: World)
    requires Roomy(k) && Reaches(k, Start(), p, x) && Resting(x, r) && q !in x.table.states
    requires |x.table.states| < MAX_ENTRIES
    requires q == p ==> Last(x.log, p).None?
    ensures Reaches(k, Start(), p, z) && Resting(z, r) && EntryOf(z.table, q) == Some(Entry(Minute(r), 1, 0, r))
    ensures z.table.states.Keys == x.table.states.Keys + {q} && z.log == x.log + [Admission(q, Minute(r))]
  {
    NextUnused(x.table);
    ReachableTable(k, p, x);
    ServeIs(k, x, q, r);
    ServeReaches(k, p, x, q, r);
    z := Serve(k, x, q, r);
    ReachableTable(k, p, z);
    ServeRests(k, x, q, r, z);
  }

  lemma ReachableTable(k: Config, p: string, x: World)
    requires Reaches(k, Start(), p, x)
    ensures TableInv(k, x.table)
  {
    ReachableKeeps(k, p, x);
  }

  function Name(n: nat): string { seq(n, _ => 'x') }

  function Names(n: nat): set<string> {
    if n == 0 then {} else Names(n - 1) + {Name(n - 1)}
  }

  lemma {:induction false} NamesShort(n: nat)
    ensures |Names(n)| == n && forall q :: q in Names(n) ==> |q| < n && forall c :: c in q ==> c == 'x'
  {
    if n > 0 { NamesShort(n - 1); }
  }

  lemma NewName(n: nat, p: string)
    requires n > 0 && |p| == 1 && p[0] != 'x'
    ensures Name(n - 1) !in Names(n - 1) && Name(n - 1) != p && p !in Names(n) && |Names(n - 1)| == n - 1
  {
    NamesShort(n);
    NamesShort(n - 1);
    assert p[0] in p;
    if n == 2 { assert Name(1)[0] == 'x'; }
  }

  /** A resting table with `n` principals listed. */
  lemma {:induction false} Populated(k: Config, n: nat, p: string, r: int) returns (z: World)
    requires Roomy(k) && n < MAX_ENTRIES && |p| == 1 && p[0] != 'x'
    ensures Reaches(k, Start(), p, z) && Resting(z, r) && z.table.states.Keys == Names(n) && Last(z.log, p).None?
  {
    if n == 0 {
      z := Start();
      ReachesSelf(k, z, p);
    } else {
      var x := Populated(k, n - 1, p, r);
      z := OneNameMore(k, n, p, r, x);
    }
  }

  lemma OneNameMore(k: Config, n: nat, p: string, r: int, x: World) returns (z: World)
    requires Roomy(k) && 0 < n < MAX_ENTRIES && |p| == 1 && p[0] != 'x'
    requires Reaches(k, Start(), p, x) && Resting(x, r) && x.table.states.Keys == Names(n - 1) && Last(x.log, p).None?
    ensures Reaches(k, Start(), p, z) && Resting(z, r) && z.table.states.Keys == Names(n) && Last(z.log, p).None?
  {
    NewName(n, p);
    assert |x.table.states.Keys| == n - 1;
    z := Serves(k, p, x, Name(n - 1), r);
    LastAppend(x.log, Admission(Name(n - 1), Minute(r)), p);
  }

  /** A full resting table on which the principal has just been served. */
  lemma FullTable(k: Config, p: string, q: string, r: int) returns (z: World)
    requires Roomy(k) && |p| == 1 && p[0] != 'x' && |q| == 1 && q[0] != 'x' && p != q
    ensures Reaches(k, Start(), p, z) && Resting(z, r)
    ensures |z.table.states| == MAX_ENTRIES && q !in z.table.states && Last(z.log, p) == Some(Minute(r))
  {
    var x := Populated(k, MAX_ENTRIES - 1, p, r);
    AllNames(p, q, x.table.states);
    z := Serves(k, p, x, p, r);
    LastAppend(x.log, Admission(p, Minute(r)), p);
    OneMore(x.table.states, z.table.states, p);
  }

  lemma AllNames(p: string, q: string, states: map<string, nat>)
    requires |p| == 1 && p[0] != 'x' && |q| == 1 && q[0] != 'x' && states.Keys == Names(MAX_ENTRIES - 1)
    ensures |states| == MAX_ENTRIES - 1 && p !in states && q !in states
  {
    NewName(MAX_ENTRIES, p);
    NewName(MAX_ENTRIES - 1, p);
    NewName(MAX_ENTRIES - 1, q);
    assert |states.Keys| == MAX_ENTRIES - 1;
  }

  lemma OneMore(a: map<string, nat>, b: map<string, nat>, p: string)
    requires p !in a && b.Keys == a.Keys + {p}
    ensures |b| == |a| + 1
  {
    assert |b.Keys| == |a.Keys| + 1;
  }

  /** A reading two minutes on sweeps a resting table. */
  lemma SweptDecision(k: Config, y: World, c: nat, q: string, now: int, r: int)
    requires Wellformed(y.table) && |y.table.states| >= MAX_ENTRIES && now - r > TWO_MINUTES && c in y.calls
    requires y.calls[c] == Timed(q, now)
    requires forall n :: n in y.table.states ==> y.table.heap[y.table.states[n]].active == 0
                                                   && y.table.heap[y.table.states[n]].seen == r
    ensures var z := Deciding(k, y, c);
      z.table.states.Keys == {q} && (forall d :: d in y.calls && d != c ==> d in z.calls && z.calls[d] == y.calls[d])
      && (z.log == y.log || z.log == y.log + [Admission(q, Minute(now))])
  {
    assert Evicted(y.table, now).states == map[];
  }

  /** With nobody else listed, a call in the minute of a forgotten admission is untimely. */
  lemma ForgottenUntimely(k: Config, t: Table, log: seq<Admission>, p: string, r: int)
    requires Wellformed(t) && |t.states| < MAX_ENTRIES && p !in t.states && Last(log, p) == Some(Minute(r))
    requires k.per >= 1 && k.rate >= 1
    ensures !TimelyReading(k, t, log, p, r)
  {
  }

  /**
   One way to exceed the rate, whatever the limits: all the principal's readings lie in one minute, but
   while a call of its is delayed another principal's later reading sweeps the full table, and its count.
   */
  lemma SweptMidMinute(k: Config) returns (w: World)
    requires Roomy(k)
    ensures Reaches(k, Start(), "p", w) && Wellformed(w.table)
    ensures 1 in w.calls && w.calls[1] == Timed("p", 60 * SECOND) && Last(w.log, "p") == Some(Minute(60 * SECOND))
    ensures !TimelyReading(k, w.table, w.log, "p", 60 * SECOND)
  {
    var x := FullTable(k, "p", "q", 60 * SECOND);
    w := SweptWhilePending(k, "p", "q", x, 60 * SECOND, 181 * SECOND);
  }

  lemma SweptWhilePending(k: Config, p: string, q: string, x: World, r: int, later: int) returns (w: World)
    requires Roomy(k) && Reaches(k, Start(), p, x) && Resting(x, r) && later - r > TWO_MINUTES && p != q
    requires |x.table.states| == MAX_ENTRIES && q !in x.table.states && Last(x.log, p) == Some(Minute(r))
    ensures Reaches(k, Start(), p, w) && Wellformed(w.table) && 1 in w.calls && w.calls[1] == Timed(p, r)
    ensures Last(w.log, p) == Some(Minute(r)) && !TimelyReading(k, w.table, w.log, p, r)
  {
    var z := BothArrive(k, p, q, x, r, later);
    ReachesStep(k, Start(), p, z, Decide(0));
    w := Deciding(k, z, 0);
    ReachableTable(k, p, w);
    SweptDecision(k, z, 0, q, later, r);
    assert |w.table.states.Keys| == 1;
    LastAppend(z.log, Admission(q, Minute(later)), p);
    ForgottenUntimely(k, w.table, w.log, p, r);
  }

  lemma BothArrive(k: Config, p: string, q: string, x: World, r: int, later: int) returns (z: World)
    requires Roomy(k) && Reaches(k, Start(), p, x) && Resting(x, r)
    ensures Reaches(k, Start(), p, z) && z == Arrived(Arrived(x, 1, p, r), 0, q, later)
  {
    ReachableKeeps(k, p, x);
    Arrives(k, Start(), p, x, 1, p, r);
    z := Arrived(x, 1, p, r);
    Arrives(k, Start(), p, z, 0, q, later);
    z := Arrived(z, 0, q, later);
  }

  /** The other way: a reading from an earlier minute, decided after the principal's admission in a later one. */
  lemma MinuteBefore(k: Config) returns (w: World)
    requires Roomy(k)
    ensures Reaches(k, Start(), "p", w) && Wellformed(w.table)
    ensures 1 in w.calls && w.calls[1] == Timed("p", 59 * SECOND) && Last(w.log, "p") == Some(Minute(60 * SECOND))
    ensures !TimelyReading(k, w.table, w.log, "p", 59 * SECOND)
  {
    ReachesSelf(k, Start(), "p");
    var z := Serves(k, "p", Start(), "p", 60 * SECOND);
    assert Minute(60 * SECOND) == 1 && Minute(59 * SECOND) == 0;
    LastAppend([], Admission("p", 1), "p");
    w := EarlierPending(k, "p", z, 59 * SECOND, 60 * SECOND);
  }

  lemma EarlierPending(k: Config, p: string, x: World, early: int, r: int) returns (w: World)
    requires Roomy(k) && Reaches(k, Start(), p, x) && Resting(x, r) && |x.table.states| < MAX_ENTRIES
    requires Minute(early) < Minute(r)
    requires EntryOf(x.table, p) == Some(Entry(Minute(r), 1, 0, r)) && Last(x.log, p) == Some(Minute(r))
    ensures Reaches(k, Start(), p, w) && Wellformed(w.table) && 1 in w.calls && w.calls[1] == Timed(p, early)
    ensures Last(w.log, p) == Some(Minute(r)) && !TimelyReading(k, w.table, w.log, p, early)
  {
    ReachableKeeps(k, p, x);
    Arrives(k, Start(), p, x, 1, p, early);
    w := Arrived(x, 1, p, early);
    EarlierUntimely(k, w.table, w.log, p, early, r);
  }

  lemma EarlierUntimely(k: Config, t: Table, log: seq<Admission>, p: string, early: int, r: int)
    requires Wellformed(t) && |t.states| < MAX_ENTRIES && p in t.states && t.heap[t.states[p]].active == 0 && k.per >= 1
    requires k.rate >= 1
    requires Last(log, p) == Some(Minute(r)) && Minute(early) < Minute(r) && t.heap[t.states[p]].minute != Minute(early)
    ensures !TimelyReading(k, t, log, p, early)
  {
  }
}
