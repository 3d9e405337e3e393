/** Exactly which calls the limiter admits: it refuses nobody who is within the limits and finds room. */
module LimiterAdmits {
  import opened Wrappers
  import opened Clocks
  import opened Limiter
  import opened LimiterRuns

  /** With 1024 principals listed, an idle one not seen for two minutes loses its entry. */
  predicate SweptOut(t: Table, q: string, now: int) {
    && |t.states| >= 1024 && q in t.states && t.states[q] in t.heap
    && now - t.heap[t.states[q]].seen > 120 * SECOND && t.heap[t.states[q]].active == 0
  }

  ghost function Remaining(t: Table, now: int): set<string> {
    set q | q in t.states && !SweptOut(t, q, now)
  }

  /** The principal has an entry after the sweep, or there is room for one. */
  ghost predicate HasRoom(t: Table, p: string, now: int) {
    p in Remaining(t, now) || |Remaining(t, now)| < 1024
  }

  lemma EvictedRemaining(t: Table, now: int)
    requires Wellformed(t)
    ensures Evicted(t, now).states.Keys == Remaining(t, now)
    ensures |Evicted(t, now).states| == |Remaining(t, now)|
  {
    assert |Evicted(t, now).states| == |Evicted(t, now).states.Keys|;
  }

  /** A decision admits exactly when there is room and the entry it charges is below both limits. */
  lemma DecidedExactly(k: Config, t: Table, p: string, now: int)
    requires Wellformed(t)
    ensures Decided(k, t, p, now).1 <==>
            HasRoom(t, p, now) && Base(t, p, now).count < k.rate && Base(t, p, now).active < k.per
  {
    EvictedRemaining(t, now);
    var s := Evicted(t, now);
    assert p in s.states ==> EntryOf(s, p) == Some(s.heap[s.states[p]]);
    if Found(s, p).Some? && p !in s.states {
      var f := Found(s, p).value;
      assert Turned(f.heap[f.states[p]], Minute(now)) == Entry(Minute(now), 0, 0, ZERO_TIME);
    }
  }

  /** With readings in lock order the entry counts the principal's admissions in the minute of the reading. */
  lemma BaseCounts(k: Config, w: World, p: string, now: int)
    requires Wellformed(w.table) && Rated(k, w.log, w.last, p, EntryOf(w.table, p)) && w.last <= now
    ensures Base(w.table, p, now).count == Count(w.log, p, Minute(now))
  {
    LaterClock(k, w.log, w.last, now, p, EntryOf(w.table, p));
    EvictedRated(k, w.log, now, w.table, p);
    assert Rated(k, w.log, now, p, EntryOf(Evicted(w.table, now), p));
  }

  /** The sweep spares a principal that is being served. */
  lemma BaseActive(k: Config, w: World, p: string, now: int)
    requires Inv(k, w)
    ensures Base(w.table, p, now).active == |Holders(w, p)|
  {
    ActiveCounts(w, p);
    EvictedKeeps(k, w.table, now);
    assert EntryOf(w.table, p).Some? ==> EntryOf(w.table, p).value.active == ActiveOf(w.table, p);
  }

  /** Within both limits and with room for an entry. */
  ghost predicate WithinLimits(k: Config, w: World, p: string, now: int) {
    && HasRoom(w.table, p, now)
    && Count(w.log, p, Minute(now)) < k.rate && |Holders(w, p)| < k.per
  }

  lemma DecidesExactly(k: Config, w: World, c: nat)
    requires Inv(k, w) && c in w.calls && w.calls[c].Timed? && w.last <= w.calls[c].now
    requires Rated(k, w.log, w.last, w.calls[c].principal, EntryOf(w.table, w.calls[c].principal))
    ensures var p, now := w.calls[c].principal, w.calls[c].now; var z := Deciding(k, w, c);
      && c in z.calls && (z.calls[c].Admitted? <==> WithinLimits(k, w, p, now))
      && (z.calls[c].Admitted? || z.calls[c].Leaving?)
      && z.log == if z.calls[c].Admitted? then w.log + [Admission(p, Minute(now))] else w.log
  {
    var p, now := w.calls[c].principal, w.calls[c].now;
    DecidedExactly(k, w.table, p, now);
    BaseCounts(k, w, p, now);
    BaseActive(k, w, p, now);
    DecidedKeeps(k, w.table, p, now);
  }

  /**
   With clock readings in lock order a call is admitted exactly when its principal has had fewer than `rate`
   admissions in this calendar minute, has fewer than `per` calls being served, and is listed or finds room
   among 1024 entries after the sweep; a refused call is logged nowhere.
   */
  lemma AdmitsExactly(k: Config, events: seq<Event>, c: nat)
    requires OrderedRun(k, events)
    requires var w := Run(k, events); c in w.calls && w.calls[c].Timed? && w.last <= w.calls[c].now
    ensures var w := Run(k, events); var z := Step(k, w, Decide(c));
      var p, now := w.calls[c].principal, w.calls[c].now;
      && c in z.calls && (z.calls[c].Admitted? <==> WithinLimits(k, w, p, now))
      && z.log == if z.calls[c].Admitted? then w.log + [Admission(p, Minute(now))] else w.log
  {
    RunRated(k, events);
    RunKeeps(k, events);
    var w := Run(k, events);
    assert Rated(k, w.log, w.last, w.calls[c].principal, EntryOf(w.table, w.calls[c].principal));
    DecidesExactly(k, w, c);
  }
}
