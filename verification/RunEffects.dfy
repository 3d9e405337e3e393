/**
 A plan has at most one effect: one process start or one materialization, never both kinds.
 The exclusive creation of stdout.log guards the first and the revision check the second.
 */
module RunEffects {
  import opened Runs

  /** A call that may still create stdout.log. */
  predicate BeforeStdout(p: Phase) { p.Checked? || p.HasDir? }

  /** A call that alone holds the right to the effect. */
  predicate Sole(p: Phase) { p.HasStdout? || p.HasStderr? || p.Copying? }

  predicate Cleans(p: Phase) { p.Cleaning? || p.Emptied? || p.Swept? }

  /** No call that passed its checks before the run is still on its way to stdout.log. */
  ghost predicate Closed(w: Plan) {
    Revision(w.shared) >= 2 && forall c :: !BeforeStdout(PhaseOf(w, c))
  }

  ghost predicate SharedInv(s: Shared) {
    && Revision(s) >= 1
    && s.starts <= 1 && s.copies <= 1
    && (s.hit ==> s.starts == 0 && !s.streams)
    && (!s.hit ==> s.copies == 0)
    && (s.streams ==> s.starts == 1 && Revision(s) >= 2)
    && (s.copies == 1 ==> Revision(s) >= 2)
    && (s.stdout ==> s.dir)
  }

  ghost predicate PhaseInv(s: Shared, p: Phase) {
    && (p.HasDir? ==> !s.hit)
    && (p.HasStdout? || p.HasStderr? ==> !s.hit && s.starts == 0 && s.stdout)
    && (p.Started? ==> !s.hit && s.starts == 1)
    && (p.Copying? ==> s.hit && s.copies == 0 && Revision(s) >= 2)
    && (Cleans(p) ==> !s.hit && s.starts == 1 && Revision(s) >= 2)
  }

  ghost predicate EffectInv(w: Plan) {
    && SharedInv(w.shared)
    && (forall c :: PhaseInv(w.shared, PhaseOf(w, c)))
    && (forall c, d :: Sole(PhaseOf(w, c)) && Sole(PhaseOf(w, d)) ==> c == d)
    && (w.shared.starts == 1 && !w.shared.stdout ==> Closed(w))
  }

  /** Cleanup unlinks the stream files only when no call is still on its way to stdout.log. */
  ghost predicate Timely(w: Plan, e: Event) {
    e.Act? && e.action.RemoveStreams? && PhaseOf(w, e.call).Cleaning?
    ==> forall c :: !BeforeStdout(PhaseOf(w, c))
  }

  ghost predicate TimelyRun(w: Plan, events: seq<Event>) {
    events != [] ==>
      TimelyRun(w, events[..|events| - 1]) && Timely(Run(w, events[..|events| - 1]), events[|events| - 1])
  }

  // ---- One call's move ----

  /** What the moving call may rely on about the others before it opens or removes stdout.log. */
  ghost predicate MayMove(s: Shared, p: Phase, a: Action) {
    && SharedInv(s) && PhaseInv(s, p)
    && (a.OpenStdout? && p.HasDir? && !s.stdout ==> s.starts == 0)
  }

  /** A write only adds a revision. */
  lemma WriteKeeps(s: Shared, expected: nat, next: State)
    requires SharedInv(s)
    ensures var z := Write(s, expected, next);
      SharedInv(z) && Revision(z) >= Revision(s) && z == s.(history := z.history)
  {
  }

  lemma LaunchKeeps(s: Shared, p: Phase, a: Action)
    requires Launches(a) && MayMove(s, p, a)
    ensures SharedInv(Launch(s, p, a).shared) && PhaseInv(Launch(s, p, a).shared, Launch(s, p, a).phase)
  {
    match a {
      case Load =>
      case Abort =>
      case MakeDir =>
      case OpenStdout =>
      case OpenStderr =>
      case Start(_) =>
    }
  }

  lemma SettleShared(s: Shared, p: Phase, a: Action)
    requires Settles(a) && SharedInv(s) && PhaseInv(s, p)
    ensures SharedInv(Settle(s, p, a).shared)
  {
    match a {
      case RecordStartFailed => WriteKeeps(s, 1, Failed);
      case RecordRunning => WriteKeeps(s, 1, Running);
      case Register =>
      case Finish(end) => WriteKeeps(s, 2, OutcomeOf(end));
    }
  }

  lemma SettleKeeps(s: Shared, p: Phase, a: Action)
    requires Settles(a) && MayMove(s, p, a)
    ensures SharedInv(Settle(s, p, a).shared) && PhaseInv(Settle(s, p, a).shared, Settle(s, p, a).phase)
  {
    SettleShared(s, p, a);
    SettleOwn(s, p, a);
  }

  lemma SettleOwn(s: Shared, p: Phase, a: Action)
    requires Settles(a) && PhaseInv(s, p)
    ensures PhaseInv(Settle(s, p, a).shared, Settle(s, p, a).phase)
  {
    match a {
      case RecordStartFailed =>
      case RecordRunning =>
      case Register =>
      case Finish(_) =>
    }
  }

  lemma ReuseKeeps(s: Shared, p: Phase, a: Action)
    requires Reuses(a) && MayMove(s, p, a)
    ensures SharedInv(Reuse(s, p, a).shared) && PhaseInv(Reuse(s, p, a).shared, Reuse(s, p, a).phase)
  {
    match a {
      case RecordMaterializing =>
      case Copy(_) =>
      case RecordCopied =>
    }
  }

  lemma MendKeeps(s: Shared, p: Phase, a: Action)
    requires Mends(a) && MayMove(s, p, a)
    ensures SharedInv(Mend(s, p, a).shared) && PhaseInv(Mend(s, p, a).shared, Mend(s, p, a).phase)
  {
    match a {
      case RecoverLoad =>
      case RecordInterrupted =>
    }
  }

  lemma CleanKeeps(s: Shared, p: Phase, a: Action)
    requires Sweeps(a) && MayMove(s, p, a)
    ensures SharedInv(Clean(s, p, a).shared) && PhaseInv(Clean(s, p, a).shared, Clean(s, p, a).phase)
  {
    match a {
      case CleanLoad =>
      case RemoveStreams =>
      case RemoveDir =>
      case RecordCleaned =>
    }
  }

  lemma MoveKeeps(s: Shared, p: Phase, a: Action)
    requires MayMove(s, p, a)
    ensures SharedInv(Move(s, p, a).shared) && PhaseInv(Move(s, p, a).shared, Move(s, p, a).phase)
  {
    if Launches(a) {
      LaunchKeeps(s, p, a);
    } else if Settles(a) {
      SettleKeeps(s, p, a);
    } else if Reuses(a) {
      ReuseKeeps(s, p, a);
    } else if Mends(a) {
      MendKeeps(s, p, a);
    } else {
      CleanKeeps(s, p, a);
    }
  }

  /** How a move can change what other calls rely on: only the sole holder has the effect. */
  ghost predicate Gentle(s: Shared, p: Phase, m: Moved) {
    && m.shared.hit == s.hit && Revision(m.shared) >= Revision(s)
    && (m.shared.starts != s.starts ==> p.HasStderr? && s.starts == 0 && m.shared.starts == 1 && m.shared.stdout)
    && (m.shared.copies != s.copies ==> p.Copying?)
    && (s.stdout && !m.shared.stdout ==> p.Cleaning? && m.phase.Emptied?)
    && (BeforeStdout(m.phase) ==> BeforeStdout(p) || Revision(s) == 1)
    && (Sole(m.phase) && !Sole(p) ==> (m.phase.HasStdout? && !s.stdout && p.HasDir?)
                                        || (m.phase.Copying? && Revision(s) == 1 && s.hit))
  }

  lemma LaunchGentle(s: Shared, p: Phase, a: Action)
    requires Launches(a) && MayMove(s, p, a)
    ensures Gentle(s, p, Launch(s, p, a))
  {
    match a {
      case Load =>
      case Abort =>
      case MakeDir =>
      case OpenStdout =>
      case OpenStderr =>
      case Start(_) =>
    }
  }

  /** A move that only writes the record and leaves the race. */
  lemma WriteGentle(s: Shared, p: Phase, m: Moved)
    requires m.shared.hit == s.hit && m.shared.starts == s.starts && m.shared.copies == s.copies
    requires m.shared.stdout == s.stdout
    requires Revision(m.shared) >= Revision(s) && (m.phase == p || (!BeforeStdout(m.phase) && !Sole(m.phase)))
    ensures Gentle(s, p, m)
  {
  }

  lemma StartFailedGentle(s: Shared, p: Phase)
    ensures Gentle(s, p, Settle(s, p, RecordStartFailed))
  {
    WriteGentle(s, p, Settle(s, p, RecordStartFailed));
  }

  lemma RunningGentle(s: Shared, p: Phase)
    ensures Gentle(s, p, Settle(s, p, RecordRunning))
  {
    WriteGentle(s, p, Settle(s, p, RecordRunning));
  }

  lemma RegisterGentle(s: Shared, p: Phase)
    ensures Gentle(s, p, Settle(s, p, Register))
  {
    WriteGentle(s, p, Settle(s, p, Register));
  }

  lemma FinishGentle(s: Shared, p: Phase, end: End)
    ensures Gentle(s, p, Settle(s, p, Finish(end)))
  {
    WriteGentle(s, p, Settle(s, p, Finish(end)));
  }

  lemma SettleGentle(s: Shared, p: Phase, a: Action)
    requires Settles(a)
    ensures Gentle(s, p, Settle(s, p, a))
  {
    match a {
      case RecordStartFailed => StartFailedGentle(s, p);
      case RecordRunning => RunningGentle(s, p);
      case Register => RegisterGentle(s, p);
      case Finish(end) => FinishGentle(s, p, end);
    }
  }

  lemma ReuseGentle(s: Shared, p: Phase, a: Action)
    requires Reuses(a) && MayMove(s, p, a)
    ensures Gentle(s, p, Reuse(s, p, a))
  {
    match a {
      case RecordMaterializing =>
      case Copy(_) =>
      case RecordCopied =>
    }
  }

  lemma MendGentle(s: Shared, p: Phase, a: Action)
    requires Mends(a) && MayMove(s, p, a)
    ensures Gentle(s, p, Mend(s, p, a))
  {
    match a {
      case RecoverLoad =>
      case RecordInterrupted =>
    }
  }

  lemma CleanGentle(s: Shared, p: Phase, a: Action)
    requires Sweeps(a) && MayMove(s, p, a)
    ensures Gentle(s, p, Clean(s, p, a)) && (Clean(s, p, a).phase.Emptied? && p.Cleaning? ==> a.RemoveStreams?)
  {
    match a {
      case CleanLoad =>
      case RemoveStreams =>
      case RemoveDir =>
      case RecordCleaned =>
    }
  }

  lemma MoveGentle(s: Shared, p: Phase, a: Action)
    requires MayMove(s, p, a)
    ensures Gentle(s, p, Move(s, p, a)) && (s.stdout && !Move(s, p, a).shared.stdout ==> a.RemoveStreams?)
  {
    if Launches(a) {
      LaunchGentle(s, p, a);
    } else if Settles(a) {
      SettleGentle(s, p, a);
    } else if Reuses(a) {
      ReuseGentle(s, p, a);
    } else if Mends(a) {
      MendGentle(s, p, a);
    } else {
      CleanGentle(s, p, a);
    }
  }

  // ---- Every step ----

  lemma OtherKeeps(s: Shared, p: Phase, m: Moved, q: Phase)
    requires Gentle(s, p, m) && SharedInv(s) && PhaseInv(s, p) && PhaseInv(s, q)
    requires !(Sole(p) && Sole(q)) && SharedInv(m.shared)
    ensures PhaseInv(m.shared, q)
  {
  }

  lemma StepSole(w: Plan, e: Event, c: nat, d: nat)
    requires EffectInv(w) && e.Act?
    requires Gentle(w.shared, PhaseOf(w, e.call), Move(w.shared, PhaseOf(w, e.call), e.action))
    requires Sole(PhaseOf(Step(w, e), c)) && Sole(PhaseOf(Step(w, e), d)) && d != e.call
    ensures c == d
  {
    assert PhaseInv(w.shared, PhaseOf(w, d));
    assert PhaseOf(Step(w, e), d) == PhaseOf(w, d);
    if c != e.call { assert PhaseOf(Step(w, e), c) == PhaseOf(w, c); }
  }

  lemma StepClosed(w: Plan, e: Event)
    requires EffectInv(w) && Timely(w, e) && e.Act?
    requires var s := w.shared; var p := PhaseOf(w, e.call); var m := Move(s, p, e.action);
      Gentle(s, p, m) && (s.stdout && !m.shared.stdout ==> e.action.RemoveStreams?)
    ensures var z := Step(w, e); z.shared.starts == 1 && !z.shared.stdout ==> Closed(z)
  {
    var z := Step(w, e);
    if z.shared.starts == 1 && !z.shared.stdout {
      assert PhaseInv(w.shared, PhaseOf(w, e.call));
      assert Revision(w.shared) >= 2;
      forall c ensures !BeforeStdout(PhaseOf(z, c)) {
        assert !BeforeStdout(PhaseOf(w, c));
        if c != e.call { assert PhaseOf(z, c) == PhaseOf(w, c); }
      }
    }
  }

  lemma StepKeeps(w: Plan, e: Event)
    requires EffectInv(w) && Timely(w, e)
    ensures EffectInv(Step(w, e)) && Step(w, e).shared.hit == w.shared.hit
  {
    if e.Act? {
      var p := PhaseOf(w, e.call);
      var z := Step(w, e);
      assert PhaseInv(w.shared, p);
      MoveKeeps(w.shared, p, e.action);
      MoveGentle(w.shared, p, e.action);
      forall c ensures PhaseInv(z.shared, PhaseOf(z, c)) {
        if c != e.call {
          assert PhaseOf(z, c) == PhaseOf(w, c);
          OtherKeeps(w.shared, p, Move(w.shared, p, e.action), PhaseOf(w, c));
        }
      }
      forall c, d | Sole(PhaseOf(z, c)) && Sole(PhaseOf(z, d)) ensures c == d {
        if d != e.call {
          StepSole(w, e, c, d);
        } else if c != e.call {
          StepSole(w, e, d, c);
        }
      }
      StepClosed(w, e);
    }
  }

  lemma {:induction false} RunKeeps(w: Plan, events: seq<Event>)
    requires EffectInv(w) && TimelyRun(w, events)
    ensures EffectInv(Run(w, events)) && Run(w, events).shared.hit == w.shared.hit
  {
    if events != [] {
      RunKeeps(w, events[..|events| - 1]);
      StepKeeps(Run(w, events[..|events| - 1]), events[|events| - 1]);
    }
  }

  /** Over every interleaving of calls, crashes and recovery: one effect at most, and only of the plan's own kind. */
  lemma AtMostOnce(hit: bool, ready: bool, events: seq<Event>)
    requires TimelyRun(Fresh(hit, ready), events)
    ensures var s := Run(Fresh(hit, ready), events).shared;
      s.starts + s.copies <= 1 && (hit ==> s.starts == 0) && (!hit ==> s.copies == 0)
  {
    RunKeeps(Fresh(hit, ready), events);
  }

  // ---- The untimely cleanup ----

  lemma RunOne(w: Plan, events: seq<Event>, e: Event)
    ensures Run(w, events + [e]) == Step(Run(w, events), e)
    ensures TimelyRun(w, events + [e]) <==> TimelyRun(w, events) && Timely(Run(w, events), e)
  {
    assert (events + [e])[..|events|] == events;
  }

  /** A step of call `d` other than unlinking streams, taken after `events`. */
  lemma Extend(w: Plan, events: seq<Event>, d: nat, a: Action) returns (longer: seq<Event>)
    requires TimelyRun(w, events) && !a.RemoveStreams?
    ensures TimelyRun(w, longer) && longer == events + [Act(d, a)]
    ensures var m := Move(Run(w, events).shared, PhaseOf(Run(w, events), d), a);
      Run(w, longer).shared == m.shared && PhaseOf(Run(w, longer), d) == m.phase
    ensures forall c :: c != d ==> PhaseOf(Run(w, longer), c) == PhaseOf(Run(w, events), c)
  {
    longer := events + [Act(d, a)];
    RunOne(w, events, Act(d, a));
  }

  /** A call with the directory in place and no stream files starts the process again. */
  lemma StartsFromDir(w: Plan, events: seq<Event>, d: nat) returns (longer: seq<Event>)
    requires TimelyRun(w, events)
    requires var s := Run(w, events).shared; s.dir && !s.stdout && !s.stderr && PhaseOf(Run(w, events), d).HasDir?
    ensures TimelyRun(w, longer) && Run(w, longer).shared.starts == Run(w, events).shared.starts + 1
  {
    longer := Extend(w, events, d, OpenStdout);
    longer := Extend(w, longer, d, OpenStderr);
    longer := Extend(w, longer, d, Start(true));
  }

  lemma StartsAgain(w: Plan, d: nat) returns (longer: seq<Event>)
    requires !w.shared.hit && w.shared.dir && !w.shared.stdout && !w.shared.stderr && BeforeStdout(PhaseOf(w, d))
    ensures TimelyRun(w, longer) && Run(w, longer).shared.starts == w.shared.starts + 1
  {
    longer := [];
    if PhaseOf(w, d).Checked? { longer := Extend(w, longer, d, MakeDir); }
    longer := StartsFromDir(w, longer, d);
  }

  /**
   At the moment cleanup unlinks the stream files, a second start is still possible exactly when
   some call that passed its checks has not yet opened stdout.log.
   */
  lemma SecondStart(hit: bool, ready: bool, before: seq<Event>, c: nat)
    requires TimelyRun(Fresh(hit, ready), before) && PhaseOf(Run(Fresh(hit, ready), before), c).Cleaning?
    ensures var w := Run(Fresh(hit, ready), before); var z := Step(w, Act(c, RemoveStreams));
      (exists later :: TimelyRun(z, later) && Run(z, later).shared.starts >= 2) <==>
          (exists d :: BeforeStdout(PhaseOf(w, d)))
  {
    var w := Run(Fresh(hit, ready), before);
    var z := Step(w, Act(c, RemoveStreams));
    RunKeeps(Fresh(hit, ready), before);
    assert PhaseInv(w.shared, PhaseOf(w, c));
    if d :| BeforeStdout(PhaseOf(w, d)) {
      assert PhaseOf(z, d) == PhaseOf(w, d);
      var later := StartsAgain(z, d);
      assert TimelyRun(z, later) && Run(z, later).shared.starts >= 2;
    } else {
      StepKeeps(w, Act(c, RemoveStreams));
      forall later | TimelyRun(z, later) ensures Run(z, later).shared.starts < 2 {
        RunKeeps(z, later);
      }
    }
  }

  /** A call that has loaded a fresh plan runs its process to completion. */
  lemma Completes(w: Plan, events: seq<Event>, d: nat) returns (longer: seq<Event>)
    requires TimelyRun(w, events) && PhaseOf(Run(w, events), d).Started?
    requires Revision(Run(w, events).shared) == 1 && !Run(w, events).shared.registered
    ensures TimelyRun(w, longer) && PhaseOf(Run(w, longer), d).Idle?
    ensures var s := Run(w, longer).shared; s.streams && |s.history| == 3 && Last(s.history) == Completed
    ensures forall c :: c != d ==> PhaseOf(Run(w, longer), c) == PhaseOf(Run(w, events), c)
  {
    longer := Extend(w, events, d, RecordRunning);
    longer := Extend(w, longer, d, Register);
    longer := Extend(w, longer, d, Finish(End(Exited, false)));
  }

  lemma Launched(w: Plan, events: seq<Event>, d: nat) returns (longer: seq<Event>)
    requires TimelyRun(w, events) && PhaseOf(Run(w, events), d).Checked?
    requires var s := Run(w, events).shared; Revision(s) == 1 && !s.registered && !s.hit && !s.stdout && !s.stderr
    ensures TimelyRun(w, longer) && PhaseOf(Run(w, longer), d).Started?
    ensures Revision(Run(w, longer).shared) == 1 && !Run(w, longer).shared.registered
    ensures forall c :: c != d ==> PhaseOf(Run(w, longer), c) == PhaseOf(Run(w, events), c)
  {
    longer := Extend(w, events, d, MakeDir);
    longer := Extend(w, longer, d, OpenStdout);
    longer := Extend(w, longer, d, OpenStderr);
    longer := Extend(w, longer, d, Start(true));
  }

  /** Such a moment is reachable: two calls load the plan, one runs to completion, cleanup reads the record. */
  lemma UntimelyCleanup() returns (before: seq<Event>)
    ensures var w := Run(Fresh(false, true), before);
      TimelyRun(Fresh(false, true), before) && PhaseOf(w, 2).Cleaning? && PhaseOf(w, 1).Checked?
  {
    var w := Fresh(false, true);
    before := TwoLoaded(w);
    before := Launched(w, before, 0);
    before := Completes(w, before, 0);
    before := Extend(w, before, 2, CleanLoad);
  }

  lemma TwoLoaded(w: Plan) returns (before: seq<Event>)
    requires w == Fresh(false, true)
    ensures TimelyRun(w, before) && PhaseOf(Run(w, before), 0).Checked? && PhaseOf(Run(w, before), 1).Checked?
    ensures PhaseOf(Run(w, before), 2).Idle?
    ensures Run(w, before).shared == w.shared
  {
    before := Extend(w, [], 1, Load);
    before := Extend(w, before, 0, Load);
  }

  /** Both effects do happen: an undisturbed plan with a cache hit is materialized once and ends as reused. */
  lemma ReuseHappens() returns (events: seq<Event>)
    ensures TimelyRun(Fresh(true, true), events)
    ensures var s := Run(Fresh(true, true), events).shared;
      s.copies == 1 && s.history != [] && Last(s.history) == Reused
  {
    var w := Fresh(true, true);
    events := Extend(w, [], 0, Load);
    events := Extend(w, events, 0, RecordMaterializing);
    events := Extend(w, events, 0, Copy(true));
    events := Extend(w, events, 0, RecordCopied);
  }
}
