/** What each recording step leaves in a plan's record, whoever else wrote it in the meantime. */
module RunOutcomes {
  import opened Runs

  /** A plan some run of calls, crashes, recovery and cleanup leads to. */
  ghost predicate Reachable(w: Plan) {
    exists hit: bool, ready: bool, events: seq<Event> :: RunsTo(hit, ready, events, w)
  }

  predicate RunsTo(hit: bool, ready: bool, events: seq<Event>, w: Plan) {
    w == Run(Fresh(hit, ready), events)
  }

  lemma ReachableHistory(w: Plan)
    requires Reachable(w)
    ensures HistoryInv(w)
  {
    var hit: bool, ready: bool, events: seq<Event> :| RunsTo(hit, ready, events, w);
    HistoryIsPath(hit, ready, events);
  }

  function History(w: Plan): seq<State> { w.shared.history }

  /** The states after the next move of call `c`. */
  function After(w: Plan, c: nat, a: Action): Plan { Step(w, Act(c, a)) }

  /** Every revision after a live one is terminal. */
  lemma PastLive(h: seq<State>, r: nat)
    requires Path(h) && 1 <= r < |h| && Live(h[r - 1])
    ensures Terminal(Last(h))
  {
    assert Edge(h[r - 1], h[r - 1 + 1]);
    TerminalStays(h, r, |h| - 1);
  }

  // ---- Recovery ----

  /** Recovery takes up a record exactly when its state is running or materializing. */
  lemma RecoveryReads(w: Plan, c: nat)
    requires Reachable(w) && PhaseOf(w, c).Idle?
    ensures History(w) != [] && After(w, c, RecoverLoad).shared == w.shared
    ensures PhaseOf(After(w, c, RecoverLoad), c)
        == if Last(History(w)) in {Running, Materializing} then Recovering(|History(w)|, Last(History(w))) else Idle
  {
    ReachableHistory(w);
  }

  /**
   The write of a recovering call adds exactly Interrupted unless another writer moved the record first;
   either way the record is terminal afterwards.
   */
  lemma RecoveryRecords(w: Plan, c: nat)
    requires Reachable(w) && PhaseOf(w, c).Recovering?
    ensures var z := After(w, c, RecordInterrupted); var r := PhaseOf(w, c).revision;
      && r <= |History(w)| && PhaseOf(z, c).Idle?
      && History(z) == (if |History(w)| == r then History(w) + [Interrupted] else History(w))
      && History(z) != [] && Terminal(Last(History(z)))
  {
    ReachableHistory(w);
    var r := PhaseOf(w, c).revision;
    assert Reads(History(w), PhaseOf(w, c));
    if |History(w)| > r { PastLive(History(w), r); }
  }

  lemma RunAppend(w: Plan, events: seq<Event>, e: Event)
    ensures Run(w, events + [e]) == Step(Run(w, events), e)
  {
    assert (events + [e])[..|events|] == events;
  }

  /** What a reachable plan leads to is reachable. */
  lemma ReachableStep(w: Plan, e: Event)
    requires Reachable(w)
    ensures Reachable(Step(w, e))
  {
    var hit: bool, ready: bool, events: seq<Event> :| RunsTo(hit, ready, events, w);
    RunAppend(Fresh(hit, ready), events, e);
    assert RunsTo(hit, ready, events + [e], Step(w, e));
  }

  function Recovery(c: nat): seq<Event> {
    [Crash, Act(c, RecoverLoad), Act(c, RecordInterrupted)]
  }

  lemma RunThree(w: Plan, a: Event, b: Event, c: Event)
    ensures Run(w, [a, b, c]) == Step(Step(Step(w, a), b), c)
  {
    RunAppend(w, [], a);
    RunAppend(w, [a], b);
    RunAppend(w, [a, b], c);
    assert [] + [a] == [a] && [a] + [b] == [a, b] && [a, b] + [c] == [a, b, c];
  }

  /**
   From every reachable plan, a crash and an undisturbed recovery add exactly Interrupted when the record
   said running or materializing, and nothing otherwise: no live state is left.
   */
  lemma RecoveryInterrupts(w: Plan, c: nat)
    requires Reachable(w)
    ensures History(w) != []
    ensures var live := Last(History(w)) in {Running, Materializing};
      History(Run(w, Recovery(c))) == if live then History(w) + [Interrupted] else History(w)
  {
    ReachableHistory(w);
    RunThree(w, Crash, Act(c, RecoverLoad), Act(c, RecordInterrupted));
    var z := Step(w, Crash);
    ReachableStep(w, Crash);
    RecoveryReads(z, c);
    if Last(History(w)) in {Running, Materializing} {
      ReachableStep(z, Act(c, RecoverLoad));
      RecoveryRecords(After(z, c, RecoverLoad), c);
    }
  }

  // ---- Execution ----

  /** The state a process end stands for. */
  predicate Outcome(end: End, s: State) {
    && (end.cause == TimeExpired ==> s == TimedOut)
    && (end.cause == CancelledByCaller ==> s == Cancelled)
    && (end.cause == Exited && end.error ==> s == Failed)
    && (end.cause == Exited && !end.error ==> s == Completed)
  }

  /** A process that was started is recorded as running, unless the record has moved; then the call gives up. */
  lemma StartRecords(w: Plan, c: nat)
    requires Reachable(w) && PhaseOf(w, c).Started?
    ensures var z := After(w, c, RecordRunning);
      if |History(w)| == 1 then History(z) == [Prepared, Running] && z.shared.streams && PhaseOf(z, c).Recorded?
      else z.shared == w.shared && PhaseOf(z, c).Idle?
  {
    ReachableHistory(w);
  }

  /** A process that could not be started is recorded as failed, unless the record has moved. */
  lemma StartFailureRecords(w: Plan, c: nat)
    requires Reachable(w) && PhaseOf(w, c).StartFailed?
    ensures var z := After(w, c, RecordStartFailed);
      && PhaseOf(z, c).Idle?
      && History(z) == if |History(w)| == 1 then [Prepared, Failed] else History(w)
  {
    ReachableHistory(w);
  }

  /** A waiting call records the very outcome of its process, unless the record has moved past running. */
  lemma FinishRecords(w: Plan, c: nat, end: End, outcome: State)
    requires Reachable(w) && PhaseOf(w, c).Waiting? && Outcome(end, outcome)
    ensures var z := After(w, c, Finish(end));
      && PhaseOf(z, c).Idle? && !z.shared.registered
      && History(z) == (if |History(w)| == 2 then [Prepared, Running, outcome] else History(w))
      && History(z) != [] && Terminal(Last(History(z)))
  {
    ReachableHistory(w);
    assert Reads(History(w), PhaseOf(w, c));
    if |History(w)| > 2 { PastLive(History(w), 2); }
  }

  /** A call with a cache hit claims the plan, or gives up when the record has moved. */
  lemma ClaimRecords(w: Plan, c: nat)
    requires Reachable(w) && PhaseOf(w, c).Checked? && w.shared.hit
    ensures var z := After(w, c, RecordMaterializing);
      if |History(w)| == 1 then History(z) == [Prepared, Materializing] && PhaseOf(z, c).Copying?
      else z.shared == w.shared && PhaseOf(z, c).Idle?
  {
    ReachableHistory(w);
  }

  /** A materialization ends as reused if and only if its copy was complete, and as failed otherwise. */
  lemma CopyRecords(w: Plan, c: nat)
    requires Reachable(w) && PhaseOf(w, c).Copied?
    ensures var z := After(w, c, RecordCopied);
      && PhaseOf(z, c).Idle?
      && History(z) == (if |History(w)| != 2 then History(w)
                        else if PhaseOf(w, c).complete then [Prepared, Materializing, Reused]
                        else [Prepared, Materializing, Failed])
      && History(z) != [] && Terminal(Last(History(z)))
  {
    ReachableHistory(w);
    assert Reads(History(w), PhaseOf(w, c));
    if |History(w)| > 2 { PastLive(History(w), 2); }
  }

  /** Cleanup repeats the terminal state it read and gives up the streams, unless the record has moved. */
  lemma CleanupRecords(w: Plan, c: nat)
    requires Reachable(w) && PhaseOf(w, c).Swept?
    ensures var z := After(w, c, RecordCleaned);
      && History(w) != [] && PhaseOf(z, c).Idle?
      && if |History(w)| == PhaseOf(w, c).revision
         then History(z) == History(w) + [Last(History(w))] && Terminal(Last(History(w))) && !z.shared.streams
         else z.shared == w.shared
  {
    ReachableHistory(w);
    assert Reads(History(w), PhaseOf(w, c));
  }

  // ---- Undisturbed calls ----

  /** One call's moves, one after the other. */
  function Moves(s: Shared, p: Phase, actions: seq<Action>): Moved
    decreases |actions|
  {
    if actions == [] then Moved(s, p)
    else var m := Move(s, p, actions[0]); Moves(m.shared, m.phase, actions[1..])
  }

  function ByCall(c: nat, actions: seq<Action>): (events: seq<Event>)
    ensures |events| == |actions| && forall i :: 0 <= i < |actions| ==> events[i] == Act(c, actions[i])
  {
    seq(|actions|, i requires 0 <= i < |actions| => Act(c, actions[i]))
  }

  lemma {:induction false} RunSplit(w: Plan, a: seq<Event>, b: seq<Event>)
    ensures Run(w, a + b) == Run(Run(w, a), b)
  {
    if b == [] {
      assert a + b == a;
    } else {
      var shorter := b[..|b| - 1];
      RunSplit(w, a, shorter);
      RunAppend(w, a + shorter, b[|b| - 1]);
      assert a + b == a + shorter + [b[|b| - 1]];
    }
  }

  /** While nobody else moves, a run is its call's moves. */
  lemma {:induction false} Undisturbed(w: Plan, c: nat, actions: seq<Action>)
    ensures var z := Run(w, ByCall(c, actions)); var m := Moves(w.shared, PhaseOf(w, c), actions);
      z.shared == m.shared && PhaseOf(z, c) == m.phase
    decreases |actions|
  {
    if actions != [] {
      var first := [Act(c, actions[0])];
      assert ByCall(c, actions) == first + ByCall(c, actions[1..]);
      RunSplit(w, first, ByCall(c, actions[1..]));
      RunAppend(w, [], first[0]);
      assert [] + [first[0]] == first;
      Undisturbed(Run(w, first), c, actions[1..]);
    }
  }

  function Launching(ok: bool): seq<Action> {
    [Load, MakeDir, OpenStdout, OpenStderr, Start(ok)]
  }

  lemma LaunchMoves(ok: bool)
    ensures var s := Fresh(false, true).shared;
      Moves(s, Idle, Launching(ok))
      == Moved(s.(dir := true, stdout := true, stderr := true, starts := if ok then 1 else 0),
               if ok then Started else StartFailed)
  {
  }

  lemma {:induction false} MovesSplit(s: Shared, p: Phase, a: seq<Action>, b: seq<Action>)
    ensures var m := Moves(s, p, a); Moves(s, p, a + b) == Moves(m.shared, m.phase, b)
    decreases |a|
  {
    if a == [] {
      assert a + b == b;
    } else {
      assert (a + b)[1..] == a[1..] + b;
      var m := Move(s, p, a[0]);
      MovesSplit(m.shared, m.phase, a[1..], b);
    }
  }

  lemma OneMove(s: Shared, p: Phase, a: Action)
    ensures Moves(s, p, [a]) == Move(s, p, a)
  {
    var m := Move(s, p, a);
    assert [a][1..] == [] && Moves(m.shared, m.phase, []) == m;
  }

  lemma ThreeMoves(s: Shared, p: Phase, a: Action, b: Action, c: Action)
    ensures var m := Move(s, p, a); var k := Move(m.shared, m.phase, b);
      Moves(s, p, [a, b, c]) == Move(k.shared, k.phase, c)
  {
    MovesSplit(s, p, [a], [b, c]);
    var m := Move(s, p, a);
    MovesSplit(m.shared, m.phase, [b], [c]);
    assert [a] + [b, c] == [a, b, c] && [b] + [c] == [b, c];
    OneMove(s, p, a);
    OneMove(m.shared, m.phase, b);
    var k := Move(m.shared, m.phase, b);
    OneMove(k.shared, k.phase, c);
  }

  lemma SettleMoves(s: Shared, end: End, outcome: State)
    requires s.history == [Prepared] && !s.registered && Outcome(end, outcome)
    ensures Moves(s, Started, [RecordRunning, Register, Finish(end)])
        == Moved(s.(history := [Prepared, Running, outcome], streams := true), Idle)
  {
    ThreeMoves(s, Started, RecordRunning, Register, Finish(end));
    assert [Prepared] + [Running] + [outcome] == [Prepared, Running, outcome];
  }

  lemma ReuseMoves(s: Shared, complete: bool)
    requires s.history == [Prepared] && s.hit
    ensures Moves(s, Checked, [RecordMaterializing, Copy(complete), RecordCopied])
        == Moved(s.(history := [Prepared, Materializing, if complete then Reused else Failed], copies := s.copies + 1),
                 Idle)
  {
    ThreeMoves(s, Checked, RecordMaterializing, Copy(complete), RecordCopied);
    assert [Prepared] + [Materializing] + [if complete then Reused else Failed]
        == [Prepared, Materializing, if complete then Reused else Failed];
  }

  /** An undisturbed plan without a cache hit starts once and ends in the outcome of its process. */
  lemma ExecutionEnds(c: nat, end: End, outcome: State)
    requires Outcome(end, outcome)
    ensures var z := Run(Fresh(false, true), ByCall(c, Launching(true) + [RecordRunning, Register, Finish(end)]));
      && History(z) == [Prepared, Running, outcome] && z.shared.starts == 1 && z.shared.copies == 0
      && z.shared.streams && !z.shared.registered
  {
    var s, rest := Fresh(false, true).shared, [RecordRunning, Register, Finish(end)];
    Undisturbed(Fresh(false, true), c, Launching(true) + rest);
    MovesSplit(s, Idle, Launching(true), rest);
    LaunchMoves(true);
    SettleMoves(Moves(s, Idle, Launching(true)).shared, end, outcome);
  }

  /** One whose process cannot be started ends as failed without an effect. */
  lemma FailedStartEnds(c: nat)
    ensures var z := Run(Fresh(false, true), ByCall(c, Launching(false) + [RecordStartFailed]));
      History(z) == [Prepared, Failed] && z.shared.starts == 0 && z.shared.copies == 0
  {
    var s, rest := Fresh(false, true).shared, [RecordStartFailed];
    Undisturbed(Fresh(false, true), c, Launching(false) + rest);
    MovesSplit(s, Idle, Launching(false), rest);
    LaunchMoves(false);
    var m := Moves(s, Idle, Launching(false));
    assert rest[1..] == [];
    assert Moves(m.shared, m.phase, rest) == Move(m.shared, m.phase, RecordStartFailed);
    assert [Prepared] + [Failed] == [Prepared, Failed];
  }

  /** An undisturbed plan with a cache hit is copied once and ends as reused exactly when the copy was complete. */
  lemma ReuseEnds(c: nat, complete: bool)
    ensures var z := Run(Fresh(true, true), ByCall(c, [Load, RecordMaterializing, Copy(complete), RecordCopied]));
      && History(z) == [Prepared, Materializing, if complete then Reused else Failed]
      && z.shared.starts == 0 && z.shared.copies == 1
  {
    var s, rest := Fresh(true, true).shared, [RecordMaterializing, Copy(complete), RecordCopied];
    Undisturbed(Fresh(true, true), c, [Load] + rest);
    MovesSplit(s, Idle, [Load], rest);
    assert [Load][1..] == [] && Moves(s, Idle, [Load]) == Moved(s, Checked);
    ReuseMoves(s, complete);
    assert [Load] + rest == [Load, RecordMaterializing, Copy(complete), RecordCopied];
  }

  // ---- Plans that are not ready, and the waiting call ----

  ghost predicate Untouched(w: Plan) {
    && !w.shared.ready && w.shared.history == [Prepared] && w.shared.starts == 0 && w.shared.copies == 0
    && !w.shared.streams && !w.shared.stdout && forall c :: PhaseOf(w, c).Idle?
  }

  /** A plan that is not ready never has an effect, whatever anyone does. */
  lemma {:induction false} NotReady(hit: bool, events: seq<Event>)
    ensures Untouched(Run(Fresh(hit, false), events))
  {
    if events != [] {
      NotReady(hit, events[..|events| - 1]);
      StepUntouched(Run(Fresh(hit, false), events[..|events| - 1]), events[|events| - 1]);
    }
  }

  lemma StepUntouched(w: Plan, e: Event)
    requires Untouched(w)
    ensures Untouched(Step(w, e))
  {
    if e.Act? {
      IdleMove(w.shared, e.action);
      forall c ensures PhaseOf(Step(w, e), c).Idle? {
        if c != e.call { assert PhaseOf(Step(w, e), c) == PhaseOf(w, c); }
      }
    }
  }

  lemma IdleMove(s: Shared, a: Action)
    requires !s.ready && s.history == [Prepared] && !s.streams
    ensures Move(s, Idle, a) == Moved(s, Idle)
  {
  }

  /** The table of running processes lists the plan exactly when one call waits for its process. */
  ghost predicate Registered(w: Plan) {
    && (forall c :: PhaseOf(w, c).Waiting? ==> w.shared.registered)
    && (w.shared.registered ==> exists c :: PhaseOf(w, c).Waiting?)
    && (forall c, d :: PhaseOf(w, c).Waiting? && PhaseOf(w, d).Waiting? ==> c == d)
  }

  lemma MoveRegisters(s: Shared, p: Phase, a: Action)
    ensures var m := Move(s, p, a);
      && (m.phase.Waiting? && !p.Waiting? ==> !s.registered && m.shared.registered)
      && (p.Waiting? ==> m.shared.registered == (m.phase.Waiting? && s.registered))
      && (!p.Waiting? && !m.phase.Waiting? ==> m.shared.registered == s.registered)
  {
    if Launches(a) {
      assert Launch(s, p, a).shared.registered == s.registered;
    } else if Settles(a) {
      SettleRegisters(s, p, a);
    }
  }

  lemma SettleRegisters(s: Shared, p: Phase, a: Action)
    requires Settles(a)
    ensures var m := Settle(s, p, a);
      && (m.phase.Waiting? && !p.Waiting? ==> !s.registered && m.shared.registered)
      && (p.Waiting? ==> m.shared.registered == (m.phase.Waiting? && s.registered))
      && (!p.Waiting? && !m.phase.Waiting? ==> m.shared.registered == s.registered)
  {
    match a {
      case RecordStartFailed =>
      case RecordRunning =>
      case Register =>
      case Finish(_) =>
    }
  }

  lemma StepRegistered(w: Plan, e: Event)
    requires Registered(w)
    ensures Registered(Step(w, e))
  {
    if e.Act? {
      var z := Step(w, e);
      MoveRegisters(w.shared, PhaseOf(w, e.call), e.action);
      assert forall c :: c != e.call ==> PhaseOf(z, c) == PhaseOf(w, c);
      if z.shared.registered && !PhaseOf(z, e.call).Waiting? {
        var c :| PhaseOf(w, c).Waiting?;
        assert c != e.call;
        assert PhaseOf(z, c).Waiting?;
      }
    }
  }

  /** Over every run at most one call waits for the process, and the table lists the plan exactly then. */
  lemma {:induction false} OneWaiter(hit: bool, ready: bool, events: seq<Event>)
    ensures Registered(Run(Fresh(hit, ready), events))
  {
    if events != [] {
      OneWaiter(hit, ready, events[..|events| - 1]);
      StepRegistered(Run(Fresh(hit, ready), events[..|events| - 1]), events[|events| - 1]);
    }
  }
}
