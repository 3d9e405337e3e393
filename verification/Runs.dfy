/**
 One prepared plan: concurrent Execute calls, the goroutine waiting for its process, cache
 materialization, restart recovery and retention cleanup. Every file operation and every
 revision-checked write is one atomic step; a crash may happen between any two.
 */
module Runs {

  datatype State =
    | Prepared | Running | Materializing
    | Completed | Failed | Cancelled | TimedOut | Interrupted | Reused

  /** Where a call stands; Recovering and the cleanup phases keep the revision and state they read. */
  datatype Phase =
    | Idle
    | Checked                                        // loaded at revision 1, plan still fresh
    | HasDir                                         // run directory made
    | HasStdout                                      // stdout.log created exclusively
    | HasStderr                                      // stderr.log created exclusively
    | StartFailed                                    // process start failed
    | Started                                        // process started, record not yet updated
    | Recorded                                       // record says running
    | Waiting                                        // registered; waitForRun owns it
    | Copying                                        // record says materializing
    | Copied(complete: bool)                         // cached outputs written, or failed part-way
    | Recovering(revision: nat, from: State)         // recovery read the record
    | Cleaning(revision: nat, from: State)           // cleanup read the record
    | Emptied(revision: nat, from: State)            // cleanup unlinked the stream files
    | Swept(revision: nat, from: State)              // cleanup removed the run directory

  /**
   What the calls share. `hit` and `ready` are fixed when the plan is prepared; `history` lists
   the state each revision of the run record holds, `streams` is its streams_retained field.
   `starts` and `copies` count the effects the plan has had.
   */
  datatype Shared = Shared(
    hit: bool, ready: bool, history: seq<State>, streams: bool,
    dir: bool, stdout: bool, stderr: bool, registered: bool, starts: nat, copies: nat)

  datatype Plan = Plan(shared: Shared, calls: map<nat, Phase>)

  datatype Moved = Moved(shared: Shared, phase: Phase)

  /** Why the wait for the process ended, and whether it reported an error. */
  datatype End = End(cause: Cause, error: bool)

  datatype Cause = Exited | CancelledByCaller | TimeExpired

  function OutcomeOf(end: End): State {
    match end.cause
    case TimeExpired => TimedOut
    case CancelledByCaller => Cancelled
    case Exited => if end.error then Failed else Completed
  }

  datatype Action =
    | Load | Abort | MakeDir | OpenStdout | OpenStderr | Start(ok: bool)
    | RecordStartFailed | RecordRunning | Register | Finish(end: End)
    | RecordMaterializing | Copy(complete: bool) | RecordCopied
    | RecoverLoad | RecordInterrupted
    | CleanLoad | RemoveStreams | RemoveDir | RecordCleaned

  datatype Event = Act(call: nat, action: Action) | Crash

  function Fresh(hit: bool, ready: bool): Plan {
    Plan(Shared(hit, ready, [Prepared], false, false, false, false, false, 0, 0), map[])
  }

  function Revision(s: Shared): nat { |s.history| }

  function Last(history: seq<State>): State
    requires |history| > 0
  { history[|history| - 1] }

  /** States a restart turns into Interrupted. */
  predicate Live(s: State) { s.Running? || s.Materializing? }

  predicate Terminal(s: State) { !s.Prepared? && !Live(s) }

  /** updateRun: a write that succeeds only at the expected revision. */
  function Write(s: Shared, expected: nat, next: State): Shared {
    if Revision(s) == expected then s.(history := s.history + [next]) else s
  }

  predicate Launches(a: Action) {
    a.Load? || a.Abort? || a.MakeDir? || a.OpenStdout? || a.OpenStderr? || a.Start?
  }

  predicate Mends(a: Action) { a.RecoverLoad? || a.RecordInterrupted? }

  predicate Sweeps(a: Action) { a.CleanLoad? || a.RemoveStreams? || a.RemoveDir? || a.RecordCleaned? }

  predicate Reuses(a: Action) {
    a.RecordMaterializing? || a.Copy? || a.RecordCopied?
  }

  predicate Settles(a: Action) {
    a.RecordStartFailed? || a.RecordRunning? || a.Register? || a.Finish?
  }

  /** Execute up to the process start: the record is read, never written. */
  function Launch(s: Shared, p: Phase, a: Action): Moved {
    match a
    case Load =>
      Moved(s, if p.Idle? && s.history == [Prepared] && s.ready then Checked else p)
    case Abort =>
      Moved(s, if p.Waiting? then p else Idle)
    case MakeDir =>
      if p.Checked? && !s.hit then Moved(s.(dir := true), HasDir) else Moved(s, p)
    case OpenStdout =>
      if !p.HasDir? then Moved(s, p)
      else if s.dir && !s.stdout then Moved(s.(stdout := true), HasStdout)
      else Moved(s, Idle)
    case OpenStderr =>
      if !p.HasStdout? then Moved(s, p)
      else if s.dir && !s.stderr then Moved(s.(stderr := true), HasStderr)
      else Moved(s, Idle)
    case Start(ok) =>
      if !p.HasStderr? then Moved(s, p)
      else if ok then Moved(s.(starts := s.starts + 1), Started)
      else Moved(s, StartFailed)
    case _ => Moved(s, p)
  }

  /** What Execute and waitForRun record once the process start was attempted. */
  function Settle(s: Shared, p: Phase, a: Action): Moved {
    match a
    case RecordStartFailed =>
      if p.StartFailed? then Moved(Write(s, 1, Failed), Idle) else Moved(s, p)
    case RecordRunning =>
      if !p.Started? then Moved(s, p)
      else if Revision(s) == 1 then Moved(Write(s, 1, Running).(streams := true), Recorded)
      else Moved(s, Idle)
    case Register =>
      if !p.Recorded? then Moved(s, p)
      else if s.registered then Moved(s, Idle)
      else Moved(s.(registered := true), Waiting)
    case Finish(end) =>
      if p.Waiting? then Moved(Write(s, 2, OutcomeOf(end)).(registered := false), Idle) else Moved(s, p)
    case _ => Moved(s, p)
  }

  /** executeCacheHit: claim the plan by its revision, copy the cached outputs, record the outcome. */
  function Reuse(s: Shared, p: Phase, a: Action): Moved {
    match a
    case RecordMaterializing =>
      if !(p.Checked? && s.hit) then Moved(s, p)
      else if Revision(s) == 1 then Moved(Write(s, 1, Materializing), Copying)
      else Moved(s, Idle)
    case Copy(complete) =>
      if p.Copying? then Moved(s.(copies := s.copies + 1), Copied(complete)) else Moved(s, p)
    case RecordCopied =>
      if p.Copied? then Moved(Write(s, 2, if p.complete then Reused else Failed), Idle) else Moved(s, p)
    case _ => Moved(s, p)
  }

  /** Recovery after a restart. */
  function Mend(s: Shared, p: Phase, a: Action): Moved {
    match a
    case RecoverLoad =>
      Moved(s, if p.Idle? && s.history != [] && Live(Last(s.history)) then Recovering(Revision(s), Last(s.history))
                 else p)
    case RecordInterrupted =>
      if p.Recovering? then Moved(Write(s, p.revision, Interrupted), Idle) else Moved(s, p)
    case _ => Moved(s, p)
  }

  /** Retention cleanup. Removing the directory fails while it holds a file. */
  function Clean(s: Shared, p: Phase, a: Action): Moved {
    match a
    case CleanLoad =>
      Moved(s, if p.Idle? && s.history != [] && s.streams && !Last(s.history).Running?
               then Cleaning(Revision(s), Last(s.history)) else p)
    case RemoveStreams =>
      if p.Cleaning? then Moved(s.(stdout := false, stderr := false), Emptied(p.revision, p.from)) else Moved(s, p)
    case RemoveDir =>
      if !p.Emptied? then Moved(s, p)
      else if s.stdout || s.stderr then Moved(s, Idle)
      else Moved(s.(dir := false), Swept(p.revision, p.from))
    case RecordCleaned =>
      if !p.Swept? then Moved(s, p)
      else if Revision(s) == p.revision then Moved(Write(s, p.revision, p.from).(streams := false), Idle)
      else Moved(s, Idle)
    case _ => Moved(s, p)
  }

  function Move(s: Shared, p: Phase, a: Action): Moved {
    if Launches(a) then Launch(s, p, a)
    else if Settles(a) then Settle(s, p, a)
    else if Reuses(a) then Reuse(s, p, a)
    else if Mends(a) then Mend(s, p, a)
    else Clean(s, p, a)
  }

  function PhaseOf(w: Plan, c: nat): Phase {
    if c in w.calls then w.calls[c] else Idle
  }

  /** A crash loses every call and the table of running processes; files and the record stay. */
  function Step(w: Plan, e: Event): Plan {
    match e
    case Act(c, a) =>
      var m := Move(w.shared, PhaseOf(w, c), a);
      Plan(m.shared, w.calls[c := m.phase])
    case Crash => Plan(w.shared.(registered := false), map[])
  }

  function Run(w: Plan, events: seq<Event>): Plan {
    if events == [] then w else Step(Run(w, events[..|events| - 1]), events[|events| - 1])
  }

  // ---- The state graph ----

  /** One revision to the next; only cleanup rewrites a record, once it is terminal, without changing its state. */
  predicate Edge(a: State, b: State) {
    match a
    case Prepared => b.Running? || b.Materializing? || b.Failed?
    case Running => b.Completed? || b.Failed? || b.Cancelled? || b.TimedOut? || b.Interrupted?
    case Materializing => b.Reused? || b.Failed? || b.Interrupted?
    case _ => b == a
  }

  ghost predicate Path(history: seq<State>) {
    && |history| > 0 && history[0] == Prepared
    && forall i :: 0 <= i < |history| - 1 ==> Edge(history[i], history[i + 1])
  }

  /** What a call read is what that revision of the record says. */
  ghost predicate Reads(history: seq<State>, p: Phase) {
    match p
    case Recorded => |history| >= 2 && history[1].Running?
    case Waiting => |history| >= 2 && history[1].Running?
    case Copying => |history| >= 2 && history[1].Materializing?
    case Copied(_) => |history| >= 2 && history[1].Materializing?
    case Recovering(r, from) => 1 <= r <= |history| && history[r - 1] == from && Live(from)
    case Cleaning(r, from) => 1 <= r <= |history| && history[r - 1] == from && Terminal(from)
    case Emptied(r, from) => 1 <= r <= |history| && history[r - 1] == from && Terminal(from)
    case Swept(r, from) => 1 <= r <= |history| && history[r - 1] == from && Terminal(from)
    case _ => true
  }

  /** The part of the record a single step depends on. */
  ghost predicate Begun(s: Shared) {
    && |s.history| > 0
    && (|s.history| == 1 ==> s.history[0].Prepared?)
    && (s.streams ==> Last(s.history).Running? || Terminal(Last(s.history)))
  }

  ghost predicate Follows(h: seq<State>, g: seq<State>) {
    g == h || (|h| > 0 && |g| == |h| + 1 && g[..|h|] == h && Edge(Last(h), Last(g)))
  }

  lemma LaunchRecords(s: Shared, p: Phase, a: Action)
    requires Launches(a) && Reads(s.history, p) && Begun(s)
    ensures var m := Launch(s, p, a);
      m.shared.history == s.history && Begun(m.shared) && Reads(m.shared.history, m.phase)
  {
    match a {
      case Load =>
      case Abort =>
      case MakeDir =>
      case OpenStdout =>
      case OpenStderr =>
      case Start(_) =>
    }
  }

  /** A write that lands keeps to the graph, and keeps every earlier revision. */
  lemma WriteFollows(s: Shared, expected: nat, next: State)
    requires s.history != [] && (Revision(s) == expected ==> Edge(Last(s.history), next))
    ensures
      var h := Write(s, expected, next).history;
      Follows(s.history, h) && h != [] && (Revision(s) == expected ==> Last(h) == next) && s.history <= h
    ensures Begun(s) ==> Begun(Write(s, expected, next))
  {
    assert Revision(s) == expected ==> Last(s.history + [next]) == next;
  }

  lemma SettleFollows(s: Shared, p: Phase, a: Action)
    requires Settles(a) && Reads(s.history, p) && Begun(s)
    ensures Follows(s.history, Settle(s, p, a).shared.history) && Begun(Settle(s, p, a).shared)
  {
    match a {
      case RecordStartFailed => WriteFollows(s, 1, Failed);
      case RecordRunning => WriteFollows(s, 1, Running);
      case Register =>
      case Finish(end) => FinishFollows(s, p, end);
    }
  }

  lemma FinishFollows(s: Shared, p: Phase, end: End)
    requires Reads(s.history, p) && Begun(s)
    ensures var m := Settle(s, p, Finish(end)); Follows(s.history, m.shared.history) && Begun(m.shared)
  {
    if p.Waiting? {
      WriteFollows(s, 2, OutcomeOf(end));
      assert Settle(s, p, Finish(end)).shared == Write(s, 2, OutcomeOf(end)).(registered := false);
    } else {
      assert Settle(s, p, Finish(end)).shared == s;
    }
  }

  lemma SettleReads(s: Shared, p: Phase, a: Action)
    requires Settles(a) && Reads(s.history, p) && Begun(s)
    ensures Reads(Settle(s, p, a).shared.history, Settle(s, p, a).phase)
  {
    match a {
      case RecordStartFailed =>
      case RecordRunning => WriteFollows(s, 1, Running);
      case Register =>
      case Finish(_) =>
    }
  }

  lemma ReuseRecords(s: Shared, p: Phase, a: Action)
    requires Reuses(a) && Reads(s.history, p) && Begun(s)
    ensures var m := Reuse(s, p, a);
      Follows(s.history, m.shared.history) && Begun(m.shared) && Reads(m.shared.history, m.phase)
  {
    match a {
      case RecordMaterializing => WriteFollows(s, 1, Materializing);
      case Copy(_) =>
      case RecordCopied => if p.Copied? { WriteFollows(s, 2, if p.complete then Reused else Failed); }
    }
  }

  lemma MendRecords(s: Shared, p: Phase, a: Action)
    requires Mends(a) && Reads(s.history, p) && Begun(s)
    ensures var m := Mend(s, p, a);
      Follows(s.history, m.shared.history) && Begun(m.shared) && Reads(m.shared.history, m.phase)
  {
    match a {
      case RecoverLoad =>
      case RecordInterrupted => if p.Recovering? { WriteFollows(s, p.revision, Interrupted); }
    }
  }

  lemma CleanFollows(s: Shared, p: Phase, a: Action)
    requires Sweeps(a) && Reads(s.history, p) && Begun(s)
    ensures Follows(s.history, Clean(s, p, a).shared.history) && Begun(Clean(s, p, a).shared)
  {
    match a {
      case CleanLoad =>
      case RemoveStreams =>
      case RemoveDir =>
      case RecordCleaned => if p.Swept? { WriteFollows(s, p.revision, p.from); }
    }
  }

  lemma CleanReads(s: Shared, p: Phase, a: Action)
    requires Sweeps(a) && Reads(s.history, p) && Begun(s)
    ensures Reads(Clean(s, p, a).shared.history, Clean(s, p, a).phase)
  {
    match a {
      case CleanLoad =>
      case RemoveStreams =>
      case RemoveDir =>
      case RecordCleaned =>
    }
  }

  lemma MoveRecords(s: Shared, p: Phase, a: Action)
    requires Reads(s.history, p) && Begun(s)
    ensures var m := Move(s, p, a);
      Follows(s.history, m.shared.history) && Begun(m.shared) && Reads(m.shared.history, m.phase)
  {
    if Launches(a) {
      LaunchRecords(s, p, a);
    } else if Settles(a) {
      SettleFollows(s, p, a);
      SettleReads(s, p, a);
    } else if Reuses(a) {
      ReuseRecords(s, p, a);
    } else if Mends(a) {
      MendRecords(s, p, a);
    } else {
      CleanFollows(s, p, a);
      CleanReads(s, p, a);
    }
  }

  lemma PathGrows(h: seq<State>, g: seq<State>)
    requires Path(h) && Follows(h, g)
    ensures Path(g) && h <= g
  {
    if g != h {
      forall i | 0 <= i < |g| - 1 ensures Edge(g[i], g[i + 1]) {
        assert g[..|h|][i] == h[i];
        if i < |h| - 1 {
          assert g[..|h|][i + 1] == h[i + 1];
          assert Edge(h[i], h[i + 1]);
        }
      }
      assert g[..|h|][0] == h[0];
    }
  }

  lemma StillReads(h: seq<State>, g: seq<State>, p: Phase)
    requires h <= g && Reads(h, p)
    ensures Reads(g, p)
  {
  }

  ghost predicate HistoryInv(w: Plan) {
    && Path(w.shared.history) && Begun(w.shared)
    && forall c :: Reads(w.shared.history, PhaseOf(w, c))
  }

  lemma StepHistory(w: Plan, e: Event)
    requires HistoryInv(w)
    ensures HistoryInv(Step(w, e)) && w.shared.history <= Step(w, e).shared.history
  {
    var z := Step(w, e);
    if e.Act? {
      MoveRecords(w.shared, PhaseOf(w, e.call), e.action);
      PathGrows(w.shared.history, z.shared.history);
      forall c ensures Reads(z.shared.history, PhaseOf(z, c)) {
        if c != e.call {
          assert PhaseOf(z, c) == PhaseOf(w, c);
          StillReads(w.shared.history, z.shared.history, PhaseOf(w, c));
        }
      }
    }
  }

  /** Along any run, whoever wins each revision, the record's states are a path of the graph. */
  lemma {:induction false} HistoryIsPath(hit: bool, ready: bool, events: seq<Event>)
    ensures HistoryInv(Run(Fresh(hit, ready), events))
  {
    if events != [] {
      HistoryIsPath(hit, ready, events[..|events| - 1]);
      StepHistory(Run(Fresh(hit, ready), events[..|events| - 1]), events[|events| - 1]);
    }
  }

  /** Once a revision is terminal, every later revision has the same state. */
  lemma {:induction false} TerminalStays(history: seq<State>, i: nat, j: nat)
    requires Path(history) && i <= j < |history| && Terminal(history[i])
    ensures history[j] == history[i]
  {
    if i < j {
      TerminalStays(history, i, j - 1);
      assert Edge(history[j - 1], history[j - 1 + 1]);
    }
  }
}
