/**
 Replacing the isolated root by a tree of cached outputs, and putting it right after a crash.
 Renames are atomic; writing the marker and removing a tree are not. Swaps of one root follow
 one another; recovery runs before the next one begins.
 */
module Swap {

  type Files = map<string, string>

  datatype Slot = Absent | Dir(files: Files)

  datatype Marker = None | Partial | Complete

  datatype Point =
    | Idle
    | Staging(todo: Files)       // filling the stage directory
    | Marking                    // stage complete, writing the marker
    | Marked
    | Aside(existed: bool)       // the old root, if any, is now the backup
    | Installed(existed: bool)   // the stage is now the root
    | Unmarking
    | Down                       // crashed
    | Clearing                   // recovery removing a stale backup
    | Dropping                   // recovery about to remove the marker

  /** `before` is the root when the latest swap began, `target` the tree it installs. */
  datatype Disk = Disk(root: Slot, backup: Slot, stage: Slot, marker: Marker, at: Point, before: Slot, target: Files)

  datatype Action =
    | Begin(outputs: Files)
    | Put(path: string)
    | Abandon
    | StartMarker
    | EndMarker
    | MoveAside
    | Install
    | Unlink(path: string)
    | RemoveBackup
    | RemoveMarker
    | Recover
    | Crash

  function Fresh(root: Slot): Disk {
    Disk(root, Absent, Absent, None, Idle, root, map[])
  }

  /** The stage is filled, the marker written, and only then is the root touched. */
  function Swapping(d: Disk, a: Action): Disk {
    match a
    case Begin(outputs) =>
      if d.at.Idle? then d.(stage := Dir(map[]), at := Staging(outputs), before := d.root, target := outputs) else d
    case Put(path) =>
      if d.at.Staging? && d.stage.Dir? && path in d.at.todo
      then d.(stage := Dir(d.stage.files[path := d.at.todo[path]]), at := Staging(d.at.todo - {path})) else d
    case Abandon =>
      if d.at.Staging? then d.(stage := Absent, at := Idle) else d
    case StartMarker =>
      if d.at == Staging(map[]) then d.(marker := Partial, at := Marking) else d
    case EndMarker =>
      if d.at.Marking? then d.(marker := Complete, at := Marked) else d
    case MoveAside =>
      if !d.at.Marked? then d
      else if d.root.Dir? then d.(root := Absent, backup := d.root, at := Aside(true))
      else d.(at := Aside(false))
    case Install =>
      if d.at.Aside? then d.(root := d.stage, stage := Absent, at := Installed(d.at.existed)) else d
    case _ => d
  }

  /** A recovery pass reads a complete marker; an unreadable one is passed over. */
  function Recovered(d: Disk): Disk {
    if !d.marker.Complete? then d.(marker := None, at := Idle)
    else if d.root.Absent? && d.backup.Dir? then d.(root := d.backup, backup := Absent, at := Dropping)
    else if d.root.Dir? && d.backup.Dir? then d.(at := Clearing)
    else d.(at := Dropping)
  }

  /** Removing the backup goes file by file, both at the end of a swap and in recovery. */
  function Tidying(d: Disk, a: Action): Disk {
    match a
    case Unlink(path) =>
      if (d.at.Installed? || d.at.Clearing?) && d.backup.Dir? then d.(backup := Dir(d.backup.files - {path})) else d
    case RemoveBackup =>
      if d.at.Installed? && !d.at.existed then d.(at := Unmarking)
      else if d.backup != Dir(map[]) then d
      else if d.at.Installed? then d.(backup := Absent, at := Unmarking)
      else if d.at.Clearing? then d.(backup := Absent, at := Dropping)
      else d
    case RemoveMarker =>
      if d.at.Unmarking? || d.at.Dropping? then d.(marker := None, at := Idle) else d
    case Recover => if d.at.Down? then Recovered(d) else d
    case Crash => d.(at := Down)
    case _ => d
  }

  predicate Swaps(a: Action) {
    a.Begin? || a.Put? || a.Abandon? || a.StartMarker? || a.EndMarker? || a.MoveAside? || a.Install?
  }

  function Step(d: Disk, a: Action): Disk {
    if Swaps(a) then Swapping(d, a) else Tidying(d, a)
  }

  function Run(d: Disk, actions: seq<Action>): Disk {
    if actions == [] then d else Step(Run(d, actions[..|actions| - 1]), actions[|actions| - 1])
  }

  // ---- What every step keeps ----

  /** The complete old tree or the complete new one. */
  predicate Sound(d: Disk) {
    d.root == d.before || d.root == Dir(d.target)
  }

  /** What may be on disk when the server comes up. */
  predicate Recoverable(d: Disk) {
    if d.root.Absent? && d.before.Dir? then d.marker.Complete? && d.backup == d.before
    else Sound(d) && (d.backup.Dir? ==> d.marker.Complete? && d.root.Dir?)
  }

  predicate Inv(d: Disk) {
    match d.at
    case Idle => Sound(d) && d.backup.Absent? && d.marker.None?
    case Staging(todo) => d.root == d.before && d.backup.Absent? && d.marker.None? && d.stage.Dir?
                            && d.stage.files + todo == d.target
    case Marking => d.root == d.before && d.backup.Absent? && d.stage == Dir(d.target)
    case Marked => d.root == d.before && d.backup.Absent? && d.stage == Dir(d.target) && d.marker.Complete?
    case Aside(existed) => d.root.Absent? && d.backup == d.before && d.stage == Dir(d.target) && d.marker.Complete?
                             && existed == d.before.Dir?
    case Installed(existed) => d.root == Dir(d.target) && d.marker.Complete? && existed == d.backup.Dir?
    case Unmarking => d.root == Dir(d.target) && d.backup.Absent? && d.marker.Complete?
    case Down => Recoverable(d)
    case Clearing => Sound(d) && d.root.Dir? && d.backup.Dir? && d.marker.Complete?
    case Dropping => Sound(d) && d.backup.Absent? && d.marker.Complete?
  }

  lemma SwappingKeeps(d: Disk, a: Action)
    requires Swaps(a) && Inv(d)
    ensures Inv(Swapping(d, a))
  {
    match a {
      case Begin(_) =>
      case Put(path) =>
        if d.at.Staging? && path in d.at.todo {
          assert d.stage.files[path := d.at.todo[path]] + (d.at.todo - {path}) == d.stage.files + d.at.todo;
        }
      case Abandon =>
      case StartMarker => if d.at == Staging(map[]) { assert d.stage.files + map[] == d.stage.files; }
      case EndMarker =>
      case MoveAside =>
      case Install =>
    }
  }

  lemma TidyingKeeps(d: Disk, a: Action)
    requires !Swaps(a) && Inv(d)
    ensures Inv(Tidying(d, a))
  {
    match a {
      case Unlink(_) =>
      case RemoveBackup =>
      case RemoveMarker =>
      case Recover =>
      case Crash =>
    }
  }

  lemma {:induction false} RunKeeps(root: Slot, actions: seq<Action>)
    ensures Inv(Run(Fresh(root), actions))
  {
    if actions != [] {
      RunKeeps(root, actions[..|actions| - 1]);
      var d := Run(Fresh(root), actions[..|actions| - 1]);
      var a := actions[|actions| - 1];
      if Swaps(a) { SwappingKeeps(d, a); } else { TidyingKeeps(d, a); }
    }
  }

  /**
   Whatever was interrupted, once nothing is in progress the root is the complete old tree or the
   complete new one, absent only if it was absent before, and no backup remains.
   */
  lemma SwapSurvives(root: Slot, actions: seq<Action>)
    ensures var d := Run(Fresh(root), actions);
      d.at.Idle? ==> Sound(d) && (d.root.Absent? ==> d.before.Absent?) && d.backup.Absent?
  {
    RunKeeps(root, actions);
  }

  /** A swap that runs to its end has installed the new tree. */
  lemma SwapInstalls(root: Slot, actions: seq<Action>)
    requires Run(Fresh(root), actions).at.Unmarking?
    ensures var d := Step(Run(Fresh(root), actions), RemoveMarker);
      d.at.Idle? && d.root == Dir(d.target) && d.backup.Absent? && d.marker.None?
  {
    RunKeeps(root, actions);
  }

  // ---- What recovery decides ----

  /** The new tree is the root, and no swap is about to move it. */
  predicate Settled(d: Disk) {
    d.root == Dir(d.target) && !d.at.Staging? && !d.at.Marking? && !d.at.Marked? && !d.at.Aside?
  }

  lemma {:induction false} SettledStays(d: Disk, actions: seq<Action>)
    requires Inv(d) && Settled(d) && forall i :: 0 <= i < |actions| ==> !actions[i].Begin?
    ensures Inv(Run(d, actions)) && Settled(Run(d, actions)) && Run(d, actions).target == d.target
  {
    if actions != [] {
      var n := |actions| - 1;
      SettledStays(d, actions[..n]);
      var e := Run(d, actions[..n]);
      if Swaps(actions[n]) { SwappingKeeps(e, actions[n]); } else { TidyingKeeps(e, actions[n]); }
    }
  }

  /** Once the new tree is in place it stays there, through crashes and recovery, until the next swap begins. */
  lemma InstalledStays(root: Slot, before: seq<Action>, later: seq<Action>)
    requires Run(Fresh(root), before).at.Installed?
    requires forall i :: 0 <= i < |later| ==> !later[i].Begin?
    ensures var d := Run(Fresh(root), before); Run(d, later).root == Dir(d.target)
  {
    RunKeeps(root, before);
    SettledStays(Run(Fresh(root), before), later);
  }

  /** A crash after the old tree was moved aside is undone: recovery puts it back at once. */
  lemma AsideUndone(root: Slot, before: seq<Action>)
    requires Run(Fresh(root), before).at == Aside(true)
    ensures var d := Run(Fresh(root), before); d.before.Dir? && Step(Step(d, Crash), Recover).root == d.before
  {
    RunKeeps(root, before);
  }

  // ---- Recovery ends ----

  lemma {:induction false} ClearingEnds(d: Disk) returns (actions: seq<Action>)
    requires Inv(d) && d.at.Clearing?
    ensures Run(d, actions).at.Dropping? && Crash !in actions
    decreases |d.backup.files|
  {
    if d.backup.files == map[] {
      actions := [RemoveBackup];
      assert Run(d, []) == d && actions[..0] == [];
    } else {
      var path :| path in d.backup.files;
      var next := Step(d, Unlink(path));
      TidyingKeeps(d, Unlink(path));
      assert next.backup.files.Keys == d.backup.files.Keys - {path};
      assert |next.backup.files.Keys| < |d.backup.files.Keys|;
      assert |next.backup.files| < |d.backup.files|;
      var rest := ClearingEnds(next);
      actions := [Unlink(path)] + rest;
      RunFirst(d, Unlink(path), rest);
    }
  }

  lemma {:induction false} RunFirst(d: Disk, a: Action, rest: seq<Action>)
    ensures Run(d, [a] + rest) == Run(Step(d, a), rest)
  {
    if rest == [] {
      assert [a] + rest == [a] && [a][..0] == [];
    } else {
      var n := |rest| - 1;
      assert ([a] + rest)[..n + 1] == [a] + rest[..n];
      RunFirst(d, a, rest[..n]);
    }
  }

  lemma RunLast(d: Disk, actions: seq<Action>, a: Action)
    ensures Run(d, actions + [a]) == Step(Run(d, actions), a)
  {
    assert (actions + [a])[..|actions|] == actions;
  }

  /** From any crash, an undisturbed recovery reaches the idle state. */
  lemma RecoveryEnds(root: Slot, before: seq<Action>) returns (actions: seq<Action>)
    requires Run(Fresh(root), before).at.Down?
    ensures Run(Run(Fresh(root), before), actions).at.Idle? && Crash !in actions
  {
    var d := Run(Fresh(root), before);
    RunKeeps(root, before);
    TidyingKeeps(d, Recover);
    var e := Step(d, Recover);
    var rest: seq<Action> := [];
    if e.at.Clearing? { rest := ClearingEnds(e); }
    if Run(e, rest).at.Dropping? {
      RunLast(e, rest, RemoveMarker);
      rest := rest + [RemoveMarker];
    }
    RunFirst(d, Recover, rest);
    actions := [Recover] + rest;
  }

  // ---- An undisturbed swap ends ----

  lemma {:induction false} StagingEnds(d: Disk) returns (actions: seq<Action>)
    requires Inv(d) && d.at.Staging?
    ensures Crash !in actions && Inv(Run(d, actions)) && Run(d, actions).at == Staging(map[])
    ensures Run(d, actions).target == d.target
    decreases |d.at.todo|
  {
    actions := [];
    if d.at.todo != map[] {
      var path :| path in d.at.todo;
      var next := Step(d, Put(path));
      SwappingKeeps(d, Put(path));
      assert next.at.todo.Keys == d.at.todo.Keys - {path};
      assert |next.at.todo.Keys| < |d.at.todo.Keys|;
      assert |next.at.todo| < |d.at.todo|;
      var rest := StagingEnds(next);
      RunFirst(d, Put(path), rest);
      actions := [Put(path)] + rest;
    }
  }

  lemma {:induction false} DiscardEnds(d: Disk) returns (actions: seq<Action>)
    requires Inv(d) && d.at.Installed?
    ensures Crash !in actions && Inv(Run(d, actions)) && Run(d, actions).at.Unmarking?
    ensures Run(d, actions).target == d.target
    decreases if d.backup.Dir? then |d.backup.files| else 0
  {
    if d.backup.Absent? || d.backup.files == map[] {
      actions := [] + [RemoveBackup];
      RunLast(d, [], RemoveBackup);
      TidyingKeeps(d, RemoveBackup);
    } else {
      var path :| path in d.backup.files;
      var next := Step(d, Unlink(path));
      TidyingKeeps(d, Unlink(path));
      assert next.backup.files.Keys == d.backup.files.Keys - {path};
      assert |next.backup.files.Keys| < |d.backup.files.Keys|;
      assert |next.backup.files| < |d.backup.files|;
      var rest := DiscardEnds(next);
      RunFirst(d, Unlink(path), rest);
      actions := [Unlink(path)] + rest;
    }
  }

  lemma {:induction false} RunConcat(d: Disk, a: seq<Action>, b: seq<Action>)
    ensures Run(d, a + b) == Run(Run(d, a), b)
  {
    if b == [] {
      assert a + b == a;
    } else {
      var n := |b| - 1;
      assert (a + b)[..|a| + n] == a + b[..n];
      RunConcat(d, a, b[..n]);
    }
  }

  /** From a full stage to the installed root. */
  lemma InstallEnds(d: Disk) returns (actions: seq<Action>)
    requires Inv(d) && d.at == Staging(map[])
    ensures Crash !in actions && Inv(Run(d, actions)) && Run(d, actions).at.Installed?
    ensures Run(d, actions).target == d.target
  {
    RunLast(d, [], StartMarker);
    SwappingKeeps(d, StartMarker);
    var one := Step(d, StartMarker);
    RunLast(d, [] + [StartMarker], EndMarker);
    SwappingKeeps(one, EndMarker);
    var two := Step(one, EndMarker);
    RunLast(d, [] + [StartMarker] + [EndMarker], MoveAside);
    SwappingKeeps(two, MoveAside);
    var three := Step(two, MoveAside);
    RunLast(d, [] + [StartMarker] + [EndMarker] + [MoveAside], Install);
    SwappingKeeps(three, Install);
    actions := [] + [StartMarker] + [EndMarker] + [MoveAside] + [Install];
  }

  /** Any tree can be installed: an undisturbed swap reaches the idle state with it as the root. */
  lemma SwapEnds(root: Slot, before: seq<Action>, outputs: Files) returns (actions: seq<Action>)
    requires Run(Fresh(root), before).at.Idle?
    ensures Crash !in actions
    ensures var d := Run(Run(Fresh(root), before), actions); d.at.Idle? && d.root == Dir(outputs) && d.backup.Absent?
  {
    RunKeeps(root, before);
    var d := Run(Fresh(root), before);
    SwappingKeeps(d, Begin(outputs));
    var begun := Step(d, Begin(outputs));
    var a := StagingEnds(begun);
    var b := InstallEnds(Run(begun, a));
    RunConcat(begun, a, b);
    var c := DiscardEnds(Run(begun, a + b));
    RunConcat(begun, a + b, c);
    RunLast(begun, a + b + c, RemoveMarker);
    RunFirst(d, Begin(outputs), a + b + c + [RemoveMarker]);
    actions := [Begin(outputs)] + (a + b + c + [RemoveMarker]);
  }
}
