/**
 The accept loops and `shutdown` read off the history of a run alone: which
 step may come next, and whose file lies at every path. The step system of
 `Sockets` is proved to allow exactly these histories.
 */
module SocketsHistory {
  import opened Wrappers
  import opened Sockets

  ghost predicate DidUnlinkFirst(acts: seq<Action>, i: nat) {
    UnlinkFirst(i, true) in acts || UnlinkFirst(i, false) in acts
  }

  ghost predicate DidUnlinkLast(acts: seq<Action>, i: nat) {
    UnlinkLast(i, true) in acts || UnlinkLast(i, false) in acts
  }

  /** How many tasks were asked to abort; they are asked in order. */
  ghost function Asked(acts: seq<Action>): nat {
    if acts == [] then 0 else Asked(acts[..|acts| - 1]) + if acts[|acts| - 1].Abort? then 1 else 0
  }

  /** `step` takes the file at `path` away, if there is one. */
  predicate Removes(added: seq<Bridge>, step: Action, path: Path) {
    || step == Clean(path)
    || ((step.UnlinkFirst? || step.UnlinkLast?) && step.removed && step.i < |added| && added[step.i].path == path)
  }

  /** The last step that touched `path` decides whose file lies there. */
  ghost function FileAt(added: seq<Bridge>, files: map<Path, Owner>, acts: seq<Action>, path: Path): Option<Owner> {
    if acts == [] then if path in files then Some(files[path]) else None
    else
      var front, a := acts[..|acts| - 1], acts[|acts| - 1];
      if a.Bind? && a.i < |added| && added[a.i].path == path then Some(Task(a.i))
      else if Removes(added, a, path) then None
      else FileAt(added, files, front, path)
  }

  /** Whether a step may follow on a history. */
  ghost predicate Due(added: seq<Bridge>, files: map<Path, Owner>, acts: seq<Action>, a: Action) {
    match a
    case Start(i) => i < |added| && Start(i) !in acts && Stop(i) !in acts && i >= Asked(acts)
    case UnlinkFirst(i, _) => Start(i) in acts && !DidUnlinkFirst(acts, i)
    case Bind(i) =>
      && DidUnlinkFirst(acts, i) && Bind(i) !in acts && FailBind(i) !in acts
      && i < |added| && FileAt(added, files, acts, added[i].path).None?
    case FailBind(i) => DidUnlinkFirst(acts, i) && Bind(i) !in acts && FailBind(i) !in acts
    case UnlinkLast(i, _) => FailBind(i) in acts && !DidUnlinkLast(acts, i)
    // Only an await point sees the abort: before the first poll, or while it listens.
    case Stop(i) => i < |added| && i < Asked(acts) && Stop(i) !in acts && (Start(i) in acts ==> Bind(i) in acts)
    case BeginShutdown => BeginShutdown !in acts
    case Abort => BeginShutdown in acts && BeginCleanup !in acts && Asked(acts) < |added|
    case BeginCleanup => BeginShutdown in acts && BeginCleanup !in acts && Asked(acts) == |added|
    case Clean(path) => BeginCleanup in acts && path in CleanupSet(added) && Clean(path) !in acts
    case EndShutdown =>
      BeginCleanup in acts && EndShutdown !in acts && forall path :: path in CleanupSet(added) ==> Clean(path) in acts
  }

  ghost predicate InOrder(added: seq<Bridge>, files: map<Path, Owner>, acts: seq<Action>) {
    forall k :: 0 <= k < |acts| ==> Due(added, files, acts[..k], acts[k])
  }

  // ----- the step system agrees -----

  /** What the history says about loop `i`. */
  ghost predicate LoopReads(acts: seq<Action>, i: nat, pc: Pc) {
    && (pc.Queued? <==> Start(i) !in acts && Stop(i) !in acts)
    && (pc.Started? <==> Start(i) in acts && !DidUnlinkFirst(acts, i))
    && (pc.Unlinked? <==> DidUnlinkFirst(acts, i) && Bind(i) !in acts && FailBind(i) !in acts)
    && (pc.Listening? <==> Bind(i) in acts && Stop(i) !in acts)
    && (pc.BindFailed? <==> FailBind(i) in acts && !DidUnlinkLast(acts, i))
    && (pc.Exited? <==> DidUnlinkLast(acts, i))
    && (pc.Stopped? <==> Stop(i) in acts)
    && (DidUnlinkFirst(acts, i) ==> Start(i) in acts)
    && (Bind(i) in acts || FailBind(i) in acts ==> DidUnlinkFirst(acts, i))
    && (DidUnlinkLast(acts, i) ==> FailBind(i) in acts)
  }

  ghost predicate PhaseReads(added: seq<Bridge>, acts: seq<Action>, phase: Phase) {
    && (phase.Serving? <==> BeginShutdown !in acts)
    && (phase.Aborting? <==> BeginShutdown in acts && BeginCleanup !in acts)
    && (phase.Aborting? ==> phase.next == Asked(acts))
    && (phase.Cleaning? <==> BeginCleanup in acts && EndShutdown !in acts)
    && (phase.Cleaning? ==>
          forall path :: path in phase.left <==> path in CleanupSet(added) && Clean(path) !in acts)
    && (phase.ShutDown? <==> EndShutdown in acts)
    && (BeginCleanup in acts ==> BeginShutdown in acts)
    && (EndShutdown in acts ==>
          BeginCleanup in acts && forall path :: path in CleanupSet(added) ==> Clean(path) in acts)
    && (BeginCleanup !in acts ==> forall path :: Clean(path) !in acts)
    && (BeginShutdown !in acts ==> Asked(acts) == 0)
  }

  ghost predicate FilesRead(added: seq<Bridge>, files: map<Path, Owner>, acts: seq<Action>, now: map<Path, Owner>) {
    forall path :: FileAt(added, files, acts, path) == if path in now then Some(now[path]) else None
  }

  ghost predicate NothingOf(acts: seq<Action>, i: nat) {
    && Start(i) !in acts && !DidUnlinkFirst(acts, i) && FailBind(i) !in acts
  }

  ghost predicate Reads(added: seq<Bridge>, files: map<Path, Owner>, acts: seq<Action>, s: State) {
    && Fits(added, s) && Asked(acts) <= |added|
    && (forall i :: 0 <= i < |added| ==> LoopReads(acts, i, s.pc[i]) && (s.aborted[i] <==> i < Asked(acts)))
    && (forall i: nat :: i >= |added| ==> NothingOf(acts, i))
    && PhaseReads(added, acts, s.phase)
    && FilesRead(added, files, acts, s.files)
  }

  lemma LoopStepIffDue(added: seq<Bridge>, files: map<Path, Owner>, acts: seq<Action>, s: State, a: Action)
    requires Reads(added, files, acts, s)
    requires a.Start? || a.UnlinkFirst? || a.Bind? || a.FailBind? || a.UnlinkLast? || a.Stop?
    ensures Sockets.Enabled(added, s, a) <==> Due(added, files, acts, a)
  {
    if a.i >= |added| {
      assert NothingOf(acts, a.i);
    } else {
      assert LoopReads(acts, a.i, s.pc[a.i]);
      assert FileAt(added, files, acts, added[a.i].path).Some? <==> added[a.i].path in s.files;
    }
  }

  lemma PhaseStepIffDue(added: seq<Bridge>, files: map<Path, Owner>, acts: seq<Action>, s: State, a: Action)
    requires Reads(added, files, acts, s)
    requires a.BeginShutdown? || a.Abort? || a.BeginCleanup? || a.Clean? || a.EndShutdown?
    ensures Sockets.Enabled(added, s, a) <==> Due(added, files, acts, a)
  {
    if a.EndShutdown? && s.phase.Cleaning? {
      assert s.phase.left == {} <==> forall path :: path in CleanupSet(added) ==> Clean(path) in acts;
    }
  }

  lemma LoopGrows(acts: seq<Action>, a: Action, i: nat)
    ensures forall b :: b in acts + [a] <==> b in acts || a == b
    ensures Asked(acts + [a]) == Asked(acts) + if a.Abort? then 1 else 0
  {
    assert (acts + [a])[..|acts|] == acts;
  }

  lemma FileGrows(added: seq<Bridge>, files: map<Path, Owner>, acts: seq<Action>, a: Action, path: Path)
    ensures FileAt(added, files, acts + [a], path) ==
              if a.Bind? && a.i < |added| && added[a.i].path == path then Some(Task(a.i))
              else if Removes(added, a, path) then None
              else FileAt(added, files, acts, path)
  {
    assert (acts + [a])[..|acts|] == acts;
  }

  lemma StepReadsFiles(added: seq<Bridge>, files: map<Path, Owner>, acts: seq<Action>, s: State, a: Action)
    requires Fits(added, s) && FilesRead(added, files, acts, s.files) && Sockets.Enabled(added, s, a)
    ensures FilesRead(added, files, acts + [a], Apply(added, s, a).files)
  {
    var now := Apply(added, s, a).files;
    forall path
      ensures FileAt(added, files, acts + [a], path) == if path in now then Some(now[path]) else None
    {
      FileGrows(added, files, acts, a, path);
    }
  }

  predicate Names(a: Action, i: nat) {
    (a.Start? || a.UnlinkFirst? || a.Bind? || a.FailBind? || a.UnlinkLast? || a.Stop?) && a.i == i
  }

  lemma OtherStepReadsLoop(acts: seq<Action>, a: Action, i: nat, pc: Pc)
    requires LoopReads(acts, i, pc) && !Names(a, i)
    ensures LoopReads(acts + [a], i, pc)
  {
    LoopGrows(acts, a, i);
  }

  lemma FirstStepsRead(acts: seq<Action>, a: Action, i: nat, pc: Pc)
    requires LoopReads(acts, i, pc)
    ensures a == Start(i) && pc.Queued? ==> LoopReads(acts + [a], i, Started)
    ensures a.UnlinkFirst? && a.i == i && pc.Started? ==> LoopReads(acts + [a], i, Unlinked)
    ensures a == Stop(i) && (pc.Queued? || pc.Listening?) ==> LoopReads(acts + [a], i, Stopped)
  {
    LoopGrows(acts, a, i);
  }

  lemma BindStepsRead(acts: seq<Action>, a: Action, i: nat, pc: Pc)
    requires LoopReads(acts, i, pc)
    ensures a == Bind(i) && pc.Unlinked? ==> LoopReads(acts + [a], i, Listening)
    ensures a == FailBind(i) && pc.Unlinked? ==> LoopReads(acts + [a], i, BindFailed)
    ensures a.UnlinkLast? && a.i == i && pc.BindFailed? ==> LoopReads(acts + [a], i, Exited)
  {
    LoopGrows(acts, a, i);
  }

  lemma StepReadsLoop(added: seq<Bridge>, acts: seq<Action>, s: State, a: Action, i: nat)
    requires Fits(added, s) && i < |added| && LoopReads(acts, i, s.pc[i]) && Sockets.Enabled(added, s, a)
    ensures LoopReads(acts + [a], i, Apply(added, s, a).pc[i])
  {
    if Names(a, i) {
      FirstStepsRead(acts, a, i, s.pc[i]);
      BindStepsRead(acts, a, i, s.pc[i]);
    } else {
      OtherStepReadsLoop(acts, a, i, s.pc[i]);
    }
  }

  lemma StepReadsAborts(added: seq<Bridge>, acts: seq<Action>, s: State, a: Action)
    requires Fits(added, s) && PhaseReads(added, acts, s.phase) && Sockets.Enabled(added, s, a)
    requires Asked(acts) <= |added| && forall i :: 0 <= i < |added| ==> (s.aborted[i] <==> i < Asked(acts))
    ensures Asked(acts + [a]) <= |added|
    ensures forall i :: 0 <= i < |added| ==> (Apply(added, s, a).aborted[i] <==> i < Asked(acts + [a]))
  {
    LoopGrows(acts, a, 0);
  }

  lemma StepNamesNoOther(added: seq<Bridge>, acts: seq<Action>, s: State, a: Action, i: nat)
    requires Fits(added, s) && Sockets.Enabled(added, s, a) && NothingOf(acts, i) && i >= |added|
    ensures NothingOf(acts + [a], i)
  {
    LoopGrows(acts, a, i);
  }

  lemma StepReadsPhase(added: seq<Bridge>, acts: seq<Action>, s: State, a: Action)
    requires Fits(added, s) && PhaseReads(added, acts, s.phase) && Sockets.Enabled(added, s, a)
    ensures PhaseReads(added, acts + [a], Apply(added, s, a).phase)
  {
    LoopGrows(acts, a, 0);
  }

  lemma StepReads(added: seq<Bridge>, files: map<Path, Owner>, acts: seq<Action>, s: State, a: Action)
    requires Reads(added, files, acts, s) && Sockets.Enabled(added, s, a)
    ensures Reads(added, files, acts + [a], Apply(added, s, a))
  {
    StepReadsFiles(added, files, acts, s, a);
    StepReadsPhase(added, acts, s, a);
    StepReadsAborts(added, acts, s, a);
    forall i | 0 <= i < |added|
      ensures LoopReads(acts + [a], i, Apply(added, s, a).pc[i])
    {
      assert LoopReads(acts, i, s.pc[i]);
      StepReadsLoop(added, acts, s, a, i);
    }
    forall i: nat | i >= |added|
      ensures NothingOf(acts + [a], i)
    {
      assert NothingOf(acts, i);
      StepNamesNoOther(added, acts, s, a, i);
    }
  }

  lemma EnabledIffDue(added: seq<Bridge>, files: map<Path, Owner>, acts: seq<Action>, s: State, a: Action)
    requires Reads(added, files, acts, s)
    ensures Sockets.Enabled(added, s, a) <==> Due(added, files, acts, a)
    ensures Sockets.Enabled(added, s, a) ==> Reads(added, files, acts + [a], Apply(added, s, a))
  {
    if a.BeginShutdown? || a.Abort? || a.BeginCleanup? || a.Clean? || a.EndShutdown? {
      PhaseStepIffDue(added, files, acts, s, a);
    } else {
      LoopStepIffDue(added, files, acts, s, a);
    }
    if Sockets.Enabled(added, s, a) {
      StepReads(added, files, acts, s, a);
    }
  }

  lemma {:induction false} CutLast(added: seq<Bridge>, s: State, front: seq<Action>, a: Action)
    requires Fits(added, s)
    ensures Legal(added, s, front + [a]) <==>
              Legal(added, s, front) && Sockets.Enabled(added, After(added, s, front), a)
    ensures Legal(added, s, front + [a]) ==> After(added, s, front + [a]) == Apply(added, After(added, s, front), a)
    decreases |front|
  {
    var acts := front + [a];
    if front == [] {
      assert acts == [a] && acts[1..] == [];
    } else {
      assert acts[1..] == front[1..] + [a];
      if Sockets.Enabled(added, s, front[0]) {
        CutLast(added, Apply(added, s, front[0]), front[1..], a);
      }
    }
  }

  lemma NothingYet(added: seq<Bridge>, files: map<Path, Owner>)
    ensures Reads(added, files, [], Initial(added, files))
  {
  }

  lemma InOrderGrows(added: seq<Bridge>, files: map<Path, Owner>, acts: seq<Action>, a: Action)
    ensures InOrder(added, files, acts + [a]) <==> InOrder(added, files, acts) && Due(added, files, acts, a)
  {
    var more := acts + [a];
    assert more[..|acts|] == acts && more[|acts|] == a;
    assert forall k :: 0 <= k < |acts| ==> acts[..k] == more[..k] && acts[k] == more[k];
  }

  /** The step system and the history agree on what has happened so far. */
  ghost predicate Agrees(added: seq<Bridge>, files: map<Path, Owner>, s: State, acts: seq<Action>)
    requires Fits(added, s)
  {
    && (Legal(added, s, acts) <==> InOrder(added, files, acts))
    && (Legal(added, s, acts) ==> Reads(added, files, acts, After(added, s, acts)))
  }

  lemma AgreesOnOneMore(added: seq<Bridge>, files: map<Path, Owner>, s: State, front: seq<Action>, a: Action)
    requires Fits(added, s) && Agrees(added, files, s, front)
    ensures Agrees(added, files, s, front + [a])
  {
    CutLast(added, s, front, a);
    InOrderGrows(added, files, front, a);
    if Legal(added, s, front) {
      EnabledIffDue(added, files, front, After(added, s, front), a);
    }
  }

  lemma {:induction false} AgreesOn(added: seq<Bridge>, files: map<Path, Owner>, s: State, acts: seq<Action>)
    requires s == Initial(added, files)
    ensures Agrees(added, files, s, acts)
    decreases |acts|
  {
    if acts == [] {
      NothingYet(added, files);
    } else {
      AgreesOn(added, files, s, acts[..|acts| - 1]);
      AgreesOnOneMore(added, files, s, acts[..|acts| - 1], acts[|acts| - 1]);
      assert acts == acts[..|acts| - 1] + [acts[|acts| - 1]];
    }
  }

  /**
   The step system allows exactly the histories in which every step is due: each
   loop unlinks, then binds a free path or fails and unlinks once more; a task
   that was asked to abort stops only before its first poll or while it listens;
   and `shutdown` asks all tasks, then cleans every path of the table once. And
   whose file lies at a path is what the last step said that touched it.
   */
  lemma LegalIffInOrder(added: seq<Bridge>, files: map<Path, Owner>, acts: seq<Action>)
    ensures Legal(added, Initial(added, files), acts) <==> InOrder(added, files, acts)
    ensures Legal(added, Initial(added, files), acts) ==>
              Reads(added, files, acts, After(added, Initial(added, files), acts))
  {
    AgreesOn(added, files, Initial(added, files), acts);
  }

  // ----- what an aborted task leaves behind -----

  lemma OneStepKeepsFile(added: seq<Bridge>, s: State, a: Action, path: Path)
    requires Fits(added, s) && Sockets.Enabled(added, s, a) && path in s.files && !Removes(added, a, path)
    ensures path in Apply(added, s, a).files && Apply(added, s, a).files[path] == s.files[path]
  {
  }

  /**
   A socket file goes only by an unlink of its path. In particular the task that
   bound it leaves it behind when it is aborted, which is why `shutdown` cleans up.
   */
  lemma {:induction false} FilesStayUntilRemoved(added: seq<Bridge>, s: State, acts: seq<Action>, path: Path)
    requires Fits(added, s) && Legal(added, s, acts) && path in s.files
    requires forall k :: 0 <= k < |acts| ==> !Removes(added, acts[k], path)
    ensures path in After(added, s, acts).files && After(added, s, acts).files[path] == s.files[path]
    decreases |acts|
  {
    if acts != [] {
      OneStepKeepsFile(added, s, acts[0], path);
      FilesStayUntilRemoved(added, Apply(added, s, acts[0]), acts[1..], path);
    }
  }
}
