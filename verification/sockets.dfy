/**
 The socket files of Mission Control's bridges. Every added bridge has one
 accept-loop task: it unlinks its path, binds it, listens for good, and unlinks
 once more only when the bind failed. `shutdown` asks every task to abort and
 then unlinks the paths in the bridge table. A task stops for an abort only at
 an await point: before its first poll or while it waits in `accept`.
 */
module Sockets {
  import opened Entries

  type Path = string

  datatype Bridge = Bridge(platform: string, path: Path, satellite: Addr)

  datatype Pc = Queued | Started | Unlinked | Listening | BindFailed | Exited | Stopped

  datatype Owner = Stale | Task(id: nat)

  datatype Phase = Serving | Aborting(next: nat) | Cleaning(left: set<Path>) | ShutDown

  datatype State = State(pc: seq<Pc>, aborted: seq<bool>, files: map<Path, Owner>, phase: Phase)

  datatype Action =
    | Start(i: nat) | UnlinkFirst(i: nat, removed: bool) | Bind(i: nat) | FailBind(i: nat)
    | UnlinkLast(i: nat, removed: bool) | Stop(i: nat)
    | BeginShutdown | Abort | BeginCleanup | Clean(path: Path) | EndShutdown

  /** `bridges.insert(platform, bridge)` in order of addition: the last bridge of a platform stays. */
  function Table(added: seq<Bridge>): map<string, Bridge> {
    if added == [] then map[]
    else Table(added[..|added| - 1])[added[|added| - 1].platform := added[|added| - 1]]
  }

  lemma TableAppend(added: seq<Bridge>, bridge: Bridge)
    ensures Table(added + [bridge]) == Table(added)[bridge.platform := bridge]
  {
    assert (added + [bridge])[..|added|] == added;
  }

  function CleanupSet(added: seq<Bridge>): set<Path> {
    var table := Table(added);
    set platform | platform in table :: table[platform].path
  }

  function Initial(added: seq<Bridge>, files: map<Path, Owner>): State {
    State(seq(|added|, _ => Queued), seq(|added|, _ => false), files, Serving)
  }

  ghost predicate Fits(added: seq<Bridge>, s: State) { |s.pc| == |s.aborted| == |added| }

  /** Files found at start were left by earlier processes. */
  ghost predicate OnlyStale(files: map<Path, Owner>) { forall p :: p in files ==> files[p] == Stale }

  predicate Enabled(added: seq<Bridge>, s: State, a: Action)
    requires |s.pc| == |s.aborted| == |added|
  {
    match a
    case Start(i) => i < |added| && s.pc[i].Queued? && !s.aborted[i]
    case UnlinkFirst(i, _) => i < |added| && s.pc[i].Started?
    case Bind(i) => i < |added| && s.pc[i].Unlinked? && added[i].path !in s.files
    case FailBind(i) => i < |added| && s.pc[i].Unlinked?
    case UnlinkLast(i, _) => i < |added| && s.pc[i].BindFailed?
    case Stop(i) => i < |added| && s.aborted[i] && (s.pc[i].Queued? || s.pc[i].Listening?)
    case BeginShutdown => s.phase.Serving?
    case Abort => s.phase.Aborting? && s.phase.next < |added|
    case BeginCleanup => s.phase.Aborting? && s.phase.next == |added|
    case Clean(path) => s.phase.Cleaning? && path in s.phase.left
    case EndShutdown => s.phase == Cleaning({})
  }

  function Apply(added: seq<Bridge>, s: State, a: Action): (t: State)
    requires |s.pc| == |s.aborted| == |added| && Enabled(added, s, a)
    ensures |t.pc| == |t.aborted| == |added|
  {
    match a
    case Start(i) => s.(pc := s.pc[i := Started])
    case UnlinkFirst(i, removed) =>
      s.(pc := s.pc[i := Unlinked], files := if removed then s.files - {added[i].path} else s.files)
    case Bind(i) => s.(pc := s.pc[i := Listening], files := s.files[added[i].path := Task(i)])
    case FailBind(i) => s.(pc := s.pc[i := BindFailed])
    case UnlinkLast(i, removed) =>
      s.(pc := s.pc[i := Exited], files := if removed then s.files - {added[i].path} else s.files)
    case Stop(i) => s.(pc := s.pc[i := Stopped])
    case BeginShutdown => s.(phase := Aborting(0))
    case Abort => s.(phase := Aborting(s.phase.next + 1), aborted := s.aborted[s.phase.next := true])
    case BeginCleanup => s.(phase := Cleaning(CleanupSet(added)))
    case Clean(path) => s.(phase := Cleaning(s.phase.left - {path}), files := s.files - {path})
    case EndShutdown => s.(phase := ShutDown)
  }

  predicate Legal(added: seq<Bridge>, s: State, acts: seq<Action>)
    requires |s.pc| == |s.aborted| == |added|
    decreases |acts|
  {
    acts == [] || (Enabled(added, s, acts[0]) && Legal(added, Apply(added, s, acts[0]), acts[1..]))
  }

  function After(added: seq<Bridge>, s: State, acts: seq<Action>): (t: State)
    requires |s.pc| == |s.aborted| == |added| && Legal(added, s, acts)
    ensures |t.pc| == |t.aborted| == |added|
    decreases |acts|
  {
    if acts == [] then s else After(added, Apply(added, s, acts[0]), acts[1..])
  }

  lemma Prepend(added: seq<Bridge>, s: State, a: Action, rest: seq<Action>) returns (acts: seq<Action>)
    requires |s.pc| == |s.aborted| == |added|
    requires Enabled(added, s, a) && Legal(added, Apply(added, s, a), rest)
    ensures Legal(added, s, acts) && After(added, s, acts) == After(added, Apply(added, s, a), rest)
  {
    acts := [a] + rest;
    assert acts[1..] == rest;
  }

  // ----- ownership of the socket files while the bridges serve -----

  ghost predicate DistinctPaths(added: seq<Bridge>) {
    forall i, j :: 0 <= i < j < |added| ==> added[i].path != added[j].path
  }

  /** Every listening loop owns the file at its path, and a bound file belongs to its own loop. */
  ghost predicate Owned(added: seq<Bridge>, s: State)
    requires |s.pc| == |s.aborted| == |added|
  {
    forall i :: 0 <= i < |added| && s.pc[i].Listening? ==> added[i].path in s.files && s.files[added[i].path] == Task(i)
  }

  ghost predicate BoundByOwner(added: seq<Bridge>, s: State)
    requires |s.pc| == |s.aborted| == |added|
  {
    forall p :: p in s.files && s.files[p].Task? ==>
      s.files[p].id < |added| && added[s.files[p].id].path == p
      && (s.pc[s.files[p].id].Listening? || s.pc[s.files[p].id].Stopped?)
  }

  ghost predicate BeforeCleanup(s: State) { s.phase.Serving? || s.phase.Aborting? }

  lemma BindKeepsOwned(added: seq<Bridge>, s: State, i: nat)
    requires Fits(added, s) && DistinctPaths(added) && Enabled(added, s, Bind(i))
    requires Owned(added, s) && BoundByOwner(added, s)
    ensures Owned(added, Apply(added, s, Bind(i))) && BoundByOwner(added, Apply(added, s, Bind(i)))
  {
  }

  lemma UnlinkKeepsOwned(added: seq<Bridge>, s: State, i: nat, pc: Pc, files: map<Path, Owner>)
    requires Fits(added, s) && DistinctPaths(added) && i < |added| && !s.pc[i].Listening? && !pc.Listening?
    requires files == s.files || files == s.files - {added[i].path}
    requires s.pc[i].Stopped? ==> pc.Stopped?
    requires Owned(added, s) && BoundByOwner(added, s)
    ensures Owned(added, s.(pc := s.pc[i := pc], files := files))
    ensures BoundByOwner(added, s.(pc := s.pc[i := pc], files := files))
  {
  }

  lemma StepKeepsOwned(added: seq<Bridge>, s: State, a: Action)
    requires Fits(added, s) && DistinctPaths(added) && Enabled(added, s, a)
    requires Owned(added, s) && BoundByOwner(added, s)
    requires BeforeCleanup(Apply(added, s, a))
    ensures Owned(added, Apply(added, s, a)) && BoundByOwner(added, Apply(added, s, a))
  {
    var t := Apply(added, s, a);
    match a
    case Start(i) => UnlinkKeepsOwned(added, s, i, Started, s.files);
    case UnlinkFirst(i, _) => UnlinkKeepsOwned(added, s, i, Unlinked, t.files);
    case Bind(i) => BindKeepsOwned(added, s, i);
    case FailBind(i) => UnlinkKeepsOwned(added, s, i, BindFailed, s.files);
    case UnlinkLast(i, _) => UnlinkKeepsOwned(added, s, i, Exited, t.files);
    case _ =>
  }

  lemma {:induction false} PhaseOnlyAdvances(added: seq<Bridge>, s: State, acts: seq<Action>)
    requires Fits(added, s) && Legal(added, s, acts) && BeforeCleanup(After(added, s, acts))
    ensures BeforeCleanup(s)
    decreases |acts|
  {
    if acts != [] {
      PhaseOnlyAdvances(added, Apply(added, s, acts[0]), acts[1..]);
    }
  }

  lemma {:induction false} RunKeepsOwned(added: seq<Bridge>, s: State, acts: seq<Action>)
    requires Fits(added, s) && DistinctPaths(added) && Legal(added, s, acts)
    requires Owned(added, s) && BoundByOwner(added, s) && BeforeCleanup(After(added, s, acts))
    ensures Owned(added, After(added, s, acts)) && BoundByOwner(added, After(added, s, acts))
    decreases |acts|
  {
    if acts != [] {
      PhaseOnlyAdvances(added, Apply(added, s, acts[0]), acts[1..]);
      StepKeepsOwned(added, s, acts[0]);
      RunKeepsOwned(added, Apply(added, s, acts[0]), acts[1..]);
    }
  }

  /** Two loops on one path: a failed bind's exit cleanup removes the other's live socket for good. */
  lemma SharedPathLosesSocket(added: seq<Bridge>, files: map<Path, Owner>, i: nat, j: nat) returns (acts: seq<Action>)
    requires i < |added| && j < |added| && i != j && added[i].path == added[j].path
    ensures Legal(added, Initial(added, files), acts)
    ensures
      var s := After(added, Initial(added, files), acts);
      && s.phase.Serving? && s.pc[i].Listening? && s.pc[j].Exited? && added[i].path !in s.files
  {
    var s0 := Initial(added, files);
    var s1 := Apply(added, s0, Start(i));
    var s2 := Apply(added, s1, UnlinkFirst(i, true));
    var s3 := Apply(added, s2, Start(j));
    var s4 := Apply(added, s3, UnlinkFirst(j, true));
    var s5 := Apply(added, s4, Bind(i));
    var s6 := Apply(added, s5, FailBind(j));
    acts := [UnlinkLast(j, true)];
    acts := Prepend(added, s5, FailBind(j), acts);
    acts := Prepend(added, s4, Bind(i), acts);
    acts := Prepend(added, s3, UnlinkFirst(j, true), acts);
    acts := Prepend(added, s2, Start(j), acts);
    acts := Prepend(added, s1, UnlinkFirst(i, true), acts);
    acts := Prepend(added, s0, Start(i), acts);
  }

  /**
   While the manager serves, every listening loop keeps its own socket in every
   interleaving, if and only if the bridges' paths are pairwise different.
   */
  lemma OwnershipIffDistinctPaths(added: seq<Bridge>)
    ensures DistinctPaths(added) <==>
            forall files, acts :: OnlyStale(files) && Legal(added, Initial(added, files), acts)
                               && BeforeCleanup(After(added, Initial(added, files), acts))
              ==> Owned(added, After(added, Initial(added, files), acts))
  {
    if DistinctPaths(added) {
      forall files, acts | OnlyStale(files) && Legal(added, Initial(added, files), acts)
                        && BeforeCleanup(After(added, Initial(added, files), acts))
        ensures Owned(added, After(added, Initial(added, files), acts))
      {
        RunKeepsOwned(added, Initial(added, files), acts);
      }
    } else {
      var i, j :| 0 <= i < j < |added| && added[i].path == added[j].path;
      var acts := SharedPathLosesSocket(added, map[], i, j);
      assert OnlyStale(map[]);
      assert !Owned(added, After(added, Initial(added, map[]), acts));
    }
  }

  // ----- which paths can be connected to -----

  /** The file at the path belongs to a loop that listens. */
  ghost predicate Connectable(added: seq<Bridge>, s: State, path: Path)
    requires |s.pc| == |s.aborted| == |added|
  {
    path in s.files && s.files[path].Task? && s.files[path].id < |added| && s.pc[s.files[path].id].Listening?
  }

  /** A bound file lies at the path of the bridge that bound it. */
  ghost predicate BoundAtOwnPath(added: seq<Bridge>, s: State) {
    forall p :: p in s.files && s.files[p].Task? ==> s.files[p].id < |added| && added[s.files[p].id].path == p
  }

  lemma {:induction false} RunBindsAtOwnPaths(added: seq<Bridge>, s: State, acts: seq<Action>)
    requires Fits(added, s) && BoundAtOwnPath(added, s) && Legal(added, s, acts)
    ensures BoundAtOwnPath(added, After(added, s, acts))
    decreases |acts|
  {
    if acts != [] {
      RunBindsAtOwnPaths(added, Apply(added, s, acts[0]), acts[1..]);
    }
  }

  ghost predicate FirstBound(added: seq<Bridge>, s: State, n: nat) {
    && Fits(added, s) && n <= |added| && BoundAtOwnPath(added, s)
    && (forall i :: 0 <= i < n ==> Connectable(added, s, added[i].path))
    && (forall i :: n <= i < |added| ==> s.pc[i].Queued? && !s.aborted[i])
  }

  lemma BoundToo(added: seq<Bridge>, s: State, n: nat)
    requires FirstBound(added, s, n) && n < |added|
    ensures
      var path := added[n].path;
      var t := State(s.pc[n := Listening], s.aborted, (s.files - {path})[path := Task(n)], s.phase);
      Connectable(added, s, path) || FirstBound(added, t, n + 1)
  {
    var path := added[n].path;
    var t := State(s.pc[n := Listening], s.aborted, (s.files - {path})[path := Task(n)], s.phase);
    if !Connectable(added, s, path) {
      forall i | 0 <= i < n
        ensures Connectable(added, t, added[i].path)
      {
        assert Connectable(added, s, added[i].path) && added[i].path != path;
      }
    }
  }

  /** The next loop binds its path, unless an earlier one listens there already. */
  lemma BindNext(added: seq<Bridge>, s: State, n: nat) returns (acts: seq<Action>)
    requires FirstBound(added, s, n) && n < |added|
    ensures Legal(added, s, acts) && FirstBound(added, After(added, s, acts), n + 1)
  {
    acts := [];
    if !Connectable(added, s, added[n].path) {
      BoundToo(added, s, n);
      var s1 := Apply(added, s, Start(n));
      var s2 := Apply(added, s1, UnlinkFirst(n, true));
      assert Apply(added, s2, Bind(n)).pc == s.pc[n := Listening];
      acts := Prepend(added, s2, Bind(n), []);
      acts := Prepend(added, s1, UnlinkFirst(n, true), acts);
      acts := Prepend(added, s, Start(n), acts);
    }
  }

  lemma {:induction false} BindAll(added: seq<Bridge>, s: State, n: nat) returns (acts: seq<Action>)
    requires FirstBound(added, s, n)
    ensures Legal(added, s, acts)
    ensures forall i :: 0 <= i < |added| ==> Connectable(added, After(added, s, acts), added[i].path)
    decreases |added| - n
  {
    acts := [];
    if n < |added| {
      var one := BindNext(added, s, n);
      var two := BindAll(added, After(added, s, one), n + 1);
      Concat(added, s, one, two);
      acts := one + two;
    }
  }

  lemma {:induction false} Concat(added: seq<Bridge>, s: State, one: seq<Action>, two: seq<Action>)
    requires Fits(added, s) && Legal(added, s, one) && Legal(added, After(added, s, one), two)
    ensures Legal(added, s, one + two)
    ensures After(added, s, one + two) == After(added, After(added, s, one), two)
    decreases |one|
  {
    if one == [] {
      assert one + two == two;
    } else {
      assert (one + two)[1..] == one[1..] + two;
      Concat(added, Apply(added, s, one[0]), one[1..], two);
    }
  }

  // ----- shutdown -----

  ghost predicate Covered(added: seq<Bridge>) {
    forall i :: 0 <= i < |added| ==> added[i].path in CleanupSet(added)
  }

  ghost predicate PathByPlatform(added: seq<Bridge>) {
    forall i, j :: 0 <= i < |added| && 0 <= j < |added| && added[i].platform == added[j].platform ==>
      added[i].path == added[j].path
  }

  ghost predicate IsLast(added: seq<Bridge>, i: int) {
    0 <= i < |added| && forall j :: i < j < |added| ==> added[j].platform != added[i].platform
  }

  /** The table holds, for exactly the platforms ever added, the bridge added last. */
  lemma {:induction false} TableHoldsLast(added: seq<Bridge>)
    ensures forall i :: 0 <= i < |added| ==> added[i].platform in Table(added)
    ensures forall p :: p in Table(added) ==>
              exists i :: IsLast(added, i) && added[i].platform == p && Table(added)[p] == added[i]
  {
    if added != [] {
      var n := |added| - 1;
      var before := added[..n];
      TableHoldsLast(before);
      assert forall i :: 0 <= i < n ==> added[i] == before[i];
      forall p | p in Table(added)
        ensures exists i :: IsLast(added, i) && added[i].platform == p && Table(added)[p] == added[i]
      {
        if p == added[n].platform {
          assert IsLast(added, n);
        } else {
          var i :| IsLast(before, i) && before[i].platform == p && Table(before)[p] == before[i];
          assert IsLast(added, i);
        }
      }
    }
  }

  /** The map keys cover every path ever added, even when a repeated platform replaced a bridge. */
  lemma TableCoversEveryPath(added: seq<Bridge>)
    requires PathByPlatform(added)
    ensures Covered(added)
  {
    TableHoldsLast(added);
    forall i | 0 <= i < |added|
      ensures added[i].path in CleanupSet(added)
    {
      var kept := Table(added)[added[i].platform];
      assert kept.path in CleanupSet(added);
    }
  }

  /** Every accept loop has reached `accept` or has given up binding. */
  ghost predicate Settled(s: State) {
    forall i :: 0 <= i < |s.pc| ==> !s.pc[i].Queued? && !s.pc[i].Started? && !s.pc[i].Unlinked?
  }

  ghost predicate NoFiles(added: seq<Bridge>, s: State) {
    forall i :: 0 <= i < |added| ==> added[i].path !in s.files
  }

  ghost predicate CleanedSoFar(added: seq<Bridge>, s: State) {
    && Settled(s)
    && (s.phase.Cleaning? ==>
          forall i :: 0 <= i < |added| && added[i].path in s.files ==> added[i].path in s.phase.left)
    && (s.phase.ShutDown? ==> NoFiles(added, s))
  }

  lemma StepKeepsClean(added: seq<Bridge>, s: State, a: Action)
    requires Fits(added, s) && Covered(added) && Enabled(added, s, a) && CleanedSoFar(added, s)
    ensures CleanedSoFar(added, Apply(added, s, a))
  {
    if a.BeginCleanup? {
      assert forall i :: 0 <= i < |added| ==> added[i].path in CleanupSet(added);
    }
  }

  lemma {:induction false} SettledShutdownIsClean(added: seq<Bridge>, s: State, acts: seq<Action>)
    requires Fits(added, s) && Covered(added) && Legal(added, s, acts) && CleanedSoFar(added, s)
    ensures CleanedSoFar(added, After(added, s, acts))
    decreases |acts|
  {
    if acts != [] {
      StepKeepsClean(added, s, acts[0]);
      SettledShutdownIsClean(added, Apply(added, s, acts[0]), acts[1..]);
    }
  }

  lemma {:induction false} CleanRest(added: seq<Bridge>, s: State) returns (acts: seq<Action>)
    requires Fits(added, s) && s.phase.Cleaning?
    ensures Legal(added, s, acts)
    ensures After(added, s, acts) == s.(phase := ShutDown, files := s.files - s.phase.left)
    decreases s.phase.left
  {
    if s.phase.left == {} {
      acts := [EndShutdown];
    } else {
      var path :| path in s.phase.left;
      var t := Apply(added, s, Clean(path));
      acts := CleanRest(added, t);
      acts := Prepend(added, s, Clean(path), acts);
      assert t.files - t.phase.left == s.files - s.phase.left;
    }
  }

  lemma {:induction false} AbortRest(added: seq<Bridge>, s: State) returns (acts: seq<Action>)
    requires Fits(added, s) && s.phase.Aborting? && s.phase.next <= |added|
    ensures Legal(added, s, acts)
    ensures After(added, s, acts).phase == ShutDown && After(added, s, acts).pc == s.pc
    ensures After(added, s, acts).files == s.files - CleanupSet(added)
    decreases |added| - s.phase.next
  {
    if s.phase.next == |added| {
      acts := CleanRest(added, Apply(added, s, BeginCleanup));
      acts := Prepend(added, s, BeginCleanup, acts);
    } else {
      acts := AbortRest(added, Apply(added, s, Abort));
      acts := Prepend(added, s, Abort, acts);
    }
  }

  lemma {:induction false} Append(added: seq<Bridge>, s: State, acts: seq<Action>, a: Action)
    returns (more: seq<Action>)
    requires Fits(added, s) && Legal(added, s, acts) && Enabled(added, After(added, s, acts), a)
    ensures Legal(added, s, more) && After(added, s, more) == Apply(added, After(added, s, acts), a)
    decreases |acts|
  {
    if acts == [] {
      more := [a];
    } else {
      more := Append(added, Apply(added, s, acts[0]), acts[1..], a);
      more := Prepend(added, s, acts[0], more);
    }
  }

  /** A loop that has not bound yet can bind after the cleanup and leave its file behind. */
  lemma UnsettledLoopLeavesFile(added: seq<Bridge>, s: State, i: nat) returns (acts: seq<Action>)
    requires Fits(added, s) && Covered(added) && s.phase.Serving? && i < |added| && !s.aborted[i]
    requires s.pc[i].Queued? || s.pc[i].Started? || s.pc[i].Unlinked?
    ensures Legal(added, s, acts) && After(added, s, acts).phase.ShutDown?
    ensures added[i].path in After(added, s, acts).files
    decreases if s.pc[i].Queued? then 2 else if s.pc[i].Started? then 1 else 0
  {
    if s.pc[i].Unlinked? {
      var begun := AbortRest(added, Apply(added, s, BeginShutdown));
      begun := Prepend(added, s, BeginShutdown, begun);
      acts := Append(added, s, begun, Bind(i));
    } else {
      var a := if s.pc[i].Queued? then Start(i) else UnlinkFirst(i, true);
      acts := UnsettledLoopLeavesFile(added, Apply(added, s, a), i);
      acts := Prepend(added, s, a, acts);
    }
  }

  ghost predicate NoEarlyAbort(s: State) {
    s.phase.Serving? ==> forall i :: 0 <= i < |s.aborted| ==> !s.aborted[i]
  }

  lemma StepKeepsNoEarlyAbort(added: seq<Bridge>, s: State, a: Action)
    requires NoEarlyAbort(s) && Fits(added, s) && Enabled(added, s, a)
    ensures NoEarlyAbort(Apply(added, s, a))
  {
  }

  /** No task is aborted before `shutdown` begins. */
  lemma {:induction false} ServingMeansNoAborts(added: seq<Bridge>, s: State, acts: seq<Action>)
    requires Fits(added, s) && Legal(added, s, acts) && NoEarlyAbort(s)
    ensures NoEarlyAbort(After(added, s, acts))
    decreases |acts|
  {
    if acts != [] {
      StepKeepsNoEarlyAbort(added, s, acts[0]);
      ServingMeansNoAborts(added, Apply(added, s, acts[0]), acts[1..]);
    }
  }

  /**
   From a reachable serving state no run of `shutdown` leaves a socket file of
   any added bridge, if and only if every accept loop has already bound or
   given up.
   */
  lemma ShutdownCleanIffSettled(added: seq<Bridge>, files: map<Path, Owner>, before: seq<Action>)
    requires PathByPlatform(added) && Legal(added, Initial(added, files), before)
    requires After(added, Initial(added, files), before).phase.Serving?
    ensures
      var s := After(added, Initial(added, files), before);
      Settled(s) <==>
        forall acts :: Legal(added, s, acts) && After(added, s, acts).phase.ShutDown?
          ==> NoFiles(added, After(added, s, acts))
  {
    var s := After(added, Initial(added, files), before);
    ServingMeansNoAborts(added, Initial(added, files), before);
    TableCoversEveryPath(added);
    if Settled(s) {
      forall acts | Legal(added, s, acts) && After(added, s, acts).phase.ShutDown?
        ensures NoFiles(added, After(added, s, acts))
      {
        SettledShutdownIsClean(added, s, acts);
      }
    } else {
      var i :| 0 <= i < |added| && (s.pc[i].Queued? || s.pc[i].Started? || s.pc[i].Unlinked?);
      var acts := UnsettledLoopLeavesFile(added, s, i);
    }
  }
}
