/**
 The life of satellites in the Constellation Doc. A run of `satellite join`
 registers, heartbeats, writes its offline entry, then aborts its tasks and
 stops; it may crash at any time. The Doc is a last-write-wins map keyed by
 author and key, and every run writes under an author of its own (here: its
 index). A heartbeat write is two steps, since a request already handed to the
 Doc can still land after its task was aborted.
 */
module Constellation {
  import opened Wrappers
  import opened Entries
  import opened Hex
  import opened Platforms
  import opened Selection
  import opened Picking

  /** What one run of `satellite join` brings: who it is and what it can build. */
  datatype Run = Run(node: NodeId, addr: Addr, heartbeatAddr: Addr, nativeArch: string, extras: Option<seq<string>>)

  ghost predicate ValidRun(run: Run) {
    && |run.node| == 32 && run.node != PLACEHOLDER.id
    && run.addr.id == run.node && run.heartbeatAddr.id == run.node
    && '/' !in run.nativeArch
  }

  // ----- platform resolution -----

  function Without(platforms: seq<string>, native: string): seq<string> {
    if platforms == [] then []
    else
      Without(platforms[..|platforms| - 1], native)
      + (if platforms[|platforms| - 1] == native then [] else [platforms[|platforms| - 1]])
  }

  function Resolve(nativeArch: string, extras: Option<seq<string>>): seq<string> {
    [LINUX + nativeArch] + (if extras.Some? then Without(extras.value, LINUX + nativeArch) else [])
  }

  method ResolvePlatforms(nativeArch: string, extras: Option<seq<string>>) returns (platforms: seq<string>)
    ensures platforms == Resolve(nativeArch, extras)
  {
    var native := LINUX + nativeArch;
    platforms := [native];
    if extras.Some? {
      for k := 0 to |extras.value|
        invariant platforms == [native] + Without(extras.value[..k], native)
      {
        assert extras.value[..k + 1][..k] == extras.value[..k];
        if extras.value[k] != native {
          platforms := platforms + [extras.value[k]];
        }
      }
      assert extras.value[..|extras.value|] == extras.value;
    }
  }

  lemma {:induction false} WithoutKeepsCounts(extras: seq<string>, native: string)
    ensures multiset(Without(extras, native)) == multiset(extras)[native := 0]
  {
    if extras != [] {
      var init, last := extras[..|extras| - 1], extras[|extras| - 1];
      WithoutKeepsCounts(init, native);
      assert extras == init + [last];
    }
  }

  lemma {:induction false} WithoutKeepsOrder(extras: seq<string>, native: string) returns (at: seq<nat>)
    ensures Picks(extras, (p: string) => p != native, at)
    ensures Without(extras, native) == seq(|at|, k requires 0 <= k < |at| => extras[at[k]])
  {
    at := [];
    if extras != [] {
      var init, last := extras[..|extras| - 1], extras[|extras| - 1];
      at := WithoutKeepsOrder(init, native);
      assert extras == init + [last];
      at := PickNext(init, (p: string) => p != native, at, last);
    }
  }

  /**
   The native platform comes first and only there; what follows are the other
   extras, in the order and as often as they were given; nothing without extras.
   */
  lemma ResolveSpec(nativeArch: string, extras: seq<string>) returns (at: seq<nat>)
    ensures Resolve(nativeArch, None) == [LINUX + nativeArch]
    ensures
      var ps := Resolve(nativeArch, Some(extras));
      var native := LINUX + nativeArch;
      && ps[0] == native && native !in ps[1..]
      && multiset(ps[1..]) == multiset(extras)[native := 0]
      && Picks(extras, (p: string) => p != native, at)
      && |ps| == 1 + |at| && forall k :: 0 <= k < |at| ==> ps[1 + k] == extras[at[k]]
  {
    var native := LINUX + nativeArch;
    assert Resolve(nativeArch, Some(extras))[1..] == Without(extras, native);
    WithoutKeepsCounts(extras, native);
    at := WithoutKeepsOrder(extras, native);
    assert native in Without(extras, native) ==> multiset(Without(extras, native))[native] > 0;
  }

  // ----- the step system -----

  datatype Pc = Joined | Serving | Offlined | Aborted | Stopped | Crashed

  datatype RunState = RunState(run: Run, pc: Pc, inFlight: Option<SatelliteEntry>)

  datatype State = State(runs: seq<RunState>, doc: map<(nat, string), SatelliteEntry>)

  const EMPTY := State([], map[])

  datatype Action =
    | Launch(run: Run)
    | Register(i: nat, now: nat, ok: bool)
    | Beat(i: nat, now: nat) | Land(i: nat) | LoseBeat(i: nat)
    | Offline(i: nat, now: nat, ok: bool)
    | AbortTasks(i: nat) | Stop(i: nat) | Crash(i: nat)

  function IdleEntry(run: Run, addr: Addr, now: nat): SatelliteEntry {
    SatelliteEntry(run.nativeArch, Resolve(run.nativeArch, run.extras), IDLE, addr, now)
  }

  function OfflineEntry(run: Run, now: nat): SatelliteEntry {
    SatelliteEntry(run.nativeArch, Resolve(run.nativeArch, run.extras), OFFLINE, PLACEHOLDER, now)
  }

  ghost predicate Enabled(s: State, a: Action) {
    match a
    case Launch(run) => ValidRun(run)
    case Register(i, _, _) => i < |s.runs| && s.runs[i].pc.Joined?
    case Beat(i, _) => i < |s.runs| && (s.runs[i].pc.Serving? || s.runs[i].pc.Offlined?) && s.runs[i].inFlight.None?
    case Land(i) => i < |s.runs| && s.runs[i].inFlight.Some?
    case LoseBeat(i) => i < |s.runs| && s.runs[i].inFlight.Some?
    case Offline(i, _, _) => i < |s.runs| && s.runs[i].pc.Serving?
    case AbortTasks(i) => i < |s.runs| && s.runs[i].pc.Offlined?
    case Stop(i) => i < |s.runs| && s.runs[i].pc.Aborted?
    case Crash(i) => i < |s.runs| && !s.runs[i].pc.Stopped? && !s.runs[i].pc.Crashed?
  }

  function Move(s: State, i: nat, pc: Pc): State
    requires i < |s.runs|
  {
    s.(runs := s.runs[i := s.runs[i].(pc := pc)])
  }

  function SetInFlight(s: State, i: nat, entry: Option<SatelliteEntry>): State
    requires i < |s.runs|
  {
    s.(runs := s.runs[i := s.runs[i].(inFlight := entry)])
  }

  function Put(s: State, i: nat, entry: SatelliteEntry): State
    requires i < |s.runs|
  {
    s.(doc := s.doc[(i, KeyOf(s.runs[i].run.node)) := entry])
  }

  function Apply(s: State, a: Action): State
    requires Enabled(s, a)
  {
    match a
    case Launch(run) => s.(runs := s.runs + [RunState(run, Joined, None)])
    // A failed registration ends the run with an error.
    case Register(i, now, ok) =>
      if ok then Move(Put(s, i, IdleEntry(s.runs[i].run, s.runs[i].run.addr, now)), i, Serving) else Move(s, i, Crashed)
    case Beat(i, now) => SetInFlight(s, i, Some(IdleEntry(s.runs[i].run, s.runs[i].run.heartbeatAddr, now)))
    case Land(i) => SetInFlight(Put(s, i, s.runs[i].inFlight.value), i, None)
    case LoseBeat(i) => SetInFlight(s, i, None)
    // A failed offline write is ignored.
    case Offline(i, now, ok) =>
      Move(if ok then Put(s, i, OfflineEntry(s.runs[i].run, now)) else s, i, Offlined)
    case AbortTasks(i) => Move(s, i, Aborted)
    case Stop(i) => SetInFlight(Move(s, i, Stopped), i, None)
    case Crash(i) => SetInFlight(Move(s, i, Crashed), i, None)
  }

  ghost predicate Legal(s: State, acts: seq<Action>)
    decreases |acts|
  {
    acts == [] || (Enabled(s, acts[0]) && Legal(Apply(s, acts[0]), acts[1..]))
  }

  ghost function After(s: State, acts: seq<Action>): State
    requires Legal(s, acts)
    decreases |acts|
  {
    if acts == [] then s else After(Apply(s, acts[0]), acts[1..])
  }

  function EntryOf(s: State, i: nat): Option<SatelliteEntry>
    requires i < |s.runs|
  {
    var at := (i, KeyOf(s.runs[i].run.node));
    if at in s.doc then Some(s.doc[at]) else None
  }

  // ----- what the Doc can hold -----

  ghost predicate WrittenBy(run: Run, e: SatelliteEntry) {
    && ValidRun(run)
    && e.nativeArch == run.nativeArch && e.platforms == Resolve(run.nativeArch, run.extras)
    && ((e.status == IDLE && (e.addr == run.addr || e.addr == run.heartbeatAddr))
        || (e.status == OFFLINE && e.addr == PLACEHOLDER))
  }

  /** Idle means the writer's own address, offline means the placeholder, and the native platform is first. */
  lemma WrittenEntry(run: Run, e: SatelliteEntry)
    requires WrittenBy(run, e)
    ensures e.status == IDLE <==> e.addr != PLACEHOLDER
    ensures e.status == IDLE <==> e.addr.id == run.node
    ensures Registered(e)
  {
    assert IDLE[0] != OFFLINE[0];
  }

  ghost predicate RunInv(r: RunState) {
    && ValidRun(r.run)
    && (r.inFlight.Some? ==>
          && WrittenBy(r.run, r.inFlight.value) && r.inFlight.value.status == IDLE
          && !r.pc.Joined? && !r.pc.Stopped? && !r.pc.Crashed?)
  }

  ghost predicate RunsInv(s: State) { forall i :: 0 <= i < |s.runs| ==> RunInv(s.runs[i]) }

  ghost predicate DocInv(s: State) {
    forall at :: at in s.doc ==>
      at.0 < |s.runs| && at.1 == KeyOf(s.runs[at.0].run.node) && WrittenBy(s.runs[at.0].run, s.doc[at])
  }

  ghost predicate Inv(s: State) { RunsInv(s) && DocInv(s) }

  lemma WritesAreWrittenBy(run: Run, now: nat)
    requires ValidRun(run)
    ensures WrittenBy(run, IdleEntry(run, run.addr, now))
    ensures WrittenBy(run, IdleEntry(run, run.heartbeatAddr, now))
    ensures WrittenBy(run, OfflineEntry(run, now))
  {
  }

  /** A step of run `i` replaces its state and no other's. */
  lemma OneRunMoves(s: State, a: Action)
    requires RunsInv(s) && Enabled(s, a) && !a.Launch?
    ensures |Apply(s, a).runs| == |s.runs| && a.i < |s.runs|
    ensures forall j :: 0 <= j < |s.runs| && j != a.i ==> Apply(s, a).runs[j] == s.runs[j]
    ensures RunInv(Apply(s, a).runs[a.i])
  {
    if a.Beat? {
      WritesAreWrittenBy(s.runs[a.i].run, a.now);
    }
  }

  lemma StepKeepsRunsInv(s: State, a: Action)
    requires RunsInv(s) && Enabled(s, a)
    ensures RunsInv(Apply(s, a))
  {
    if !a.Launch? {
      OneRunMoves(s, a);
    }
  }

  lemma PutKeepsDocInv(s: State, i: nat, e: SatelliteEntry)
    requires DocInv(s) && i < |s.runs| && WrittenBy(s.runs[i].run, e)
    ensures DocInv(Put(s, i, e))
  {
  }

  lemma SameDocKeepsDocInv(s: State, t: State)
    requires DocInv(s) && t.doc == s.doc && |s.runs| <= |t.runs|
    requires forall i :: 0 <= i < |s.runs| ==> t.runs[i].run == s.runs[i].run
    ensures DocInv(t)
  {
  }

  lemma WriteKeepsDocInv(s: State, i: nat, e: SatelliteEntry, t: State)
    requires DocInv(s) && i < |s.runs| && WrittenBy(s.runs[i].run, e)
    requires t.doc == Put(s, i, e).doc && |t.runs| == |s.runs|
    requires forall j :: 0 <= j < |s.runs| ==> t.runs[j].run == s.runs[j].run
    ensures DocInv(t)
  {
    PutKeepsDocInv(s, i, e);
    SameDocKeepsDocInv(Put(s, i, e), t);
  }

  lemma RunsStay(s: State, a: Action)
    requires Enabled(s, a)
    ensures |s.runs| <= |Apply(s, a).runs|
    ensures forall j :: 0 <= j < |s.runs| ==> Apply(s, a).runs[j].run == s.runs[j].run
  {
  }

  lemma StepKeepsDocInv(s: State, a: Action)
    requires Inv(s) && Enabled(s, a)
    ensures DocInv(Apply(s, a))
  {
    RunsStay(s, a);
    var t := Apply(s, a);
    match a
    case Land(i) => WriteKeepsDocInv(s, i, s.runs[i].inFlight.value, t);
    case Register(i, now, true) =>
      WritesAreWrittenBy(s.runs[i].run, now);
      WriteKeepsDocInv(s, i, IdleEntry(s.runs[i].run, s.runs[i].run.addr, now), t);
    case Offline(i, now, true) =>
      WritesAreWrittenBy(s.runs[i].run, now);
      WriteKeepsDocInv(s, i, OfflineEntry(s.runs[i].run, now), t);
    case _ => SameDocKeepsDocInv(s, t);
  }

  lemma StepKeepsInv(s: State, a: Action)
    requires Inv(s) && Enabled(s, a)
    ensures Inv(Apply(s, a))
  {
    StepKeepsRunsInv(s, a);
    StepKeepsDocInv(s, a);
  }

  /** Every entry of every reachable Doc is one its author's run could have written. */
  lemma {:induction false} RunKeepsInv(s: State, acts: seq<Action>)
    requires Inv(s) && Legal(s, acts)
    ensures Inv(After(s, acts))
    decreases |acts|
  {
    if acts != [] {
      StepKeepsInv(s, acts[0]);
      RunKeepsInv(Apply(s, acts[0]), acts[1..]);
    }
  }

  // ----- which write is the last one -----

  /** The status the steps leave for run `i`: that of its last write to reach the Doc. */
  function LastWrite(acts: seq<Action>, i: nat, before: Option<string>): Option<string> {
    if acts == [] then before else LastWrite(acts[1..], i, OneWrite(acts[0], i, before))
  }

  function OneWrite(a: Action, i: nat, before: Option<string>): Option<string> {
    if a == Land(i) || (a.Register? && a.i == i && a.ok) then Some(IDLE)
    else if a.Offline? && a.i == i && a.ok then Some(OFFLINE)
    else before
  }

  function StatusOf(s: State, i: nat): Option<string> {
    if i < |s.runs| && EntryOf(s, i).Some? then Some(EntryOf(s, i).value.status) else None
  }

  lemma PutSetsOneEntry(s: State, j: nat, e: SatelliteEntry, i: nat)
    requires i < |s.runs| && j < |s.runs|
    ensures EntryOf(Put(s, j, e), i) == if i == j then Some(e) else EntryOf(s, i)
  {
  }

  lemma SameDocSameEntry(s: State, t: State, i: nat)
    requires i < |s.runs| && i < |t.runs| && s.doc == t.doc && s.runs[i].run == t.runs[i].run
    ensures EntryOf(s, i) == EntryOf(t, i)
  {
  }

  /** The Doc and the entry of run `i` after one step: only a write of run `i` itself changes it. */
  lemma StepEntry(s: State, a: Action, i: nat)
    requires Inv(s) && Enabled(s, a) && i < |s.runs|
    ensures EntryOf(Apply(s, a), i) ==
              if a == Land(i) then s.runs[i].inFlight
              else if a.Register? && a.i == i && a.ok then Some(IdleEntry(s.runs[i].run, s.runs[i].run.addr, a.now))
              else if a.Offline? && a.i == i && a.ok then Some(OfflineEntry(s.runs[i].run, a.now))
              else EntryOf(s, i)
    // The timestamp of an entry is the clock reading of its own write.
    ensures (a.Register? || a.Offline?) && a.i == i && a.ok ==> EntryOf(Apply(s, a), i).value.registeredAt == a.now
    ensures a.Beat? && a.i == i ==> Apply(s, a).runs[i].inFlight.value.registeredAt == a.now
  {
    var t := Apply(s, a);
    match a
    case Land(j) =>
      PutSetsOneEntry(s, j, s.runs[j].inFlight.value, i);
      SameDocSameEntry(t, Put(s, j, s.runs[j].inFlight.value), i);
    case Register(j, now, true) =>
      var e := IdleEntry(s.runs[j].run, s.runs[j].run.addr, now);
      PutSetsOneEntry(s, j, e, i);
      SameDocSameEntry(t, Put(s, j, e), i);
    case Offline(j, now, true) =>
      var e := OfflineEntry(s.runs[j].run, now);
      PutSetsOneEntry(s, j, e, i);
      SameDocSameEntry(t, Put(s, j, e), i);
    case _ => SameDocSameEntry(s, t, i);
  }

  lemma StepStatus(s: State, a: Action, i: nat)
    requires Inv(s) && Enabled(s, a)
    ensures StatusOf(Apply(s, a), i) == OneWrite(a, i, StatusOf(s, i))
  {
    if i < |s.runs| {
      StepEntry(s, a, i);
    } else if a.Launch? && i == |s.runs| {
      assert (i, KeyOf(a.run.node)) !in s.doc;
    }
  }

  lemma {:induction false} DocHoldsLastWrite(s: State, acts: seq<Action>, i: nat)
    requires Inv(s) && Legal(s, acts)
    ensures StatusOf(After(s, acts), i) == LastWrite(acts, i, StatusOf(s, i))
    decreases |acts|
  {
    if acts != [] {
      StepKeepsInv(s, acts[0]);
      StepStatus(s, acts[0], i);
      DocHoldsLastWrite(Apply(s, acts[0]), acts[1..], i);
    }
  }

  ghost predicate OfflineAt(acts: seq<Action>, i: nat, m: int) {
    0 <= m < |acts| && acts[m].Offline? && acts[m].i == i && acts[m].ok
  }

  ghost predicate NoBeatLandsAfter(acts: seq<Action>, i: nat, m: int) {
    0 <= m && forall l :: m < l < |acts| ==> acts[l] != Land(i)
  }

  ghost predicate WroteOfflineLast(acts: seq<Action>, i: nat) {
    exists m :: OfflineAt(acts, i, m) && NoBeatLandsAfter(acts, i, m)
  }

  ghost predicate NoIdleWrite(acts: seq<Action>, i: nat) {
    forall l :: 0 <= l < |acts| ==> acts[l] != Land(i) && !(acts[l].Register? && acts[l].i == i && acts[l].ok)
  }

  lemma FirstAndRest(acts: seq<Action>, i: nat)
    requires acts != []
    ensures WroteOfflineLast(acts, i) <==>
              (OfflineAt(acts, i, 0) && NoBeatLandsAfter(acts, i, 0)) || WroteOfflineLast(acts[1..], i)
    ensures NoIdleWrite(acts, i) <==> NoIdleWrite(acts[..1], i) && NoIdleWrite(acts[1..], i)
  {
    var rest := acts[1..];
    assert forall l :: 1 <= l < |acts| ==> acts[l] == rest[l - 1];
    if WroteOfflineLast(acts, i) {
      var m :| OfflineAt(acts, i, m) && NoBeatLandsAfter(acts, i, m);
      if m > 0 {
        assert forall l :: 0 <= l < |rest| ==> rest[l] == acts[l + 1];
        assert OfflineAt(rest, i, m - 1) && NoBeatLandsAfter(rest, i, m - 1);
      }
    }
    if WroteOfflineLast(rest, i) {
      var m :| OfflineAt(rest, i, m) && NoBeatLandsAfter(rest, i, m);
      assert OfflineAt(acts, i, m + 1) && NoBeatLandsAfter(acts, i, m + 1);
    }
    assert forall l :: 0 <= l < |rest| ==> rest[l] == acts[l + 1];
  }

  lemma {:induction false} OfflineIffLast(s: State, acts: seq<Action>, i: nat, before: Option<string>)
    requires Legal(s, acts)
    ensures LastWrite(acts, i, before) == Some(OFFLINE) <==>
              WroteOfflineLast(acts, i) || (before == Some(OFFLINE) && NoIdleWrite(acts, i))
    decreases |acts|
  {
    if acts != [] {
      var t, rest := Apply(s, acts[0]), acts[1..];
      assert IDLE[0] != OFFLINE[0];
      OfflineIffLast(t, rest, i, OneWrite(acts[0], i, before));
      FirstAndRest(acts, i);
      if OfflineAt(acts, i, 0) {
        NeverRegistersAgain(t, rest, i);
        assert forall l :: 0 <= l < |rest| ==> rest[l] == acts[l + 1];
        assert forall l :: 1 <= l < |acts| ==> acts[l] == rest[l - 1];
        assert NoBeatLandsAfter(acts, i, 0) <==> NoIdleWrite(rest, i);
      }
    }
  }

  lemma {:induction false} NeverRegistersAgain(s: State, acts: seq<Action>, i: nat)
    requires Legal(s, acts) && i < |s.runs| && !s.runs[i].pc.Joined?
    ensures forall l :: 0 <= l < |acts| ==> !(acts[l].Register? && acts[l].i == i)
    decreases |acts|
  {
    if acts != [] {
      NeverRegistersAgain(Apply(s, acts[0]), acts[1..], i);
      assert forall l :: 1 <= l < |acts| ==> acts[l] == acts[1..][l - 1];
    }
  }

  /**
   A run's entry reads "offline" exactly if its offline write succeeded and no
   heartbeat write of it landed afterwards. The write comes before the abort,
   so both outcomes occur.
   */
  lemma OfflineIffNoLateBeat(acts: seq<Action>, i: nat)
    requires Legal(EMPTY, acts)
    ensures StatusOf(After(EMPTY, acts), i) == Some(OFFLINE) <==> WroteOfflineLast(acts, i)
  {
    DocHoldsLastWrite(EMPTY, acts, i);
    OfflineIffLast(EMPTY, acts, i, None);
  }

  ghost predicate Ended(s: State, i: nat) { i < |s.runs| && (s.runs[i].pc.Stopped? || s.runs[i].pc.Crashed?) }

  lemma EndedStep(s: State, a: Action, i: nat)
    requires Inv(s) && Enabled(s, a) && Ended(s, i)
    ensures |Apply(s, a).runs| > i && Apply(s, a).runs[i] == s.runs[i] && EntryOf(Apply(s, a), i) == EntryOf(s, i)
  {
    assert s.runs[i].inFlight.None?;
    StepEntry(s, a, i);
  }

  /** Nothing changes the entry of a run that has ended, least of all a later run of the same node. */
  lemma {:induction false} EndedIsFrozen(s: State, acts: seq<Action>, i: nat)
    requires Inv(s) && Legal(s, acts) && Ended(s, i)
    ensures Ended(After(s, acts), i)
    ensures After(s, acts).runs[i] == s.runs[i] && EntryOf(After(s, acts), i) == EntryOf(s, i)
    decreases |acts|
  {
    if acts != [] {
      StepKeepsInv(s, acts[0]);
      EndedStep(s, acts[0], i);
      EndedIsFrozen(Apply(s, acts[0]), acts[1..], i);
    }
  }

  lemma Then(s: State, a: Action, rest: seq<Action>) returns (acts: seq<Action>)
    requires Enabled(s, a) && Legal(Apply(s, a), rest)
    ensures Legal(s, acts) && After(s, acts) == After(Apply(s, a), rest)
  {
    acts := [a] + rest;
    assert acts[1..] == rest;
  }

  lemma {:induction false} Concat(s: State, one: seq<Action>, two: seq<Action>)
    requires Legal(s, one) && Legal(After(s, one), two)
    ensures Legal(s, one + two) && After(s, one + two) == After(After(s, one), two)
    decreases |one|
  {
    if one == [] {
      assert one + two == two;
    } else {
      assert (one + two)[1..] == one[1..] + two;
      Concat(Apply(s, one[0]), one[1..], two);
    }
  }

  /** A further run joins and registers. */
  lemma Enlist(s: State, run: Run) returns (acts: seq<Action>, t: State)
    requires Inv(s) && ValidRun(run)
    ensures Legal(s, acts) && t == After(s, acts)
    ensures Inv(t) && t.runs == s.runs + [RunState(run, Serving, None)] && StatusOf(t, |s.runs|) == Some(IDLE)
  {
    var i := |s.runs|;
    var s1 := Apply(s, Launch(run));
    t := Apply(s1, Register(i, 0, true));
    StepKeepsInv(s, Launch(run));
    StepKeepsInv(s1, Register(i, 0, true));
    StepStatus(s1, Register(i, 0, true), i);
    acts := Then(s1, Register(i, 0, true), []);
    acts := Then(s, Launch(run), acts);
  }

  /** The last run writes its offline entry. */
  lemma SignOff(s: State, i: nat) returns (t: State)
    requires Inv(s) && i + 1 == |s.runs| && s.runs[i].pc.Serving?
    ensures Enabled(s, Offline(i, 1, true)) && t == Apply(s, Offline(i, 1, true))
    ensures Inv(t) && t.runs == s.runs[..i] + [s.runs[i].(pc := Offlined)] && StatusOf(t, i) == Some(OFFLINE)
  {
    t := Apply(s, Offline(i, 1, true));
    StepKeepsInv(s, Offline(i, 1, true));
    StepStatus(s, Offline(i, 1, true), i);
  }

  /** The last run aborts its tasks and stops, writing nothing more. */
  lemma Retire(s: State, i: nat) returns (acts: seq<Action>, t: State)
    requires Inv(s) && i + 1 == |s.runs| && s.runs[i].pc.Offlined?
    ensures Legal(s, acts) && t == After(s, acts)
    ensures Inv(t) && t.runs == s.runs[..i] + [RunState(s.runs[i].run, Stopped, None)]
    ensures StatusOf(t, i) == StatusOf(s, i)
  {
    var s1 := Apply(s, AbortTasks(i));
    t := Apply(s1, Stop(i));
    StepKeepsInv(s, AbortTasks(i));
    StepKeepsInv(s1, Stop(i));
    StepStatus(s, AbortTasks(i), i);
    StepStatus(s1, Stop(i), i);
    acts := Then(s1, Stop(i), []);
    acts := Then(s, AbortTasks(i), acts);
  }

  /** A heartbeat of the last run is sent and lands. */
  lemma Heartbeat(s: State, i: nat) returns (acts: seq<Action>, t: State)
    requires Inv(s) && i + 1 == |s.runs| && s.runs[i].pc.Offlined? && s.runs[i].inFlight.None?
    ensures Legal(s, acts) && t == After(s, acts)
    ensures Inv(t) && t.runs == s.runs && StatusOf(t, i) == Some(IDLE)
  {
    var s1 := Apply(s, Beat(i, 2));
    t := Apply(s1, Land(i));
    StepKeepsInv(s, Beat(i, 2));
    StepKeepsInv(s1, Land(i));
    StepStatus(s1, Land(i), i);
    acts := Then(s1, Land(i), []);
    acts := Then(s, Beat(i, 2), acts);
  }

  lemma BeatAndLand(s: State, i: nat, now: nat) returns (acts: seq<Action>, t: State)
    requires Inv(s) && i < |s.runs| && s.runs[i].pc.Serving? && s.runs[i].inFlight.None?
    ensures Legal(s, acts) && t == After(s, acts) && t.runs == s.runs
    ensures EntryOf(t, i) == Some(IdleEntry(s.runs[i].run, s.runs[i].run.heartbeatAddr, now))
  {
    var s1 := Apply(s, Beat(i, now));
    t := Apply(s1, Land(i));
    StepKeepsInv(s, Beat(i, now));
    StepEntry(s1, Land(i), i);
    acts := Then(s1, Land(i), []);
    acts := Then(s, Beat(i, now), acts);
  }

  /** While a run serves, its entry can be refreshed at any time: idle, with the own address and that time. */
  lemma HeartbeatRefreshes(s: State, i: nat, now: nat) returns (acts: seq<Action>)
    requires Inv(s) && i < |s.runs| && s.runs[i].pc.Serving?
    ensures Legal(s, acts)
    ensures
      var t := After(s, acts);
      && |t.runs| == |s.runs| && t.runs[i] == RunState(s.runs[i].run, Serving, None)
      && EntryOf(t, i) == Some(IdleEntry(s.runs[i].run, s.runs[i].run.heartbeatAddr, now))
  {
    var t: State;
    if s.runs[i].inFlight.None? {
      acts, t := BeatAndLand(s, i, now);
    } else {
      StepKeepsInv(s, LoseBeat(i));
      acts, t := BeatAndLand(Apply(s, LoseBeat(i)), i, now);
      acts := Then(s, LoseBeat(i), acts);
    }
  }

  /** A heartbeat between the offline write and the abort leaves a stopped satellite listed as idle. */
  lemma LateBeatLeavesIdle(run: Run) returns (acts: seq<Action>)
    requires ValidRun(run)
    ensures Legal(EMPTY, acts)
    ensures
      var s := After(EMPTY, acts);
      |s.runs| == 1 && s.runs[0].run == run && s.runs[0].pc.Stopped? && StatusOf(s, 0) == Some(IDLE)
  {
    var joins, s1 := Enlist(EMPTY, run);
    var s2 := SignOff(s1, 0);
    var beats, s3 := Heartbeat(s2, 0);
    var stops, s4 := Retire(s3, 0);
    Concat(s2, beats, stops);
    acts := Then(s1, Offline(0, 1, true), beats + stops);
    Concat(EMPTY, joins, acts);
    acts := joins + acts;
  }

  ghost predicate IdleListed(s: State, node: NodeId) {
    exists at :: at in s.doc && at.1 == KeyOf(node) && s.doc[at].status == IDLE
  }

  lemma ListedWasWrittenLast(acts: seq<Action>, node: NodeId) returns (i: nat)
    requires Legal(EMPTY, acts) && IdleListed(After(EMPTY, acts), node)
    ensures i < |After(EMPTY, acts).runs| && After(EMPTY, acts).runs[i].run.node == node
    ensures LastWrite(acts, i, None) == Some(IDLE)
  {
    var s := After(EMPTY, acts);
    RunKeepsInv(EMPTY, acts);
    var at :| at in s.doc && at.1 == KeyOf(node) && s.doc[at].status == IDLE;
    i := at.0;
    KeysAreInjective(node, s.runs[i].run.node);
    DocHoldsLastWrite(EMPTY, acts, i);
  }

  lemma WrittenLastIsListed(acts: seq<Action>, i: nat)
    requires Legal(EMPTY, acts) && i < |After(EMPTY, acts).runs| && LastWrite(acts, i, None) == Some(IDLE)
    ensures IdleListed(After(EMPTY, acts), After(EMPTY, acts).runs[i].run.node)
  {
    DocHoldsLastWrite(EMPTY, acts, i);
    assert (i, KeyOf(After(EMPTY, acts).runs[i].run.node)) in After(EMPTY, acts).doc;
  }

  /**
   A node is listed as idle exactly if some run of it wrote "idle" last: still
   serving, crashed, or beaten by a late heartbeat. A clean shutdown of another
   run does not take that entry back.
   */
  lemma ListedIdleIffSomeRunWroteIdleLast(acts: seq<Action>, node: NodeId)
    requires Legal(EMPTY, acts)
    ensures
      var s := After(EMPTY, acts);
      IdleListed(s, node) <==>
        exists i :: 0 <= i < |s.runs| && s.runs[i].run.node == node && LastWrite(acts, i, None) == Some(IDLE)
  {
    var s := After(EMPTY, acts);
    if IdleListed(s, node) {
      var i := ListedWasWrittenLast(acts, node);
    }
    forall i | 0 <= i < |s.runs| && s.runs[i].run.node == node && LastWrite(acts, i, None) == Some(IDLE)
      ensures IdleListed(s, node)
    {
      WrittenLastIsListed(acts, i);
    }
  }

  lemma KeysAreInjective(m: NodeId, n: NodeId)
    requires KeyOf(m) == KeyOf(n)
    ensures m == n
  {
    DecodeInvertsEncode(m);
    DecodeInvertsEncode(n);
    assert KeyOf(m)[|KEY_PREFIX|..] == Hex.Encode(m) && KeyOf(n)[|KEY_PREFIX|..] == Hex.Encode(n);
  }

  /** Restarting after a crash and then shutting down cleanly leaves the node listed as idle. */
  lemma RestartDoesNotRetire(run: Run) returns (acts: seq<Action>)
    requires ValidRun(run)
    ensures Legal(EMPTY, acts)
    ensures
      var s := After(EMPTY, acts);
      && |s.runs| == 2 && s.runs[0].run == run && s.runs[1].run == run
      && s.runs[0].pc.Crashed? && s.runs[1].pc.Stopped? && StatusOf(s, 1) == Some(OFFLINE)
      && IdleListed(s, run.node)
  {
    var first, s1 := EnlistAndCrash(run);
    var second, s2 := EnlistAndRetire(s1, run);
    EndedIsFrozen(s1, second, 0);
    Concat(EMPTY, first, second);
    acts := first + second;
    assert (0, KeyOf(run.node)) in s2.doc && s2.doc[(0, KeyOf(run.node))].status == IDLE;
  }

  lemma EnlistAndCrash(run: Run) returns (acts: seq<Action>, t: State)
    requires ValidRun(run)
    ensures Legal(EMPTY, acts) && t == After(EMPTY, acts)
    ensures Inv(t) && t.runs == [RunState(run, Crashed, None)] && StatusOf(t, 0) == Some(IDLE)
  {
    var joins, s := Enlist(EMPTY, run);
    t := Apply(s, Crash(0));
    StepKeepsInv(s, Crash(0));
    StepStatus(s, Crash(0), 0);
    var crash := Then(s, Crash(0), []);
    Concat(EMPTY, joins, crash);
    acts := joins + crash;
  }

  lemma EnlistAndRetire(s: State, run: Run) returns (acts: seq<Action>, t: State)
    requires Inv(s) && ValidRun(run)
    ensures Legal(s, acts) && t == After(s, acts)
    ensures t.runs == s.runs + [RunState(run, Stopped, None)] && StatusOf(t, |s.runs|) == Some(OFFLINE)
  {
    var i := |s.runs|;
    var joins, s1 := Enlist(s, run);
    var s2 := SignOff(s1, i);
    var stops, s3 := Retire(s2, i);
    t := s3;
    acts := Then(s1, Offline(i, 1, true), stops);
    Concat(s, joins, acts);
    acts := joins + acts;
    assert s2.runs[..i] == s.runs && s1.runs[..i] == s.runs;
  }

  // ----- what Mission Control can discover and select -----

  ghost predicate OwnEntry(run: Run, x: (string, SatelliteEntry)) {
    x.0 == Hex.Encode(run.node) && WrittenBy(run, x.1)
  }

  /** Every discovered pair was written by some run, under that run's own node id. */
  ghost predicate Drawn(s: State, entries: Discovered) {
    forall x :: x in entries ==> exists i :: 0 <= i < |s.runs| && OwnEntry(s.runs[i].run, x)
  }

  lemma {:induction false} RunsOnlyJoin(s: State, acts: seq<Action>)
    requires Legal(s, acts)
    ensures |s.runs| <= |After(s, acts).runs|
    ensures forall i :: 0 <= i < |s.runs| ==> After(s, acts).runs[i].run == s.runs[i].run
    decreases |acts|
  {
    if acts != [] {
      RunsOnlyJoin(Apply(s, acts[0]), acts[1..]);
    }
  }

  lemma {:induction false} Cut(s: State, acts: seq<Action>, m: nat)
    requires Legal(s, acts) && m <= |acts|
    ensures Legal(s, acts[..m]) && Legal(After(s, acts[..m]), acts[m..])
    ensures After(s, acts) == After(After(s, acts[..m]), acts[m..])
    decreases |acts|
  {
    if m == 0 {
      assert acts[..0] == [] && acts[0..] == acts;
    } else {
      Cut(Apply(s, acts[0]), acts[1..], m - 1);
      assert acts[..m][1..] == acts[1..][..m - 1];
      assert acts[1..][m - 1..] == acts[m..];
    }
  }

  /** After the first `m` steps (a prefix of a legal run is legal) the Doc held `x` under author `i`. */
  ghost predicate HeldAt(acts: seq<Action>, m: nat, i: nat, x: (string, SatelliteEntry)) {
    && m <= |acts| && Legal(EMPTY, acts[..m])
    && (i, KEY_PREFIX + x.0) in After(EMPTY, acts[..m]).doc
    && After(EMPTY, acts[..m]).doc[(i, KEY_PREFIX + x.0)] == x.1
  }

  ghost predicate OnceHeld(acts: seq<Action>, x: (string, SatelliteEntry)) {
    exists m: nat, i: nat :: HeldAt(acts, m, i, x)
  }

  /** What a replica can show that lags, and differently for every entry, behind a run. */
  ghost predicate Shown(acts: seq<Action>, entries: Discovered) {
    Legal(EMPTY, acts) && forall x :: x in entries ==> OnceHeld(acts, x)
  }

  lemma HeldIsDrawn(acts: seq<Action>, m: nat, i: nat, x: (string, SatelliteEntry))
    requires Legal(EMPTY, acts) && HeldAt(acts, m, i, x)
    ensures i < |After(EMPTY, acts).runs| && OwnEntry(After(EMPTY, acts).runs[i].run, x)
  {
    var s := After(EMPTY, acts[..m]);
    Cut(EMPTY, acts, m);
    RunKeepsInv(EMPTY, acts[..m]);
    RunsOnlyJoin(s, acts[m..]);
    assert KEY_PREFIX + x.0 == KeyOf(s.runs[i].run.node);
    assert (KEY_PREFIX + x.0)[|KEY_PREFIX|..] == x.0;
    assert KeyOf(s.runs[i].run.node)[|KEY_PREFIX|..] == Hex.Encode(s.runs[i].run.node);
  }

  /** Entries each of which the Doc held at some point of the run are drawn from the run. */
  lemma LaggingReplicaIsDrawn(acts: seq<Action>, entries: Discovered)
    requires Shown(acts, entries)
    ensures Drawn(After(EMPTY, acts), entries)
  {
    forall x | x in entries
      ensures exists i :: 0 <= i < |After(EMPTY, acts).runs| && OwnEntry(After(EMPTY, acts).runs[i].run, x)
    {
      assert OnceHeld(acts, x);
      var m: nat, i: nat :| HeldAt(acts, m, i, x);
      HeldIsDrawn(acts, m, i, x);
    }
  }

  lemma DrawnIsRegistered(s: State, entries: Discovered)
    requires Drawn(s, entries)
    ensures AllRegistered(entries)
  {
    forall k | 0 <= k < |entries|
      ensures Registered(entries[k].1)
    {
      assert entries[k] in entries;
      var i :| 0 <= i < |s.runs| && OwnEntry(s.runs[i].run, entries[k]);
      WrittenEntry(s.runs[i].run, entries[k].1);
    }
  }

  /** Selection dials the own address of a run that wrote the entry as idle, never the placeholder. */
  lemma SelectedIsARealSatellite(s: State, entries: Discovered, platform: string)
    requires Drawn(s, entries) && '/' in platform && Select(entries, platform).Some?
    ensures
      var e := Select(entries, platform).value;
      && e.addr != PLACEHOLDER
      && exists i :: 0 <= i < |s.runs| && WrittenBy(s.runs[i].run, e) && e.addr.id == s.runs[i].run.node
  {
    SelectedIsIdle(entries, platform);
    var e := Select(entries, platform).value;
    var k :| 0 <= k < |entries| && entries[k].1 == e;
    assert entries[k] in entries;
    var i :| 0 <= i < |s.runs| && OwnEntry(s.runs[i].run, entries[k]);
    WrittenEntry(s.runs[i].run, e);
  }

  /** A satellite that is alone in the Constellation, idle and native to `arch`. */
  lemma LoneSatellite(arch: string) returns (acts: seq<Action>, run: Run, e: SatelliteEntry)
    requires '/' !in arch
    ensures Legal(EMPTY, acts) && OnceHeld(acts, (Hex.Encode(run.node), e))
    ensures e.nativeArch == arch && e.platforms == [LINUX + arch] && e.status == IDLE
  {
    var node: NodeId := seq(32, _ => 1);
    assert PLACEHOLDER.id[0] == 0;
    run := Run(node, Addr(node, []), Addr(node, []), arch, None);
    var s: State;
    acts, s := Enlist(EMPTY, run);
    e := s.doc[(0, KeyOf(node))];
    assert WrittenBy(s.runs[0].run, e);
    assert acts[..|acts|] == acts;
    assert HeldAt(acts, |acts|, 0, (Hex.Encode(node), e));
  }

  /**
   Over all runs of satellites, and all entries that a lagging replica can show:
   selection returns only satellites that advertise the platform, if and only if
   it is `linux/<arch>` with no further slash. `linux/v8/arm64` is served by a
   native `arm64` satellite that never listed it.
   */
  lemma AdvertisesIffPlain(platform: string)
    requires LINUX <= platform
    ensures '/' in platform
    ensures Plain(platform) <==>
            forall acts, entries :: Shown(acts, entries) && Select(entries, platform).Some? ==>
              platform in Select(entries, platform).value.platforms
  {
    PlainIsLinuxArch(platform);
    if Plain(platform) {
      forall acts, entries | Shown(acts, entries) && Select(entries, platform).Some?
        ensures platform in Select(entries, platform).value.platforms
      {
        LaggingReplicaIsDrawn(acts, entries);
        DrawnIsRegistered(After(EMPTY, acts), entries);
        SelectedAdvertises(entries, platform);
      }
    } else {
      var pre := ArchFollowsLastSlash(platform);
      var acts, run, e := LoneSatellite(ArchOf(platform));
      var entries := [(Hex.Encode(run.node), e)];
      OnlyChoice(entries[0], platform);
      assert Shown(acts, entries) && platform !in Select(entries, platform).value.platforms;
    }
  }

  lemma OnlyChoice(x: (string, SatelliteEntry), platform: string)
    requires '/' in platform && IdleNative(x.1, ArchOf(platform))
    ensures Select([x], platform) == Some(x.1)
  {
    SelectSpec([x], platform);
    assert IdleNative([x][0].1, ArchOf(platform));
    SelectedIsIdle([x], platform);
  }
}
