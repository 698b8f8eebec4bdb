/**
 The satellites' life read off the history of a run alone: which step may come
 next, and what every entry of the Doc holds. The step system of
 `Constellation` is proved to allow exactly these histories.
 */
module ConstellationHistory {
  import opened Wrappers
  import opened Entries
  import opened Hex
  import opened Histories
  import opened Constellation

  /** The runs launched so far, in order; a run is known by its place among them. */
  ghost function Launched(acts: seq<Action>): seq<Run> {
    if acts == [] then []
    else
      var front, a := acts[..|acts| - 1], acts[|acts| - 1];
      Launched(front) + if a.Launch? then [a.run] else []
  }

  ghost predicate Registered(acts: seq<Action>, i: nat, ok: bool) {
    Happened(acts, (a: Action) => a.Register? && a.i == i && a.ok == ok)
  }

  ghost predicate WroteOffline(acts: seq<Action>, i: nat) { Happened(acts, (a: Action) => a.Offline? && a.i == i) }

  ghost predicate AbortedTasks(acts: seq<Action>, i: nat) { Happened(acts, (a: Action) => a == AbortTasks(i)) }

  ghost predicate Ended(acts: seq<Action>, i: nat) {
    || Registered(acts, i, false)
    || Happened(acts, (a: Action) => a == Stop(i))
    || Happened(acts, (a: Action) => a == Crash(i))
  }

  /** When the heartbeat was sent that is still on its way, if there is one. */
  ghost function OnItsWay(acts: seq<Action>, i: nat): Option<nat> {
    if acts == [] then None
    else
      var front, a := acts[..|acts| - 1], acts[|acts| - 1];
      if a.Beat? && a.i == i then Some(a.now)
      else if a == Land(i) || a == LoseBeat(i) || a == Stop(i) || a == Crash(i) then None
      else OnItsWay(front, i)
  }

  /** Whether a step may follow on a history. */
  ghost predicate Due(acts: seq<Action>, a: Action) {
    match a
    case Launch(run) => ValidRun(run)
    case Register(i, _, _) => i < |Launched(acts)| && !Registered(acts, i, true) && !Ended(acts, i)
    case Beat(i, _) => Registered(acts, i, true) && !AbortedTasks(acts, i) && !Ended(acts, i) && OnItsWay(acts, i).None?
    case Land(i) => OnItsWay(acts, i).Some?
    case LoseBeat(i) => OnItsWay(acts, i).Some?
    case Offline(i, _, _) => Registered(acts, i, true) && !WroteOffline(acts, i) && !Ended(acts, i)
    case AbortTasks(i) => WroteOffline(acts, i) && !AbortedTasks(acts, i) && !Ended(acts, i)
    case Stop(i) => AbortedTasks(acts, i) && !Ended(acts, i)
    case Crash(i) => i < |Launched(acts)| && !Ended(acts, i)
  }

  ghost predicate InOrder(acts: seq<Action>) { forall k :: 0 <= k < |acts| ==> Due(acts[..k], acts[k]) }

  /** The last write of run `i` that reached the Doc. */
  ghost function LastEntry(acts: seq<Action>, i: nat, run: Run): Option<SatelliteEntry> {
    if acts == [] then None
    else
      var front, a := acts[..|acts| - 1], acts[|acts| - 1];
      if a == Land(i) && OnItsWay(front, i).Some? then Some(IdleEntry(run, run.heartbeatAddr, OnItsWay(front, i).value))
      else if a.Register? && a.i == i && a.ok then Some(IdleEntry(run, run.addr, a.now))
      else if a.Offline? && a.i == i && a.ok then Some(OfflineEntry(run, a.now))
      else LastEntry(front, i, run)
  }

  // ----- the step system agrees -----

  /** What the history says about the state of run `i`. */
  ghost predicate RunReads(acts: seq<Action>, s: State, i: nat)
    requires i < |s.runs|
  {
    var r := s.runs[i];
    && (r.pc.Joined? <==> !Registered(acts, i, true) && !Ended(acts, i))
    && (r.pc.Serving? <==> Registered(acts, i, true) && !WroteOffline(acts, i) && !Ended(acts, i))
    && (r.pc.Offlined? <==> WroteOffline(acts, i) && !AbortedTasks(acts, i) && !Ended(acts, i))
    && (r.pc.Aborted? <==> AbortedTasks(acts, i) && !Ended(acts, i))
    && (r.pc.Stopped? || r.pc.Crashed? <==> Ended(acts, i))
    && r.inFlight == (match OnItsWay(acts, i)
                      case None => None
                      case Some(now) => Some(IdleEntry(r.run, r.run.heartbeatAddr, now)))
    && (WroteOffline(acts, i) ==> Registered(acts, i, true))
    && (AbortedTasks(acts, i) ==> WroteOffline(acts, i))
  }

  predicate Names(a: Action, i: nat) { !a.Launch? && a.i == i }

  ghost predicate NothingOf(acts: seq<Action>, i: nat) {
    && (forall k :: 0 <= k < |acts| ==> !Names(acts[k], i))
    && !Registered(acts, i, true) && !WroteOffline(acts, i) && !AbortedTasks(acts, i) && !Ended(acts, i)
    && OnItsWay(acts, i).None?
  }

  ghost predicate Reads(acts: seq<Action>, s: State) {
    && |s.runs| == |Launched(acts)|
    && (forall i :: 0 <= i < |s.runs| ==> s.runs[i].run == Launched(acts)[i] && RunReads(acts, s, i))
    && (forall i: nat :: i >= |s.runs| ==> NothingOf(acts, i))
  }

  lemma EnabledIffDue(acts: seq<Action>, s: State, a: Action)
    requires Reads(acts, s)
    ensures Constellation.Enabled(s, a) <==> Due(acts, a)
  {
    if !a.Launch? {
      if a.i >= |s.runs| {
        assert NothingOf(acts, a.i);
      } else {
        assert RunReads(acts, s, a.i);
      }
    }
  }

  /** What one more step adds to the history of run `i`. */
  lemma HistoryGrows(acts: seq<Action>, a: Action, i: nat)
    ensures Launched(acts + [a]) == Launched(acts) + if a.Launch? then [a.run] else []
    ensures forall ok :: Registered(acts + [a], i, ok) <==>
              Registered(acts, i, ok) || (a.Register? && a.i == i && a.ok == ok)
    ensures WroteOffline(acts + [a], i) <==> WroteOffline(acts, i) || (a.Offline? && a.i == i)
    ensures AbortedTasks(acts + [a], i) <==> AbortedTasks(acts, i) || a == AbortTasks(i)
    ensures Ended(acts + [a], i) <==>
              Ended(acts, i) || a == Stop(i) || a == Crash(i) || (a.Register? && a.i == i && !a.ok)
    ensures OnItsWay(acts + [a], i) ==
              if a.Beat? && a.i == i then Some(a.now)
              else if a == Land(i) || a == LoseBeat(i) || a == Stop(i) || a == Crash(i) then None
              else OnItsWay(acts, i)
  {
    assert (acts + [a])[..|acts|] == acts;
    OneMore(acts, a, (b: Action) => b.Register? && b.i == i && b.ok == true);
    OneMore(acts, a, (b: Action) => b.Register? && b.i == i && b.ok == false);
    OneMore(acts, a, (b: Action) => b.Offline? && b.i == i);
    OneMore(acts, a, (b: Action) => b == AbortTasks(i));
    OneMore(acts, a, (b: Action) => b == Stop(i));
    OneMore(acts, a, (b: Action) => b == Crash(i));
  }

  lemma OtherRunReads(acts: seq<Action>, s: State, a: Action, i: nat)
    requires i < |s.runs| && RunReads(acts, s, i) && Constellation.Enabled(s, a) && (a.Launch? || a.i != i)
    ensures Apply(s, a).runs[i] == s.runs[i] && RunReads(acts + [a], Apply(s, a), i)
  {
    HistoryGrows(acts, a, i);
  }

  lemma OwnRunReads(acts: seq<Action>, s: State, a: Action)
    requires !a.Launch? && Constellation.Enabled(s, a) && RunReads(acts, s, a.i)
    ensures |Apply(s, a).runs| == |s.runs| && Apply(s, a).runs[a.i].run == s.runs[a.i].run
    ensures RunReads(acts + [a], Apply(s, a), a.i)
  {
    HistoryGrows(acts, a, a.i);
  }

  lemma NothingStays(acts: seq<Action>, a: Action, i: nat)
    requires NothingOf(acts, i) && (a.Launch? || a.i != i)
    ensures NothingOf(acts + [a], i)
  {
    HistoryGrows(acts, a, i);
    assert forall k :: 0 <= k < |acts| ==> (acts + [a])[k] == acts[k];
  }

  lemma NewRunReads(acts: seq<Action>, s: State, run: Run)
    requires NothingOf(acts, |s.runs|) && ValidRun(run)
    ensures RunReads(acts + [Launch(run)], Apply(s, Launch(run)), |s.runs|)
  {
    NothingStays(acts, Launch(run), |s.runs|);
  }

  lemma StepReadsRun(acts: seq<Action>, s: State, a: Action, i: nat)
    requires Reads(acts, s) && Constellation.Enabled(s, a) && i < |Apply(s, a).runs|
    ensures RunReads(acts + [a], Apply(s, a), i)
  {
    if i == |s.runs| {
      assert NothingOf(acts, i);
      NewRunReads(acts, s, a.run);
    } else {
      assert RunReads(acts, s, i);
      if a.Launch? || a.i != i {
        OtherRunReads(acts, s, a, i);
      } else {
        OwnRunReads(acts, s, a);
      }
    }
  }

  lemma StepReadsLaunched(acts: seq<Action>, s: State, a: Action)
    requires Reads(acts, s) && Constellation.Enabled(s, a)
    ensures |Apply(s, a).runs| == |Launched(acts + [a])|
    ensures forall i :: 0 <= i < |Apply(s, a).runs| ==> Apply(s, a).runs[i].run == Launched(acts + [a])[i]
  {
    HistoryGrows(acts, a, 0);
    RunsStay(s, a);
  }

  lemma StepNamesNoOther(acts: seq<Action>, s: State, a: Action, i: nat)
    requires Reads(acts, s) && Constellation.Enabled(s, a) && i >= |Apply(s, a).runs|
    ensures NothingOf(acts + [a], i)
  {
    assert NothingOf(acts, i);
    NothingStays(acts, a, i);
  }

  lemma StepReads(acts: seq<Action>, s: State, a: Action)
    requires Reads(acts, s) && Constellation.Enabled(s, a)
    ensures Reads(acts + [a], Apply(s, a))
  {
    StepReadsLaunched(acts, s, a);
    forall i | 0 <= i < |Apply(s, a).runs|
      ensures RunReads(acts + [a], Apply(s, a), i)
    {
      StepReadsRun(acts, s, a, i);
    }
    forall i: nat | i >= |Apply(s, a).runs|
      ensures NothingOf(acts + [a], i)
    {
      StepNamesNoOther(acts, s, a, i);
    }
  }

  lemma NothingYet()
    ensures Reads([], EMPTY)
  {
    forall i: nat
      ensures NothingOf([], i)
    {
      var none: seq<Action> := [];
    }
  }

  lemma {:induction false} CutLast(s: State, front: seq<Action>, a: Action)
    ensures Legal(s, front + [a]) <==> Legal(s, front) && Constellation.Enabled(After(s, front), a)
    ensures Legal(s, front + [a]) ==> After(s, front + [a]) == Apply(After(s, front), a)
    decreases |front|
  {
    var acts := front + [a];
    if front == [] {
      assert acts == [a] && acts[1..] == [];
    } else {
      assert acts[1..] == front[1..] + [a];
      if Constellation.Enabled(s, front[0]) {
        CutLast(Apply(s, front[0]), front[1..], a);
      }
    }
  }

  lemma InOrderGrows(acts: seq<Action>, a: Action)
    ensures InOrder(acts + [a]) <==> InOrder(acts) && Due(acts, a)
  {
    var more := acts + [a];
    assert more[..|acts|] == acts && more[|acts|] == a;
    assert forall k :: 0 <= k < |acts| ==> acts[..k] == more[..k] && acts[k] == more[k];
  }

  /** The step system and the history agree on what has happened so far. */
  ghost predicate Agrees(s: State, acts: seq<Action>) {
    (Legal(s, acts) <==> InOrder(acts)) && (Legal(s, acts) ==> Reads(acts, After(s, acts)))
  }

  lemma AgreesOnOneMore(s: State, front: seq<Action>, a: Action)
    requires Agrees(s, front)
    ensures Agrees(s, front + [a])
  {
    CutLast(s, front, a);
    InOrderGrows(front, a);
    if Legal(s, front) {
      EnabledIffDue(front, After(s, front), a);
      if Due(front, a) {
        StepReads(front, After(s, front), a);
      }
    }
  }

  lemma {:induction false} AgreesOn(s: State, acts: seq<Action>)
    requires s == EMPTY
    ensures Agrees(s, acts)
    decreases |acts|
  {
    if acts == [] {
      NothingYet();
    } else {
      AgreesOn(s, acts[..|acts| - 1]);
      AgreesOnOneMore(s, acts[..|acts| - 1], acts[|acts| - 1]);
      assert acts == acts[..|acts| - 1] + [acts[|acts| - 1]];
    }
  }

  /**
   The step system allows exactly the histories in which every step is due:
   heartbeats from the registration to the abort, one at a time, one offline
   write, then the abort, then the end, and a crash at any time before it.
   */
  lemma LegalIffInOrder(acts: seq<Action>)
    ensures Legal(EMPTY, acts) <==> InOrder(acts)
    ensures Legal(EMPTY, acts) ==> Reads(acts, After(EMPTY, acts))
  {
    AgreesOn(EMPTY, acts);
  }

  ghost predicate EntryReads(acts: seq<Action>, s: State, i: nat) {
    i < |s.runs| ==> EntryOf(s, i) == LastEntry(acts, i, s.runs[i].run)
  }

  lemma EntryReadsOneMore(acts: seq<Action>, s: State, a: Action, i: nat)
    requires Inv(s) && Reads(acts, s) && Constellation.Enabled(s, a) && EntryReads(acts, s, i)
    ensures EntryReads(acts + [a], Apply(s, a), i)
  {
    if i < |s.runs| {
      RunsStay(s, a);
      LastEntryGrows(acts, s, a, i);
    } else if i < |Apply(s, a).runs| {
      NewRunHasNoEntry(acts, s, a);
    }
  }

  lemma {:induction false} AllEntriesRead(s: State, acts: seq<Action>, i: nat)
    requires s == EMPTY && Legal(s, acts)
    ensures EntryReads(acts, After(s, acts), i)
    decreases |acts|
  {
    if acts != [] {
      var front, a := acts[..|acts| - 1], acts[|acts| - 1];
      assert acts == front + [a];
      CutLast(s, front, a);
      LegalIffInOrder(front);
      RunKeepsInv(s, front);
      AllEntriesRead(s, front, i);
      EntryReadsOneMore(front, After(s, front), a, i);
    }
  }

  /** What the Doc holds for run `i` is its last write to arrive, a heartbeat stamped with the time it was sent. */
  lemma DocHoldsLastEntry(acts: seq<Action>, i: nat)
    requires Legal(EMPTY, acts) && i < |After(EMPTY, acts).runs|
    ensures i < |Launched(acts)| && After(EMPTY, acts).runs[i].run == Launched(acts)[i]
    ensures EntryOf(After(EMPTY, acts), i) == LastEntry(acts, i, Launched(acts)[i])
  {
    LegalIffInOrder(acts);
    AllEntriesRead(EMPTY, acts, i);
  }

  lemma LastEntryGrows(acts: seq<Action>, s: State, a: Action, i: nat)
    requires Inv(s) && Reads(acts, s) && Constellation.Enabled(s, a) && i < |s.runs|
    requires EntryOf(s, i) == LastEntry(acts, i, s.runs[i].run)
    ensures EntryOf(Apply(s, a), i) == LastEntry(acts + [a], i, s.runs[i].run)
  {
    assert (acts + [a])[..|acts|] == acts;
    StepEntry(s, a, i);
    assert RunReads(acts, s, i);
  }

  lemma NewRunHasNoEntry(acts: seq<Action>, s: State, a: Action)
    requires Inv(s) && Reads(acts, s) && a.Launch? && Constellation.Enabled(s, a)
    ensures EntryOf(Apply(s, a), |s.runs|).None? && LastEntry(acts + [a], |s.runs|, a.run).None?
  {
    assert (acts + [a])[..|acts|] == acts;
    assert (|s.runs|, KeyOf(a.run.node)) !in s.doc;
    assert NothingOf(acts, |s.runs|);
    NothingWritten(acts, |s.runs|, a.run);
  }

  lemma {:induction false} NothingWritten(acts: seq<Action>, i: nat, run: Run)
    requires forall k :: 0 <= k < |acts| ==> !Names(acts[k], i)
    ensures LastEntry(acts, i, run).None?
    decreases |acts|
  {
    if acts != [] {
      assert !Names(acts[|acts| - 1], i);
      NothingWritten(acts[..|acts| - 1], i, run);
    }
  }
}
