/** Progress of the tunnel with bounded channels, and a bound on the length of its runs. */
module TunnelProgress {
  import opened Wrappers
  import opened Tunnel
  import opened TunnelSafety

  /** Every byte weighs the hops it still has to make; an open end weighs one. */
  function Weight(p: Pipe): nat {
    5 * |p.unread| + 4 * |p.near.buf| + 3 * |p.wire| + 2 * |p.far.buf| + |p.inbox|
    + (if p.near.eof then 0 else 1) + (if p.near.status.Copying? then 1 else 0)
    + (if p.far.eof then 0 else 1) + (if p.far.status.Copying? then 1 else 0)
  }

  function Measure(s: State): nat {
    Weight(s.up) + Weight(s.down) + (if s.bridge.Running? then 1 else 0) + (if s.satellite.Running? then 1 else 0)
  }

  lemma NearMoveDecreases(c: Env, lost: bool, p: Pipe, m: Move)
    requires MoveEnabled(c, lost, p, m) && (m.NearRead? || m.NearEof? || m.NearWrite? || m.NearDone?)
    ensures Weight(ApplyMove(c, lost, p, m)) < Weight(p)
  {
  }

  lemma FarMoveDecreases(c: Env, lost: bool, p: Pipe, m: Move)
    requires MoveEnabled(c, lost, p, m) && (m.FarRead? || m.FarEof? || m.FarWrite? || m.FarDone? || m.Read?)
    ensures Weight(ApplyMove(c, lost, p, m)) < Weight(p)
  {
  }

  lemma LighterPipeDecreases(s: State, d: Dir, q: Pipe)
    requires Weight(q) < Weight(s.PipeOf(d))
    ensures Measure(s.With(d, q)) < Measure(s)
  {
  }

  lemma HangingUpWeighsNothing(p: Pipe)
    ensures Weight(p.(hungUp := true)) == Weight(p)
  {
  }

  lemma ReturnDecreases(c: Env, s: State, side: Side)
    requires Enabled(c, s, Return(side))
    ensures Measure(Apply(c, s, Return(side))) < Measure(s)
  {
    HangingUpWeighsNothing(s.up);
    HangingUpWeighsNothing(s.down);
    var t := Apply(c, s, Return(side));
    if side.Bridge? {
      assert t.up == s.up && t.down == s.down.(hungUp := true) && t.satellite == s.satellite;
    } else {
      assert t.down == s.down && t.up == s.up.(hungUp := true) && t.bridge == s.bridge;
    }
  }

  lemma InternalStepDecreases(c: Env, s: State, a: Action)
    requires Enabled(c, s, a) && Internal(a)
    ensures Measure(Apply(c, s, a)) < Measure(s)
  {
    if a.Return? {
      ReturnDecreases(c, s, a.side);
    } else {
      var p := s.PipeOf(a.dir);
      if a.move.FarRead? || a.move.FarEof? || a.move.FarWrite? || a.move.FarDone? || a.move.Read? {
        FarMoveDecreases(c, s.lost, p, a.move);
      } else {
        NearMoveDecreases(c, s.lost, p, a.move);
      }
      LighterPipeDecreases(s, a.dir, ApplyMove(c, s.lost, p, a.move));
    }
  }

  ghost predicate AllDriven(acts: seq<Action>) { forall i :: 0 <= i < |acts| ==> Driven(acts[i]) }

  ghost predicate AllInternal(acts: seq<Action>) { forall i :: 0 <= i < |acts| ==> Internal(acts[i]) }

  lemma DroppingAddsNoWeight(c: Env, lost: bool, p: Pipe)
    ensures Weight(DropNear(c, lost, p)) <= Weight(p) && Weight(DropFar(p)) <= Weight(p)
  {
  }

  lemma FailDecreases(c: Env, s: State, side: Side)
    requires s.SessionOf(side).Running?
    ensures Measure(EndFailed(c, s, side)) < Measure(s)
  {
    DroppingAddsNoWeight(c, s.lost, s.up);
    DroppingAddsNoWeight(c, s.lost, s.down);
  }

  /** No run of the tunnel and its readers is longer than the measure, whatever fails on the way. */
  lemma {:induction false} DrivenRunIsBounded(c: Env, s: State, acts: seq<Action>)
    requires Legal(c, s, acts) && AllDriven(acts)
    ensures |acts| + Measure(After(c, s, acts)) <= Measure(s)
    decreases |acts|
  {
    if acts != [] {
      assert Driven(acts[0]);
      if acts[0].Fail? {
        FailDecreases(c, s, acts[0].side);
      } else {
        InternalStepDecreases(c, s, acts[0]);
      }
      DrivenRunIsBounded(c, Apply(c, s, acts[0]), acts[1..]);
    }
  }

  lemma {:induction false} ClosedRunIsInternal(c: Env, s: State, acts: seq<Action>)
    requires Inv(s) && Healthy(s) && Legal(c, s, acts) && ErrorFree(acts) && s.up.closed && s.down.closed
    ensures AllInternal(acts)
    ensures After(c, s, acts).up.closed && After(c, s, acts).down.closed
    decreases |acts|
  {
    if acts != [] {
      assert !Faulty(acts[0]);
      StepKeepsInv(c, s, acts[0]);
      StepKeepsHealthy(c, s, acts[0]);
      ClosedStep(c, s, acts[0]);
      ClosedRunIsInternal(c, Apply(c, s, acts[0]), acts[1..]);
    }
  }

  lemma ClosedStep(c: Env, s: State, a: Action)
    requires Enabled(c, s, a) && !Faulty(a) && !a.Fail? && s.up.closed && s.down.closed
    ensures Internal(a) && Apply(c, s, a).up.closed && Apply(c, s, a).down.closed
  {
  }

  /** A move of this direction alone, looked for from the receiving end backwards. */
  function NextMove(p: Pipe): Option<Move> {
    if p.inbox != [] then Some(Read(1))
    else if p.far.status.Copying? && p.far.buf != [] then Some(FarWrite(1))
    else if p.far.status.Copying? && p.far.eof then Some(FarDone)
    else if p.far.status.Copying? && p.wire != [] then Some(FarRead(1))
    else if p.near.status.Copying? && p.near.buf != [] then Some(NearWrite(1))
    else if p.near.status.Copying? && p.near.eof then Some(NearDone)
    else if p.near.status.Copying? && p.unread != [] then Some(NearRead(1))
    else if p.near.status.Copying? && p.closed then Some(NearEof)
    else if p.far.status.Copying? && p.finished then Some(FarEof)
    else None
  }

  ghost predicate Whole(p: Pipe) { !p.near.status.Dropped? && !p.far.status.Dropped? }

  /**
   Progress of one direction depends on nothing of the other: whatever the
   other direction's channels hold, either this one can move or it has carried
   everything, and then its loops have ended exactly if its sender closed.
   */
  lemma PipeProgress(c: Env, p: Pipe)
    requires c.Positive() && PipeInv(p, false) && Whole(p)
    ensures NextMove(p).Some? ==>
              MoveEnabled(c, false, p, NextMove(p).value) && !NextMove(p).value.Write? && !NextMove(p).value.Close?
    ensures NextMove(p).None? ==>
              p.received == p.written && (p.closed <==> p.near.status.Copied?) && (p.closed <==> p.far.status.Copied?)
  {
    if NextMove(p).None? {
      assert p.wire == [] && p.far.buf == [] && p.near.buf == [] && p.unread == [];
      assert Carried(p) == p.received;
    }
  }

  ghost predicate Quiet(c: Env, s: State) { forall a :: Internal(a) ==> !Enabled(c, s, a) }

  function NextAction(s: State): Option<Action> {
    if NextMove(s.up).Some? then Some(Flow(Up, NextMove(s.up).value))
    else if NextMove(s.down).Some? then Some(Flow(Down, NextMove(s.down).value))
    else if s.bridge.Running? && s.up.near.status.Copied? && s.down.far.status.Copied? then Some(Return(Bridge))
    else if s.satellite.Running? && s.down.near.status.Copied? && s.up.far.status.Copied? then Some(Return(Satellite))
    else None
  }

  lemma HealthyIsWhole(s: State)
    requires Inv(s) && Healthy(s)
    ensures Whole(s.up) && Whole(s.down)
  {
    assert SessionInv(s, Bridge) && SessionInv(s, Satellite);
  }

  lemma NextActionIsEnabled(c: Env, s: State)
    requires c.Positive() && Inv(s) && Healthy(s) && NextAction(s).Some?
    ensures Internal(NextAction(s).value) && Enabled(c, s, NextAction(s).value)
  {
    HealthyIsWhole(s);
    PipeProgress(c, s.up);
    PipeProgress(c, s.down);
  }

  lemma NoNextActionMeansQuiet(c: Env, s: State)
    requires NextAction(s).None? && Inv(s) && Healthy(s)
    ensures Quiet(c, s)
  {
    HealthyIsWhole(s);
    forall a | Internal(a)
      ensures !Enabled(c, s, a)
    {
      if a.Return? {
      } else {
        NoNextMoveMeansStuck(c, s.PipeOf(a.dir), a.move);
      }
    }
  }

  lemma NoNextMoveMeansStuck(c: Env, p: Pipe, m: Move)
    requires NextMove(p).None? && PipeInv(p, false) && Whole(p) && !m.Write? && !m.Close?
    ensures !MoveEnabled(c, false, p, m)
  {
  }

  /**
   Where an error-free tunnel comes to rest: every byte has been read by its
   receiver, and either session has returned Ok exactly if both applications
   closed. So it can only wait for an application that has not closed.
   */
  lemma RestsExactlyWhenBothClosed(c: Env, s: State)
    requires c.Positive() && Inv(s) && Healthy(s) && Quiet(c, s)
    ensures s.up.received == s.up.written && s.down.received == s.down.written
    ensures s.bridge.Done? <==> s.up.closed && s.down.closed
    ensures s.satellite.Done? <==> s.up.closed && s.down.closed
  {
    HealthyIsWhole(s);
    if NextAction(s).Some? {
      NextActionIsEnabled(c, s);
      assert false;
    }
    PipeProgress(c, s.up);
    PipeProgress(c, s.down);
    assert SessionInv(s, Bridge) && SessionInv(s, Satellite);
  }

  ghost predicate SameSenders(s: State, t: State) {
    && s.up.closed == t.up.closed && s.down.closed == t.down.closed
    && s.up.written == t.up.written && s.down.written == t.down.written
  }

  lemma InternalMoveFrame(c: Env, lost: bool, p: Pipe, m: Move)
    requires MoveEnabled(c, lost, p, m) && !m.Write? && !m.Close?
    ensures ApplyMove(c, lost, p, m).closed == p.closed && ApplyMove(c, lost, p, m).written == p.written
  {
  }

  lemma InternalStepFrame(c: Env, s: State, a: Action)
    requires Enabled(c, s, a) && Internal(a) && Healthy(s)
    ensures Healthy(Apply(c, s, a)) && SameSenders(s, Apply(c, s, a))
  {
    if a.Flow? {
      InternalMoveFrame(c, s.lost, s.PipeOf(a.dir), a.move);
    }
  }

  lemma StepThen(c: Env, s: State, a: Action, rest: seq<Action>)
    requires Enabled(c, s, a) && Legal(c, Apply(c, s, a), rest) && Internal(a) && AllInternal(rest)
    ensures Legal(c, s, [a] + rest) && AllInternal([a] + rest)
    ensures After(c, s, [a] + rest) == After(c, Apply(c, s, a), rest)
  {
    assert ([a] + rest)[1..] == rest;
  }

  /** Every error-free state can be run to rest by the tunnel and its readers alone. */
  lemma {:induction false} Drain(c: Env, s: State) returns (acts: seq<Action>)
    requires c.Positive() && Inv(s) && Healthy(s)
    ensures Legal(c, s, acts) && AllInternal(acts)
    ensures Inv(After(c, s, acts)) && Healthy(After(c, s, acts)) && Quiet(c, After(c, s, acts))
    ensures SameSenders(s, After(c, s, acts))
    decreases Measure(s)
  {
    match NextAction(s)
    case None =>
      acts := [];
      NoNextActionMeansQuiet(c, s);
    case Some(a) =>
      NextActionIsEnabled(c, s);
      InternalStepDecreases(c, s, a);
      StepKeepsInv(c, s, a);
      InternalStepFrame(c, s, a);
      var rest := Drain(c, Apply(c, s, a));
      StepThen(c, s, a, rest);
      acts := [a] + rest;
  }

  lemma MeasureBound(s: State)
    requires Inv(s) && Healthy(s)
    ensures Measure(s) <= 5 * (|s.up.written| + |s.down.written|) + 10
  {
    HealthyIsWhole(s);
    assert |s.up.written| == |Carried(s.up)| && |s.down.written| == |Carried(s.down)|;
  }

  lemma QuietMeansDone(c: Env, t: State)
    requires c.Positive() && Inv(t) && Healthy(t) && t.up.closed && t.down.closed && Quiet(c, t)
    ensures t.up.received == t.up.written && t.down.received == t.down.written
    ensures t.bridge == Done(|t.up.written|, |t.down.written|)
    ensures t.satellite == Done(|t.down.written|, |t.up.written|)
  {
    RestsExactlyWhenBothClosed(c, t);
    assert SessionInv(t, Bridge) && SessionInv(t, Satellite);
  }

  /**
   Termination and completeness: once both applications have closed, an
   error-free run takes at most five steps a byte and ten more, and where it
   comes to rest both sessions have returned Ok with matching counts and every
   byte has been read.
   */
  lemma ClosedTunnelCompletes(c: Env, before: seq<Action>, acts: seq<Action>)
    requires c.Positive() && Legal(c, INITIAL, before) && ErrorFree(before)
    requires After(c, INITIAL, before).up.closed && After(c, INITIAL, before).down.closed
    requires Legal(c, After(c, INITIAL, before), acts) && ErrorFree(acts)
    ensures
      var s := After(c, INITIAL, before);
      var t := After(c, s, acts);
      && |acts| <= 5 * (|s.up.written| + |s.down.written|) + 10
      && (Quiet(c, t) ==>
            && t.up.received == t.up.written && t.down.received == t.down.written
            && t.bridge == Done(|t.up.written|, |t.down.written|)
            && t.satellite == Done(|t.down.written|, |t.up.written|))
      && (!(t.bridge.Done? && t.satellite.Done?) ==> exists a :: Internal(a) && Enabled(c, t, a))
  {
    var s := After(c, INITIAL, before);
    var t := After(c, s, acts);
    RunKeepsInv(c, INITIAL, before);
    ErrorFreeStaysHealthy(c, INITIAL, before);
    RunKeepsInv(c, s, acts);
    ErrorFreeStaysHealthy(c, s, acts);
    ClosedRunIsInternal(c, s, acts);
    DrivenRunIsBounded(c, s, acts);
    MeasureBound(s);
    if Quiet(c, t) {
      QuietMeansDone(c, t);
    }
  }

  lemma InternalStepKeepsOpen(c: Env, s: State, a: Action)
    requires Inv(s) && Healthy(s) && !s.down.closed && Enabled(c, s, a) && Internal(a)
    ensures Inv(Apply(c, s, a)) && Healthy(Apply(c, s, a)) && !Apply(c, s, a).down.closed
  {
    StepKeepsInv(c, s, a);
    InternalStepFrame(c, s, a);
  }

  lemma OpenMeansRunning(s: State)
    requires Inv(s) && Healthy(s) && !s.down.closed
    ensures s.satellite.Running? && s.bridge.Running? && !s.up.hungUp
  {
    assert SessionInv(s, Bridge) && SessionInv(s, Satellite);
  }

  lemma {:induction false} InternalKeepsOpen(c: Env, s: State, acts: seq<Action>)
    requires Inv(s) && Healthy(s) && !s.down.closed && Legal(c, s, acts) && AllInternal(acts)
    ensures After(c, s, acts).satellite.Running? && After(c, s, acts).bridge.Running? && !After(c, s, acts).up.hungUp
    decreases |acts|
  {
    OpenMeansRunning(s);
    if acts != [] {
      assert Internal(acts[0]);
      InternalStepKeepsOpen(c, s, acts[0]);
      InternalKeepsOpen(c, Apply(c, s, acts[0]), acts[1..]);
    }
  }

  /**
   A half-close is not forwarded. Once Docker has closed its side and buildkitd
   has not, no amount of tunnel steps gives buildkitd an end-of-stream or ends
   a session, and the tunnel can come to rest in that state with every byte
   delivered.
   */
  lemma HalfCloseStalls(c: Env, before: seq<Action>, acts: seq<Action>) returns (rest: seq<Action>)
    requires c.Positive() && Legal(c, INITIAL, before) && ErrorFree(before)
    requires After(c, INITIAL, before).up.closed && !After(c, INITIAL, before).down.closed
    requires Legal(c, After(c, INITIAL, before), acts) && AllInternal(acts)
    ensures
      var s := After(c, INITIAL, before);
      && After(c, s, acts).satellite.Running? && After(c, s, acts).bridge.Running?
      && !After(c, s, acts).up.hungUp
      && Legal(c, s, rest) && AllInternal(rest)
      && Quiet(c, After(c, s, rest)) && !After(c, s, rest).up.hungUp
      && After(c, s, rest).up.received == s.up.written
  {
    var s := After(c, INITIAL, before);
    RunKeepsInv(c, INITIAL, before);
    ErrorFreeStaysHealthy(c, INITIAL, before);
    InternalKeepsOpen(c, s, acts);
    rest := Drain(c, s);
    InternalKeepsOpen(c, s, rest);
    RestsExactlyWhenBothClosed(c, After(c, s, rest));
  }
}
