/** What every step of the tunnel keeps, and what a returned session means. */
module TunnelSafety {
  import opened Wrappers
  import opened Tunnel

  ghost predicate PipeInv(p: Pipe, lost: bool) {
    && (!lost && !p.near.status.Dropped? && !p.far.status.Dropped? ==> p.written == Carried(p))
    && (!p.far.status.Dropped? ==> p.received + p.inbox + p.far.buf + p.wire <= p.written)
    && Delivered(p) <= p.written
    && (p.near.eof ==> p.closed && p.unread == [])
    && (p.near.status.Copied? ==> p.near.eof && p.near.buf == [])
    && (!p.near.status.Dropped? ==> p.near.count + |p.near.buf| + |p.unread| == |p.written|)
    && (p.finished ==> p.near.status.Copied?)
    && (!lost && p.near.status.Copied? ==> p.finished)
    && (p.cut ==> p.near.status.Dropped?)
    && p.near.count <= |p.written|
    && (!lost && !p.far.status.Dropped? ==> |p.received| + |p.inbox| + |p.far.buf| + |p.wire| == p.near.count)
    && (p.far.eof ==>
          && (p.finished || p.cut) && p.wire == []
          && |p.received| + |p.inbox| + |p.far.buf| == p.near.count)
    && (p.far.status.Copied? ==> p.far.eof && p.far.buf == [])
    && (!p.far.status.Dropped? ==> p.far.count == |p.received| + |p.inbox|)
    && (p.near.status.Dropped? ==> p.near.buf == [] && !p.near.eof)
    && (p.far.status.Dropped? ==> p.far.buf == [] && !p.far.eof)
  }

  /** A session has returned exactly when its local application was given end-of-stream. */
  ghost predicate SessionInv(s: State, side: Side) {
    var near := s.PipeOf(Outgoing(side)).near;
    var back := s.PipeOf(Outgoing(side).Back());
    match s.SessionOf(side)
    case Running => !near.status.Dropped? && !back.far.status.Dropped? && !back.hungUp
    case Done(q, u) =>
      near.status.Copied? && back.far.status.Copied? && q == near.count && u == back.far.count && back.hungUp
    case Failed => !near.status.Copying? && !back.far.status.Copying? && back.hungUp
  }

  ghost predicate Inv(s: State) {
    && PipeInv(s.up, s.lost)
    && PipeInv(s.down, s.lost)
    && SessionInv(s, Bridge)
    && SessionInv(s, Satellite)
  }

  /** Moving `k` bytes from the front of `b` to the end of `a` moves no byte past another. */
  lemma Shift(pre: seq<Byte>, a: seq<Byte>, b: seq<Byte>, k: nat, post: seq<Byte>)
    requires k <= |b|
    ensures pre + (a + b[..k]) + b[k..] + post == pre + a + b + post
    ensures pre + (a + b[..k]) + b[k..] == pre + a + b
  {
    assert b == b[..k] + b[k..];
  }

  lemma NearReadKeepsPipe(c: Env, lost: bool, p: Pipe, k: nat)
    requires PipeInv(p, lost) && MoveEnabled(c, lost, p, NearRead(k))
    ensures PipeInv(ApplyMove(c, lost, p, NearRead(k)), lost)
  {
    Shift(p.received + p.inbox + p.far.buf + p.wire, p.near.buf, p.unread, k, []);
  }

  lemma NearWriteKeepsPipe(c: Env, lost: bool, p: Pipe, k: nat)
    requires PipeInv(p, lost) && MoveEnabled(c, lost, p, NearWrite(k))
    ensures PipeInv(ApplyMove(c, lost, p, NearWrite(k)), lost)
  {
    var q := ApplyMove(c, lost, p, NearWrite(k));
    Shift(p.received + p.inbox + p.far.buf, p.wire, p.near.buf, k, p.unread);
    if !p.far.status.Dropped? {
      assert q.written == Carried(q);
      assert Carried(q) == (q.received + q.inbox + q.far.buf + q.wire) + (q.near.buf + q.unread);
    }
  }

  lemma FarReadKeepsPipe(c: Env, lost: bool, p: Pipe, k: nat)
    requires PipeInv(p, lost) && MoveEnabled(c, lost, p, FarRead(k))
    ensures PipeInv(ApplyMove(c, lost, p, FarRead(k)), lost)
  {
    var q := ApplyMove(c, lost, p, FarRead(k));
    Shift(p.received + p.inbox, p.far.buf, p.wire, k, []);
    assert q.received + q.inbox + q.far.buf + q.wire == p.received + p.inbox + p.far.buf + p.wire;
  }

  lemma FarWriteKeepsPipe(c: Env, lost: bool, p: Pipe, k: nat)
    requires PipeInv(p, lost) && MoveEnabled(c, lost, p, FarWrite(k))
    ensures PipeInv(ApplyMove(c, lost, p, FarWrite(k)), lost)
  {
    var q := ApplyMove(c, lost, p, FarWrite(k));
    Shift(p.received, p.inbox, p.far.buf, k, []);
    assert q.received + q.inbox + q.far.buf == p.received + p.inbox + p.far.buf;
    assert q.received + q.inbox + q.far.buf + q.wire == p.received + p.inbox + p.far.buf + p.wire;
    var sent := p.received + p.inbox + p.far.buf;
    assert sent <= p.written by { assert sent + p.wire <= p.written; }
    assert Delivered(q) <= sent by { assert sent == Delivered(q) + q.far.buf; }
  }

  lemma ReadKeepsPipe(c: Env, lost: bool, p: Pipe, k: nat)
    requires PipeInv(p, lost) && MoveEnabled(c, lost, p, Read(k))
    ensures PipeInv(ApplyMove(c, lost, p, Read(k)), lost)
  {
    var q := ApplyMove(c, lost, p, Read(k));
    Shift([], p.received, p.inbox, k, []);
    assert Delivered(q) == Delivered(p);
  }

  lemma OtherMoveKeepsPipe(c: Env, lost: bool, p: Pipe, m: Move)
    requires PipeInv(p, lost) && MoveEnabled(c, lost, p, m)
    requires m.Write? || m.Close? || m.NearEof? || m.NearDone? || m.FarEof? || m.FarDone?
    ensures PipeInv(ApplyMove(c, lost, p, m), lost)
  {
  }

  lemma MoveKeepsPipe(c: Env, lost: bool, p: Pipe, m: Move)
    requires PipeInv(p, lost) && MoveEnabled(c, lost, p, m)
    ensures PipeInv(ApplyMove(c, lost, p, m), lost)
  {
    match m
    case NearRead(k) => NearReadKeepsPipe(c, lost, p, k);
    case NearWrite(k) => NearWriteKeepsPipe(c, lost, p, k);
    case FarRead(k) => FarReadKeepsPipe(c, lost, p, k);
    case FarWrite(k) => FarWriteKeepsPipe(c, lost, p, k);
    case Read(k) => ReadKeepsPipe(c, lost, p, k);
    case _ => OtherMoveKeepsPipe(c, lost, p, m);
  }

  /** From `p` to `q` no loop was dropped and no ended loop changed. */
  ghost predicate LoopsGoOn(p: Pipe, q: Pipe) {
    && (p.near.status.Copying? ==> !q.near.status.Dropped?)
    && (p.far.status.Copying? ==> !q.far.status.Dropped?)
    && (!p.near.status.Copying? ==> q.near == p.near)
    && (!p.far.status.Copying? ==> q.far == p.far)
    && q.hungUp == p.hungUp
  }

  lemma NearMoveKeepsLoops(c: Env, lost: bool, p: Pipe, m: Move)
    requires MoveEnabled(c, lost, p, m) && (m.NearRead? || m.NearEof? || m.NearWrite? || m.NearDone?)
    ensures LoopsGoOn(p, ApplyMove(c, lost, p, m))
  {
    assert p.near.status.Copying? && ApplyMove(c, lost, p, m).far == p.far;
  }

  lemma FarMoveKeepsLoops(c: Env, lost: bool, p: Pipe, m: Move)
    requires MoveEnabled(c, lost, p, m) && (m.FarRead? || m.FarEof? || m.FarWrite? || m.FarDone?)
    ensures LoopsGoOn(p, ApplyMove(c, lost, p, m))
  {
    assert p.far.status.Copying? && ApplyMove(c, lost, p, m).near == p.near;
  }

  lemma MoveKeepsLoops(c: Env, lost: bool, p: Pipe, m: Move)
    requires MoveEnabled(c, lost, p, m)
    ensures LoopsGoOn(p, ApplyMove(c, lost, p, m))
  {
    if m.NearRead? || m.NearEof? || m.NearWrite? || m.NearDone? {
      NearMoveKeepsLoops(c, lost, p, m);
    } else if m.FarRead? || m.FarEof? || m.FarWrite? || m.FarDone? {
      FarMoveKeepsLoops(c, lost, p, m);
    } else {
      assert ApplyMove(c, lost, p, m).near == p.near && ApplyMove(c, lost, p, m).far == p.far;
    }
  }

  lemma WithKeepsSessions(s: State, d: Dir, q: Pipe)
    requires SessionInv(s, Bridge) && SessionInv(s, Satellite) && LoopsGoOn(s.PipeOf(d), q)
    ensures SessionInv(s.With(d, q), Bridge) && SessionInv(s.With(d, q), Satellite)
  {
  }

  lemma DropKeepsPipe(c: Env, p: Pipe, lost: bool)
    requires PipeInv(p, lost)
    ensures PipeInv(DropNear(c, lost, p), lost)
    ensures PipeInv(DropFar(p), lost)
    ensures PipeInv(p.(wire := []), true)
    ensures PipeInv(p.(hungUp := true), lost)
  {
    var sent := p.received + p.inbox + p.far.buf;
    if !p.far.status.Dropped? {
      assert sent + [] == sent <= p.written by { assert sent + p.wire <= p.written; }
    }
  }

  lemma FailKeepsSessions(c: Env, s: State, side: Side)
    requires SessionInv(s, Bridge) && SessionInv(s, Satellite) && s.SessionOf(side).Running?
    ensures SessionInv(EndFailed(c, s, side), Bridge) && SessionInv(EndFailed(c, s, side), Satellite)
  {
  }

  lemma EndKeepsSessions(c: Env, s: State, a: Action)
    requires SessionInv(s, Bridge) && SessionInv(s, Satellite) && Enabled(c, s, a) && !a.Flow?
    ensures SessionInv(Apply(c, s, a), Bridge) && SessionInv(Apply(c, s, a), Satellite)
  {
    if a.Fail? || a.Refuse? {
      FailKeepsSessions(c, s, a.side);
    }
  }

  /** What the end of a session, a broken socket or a loss makes of one direction. */
  ghost predicate Ends(c: Env, p: Pipe, q: Pipe, lost: bool, nowLost: bool) {
    || (nowLost == lost && (q == p || q == p.(hungUp := true) || q == DropNear(c, lost, p) || q == DropFar(p)))
    || (nowLost && q == p.(wire := []))
  }

  lemma EndsEachPipe(c: Env, s: State, a: Action)
    requires Enabled(c, s, a) && !a.Flow?
    ensures Ends(c, s.up, Apply(c, s, a).up, s.lost, Apply(c, s, a).lost)
    ensures Ends(c, s.down, Apply(c, s, a).down, s.lost, Apply(c, s, a).lost)
  {
  }

  lemma EndKeepsPipe(c: Env, p: Pipe, q: Pipe, lost: bool, nowLost: bool)
    requires PipeInv(p, lost) && Ends(c, p, q, lost, nowLost)
    ensures PipeInv(q, nowLost)
  {
    DropKeepsPipe(c, p, lost);
  }

  lemma EndKeepsPipes(c: Env, s: State, a: Action)
    requires PipeInv(s.up, s.lost) && PipeInv(s.down, s.lost) && Enabled(c, s, a) && !a.Flow?
    ensures PipeInv(Apply(c, s, a).up, Apply(c, s, a).lost)
    ensures PipeInv(Apply(c, s, a).down, Apply(c, s, a).lost)
  {
    EndsEachPipe(c, s, a);
    EndKeepsPipe(c, s.up, Apply(c, s, a).up, s.lost, Apply(c, s, a).lost);
    EndKeepsPipe(c, s.down, Apply(c, s, a).down, s.lost, Apply(c, s, a).lost);
  }

  lemma FlowKeepsPipes(s: State, d: Dir, q: Pipe)
    requires PipeInv(s.up, s.lost) && PipeInv(s.down, s.lost) && PipeInv(q, s.lost)
    ensures PipeInv(s.With(d, q).up, s.lost) && PipeInv(s.With(d, q).down, s.lost)
  {
  }

  lemma FlowKeepsInv(c: Env, s: State, d: Dir, m: Move)
    requires Inv(s) && Enabled(c, s, Flow(d, m))
    ensures Inv(s.With(d, ApplyMove(c, s.lost, s.PipeOf(d), m)))
  {
    var q := ApplyMove(c, s.lost, s.PipeOf(d), m);
    MoveKeepsLoops(c, s.lost, s.PipeOf(d), m);
    MoveKeepsPipe(c, s.lost, s.PipeOf(d), m);
    WithKeepsSessions(s, d, q);
    FlowKeepsPipes(s, d, q);
  }

  lemma StepKeepsInv(c: Env, s: State, a: Action)
    requires Inv(s) && Enabled(c, s, a)
    ensures Inv(Apply(c, s, a))
  {
    if a.Flow? {
      FlowKeepsInv(c, s, a.dir, a.move);
    } else {
      EndKeepsSessions(c, s, a);
      EndKeepsPipes(c, s, a);
    }
  }

  lemma {:induction false} RunKeepsInv(c: Env, s: State, acts: seq<Action>)
    requires Inv(s) && Legal(c, s, acts)
    ensures Inv(After(c, s, acts))
    decreases |acts|
  {
    if acts != [] {
      StepKeepsInv(c, s, acts[0]);
      RunKeepsInv(c, Apply(c, s, acts[0]), acts[1..]);
    }
  }

  lemma HealthyCannotFail(c: Env, s: State, side: Side)
    requires Inv(s) && Healthy(s)
    ensures !Enabled(c, s, Fail(side))
  {
    assert SessionInv(s, Bridge) && SessionInv(s, Satellite);
  }

  lemma StepKeepsHealthy(c: Env, s: State, a: Action)
    requires Inv(s) && Healthy(s) && Enabled(c, s, a) && !Faulty(a)
    ensures Healthy(Apply(c, s, a)) && !a.Fail?
  {
    if a.Fail? {
      HealthyCannotFail(c, s, a.side);
    }
  }

  /** No session fails of itself: a run without a refusal, a broken socket or a loss has no failure at all. */
  lemma {:induction false} ErrorFreeStaysHealthy(c: Env, s: State, acts: seq<Action>)
    requires Inv(s) && Healthy(s) && Legal(c, s, acts) && ErrorFree(acts)
    ensures Healthy(After(c, s, acts))
    ensures forall i :: 0 <= i < |acts| ==> !acts[i].Fail?
    decreases |acts|
  {
    if acts != [] {
      assert !Faulty(acts[0]);
      StepKeepsInv(c, s, acts[0]);
      StepKeepsHealthy(c, s, acts[0]);
      ErrorFreeStaysHealthy(c, Apply(c, s, acts[0]), acts[1..]);
      assert forall i :: 1 <= i < |acts| ==> acts[i] == acts[1..][i - 1];
    }
  }

  /** Byte conservation across both machines, and what is left of it after errors. */
  lemma Conservation(c: Env, acts: seq<Action>, d: Dir)
    requires Legal(c, INITIAL, acts)
    ensures Delivered(After(c, INITIAL, acts).PipeOf(d)) <= After(c, INITIAL, acts).PipeOf(d).written
    ensures ErrorFree(acts) ==>
              After(c, INITIAL, acts).PipeOf(d).written == Carried(After(c, INITIAL, acts).PipeOf(d))
  {
    RunKeepsInv(c, INITIAL, acts);
    if ErrorFree(acts) {
      ErrorFreeStaysHealthy(c, INITIAL, acts);
    }
  }

  lemma MoveCutsNothing(c: Env, lost: bool, p: Pipe, m: Move)
    requires MoveEnabled(c, lost, p, m)
    ensures ApplyMove(c, lost, p, m).cut == p.cut
  {
  }

  lemma StepCutsNothing(c: Env, s: State, a: Action)
    requires !c.endOnDrop && !s.up.cut && !s.down.cut && Enabled(c, s, a)
    ensures !Apply(c, s, a).up.cut && !Apply(c, s, a).down.cut
  {
    if a.Flow? {
      MoveCutsNothing(c, s.lost, s.PipeOf(a.dir), a.move);
    }
  }

  /** Without an end on drop, no direction is ever cut. */
  lemma {:induction false} NothingIsCut(c: Env, s: State, acts: seq<Action>)
    requires !c.endOnDrop && !s.up.cut && !s.down.cut && Legal(c, s, acts)
    ensures !After(c, s, acts).up.cut && !After(c, s, acts).down.cut
    decreases |acts|
  {
    if acts != [] {
      StepCutsNothing(c, s, acts[0]);
      NothingIsCut(c, Apply(c, s, acts[0]), acts[1..]);
    }
  }

  /** What is delivered is all that was sent on the stream, and all that was written if the sender ended Ok. */
  lemma EndedPipe(p: Pipe, lost: bool)
    requires PipeInv(p, lost) && p.far.status.Copied?
    ensures p.near.count <= |p.written| && Delivered(p) == p.written[..p.near.count]
    ensures p.far.count == |Delivered(p)|
    ensures !p.cut ==> Delivered(p) == p.written && p.closed
  {
  }

  /**
   A session that returned Ok: its own application has closed, the counts are
   the lengths of what it wrote and of what it has been given, and it has been
   given exactly what the opposite session sent. Unless that session failed and
   the library shows an end for its dropped stream, this is everything the
   opposite application wrote, and that application has closed too. Errors
   elsewhere in the run change none of this.
   */
  lemma OkMeansComplete(c: Env, acts: seq<Action>, side: Side)
    requires Legal(c, INITIAL, acts)
    requires After(c, INITIAL, acts).SessionOf(side).Done?
    ensures
      var s := After(c, INITIAL, acts);
      var out := s.PipeOf(Outgoing(side));
      var back := s.PipeOf(Outgoing(side).Back());
      && out.closed && s.SessionOf(side) == Done(|out.written|, |Delivered(back)|)
      && back.near.count <= |back.written| && Delivered(back) == back.written[..back.near.count]
      && (!c.endOnDrop || !s.SessionOf(side.Opposite()).Failed? ==> Delivered(back) == back.written && back.closed)
  {
    RunKeepsInv(c, INITIAL, acts);
    var s := After(c, INITIAL, acts);
    EndedPipe(s.PipeOf(Outgoing(side).Back()), s.lost);
    if !c.endOnDrop {
      NothingIsCut(c, INITIAL, acts);
    }
    assert SessionInv(s, Bridge) && SessionInv(s, Satellite);
  }

  /** `to_satellite == to_unix` and `to_local == to_quic` when both sessions return Ok. */
  lemma CountsAgree(c: Env, acts: seq<Action>)
    requires Legal(c, INITIAL, acts)
    requires After(c, INITIAL, acts).bridge.Done? && After(c, INITIAL, acts).satellite.Done?
    ensures After(c, INITIAL, acts).bridge.toQuic == After(c, INITIAL, acts).satellite.toUnix
    ensures After(c, INITIAL, acts).bridge.toUnix == After(c, INITIAL, acts).satellite.toQuic
  {
    OkMeansComplete(c, acts, Bridge);
    OkMeansComplete(c, acts, Satellite);
  }

  /**
   End-of-stream reaches an application only when its own session returns, and
   an Ok return needs that application to have closed first: a half-close is
   never forwarded. The bridge also needs the satellite to have finished, or to
   have failed under a library that shows an end for a dropped stream.
   */
  lemma HangUpOnlyAfterReturn(c: Env, acts: seq<Action>, side: Side)
    requires Legal(c, INITIAL, acts)
    ensures
      var s := After(c, INITIAL, acts);
      var back := s.PipeOf(Outgoing(side).Back());
      && (back.hungUp <==> !s.SessionOf(side).Running?)
      && (s.SessionOf(side).Done? ==>
            && s.PipeOf(Outgoing(side)).closed
            && (back.finished || (c.endOnDrop && s.SessionOf(side.Opposite()).Failed?)))
  {
    RunKeepsInv(c, INITIAL, acts);
    if !c.endOnDrop {
      NothingIsCut(c, INITIAL, acts);
    }
    assert SessionInv(After(c, INITIAL, acts), Bridge) && SessionInv(After(c, INITIAL, acts), Satellite);
  }

  // ----- bounded stages -----

  ghost predicate PipeFits(c: Env, p: Pipe) {
    && |p.unread| <= c.socket && |p.near.buf| <= c.buffer && |p.wire| <= c.wire
    && |p.far.buf| <= c.buffer && |p.inbox| <= c.socket
  }

  lemma NearMoveKeepsFit(c: Env, lost: bool, p: Pipe, m: Move)
    requires PipeFits(c, p) && MoveEnabled(c, lost, p, m)
    requires m.Write? || m.Close? || m.NearRead? || m.NearEof? || m.NearWrite? || m.NearDone?
    ensures PipeFits(c, ApplyMove(c, lost, p, m))
  {
  }

  lemma FarMoveKeepsFit(c: Env, lost: bool, p: Pipe, m: Move)
    requires PipeFits(c, p) && MoveEnabled(c, lost, p, m)
    requires m.FarRead? || m.FarEof? || m.FarWrite? || m.FarDone? || m.Read?
    ensures PipeFits(c, ApplyMove(c, lost, p, m))
  {
  }

  lemma MoveKeepsFit(c: Env, lost: bool, p: Pipe, m: Move)
    requires PipeFits(c, p) && MoveEnabled(c, lost, p, m)
    ensures PipeFits(c, ApplyMove(c, lost, p, m))
  {
    if m.FarRead? || m.FarEof? || m.FarWrite? || m.FarDone? || m.Read? {
      FarMoveKeepsFit(c, lost, p, m);
    } else {
      NearMoveKeepsFit(c, lost, p, m);
    }
  }

  lemma EndKeepsPipeFit(c: Env, p: Pipe, q: Pipe, lost: bool, nowLost: bool)
    requires PipeFits(c, p) && Ends(c, p, q, lost, nowLost)
    ensures PipeFits(c, q)
  {
  }

  lemma EndKeepsFit(c: Env, s: State, a: Action)
    requires PipeFits(c, s.up) && PipeFits(c, s.down) && Enabled(c, s, a) && !a.Flow?
    ensures PipeFits(c, Apply(c, s, a).up) && PipeFits(c, Apply(c, s, a).down)
  {
    EndsEachPipe(c, s, a);
    EndKeepsPipeFit(c, s.up, Apply(c, s, a).up, s.lost, Apply(c, s, a).lost);
    EndKeepsPipeFit(c, s.down, Apply(c, s, a).down, s.lost, Apply(c, s, a).lost);
  }

  /** No run ever holds more bytes in a stage than the stage has room for. */
  lemma {:induction false} NothingOverflows(c: Env, s: State, acts: seq<Action>)
    requires PipeFits(c, s.up) && PipeFits(c, s.down) && Legal(c, s, acts)
    ensures PipeFits(c, After(c, s, acts).up) && PipeFits(c, After(c, s, acts).down)
    decreases |acts|
  {
    if acts != [] {
      if acts[0].Flow? {
        MoveKeepsFit(c, s.lost, s.PipeOf(acts[0].dir), acts[0].move);
      } else {
        EndKeepsFit(c, s, acts[0]);
      }
      NothingOverflows(c, Apply(c, s, acts[0]), acts[1..]);
    }
  }
}
