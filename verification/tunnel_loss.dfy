/** What becomes of a session after the connection is lost: who notices, and when. */
module TunnelLoss {
  import opened Wrappers
  import opened Tunnel
  import opened TunnelSafety
  import opened TunnelProgress
  import opened TunnelDelivery

  ghost predicate AtRest(c: Env, s: State) { forall a :: Driven(a) ==> !Enabled(c, s, a) }

  /** The near loop of `side` waits for an application that has not closed and of which everything was sent. */
  ghost predicate AwaitsApp(s: State, side: Side) {
    var out := s.PipeOf(Outgoing(side));
    out.near.status.Copying? && !out.closed && out.near.count == |out.written| && side !in s.broken
  }

  /** The far loop of `side` waits, on a live connection, for a near loop that waits for its application. */
  ghost predicate AwaitsPeer(s: State, side: Side) {
    !s.lost && s.PipeOf(Outgoing(side).Back()).far.status.Copying? && AwaitsApp(s, side.Opposite())
  }

  ghost predicate FarEnded(s: State, side: Side) { s.PipeOf(Outgoing(side).Back()).far.status.Copied? }

  /** Neither loop of the session can move, and at least one of them waits. */
  ghost predicate Idles(s: State, side: Side) {
    || (AwaitsApp(s, side) && (FarEnded(s, side) || AwaitsPeer(s, side)))
    || (s.PipeOf(Outgoing(side)).near.status.Copied? && AwaitsPeer(s, side))
  }

  lemma PipeMoves(c: Env, s: State, d: Dir) returns (a: Action)
    requires c.Positive() && !s.lost && PipeInv(s.PipeOf(d), false)
    requires s.PipeOf(d).near.status.Copying? && s.PipeOf(d).near.buf != [] && s.PipeOf(d).far.status.Copying?
    ensures Driven(a) && Enabled(c, s, a)
  {
    var p := s.PipeOf(d);
    a := Flow(d, if |p.wire| < c.wire then NearWrite(1)
                 else if |p.far.buf| < c.buffer then FarRead(1)
                 else if |p.inbox| < c.socket then FarWrite(1)
                 else Read(1));
  }

  lemma NearLoopMoves(c: Env, s: State, side: Side) returns (a: Action)
    requires c.Positive() && Inv(s) && s.SessionOf(side).Running?
    requires s.PipeOf(Outgoing(side)).near.status.Copying? && !AwaitsApp(s, side)
    ensures Driven(a) && Enabled(c, s, a)
  {
    var d := Outgoing(side);
    var p := s.PipeOf(d);
    if p.near.buf == [] {
      a := if p.near.eof then Flow(d, NearDone)
           else if side in s.broken then Fail(side)
           else if p.unread != [] then Flow(d, NearRead(1))
           else Flow(d, NearEof);
    } else if s.lost || p.far.status.Dropped? {
      a := Fail(side);
    } else {
      a := PipeMoves(c, s, d);
    }
  }

  lemma FarLoopMoves(c: Env, s: State, side: Side) returns (a: Action)
    requires c.Positive() && Inv(s) && s.SessionOf(side).Running?
    requires s.PipeOf(Outgoing(side).Back()).far.status.Copying? && !AwaitsPeer(s, side)
    ensures Driven(a) && Enabled(c, s, a)
  {
    var d := Outgoing(side).Back();
    var p := s.PipeOf(d);
    if p.far.buf != [] {
      a := Flow(d, if |p.inbox| < c.socket then FarWrite(1) else Read(1));
    } else if p.far.eof {
      a := Flow(d, FarDone);
    } else if s.lost || (p.near.status.Dropped? && !p.cut) {
      a := Fail(side);
    } else if p.wire != [] {
      a := Flow(d, FarRead(1));
    } else if p.finished || p.cut {
      a := Flow(d, FarEof);
    } else {
      assert SessionInv(s, side.Opposite());
      a := NearLoopMoves(c, s, side.Opposite());
    }
  }

  lemma OpenSessionMoves(c: Env, s: State, side: Side) returns (a: Action)
    requires c.Positive() && Inv(s) && s.SessionOf(side).Running? && !Idles(s, side)
    ensures Driven(a) && Enabled(c, s, a)
  {
    assert SessionInv(s, side);
    if s.PipeOf(Outgoing(side).Back()).far.status.Copying? && !AwaitsPeer(s, side) {
      a := FarLoopMoves(c, s, side);
    } else if s.PipeOf(Outgoing(side)).near.status.Copying? && !AwaitsApp(s, side) {
      a := NearLoopMoves(c, s, side);
    } else {
      a := Return(side);
    }
  }

  lemma OpenAtRestIffIdles(c: Env, s: State, side: Side)
    requires c.Positive() && Inv(s) && AtRest(c, s)
    ensures s.SessionOf(side).Running? <==> Idles(s, side)
  {
    assert SessionInv(s, side);
    if s.SessionOf(side).Running? && !Idles(s, side) {
      var a := OpenSessionMoves(c, s, side);
    }
  }

  /**
   What a tunnel at rest still holds open, whatever went wrong before. A session
   is open exactly if at least one of its loops waits and the other one waits
   too or has ended: the near loop for its own application, the far loop on a
   live connection for an opposite near loop that waits for its application.
   */
  lemma RestingSessionIsOpenIff(c: Env, acts: seq<Action>, side: Side)
    requires c.Positive() && Legal(c, INITIAL, acts) && AtRest(c, After(c, INITIAL, acts))
    ensures After(c, INITIAL, acts).SessionOf(side).Running? <==> Idles(After(c, INITIAL, acts), side)
  {
    RunKeepsInv(c, INITIAL, acts);
    OpenAtRestIffIdles(c, After(c, INITIAL, acts), side);
  }

  /** The far loop has ended, and the near loop waits for an application of which everything was sent. */
  ghost predicate Waits(s: State, side: Side) { FarEnded(s, side) && AwaitsApp(s, side) }

  /**
   After the connection is lost or the opposite session has failed, a tunnel at
   rest holds a session open exactly if its far loop has ended, its application
   has not closed, and everything that application wrote was sent: then only a
   read is pending, and it sees nothing of it.
   */
  lemma OrphanStaysOpenIff(c: Env, acts: seq<Action>, side: Side)
    requires c.Positive() && Legal(c, INITIAL, acts) && AtRest(c, After(c, INITIAL, acts))
    requires After(c, INITIAL, acts).lost || After(c, INITIAL, acts).SessionOf(side.Opposite()).Failed?
    ensures After(c, INITIAL, acts).SessionOf(side).Running? <==> Waits(After(c, INITIAL, acts), side)
  {
    RestingSessionIsOpenIff(c, acts, side);
    RunKeepsInv(c, INITIAL, acts);
    assert SessionInv(After(c, INITIAL, acts), side.Opposite());
  }

  /** At rest a session whose socket is broken is open only while it waits for the opposite application. */
  lemma BrokenStaysOpenIff(c: Env, acts: seq<Action>, side: Side)
    requires c.Positive() && Legal(c, INITIAL, acts) && AtRest(c, After(c, INITIAL, acts))
    requires side in After(c, INITIAL, acts).broken
    ensures After(c, INITIAL, acts).SessionOf(side).Running? <==>
              && After(c, INITIAL, acts).PipeOf(Outgoing(side)).near.status.Copied?
              && AwaitsPeer(After(c, INITIAL, acts), side)
  {
    RestingSessionIsOpenIff(c, acts, side);
  }

  /**
   A refused session, because buildkitd is not running or the connection cannot
   be made: its application gets nothing, and at rest the opposite session has
   failed, unless the library shows an end for the dropped stream; then it has
   at best returned Ok with nothing received, or waits for its own application.
   */
  lemma RefusedSession(c: Env, before: seq<Action>, acts: seq<Action>, side: Side)
    requires c.Positive() && Legal(c, INITIAL, before) && Enabled(c, After(c, INITIAL, before), Refuse(side))
    ensures
      var s := Apply(c, After(c, INITIAL, before), Refuse(side));
      Legal(c, s, acts) && AtRest(c, After(c, s, acts)) ==>
        Refused(c, After(c, s, acts), side) && LeftAlone(c, After(c, s, acts), side.Opposite())
  {
    var s := After(c, INITIAL, before);
    RunKeepsInv(c, INITIAL, before);
    DeliversWhatWasSent(c, INITIAL, before);
    if !c.endOnDrop {
      NothingIsCut(c, INITIAL, before);
    }
    RefusalRefuses(c, s, side);
    StepKeepsInv(c, s, Refuse(side));
    RefusedAtRest(c, Apply(c, s, Refuse(side)), acts, side);
  }

  /** Buildkitd may not be running, and the connection may not come about. */
  lemma EitherSideCanBeRefused(c: Env, side: Side)
    ensures Enabled(c, INITIAL, Refuse(side))
  {
  }

  lemma RefusedAtRest(c: Env, s: State, acts: seq<Action>, side: Side)
    requires c.Positive() && Inv(s) && Refused(c, s, side)
    ensures Legal(c, s, acts) && AtRest(c, After(c, s, acts)) ==>
              Refused(c, After(c, s, acts), side) && LeftAlone(c, After(c, s, acts), side.Opposite())
  {
    if Legal(c, s, acts) && AtRest(c, After(c, s, acts)) {
      RefusedStaysRefused(c, s, acts, side);
      RunKeepsInv(c, s, acts);
      OpenAtRestIffIdles(c, After(c, s, acts), side.Opposite());
      RefusedLeavesAlone(c, After(c, s, acts), side);
    }
  }

  /** No byte is further than it was sent. */
  ghost predicate SentFirst(p: Pipe) {
    |p.received| + |p.inbox| + |p.far.buf| + |p.wire| <= p.near.count
  }

  lemma NearMoveKeepsSentFirst(c: Env, lost: bool, p: Pipe, m: Move)
    requires MoveEnabled(c, lost, p, m) && SentFirst(p)
    requires m.Write? || m.Close? || m.NearRead? || m.NearEof? || m.NearWrite? || m.NearDone?
    ensures SentFirst(ApplyMove(c, lost, p, m))
  {
  }

  lemma FarMoveKeepsSentFirst(c: Env, lost: bool, p: Pipe, m: Move)
    requires MoveEnabled(c, lost, p, m) && SentFirst(p)
    requires m.FarRead? || m.FarEof? || m.FarWrite? || m.FarDone? || m.Read?
    ensures SentFirst(ApplyMove(c, lost, p, m))
  {
  }

  lemma MoveKeepsSentFirst(c: Env, lost: bool, p: Pipe, m: Move)
    requires MoveEnabled(c, lost, p, m) && SentFirst(p)
    ensures SentFirst(ApplyMove(c, lost, p, m))
  {
    if m.FarRead? || m.FarEof? || m.FarWrite? || m.FarDone? || m.Read? {
      FarMoveKeepsSentFirst(c, lost, p, m);
    } else {
      NearMoveKeepsSentFirst(c, lost, p, m);
    }
  }

  lemma EndKeepsSentFirst(c: Env, p: Pipe, q: Pipe, lost: bool, nowLost: bool)
    requires Ends(c, p, q, lost, nowLost) && SentFirst(p)
    ensures SentFirst(q)
  {
  }

  lemma {:induction false} DeliversWhatWasSent(c: Env, s: State, acts: seq<Action>)
    requires SentFirst(s.up) && SentFirst(s.down) && Legal(c, s, acts)
    ensures SentFirst(After(c, s, acts).up) && SentFirst(After(c, s, acts).down)
    decreases |acts|
  {
    if acts != [] {
      var t := Apply(c, s, acts[0]);
      if acts[0].Flow? {
        MoveKeepsSentFirst(c, s.lost, s.PipeOf(acts[0].dir), acts[0].move);
      } else {
        EndsEachPipe(c, s, acts[0]);
        EndKeepsSentFirst(c, s.up, t.up, s.lost, t.lost);
        EndKeepsSentFirst(c, s.down, t.down, s.lost, t.lost);
      }
      DeliversWhatWasSent(c, t, acts[1..]);
    }
  }

  lemma RefusalRefuses(c: Env, s: State, side: Side)
    requires Inv(s) && SentFirst(s.up) && SentFirst(s.down) && Enabled(c, s, Refuse(side))
    requires !c.endOnDrop ==> !s.up.cut && !s.down.cut
    ensures Refused(c, Apply(c, s, Refuse(side)), side)
  {
    assert SentFirst(s.PipeOf(Outgoing(side)));
    assert PipeInv(s.PipeOf(Outgoing(side)), s.lost) && PipeInv(s.PipeOf(Outgoing(side).Back()), s.lost);
  }

  /** What the session opposite to a refused one can have come to. */
  ghost predicate LeftAlone(c: Env, s: State, side: Side) {
    && Delivered(s.PipeOf(Outgoing(side))) == [] && Delivered(s.PipeOf(Outgoing(side).Back())) == []
    && (!c.endOnDrop ==> s.SessionOf(side).Failed?)
    && (s.SessionOf(side).Running? ==> Waits(s, side))
    && (s.SessionOf(side).Done? ==> s.SessionOf(side).toUnix == 0)
  }

  lemma RefusedLeavesAlone(c: Env, s: State, side: Side)
    requires Inv(s) && Refused(c, s, side)
    requires s.SessionOf(side.Opposite()).Running? <==> Idles(s, side.Opposite())
    ensures LeftAlone(c, s, side.Opposite())
  {
    var other := side.Opposite();
    assert SessionInv(s, other);
    assert PipeInv(s.PipeOf(Outgoing(other).Back()), s.lost);
  }

  /** The session has failed with nothing sent and nothing delivered. */
  ghost predicate Refused(c: Env, s: State, side: Side) {
    s.SessionOf(side).Failed? && Silent(c, s.PipeOf(Outgoing(side))) && Deaf(s.PipeOf(Outgoing(side).Back()))
  }

  /** Nothing was sent, and nothing will be. */
  ghost predicate Silent(c: Env, p: Pipe) {
    && p.near == Copier(Dropped, [], false, 0) && p.wire == [] && p.far.buf == [] && p.received == [] && p.inbox == []
    && !p.finished && (!c.endOnDrop ==> !p.cut)
  }

  /** Nothing was delivered, and nothing will be. */
  ghost predicate Deaf(p: Pipe) { p.far == Copier(Dropped, [], false, 0) && p.received == [] && p.inbox == [] }

  lemma MoveKeepsSilent(c: Env, lost: bool, p: Pipe, m: Move)
    requires MoveEnabled(c, lost, p, m) && Silent(c, p)
    ensures Silent(c, ApplyMove(c, lost, p, m))
  {
  }

  lemma MoveKeepsDeaf(c: Env, lost: bool, p: Pipe, m: Move)
    requires MoveEnabled(c, lost, p, m) && Deaf(p)
    ensures Deaf(ApplyMove(c, lost, p, m))
  {
  }

  lemma EndKeepsSilent(c: Env, p: Pipe, q: Pipe, lost: bool, nowLost: bool)
    requires Ends(c, p, q, lost, nowLost)
    ensures Silent(c, p) ==> Silent(c, q)
    ensures Deaf(p) ==> Deaf(q)
  {
  }

  lemma FailedStaysFailed(c: Env, s: State, a: Action, side: Side)
    requires s.SessionOf(side).Failed? && Enabled(c, s, a)
    ensures Apply(c, s, a).SessionOf(side).Failed?
  {
  }

  lemma EndKeepsRefused(c: Env, s: State, a: Action, side: Side)
    requires Refused(c, s, side) && Enabled(c, s, a) && !a.Flow?
    ensures Refused(c, Apply(c, s, a), side)
  {
    EndsEachPipe(c, s, a);
    FailedStaysFailed(c, s, a, side);
    EndKeepsSilent(c, s.up, Apply(c, s, a).up, s.lost, Apply(c, s, a).lost);
    EndKeepsSilent(c, s.down, Apply(c, s, a).down, s.lost, Apply(c, s, a).lost);
  }

  lemma StepKeepsRefused(c: Env, s: State, a: Action, side: Side)
    requires Refused(c, s, side) && Enabled(c, s, a)
    ensures Refused(c, Apply(c, s, a), side)
  {
    if !a.Flow? {
      EndKeepsRefused(c, s, a, side);
    } else if a.dir == Outgoing(side) {
      MoveKeepsSilent(c, s.lost, s.PipeOf(a.dir), a.move);
    } else {
      MoveKeepsDeaf(c, s.lost, s.PipeOf(a.dir), a.move);
    }
  }

  lemma {:induction false} RefusedStaysRefused(c: Env, s: State, acts: seq<Action>, side: Side)
    requires Refused(c, s, side) && Legal(c, s, acts)
    ensures Refused(c, After(c, s, acts), side)
    decreases |acts|
  {
    if acts != [] {
      StepKeepsRefused(c, s, acts[0], side);
      RefusedStaysRefused(c, Apply(c, s, acts[0]), acts[1..], side);
    }
  }

  // ----- what can no longer fail -----

  /** The near loop has read the end and sent everything. */
  ghost predicate NearIsThrough(s: State, side: Side) {
    var near := s.PipeOf(Outgoing(side)).near;
    !near.status.Dropped? && near.eof && near.buf == []
  }

  /** The far loop has read the end and written everything. */
  ghost predicate FarIsThrough(s: State, side: Side) {
    var far := s.PipeOf(Outgoing(side).Back()).far;
    !far.status.Dropped? && far.eof && far.buf == []
  }

  /** Or nothing is in the way of that. */
  ghost predicate FarWillEnd(s: State, side: Side) {
    var p := s.PipeOf(Outgoing(side).Back());
    !p.far.status.Dropped? && !s.lost && side !in s.broken && (p.finished || p.cut)
  }

  ghost predicate Safe(s: State, side: Side) {
    && Inv(s) && !s.SessionOf(side).Failed?
    && NearIsThrough(s, side) && (FarIsThrough(s, side) || FarWillEnd(s, side))
  }

  /** A loss, or a break of the own socket. */
  predicate Hurts(a: Action, side: Side) { a.Lose? || a == Break(side) }

  lemma SafeCannotFail(c: Env, s: State, side: Side)
    requires Safe(s, side)
    ensures !Enabled(c, s, Fail(side)) && !Enabled(c, s, Refuse(side))
  {
    assert PipeInv(s.PipeOf(Outgoing(side).Back()), s.lost);
  }

  lemma MoveKeepsThrough(c: Env, lost: bool, p: Pipe, m: Move)
    requires MoveEnabled(c, lost, p, m) && PipeInv(p, lost)
    ensures
      var q := ApplyMove(c, lost, p, m);
      && (!p.near.status.Dropped? && p.near.eof && p.near.buf == [] ==>
            !q.near.status.Dropped? && q.near.eof && q.near.buf == [])
      && (!p.far.status.Dropped? && p.far.eof && p.far.buf == [] ==>
            !q.far.status.Dropped? && q.far.eof && q.far.buf == [])
      && (!p.far.status.Dropped? ==> !q.far.status.Dropped?)
      && (p.cut || p.finished ==> q.cut || q.finished)
  {
  }

  lemma FlowKeepsThrough(s: State, d: Dir, q: Pipe, side: Side)
    requires
      var p := s.PipeOf(d);
      && (!p.near.status.Dropped? && p.near.eof && p.near.buf == [] ==>
            !q.near.status.Dropped? && q.near.eof && q.near.buf == [])
      && (!p.far.status.Dropped? && p.far.eof && p.far.buf == [] ==>
            !q.far.status.Dropped? && q.far.eof && q.far.buf == [])
      && (!p.far.status.Dropped? ==> !q.far.status.Dropped?)
      && (p.cut || p.finished ==> q.cut || q.finished)
    ensures NearIsThrough(s, side) ==> NearIsThrough(s.With(d, q), side)
    ensures FarIsThrough(s, side) ==> FarIsThrough(s.With(d, q), side)
    ensures FarWillEnd(s, side) ==> FarWillEnd(s.With(d, q), side)
    ensures s.With(d, q).SessionOf(side) == s.SessionOf(side)
  {
  }

  lemma FlowKeepsSafe(c: Env, s: State, a: Action, side: Side)
    requires Safe(s, side) && Enabled(c, s, a) && a.Flow?
    ensures Safe(Apply(c, s, a), side)
    ensures FarIsThrough(s, side) ==> FarIsThrough(Apply(c, s, a), side)
  {
    StepKeepsInv(c, s, a);
    MoveKeepsThrough(c, s.lost, s.PipeOf(a.dir), a.move);
    FlowKeepsThrough(s, a.dir, ApplyMove(c, s.lost, s.PipeOf(a.dir), a.move), side);
  }

  lemma EndKeepsThrough(c: Env, s: State, a: Action, side: Side)
    requires Enabled(c, s, a) && !a.Flow? && a != Fail(side) && a != Refuse(side)
    ensures NearIsThrough(s, side) ==> NearIsThrough(Apply(c, s, a), side)
    ensures FarIsThrough(s, side) ==> FarIsThrough(Apply(c, s, a), side)
    ensures !Hurts(a, side) && FarWillEnd(s, side) ==> FarWillEnd(Apply(c, s, a), side)
    ensures !s.SessionOf(side).Failed? ==> !Apply(c, s, a).SessionOf(side).Failed?
  {
  }

  lemma StepKeepsSafe(c: Env, s: State, a: Action, side: Side)
    requires Safe(s, side) && Enabled(c, s, a) && (FarIsThrough(s, side) || !Hurts(a, side))
    ensures Safe(Apply(c, s, a), side)
    ensures FarIsThrough(s, side) ==> FarIsThrough(Apply(c, s, a), side)
  {
    if a.Flow? {
      FlowKeepsSafe(c, s, a, side);
    } else {
      SafeCannotFail(c, s, side);
      StepKeepsInv(c, s, a);
      EndKeepsThrough(c, s, a, side);
    }
  }

  lemma {:induction false} SafeStaysSafe(c: Env, s: State, acts: seq<Action>, side: Side)
    requires Safe(s, side) && Legal(c, s, acts)
    requires FarIsThrough(s, side) || forall i :: 0 <= i < |acts| ==> !Hurts(acts[i], side)
    ensures Safe(After(c, s, acts), side)
    decreases |acts|
  {
    if acts != [] {
      assert FarIsThrough(s, side) || !Hurts(acts[0], side);
      StepKeepsSafe(c, s, acts[0], side);
      SafeStaysSafe(c, Apply(c, s, acts[0]), acts[1..], side);
    }
  }

  /**
   When a session is out of danger. Once its near loop has read the end and sent
   everything, and its far loop has read the end and written everything, no
   error whatever makes it fail. While the far loop is still to read an end that
   is there, be it of a finished or of a dropped stream, only a loss or a break
   of its own socket can. At rest it has returned Ok.
   */
  lemma SafeSessionReturnsOk(c: Env, before: seq<Action>, acts: seq<Action>, side: Side)
    requires c.Positive() && Legal(c, INITIAL, before) && Legal(c, After(c, INITIAL, before), acts)
    requires !After(c, INITIAL, before).SessionOf(side).Failed? && NearIsThrough(After(c, INITIAL, before), side)
    requires
      || FarIsThrough(After(c, INITIAL, before), side)
      || (FarWillEnd(After(c, INITIAL, before), side) && forall i :: 0 <= i < |acts| ==> !Hurts(acts[i], side))
    ensures
      var t := After(c, After(c, INITIAL, before), acts);
      !t.SessionOf(side).Failed? && (AtRest(c, t) ==> t.SessionOf(side).Done?)
  {
    var s := After(c, INITIAL, before);
    RunKeepsInv(c, INITIAL, before);
    SafeStaysSafe(c, s, acts, side);
    var t := After(c, s, acts);
    if AtRest(c, t) {
      OpenAtRestIffIdles(c, t, side);
      SafeDoesNotIdle(t, side);
    }
  }

  lemma SafeDoesNotIdle(s: State, side: Side)
    requires Safe(s, side)
    ensures !Idles(s, side)
  {
    assert PipeInv(s.PipeOf(Outgoing(side)), s.lost);
    assert PipeInv(s.PipeOf(Outgoing(side).Back()), s.lost);
  }

  // ----- how long it stays open -----

  /** Steps by which the session's own application makes itself felt. */
  predicate Wakes(a: Action, side: Side) {
    a == Break(side) || (a.Flow? && a.dir == Outgoing(side) && (a.move.Write? || a.move.Close?))
  }

  ghost predicate Unaware(s: State, side: Side) { Inv(s) && Waits(s, side) }

  /** A waiting loop has nothing it could move. */
  lemma MoveKeepsWaiting(c: Env, lost: bool, p: Pipe, m: Move)
    requires PipeInv(p, lost) && MoveEnabled(c, lost, p, m) && !m.Write? && !m.Close?
    requires p.near.status.Copying? && !p.closed && p.near.count == |p.written|
    ensures
      var q := ApplyMove(c, lost, p, m);
      q.near == p.near && q.closed == p.closed && q.written == p.written
  {
  }

  lemma WithKeepsWaiting(s: State, d: Dir, q: Pipe, side: Side)
    requires Waits(s, side) && LoopsGoOn(s.PipeOf(d), q)
    requires
      var p := s.PipeOf(d);
      d == Outgoing(side) ==> q.near == p.near && q.closed == p.closed && q.written == p.written
    ensures Waits(s.With(d, q), side)
  {
  }

  lemma FlowKeepsUnaware(c: Env, s: State, a: Action, side: Side)
    requires Unaware(s, side) && Enabled(c, s, a) && a.Flow? && !Wakes(a, side)
    ensures Unaware(Apply(c, s, a), side)
  {
    StepKeepsInv(c, s, a);
    MoveKeepsLoops(c, s.lost, s.PipeOf(a.dir), a.move);
    if a.dir == Outgoing(side) {
      MoveKeepsWaiting(c, s.lost, s.PipeOf(a.dir), a.move);
    }
    WithKeepsWaiting(s, a.dir, ApplyMove(c, s.lost, s.PipeOf(a.dir), a.move), side);
  }

  lemma WaitingCannotEnd(c: Env, s: State, side: Side)
    requires Unaware(s, side)
    ensures !Enabled(c, s, Return(side)) && !Enabled(c, s, Fail(side)) && !Enabled(c, s, Refuse(side))
  {
    assert SessionInv(s, side);
    assert PipeInv(s.PipeOf(Outgoing(side)), s.lost);
  }

  lemma EndKeepsWaiting(c: Env, s: State, a: Action, side: Side)
    requires Waits(s, side) && Enabled(c, s, a) && !a.Flow? && !Wakes(a, side)
    requires a != Return(side) && a != Fail(side) && a != Refuse(side)
    ensures Waits(Apply(c, s, a), side)
  {
  }

  lemma EndKeepsUnaware(c: Env, s: State, a: Action, side: Side)
    requires Unaware(s, side) && Enabled(c, s, a) && !a.Flow? && !Wakes(a, side)
    ensures Unaware(Apply(c, s, a), side)
  {
    WaitingCannotEnd(c, s, side);
    EndKeepsWaiting(c, s, a, side);
    StepKeepsInv(c, s, a);
  }

  /** For as long as its application does nothing, such a session stays open, whatever else happens or fails. */
  lemma {:induction false} UnawareStaysOpen(c: Env, s: State, acts: seq<Action>, side: Side)
    requires Unaware(s, side) && Legal(c, s, acts) && forall i :: 0 <= i < |acts| ==> !Wakes(acts[i], side)
    ensures Unaware(After(c, s, acts), side) && After(c, s, acts).SessionOf(side).Running?
    decreases |acts|
  {
    assert SessionInv(s, side);
    if acts != [] {
      assert !Wakes(acts[0], side);
      if acts[0].Flow? {
        FlowKeepsUnaware(c, s, acts[0], side);
      } else {
        EndKeepsUnaware(c, s, acts[0], side);
      }
      UnawareStaysOpen(c, Apply(c, s, acts[0]), acts[1..], side);
    }
  }

  // ----- how it ends -----

  /** Nothing is left to fail: the application has closed and all it wrote was sent. */
  ghost predicate Closing(s: State, side: Side) {
    var out := s.PipeOf(Outgoing(side));
    && Inv(s) && s.lost && side !in s.broken && !s.SessionOf(side).Failed?
    && s.PipeOf(Outgoing(side).Back()).far.status.Copied?
    && out.closed && out.near.count == |out.written|
  }

  /** Something is left that can never be sent. */
  ghost predicate Doomed(s: State, side: Side) {
    var out := s.PipeOf(Outgoing(side));
    Inv(s) && s.lost && !s.SessionOf(side).Done? && out.near.count < |out.written|
  }

  lemma DrivenMoveSendsNothing(c: Env, p: Pipe, m: Move)
    requires MoveEnabled(c, true, p, m) && !m.Write? && !m.Close?
    ensures
      var q := ApplyMove(c, true, p, m);
      q.near.count == p.near.count && q.closed == p.closed && q.written == p.written
  {
  }

  lemma DrivenEndSendsNothing(c: Env, s: State, a: Action, d: Dir)
    requires Enabled(c, s, a) && (a.Return? || a.Fail?)
    ensures
      var p, q := s.PipeOf(d), Apply(c, s, a).PipeOf(d);
      && q.near.count == p.near.count && q.closed == p.closed && q.written == p.written
      && (p.far.status.Copied? ==> q.far.status.Copied?)
  {
  }

  lemma DrivenStepSendsNothing(c: Env, s: State, a: Action, d: Dir)
    requires Enabled(c, s, a) && Driven(a) && s.lost
    ensures
      var p, q := s.PipeOf(d), Apply(c, s, a).PipeOf(d);
      && q.near.count == p.near.count && q.closed == p.closed && q.written == p.written
      && (p.far.status.Copied? ==> q.far.status.Copied?)
  {
    if !a.Flow? {
      DrivenEndSendsNothing(c, s, a, d);
    } else if a.dir == d {
      DrivenMoveSendsNothing(c, s.PipeOf(d), a.move);
      MoveKeepsLoops(c, s.lost, s.PipeOf(d), a.move);
    }
  }

  lemma ClosingCannotFail(c: Env, s: State, side: Side)
    requires Closing(s, side)
    ensures !Enabled(c, s, Fail(side))
  {
    assert SessionInv(s, side);
    assert PipeInv(s.PipeOf(Outgoing(side)), s.lost);
  }

  lemma OnlyFailFails(c: Env, s: State, a: Action, side: Side)
    requires Enabled(c, s, a) && Driven(a) && a != Fail(side) && !s.SessionOf(side).Failed?
    ensures !Apply(c, s, a).SessionOf(side).Failed?
    ensures Apply(c, s, a).lost == s.lost && Apply(c, s, a).broken == s.broken
  {
  }

  lemma DrivenStepKeepsClosing(c: Env, s: State, a: Action, side: Side)
    requires Closing(s, side) && Enabled(c, s, a) && Driven(a)
    ensures Closing(Apply(c, s, a), side)
  {
    ClosingCannotFail(c, s, side);
    OnlyFailFails(c, s, a, side);
    StepKeepsInv(c, s, a);
    DrivenStepSendsNothing(c, s, a, Outgoing(side));
    DrivenStepSendsNothing(c, s, a, Outgoing(side).Back());
  }

  lemma DrivenStepKeepsDoomed(c: Env, s: State, a: Action, side: Side)
    requires Doomed(s, side) && Enabled(c, s, a) && Driven(a)
    ensures Doomed(Apply(c, s, a), side)
  {
    StepKeepsInv(c, s, a);
    DrivenStepSendsNothing(c, s, a, Outgoing(side));
  }

  lemma {:induction false} ClosingEndsOk(c: Env, s: State, acts: seq<Action>, side: Side)
    requires c.Positive() && Closing(s, side) && Legal(c, s, acts) && AllDriven(acts)
    requires AtRest(c, After(c, s, acts))
    ensures After(c, s, acts).SessionOf(side).Done?
    decreases |acts|
  {
    if acts == [] {
      OpenAtRestIffIdles(c, s, side);
    } else {
      assert Driven(acts[0]);
      DrivenStepKeepsClosing(c, s, acts[0], side);
      ClosingEndsOk(c, Apply(c, s, acts[0]), acts[1..], side);
    }
  }

  lemma {:induction false} DoomedFails(c: Env, s: State, acts: seq<Action>, side: Side)
    requires c.Positive() && Doomed(s, side) && Legal(c, s, acts) && AllDriven(acts)
    requires AtRest(c, After(c, s, acts))
    ensures After(c, s, acts).SessionOf(side).Failed?
    decreases |acts|
  {
    if acts == [] {
      OpenAtRestIffIdles(c, s, side);
    } else {
      assert Driven(acts[0]);
      DrivenStepKeepsDoomed(c, s, acts[0], side);
      DoomedFails(c, Apply(c, s, acts[0]), acts[1..], side);
    }
  }

  /**
   How a session ends that did not see the loss: with an error if its
   application writes, but with Ok if it closes, although the connection is gone.
   */
  lemma LostSessionEndsAs(c: Env, before: seq<Action>, wake: Move, acts: seq<Action>, side: Side)
    requires c.Positive() && Legal(c, INITIAL, before)
    requires Unaware(After(c, INITIAL, before), side) && After(c, INITIAL, before).lost
    requires wake.Close? || (wake.Write? && wake.data != [])
    requires Enabled(c, After(c, INITIAL, before), Flow(Outgoing(side), wake))
    requires
      var s := Apply(c, After(c, INITIAL, before), Flow(Outgoing(side), wake));
      Legal(c, s, acts) && AllDriven(acts) && AtRest(c, After(c, s, acts))
    ensures
      var t := After(c, Apply(c, After(c, INITIAL, before), Flow(Outgoing(side), wake)), acts);
      && (t.SessionOf(side).Done? <==> wake.Close?)
      && (t.SessionOf(side).Failed? <==> wake.Write?)
  {
    var s := After(c, INITIAL, before);
    assert SessionInv(s, side);
    StepKeepsInv(c, s, Flow(Outgoing(side), wake));
    var u := Apply(c, s, Flow(Outgoing(side), wake));
    if wake.Close? {
      ClosingEndsOk(c, u, acts, side);
    } else {
      DoomedFails(c, u, acts, side);
    }
  }

  // ----- every tunnel can be brought to an end -----

  lemma DrivenStepDecreases(c: Env, s: State, a: Action)
    requires Enabled(c, s, a) && Driven(a)
    ensures Measure(Apply(c, s, a)) < Measure(s)
  {
    if a.Fail? {
      FailDecreases(c, s, a.side);
    } else {
      InternalStepDecreases(c, s, a);
    }
  }

  /** From any state, whatever has failed, the tunnel and its readers come to rest. */
  lemma {:induction false} DriveToRest(c: Env, s: State) returns (acts: seq<Action>)
    ensures Legal(c, s, acts) && AllDriven(acts) && AtRest(c, After(c, s, acts))
    decreases Measure(s)
  {
    acts := [];
    if !AtRest(c, s) {
      var a :| Driven(a) && Enabled(c, s, a);
      DrivenStepDecreases(c, s, a);
      var rest := DriveToRest(c, Apply(c, s, a));
      acts := [a] + rest;
      assert acts[1..] == rest;
    }
  }

  /** An application can close at any time, whatever is still on its way and whatever has failed. */
  lemma CloseOne(c: Env, s: State, d: Dir) returns (acts: seq<Action>)
    ensures Legal(c, s, acts) && After(c, s, acts) == s.With(d, s.PipeOf(d).(closed := true))
  {
    acts := if s.PipeOf(d).closed then [] else [Flow(d, Close)];
    assert |acts| == 1 ==> acts[1..] == [];
  }

  lemma {:induction false} DrivenKeepsClosed(c: Env, s: State, acts: seq<Action>)
    requires Legal(c, s, acts) && AllDriven(acts) && s.up.closed && s.down.closed
    ensures After(c, s, acts).up.closed && After(c, s, acts).down.closed
    decreases |acts|
  {
    if acts != [] {
      assert Driven(acts[0]);
      DrivenKeepsClosedOne(c, s, acts[0]);
      DrivenKeepsClosed(c, Apply(c, s, acts[0]), acts[1..]);
    }
  }

  lemma DrivenKeepsClosedOne(c: Env, s: State, a: Action)
    requires Enabled(c, s, a) && Driven(a) && s.up.closed && s.down.closed
    ensures Apply(c, s, a).up.closed && Apply(c, s, a).down.closed
  {
  }

  /**
   From every state of every run, both applications can close, and then the
   tunnel comes to rest with both sessions over.
   */
  lemma EveryTunnelCanEnd(c: Env, before: seq<Action>) returns (closing: seq<Action>, rest: seq<Action>)
    requires c.Positive() && Legal(c, INITIAL, before)
    ensures
      var s := After(c, INITIAL, before);
      && Legal(c, s, closing)
      && After(c, s, closing) == s.(up := s.up.(closed := true), down := s.down.(closed := true))
      && Legal(c, After(c, s, closing), rest) && AllDriven(rest)
      && var t := After(c, After(c, s, closing), rest);
         !t.bridge.Running? && !t.satellite.Running?
  {
    var s := After(c, INITIAL, before);
    var one := CloseOne(c, s, Up);
    var two := CloseOne(c, After(c, s, one), Down);
    Concat(c, s, one, two);
    closing := one + two;
    var u := After(c, s, closing);
    rest := DriveToRest(c, u);
    RunKeepsInv(c, INITIAL, before);
    RunKeepsInv(c, s, closing);
    RunKeepsInv(c, u, rest);
    DrivenKeepsClosed(c, u, rest);
    OpenAtRestIffIdles(c, After(c, u, rest), Bridge);
    OpenAtRestIffIdles(c, After(c, u, rest), Satellite);
  }

  /** A session that did not see the loss can still end in either way: its application decides. */
  lemma LostSessionCanEndEitherWay(c: Env, before: seq<Action>, side: Side, data: seq<Byte>)
    returns (ok: seq<Action>, failing: seq<Action>)
    requires c.Positive() && Legal(c, INITIAL, before) && data != [] && |data| <= c.socket
    requires Unaware(After(c, INITIAL, before), side) && After(c, INITIAL, before).lost
    ensures
      var s := After(c, INITIAL, before);
      && Legal(c, s, ok) && After(c, s, ok).SessionOf(side).Done?
      && Legal(c, s, failing) && After(c, s, failing).SessionOf(side).Failed?
  {
    var s := After(c, INITIAL, before);
    ok := EndBy(c, before, Close, side);
    assert PipeInv(s.PipeOf(Outgoing(side)), s.lost);
    failing := EndBy(c, before, Write(data), side);
  }

  lemma EndBy(c: Env, before: seq<Action>, wake: Move, side: Side) returns (acts: seq<Action>)
    requires c.Positive() && Legal(c, INITIAL, before)
    requires Unaware(After(c, INITIAL, before), side) && After(c, INITIAL, before).lost
    requires wake.Close? || (wake.Write? && wake.data != [])
    requires Enabled(c, After(c, INITIAL, before), Flow(Outgoing(side), wake))
    ensures Legal(c, After(c, INITIAL, before), acts)
    ensures wake.Close? ==> After(c, After(c, INITIAL, before), acts).SessionOf(side).Done?
    ensures wake.Write? ==> After(c, After(c, INITIAL, before), acts).SessionOf(side).Failed?
  {
    var s := After(c, INITIAL, before);
    var rest := DriveToRest(c, Apply(c, s, Flow(Outgoing(side), wake)));
    LostSessionEndsAs(c, before, wake, rest, side);
    acts := Prepend(c, s, Flow(Outgoing(side), wake), rest);
  }

  // ----- a run that leaves one open -----

  /** Buildkitd closes, the satellite's end reaches the bridge, and then the connection is lost. */
  lemma LostSessionMayStayOpen(c: Env) returns (acts: seq<Action>)
    requires c.Positive()
    ensures Legal(c, INITIAL, acts)
    ensures
      var s := After(c, INITIAL, acts);
      Unaware(s, Bridge) && s.lost && AtRest(c, s) && s.bridge.Running? && s.satellite.Failed?
  {
    var one, s := BuildkitdIsDone(c, INITIAL);
    var two, t := BridgeOnlyLoses(c, s);
    Concat(c, INITIAL, one, two);
    acts := one + two;
    RunKeepsInv(c, INITIAL, acts);
    NothingMoves(c, t);
  }

  lemma BridgeOnlyLoses(c: Env, s: State) returns (acts: seq<Action>, t: State)
    requires c.Positive() && s == INITIAL.(down := s.down) && s.down.wire == []
    requires s.down.near.status.Copied? && s.down.far == IDLE_COPIER && s.down.finished
    requires s.down.inbox == [] && s.down.unread == []
    ensures Legal(c, s, acts) && t == After(c, s, acts)
    ensures t.up == DropFar(IDLE_PIPE) && t.down == s.down.(far := Copier(Copied, [], true, 0))
    ensures t.lost && t.broken == {} && t.bridge.Running? && t.satellite.Failed?
  {
    var s1 := Apply(c, s, Flow(Down, FarEof));
    var s2 := Apply(c, s1, Flow(Down, FarDone));
    var s3 := Apply(c, s2, Lose);
    t := Apply(c, s3, Fail(Satellite));
    acts := Prepend(c, s3, Fail(Satellite), []);
    acts := Prepend(c, s2, Lose, acts);
    acts := Prepend(c, s1, Flow(Down, FarDone), acts);
    acts := Prepend(c, s, Flow(Down, FarEof), acts);
  }

  lemma NothingMoves(c: Env, s: State)
    requires s.up == DropFar(IDLE_PIPE) && s.down.near.status.Copied? && s.down.far.status.Copied? && s.down.inbox == []
    requires s.broken == {} && s.satellite.Failed?
    ensures AtRest(c, s)
  {
  }
}
