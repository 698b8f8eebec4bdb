/** When the bytes an Ok session reports have arrived, and when they can still be lost. */
module TunnelDelivery {
  import opened Wrappers
  import opened Tunnel
  import opened TunnelSafety

  // ----- what a session that returned Ok has sent -----

  /** The sender has ended and its receiver has been given everything. */
  ghost predicate Arrived(p: Pipe) { !p.near.status.Copying? && Delivered(p) == p.written }

  /** From `p` to `q` the sender has stayed as it was and nothing delivered was taken back. */
  ghost predicate Delivers(p: Pipe, q: Pipe) {
    q.written == p.written && !q.near.status.Copying? && |Delivered(p)| <= |Delivered(q)|
  }

  lemma MoveDelivers(c: Env, lost: bool, p: Pipe, m: Move)
    requires MoveEnabled(c, lost, p, m) && !p.near.status.Copying?
    ensures Delivers(p, ApplyMove(c, lost, p, m))
  {
  }

  lemma EndDelivers(c: Env, s: State, a: Action, d: Dir)
    requires Enabled(c, s, a) && !a.Flow? && !s.PipeOf(d).near.status.Copying?
    ensures Delivers(s.PipeOf(d), Apply(c, s, a).PipeOf(d))
  {
  }

  lemma FullyDelivered(p: Pipe, q: Pipe, lost: bool)
    requires Arrived(p) && Delivers(p, q) && PipeInv(q, lost)
    ensures Arrived(q)
  {
    assert Delivered(q) <= q.written;
  }

  lemma StepDelivers(c: Env, s: State, a: Action, d: Dir)
    requires Enabled(c, s, a) && !s.PipeOf(d).near.status.Copying?
    ensures Delivers(s.PipeOf(d), Apply(c, s, a).PipeOf(d))
  {
    if !a.Flow? {
      EndDelivers(c, s, a, d);
    } else if a.dir == d {
      MoveDelivers(c, s.lost, s.PipeOf(d), a.move);
    }
  }

  lemma StepKeepsArrived(c: Env, s: State, a: Action, d: Dir)
    requires Inv(s) && Enabled(c, s, a) && Arrived(s.PipeOf(d))
    ensures Inv(Apply(c, s, a)) && Arrived(Apply(c, s, a).PipeOf(d))
  {
    StepKeepsInv(c, s, a);
    StepDelivers(c, s, a, d);
    FullyDelivered(s.PipeOf(d), Apply(c, s, a).PipeOf(d), Apply(c, s, a).lost);
  }

  lemma {:induction false} RunKeepsArrived(c: Env, s: State, acts: seq<Action>, d: Dir)
    requires Inv(s) && Legal(c, s, acts) && Arrived(s.PipeOf(d))
    ensures Arrived(After(c, s, acts).PipeOf(d))
    decreases |acts|
  {
    if acts != [] {
      StepKeepsArrived(c, s, acts[0], d);
      RunKeepsArrived(c, Apply(c, s, acts[0]), acts[1..], d);
    }
  }

  ghost predicate AlwaysArrives(c: Env, s: State, side: Side) {
    forall acts :: Legal(c, s, acts) && !After(c, s, acts).SessionOf(side.Opposite()).Running? ==>
      Delivered(After(c, s, acts).PipeOf(Outgoing(side))) == After(c, s, acts).PipeOf(Outgoing(side)).written
  }

  /** A loop that still misses bytes fails, because the connection or its application's socket does. */
  lemma LoopCanFail(c: Env, s: State, side: Side) returns (a: Action)
    requires s.SessionOf(side).Running? && s.PipeOf(Outgoing(side).Back()).far.status.Copying?
    requires
      var p := s.PipeOf(Outgoing(side).Back());
      !p.far.eof || p.far.buf != []
    ensures (a.Lose? || a == Break(side)) && (Enabled(c, s, a) ==> Enabled(c, Apply(c, s, a), Fail(side)))
    ensures !Enabled(c, s, a) ==> Enabled(c, s, Fail(side))
  {
    a := if s.PipeOf(Outgoing(side).Back()).far.eof then Break(side) else Lose;
  }

  lemma MissingMeansCopying(c: Env, s: State, side: Side)
    requires Inv(s) && s.SessionOf(side).Done? && s.SessionOf(side.Opposite()).Running?
    requires Delivered(s.PipeOf(Outgoing(side))) != s.PipeOf(Outgoing(side)).written
    ensures
      var p := s.PipeOf(Outgoing(side));
      p.far.status.Copying? && (!p.far.eof || p.far.buf != [])
  {
    assert SessionInv(s, Bridge) && SessionInv(s, Satellite);
  }

  lemma EndTakesNothing(c: Env, s: State, a: Action, d: Dir)
    requires Enabled(c, s, a) && (a.Lose? || a.Break? || a.Fail?)
    ensures Delivered(Apply(c, s, a).PipeOf(d)) == Delivered(s.PipeOf(d))
    ensures Apply(c, s, a).PipeOf(d).written == s.PipeOf(d).written
  {
  }

  /** While bytes are missing, the opposite session can end without handing over one more. */
  lemma MissingBytesMayStayMissing(c: Env, s: State, side: Side) returns (acts: seq<Action>)
    requires Inv(s) && s.SessionOf(side).Done?
    requires Delivered(s.PipeOf(Outgoing(side))) != s.PipeOf(Outgoing(side)).written
    ensures Legal(c, s, acts) && !After(c, s, acts).SessionOf(side.Opposite()).Running?
    ensures Delivered(After(c, s, acts).PipeOf(Outgoing(side))) != After(c, s, acts).PipeOf(Outgoing(side)).written
  {
    var other := side.Opposite();
    acts := [];
    if s.SessionOf(other).Running? {
      MissingMeansCopying(c, s, side);
      var a := LoopCanFail(c, s, other);
      var t := if Enabled(c, s, a) then Apply(c, s, a) else s;
      acts := Prepend(c, t, Fail(other), []);
      EndTakesNothing(c, t, Fail(other), Outgoing(side));
      if Enabled(c, s, a) {
        EndTakesNothing(c, s, a, Outgoing(side));
        acts := Prepend(c, s, a, acts);
      }
    }
  }

  /**
   When a session that returned Ok can rely on its report: whatever happens
   until the opposite session is over, all it reported as sent arrives, exactly
   if all of it has arrived by then.
   */
  lemma OkOutputArrivesIff(c: Env, before: seq<Action>, side: Side)
    requires Legal(c, INITIAL, before) && After(c, INITIAL, before).SessionOf(side).Done?
    ensures
      var s := After(c, INITIAL, before);
      var out := s.PipeOf(Outgoing(side));
      AlwaysArrives(c, s, side) <==> |out.received| + |out.inbox| == s.SessionOf(side).toQuic
  {
    RunKeepsInv(c, INITIAL, before);
    OkMeansComplete(c, before, side);
    var s := After(c, INITIAL, before);
    var out := s.PipeOf(Outgoing(side));
    if Delivered(out) == out.written {
      forall acts | Legal(c, s, acts)
        ensures Arrived(After(c, s, acts).PipeOf(Outgoing(side)))
      {
        RunKeepsArrived(c, s, acts, Outgoing(side));
      }
    } else {
      var acts := MissingBytesMayStayMissing(c, s, side);
    }
  }

  // ----- what a session that returned Ok has been given -----

  /**
   Exactly if the library shows no end for a dropped stream, every Ok session
   in every run has been given all that the opposite application wrote.
   */
  lemma OkIsCompleteIffNoEndOnDrop(c: Env)
    requires c.Positive()
    ensures !c.endOnDrop <==>
              forall acts, side :: Legal(c, INITIAL, acts) && After(c, INITIAL, acts).SessionOf(side).Done? ==>
                Delivered(After(c, INITIAL, acts).PipeOf(Outgoing(side).Back()))
                  == After(c, INITIAL, acts).PipeOf(Outgoing(side).Back()).written
  {
    if c.endOnDrop {
      var acts := DroppedStreamLooksEnded(c, 0);
      assert !(Delivered(After(c, INITIAL, acts).PipeOf(Outgoing(Bridge).Back()))
                 == After(c, INITIAL, acts).PipeOf(Outgoing(Bridge).Back()).written);
    } else {
      forall acts, side | Legal(c, INITIAL, acts) && After(c, INITIAL, acts).SessionOf(side).Done?
        ensures Delivered(After(c, INITIAL, acts).PipeOf(Outgoing(side).Back()))
             == After(c, INITIAL, acts).PipeOf(Outgoing(side).Back()).written
      {
        OkMeansComplete(c, acts, side);
      }
    }
  }

  /** A satellite fails before it sends buildkitd's byte, and the bridge takes this for the end. */
  lemma DroppedStreamLooksEnded(c: Env, x: Byte) returns (acts: seq<Action>)
    requires c.Positive() && c.endOnDrop
    ensures Legal(c, INITIAL, acts)
    ensures
      var s := After(c, INITIAL, acts);
      s.bridge == Done(0, 0) && s.satellite.Failed? && s.down.written == [x] && Delivered(s.down) == []
  {
    var one, s := DockerEnds(c, INITIAL);
    var two, t := SatelliteDropsByte(c, s, x);
    var three, u := BridgeReturns(c, t);
    Concat(c, s, two, three);
    Concat(c, INITIAL, one, two + three);
    acts := one + (two + three);
  }

  /** Docker closes with nothing left to send, and the bridge finishes its stream. */
  lemma DockerEnds(c: Env, s: State) returns (acts: seq<Action>, t: State)
    requires c.Positive() && !s.lost && !s.up.closed && s.up.unread == []
    requires s.up.near == Copier(Copying, [], false, s.up.near.count)
    ensures Legal(c, s, acts) && t == After(c, s, acts)
    ensures t == s.(up := s.up.(closed := true, near := Copier(Copied, [], true, s.up.near.count), finished := true))
  {
    var s1 := Apply(c, s, Flow(Up, Close));
    var s2 := Apply(c, s1, Flow(Up, NearEof));
    t := Apply(c, s2, Flow(Up, NearDone));
    acts := Prepend(c, s2, Flow(Up, NearDone), []);
    acts := Prepend(c, s1, Flow(Up, NearEof), acts);
    acts := Prepend(c, s, Flow(Up, Close), acts);
  }

  lemma SatelliteDropsByte(c: Env, s: State, x: Byte) returns (acts: seq<Action>, t: State)
    requires c.Positive() && c.endOnDrop && Healthy(s) && s.satellite.Running? && s.down == IDLE_PIPE
    requires Satellite !in s.broken
    ensures Legal(c, s, acts) && t == After(c, s, acts)
    ensures t.up == DropFar(s.up) && t.bridge == s.bridge && t.satellite.Failed? && !t.lost
    ensures t.down == IDLE_PIPE.(written := [x], near := Copier(Dropped, [], false, 0), cut := true)
  {
    var s1 := Apply(c, s, Flow(Down, Write([x])));
    var s2 := Apply(c, s1, Break(Satellite));
    t := Apply(c, s2, Fail(Satellite));
    acts := Prepend(c, s2, Fail(Satellite), []);
    acts := Prepend(c, s1, Break(Satellite), acts);
    acts := Prepend(c, s, Flow(Down, Write([x])), acts);
  }

  // ----- a run that loses bytes after an Ok -----

  lemma Prepend(c: Env, s: State, a: Action, rest: seq<Action>) returns (acts: seq<Action>)
    requires Enabled(c, s, a) && Legal(c, Apply(c, s, a), rest)
    ensures Legal(c, s, acts) && After(c, s, acts) == After(c, Apply(c, s, a), rest)
  {
    acts := [a] + rest;
    assert acts[1..] == rest;
  }

  /**
   What an Ok return does not mean: the bridge can report a byte as sent and
   return Ok although the satellite fails and buildkitd never gets that byte,
   because the connection can go away once the bridge session is over.
   */
  lemma OkBridgeMayLoseOutput(c: Env, x: Byte) returns (acts: seq<Action>)
    requires c.Positive()
    ensures Legal(c, INITIAL, acts)
    ensures
      var s := After(c, INITIAL, acts);
      && s.bridge == Done(1, 0) && s.satellite.Failed?
      && s.up.written == [x] && Delivered(s.up) == []
  {
    var one, s := DockerIsDone(c, x);
    var two, t := BuildkitdIsDone(c, s);
    var three, u := BridgeReturns(c, t);
    var four := SatelliteFails(c, u);
    Concat(c, t, three, four);
    Concat(c, s, two, three + four);
    Concat(c, INITIAL, one, two + (three + four));
    acts := one + (two + (three + four));
  }

  lemma DockerSends(c: Env, x: Byte) returns (acts: seq<Action>, t: State)
    requires c.Positive()
    ensures Legal(c, INITIAL, acts) && t == After(c, INITIAL, acts)
    ensures t == INITIAL.(up := IDLE_PIPE.(written := [x], near := Copier(Copying, [], false, 1), wire := [x]))
  {
    var s1 := Apply(c, INITIAL, Flow(Up, Write([x])));
    var s2 := Apply(c, s1, Flow(Up, NearRead(1)));
    t := Apply(c, s2, Flow(Up, NearWrite(1)));
    acts := Prepend(c, s2, Flow(Up, NearWrite(1)), []);
    acts := Prepend(c, s1, Flow(Up, NearRead(1)), acts);
    acts := Prepend(c, INITIAL, Flow(Up, Write([x])), acts);
  }

  lemma DockerIsDone(c: Env, x: Byte) returns (acts: seq<Action>, t: State)
    requires c.Positive()
    ensures Legal(c, INITIAL, acts) && t == After(c, INITIAL, acts)
    ensures t == INITIAL.(up := IDLE_PIPE.(
                 written := [x], closed := true, near := Copier(Copied, [], true, 1), wire := [x], finished := true))
  {
    var one, s := DockerSends(c, x);
    var two, u := DockerEnds(c, s);
    Concat(c, INITIAL, one, two);
    acts, t := one + two, u;
  }

  lemma BuildkitdIsDone(c: Env, s: State) returns (acts: seq<Action>, t: State)
    requires c.Positive() && s.down == IDLE_PIPE && !s.lost
    ensures Legal(c, s, acts) && t == After(c, s, acts)
    ensures t == s.(down := IDLE_PIPE.(closed := true, near := Copier(Copied, [], true, 0), finished := true))
  {
    var s1 := Apply(c, s, Flow(Down, Close));
    var s2 := Apply(c, s1, Flow(Down, NearEof));
    t := Apply(c, s2, Flow(Down, NearDone));
    acts := Prepend(c, s2, Flow(Down, NearDone), []);
    acts := Prepend(c, s1, Flow(Down, NearEof), acts);
    acts := Prepend(c, s, Flow(Down, Close), acts);
  }

  lemma BridgeReturns(c: Env, s: State) returns (acts: seq<Action>, t: State)
    requires c.Positive() && !s.lost && s.bridge.Running? && s.up.near.status.Copied?
    requires s.down.far == IDLE_COPIER && (s.down.finished || s.down.cut) && s.down.wire == []
    ensures Legal(c, s, acts) && t == After(c, s, acts)
    ensures t.bridge == Done(s.up.near.count, 0) && t.satellite == s.satellite && t.up == s.up && !t.lost
    ensures t.down.written == s.down.written && Delivered(t.down) == Delivered(s.down)
  {
    var s1 := Apply(c, s, Flow(Down, FarEof));
    var s2 := Apply(c, s1, Flow(Down, FarDone));
    t := Apply(c, s2, Return(Bridge));
    acts := Prepend(c, s2, Return(Bridge), []);
    acts := Prepend(c, s1, Flow(Down, FarDone), acts);
    acts := Prepend(c, s, Flow(Down, FarEof), acts);
  }

  lemma SatelliteFails(c: Env, s: State) returns (acts: seq<Action>)
    requires !s.lost && s.satellite.Running? && s.up.far.status.Copying? && !s.up.far.eof
    ensures Legal(c, s, acts)
    ensures
      var t := After(c, s, acts);
      t.bridge == s.bridge && t.satellite.Failed? && t.up.written == s.up.written && Delivered(t.up) == Delivered(s.up)
  {
    var s1 := Apply(c, s, Lose);
    acts := Prepend(c, s1, Fail(Satellite), []);
    acts := Prepend(c, s, Lose, acts);
  }

  lemma {:induction false} Concat(c: Env, s: State, one: seq<Action>, two: seq<Action>)
    requires Legal(c, s, one) && Legal(c, After(c, s, one), two)
    ensures Legal(c, s, one + two) && After(c, s, one + two) == After(c, After(c, s, one), two)
    decreases |one|
  {
    if one == [] {
      assert one + two == two;
    } else {
      assert (one + two)[1..] == one[1..] + two;
      Concat(c, Apply(c, s, one[0]), one[1..], two);
    }
  }

  // ----- what can cross in one piece -----

  ghost predicate OpenAndEmpty(p: Pipe) {
    && !p.closed && p.near == Copier(Copying, [], false, p.near.count)
    && p.far == Copier(Copying, [], false, p.far.count)
    && p.unread == [] && p.wire == [] && p.inbox == []
  }

  ghost predicate Fits(c: Env, data: seq<Byte>) {
    data != [] && |data| <= c.socket && |data| <= c.buffer && |data| <= c.wire
  }

  ghost function Crossed(p: Pipe, data: seq<Byte>): Pipe {
    p.(written := p.written + data, received := p.received + data,
       near := p.near.(count := p.near.count + |data|), far := p.far.(count := p.far.count + |data|))
  }

  /**
   Data that fit every stage cross an open, empty direction in one piece,
   whatever the other direction and both sessions are doing.
   */
  lemma DataCrossInOnePiece(c: Env, s: State, d: Dir, data: seq<Byte>) returns (acts: seq<Action>)
    requires !s.lost && OpenAndEmpty(s.PipeOf(d)) && Fits(c, data)
    ensures Legal(c, s, acts) && After(c, s, acts) == s.With(d, Crossed(s.PipeOf(d), data))
  {
    var one, t := CrossNearHalf(c, s, d, data);
    var two, u := CrossFarHalf(c, t, d, data);
    Concat(c, s, one, two);
    acts := one + two;
  }

  /** Three moves of one direction, seen on its pipe alone. */
  lemma ThreeMoves(c: Env, s: State, d: Dir, one: Move, two: Move, three: Move, p: Pipe, q: Pipe, r: Pipe)
    returns (acts: seq<Action>, t: State)
    requires MoveEnabled(c, s.lost, s.PipeOf(d), one) && p == ApplyMove(c, s.lost, s.PipeOf(d), one)
    requires MoveEnabled(c, s.lost, p, two) && q == ApplyMove(c, s.lost, p, two)
    requires MoveEnabled(c, s.lost, q, three) && r == ApplyMove(c, s.lost, q, three)
    ensures Legal(c, s, acts) && t == After(c, s, acts) && t == s.With(d, r)
  {
    var s1 := Apply(c, s, Flow(d, one));
    var s2 := Apply(c, s1, Flow(d, two));
    t := Apply(c, s2, Flow(d, three));
    acts := Prepend(c, s2, Flow(d, three), []);
    acts := Prepend(c, s1, Flow(d, two), acts);
    acts := Prepend(c, s, Flow(d, one), acts);
  }

  lemma CrossNearHalf(c: Env, s: State, d: Dir, data: seq<Byte>) returns (acts: seq<Action>, t: State)
    requires !s.lost && OpenAndEmpty(s.PipeOf(d)) && Fits(c, data)
    ensures Legal(c, s, acts) && t == After(c, s, acts)
    ensures
      var p := s.PipeOf(d);
      t == s.With(d, p.(written := p.written + data, near := p.near.(count := p.near.count + |data|), wire := data))
  {
    var p, k := s.PipeOf(d), |data|;
    assert data[..k] == data && data[k..] == [];
    var p1 := ApplyMove(c, false, p, Write(data));
    var p2 := ApplyMove(c, false, p1, NearRead(k));
    var p3 := ApplyMove(c, false, p2, NearWrite(k));
    acts, t := ThreeMoves(c, s, d, Write(data), NearRead(k), NearWrite(k), p1, p2, p3);
  }

  lemma CrossFarHalf(c: Env, s: State, d: Dir, data: seq<Byte>) returns (acts: seq<Action>, t: State)
    requires !s.lost && Fits(c, data) && s.PipeOf(d).wire == data && s.PipeOf(d).inbox == []
    requires s.PipeOf(d).far == Copier(Copying, [], false, s.PipeOf(d).far.count)
    ensures Legal(c, s, acts) && t == After(c, s, acts)
    ensures
      var p := s.PipeOf(d);
      t == s.With(d, p.(wire := [], received := p.received + data, far := p.far.(count := p.far.count + |data|)))
  {
    var p, k := s.PipeOf(d), |data|;
    assert data[..k] == data && data[k..] == [];
    var p1 := ApplyMove(c, false, p, FarRead(k));
    var p2 := ApplyMove(c, false, p1, FarWrite(k));
    var p3 := ApplyMove(c, false, p2, Read(k));
    acts, t := ThreeMoves(c, s, d, FarRead(k), FarWrite(k), Read(k), p1, p2, p3);
  }
}
