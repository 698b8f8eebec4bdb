/**
 The two loops that poll the bridge sockets, against a clock in milliseconds.
 A probe answers within 500 ms; a pass stops at the first dead socket; between
 passes the loop sleeps 500 ms.
 */
module Polling {
  const STEP := 500

  /** Answer and duration of `check_socket_alive` on one socket at one time. */
  datatype Probe = Probe(alive: bool, took: nat)

  type Oracle = (nat, nat) -> Probe

  ghost predicate Timely(probe: Oracle) {
    forall socket: nat, now: nat :: probe(socket, now).took <= 500
  }

  datatype Pass = Pass(ready: bool, end: nat)

  /** One pass over sockets `i..n` starting at `now`, up to the first dead one. */
  function RunPass(probe: Oracle, n: nat, i: nat, now: nat): (pass: Pass)
    requires i <= n
    ensures pass.end >= now
    decreases n - i
  {
    if i == n then Pass(true, now)
    else
      var p := probe(i, now);
      if p.alive then RunPass(probe, n, i + 1, now + p.took) else Pass(false, now + p.took)
  }

  /** The same pass when it looks at every socket whatever the answers. */
  function RunFullPass(probe: Oracle, n: nat, i: nat, now: nat): Pass
    requires i <= n
    decreases n - i
  {
    if i == n then Pass(true, now)
    else
      var p := probe(i, now);
      var rest := RunFullPass(probe, n, i + 1, now + p.took);
      Pass(p.alive && rest.ready, rest.end)
  }

  datatype Outcome = Outcome(ready: bool, end: nat, passes: nat)

  /** Passes from `now` on until one is ready or ends at or past the deadline. */
  function Poll(probe: Oracle, n: nat, deadline: nat, now: nat): Outcome
    decreases deadline + STEP - now
  {
    var pass := RunPass(probe, n, 0, now);
    if pass.ready || pass.end >= deadline then Outcome(pass.ready, pass.end, 1)
    else
      var rest := Poll(probe, n, deadline, pass.end + STEP);
      rest.(passes := rest.passes + 1)
  }

  /** `link::wait_for_sockets`. */
  method WaitForSockets(probe: Oracle, n: nat, deadline: nat) returns (ready: bool, elapsed: nat, ghost passes: nat)
    ensures ready == Poll(probe, n, deadline, 0).ready
    ensures elapsed == Poll(probe, n, deadline, 0).end
    ensures passes == Poll(probe, n, deadline, 0).passes
  {
    elapsed, passes := 0, 0;
    ghost var whole := Poll(probe, n, deadline, 0);
    while true
      invariant Poll(probe, n, deadline, elapsed).(passes := passes + Poll(probe, n, deadline, elapsed).passes) == whole
      decreases deadline + STEP - elapsed
    {
      ghost var start := elapsed;
      var allReady, i := true, 0;
      while i < n && allReady
        invariant i <= n && elapsed >= start
        invariant allReady ==> RunPass(probe, n, i, elapsed) == RunPass(probe, n, 0, start)
        invariant !allReady ==> Pass(false, elapsed) == RunPass(probe, n, 0, start)
        decreases n - i, allReady
      {
        var p := probe(i, elapsed);
        elapsed := elapsed + p.took;
        if p.alive {
          i := i + 1;
        } else {
          allReady := false;
        }
      }
      passes := passes + 1;
      if allReady {
        return true, elapsed, passes;
      }
      if elapsed >= deadline {
        return false, elapsed, passes;
      }
      elapsed := elapsed + STEP;
    }
  }

  /**
   `status::run_status`: an optional wait, then one pass over every socket. It
   succeeds exactly if that pass finds every socket alive when it reaches it.
   */
  method RunStatus(probe: Oracle, n: nat, wait: bool, timeoutSecs: nat) returns (ok: bool, elapsed: nat)
    ensures
      var waited := if wait then Poll(probe, n, 1000 * timeoutSecs, 0).end else 0;
      Pass(ok, elapsed) == RunFullPass(probe, n, 0, waited) && (ok <==> AllAlive(probe, n, waited))
  {
    elapsed := 0;
    if wait {
      var deadline := 1000 * timeoutSecs;
      while true
        invariant Poll(probe, n, deadline, elapsed).end == Poll(probe, n, deadline, 0).end
        decreases deadline + STEP - elapsed
      {
        ghost var start := elapsed;
        var allReady, i := true, 0;
        while i < n && allReady
          invariant i <= n && elapsed >= start
          invariant allReady ==> RunPass(probe, n, i, elapsed) == RunPass(probe, n, 0, start)
          invariant !allReady ==> Pass(false, elapsed) == RunPass(probe, n, 0, start)
          decreases n - i, allReady
        {
          var p := probe(i, elapsed);
          elapsed := elapsed + p.took;
          if p.alive {
            i := i + 1;
          } else {
            allReady := false;
          }
        }
        if allReady || elapsed >= deadline {
          break;
        }
        elapsed := elapsed + STEP;
      }
    }
    ghost var start := elapsed;
    ok := true;
    for i := 0 to n
      invariant RunFullPass(probe, n, 0, start)
             == Pass(ok && RunFullPass(probe, n, i, elapsed).ready, RunFullPass(probe, n, i, elapsed).end)
    {
      var p := probe(i, elapsed);
      elapsed := elapsed + p.took;
      if !p.alive {
        ok := false;
      }
    }
    PassIsReadyIffAllAlive(probe, n, start);
  }

  /** When a pass reaches socket `i` if every earlier one answered "alive". */
  ghost function ArrivesAt(probe: Oracle, i: nat, now: nat): nat {
    if i == 0 then now else ArrivesAt(probe, i - 1, now) + probe(i - 1, ArrivesAt(probe, i - 1, now)).took
  }

  ghost predicate AliveWhenReached(probe: Oracle, i: nat, now: nat) {
    probe(i, ArrivesAt(probe, i, now)).alive
  }

  ghost predicate AllAlive(probe: Oracle, n: nat, now: nat) {
    forall i: nat :: i < n ==> AliveWhenReached(probe, i, now)
  }

  lemma {:induction false} PassesFrom(probe: Oracle, n: nat, i: nat, now: nat)
    requires i <= n
    ensures RunPass(probe, n, i, ArrivesAt(probe, i, now)).ready <==>
              forall k: nat :: i <= k < n ==> AliveWhenReached(probe, k, now)
    ensures RunFullPass(probe, n, i, ArrivesAt(probe, i, now)).ready <==>
              forall k: nat :: i <= k < n ==> AliveWhenReached(probe, k, now)
    decreases n - i
  {
    if i < n {
      PassesFrom(probe, n, i + 1, now);
      assert AliveWhenReached(probe, i, now) <==> probe(i, ArrivesAt(probe, i, now)).alive;
    }
  }

  /** A pass is ready exactly if it found every socket alive, whether or not it stops early. */
  lemma PassIsReadyIffAllAlive(probe: Oracle, n: nat, now: nat)
    ensures RunPass(probe, n, 0, now).ready <==> AllAlive(probe, n, now)
    ensures RunFullPass(probe, n, 0, now).ready <==> AllAlive(probe, n, now)
  {
    PassesFrom(probe, n, 0, now);
  }

  /** `i` sockets are probed when the first dead one, if there is one, is the last of them. */
  ghost predicate ProbedSockets(probe: Oracle, n: nat, now: nat, i: nat) {
    && i <= n && (forall k: nat :: k + 1 < i ==> AliveWhenReached(probe, k, now))
    && (i < n ==> i > 0 && !AliveWhenReached(probe, i - 1, now))
  }

  lemma {:induction false} PassTakesFrom(probe: Oracle, n: nat, i: nat, now: nat) returns (last: nat)
    requires i <= n && forall k: nat :: k < i ==> AliveWhenReached(probe, k, now)
    ensures ProbedSockets(probe, n, now, last)
    ensures RunPass(probe, n, i, ArrivesAt(probe, i, now)).end == ArrivesAt(probe, last, now)
    decreases n - i
  {
    last := i;
    if i < n {
      last := i + 1;
      if AliveWhenReached(probe, i, now) {
        last := PassTakesFrom(probe, n, i + 1, now);
      }
    }
  }

  lemma {:induction false} FullPassTakesFrom(probe: Oracle, n: nat, i: nat, now: nat)
    requires i <= n
    ensures RunFullPass(probe, n, i, ArrivesAt(probe, i, now)).end == ArrivesAt(probe, n, now)
    decreases n - i
  {
    if i < n {
      FullPassTakesFrom(probe, n, i + 1, now);
    }
  }

  /** A waiting pass probes up to the first dead socket and no further; the final pass probes all. */
  lemma PassesTake(probe: Oracle, n: nat, now: nat) returns (last: nat)
    ensures ProbedSockets(probe, n, now, last) && RunPass(probe, n, 0, now).end == ArrivesAt(probe, last, now)
    ensures RunFullPass(probe, n, 0, now).end == ArrivesAt(probe, n, now)
  {
    last := PassTakesFrom(probe, n, 0, now);
    FullPassTakesFrom(probe, n, 0, now);
  }

  lemma {:induction false} PassIsBounded(probe: Oracle, n: nat, i: nat, now: nat)
    requires Timely(probe) && i <= n
    ensures RunPass(probe, n, i, now).end <= now + STEP * (n - i)
    decreases n - i
  {
    if i < n && probe(i, now).alive {
      PassIsBounded(probe, n, i + 1, now + probe(i, now).took);
    }
  }

  lemma {:induction false} PollIsBoundedFrom(probe: Oracle, n: nat, deadline: nat, now: nat)
    requires Timely(probe) && now < deadline + STEP
    ensures Poll(probe, n, deadline, now).end < deadline + STEP + STEP * n
    ensures now + STEP * (Poll(probe, n, deadline, now).passes - 1) < deadline + STEP
    ensures Poll(probe, n, deadline, now).ready ==>
              exists start: nat ::
                now <= start && RunPass(probe, n, 0, start) == Pass(true, Poll(probe, n, deadline, now).end)
    ensures !Poll(probe, n, deadline, now).ready ==> Poll(probe, n, deadline, now).end >= deadline
    decreases deadline + STEP - now
  {
    PassIsBounded(probe, n, 0, now);
    var pass := RunPass(probe, n, 0, now);
    if !pass.ready && pass.end < deadline {
      PollIsBoundedFrom(probe, n, deadline, pass.end + STEP);
    }
  }

  /**
   The loop makes at most one pass per started half second of the deadline and
   one more, returns before deadline + 500 + 500 n, is ready only at the end of
   a pass that found every socket alive, and gives up no earlier than the deadline.
   */
  lemma PollIsBounded(probe: Oracle, n: nat, deadline: nat)
    requires Timely(probe)
    ensures
      var outcome := Poll(probe, n, deadline, 0);
      && outcome.passes <= (deadline + 499) / 500 + 1
      && outcome.end < deadline + 500 + 500 * n
      && (outcome.ready ==> exists start :: AllAlive(probe, n, start) && RunPass(probe, n, 0, start).end == outcome.end)
      && (!outcome.ready ==> outcome.end >= deadline)
  {
    PollIsBoundedFrom(probe, n, deadline, 0);
    var outcome := Poll(probe, n, deadline, 0);
    if outcome.ready {
      var start: nat :| RunPass(probe, n, 0, start) == Pass(true, outcome.end);
      PassIsReadyIffAllAlive(probe, n, start);
      assert AllAlive(probe, n, start);
    }
  }

  /** Ready means one whole pass that found every socket alive, however long the probes took. */
  lemma {:induction false} ReadyFoundAll(probe: Oracle, n: nat, deadline: nat, now: nat) returns (start: nat)
    requires Poll(probe, n, deadline, now).ready
    ensures AllAlive(probe, n, start)
    decreases deadline + STEP - now
  {
    var pass := RunPass(probe, n, 0, now);
    if pass.ready {
      start := now;
      PassIsReadyIffAllAlive(probe, n, now);
    } else {
      start := ReadyFoundAll(probe, n, deadline, pass.end + STEP);
    }
  }

  ghost predicate AliveFrom(probe: Oracle, n: nat, time: nat) {
    forall i: nat, now: nat :: i < n && now >= time ==> probe(i, now).alive
  }

  lemma {:induction false} AlivePassIsReady(probe: Oracle, n: nat, i: nat, time: nat, now: nat)
    requires AliveFrom(probe, n, time) && now >= time && i <= n
    ensures RunPass(probe, n, i, now).ready && RunFullPass(probe, n, i, now).ready
    decreases n - i
  {
    if i < n {
      AlivePassIsReady(probe, n, i + 1, time, now + probe(i, now).took);
    }
  }

  lemma {:induction false} SocketsUpInTimeFrom(probe: Oracle, n: nat, deadline: nat, time: nat, now: nat)
    requires Timely(probe) && AliveFrom(probe, n, time) && time + STEP * n <= deadline
    ensures Poll(probe, n, deadline, now).ready
    decreases deadline + STEP - now
  {
    if now >= time {
      AlivePassIsReady(probe, n, 0, time, now);
    } else {
      PassIsBounded(probe, n, 0, now);
      if !RunPass(probe, n, 0, now).ready {
        SocketsUpInTimeFrom(probe, n, deadline, time, RunPass(probe, n, 0, now).end + STEP);
      }
    }
  }

  /** Sockets that are up for good one pass before the deadline are always noticed. */
  lemma SocketsUpInTimeAreSeen(probe: Oracle, n: nat, deadline: nat, time: nat)
    requires Timely(probe) && AliveFrom(probe, n, time) && time + STEP * n <= deadline
    ensures Poll(probe, n, deadline, 0).ready
  {
    SocketsUpInTimeFrom(probe, n, deadline, time, 0);
  }

  // ----- the wait before the final pass decides nothing -----

  lemma {:induction false} AliveUntilReached(probe: Oracle, n: nat, i: nat)
    requires i <= n && forall socket: nat, now: nat :: probe(socket, now) == Probe(now < n, 1)
    ensures RunPass(probe, n, i, i) == Pass(true, n)
    decreases n - i
  {
    if i < n {
      AliveUntilReached(probe, n, i + 1);
    }
  }

  /** An oracle that is dead until the other one's polling ends is polled just like it. */
  lemma {:induction false} PolledAlike(dead: Oracle, wakes: Oracle, n: nat, deadline: nat, now: nat)
    requires n > 0 && forall socket: nat, at: nat :: dead(socket, at) == Probe(false, 1)
    requires forall at: nat :: at < Poll(dead, n, deadline, now).end ==> wakes(0, at) == Probe(false, 1)
    ensures Poll(wakes, n, deadline, now) == Poll(dead, n, deadline, now)
    ensures !Poll(dead, n, deadline, now).ready && Poll(dead, n, deadline, now).end > now
    decreases deadline + STEP - now
  {
    assert RunPass(dead, n, 0, now) == Pass(false, now + 1);
    if now + 1 < deadline {
      PolledAlike(dead, wakes, n, deadline, now + 1 + STEP);
    }
    assert RunPass(wakes, n, 0, now) == Pass(false, now + 1);
  }

  /**
   For every timeout and number of sockets the wait can end ready before the
   final pass fails, and time out before the final pass succeeds.
   */
  lemma WaitDoesNotDecide(n: nat, timeoutSecs: nat) returns (dies: Oracle, wakes: Oracle)
    requires n > 0
    ensures Timely(dies) && Timely(wakes)
    ensures Poll(dies, n, 1000 * timeoutSecs, 0).ready
    ensures !RunFullPass(dies, n, 0, Poll(dies, n, 1000 * timeoutSecs, 0).end).ready
    ensures !Poll(wakes, n, 1000 * timeoutSecs, 0).ready
    ensures RunFullPass(wakes, n, 0, Poll(wakes, n, 1000 * timeoutSecs, 0).end).ready
  {
    var deadline := 1000 * timeoutSecs;
    dies := (socket, now) => Probe(now < n, 1);
    AliveUntilReached(dies, n, 0);
    assert Poll(dies, n, deadline, 0).end == n;
    var dead: Oracle := (socket, now) => Probe(false, 1);
    var end := Poll(dead, n, deadline, 0).end;
    wakes := (socket, now) => Probe(now >= end, 1);
    PolledAlike(dead, wakes, n, deadline, 0);
    AlivePassIsReady(wakes, n, 0, end, end);
  }
}
