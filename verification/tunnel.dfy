/**
 The build tunnel as a step system: Docker's socket, the bridge session, one
 two-way QUIC stream, the satellite session and buildkitd's socket.

 Each session runs two copy loops under `try_join!`; a copy loop owns a buffer
 and moves bytes from its reader to its writer. Any interleaving of the steps
 below is a run. The stream is a reliable FIFO in each direction, and a lost
 connection is seen as an error by whoever still uses it. A reader sees a clean
 end after the writer called `finish`; whether it also sees one after the writer
 dropped the stream without `finish` is left to the library, as a parameter.
 */
module Tunnel {
  import opened Wrappers

  /**
   What the tunnel runs on: capacities of its bounded stages (a copy buffer,
   one direction of the stream, a Unix socket), and whether a stream dropped
   without `finish` shows its reader a clean end.
   */
  datatype Env = Env(buffer: nat, wire: nat, socket: nat, endOnDrop: bool) {
    predicate Positive() { buffer > 0 && wire > 0 && socket > 0 }
  }

  datatype Status = Copying | Copied | Dropped

  /** One `tokio::io::copy`: `count` is what it has written so far, `eof` that its reader ended. */
  datatype Copier = Copier(status: Status, buf: seq<Byte>, eof: bool, count: nat)

  /** One direction, from the application that sends (near) to the one that receives (far). */
  datatype Pipe = Pipe(
    written: seq<Byte>,   // everything the sending application ever wrote
    closed: bool,         // the sending application closed its writing side
    unread: seq<Byte>,    // in the near Unix socket
    near: Copier,         // Unix -> QUIC loop
    wire: seq<Byte>,      // in flight on the stream
    finished: bool,       // `finish` was called on a live stream
    cut: bool,            // dropped without `finish`, and the library signals an end
    far: Copier,          // QUIC -> Unix loop
    inbox: seq<Byte>,     // in the far Unix socket
    received: seq<Byte>,  // read by the receiving application
    hungUp: bool          // the receiving application is given end-of-stream
  )

  datatype Side = Bridge | Satellite {
    function Opposite(): Side { if Bridge? then Satellite else Bridge }
  }

  datatype Dir = Up | Down {
    function Back(): Dir { if Up? then Down else Up }
  }

  /** `Done` holds the pair the session returns: bytes to QUIC, bytes to the Unix socket. */
  datatype Session = Running | Done(toQuic: nat, toUnix: nat) | Failed

  /** `broken` are the sides whose local application's socket fails. */
  datatype State = State(
    up: Pipe, down: Pipe, bridge: Session, satellite: Session, lost: bool, broken: set<Side>)
  {
    function PipeOf(d: Dir): Pipe { if d.Up? then up else down }
    function With(d: Dir, p: Pipe): State { if d.Up? then this.(up := p) else this.(down := p) }
    function SessionOf(side: Side): Session { if side.Bridge? then bridge else satellite }
    function WithSession(side: Side, r: Session): State {
      if side.Bridge? then this.(bridge := r) else this.(satellite := r)
    }
  }

  /** The direction whose near loop belongs to `side`; its far loop serves the opposite one. */
  function Outgoing(side: Side): Dir { if side.Bridge? then Up else Down }

  const IDLE_COPIER := Copier(Copying, [], false, 0)
  const IDLE_PIPE := Pipe([], false, [], IDLE_COPIER, [], false, false, IDLE_COPIER, [], [], false)
  const INITIAL := State(IDLE_PIPE, IDLE_PIPE, Running, Running, false, {})

  datatype Move =
    | Write(data: seq<Byte>) | Close
    | NearRead(k: nat) | NearEof | NearWrite(k: nat) | NearDone
    | FarRead(k: nat) | FarEof | FarWrite(k: nat) | FarDone
    | Read(k: nat)

  /** `Refuse` is a session that fails before its copies start; `Break` is a Unix socket that fails. */
  datatype Action =
    | Flow(dir: Dir, move: Move) | Return(side: Side) | Fail(side: Side)
    | Refuse(side: Side) | Break(side: Side) | Lose

  predicate MoveEnabled(c: Env, lost: bool, p: Pipe, m: Move) {
    match m
    case Write(data) => !p.closed && p.near.status.Copying? && |p.unread| + |data| <= c.socket
    case Close => !p.closed
    case NearRead(k) => p.near.status.Copying? && !p.near.eof && 1 <= k <= |p.unread| && |p.near.buf| + k <= c.buffer
    case NearEof => p.near.status.Copying? && !p.near.eof && p.unread == [] && p.closed && |p.near.buf| < c.buffer
    case NearWrite(k) => p.near.status.Copying? && !lost && 1 <= k <= |p.near.buf| && |p.wire| + k <= c.wire
    case NearDone => p.near.status.Copying? && p.near.eof && p.near.buf == []
    case FarRead(k) => p.far.status.Copying? && !p.far.eof && !lost && 1 <= k <= |p.wire| && |p.far.buf| + k <= c.buffer
    case FarEof =>
      p.far.status.Copying? && !p.far.eof && !lost && p.wire == [] && (p.finished || p.cut) && |p.far.buf| < c.buffer
    case FarWrite(k) => p.far.status.Copying? && 1 <= k <= |p.far.buf| && |p.inbox| + k <= c.socket
    case FarDone => p.far.status.Copying? && p.far.eof && p.far.buf == []
    case Read(k) => 1 <= k <= |p.inbox|
  }

  function ApplyMove(c: Env, lost: bool, p: Pipe, m: Move): Pipe
    requires MoveEnabled(c, lost, p, m)
  {
    match m
    case Write(data) => p.(written := p.written + data, unread := p.unread + data)
    case Close => p.(closed := true)
    case NearRead(k) => p.(unread := p.unread[k..], near := p.near.(buf := p.near.buf + p.unread[..k]))
    case NearEof => p.(near := p.near.(eof := true))
    case NearWrite(k) =>
      p.(near := p.near.(buf := p.near.buf[k..], count := p.near.count + k), wire := p.wire + p.near.buf[..k])
    // A failing `finish` is ignored: on a lost connection the loop still ends Ok.
    case NearDone => p.(near := p.near.(status := Copied), finished := !lost)
    case FarRead(k) => p.(wire := p.wire[k..], far := p.far.(buf := p.far.buf + p.wire[..k]))
    case FarEof => p.(far := p.far.(eof := true))
    case FarWrite(k) =>
      p.(far := p.far.(buf := p.far.buf[k..], count := p.far.count + k), inbox := p.inbox + p.far.buf[..k])
    // No shutdown of the Unix write half here: the receiver is told nothing.
    case FarDone => p.(far := p.far.(status := Copied))
    case Read(k) => p.(inbox := p.inbox[k..], received := p.received + p.inbox[..k])
  }

  /** Dropping a session drops the buffers and streams of its unfinished loops. */
  function DropCopier(l: Copier): Copier {
    if l.status.Copying? then l.(status := Dropped, buf := [], eof := false) else l
  }

  function DropNear(c: Env, lost: bool, p: Pipe): Pipe {
    p.(near := DropCopier(p.near), unread := [], cut := p.cut || (p.near.status.Copying? && c.endOnDrop && !lost))
  }

  function DropFar(p: Pipe): Pipe {
    p.(far := DropCopier(p.far), wire := if p.far.status.Copying? then [] else p.wire, hungUp := true)
  }

  /** The near loop fails to read its broken socket, or to write bytes that the stream no longer takes. */
  predicate NearFails(p: Pipe, broken: bool, lost: bool) {
    p.near.status.Copying? && ((broken && !p.near.eof) || (p.near.buf != [] && (lost || p.far.status.Dropped?)))
  }

  /** The far loop fails to read a stream that neither goes on nor ends, or to write to its broken socket. */
  predicate FarFails(p: Pipe, broken: bool, lost: bool) {
    p.far.status.Copying? &&
    ((!p.far.eof && (lost || (p.near.status.Dropped? && !p.cut))) || (broken && p.far.buf != []))
  }

  /** One failing loop ends the session: `try_join!` drops the other. */
  function EndFailed(c: Env, s: State, side: Side): State {
    var d := Outgoing(side);
    s.With(d, DropNear(c, s.lost, s.PipeOf(d))).With(d.Back(), DropFar(s.PipeOf(d.Back()))).WithSession(side, Failed)
  }

  predicate Enabled(c: Env, s: State, a: Action) {
    match a
    case Flow(d, m) => MoveEnabled(c, s.lost, s.PipeOf(d), m)
    case Return(side) =>
      var d := Outgoing(side);
      s.SessionOf(side).Running? && s.PipeOf(d).near.status.Copied? && s.PipeOf(d.Back()).far.status.Copied?
    case Fail(side) =>
      var d := Outgoing(side);
      s.SessionOf(side).Running? &&
      (NearFails(s.PipeOf(d), side in s.broken, s.lost) || FarFails(s.PipeOf(d.Back()), side in s.broken, s.lost))
    case Refuse(side) =>
      var d := Outgoing(side);
      s.SessionOf(side).Running? && s.PipeOf(d).near == IDLE_COPIER && s.PipeOf(d.Back()).far == IDLE_COPIER
    case Break(side) => side !in s.broken
    case Lose => !s.lost
  }

  function Apply(c: Env, s: State, a: Action): State
    requires Enabled(c, s, a)
  {
    match a
    case Flow(d, m) => s.With(d, ApplyMove(c, s.lost, s.PipeOf(d), m))
    case Return(side) =>
      var d := Outgoing(side);
      var back := s.PipeOf(d.Back());
      s.With(d.Back(), back.(hungUp := true)).WithSession(side, Done(s.PipeOf(d).near.count, back.far.count))
    case Fail(side) => EndFailed(c, s, side)
    case Refuse(side) => EndFailed(c, s, side)
    case Break(side) => s.(broken := s.broken + {side})
    case Lose => s.(lost := true, up := s.up.(wire := []), down := s.down.(wire := []))
  }

  predicate Legal(c: Env, s: State, acts: seq<Action>)
    decreases |acts|
  {
    acts == [] || (Enabled(c, s, acts[0]) && Legal(c, Apply(c, s, acts[0]), acts[1..]))
  }

  function After(c: Env, s: State, acts: seq<Action>): State
    requires Legal(c, s, acts)
    decreases |acts|
  {
    if acts == [] then s else After(c, Apply(c, s, acts[0]), acts[1..])
  }

  /** What can go wrong outside the copy loops: a refused session, a failing Unix socket, a lost connection. */
  predicate Faulty(a: Action) { a.Refuse? || a.Break? || a.Lose? }

  predicate ErrorFree(acts: seq<Action>) { forall i :: 0 <= i < |acts| ==> !Faulty(acts[i]) }

  /** Steps of the tunnel itself and of applications that keep reading. */
  predicate Internal(a: Action) { a.Return? || (a.Flow? && !a.move.Write? && !a.move.Close?) }

  /** Those, and sessions failing for a cause that is already there. */
  predicate Driven(a: Action) { Internal(a) || a.Fail? }

  predicate Healthy(s: State) { !s.lost && s.broken == {} && !s.bridge.Failed? && !s.satellite.Failed? }

  function Delivered(p: Pipe): seq<Byte> { p.received + p.inbox }

  function Carried(p: Pipe): seq<Byte> {
    p.received + p.inbox + p.far.buf + p.wire + p.near.buf + p.unread
  }
}
