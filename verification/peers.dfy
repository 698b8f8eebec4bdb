/**
 The set of peers a satellite lets through: filled from a snapshot of the Doc
 and kept up from the Doc's event stream, which was opened before the snapshot
 was read.
 */
module Peers {
  import opened Wrappers
  import opened Entries
  import opened Hex
  import opened Events

  function PeersOfKeys(valid: NodeId -> bool, keys: set<string>): set<NodeId> {
    set key | key in keys && PeerOfKey(valid, key).Some? :: PeerOfKey(valid, key).value
  }

  /** What one stream item adds. A neighbor that goes down stays allowed. */
  function PeersOfItem(valid: NodeId -> bool, item: Item): set<NodeId> {
    match item
    case Good(InsertRemote(key)) => PeersOfKeys(valid, {key})
    case Good(NeighborUp(peer)) => {peer}
    case _ => {}
  }

  /** The keys of the entries that could be read. */
  ghost function KeysIn(entries: seq<Option<string>>): set<string> {
    set entry | entry in entries && entry.Some? :: entry.value
  }

  lemma OneMoreEntry(valid: NodeId -> bool, entries: seq<Option<string>>, k: nat)
    requires k < |entries|
    ensures PeersOfKeys(valid, KeysIn(entries[..k + 1])) ==
              PeersOfKeys(valid, KeysIn(entries[..k])) +
              if entries[k].Some? && PeerOfKey(valid, entries[k].value).Some?
              then {PeerOfKey(valid, entries[k].value).value}
              else {}
  {
    assert entries[..k + 1] == entries[..k] + [entries[k]];
    assert KeysIn(entries[..k + 1]) == KeysIn(entries[..k]) + if entries[k].Some? then {entries[k].value} else {};
  }

  class AllowedPeers {
    var peers: set<NodeId>
    const valid: NodeId -> bool

    constructor (valid: NodeId -> bool)
      ensures this.valid == valid && peers == {}
    {
      this.valid := valid;
      peers := {};
    }

    /** Reads the existing entries; an entry that cannot be read is skipped. */
    method LoadSnapshot(entries: seq<Option<string>>)
      modifies this
      ensures peers == old(peers) + PeersOfKeys(valid, KeysIn(entries))
    {
      for k := 0 to |entries|
        invariant peers == old(peers) + PeersOfKeys(valid, KeysIn(entries[..k]))
      {
        OneMoreEntry(valid, entries, k);
        if entries[k].Some? {
          var peer := PeerOfKey(valid, entries[k].value);
          if peer.Some? {
            peers := peers + {peer.value};
          }
        }
      }
      assert entries[..|entries|] == entries;
    }

    method OnItem(item: Item)
      modifies this
      ensures peers == old(peers) + PeersOfItem(valid, item)
    {
      match item {
        case Good(InsertRemote(key)) =>
          match PeerOfKey(valid, key) {
            case None =>
            case Some(peer) => peers := peers + {peer};
          }
        case Good(NeighborUp(peer)) => peers := peers + {peer};
        case _ =>
      }
    }
  }

  /** The check does not wait for the lock: while it is held, everybody is denied. */
  predicate Grants(locked: bool, allowed: set<NodeId>, peer: NodeId) { !locked && peer in allowed }

  // ----- the index, its lock and the access check against a growing replica -----

  /** Reading the existing entries: the query has listed them, then the write lock is held until all are read. */
  datatype Snapshot = NotYet | Queried | Reading | Taken

  /** One answer of the access check. */
  datatype Answer = Answer(peer: NodeId, granted: bool)

  datatype State = State(
    replica: set<string>,      // keys received from other nodes
    neighbors: set<NodeId>,    // peers reported up since the subscription opened
    subscribed: bool, queue: seq<Item>,
    snapshot: Snapshot,
    pending: set<string>,      // listed by the query, not read yet
    inserting: bool,           // the event task holds the write lock
    allowed: set<NodeId>,
    answers: seq<Answer>)
  {
    predicate Locked() { snapshot.Reading? || inserting }
  }

  const START := State({}, {}, false, [], NotYet, {}, false, {}, [])

  datatype Action =
    | Subscribe
    | Insert(key: string, delivered: bool)
    | Up(peer: NodeId, delivered: bool)
    | Other(event: LiveEvent)
    | List | Lock | ReadEntry(key: string, readable: bool) | Unlock
    | LockForItem | Handle
    | Connect(peer: NodeId)

  /** The event task takes the lock only for an item that adds a peer. */
  predicate Enabled(valid: NodeId -> bool, s: State, a: Action) {
    match a
    case Subscribe => !s.subscribed
    case Insert(_, _) => true
    case Up(_, _) => s.subscribed
    case Other(event) => s.subscribed && !event.InsertRemote? && !event.NeighborUp?
    case List => s.subscribed && s.snapshot.NotYet?
    case Lock => s.snapshot.Queried?
    case ReadEntry(key, _) => s.snapshot.Reading? && key in s.pending
    case Unlock => s.snapshot.Reading? && s.pending == {}
    case LockForItem =>
      s.snapshot.Taken? && !s.inserting && s.queue != [] && PeersOfItem(valid, s.queue[0]) != {}
    case Handle =>
      s.snapshot.Taken? && s.queue != [] && (s.inserting <==> PeersOfItem(valid, s.queue[0]) != {})
    case Connect(_) => true
  }

  function Offer(s: State, event: LiveEvent, delivered: bool): State {
    if s.subscribed then s.(queue := s.queue + [if delivered then Good(event) else Bad]) else s
  }

  function Apply(valid: NodeId -> bool, s: State, a: Action): State
    requires Enabled(valid, s, a)
  {
    match a
    case Subscribe => s.(subscribed := true)
    case Insert(key, delivered) => Offer(s.(replica := s.replica + {key}), InsertRemote(key), delivered)
    case Up(peer, delivered) => Offer(s.(neighbors := s.neighbors + {peer}), NeighborUp(peer), delivered)
    case Other(event) => Offer(s, event, true)
    case List => s.(snapshot := Queried, pending := s.replica)
    case Lock => s.(snapshot := Reading)
    case ReadEntry(key, readable) =>
      s.(pending := s.pending - {key}, allowed := s.allowed + if readable then PeersOfKeys(valid, {key}) else {})
    case Unlock => s.(snapshot := Taken)
    case LockForItem => s.(inserting := true)
    case Handle =>
      s.(queue := s.queue[1..], allowed := s.allowed + PeersOfItem(valid, s.queue[0]), inserting := false)
    case Connect(peer) => s.(answers := s.answers + [Answer(peer, Grants(s.Locked(), s.allowed, peer))])
  }

  predicate Legal(valid: NodeId -> bool, s: State, acts: seq<Action>)
    decreases |acts|
  {
    acts == [] || (Enabled(valid, s, acts[0]) && Legal(valid, Apply(valid, s, acts[0]), acts[1..]))
  }

  function After(valid: NodeId -> bool, s: State, acts: seq<Action>): State
    requires Legal(valid, s, acts)
    decreases |acts|
  {
    if acts == [] then s else After(valid, Apply(valid, s, acts[0]), acts[1..])
  }

  predicate Faultless(a: Action) {
    match a
    case Insert(_, delivered) => delivered
    case Up(_, delivered) => delivered
    case ReadEntry(_, readable) => readable
    case _ => true
  }

  /** The peers that may be let through: owners of received keys and peers reported up. */
  function Entitled(valid: NodeId -> bool, s: State): set<NodeId> { PeersOfKeys(valid, s.replica) + s.neighbors }

  ghost predicate Sound(valid: NodeId -> bool, s: State) {
    && s.allowed <= Entitled(valid, s)
    && (forall item :: item in s.queue ==> PeersOfItem(valid, item) <= Entitled(valid, s))
    && s.pending <= s.replica
    && (!s.snapshot.NotYet? ==> s.subscribed)
    && (s.snapshot.Taken? ==> s.pending == {})
    && (s.inserting ==> s.snapshot.Taken? && s.queue != [] && PeersOfItem(valid, s.queue[0]) != {})
    && (s.snapshot.NotYet? || s.snapshot.Queried? ==> s.allowed == {})
  }

  ghost predicate Complete(valid: NodeId -> bool, s: State) {
    && (!s.snapshot.NotYet? ==> forall key :: key in s.replica && PeerOfKey(valid, key).Some? ==>
          PeerOfKey(valid, key).value in s.allowed || Good(InsertRemote(key)) in s.queue || key in s.pending)
    && (forall peer :: peer in s.neighbors ==> peer in s.allowed || Good(NeighborUp(peer)) in s.queue)
  }

  lemma EntitledGrows(valid: NodeId -> bool, s: State, a: Action)
    requires Enabled(valid, s, a)
    ensures Entitled(valid, s) <= Entitled(valid, Apply(valid, s, a))
    ensures a.Insert? ==> PeersOfKeys(valid, {a.key}) <= Entitled(valid, Apply(valid, s, a))
    ensures a.Up? ==> a.peer in Entitled(valid, Apply(valid, s, a))
    ensures a.ReadEntry? && s.pending <= s.replica ==> PeersOfKeys(valid, {a.key}) <= Entitled(valid, s)
  {
    assert PeersOfKeys(valid, s.replica) <= PeersOfKeys(valid, Apply(valid, s, a).replica);
  }

  lemma StepKeepsSound(valid: NodeId -> bool, s: State, a: Action)
    requires Sound(valid, s) && Enabled(valid, s, a)
    ensures Sound(valid, Apply(valid, s, a)) && s.allowed <= Apply(valid, s, a).allowed
  {
    var t := Apply(valid, s, a);
    EntitledGrows(valid, s, a);
    forall item | item in t.queue
      ensures PeersOfItem(valid, item) <= Entitled(valid, t)
    {
      assert item in s.queue || t.queue == s.queue + [item];
    }
  }

  lemma QueueKeepsOthers(s: seq<Item>, item: Item)
    requires s != [] && item in s
    ensures item == s[0] || item in s[1..]
  {
    assert s == [s[0]] + s[1..];
  }

  lemma StepKeepsComplete(valid: NodeId -> bool, s: State, a: Action)
    requires Sound(valid, s) && Complete(valid, s) && Enabled(valid, s, a) && Faultless(a)
    ensures Complete(valid, Apply(valid, s, a))
  {
    var t := Apply(valid, s, a);
    if a.ReadEntry? {
      assert a.key in {a.key};
    } else if a.Handle? {
      forall item | item in s.queue
        ensures item == s.queue[0] || item in t.queue
      {
        QueueKeepsOthers(s.queue, item);
      }
      match s.queue[0]
      case Good(InsertRemote(key)) => assert key in {key};
      case _ =>
    } else if a.Insert? && s.subscribed {
      assert t.queue[|s.queue|] == Good(InsertRemote(a.key));
    } else if a.Up? {
      assert t.queue[|s.queue|] == Good(NeighborUp(a.peer));
    }
  }

  /** The set only grows, and holds nothing but owners of received keys and peers reported up. */
  lemma {:induction false} AllowedGrowsAndIsSound(valid: NodeId -> bool, s: State, acts: seq<Action>)
    requires Sound(valid, s) && Legal(valid, s, acts)
    ensures Sound(valid, After(valid, s, acts)) && s.allowed <= After(valid, s, acts).allowed
    decreases |acts|
  {
    if acts != [] {
      StepKeepsSound(valid, s, acts[0]);
      AllowedGrowsAndIsSound(valid, Apply(valid, s, acts[0]), acts[1..]);
    }
  }

  lemma {:induction false} FaultlessStaysComplete(valid: NodeId -> bool, s: State, acts: seq<Action>)
    requires Sound(valid, s) && Complete(valid, s) && Legal(valid, s, acts)
    requires forall i :: 0 <= i < |acts| ==> Faultless(acts[i])
    ensures Complete(valid, After(valid, s, acts))
    decreases |acts|
  {
    if acts != [] {
      StepKeepsSound(valid, s, acts[0]);
      StepKeepsComplete(valid, s, acts[0]);
      FaultlessStaysComplete(valid, Apply(valid, s, acts[0]), acts[1..]);
    }
  }

  lemma NothingPendingMeansExact(valid: NodeId -> bool, s: State)
    requires Sound(valid, s) && Complete(valid, s) && s.snapshot.Taken? && s.queue == []
    ensures s.allowed == Entitled(valid, s)
  {
    forall peer | peer in PeersOfKeys(valid, s.replica)
      ensures peer in s.allowed
    {
      var key :| key in s.replica && PeerOfKey(valid, key) == Some(peer);
    }
  }

  /** Once the snapshot is read and the events are drained without a fault, the set is exact. */
  lemma DrainedIndexIsExact(valid: NodeId -> bool, acts: seq<Action>)
    requires Legal(valid, START, acts) && forall i :: 0 <= i < |acts| ==> Faultless(acts[i])
    requires After(valid, START, acts).snapshot.Taken? && After(valid, START, acts).queue == []
    ensures
      var s := After(valid, START, acts);
      s.allowed == PeersOfKeys(valid, s.replica) + s.neighbors
  {
    AllowedGrowsAndIsSound(valid, START, acts);
    FaultlessStaysComplete(valid, START, acts);
    NothingPendingMeansExact(valid, After(valid, START, acts));
  }

  ghost predicate OwnsKeyOrIsUp(valid: NodeId -> bool, s: State, peer: NodeId) {
    (|peer| == 32 && valid(peer) && KeyOf(peer) in s.replica) || peer in s.neighbors
  }

  lemma EntitledIffOwnsKeyOrIsUp(valid: NodeId -> bool, s: State, peer: NodeId)
    ensures peer in Entitled(valid, s) <==> OwnsKeyOrIsUp(valid, s, peer)
  {
    if peer in PeersOfKeys(valid, s.replica) {
      var key :| key in s.replica && PeerOfKey(valid, key) == Some(peer);
      PeerOfKeyIsExact(valid, key, peer);
    }
    PeerOfKeyIsExact(valid, KeyOf(peer), peer);
  }

  /** Every member of the set owns a key this node received from another, or was reported up. */
  lemma AllowedIsMember(valid: NodeId -> bool, acts: seq<Action>, peer: NodeId)
    requires Legal(valid, START, acts) && peer in After(valid, START, acts).allowed
    ensures
      var s := After(valid, START, acts);
      OwnsKeyOrIsUp(valid, s, peer)
  {
    AllowedGrowsAndIsSound(valid, START, acts);
    EntitledIffOwnsKeyOrIsUp(valid, After(valid, START, acts), peer);
  }

  // ----- what the access check answers over a whole run -----

  lemma {:induction false} Cut(valid: NodeId -> bool, s: State, acts: seq<Action>, k: nat)
    requires Legal(valid, s, acts) && k <= |acts|
    ensures Legal(valid, s, acts[..k]) && Legal(valid, After(valid, s, acts[..k]), acts[k..])
    ensures After(valid, s, acts) == After(valid, After(valid, s, acts[..k]), acts[k..])
    decreases |acts|
  {
    if k == 0 {
      assert acts[..0] == [] && acts[0..] == acts;
    } else {
      Cut(valid, Apply(valid, s, acts[0]), acts[1..], k - 1);
      assert acts[..k][1..] == acts[1..][..k - 1];
      assert acts[1..][k - 1..] == acts[k..];
    }
  }

  lemma {:induction false} AnswersStand(valid: NodeId -> bool, s: State, acts: seq<Action>)
    requires Legal(valid, s, acts)
    ensures s.answers <= After(valid, s, acts).answers
    decreases |acts|
  {
    if acts != [] {
      AnswersStand(valid, Apply(valid, s, acts[0]), acts[1..]);
    }
  }

  /** The step that gave answer `n`. */
  lemma {:induction false} StepOfAnswer(valid: NodeId -> bool, s: State, acts: seq<Action>, n: nat) returns (k: nat)
    requires Legal(valid, s, acts) && |s.answers| <= n < |After(valid, s, acts).answers|
    ensures k < |acts| && Legal(valid, s, acts[..k])
    ensures
      var at := After(valid, s, acts[..k]);
      var answer := After(valid, s, acts).answers[n];
      && |at.answers| == n && acts[k] == Connect(answer.peer)
      && answer.granted == Grants(at.Locked(), at.allowed, answer.peer)
    decreases |acts|
  {
    var t := Apply(valid, s, acts[0]);
    if acts[0].Connect? && |s.answers| == n {
      k := 0;
      AnswersStand(valid, t, acts[1..]);
    } else {
      var rest := StepOfAnswer(valid, t, acts[1..], n);
      k := rest + 1;
      assert acts[..k][1..] == acts[1..][..rest];
    }
  }

  /**
   Every answer of every run was given at a step at which its reason held. A
   grant needs the snapshot to be read to its end, no insertion under way, and a
   peer that owned a received key or had been reported up by then; once the
   events so far are drained without a fault, every such peer is granted.
   */
  lemma GrantsAreEarned(valid: NodeId -> bool, acts: seq<Action>, n: nat) returns (k: nat)
    requires Legal(valid, START, acts) && n < |After(valid, START, acts).answers|
    ensures k < |acts| && Legal(valid, START, acts[..k])
    ensures
      var at := After(valid, START, acts[..k]);
      var answer := After(valid, START, acts).answers[n];
      && |at.answers| == n && acts[k] == Connect(answer.peer)
      && (answer.granted ==> at.snapshot.Taken? && !at.inserting && OwnsKeyOrIsUp(valid, at, answer.peer))
      && (at.snapshot.Taken? && at.queue == [] && (forall i :: 0 <= i < k ==> Faultless(acts[i])) ==>
            (answer.granted <==> OwnsKeyOrIsUp(valid, at, answer.peer)))
  {
    k := StepOfAnswer(valid, START, acts, n);
    var at := After(valid, START, acts[..k]);
    var peer := After(valid, START, acts).answers[n].peer;
    AllowedGrowsAndIsSound(valid, START, acts[..k]);
    EntitledIffOwnsKeyOrIsUp(valid, at, peer);
    if at.snapshot.Taken? && at.queue == [] && forall i :: 0 <= i < k ==> Faultless(acts[i]) {
      DrainedIndexIsExact(valid, acts[..k]);
    }
  }

  /** Whoever was granted once is denied later exactly while the lock is held. */
  lemma GrantedOnceDeniedOnlyByTheLock(valid: NodeId -> bool, acts: seq<Action>, j: nat, k: nat, peer: NodeId)
    requires Legal(valid, START, acts) && j <= k <= |acts|
    ensures Legal(valid, START, acts[..j]) && Legal(valid, START, acts[..k])
    ensures
      var was, now := After(valid, START, acts[..j]), After(valid, START, acts[..k]);
      Grants(was.Locked(), was.allowed, peer) ==> (Grants(now.Locked(), now.allowed, peer) <==> !now.Locked())
  {
    Cut(valid, START, acts, k);
    Cut(valid, START, acts[..k], j);
    assert acts[..k][..j] == acts[..j];
    AllowedGrowsAndIsSound(valid, START, acts[..j]);
    AllowedGrowsAndIsSound(valid, After(valid, START, acts[..j]), acts[..k][j..]);
  }

  // ----- which events of a run let a peer in -----

  ghost predicate CameIn(acts: seq<Action>, key: string) { exists j :: 0 <= j < |acts| && IsInsertOf(acts[j], key) }

  ghost predicate CameUp(acts: seq<Action>, peer: NodeId) { exists j :: 0 <= j < |acts| && IsUpOf(acts[j], peer) }

  predicate IsInsertOf(a: Action, key: string) { a.Insert? && a.key == key }

  predicate IsUpOf(a: Action, peer: NodeId) { a.Up? && a.peer == peer }

  lemma FirstAndRest(acts: seq<Action>, key: string, peer: NodeId)
    requires acts != []
    ensures CameIn(acts, key) <==> IsInsertOf(acts[0], key) || CameIn(acts[1..], key)
    ensures CameUp(acts, peer) <==> IsUpOf(acts[0], peer) || CameUp(acts[1..], peer)
  {
    var rest := acts[1..];
    assert forall j :: 0 <= j < |rest| ==> rest[j] == acts[j + 1];
    assert forall j :: 1 <= j < |acts| ==> acts[j] == rest[j - 1];
  }

  lemma {:induction false} HistoryOf(valid: NodeId -> bool, s: State, acts: seq<Action>, key: string, peer: NodeId)
    requires Legal(valid, s, acts)
    ensures key in After(valid, s, acts).replica <==> key in s.replica || CameIn(acts, key)
    ensures peer in After(valid, s, acts).neighbors <==> peer in s.neighbors || CameUp(acts, peer)
    decreases |acts|
  {
    if acts != [] {
      FirstAndRest(acts, key, peer);
      HistoryOf(valid, Apply(valid, s, acts[0]), acts[1..], key, peer);
    }
  }

  /**
   A peer whose key never came in, such as a Mission Control, which writes none,
   is granted only after it was reported up; once the events so far are drained
   without a fault it is granted exactly if it was.
   */
  lemma StrangerIsGrantedOnlyOnceUp(valid: NodeId -> bool, acts: seq<Action>, n: nat) returns (k: nat)
    requires Legal(valid, START, acts) && n < |After(valid, START, acts).answers|
    requires !CameIn(acts, KeyOf(After(valid, START, acts).answers[n].peer))
    ensures k < |acts| && Legal(valid, START, acts[..k])
    ensures
      var at := After(valid, START, acts[..k]);
      var answer := After(valid, START, acts).answers[n];
      && |at.answers| == n && acts[k] == Connect(answer.peer)
      && (answer.granted ==> CameUp(acts[..k], answer.peer))
      && (at.snapshot.Taken? && at.queue == [] && (forall i :: 0 <= i < k ==> Faultless(acts[i])) ==>
            (answer.granted <==> CameUp(acts[..k], answer.peer)))
  {
    k := GrantsAreEarned(valid, acts, n);
    var peer := After(valid, START, acts).answers[n].peer;
    HistoryOf(valid, START, acts[..k], KeyOf(peer), peer);
    assert forall j :: 0 <= j < k ==> acts[..k][j] == acts[j];
    assert !CameIn(acts[..k], KeyOf(peer));
  }

  lemma Then(valid: NodeId -> bool, s: State, a: Action, rest: seq<Action>) returns (acts: seq<Action>)
    requires Enabled(valid, s, a) && Legal(valid, Apply(valid, s, a), rest)
    ensures Legal(valid, s, acts) && After(valid, s, acts) == After(valid, Apply(valid, s, a), rest)
    ensures AllFaultless(rest) && Faultless(a) ==> AllFaultless(acts)
    ensures AllCalm(rest) && Calm(a) ==> AllCalm(acts)
  {
    acts := [a] + rest;
    assert acts[1..] == rest;
  }

  ghost predicate AllFaultless(acts: seq<Action>) { forall i :: 0 <= i < |acts| ==> Faultless(acts[i]) }

  /** So a member can be denied although nothing went wrong and nothing is pending: nobody has reported it up. */
  lemma MemberMayBeDenied(valid: NodeId -> bool, peer: NodeId) returns (acts: seq<Action>)
    ensures Legal(valid, START, acts) && AllFaultless(acts)
    ensures
      var s := After(valid, START, acts);
      s.snapshot.Taken? && s.queue == [] && !s.Locked() && s.answers == [Answer(peer, false)]
  {
    var s1 := Apply(valid, START, Subscribe);
    var s2 := Apply(valid, s1, List);
    var s3 := Apply(valid, s2, Lock);
    var s4 := Apply(valid, s3, Unlock);
    acts := Then(valid, s4, Connect(peer), []);
    acts := Then(valid, s3, Unlock, acts);
    acts := Then(valid, s2, Lock, acts);
    acts := Then(valid, s1, List, acts);
    acts := Then(valid, START, Subscribe, acts);
  }

  // ----- who can still get in -----

  /** What the satellite does by itself, with nothing new coming in and every entry readable. */
  predicate Calm(a: Action) { !a.Insert? && !a.Up? && !a.Other? && !a.Connect? && Faultless(a) }

  ghost predicate AllCalm(acts: seq<Action>) { forall i :: 0 <= i < |acts| ==> Calm(acts[i]) }

  ghost predicate BringsNobody(acts: seq<Action>) {
    forall i :: 0 <= i < |acts| ==> !acts[i].Insert? && !acts[i].Up?
  }

  /** Something the satellite has not lost yet names the peer. */
  ghost predicate CanCome(valid: NodeId -> bool, s: State, peer: NodeId) {
    || peer in s.allowed
    || (exists item :: item in s.queue && peer in PeersOfItem(valid, item))
    || peer in PeersOfKeys(valid, s.pending)
    || (s.snapshot.NotYet? && peer in PeersOfKeys(valid, s.replica))
  }

  lemma PeersOfKeysSplit(valid: NodeId -> bool, keys: set<string>, key: string)
    requires key in keys
    ensures PeersOfKeys(valid, keys) == PeersOfKeys(valid, keys - {key}) + PeersOfKeys(valid, {key})
  {
    assert keys == (keys - {key}) + {key};
  }

  lemma HandlingKeepsCanCome(valid: NodeId -> bool, s: State, peer: NodeId)
    requires Enabled(valid, s, Handle)
    ensures CanCome(valid, Apply(valid, s, Handle), peer) <==> CanCome(valid, s, peer)
  {
    assert s.queue == [s.queue[0]] + s.queue[1..];
    assert forall item :: item in s.queue <==> item == s.queue[0] || item in s.queue[1..];
  }

  lemma ReadingKeepsCanCome(valid: NodeId -> bool, s: State, key: string, readable: bool, peer: NodeId)
    requires Enabled(valid, s, ReadEntry(key, readable))
    ensures CanCome(valid, Apply(valid, s, ReadEntry(key, readable)), peer) ==> CanCome(valid, s, peer)
    ensures readable && CanCome(valid, s, peer) ==> CanCome(valid, Apply(valid, s, ReadEntry(key, readable)), peer)
  {
    PeersOfKeysSplit(valid, s.pending, key);
  }

  lemma OtherKeepsCanCome(valid: NodeId -> bool, s: State, event: LiveEvent, peer: NodeId)
    requires Enabled(valid, s, Other(event))
    ensures CanCome(valid, Apply(valid, s, Other(event)), peer) ==> CanCome(valid, s, peer)
  {
    var t := Apply(valid, s, Other(event));
    assert forall item :: item in t.queue ==> item in s.queue || PeersOfItem(valid, item) == {};
  }

  lemma StepAndCanCome(valid: NodeId -> bool, s: State, a: Action, peer: NodeId)
    requires Sound(valid, s) && Enabled(valid, s, a) && !a.Insert? && !a.Up?
    ensures CanCome(valid, Apply(valid, s, a), peer) ==> CanCome(valid, s, peer)
    ensures Calm(a) && CanCome(valid, s, peer) ==> CanCome(valid, Apply(valid, s, a), peer)
  {
    match a
    case Handle => HandlingKeepsCanCome(valid, s, peer);
    case ReadEntry(key, readable) => ReadingKeepsCanCome(valid, s, key, readable, peer);
    case Other(event) => OtherKeepsCanCome(valid, s, event, peer);
    case _ =>
  }

  lemma {:induction false} RunAndCanCome(valid: NodeId -> bool, s: State, acts: seq<Action>, peer: NodeId)
    requires Sound(valid, s) && Legal(valid, s, acts) && BringsNobody(acts)
    ensures CanCome(valid, After(valid, s, acts), peer) ==> CanCome(valid, s, peer)
    ensures AllCalm(acts) && CanCome(valid, s, peer) ==> CanCome(valid, After(valid, s, acts), peer)
    decreases |acts|
  {
    if acts != [] {
      StepKeepsSound(valid, s, acts[0]);
      StepAndCanCome(valid, s, acts[0], peer);
      assert forall i :: 1 <= i < |acts| ==> acts[i] == acts[1..][i - 1];
      RunAndCanCome(valid, Apply(valid, s, acts[0]), acts[1..], peer);
    }
  }

  ghost predicate Settled(s: State) { s.snapshot.Taken? && s.queue == [] && !s.Locked() }

  /** Steps left until the snapshot is read and every item is handled. */
  ghost function StepsLeft(s: State): nat {
    (if s.subscribed then 0 else 1)
    + (match s.snapshot
       case NotYet => 3 + |s.replica|
       case Queried => 2 + |s.pending|
       case Reading => 1 + |s.pending|
       case Taken => 0)
    + 2 * |s.queue| + (if s.inserting then 0 else 1)
  }

  ghost function NextCalm(valid: NodeId -> bool, s: State): Action
    requires Sound(valid, s) && !Settled(s)
    ensures Enabled(valid, s, NextCalm(valid, s)) && Calm(NextCalm(valid, s))
  {
    if !s.subscribed then Subscribe
    else match s.snapshot
      case NotYet => List
      case Queried => Lock
      case Reading =>
        if s.pending == {} then Unlock
        else
          var key :| key in s.pending;
          ReadEntry(key, true)
      case Taken => if !s.inserting && PeersOfItem(valid, s.queue[0]) != {} then LockForItem else Handle
  }

  lemma NextCalmAdvances(valid: NodeId -> bool, s: State)
    requires Sound(valid, s) && !Settled(s)
    ensures StepsLeft(Apply(valid, s, NextCalm(valid, s))) < StepsLeft(s)
  {
  }

  /** Left alone, the satellite reads the snapshot, handles every item and frees the lock. */
  lemma {:induction false} Settle(valid: NodeId -> bool, s: State) returns (acts: seq<Action>)
    requires Sound(valid, s)
    ensures Legal(valid, s, acts) && AllCalm(acts) && Settled(After(valid, s, acts))
    decreases StepsLeft(s)
  {
    acts := [];
    if !Settled(s) {
      var a := NextCalm(valid, s);
      StepKeepsSound(valid, s, a);
      NextCalmAdvances(valid, s);
      var rest := Settle(valid, Apply(valid, s, a));
      acts := Then(valid, s, a, rest);
    }
  }

  /**
   Who can still be let in when nothing new comes in: from any state of any run a
   continuation exists in which a peer is granted, if and only if an entry still
   to be read, an event still to be handled, or the set itself names it.
   */
  lemma GrantableIffCanCome(valid: NodeId -> bool, before: seq<Action>, peer: NodeId)
    requires Legal(valid, START, before)
    ensures
      var s := After(valid, START, before);
      CanCome(valid, s, peer) <==>
        exists acts :: Legal(valid, s, acts) && BringsNobody(acts)
                       && Grants(After(valid, s, acts).Locked(), After(valid, s, acts).allowed, peer)
  {
    var s := After(valid, START, before);
    AllowedGrowsAndIsSound(valid, START, before);
    forall acts | Legal(valid, s, acts) && BringsNobody(acts)
                  && Grants(After(valid, s, acts).Locked(), After(valid, s, acts).allowed, peer)
      ensures CanCome(valid, s, peer)
    {
      RunAndCanCome(valid, s, acts, peer);
    }
    if CanCome(valid, s, peer) {
      var acts := Settle(valid, s);
      RunAndCanCome(valid, s, acts, peer);
      AllowedGrowsAndIsSound(valid, s, acts);
      assert Grants(After(valid, s, acts).Locked(), After(valid, s, acts).allowed, peer);
    }
  }

  /** In a faultless run every owner of a received key and every peer reported up can still be granted. */
  lemma EntitledCanBeGranted(valid: NodeId -> bool, before: seq<Action>, peer: NodeId) returns (acts: seq<Action>)
    requires Legal(valid, START, before) && AllFaultless(before)
    requires OwnsKeyOrIsUp(valid, After(valid, START, before), peer)
    ensures Legal(valid, After(valid, START, before), acts) && AllCalm(acts)
    ensures
      var t := After(valid, After(valid, START, before), acts);
      Grants(t.Locked(), t.allowed, peer)
  {
    var s := After(valid, START, before);
    AllowedGrowsAndIsSound(valid, START, before);
    FaultlessStaysComplete(valid, START, before);
    EntitledIffOwnsKeyOrIsUp(valid, s, peer);
    EntitledCanCome(valid, s, peer);
    acts := Settle(valid, s);
    RunAndCanCome(valid, s, acts, peer);
    AllowedGrowsAndIsSound(valid, s, acts);
  }

  lemma EntitledCanCome(valid: NodeId -> bool, s: State, peer: NodeId)
    requires Complete(valid, s) && peer in Entitled(valid, s)
    ensures CanCome(valid, s, peer)
  {
    if peer in s.neighbors {
      assert peer in s.allowed || Good(NeighborUp(peer)) in s.queue;
    } else {
      var key :| key in s.replica && PeerOfKey(valid, key) == Some(peer);
      assert key in {key};
      if Good(InsertRemote(key)) in s.queue {
        assert peer in PeersOfItem(valid, Good(InsertRemote(key)));
      }
    }
  }
}
