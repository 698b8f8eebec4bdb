/**
 The allowed-peer index read off the history of a run alone: which step may come
 next, and who is in the set. The step system of `Peers` is proved to allow
 exactly these histories.
 */
module PeersHistory {
  import opened Wrappers
  import opened Entries
  import opened Hex
  import opened Events
  import opened Peers

  ghost function Inserted(acts: seq<Action>): set<string> { set a | a in acts && a.Insert? :: a.key }

  ghost function ReportedUp(acts: seq<Action>): set<NodeId> { set a | a in acts && a.Up? :: a.peer }

  /** The keys the replica held when the query was made. */
  ghost function Listed(acts: seq<Action>): set<string> {
    if acts == [] then {}
    else
      var front, a := acts[..|acts| - 1], acts[|acts| - 1];
      if a.List? then Inserted(front) else Listed(front)
  }

  ghost predicate DidRead(acts: seq<Action>, key: string) {
    ReadEntry(key, true) in acts || ReadEntry(key, false) in acts
  }

  ghost function ItemOf(a: Action): Option<Item> {
    match a
    case Insert(key, delivered) => Some(if delivered then Good(InsertRemote(key)) else Bad)
    case Up(peer, delivered) => Some(if delivered then Good(NeighborUp(peer)) else Bad)
    case Other(event) => Some(Good(event))
    case _ => None
  }

  /** What the event stream offers from the subscription on. */
  ghost function Offered(acts: seq<Action>): seq<Item> {
    if acts == [] then []
    else
      var front, a := acts[..|acts| - 1], acts[|acts| - 1];
      Offered(front) + if Subscribe in front && ItemOf(a).Some? then [ItemOf(a).value] else []
  }

  ghost function Handled(acts: seq<Action>): nat {
    if acts == [] then 0 else Handled(acts[..|acts| - 1]) + if acts[|acts| - 1].Handle? then 1 else 0
  }

  /** The event task took the lock and has not handled its item yet. */
  ghost predicate HoldsLock(acts: seq<Action>) {
    acts != [] && var front, a := acts[..|acts| - 1], acts[|acts| - 1];
                  a.LockForItem? || (!a.Handle? && HoldsLock(front))
  }

  ghost predicate NextAdds(valid: NodeId -> bool, acts: seq<Action>)
    requires Handled(acts) < |Offered(acts)|
  {
    PeersOfItem(valid, Offered(acts)[Handled(acts)]) != {}
  }

  /** Whether a step may follow on a history. */
  ghost predicate Due(valid: NodeId -> bool, acts: seq<Action>, a: Action) {
    match a
    case Subscribe => Subscribe !in acts
    case Insert(_, _) => true
    case Up(_, _) => Subscribe in acts
    case Other(event) => Subscribe in acts && !event.InsertRemote? && !event.NeighborUp?
    case List => Subscribe in acts && List !in acts
    case Lock => List in acts && Lock !in acts
    case ReadEntry(key, _) => Lock in acts && key in Listed(acts) && !DidRead(acts, key)
    case Unlock => Lock in acts && Unlock !in acts && forall key :: key in Listed(acts) ==> DidRead(acts, key)
    case LockForItem =>
      Unlock in acts && Handled(acts) < |Offered(acts)| && !HoldsLock(acts) && NextAdds(valid, acts)
    case Handle =>
      Unlock in acts && Handled(acts) < |Offered(acts)| && (HoldsLock(acts) <==> NextAdds(valid, acts))
    case Connect(_) => true
  }

  ghost predicate InOrder(valid: NodeId -> bool, acts: seq<Action>) {
    forall k :: 0 <= k < |acts| ==> Due(valid, acts[..k], acts[k])
  }

  /** A read entry or a handled item named the peer. */
  ghost predicate WasNamed(valid: NodeId -> bool, acts: seq<Action>, peer: NodeId) {
    ReadNamed(valid, acts, peer) || ItemNamed(valid, Offered(acts), Handled(acts), peer)
  }

  ghost predicate ReadNamed(valid: NodeId -> bool, acts: seq<Action>, peer: NodeId) {
    exists key :: ReadEntry(key, true) in acts && PeerOfKey(valid, key) == Some(peer)
  }

  ghost predicate ItemNamed(valid: NodeId -> bool, items: seq<Item>, n: nat, peer: NodeId) {
    exists k :: 0 <= k < n && k < |items| && peer in PeersOfItem(valid, items[k])
  }

  // ----- the step system agrees -----

  ghost predicate SnapshotReads(acts: seq<Action>, s: State) {
    && (s.subscribed <==> Subscribe in acts)
    && (s.snapshot.NotYet? <==> List !in acts)
    && (s.snapshot.Queried? <==> List in acts && Lock !in acts)
    && (s.snapshot.Reading? <==> Lock in acts && Unlock !in acts)
    && (s.snapshot.Taken? <==> Unlock in acts)
    && (Lock in acts ==> List in acts)
    && (Lock !in acts ==> forall key :: !DidRead(acts, key))
    && (List !in acts ==> Listed(acts) == {})
    && (forall key :: key in s.pending <==> key in Listed(acts) && !DidRead(acts, key))
    && (Unlock in acts ==> Lock in acts && s.pending == {})
  }

  ghost predicate QueueReads(acts: seq<Action>, s: State) {
    && Handled(acts) <= |Offered(acts)| && s.queue == Offered(acts)[Handled(acts)..]
    && (s.inserting <==> HoldsLock(acts))
  }

  ghost predicate SetsRead(valid: NodeId -> bool, acts: seq<Action>, s: State) {
    && s.replica == Inserted(acts) && s.neighbors == ReportedUp(acts)
    && forall peer :: peer in s.allowed <==> WasNamed(valid, acts, peer)
  }

  ghost predicate Reads(valid: NodeId -> bool, acts: seq<Action>, s: State) {
    SnapshotReads(acts, s) && QueueReads(acts, s) && SetsRead(valid, acts, s)
  }

  lemma EnabledIffDue(valid: NodeId -> bool, acts: seq<Action>, s: State, a: Action)
    requires Reads(valid, acts, s)
    ensures Peers.Enabled(valid, s, a) <==> Due(valid, acts, a)
  {
    if a.Unlock? && s.snapshot.Reading? {
      assert s.pending == {} <==> forall key :: key in Listed(acts) ==> DidRead(acts, key);
    }
  }

  lemma HistoryGrows(acts: seq<Action>, a: Action)
    ensures forall b :: b in acts + [a] <==> b in acts || a == b
    ensures forall key :: DidRead(acts + [a], key) <==> DidRead(acts, key) || (a.ReadEntry? && a.key == key)
    ensures Listed(acts + [a]) == if a.List? then Inserted(acts) else Listed(acts)
    ensures Offered(acts + [a]) ==
              Offered(acts) + if Subscribe in acts && ItemOf(a).Some? then [ItemOf(a).value] else []
    ensures Handled(acts + [a]) == Handled(acts) + if a.Handle? then 1 else 0
    ensures HoldsLock(acts + [a]) <==> a.LockForItem? || (!a.Handle? && HoldsLock(acts))
  {
    assert (acts + [a])[..|acts|] == acts;
  }

  lemma StepReadsSnapshot(valid: NodeId -> bool, acts: seq<Action>, s: State, a: Action)
    requires SnapshotReads(acts, s) && s.replica == Inserted(acts) && Peers.Enabled(valid, s, a)
    ensures SnapshotReads(acts + [a], Apply(valid, s, a))
  {
    HistoryGrows(acts, a);
  }

  lemma StepReadsQueue(valid: NodeId -> bool, acts: seq<Action>, s: State, a: Action)
    requires QueueReads(acts, s) && (s.subscribed <==> Subscribe in acts) && Peers.Enabled(valid, s, a)
    ensures QueueReads(acts + [a], Apply(valid, s, a))
  {
    HistoryGrows(acts, a);
  }

  lemma ReadNamedGrows(valid: NodeId -> bool, acts: seq<Action>, a: Action, peer: NodeId)
    ensures ReadNamed(valid, acts + [a], peer) <==>
              ReadNamed(valid, acts, peer) || (a.ReadEntry? && a.readable && PeerOfKey(valid, a.key) == Some(peer))
  {
    HistoryGrows(acts, a);
    if a.ReadEntry? && a.readable && PeerOfKey(valid, a.key) == Some(peer) {
      assert ReadEntry(a.key, true) in acts + [a];
    }
    if ReadNamed(valid, acts, peer) {
      var key :| ReadEntry(key, true) in acts && PeerOfKey(valid, key) == Some(peer);
      assert ReadEntry(key, true) in acts + [a];
    }
  }

  lemma ItemNamedGrows(valid: NodeId -> bool, items: seq<Item>, more: seq<Item>, n: nat, peer: NodeId)
    requires n <= |items|
    ensures ItemNamed(valid, items + more, n, peer) <==> ItemNamed(valid, items, n, peer)
    ensures n < |items| ==>
              (ItemNamed(valid, items + more, n + 1, peer) <==>
                 ItemNamed(valid, items, n, peer) || peer in PeersOfItem(valid, items[n]))
  {
    assert forall k :: 0 <= k < |items| ==> (items + more)[k] == items[k];
  }

  lemma NamedGrows(valid: NodeId -> bool, acts: seq<Action>, a: Action, peer: NodeId)
    requires Handled(acts) <= |Offered(acts)| && (a.Handle? ==> Handled(acts) < |Offered(acts)|)
    ensures WasNamed(valid, acts + [a], peer) <==>
              || WasNamed(valid, acts, peer)
              || (a.ReadEntry? && a.readable && PeerOfKey(valid, a.key) == Some(peer))
              || (a.Handle? && peer in PeersOfItem(valid, Offered(acts)[Handled(acts)]))
  {
    HistoryGrows(acts, a);
    ReadNamedGrows(valid, acts, a, peer);
    var more := if Subscribe in acts && ItemOf(a).Some? then [ItemOf(a).value] else [];
    ItemNamedGrows(valid, Offered(acts), more, Handled(acts), peer);
  }

  lemma StepReadsSets(valid: NodeId -> bool, acts: seq<Action>, s: State, a: Action)
    requires Reads(valid, acts, s) && Peers.Enabled(valid, s, a)
    ensures SetsRead(valid, acts + [a], Apply(valid, s, a))
  {
    HistoryGrows(acts, a);
    var t := Apply(valid, s, a);
    assert t.replica == Inserted(acts + [a]) && t.neighbors == ReportedUp(acts + [a]);
    forall peer
      ensures peer in t.allowed <==> WasNamed(valid, acts + [a], peer)
    {
      NamedGrows(valid, acts, a, peer);
    }
  }

  lemma {:induction false} CutLast(valid: NodeId -> bool, s: State, front: seq<Action>, a: Action)
    ensures Legal(valid, s, front + [a]) <==> Legal(valid, s, front) && Peers.Enabled(valid, After(valid, s, front), a)
    ensures Legal(valid, s, front + [a]) ==>
              After(valid, s, front + [a]) == Apply(valid, After(valid, s, front), a)
    decreases |front|
  {
    var acts := front + [a];
    if front == [] {
      assert acts == [a] && acts[1..] == [];
    } else {
      assert acts[1..] == front[1..] + [a];
      if Peers.Enabled(valid, s, front[0]) {
        CutLast(valid, Apply(valid, s, front[0]), front[1..], a);
      }
    }
  }

  lemma InOrderGrows(valid: NodeId -> bool, acts: seq<Action>, a: Action)
    ensures InOrder(valid, acts + [a]) <==> InOrder(valid, acts) && Due(valid, acts, a)
  {
    var more := acts + [a];
    assert more[..|acts|] == acts && more[|acts|] == a;
    assert forall k :: 0 <= k < |acts| ==> acts[..k] == more[..k] && acts[k] == more[k];
  }

  lemma NothingYet(valid: NodeId -> bool)
    ensures Reads(valid, [], START)
  {
  }

  lemma OneMoreStep(valid: NodeId -> bool, acts: seq<Action>, s: State, a: Action)
    requires Reads(valid, acts, s)
    ensures Peers.Enabled(valid, s, a) <==> Due(valid, acts, a)
    ensures Peers.Enabled(valid, s, a) ==> Reads(valid, acts + [a], Apply(valid, s, a))
  {
    EnabledIffDue(valid, acts, s, a);
    if Peers.Enabled(valid, s, a) {
      StepReadsSnapshot(valid, acts, s, a);
      StepReadsQueue(valid, acts, s, a);
      StepReadsSets(valid, acts, s, a);
    }
  }

  /** The step system and the history agree on what has happened so far. */
  ghost predicate Agrees(valid: NodeId -> bool, s: State, acts: seq<Action>) {
    && (Legal(valid, s, acts) <==> InOrder(valid, acts))
    && (Legal(valid, s, acts) ==> Reads(valid, acts, After(valid, s, acts)))
  }

  lemma AgreesOnOneMore(valid: NodeId -> bool, s: State, front: seq<Action>, a: Action)
    requires Agrees(valid, s, front)
    ensures Agrees(valid, s, front + [a])
  {
    CutLast(valid, s, front, a);
    InOrderGrows(valid, front, a);
    if Legal(valid, s, front) {
      OneMoreStep(valid, front, After(valid, s, front), a);
    }
  }

  lemma {:induction false} AgreesOn(valid: NodeId -> bool, s: State, acts: seq<Action>)
    requires s == START
    ensures Agrees(valid, s, acts)
    decreases |acts|
  {
    if acts == [] {
      NothingYet(valid);
    } else {
      AgreesOn(valid, s, acts[..|acts| - 1]);
      AgreesOnOneMore(valid, s, acts[..|acts| - 1], acts[|acts| - 1]);
      assert acts == acts[..|acts| - 1] + [acts[|acts| - 1]];
    }
  }

  /**
   The step system allows exactly the histories in which every step is due: the
   snapshot lists what had come in when it was queried and is read entry by entry
   under the lock, and the items offered since the subscription are handled one
   by one in order, under the lock if they add somebody. And the set holds
   exactly the peers that a read entry or a handled item named.
   */
  lemma LegalIffInOrder(valid: NodeId -> bool, acts: seq<Action>)
    ensures Legal(valid, START, acts) <==> InOrder(valid, acts)
    ensures Legal(valid, START, acts) ==> Reads(valid, acts, After(valid, START, acts))
  {
    AgreesOn(valid, START, acts);
  }
}
