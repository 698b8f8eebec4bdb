/** Waiting for the initial Doc sync: two implementations over one event stream. */
module Events {
  import opened Entries
  import opened Picking

  datatype LiveEvent =
    | InsertLocal | InsertRemote(key: string) | ContentReady | PendingContentReady
    | NeighborUp(peer: NodeId) | NeighborDown(peer: NodeId) | SyncFinished

  /** One item of a subscription stream. */
  datatype Item = Good(event: LiveEvent) | Bad

  /** A PendingContentReady comes after a SyncFinished. */
  ghost predicate Synced(items: seq<Item>) {
    exists i, j :: 0 <= i < j < |items| && items[i] == Good(SyncFinished) && items[j] == Good(PendingContentReady)
  }

  /** `n` items are the shortest synced prefix, or the whole stream if there is none. */
  ghost predicate StopsAt(items: seq<Item>, n: nat) {
    && n <= |items|
    && (forall m :: 0 <= m < n ==> !Synced(items[..m]))
    && (n == |items| || Synced(items[..n]))
  }

  /** The index at which waiting stops, looked for from `m` on. */
  ghost function StopFrom(items: seq<Item>, m: nat): nat
    requires m <= |items|
    decreases |items| - m
  {
    if m == |items| || Synced(items[..m]) then m else StopFrom(items, m + 1)
  }

  ghost function Stop(items: seq<Item>): nat { StopFrom(items, 0) }

  lemma {:induction false} StopFromStops(items: seq<Item>, m: nat)
    requires m <= |items| && forall k :: 0 <= k < m ==> !Synced(items[..k])
    ensures StopsAt(items, StopFrom(items, m))
    decreases |items| - m
  {
    if m < |items| && !Synced(items[..m]) {
      StopFromStops(items, m + 1);
    }
  }

  /** There is exactly one such index. */
  lemma StopIsUnique(items: seq<Item>, n: nat)
    ensures StopsAt(items, n) <==> n == Stop(items)
  {
    StopFromStops(items, 0);
  }

  function GoodEvents(items: seq<Item>): seq<LiveEvent> {
    if items == [] then []
    else GoodEvents(items[..|items| - 1]) + (if items[|items| - 1].Good? then [items[|items| - 1].event] else [])
  }

  lemma NotSyncedYet(items: seq<Item>, i: nat, gotSyncFinished: bool)
    requires i < |items| && !Synced(items[..i])
    requires gotSyncFinished <==> exists k :: 0 <= k < i && items[k] == Good(SyncFinished)
    ensures Synced(items[..i + 1]) <==> gotSyncFinished && items[i] == Good(PendingContentReady)
  {
    var next := items[..i + 1];
    assert forall k :: 0 <= k < i ==> next[k] == items[..i][k];
    if gotSyncFinished && items[i] == Good(PendingContentReady) {
      var k :| 0 <= k < i && items[k] == Good(SyncFinished);
      assert next[k] == Good(SyncFinished) && next[i] == Good(PendingContentReady);
    }
  }

  /** `mission_control::wait_for_sync`; `buffered` is the stream it hands back. */
  method MissionControlWait(items: seq<Item>) returns (buffered: seq<LiveEvent>, consumed: nat)
    ensures StopsAt(items, consumed) && consumed == Stop(items)
    ensures buffered == GoodEvents(items[..consumed])
  {
    StopIsUnique(items, Stop(items));
    buffered, consumed := [], 0;
    var gotSyncFinished := false;
    while consumed < |items|
      invariant consumed <= |items|
      invariant buffered == GoodEvents(items[..consumed])
      invariant gotSyncFinished <==> exists k :: 0 <= k < consumed && items[k] == Good(SyncFinished)
      invariant forall m :: 0 <= m <= consumed ==> !Synced(items[..m])
    {
      var item := items[consumed];
      NotSyncedYet(items, consumed, gotSyncFinished);
      assert items[..consumed + 1][..consumed] == items[..consumed];
      consumed := consumed + 1;
      match item {
        case Good(event) =>
          match event {
            case SyncFinished => gotSyncFinished := true;
            case PendingContentReady =>
              if gotSyncFinished {
                buffered := buffered + [event];
                return;
              }
            case _ =>
          }
          buffered := buffered + [event];
        case Bad =>
      }
    }
  }

  /** `fleet::wait_for_sync`. */
  method FleetWait(items: seq<Item>) returns (consumed: nat)
    ensures StopsAt(items, consumed) && consumed == Stop(items)
  {
    StopIsUnique(items, Stop(items));
    consumed := 0;
    var gotSyncFinished := false;
    while consumed < |items|
      invariant consumed <= |items|
      invariant gotSyncFinished <==> exists k :: 0 <= k < consumed && items[k] == Good(SyncFinished)
      invariant forall m :: 0 <= m <= consumed ==> !Synced(items[..m])
    {
      var item := items[consumed];
      NotSyncedYet(items, consumed, gotSyncFinished);
      consumed := consumed + 1;
      if item == Good(SyncFinished) {
        gotSyncFinished := true;
      } else if item == Good(PendingContentReady) {
        if gotSyncFinished {
          break;
        }
      }
    }
  }

  lemma {:induction false} GoodEventsSplit(items: seq<Item>, n: nat)
    requires n <= |items|
    ensures GoodEvents(items) == GoodEvents(items[..n]) + GoodEvents(items[n..])
  {
    if n == |items| {
      assert items[..n] == items && items[n..] == [];
    } else {
      var init := items[..|items| - 1];
      GoodEventsSplit(init, n);
      assert init[..n] == items[..n];
      assert items[n..][..|items[n..]| - 1] == init[n..];
    }
  }

  /**
   The stream Mission Control monitors afterwards is what it had already read.
   The remaining stream, which it was meant to be, is exactly what it misses:
   nothing is missed exactly if nothing but errors follows the initial sync.
   */
  lemma MonitorSeesOnlyTheSync(items: seq<Item>)
    ensures Stop(items) <= |items|
    ensures
      var monitored, remaining := GoodEvents(items[..Stop(items)]), GoodEvents(items[Stop(items)..]);
      && GoodEvents(items) == monitored + remaining
      && (monitored == GoodEvents(items) <==> remaining == [])
      && (remaining == [] <==> forall i :: Stop(items) <= i < |items| ==> items[i].Bad?)
  {
    StopIsUnique(items, Stop(items));
    GoodEventsSplit(items, Stop(items));
    NoGoodEventsFrom(items, Stop(items));
  }

  lemma NoGoodEventsFrom(items: seq<Item>, n: nat)
    requires n <= |items|
    ensures GoodEvents(items[n..]) == [] <==> forall i :: n <= i < |items| ==> items[i].Bad?
  {
    var rest := items[n..];
    NoGoodEvents(rest);
    assert forall i :: n <= i < |items| ==> items[i] == rest[i - n];
    assert forall i :: 0 <= i < |rest| ==> rest[i] == items[n + i];
  }

  lemma {:induction false} NoGoodEvents(items: seq<Item>)
    ensures GoodEvents(items) == [] <==> forall i :: 0 <= i < |items| ==> items[i].Bad?
  {
    if items != [] {
      var front := items[..|items| - 1];
      NoGoodEvents(front);
      assert forall i :: 0 <= i < |front| ==> front[i] == items[i];
    }
  }

  /** Dropping the errors keeps every event once and in order. */
  lemma {:induction false} GoodEventsInOrder(items: seq<Item>) returns (at: seq<nat>)
    ensures Picks(items, (item: Item) => item.Good?, at)
    ensures |GoodEvents(items)| == |at| && forall k :: 0 <= k < |at| ==> items[at[k]] == Good(GoodEvents(items)[k])
  {
    at := [];
    if items != [] {
      var front, last := items[..|items| - 1], items[|items| - 1];
      at := GoodEventsInOrder(front);
      assert items == front + [last];
      at := PickNext(front, (item: Item) => item.Good?, at, last);
    }
  }
}
