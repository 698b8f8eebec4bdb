/** Mission Control: reading the Doc, planning one bridge per servable platform, and what the plan guarantees. */
module MissionControl {
  import opened Wrappers
  import opened Entries
  import opened Hex
  import opened Picking
  import opened Platforms
  import opened Selection
  import opened Sockets
  import opened BridgeManagement
  import Constellation
  import opened Polling

  // ----- discovery -----

  /** One result of the Doc query: its blob may be missing, or its bytes may not decode. */
  datatype Listed = ReadError | Listed(key: string, blob: Option<Option<SatelliteEntry>>)

  /** `lossy` stands for `from_utf8_lossy`, which leaves ASCII text as it is. */
  ghost predicate LeavesAscii(lossy: string -> string) { forall s :: Ascii(s) ==> lossy(s) == s }

  function Readable(lossy: string -> string, items: seq<Listed>): Discovered {
    if items == [] then []
    else
      Readable(lossy, items[..|items| - 1]) +
      match items[|items| - 1]
      case Listed(key, Some(Some(entry))) =>
        (match StripPrefix(key)
         case Some(id) => [(lossy(id), entry)]
         case None => [])
      case _ => []
  }

  /** `discover_satellites`: a failing query item fails the whole call, an unreadable value is skipped. */
  method DiscoverSatellites(lossy: string -> string, items: seq<Listed>) returns (found: Option<Discovered>)
    ensures found.None? <==> ReadError in items
    ensures found.Some? ==> found.value == Readable(lossy, items)
  {
    var entries: Discovered := [];
    for k := 0 to |items|
      invariant entries == Readable(lossy, items[..k])
      invariant ReadError !in items[..k]
    {
      assert items[..k + 1][..k] == items[..k];
      assert items[..k + 1] == items[..k] + [items[k]];
      match items[k] {
        case ReadError => return None;
        case Listed(key, blob) =>
          var id := StripPrefix(key);
          if id.Some? && blob.Some? && blob.value.Some? {
            entries := entries + [(lossy(id.value), blob.value.value)];
          }
      }
    }
    assert items[..|items|] == items;
    found := Some(entries);
  }

  /** `id` and `entry` stand readable in the query's answer. */
  ghost predicate Reads(items: seq<Listed>, id: string, entry: SatelliteEntry) {
    Listed(KEY_PREFIX + id, Some(Some(entry))) in items
  }

  /** Discovery finds exactly the readable satellite entries, each under its key without the prefix. */
  lemma {:induction false} ReadableSpec(lossy: string -> string, items: seq<Listed>, x: (string, SatelliteEntry))
    ensures x in Readable(lossy, items) <==> exists id :: Reads(items, id, x.1) && lossy(id) == x.0
  {
    if items != [] {
      var n := |items| - 1;
      ReadableSpec(lossy, items[..n], x);
      assert items == items[..n] + [items[n]];
      assert forall id :: Reads(items[..n], id, x.1) ==> Reads(items, id, x.1);
      match items[n]
      case Listed(key, Some(Some(entry))) =>
        KeySplits(key);
        if StripPrefix(key).Some? && entry == x.1 {
          assert Reads(items, StripPrefix(key).value, x.1);
        }
      case _ =>
    }
  }

  predicate IsReadable(item: Listed) {
    item.Listed? && KEY_PREFIX <= item.key && item.blob.Some? && item.blob.value.Some?
  }

  function Found(lossy: string -> string, item: Listed): (string, SatelliteEntry)
    requires IsReadable(item)
  {
    (lossy(item.key[|KEY_PREFIX|..]), item.blob.value.value)
  }

  lemma ReadableGrows(lossy: string -> string, front: seq<Listed>, last: Listed)
    ensures Readable(lossy, front + [last]) ==
              Readable(lossy, front) + if IsReadable(last) then [Found(lossy, last)] else []
  {
    assert (front + [last])[..|front|] == front;
  }

  /** They come in the order of the query's answer, which decides ties in selection. */
  lemma {:induction false} ReadableInOrder(lossy: string -> string, items: seq<Listed>) returns (at: seq<nat>)
    ensures Picks(items, IsReadable, at) && |Readable(lossy, items)| == |at|
    ensures forall k :: 0 <= k < |at| ==> Readable(lossy, items)[k] == Found(lossy, items[at[k]])
  {
    at := [];
    if items != [] {
      var front, last := items[..|items| - 1], items[|items| - 1];
      at := ReadableInOrder(lossy, front);
      assert items == front + [last];
      ReadableGrows(lossy, front, last);
      at := PickNext(front, IsReadable, at, last);
    }
  }

  lemma KeySplits(key: string)
    ensures StripPrefix(key).Some? ==> key == KEY_PREFIX + StripPrefix(key).value
    ensures forall id :: key == KEY_PREFIX + id ==> StripPrefix(key) == Some(id)
  {
    forall id | key == KEY_PREFIX + id
      ensures StripPrefix(key) == Some(id)
    {
      assert key[|KEY_PREFIX|..] == id;
    }
  }

  /**
   What is discovered over a lagging replica, in which each entry may be as old
   as it likes, was written by runs of satellites under their own node ids.
   */
  lemma DiscoveredIsDrawn(lossy: string -> string, items: seq<Listed>, acts: seq<Constellation.Action>)
    requires LeavesAscii(lossy) && Constellation.Legal(Constellation.EMPTY, acts)
    requires forall id, entry :: Reads(items, id, entry) ==> Constellation.OnceHeld(acts, (id, entry))
    ensures Constellation.Drawn(Constellation.After(Constellation.EMPTY, acts), Readable(lossy, items))
  {
    forall x | x in Readable(lossy, items)
      ensures Constellation.OnceHeld(acts, x)
    {
      ReadableSpec(lossy, items, x);
      var id :| Reads(items, id, x.1) && lossy(id) == x.0;
      assert Constellation.OnceHeld(acts, (id, x.1));
      var m: nat, i: nat :| Constellation.HeldAt(acts, m, i, (id, x.1));
      Constellation.HeldIsDrawn(acts, m, i, (id, x.1));
      EncodingIsAscii(Constellation.After(Constellation.EMPTY, acts).runs[i].run.node);
      assert Ascii(id) && (id, x.1) == x;
    }
    Constellation.LaggingReplicaIsDrawn(acts, Readable(lossy, items));
  }

  // ----- planning -----

  ghost predicate Slashed(platforms: seq<string>) { forall p :: p in platforms ==> '/' in p }

  function BridgeFor(entries: Discovered, dir: string, platform: string): Option<Bridge>
    requires '/' in platform
  {
    match Select(entries, platform)
    case None => None
    case Some(e) => Some(Bridge(platform, SocketPath(dir, platform), e.addr))
  }

  function Planned(entries: Discovered, dir: string, platforms: seq<string>): seq<Bridge>
    requires forall p :: p in platforms ==> '/' in p
  {
    if platforms == [] then []
    else
      var rest := Planned(entries, dir, platforms[..|platforms| - 1]);
      match BridgeFor(entries, dir, platforms[|platforms| - 1])
      case None => rest
      case Some(bridge) => rest + [bridge]
  }

  /** The planning loop of `run_mission_control`; it fails if no bridge was added. */
  method PlanBridges(host: Host, entries: Discovered, dir: string, platforms: seq<string>)
    returns (manager: BridgeManager, ok: bool)
    requires Slashed(platforms)
    modifies host`spawned
    ensures fresh(manager) && manager.RunsOn(host)
    ensures manager.added == Planned(entries, dir, platforms)
    ensures host.spawned == old(host.spawned) + Planned(entries, dir, platforms)
    ensures ok <==> manager.bridges.Keys != {}
  {
    manager := new BridgeManager();
    for k := 0 to |platforms|
      invariant fresh(manager) && manager.RunsOn(host)
      invariant manager.added == Planned(entries, dir, platforms[..k])
      invariant host.spawned == old(host.spawned) + Planned(entries, dir, platforms[..k])
    {
      assert platforms[..k + 1][..k] == platforms[..k];
      var bridge := BridgeFor(entries, dir, platforms[k]);
      if bridge.Some? {
        manager.AddBridge(host, bridge.value);
      }
    }
    assert platforms[..|platforms|] == platforms;
    ok := |manager.bridges.Keys| != 0;
  }

  ghost predicate Servable(entries: Discovered, platform: string)
    requires '/' in platform
  {
    Select(entries, platform).Some?
  }

  lemma {:induction false} PlannedSpec(entries: Discovered, dir: string, platforms: seq<string>, bridge: Bridge)
    requires Slashed(platforms)
    ensures bridge in Planned(entries, dir, platforms) <==>
              bridge.platform in platforms && BridgeFor(entries, dir, bridge.platform) == Some(bridge)
  {
    if platforms != [] {
      var n := |platforms| - 1;
      assert platforms == platforms[..n] + [platforms[n]];
      PlannedSpec(entries, dir, platforms[..n], bridge);
    }
  }

  lemma PlannedGrows(entries: Discovered, dir: string, front: seq<string>, last: string)
    requires Slashed(front) && '/' in last
    ensures Slashed(front + [last])
    ensures Planned(entries, dir, front + [last]) ==
              Planned(entries, dir, front) +
              if Servable(entries, last) then [BridgeFor(entries, dir, last).value] else []
  {
    assert (front + [last])[..|front|] == front;
  }

  /** One bridge for each servable request, in the order of the requests. */
  lemma {:induction false} PlannedInOrder(entries: Discovered, dir: string, platforms: seq<string>)
    returns (at: seq<nat>)
    requires Slashed(platforms)
    ensures Picks(platforms, (p: string) => '/' in p && Servable(entries, p), at)
    ensures |Planned(entries, dir, platforms)| == |at|
    ensures forall k :: 0 <= k < |at| ==>
              BridgeFor(entries, dir, platforms[at[k]]) == Some(Planned(entries, dir, platforms)[k])
  {
    at := [];
    if platforms != [] {
      var front, last := platforms[..|platforms| - 1], platforms[|platforms| - 1];
      at := PlannedInOrder(entries, dir, front);
      assert platforms == front + [last];
      PlannedGrows(entries, dir, front, last);
      at := PickNext(front, (p: string) => '/' in p && Servable(entries, p), at, last);
    }
  }

  lemma TableIsPlanned(entries: Discovered, dir: string, platforms: seq<string>, p: string)
    requires Slashed(platforms) && p in Table(Planned(entries, dir, platforms))
    ensures p in platforms && BridgeFor(entries, dir, p) == Some(Table(Planned(entries, dir, platforms))[p])
  {
    var added := Planned(entries, dir, platforms);
    TableHoldsLast(added);
    var i :| IsLast(added, i) && added[i].platform == p && Table(added)[p] == added[i];
    PlannedSpec(entries, dir, platforms, added[i]);
  }

  lemma ServableIsInTable(entries: Discovered, dir: string, platforms: seq<string>, p: string)
    requires Slashed(platforms) && p in platforms && Servable(entries, p)
    ensures p in Table(Planned(entries, dir, platforms))
  {
    var added := Planned(entries, dir, platforms);
    var bridge := BridgeFor(entries, dir, p).value;
    PlannedSpec(entries, dir, platforms, bridge);
    var i :| 0 <= i < |added| && added[i] == bridge;
    TableHoldsLast(added);
  }

  /**
   The bridge table after planning: its keys are exactly the requested
   platforms that some satellite can serve, each bridge dials the satellite
   selected for it at the derived path, and the run fails exactly if no
   requested platform is servable.
   */
  lemma PlanTable(entries: Discovered, dir: string, platforms: seq<string>)
    requires Slashed(platforms)
    ensures
      var table := Table(Planned(entries, dir, platforms));
      && table.Keys == (set p | p in platforms && Servable(entries, p))
      && (forall p :: p in table ==> table[p] == Bridge(p, SocketPath(dir, p), Select(entries, p).value.addr))
      && (table.Keys == {} <==> forall p :: p in platforms ==> !Servable(entries, p))
  {
    var table := Table(Planned(entries, dir, platforms));
    var servable := set p | p in platforms && Servable(entries, p);
    forall p | p in table
      ensures p in servable && BridgeFor(entries, dir, p) == Some(table[p])
    {
      TableIsPlanned(entries, dir, platforms, p);
    }
    forall p | p in servable
      ensures p in table
    {
      ServableIsInTable(entries, dir, platforms, p);
    }
    assert table.Keys == servable;
  }

  lemma PlannedPathByPlatform(entries: Discovered, dir: string, platforms: seq<string>)
    requires Slashed(platforms)
    ensures PathByPlatform(Planned(entries, dir, platforms))
  {
    var added := Planned(entries, dir, platforms);
    forall i | 0 <= i < |added|
      ensures added[i].platform in platforms && BridgeFor(entries, dir, added[i].platform) == Some(added[i])
    {
      PlannedSpec(entries, dir, platforms, added[i]);
    }
  }

  /** No two servable requests end in the same component; a repeated request does. */
  ghost predicate DistinctArchs(entries: Discovered, platforms: seq<string>)
    requires Slashed(platforms)
  {
    forall i, j :: 0 <= i < j < |platforms| && Servable(entries, platforms[i]) && Servable(entries, platforms[j]) ==>
      ArchOf(platforms[i]) != ArchOf(platforms[j])
  }

  lemma AppendPath(before: seq<Bridge>, bridge: Bridge)
    ensures DistinctPaths(before + [bridge]) <==>
              DistinctPaths(before) && forall i :: 0 <= i < |before| ==> before[i].path != bridge.path
  {
    var added := before + [bridge];
    assert forall i :: 0 <= i < |before| ==> added[i] == before[i];
    assert added[|before|] == bridge;
  }

  lemma AppendArch(entries: Discovered, init: seq<string>, p: string)
    requires Slashed(init) && '/' in p
    ensures Slashed(init + [p])
    ensures DistinctArchs(entries, init + [p]) <==>
              && DistinctArchs(entries, init)
              && (Servable(entries, p) ==>
                    forall i :: 0 <= i < |init| && Servable(entries, init[i]) ==> ArchOf(init[i]) != ArchOf(p))
  {
    var all := init + [p];
    assert forall i :: 0 <= i < |init| ==> all[i] == init[i];
    assert all[|init|] == p;
  }

  lemma {:induction false} DistinctPathsIffDistinctArchs(entries: Discovered, dir: string, platforms: seq<string>)
    requires Slashed(platforms)
    ensures DistinctPaths(Planned(entries, dir, platforms)) <==> DistinctArchs(entries, platforms)
  {
    if platforms != [] {
      var init, p := platforms[..|platforms| - 1], platforms[|platforms| - 1];
      assert platforms == init + [p];
      DistinctPathsIffDistinctArchs(entries, dir, init);
      AppendArch(entries, init, p);
      if Servable(entries, p) {
        AppendPath(Planned(entries, dir, init), BridgeFor(entries, dir, p).value);
        NewPathIffNewArch(entries, dir, init, p);
      }
    }
  }

  lemma NewPathIffNewArch(entries: Discovered, dir: string, platforms: seq<string>, platform: string)
    requires Slashed(platforms) && '/' in platform
    ensures
      var before := Planned(entries, dir, platforms);
      (forall i :: 0 <= i < |before| ==> before[i].path != SocketPath(dir, platform)) <==>
      (forall i :: 0 <= i < |platforms| && Servable(entries, platforms[i]) ==> ArchOf(platforms[i]) != ArchOf(platform))
  {
    var before := Planned(entries, dir, platforms);
    forall i | 0 <= i < |before|
      ensures before[i].platform in platforms && Servable(entries, before[i].platform)
      ensures before[i].path == SocketPath(dir, platform) <==> ArchOf(before[i].platform) == ArchOf(platform)
    {
      PlannedSpec(entries, dir, platforms, before[i]);
      SocketPathIffArch(dir, before[i].platform, platform);
    }
    forall i | 0 <= i < |platforms| && Servable(entries, platforms[i])
      ensures exists k :: 0 <= k < |before| && before[k].platform == platforms[i]
    {
      var bridge := Bridge(platforms[i], SocketPath(dir, platforms[i]), Select(entries, platforms[i]).value.addr);
      PlannedSpec(entries, dir, platforms, bridge);
    }
  }

  // ----- from the Doc and the command line to the running bridges -----

  lemma ParsedPlatformsHaveASlash(text: string, platforms: seq<string>)
    requires ParsePlatforms(text) == Success(platforms)
    ensures Slashed(platforms)
  {
    ParsedIsPlatformList(text, platforms);
    forall p | p in platforms
      ensures '/' in p
    {
      var i :| 0 <= i < |platforms| && platforms[i] == p;
      assert Platforms.Clean(platforms[i]) && LINUX <= p;
      assert p[5] == '/';
    }
  }

  /** The bridge dials the own address of a run that, for a plain platform, resolved that platform at its start. */
  ghost predicate RealBridge(s: Constellation.State, bridge: Bridge) {
    && bridge.satellite != PLACEHOLDER
    && exists i :: 0 <= i < |s.runs| && bridge.satellite.id == s.runs[i].run.node
         && (Plain(bridge.platform) ==>
               bridge.platform in Constellation.Resolve(s.runs[i].run.nativeArch, s.runs[i].run.extras))
  }

  lemma PlannedBridgeIsReal(s: Constellation.State, entries: Discovered,
                            dir: string, platforms: seq<string>, bridge: Bridge)
    requires Constellation.Drawn(s, entries) && Slashed(platforms) && bridge in Planned(entries, dir, platforms)
    ensures RealBridge(s, bridge)
  {
    PlannedSpec(entries, dir, platforms, bridge);
    Constellation.SelectedIsARealSatellite(s, entries, bridge.platform);
    var e := Select(entries, bridge.platform).value;
    var i :| 0 <= i < |s.runs| && Constellation.WrittenBy(s.runs[i].run, e) && e.addr.id == s.runs[i].run.node;
    if Plain(bridge.platform) {
      Constellation.DrawnIsRegistered(s, entries);
      SelectedAdvertises(entries, bridge.platform);
    }
  }

  /**
   The architecture lookup never panics on a parsed list, and every planned
   bridge dials a satellite that wrote its own address as idle and, for a plain
   platform, resolved that platform at its start.
   */
  lemma PlannedBridgesAreReal(s: Constellation.State, entries: Discovered,
                              dir: string, text: string, platforms: seq<string>)
    requires Constellation.Drawn(s, entries) && ParsePlatforms(text) == Success(platforms)
    ensures Slashed(platforms)
    ensures forall bridge :: bridge in Planned(entries, dir, platforms) ==> RealBridge(s, bridge)
  {
    ParsedPlatformsHaveASlash(text, platforms);
    forall bridge | bridge in Planned(entries, dir, platforms)
      ensures RealBridge(s, bridge)
    {
      PlannedBridgeIsReal(s, entries, dir, platforms, bridge);
    }
  }

  /**
   From the Doc to the dialled satellites: whatever was read from a replica that
   lags unevenly behind the run `acts`, the bridges planned for a parsed list
   dial satellites of that run.
   */
  lemma DialledBridgesAreReal(lossy: string -> string, items: seq<Listed>, acts: seq<Constellation.Action>,
                              dir: string, text: string, platforms: seq<string>)
    requires LeavesAscii(lossy) && Constellation.Legal(Constellation.EMPTY, acts)
    requires forall id, entry :: Reads(items, id, entry) ==> Constellation.OnceHeld(acts, (id, entry))
    requires ParsePlatforms(text) == Success(platforms)
    ensures Slashed(platforms)
    ensures forall bridge :: bridge in Planned(Readable(lossy, items), dir, platforms) ==>
              RealBridge(Constellation.After(Constellation.EMPTY, acts), bridge)
  {
    DiscoveredIsDrawn(lossy, items, acts);
    PlannedBridgesAreReal(Constellation.After(Constellation.EMPTY, acts), Readable(lossy, items), dir, text, platforms);
  }

  /**
   For any planned set of bridges: every listening loop keeps its socket in
   every interleaving exactly if the servable requests differ in their last
   component. Asking for one servable platform twice is enough to lose a socket.
   */
  lemma BridgesKeepTheirSocketsIff(entries: Discovered, dir: string, platforms: seq<string>)
    requires Slashed(platforms)
    ensures
      var added := Planned(entries, dir, platforms);
      DistinctArchs(entries, platforms) <==>
        forall files, acts :: OnlyStale(files) && Legal(added, Initial(added, files), acts)
                           && BeforeCleanup(After(added, Initial(added, files), acts))
          ==> Owned(added, After(added, Initial(added, files), acts))
  {
    DistinctPathsIffDistinctArchs(entries, dir, platforms);
    OwnershipIffDistinctPaths(Planned(entries, dir, platforms));
  }

  /** And its shutdown leaves no socket file behind exactly if every loop has bound or given up by then. */
  lemma PlannedShutdownIsCleanIff(entries: Discovered, dir: string, platforms: seq<string>,
                                  files: map<Path, Owner>, before: seq<Action>)
    requires Slashed(platforms)
    requires Legal(Planned(entries, dir, platforms), Initial(Planned(entries, dir, platforms), files), before)
    requires After(Planned(entries, dir, platforms),
                   Initial(Planned(entries, dir, platforms), files), before).phase.Serving?
    ensures
      var added := Planned(entries, dir, platforms);
      var s := After(added, Initial(added, files), before);
      Settled(s) <==>
        forall acts :: Legal(added, s, acts) && After(added, s, acts).phase.ShutDown?
          ==> NoFiles(added, After(added, s, acts))
  {
    PlannedPathByPlatform(entries, dir, platforms);
    ShutdownCleanIffSettled(Planned(entries, dir, platforms), files, before);
  }

  // ----- the process that waits for the bridges -----

  /** Some servable request has the same last component as `p`, and so the same socket. */
  ghost predicate Served(entries: Discovered, platforms: seq<string>, p: string)
    requires Slashed(platforms) && '/' in p
  {
    exists q :: q in platforms && Servable(entries, q) && ArchOf(q) == ArchOf(p)
  }

  ghost predicate AllServed(entries: Discovered, platforms: seq<string>)
    requires Slashed(platforms)
  {
    forall p :: p in platforms ==> Served(entries, platforms, p)
  }

  ghost predicate ConnectableAt(added: seq<Bridge>, files: map<Path, Owner>, acts: seq<Action>, m: nat, path: Path) {
    && m <= |acts| && Legal(added, Initial(added, files), acts[..m])
    && Connectable(added, After(added, Initial(added, files), acts[..m]), path)
  }

  /** `at(now)` steps are over at time `now`. */
  ghost predicate Schedule(acts: seq<Action>, at: nat -> nat) {
    forall s: nat, t: nat :: s <= t ==> at(s) <= at(t) <= |acts|
  }

  /** The probes watch a run of the bridges' loops: one answers "alive" only if its socket was, while it asked. */
  ghost predicate Watches(added: seq<Bridge>, files: map<Path, Owner>, dir: string, platforms: seq<string>,
                          acts: seq<Action>, at: nat -> nat, probe: Oracle)
    requires Slashed(platforms)
  {
    && Legal(added, Initial(added, files), acts) && Schedule(acts, at)
    && forall i: nat, now: nat :: i < |platforms| && probe(i, now).alive ==>
         UpWithin(added, files, acts, at(now), at(now + probe(i, now).took), SocketPath(dir, platforms[i]))
  }

  ghost predicate UpWithin(added: seq<Bridge>, files: map<Path, Owner>, acts: seq<Action>,
                           from: nat, to: nat, path: Path)
  {
    exists m: nat :: from <= m <= to && ConnectableAt(added, files, acts, m, path)
  }

  lemma ConnectableIsServed(entries: Discovered, dir: string, platforms: seq<string>, files: map<Path, Owner>,
                            acts: seq<Action>, m: nat, platform: string)
    requires Slashed(platforms) && OnlyStale(files) && '/' in platform
    requires ConnectableAt(Planned(entries, dir, platforms), files, acts, m, SocketPath(dir, platform))
    ensures Served(entries, platforms, platform)
  {
    var added := Planned(entries, dir, platforms);
    RunBindsAtOwnPaths(added, Initial(added, files), acts[..m]);
    var s := After(added, Initial(added, files), acts[..m]);
    var bridge := added[s.files[SocketPath(dir, platform)].id];
    PlannedSpec(entries, dir, platforms, bridge);
    SocketPathIffArch(dir, bridge.platform, platform);
    assert Servable(entries, bridge.platform);
  }

  lemma ServableHasBridge(entries: Discovered, dir: string, platforms: seq<string>, p: string) returns (k: nat)
    requires Slashed(platforms) && p in platforms && Servable(entries, p)
    ensures k < |Planned(entries, dir, platforms)| && Planned(entries, dir, platforms)[k].path == SocketPath(dir, p)
  {
    var bridge := BridgeFor(entries, dir, p).value;
    PlannedSpec(entries, dir, platforms, bridge);
    k :| 0 <= k < |Planned(entries, dir, platforms)| && Planned(entries, dir, platforms)[k] == bridge;
  }

  lemma ServedHasBridge(entries: Discovered, dir: string, platforms: seq<string>, i: nat) returns (k: nat)
    requires Slashed(platforms) && AllServed(entries, platforms) && i < |platforms|
    ensures k < |Planned(entries, dir, platforms)|
    ensures Planned(entries, dir, platforms)[k].path == SocketPath(dir, platforms[i])
  {
    assert Served(entries, platforms, platforms[i]);
    var q :| q in platforms && Servable(entries, q) && ArchOf(q) == ArchOf(platforms[i]);
    k := ServableHasBridge(entries, dir, platforms, q);
    SocketPathIffArch(dir, q, platforms[i]);
  }

  ghost predicate AllBound(added: seq<Bridge>, files: map<Path, Owner>, acts: seq<Action>) {
    && Legal(added, Initial(added, files), acts)
    && forall k :: 0 <= k < |added| ==> Connectable(added, After(added, Initial(added, files), acts), added[k].path)
  }

  lemma BoundIsUp(added: seq<Bridge>, files: map<Path, Owner>, acts: seq<Action>, k: nat)
    requires AllBound(added, files, acts) && k < |added|
    ensures UpWithin(added, files, acts, |acts|, |acts|, added[k].path)
  {
    assert acts[..|acts|] == acts;
    assert ConnectableAt(added, files, acts, |acts|, added[k].path);
  }

  lemma BoundIsWatched(added: seq<Bridge>, files: map<Path, Owner>, dir: string, platforms: seq<string>,
                       acts: seq<Action>, at: nat -> nat, probe: Oracle)
    requires AllBound(added, files, acts) && Slashed(platforms) && forall now: nat :: at(now) == |acts|
    requires forall i: nat :: i < |platforms| ==>
               exists k: nat :: k < |added| && added[k].path == SocketPath(dir, platforms[i])
    ensures Watches(added, files, dir, platforms, acts, at, probe)
  {
    forall i: nat, now: nat | i < |platforms|
      ensures UpWithin(added, files, acts, at(now), at(now + probe(i, now).took), SocketPath(dir, platforms[i]))
    {
      var k: nat :| k < |added| && added[k].path == SocketPath(dir, platforms[i]);
      BoundIsUp(added, files, acts, k);
    }
  }

  /** A run in which every planned path is listened at, and probes that begin when it is over. */
  lemma ServedCanBeSeen(entries: Discovered, dir: string, platforms: seq<string>, files: map<Path, Owner>)
    returns (acts: seq<Action>, at: nat -> nat, probe: Oracle)
    requires Slashed(platforms) && OnlyStale(files) && AllServed(entries, platforms)
    ensures Watches(Planned(entries, dir, platforms), files, dir, platforms, acts, at, probe)
    ensures forall i: nat, now: nat :: probe(i, now).alive
  {
    var added := Planned(entries, dir, platforms);
    acts := BindAll(added, Initial(added, files), 0);
    var steps := |acts|;
    at := now => steps;
    probe := (i, now) => Probe(true, 0);
    forall i: nat | i < |platforms|
      ensures exists k: nat :: k < |added| && added[k].path == SocketPath(dir, platforms[i])
    {
      var k := ServedHasBridge(entries, dir, platforms, i);
    }
    BoundIsWatched(added, files, dir, platforms, acts, at, probe);
  }

  ghost predicate SeenReady(added: seq<Bridge>, files: map<Path, Owner>, dir: string, platforms: seq<string>,
                            deadline: nat, acts: seq<Action>, at: nat -> nat, probe: Oracle)
    requires Slashed(platforms)
  {
    && Watches(added, files, dir, platforms, acts, at, probe)
    && Poll(probe, |platforms|, deadline, 0).ready
  }

  /**
   `link` waits for the socket of every requested platform, while Mission Control
   skips those it cannot serve: the wait can end ready if and only if every
   requested platform shares its last component with one that can be served.
   */
  lemma LinkCanBeReadyIff(entries: Discovered, dir: string, platforms: seq<string>,
                          files: map<Path, Owner>, deadline: nat)
    requires Slashed(platforms) && OnlyStale(files)
    ensures AllServed(entries, platforms) <==>
              exists acts, at, probe ::
                SeenReady(Planned(entries, dir, platforms), files, dir, platforms, deadline, acts, at, probe)
  {
    forall acts, at, probe |
      SeenReady(Planned(entries, dir, platforms), files, dir, platforms, deadline, acts, at, probe)
      ensures AllServed(entries, platforms)
    {
      ReadyIsServed(entries, dir, platforms, files, deadline, acts, at, probe);
    }
    if AllServed(entries, platforms) {
      var acts, at, probe := ServedCanBeSeen(entries, dir, platforms, files);
      AlivePassIsReady(probe, |platforms|, 0, 0, 0);
      assert SeenReady(Planned(entries, dir, platforms), files, dir, platforms, deadline, acts, at, probe);
    }
  }

  lemma ReadyIsServed(entries: Discovered, dir: string, platforms: seq<string>, files: map<Path, Owner>,
                      deadline: nat, acts: seq<Action>, at: nat -> nat, probe: Oracle)
    requires Slashed(platforms) && OnlyStale(files)
    requires SeenReady(Planned(entries, dir, platforms), files, dir, platforms, deadline, acts, at, probe)
    ensures AllServed(entries, platforms)
  {
    var start := ReadyFoundAll(probe, |platforms|, deadline, 0);
    forall p | p in platforms
      ensures Served(entries, platforms, p)
    {
      var i: nat :| i < |platforms| && platforms[i] == p;
      assert AliveWhenReached(probe, i, start);
      var now := ArrivesAt(probe, i, start);
      assert UpWithin(Planned(entries, dir, platforms), files, acts,
                      at(now), at(now + probe(i, now).took), SocketPath(dir, p));
      var m: nat :| ConnectableAt(Planned(entries, dir, platforms), files, acts, m, SocketPath(dir, p));
      ConnectableIsServed(entries, dir, platforms, files, acts, m, p);
    }
  }
}
