/** `BridgeManager` over the runtime that runs its tasks and the directory that holds its sockets. */
module BridgeManagement {
  import opened Sockets
  import opened Wrappers

  /** The task runtime and the socket files, as far as the manager touches them. */
  class Host {
    var spawned: seq<Bridge>  // the bridge each spawned task runs
    var aborted: set<nat>     // handles on which `abort` was called
    var files: set<Path>

    constructor (files: set<Path>)
      ensures this.spawned == [] && this.aborted == {} && this.files == files
    {
      this.spawned, this.aborted, this.files := [], {}, files;
    }

    method Spawn(bridge: Bridge) returns (handle: nat)
      modifies this`spawned
      ensures handle == old(|spawned|) && spawned == old(spawned) + [bridge]
    {
      handle := |spawned|;
      spawned := spawned + [bridge];
    }

    method Abort(handle: nat)
      modifies this`aborted
      ensures aborted == old(aborted) + {handle}
    {
      aborted := aborted + {handle};
    }

    /** `cleanup_socket`: a missing file is fine. */
    method CleanupSocket(path: Path)
      modifies this`files
      ensures files == old(files) - {path}
    {
      files := files - {path};
    }
  }

  class BridgeManager {
    var bridges: map<string, Bridge>
    var tasks: seq<nat>
    ghost var added: seq<Bridge>

    ghost predicate Valid() reads this {
      && bridges == Table(added)
      && |tasks| == |added|
    }

    /** Every bridge ever added has its own task on `host`, in order. */
    ghost predicate RunsOn(host: Host) reads this, host {
      && Valid()
      && (forall i :: 0 <= i < |tasks| ==> tasks[i] < |host.spawned| && host.spawned[tasks[i]] == added[i])
      && (forall i, j :: 0 <= i < j < |tasks| ==> tasks[i] != tasks[j])
    }

    constructor ()
      ensures Valid() && added == [] && bridges == map[] && tasks == []
    {
      bridges, tasks, added := map[], [], [];
    }

    method AddBridge(host: Host, bridge: Bridge)
      requires RunsOn(host)
      modifies this, host`spawned
      ensures RunsOn(host)
      ensures added == old(added) + [bridge]
      ensures bridges == old(bridges)[bridge.platform := bridge]
      ensures host.spawned == old(host.spawned) + [bridge]
    {
      var handle := host.Spawn(bridge);
      tasks := tasks + [handle];
      bridges := bridges[bridge.platform := bridge];
      TableAppend(added, bridge);
      added := added + [bridge];
    }

    method BridgeForPlatform(platform: string) returns (found: Option<Bridge>)
      requires Valid()
      ensures found.None? ==> forall i :: 0 <= i < |added| ==> added[i].platform != platform
      ensures found.Some? ==>
                exists i :: IsLast(added, i) && added[i].platform == platform && found.value == added[i]
    {
      found := if platform in bridges then Some(bridges[platform]) else None;
      TableHoldsLast(added);
    }

    /** Aborts every task, then unlinks the path of every bridge still in the table. */
    method Shutdown(host: Host)
      requires RunsOn(host)
      modifies host`aborted, host`files
      ensures host.aborted == old(host.aborted) + set h | h in tasks
      ensures host.files == old(host.files) - CleanupSet(added)
    {
      for i := 0 to |tasks|
        invariant host.aborted == old(host.aborted) + set h | h in tasks[..i]
        invariant host.files == old(host.files)
      {
        host.Abort(tasks[i]);
        assert tasks[..i + 1] == tasks[..i] + [tasks[i]];
      }
      assert tasks[..|tasks|] == tasks;
      var left := bridges.Keys;
      while left != {}
        invariant left <= bridges.Keys
        invariant host.files == old(host.files) -
                  set platform | platform in bridges && platform !in left :: bridges[platform].path
        invariant host.aborted == old(host.aborted) + set h | h in tasks
        decreases left
      {
        var platform :| platform in left;
        host.CleanupSocket(bridges[platform].path);
        left := left - {platform};
      }
    }
  }
}
