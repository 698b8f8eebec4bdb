# OrbitBuild: a verified model

OrbitBuild tunnels Docker builds from a Mission Control machine to satellites that run buildkitd. This project models the
protocol logic of that system in Dafny and proves what holds over all of its inputs, interleavings and runs.

| file | what it models |
|---|---|
| `tunnel.dfy`, `tunnel_safety.dfy`, `tunnel_progress.dfy`, `tunnel_delivery.dfy`, `tunnel_loss.dfy` | the build tunnel: two sessions, four copy loops and one two-way stream, as a step system |
| `sockets.dfy`, `sockets_history.dfy` | the accept-loop tasks and `shutdown`, interleaved over the socket files; the histories they allow |
| `bridge_manager.dfy` | the `BridgeManager` class over its task runtime and socket directory |
| `entries.dfy`, `constellation.dfy`, `constellation_history.dfy` | satellite entries, platform resolution, and the satellites' life in the last-write-wins Doc |
| `peers.dfy`, `peers_history.dfy` | the allowed-peer set, as a class and as an index with its lock and access check against a growing replica |
| `platforms.dfy` | platform lists, architectures and socket paths |
| `selection.dfy` | which satellite is selected for a platform |
| `mission_control.dfy` | discovery, the planning loop, and the guarantees that join the parts |
| `events.dfy` | the two `wait_for_sync` loops |
| `polling.dfy` | the two socket polling loops against a clock |
| `base64url.dfy`, `hex.dfy`, `beacon.dfy` | the text encodings of Beacons and Doc keys |
| `wrappers.dfy`, `picking.dfy`, `histories.dfy` | `Option`, `Result` and bytes; filtering in order; what happened in a run |

## Assumptions about the libraries

- Each direction of a QUIC stream is a reliable FIFO, and a lost connection is an error for whoever still uses it. A
  connection may be lost at any time, in particular once one session has returned and dropped its handle. A reader sees a
  clean end after the writer called `finish`. Whether it also sees one after the writer dropped the stream without `finish`
  (`endOnDrop`) is a parameter; everything is proved for both kinds of library unless a statement names it.
- A copy loop reads when its buffer has room and writes when its sink has room, in chunks of any size; buffers, the stream
  and Unix sockets have any positive capacity.
- A copy loop fails only for a cause: it reads or writes a Unix socket that is broken, reads a stream that is lost or was
  dropped without an end, or has bytes to write to a stream that is lost or whose reader is gone. Either may happen at any
  time. A session may also be refused before its first byte (connect, `open_bi`, or the connection to buildkitd).
- "The satellite session returns Ok" speaks of the pair its `try_join!` yields; once the copies run, `accept` itself returns
  `Ok(())` whatever they yield.
- The Doc keeps, for every author and key, the last write that reached it. Each run of `satellite join` has an author of
  its own. A write request already handed to the Doc can still land after its task was aborted, until the node stops.
- A task stops for an abort only at an await point. Unlinking a path in `shutdown` succeeds.
- A socket probe takes at most 500 ms and a sleep exactly 500 ms.
- `from_utf8_lossy` leaves ASCII text as it is; what it makes of other keys is open.
- No node has the all-zero public key, which the placeholder address carries.
- The ticket codec only needs to undo itself; validity of a public key is an arbitrary predicate.

## What the proofs found

Where the code does not do what its comments or design text say, the code is modelled and the exact condition is proved.

- A half-close is not forwarded, although the architecture text (`ARCH.md:174`) speaks of a bidirectional copy that would
  forward it: no copy loop shuts down the Unix write half. A tunnel at rest has returned exactly if both applications closed
  (`RestsExactlyWhenBothClosed`, `HalfCloseStalls`).
- An Ok session does not say that the bytes it reports as sent arrive. They do, whatever happens until the opposite session
  is over, if and only if all of them have been handed over by then (`OkOutputArrivesIff`, `OkBridgeMayLoseOutput`).
- An Ok session has been given everything the opposite application wrote, in all runs, if and only if the library shows no
  end for a stream dropped without `finish`; with such a library it has been given exactly what a failing opposite session
  had sent (`OkIsCompleteIffNoEndOnDrop`, `OkMeansComplete`).
- A session does not learn that the connection is lost, or that the opposite session has failed, while it only waits for its
  own application: it stays open exactly if its far loop has ended, its application has not closed, and all of that
  application's bytes were sent. After a loss it ends with an error if the application writes, but with Ok if it closes
  (`OrphanStaysOpenIff`, `LostSessionEndsAs`, `LostSessionMayStayOpen`). What any tunnel at rest still holds open is
  `RestingSessionIsOpenIff`.
- The offline entry is written before the heartbeat is aborted, so a late heartbeat can leave a stopped satellite idle
  (`OfflineIffNoLateBeat`, `LateBeatLeavesIdle`). Since every run writes under a new author, a clean shutdown does not take
  back the idle entry of an earlier crashed run of the same node (`ListedIdleIffSomeRunWroteIdleLast`, `RestartDoesNotRetire`).
- Asking for one servable platform twice, or for two that end in the same component, puts two accept loops on one path, and a
  live socket can be lost (`BridgesKeepTheirSocketsIff`, `SharedPathLosesSocket`).
- `shutdown` can leave a socket file behind exactly if some accept loop has neither bound nor given up when it begins
  (`ShutdownCleanIffSettled`).
- Any member of the Constellation may connect to satellites, says `ARCH.md:178`. A peer that writes no `satellite/` key, such
  as Mission Control, is let in only once it was reported up; a satellite may have missed nothing and still deny it
  (`StrangerIsGrantedOnlyOnceUp`, `MemberMayBeDenied`). Who can still get in is exactly whom an entry to be read, an event to
  be handled, or the set names (`GrantableIffCanCome`).
- `link` waits for every requested platform although Mission Control skips those it cannot serve: the wait can end ready
  exactly if each shares its last component with a servable one (`LinkCanBeReadyIff`).
- `wait_for_sync` is said to return the remaining stream but returns what it has already read; the remaining stream is what
  the caller misses, and nothing is missed exactly if only errors follow the sync (`MonitorSeesOnlyTheSync`).
- A platform with a second slash can be given to a satellite that never advertised it, in a Constellation of that satellite
  alone (`AdvertisesIffPlain`).

## Model

| member | source | states |
|---|---|---|
| `TunnelSafety.Conservation` | src/bridge.rs:206-223 | over every run, what each receiver was given is a prefix of what its sender wrote, after any error, cancellation or loss; in error-free runs the written bytes are exactly delivered, far buffer, in flight, near buffer and unread, in that order |
| `TunnelSafety.StepKeepsInv` | src/build_proxy.rs:66-87 | every step of either session, either application or the connection keeps the byte, end-of-stream, count and session invariants of both directions |
| `TunnelSafety.ErrorFreeStaysHealthy` | src/bridge.rs:209-226 | no session fails of itself: a run without a refused session, a broken socket or a lost connection has no failure |
| `TunnelSafety.NothingOverflows` | src/bridge.rs:206-223 | in every run no copy buffer, stream direction or Unix socket ever holds more than it has room for |
| `TunnelSafety.OkMeansComplete` | src/bridge.rs:209-226 | a session that returned Ok was given exactly what the opposite session sent, its own application has closed, and its counts are the lengths of what that application wrote and of what it was given; unless the opposite session failed and the library shows an end for its dropped stream, this is everything the opposite application wrote, and that one has closed too; runs with errors elsewhere included |
| `TunnelSafety.CountsAgree` | src/build_proxy.rs:89-97 | when both sessions return Ok, to_satellite = to_unix and to_local = to_quic |
| `TunnelSafety.HangUpOnlyAfterReturn` | src/build_proxy.rs:69-87 | an application is given end-of-stream exactly when its session has returned; an Ok return needs that application to have closed and the opposite session to have called `finish`, or to have failed where the library shows an end for a dropped stream |
| `TunnelProgress.PipeProgress` | src/bridge.rs:210-223 | with any positive capacities one direction can always move or has carried everything, whatever the other direction's channels hold |
| `TunnelProgress.DrivenRunIsBounded` | src/bridge.rs:210-223 | the hop-weighted byte count plus open ends falls with every step of the tunnel and its readers and with every failure, so it bounds the number of steps from any state |
| `TunnelProgress.RestsExactlyWhenBothClosed` | src/build_proxy.rs:69-87 | at rest every byte has been read, and each session has returned Ok if and only if both applications closed |
| `TunnelProgress.ClosedTunnelCompletes` | src/bridge.rs:209-226 | after both applications closed, an error-free run takes at most five steps a byte and ten more, some step is enabled until both sessions have returned, and at rest both are Ok with the lengths of everything written, all of it read |
| `TunnelProgress.HalfCloseStalls` | src/build_proxy.rs:80-86 | after Docker alone closed, no tunnel step ends a session or gives buildkitd an end-of-stream, and the tunnel can come to rest so with every byte delivered |
| `TunnelDelivery.OkOutputArrivesIff` | src/bridge.rs:149-156 | from any state where a session has returned Ok: the bytes it reported as sent arrive in every continuation that ends the opposite session, if and only if all of them have been handed over already |
| `TunnelDelivery.OkBridgeMayLoseOutput` | src/bridge.rs:149-156 | a run in which the bridge returns Ok counting a byte that buildkitd never gets |
| `TunnelDelivery.OkIsCompleteIffNoEndOnDrop` | src/build_proxy.rs:69-87 | every Ok session of every run was given all the opposite application wrote, if and only if the library shows no end for a stream dropped without `finish` |
| `TunnelDelivery.DataCrossInOnePiece` | src/bridge.rs:210-223 | data that fit every stage cross an open, empty direction in one piece, whatever the other direction and the sessions are doing |
| `TunnelLoss.RestingSessionIsOpenIff` | src/bridge.rs:209-223 | in every run, whatever failed, that has come to rest: a session is open if and only if at least one of its loops waits and the other waits too or has ended, the near one for an application that has not closed and of which everything was sent, the far one on a live connection for an opposite near loop that waits so |
| `TunnelLoss.OrphanStaysOpenIff` | src/bridge.rs:209-223 | after a loss, or a failure of the opposite session on a live connection, a session at rest is open if and only if its far loop has ended, its application has not closed, and everything that application wrote was sent |
| `TunnelLoss.BrokenStaysOpenIff` | src/build_proxy.rs:69-87 | a session at rest whose own socket is broken is open if and only if its application had closed before and it waits for the opposite one |
| `TunnelLoss.RefusedSession` | src/build_proxy.rs:48-57 | when buildkitd is not running or the connection cannot be made, then whatever happened before, nothing is delivered either way, and at rest the opposite session has failed; if the library shows an end for the dropped stream it may instead wait for its own application or return Ok with nothing received |
| `TunnelLoss.SafeSessionReturnsOk` | src/bridge.rs:209-226 | a session whose loops have read the end and passed on everything cannot fail, whatever breaks, and at rest has returned Ok; while its far loop still has to read an end that is there, only a loss or a break of its own socket can make it fail |
| `TunnelLoss.UnawareStaysOpen` | src/build_proxy.rs:69-87 | a session whose far loop has ended and that waits for its application stays open through every run in which the application neither writes nor closes and its socket does not break, a loss or failure elsewhere included |
| `TunnelLoss.LostSessionEndsAs` | src/bridge.rs:209-226 | run to rest after its application acted, such a session returns Ok exactly if the application closed and fails exactly if it wrote |
| `TunnelLoss.LostSessionCanEndEitherWay` | src/bridge.rs:209-226 | for every such session, and any data that fit its socket, runs exist in which it returns Ok and in which it fails |
| `TunnelLoss.EveryTunnelCanEnd` | src/build_proxy.rs:69-107 | from every state of every run, whatever has failed, both applications can close, and then the tunnel comes to rest with both sessions over |
| `TunnelLoss.LostSessionMayStayOpen` | src/bridge.rs:209-223 | a run that comes to rest so |
| `Sockets.RunKeepsOwned` | src/bridge.rs:97-106 | with pairwise different paths, no interleaving of unlink, bind, failed bind and exit unlink takes a listening loop's file, and every bound file is its own loop's |
| `Sockets.SharedPathLosesSocket` | src/bridge.rs:267-277 | for any two loops on one path: a run in which a failed bind's exit cleanup leaves the other listening without a socket |
| `Sockets.OwnershipIffDistinctPaths` | src/bridge.rs:97-106 | every listening loop keeps its socket in all runs if and only if the paths are pairwise different |
| `Sockets.TableHoldsLast` | src/bridge.rs:279-281 | the bridge table holds, for exactly the platforms ever added, the bridge added last |
| `Sockets.TableCoversEveryPath` | src/bridge.rs:291-294 | when paths follow platforms, the paths of the table are all paths ever added, repeated platforms included |
| `Sockets.ShutdownCleanIffSettled` | src/bridge.rs:286-296 | no run of `shutdown` leaves a socket file of any added bridge, if and only if every accept loop has bound or given up when it begins |
| `SocketsHistory.LegalIffInOrder` | src/bridge.rs:97-118 | the runs are exactly the histories in which every step is due: each loop unlinks, binds a free path or fails and unlinks again, and a task asked to abort stops only before its first poll or while it listens; whose file lies at a path is what the last step that touched it said |
| `SocketsHistory.FilesStayUntilRemoved` | src/bridge.rs:286-296 | in every run a socket file goes only by an unlink of its path; an aborted task leaves it behind |
| `BridgeManagement.BridgeManager.AddBridge` | src/bridge.rs:261-284 | one more task for the bridge, and its platform now maps to it |
| `BridgeManagement.BridgeManager.BridgeForPlatform` | src/bridge.rs:299-301 | returns the bridge added last for the platform, nothing if none was added |
| `BridgeManagement.BridgeManager.Shutdown` | src/bridge.rs:287-296 | aborts exactly the manager's tasks and removes exactly the files at the table's paths |
| `Constellation.ResolvePlatforms` | src/satellite.rs:51-61 | the loop computes the resolution that `ResolveSpec` characterises |
| `Constellation.ResolveSpec` | src/satellite.rs:51-61 | the native platform is first and only there; the other extras follow in the order and as often as they were given; without extras there is nothing else |
| `Constellation.RunKeepsInv` | src/satellite.rs:138-152 | every entry of every reachable Doc sits under its author's own key and is one that run could have written |
| `Constellation.WrittenEntry` | src/satellite.rs:225-259 | such an entry is idle exactly if it carries its writer's own address, never the placeholder, and lists the native platform first |
| `Constellation.DocHoldsLastWrite` | src/satellite.rs:221-262 | a run's entry always shows the status of its last write that reached the Doc |
| `Constellation.StepEntry` | src/satellite.rs:225-262 | a step changes a run's entry only by a write of that run, to exactly what it writes |
| `Constellation.HeartbeatRefreshes` | src/satellite.rs:221-241 | from every reachable state, a run that serves can at any time refresh its entry to idle, with its own address and that time, and goes on serving |
| `ConstellationHistory.LegalIffInOrder` | src/satellite.rs:138-271 | the runs are exactly the histories in which every step is due: heartbeats from the registration to the abort, one at a time, one offline write, then the abort, then the end, and a crash at any time before it |
| `ConstellationHistory.DocHoldsLastEntry` | src/satellite.rs:221-262 | the Doc holds for a run exactly its last write to arrive, a heartbeat with the time at which it was sent |
| `Constellation.OfflineIffNoLateBeat` | src/satellite.rs:252-266 | a run's entry reads "offline" if and only if its offline write succeeded and no heartbeat of it landed later |
| `Constellation.EndedIsFrozen` | src/satellite.rs:264-271 | after a run has ended, nothing changes its entry, a later run of the same node included |
| `Constellation.LateBeatLeavesIdle` | src/satellite.rs:260-266 | for every satellite a run exists that shuts down in full and stays listed as idle |
| `Constellation.ListedIdleIffSomeRunWroteIdleLast` | src/satellite.rs:113-117 | a node is listed as idle if and only if some run of it wrote "idle" last, whatever its other runs wrote |
| `Constellation.RestartDoesNotRetire` | src/satellite.rs:113-117 | a crashed run's idle entry outlives a later clean shutdown of the same node |
| `Constellation.LaggingReplicaIsDrawn` | src/mission_control.rs:300-354 | entries each of which the Doc held at some point of the run, each at its own, were written by runs under their own node ids |
| `Constellation.SelectedIsARealSatellite` | src/mission_control.rs:361-390 | selection never returns the placeholder address but that of a run that wrote the entry |
| `Constellation.AdvertisesIffPlain` | src/mission_control.rs:367-379 | over all runs of satellites and all that a lagging replica can show, the selected entry lists the platform, if and only if the platform has no further slash |
| `Peers.AllowedPeers.LoadSnapshot` | src/satellite.rs:119-136 | adds exactly the owners of the readable keys |
| `Peers.AllowedPeers.OnItem` | src/satellite.rs:178-209 | one stream item adds its key's owner or the neighbor that came up, and removes nobody |
| `Peers.GrantsAreEarned` | src/satellite.rs:76-136 | each answer of the access check in a run was given at a step of that run: a grant only after the snapshot was read to its end, under no insertion, and to the owner of a received key or a peer reported up by then; to every such peer once the events so far are drained without a fault |
| `Peers.GrantedOnceDeniedOnlyByTheLock` | src/satellite.rs:78-88 | whoever was granted at one point of a run is denied at a later one exactly while the lock is held |
| `Peers.StrangerIsGrantedOnlyOnceUp` | src/satellite.rs:178-205 | a peer whose key never came in is granted only after it was reported up, and exactly then once the events so far are drained without a fault |
| `Peers.MemberMayBeDenied` | src/satellite.rs:76-136 | for every peer, a faultless run with nothing pending and the lock free that denies it |
| `Peers.GrantableIffCanCome` | src/satellite.rs:119-209 | from every state of every run, a continuation that brings nobody new and grants a peer exists, if and only if the set, an event still to be handled or an entry still to be read names the peer |
| `Peers.EntitledCanBeGranted` | src/satellite.rs:119-209 | in a faultless run every owner of a received key and every peer reported up can be granted by what the satellite does of itself |
| `PeersHistory.LegalIffInOrder` | src/satellite.rs:106-209 | the runs are exactly the histories in which every step is due: the query lists what had come in, entries are read under the lock, and the items offered since the subscription are handled one by one in order; the set holds exactly the peers that a read entry or a handled item named |
| `Peers.AllowedGrowsAndIsSound` | src/satellite.rs:178-205 | the set only grows, and holds only owners of received keys and peers reported up |
| `Peers.DrainedIndexIsExact` | src/satellite.rs:106-136 | after the snapshot, once error-free events are drained, the set is exactly those owners and peers |
| `Peers.AllowedIsMember` | src/satellite.rs:106-136 | every member of the set owns a `satellite/` key received from another node, or was reported up |
| `Hex.PeerOfKeyIsExact` | src/satellite.rs:276-286 | a key yields a node id exactly if it is that id's own lowercase spelling and the id is 32 valid bytes |
| `Hex.DigitsFollowTheTable` | src/satellite.rs:276-286 | the digits are those of the table of section 8 of RFC 4648, in lower case |
| `Selection.SelectSpec` | src/mission_control.rs:361-390 | the result is the last of the most recently registered entries of its class, native whenever an idle native entry exists; something is returned exactly if some idle entry has the platform's architecture as its native one or has the platform in its list |
| `Selection.SelectIgnoresOrder` | src/mission_control.rs:368-389 | a permutation of the entries changes neither the class nor the timestamp of the choice |
| `Selection.SelectedAdvertises` | src/mission_control.rs:365-390 | over registered entries and `linux/<arch>`, something is selected exactly if an idle entry advertises the platform, and it does |
| `MissionControl.DiscoverSatellites` | src/mission_control.rs:300-354 | fails exactly if a query item fails, else returns the readable entries in order |
| `MissionControl.ReadableSpec` | src/mission_control.rs:313-351 | an entry is found exactly if it is listed under the prefix with a present, decodable value, and under the text of its key |
| `MissionControl.ReadableInOrder` | src/mission_control.rs:308-352 | the readable entries come once each, in the order of the query's answer |
| `MissionControl.DiscoveredIsDrawn` | src/mission_control.rs:300-354 | whatever is discovered in a replica that lags unevenly was written by runs under their own node ids |
| `MissionControl.PlanBridges` | src/mission_control.rs:68-106 | the loop adds one bridge per servable request, in order, each with its own task |
| `MissionControl.PlannedInOrder` | src/mission_control.rs:70-99 | one bridge for each servable request, in the order of the requests |
| `MissionControl.PlanTable` | src/mission_control.rs:70-106 | the table's keys are exactly the servable requests, each with the selected satellite and derived path, and it is empty exactly if no request is servable |
| `MissionControl.PlannedBridgesAreReal` | src/mission_control.rs:65-92 | on a parsed list the architecture lookup never panics, and every bridge dials a satellite that wrote its own address and, for plain platforms, resolved the platform |
| `MissionControl.DialledBridgesAreReal` | src/mission_control.rs:65-92 | the same from the Doc on: whatever is discovered in an unevenly lagging replica of a run, the bridges planned for a parsed list dial satellites of that run |
| `MissionControl.BridgesKeepTheirSocketsIff` | src/mission_control.rs:71-91 | the planned loops keep their sockets in every interleaving if and only if the servable requests differ in their last component |
| `MissionControl.PlannedShutdownIsCleanIff` | src/mission_control.rs:203-207 | the planned bridges' shutdown leaves no file if and only if every loop has bound or given up |
| `MissionControl.LinkCanBeReadyIff` | src/link.rs:40-58 | over all runs of the planned loops and all probes that watch them, the wait for all requested sockets can end ready, if and only if every requested platform shares its last component with a servable one |
| `Platforms.ParseAccepts` | src/mission_control.rs:399-420 | a list is accepted exactly if some piece is not blank and every such piece names a linux platform |
| `Platforms.ParsesInOrder` | src/mission_control.rs:399-420 | the result is the trimmed pieces that are not blank, in order; a refusal names the first of them that is no linux platform |
| `Platforms.ParseJoinRoundTrip` | src/link.rs:96 | a list survives joining and parsing exactly if it is non-empty, of trimmed comma-free linux platforms |
| `Platforms.ChildSeesSameList` | src/link.rs:90-111 | the child process parses the very list that `link` parsed |
| `Platforms.ParsersAgree` | src/satellite.rs:352-368 | the two parsers differ only on a list without any platform |
| `Platforms.SplitIsExact` | src/mission_control.rs:400-401 | splitting at commas is the inverse of joining comma-free pieces |
| `Platforms.TrimSpec` | src/mission_control.rs:402 | trimming removes white space from both ends, all of it and nothing else |
| `Platforms.WhitespaceIsTheTable` | src/mission_control.rs:402 | white space is the 25 code points of Unicode's White_Space property |
| `Platforms.ArchIsUnique` | src/docker.rs:194-199 | the architecture is what follows the last slash |
| `Platforms.SocketPathIffArch` | src/docker.rs:181-184 | two platforms share a socket path exactly if they share that part |
| `Platforms.SocketPathIsInDir` | src/docker.rs:181-184 | the socket is a file of the socket directory itself, named after what follows the platform's last slash |
| `Platforms.PlainPathsAreInjective` | src/docker.rs:181-184 | plain platforms share a socket path only if they are equal |
| `Base64Url.Base64UrlIsExact` | src/beacon.rs:56-68 | decoding and encoding are exact inverses, and the accepted strings are the canonical ones |
| `Base64Url.DigitsFollowTheTable` | src/beacon.rs:56 | the digits are those of the table of section 5 of RFC 4648 |
| `Base64Url.SextetsSpellTheBits` | src/beacon.rs:53-57 | the digits spell the payload's bits in order, padded with the fewest zero bits |
| `Beacon.RoundTrip` | src/beacon.rs:53-72 | deserializing a serialized Beacon gives it back, for every payload |
| `Beacon.DeserializeIsExact` | src/beacon.rs:60-72 | which strings are read as which ticket, and which of the errors the others give |
| `Events.StopIsUnique` | src/fleet.rs:66-98 | exactly one index ends the shortest synced prefix, or the stream if there is none |
| `Events.MissionControlWait` | src/mission_control.rs:225-281 | stops at that index and returns the events before it without the errors |
| `Events.GoodEventsInOrder` | src/mission_control.rs:232-275 | dropping the errors keeps every event once and in order |
| `Events.FleetWait` | src/fleet.rs:66-98 | stops at that index too |
| `Events.MonitorSeesOnlyTheSync` | src/mission_control.rs:218-224 | the remaining stream, promised by the comment, is exactly what the returned one lacks of the subscription; nothing is lacking exactly if only errors follow the sync |
| `Polling.WaitForSockets` | src/link.rs:121-147 | the loop's result, time and number of passes are those of the polling function |
| `Polling.RunStatus` | src/status.rs:63-123 | after the same waiting time, one full pass alone gives the result: Ok exactly if that pass finds every socket alive when it reaches it |
| `Polling.PassIsReadyIffAllAlive` | src/status.rs:82-87 | a pass is ready exactly if it found every socket alive when it reached it |
| `Polling.PassesTake` | src/status.rs:79-116 | a waiting pass probes up to the first dead socket and no further, the final pass probes every socket |
| `Polling.PollIsBounded` | src/link.rs:127-146 | passes and time are bounded by deadline and socket count; ready only after a pass with every socket alive, and never given up before the deadline |
| `Polling.SocketsUpInTimeAreSeen` | src/link.rs:118-120 | sockets that are up for good one pass before the deadline are noticed |
| `Polling.WaitDoesNotDecide` | src/status.rs:94-122 | for every timeout and number of sockets the wait can end ready before a failure and time out before a success |

## Left out

- Connection set-up, relays, hole punching, TLS, gossip and Doc replication: libraries, replaced by the assumptions above.
- The session counter `active_connections`: it is incremented before and decremented after each session, and no branch reads it.
- JSON and ticket layouts, and key validity on the curve: an abstract partial decoder, codec and predicate.
- A subscription that stays silent for ever: `wait_for_sync` then never returns; the model's streams end.
- Files removed or created in the socket directory by other processes while the bridges run, and a failing unlink in `shutdown`.
- Detecting the native architecture: any name without a slash is allowed.
- Mission Control's event monitor, the fleet and status tables, logging, command lines, buildx commands, child processes and signals: output and external commands.
- Secret key files, station commands and the GitHub action: no protocol logic.
