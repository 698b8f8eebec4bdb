/** Node addresses and the entries that satellites write into the Constellation Doc. */
module Entries {
  import opened Wrappers

  type NodeId = seq<Byte>

  /** An endpoint address: the node's public key and ways to reach it. */
  datatype Addr = Addr(id: NodeId, routes: seq<string>)

  function ZeroKey(length: nat): NodeId { if length == 0 then [] else [0] + ZeroKey(length - 1) }

  /** The address an offline entry carries: the all-zero key without any route. */
  const PLACEHOLDER := Addr(ZeroKey(32), [])

  const IDLE := "idle"
  const OFFLINE := "offline"

  datatype SatelliteEntry = SatelliteEntry(
    nativeArch: string, platforms: seq<string>, status: string, addr: Addr, registeredAt: nat)
}
