/** The kubelet summary as the decoder receives it; an absent optional section or counter is `None`. */
module Stats {
  import opened Options
  import opened Quantities

  /** An instant; `ZERO_TIME` is the one `IsZero` recognises. */
  type Time = int
  const ZERO_TIME: Time := 0

  datatype CPUStats = CPUStats(time: Time, usageNanoCores: Option<Uint64>)

  datatype MemoryStats = MemoryStats(
    time: Time,
    availableBytes: Option<Uint64>,
    usageBytes: Option<Uint64>,
    workingSetBytes: Option<Uint64>)

  datatype InterfaceStats = InterfaceStats(name: string, rxBytes: Option<Uint64>, txBytes: Option<Uint64>)

  datatype NetworkStats = NetworkStats(time: Time, interfaces: seq<InterfaceStats>)

  datatype FsStats = FsStats(
    time: Time,
    availableBytes: Option<Uint64>,
    capacityBytes: Option<Uint64>,
    usedBytes: Option<Uint64>)

  datatype PodReference = PodReference(name: string, namespace: string)

  datatype PodStats = PodStats(
    podRef: PodReference,
    cpu: Option<CPUStats>,
    memory: Option<MemoryStats>,
    network: Option<NetworkStats>,
    ephemeralStorage: Option<FsStats>)

  datatype NodeStats = NodeStats(
    nodeName: string,
    cpu: Option<CPUStats>,
    memory: Option<MemoryStats>,
    network: Option<NetworkStats>,
    fs: Option<FsStats>)

  datatype Summary = Summary(ip: string, node: NodeStats, pods: seq<PodStats>)

  const EMPTY_POD := PodStats(PodReference("", ""), None, None, None, None)
  const EMPTY_NODE := NodeStats("", None, None, None, None)
}
