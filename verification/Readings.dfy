/**
 What the fields of a summary say, field by field: the vocabulary in which the decoder's contracts are
 stated. Nothing here is used to compute anything.
 */
module Readings {
  import opened Options
  import opened Quantities
  import opened Stats
  import opened Storage

  /** Some section is present and has a non-zero time. */
  ghost predicate Timed(cpu: Option<CPUStats>, memory: Option<MemoryStats>,
                        network: Option<NetworkStats>, fs: Option<FsStats>) {
    || (cpu.Some? && cpu.value.time != ZERO_TIME)
    || (memory.Some? && memory.value.time != ZERO_TIME)
    || (network.Some? && network.value.time != ZERO_TIME)
    || (fs.Some? && fs.value.time != ZERO_TIME)
  }

  /** `t` is one of the non-zero times of the sections, and none of them is earlier. */
  ghost predicate IsEarliest(t: Time, cpu: Option<CPUStats>, memory: Option<MemoryStats>,
                             network: Option<NetworkStats>, fs: Option<FsStats>) {
    && t != ZERO_TIME
    && ((cpu.Some? && cpu.value.time == t) || (memory.Some? && memory.value.time == t) ||
        (network.Some? && network.value.time == t) || (fs.Some? && fs.value.time == t))
    && (cpu.Some? && cpu.value.time != ZERO_TIME ==> t <= cpu.value.time)
    && (memory.Some? && memory.value.time != ZERO_TIME ==> t <= memory.value.time)
    && (network.Some? && network.value.time != ZERO_TIME ==> t <= network.value.time)
    && (fs.Some? && fs.value.time != ZERO_TIME ==> t <= fs.value.time)
  }

  /** A nil counter is dereferenced once decoding reaches these sections. */
  ghost predicate NilRead(memory: Option<MemoryStats>, fs: Option<FsStats>) {
    || (memory.Some? && memory.value.workingSetBytes.Some? && memory.value.usageBytes.None?)
    || (fs.Some? && (fs.value.availableBytes.None? || fs.value.capacityBytes.None?))
  }

  /** Every section is there with the counters it is decoded for. */
  ghost predicate Complete(cpu: Option<CPUStats>, memory: Option<MemoryStats>, fs: Option<FsStats>) {
    && cpu.Some? && cpu.value.usageNanoCores.Some?
    && memory.Some? && memory.value.workingSetBytes.Some? && memory.value.usageBytes.Some?
    && fs.Some? && fs.value.availableBytes.Some? && fs.value.capacityBytes.Some?
  }

  /**
   Each section that is there shows in the point, whatever the other two do: CPU in units of 10^-9, bytes
   in units of 1. What is missing shows as the zero quantity, and network is never decoded.
   */
  ghost predicate Carries(point: Point, cpu: Option<CPUStats>, memory: Option<MemoryStats>, fs: Option<FsStats>) {
    && (if cpu.Some? && cpu.value.usageNanoCores.Some?
        then Encodes(point.cpuUsageNanoCores, cpu.value.usageNanoCores.value, -9, DecimalSI)
        else point.cpuUsageNanoCores == Quantity(0, 0, NoFormat))
    && (if memory.Some? && memory.value.workingSetBytes.Some? && memory.value.usageBytes.Some?
        then
          && Encodes(point.memoryUsageBytes, memory.value.usageBytes.value, 0, BinarySI)
          && Encodes(point.memoryWorkingSetBytes, memory.value.workingSetBytes.value, 0, BinarySI)
          && (if memory.value.availableBytes.Some?
              then Encodes(point.memoryAvailableBytes, memory.value.availableBytes.value, 0, BinarySI)
              else point.memoryAvailableBytes == Quantity(0, 0, NoFormat))
        else
          && point.memoryUsageBytes == Quantity(0, 0, NoFormat)
          && point.memoryWorkingSetBytes == Quantity(0, 0, NoFormat)
          && point.memoryAvailableBytes == Quantity(0, 0, NoFormat))
    && (if fs.Some? && fs.value.availableBytes.Some? && fs.value.capacityBytes.Some?
        then
          && Encodes(point.fsAvailableBytes, fs.value.availableBytes.value, 0, BinarySI)
          && Encodes(point.fsCapacityBytes, fs.value.capacityBytes.value, 0, BinarySI)
          && Encodes(point.fsUsedBytes, if fs.value.usedBytes.Some? then fs.value.usedBytes.value else 0, 0, BinarySI)
        else
          && point.fsAvailableBytes == Quantity(0, 0, NoFormat)
          && point.fsCapacityBytes == Quantity(0, 0, NoFormat)
          && point.fsUsedBytes == Quantity(0, 0, NoFormat))
    && point.networkRxBytes == Quantity(0, 0, NoFormat)
    && point.networkTxBytes == Quantity(0, 0, NoFormat)
  }

  /** The node's name, earliest time and sections; the zero point when no section has a time. */
  ghost predicate CarriesNode(point: NodePoint, n: NodeStats) {
    if Timed(n.cpu, n.memory, n.network, n.fs) then
      && point.name == n.nodeName
      && IsEarliest(point.metrics.timestamp, n.cpu, n.memory, n.network, n.fs)
      && Carries(point.metrics, n.cpu, n.memory, n.fs)
    else
      && point.name == ""
      && point.metrics.timestamp == ZERO_TIME
      && Carries(point.metrics, None, None, None)
  }

  /** The pod's name, namespace, earliest time and sections. */
  ghost predicate CarriesPod(point: PodPoint, p: PodStats) {
    && point.name == p.podRef.name && point.namespace == p.podRef.namespace && point.containers == []
    && IsEarliest(point.metrics.timestamp, p.cpu, p.memory, None, None)
    && Carries(point.metrics, p.cpu, p.memory, p.ephemeralStorage)
  }

  /** The pod has a time and every section. */
  ghost predicate Keepable(p: PodStats) {
    Timed(p.cpu, p.memory, None, None) && Complete(p.cpu, p.memory, p.ephemeralStorage)
  }

  /** The pod, or the node, runs into a nil counter. */
  ghost predicate PodPanics(p: PodStats) {
    Timed(p.cpu, p.memory, None, None) && NilRead(p.memory, p.ephemeralStorage)
  }

  ghost predicate NodePanics(n: NodeStats) {
    Timed(n.cpu, n.memory, n.network, n.fs) && NilRead(n.memory, n.fs)
  }
}
