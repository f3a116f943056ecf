/** The GPU collector's emission: one block per device, ending in samples for the device's processes. */
module GPUCollector {
  import opened Options
  import opened Quantities
  import opened Processes
  import opened Samples

  /** Everything NVML is asked about one device, each query having succeeded. */
  datatype Device = Device(
    name: string,
    uuid: string,
    memoryTotal: Uint64,
    gpuUtilization: nat,
    memoryUtilization: nat,
    power: nat,
    temperature: nat,
    major: int,
    minor: int,
    architecture: int,
    smClock: nat,
    cores: nat,
    fanSpeed: nat,
    busWidth: nat,
    memClock: nat,
    compute: seq<Process>,
    mps: seq<Process>)
  {
    function Processes(): seq<Process> {
      compute + mps
    }

    function ProcInfo(): map<string, Uint64> {
      ProcMap(Processes())
    }
  }

  /** The answers to the two system-wide queries; `None` is a failed query. */
  datatype NVML = NVML(driverVersion: Option<string>, devices: Option<seq<Device>>)

  function Labels(d: Device): seq<string> {
    [d.name, d.uuid]
  }

  /** The ten descriptors sent for every device, in the order they are sent. */
  const HEADER: seq<Desc> :=
    [HostGPUCoreGauge, HostGPUMemoryGauge, HostGPUPowerGauge, GPUTemperature, GPUFlops,
     GPUArchitecture, GPUFanspeed, GPUBandwidth, GPUDriverVersion, GPUPodNum]

  function Reading(d: Device, desc: Desc): Value {
    match desc
    case HostGPUCoreGauge => Count(d.gpuUtilization)
    case HostGPUMemoryGauge => Count(d.memoryUtilization)
    case HostGPUPowerGauge => Count(d.power)
    case GPUTemperature => Count(d.temperature)
    case GPUFlops => Flops(d.smClock, d.cores, d.major, d.minor)
    case GPUArchitecture => Count(d.architecture)
    case GPUFanspeed => Count(d.fanSpeed)
    case GPUBandwidth => Bandwidth(d.busWidth, d.memClock)
    case GPUPodNum => Count(|d.ProcInfo()|)
    case _ => Count(0)
  }

  /** Only the driver version sample carries a third label. */
  function HeaderSample(d: Device, driverVersion: string, desc: Desc): Sample {
    Sample(desc, Reading(d, desc), if desc == GPUDriverVersion then Labels(d) + [driverVersion] else Labels(d))
  }

  /** The ten samples every device emits. */
  function Header(d: Device, driverVersion: string): seq<Sample> {
    seq(|HEADER|, i requires 0 <= i < |HEADER| => HeaderSample(d, driverVersion, HEADER[i]))
  }

  function IdleSamples(d: Device): seq<Sample> {
    [Sample(GPUMemoryCounter, Count(0), Labels(d)), Sample(GPUMemoryGauge, Count(0), Labels(d))]
  }

  function ProcessPair(d: Device, used: Uint64): seq<Sample> {
    [Sample(GPUMemoryCounter, Count(used), Labels(d)),
     Sample(GPUMemoryGauge, Percent(used, d.memoryTotal), Labels(d))]
  }

  /** `order` visits every key of a Go map once; Go leaves open which such order a loop takes. */
  ghost predicate Enumerates(order: seq<string>, keys: set<string>) {
    && (forall key :: key in order <==> key in keys)
    && (forall i, j :: 0 <= i < j < |order| ==> order[i] != order[j])
  }

  /** The samples of the processes listed in `order`, by their keys in the process map. */
  function ProcessSamples(d: Device, order: seq<string>): seq<Sample> {
    if order == [] then []
    else ProcessSamples(d, order[..|order| - 1]) + ProcessPair(d, UsedBy(d, order[|order| - 1]))
  }

  function UsedBy(d: Device, key: string): Uint64 {
    if key in d.ProcInfo() then d.ProcInfo()[key] else 0
  }

  function Tail(d: Device, order: seq<string>): seq<Sample> {
    if |d.ProcInfo()| == 0 then IdleSamples(d) else ProcessSamples(d, order)
  }

  /** A device together with the order in which the run iterated over its process map. */
  datatype Visit = Visit(device: Device, order: seq<string>) {
    ghost predicate Valid() {
      Enumerates(order, device.ProcInfo().Keys)
    }
  }

  function Block(v: Visit, driverVersion: string): seq<Sample> {
    Header(v.device, driverVersion) + Tail(v.device, v.order)
  }

  function Blocks(visits: seq<Visit>, driverVersion: string): seq<seq<Sample>> {
    seq(|visits|, i requires 0 <= i < |visits| => Block(visits[i], driverVersion))
  }

  /** One block per device, in device order. */
  function GPUTrace(visits: seq<Visit>, driverVersion: string): seq<Sample> {
    Joined(Blocks(visits, driverVersion))
  }

  /** The visits are to these devices, in this order. */
  ghost predicate VisitsOf(visits: seq<Visit>, devices: seq<Device>) {
    && |visits| == |devices|
    && forall i :: 0 <= i < |visits| ==> visits[i].device == devices[i] && visits[i].Valid()
  }

  /** The descriptors announced by `Describe`, in the order they are announced. */
  function Describe(): seq<Desc> {
    [HostGPUCoreGauge, HostGPUMemoryGauge, HostGPUPowerGauge, GPUArchitecture, GPUBandwidth, GPUDriverVersion,
     GPUFlops, GPUMemoryCounter, GPUMemoryGauge, GPUPodNum, GPUTemperature, GPUFanspeed]
  }

  /**
   With a driver version and a device count every device is visited, from the first to the last; without
   either nothing is sent.
   */
  method Collect(ch: Channel, nvml: NVML) returns (ghost visits: seq<Visit>)
    modifies ch
    ensures nvml.driverVersion.Some? && nvml.devices.Some? ==>
              && |visits| == |nvml.devices.value|
              && (forall i :: 0 <= i < |visits| ==> visits[i].device == nvml.devices.value[i] && visits[i].Valid())
              && ch.sent == old(ch.sent) + GPUTrace(visits, nvml.driverVersion.value)
    ensures nvml.driverVersion.None? || nvml.devices.None? ==> visits == [] && ch.sent == old(ch.sent)
  {
    visits := [];
    if nvml.driverVersion.None? {
      return;
    }
    var driverVersion := nvml.driverVersion.value;
    var devices := if nvml.devices.Some? then nvml.devices.value else [];
    visits := EmitDevices(ch, devices, driverVersion);
  }

  /** The loop over the devices. */
  method EmitDevices(ch: Channel, devices: seq<Device>, driverVersion: string) returns (ghost visits: seq<Visit>)
    modifies ch
    ensures VisitsOf(visits, devices)
    ensures ch.sent == old(ch.sent) + GPUTrace(visits, driverVersion)
  {
    visits := [];
    for i := 0 to |devices|
      invariant VisitsOf(visits, devices[..i])
      invariant ch.sent == old(ch.sent) + GPUTrace(visits, driverVersion)
    {
      ghost var sent := ch.sent;
      ghost var v, block := EmitDevice(ch, devices[i], driverVersion);
      OneMoreVisit(visits, v, devices, i);
      OneMoreBlock(visits, v, driverVersion);
      Regroup(sent, block, old(ch.sent), GPUTrace(visits, driverVersion));
      visits := visits + [v];
    }
    assert devices[..|devices|] == devices;
  }

  lemma OneMoreVisit(visits: seq<Visit>, v: Visit, devices: seq<Device>, i: nat)
    requires i < |devices| && VisitsOf(visits, devices[..i])
    requires v.device == devices[i] && v.Valid()
    ensures VisitsOf(visits + [v], devices[..i + 1])
  {
    assert devices[..i + 1] == devices[..i] + [devices[i]];
  }

  lemma OneMoreBlock(visits: seq<Visit>, v: Visit, driverVersion: string)
    ensures GPUTrace(visits + [v], driverVersion) == GPUTrace(visits, driverVersion) + Block(v, driverVersion)
  {
    assert Blocks(visits + [v], driverVersion) == Blocks(visits, driverVersion) + [Block(v, driverVersion)];
    JoinedAppend(Blocks(visits, driverVersion), Block(v, driverVersion));
  }

  lemma Regroup(sent: seq<Sample>, more: seq<Sample>, start: seq<Sample>, trace: seq<Sample>)
    requires sent == start + trace
    ensures sent + more == start + (trace + more)
  {
  }

  /** The loop body: the sends for one device. */
  method EmitDevice(ch: Channel, d: Device, driverVersion: string) returns (ghost v: Visit, ghost block: seq<Sample>)
    modifies ch
    ensures v.device == d && v.Valid() && block == Block(v, driverVersion)
    ensures ch.sent == old(ch.sent) + block
  {
    var procInfo := EmitHeader(ch, d, driverVersion);
    ghost var sent := ch.sent;
    ghost var order := EmitProcesses(ch, d, procInfo);
    Regroup(sent, Tail(d, order), old(ch.sent), Header(d, driverVersion));
    v, block := Visit(d, order), Header(d, driverVersion) + Tail(d, order);
  }

  method EmitHeader(ch: Channel, d: Device, driverVersion: string) returns (procInfo: map<string, Uint64>)
    modifies ch
    ensures procInfo == d.ProcInfo()
    ensures ch.sent == old(ch.sent) + Header(d, driverVersion)
  {
    ghost var start, plan := ch.sent, Header(d, driverVersion);
    EmitLoad(ch, d, driverVersion, start, plan);
    EmitModel(ch, d, driverVersion, start, plan);
    procInfo := GetGPUProcess(d.compute, d.mps);
    ch.SendNext(Sample(GPUPodNum, Count(|procInfo|), Labels(d)), start, plan, 9);
    assert plan[..10] == plan;
  }

  method EmitLoad(ch: Channel, d: Device, ghost driverVersion: string,
                  ghost start: seq<Sample>, ghost plan: seq<Sample>)
    requires plan == Header(d, driverVersion) && ch.sent == start
    modifies ch
    ensures ch.sent == start + plan[..4]
  {
    var labels := Labels(d);
    ch.SendNext(Sample(HostGPUCoreGauge, Count(d.gpuUtilization), labels), start, plan, 0);
    ch.SendNext(Sample(HostGPUMemoryGauge, Count(d.memoryUtilization), labels), start, plan, 1);
    ch.SendNext(Sample(HostGPUPowerGauge, Count(d.power), labels), start, plan, 2);
    ch.SendNext(Sample(GPUTemperature, Count(d.temperature), labels), start, plan, 3);
  }

  method EmitModel(ch: Channel, d: Device, driverVersion: string, ghost start: seq<Sample>, ghost plan: seq<Sample>)
    requires plan == Header(d, driverVersion) && ch.sent == start + plan[..4]
    modifies ch
    ensures ch.sent == start + plan[..9]
  {
    var labels := Labels(d);
    ch.SendNext(Sample(GPUFlops, Flops(d.smClock, d.cores, d.major, d.minor), labels), start, plan, 4);
    ch.SendNext(Sample(GPUArchitecture, Count(d.architecture), labels), start, plan, 5);
    ch.SendNext(Sample(GPUFanspeed, Count(d.fanSpeed), labels), start, plan, 6);
    ch.SendNext(Sample(GPUBandwidth, Bandwidth(d.busWidth, d.memClock), labels), start, plan, 7);
    ch.SendNext(Sample(GPUDriverVersion, Count(0), labels + [driverVersion]), start, plan, 8);
  }

  /** The two branches after the process count: a pair of zeros, or a pair for each entry in any order. */
  method EmitProcesses(ch: Channel, d: Device, procInfo: map<string, Uint64>) returns (ghost order: seq<string>)
    requires procInfo == d.ProcInfo()
    modifies ch
    ensures Enumerates(order, d.ProcInfo().Keys)
    ensures ch.sent == old(ch.sent) + Tail(d, order)
  {
    order := [];
    if |procInfo| == 0 {
      ch.Send(Sample(GPUMemoryCounter, Count(0), Labels(d)));
      ch.Send(Sample(GPUMemoryGauge, Count(0), Labels(d)));
      return;
    }
    order := EmitEntries(ch, d, procInfo);
  }

  /** The loop over the process map, which visits its entries in any order. */
  method EmitEntries(ch: Channel, d: Device, procInfo: map<string, Uint64>) returns (ghost order: seq<string>)
    requires procInfo == d.ProcInfo()
    modifies ch
    ensures Enumerates(order, procInfo.Keys)
    ensures ch.sent == old(ch.sent) + ProcessSamples(d, order)
  {
    order := [];
    var remaining := procInfo.Keys;
    ghost var done: set<string> := {};
    while remaining != {}
      invariant remaining + done == procInfo.Keys && remaining !! done
      invariant Enumerates(order, done)
      invariant ch.sent == old(ch.sent) + ProcessSamples(d, order)
      decreases remaining
    {
      var key :| key in remaining;
      ghost var sent := ch.sent;
      EmitPair(ch, d, procInfo[key]);
      OneMoreKey(d, order, done, key);
      Regroup(sent, ProcessPair(d, procInfo[key]), old(ch.sent), ProcessSamples(d, order));
      order, done, remaining := order + [key], done + {key}, remaining - {key};
    }
  }

  method EmitPair(ch: Channel, d: Device, value: Uint64)
    modifies ch
    ensures ch.sent == old(ch.sent) + ProcessPair(d, value)
  {
    ch.Send(Sample(GPUMemoryCounter, Count(value), Labels(d)));
    ch.Send(Sample(GPUMemoryGauge, Percent(value, d.memoryTotal), Labels(d)));
  }

  lemma OneMoreKey(d: Device, order: seq<string>, done: set<string>, key: string)
    requires Enumerates(order, done) && key !in done
    ensures Enumerates(order + [key], done + {key})
    ensures ProcessSamples(d, order + [key]) == ProcessSamples(d, order) + ProcessPair(d, UsedBy(d, key))
  {
    assert (order + [key])[..|order|] == order;
  }
}
