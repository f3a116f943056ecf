/** What the GPU trace guarantees, for every list of devices and every iteration order of their process maps. */
module GPUProperties {
  import opened Processes
  import opened Quantities
  import opened Samples
  import opened GPUCollector

  // ----- enumerations of a map's keys

  lemma EnumerationPrefix(order: seq<string>, keys: set<string>)
    requires Enumerates(order, keys) && order != []
    ensures order == order[..|order| - 1] + [order[|order| - 1]]
    ensures order[|order| - 1] in keys
    ensures Enumerates(order[..|order| - 1], keys - {order[|order| - 1]})
  {
  }

  lemma {:induction false} EnumerationSize(order: seq<string>, keys: set<string>)
    requires Enumerates(order, keys)
    ensures |order| == |keys|
  {
    if order != [] {
      EnumerationPrefix(order, keys);
      EnumerationSize(order[..|order| - 1], keys - {order[|order| - 1]});
    } else {
      assert keys == {};
    }
  }

  lemma {:induction false} CountInEnumeration(order: seq<string>, keys: set<string>, key: string)
    requires Enumerates(order, keys)
    ensures multiset(order)[key] == if key in keys then 1 else 0
  {
    if order != [] {
      EnumerationPrefix(order, keys);
      CountInEnumeration(order[..|order| - 1], keys - {order[|order| - 1]}, key);
    }
  }

  lemma SameEnumeration(a: seq<string>, b: seq<string>, keys: set<string>)
    requires Enumerates(a, keys) && Enumerates(b, keys)
    ensures multiset(a) == multiset(b)
  {
    forall key: string
      ensures multiset(a)[key] == multiset(b)[key]
    {
      CountInEnumeration(a, keys, key);
      CountInEnumeration(b, keys, key);
    }
  }

  // ----- counts and block structure

  lemma {:induction false} ProcessSamplesSize(d: Device, order: seq<string>)
    ensures |ProcessSamples(d, order)| == 2 * |order|
  {
    if order != [] {
      ProcessSamplesSize(d, order[..|order| - 1]);
    }
  }

  function BlockSize(d: Device): nat {
    var n := |Pids(d.Processes())|;
    10 + 2 * (if n == 0 then 1 else n)
  }

  /** Each device yields 10 samples and two more per distinct PID, or two more when it has none. */
  lemma BlockHasSize(v: Visit, driverVersion: string)
    requires v.Valid()
    ensures |Block(v, driverVersion)| == BlockSize(v.device)
    ensures var pids := set p | p in v.device.compute + v.device.mps :: p.pid;
            |Block(v, driverVersion)| == 10 + 2 * (if |pids| == 0 then 1 else |pids|)
  {
    EnumerationSize(v.order, v.device.ProcInfo().Keys);
    ProcessSamplesSize(v.device, v.order);
    ProcMapSize(v.device.Processes());
  }

  function TotalSize(devices: seq<Device>): nat {
    if devices == [] then 0 else TotalSize(devices[..|devices| - 1]) + BlockSize(devices[|devices| - 1])
  }

  lemma {:induction false} JoinedSize(blocks: seq<seq<Sample>>, devices: seq<Device>)
    requires |blocks| == |devices| && forall i :: 0 <= i < |devices| ==> |blocks[i]| == BlockSize(devices[i])
    ensures |Joined(blocks)| == TotalSize(devices)
  {
    if devices != [] {
      JoinedSize(blocks[..|devices| - 1], devices[..|devices| - 1]);
    }
  }

  lemma TraceSize(visits: seq<Visit>, devices: seq<Device>, driverVersion: string)
    requires VisitsOf(visits, devices)
    ensures |GPUTrace(visits, driverVersion)| == TotalSize(devices)
  {
    forall i | 0 <= i < |visits|
      ensures |Blocks(visits, driverVersion)[i]| == BlockSize(devices[i])
    {
      BlockHasSize(visits[i], driverVersion);
    }
    JoinedSize(Blocks(visits, driverVersion), devices);
  }

  /** Device `i`'s block stands, whole, right after those of the devices before it. */
  lemma BlockStandsAt(visits: seq<Visit>, devices: seq<Device>, driverVersion: string, i: nat)
    requires VisitsOf(visits, devices) && i < |devices|
    ensures StandsAt(GPUTrace(visits, driverVersion), Block(visits[i], driverVersion), TotalSize(devices[..i]))
    ensures |Block(visits[i], driverVersion)| == BlockSize(devices[i])
  {
    SizeBefore(visits, devices, driverVersion, i);
    BlockHasSize(visits[i], driverVersion);
    BlockOfJoined(Blocks(visits, driverVersion), i);
  }

  predicate StandsAt(trace: seq<Sample>, block: seq<Sample>, at: nat) {
    at + |block| <= |trace| && trace[at..at + |block|] == block
  }

  lemma BlockOfJoined(blocks: seq<seq<Sample>>, i: nat)
    requires i < |blocks|
    ensures StandsAt(Joined(blocks), blocks[i], |Joined(blocks[..i])|)
  {
    JoinedAt(blocks, i);
  }

  lemma SizeBefore(visits: seq<Visit>, devices: seq<Device>, driverVersion: string, i: nat)
    requires VisitsOf(visits, devices) && i < |devices|
    ensures |Joined(Blocks(visits, driverVersion)[..i])| == TotalSize(devices[..i])
  {
    TraceSize(visits[..i], devices[..i], driverVersion);
    assert Blocks(visits[..i], driverVersion) == Blocks(visits, driverVersion)[..i];
  }

  // ----- independence of map iteration order

  lemma {:induction false} ProcessSamplesConcat(d: Device, a: seq<string>, b: seq<string>)
    ensures ProcessSamples(d, a + b) == ProcessSamples(d, a) + ProcessSamples(d, b)
  {
    if b == [] {
      assert a + b == a;
    } else {
      assert (a + b)[..|a + b| - 1] == a + b[..|b| - 1];
      ProcessSamplesConcat(d, a, b[..|b| - 1]);
    }
  }

  lemma ProcessSamplesOne(d: Device, key: string)
    ensures ProcessSamples(d, [key]) == ProcessPair(d, UsedBy(d, key))
  {
    assert [key][..0] == [];
    assert ProcessSamples(d, [key]) == [] + ProcessPair(d, UsedBy(d, key));
  }

  lemma TakeOut(a: seq<string>, b: seq<string>, i: nat)
    requires a != [] && multiset(a) == multiset(b)
    requires i < |b| && b[i] == a[|a| - 1]
    ensures multiset(a[..|a| - 1]) == multiset(b[..i] + b[i + 1..])
  {
    var x, front, back := b[i], b[..i], b[i + 1..];
    assert a == a[..|a| - 1] + [x];
    assert b == front + [x] + back;
    assert multiset(a[..|a| - 1]) == multiset(a) - multiset{x};
    assert multiset(front + back) == multiset(b) - multiset{x};
  }

  lemma ProcessSamplesTakeOut(d: Device, b: seq<string>, i: nat)
    requires i < |b|
    ensures multiset(ProcessSamples(d, b))
         == multiset(ProcessSamples(d, b[..i] + b[i + 1..])) + multiset(ProcessPair(d, UsedBy(d, b[i])))
  {
    assert b == b[..i + 1] + b[i + 1..] && b[..i + 1][..i] == b[..i];
    ProcessSamplesConcat(d, b[..i + 1], b[i + 1..]);
    ProcessSamplesConcat(d, b[..i], b[i + 1..]);
  }

  /** The samples of one process map, in any order, are the same multiset. */
  lemma {:induction false} ProcessSamplesIgnoreOrder(d: Device, a: seq<string>, b: seq<string>)
    requires multiset(a) == multiset(b)
    ensures multiset(ProcessSamples(d, a)) == multiset(ProcessSamples(d, b))
  {
    if a == [] {
      assert |multiset(b)| == 0;
    } else {
      assert a[|a| - 1] in multiset(b);
      var i :| 0 <= i < |b| && b[i] == a[|a| - 1];
      TakeOut(a, b, i);
      ProcessSamplesIgnoreOrder(d, a[..|a| - 1], b[..i] + b[i + 1..]);
      ProcessSamplesTakeOut(d, b, i);
    }
  }

  lemma BlockIgnoresMapOrder(a: Visit, b: Visit, driverVersion: string)
    requires a.device == b.device && a.Valid() && b.Valid()
    ensures multiset(Block(a, driverVersion)) == multiset(Block(b, driverVersion))
  {
    SameEnumeration(a.order, b.order, a.device.ProcInfo().Keys);
    ProcessSamplesIgnoreOrder(a.device, a.order, b.order);
  }

  /** Whatever orders Go picks for the process maps, a run emits the same multiset of samples. */
  lemma TraceIgnoresMapOrder(devices: seq<Device>, driverVersion: string, a: seq<Visit>, b: seq<Visit>)
    requires VisitsOf(a, devices) && VisitsOf(b, devices)
    ensures multiset(GPUTrace(a, driverVersion)) == multiset(GPUTrace(b, driverVersion))
  {
    forall i | 0 <= i < |devices|
      ensures multiset(Blocks(a, driverVersion)[i]) == multiset(Blocks(b, driverVersion)[i])
    {
      BlockIgnoresMapOrder(a[i], b[i], driverVersion);
    }
    JoinedMultiset(Blocks(a, driverVersion), Blocks(b, driverVersion));
  }

  // ----- what is reported about processes

  lemma {:induction false} PairIsSentIff(d: Device, order: seq<string>, s: Sample)
    ensures s in ProcessSamples(d, order) <==> exists k :: 0 <= k < |order| && s in ProcessPair(d, UsedBy(d, order[k]))
  {
    if order != [] {
      var init := order[..|order| - 1];
      PairIsSentIff(d, init, s);
      assert forall k :: 0 <= k < |init| ==> order[k] == init[k];
    }
  }

  /** Process `i` of the device is the one whose memory the map keeps for its PID. */
  predicate Counts(d: Device, i: nat) {
    i < |d.Processes()| && IsLastOfPid(d.Processes(), i)
  }

  lemma UsedByProcess(d: Device, i: nat)
    requires Counts(d, i)
    ensures Decimal(d.Processes()[i].pid) in d.ProcInfo()
    ensures UsedBy(d, Decimal(d.Processes()[i].pid)) == d.Processes()[i].usedGpuMemory
  {
    ProcMapLastWins(d.Processes());
  }

  /**
   The memory of the last process listed for each PID, MPS after compute, is sent as a number and as a share
   of the device's memory.
   */
  lemma EveryProcessIsReported(v: Visit, i: nat)
    requires v.Valid() && i < |v.device.compute + v.device.mps|
    requires forall j :: i < j < |v.device.compute + v.device.mps| ==>
               (v.device.compute + v.device.mps)[j].pid != (v.device.compute + v.device.mps)[i].pid
    ensures var d, used := v.device, (v.device.compute + v.device.mps)[i].usedGpuMemory;
            && Sample(GPUMemoryCounter, Count(used), [d.name, d.uuid]) in Tail(d, v.order)
            && Sample(GPUMemoryGauge, Percent(used, d.memoryTotal), [d.name, d.uuid]) in Tail(d, v.order)
  {
    var d, key := v.device, Decimal(v.device.Processes()[i].pid);
    assert Counts(d, i);
    UsedByProcess(d, i);
    assert key in v.order;
    var k :| 0 <= k < |v.order| && v.order[k] == key;
    var pair := ProcessPair(d, UsedBy(d, key));
    assert pair[0] in pair && pair[1] in pair;
    PairIsSentIff(d, v.order, pair[0]);
    PairIsSentIff(d, v.order, pair[1]);
    assert |d.ProcInfo()| != 0;
  }

  lemma SampleIsOfProcess(v: Visit, s: Sample) returns (i: nat)
    requires v.Valid() && s in ProcessSamples(v.device, v.order)
    ensures Counts(v.device, i) && s in ProcessPair(v.device, v.device.Processes()[i].usedGpuMemory)
  {
    var d := v.device;
    PairIsSentIff(d, v.order, s);
    var k :| 0 <= k < |v.order| && s in ProcessPair(d, UsedBy(d, v.order[k]));
    assert v.order[k] in v.order;
    ProcMapLastWins(d.Processes());
    var pid :| pid in Pids(d.Processes()) && v.order[k] == Decimal(pid);
    i := LastOccurrence(d.Processes(), pid);
    UsedByProcess(d, i);
  }

  /** Conversely, what a busy device sends about memory in use is the memory of such a process. */
  lemma EveryReportIsAProcess(v: Visit, s: Sample) returns (i: nat)
    requires v.Valid() && v.device.compute + v.device.mps != [] && s in Tail(v.device, v.order)
    ensures i < |v.device.compute + v.device.mps|
    ensures forall j :: i < j < |v.device.compute + v.device.mps| ==>
              (v.device.compute + v.device.mps)[j].pid != (v.device.compute + v.device.mps)[i].pid
    ensures var d, used := v.device, (v.device.compute + v.device.mps)[i].usedGpuMemory;
            || s == Sample(GPUMemoryCounter, Count(used), [d.name, d.uuid])
            || s == Sample(GPUMemoryGauge, Percent(used, d.memoryTotal), [d.name, d.uuid])
  {
    BusyTail(v);
    i := SampleIsOfProcess(v, s);
    PairMembers(v.device, v.device.Processes()[i].usedGpuMemory, s);
  }

  lemma PairMembers(d: Device, used: Uint64, s: Sample)
    requires s in ProcessPair(d, used)
    ensures s == Sample(GPUMemoryCounter, Count(used), [d.name, d.uuid]) ||
            s == Sample(GPUMemoryGauge, Percent(used, d.memoryTotal), [d.name, d.uuid])
  {
  }

  // ----- a device's block in terms of its fields

  /** The ten samples of a device, whatever its processes: how busy it is, then what it is. */
  ghost predicate ReportsDevice(block: seq<Sample>, d: Device, driverVersion: string) {
    ReportsLoad(block, d) && ReportsModel(block, d, driverVersion)
  }

  ghost predicate ReportsLoad(block: seq<Sample>, d: Device) {
    && |block| >= 10
    && block[0] == Sample(HostGPUCoreGauge, Count(d.gpuUtilization), [d.name, d.uuid])
    && block[1] == Sample(HostGPUMemoryGauge, Count(d.memoryUtilization), [d.name, d.uuid])
    && block[2] == Sample(HostGPUPowerGauge, Count(d.power), [d.name, d.uuid])
    && block[3] == Sample(GPUTemperature, Count(d.temperature), [d.name, d.uuid])
    && block[9] == Sample(GPUPodNum, Count(|(set p | p in d.compute + d.mps :: p.pid)|), [d.name, d.uuid])
  }

  ghost predicate ReportsModel(block: seq<Sample>, d: Device, driverVersion: string) {
    && |block| >= 10
    && block[4] == Sample(GPUFlops, Flops(d.smClock, d.cores, d.major, d.minor), [d.name, d.uuid])
    && block[5] == Sample(GPUArchitecture, Count(d.architecture), [d.name, d.uuid])
    && block[6] == Sample(GPUFanspeed, Count(d.fanSpeed), [d.name, d.uuid])
    && block[7] == Sample(GPUBandwidth, Bandwidth(d.busWidth, d.memClock), [d.name, d.uuid])
    && block[8] == Sample(GPUDriverVersion, Count(0), [d.name, d.uuid, driverVersion])
  }

  /** Without a process, a pair of zeros and no more. */
  ghost predicate ReportsIdle(block: seq<Sample>, d: Device) {
    && |block| == 12
    && block[10] == Sample(GPUMemoryCounter, Count(0), [d.name, d.uuid])
    && block[11] == Sample(GPUMemoryGauge, Count(0), [d.name, d.uuid])
  }

  /** With processes, a pair for each key visited, the number before the share, and no more. */
  ghost predicate ReportsBusy(block: seq<Sample>, d: Device, order: seq<string>) {
    var used := ProcMap(d.compute + d.mps);
    && |block| == 10 + 2 * |order|
    && forall k :: 0 <= k < |order| ==>
         && order[k] in used
         && block[10 + 2 * k] == Sample(GPUMemoryCounter, Count(used[order[k]]), [d.name, d.uuid])
         && block[11 + 2 * k] == Sample(GPUMemoryGauge, Percent(used[order[k]], d.memoryTotal), [d.name, d.uuid])
  }

  lemma HeaderOrder()
    ensures |HEADER| == 10
    ensures HEADER[0] == HostGPUCoreGauge && HEADER[1] == HostGPUMemoryGauge && HEADER[2] == HostGPUPowerGauge
    ensures HEADER[3] == GPUTemperature && HEADER[4] == GPUFlops && HEADER[5] == GPUArchitecture
    ensures HEADER[6] == GPUFanspeed && HEADER[7] == GPUBandwidth && HEADER[8] == GPUDriverVersion
    ensures HEADER[9] == GPUPodNum
  {
  }

  lemma HeaderAt(d: Device, driverVersion: string, i: nat, desc: Desc)
    requires i < |HEADER| && HEADER[i] == desc
    ensures |Header(d, driverVersion)| == |HEADER|
    ensures Header(d, driverVersion)[i] == HeaderSample(d, driverVersion, desc)
  {
  }

  lemma HeaderReportsLoad(d: Device, driverVersion: string)
    ensures ReportsLoad(Header(d, driverVersion), d)
  {
    HeaderOrder();
    HeaderAt(d, driverVersion, 0, HostGPUCoreGauge);
    HeaderAt(d, driverVersion, 1, HostGPUMemoryGauge);
    HeaderAt(d, driverVersion, 2, HostGPUPowerGauge);
    HeaderAt(d, driverVersion, 3, GPUTemperature);
    PodNumCountsPids(d, driverVersion);
  }

  lemma HeaderReportsCompute(d: Device, driverVersion: string)
    ensures |Header(d, driverVersion)| == 10
    ensures Header(d, driverVersion)[4]
         == Sample(GPUFlops, Flops(d.smClock, d.cores, d.major, d.minor), [d.name, d.uuid])
    ensures Header(d, driverVersion)[5] == Sample(GPUArchitecture, Count(d.architecture), [d.name, d.uuid])
  {
    HeaderOrder();
    HeaderAt(d, driverVersion, 4, GPUFlops);
    HeaderAt(d, driverVersion, 5, GPUArchitecture);
  }

  lemma HeaderReportsModel(d: Device, driverVersion: string)
    ensures ReportsModel(Header(d, driverVersion), d, driverVersion)
  {
    HeaderReportsCompute(d, driverVersion);
    HeaderOrder();
    HeaderAt(d, driverVersion, 6, GPUFanspeed);
    HeaderAt(d, driverVersion, 7, GPUBandwidth);
    HeaderAt(d, driverVersion, 8, GPUDriverVersion);
  }

  lemma HeaderReports(d: Device, driverVersion: string)
    ensures |Header(d, driverVersion)| == 10 && ReportsDevice(Header(d, driverVersion), d, driverVersion)
  {
    HeaderReportsLoad(d, driverVersion);
    HeaderReportsModel(d, driverVersion);
  }

  /** The count sent for a device is its number of distinct PIDs. */
  lemma PodNumCountsPids(d: Device, driverVersion: string)
    ensures |Header(d, driverVersion)| == 10
    ensures Header(d, driverVersion)[9]
         == Sample(GPUPodNum, Count(|(set p | p in d.compute + d.mps :: p.pid)|), [d.name, d.uuid])
  {
    ProcMapSize(d.Processes());
    HeaderOrder();
    HeaderAt(d, driverVersion, 9, GPUPodNum);
  }

  lemma {:induction false} PairAt(d: Device, order: seq<string>, k: nat)
    requires k < |order|
    ensures |ProcessSamples(d, order)| == 2 * |order|
    ensures ProcessSamples(d, order)[2 * k] == ProcessPair(d, UsedBy(d, order[k]))[0]
    ensures ProcessSamples(d, order)[2 * k + 1] == ProcessPair(d, UsedBy(d, order[k]))[1]
  {
    var n := |order| - 1;
    ProcessSamplesSize(d, order[..n]);
    if k < n {
      PairAt(d, order[..n], k);
    }
  }

  lemma IdleTail(d: Device, order: seq<string>)
    requires d.compute == [] && d.mps == []
    ensures Tail(d, order) == IdleSamples(d)
  {
    assert ProcMap(d.Processes()) == map[];
  }

  lemma BusyTail(v: Visit)
    requires v.Valid() && v.device.compute + v.device.mps != []
    ensures Tail(v.device, v.order) == ProcessSamples(v.device, v.order)
  {
    var procs := v.device.Processes();
    assert procs[0] in procs && procs[0].pid in Pids(procs);
    KeyPresentIff(procs, procs[0].pid);
    assert |v.device.ProcInfo()| != 0;
  }

  lemma ReportsConcat(a: seq<Sample>, b: seq<Sample>, d: Device, driverVersion: string)
    requires ReportsDevice(a, d, driverVersion)
    ensures ReportsDevice(a + b, d, driverVersion)
  {
  }

  lemma IdleBlock(v: Visit, driverVersion: string)
    requires v.device.compute == [] && v.device.mps == [] && |Header(v.device, driverVersion)| == 10
    ensures ReportsIdle(Block(v, driverVersion), v.device)
  {
    IdleTail(v.device, v.order);
  }

  /** What a block says, sample by sample, in the device's own fields. */
  lemma BlockReports(v: Visit, driverVersion: string)
    requires v.Valid()
    ensures ReportsDevice(Block(v, driverVersion), v.device, driverVersion)
    ensures v.device.compute == [] && v.device.mps == [] ==> ReportsIdle(Block(v, driverVersion), v.device)
    ensures v.device.compute != [] || v.device.mps != [] ==> ReportsBusy(Block(v, driverVersion), v.device, v.order)
  {
    HeaderReports(v.device, driverVersion);
    ReportsConcat(Header(v.device, driverVersion), Tail(v.device, v.order), v.device, driverVersion);
    if v.device.compute == [] && v.device.mps == [] {
      IdleBlock(v, driverVersion);
    } else {
      BusyTail(v);
      BusyBlock(v, driverVersion);
    }
  }

  lemma BusyBlock(v: Visit, driverVersion: string)
    requires v.Valid() && Tail(v.device, v.order) == ProcessSamples(v.device, v.order)
    requires |Header(v.device, driverVersion)| == 10
    ensures ReportsBusy(Block(v, driverVersion), v.device, v.order)
  {
    ProcessSamplesSize(v.device, v.order);
    forall k | 0 <= k < |v.order|
      ensures v.order[k] in v.device.ProcInfo()
      ensures Block(v, driverVersion)[10 + 2 * k] == ProcessPair(v.device, UsedBy(v.device, v.order[k]))[0]
      ensures Block(v, driverVersion)[11 + 2 * k] == ProcessPair(v.device, UsedBy(v.device, v.order[k]))[1]
    {
      assert v.order[k] in v.order;
      PairAt(v.device, v.order, k);
    }
  }

  /** In the whole trace: device `i` is reported in its place, right after the devices before it. */
  lemma EveryDeviceIsReported(visits: seq<Visit>, devices: seq<Device>, driverVersion: string, i: nat)
      returns (block: seq<Sample>)
    requires VisitsOf(visits, devices) && i < |devices|
    ensures StandsAt(GPUTrace(visits, driverVersion), block, TotalSize(devices[..i]))
    ensures ReportsDevice(block, devices[i], driverVersion)
    ensures devices[i].compute == [] && devices[i].mps == [] ==> ReportsIdle(block, devices[i])
    ensures devices[i].compute != [] || devices[i].mps != [] ==> ReportsBusy(block, devices[i], visits[i].order)
  {
    block := Block(visits[i], driverVersion);
    BlockStandsAt(visits, devices, driverVersion, i);
    BlockReports(visits[i], driverVersion);
  }

  // ----- descriptors

  lemma {:induction false} ProcessDescs(d: Device, order: seq<string>)
    ensures Descs(ProcessSamples(d, order)) == if order == [] then {} else {GPUMemoryCounter, GPUMemoryGauge}
  {
    if order != [] {
      var init, pair := order[..|order| - 1], ProcessPair(d, UsedBy(d, order[|order| - 1]));
      ProcessDescs(d, init);
      DescsConcat(ProcessSamples(d, init), pair);
      assert pair[0] in pair && pair[1] in pair;
    }
  }

  lemma HeaderDescs(d: Device, driverVersion: string)
    ensures Descs(Header(d, driverVersion)) == set desc | desc in HEADER
  {
    var header := Header(d, driverVersion);
    forall desc | desc in HEADER
      ensures desc in Descs(header)
    {
      var i :| 0 <= i < |HEADER| && HEADER[i] == desc;
      assert header[i] in header;
    }
  }

  lemma BlockDescs(v: Visit, driverVersion: string)
    requires v.Valid()
    ensures Descs(Block(v, driverVersion)) == (set desc | desc in HEADER) + {GPUMemoryCounter, GPUMemoryGauge}
  {
    var d := v.device;
    HeaderDescs(d, driverVersion);
    EnumerationSize(v.order, d.ProcInfo().Keys);
    ProcessDescs(d, v.order);
    DescsConcat(Header(d, driverVersion), Tail(d, v.order));
    assert IdleSamples(d)[0] in IdleSamples(d) && IdleSamples(d)[1] in IdleSamples(d);
  }

  /** With a device, whether busy or idle, the descriptors used are exactly those announced. */
  lemma DescriptorsAreDescribed(visits: seq<Visit>, devices: seq<Device>, driverVersion: string)
    requires VisitsOf(visits, devices)
    ensures Descs(GPUTrace(visits, driverVersion)) == if devices == [] then {} else set desc | desc in Describe()
  {
    var blocks := Blocks(visits, driverVersion);
    var used := (set desc | desc in HEADER) + {GPUMemoryCounter, GPUMemoryGauge};
    forall i | 0 <= i < |visits|
      ensures Descs(blocks[i]) == used
    {
      BlockDescs(visits[i], driverVersion);
    }
    JoinedDescs(blocks, used);
    DescribedIsUsed();
  }

  lemma DescribedIsUsed()
    ensures (set desc | desc in Describe()) == (set desc | desc in HEADER) + {GPUMemoryCounter, GPUMemoryGauge}
  {
  }

  // ----- sample identity

  lemma {:induction false} ProcessSampleLabels(d: Device, order: seq<string>)
    ensures forall s :: s in ProcessSamples(d, order) ==> s.labels == Labels(d)
  {
    if order != [] {
      ProcessSampleLabels(d, order[..|order| - 1]);
    }
  }

  lemma HeaderLabels(d: Device, driverVersion: string)
    ensures forall s :: s in Header(d, driverVersion) ==>
              s.labels == if s.desc == GPUDriverVersion then [d.name, d.uuid, driverVersion] else [d.name, d.uuid]
  {
  }

  lemma TailLabels(d: Device, order: seq<string>)
    ensures forall s :: s in Tail(d, order) ==> s.labels == [d.name, d.uuid] && s.desc != GPUDriverVersion
  {
    ProcessSampleLabels(d, order);
    ProcessSamplesAreNoVersion(d, order);
  }

  lemma {:induction false} ProcessSamplesAreNoVersion(d: Device, order: seq<string>)
    ensures forall s :: s in ProcessSamples(d, order) ==> s.desc != GPUDriverVersion
  {
    if order != [] {
      ProcessSamplesAreNoVersion(d, order[..|order| - 1]);
    }
  }

  /** Every sample is labelled with the device's name and UUID, the driver version sample with the version too. */
  lemma BlockLabels(v: Visit, driverVersion: string)
    ensures forall s :: s in Block(v, driverVersion) ==>
              && |s.labels| >= 2 && s.labels[0] == v.device.name && s.labels[1] == v.device.uuid
              && (if s.desc == GPUDriverVersion then |s.labels| == 3 && s.labels[2] == driverVersion
                  else |s.labels| == 2)
  {
    HeaderLabels(v.device, driverVersion);
    TailLabels(v.device, v.order);
  }

  ghost predicate AtMostOnePid(d: Device) {
    |(set p | p in d.compute + d.mps :: p.pid)| <= 1
  }

  lemma FirstTwoPairsCollide(d: Device, order: seq<string>)
    requires |order| >= 2
    ensures !UniqueIdentities(ProcessSamples(d, order))
  {
    var two := ProcessPair(d, UsedBy(d, order[0])) + ProcessPair(d, UsedBy(d, order[1]));
    assert order == order[..2] + order[2..];
    ProcessSamplesConcat(d, order[..2], order[2..]);
    assert order[..2] == [order[0]] + [order[1]];
    ProcessSamplesConcat(d, [order[0]], [order[1]]);
    ProcessSamplesOne(d, order[0]);
    ProcessSamplesOne(d, order[1]);
    UniqueConcat(two, ProcessSamples(d, order[2..]));
    assert IdentityOf(two[0]) == IdentityOf(two[2]);
  }

  /** Where a descriptor stands in the header; the two process descriptors come after it. */
  function Position(desc: Desc): int {
    match desc
    case HostGPUCoreGauge => 0
    case HostGPUMemoryGauge => 1
    case HostGPUPowerGauge => 2
    case GPUTemperature => 3
    case GPUFlops => 4
    case GPUArchitecture => 5
    case GPUFanspeed => 6
    case GPUBandwidth => 7
    case GPUDriverVersion => 8
    case GPUPodNum => 9
    case GPUMemoryCounter => 10
    case GPUMemoryGauge => 11
    case _ => -1
  }

  lemma HeaderPositions(d: Device, driverVersion: string)
    ensures |Header(d, driverVersion)| == 10
    ensures Positioned(Header(d, driverVersion), 0)
  {
    HeaderDescPositions();
  }

  lemma HeaderDescPositions()
    ensures |HEADER| == 10 && forall i :: 0 <= i < 10 ==> Position(HEADER[i]) == i
  {
  }

  lemma ShortTail(d: Device, order: seq<string>)
    requires |order| <= 1 && |order| == |d.ProcInfo()|
    ensures Positioned(Tail(d, order), 10)
  {
    if |order| == 1 {
      assert order == [order[0]];
      ProcessSamplesOne(d, order[0]);
    }
  }

  /** Within a block no identity repeats iff the device has at most one PID. */
  lemma BlockUniqueIff(v: Visit, driverVersion: string)
    requires v.Valid()
    ensures UniqueIdentities(Block(v, driverVersion)) <==> AtMostOnePid(v.device)
  {
    var d, order := v.device, v.order;
    EnumerationSize(order, d.ProcInfo().Keys);
    ProcMapSize(d.Processes());
    var header, tail := Header(d, driverVersion), Tail(d, order);
    UniqueConcat(header, tail);
    if |order| <= 1 {
      PositionsTellApart(d, driverVersion, order);
    } else {
      FirstTwoPairsCollide(d, order);
    }
  }

  lemma PositionsTellApart(d: Device, driverVersion: string, order: seq<string>)
    requires |order| <= 1 && |order| == |d.ProcInfo()|
    ensures UniqueIdentities(Header(d, driverVersion)) && UniqueIdentities(Tail(d, order))
    ensures DisjointIdentities(Header(d, driverVersion), Tail(d, order))
  {
    HeaderPositions(d, driverVersion);
    ShortTail(d, order);
    PositionedUnique(Header(d, driverVersion), 0);
    PositionedUnique(Tail(d, order), 10);
    PositionedDisjoint(Header(d, driverVersion), Tail(d, order));
  }

  predicate Positioned(trace: seq<Sample>, start: int) {
    forall i :: 0 <= i < |trace| ==> Position(trace[i].desc) == start + i
  }

  lemma PositionedUnique(trace: seq<Sample>, start: int)
    requires Positioned(trace, start)
    ensures UniqueIdentities(trace)
  {
  }

  lemma PositionedDisjoint(a: seq<Sample>, b: seq<Sample>)
    requires Positioned(a, 0) && Positioned(b, |a|)
    ensures DisjointIdentities(a, b)
  {
  }

  /** Pairwise distinct (name, UUID). */
  ghost predicate DistinctDevices(devices: seq<Device>) {
    forall i, j :: 0 <= i < j < |devices| ==>
      devices[i].name != devices[j].name || devices[i].uuid != devices[j].uuid
  }

  ghost predicate AllAtMostOnePid(devices: seq<Device>) {
    forall i :: 0 <= i < |devices| ==> AtMostOnePid(devices[i])
  }

  predicate SameDevice(d: Device, e: Device) {
    d.name == e.name && d.uuid == e.uuid
  }

  lemma FirstSample(v: Visit, driverVersion: string)
    ensures |Block(v, driverVersion)| >= 10
    ensures IdentityOf(Block(v, driverVersion)[0]) == Identity(HostGPUCoreGauge, [v.device.name, v.device.uuid])
  {
    assert HEADER[0] == HostGPUCoreGauge && |HEADER| == 10;
  }

  lemma BlocksDisjointIff(v: Visit, w: Visit, driverVersion: string)
    ensures DisjointIdentities(Block(v, driverVersion), Block(w, driverVersion)) <==> !SameDevice(v.device, w.device)
  {
    var a, b := Block(v, driverVersion), Block(w, driverVersion);
    if SameDevice(v.device, w.device) {
      FirstSample(v, driverVersion);
      FirstSample(w, driverVersion);
      assert IdentityOf(a[0]) == IdentityOf(b[0]);
    } else {
      BlockLabels(v, driverVersion);
      BlockLabels(w, driverVersion);
      forall i, j | 0 <= i < |a| && 0 <= j < |b|
        ensures IdentityOf(a[i]) != IdentityOf(b[j])
      {
        assert a[i] in a && b[j] in b;
      }
    }
  }

  /**
   No (descriptor, labels) pair repeats over a whole run iff the devices are told apart by (name, UUID)
   and every device has at most one PID. The right side can be checked before the run.
   */
  lemma IdentitiesUniqueIff(visits: seq<Visit>, devices: seq<Device>, driverVersion: string)
    requires VisitsOf(visits, devices)
    ensures UniqueIdentities(GPUTrace(visits, driverVersion)) <==> DistinctDevices(devices) && AllAtMostOnePid(devices)
  {
    var blocks := Blocks(visits, driverVersion);
    JoinedUniqueIff(blocks);
    forall i | 0 <= i < |devices|
      ensures UniqueIdentities(blocks[i]) <==> AtMostOnePid(devices[i])
    {
      BlockUniqueIff(visits[i], driverVersion);
    }
    forall i, j | 0 <= i < j < |devices|
      ensures DisjointIdentities(blocks[i], blocks[j]) <==> !SameDevice(devices[i], devices[j])
    {
      BlocksDisjointIff(visits[i], visits[j], driverVersion);
    }
  }

  lemma {:induction false} SubsetSize(a: set<Pid>, b: set<Pid>)
    requires a <= b
    ensures |a| <= |b|
  {
    if a != {} {
      var x :| x in a;
      SubsetSize(a - {x}, b - {x});
    }
  }

  /** Two processes on one device are enough for its run to send one identity twice. */
  lemma TwoProcessesRepeatAnIdentity(visits: seq<Visit>, devices: seq<Device>, driverVersion: string,
                                     i: nat, p: Process, q: Process)
    requires VisitsOf(visits, devices) && i < |devices|
    requires p in devices[i].compute + devices[i].mps && q in devices[i].compute + devices[i].mps && p.pid != q.pid
    ensures !UniqueIdentities(GPUTrace(visits, driverVersion))
  {
    IdentitiesUniqueIff(visits, devices, driverVersion);
    assert |{p.pid, q.pid}| == 2;
    SubsetSize({p.pid, q.pid}, Pids(devices[i].Processes()));
    assert !AtMostOnePid(devices[i]);
  }
}
