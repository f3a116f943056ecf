/** From the devices of each node to the aggregated answer, across collector, registry, server and watcher. */
module EndToEnd {
  import opened Options
  import opened Processes
  import opened Samples
  import opened GPUCollector
  import opened GPUProperties
  import opened Collector
  import opened Answers
  import opened LabelOrder
  import opened Watcher

  /** One GPU request served by a node: what NVML answered, how the maps were iterated, what was gathered. */
  datatype Run = Run(isGPU: bool, nvml: NVML, visits: seq<Visit>, gathered: Option<seq<Family>>) {
    /** Both system-wide queries succeeded. */
    predicate Visiting() {
      nvml.driverVersion.Some? && nvml.devices.Some?
    }

    function Devices(): seq<Device> {
      if Visiting() then nvml.devices.value else []
    }

    function DriverVersion(): string {
      if Visiting() then nvml.driverVersion.value else ""
    }

    function Trace(): seq<Sample> {
      GPUTrace(visits, DriverVersion())
    }

    /** The visits are a possible run of `Collect`, and a successful gathering is faithful to what it sends. */
    ghost predicate Valid() {
      if nvml.driverVersion.Some? && nvml.devices.Some? then
        && VisitsOf(visits, nvml.devices.value)
        && HonestGather(GPUTrace(visits, nvml.driverVersion.value), gathered)
      else
        visits == [] && HonestGather([], gathered)
    }

    /** Gathering also refuses a trace that repeats an identity, and only such a trace. */
    ghost predicate Strict() {
      if nvml.driverVersion.Some? && nvml.devices.Some? then
        StrictGather(GPUTrace(visits, nvml.driverVersion.value), gathered)
      else
        StrictGather([], gathered)
    }

    function Answer(codec: Codec): Option<Response> {
      GPUReply(isGPU, gathered, codec)
    }
  }

  // ----- what a trace holds under the two names that are read unguarded

  /** A device's memory or power utilisation. */
  function HostReading(d: Device, desc: Desc): Value {
    Count(if desc == HostGPUMemoryGauge then d.memoryUtilization else d.power)
  }

  predicate IsHostSample(s: Sample, d: Device, desc: Desc) {
    s == Sample(desc, HostReading(d, desc), Labels(d))
  }

  /** A run sends nothing without either answer of NVML, and the blocks of all devices with both. */
  lemma RunSends(run: Run)
    requires run.Valid()
    ensures VisitsOf(run.visits, run.Devices()) && HonestGather(run.Trace(), run.gathered)
    ensures run.Strict() <==> StrictGather(run.Trace(), run.gathered)
  {
  }

  /** Some device is there to be visited. */
  predicate SeesDevice(nvml: NVML) {
    nvml.driverVersion.Some? && nvml.devices.Some? && nvml.devices.value != []
  }

  lemma HeaderCarriesReading(d: Device, driverVersion: string, desc: Desc)
    requires desc == HostGPUMemoryGauge || desc == HostGPUPowerGauge
    ensures Sample(desc, HostReading(d, desc), Labels(d)) in Header(d, driverVersion)
    ensures forall s :: s in Header(d, driverVersion) && s.desc == desc ==> IsHostSample(s, d, desc)
  {
    var header := Header(d, driverVersion);
    HeaderOrder();
    assert header[1] in header && header[2] in header;
  }

  lemma TailCarriesNoReading(d: Device, order: seq<string>, s: Sample)
    requires s in Tail(d, order)
    ensures s.desc != HostGPUMemoryGauge && s.desc != HostGPUPowerGauge
  {
    if |d.ProcInfo()| != 0 {
      ProcessDescs(d, order);
      assert s.desc in Descs(ProcessSamples(d, order));
    }
  }

  /** No sample of this descriptor is anything but a device's reading. */
  ghost predicate OnlyReadings(trace: seq<Sample>, devices: seq<Device>, desc: Desc) {
    forall s :: s in trace && s.desc == desc ==> exists d :: d in devices && IsHostSample(s, d, desc)
  }

  lemma BlockHasReading(v: Visit, driverVersion: string, desc: Desc)
    requires desc == HostGPUMemoryGauge || desc == HostGPUPowerGauge
    ensures Sample(desc, HostReading(v.device, desc), Labels(v.device)) in Block(v, driverVersion)
  {
    HeaderCarriesReading(v.device, driverVersion, desc);
    InConcat(Header(v.device, driverVersion), Tail(v.device, v.order),
             Sample(desc, HostReading(v.device, desc), Labels(v.device)));
  }

  lemma BlockHasOnlyReadings(v: Visit, driverVersion: string, s: Sample)
    requires s.desc == HostGPUMemoryGauge || s.desc == HostGPUPowerGauge
    requires s in Block(v, driverVersion)
    ensures IsHostSample(s, v.device, s.desc)
  {
    InConcat(Header(v.device, driverVersion), Tail(v.device, v.order), s);
    if s in Tail(v.device, v.order) {
      TailCarriesNoReading(v.device, v.order, s);
    }
    HeaderCarriesReading(v.device, driverVersion, s.desc);
  }

  lemma InConcat(a: seq<Sample>, b: seq<Sample>, s: Sample)
    ensures s in a + b <==> s in a || s in b
  {
  }

  lemma ReadingIsSent(visits: seq<Visit>, devices: seq<Device>, driverVersion: string, desc: Desc, i: nat)
    requires VisitsOf(visits, devices) && i < |devices|
    requires desc == HostGPUMemoryGauge || desc == HostGPUPowerGauge
    ensures Sample(desc, HostReading(devices[i], desc), Labels(devices[i])) in GPUTrace(visits, driverVersion)
  {
    var s, blocks := Sample(desc, HostReading(devices[i], desc), Labels(devices[i])), Blocks(visits, driverVersion);
    BlockHasReading(visits[i], driverVersion, desc);
    assert s in blocks[i];
    JoinedMember(blocks, s);
  }

  lemma OnlyReadingsAreSent(visits: seq<Visit>, devices: seq<Device>, driverVersion: string, desc: Desc)
    requires VisitsOf(visits, devices)
    requires desc == HostGPUMemoryGauge || desc == HostGPUPowerGauge
    ensures OnlyReadings(GPUTrace(visits, driverVersion), devices, desc)
  {
    var blocks := Blocks(visits, driverVersion);
    forall s | s in Joined(blocks) && s.desc == desc
      ensures exists d :: d in devices && IsHostSample(s, d, desc)
    {
      JoinedMember(blocks, s);
      var i :| 0 <= i < |blocks| && s in blocks[i];
      BlockHasOnlyReadings(visits[i], driverVersion, s);
      assert devices[i] in devices;
    }
  }

  lemma HostNameIsUnique(a: Desc, b: Desc)
    requires b == HostGPUMemoryGauge || b == HostGPUPowerGauge
    requires Name(a) == Name(b)
    ensures a == b
  {
    if |Name(a)| == |Name(b)| {
      assert Name(a)[9] == Name(b)[9];
    }
  }

  // ----- safe reads

  /** Every family stands for at least one sample. */
  lemma NonEmptyHasSample(trace: seq<Sample>, families: seq<Family>, i: nat)
    requires FaithfulGather(trace, families) && i < |families|
    ensures families[i].metrics != []
    ensures exists s :: s in trace && Name(s.desc) == families[i].name && MetricOf(s) == families[i].metrics[0]
  {
    assert families[i] in families;
    var s := MetricIsSent(trace, families, families[i], families[i].metrics[0]);
  }

  lemma NoSamplesNoFamilies(families: seq<Family>)
    requires FaithfulGather([], families)
    ensures families == []
  {
    if families != [] {
      NonEmptyHasSample([], families, 0);
    }
  }

  /** The answer holds exactly these families, each under its own name. */
  ghost predicate Serves(resp: Response, families: seq<Family>) {
    && (forall name :: name in resp.message ==> exists i :: 0 <= i < |families| && families[i].name == name)
    && (forall i :: 0 <= i < |families| ==>
          families[i].name in resp.message && resp.message[families[i].name] == families[i])
  }

  /** Names gathered once and a lossless round trip: nothing is overwritten on the way into the answer. */
  lemma AnswerServesGathered(run: Run, codec: Codec)
    requires run.Valid() && Lossless(codec) && run.Answer(codec).Some?
    ensures Serves(run.Answer(codec).value, run.gathered.value)
  {
    RunSends(run);
    FamilyMapIsAllOrNothing(run.gathered.value, codec);
    MirrorServes(run.Answer(codec).value, run.gathered.value, codec);
  }

  lemma MirrorServes(resp: Response, families: seq<Family>, codec: Codec)
    requires Lossless(codec) && Mirrors(resp.message, families, codec)
    requires forall i, j :: 0 <= i < j < |families| ==> families[i].name != families[j].name
    ensures Serves(resp, families)
  {
    forall i | 0 <= i < |families|
      ensures families[i].name in resp.message && resp.message[families[i].name] == families[i]
    {
      assert IsLastOfName(families, i);
    }
  }

  /** With a device, a host family is answered, and the first value in it is a device's reading. */
  lemma HostFamilyAnswered(resp: Response, families: seq<Family>, trace: seq<Sample>, devices: seq<Device>,
                           desc: Desc, name: string, sent: Sample) returns (d: Device)
    requires Serves(resp, families) && FaithfulGather(trace, families)
    requires sent in trace && sent.desc == desc && OnlyReadings(trace, devices, desc)
    requires (desc == HostGPUMemoryGauge || desc == HostGPUPowerGauge) && name == Name(desc)
    ensures HasFirst(resp, name)
    ensures d in devices && FirstGauge(resp, name) == HostReading(d, desc)
    ensures resp.message[name].metrics[0].labels == Labels(d)
  {
    var i :| 0 <= i < |families| && families[i].name == name;
    NonEmptyHasSample(trace, families, i);
    var s :| s in trace && Name(s.desc) == name && MetricOf(s) == families[i].metrics[0];
    HostNameIsUnique(s.desc, desc);
    d :| d in devices && IsHostSample(s, d, desc);
  }

  /** The two values a node is reported with are readings of its own devices. */
  lemma AnswerIsReadOffDevices(run: Run, codec: Codec, resp: Response) returns (d: Device, e: Device)
    requires run.Valid() && Lossless(codec) && run.Answer(codec) == Some(resp) && SeesDevice(run.nvml)
    ensures d in run.nvml.devices.value && e in run.nvml.devices.value && Readable(resp)
    ensures EntryOf(resp) == NodeEntry(Count(d.memoryUtilization), Count(e.power))
  {
    FamiliesReadByName();
    d := RunAnswers(run, codec, resp, HostGPUMemoryGauge, MEMORY_FAMILY);
    e := RunAnswers(run, codec, resp, HostGPUPowerGauge, POWER_FAMILY);
    EntryFromFirsts(resp, d, e);
  }

  /** The names the watcher reads are those the collector registers. */
  lemma FamiliesReadByName()
    ensures MEMORY_FAMILY == Name(HostGPUMemoryGauge) && POWER_FAMILY == Name(HostGPUPowerGauge)
  {
  }

  lemma EntryFromFirsts(resp: Response, d: Device, e: Device)
    requires HasFirst(resp, MEMORY_FAMILY) && FirstGauge(resp, MEMORY_FAMILY) == HostReading(d, HostGPUMemoryGauge)
    requires HasFirst(resp, POWER_FAMILY) && FirstGauge(resp, POWER_FAMILY) == HostReading(e, HostGPUPowerGauge)
    ensures Readable(resp) && EntryOf(resp) == NodeEntry(Count(d.memoryUtilization), Count(e.power))
  {
  }

  lemma RunAnswers(run: Run, codec: Codec, resp: Response, desc: Desc, name: string) returns (d: Device)
    requires run.Valid() && Lossless(codec) && run.Answer(codec) == Some(resp) && run.Devices() != []
    requires (desc == HostGPUMemoryGauge || desc == HostGPUPowerGauge) && name == Name(desc)
    ensures HasFirst(resp, name)
    ensures d in run.Devices() && FirstGauge(resp, name) == HostReading(d, desc)
    ensures resp.message[name].metrics[0].labels == Labels(d)
  {
    RunSends(run);
    var d0, driverVersion := run.Devices()[0], run.DriverVersion();
    AnswerServesGathered(run, codec);
    ReadingIsSent(run.visits, run.Devices(), driverVersion, desc, 0);
    OnlyReadingsAreSent(run.visits, run.Devices(), driverVersion, desc);
    d := HostFamilyAnswered(resp, run.gathered.value, run.Trace(), run.Devices(), desc, name,
                            Sample(desc, HostReading(d0, desc), Labels(d0)));
  }

  /** An answer can be read at [0] under both names iff the run that produced it saw a device. */
  lemma AnswerIsReadableIff(run: Run, codec: Codec)
    requires run.Valid() && Lossless(codec) && run.Answer(codec).Some?
    ensures Readable(run.Answer(codec).value)
       <==> run.nvml.driverVersion.Some? && run.nvml.devices.Some? && run.nvml.devices.value != []
  {
    AnswerServesGathered(run, codec);
    RunSends(run);
    if run.Devices() == [] {
      assert run.Trace() == [];
      NoSamplesNoFamilies(run.gathered.value);
    } else {
      var d, e := AnswerIsReadOffDevices(run, codec, run.Answer(codec).value);
    }
  }

  // ----- which device is read

  /** In a sorted family no sample of its name has smaller labels than the first metric. */
  lemma LeastOfFamily(trace: seq<Sample>, families: seq<Family>, i: nat, s: Sample)
    requires FaithfulGather(trace, families) && i < |families| && SortedByLabels(families[i])
    requires s in trace && Name(s.desc) == families[i].name
    ensures families[i].metrics != [] && LabelsLe(families[i].metrics[0].labels, s.labels)
  {
    var f := SampleIsGathered(trace, families, s);
    var j :| 0 <= j < |families| && families[j] == f;
    assert j == i;
    FirstIsLeast(f, MetricOf(s));
  }

  /** The registry keeps each family sorted by label values. */
  ghost predicate AllSorted(families: seq<Family>) {
    forall i :: 0 <= i < |families| ==> SortedByLabels(families[i])
  }

  ghost predicate LeastDevice(d: Device, devices: seq<Device>) {
    d in devices && forall x :: x in devices ==> LabelsLe([d.name, d.uuid], [x.name, x.uuid])
  }

  /** No device of the run has smaller labels than the first metric of a sorted family under either name. */
  lemma FirstIsLeastOfRun(run: Run, i: nat, desc: Desc, x: Device)
    requires run.Valid() && run.gathered.Some? && i < |run.gathered.value| && x in run.Devices()
    requires desc == HostGPUMemoryGauge || desc == HostGPUPowerGauge
    requires run.gathered.value[i].name == Name(desc) && SortedByLabels(run.gathered.value[i])
    ensures run.gathered.value[i].metrics != []
    ensures LabelsLe(run.gathered.value[i].metrics[0].labels, [x.name, x.uuid])
  {
    RunSends(run);
    var k :| 0 <= k < |run.Devices()| && run.Devices()[k] == x;
    ReadingIsSent(run.visits, run.Devices(), run.DriverVersion(), desc, k);
    LeastOfFamily(run.Trace(), run.gathered.value, i, Sample(desc, HostReading(x, desc), Labels(x)));
  }

  /** With sorted families the device read first is the least by (name, UUID), under either name. */
  lemma LeastDeviceIsRead(run: Run, codec: Codec, resp: Response, desc: Desc, name: string) returns (d: Device)
    requires run.Valid() && Lossless(codec) && run.Answer(codec) == Some(resp) && run.Devices() != []
    requires AllSorted(run.gathered.value)
    requires (desc == HostGPUMemoryGauge || desc == HostGPUPowerGauge) && name == Name(desc)
    ensures LeastDevice(d, run.Devices())
    ensures HasFirst(resp, name) && FirstGauge(resp, name) == HostReading(d, desc)
  {
    d := RunAnswers(run, codec, resp, desc, name);
    AnswerServesGathered(run, codec);
    var i := ServedFamily(resp, run.gathered.value, name);
    forall x | x in run.Devices()
      ensures LabelsLe([d.name, d.uuid], [x.name, x.uuid])
    {
      FirstIsLeastOfRun(run, i, desc, x);
    }
  }

  lemma ServedFamily(resp: Response, families: seq<Family>, name: string) returns (i: nat)
    requires Serves(resp, families) && name in resp.message
    ensures i < |families| && families[i].name == name && resp.message[name] == families[i]
  {
    i :| i < |families| && families[i].name == name;
  }

  lemma LeastDeviceIsUnique(devices: seq<Device>, d: Device, e: Device)
    requires DistinctDevices(devices) && LeastDevice(d, devices) && LeastDevice(e, devices)
    ensures d == e
  {
    LabelsLeAntisymmetric(Labels(d), Labels(e));
    var i :| 0 <= i < |devices| && devices[i] == d;
    var j :| 0 <= j < |devices| && devices[j] == e;
    assert i == j;
  }

  /** Both values of an entry are read off one device: the least by (name, UUID). */
  lemma OneDeviceIsRead(run: Run, codec: Codec, resp: Response) returns (d: Device)
    requires run.Valid() && run.Strict() && Lossless(codec) && run.Answer(codec) == Some(resp)
    requires SeesDevice(run.nvml) && AllSorted(run.gathered.value)
    ensures LeastDevice(d, run.nvml.devices.value) && Readable(resp)
    ensures EntryOf(resp) == NodeEntry(Count(d.memoryUtilization), Count(d.power))
  {
    FamiliesReadByName();
    d := LeastDeviceIsRead(run, codec, resp, HostGPUMemoryGauge, MEMORY_FAMILY);
    var e := LeastDeviceIsRead(run, codec, resp, HostGPUPowerGauge, POWER_FAMILY);
    RunSends(run);
    IdentitiesUniqueIff(run.visits, run.Devices(), run.DriverVersion());
    LeastDeviceIsUnique(run.Devices(), d, e);
    EntryFromFirsts(resp, d, e);
  }

  // ----- when a node answers

  /** The share of a process is of the device's total memory: with a process, that total must not be 0. */
  predicate SharesAreFinite(d: Device) {
    d.memoryTotal != 0 || (d.compute == [] && d.mps == [])
  }

  ghost predicate AllSharesFinite(devices: seq<Device>) {
    forall i :: 0 <= i < |devices| ==> SharesAreFinite(devices[i])
  }

  lemma HeaderIsFinite(d: Device, driverVersion: string)
    ensures FiniteTrace(Header(d, driverVersion))
  {
    forall s | s in Header(d, driverVersion)
      ensures Finite(s.value)
    {
      var i :| 0 <= i < |HEADER| && s == HeaderSample(d, driverVersion, HEADER[i]);
      ReadingIsFinite(d, HEADER[i]);
    }
  }

  lemma ReadingIsFinite(d: Device, desc: Desc)
    ensures Finite(Reading(d, desc))
  {
  }

  lemma BusyTailFiniteIff(v: Visit)
    requires v.Valid() && v.device.Processes() != []
    ensures FiniteTrace(Tail(v.device, v.order)) <==> v.device.memoryTotal != 0
  {
    EveryProcessIsReported(v, |v.device.Processes()| - 1);
    if v.device.memoryTotal != 0 {
      forall s | s in Tail(v.device, v.order)
        ensures Finite(s.value)
      {
        var i := EveryReportIsAProcess(v, s);
      }
    }
  }

  lemma IdleTailIsFinite(d: Device, order: seq<string>)
    requires d.Processes() == []
    ensures FiniteTrace(Tail(d, order))
  {
    assert ProcMap(d.Processes()) == map[];
  }

  lemma TailFiniteIff(v: Visit)
    requires v.Valid()
    ensures FiniteTrace(Tail(v.device, v.order)) <==> SharesAreFinite(v.device)
  {
    if v.device.Processes() == [] {
      IdleTailIsFinite(v.device, v.order);
    } else {
      BusyTailFiniteIff(v);
    }
  }

  lemma BlockFiniteIff(v: Visit, driverVersion: string)
    requires v.Valid()
    ensures FiniteTrace(Block(v, driverVersion)) <==> SharesAreFinite(v.device)
  {
    HeaderIsFinite(v.device, driverVersion);
    TailFiniteIff(v);
    FiniteConcat(Header(v.device, driverVersion), Tail(v.device, v.order));
  }

  lemma FiniteConcat(a: seq<Sample>, b: seq<Sample>)
    ensures FiniteTrace(a + b) <==> FiniteTrace(a) && FiniteTrace(b)
  {
    assert forall s :: s in a + b <==> s in a || s in b;
  }

  lemma TraceFiniteIff(visits: seq<Visit>, devices: seq<Device>, driverVersion: string)
    requires VisitsOf(visits, devices)
    ensures FiniteTrace(GPUTrace(visits, driverVersion)) <==> AllSharesFinite(devices)
  {
    var blocks := Blocks(visits, driverVersion);
    JoinedFiniteIff(blocks);
    forall i | 0 <= i < |devices|
      ensures FiniteTrace(blocks[i]) <==> SharesAreFinite(devices[i])
    {
      BlockFiniteIff(visits[i], driverVersion);
    }
  }

  /**
   What a node must bring to answer a GPU request, all of it known before the request: distinct devices, at
   most one PID on each, and a total memory on each that has one.
   */
  ghost predicate CanAnswer(run: Run) {
    && run.isGPU
    && (run.nvml.driverVersion.Some? && run.nvml.devices.Some? ==>
          var devices := run.nvml.devices.value;
          DistinctDevices(devices) && AllAtMostOnePid(devices) && AllSharesFinite(devices))
  }

  lemma AnswersIff(run: Run, codec: Codec)
    requires run.Valid() && run.Strict() && ConvertsFinite(codec)
    ensures run.Answer(codec).Some? <==> CanAnswer(run)
  {
    RunSends(run);
    ReplyIff(run.Trace(), run.gathered, codec);
    IdentitiesUniqueIff(run.visits, run.Devices(), run.DriverVersion());
    TraceFiniteIff(run.visits, run.Devices(), run.DriverVersion());
  }

  /** One device and one process are enough to silence a node: a device that reports a total memory of 0. */
  lemma ZeroTotalSilencesNode(run: Run, codec: Codec, d: Device, p: Process)
    requires run.Valid() && run.Strict() && ConvertsFinite(codec)
    requires run.isGPU && run.nvml.driverVersion.Some? && run.nvml.devices == Some([d])
    requires d.memoryTotal == 0 && d.compute == [p] && d.mps == []
    ensures DistinctDevices(run.nvml.devices.value) && AllAtMostOnePid(run.nvml.devices.value)
    ensures run.Answer(codec).None?
  {
    assert d.Processes() == [p];
    assert Pids([p]) == {p.pid};
    assert !SharesAreFinite(run.Devices()[0]);
    AnswersIff(run, codec);
  }

  /** A run without devices has nothing to refuse and nothing to convert: the node answers, with nothing. */
  lemma EmptyRunAnswers(run: Run, codec: Codec)
    requires run.Valid() && run.Strict() && run.Devices() == []
    ensures run.Answer(codec).Some? <==> run.isGPU
  {
    RunSends(run);
    assert run.Trace() == [];
    assert run.gathered.Some?;
    NoSamplesNoFamilies(run.gathered.value);
  }

  // ----- the whole fleet

  /** Fetching by IP reaches the run on that node, if there is one; a failed call is a nil response. */
  ghost predicate FetchesRuns(fetch: Fetch, runs: map<string, Run>, codec: Codec) {
    forall ip: string :: fetch(ip) == if ip in runs then runs[ip].Answer(codec) else None
  }

  ghost predicate AllValid(runs: map<string, Run>) {
    forall ip :: ip in runs ==> runs[ip].Valid() && runs[ip].Strict()
  }

  /** A "gpu" node whose run sees no device: no driver version, no device count, or a count of 0. */
  predicate SeesNoDevice(n: string, mapper: map<string, string>, runs: map<string, Run>) {
    && n in mapper && Contains(n, "gpu") && mapper[n] in runs
    && runs[mapper[n]].isGPU && !SeesDevice(runs[mapper[n]].nvml)
  }

  lemma ReadableUnlessDeviceless(n: string, mapper: map<string, string>, runs: map<string, Run>,
                                 fetch: Fetch, codec: Codec)
    requires AllValid(runs) && Lossless(codec) && FetchesRuns(fetch, runs, codec)
    ensures SeesNoDevice(n, mapper, runs) <==> Reports(n, mapper, fetch) && !Readable(fetch(mapper[n]).value)
  {
    if n in mapper && mapper[n] in runs {
      var run := runs[mapper[n]];
      if run.Devices() == [] {
        EmptyRunAnswers(run, codec);
      }
      if run.Answer(codec).Some? {
        AnswerIsReadableIff(run, codec);
      }
    }
  }

  /** Aggregation over a fleet panics iff some "gpu" node with a GPU sees no device. */
  lemma FleetFailsIff(order: seq<string>, mapper: map<string, string>, runs: map<string, Run>,
                      fetch: Fetch, codec: Codec)
    requires forall n :: n in order <==> n in mapper
    requires AllValid(runs) && Lossless(codec) && FetchesRuns(fetch, runs, codec)
    ensures Fold(order, mapper, fetch).None? <==> exists n :: SeesNoDevice(n, mapper, runs)
  {
    FoldIsEntries(order, mapper, fetch);
    assert (set n | n in order) == mapper.Keys;
    forall n: string
      ensures SeesNoDevice(n, mapper, runs) <==> Reports(n, mapper, fetch) && !Readable(fetch(mapper[n]).value)
    {
      ReadableUnlessDeviceless(n, mapper, runs, fetch, codec);
    }
  }

  /** A "gpu" node that has a run able to answer. */
  ghost predicate Reportable(n: string, mapper: map<string, string>, runs: map<string, Run>) {
    n in mapper && Contains(n, "gpu") && mapper[n] in runs && CanAnswer(runs[mapper[n]])
  }

  /**
   When no "gpu" node is without devices, aggregation completes and reports exactly the nodes that can
   answer: a node with a shared GPU, or with a busy GPU of total memory 0, silently drops out.
   */
  lemma NodeIsReportedIff(order: seq<string>, mapper: map<string, string>, runs: map<string, Run>,
                          fetch: Fetch, codec: Codec)
    requires forall k :: k in order <==> k in mapper
    requires AllValid(runs) && Lossless(codec) && ConvertsFinite(codec) && FetchesRuns(fetch, runs, codec)
    requires forall k :: !SeesNoDevice(k, mapper, runs)
    ensures Fold(order, mapper, fetch).Some?
    ensures forall n :: n in Fold(order, mapper, fetch).value <==> Reportable(n, mapper, runs)
  {
    FleetFailsIff(order, mapper, runs, fetch, codec);
    FoldIsEntries(order, mapper, fetch);
    assert (set n | n in order) == mapper.Keys;
    forall n: string
      ensures Reports(n, mapper, fetch) <==> Reportable(n, mapper, runs)
    {
      if n in mapper && mapper[n] in runs {
        AnswersIff(runs[mapper[n]], codec);
      }
    }
  }
}
