# Metric collector: decode, emit, aggregate

A Dafny model of the path a metric takes through the collector. A kubelet summary is decoded into a
batch by a loop that compacts into reused slots; the batch becomes a stream of labelled samples; GPU
samples are gathered into a name-keyed answer and aggregated over the fleet.

- `Quantities.dfy`: a uint64 packed into an int64 mantissa and a decimal scale.
- `Stats.dfy`, `Storage.dfy`: the summary, and the batch as mutable objects beside the values they hold.
- `Readings.dfy`: what the fields of a summary say; contracts speak in these terms and nothing computes with them.
- `ScrapeTime.dfy`, `Sections.dfy`, `Decode.dfy`, `DecodeProperties.dfy`: the decoder.
- `Samples.dfy`: descriptors, samples, the channel, and traces made of blocks.
- `Kubelet.dfy`, `NodeCollector.dfy`, `NodeProperties.dfy`: scraping a node.
- `Processes.dfy`, `GPUCollector.dfy`, `GPUProperties.dfy`: the GPU collector.
- `Collector.dfy`, `Grouping.dfy`, `LabelOrder.dfy`, `Answers.dfy`, `NodeAnswers.dfy`: the gRPC answers, and
  what it takes to get one.
- `Watcher.dfy`, `EndToEnd.dfy`: the aggregation, and the fleet from its devices to the aggregate.

How the model is built:

- Code that works in place stays in place. A slice of pods is a sequence of separate slot objects, so
  `res.Pods[:num]` shares its slots with the slice it is cut from; the decoders write single fields of a
  slot's embedded point; the `range` variable is one cell that is overwritten on every iteration, and no
  part of the batch refers to it. Each such method is proved equal to a function on values, and the
  properties are proved about those functions. What a function stands for is stated once more on the raw
  fields of its input, so that the function and the method cannot both be wrong in the same way.
- A nil pointer dereference is an outcome of its own, so which inputs panic is part of the contracts.
- Go's map iteration order is an arbitrary choice in the methods and an arbitrary sequence in the lemmas.
- NVML, the Kubernetes API and the kubelet's reply are inputs. `Quantity.AsInt64` and the JSON library are
  parameters of function type.

Assumptions, each a named predicate that only the lemmas using it require:

- `ExactAtScaleZero`: `AsInt64` returns the mantissa at scale 0. `ZeroBelowScaleZero`: it returns 0 at a
  negative scale.
- `FaithfulGather`, and `HonestGather` for a gathering that may fail: the registry groups samples by name,
  without loss. `Grouping.GroupIsFaithful` shows that every trace has such a grouping.
- `StrictGather`: gathering succeeds iff no descriptor and label list was collected twice.
- `AllSorted`: each gathered family is sorted by label values.
- `ConvertsFinite`: JSON converts a family iff every gauge in it is finite, that is, none is a share of a
  total of 0. `Lossless`: what converts comes back unchanged.

Where the code and its own comments part, the model follows the code:

- The comment at `pkg/decode/decode.go:39-42` speaks of discarding the node point on errors, but the block
  is empty: partial node points are kept (`NodePointDiscardedIff`, `PartialNodeIsKept`).
- The comment at `pkg/decode/decode.go:54-55` says slots are completely overwritten. A pod without a
  timestamp leaves its slot untouched; this is harmless because such a slot is never kept.
- Counters the summary types declare optional are dereferenced unguarded, so one pod can bring down the
  whole batch (`OptionalCounterBringsBatchDown`).
- `GPUCollector.Collect` labels process samples by device only. Two processes on one device repeat an
  identity, and with a registry that refuses repeats the node drops out of the aggregate
  (`IdentitiesUniqueIff`, `NodeIsReportedIff`). So does a node with a busy device of total memory 0, whose
  share JSON cannot express (`ZeroTotalSilencesNode`).
- `NodeCollector.Collect` logs a failed node lookup and goes on with an empty object. Its totals of 0 cost
  the whole node answer as soon as one pod is kept (`FailedLookupCostsTheAnswer`).

## Model

| member | source | states |
|---|---|---|
| Quantities.ScaleNeverDropsIff | pkg/decode/decode.go:257-268 | The scale of the packed quantity is never below the one asked for, except exactly when a large value meets the greatest int32 scale and the addition wraps |
| Quantities.PrecisionBound | pkg/decode/decode.go:254-268 | Packing is at most 9 units low, and exact iff the value is at most MaxInt64 or a multiple of 10 |
| Quantities.NearMonotone | pkg/decode/decode.go:257-268 | Packing never reverses two values by more than 7 units, and is monotone on each side of the branch |
| Quantities.SlackIsSevenIff | pkg/decode/decode.go:259-267 | The slack of 7 is reached by MaxInt64 against its two successors and by no other pair |
| ScrapeTimes.EarliestIsMinimum | pkg/decode/decode.go:205-252 | The scan yields the least usable timestamp: one that was supplied, a lower bound, absent iff none is usable |
| ScrapeTimes.EarliestIgnoresOrder | pkg/decode/decode.go:205-252 | Reordering or repeating sources does not change the timestamp |
| ScrapeTimes.GetScrapeTimePod | pkg/decode/decode.go:205-224 | Fails iff neither the CPU nor the memory section has a non-zero time; otherwise returns one of these times, and none of them is earlier |
| ScrapeTimes.GetScrapeTimeNode | pkg/decode/decode.go:225-252 | The same over the CPU, memory, network and filesystem sections |
| Sections.DecodeCPU | pkg/decode/decode.go:134-142 | What is written through the pointer and how the call ends |
| Sections.DecodeMemory | pkg/decode/decode.go:144-161 | The same, with the available counter already written when the usage counter turns out nil |
| Sections.DecodeFs | pkg/decode/decode.go:183-204 | The same, with the available counter already written when the capacity counter turns out nil |
| Sections.AddUp | pkg/decode/decode.go:167-172 | The accumulator loop computes both mathematical sums modulo 2^64 for any number of interfaces, or ends early iff some interface lacks a counter |
| Sections.DecodeNetwork | pkg/decode/decode.go:162-181 | Stores both sums, or ends without a write; past the guard it completes iff every interface has both counters |
| Sections.NetworkCompletesIff | pkg/decode/decode.go:164-172 | Past the guard the loop completes iff every interface has both counters |
| Sections.NetworkGuardIsNotEnough | pkg/decode/decode.go:164-172 | A summary the guard accepts and the loop dereferences nil on |
| Sections.NetworkTotals | pkg/decode/decode.go:174-178 | Stored totals are within 9 of the sums modulo 2^64 and no other field changes |
| Sections.SumsAreOfCounters | pkg/decode/decode.go:167-172 | The two sums are the sum of the receive counters and the sum of the transmit counters |
| Sections.StoredTotalIsTrueSumIff | pkg/decode/decode.go:167-178 | A stored total is within 9 of the true sum iff that sum is below 2^64 |
| Sections.SectionsAreIndependent | pkg/decode/decode.go:81-95 | Running section decoders in any order, any number of times, gives the point overwritten by exactly the sections that ran and decode |
| Sections.SectionsCommute | pkg/decode/decode.go:81-95 | Two orders with the same sections give the same point |
| Decode.DecodeSections | pkg/decode/decode.go:117-131 | Panics iff the memory or filesystem section is unsafe; otherwise the errors and the point are those of the sections that decode, and with CPU missing the memory and filesystem fields are still written |
| Decode.DecodePodStats | pkg/decode/decode.go:98-132 | Panics iff the pod has a timestamp and an unsafe section; otherwise a slot with any previous content holds the pod's decoding, or is untouched when there is no timestamp |
| Decode.DecodeNodeStats | pkg/decode/decode.go:67-96 | The same for the node |
| Decode.DecodeIntoSlot | pkg/decode/decode.go:47-58 | One iteration overwrites its slot, leaves the kept prefix alone, and extends it iff the pod decodes fully |
| Decode.DecodePods | pkg/decode/decode.go:45-60 | For any garbage in the slots, the first num slots end up holding the decodings of the fully decodable pods in order; panics iff some pod is unsafe |
| Decode.DecodeBatch | pkg/decode/decode.go:29-65 | Returns iff neither the node nor any pod runs into a nil counter. The batch has the summary's IP and the kept pods; its node point carries the name, the earliest time and each of CPU, memory and filesystem that is complete, whatever the other two are; the error is nil iff node and pods are complete |
| Decode.PodMeans | pkg/decode/decode.go:98-132 | A pod decodes without error iff it has a time and all three sections, and its point then carries them field by field; it panics iff it has a time and runs into a nil counter |
| Decode.NodeMeans | pkg/decode/decode.go:67-96 | The same for the node, whose point carries whatever is there |
| Storage.MetricsBatch.constructor | pkg/decode/decode.go:31-35 | A zero node point and as many separate fresh slots as there are pods |
| DecodeProperties.NilDereferenceIff | pkg/decode/decode.go:144-193 | A section decoder dereferences nil exactly outside its safe inputs, and completes exactly on its full ones |
| DecodeProperties.CPUFailureSkipsNothing | pkg/decode/decode.go:118-129 | Whether a pod with a memory timestamp is safe does not depend on its CPU section; without one its memory and filesystem sections are decoded, and complained about, just the same |
| DecodeProperties.OptionalCounterBringsBatchDown | pkg/decode/decode.go:146-154 | A pod with a working set and no usage counter, put at any position of any summary, makes the batch panic |
| DecodeProperties.KeptInOrder | pkg/decode/decode.go:46-60 | The kept pods carry the inputs at exactly the increasing positions of pods with a time and every section |
| DecodeProperties.PodsAreIsolated | pkg/decode/decode.go:46-60 | Decoding a concatenation concatenates the decodings |
| DecodeProperties.UndecodablePodsAreInvisible | pkg/decode/decode.go:49-57 | Undecodable pods inserted anywhere leave the kept pods unchanged, and the batch safe iff they are safe |
| DecodeProperties.PodsAreConserved | pkg/decode/decode.go:46-60 | Kept and dropped pods together are the input pods, as multisets and in number |
| DecodeProperties.ErrorAccounting | pkg/decode/decode.go:37-64 | Each dropped pod costs one to three errors, the node none to three, none iff it decodes fully |
| DecodeProperties.ErrorsListed | pkg/decode/decode.go:67-132 | An error is returned for a pod or the node iff it is its missing time, or a section that is missing or lacks a counter while it has a time |
| DecodeProperties.ErrorsInOrder | pkg/decode/decode.go:37-49 | The node's errors come first, then those of each pod in input order |
| DecodeProperties.ErrorIsNilIff | pkg/decode/decode.go:64 | The returned error is nil iff the node and every pod decode fully, and then no pod is missing |
| DecodeProperties.KeptPodIsFaithful | pkg/decode/decode.go:98-204 | Every kept pod has an input pod whose name and namespace it carries, whose every counter it encodes within 9 units, CPU in units of 10^-9, and exactly iff the counter is at most MaxInt64 or a multiple of 10, and whose earliest non-zero time it bears |
| DecodeProperties.NodePointDiscardedIff | pkg/decode/decode.go:38-42 | The node point is zero iff no section has a timestamp; otherwise it keeps every section that decodes |
| DecodeProperties.PartialNodeIsKept | pkg/decode/decode.go:38-42 | A node with errors whose CPU reading is kept |
| DecodeProperties.NodePointEncodes | pkg/decode/decode.go:67-96 | Whatever sections are missing, the node point encodes the counters of the others within 9 units and bears the earliest of four times; without a time it is zero |
| NodeCollector.CollectNode | pkg/worker/workers.go:599-608 | A batch iff the client is scrapable; a request that cannot be built is an error, or a panic when the node has no address |
| Kubelet.MakeRequestAndGetValue | pkg/client/kubelet/kubeletclient.go:84-116 | Every failed fetch returns its own error and leaves the summary as it was; a 200 reply that is not JSON panics; any other fills the summary in |
| Kubelet.GetSummary | pkg/client/kubelet/kubeletclient.go:57-82 | A failed fetch hands on an empty node, no pods and the client's IP; a 200 reply in JSON its own node and pods and the client's IP; the error of the fetch is dropped |
| NodeCollector.Scrap | pkg/worker/workers.go:579-597 | Whatever CollectNode returns, Scrap's own error is nil; a failed fetch gives a batch with no pods |
| NodeCollector.Collect | pkg/worker/workers.go:246-327 | Panics, before sending anything, iff the request cannot be built or a 200 reply is not JSON or runs into a nil counter. Otherwise what is sent after a 200 reply is eight samples for each kept pod of its body, in order, with shares of the node's own allocatable cpu, memory and ephemeral-storage; after a failed fetch nothing is sent |
| NodeCollector.EmitPods | pkg/worker/workers.go:266-325 | The loop over the batch sends one block per slot, in slot order |
| NodeCollector.EmitPod | pkg/worker/workers.go:267-324 | The loop body sends the eight samples of one pod |
| NodeCollector.TraceIsBlocks | pkg/worker/workers.go:266-325 | The trace has eight samples per pod, and pod i's block stands at position 8*i |
| NodeCollector.TraceReportsPods | pkg/worker/workers.go:253-324 | Each block reports its pod: descriptors, labels, integers and, under each of the three allocatable keys or zero without it, the total of each share |
| NodeProperties.TraceOfConcat | pkg/worker/workers.go:266-325 | From raw pods to samples, the trace of a concatenation is the concatenation of the traces |
| NodeProperties.UndecodablePodsEmitNothing | pkg/worker/workers.go:260-325 | Undecodable pods inserted into a reply leave the emitted trace unchanged, and the scrape succeeds iff they are safe |
| NodeProperties.SamplesUniqueIff | pkg/worker/workers.go:277-324 | No descriptor and label list repeats iff no two kept pods share namespace and name |
| NodeProperties.DistinctInputsEmitDistinctSamples | pkg/worker/workers.go:277-324 | Distinct input pods never emit an identity twice, filtering included |
| NodeProperties.DescriptorsAreDescribed | pkg/worker/workers.go:236-245 | With a kept pod the descriptors used are exactly those announced, with none nothing is sent |
| NodeProperties.EmittedValuesAreRawCounters | pkg/worker/workers.go:269-323 | For every kept pod the memory and storage integers sent are the raw counters up to MaxInt64, an absent used counter reads 0, network reads 0; the CPU samples are `AsInt64` of the packed CPU counter |
| NodeProperties.CPUSamplesReadZero | pkg/worker/workers.go:267-288 | If `AsInt64` returns 0 at negative scales, both CPU samples of every kept pod read 0 |
| NodeProperties.FailedFetchIsEmptyScrape | pkg/client/kubelet/kubeletclient.go:69-101 | Transport error, body error or a status other than 200: a batch with no pods, no panic, nothing sent |
| NodeProperties.ScrapableIff | pkg/client/kubelet/kubeletclient.go:57-116 | A scrape yields a batch iff the request is built and a 200 reply is JSON with a safe node and safe pods |
| Processes.DecimalRoundTrip | pkg/worker/workers.go:628 | Reading a printed PID back gives the PID |
| Processes.DecimalInjective | pkg/worker/workers.go:628 | Two PIDs print alike iff they are equal |
| Processes.GetGPUProcess | pkg/worker/workers.go:610-632 | Keys are the decimal PIDs of both lists, each value that of the PID's last occurrence |
| Processes.ProcMapLastWins | pkg/worker/workers.go:625-631 | The same for every process list |
| Processes.ProcMapSize | pkg/worker/workers.go:625-631 | One entry per distinct PID |
| Processes.MPSWins | pkg/worker/workers.go:623-630 | The map of the appended lists is the compute map overridden by the MPS map |
| GPUCollector.Collect | pkg/worker/workers.go:344-577 | With a driver version and a device count it visits every device from the first to the last and sends one block for each, for some iteration order of each process map; without either it sends nothing |
| GPUCollector.EmitDevices | pkg/worker/workers.go:393-576 | The device loop |
| GPUCollector.EmitHeader | pkg/worker/workers.go:461-522 | The ten samples sent for every device, the last one counting its processes |
| GPUCollector.EmitProcesses | pkg/worker/workers.go:524-552 | A pair of zeros for an idle device, otherwise a pair per process in any order |
| GPUProperties.BlockHasSize | pkg/worker/workers.go:461-552 | 10 samples and two per distinct PID, or two when there is none |
| GPUProperties.BlockStandsAt | pkg/worker/workers.go:393-552 | Device i's block stands whole at the sum of the sizes before it |
| GPUProperties.BlockReports | pkg/worker/workers.go:461-552 | The ten samples of a block, then the pair of zeros of an idle device or the pairs of a busy one, each with descriptor, value and labels in terms of the device's fields |
| GPUProperties.EveryDeviceIsReported | pkg/worker/workers.go:393-552 | In a whole trace, device i is so reported at the sum of the sizes before it |
| GPUProperties.TraceSize | pkg/worker/workers.go:393-552 | The whole trace has the sum of these sizes |
| GPUProperties.TraceIgnoresMapOrder | pkg/worker/workers.go:538-551 | Any two iteration orders of the process maps emit the same multiset of samples |
| GPUProperties.EveryProcessIsReported | pkg/worker/workers.go:538-551 | The memory of every PID's last listed process is sent, as a number and as a share of the device's memory |
| GPUProperties.EveryReportIsAProcess | pkg/worker/workers.go:538-551 | A busy device sends nothing else about memory in use |
| GPUProperties.PodNumCountsPids | pkg/worker/workers.go:517-522 | The count sent is the number of distinct PIDs |
| GPUProperties.DescriptorsAreDescribed | pkg/worker/workers.go:329-343 | With a device, busy or idle, the descriptors used are exactly those announced |
| GPUProperties.BlockLabels | pkg/worker/workers.go:461-551 | Every sample is labelled with the device's name and UUID, and only the driver version sample has a third label, the driver version |
| GPUProperties.BlockUniqueIff | pkg/worker/workers.go:538-551 | Within a device no identity repeats iff it has at most one PID |
| GPUProperties.IdentitiesUniqueIff | pkg/worker/workers.go:393-552 | Over a whole pass no identity repeats iff devices differ in name or UUID and each has at most one PID |
| GPUProperties.TwoProcessesRepeatAnIdentity | pkg/worker/workers.go:538-551 | Two PIDs on any one device are enough for a repeat |
| Collector.Convert | pkg/collector/node.go:56-70 | The loop builds the name-keyed map or returns an error, as the function on lists does |
| Collector.FamilyMapIsAllOrNothing | pkg/collector/node.go:30-45 | The map exists iff every family converts, and then maps each name to its last converted family |
| Answers.FamiliesFiniteIff | pkg/collector/node.go:31-41 | The gathered families all hold finite gauges iff every sample sent is finite |
| Answers.ReplyIff | pkg/collector/node.go:24-46 | A registry is answered for iff no identity was sent twice and every value sent is finite |
| NodeAnswers.NodeAnswersIff | pkg/collector/node.go:24-46 | A node answers iff its kept pods differ in namespace or name and, if there are any, no allocatable total is 0 |
| NodeAnswers.FailedLookupCostsTheAnswer | pkg/worker/workers.go:248-264 | After an ignored node lookup error the node answers iff it keeps no pod |
| Collector.Provider.GetNode | pkg/collector/node.go:24-46 | The answer for the node registry, or an error |
| Collector.Provider.GetGPU | pkg/collector/node.go:48-73 | The same for the GPU registry, and an error on a node without GPU |
| Grouping.GroupIsFaithful | pkg/collector/node.go:25 | Every trace has a grouping by name that loses and adds nothing, so the assumption on gathering can be met |
| Samples.NamesAreRead | pkg/watcher/watcher.go:130-156 | Each of the twenty names the watcher reports under is the registered name of the metric it is meant for |
| Samples.NamesAreDistinct | pkg/worker/workers.go:121-230 | No two metrics share a name |
| Watcher.ContainsMeans | pkg/watcher/watcher.go:92 | A name is a "gpu" name iff "gpu" stands anywhere in it |
| Watcher.ReadsMean | pkg/watcher/watcher.go:95-110 | The two reads at [0] succeed iff both families are there and not empty, and give the gauge of their first metric, 0 without one |
| Watcher.WatcherServer.GetMultiMetric | pkg/watcher/watcher.go:83-119 | For any visiting order: panics iff some node whose name has "gpu" anywhere in it answers without a family read at [0]; otherwise there is an entry for exactly the nodes so named that answer, with the two values read off that answer |
| Watcher.WatcherServer.AddNode | pkg/watcher/watcher.go:95-110 | A node's entry is added and every other entry keeps its value |
| Watcher.FoldIsEntries | pkg/watcher/watcher.go:90-114 | The fold over any list of nodes depends on the set of nodes only, panic included |
| Watcher.OrderIsIrrelevant | pkg/watcher/watcher.go:90-114 | Any two iteration orders of the node map give the same outcome |
| Watcher.EntryDependsOnItsNode | pkg/watcher/watcher.go:91-110 | A node is reported iff its name contains "gpu" and it answers, and its entry is the same in any fleet where it answers the same |
| EndToEnd.AnswerServesGathered | pkg/collector/node.go:52-72 | A successful GPU answer holds every gathered family, unchanged, under its own name and nothing else |
| EndToEnd.AnswerIsReadOffDevices | pkg/watcher/watcher.go:95-110 | The memory and power values reported for a node are readings of its own devices |
| EndToEnd.OneDeviceIsRead | pkg/watcher/watcher.go:95-110 | With sorted families both values come from one device, the least by name and UUID |
| EndToEnd.AnswerIsReadableIff | pkg/watcher/watcher.go:95-96 | The reads at [0] succeed on an answer iff NVML gave a driver version and at least one device |
| EndToEnd.FleetFailsIff | pkg/watcher/watcher.go:83-119 | With registries that refuse repeats, aggregation over a fleet panics iff some "gpu" node with a GPU got no driver version, no device count or no device from NVML |
| EndToEnd.AnswersIff | pkg/collector/node.go:48-73 | With such a registry, a node answers a GPU request iff it has a GPU and, when NVML gives a driver version and devices, these differ in name or UUID, none has two PIDs, and each with a process has a total memory other than 0 |
| EndToEnd.ZeroTotalSilencesNode | pkg/worker/workers.go:545-550 | One device of total memory 0 with one process: distinct, one PID, and no answer |
| EndToEnd.NodeIsReportedIff | pkg/watcher/watcher.go:83-119 | When no "gpu" node is without devices, aggregation completes, and for every name the aggregate holds it iff it is a "gpu" node with a pass that can answer |

## Left out

- Decode.DecodeSections: the source writes these three calls out twice, for pods and for nodes; the model has them once.
- Error message texts: an error is its kind and the pod or node it is about.
- NodeProperties.EmittedValuesAreRawCounters: gives the CPU samples as `AsInt64` of a quantity of scale -9 or -8, and leaves memory and storage counters above MaxInt64 open, because only scale 0 is assumed of `AsInt64` there.
- GPUCollector.Collect: every per-device NVML query is taken to succeed, because a failing one exits the process.
- EndToEnd.AnswerIsReadOffDevices: does not say which device is read when there are several; `OneDeviceIsRead` does, for a registry that sorts its families.
- Summary sections are values: writes through them, or sharing between pods of one summary, are not expressible. The decoder never writes to them.
- Timestamps are instants; their location is not modelled.
- Floating point: percentages, FLOPS, bandwidth and the float32 narrowing. A sample's value keeps the integers that enter the formula.
- Samples carry no constant `metricType` label, and label values are taken to be valid UTF-8.
- HTTP, TLS and JSON parsing, gRPC dialling and serving, Kubernetes client set-up, NVML initialisation, logging.
- A type error while unmarshalling a kubelet reply is only logged; whatever fields were filled in by then are an input.
- The registry, `resource.Quantity` and the protobuf code beyond the assumptions above are not part of this model.
- `Work`, `ConvertGPUArchtoString`, `InitWatcher`, `Initmetrics`, `NewClusterManager`, `main`, and the unused storage types: wiring, printing or a constant table.
