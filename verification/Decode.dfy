/**
 `DecodeBatch`: the in-place compaction loop over reused slots, proved to be "keep the fully decodable
 pods, in order", with the exact inputs on which it completes.
 */
module Decode {
  import opened Options
  import opened Quantities
  import opened Readings
  import opened Stats
  import opened Storage
  import opened ScrapeTimes
  import opened Sections

  datatype Owner = NodeOwner(name: string) | PodOwner(name: string)

  datatype DecodeError =
    | NoTimestamp(owner: Owner)
    | SectionMissing(owner: Owner, section: Section)

  /** `utilerrors.NewAggregate`: nil for an empty list. */
  function Aggregate(errs: seq<DecodeError>): Option<seq<DecodeError>> {
    if errs == [] then None else Some(errs)
  }

  // ----- what a pod or node decodes to

  predicate HasTime(sources: seq<Option<Time>>) {
    exists s :: s in sources && Supplies(s)
  }

  function PodInputs(p: PodStats): Inputs {
    Inputs(p.cpu, p.memory, p.ephemeralStorage)
  }

  function NodeInputs(n: NodeStats): Inputs {
    Inputs(n.cpu, n.memory, n.fs)
  }

  predicate PodSafe(p: PodStats) {
    HasTime(PodSources(p)) ==> Safe(PodInputs(p))
  }

  predicate AllSafe(pods: seq<PodStats>) {
    forall p :: p in pods ==> PodSafe(p)
  }

  predicate NodeSafe(n: NodeStats) {
    HasTime(NodeSources(n)) ==> Safe(NodeInputs(n))
  }

  /** The inputs on which `DecodeBatch` meets no nil pointer. */
  predicate BatchSafe(summary: Summary) {
    NodeSafe(summary.node) && AllSafe(summary.pods)
  }

  predicate InputsDecode(inputs: Inputs) {
    CPUDecodes(inputs.cpu) && MemoryDecodes(inputs.memory) && FsDecodes(inputs.fs)
  }

  predicate FullyDecodes(p: PodStats) {
    HasTime(PodSources(p)) && InputsDecode(PodInputs(p))
  }

  predicate NodeFullyDecodes(n: NodeStats) {
    HasTime(NodeSources(n)) && InputsDecode(NodeInputs(n))
  }

  const ALL_SECTIONS: set<Section> := {CPU, Memory, Fs}

  /** The point of a pod or node whose earliest timestamp is `t`: empty but for the sections that decode. */
  function DecodedPoint(t: Time, inputs: Inputs): Point {
    Overlay(EmptyPoint(t), ALL_SECTIONS, inputs)
  }

  function TimeOf(sources: seq<Option<Time>>): Time {
    var t := Earliest(sources);
    if t.Some? then t.value else ZERO_TIME
  }

  function DecodedPod(p: PodStats): PodPoint {
    PodPoint(p.podRef.name, p.podRef.namespace, DecodedPoint(TimeOf(PodSources(p)), PodInputs(p)), [])
  }

  function DecodedNode(n: NodeStats): NodePoint {
    if HasTime(NodeSources(n)) then NodePoint(n.nodeName, DecodedPoint(TimeOf(NodeSources(n)), NodeInputs(n)))
    else NodePoint("", EmptyPoint(ZERO_TIME))
  }

  function SectionErrors(owner: Owner, inputs: Inputs): seq<DecodeError> {
    (if CPUDecodes(inputs.cpu) then [] else [SectionMissing(owner, CPU)]) +
    (if MemoryDecodes(inputs.memory) then [] else [SectionMissing(owner, Memory)]) +
    (if FsDecodes(inputs.fs) then [] else [SectionMissing(owner, Fs)])
  }

  function PodErrors(p: PodStats): seq<DecodeError> {
    if HasTime(PodSources(p)) then SectionErrors(PodOwner(p.podRef.name), PodInputs(p))
    else [NoTimestamp(PodOwner(p.podRef.name))]
  }

  function NodeErrors(n: NodeStats): seq<DecodeError> {
    if HasTime(NodeSources(n)) then SectionErrors(NodeOwner(n.nodeName), NodeInputs(n))
    else [NoTimestamp(NodeOwner(n.nodeName))]
  }

  /** The pods that decode fully, in input order. */
  function Survivors(pods: seq<PodStats>): seq<PodStats> {
    if pods == [] then []
    else
      Survivors(pods[..|pods| - 1]) + (if FullyDecodes(pods[|pods| - 1]) then [pods[|pods| - 1]] else [])
  }

  function DecodedPods(pods: seq<PodStats>): seq<PodPoint> {
    seq(|pods|, i requires 0 <= i < |pods| => DecodedPod(pods[i]))
  }

  function Kept(pods: seq<PodStats>): seq<PodPoint> {
    DecodedPods(Survivors(pods))
  }

  function AllPodErrors(pods: seq<PodStats>): seq<DecodeError> {
    if pods == [] then []
    else AllPodErrors(pods[..|pods| - 1]) + PodErrors(pods[|pods| - 1])
  }

  function BatchOf(summary: Summary): BatchValue {
    BatchValue(summary.ip, DecodedNode(summary.node), Kept(summary.pods))
  }

  function BatchErrors(summary: Summary): seq<DecodeError> {
    NodeErrors(summary.node) + AllPodErrors(summary.pods)
  }

  // ----- the methods

  /** The loop variable of `range summary.Pods`: one cell, overwritten on every iteration. */
  class PodVar {
    var stats: PodStats

    constructor ()
      ensures stats == EMPTY_POD
    {
      stats := EMPTY_POD;
    }
  }

  lemma TimeFound(sources: seq<Option<Time>>)
    ensures Earliest(sources).Some? <==> HasTime(sources)
  {
    EarliestIsMinimum(sources);
  }

  /** The three section decoders in a row, as both the pod and the node decoder run them. */
  method DecodeSections(target: MetricsPoint, owner: Owner, inputs: Inputs)
      returns (errs: seq<DecodeError>, panicked: bool)
    modifies target
    ensures panicked <==> !Safe(inputs)
    ensures !panicked ==> errs == SectionErrors(owner, inputs)
    ensures !panicked ==> target.Value() == Overlay(old(target.Value()), ALL_SECTIONS, inputs)
    ensures !panicked && !CPUDecodes(inputs.cpu) ==>
              && errs != [] && errs[0] == SectionMissing(owner, CPU)
              && target.Value() == Overlay(old(target.Value()), {Memory, Fs}, inputs)
  {
    errs, panicked := [], false;
    var status := DecodeCPU(target, inputs.cpu);
    if status == Missing {
      errs := errs + [SectionMissing(owner, CPU)];
    }
    status := DecodeMemory(target, inputs.memory);
    if status == NilDereference {
      return errs, true;
    } else if status == Missing {
      errs := errs + [SectionMissing(owner, Memory)];
    }
    status := DecodeFs(target, inputs.fs);
    if status == NilDereference {
      return errs, true;
    } else if status == Missing {
      errs := errs + [SectionMissing(owner, Fs)];
    }
  }

  method DecodePodStats(pod: PodVar, target: PodMetricsPoint) returns (errs: seq<DecodeError>, panicked: bool)
    modifies target, target.metrics
    ensures panicked <==> !PodSafe(pod.stats)
    ensures !panicked ==> errs == PodErrors(pod.stats)
    ensures !panicked ==>
              target.Value() == if HasTime(PodSources(pod.stats)) then DecodedPod(pod.stats) else old(target.Value())
  {
    errs, panicked := [], false;
    TimeFound(PodSources(pod.stats));
    var timestamp := GetScrapeTimePod(pod.stats.cpu, pod.stats.memory);
    if timestamp.None? {
      return [NoTimestamp(PodOwner(pod.stats.podRef.name))], false;
    }
    target.name := pod.stats.podRef.name;
    target.namespace := pod.stats.podRef.namespace;
    target.containers := [];
    target.metrics.Reset(timestamp.value);

    errs, panicked := DecodeSections(target.metrics, PodOwner(pod.stats.podRef.name), PodInputs(pod.stats));
  }

  method DecodeNodeStats(node: NodeStats, target: NodeMetricsPoint) returns (errs: seq<DecodeError>, panicked: bool)
    modifies target, target.metrics
    ensures panicked <==> !NodeSafe(node)
    ensures !panicked ==> errs == NodeErrors(node)
    ensures !panicked ==>
              target.Value() == if HasTime(NodeSources(node)) then DecodedNode(node) else old(target.Value())
  {
    errs, panicked := [], false;
    TimeFound(NodeSources(node));
    var timestamp := GetScrapeTimeNode(node.cpu, node.memory, node.network, node.fs);
    if timestamp.None? {
      return [NoTimestamp(NodeOwner(node.nodeName))], false;
    }
    target.name := node.nodeName;
    target.metrics.Reset(timestamp.value);

    errs, panicked := DecodeSections(target.metrics, NodeOwner(node.nodeName), NodeInputs(node));
  }

  /** After the pods `done`: `num` slots hold the kept ones, and `errs` lists what was wrong with the others. */
  ghost predicate Progress(slots: seq<PodMetricsPoint>, num: nat, errs: seq<DecodeError>, done: seq<PodStats>)
    requires num <= |slots|
    reads Cells(slots[..num])
  {
    AllSafe(done) && errs == AllPodErrors(done) && Hold(slots[..num], Kept(done))
  }

  /** One iteration: the loop variable and slot `num` are overwritten, the slots before it keep their values. */
  method DecodeIntoSlot(pod: PodVar, pods: seq<PodStats>, i: nat, slots: seq<PodMetricsPoint>, num: nat,
                        ghost before: seq<DecodeError>)
      returns (errs: seq<DecodeError>, panicked: bool)
    requires i < |pods| && num < |slots| && Separate(slots)
    requires Progress(slots, num, before, pods[..i])
    modifies pod, slots[num], slots[num].metrics
    ensures panicked <==> !PodSafe(pods[i])
    ensures !panicked ==>
              Progress(slots, if errs == [] then num + 1 else num, before + errs, pods[..i + 1])
  {
    PrefixIsApart(slots, num);
    ghost var kept := Kept(pods[..i]);
    pod.stats := pods[i];
    errs, panicked := DecodePodStats(pod, slots[num]);
    assert Hold(slots[..num], kept);
    TakeNext(pods, i);
    OneMorePod(pods[..i], pods[i]);
    if !panicked && errs == [] {
      HoldOneMore(slots, num, kept, DecodedPod(pods[i]));
    }
  }

  lemma PrefixIsApart(slots: seq<PodMetricsPoint>, i: nat)
    requires i < |slots| && Separate(slots)
    ensures slots[i] !in Cells(slots[..i]) && slots[i].metrics !in Cells(slots[..i])
  {
  }

  lemma HoldOneMore(slots: seq<PodMetricsPoint>, num: nat, kept: seq<PodPoint>, value: PodPoint)
    requires num < |slots| && Hold(slots[..num], kept) && slots[num].Value() == value
    ensures Hold(slots[..num + 1], kept + [value])
  {
    assert slots[..num + 1] == slots[..num] + [slots[num]];
  }

  /** One more pod extends the kept pods by at most itself, and the errors by its own. */
  lemma OneMorePod(done: seq<PodStats>, p: PodStats)
    ensures Kept(done + [p]) == Kept(done) + (if FullyDecodes(p) then [DecodedPod(p)] else [])
    ensures AllPodErrors(done + [p]) == AllPodErrors(done) + PodErrors(p)
    ensures PodErrors(p) == [] <==> FullyDecodes(p)
  {
    assert (done + [p])[..|done|] == done;
  }

  /**
   The compaction loop, for any slots whatever they hold beforehand. On return the first `num` slots
   hold the kept pods; a slot left dirty by a dropped pod is overwritten by the next kept one.
   */
  method DecodePods(pods: seq<PodStats>, slots: seq<PodMetricsPoint>)
      returns (num: nat, errs: seq<DecodeError>, panicked: bool)
    requires |slots| == |pods| && Separate(slots)
    modifies Cells(slots)
    ensures panicked <==> !AllSafe(pods)
    ensures !panicked ==> num <= |slots| && Hold(slots[..num], Kept(pods)) && errs == AllPodErrors(pods)
  {
    num, errs, panicked := 0, [], false;
    var pod := new PodVar();
    for i := 0 to |pods|
      invariant num <= i && !panicked
      invariant Progress(slots, num, errs, pods[..i])
    {
      SlotIsCell(slots, num);
      var podErrs, failed := DecodeIntoSlot(pod, pods, i, slots, num, errs);
      if failed {
        assert pods[i] in pods;
        return num, errs, true;
      }
      errs := errs + podErrs;
      if |podErrs| != 0 {
        continue;
      }
      num := num + 1;
    }
    assert pods[..|pods|] == pods;
  }

  lemma TakeNext(pods: seq<PodStats>, i: nat)
    requires i < |pods|
    ensures pods[..i + 1] == pods[..i] + [pods[i]] && pods[i] in pods
  {
  }

  lemma SlotIsCell(slots: seq<PodMetricsPoint>, i: nat)
    requires i < |slots|
    ensures slots[i] in Cells(slots) && slots[i].metrics in Cells(slots)
  {
    assert slots[i] in slots;
  }

  // ----- the same in terms of the summary's fields

  lemma TimeMeans(p: PodStats, n: NodeStats)
    ensures HasTime(PodSources(p)) <==> Timed(p.cpu, p.memory, None, None)
    ensures HasTime(NodeSources(n)) <==> Timed(n.cpu, n.memory, n.network, n.fs)
    ensures HasTime(PodSources(p)) ==> IsEarliest(TimeOf(PodSources(p)), p.cpu, p.memory, None, None)
    ensures HasTime(NodeSources(n)) ==> IsEarliest(TimeOf(NodeSources(n)), n.cpu, n.memory, n.network, n.fs)
  {
    TimeFound(PodSources(p));
    TimeFound(NodeSources(n));
    EarliestOfSections(p.cpu, p.memory, None, None);
    EarliestOfSections(n.cpu, n.memory, n.network, n.fs);
  }

  lemma SectionsMean(inputs: Inputs)
    ensures Safe(inputs) <==> !NilRead(inputs.memory, inputs.fs)
    ensures InputsDecode(inputs) <==> Complete(inputs.cpu, inputs.memory, inputs.fs)
  {
  }

  lemma MemoryAndFsEncode(inputs: Inputs)
    ensures MemoryDecodes(inputs.memory) ==>
              && Encodes(Bytes(inputs.memory.value.usageBytes.value), inputs.memory.value.usageBytes.value, 0, BinarySI)
              && Encodes(Bytes(inputs.memory.value.workingSetBytes.value),
                         inputs.memory.value.workingSetBytes.value, 0, BinarySI)
    ensures FsDecodes(inputs.fs) ==>
              && Encodes(Bytes(inputs.fs.value.availableBytes.value), inputs.fs.value.availableBytes.value, 0, BinarySI)
              && Encodes(Bytes(inputs.fs.value.capacityBytes.value), inputs.fs.value.capacityBytes.value, 0, BinarySI)
  {
    if MemoryDecodes(inputs.memory) {
      BytesEncode(inputs.memory.value.usageBytes.value);
      BytesEncode(inputs.memory.value.workingSetBytes.value);
    }
    if FsDecodes(inputs.fs) {
      BytesEncode(inputs.fs.value.availableBytes.value);
      BytesEncode(inputs.fs.value.capacityBytes.value);
    }
  }

  lemma PointCarries(t: Time, inputs: Inputs)
    ensures Carries(DecodedPoint(t, inputs), inputs.cpu, inputs.memory, inputs.fs)
    ensures DecodedPoint(t, inputs).timestamp == t
  {
    if CPUDecodes(inputs.cpu) {
      PrecisionBound(inputs.cpu.value.usageNanoCores.value, NANO);
    }
    MemoryAndFsEncode(inputs);
    if MemoryDecodes(inputs.memory) && inputs.memory.value.availableBytes.Some? {
      BytesEncode(inputs.memory.value.availableBytes.value);
    }
    if FsDecodes(inputs.fs) {
      BytesEncode(if inputs.fs.value.usedBytes.Some? then inputs.fs.value.usedBytes.value else 0);
    }
  }

  lemma NodeMeans(n: NodeStats)
    ensures CarriesNode(DecodedNode(n), n)
    ensures NodeSafe(n) <==> !NodePanics(n)
    ensures NodeErrors(n) == [] <==> Timed(n.cpu, n.memory, n.network, n.fs) && Complete(n.cpu, n.memory, n.fs)
  {
    TimeMeans(EMPTY_POD, n);
    SectionsMean(NodeInputs(n));
    PointCarries(TimeOf(NodeSources(n)), NodeInputs(n));
  }

  lemma KeepableIff(p: PodStats)
    ensures FullyDecodes(p) <==> Keepable(p)
  {
    TimeMeans(p, EMPTY_NODE);
    SectionsMean(PodInputs(p));
  }

  lemma PodMeans(p: PodStats)
    ensures FullyDecodes(p) <==> Keepable(p)
    ensures FullyDecodes(p) ==> CarriesPod(DecodedPod(p), p)
    ensures PodSafe(p) <==> !PodPanics(p)
    ensures PodErrors(p) == [] <==> Keepable(p)
  {
    TimeMeans(p, EMPTY_NODE);
    SectionsMean(PodInputs(p));
    PointCarries(TimeOf(PodSources(p)), PodInputs(p));
  }

  lemma BatchSafeMeans(summary: Summary)
    ensures BatchSafe(summary) <==> !NodePanics(summary.node) && forall p :: p in summary.pods ==> !PodPanics(p)
  {
    NodeMeans(summary.node);
    forall p | p in summary.pods
      ensures PodSafe(p) <==> !PodPanics(p)
    {
      PodMeans(p);
    }
  }

  lemma {:induction false} NoPodErrorsIff(pods: seq<PodStats>)
    ensures AllPodErrors(pods) == [] <==> forall p :: p in pods ==> Keepable(p)
  {
    if pods != [] {
      var init, last := pods[..|pods| - 1], pods[|pods| - 1];
      assert pods == init + [last];
      NoPodErrorsIff(init);
      OneMorePod(init, last);
      KeepableIff(last);
    }
  }

  /** How a call ends: with a batch and possibly an error beside it, or in a nil pointer dereference. */
  datatype DecodeOutcome = Returned(batch: MetricsBatch, err: Option<seq<DecodeError>>) | Panicked

  method DecodeBatch(summary: Summary) returns (out: DecodeOutcome)
    ensures out.Returned? <==> BatchSafe(summary)
    ensures out.Returned? <==> !NodePanics(summary.node) && forall p :: p in summary.pods ==> !PodPanics(p)
    ensures out.Returned? ==> out.batch.Represents(BatchOf(summary)) && out.err == Aggregate(BatchErrors(summary))
    ensures out.Returned? ==>
              && out.batch.ip == summary.ip
              && CarriesNode(out.batch.node.Value(), summary.node)
              && Hold(out.batch.pods, Kept(summary.pods))
    ensures out.Returned? ==>
              (out.err.None?
               <==> (&& Timed(summary.node.cpu, summary.node.memory, summary.node.network, summary.node.fs)
                     && Complete(summary.node.cpu, summary.node.memory, summary.node.fs)
                     && forall p :: p in summary.pods ==> Keepable(p)))
    ensures out.Returned? ==> fresh(out.batch) && fresh(Cells(out.batch.pods)) && Separate(out.batch.pods)
  {
    BatchSafeMeans(summary);
    NodeMeans(summary.node);
    NoPodErrorsIff(summary.pods);
    var res := new MetricsBatch(summary.ip, |summary.pods|);
    var errs, panicked := DecodeNodeStats(summary.node, res.node);
    if panicked {
      return Panicked;
    }
    var num, podErrs, podPanicked := DecodePods(summary.pods, res.pods);
    if podPanicked {
      return Panicked;
    }
    errs := errs + podErrs;
    CellsOfPrefix(res.pods, num);
    res.pods := res.pods[..num];
    out := Returned(res, Aggregate(errs));
  }

  lemma CellsOfPrefix(slots: seq<PodMetricsPoint>, n: nat)
    requires n <= |slots|
    ensures Cells(slots[..n]) <= Cells(slots)
  {
  }
}
