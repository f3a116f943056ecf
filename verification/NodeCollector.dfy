/** Scraping a node: from the kubelet's reply to the samples of every kept pod. */
module NodeCollector {
  import opened Options
  import opened Quantities
  import opened Readings
  import opened Storage
  import opened Decode
  import opened Kubelet
  import opened Samples

  /** The parts of the Kubernetes node object the collector reads. */
  datatype Node = Node(name: string, addresses: seq<string>, allocatable: map<string, Quantity>)

  function Allocatable(node: Node, resource: string): Quantity {
    if resource in node.allocatable then node.allocatable[resource] else ZERO_QUANTITY
  }

  /**
   `AsInt64` belongs to the Kubernetes libraries: the collector takes it as a parameter and keeps its
   number whatever its second result says.
   */
  type AsInt64 = Quantity -> Int64

  datatype ScrapeError = Unfetched(node: string, address: string) | DecodeErrors(errs: seq<DecodeError>)

  datatype CollectOutcome = Collected(batch: MetricsBatch?, err: Option<ScrapeError>) | CollectPanicked

  datatype Collection = Collection(metricsbatch: MetricsBatch?, clusterName: string)

  datatype ScrapOutcome = Scraped(collection: Collection, err: Option<seq<ScrapeError>>) | ScrapPanicked

  /** The replies for which a scrape yields a batch. */
  predicate Scrapable(client: KubeletClient) {
    SummaryFor(client).Fetched? && BatchSafe(SummaryFor(client).summary)
  }

  method CollectNode(client: KubeletClient, node: Node) returns (out: CollectOutcome)
    ensures Scrapable(client) ==>
              && out.Collected? && out.batch != null && out.batch.Represents(BatchOf(SummaryFor(client).summary))
              && fresh(out.batch) && fresh(Cells(out.batch.pods))
              && (out.err.None? <==> BatchErrors(SummaryFor(client).summary) == [])
    ensures !Scrapable(client) ==>
              if SummaryFor(client).RequestFailed? && node.addresses != []
              then out == Collected(null, Some(Unfetched(node.name, node.addresses[0])))
              else out.CollectPanicked?
  {
    var fetched := GetSummary(client);
    if fetched.FetchPanicked? {
      return CollectPanicked;
    }
    if fetched.RequestFailed? {
      if |node.addresses| == 0 {
        return CollectPanicked;
      }
      return Collected(null, Some(Unfetched(node.name, node.addresses[0])));
    }
    var decoded := DecodeBatch(fetched.summary);
    if decoded.Panicked? {
      return CollectPanicked;
    }
    out := Collected(decoded.batch, if decoded.err.Some? then Some(DecodeErrors(decoded.err.value)) else None);
  }

  /** The error of `CollectNode` is wrapped into a local and never returned: `Scrap` reports none, ever. */
  method Scrap(client: KubeletClient, node: Node, clusterName: string) returns (out: ScrapOutcome)
    ensures Scrapable(client) ==>
              && out.Scraped? && out.collection.metricsbatch != null
              && out.collection.metricsbatch.Represents(BatchOf(SummaryFor(client).summary))
              && fresh(out.collection.metricsbatch) && fresh(Cells(out.collection.metricsbatch.pods))
    ensures client.requestBuilds && (client.reply.Response? ==> client.reply.status != 200) ==>
              out.Scraped? && out.collection.metricsbatch != null && out.collection.metricsbatch.pods == []
    ensures !Scrapable(client) ==> out.ScrapPanicked? || out.collection.metricsbatch == null
    ensures out.Scraped? ==> out.collection.clusterName == clusterName && out.err.None?
  {
    var collected := CollectNode(client, node);
    if collected.CollectPanicked? {
      return ScrapPanicked;
    }
    var errs: seq<ScrapeError> := [];
    out := Scraped(Collection(collected.batch, clusterName), if errs == [] then None else Some(errs));
  }

  /** What a pod's samples are computed from beside the pod itself. */
  datatype Context = Context(clusterName: string, totalCPU: Int64, totalMemory: Int64, totalStorage: Int64)

  function ContextOf(node: Node, clusterName: string, asInt64: AsInt64): Context {
    Context(clusterName,
            asInt64(Allocatable(node, "cpu")),
            asInt64(Allocatable(node, "memory")),
            asInt64(Allocatable(node, "ephemeral-storage")))
  }

  function PodBlock(pod: PodPoint, ctx: Context, asInt64: AsInt64): seq<Sample> {
    var labels := [ctx.clusterName, pod.namespace, pod.name];
    var cpu, memory, storage :=
      asInt64(pod.metrics.cpuUsageNanoCores), asInt64(pod.metrics.memoryUsageBytes), asInt64(pod.metrics.fsUsedBytes);
    [Sample(CPUCoreGauge, Percent(cpu, ctx.totalCPU), labels),
     Sample(CPUCoreCounter, Count(cpu), labels),
     Sample(MemoryCounter, Count(memory), labels),
     Sample(MemoryGauge, Percent(memory, ctx.totalMemory), labels),
     Sample(NetworkRXCounter, Count(asInt64(pod.metrics.networkRxBytes)), labels),
     Sample(NetworkTXCounter, Count(asInt64(pod.metrics.networkTxBytes)), labels),
     Sample(StorageCounter, Count(storage), labels),
     Sample(StorageGauge, Percent(storage, ctx.totalStorage), labels)]
  }

  function PodBlocks(pods: seq<PodPoint>, ctx: Context, asInt64: AsInt64): seq<seq<Sample>> {
    seq(|pods|, i requires 0 <= i < |pods| => PodBlock(pods[i], ctx, asInt64))
  }

  /** One block per pod, in pod order. */
  function NodeTrace(pods: seq<PodPoint>, ctx: Context, asInt64: AsInt64): seq<Sample> {
    Joined(PodBlocks(pods, ctx, asInt64))
  }

  lemma OneMoreBlock(pods: seq<PodPoint>, i: nat, ctx: Context, asInt64: AsInt64)
    requires i < |pods|
    ensures NodeTrace(pods[..i + 1], ctx, asInt64)
         == NodeTrace(pods[..i], ctx, asInt64) + PodBlock(pods[i], ctx, asInt64)
  {
    assert PodBlocks(pods[..i + 1], ctx, asInt64)
        == PodBlocks(pods[..i], ctx, asInt64) + [PodBlock(pods[i], ctx, asInt64)];
    JoinedAppend(PodBlocks(pods[..i], ctx, asInt64), PodBlock(pods[i], ctx, asInt64));
  }

  /** The descriptors announced by `Describe`, in the order they are announced. */
  function Describe(): seq<Desc> {
    [CPUCoreCounter, CPUCoreGauge, MemoryCounter, MemoryGauge,
     NetworkRXCounter, NetworkTXCounter, StorageCounter, StorageGauge]
  }

  /** A block of eight samples reports this pod, against the totals this node has to allocate. */
  ghost predicate ReportsPod(block: seq<Sample>, pod: PodPoint, node: Node, clusterName: string, asInt64: AsInt64) {
    var labels, m, allocatable := [clusterName, pod.namespace, pod.name], pod.metrics, node.allocatable;
    var none := asInt64(Quantity(0, 0, NoFormat));
    var cpuTotal := if "cpu" in allocatable then asInt64(allocatable["cpu"]) else none;
    var memoryTotal := if "memory" in allocatable then asInt64(allocatable["memory"]) else none;
    var storageTotal := if "ephemeral-storage" in allocatable then asInt64(allocatable["ephemeral-storage"]) else none;
    && |block| == 8
    && block[0] == Sample(CPUCoreGauge, Percent(asInt64(m.cpuUsageNanoCores), cpuTotal), labels)
    && block[1] == Sample(CPUCoreCounter, Count(asInt64(m.cpuUsageNanoCores)), labels)
    && block[2] == Sample(MemoryCounter, Count(asInt64(m.memoryUsageBytes)), labels)
    && block[3] == Sample(MemoryGauge, Percent(asInt64(m.memoryUsageBytes), memoryTotal), labels)
    && block[4] == Sample(NetworkRXCounter, Count(asInt64(m.networkRxBytes)), labels)
    && block[5] == Sample(NetworkTXCounter, Count(asInt64(m.networkTxBytes)), labels)
    && block[6] == Sample(StorageCounter, Count(asInt64(m.fsUsedBytes)), labels)
    && block[7] == Sample(StorageGauge, Percent(asInt64(m.fsUsedBytes), storageTotal), labels)
  }

  /** One such block for each pod, in pod order, and nothing else. */
  ghost predicate ReportsPods(trace: seq<Sample>, pods: seq<PodPoint>, node: Node, clusterName: string,
                              asInt64: AsInt64) {
    && |trace| == 8 * |pods|
    && forall k :: 0 <= k < |pods| ==> ReportsPod(trace[8 * k..8 * k + 8], pods[k], node, clusterName, asInt64)
  }

  lemma BlockReportsPod(pod: PodPoint, node: Node, clusterName: string, asInt64: AsInt64)
    ensures ReportsPod(PodBlock(pod, ContextOf(node, clusterName, asInt64), asInt64), pod, node, clusterName, asInt64)
  {
  }

  lemma {:induction false} EightEach(blocks: seq<seq<Sample>>)
    requires forall i :: 0 <= i < |blocks| ==> |blocks[i]| == 8
    ensures |Joined(blocks)| == 8 * |blocks|
  {
    if blocks != [] {
      EightEach(blocks[..|blocks| - 1]);
    }
  }

  /** The trace is one block of eight samples per pod, in pod order. */
  lemma TraceIsBlocks(pods: seq<PodPoint>, ctx: Context, asInt64: AsInt64)
    ensures |NodeTrace(pods, ctx, asInt64)| == 8 * |pods|
    ensures forall i :: 0 <= i < |pods| ==>
              NodeTrace(pods, ctx, asInt64)[8 * i..8 * i + 8] == PodBlock(pods[i], ctx, asInt64)
  {
    var blocks := PodBlocks(pods, ctx, asInt64);
    EightEach(blocks);
    forall i | 0 <= i < |pods|
      ensures NodeTrace(pods, ctx, asInt64)[8 * i..8 * i + 8] == PodBlock(pods[i], ctx, asInt64)
    {
      JoinedAt(blocks, i);
      EightEach(blocks[..i]);
    }
  }

  lemma TraceReportsPods(pods: seq<PodPoint>, node: Node, clusterName: string, asInt64: AsInt64)
    ensures ReportsPods(NodeTrace(pods, ContextOf(node, clusterName, asInt64), asInt64),
                        pods, node, clusterName, asInt64)
  {
    TraceIsBlocks(pods, ContextOf(node, clusterName, asInt64), asInt64);
    forall k | 0 <= k < |pods|
      ensures ReportsPod(NodeTrace(pods, ContextOf(node, clusterName, asInt64), asInt64)[8 * k..8 * k + 8],
                         pods[k], node, clusterName, asInt64)
    {
      BlockReportsPod(pods[k], node, clusterName, asInt64);
    }
  }

  /** A reply arrived with status 200. */
  ghost predicate Arrived(client: KubeletClient) {
    client.requestBuilds && client.reply.Response? && client.reply.status == 200
  }

  /** Such a reply is not JSON, or its node or one of its pods runs into a nil counter. */
  ghost predicate Unusable(body: Body) {
    body.NotJSON? || NodePanics(body.node) || exists p :: p in body.pods && PodPanics(p)
  }

  lemma ScrapableMeans(client: KubeletClient)
    ensures Scrapable(client) <==> client.requestBuilds && (Arrived(client) ==> !Unusable(client.reply.body))
    ensures Scrapable(client) ==>
              SummaryFor(client).summary.pods == if Arrived(client) then client.reply.body.pods else []
  {
    if SummaryFor(client).Fetched? {
      BatchSafeMeans(SummaryFor(client).summary);
    }
  }

  /** Either every kept pod is emitted, in order, or the call panics before it has sent anything. */
  method Collect(ch: Channel, client: KubeletClient, node: Node, clusterName: string, asInt64: AsInt64)
      returns (panicked: bool)
    modifies ch
    ensures panicked <==> !Scrapable(client)
    ensures panicked <==> !client.requestBuilds || (Arrived(client) && Unusable(client.reply.body))
    ensures panicked ==> ch.sent == old(ch.sent)
    ensures client.requestBuilds && !Arrived(client) ==> !panicked && ch.sent == old(ch.sent)
    ensures !panicked && Arrived(client) ==>
              && |old(ch.sent)| <= |ch.sent| && ch.sent[..|old(ch.sent)|] == old(ch.sent)
              && ReportsPods(ch.sent[|old(ch.sent)|..], Kept(client.reply.body.pods), node, clusterName, asInt64)
    ensures !panicked ==>
              ch.sent == old(ch.sent)
                + NodeTrace(Kept(SummaryFor(client).summary.pods), ContextOf(node, clusterName, asInt64), asInt64)
  {
    ScrapableMeans(client);
    var totalCPU := asInt64(Allocatable(node, "cpu"));
    var totalMemory := asInt64(Allocatable(node, "memory"));
    var totalStorage := asInt64(Allocatable(node, "ephemeral-storage"));

    var scraped := Scrap(client, node, clusterName);
    if scraped.ScrapPanicked? || scraped.collection.metricsbatch == null {
      return true;
    }
    var batch := scraped.collection.metricsbatch;
    EmitPods(ch, batch.pods, scraped.collection.clusterName, totalCPU, totalMemory, totalStorage, asInt64,
             BatchOf(SummaryFor(client).summary).pods);
    TraceReportsPods(Kept(SummaryFor(client).summary.pods), node, clusterName, asInt64);
    panicked := false;
  }

  /** The loop over the batch. */
  method EmitPods(ch: Channel, pods: seq<PodMetricsPoint>, clusterName: string,
                  totalCPU: Int64, totalMemory: Int64, totalStorage: Int64, asInt64: AsInt64,
                  ghost kept: seq<PodPoint>)
    requires Hold(pods, kept)
    modifies ch
    ensures ch.sent == old(ch.sent)
              + NodeTrace(kept, Context(clusterName, totalCPU, totalMemory, totalStorage), asInt64)
  {
    ghost var ctx := Context(clusterName, totalCPU, totalMemory, totalStorage);
    for i := 0 to |pods|
      invariant Hold(pods, kept)
      invariant ch.sent == old(ch.sent) + NodeTrace(kept[..i], ctx, asInt64)
    {
      ghost var sent := ch.sent;
      OneMoreBlock(kept, i, ctx, asInt64);
      EmitPod(ch, pods[i], clusterName, totalCPU, totalMemory, totalStorage, asInt64);
      assert ch.sent == sent + PodBlock(kept[i], ctx, asInt64);
    }
    assert kept[..|pods|] == kept;
  }

  /** The loop body: eight sends for one pod. */
  method EmitPod(ch: Channel, pod: PodMetricsPoint, clusterName: string,
                 totalCPU: Int64, totalMemory: Int64, totalStorage: Int64, asInt64: AsInt64)
    modifies ch
    ensures ch.sent == old(ch.sent)
              + PodBlock(pod.Value(), Context(clusterName, totalCPU, totalMemory, totalStorage), asInt64)
  {
    var labels := [clusterName, pod.namespace, pod.name];
    var cpuUsage := asInt64(pod.metrics.cpuUsageNanoCores);
    var memoryUsage := asInt64(pod.metrics.memoryUsageBytes);
    var storageUsage := asInt64(pod.metrics.fsUsedBytes);
    var networkrxUsage := asInt64(pod.metrics.networkRxBytes);
    var networktxUsage := asInt64(pod.metrics.networkTxBytes);
    ghost var ctx := Context(clusterName, totalCPU, totalMemory, totalStorage);
    ghost var start, plan := ch.sent, PodBlock(pod.Value(), ctx, asInt64);
    ch.SendNext(Sample(CPUCoreGauge, Percent(cpuUsage, totalCPU), labels), start, plan, 0);
    ch.SendNext(Sample(CPUCoreCounter, Count(cpuUsage), labels), start, plan, 1);
    ch.SendNext(Sample(MemoryCounter, Count(memoryUsage), labels), start, plan, 2);
    ch.SendNext(Sample(MemoryGauge, Percent(memoryUsage, totalMemory), labels), start, plan, 3);
    ch.SendNext(Sample(NetworkRXCounter, Count(networkrxUsage), labels), start, plan, 4);
    ch.SendNext(Sample(NetworkTXCounter, Count(networktxUsage), labels), start, plan, 5);
    ch.SendNext(Sample(StorageCounter, Count(storageUsage), labels), start, plan, 6);
    ch.SendNext(Sample(StorageGauge, Percent(storageUsage, totalStorage), labels), start, plan, 7);
    assert plan[..8] == plan;
  }
}
