/** What the node trace guarantees, from the kubelet's pods to the samples sent. */
module NodeProperties {
  import opened Quantities
  import opened Readings
  import opened Stats
  import opened Storage
  import opened Sections
  import opened Decode
  import opened DecodeProperties
  import opened Kubelet
  import opened Samples
  import opened NodeCollector

  // ----- isolation across the pipeline

  lemma TraceConcat(xs: seq<PodPoint>, ys: seq<PodPoint>, ctx: Context, asInt64: AsInt64)
    ensures NodeTrace(xs + ys, ctx, asInt64) == NodeTrace(xs, ctx, asInt64) + NodeTrace(ys, ctx, asInt64)
  {
    assert PodBlocks(xs + ys, ctx, asInt64) == PodBlocks(xs, ctx, asInt64) + PodBlocks(ys, ctx, asInt64);
    JoinedConcat(PodBlocks(xs, ctx, asInt64), PodBlocks(ys, ctx, asInt64));
  }

  /** What one pod contributes to the trace does not depend on the pods before or after it. */
  lemma TraceOfConcat(xs: seq<PodStats>, ys: seq<PodStats>, ctx: Context, asInt64: AsInt64)
    ensures NodeTrace(Kept(xs + ys), ctx, asInt64)
         == NodeTrace(Kept(xs), ctx, asInt64) + NodeTrace(Kept(ys), ctx, asInt64)
  {
    PodsAreIsolated(xs, ys);
    TraceConcat(Kept(xs), Kept(ys), ctx, asInt64);
  }

  /** Undecodable pods put anywhere in a scrapable summary: still scrapable iff they are safe, same trace. */
  lemma UndecodablePodsEmitNothing(ip: string, n: NodeStats, xs: seq<PodStats>, junk: seq<PodStats>, ys: seq<PodStats>,
                                   ctx: Context, asInt64: AsInt64)
    requires forall p :: p in junk ==> !FullyDecodes(p)
    ensures var clean := KubeletClient(ip, true, Response(STATUS_OK, JSON(n, xs + ys, true)));
            var dirty := KubeletClient(ip, true, Response(STATUS_OK, JSON(n, xs + junk + ys, true)));
            && (Scrapable(dirty) <==> Scrapable(clean) && AllSafe(junk))
            && NodeTrace(Kept(SummaryFor(dirty).summary.pods), ctx, asInt64)
               == NodeTrace(Kept(SummaryFor(clean).summary.pods), ctx, asInt64)
  {
    UndecodablePodsAreInvisible(Summary(ip, n, xs), ys, junk);
  }

  // ----- sample identity

  /** Pairwise distinct (namespace, name). */
  ghost predicate DistinctPods(pods: seq<PodPoint>) {
    forall i, j :: 0 <= i < j < |pods| ==> pods[i].namespace != pods[j].namespace || pods[i].name != pods[j].name
  }

  ghost predicate DistinctRefs(pods: seq<PodStats>) {
    forall i, j :: 0 <= i < j < |pods| ==>
      pods[i].podRef.namespace != pods[j].podRef.namespace || pods[i].podRef.name != pods[j].podRef.name
  }

  lemma BlockIsUnique(pod: PodPoint, ctx: Context, asInt64: AsInt64)
    ensures UniqueIdentities(PodBlock(pod, ctx, asInt64))
  {
  }

  lemma BlockLabels(pod: PodPoint, ctx: Context, asInt64: AsInt64)
    ensures forall s :: s in PodBlock(pod, ctx, asInt64) ==> s.labels == [ctx.clusterName, pod.namespace, pod.name]
  {
  }

  predicate SamePod(p: PodPoint, q: PodPoint) {
    p.namespace == q.namespace && p.name == q.name
  }

  lemma BlocksDisjointIff(p: PodPoint, q: PodPoint, ctx: Context, asInt64: AsInt64)
    ensures DisjointIdentities(PodBlock(p, ctx, asInt64), PodBlock(q, ctx, asInt64)) <==> !SamePod(p, q)
  {
    var a, b := PodBlock(p, ctx, asInt64), PodBlock(q, ctx, asInt64);
    BlockLabels(p, ctx, asInt64);
    BlockLabels(q, ctx, asInt64);
    if SamePod(p, q) {
      assert IdentityOf(a[0]) == IdentityOf(b[0]);
    } else {
      var la, lb := [ctx.clusterName, p.namespace, p.name], [ctx.clusterName, q.namespace, q.name];
      assert la[1] != lb[1] || la[2] != lb[2];
      LabelsTellApart(a, b, la, lb);
    }
  }

  /** No (descriptor, labels) pair repeats iff no two pods share namespace and name. */
  lemma SamplesUniqueIff(pods: seq<PodPoint>, ctx: Context, asInt64: AsInt64)
    ensures UniqueIdentities(NodeTrace(pods, ctx, asInt64)) <==> DistinctPods(pods)
  {
    var blocks := PodBlocks(pods, ctx, asInt64);
    JoinedUniqueIff(blocks);
    forall i | 0 <= i < |pods|
      ensures UniqueIdentities(blocks[i])
    {
      BlockIsUnique(pods[i], ctx, asInt64);
    }
    forall i, j | 0 <= i < j < |pods|
      ensures DisjointIdentities(blocks[i], blocks[j]) <==> !SamePod(pods[i], pods[j])
    {
      BlocksDisjointIff(pods[i], pods[j], ctx, asInt64);
    }
  }

  /** Filtering keeps names distinct, so distinct input pods never emit the same sample twice. */
  lemma DistinctInputsEmitDistinctSamples(pods: seq<PodStats>, ctx: Context, asInt64: AsInt64)
    requires DistinctRefs(pods)
    ensures UniqueIdentities(NodeTrace(Kept(pods), ctx, asInt64))
  {
    var at := KeptInOrder(pods);
    SamplesUniqueIff(Kept(pods), ctx, asInt64);
  }

  /** With at least one kept pod the descriptors used are exactly those announced; with none, nothing is sent. */
  lemma DescriptorsAreDescribed(pods: seq<PodPoint>, ctx: Context, asInt64: AsInt64)
    ensures Descs(NodeTrace(pods, ctx, asInt64)) == if pods == [] then {} else set d | d in Describe()
  {
    var blocks := PodBlocks(pods, ctx, asInt64);
    var described := set d | d in Describe();
    forall i | 0 <= i < |pods|
      ensures Descs(blocks[i]) == described
    {
      BlockDescs(pods[i], ctx, asInt64);
    }
    JoinedDescs(blocks, described);
  }

  lemma BlockDescs(pod: PodPoint, ctx: Context, asInt64: AsInt64)
    ensures Descs(PodBlock(pod, ctx, asInt64)) == set d | d in Describe()
  {
    var block := PodBlock(pod, ctx, asInt64);
    assert block[0] in block && block[1] in block && block[2] in block && block[3] in block;
    assert block[4] in block && block[5] in block && block[6] in block && block[7] in block;
  }

  // ----- values

  /** The one fact assumed of the Kubernetes conversion: at scale 0 it returns the mantissa. */
  ghost predicate ExactAtScaleZero(asInt64: AsInt64) {
    forall q: Quantity :: q.scale == 0 ==> asInt64(q) == q.mantissa
  }

  /** The raw counters `Collect` reports: memory in use, and storage in use or 0 when it is absent. */
  function RawMemory(p: PodStats): Uint64
    requires FullyDecodes(p)
  {
    p.memory.value.usageBytes.value
  }

  function RawStorage(p: PodStats): Uint64
    requires FullyDecodes(p)
  {
    if p.ephemeralStorage.value.usedBytes.Some? then p.ephemeralStorage.value.usedBytes.value else 0
  }

  /**
   Eight samples labelled with the pod, carrying its raw counters wherever these fit an int64. The CPU
   samples carry whatever `AsInt64` makes of the packed CPU counter, whose scale is not 0.
   */
  ghost predicate CarriesRawCounters(block: seq<Sample>, p: PodStats, ctx: Context, asInt64: AsInt64)
    requires FullyDecodes(p)
  {
    && |block| == 8
    && (forall j :: 0 <= j < 8 ==> block[j].labels == [ctx.clusterName, p.podRef.namespace, p.podRef.name])
    && (var cpu := asInt64(Uint64Quantity(p.cpu.value.usageNanoCores.value, -9));
        block[0] == Sample(CPUCoreGauge, Percent(cpu, ctx.totalCPU), block[0].labels) &&
        block[1] == Sample(CPUCoreCounter, Count(cpu), block[0].labels))
    && block[2].desc == MemoryCounter && block[3].desc == MemoryGauge
    && block[6].desc == StorageCounter && block[7].desc == StorageGauge
    && (RawMemory(p) <= MAX_INT64 ==>
          block[2].value == Count(RawMemory(p)) && block[3].value == Percent(RawMemory(p), ctx.totalMemory))
    && (RawStorage(p) <= MAX_INT64 ==>
          block[6].value == Count(RawStorage(p)) && block[7].value == Percent(RawStorage(p), ctx.totalStorage))
    && block[4] == Sample(NetworkRXCounter, Count(0), block[0].labels)
    && block[5] == Sample(NetworkTXCounter, Count(0), block[0].labels)
  }

  lemma BlockCarriesRawCounters(p: PodStats, ctx: Context, asInt64: AsInt64)
    requires ExactAtScaleZero(asInt64) && FullyDecodes(p)
    ensures CarriesRawCounters(PodBlock(DecodedPod(p), ctx, asInt64), p, ctx, asInt64)
  {
    var m := DecodedPod(p).metrics;
    assert m.memoryUsageBytes == Bytes(RawMemory(p)) && m.fsUsedBytes == Bytes(RawStorage(p));
    assert m.networkRxBytes == ZERO_QUANTITY && m.networkTxBytes == ZERO_QUANTITY;
  }

  /**
   For every kept pod the memory and storage integers emitted are its raw counters, up to MaxInt64; an
   absent used-bytes counter reads 0 and so do the network totals, which are never decoded.
   */
  lemma EmittedValuesAreRawCounters(pods: seq<PodStats>, k: nat, ctx: Context, asInt64: AsInt64)
    requires ExactAtScaleZero(asInt64)
    requires k < |Kept(pods)|
    ensures |NodeTrace(Kept(pods), ctx, asInt64)| == 8 * |Kept(pods)|
    ensures Survivors(pods)[k] in pods && FullyDecodes(Survivors(pods)[k])
    ensures CarriesRawCounters(NodeTrace(Kept(pods), ctx, asInt64)[8 * k..8 * k + 8], Survivors(pods)[k], ctx, asInt64)
  {
    KeptPodIsFaithful(pods, k);
    TraceIsBlocks(Kept(pods), ctx, asInt64);
    BlockCarriesRawCounters(Survivors(pods)[k], ctx, asInt64);
    assert Kept(pods)[k] == DecodedPod(Survivors(pods)[k]);
  }

  /** The other fact the Kubernetes conversion may be known for: a quantity of negative scale reads 0. */
  ghost predicate ZeroBelowScaleZero(asInt64: AsInt64) {
    forall q: Quantity :: q.scale < 0 ==> asInt64(q) == 0
  }

  /** Under it every CPU sample reads 0: packed CPU counters have scale -9 or -8, whatever their value. */
  lemma CPUSamplesReadZero(pods: seq<PodStats>, k: nat, ctx: Context, asInt64: AsInt64)
    requires ZeroBelowScaleZero(asInt64)
    requires k < |Kept(pods)|
    ensures |NodeTrace(Kept(pods), ctx, asInt64)| == 8 * |Kept(pods)|
    ensures var block := NodeTrace(Kept(pods), ctx, asInt64)[8 * k..8 * k + 8];
            && block[0].desc == CPUCoreGauge && block[0].value == Percent(0, ctx.totalCPU)
            && block[1].desc == CPUCoreCounter && block[1].value == Count(0)
  {
    KeptPodIsFaithful(pods, k);
    TraceIsBlocks(Kept(pods), ctx, asInt64);
    CPUBlockReadsZero(Survivors(pods)[k], ctx, asInt64);
    assert Kept(pods)[k] == DecodedPod(Survivors(pods)[k]);
  }

  lemma CPUBlockReadsZero(p: PodStats, ctx: Context, asInt64: AsInt64)
    requires ZeroBelowScaleZero(asInt64) && FullyDecodes(p)
    ensures var block := PodBlock(DecodedPod(p), ctx, asInt64);
            && block[0].desc == CPUCoreGauge && block[0].value == Percent(0, ctx.totalCPU)
            && block[1].desc == CPUCoreCounter && block[1].value == Count(0)
  {
    assert DecodedPod(p).metrics.cpuUsageNanoCores.scale < 0;
  }

  // ----- failed fetches

  /**
   A request that was built and then failed, for any node, is an empty scrape: a batch with no pods, no
   panic, nothing emitted, and the failure shows only as the node's missing timestamp, which `Scrap` drops.
   */
  lemma FailedFetchIsEmptyScrape(client: KubeletClient, ctx: Context, asInt64: AsInt64)
    requires client.requestBuilds && (client.reply.Response? ==> client.reply.status != 200)
    ensures Scrapable(client)
    ensures BatchOf(SummaryFor(client).summary) == BatchValue(client.ip, NodePoint("", EmptyPoint(ZERO_TIME)), [])
    ensures BatchErrors(SummaryFor(client).summary) == [NoTimestamp(NodeOwner(""))]
    ensures NodeTrace(Kept(SummaryFor(client).summary.pods), ctx, asInt64) == []
  {
  }

  /** All the ways a scrape panics: no request, a 200 reply that is not JSON, or an unsafe summary. */
  lemma ScrapableIff(client: KubeletClient)
    ensures Scrapable(client) <==>
            (client.requestBuilds &&
             (client.reply.Response? && client.reply.status == 200 ==>
                && client.reply.body.JSON?
                && !NodePanics(client.reply.body.node)
                && forall p :: p in client.reply.body.pods ==> !PodPanics(p)))
  {
    ScrapableMeans(client);
  }
}
