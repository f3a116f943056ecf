/** The node side, from the pods a scrape keeps to the answer of `GetNode`. */
module NodeAnswers {
  import opened Options
  import opened Quantities
  import opened Storage
  import opened Decode
  import opened Kubelet
  import opened NodeCollector
  import opened NodeProperties
  import opened Collector
  import opened Answers

  predicate TotalsNonZero(ctx: Context) {
    ctx.totalCPU != 0 && ctx.totalMemory != 0 && ctx.totalStorage != 0
  }

  lemma BlockFiniteIff(pod: PodPoint, ctx: Context, asInt64: AsInt64)
    ensures FiniteTrace(PodBlock(pod, ctx, asInt64)) <==> TotalsNonZero(ctx)
  {
    var block := PodBlock(pod, ctx, asInt64);
    assert block[0] in block && block[3] in block && block[7] in block;
  }

  lemma TraceFiniteIff(pods: seq<PodPoint>, ctx: Context, asInt64: AsInt64)
    ensures FiniteTrace(NodeTrace(pods, ctx, asInt64)) <==> pods == [] || TotalsNonZero(ctx)
  {
    var blocks := PodBlocks(pods, ctx, asInt64);
    JoinedFiniteIff(blocks);
    forall i | 0 <= i < |pods|
      ensures FiniteTrace(blocks[i]) <==> TotalsNonZero(ctx)
    {
      BlockFiniteIff(pods[i], ctx, asInt64);
    }
    if pods != [] {
      assert FiniteTrace(blocks[0]) <==> TotalsNonZero(ctx);
    }
  }

  /** A node answers iff its kept pods are told apart by (namespace, name) and, if any, its totals are non-zero. */
  lemma NodeAnswersIff(pods: seq<PodPoint>, ctx: Context, asInt64: AsInt64, gathered: Option<seq<Family>>, codec: Codec)
    requires HonestGather(NodeTrace(pods, ctx, asInt64), gathered)
    requires StrictGather(NodeTrace(pods, ctx, asInt64), gathered) && ConvertsFinite(codec)
    ensures Reply(gathered, codec).Some? <==> DistinctPods(pods) && (pods == [] || TotalsNonZero(ctx))
  {
    ReplyIff(NodeTrace(pods, ctx, asInt64), gathered, codec);
    SamplesUniqueIff(pods, ctx, asInt64);
    TraceFiniteIff(pods, ctx, asInt64);
  }

  /** What the collector goes on with when the node lookup fails: its error is logged, the object is empty. */
  const NODE_NOT_FOUND := Node("", [], map[])

  /** The ignored lookup error costs the whole answer as soon as one pod is kept, and nothing before that. */
  lemma FailedLookupCostsTheAnswer(client: KubeletClient, clusterName: string, asInt64: AsInt64,
                                   gathered: Option<seq<Family>>, codec: Codec)
    requires Scrapable(client) && ExactAtScaleZero(asInt64) && ConvertsFinite(codec)
    requires var trace := NodeTrace(Kept(SummaryFor(client).summary.pods),
                                    ContextOf(NODE_NOT_FOUND, clusterName, asInt64), asInt64);
             HonestGather(trace, gathered) && StrictGather(trace, gathered)
    ensures Reply(gathered, codec).Some? <==> Kept(SummaryFor(client).summary.pods) == []
  {
    NodeAnswersIff(Kept(SummaryFor(client).summary.pods), ContextOf(NODE_NOT_FOUND, clusterName, asInt64), asInt64,
                   gathered, codec);
    assert asInt64(ZERO_QUANTITY) == 0;
  }
}
