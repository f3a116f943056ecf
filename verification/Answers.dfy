/** When the samples of a trace make it through the registry and the JSON round trip into an answer. */
module Answers {
  import opened Options
  import opened Samples
  import opened Collector

  /** JSON has no NaN and no infinity: a share of a total of 0 is one or the other. */
  predicate Finite(v: Value) {
    v.Percent? ==> v.total != 0
  }

  predicate FiniteFamily(f: Family) {
    forall m :: m in f.metrics && m.gauge.Some? ==> Finite(m.gauge.value)
  }

  predicate FiniteTrace(trace: seq<Sample>) {
    forall s :: s in trace ==> Finite(s.value)
  }

  /** A family converts exactly when every gauge in it is finite. */
  ghost predicate ConvertsFinite(codec: Codec) {
    forall f: Family :: Transcoded(codec, f).Some? <==> FiniteFamily(f)
  }

  /** A family that survives the JSON round trip comes back unchanged. */
  ghost predicate Lossless(codec: Codec) {
    forall f: Family :: Transcoded(codec, f).Some? ==> Transcoded(codec, f) == Some(f)
  }

  /** A successful gathering is faithful to the trace. */
  ghost predicate HonestGather(trace: seq<Sample>, gathered: Option<seq<Family>>) {
    gathered.Some? ==> FaithfulGather(trace, gathered.value)
  }

  /** Gathering succeeds exactly when no (descriptor, labels) pair was collected twice. */
  ghost predicate StrictGather(trace: seq<Sample>, gathered: Option<seq<Family>>) {
    gathered.Some? <==> UniqueIdentities(trace)
  }

  // ----- families and samples

  lemma {:induction false} SampleHasNamedMetric(trace: seq<Sample>, s: Sample)
    requires s in trace
    ensures MetricOf(s) in MetricsNamed(trace, Name(s.desc))
  {
    var init, last := trace[..|trace| - 1], trace[|trace| - 1];
    if s != last {
      assert s in init;
      SampleHasNamedMetric(init, s);
    }
  }

  /** The family of a sample's name holds the sample's metric. */
  lemma SampleIsGathered(trace: seq<Sample>, families: seq<Family>, s: Sample) returns (f: Family)
    requires FaithfulGather(trace, families) && s in trace
    ensures f in families && f.name == Name(s.desc) && MetricOf(s) in f.metrics
  {
    f :| f in families && f.name == Name(s.desc);
    SampleHasNamedMetric(trace, s);
    assert MetricOf(s) in multiset(f.metrics);
  }

  /** A gathered metric stands for a sample. */
  lemma MetricIsSent(trace: seq<Sample>, families: seq<Family>, f: Family, m: Metric) returns (s: Sample)
    requires FaithfulGather(trace, families) && f in families && m in f.metrics
    ensures s in trace && Name(s.desc) == f.name && MetricOf(s) == m
  {
    assert m in multiset(f.metrics);
    NamedMetricHasSample(trace, f.name, m);
    s :| s in trace && Name(s.desc) == f.name && MetricOf(s) == m;
  }

  lemma FamiliesFiniteIff(trace: seq<Sample>, families: seq<Family>)
    requires FaithfulGather(trace, families)
    ensures (forall f :: f in families ==> FiniteFamily(f)) <==> FiniteTrace(trace)
  {
    if forall f :: f in families ==> FiniteFamily(f) {
      forall s | s in trace
        ensures Finite(s.value)
      {
        var f := SampleIsGathered(trace, families, s);
      }
    }
    if FiniteTrace(trace) {
      forall f, m | f in families && m in f.metrics
        ensures m.gauge.Some? ==> Finite(m.gauge.value)
      {
        var s := MetricIsSent(trace, families, f, m);
      }
    }
  }

  /** A registry is answered for iff no identity was sent twice and every value sent is finite. */
  lemma ReplyIff(trace: seq<Sample>, gathered: Option<seq<Family>>, codec: Codec)
    requires HonestGather(trace, gathered) && StrictGather(trace, gathered) && ConvertsFinite(codec)
    ensures Reply(gathered, codec).Some? <==> UniqueIdentities(trace) && FiniteTrace(trace)
  {
    if gathered.Some? {
      FamilyMapIsAllOrNothing(gathered.value, codec);
      FamiliesFiniteIff(trace, gathered.value);
    }
  }

  lemma JoinedFiniteIff(blocks: seq<seq<Sample>>)
    ensures FiniteTrace(Joined(blocks)) <==> forall i :: 0 <= i < |blocks| ==> FiniteTrace(blocks[i])
  {
    if FiniteTrace(Joined(blocks)) {
      forall i, s | 0 <= i < |blocks| && s in blocks[i]
        ensures Finite(s.value)
      {
        JoinedMember(blocks, s);
      }
    } else {
      var s :| s in Joined(blocks) && !Finite(s.value);
      JoinedMember(blocks, s);
    }
  }
}
