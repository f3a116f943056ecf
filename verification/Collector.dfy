/**
 The gRPC side of a node: gathered metric families become a name-keyed map through a JSON round trip,
 all or nothing.
 */
module Collector {
  import opened Options
  import opened Samples

  datatype Metric = Metric(labels: seq<string>, gauge: Option<Value>)

  datatype Family = Family(name: string, metrics: seq<Metric>)

  datatype Response = Response(message: map<string, Family>)

  /** The JSON library, as the two conversions the loop calls; `None` is a returned error. */
  datatype Codec = Codec(marshal: Family -> Option<string>, unmarshal: string -> Option<Family>)

  function Transcoded(codec: Codec, f: Family): Option<Family> {
    var json := codec.marshal(f);
    if json.None? then None else codec.unmarshal(json.value)
  }

  /** The map built from a list of families; `None` as soon as one of them fails to convert. */
  function FamilyMap(families: seq<Family>, codec: Codec): Option<map<string, Family>> {
    if families == [] then Some(map[])
    else
      var last := families[|families| - 1];
      var front, converted := FamilyMap(families[..|families| - 1], codec), Transcoded(codec, last);
      if front.None? || converted.None? then None else Some(front.value[last.name := converted.value])
  }

  /** The loop shared by `GetNode` and `GetGPU`. */
  method Convert(families: seq<Family>, codec: Codec) returns (r: Option<Response>)
    ensures r == if FamilyMap(families, codec).Some? then Some(Response(FamilyMap(families, codec).value)) else None
  {
    var metricMap: map<string, Family> := map[];
    for i := 0 to |families|
      invariant FamilyMap(families[..i], codec) == Some(metricMap)
    {
      var mf := families[i];
      assert families[..i + 1][..i] == families[..i];
      var json := codec.marshal(mf);
      if json.None? {
        FailureIsFinal(families, codec, i);
        return None;
      }
      var copy := codec.unmarshal(json.value);
      if copy.None? {
        FailureIsFinal(families, codec, i);
        return None;
      }
      metricMap := metricMap[mf.name := copy.value];
    }
    assert families[..|families|] == families;
    r := Some(Response(metricMap));
  }

  lemma {:induction false} FailureIsFinal(families: seq<Family>, codec: Codec, i: nat)
    requires i < |families| && Transcoded(codec, families[i]).None?
    ensures FamilyMap(families, codec).None?
  {
    if i < |families| - 1 {
      FailureIsFinal(families[..|families| - 1], codec, i);
    }
  }

  /** A provider: whether the node has a GPU, and what gathering its two registries returns now. */
  class Provider {
    var isGPU: bool
    var gpuGathered: Option<seq<Family>>
    var nodeGathered: Option<seq<Family>>

    method GetNode(codec: Codec) returns (r: Option<Response>)
      ensures r == Reply(nodeGathered, codec)
    {
      if nodeGathered.None? {
        return None;
      }
      r := Convert(nodeGathered.value, codec);
    }

    method GetGPU(codec: Codec) returns (r: Option<Response>)
      ensures r == GPUReply(isGPU, gpuGathered, codec)
    {
      if !isGPU {
        return None;
      }
      if gpuGathered.None? {
        return None;
      }
      r := Convert(gpuGathered.value, codec);
    }
  }

  function Reply(gathered: Option<seq<Family>>, codec: Codec): Option<Response> {
    if gathered.None? || FamilyMap(gathered.value, codec).None? then None
    else Some(Response(FamilyMap(gathered.value, codec).value))
  }

  function GPUReply(isGPU: bool, gathered: Option<seq<Family>>, codec: Codec): Option<Response> {
    if isGPU then Reply(gathered, codec) else None
  }

  predicate IsLastOfName(families: seq<Family>, i: nat)
    requires i < |families|
  {
    forall j :: i < j < |families| ==> families[j].name != families[i].name
  }

  /** The keys are the family names; each is mapped to the converted last family of that name. */
  ghost predicate Mirrors(m: map<string, Family>, families: seq<Family>, codec: Codec) {
    && (forall name :: name in m <==> exists i :: 0 <= i < |families| && families[i].name == name)
    && (forall i :: 0 <= i < |families| && IsLastOfName(families, i) ==>
          families[i].name in m && Transcoded(codec, families[i]) == Some(m[families[i].name]))
  }

  /** All or nothing: the map exists iff every family converts, and then it mirrors all of them. */
  lemma {:induction false} FamilyMapIsAllOrNothing(families: seq<Family>, codec: Codec)
    ensures FamilyMap(families, codec).Some? <==> forall f :: f in families ==> Transcoded(codec, f).Some?
    ensures FamilyMap(families, codec).Some? ==> Mirrors(FamilyMap(families, codec).value, families, codec)
  {
    if families != [] {
      var init, last := families[..|families| - 1], families[|families| - 1];
      assert families == init + [last];
      FamilyMapIsAllOrNothing(init, codec);
      if FamilyMap(families, codec).Some? {
        MirrorsOneMore(FamilyMap(init, codec).value, families, codec);
      }
    }
  }

  lemma MirrorsOneMore(m: map<string, Family>, families: seq<Family>, codec: Codec)
    requires families != [] && Mirrors(m, families[..|families| - 1], codec)
    requires Transcoded(codec, families[|families| - 1]).Some?
    ensures Mirrors(m[families[|families| - 1].name := Transcoded(codec, families[|families| - 1]).value],
                    families, codec)
  {
    var init, last := families[..|families| - 1], families[|families| - 1];
    var m' := m[last.name := Transcoded(codec, last).value];
    assert forall i :: 0 <= i < |init| ==> families[i] == init[i];
    forall name
      ensures name in m' <==> exists i :: 0 <= i < |families| && families[i].name == name
    {
      if name in m {
        var i :| 0 <= i < |init| && init[i].name == name;
        assert families[i].name == name;
      }
    }
    forall i | 0 <= i < |families| && IsLastOfName(families, i)
      ensures families[i].name in m' && Transcoded(codec, families[i]) == Some(m'[families[i].name])
    {
      if i < |init| {
        assert IsLastOfName(init, i);
        assert families[|init|].name != families[i].name;
      }
    }
  }

  // ----- what is assumed of the Prometheus registry

  function MetricOf(s: Sample): Metric {
    Metric(s.labels, Some(s.value))
  }

  /** The metrics of the samples registered under `name`. */
  function MetricsNamed(trace: seq<Sample>, name: string): seq<Metric> {
    if trace == [] then []
    else
      var last := trace[|trace| - 1];
      MetricsNamed(trace[..|trace| - 1], name) + (if Name(last.desc) == name then [MetricOf(last)] else [])
  }

  /** Gathering groups the samples by name, each name once, without losing or adding any. */
  ghost predicate FaithfulGather(trace: seq<Sample>, families: seq<Family>) {
    && (forall i, j :: 0 <= i < j < |families| ==> families[i].name != families[j].name)
    && (forall f :: f in families ==>
          f.metrics != [] && multiset(f.metrics) == multiset(MetricsNamed(trace, f.name)))
    && (forall s :: s in trace ==> exists f :: f in families && f.name == Name(s.desc))
  }

  lemma {:induction false} NamedMetricHasSample(trace: seq<Sample>, name: string, m: Metric)
    requires m in MetricsNamed(trace, name)
    ensures exists s :: s in trace && Name(s.desc) == name && MetricOf(s) == m
  {
    var init, last := trace[..|trace| - 1], trace[|trace| - 1];
    if m in MetricsNamed(init, name) {
      NamedMetricHasSample(init, name, m);
      var s :| s in init && Name(s.desc) == name && MetricOf(s) == m;
      assert s in trace;
    } else {
      assert last in trace;
    }
  }
}
