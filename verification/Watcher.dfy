/** `GetMultiMetric`: the fold over the unordered map of nodes, with its unguarded reads. */
module Watcher {
  import opened Options
  import opened Samples
  import opened Collector

  const MEMORY_FAMILY := "Host_GPU_Memory_Gauge"
  const POWER_FAMILY := "Host_GPU_Power_Gauge"

  /** `strings.Contains`. */
  predicate Contains(s: string, part: string) {
    exists i :: 0 <= i <= |s| - |part| && OccursAt(s, part, i)
  }

  predicate OccursAt(s: string, part: string, i: nat)
    requires i + |part| <= |s|
  {
    s[i..i + |part|] == part
  }

  /** The part may stand anywhere: there is something, perhaps nothing, before it and after it. */
  lemma ContainsMeans(s: string, part: string)
    ensures Contains(s, part) <==> exists a, b :: s == a + part + b
  {
    if Contains(s, part) {
      var i :| 0 <= i <= |s| - |part| && OccursAt(s, part, i);
      assert s == s[..i] + part + s[i + |part|..];
    }
    if a, b :| s == a + part + b {
      assert OccursAt(s, part, |a|);
    }
  }

  predicate HasFirst(resp: Response, name: string) {
    name in resp.message && resp.message[name].metrics != []
  }

  /** Both families indexed at 0 are there and not empty. */
  predicate Readable(resp: Response) {
    HasFirst(resp, MEMORY_FAMILY) && HasFirst(resp, POWER_FAMILY)
  }

  /** `GetGauge().GetValue()` of a family's first metric: 0 when the metric has no gauge. */
  function FirstGauge(resp: Response, name: string): Value
    requires HasFirst(resp, name)
  {
    var gauge := resp.message[name].metrics[0].gauge;
    if gauge.Some? then gauge.value else Count(0)
  }

  datatype NodeEntry = NodeEntry(nodeMemory: Value, gpuPower: Value)

  function EntryOf(resp: Response): NodeEntry
    requires Readable(resp)
  {
    NodeEntry(FirstGauge(resp, MEMORY_FAMILY), FirstGauge(resp, POWER_FAMILY))
  }

  /** The reads, and the values read, under the two names as the request handler spells them. */
  lemma ReadsMean(resp: Response)
    ensures Readable(resp) <==>
            (&& "Host_GPU_Memory_Gauge" in resp.message && resp.message["Host_GPU_Memory_Gauge"].metrics != []
             && "Host_GPU_Power_Gauge" in resp.message && resp.message["Host_GPU_Power_Gauge"].metrics != [])
    ensures Readable(resp) ==>
              var memory := resp.message["Host_GPU_Memory_Gauge"].metrics[0].gauge;
              var power := resp.message["Host_GPU_Power_Gauge"].metrics[0].gauge;
              && EntryOf(resp).nodeMemory == (if memory.Some? then memory.value else Count(0))
              && EntryOf(resp).gpuPower == (if power.Some? then power.value else Count(0))
  {
  }

  class GPUMetric {
    var gpuPower: Value

    constructor (gpuPower: Value)
      ensures this.gpuPower == gpuPower
    {
      this.gpuPower := gpuPower;
    }
  }

  class NodeMetric {
    var gpuMetrics: map<string, GPUMetric>
    var nodeMemory: Value

    constructor ()
      ensures gpuMetrics == map[] && nodeMemory == Count(0)
    {
      gpuMetrics, nodeMemory := map[], Count(0);
    }

    ghost predicate Shows(entry: NodeEntry)
      reads this, gpuMetrics.Values
    {
      && nodeMemory == entry.nodeMemory
      && gpuMetrics.Keys == {"uuid"}
      && gpuMetrics["uuid"].gpuPower == entry.gpuPower
    }
  }

  class MultiMetric {
    var nodeMetrics: map<string, NodeMetric>

    constructor ()
      ensures nodeMetrics == map[]
    {
      nodeMetrics := map[];
    }

    ghost predicate Shows(value: map<string, NodeEntry>)
      reads this, nodeMetrics.Values, set m, g | m in nodeMetrics.Values && g in m.gpuMetrics.Values :: g
    {
      && nodeMetrics.Keys == value.Keys
      && forall n :: n in value ==> nodeMetrics[n].Shows(value[n])
    }
  }

  /** What a fetch by pod IP returns; `None` is a nil response. */
  type Fetch = string -> Option<Response>

  predicate Reports(n: string, mapper: map<string, string>, fetch: Fetch) {
    n in mapper && Contains(n, "gpu") && fetch(mapper[n]).Some?
  }

  /** No node among `names` makes the unguarded reads fail. */
  predicate AllReadable(names: set<string>, mapper: map<string, string>, fetch: Fetch) {
    forall n :: n in names && Reports(n, mapper, fetch) ==> Readable(fetch(mapper[n]).value)
  }

  /** The entries of the nodes among `names`: one for each that reports. */
  function Entries(names: set<string>, mapper: map<string, string>, fetch: Fetch): map<string, NodeEntry> {
    map n | n in names && Reports(n, mapper, fetch) && Readable(fetch(mapper[n]).value)
      :: EntryOf(fetch(mapper[n]).value)
  }

  class WatcherServer {
    var nodeIPMapper: map<string, string>

    /**
     Visits the nodes in an arbitrary order, as Go's map iteration does. A null result is a panic: an
     unguarded read of a missing or empty family.
     */
    method GetMultiMetric(fetch: Fetch) returns (result: MultiMetric?)
      ensures result == null
         <==> exists n :: && n in nodeIPMapper && (exists a, b :: n == a + "gpu" + b)
                          && fetch(nodeIPMapper[n]).Some? && !Readable(fetch(nodeIPMapper[n]).value)
      ensures result != null <==> AllReadable(nodeIPMapper.Keys, nodeIPMapper, fetch)
      ensures result != null ==> fresh(result) && result.Shows(Entries(nodeIPMapper.Keys, nodeIPMapper, fetch))
      ensures result != null ==>
                forall n :: n in result.nodeMetrics
                  <==> (n in nodeIPMapper && fetch(nodeIPMapper[n]).Some? && exists a, b :: n == a + "gpu" + b)
      ensures result != null ==>
                forall n :: n in result.nodeMetrics ==>
                  && n in nodeIPMapper && fetch(nodeIPMapper[n]).Some? && Readable(fetch(nodeIPMapper[n]).value)
                  && result.nodeMetrics[n].gpuMetrics.Keys == {"uuid"}
                  && result.nodeMetrics[n].nodeMemory == EntryOf(fetch(nodeIPMapper[n]).value).nodeMemory
                  && result.nodeMetrics[n].gpuMetrics["uuid"].gpuPower == EntryOf(fetch(nodeIPMapper[n]).value).gpuPower
    {
      UnreadableMeans(nodeIPMapper, fetch);
      var multi := new MultiMetric();
      var remaining := nodeIPMapper.Keys;
      while remaining != {}
        invariant remaining <= nodeIPMapper.Keys
        invariant fresh(multi)
        invariant AllReadable(nodeIPMapper.Keys - remaining, nodeIPMapper, fetch)
        invariant multi.Shows(Entries(nodeIPMapper.Keys - remaining, nodeIPMapper, fetch))
        decreases remaining
      {
        var nodeName :| nodeName in remaining;
        ghost var done := nodeIPMapper.Keys - remaining;
        remaining := remaining - {nodeName};
        assert nodeIPMapper.Keys - remaining == done + {nodeName};
        if Contains(nodeName, "gpu") {
          var respGPU := fetch(nodeIPMapper[nodeName]);
          if respGPU.Some? {
            if !Readable(respGPU.value) {
              return null;
            }
            AddNode(multi, nodeName, respGPU.value, Entries(done, nodeIPMapper, fetch));
          }
        }
        OneMoreNode(done, nodeName, nodeIPMapper, fetch);
      }
      assert nodeIPMapper.Keys - {} == nodeIPMapper.Keys;
      forall n: string
        ensures Contains(n, "gpu") <==> exists a, b :: n == a + "gpu" + b
      {
        ContainsMeans(n, "gpu");
      }
      result := multi;
    }

    /** The loop body for a node that reports: `nm` and `gm` are filled in and stored. */
    method AddNode(multi: MultiMetric, nodeName: string, respGPU: Response, ghost before: map<string, NodeEntry>)
      requires Readable(respGPU) && multi.Shows(before)
      modifies multi
      ensures multi.Shows(before[nodeName := EntryOf(respGPU)])
    {
      var nm := FilledNodeMetric(respGPU);
      multi.nodeMetrics := multi.nodeMetrics[nodeName := nm];
    }

    method FilledNodeMetric(respGPU: Response) returns (nm: NodeMetric)
      requires Readable(respGPU)
      ensures fresh(nm) && fresh(nm.gpuMetrics.Values) && nm.Shows(EntryOf(respGPU))
    {
      var nodeMemory := FirstGauge(respGPU, MEMORY_FAMILY);
      var gpuPower := FirstGauge(respGPU, POWER_FAMILY);
      nm := new NodeMetric();
      var gm := new GPUMetric(Count(0));
      gm.gpuPower := gpuPower;
      nm.gpuMetrics := nm.gpuMetrics["uuid" := gm];
      nm.nodeMemory := nodeMemory;
    }
  }

  /** What makes the handler panic, in terms of names and answers. */
  lemma UnreadableMeans(mapper: map<string, string>, fetch: Fetch)
    ensures !AllReadable(mapper.Keys, mapper, fetch)
       <==> exists n :: && n in mapper && (exists a, b :: n == a + "gpu" + b)
                        && fetch(mapper[n]).Some? && !Readable(fetch(mapper[n]).value)
  {
    forall n: string
      ensures Contains(n, "gpu") <==> exists a, b :: n == a + "gpu" + b
    {
      ContainsMeans(n, "gpu");
    }
  }

  lemma OneMoreNode(done: set<string>, n: string, mapper: map<string, string>, fetch: Fetch)
    requires n in mapper
    ensures AllReadable(done + {n}, mapper, fetch)
            <==> AllReadable(done, mapper, fetch) && (Reports(n, mapper, fetch) ==> Readable(fetch(mapper[n]).value))
    ensures Entries(done + {n}, mapper, fetch)
            == if Reports(n, mapper, fetch) && Readable(fetch(mapper[n]).value)
               then Entries(done, mapper, fetch)[n := EntryOf(fetch(mapper[n]).value)]
               else Entries(done, mapper, fetch)
  {
  }

  // ----- the fold in a given order

  /** `GetMultiMetric` over the nodes in the order listed; `None` is a panic. */
  function Fold(order: seq<string>, mapper: map<string, string>, fetch: Fetch): Option<map<string, NodeEntry>> {
    if order == [] then Some(map[])
    else
      var n := order[|order| - 1];
      var front := Fold(order[..|order| - 1], mapper, fetch);
      if front.None? || !Reports(n, mapper, fetch) then front
      else if !Readable(fetch(mapper[n]).value) then None
      else Some(front.value[n := EntryOf(fetch(mapper[n]).value)])
  }

  /** Any order of any nodes folds to the entries of their set, or panics iff one of them is unreadable. */
  lemma {:induction false} FoldIsEntries(order: seq<string>, mapper: map<string, string>, fetch: Fetch)
    requires forall n :: n in order ==> n in mapper
    ensures var names := set n | n in order;
            Fold(order, mapper, fetch)
            == if AllReadable(names, mapper, fetch) then Some(Entries(names, mapper, fetch)) else None
  {
    var names := set n | n in order;
    if order == [] {
      assert names == {};
      assert Entries({}, mapper, fetch) == map[];
    } else {
      var init, last := order[..|order| - 1], order[|order| - 1];
      var front := set n | n in init;
      assert order == init + [last];
      assert names == front + {last};
      FoldIsEntries(init, mapper, fetch);
      OneMoreNode(front, last, mapper, fetch);
    }
  }

  /** Every iteration order of the node map gives the same outcome, panic included. */
  lemma OrderIsIrrelevant(a: seq<string>, b: seq<string>, mapper: map<string, string>, fetch: Fetch)
    requires forall n :: n in a <==> n in mapper
    requires forall n :: n in b <==> n in mapper
    ensures Fold(a, mapper, fetch) == Fold(b, mapper, fetch)
  {
    FoldIsEntries(a, mapper, fetch);
    FoldIsEntries(b, mapper, fetch);
    assert (set n | n in a) == (set n | n in b);
  }

  /** The nodes reported are the "gpu" nodes that answer, and an entry depends on that node's answer alone. */
  lemma EntryDependsOnItsNode(order: seq<string>, mapper: map<string, string>, fetch: Fetch,
                              order': seq<string>, mapper': map<string, string>, fetch': Fetch, n: string)
    requires (forall k :: k in order <==> k in mapper) && (forall k :: k in order' <==> k in mapper')
    requires Fold(order, mapper, fetch).Some? && Fold(order', mapper', fetch').Some?
    requires n in mapper && n in mapper' && fetch(mapper[n]) == fetch'(mapper'[n])
    ensures n in Fold(order, mapper, fetch).value <==> Contains(n, "gpu") && fetch(mapper[n]).Some?
    ensures n in Fold(order, mapper, fetch).value <==> n in Fold(order', mapper', fetch').value
    ensures n in Fold(order, mapper, fetch).value ==>
              Fold(order, mapper, fetch).value[n] == Fold(order', mapper', fetch').value[n]
  {
    FoldIsEntries(order, mapper, fetch);
    FoldIsEntries(order', mapper', fetch');
  }
}
