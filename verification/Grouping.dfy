/** A reference grouping: what `FaithfulGather` assumes of the registry can be met for every trace. */
module Grouping {
  import opened Samples
  import opened Collector

  /** Adds a metric to the family of its name, which is opened at the end if there is none. */
  function AddTo(families: seq<Family>, name: string, m: Metric): seq<Family> {
    if families == [] then [Family(name, [m])]
    else
      var init, last := families[..|families| - 1], families[|families| - 1];
      if last.name == name then init + [Family(name, last.metrics + [m])] else AddTo(init, name, m) + [last]
  }

  function Group(trace: seq<Sample>): seq<Family> {
    if trace == [] then []
    else
      var last := trace[|trace| - 1];
      AddTo(Group(trace[..|trace| - 1]), Name(last.desc), MetricOf(last))
  }

  ghost predicate NoRepeats(families: seq<Family>) {
    forall i, j :: 0 <= i < j < |families| ==> families[i].name != families[j].name
  }

  predicate Named(families: seq<Family>, name: string) {
    exists f :: f in families && f.name == name
  }

  /** One family changes or appears, under the given name; the others stay. */
  lemma {:induction false} AddToChangesOne(families: seq<Family>, name: string, m: Metric)
    requires NoRepeats(families)
    ensures NoRepeats(AddTo(families, name, m))
    ensures Named(AddTo(families, name, m), name)
    ensures forall other :: Named(AddTo(families, name, m), other) <==> other == name || Named(families, other)
    ensures forall f :: f in AddTo(families, name, m) && f.name != name ==> f in families
    ensures forall f :: f in AddTo(families, name, m) && f.name == name ==>
              (f.metrics == [m] && !Named(families, name)) ||
              (exists g :: g in families && g.name == name && f.metrics == g.metrics + [m])
  {
    var result := AddTo(families, name, m);
    if families == [] {
      assert result[0] in result;
    } else {
      var init, last := families[..|families| - 1], families[|families| - 1];
      assert families == init + [last];
      if last.name == name {
        assert result[|init|] in result && last in families;
      } else {
        AddToChangesOne(init, name, m);
        NoRepeatsAppend(AddTo(init, name, m), last, init);
        NamedAppend(AddTo(init, name, m), last);
        NamedAppend(init, last);
      }
    }
  }

  lemma NamedAppend(families: seq<Family>, last: Family)
    ensures forall name :: Named(families + [last], name) <==> Named(families, name) || last.name == name
  {
    assert forall f :: f in families + [last] <==> f in families || f == last;
  }

  lemma NoRepeatsAppend(families: seq<Family>, last: Family, init: seq<Family>)
    requires NoRepeats(families) && NoRepeats(init + [last])
    requires forall f :: f in families ==> f.name != last.name || f in init
    ensures NoRepeats(families + [last])
  {
    var all := init + [last];
    assert all[|init|] == last;
    forall i | 0 <= i < |families|
      ensures families[i].name != last.name
    {
      assert families[i] in families;
      if families[i] in init {
        var k :| 0 <= k < |init| && init[k] == families[i];
        assert all[k] == families[i];
      }
    }
  }

  lemma MetricsNamedAppend(trace: seq<Sample>, s: Sample, name: string)
    ensures MetricsNamed(trace + [s], name)
         == MetricsNamed(trace, name) + (if Name(s.desc) == name then [MetricOf(s)] else [])
  {
    assert (trace + [s])[..|trace|] == trace;
  }

  lemma NoneNamed(trace: seq<Sample>, families: seq<Family>, name: string)
    requires FaithfulGather(trace, families) && !Named(families, name)
    ensures MetricsNamed(trace, name) == []
  {
    if MetricsNamed(trace, name) != [] {
      NamedMetricHasSample(trace, name, MetricsNamed(trace, name)[0]);
    }
  }

  /** The grown family has gained the new metric, the others are as they were. */
  lemma AddToKeepsMetrics(trace: seq<Sample>, families: seq<Family>, s: Sample, f: Family)
    requires FaithfulGather(trace, families)
    requires f in AddTo(families, Name(s.desc), MetricOf(s))
    ensures f.metrics != [] && multiset(f.metrics) == multiset(MetricsNamed(trace + [s], f.name))
  {
    AddToChangesOne(families, Name(s.desc), MetricOf(s));
    MetricsNamedAppend(trace, s, f.name);
    if f.name == Name(s.desc) && !Named(families, f.name) {
      NoneNamed(trace, families, f.name);
    }
  }

  lemma AddToCovers(trace: seq<Sample>, families: seq<Family>, s: Sample, t: Sample)
    requires FaithfulGather(trace, families) && t in trace + [s]
    ensures Named(AddTo(families, Name(s.desc), MetricOf(s)), Name(t.desc))
  {
    AddToChangesOne(families, Name(s.desc), MetricOf(s));
    if t in trace {
      assert Named(families, Name(t.desc));
    }
  }

  lemma AddToIsFaithful(trace: seq<Sample>, families: seq<Family>, s: Sample)
    requires FaithfulGather(trace, families)
    ensures FaithfulGather(trace + [s], AddTo(families, Name(s.desc), MetricOf(s)))
  {
    var result := AddTo(families, Name(s.desc), MetricOf(s));
    AddToChangesOne(families, Name(s.desc), MetricOf(s));
    forall f | f in result
      ensures f.metrics != [] && multiset(f.metrics) == multiset(MetricsNamed(trace + [s], f.name))
    {
      AddToKeepsMetrics(trace, families, s, f);
    }
    forall t | t in trace + [s]
      ensures exists f :: f in result && f.name == Name(t.desc)
    {
      AddToCovers(trace, families, s, t);
    }
  }

  lemma LastApart(trace: seq<Sample>)
    requires trace != []
    ensures trace == trace[..|trace| - 1] + [trace[|trace| - 1]]
  {
  }

  /** Every trace has a faithful gathering. */
  lemma {:induction false} GroupIsFaithful(trace: seq<Sample>)
    ensures FaithfulGather(trace, Group(trace))
  {
    if trace != [] {
      LastApart(trace);
      GroupIsFaithful(trace[..|trace| - 1]);
      AddToIsFaithful(trace[..|trace| - 1], Group(trace[..|trace| - 1]), trace[|trace| - 1]);
    }
  }
}
