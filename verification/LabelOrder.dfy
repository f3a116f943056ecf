/** The order in which the metrics of a family are kept: by label values, each compared as a string. */
module LabelOrder {
  import opened Collector

  predicate StringLe(a: string, b: string) {
    if a == [] then true
    else if b == [] then false
    else if a[0] == b[0] then StringLe(a[1..], b[1..])
    else a[0] < b[0]
  }

  predicate LabelsLe(a: seq<string>, b: seq<string>) {
    if a == [] then true
    else if b == [] then false
    else if a[0] == b[0] then LabelsLe(a[1..], b[1..])
    else StringLe(a[0], b[0])
  }

  /** Up to `k` the strings agree; there the first one ends, or has the smaller character. */
  ghost predicate AheadAt(a: string, b: string, k: nat) {
    && k <= |a| && k <= |b| && a[..k] == b[..k]
    && (k == |a| || (k < |b| && a[k] < b[k]))
  }

  /** The usual order of strings: the first difference decides, and a string comes after its beginnings. */
  lemma {:induction false} StringLeMeans(a: string, b: string)
    ensures StringLe(a, b) <==> exists k :: AheadAt(a, b, k)
  {
    if a == [] {
      assert AheadAt(a, b, 0);
    } else if b != [] && a[0] == b[0] {
      StringLeMeans(a[1..], b[1..]);
      if k: nat :| AheadAt(a[1..], b[1..], k) {
        assert a[..k + 1] == [a[0]] + a[1..][..k] && b[..k + 1] == [b[0]] + b[1..][..k];
        assert AheadAt(a, b, k + 1);
      }
      if k: nat :| AheadAt(a, b, k) {
        OneShorter(a, b, k);
      }
    } else if b != [] && a[0] < b[0] {
      assert AheadAt(a, b, 0);
    }
  }

  lemma OneShorter(a: string, b: string, k: nat)
    requires a != [] && b != [] && a[0] == b[0] && AheadAt(a, b, k)
    ensures k > 0 && AheadAt(a[1..], b[1..], k - 1)
  {
    assert a[1..][..k - 1] == a[..k][1..] && b[1..][..k - 1] == b[..k][1..];
  }

  /** Pairs of labels are told apart by the first label, or else by the second. */
  lemma PairOrder(name: string, uuid: string, name': string, uuid': string)
    ensures LabelsLe([name, uuid], [name', uuid'])
       <==> if name == name' then StringLe(uuid, uuid') else StringLe(name, name')
  {
    assert [name, uuid][1..] == [uuid] && [name', uuid'][1..] == [uuid'];
    StringLeReflexive(uuid);
    assert LabelsLe([uuid], [uuid']) <==> StringLe(uuid, uuid');
  }

  lemma {:induction false} StringLeReflexive(a: string)
    ensures StringLe(a, a)
  {
    if a != [] {
      StringLeReflexive(a[1..]);
    }
  }

  lemma {:induction false} StringLeAntisymmetric(a: string, b: string)
    requires StringLe(a, b) && StringLe(b, a)
    ensures a == b
  {
    if a != [] && b != [] {
      StringLeAntisymmetric(a[1..], b[1..]);
      assert a == [a[0]] + a[1..] && b == [b[0]] + b[1..];
    }
  }

  lemma {:induction false} LabelsLeAntisymmetric(a: seq<string>, b: seq<string>)
    requires LabelsLe(a, b) && LabelsLe(b, a)
    ensures a == b
  {
    if a != [] && b != [] {
      if a[0] == b[0] {
        LabelsLeAntisymmetric(a[1..], b[1..]);
        assert a == [a[0]] + a[1..] && b == [b[0]] + b[1..];
      } else {
        StringLeAntisymmetric(a[0], b[0]);
      }
    }
  }

  lemma {:induction false} LabelsLeReflexive(a: seq<string>)
    ensures LabelsLe(a, a)
  {
    if a != [] {
      LabelsLeReflexive(a[1..]);
    }
  }

  ghost predicate SortedByLabels(f: Family) {
    forall i, j :: 0 <= i < j < |f.metrics| ==> LabelsLe(f.metrics[i].labels, f.metrics[j].labels)
  }

  lemma FirstIsLeast(f: Family, m: Metric)
    requires SortedByLabels(f) && m in f.metrics
    ensures LabelsLe(f.metrics[0].labels, m.labels)
  {
    var i :| 0 <= i < |f.metrics| && f.metrics[i] == m;
    LabelsLeReflexive(m.labels);
  }
}
