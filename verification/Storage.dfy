/**
 The decoded batch. Every entity exists twice: as the mutable object the decoder writes through a
 pointer, and as the immutable value that object holds.
 */
module Storage {
  import opened Quantities
  import opened Stats

  datatype Point = Point(
    timestamp: Time,
    cpuUsageNanoCores: Quantity,
    memoryUsageBytes: Quantity,
    memoryAvailableBytes: Quantity,
    memoryWorkingSetBytes: Quantity,
    networkRxBytes: Quantity,
    networkTxBytes: Quantity,
    fsAvailableBytes: Quantity,
    fsCapacityBytes: Quantity,
    fsUsedBytes: Quantity)

  /** A point with a timestamp and every quantity at Go's zero value. */
  function EmptyPoint(timestamp: Time): Point {
    Point(timestamp,
          ZERO_QUANTITY, ZERO_QUANTITY, ZERO_QUANTITY, ZERO_QUANTITY, ZERO_QUANTITY,
          ZERO_QUANTITY, ZERO_QUANTITY, ZERO_QUANTITY, ZERO_QUANTITY)
  }

  datatype ContainerPoint = ContainerPoint(name: string, metrics: Point)

  datatype PodPoint = PodPoint(name: string, namespace: string, metrics: Point, containers: seq<ContainerPoint>)

  datatype NodePoint = NodePoint(name: string, metrics: Point)

  datatype BatchValue = BatchValue(ip: string, node: NodePoint, pods: seq<PodPoint>)

  class MetricsPoint {
    var timestamp: Time
    var cpuUsageNanoCores: Quantity
    var memoryUsageBytes: Quantity
    var memoryAvailableBytes: Quantity
    var memoryWorkingSetBytes: Quantity
    var networkRxBytes: Quantity
    var networkTxBytes: Quantity
    var fsAvailableBytes: Quantity
    var fsCapacityBytes: Quantity
    var fsUsedBytes: Quantity

    ghost function Value(): Point
      reads this
    {
      Point(timestamp, cpuUsageNanoCores, memoryUsageBytes, memoryAvailableBytes, memoryWorkingSetBytes,
            networkRxBytes, networkTxBytes, fsAvailableBytes, fsCapacityBytes, fsUsedBytes)
    }

    constructor ()
      ensures Value() == EmptyPoint(ZERO_TIME)
    {
      timestamp := ZERO_TIME;
      cpuUsageNanoCores := ZERO_QUANTITY;
      memoryUsageBytes := ZERO_QUANTITY;
      memoryAvailableBytes := ZERO_QUANTITY;
      memoryWorkingSetBytes := ZERO_QUANTITY;
      networkRxBytes := ZERO_QUANTITY;
      networkTxBytes := ZERO_QUANTITY;
      fsAvailableBytes := ZERO_QUANTITY;
      fsCapacityBytes := ZERO_QUANTITY;
      fsUsedBytes := ZERO_QUANTITY;
    }

    /** Assigns the whole struct, as `*target = MetricsPoint{Timestamp: t}` does. */
    method Reset(t: Time)
      modifies this
      ensures Value() == EmptyPoint(t)
    {
      timestamp := t;
      cpuUsageNanoCores := ZERO_QUANTITY;
      memoryUsageBytes := ZERO_QUANTITY;
      memoryAvailableBytes := ZERO_QUANTITY;
      memoryWorkingSetBytes := ZERO_QUANTITY;
      networkRxBytes := ZERO_QUANTITY;
      networkTxBytes := ZERO_QUANTITY;
      fsAvailableBytes := ZERO_QUANTITY;
      fsCapacityBytes := ZERO_QUANTITY;
      fsUsedBytes := ZERO_QUANTITY;
    }
  }

  class NodeMetricsPoint {
    var name: string
    const metrics: MetricsPoint

    ghost function Value(): NodePoint
      reads this, metrics
    {
      NodePoint(name, metrics.Value())
    }

    constructor ()
      ensures Value() == NodePoint("", EmptyPoint(ZERO_TIME))
      ensures fresh(metrics)
    {
      name := "";
      metrics := new MetricsPoint();
    }
  }

  /** One slot of the preallocated pod slice; `metrics` is the embedded struct and never moves. */
  class PodMetricsPoint {
    var name: string
    var namespace: string
    const metrics: MetricsPoint
    var containers: seq<ContainerPoint>

    ghost function Value(): PodPoint
      reads this, metrics
    {
      PodPoint(name, namespace, metrics.Value(), containers)
    }

    constructor ()
      ensures Value() == PodPoint("", "", EmptyPoint(ZERO_TIME), [])
      ensures fresh(metrics)
    {
      name, namespace := "", "";
      metrics := new MetricsPoint();
      containers := [];
    }
  }

  /** The memory behind a slice of slots. */
  ghost function Cells(slots: seq<PodMetricsPoint>): set<object> {
    (set s: PodMetricsPoint | s in slots :: s as object) +
    (set s: PodMetricsPoint | s in slots :: s.metrics as object)
  }

  lemma CellsOfAppend(slots: seq<PodMetricsPoint>, slot: PodMetricsPoint)
    ensures Cells(slots + [slot]) == Cells(slots) + {slot, slot.metrics}
  {
    var all := slots + [slot];
    assert all[|slots|] == slot && slots == all[..|slots|];
    forall o: object | o in Cells(all)
      ensures o in Cells(slots) + {slot, slot.metrics}
    {
      var s: PodMetricsPoint :| s in all && (o == s || o == s.metrics);
      assert s in slots || s == slot;
    }
    forall o: object | o in Cells(slots) + {slot, slot.metrics}
      ensures o in Cells(all)
    {
      if o in Cells(slots) {
        var s: PodMetricsPoint :| s in slots && (o == s || o == s.metrics);
        assert s in all;
      } else {
        assert slot in all;
      }
    }
  }

  /** Distinct slots share no memory. */
  ghost predicate Separate(slots: seq<PodMetricsPoint>) {
    forall i, j :: 0 <= i < j < |slots| ==> slots[i] != slots[j] && slots[i].metrics != slots[j].metrics
  }

  lemma SeparateAppend(slots: seq<PodMetricsPoint>, slot: PodMetricsPoint)
    requires Separate(slots) && slot !in Cells(slots) && slot.metrics !in Cells(slots)
    ensures Separate(slots + [slot])
  {
    assert forall i :: 0 <= i < |slots| ==> slots[i] in slots;
  }

  /** The slots hold exactly these values, in this order. */
  ghost predicate Hold(slots: seq<PodMetricsPoint>, values: seq<PodPoint>)
    reads Cells(slots)
  {
    && |slots| == |values|
    && forall k :: 0 <= k < |slots| ==> slots[k].Value() == values[k]
  }

  class MetricsBatch {
    var ip: string
    const node: NodeMetricsPoint
    var pods: seq<PodMetricsPoint>

    ghost predicate Represents(value: BatchValue)
      reads this, node, node.metrics, Cells(pods)
    {
      && ip == value.ip
      && node.Value() == value.node
      && Hold(pods, value.pods)
    }

    /** `make([]PodMetricsPoint, n)` beside a zero node point. */
    constructor (ip: string, n: nat)
      ensures this.ip == ip && node.Value() == NodePoint("", EmptyPoint(ZERO_TIME))
      ensures fresh(node) && fresh(node.metrics) && fresh(Cells(pods))
      ensures |pods| == n && Separate(pods)
      ensures this !in Cells(pods) && node !in Cells(pods) && node.metrics !in Cells(pods)
    {
      this.ip := ip;
      node := new NodeMetricsPoint();
      pods := [];
      new;
      for i := 0 to n
        invariant |pods| == i && Separate(pods) && this.ip == ip
        invariant node.Value() == NodePoint("", EmptyPoint(ZERO_TIME))
        invariant fresh(node) && fresh(node.metrics) && fresh(Cells(pods))
        invariant this !in Cells(pods) && node !in Cells(pods) && node.metrics !in Cells(pods)
      {
        AddSlot();
      }
    }

    method AddSlot()
      requires Separate(pods)
      modifies this`pods
      ensures |pods| == |old(pods)| + 1 && Separate(pods)
      ensures Cells(old(pods)) <= Cells(pods) && fresh(Cells(pods) - Cells(old(pods)))
    {
      var slot := new PodMetricsPoint();
      CellsOfAppend(pods, slot);
      SeparateAppend(pods, slot);
      pods := pods + [slot];
    }
  }
}
