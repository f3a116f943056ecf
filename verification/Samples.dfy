/** The samples the collectors send to Prometheus, and the channel they are sent on. */
module Samples {
  datatype Desc =
    | CPUCoreGauge | CPUCoreCounter | MemoryGauge | MemoryCounter
    | StorageGauge | StorageCounter | NetworkRXCounter | NetworkTXCounter
    | HostGPUCoreGauge | HostGPUMemoryGauge | HostGPUPowerGauge
    | GPUMemoryGauge | GPUMemoryCounter | GPUTemperature | GPUFlops | GPUArchitecture
    | GPUPodNum | GPUFanspeed | GPUBandwidth | GPUDriverVersion

  /** The metric name each descriptor is registered under. */
  function Name(desc: Desc): string {
    match desc
    case CPUCoreGauge => "CPU_Core_Gauge"
    case CPUCoreCounter => "CPU_Core_Counter"
    case MemoryGauge => "Memory_Gauge"
    case MemoryCounter => "Memory_Counter"
    case StorageGauge => "Storage_Gauge"
    case StorageCounter => "Storage_Counter"
    case NetworkRXCounter => "Network_Gauge"
    case NetworkTXCounter => "Network_Counter"
    case HostGPUCoreGauge => "Host_GPU_Core_Gauge"
    case HostGPUMemoryGauge => "Host_GPU_Memory_Gauge"
    case HostGPUPowerGauge => "Host_GPU_Power_Gauge"
    case GPUMemoryGauge => "GPU_Memory_Gauge"
    case GPUMemoryCounter => "GPU_Memory_Counter"
    case GPUTemperature => "GPU_Temperature"
    case GPUFlops => "GPU_Flops"
    case GPUArchitecture => "GPU_Architecture"
    case GPUPodNum => "GPU_Pod_Num"
    case GPUFanspeed => "GPU_FanSpeed"
    case GPUBandwidth => "GPU_Bandwidth"
    case GPUDriverVersion => "GPU_Driver_Version"
  }

  /** The names under which the watcher's report reads what nodes send, GPU by GPU and then node by node. */
  const REPORTED: seq<string> :=
    ["GPU_Architecture", "Host_GPU_Core_Gauge", "Host_GPU_Memory_Gauge", "Host_GPU_Power_Gauge", "GPU_Memory_Gauge",
     "GPU_Memory_Counter", "GPU_Temperature", "GPU_Flops", "GPU_FanSpeed", "GPU_Pod_Num", "GPU_Bandwidth",
     "GPU_Driver_Version", "CPU_Core_Gauge", "Memory_Gauge", "Storage_Gauge", "CPU_Core_Counter", "Memory_Counter",
     "Storage_Counter", "Network_Gauge", "Network_Counter"]

  /** The descriptors those reads are meant for. */
  const READ: seq<Desc> :=
    [GPUArchitecture, HostGPUCoreGauge, HostGPUMemoryGauge, HostGPUPowerGauge, GPUMemoryGauge,
     GPUMemoryCounter, GPUTemperature, GPUFlops, GPUFanspeed, GPUPodNum, GPUBandwidth,
     GPUDriverVersion, CPUCoreGauge, MemoryGauge, StorageGauge, CPUCoreCounter, MemoryCounter,
     StorageCounter, NetworkRXCounter, NetworkTXCounter]

  /** Every name read is the registered name of its descriptor, and no two descriptors share a name. */
  lemma NamesAreRead(i: nat)
    requires i < |REPORTED|
    ensures |READ| == |REPORTED| && Name(READ[i]) == REPORTED[i]
  {
  }

  lemma NamesAreDistinct(a: Desc, b: Desc)
    requires Name(a) == Name(b)
    ensures a == b
  {
  }

  /**
   A sample's value: the integers it is computed from, without the floating-point formula. `Count(n)` is
   `float64(n)`, `Percent` is a ratio times 100.
   */
  datatype Value =
    | Count(n: int)
    | Percent(used: int, total: int)
    | Flops(clock: int, cores: int, major: int, minor: int)
    | Bandwidth(busWidth: int, memClock: int)

  datatype Sample = Sample(desc: Desc, value: Value, labels: seq<string>)

  /** What Prometheus tells samples apart by. */
  datatype Identity = Identity(desc: Desc, labels: seq<string>)

  function IdentityOf(s: Sample): Identity {
    Identity(s.desc, s.labels)
  }

  ghost predicate UniqueIdentities(trace: seq<Sample>) {
    forall i, j :: 0 <= i < j < |trace| ==> IdentityOf(trace[i]) != IdentityOf(trace[j])
  }

  ghost predicate DisjointIdentities(a: seq<Sample>, b: seq<Sample>) {
    forall i, j :: 0 <= i < |a| && 0 <= j < |b| ==> IdentityOf(a[i]) != IdentityOf(b[j])
  }

  lemma UniqueConcat(a: seq<Sample>, b: seq<Sample>)
    ensures UniqueIdentities(a + b) <==> UniqueIdentities(a) && UniqueIdentities(b) && DisjointIdentities(a, b)
  {
    var t := a + b;
    assert forall i :: 0 <= i < |a| ==> t[i] == a[i];
    assert forall j :: 0 <= j < |b| ==> t[|a| + j] == b[j];
    if UniqueIdentities(t) {
      forall i, j | 0 <= i < j < |a| ensures IdentityOf(a[i]) != IdentityOf(a[j]) {
        assert IdentityOf(t[i]) != IdentityOf(t[j]);
      }
      forall i, j | 0 <= i < j < |b| ensures IdentityOf(b[i]) != IdentityOf(b[j]) {
        assert IdentityOf(t[|a| + i]) != IdentityOf(t[|a| + j]);
      }
      forall i, j | 0 <= i < |a| && 0 <= j < |b| ensures IdentityOf(a[i]) != IdentityOf(b[j]) {
        assert IdentityOf(t[i]) != IdentityOf(t[|a| + j]);
      }
    }
  }

  // ----- traces made of blocks

  function Joined(blocks: seq<seq<Sample>>): seq<Sample> {
    if blocks == [] then [] else Joined(blocks[..|blocks| - 1]) + blocks[|blocks| - 1]
  }

  lemma JoinedAppend(blocks: seq<seq<Sample>>, block: seq<Sample>)
    ensures Joined(blocks + [block]) == Joined(blocks) + block
  {
    assert (blocks + [block])[..|blocks|] == blocks;
  }

  lemma {:induction false} JoinedConcat(a: seq<seq<Sample>>, b: seq<seq<Sample>>)
    ensures Joined(a + b) == Joined(a) + Joined(b)
  {
    if b == [] {
      assert a + b == a;
    } else {
      assert (a + b)[..|a + b| - 1] == a + b[..|b| - 1];
      JoinedConcat(a, b[..|b| - 1]);
    }
  }

  /** A block stands, whole, between the blocks before it and the blocks after it. */
  lemma {:induction false} JoinedAt(blocks: seq<seq<Sample>>, i: nat)
    requires i < |blocks|
    ensures Joined(blocks) == Joined(blocks[..i]) + blocks[i] + Joined(blocks[i + 1..])
  {
    var init, last, rest := blocks[..|blocks| - 1], blocks[|blocks| - 1], blocks[i + 1..];
    if i == |init| {
      assert rest == [];
    } else {
      JoinedAt(init, i);
      assert init[..i] == blocks[..i];
      assert rest == init[i + 1..] + [last];
      JoinedAppend(init[i + 1..], last);
    }
  }

  lemma {:induction false} JoinedMember(blocks: seq<seq<Sample>>, s: Sample)
    ensures s in Joined(blocks) <==> exists i :: 0 <= i < |blocks| && s in blocks[i]
  {
    if blocks != [] {
      var init, last := blocks[..|blocks| - 1], blocks[|blocks| - 1];
      JoinedMember(init, s);
      assert forall i :: 0 <= i < |init| ==> blocks[i] == init[i];
    }
  }

  lemma {:induction false} JoinedMultiset(a: seq<seq<Sample>>, b: seq<seq<Sample>>)
    requires |a| == |b| && forall i :: 0 <= i < |a| ==> multiset(a[i]) == multiset(b[i])
    ensures multiset(Joined(a)) == multiset(Joined(b))
  {
    if a != [] {
      JoinedMultiset(a[..|a| - 1], b[..|b| - 1]);
    }
  }

  ghost predicate DisjointFromAll(blocks: seq<seq<Sample>>, block: seq<Sample>) {
    forall i :: 0 <= i < |blocks| ==> DisjointIdentities(blocks[i], block)
  }

  lemma {:induction false} JoinedDisjointIff(blocks: seq<seq<Sample>>, block: seq<Sample>)
    ensures DisjointIdentities(Joined(blocks), block) <==> DisjointFromAll(blocks, block)
  {
    if blocks != [] {
      var init, last := blocks[..|blocks| - 1], blocks[|blocks| - 1];
      JoinedDisjointIff(init, block);
      DisjointConcat(Joined(init), last, block);
      assert forall i :: 0 <= i < |init| ==> blocks[i] == init[i];
    }
  }

  lemma DisjointConcat(a: seq<Sample>, b: seq<Sample>, c: seq<Sample>)
    ensures DisjointIdentities(a + b, c) <==> DisjointIdentities(a, c) && DisjointIdentities(b, c)
  {
    var t := a + b;
    assert forall i :: 0 <= i < |a| ==> t[i] == a[i];
    assert forall j :: 0 <= j < |b| ==> t[|a| + j] == b[j];
    if DisjointIdentities(t, c) {
      forall i, j | 0 <= i < |a| && 0 <= j < |c| ensures IdentityOf(a[i]) != IdentityOf(c[j]) {
        assert IdentityOf(t[i]) != IdentityOf(c[j]);
      }
      forall i, j | 0 <= i < |b| && 0 <= j < |c| ensures IdentityOf(b[i]) != IdentityOf(c[j]) {
        assert IdentityOf(t[|a| + i]) != IdentityOf(c[j]);
      }
    }
  }

  ghost predicate UniqueBlocks(blocks: seq<seq<Sample>>) {
    && (forall i :: 0 <= i < |blocks| ==> UniqueIdentities(blocks[i]))
    && (forall i, j :: 0 <= i < j < |blocks| ==> DisjointIdentities(blocks[i], blocks[j]))
  }

  /** A trace repeats no identity iff no block does and no two blocks share one. */
  lemma {:induction false} JoinedUniqueIff(blocks: seq<seq<Sample>>)
    ensures UniqueIdentities(Joined(blocks)) <==> UniqueBlocks(blocks)
  {
    if blocks != [] {
      var init, last := blocks[..|blocks| - 1], blocks[|blocks| - 1];
      JoinedUniqueIff(init);
      UniqueConcat(Joined(init), last);
      JoinedDisjointIff(init, last);
      assert UniqueBlocks(blocks) <==> UniqueBlocks(init) && UniqueIdentities(last) && DisjointFromAll(init, last) by {
        assert forall i :: 0 <= i < |init| ==> blocks[i] == init[i];
      }
    }
  }

  lemma LabelsTellApart(a: seq<Sample>, b: seq<Sample>, la: seq<string>, lb: seq<string>)
    requires forall s :: s in a ==> s.labels == la
    requires forall s :: s in b ==> s.labels == lb
    requires la != lb
    ensures DisjointIdentities(a, b)
  {
    forall i, j | 0 <= i < |a| && 0 <= j < |b|
      ensures IdentityOf(a[i]) != IdentityOf(b[j])
    {
      assert a[i] in a && b[j] in b;
    }
  }

  function Descs(trace: seq<Sample>): set<Desc> {
    set s | s in trace :: s.desc
  }

  lemma DescsConcat(a: seq<Sample>, b: seq<Sample>)
    ensures Descs(a + b) == Descs(a) + Descs(b)
  {
    assert forall s :: s in a + b <==> s in a || s in b;
  }

  lemma {:induction false} JoinedDescs(blocks: seq<seq<Sample>>, descs: set<Desc>)
    requires forall i :: 0 <= i < |blocks| ==> Descs(blocks[i]) == descs
    ensures Descs(Joined(blocks)) == if blocks == [] then {} else descs
  {
    if blocks != [] {
      JoinedDescs(blocks[..|blocks| - 1], descs);
      DescsConcat(Joined(blocks[..|blocks| - 1]), blocks[|blocks| - 1]);
    }
  }

  /** An unbuffered channel seen from its sender: everything sent so far. */
  class Channel {
    var sent: seq<Sample>

    method Send(s: Sample)
      modifies this
      ensures sent == old(sent) + [s]
    {
      sent := sent + [s];
    }

    /** Sends the next sample of a plan of which `k` samples were sent after `start`. */
    method SendNext(s: Sample, ghost start: seq<Sample>, ghost plan: seq<Sample>, ghost k: nat)
      requires k < |plan| && s == plan[k] && sent == start + plan[..k]
      modifies this
      ensures sent == start + plan[..k + 1]
    {
      Send(s);
    }
  }
}
