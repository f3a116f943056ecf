/**
 The section decoders. Each writes some fields of a metrics point through a pointer and reports how it
 ended: done, section missing, or a nil pointer dereference half-way.
 */
module Sections {
  import opened Options
  import opened Quantities
  import opened Stats
  import opened Storage

  datatype Section = CPU | Memory | Fs | Network

  datatype Status = Done | Missing | NilDereference

  /** What a section decoder leaves in the point, and how it ended. */
  datatype Write = Write(point: Point, status: Status)

  const NANO: Scale := -9

  function Bytes(val: Uint64): Quantity {
    Uint64Quantity(val, 0).(format := BinarySI)
  }

  // ----- pure form of the decoders

  function CPUWrite(point: Point, cpu: Option<CPUStats>): Write {
    if cpu.None? || cpu.value.usageNanoCores.None? then
      Write(point, Missing)
    else
      Write(point.(cpuUsageNanoCores := Uint64Quantity(cpu.value.usageNanoCores.value, NANO)), Done)
  }

  function MemoryWrite(point: Point, memory: Option<MemoryStats>): Write {
    if memory.None? || memory.value.workingSetBytes.None? then
      Write(point, Missing)
    else
      var m := memory.value;
      var p := if m.availableBytes.Some? then point.(memoryAvailableBytes := Bytes(m.availableBytes.value)) else point;
      if m.usageBytes.None? then
        Write(p, NilDereference)
      else
        Write(p.(memoryUsageBytes := Bytes(m.usageBytes.value),
                 memoryWorkingSetBytes := Bytes(m.workingSetBytes.value)), Done)
  }

  function FsWrite(point: Point, fs: Option<FsStats>): Write {
    if fs.None? then
      Write(point, Missing)
    else if fs.value.availableBytes.None? then
      Write(point, NilDereference)
    else
      var f := fs.value;
      var p := point.(fsAvailableBytes := Bytes(f.availableBytes.value));
      if f.capacityBytes.None? then
        Write(p, NilDereference)
      else
        Write(p.(fsCapacityBytes := Bytes(f.capacityBytes.value),
                 fsUsedBytes := Bytes(if f.usedBytes.Some? then f.usedBytes.value else 0)), Done)
  }

  predicate Counted(interfaces: seq<InterfaceStats>) {
    forall i :: 0 <= i < |interfaces| ==> interfaces[i].rxBytes.Some? && interfaces[i].txBytes.Some?
  }

  /** The only test made before the interface loop: the first interface's receive counter. */
  predicate NetworkGuard(network: Option<NetworkStats>) {
    && network.Some?
    && (|network.value.interfaces| != 0 ==> network.value.interfaces[0].rxBytes.Some?)
  }

  /** The sum of the receive counters as an unbounded integer. */
  function SumRx(interfaces: seq<InterfaceStats>): nat
    requires Counted(interfaces)
  {
    if interfaces == [] then 0
    else SumRx(interfaces[..|interfaces| - 1]) + interfaces[|interfaces| - 1].rxBytes.value
  }

  function SumTx(interfaces: seq<InterfaceStats>): nat
    requires Counted(interfaces)
  {
    if interfaces == [] then 0
    else SumTx(interfaces[..|interfaces| - 1]) + interfaces[|interfaces| - 1].txBytes.value
  }

  function NetworkWrite(point: Point, network: Option<NetworkStats>): Write {
    if !NetworkGuard(network) then
      Write(point, Missing)
    else if !Counted(network.value.interfaces) then
      Write(point, NilDereference)
    else
      var interfaces := network.value.interfaces;
      Write(point.(networkRxBytes := Bytes(SumRx(interfaces) % TWO_64),
                   networkTxBytes := Bytes(SumTx(interfaces) % TWO_64)), Done)
  }

  // ----- the decoders as they write through a pointer

  method DecodeCPU(target: MetricsPoint, cpu: Option<CPUStats>) returns (status: Status)
    modifies target
    ensures Write(target.Value(), status) == CPUWrite(old(target.Value()), cpu)
  {
    if cpu.None? || cpu.value.usageNanoCores.None? {
      return Missing;
    }
    target.cpuUsageNanoCores := Uint64Quantity(cpu.value.usageNanoCores.value, NANO);
    status := Done;
  }

  method DecodeMemory(target: MetricsPoint, memory: Option<MemoryStats>) returns (status: Status)
    modifies target
    ensures Write(target.Value(), status) == MemoryWrite(old(target.Value()), memory)
  {
    if memory.None? || memory.value.workingSetBytes.None? {
      return Missing;
    }
    var m := memory.value;
    if m.availableBytes.Some? {
      target.memoryAvailableBytes := Uint64Quantity(m.availableBytes.value, 0);
      target.memoryAvailableBytes := target.memoryAvailableBytes.(format := BinarySI);
    }
    if m.usageBytes.None? {
      return NilDereference;
    }
    target.memoryUsageBytes := Uint64Quantity(m.usageBytes.value, 0);
    target.memoryUsageBytes := target.memoryUsageBytes.(format := BinarySI);
    target.memoryWorkingSetBytes := Uint64Quantity(m.workingSetBytes.value, 0);
    target.memoryWorkingSetBytes := target.memoryWorkingSetBytes.(format := BinarySI);
    status := Done;
  }

  method DecodeFs(target: MetricsPoint, fs: Option<FsStats>) returns (status: Status)
    modifies target
    ensures Write(target.Value(), status) == FsWrite(old(target.Value()), fs)
  {
    if fs.None? {
      return Missing;
    }
    var f := fs.value;
    if f.availableBytes.None? {
      return NilDereference;
    }
    target.fsAvailableBytes := Uint64Quantity(f.availableBytes.value, 0);
    target.fsAvailableBytes := target.fsAvailableBytes.(format := BinarySI);
    if f.capacityBytes.None? {
      return NilDereference;
    }
    target.fsCapacityBytes := Uint64Quantity(f.capacityBytes.value, 0);
    target.fsCapacityBytes := target.fsCapacityBytes.(format := BinarySI);
    if f.usedBytes.None? {
      target.fsUsedBytes := Uint64Quantity(0, 0);
    } else {
      target.fsUsedBytes := Uint64Quantity(f.usedBytes.value, 0);
    }
    target.fsUsedBytes := target.fsUsedBytes.(format := BinarySI);
    status := Done;
  }

  /** The accumulator loop on two uint64 variables, which ends early at a nil counter. */
  method AddUp(interfaces: seq<InterfaceStats>) returns (rx: Uint64, tx: Uint64, complete: bool)
    ensures complete <==> forall i :: 0 <= i < |interfaces| ==>
                            interfaces[i].rxBytes.Some? && interfaces[i].txBytes.Some?
    ensures complete ==> rx == SumRx(interfaces) % TWO_64 && tx == SumTx(interfaces) % TWO_64
  {
    rx, tx := 0, 0;
    for i := 0 to |interfaces|
      invariant Counted(interfaces[..i])
      invariant rx == SumRx(interfaces[..i]) % TWO_64
      invariant tx == SumTx(interfaces[..i]) % TWO_64
    {
      if interfaces[i].rxBytes.None? || interfaces[i].txBytes.None? {
        return rx, tx, false;
      }
      assert interfaces[..i + 1][..i] == interfaces[..i];
      WrapOnce(SumRx(interfaces[..i]), interfaces[i].rxBytes.value);
      WrapOnce(SumTx(interfaces[..i]), interfaces[i].txBytes.value);
      rx := (rx + interfaces[i].rxBytes.value) % TWO_64;
      tx := (tx + interfaces[i].txBytes.value) % TWO_64;
    }
    assert interfaces[..|interfaces|] == interfaces;
    complete := true;
  }

  method DecodeNetwork(target: MetricsPoint, network: Option<NetworkStats>) returns (status: Status)
    modifies target
    ensures Write(target.Value(), status) == NetworkWrite(old(target.Value()), network)
    ensures status == Missing
            <==> (network.None? || (network.value.interfaces != [] && network.value.interfaces[0].rxBytes.None?))
    ensures NetworkGuard(network) ==> (status == Done <==> Counted(network.value.interfaces))
  {
    if network.None? || (|network.value.interfaces| != 0 && network.value.interfaces[0].rxBytes.None?) {
      return Missing;
    }
    var rx, tx, complete := AddUp(network.value.interfaces);
    if !complete {
      return NilDereference;
    }
    target.networkRxBytes := Uint64Quantity(rx, 0);
    target.networkRxBytes := target.networkRxBytes.(format := BinarySI);
    target.networkTxBytes := Uint64Quantity(tx, 0);
    target.networkTxBytes := target.networkTxBytes.(format := BinarySI);
    status := Done;
  }

  lemma WrapOnce(sum: nat, next: Uint64)
    ensures (sum % TWO_64 + next) % TWO_64 == (sum + next) % TWO_64
  {
  }

  // ----- network totals

  /** The guard passes and the loop still dereferences nil iff some interface lacks a counter. */
  lemma NetworkCompletesIff(point: Point, network: Option<NetworkStats>)
    requires NetworkGuard(network)
    ensures NetworkWrite(point, network).status == Done <==> Counted(network.value.interfaces)
    ensures NetworkWrite(point, network).status != Done ==> NetworkWrite(point, network) == Write(point, NilDereference)
  {
  }

  /** The guard alone is not enough: one interface with a receive counter and no transmit counter. */
  lemma NetworkGuardIsNotEnough(point: Point)
    ensures exists network :: NetworkGuard(network) && NetworkWrite(point, network).status == NilDereference
  {
    var eth := InterfaceStats("eth0", Some(1), None);
    var network := Some(NetworkStats(ZERO_TIME, [eth]));
    assert network.value.interfaces[0].txBytes.None?;
    assert NetworkGuard(network) && NetworkWrite(point, network).status == NilDereference;
  }

  function SumOf(values: seq<nat>): nat {
    if values == [] then 0 else SumOf(values[..|values| - 1]) + values[|values| - 1]
  }

  /** The two sums are those of the receive counters and of the transmit counters. */
  lemma {:induction false} SumsAreOfCounters(interfaces: seq<InterfaceStats>, rx: seq<nat>, tx: seq<nat>)
    requires Counted(interfaces) && |rx| == |tx| == |interfaces|
    requires forall i :: 0 <= i < |interfaces| ==> rx[i] == interfaces[i].rxBytes.value
    requires forall i :: 0 <= i < |interfaces| ==> tx[i] == interfaces[i].txBytes.value
    ensures SumRx(interfaces) == SumOf(rx) && SumTx(interfaces) == SumOf(tx)
  {
    if interfaces != [] {
      var n := |interfaces| - 1;
      SumsAreOfCounters(interfaces[..n], rx[..n], tx[..n]);
    }
  }

  /** Each stored total is within 9 of the sum modulo 2^64, and nothing else is written. */
  lemma NetworkTotals(point: Point, network: Option<NetworkStats>)
    requires NetworkGuard(network) && Counted(network.value.interfaces)
    ensures var w := NetworkWrite(point, network);
            && Encodes(w.point.networkRxBytes, SumRx(network.value.interfaces) % TWO_64, 0, BinarySI)
            && Encodes(w.point.networkTxBytes, SumTx(network.value.interfaces) % TWO_64, 0, BinarySI)
            && w.point == point.(networkRxBytes := w.point.networkRxBytes, networkTxBytes := w.point.networkTxBytes)
  {
    BytesEncode(SumRx(network.value.interfaces) % TWO_64);
    BytesEncode(SumTx(network.value.interfaces) % TWO_64);
  }

  /** A stored total is within 9 of the true sum iff that sum did not wrap. */
  lemma StoredTotalIsTrueSumIff(sum: nat)
    ensures sum < TWO_64 <==> 0 <= sum - InUnits(Bytes(sum % TWO_64), 0) <= 9
  {
    var wrapped := sum % TWO_64;
    BytesEncode(wrapped);
    assert 0 <= wrapped - InUnits(Bytes(wrapped), 0) <= 9;
    assert sum == sum / TWO_64 * TWO_64 + wrapped;
  }

  lemma BytesEncode(val: Uint64)
    ensures Encodes(Bytes(val), val, 0, BinarySI)
  {
    PrecisionBound(val, 0);
    assert InUnits(Bytes(val), 0) == InUnits(Uint64Quantity(val, 0), 0);
  }

  // ----- section independence

  datatype Inputs = Inputs(cpu: Option<CPUStats>, memory: Option<MemoryStats>, fs: Option<FsStats>)

  predicate CPUDecodes(cpu: Option<CPUStats>) {
    cpu.Some? && cpu.value.usageNanoCores.Some?
  }

  predicate MemoryDecodes(memory: Option<MemoryStats>) {
    memory.Some? && memory.value.workingSetBytes.Some? && memory.value.usageBytes.Some?
  }

  predicate FsDecodes(fs: Option<FsStats>) {
    fs.Some? && fs.value.availableBytes.Some? && fs.value.capacityBytes.Some?
  }

  /** A memory section the guard lets through has the usage counter dereferenced behind it. */
  predicate MemorySafe(memory: Option<MemoryStats>) {
    memory.Some? && memory.value.workingSetBytes.Some? ==> memory.value.usageBytes.Some?
  }

  predicate FsSafe(fs: Option<FsStats>) {
    fs.Some? ==> fs.value.availableBytes.Some? && fs.value.capacityBytes.Some?
  }

  predicate Safe(inputs: Inputs) {
    MemorySafe(inputs.memory) && FsSafe(inputs.fs)
  }

  function Apply(point: Point, section: Section, inputs: Inputs): Write
    requires section != Network
  {
    match section
    case CPU => CPUWrite(point, inputs.cpu)
    case Memory => MemoryWrite(point, inputs.memory)
    case Fs => FsWrite(point, inputs.fs)
  }

  /** Runs section decoders in any order, any number of times, going on past missing sections. */
  function ApplyAll(point: Point, order: seq<Section>, inputs: Inputs): Point
    requires Network !in order
  {
    if order == [] then point
    else
      Apply(ApplyAll(point, order[..|order| - 1], inputs), order[|order| - 1], inputs).point
  }

  /** Field by field: a field holds its section's counter if that section ran and decodes, else the old value. */
  function Overlay(point: Point, ran: set<Section>, inputs: Inputs): Point {
    var memory := Memory in ran && MemoryDecodes(inputs.memory);
    var fs := Fs in ran && FsDecodes(inputs.fs);
    Point(
      point.timestamp,
      if CPU in ran && CPUDecodes(inputs.cpu)
        then Uint64Quantity(inputs.cpu.value.usageNanoCores.value, NANO) else point.cpuUsageNanoCores,
      if memory then Bytes(inputs.memory.value.usageBytes.value) else point.memoryUsageBytes,
      if memory && inputs.memory.value.availableBytes.Some?
        then Bytes(inputs.memory.value.availableBytes.value) else point.memoryAvailableBytes,
      if memory then Bytes(inputs.memory.value.workingSetBytes.value) else point.memoryWorkingSetBytes,
      point.networkRxBytes,
      point.networkTxBytes,
      if fs then Bytes(inputs.fs.value.availableBytes.value) else point.fsAvailableBytes,
      if fs then Bytes(inputs.fs.value.capacityBytes.value) else point.fsCapacityBytes,
      if fs then Bytes(if inputs.fs.value.usedBytes.Some? then inputs.fs.value.usedBytes.value else 0)
        else point.fsUsedBytes)
  }

  lemma OneMoreSection(point: Point, ran: set<Section>, section: Section, inputs: Inputs)
    requires section != Network && Safe(inputs)
    ensures Apply(Overlay(point, ran, inputs), section, inputs).point == Overlay(point, ran + {section}, inputs)
  {
  }

  /** Any order, any repetition: only the set of sections that ran shows in the point. */
  lemma {:induction false} SectionsAreIndependent(point: Point, order: seq<Section>, inputs: Inputs)
    requires Network !in order && Safe(inputs)
    ensures ApplyAll(point, order, inputs) == Overlay(point, (set s | s in order), inputs)
  {
    if order != [] {
      var init, last := order[..|order| - 1], order[|order| - 1];
      assert order == init + [last];
      assert (set s | s in order) == (set s | s in init) + {last};
      SectionsAreIndependent(point, init, inputs);
      OneMoreSection(point, (set s | s in init), last, inputs);
    }
  }

  lemma SectionsCommute(point: Point, a: seq<Section>, b: seq<Section>, inputs: Inputs)
    requires Network !in a && Network !in b && Safe(inputs)
    requires forall s :: s in a <==> s in b
    ensures ApplyAll(point, a, inputs) == ApplyAll(point, b, inputs)
  {
    SectionsAreIndependent(point, a, inputs);
    SectionsAreIndependent(point, b, inputs);
    assert (set s | s in a) == (set s | s in b);
  }
}
