/** `GetGPUProcess`: compute and MPS processes gathered into a map keyed by the PID in decimal. */
module Processes {
  import opened Quantities

  type Pid = n: int | 0 <= n < 0x1_0000_0000

  datatype Process = Process(pid: Pid, usedGpuMemory: Uint64)

  // ----- decimal printing

  const DIGITS: string := "0123456789"

  /** `fmt.Sprint` of an unsigned integer. */
  function Decimal(n: nat): string {
    if n < 10 then [DIGITS[n]] else Decimal(n / 10) + [DIGITS[n % 10]]
  }

  function DigitValue(c: char): int {
    c as int - '0' as int
  }

  function ParseDecimal(s: string): int {
    if s == [] then 0 else 10 * ParseDecimal(s[..|s| - 1]) + DigitValue(s[|s| - 1])
  }

  lemma {:induction false} DecimalRoundTrip(n: nat)
    ensures ParseDecimal(Decimal(n)) == n
  {
    DigitRoundTrip(n % 10);
    if n < 10 {
      assert Decimal(n)[..0] == [];
    } else {
      DecimalRoundTrip(n / 10);
      assert Decimal(n)[..|Decimal(n)| - 1] == Decimal(n / 10);
    }
  }

  lemma DigitRoundTrip(d: nat)
    requires d < 10
    ensures DigitValue(DIGITS[d]) == d
  {
  }

  lemma DecimalInjective(a: nat, b: nat)
    ensures Decimal(a) == Decimal(b) <==> a == b
  {
    DecimalRoundTrip(a);
    DecimalRoundTrip(b);
  }

  // ----- the map

  function ProcMap(procs: seq<Process>): map<string, Uint64> {
    if procs == [] then map[]
    else
      var last := procs[|procs| - 1];
      ProcMap(procs[..|procs| - 1])[Decimal(last.pid) := last.usedGpuMemory]
  }

  method GetGPUProcess(compute: seq<Process>, mps: seq<Process>) returns (procInfo: map<string, Uint64>)
    ensures procInfo == ProcMap(compute + mps)
    ensures LastWins(procInfo, compute + mps)
  {
    var nvmlProc := compute + mps;
    procInfo := map[];
    for i := 0 to |nvmlProc|
      invariant procInfo == ProcMap(nvmlProc[..i])
    {
      var strPid := Decimal(nvmlProc[i].pid);
      procInfo := procInfo[strPid := nvmlProc[i].usedGpuMemory];
      assert nvmlProc[..i + 1][..i] == nvmlProc[..i];
    }
    assert nvmlProc[..|nvmlProc|] == nvmlProc;
    ProcMapLastWins(nvmlProc);
  }

  function Pids(procs: seq<Process>): set<Pid> {
    set p | p in procs :: p.pid
  }

  predicate IsLastOfPid(procs: seq<Process>, i: nat)
    requires i < |procs|
  {
    forall j :: i < j < |procs| ==> procs[j].pid != procs[i].pid
  }

  /** The keys are the decimal PIDs of the list; each value is that of the PID's last occurrence. */
  ghost predicate LastWins(m: map<string, Uint64>, procs: seq<Process>) {
    && (forall key :: key in m <==> exists pid :: pid in Pids(procs) && key == Decimal(pid))
    && (forall i :: 0 <= i < |procs| && (forall j :: i < j < |procs| ==> procs[j].pid != procs[i].pid) ==>
          Decimal(procs[i].pid) in m && m[Decimal(procs[i].pid)] == procs[i].usedGpuMemory)
  }

  lemma PidsAppend(procs: seq<Process>, last: Process)
    ensures Pids(procs + [last]) == Pids(procs) + {last.pid}
  {
    assert forall p :: p in procs + [last] <==> p in procs || p == last;
  }

  lemma {:induction false} ProcMapLastWins(procs: seq<Process>)
    ensures LastWins(ProcMap(procs), procs)
  {
    if procs != [] {
      var init, last := procs[..|procs| - 1], procs[|procs| - 1];
      assert procs == init + [last];
      ProcMapLastWins(init);
      PidsAppend(init, last);
      forall i | 0 <= i < |procs| && IsLastOfPid(procs, i)
        ensures Decimal(procs[i].pid) in ProcMap(procs)
        ensures ProcMap(procs)[Decimal(procs[i].pid)] == procs[i].usedGpuMemory
      {
        if i < |init| {
          assert init[i] == procs[i] && IsLastOfPid(init, i);
          assert procs[|init|].pid != procs[i].pid;
          DecimalInjective(procs[i].pid, last.pid);
        }
      }
    }
  }

  lemma {:induction false} LastOccurrence(procs: seq<Process>, pid: Pid) returns (i: nat)
    requires pid in Pids(procs)
    ensures i < |procs| && procs[i].pid == pid && IsLastOfPid(procs, i)
  {
    var init, last := procs[..|procs| - 1], procs[|procs| - 1];
    if last.pid == pid {
      i := |init|;
    } else {
      assert procs == init + [last];
      PidsAppend(init, last);
      i := LastOccurrence(init, pid);
      assert forall j :: i < j < |init| ==> procs[j] == init[j];
    }
  }

  lemma KeyPresentIff(procs: seq<Process>, pid: Pid)
    ensures Decimal(pid) in ProcMap(procs) <==> pid in Pids(procs)
  {
    ProcMapLastWins(procs);
    forall other | other in Pids(procs) && Decimal(pid) == Decimal(other)
      ensures pid == other
    {
      DecimalInjective(pid, other);
    }
  }

  /** One map entry per distinct PID. */
  lemma {:induction false} ProcMapSize(procs: seq<Process>)
    ensures |ProcMap(procs)| == |Pids(procs)|
  {
    if procs != [] {
      var init, last := procs[..|procs| - 1], procs[|procs| - 1];
      assert procs == init + [last];
      ProcMapSize(init);
      PidsAppend(init, last);
      KeyPresentIff(init, last.pid);
      if last.pid in Pids(init) {
        assert Pids(procs) == Pids(init);
        assert ProcMap(procs).Keys == ProcMap(init).Keys;
      } else {
        assert |Pids(procs)| == |Pids(init)| + 1;
        assert ProcMap(procs).Keys == ProcMap(init).Keys + {Decimal(last.pid)};
        assert |ProcMap(procs).Keys| == |ProcMap(init).Keys| + 1;
      }
    }
  }

  /** An MPS process overrides a compute process of the same PID; other compute processes stay. */
  lemma {:induction false} MPSWins(compute: seq<Process>, mps: seq<Process>)
    ensures ProcMap(compute + mps) == ProcMap(compute) + ProcMap(mps)
  {
    if mps == [] {
      assert compute + mps == compute;
    } else {
      assert (compute + mps)[..|compute + mps| - 1] == compute + mps[..|mps| - 1];
      MPSWins(compute, mps[..|mps| - 1]);
    }
  }
}
