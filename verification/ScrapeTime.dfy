/** The earliest non-zero timestamp among the sections of one pod or node. */
module ScrapeTimes {
  import opened Options
  import opened Readings
  import opened Stats

  /** Whether a source, nil or not, supplies a usable timestamp. */
  predicate Supplies(source: Option<Time>) {
    source.Some? && source.value != ZERO_TIME
  }

  /** One `if source != nil && !IsZero && (earliest == nil || earliest.After(source))` step. */
  function Earlier(earliest: Option<Time>, source: Option<Time>): Option<Time> {
    if Supplies(source) && (earliest.None? || earliest.value > source.value) then source else earliest
  }

  function Earliest(sources: seq<Option<Time>>): Option<Time> {
    if sources == [] then None
    else Earlier(Earliest(sources[..|sources| - 1]), sources[|sources| - 1])
  }

  /** `r` is the minimum of the non-nil, non-zero timestamps, or absent when there are none. */
  ghost predicate IsMinimum(r: Option<Time>, sources: seq<Option<Time>>) {
    && (r.None? <==> forall s :: s in sources ==> s.None? || s.value == ZERO_TIME)
    && (r.Some? ==> r in sources && r.value != ZERO_TIME)
    && (r.Some? ==> forall s :: s in sources && s.Some? && s.value != ZERO_TIME ==> r.value <= s.value)
  }

  lemma {:induction false} EarliestIsMinimum(sources: seq<Option<Time>>)
    ensures IsMinimum(Earliest(sources), sources)
  {
    if sources != [] {
      var init, last := sources[..|sources| - 1], sources[|sources| - 1];
      EarliestIsMinimum(init);
      assert sources == init + [last];
    }
  }

  /** Only the set of sources matters: neither their order nor repetition changes the result. */
  lemma EarliestIgnoresOrder(a: seq<Option<Time>>, b: seq<Option<Time>>)
    requires forall s :: s in a <==> s in b
    ensures Earliest(a) == Earliest(b)
  {
    EarliestIsMinimum(a);
    EarliestIsMinimum(b);
  }

  function CPUTime(cpu: Option<CPUStats>): Option<Time> {
    if cpu.Some? then Some(cpu.value.time) else None
  }

  function MemoryTime(memory: Option<MemoryStats>): Option<Time> {
    if memory.Some? then Some(memory.value.time) else None
  }

  function NetworkTime(network: Option<NetworkStats>): Option<Time> {
    if network.Some? then Some(network.value.time) else None
  }

  function FsTime(fs: Option<FsStats>): Option<Time> {
    if fs.Some? then Some(fs.value.time) else None
  }

  function PodSources(p: PodStats): seq<Option<Time>> {
    [CPUTime(p.cpu), MemoryTime(p.memory)]
  }

  function NodeSources(n: NodeStats): seq<Option<Time>> {
    [CPUTime(n.cpu), MemoryTime(n.memory), NetworkTime(n.network), FsTime(n.fs)]
  }

  lemma EarliestUnrolled(a: Option<Time>, b: Option<Time>, c: Option<Time>, d: Option<Time>)
    ensures Earliest([a, b]) == Earlier(Earlier(None, a), b)
    ensures Earliest([a, b, c, d]) == Earlier(Earlier(Earlier(Earlier(None, a), b), c), d)
  {
    assert [a][..0] == [] && [a, b][..1] == [a];
    assert [a, b, c][..2] == [a, b] && [a, b, c, d][..3] == [a, b, c];
    assert Earliest([a]) == Earlier(Earliest([]), a);
    assert Earliest([a, b, c]) == Earlier(Earliest([a, b]), c);
  }

  /** The fold over the sections' times, nil ones included, in terms of the sections' fields. */
  lemma EarliestOfSections(cpu: Option<CPUStats>, memory: Option<MemoryStats>,
                           network: Option<NetworkStats>, fs: Option<FsStats>)
    ensures var t := Earliest([CPUTime(cpu), MemoryTime(memory), NetworkTime(network), FsTime(fs)]);
            && (t.Some? <==> Timed(cpu, memory, network, fs))
            && (t.Some? ==> IsEarliest(t.value, cpu, memory, network, fs))
    ensures Earliest([CPUTime(cpu), MemoryTime(memory)])
         == Earliest([CPUTime(cpu), MemoryTime(memory), NetworkTime(None), FsTime(None)])
  {
    EarliestUnrolled(CPUTime(cpu), MemoryTime(memory), NetworkTime(network), FsTime(fs));
    EarliestUnrolled(CPUTime(cpu), MemoryTime(memory), NetworkTime(None), FsTime(None));
  }

  /** `None` stands for the returned error. */
  method GetScrapeTimePod(cpu: Option<CPUStats>, memory: Option<MemoryStats>) returns (earliest: Option<Time>)
    ensures earliest == Earliest([CPUTime(cpu), MemoryTime(memory)])
    ensures earliest.Some? <==> Timed(cpu, memory, None, None)
    ensures earliest.Some? ==> IsEarliest(earliest.value, cpu, memory, None, None)
  {
    earliest := None;
    earliest := Earlier(earliest, CPUTime(cpu));
    earliest := Earlier(earliest, MemoryTime(memory));
    EarliestUnrolled(CPUTime(cpu), MemoryTime(memory), NetworkTime(None), FsTime(None));
    EarliestOfSections(cpu, memory, None, None);
  }

  method GetScrapeTimeNode(cpu: Option<CPUStats>, memory: Option<MemoryStats>,
                           network: Option<NetworkStats>, fs: Option<FsStats>) returns (earliest: Option<Time>)
    ensures earliest == Earliest([CPUTime(cpu), MemoryTime(memory), NetworkTime(network), FsTime(fs)])
    ensures earliest.Some? <==> Timed(cpu, memory, network, fs)
    ensures earliest.Some? ==> IsEarliest(earliest.value, cpu, memory, network, fs)
  {
    earliest := None;
    earliest := Earlier(earliest, CPUTime(cpu));
    earliest := Earlier(earliest, MemoryTime(memory));
    earliest := Earlier(earliest, NetworkTime(network));
    earliest := Earlier(earliest, FsTime(fs));
    EarliestUnrolled(CPUTime(cpu), MemoryTime(memory), NetworkTime(network), FsTime(fs));
    EarliestOfSections(cpu, memory, network, fs);
  }
}
