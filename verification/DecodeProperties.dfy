/** What `DecodeBatch` guarantees about the batch it returns, over every summary. */
module DecodeProperties {
  import opened Options
  import opened Quantities
  import opened Readings
  import opened Stats
  import opened Storage
  import opened ScrapeTimes
  import opened Sections
  import opened Decode

  // ----- definedness

  /** A single section decoder dereferences nil exactly outside its safe inputs, whatever the point holds. */
  lemma NilDereferenceIff(point: Point, section: Section, inputs: Inputs)
    requires section != Network
    ensures Apply(point, section, inputs).status == NilDereference
            <==> (section == Memory && !MemorySafe(inputs.memory)) || (section == Fs && !FsSafe(inputs.fs))
    ensures Apply(point, section, inputs).status == Done
            <==> ((section == CPU && CPUDecodes(inputs.cpu)) ||
                  (section == Memory && MemoryDecodes(inputs.memory)) ||
                  (section == Fs && FsDecodes(inputs.fs)))
  {
  }

  /**
   A missing CPU section is only an error: decoding goes on. Whether a pod with a memory timestamp is safe
   does not depend on its CPU section at all, and without one its memory and filesystem sections are
   decoded, and complained about, just the same.
   */
  lemma CPUFailureSkipsNothing(p: PodStats, cpu: Option<CPUStats>)
    requires p.memory.Some? && p.memory.value.time != ZERO_TIME
    ensures PodSafe(p) <==> PodSafe(p.(cpu := cpu))
    ensures PodSafe(p) <==> Safe(PodInputs(p))
    ensures !CPUDecodes(p.cpu) ==>
              && DecodedPod(p).metrics == Overlay(EmptyPoint(TimeOf(PodSources(p))), {Memory, Fs}, PodInputs(p))
              && PodErrors(p) == [SectionMissing(PodOwner(p.podRef.name), CPU)]
                               + SectionErrors(PodOwner(p.podRef.name), PodInputs(p))[1..]
  {
    PodMeans(p);
    PodMeans(p.(cpu := cpu));
    SectionsMean(PodInputs(p));
  }

  /**
   Counters the kubelet API declares optional are dereferenced without a test: a working set without a
   usage counter, in one pod of an otherwise harmless summary, brings the whole batch down.
   */
  lemma OptionalCounterBringsBatchDown(summary: Summary, p: PodStats)
    requires p.memory.Some? && p.memory.value.time != ZERO_TIME
    requires p.memory.value.workingSetBytes.Some? && p.memory.value.usageBytes.None?
    ensures forall i :: 0 <= i <= |summary.pods| ==>
              !BatchSafe(summary.(pods := summary.pods[..i] + [p] + summary.pods[i..]))
  {
    PodMeans(p);
    forall i | 0 <= i <= |summary.pods|
      ensures !BatchSafe(summary.(pods := summary.pods[..i] + [p] + summary.pods[i..]))
    {
      var pods := summary.pods[..i] + [p] + summary.pods[i..];
      assert pods[i] == p;
      assert p in pods && !PodSafe(p);
    }
  }

  // ----- which pods are kept

  function Dropped(pods: seq<PodStats>): seq<PodStats> {
    if pods == [] then []
    else
      Dropped(pods[..|pods| - 1]) + (if FullyDecodes(pods[|pods| - 1]) then [] else [pods[|pods| - 1]])
  }

  /** `at` lists, in increasing order, exactly the input positions of the pods with a time and every section. */
  ghost predicate PositionsOfKept(at: seq<nat>, pods: seq<PodStats>) {
    && (forall k :: 0 <= k < |at| ==> at[k] < |pods|)
    && (forall j, k :: 0 <= j < k < |at| ==> at[j] < at[k])
    && (forall i :: 0 <= i < |pods| ==> (Keepable(pods[i]) <==> i in at))
  }

  lemma OneMorePosition(at: seq<nat>, pods: seq<PodStats>)
    requires pods != [] && PositionsOfKept(at, pods[..|pods| - 1])
    ensures Keepable(pods[|pods| - 1]) ==> PositionsOfKept(at + [|pods| - 1], pods)
    ensures !Keepable(pods[|pods| - 1]) ==> PositionsOfKept(at, pods)
  {
    var n := |pods| - 1;
    assert forall i :: 0 <= i < n ==> pods[i] == pods[..n][i];
  }

  lemma {:induction false} SurvivorsInOrder(pods: seq<PodStats>) returns (at: seq<nat>)
    ensures PositionsOfKept(at, pods)
    ensures |at| == |Survivors(pods)|
    ensures forall k :: 0 <= k < |at| ==> Survivors(pods)[k] == pods[at[k]]
  {
    if pods == [] {
      at := [];
    } else {
      var n := |pods| - 1;
      at := SurvivorsInOrder(pods[..n]);
      OneMorePosition(at, pods);
      KeepableIff(pods[n]);
      if FullyDecodes(pods[n]) {
        at := at + [n];
      }
    }
  }

  /** The kept pods carry the inputs at exactly these positions, one each, in input order. */
  lemma KeptInOrder(pods: seq<PodStats>) returns (at: seq<nat>)
    ensures PositionsOfKept(at, pods)
    ensures |Kept(pods)| == |at|
    ensures forall k :: 0 <= k < |at| ==>
              Kept(pods)[k] == DecodedPod(pods[at[k]]) && CarriesPod(Kept(pods)[k], pods[at[k]])
  {
    at := SurvivorsInOrder(pods);
    forall k | 0 <= k < |at|
      ensures CarriesPod(DecodedPod(pods[at[k]]), pods[at[k]])
    {
      assert at[k] in at;
      PodMeans(pods[at[k]]);
    }
  }

  lemma {:induction false} SurvivorsConcat(xs: seq<PodStats>, ys: seq<PodStats>)
    ensures Survivors(xs + ys) == Survivors(xs) + Survivors(ys)
  {
    if ys == [] {
      assert xs + ys == xs;
    } else {
      var init, last := ys[..|ys| - 1], ys[|ys| - 1];
      assert (xs + ys)[..|xs + ys| - 1] == xs + init;
      SurvivorsConcat(xs, init);
    }
  }

  lemma {:induction false} NoneSurvive(junk: seq<PodStats>)
    requires forall p :: p in junk ==> !FullyDecodes(p)
    ensures Survivors(junk) == []
  {
    if junk != [] {
      NoneSurvive(junk[..|junk| - 1]);
    }
  }

  /** Decoding a concatenation concatenates the decodings. */
  lemma PodsAreIsolated(xs: seq<PodStats>, ys: seq<PodStats>)
    ensures Kept(xs + ys) == Kept(xs) + Kept(ys)
  {
    SurvivorsConcat(xs, ys);
  }

  /**
   Pods that do not decode leave no trace in the kept pods, wherever they stand, and leave the batch
   safe exactly when they are safe themselves.
   */
  lemma UndecodablePodsAreInvisible(s: Summary, ys: seq<PodStats>, junk: seq<PodStats>)
    requires forall p :: p in junk ==> !FullyDecodes(p)
    ensures Kept(s.pods + junk + ys) == Kept(s.pods + ys)
    ensures BatchSafe(s.(pods := s.pods + junk + ys))
            <==> BatchSafe(s.(pods := s.pods + ys)) && AllSafe(junk)
  {
    SurvivorsConcat(s.pods + junk, ys);
    SurvivorsConcat(s.pods, junk);
    SurvivorsConcat(s.pods, ys);
    NoneSurvive(junk);
    assert Survivors(s.pods) + [] == Survivors(s.pods);
    var all := s.pods + junk + ys;
    assert forall p :: p in all <==> p in s.pods + ys || p in junk;
  }

  // ----- error accounting

  lemma {:induction false} PodsAreConserved(pods: seq<PodStats>)
    ensures multiset(Survivors(pods)) + multiset(Dropped(pods)) == multiset(pods)
    ensures |Kept(pods)| + |Dropped(pods)| == |pods|
  {
    if pods != [] {
      var init, last := pods[..|pods| - 1], pods[|pods| - 1];
      PodsAreConserved(init);
      assert pods == init + [last];
      assert multiset(pods) == multiset(init) + multiset{last};
      if FullyDecodes(last) {
        OneMore(Survivors(init), last);
        assert Dropped(pods) == Dropped(init);
      } else {
        OneMore(Dropped(init), last);
        assert Survivors(pods) == Survivors(init);
      }
    }
  }

  lemma OneMore(pods: seq<PodStats>, last: PodStats)
    ensures multiset(pods + [last]) == multiset(pods) + multiset{last}
  {
  }

  lemma {:induction false} PodErrorBounds(pods: seq<PodStats>)
    ensures |Dropped(pods)| <= |AllPodErrors(pods)| <= 3 * |Dropped(pods)|
  {
    if pods != [] {
      PodErrorBounds(pods[..|pods| - 1]);
      var last := pods[|pods| - 1];
      assert (PodErrors(last) == [] <==> FullyDecodes(last)) && |PodErrors(last)| <= 3;
    }
  }

  /** Every input pod is kept or dropped; a dropped pod costs one to three errors, the node at most three. */
  lemma ErrorAccounting(summary: Summary)
    ensures |Kept(summary.pods)| + |Dropped(summary.pods)| == |summary.pods|
    ensures var podErrors := |BatchErrors(summary)| - |NodeErrors(summary.node)|;
            |Dropped(summary.pods)| <= podErrors <= 3 * |Dropped(summary.pods)|
    ensures |NodeErrors(summary.node)| <= 3
    ensures NodeErrors(summary.node) == [] <==> NodeFullyDecodes(summary.node)
  {
    PodsAreConserved(summary.pods);
    PodErrorBounds(summary.pods);
  }

  /** The complaints a pod gives rise to: its missing timestamp alone, or each section that is missing. */
  ghost predicate PodComplaint(e: DecodeError, p: PodStats) {
    if Timed(p.cpu, p.memory, None, None) then
      && e.SectionMissing? && e.owner == PodOwner(p.podRef.name)
      && MissingSection(e.section, p.cpu, p.memory, p.ephemeralStorage)
    else
      e == NoTimestamp(PodOwner(p.podRef.name))
  }

  ghost predicate NodeComplaint(e: DecodeError, n: NodeStats) {
    if Timed(n.cpu, n.memory, n.network, n.fs) then
      && e.SectionMissing? && e.owner == NodeOwner(n.nodeName)
      && MissingSection(e.section, n.cpu, n.memory, n.fs)
    else
      e == NoTimestamp(NodeOwner(n.nodeName))
  }

  /** Why a section is complained about; the network decoder is never called. */
  ghost predicate MissingSection(section: Section, cpu: Option<CPUStats>, memory: Option<MemoryStats>,
                                 fs: Option<FsStats>) {
    match section
    case CPU => cpu.None? || cpu.value.usageNanoCores.None?
    case Memory => memory.None? || memory.value.workingSetBytes.None? || memory.value.usageBytes.None?
    case Fs => fs.None? || fs.value.availableBytes.None? || fs.value.capacityBytes.None?
    case Network => false
  }

  lemma OneOwnersErrors(p: PodStats, n: NodeStats, e: DecodeError)
    ensures e in PodErrors(p) <==> PodComplaint(e, p)
    ensures e in NodeErrors(n) <==> NodeComplaint(e, n)
  {
    TimeMeans(p, n);
    SectionErrorsListed(PodOwner(p.podRef.name), PodInputs(p), e);
    SectionErrorsListed(NodeOwner(n.nodeName), NodeInputs(n), e);
  }

  lemma SectionErrorsListed(owner: Owner, inputs: Inputs, e: DecodeError)
    ensures e in SectionErrors(owner, inputs)
       <==> (&& e.SectionMissing? && e.owner == owner
             && MissingSection(e.section, inputs.cpu, inputs.memory, inputs.fs))
  {
  }

  /** The errors of a batch are the complaints of the node and of its pods, each about its own owner. */
  lemma {:induction false} ErrorsListed(pods: seq<PodStats>, n: NodeStats, e: DecodeError)
    ensures e in AllPodErrors(pods) <==> exists p :: p in pods && PodComplaint(e, p)
    ensures e in NodeErrors(n) <==> NodeComplaint(e, n)
  {
    if pods == [] {
      OneOwnersErrors(EMPTY_POD, n, e);
    } else {
      var init, last := pods[..|pods| - 1], pods[|pods| - 1];
      assert pods == init + [last];
      ErrorsListed(init, n, e);
      OneOwnersErrors(last, n, e);
    }
  }

  /** One more pod adds its own errors at the end, after those of the node and of the pods before it. */
  lemma ErrorsInOrder(s: Summary, p: PodStats)
    ensures BatchErrors(s.(pods := s.pods + [p])) == BatchErrors(s) + PodErrors(p)
    ensures BatchErrors(s.(pods := [])) == NodeErrors(s.node)
  {
    OneMorePod(s.pods, p);
  }

  /** The returned error is nil iff the node and every pod decoded fully, and then no pod is missing. */
  lemma ErrorIsNilIff(summary: Summary)
    ensures Aggregate(BatchErrors(summary)).None?
            <==> NodeFullyDecodes(summary.node) && forall p :: p in summary.pods ==> FullyDecodes(p)
    ensures Aggregate(BatchErrors(summary)).None? ==> Kept(summary.pods) == DecodedPods(summary.pods)
  {
    ErrorAccounting(summary);
    NothingDroppedIff(summary.pods);
    if Dropped(summary.pods) == [] {
      NothingDropped(summary.pods);
    }
  }

  lemma {:induction false} NothingDroppedIff(pods: seq<PodStats>)
    ensures Dropped(pods) == [] <==> forall p :: p in pods ==> FullyDecodes(p)
  {
    if pods != [] {
      NothingDroppedIff(pods[..|pods| - 1]);
      assert pods == pods[..|pods| - 1] + [pods[|pods| - 1]];
    }
  }

  lemma {:induction false} NothingDropped(pods: seq<PodStats>)
    requires Dropped(pods) == []
    ensures Survivors(pods) == pods
  {
    if pods != [] {
      var init, last := pods[..|pods| - 1], pods[|pods| - 1];
      NothingDropped(init);
      assert FullyDecodes(last) && Dropped(init) == [];
      assert pods == init + [last];
    }
  }

  // ----- values

  /**
   Every kept pod comes from an input pod with a time and every section, carries its name, encodes each of
   its counters within 9 units, and bears its earliest non-zero timestamp.
   */
  lemma KeptPodIsFaithful(pods: seq<PodStats>, k: nat)
    requires k < |Kept(pods)|
    ensures Survivors(pods)[k] in pods && FullyDecodes(Survivors(pods)[k])
    ensures Keepable(Survivors(pods)[k]) && CarriesPod(Kept(pods)[k], Survivors(pods)[k])
  {
    var at := SurvivorsInOrder(pods);
    assert at[k] in at;
    PodMeans(pods[at[k]]);
  }

  // ----- the node point

  /**
   Node errors do not discard the node point, despite the comment beside the empty `if`: the point is
   the zero point iff no section supplies a timestamp, and otherwise keeps every section that decodes.
   */
  lemma NodePointDiscardedIff(n: NodeStats)
    ensures DecodedNode(n) == NodePoint("", EmptyPoint(ZERO_TIME)) <==> !Timed(n.cpu, n.memory, n.network, n.fs)
    ensures Timed(n.cpu, n.memory, n.network, n.fs) ==>
              && DecodedNode(n).name == n.nodeName
              && DecodedNode(n).metrics == Overlay(EmptyPoint(TimeOf(NodeSources(n))), ALL_SECTIONS, NodeInputs(n))
  {
    NodeMeans(n);
    TimeMeans(EMPTY_POD, n);
  }

  /** A node whose memory section is missing: errors are reported and its CPU reading is kept all the same. */
  lemma PartialNodeIsKept(name: string, usage: Uint64)
    ensures var n := NodeStats(name, Some(CPUStats(1, Some(usage))), None, None, None);
            && NodeSafe(n)
            && NodeErrors(n) == [SectionMissing(NodeOwner(name), Memory), SectionMissing(NodeOwner(name), Fs)]
            && DecodedNode(n) == NodePoint(name, EmptyPoint(1).(cpuUsageNanoCores := Uint64Quantity(usage, NANO)))
  {
    var n := NodeStats(name, Some(CPUStats(1, Some(usage))), None, None, None);
    assert NodeSources(n)[0] == Some(1) && Supplies(NodeSources(n)[0]);
    EarliestIsMinimum(NodeSources(n));
    assert TimeOf(NodeSources(n)) == 1;
  }

  /** Whatever sections are missing, the node point carries the others, or is zero without a timestamp. */
  lemma NodePointEncodes(n: NodeStats)
    ensures CarriesNode(DecodedNode(n), n)
  {
    NodeMeans(n);
  }
}
