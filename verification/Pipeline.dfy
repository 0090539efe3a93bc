/** run_workload in the source's own form: one object whose queues, slots and counters are
    updated in place by the loops of a cycle, each loop proved against PipelineModel. */
module Pipeline {
  import opened Arithmetic
  import opened Instructions
  import opened PipelineModel
  import opened PipelinePhases
  import opened PipelineCycle
  import opened PipelineRuns
  import opened PipelineOrder
  import opened PipelineProgress
  import opened PipelineHalting
  import opened PipelineStalls
  import opened PipelineReport

  lemma EndingMonotone(slots: seq<Slot>, k: nat, m: bool)
    requires k <= |slots|
    ensures EndingKind(slots[..k], m) <= EndingKind(slots, m)
    decreases |slots|
  {
    if k < |slots| {
      EndingMonotone(slots[..|slots| - 1], k, m);
      assert slots[..|slots| - 1][..k] == slots[..k];
    } else {
      assert slots[..k] == slots;
    }
  }

  class Machine {
    const cfg: Config
    var ins: seq<Instruction>
    var fetchQ: seq<nat>
    var decodeQ: seq<nat>
    var dispatchQ: seq<nat>
    var readyQ: seq<nat>
    var retireQ: seq<nat>
    var slots: seq<Slot>
    var retired: set<nat>
    var next: nat
    var cycle: nat
    var computeInUse: nat
    var memoryInUse: nat
    var stats: Stats

    constructor (w: seq<Instruction>, cfg: Config)
      ensures View() == Init(w, cfg)
    {
      this.cfg := cfg;
      ins := w;
      fetchQ, decodeQ, dispatchQ, readyQ, retireQ, slots := [], [], [], [], [], [];
      retired := {};
      next, cycle, computeInUse, memoryInUse := 0, 0, 0, 0;
      stats := Stats(0, 0, 0, 0, 0, 0, 0);
    }

    ghost function View(): State
      reads this
    {
      State(cfg, ins, fetchQ, decodeQ, dispatchQ, readyQ, retireQ, slots, retired, next, cycle,
            computeInUse, memoryInUse, stats)
    }

    predicate Busy()
      reads this
    {
      next < |ins| || fetchQ != [] || decodeQ != [] || dispatchQ != [] || readyQ != [] || retireQ != [] || slots != []
    }

    method Retire()
      requires WF(View())
      modifies this
      ensures View() == RetireAll(old(View()))
    {
      hide InRange;
      while retireQ != []
        invariant WF(View()) && RetireAll(View()) == RetireAll(old(View()))
        decreases |retireQ|
      {
        InRangeFront(retireQ, |ins|);
        var i := retireQ[0];
        retireQ := retireQ[1..];
        var x := ins[i];
        ins := ins[i := x.(stage := Stage.Done)];
        retired := retired + {x.id};
        stats := stats.(completed := stats.completed + 1,
                        totalLatency := stats.totalLatency + (x.completeCycle - x.enqueueCycle));
      }
    }

    /** One slot of the tick loop: count down, and release the resource of a finished slot;
        `ok` is false where the source throws. */
    method TickSlot(slot: Slot) returns (ok: bool, after: Slot)
      modifies this`memoryInUse, this`computeInUse
      ensures after == Ticked(slot)
      ensures after.remaining != 0 ==> ok && memoryInUse == old(memoryInUse) && computeInUse == old(computeInUse)
      ensures after.remaining == 0 ==> (ok <==> if slot.usesMemory then old(memoryInUse) > 0 else old(computeInUse) > 0)
      ensures after.remaining == 0 && ok ==>
        && memoryInUse == old(memoryInUse) - (if slot.usesMemory then 1 else 0)
        && computeInUse == old(computeInUse) - (if slot.usesMemory then 0 else 1)
    {
      after := slot;
      if after.remaining > 0 {
        after := after.(remaining := after.remaining - 1);
      }
      if after.remaining == 0 {
        if after.usesMemory {
          if memoryInUse == 0 { return false, after; }
          memoryInUse := memoryInUse - 1;
        } else {
          if computeInUse == 0 { return false, after; }
          computeInUse := computeInUse - 1;
        }
      }
      return true, after;
    }

    /** The first loop of the tick. */
    method TickSlots() returns (ok: bool, remaining: seq<Slot>, finished: seq<nat>)
      requires WF(View())
      modifies this`memoryInUse, this`computeInUse
      ensures ok <==> !Underflows(old(View()))
      ensures ok ==> remaining == Survivors(slots) && finished == Finished(slots)
      ensures ok ==> old(memoryInUse) == memoryInUse + EndingKind(slots, true)
      ensures ok ==> old(computeInUse) == computeInUse + EndingKind(slots, false)
    {
      hide WF;
      remaining, finished := [], [];
      assert slots[..0] == [];
      for k := 0 to |slots|
        invariant remaining == Survivors(slots[..k]) && finished == Finished(slots[..k])
        invariant old(memoryInUse) == memoryInUse + EndingKind(slots[..k], true)
        invariant old(computeInUse) == computeInUse + EndingKind(slots[..k], false)
      {
        assert slots[..k + 1][..k] == slots[..k];
        EndingMonotone(slots, k + 1, true);
        EndingMonotone(slots, k + 1, false);
        var slot;
        ok, slot := TickSlot(slots[k]);
        if !ok { return; }
        if slot.remaining == 0 {
          finished := finished + [slot.index];
        } else {
          remaining := remaining + [slot];
        }
      }
      assert slots[..|slots|] == slots;
      ok := true;
    }

    /** The tick; `ok` is false where the source throws. */
    method TickExecution() returns (ok: bool)
      requires WF(View())
      modifies this
      ensures ok <==> !Underflows(old(View()))
      ensures ok ==> View() == Tick(old(View()))
    {
      hide InRange, Survivors, Finished, EndingKind, MarkFinished;
      TickWF(slots, |ins|);
      var remaining, finished;
      ok, remaining, finished := TickSlots();
      if !ok { return; }
      slots := remaining;
      MarkAndRetire(finished);
    }

    /** The second loop of the tick: stamp what finished and queue it for retirement. */
    method MarkAndRetire(finished: seq<nat>)
      requires InRange(finished, |ins|)
      modifies this`ins, this`retireQ
      ensures ins == MarkFinished(old(ins), finished, cycle)
      ensures retireQ == old(retireQ) + finished
    {
      assert MarkFinished(ins, [], cycle) == ins;
      for k := 0 to |finished|
        invariant |ins| == |old(ins)|
        invariant ins == MarkFinished(old(ins), finished[..k], cycle)
        invariant retireQ == old(retireQ) + finished[..k]
      {
        var i := finished[k];
        ins := ins[i := ins[i].(completeCycle := cycle, stage := Stage.Retire)];
        retireQ := retireQ + [i];
        assert finished[..k + 1] == finished[..k] + [i];
      }
      assert finished[..|finished|] == finished;
    }

    /** The body of the dispatch scan: the front moves up, or goes to the back with a stall. */
    method DispatchFront()
      requires WF(View()) && dispatchQ != []
      modifies this
      ensures View() == DispatchStep(old(View()))
    {
      hide InRange, DepsSatisfied;
      InRangeFront(dispatchQ, |ins|);
      var i := dispatchQ[0];
      dispatchQ := dispatchQ[1..];
      var x := ins[i];
      if DepsSatisfied(x, retired) {
        if |readyQ| < cfg.readyCapacity {
          ins := ins[i := x.(stage := Stage.Ready)];
          readyQ := readyQ + [i];
        } else {
          stats := stats.(readyFull := stats.readyFull + 1);
          dispatchQ := dispatchQ + [i];
        }
      } else {
        stats := stats.(waitingDep := stats.waitingDep + 1);
        dispatchQ := dispatchQ + [i];
      }
    }

    method DispatchToReady()
      requires WF(View())
      modifies this
      ensures View() == DispatchScan(old(View()), |old(dispatchQ)|)
    {
      hide InRange, DepsSatisfied;
      var span := |dispatchQ|;
      for k := 0 to span
        invariant WF(View()) && span - k <= |dispatchQ|
        invariant DispatchScan(View(), span - k) == DispatchScan(old(View()), span)
      {
        DispatchFront();
      }
    }

    /** The body of the issue scan: the front issues, or goes to the back. */
    method IssueFront(issued: nat) returns (now: nat)
      requires WF(View()) && readyQ != []
      modifies this
      ensures View() == IssueStep(old(View()), issued)
      ensures now == if IssueBlocked(old(View()), issued) then issued else issued + 1
    {
      hide InRange;
      InRangeFront(readyQ, |ins|);
      var i := readyQ[0];
      readyQ := readyQ[1..];
      var x := ins[i];
      if issued >= cfg.issueWidth {
        readyQ := readyQ + [i];
        return issued;
      }
      var usesMemory := IsMemoryOp(x.op);
      if usesMemory {
        if memoryInUse >= cfg.memoryPorts {
          stats := stats.(noMemory := stats.noMemory + 1);
          readyQ := readyQ + [i];
          return issued;
        }
        memoryInUse := memoryInUse + 1;
      } else {
        if computeInUse >= cfg.computeUnits {
          stats := stats.(noCompute := stats.noCompute + 1);
          readyQ := readyQ + [i];
          return issued;
        }
        computeInUse := computeInUse + 1;
      }
      ins := ins[i := x.(stage := Stage.Execute, issueCycle := cycle)];
      slots := slots + [Slot(i, x.latency, usesMemory)];
      return issued + 1;
    }

    method IssueReady()
      requires WF(View())
      modifies this
      ensures View() == IssueScan(old(View()), |old(readyQ)|, 0)
    {
      hide InRange, IssueBlocked;
      var issued := 0;
      var span := |readyQ|;
      for k := 0 to span
        invariant WF(View()) && span - k <= |readyQ|
        invariant IssueScan(View(), span - k, issued) == IssueScan(old(View()), span, 0)
      {
        issued := IssueFront(issued);
      }
    }

    method DecodeToDispatch()
      requires WF(View())
      modifies this
      ensures View() == DecodeMoves(old(View()), cfg.dispatchWidth)
    {
      var dispatched := 0;
      while decodeQ != [] && dispatched < cfg.dispatchWidth
        invariant WF(View()) && dispatched <= cfg.dispatchWidth
        invariant DecodeMoves(View(), cfg.dispatchWidth - dispatched) == DecodeMoves(old(View()), cfg.dispatchWidth)
        decreases cfg.dispatchWidth - dispatched
      {
        if |dispatchQ| >= cfg.dispatchCapacity {
          stats := stats.(dispatchFull := stats.dispatchFull + 1);
          return;
        }
        var i := decodeQ[0];
        decodeQ := decodeQ[1..];
        ins := ins[i := ins[i].(stage := Stage.Dispatch)];
        dispatchQ := dispatchQ + [i];
        dispatched := dispatched + 1;
      }
    }

    method FetchToDecode()
      requires WF(View())
      modifies this
      ensures View() == FetchMoves(old(View()), cfg.decodeWidth)
    {
      var decoded := 0;
      while fetchQ != [] && decoded < cfg.decodeWidth
        invariant WF(View()) && decoded <= cfg.decodeWidth
        invariant FetchMoves(View(), cfg.decodeWidth - decoded) == FetchMoves(old(View()), cfg.decodeWidth)
        decreases cfg.decodeWidth - decoded
      {
        var i := fetchQ[0];
        fetchQ := fetchQ[1..];
        ins := ins[i := ins[i].(stage := Stage.Decode)];
        decodeQ := decodeQ + [i];
        decoded := decoded + 1;
      }
    }

    method FetchNext()
      requires WF(View())
      modifies this
      ensures View() == Enter(old(View()), cfg.fetchWidth)
    {
      var fetched := 0;
      while next < |ins| && fetched < cfg.fetchWidth
        invariant WF(View()) && fetched <= cfg.fetchWidth
        invariant Enter(View(), cfg.fetchWidth - fetched) == Enter(old(View()), cfg.fetchWidth)
        decreases cfg.fetchWidth - fetched
      {
        ins := ins[next := ins[next].(stage := Stage.Fetch, enqueueCycle := cycle)];
        fetchQ := fetchQ + [next];
        next := next + 1;
        fetched := fetched + 1;
      }
    }

    /** One iteration of the outer loop; `ok` is false where the source throws. */
    method RunCycle() returns (ok: bool)
      requires WF(View())
      modifies this
      ensures ok <==> !Underflows(RetireAll(old(View())))
      ensures ok ==> View() == Cycle(old(View()))
    {
      hide RetireAll, Underflows, Tick, DispatchScan, IssueScan, DecodeMoves, FetchMoves, Enter;
      Retire();
      ok := TickExecution();
      if !ok { return; }
      DispatchToReady();
      IssueReady();
      DecodeToDispatch();
      FetchToDecode();
      FetchNext();
      cycle := cycle + 1;
    }
  }

  datatype RunResult =
    | Completed(cfg: Config, stats: Stats, totalCycles: nat, ins: seq<Instruction>)
    | ResourceUnderflow

  /** run_workload.  The precondition is exactly the condition under which the source's loop
      ends (HaltsIff); the result is that of the finished run, never a throw. */
  method RunWorkload(w: seq<Instruction>, cfg: Config) returns (r: RunResult)
    requires Admissible(w, cfg)
    ensures r.Completed? && r.cfg == cfg && |r.ins| == |w| && r.stats.completed == |w|
    ensures forall i :: 0 <= i < |w| ==> Served(w[i], r.ins[i], r.totalCycles)
    ensures EndsAfterLast(r.ins, r.totalCycles) && r.totalCycles <= Bound(w)
    ensures r.stats.totalLatency == Sum(Spans(r.ins))
    ensures WithinMeans(r.ins, cfg)
    ensures DistinctIds(w) ==> DepsFirst(r.ins)
    ensures exists tr ::
      && Finishes(w, cfg, tr) && Last(tr).ins == r.ins && Last(tr).stats == r.stats
      && |tr| - 1 == r.totalCycles && StallLaws(tr, r.stats)
  {
    hide Admissible, Cycle, RetireAll, Underflows, Inv, WF, Boundary;
    var m := new Machine(w, cfg);
    ghost var tr := [m.View()];
    StartRun(w, cfg);
    while m.Busy()
      invariant IsRun(w, cfg, tr) && Last(tr) == m.View()
      decreases Measure(m.View())
    {
      NeverThrows(w, cfg, tr);
      AdmissibleStep(w, cfg, tr);
      RunInv(w, cfg, tr);
      ghost var s := m.View();
      var ok := m.RunCycle();
      if !ok { return ResourceUnderflow; }
      ExtendRun(w, cfg, tr, m.View());
      tr := tr + [m.View()];
      RunInv(w, cfg, tr);
      MeasureBounds(w, cfg, s);
    }
    r := Completed(m.cfg, m.stats, m.cycle, m.ins);
    RunReport(w, cfg, tr);
  }

  /** All that RunWorkload promises, for the run it made. */
  lemma RunReport(w: seq<Instruction>, cfg: Config, tr: seq<State>)
    requires Finishes(w, cfg, tr)
    ensures var s := Last(tr);
      && s.cfg == cfg && |s.ins| == |w| && s.stats.completed == |w|
      && (forall i :: 0 <= i < |w| ==> Served(w[i], s.ins[i], s.cycle))
      && EndsAfterLast(s.ins, s.cycle) && s.cycle <= Bound(w) && |tr| - 1 == s.cycle
      && s.stats.totalLatency == Sum(Spans(s.ins)) && WithinMeans(s.ins, cfg)
      && (DistinctIds(w) ==> DepsFirst(s.ins)) && StallLaws(tr, s.stats)
  {
    hide IsRun, HasWork, Served, EndsAfterLast, Sum, Spans, WithinMeans, DistinctIds, DepsFirst, StallLaws, Bound;
    FinishedTimes(w, cfg, tr);
    RunClock(w, cfg, tr);
    FinishedLatency(w, cfg, tr);
    FinishedWithinMeans(w, cfg, tr);
    if DistinctIds(w) { FinishedDeps(w, cfg, tr); }
    StallCounters(w, cfg, tr);
  }
}
