/** Exact accounting over whole runs: stalls against queue time, latency against occupancy
    (Little's law), and execution cycles against the ports and units there are. */
module PipelineAccounting {
  import opened Instructions
  import opened Arithmetic
  import opened PipelineModel
  import opened PipelineInvariant
  import opened PipelinePhases
  import opened PipelineScans
  import opened PipelineCycle
  import opened PipelineRuns
  import opened PipelineQueues
  import opened PipelineOrder

  // ---------- dispatch and issue stalls ----------

  /** Dispatch-queue occupancy summed over the starts of all cycles of a run. */
  function DispatchTime(tr: seq<State>): nat
    requires |tr| > 0
  {
    if |tr| == 1 then 0 else DispatchTime(tr[..|tr| - 1]) + |tr[|tr| - 2].dispatchQ|
  }

  /** Ready-queue occupancy summed over the ends of all cycles of a run. */
  function ReadyTime(tr: seq<State>): nat
    requires |tr| > 0
  {
    if |tr| == 1 then 0 else ReadyTime(tr[..|tr| - 1]) + |Last(tr).readyQ|
  }

  function DispatchStalls(s: State): nat {
    s.stats.readyFull + s.stats.waitingDep
  }

  function ResourceStalls(s: State): nat {
    s.stats.noMemory + s.stats.noCompute
  }

  lemma CycleStalls(s: State)
    requires Boundary(s)
    ensures WF(s) && !Underflows(RetireAll(s))
    ensures var r := Cycle(s);
      && DispatchStalls(r) + Dispatched(r) - |r.dispatchQ| == DispatchStalls(s) + Dispatched(s)
      && ResourceStalls(r) + WidthSkips(s) == ResourceStalls(s) + |r.readyQ|
  {
    hide Base, SlotClock, RetireAll, Underflows, BackEnd, FrontEnd, Range, MovedUp, HeldBack, Taken, Left, Satisfied,
      MemoryOps, Tick, WidthSkips;
    CycleParts(s);
    BackQueues(s);
    TickedQueues(s);
    FrontQueues(BackEnd(s));
  }

  /** Entries of ready_q passed with the issue width used up, summed over all cycles of a run. */
  ghost function WidthTime(tr: seq<State>): nat
    requires |tr| > 0
  {
    if |tr| == 1 then 0 else WidthTime(tr[..|tr| - 1]) + WidthSkips(tr[|tr| - 2])
  }

  lemma {:induction false} WidthTimeZeroIff(tr: seq<State>)
    requires |tr| > 0
    ensures WidthTime(tr) == 0 <==> forall k :: 0 <= k < |tr| - 1 ==> WidthSkips(tr[k]) == 0
    decreases |tr|
  {
    hide WidthSkips;
    if |tr| > 1 {
      var p := tr[..|tr| - 1];
      WidthTimeZeroIff(p);
      forall k | 0 <= k < |p| - 1 ensures p[k] == tr[k] {}
    }
  }

  /** More width than ports and units together never runs out. */
  lemma WideNeverSkips(s: State)
    requires Boundary(s) && s.cfg.issueWidth > s.cfg.computeUnits + s.cfg.memoryPorts
    ensures WidthSkips(s) == 0
  {
    hide Base, SlotClock, RetireAll, Underflows, Tick, DispatchScan, Skipped, MemoryOps;
    DispatchPhase(s);
    NothingSkipped(Scanned(s).readyQ, MemoryOps(Scanned(s).ins), BudgetOf(Scanned(s), 0));
  }

  lemma {:induction false} StallsAlongRun(w: seq<Instruction>, cfg: Config, tr: seq<State>)
    requires IsRun(w, cfg, tr)
    ensures DispatchStalls(Last(tr)) + Dispatched(Last(tr)) - |Last(tr).dispatchQ| == DispatchTime(tr)
    ensures ResourceStalls(Last(tr)) + WidthTime(tr) == ReadyTime(tr)
    decreases |tr|
  {
    hide Inv, Cycle, RetireAll, Underflows, HasWork, WF, Boundary, WidthSkips;
    if |tr| > 1 {
      RunPrefix(w, cfg, tr);
      var p := tr[..|tr| - 1];
      StallsAlongRun(w, cfg, p);
      RunInv(w, cfg, p);
      InvHas(w, cfg, Last(p));
      InvBoundary(w, cfg, Last(p));
      CycleStalls(Last(p));
    }
  }

  /** ReadyQueueFull and WaitingDependency together are the time spent in dispatch_q beyond
      the one scan each instruction needs. */
  lemma DispatchStallsAreWaiting(w: seq<Instruction>, cfg: Config, tr: seq<State>)
    requires Finishes(w, cfg, tr)
    ensures Last(tr).stats.readyFull + Last(tr).stats.waitingDep + |w| == DispatchTime(tr)
  {
    hide Inv;
    StallsAlongRun(w, cfg, tr);
    RunInv(w, cfg, tr);
    InvHas(w, cfg, Last(tr));
  }

  /** NoMemoryPort and NoComputeUnit count the time spent in ready_q between cycles, but for
      what the issue width held back: that time has no counter.  They are the whole waiting
      time if and only if no scan of the run passes an entry with its width used up, which
      is certain when there is more width than ports and units together. */
  lemma ResourceStallsAreWaiting(w: seq<Instruction>, cfg: Config, tr: seq<State>)
    requires IsRun(w, cfg, tr)
    ensures Last(tr).stats.noMemory + Last(tr).stats.noCompute + WidthTime(tr) == ReadyTime(tr)
    ensures Last(tr).stats.noMemory + Last(tr).stats.noCompute == ReadyTime(tr)
      <==> forall k :: 0 <= k < |tr| - 1 ==> WidthSkips(tr[k]) == 0
    ensures cfg.issueWidth > cfg.computeUnits + cfg.memoryPorts ==> WidthTime(tr) == 0
  {
    hide IsRun, WidthSkips, Inv, Boundary;
    RunNonEmpty(w, cfg, tr);
    StallsAlongRun(w, cfg, tr);
    WidthTimeZeroIff(tr);
    if cfg.issueWidth > cfg.computeUnits + cfg.memoryPorts {
      forall k | 0 <= k < |tr| - 1 ensures WidthSkips(tr[k]) == 0 {
        RunCut(w, cfg, tr, k + 1);
        RunInv(w, cfg, tr[..k + 1]);
        InvBoundary(w, cfg, tr[k]);
        InvHas(w, cfg, tr[k]);
        WideNeverSkips(tr[k]);
      }
    }
  }

  // ---------- Little's law ----------

  function Latency(x: Instruction, fetched: bool): int {
    if fetched && x.stage == Done then x.completeCycle - x.enqueueCycle else 0
  }

  function Latencies(s: State): (r: seq<int>)
    ensures |r| == |s.ins|
  {
    seq(|s.ins|, i requires 0 <= i < |s.ins| => Latency(s.ins[i], i < s.next))
  }

  lemma {:induction false} RetireLatency(s: State)
    requires WF(s) && Holds(s.retireQ, s.ins, s.next, Retire)
    ensures var r := RetireAll(s);
      r.stats.totalLatency - Sum(Latencies(r)) == s.stats.totalLatency - Sum(Latencies(s))
    decreases |s.retireQ|
  {
    hide Sum;
    if s.retireQ != [] {
      var i, r := s.retireQ[0], RetireStep(s);
      HoldsFront(s.retireQ, s.ins, s.next, Retire);
      HoldsLeave(s.retireQ, s.ins, s.next, Retire, r.ins[i]);
      RetireLatency(r);
      SumUpdate(Latencies(s), i, Latency(r.ins[i], true));
      assert Latencies(r) == Latencies(s)[i := Latency(r.ins[i], true)];
    }
  }

  lemma LatencyMoves(c: nat, retired: set<nat>, a: Instruction, af: bool, b: Instruction, bf: bool)
    requires Advance(c, retired, a, af, b, bf)
    ensures Latency(b, bf) == Latency(if af && a.stage == Retire then a.(stage := Done) else a, af)
  {
  }

  lemma CycleLatency(s: State)
    requires Boundary(s)
    ensures WF(s) && !Underflows(RetireAll(s))
    ensures var r := Cycle(s);
      r.stats.totalLatency - Sum(Latencies(r)) == s.stats.totalLatency - Sum(Latencies(s))
  {
    hide Sum, RetireAll, Underflows, FrontEnd, BackEnd, Advance, SlotClock, Holds, InRange, RetiredOK, Resources,
      Latency;
    BaseHas(s);
    RetireLatency(s);
    RetireAllEffect(s);
    CycleFrame(s);
    var m, r := RetireAll(s), Cycle(s);
    forall i | 0 <= i < |s.ins| ensures Latencies(r)[i] == Latencies(m)[i] {
      CycleAdvance(s, i);
      LatencyMoves(s.cycle, r.retired, s.ins[i], i < s.next, r.ins[i], i < r.next);
    }
    assert Latencies(r) == Latencies(m);
    CycleParts(s);
    BackQueues(s);
    TickedQueues(s);
    TotalFromRetire(s);
    FrontQueues(BackEnd(s));
  }

  lemma TotalFromRetire(s: State)
    requires Boundary(s)
    ensures WF(s) && !Underflows(RetireAll(s))
    ensures Ticked'(s).stats.totalLatency == RetireAll(s).stats.totalLatency
  {
    hide RetireAll, Underflows, Base, SlotClock;
    BaseHas(s);
    BackEndParts(s);
  }

  lemma {:induction false} LatencyAlongRun(w: seq<Instruction>, cfg: Config, tr: seq<State>)
    requires IsRun(w, cfg, tr)
    ensures Last(tr).stats.totalLatency == Sum(Latencies(Last(tr)))
    decreases |tr|
  {
    hide Inv, Cycle, RetireAll, Underflows, HasWork, WF, Boundary, Sum, Latencies;
    if |tr| > 1 {
      RunPrefix(w, cfg, tr);
      var p := tr[..|tr| - 1];
      LatencyAlongRun(w, cfg, p);
      RunInv(w, cfg, p);
      InvBoundary(w, cfg, Last(p));
      CycleLatency(Last(p));
    } else {
      InitLatency(w, cfg);
    }
  }

  lemma InitLatency(w: seq<Instruction>, cfg: Config)
    ensures Sum(Latencies(Init(w, cfg))) == 0
  {
    AllZero(Latencies(Init(w, cfg)));
  }

  /** Cycles an instruction has been in the pipeline before the boundary of cycle `c`. */
  function Residence(x: Instruction, fetched: bool, c: nat): int {
    if !fetched then 0
    else if x.stage in {Retire, Done} then x.completeCycle - x.enqueueCycle
    else c - x.enqueueCycle
  }

  function Residences(s: State): (r: seq<int>)
    ensures |r| == |s.ins|
  {
    seq(|s.ins|, i requires 0 <= i < |s.ins| => Residence(s.ins[i], i < s.next, s.cycle))
  }

  function Flying(x: Instruction, fetched: bool): int {
    if fetched && x.stage !in {Retire, Done} then 1 else 0
  }

  function Flyers(s: State): (r: seq<int>)
    ensures |r| == |s.ins|
  {
    seq(|s.ins|, i requires 0 <= i < |s.ins| => Flying(s.ins[i], i < s.next))
  }

  /** Fetch, decode, dispatch, ready and execution occupancy together. */
  function InFlight(s: State): nat {
    |s.fetchQ| + |s.decodeQ| + |s.dispatchQ| + |s.readyQ| + |s.slots|
  }

  ghost function StageSet(s: State, st: Stage): set<nat> {
    set i: nat | i < s.next && i < |s.ins| && s.ins[i].stage == st
  }

  lemma StageSize(s: State, q: seq<nat>, st: Stage)
    requires Holds(q, s.ins, s.next, st)
    ensures |StageSet(s, st)| == |q|
  {
    ElementsSize(q);
    assert Elements(q) == StageSet(s, st);
  }

  lemma DisjointFive(a: set<nat>, b: set<nat>, c: set<nat>, d: set<nat>, e: set<nat>)
    requires a !! b !! c !! d !! e
    ensures |a + b + c + d + e| == |a| + |b| + |c| + |d| + |e|
  {
  }

  lemma FlyersByStage(s: State)
    ensures Ones(Flyers(s)) ==
      StageSet(s, Fetch) + StageSet(s, Decode) + StageSet(s, Dispatch) + StageSet(s, Ready) + StageSet(s, Execute)
  {
  }

  lemma StagesDisjoint(s: State)
    ensures StageSet(s, Fetch) !! StageSet(s, Decode) !! StageSet(s, Dispatch)
      !! StageSet(s, Ready) !! StageSet(s, Execute)
  {
  }

  lemma FlyersAreQueued(s: State)
    requires Placed(s)
    ensures Sum(Flyers(s)) == InFlight(s)
  {
    hide Holds, InRange, Sum, Ones, StageSet, Flyers, WF;
    FlyersByStage(s);
    StagesDisjoint(s);
    DisjointFive(StageSet(s, Fetch), StageSet(s, Decode), StageSet(s, Dispatch), StageSet(s, Ready),
      StageSet(s, Execute));
    FlyersAreBits(s);
    SumOfOnes(Flyers(s));
    StageSize(s, s.fetchQ, Fetch);
    StageSize(s, s.decodeQ, Decode);
    StageSize(s, s.dispatchQ, Dispatch);
    StageSize(s, s.readyQ, Ready);
    StageSize(s, SlotIndices(s.slots), Execute);
  }

  lemma FlyersAreBits(s: State)
    ensures forall i :: 0 <= i < |Flyers(s)| ==> Flyers(s)[i] == 0 || Flyers(s)[i] == 1
  {
  }

  lemma ResidenceStep(c: nat, retired: set<nat>, a: Instruction, af: bool, b: Instruction, bf: bool)
    requires Advance(c, retired, a, af, b, bf) && (af ==> TimedAt(a, c))
    ensures Residence(b, bf, c + 1) == Residence(a, af, c) + Flying(b, bf)
  {
  }

  lemma CycleResidence(s: State)
    requires Boundary(s) && Timed(s)
    ensures WF(s) && !Underflows(RetireAll(s))
    ensures Sum(Residences(Cycle(s))) == Sum(Residences(s)) + InFlight(Cycle(s))
  {
    hide Sum, RetireAll, Underflows, Cycle, Advance, SlotClock, Base, TimedAt, Residence, Flying, InFlight;
    BaseHas(s);
    CycleFrame(s);
    var r := Cycle(s);
    forall i | 0 <= i < |s.ins| ensures Residences(r)[i] == Residences(s)[i] + Flyers(r)[i] {
      CycleAdvance(s, i);
      ResidenceStep(s.cycle, r.retired, s.ins[i], i < s.next, r.ins[i], i < r.next);
    }
    SumAdd(Residences(s), Flyers(r), Residences(r));
    CycleKeeps(s);
    BaseHas(r);
    FlyersAreQueued(r);
  }

  /** Occupancy summed over the ends of all cycles of a run. */
  function OccupancySum(tr: seq<State>): nat
    requires |tr| > 0
  {
    if |tr| == 1 then 0 else OccupancySum(tr[..|tr| - 1]) + InFlight(Last(tr))
  }

  lemma {:induction false} ResidenceAlongRun(w: seq<Instruction>, cfg: Config, tr: seq<State>)
    requires IsRun(w, cfg, tr)
    ensures Sum(Residences(Last(tr))) == OccupancySum(tr)
    decreases |tr|
  {
    hide Inv, Cycle, RetireAll, Underflows, HasWork, WF, Boundary, Sum, Residences, InFlight, Timed;
    if |tr| > 1 {
      RunPrefix(w, cfg, tr);
      var p := tr[..|tr| - 1];
      ResidenceAlongRun(w, cfg, p);
      RunInv(w, cfg, p);
      InvBoundary(w, cfg, Last(p));
      CycleResidence(Last(p));
    } else {
      InitResidence(w, cfg);
    }
  }

  lemma InitResidence(w: seq<Instruction>, cfg: Config)
    ensures Sum(Residences(Init(w, cfg))) == 0
  {
    AllZero(Residences(Init(w, cfg)));
  }

  /** Little's law: total_latency is the occupancy summed over all cycles. */
  lemma LittlesLaw(w: seq<Instruction>, cfg: Config, tr: seq<State>)
    requires Finishes(w, cfg, tr)
    ensures Last(tr).stats.totalLatency == OccupancySum(tr)
  {
    hide Inv, HasWork, Sum;
    var s := Last(tr);
    LatencyAlongRun(w, cfg, tr);
    ResidenceAlongRun(w, cfg, tr);
    RunInv(w, cfg, tr);
    InvHas(w, cfg, s);
    forall i | 0 <= i < |s.ins| ensures Residences(s)[i] == Latencies(s)[i] {
      FinishedInstruction(w, cfg, tr, i);
    }
    assert Residences(s) == Latencies(s);
  }

  // ---------- resource area ----------

  predicate Uses(x: Instruction, memory: bool) {
    IsMemoryOp(x.op) == memory
  }

  /** Execution cycles one instruction has had on this kind of resource before cycle `c`. */
  function Work(x: Instruction, fetched: bool, c: nat, memory: bool): int {
    if !fetched || !Uses(x, memory) then 0
    else if x.stage == Execute then c - x.issueCycle
    else if x.stage in {Retire, Done} then ExecCycles(x)
    else 0
  }

  function Works(s: State, memory: bool): (r: seq<int>)
    ensures |r| == |s.ins|
  {
    seq(|s.ins|, i requires 0 <= i < |s.ins| => Work(s.ins[i], i < s.next, s.cycle, memory))
  }

  function Running(x: Instruction, fetched: bool, memory: bool): int {
    if fetched && x.stage == Execute && Uses(x, memory) then 1 else 0
  }

  function Runners(s: State, memory: bool): (r: seq<int>)
    ensures |r| == |s.ins|
  {
    seq(|s.ins|, i requires 0 <= i < |s.ins| => Running(s.ins[i], i < s.next, memory))
  }

  lemma WorkStep(c: nat, retired: set<nat>, a: Instruction, af: bool, b: Instruction, bf: bool, memory: bool)
    requires Advance(c, retired, a, af, b, bf) && (af ==> TimedAt(a, c))
    ensures Work(b, bf, c + 1, memory) == Work(a, af, c, memory) + Running(b, bf, memory)
  {
  }

  /** The indices of the slots of one kind. */
  ghost function KindIndices(slots: seq<Slot>, memory: bool): set<nat> {
    if slots == [] then {} else
    KindIndices(slots[..|slots| - 1], memory)
    + (if slots[|slots| - 1].usesMemory == memory then {slots[|slots| - 1].index} else {})
  }

  lemma {:induction false} KindHas(slots: seq<Slot>, memory: bool, k: nat)
    requires k < |slots| && slots[k].usesMemory == memory
    ensures slots[k].index in KindIndices(slots, memory)
  {
    if k < |slots| - 1 {
      KindHas(slots[..|slots| - 1], memory, k);
    }
  }

  lemma {:induction false} KindLacks(slots: seq<Slot>, memory: bool, i: nat)
    requires forall k :: 0 <= k < |slots| ==> slots[k].index != i
    ensures i !in KindIndices(slots, memory)
  {
    if slots != [] {
      KindLacks(slots[..|slots| - 1], memory, i);
    }
  }

  lemma {:induction false} KindSize(slots: seq<Slot>, memory: bool)
    requires Unique(SlotIndices(slots))
    ensures |KindIndices(slots, memory)| == CountKind(slots, memory)
  {
    if slots != [] {
      var last := |slots| - 1;
      var init, x := slots[..last], slots[last];
      assert SlotIndices(init) == SlotIndices(slots)[..last];
      KindSize(init, memory);
      forall k | 0 <= k < last ensures init[k].index != x.index {
        assert SlotIndices(slots)[k] == init[k].index && SlotIndices(slots)[last] == x.index;
      }
      KindLacks(init, memory, x.index);
    }
  }

  ghost function RunnerSet(s: State, memory: bool): set<nat> {
    set i: nat | i < s.next && i < |s.ins| && s.ins[i].stage == Execute && Uses(s.ins[i], memory)
  }

  function Limit(cfg: Config, memory: bool): nat {
    if memory then cfg.memoryPorts else cfg.computeUnits
  }

  lemma RunnersFit(s: State, memory: bool)
    requires Placed(s) && Resources(s)
    ensures |RunnerSet(s, memory)| <= Limit(s.cfg, memory)
  {
    hide InRange;
    KindSize(s.slots, memory);
    forall i | i in RunnerSet(s, memory) ensures i in KindIndices(s.slots, memory) {
      assert i in SlotIndices(s.slots);
      var k :| 0 <= k < |s.slots| && s.slots[k].index == i;
      KindHas(s.slots, memory, k);
    }
    SubsetSize(RunnerSet(s, memory), KindIndices(s.slots, memory));
  }

  lemma RunnersSum(s: State, memory: bool)
    requires s.next <= |s.ins|
    ensures Sum(Runners(s, memory)) == |RunnerSet(s, memory)|
  {
    SumOfOnes(Runners(s, memory));
    assert Ones(Runners(s, memory)) == RunnerSet(s, memory);
  }

  lemma CycleWork(s: State, memory: bool)
    requires Boundary(s) && Timed(s)
    ensures WF(s) && !Underflows(RetireAll(s))
    ensures Sum(Works(Cycle(s), memory)) <= Sum(Works(s, memory)) + Limit(s.cfg, memory)
  {
    hide Sum, RetireAll, Underflows, Cycle, Advance, SlotClock, Base, TimedAt, Work, Running, RunnerSet;
    BaseHas(s);
    CycleFrame(s);
    var r := Cycle(s);
    forall i | 0 <= i < |s.ins| ensures Works(r, memory)[i] == Works(s, memory)[i] + Runners(r, memory)[i] {
      CycleAdvance(s, i);
      WorkStep(s.cycle, r.retired, s.ins[i], i < s.next, r.ins[i], i < r.next, memory);
    }
    SumAdd(Works(s, memory), Runners(r, memory), Works(r, memory));
    CycleKeeps(s);
    BaseHas(r);
    RunnersSum(r, memory);
    RunnersFit(r, memory);
  }

  lemma {:induction false} WorkAlongRun(w: seq<Instruction>, cfg: Config, tr: seq<State>, memory: bool)
    requires IsRun(w, cfg, tr)
    ensures Sum(Works(Last(tr), memory)) <= Limit(cfg, memory) * (|tr| - 1)
    decreases |tr|
  {
    hide Inv, Cycle, RetireAll, Underflows, HasWork, WF, Boundary, Sum, Works, Limit, Timed;
    if |tr| > 1 {
      RunPrefix(w, cfg, tr);
      var p := tr[..|tr| - 1];
      WorkAlongRun(w, cfg, p, memory);
      RunInv(w, cfg, p);
      InvHas(w, cfg, Last(p));
      InvBoundary(w, cfg, Last(p));
      CycleWork(Last(p), memory);
      Distribute(Limit(cfg, memory), |p| - 1, 1);
    } else {
      InitWork(w, cfg, memory);
    }
  }

  lemma InitWork(w: seq<Instruction>, cfg: Config, memory: bool)
    ensures Sum(Works(Init(w, cfg), memory)) == 0
  {
    AllZero(Works(Init(w, cfg), memory));
  }

  /** Execution cycles the program asks of one kind of resource. */
  function Demand(w: seq<Instruction>, memory: bool): int {
    Sum(seq(|w|, i requires 0 <= i < |w| => if Uses(w[i], memory) then ExecCycles(w[i]) else 0))
  }

  /** Resource-area bound: ports (or units) times cycles covers all execution cycles asked. */
  lemma ResourceAreaBound(w: seq<Instruction>, cfg: Config, tr: seq<State>, memory: bool)
    requires Finishes(w, cfg, tr)
    ensures Limit(cfg, memory) * Last(tr).cycle >= Demand(w, memory)
  {
    hide Inv, HasWork, Sum;
    var s := Last(tr);
    WorkAlongRun(w, cfg, tr, memory);
    RunClock(w, cfg, tr);
    RunInv(w, cfg, tr);
    InvHas(w, cfg, s);
    var demand := seq(|w|, i requires 0 <= i < |w| => if Uses(w[i], memory) then ExecCycles(w[i]) else 0);
    forall i | 0 <= i < |w| ensures Works(s, memory)[i] == demand[i] {
      FinishedInstruction(w, cfg, tr, i);
    }
    assert Works(s, memory) == demand;
  }

  // ---------- intervals ----------

  /** Instructions of one kind whose execution interval covers cycle `t`, as far as known. */
  ghost function ActiveAt(s: State, t: nat, memory: bool): set<nat> {
    set i: nat | i < s.next && i < |s.ins| && ActiveNow(s.ins[i], t, memory)
  }

  predicate ActiveNow(x: Instruction, t: nat, memory: bool) {
    Uses(x, memory) && x.stage in {Execute, Retire, Done} && x.issueCycle <= t
      && (x.stage == Execute || t < x.completeCycle)
  }

  lemma ActiveKept(c: nat, retired: set<nat>, a: Instruction, af: bool, b: Instruction, bf: bool, t: nat, memory: bool)
    requires Advance(c, retired, a, af, b, bf) && (af ==> TimedAt(a, c))
    ensures t < c ==> ((bf && ActiveNow(b, t, memory)) <==> (af && ActiveNow(a, t, memory)))
    ensures (bf && ActiveNow(b, c, memory)) <==> (bf && b.stage == Execute && Uses(b, memory))
  {
  }

  lemma ActiveIndex(s: State, t: nat, memory: bool, i: nat)
    requires Boundary(s) && Timed(s) && i < |s.ins|
    ensures WF(s) && !Underflows(RetireAll(s))
    ensures t < s.cycle ==> (i in ActiveAt(Cycle(s), t, memory) <==> i in ActiveAt(s, t, memory))
    ensures i in ActiveAt(Cycle(s), s.cycle, memory) <==> i in RunnerSet(Cycle(s), memory)
  {
    hide RetireAll, Underflows, Cycle, Advance, SlotClock, Base, TimedAt, ActiveNow, Uses;
    BaseHas(s);
    CycleFrame(s);
    var r := Cycle(s);
    CycleAdvance(s, i);
    ActiveKept(s.cycle, r.retired, s.ins[i], i < s.next, r.ins[i], i < r.next, t, memory);
  }

  lemma CycleActive(s: State, t: nat, memory: bool)
    requires Boundary(s) && Timed(s)
    ensures WF(s) && !Underflows(RetireAll(s))
    ensures t < s.cycle ==> ActiveAt(Cycle(s), t, memory) == ActiveAt(s, t, memory)
    ensures |ActiveAt(Cycle(s), s.cycle, memory)| <= Limit(s.cfg, memory)
  {
    hide RetireAll, Underflows, Cycle, Boundary, Timed, ActiveNow, Limit, Uses;
    BoundaryHas(s);
    CycleFrame(s);
    var r := Cycle(s);
    forall i: nat | i < |s.ins|
      ensures t < s.cycle ==> (i in ActiveAt(r, t, memory) <==> i in ActiveAt(s, t, memory))
      ensures i in ActiveAt(r, s.cycle, memory) <==> i in RunnerSet(r, memory)
    {
      ActiveIndex(s, t, memory, i);
    }
    CycleKeeps(s);
    BoundaryResources(r);
    RunnersFit(r, memory);
    assert ActiveAt(r, s.cycle, memory) == RunnerSet(r, memory);
  }

  lemma BoundaryResources(s: State)
    requires Boundary(s)
    ensures Placed(s) && Resources(s)
  {
  }

  lemma {:induction false} ActiveAlongRun(w: seq<Instruction>, cfg: Config, tr: seq<State>, t: nat, memory: bool)
    requires IsRun(w, cfg, tr) && t < Last(tr).cycle
    ensures |ActiveAt(Last(tr), t, memory)| <= Limit(cfg, memory)
    decreases |tr|
  {
    hide Inv, Cycle, RetireAll, Underflows, HasWork, WF, Boundary, Limit, Timed, ActiveAt;
    if |tr| > 1 {
      RunPrefix(w, cfg, tr);
      var p := tr[..|tr| - 1];
      var s := Last(p);
      RunInv(w, cfg, p);
      InvHas(w, cfg, s);
      InvBoundary(w, cfg, s);
      CycleFrame(s);
      CycleActive(s, t, memory);
      if t < s.cycle {
        ActiveAlongRun(w, cfg, p, t, memory);
      }
    }
  }

  /** In a finished run no cycle lies in more [issue, complete) intervals of memory
      instructions than there are ports, nor of compute instructions than units. */
  lemma NoOversubscription(w: seq<Instruction>, cfg: Config, tr: seq<State>, t: nat, memory: bool)
    requires Finishes(w, cfg, tr)
    ensures |Last(tr).ins| == |w|
    ensures var busy := set i: nat | i < |w| && Uses(w[i], memory)
      && Last(tr).ins[i].issueCycle <= t < Last(tr).ins[i].completeCycle;
      |busy| <= Limit(cfg, memory)
  {
    hide Inv, HasWork, Limit;
    var s := Last(tr);
    RunInv(w, cfg, tr);
    InvHas(w, cfg, s);
    var busy := set i: nat | i < |w| && Uses(w[i], memory) && s.ins[i].issueCycle <= t < s.ins[i].completeCycle;
    forall i: nat | i < |w| ensures i in busy <==> i in ActiveAt(s, t, memory)
      ensures i in busy ==> t < s.cycle
    {
      FinishedInstruction(w, cfg, tr, i);
    }
    if i :| i in busy {
      ActiveAlongRun(w, cfg, tr, t, memory);
      assert busy == ActiveAt(s, t, memory);
    }
  }
}
