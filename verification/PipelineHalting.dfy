/** Exactly when a run ends, and how long it can take. */
module PipelineHalting {
  import opened Instructions
  import opened Arithmetic
  import opened PipelineModel
  import opened PipelineInvariant
  import opened PipelinePhases
  import opened PipelineScans
  import opened PipelineCycle
  import opened PipelineRuns
  import opened PipelineQueues
  import opened PipelineProgress
  import opened PipelineOrder
  import opened PipelineWindow

  // ---------- no stage is passed without the means to pass it ----------

  /** The machine has what an instruction needs to be at this stage. */
  ghost predicate Gated(cfg: Config, x: Instruction) {
    && cfg.fetchWidth > 0
    && (x.stage != Fetch ==> cfg.decodeWidth > 0)
    && (x.stage !in {Fetch, Decode} ==> cfg.dispatchWidth > 0 && cfg.dispatchCapacity > 0)
    && (x.stage !in {Fetch, Decode, Dispatch} ==> cfg.readyCapacity > 0)
    && (x.stage in {Execute, Retire, Done} ==>
         cfg.issueWidth > 0 && if IsMemoryOp(x.op) then cfg.memoryPorts > 0 else cfg.computeUnits > 0)
  }

  ghost predicate AllGated(s: State) {
    s.next <= |s.ins| && forall i :: 0 <= i < s.next ==> Gated(s.cfg, s.ins[i])
  }

  lemma {:induction false} TakenAllowed(q: seq<nat>, mem: set<nat>, b: Budget, i: nat)
    requires i in Taken(q, mem, b)
    ensures b.Allows(i in mem)
    decreases q
  {
    var kind := q[0] in mem;
    if b.Allows(kind) {
      if i != q[0] {
        TakenAllowed(q[1..], mem, b.Spend(kind), i);
      }
    } else {
      TakenAllowed(q[1..], mem, b, i);
    }
  }

  lemma TickGated(s: State)
    requires Boundary(s) && AllGated(s)
    ensures WF(s) && !Underflows(RetireAll(s)) && AllGated(Ticked'(s))
  {
    hide InRange, SlotClock, Resources, RetiredOK, RetireAll, Underflows, Base, Tick, Holds, DepsSatisfied, Gated;
    TickedQueues(s);
    forall i | 0 <= i < s.next ensures Gated(s.cfg, Ticked'(s).ins[i]) {
      RetireTickAt(s, i);
      GatedLater(s.cfg, s.cycle, Ticked'(s).retired, s.ins[i], Ticked'(s).ins[i]);
    }
  }

  lemma GatedLater(cfg: Config, c: nat, retired: set<nat>, a: Instruction, b: Instruction)
    requires BackMove(c, retired, a, b) && Gated(cfg, a) && (a.stage in {Ready, Dispatch} ==> b == a)
    ensures Gated(cfg, b)
  {
  }

  lemma ScansGated(d: State)
    requires MidCycle(d) && AllGated(d)
    ensures WF(d) && WF(DispatchScan(d, |d.dispatchQ|))
    ensures var e := DispatchScan(d, |d.dispatchQ|);
      AllGated(e) && AllGated(IssueScan(e, |e.readyQ|, 0))
  {
    hide InRange, SlotClock, Resources, RetiredOK, Base, Holds, DispatchScan, IssueScan, MovedUp, Taken, Satisfied;
    BaseHas(d);
    var n := |d.dispatchQ|;
    var e := DispatchScan(d, n);
    assert d.dispatchQ[..n] == d.dispatchQ;
    DispatchScanIsFilter(d, n);
    DispatchScanMoves(d, n);
    MovedUpMeaning(d.dispatchQ, Satisfied(d.ins, d.retired), ReadyRoom(d));
    forall i | 0 <= i < e.next ensures Gated(e.cfg, e.ins[i]) {
      HoldsMember(d.dispatchQ, d.ins, d.next, Dispatch, i);
    }
    DispatchScanKeeps(d, n);
    BaseHas(e);
    assert e.readyQ[..|e.readyQ|] == e.readyQ;
    IssueScanIsFilter(e, |e.readyQ|, 0);
    IssueScanMoves(e, |e.readyQ|, 0);
    TakenWithinBudget(e.readyQ, MemoryOps(e.ins), BudgetOf(e, 0));
    var b := IssueScan(e, |e.readyQ|, 0);
    forall i | 0 <= i < b.next ensures Gated(b.cfg, b.ins[i]) {
      HoldsMember(e.readyQ, e.ins, e.next, Ready, i);
      if i in Taken(e.readyQ, MemoryOps(e.ins), BudgetOf(e, 0)) {
        TakenAllowed(e.readyQ, MemoryOps(e.ins), BudgetOf(e, 0), i);
      }
    }
  }

  lemma FrontGated(b: State)
    requires MidCycle(b) && AllGated(b)
    ensures AllGated(FrontEnd(b))
  {
    hide InRange, SlotClock, Resources, RetiredOK, Base, Holds, DecodeMoves, FetchMoves, Enter;
    BaseHas(b);
    FrontEndParts(b);
    var d := DecodeMoves(b, b.cfg.dispatchWidth);
    var f := FetchMoves(d, b.cfg.decodeWidth);
    BaseHas(d);
    BaseHas(f);
    DecodeMovesClosed(b, b.cfg.dispatchWidth);
    DecodeMovesIns(b, b.cfg.dispatchWidth);
    forall i | 0 <= i < d.next ensures Gated(d.cfg, d.ins[i]) {
      HoldsMember(b.decodeQ, b.ins, b.next, Decode, i);
    }
    FetchMovesClosed(d, b.cfg.decodeWidth);
    FetchMovesIns(d, b.cfg.decodeWidth);
    forall i | 0 <= i < f.next ensures Gated(f.cfg, f.ins[i]) {
      HoldsMember(d.fetchQ, d.ins, d.next, Fetch, i);
    }
    EnterClosed(f, b.cfg.fetchWidth);
    EnterIns(f, b.cfg.fetchWidth);
  }

  lemma CycleGated(s: State)
    requires Boundary(s) && AllGated(s)
    ensures WF(s) && !Underflows(RetireAll(s)) && AllGated(Cycle(s))
  {
    hide InRange, SlotClock, Resources, RetiredOK, RetireAll, Underflows, Base, Holds, DispatchScan, IssueScan,
      FrontEnd, Tick;
    TickedQueues(s);
    TickGated(s);
    ScansGated(Ticked'(s));
    FrontGated(BackEnd(s));
    CycleParts(s);
  }

  lemma {:induction false} RunGated(w: seq<Instruction>, cfg: Config, tr: seq<State>)
    requires IsRun(w, cfg, tr)
    ensures AllGated(Last(tr))
    decreases |tr|
  {
    hide Inv, Cycle, RetireAll, Underflows, HasWork, WF, Boundary, Gated;
    if |tr| > 1 {
      RunPrefix(w, cfg, tr);
      var p := tr[..|tr| - 1];
      RunGated(w, cfg, p);
      RunInv(w, cfg, p);
      InvBoundary(w, cfg, Last(p));
      CycleGated(Last(p));
    }
  }

  // ---------- the pipeline is a run of the window ----------

  predicate PastDispatch(x: Instruction) {
    x.stage in {Ready, Execute, Retire, Done}
  }

  ghost function Gone(s: State): set<nat> {
    set i: nat | i < s.next && i < |s.ins| && PastDispatch(s.ins[i])
  }

  ghost function WindowOf(s: State): Window {
    Window(if Dispatched(s) >= 0 then Dispatched(s) else 0, Gone(s))
  }

  /** A fetched instruction is in the front end, in the dispatch queue, or gone. */
  lemma WindowAt(s: State, i: nat)
    requires Placed(s) && InOrder(s) && i < |s.ins|
    ensures i in Gone(s) ==> i < Dispatched(s)
    ensures i in s.dispatchQ <==> i < s.next && s.ins[i].stage == Dispatch
    ensures i < Dispatched(s) ==> i in Gone(s) || i in s.dispatchQ
  {
    hide InRange, Range, Increasing, Holds;
    HoldsMember(s.dispatchQ, s.ins, s.next, Dispatch, i);
    if i < s.next { InFrontIff(s, i); }
  }

  /** The dispatched instructions are those gone and those still in the dispatch queue. */
  lemma WindowCovers(s: State)
    requires Placed(s) && InOrder(s)
    ensures Gone(s) !! Elements(s.dispatchQ)
    ensures UpTo(Dispatched(s)) == Gone(s) + Elements(s.dispatchQ)
  {
    hide InRange, Range, Increasing, Holds, PastDispatch;
    DispatchedFirst(s);
    forall i: nat
      ensures i in Gone(s) ==> i < Dispatched(s) && i !in s.dispatchQ
      ensures i < Dispatched(s) ==> i in Gone(s) || i in s.dispatchQ
    {
      if i < |s.ins| {
        WindowAt(s, i);
        if i in s.dispatchQ { NotBoth(s, i); }
      }
    }
  }

  lemma NotBoth(s: State, i: nat)
    requires Placed(s) && i in s.dispatchQ
    ensures i !in Gone(s)
  {
    HoldsMember(s.dispatchQ, s.ins, s.next, Dispatch, i);
  }

  lemma DispatchUnique(s: State)
    requires Placed(s)
    ensures |Elements(s.dispatchQ)| == |s.dispatchQ|
  {
    ElementsSize(s.dispatchQ);
  }

  lemma WindowSize(w: seq<Instruction>, s: State)
    requires Placed(s) && InOrder(s) && |w| == |s.ins|
    ensures Proper(w, WindowOf(s)) && |Gone(s)| == Dispatched(s) - |s.dispatchQ|
    ensures forall i: nat :: i < Dispatched(s) ==> i in Gone(s) || i in s.dispatchQ
  {
    hide InRange, Range, Increasing, Holds, Gone;
    WindowCovers(s);
    DispatchUnique(s);
    UpToSize(Dispatched(s));
  }

  lemma {:induction false} EnterMany(w: seq<Instruction>, cap: nat, v: Window, top: Window, m: nat)
    requires Proper(w, v) && Jammed(w, cap, top) && Within(v, top)
    requires v.p + m <= |w| && (m > 0 ==> v.p + m - |v.gone| <= cap)
    ensures v.p + m <= top.p
  {
    hide Leavers;
    if m > 0 {
      EnterMany(w, cap, v, top, m - 1);
      JammedBoundsEntry(w, cap, Window(v.p + m - 1, v.gone), top);
    }
  }

  /** Whoever gets past Dispatch in this cycle only needed what had left before it. */
  lemma NewlyGone(w: seq<Instruction>, s: State, r: State, i: nat)
    requires SameProgram(w, s) && SameProgram(w, r) && RetiredOK(r) && s.next <= r.next <= |w|
    requires forall j :: 0 <= j < r.next && r.ins[j].stage == Done ==> j in Gone(s)
    requires i in Gone(r) && i !in Gone(s) && i < |w|
    requires Advance(s.cycle, r.retired, s.ins[i], i < s.next, r.ins[i], i < r.next)
    ensures i < s.next && s.ins[i].stage == Dispatch && DepsSatisfied(w[i], Ids(w, Gone(s)))
  {
    hide Gone;
    assert SameOp(s.ins[i], w[i]);
    NewlyGoneStage(s, r, i);
    forall k | 0 <= k < |w[i].deps| ensures w[i].deps[k] in Ids(w, Gone(s)) {
      var d := s.ins[i].deps[k];
      assert d in r.retired;
      var j :| 0 <= j < r.next && r.ins[j].stage == Done && r.ins[j].id == d;
      assert SameOp(r.ins[j], w[j]) && j in Gone(s);
    }
  }

  lemma NewlyGoneStage(s: State, r: State, i: nat)
    requires i in Gone(r) && i !in Gone(s) && i < |s.ins| && s.next <= r.next
    requires i < |r.ins| && Advance(s.cycle, r.retired, s.ins[i], i < s.next, r.ins[i], i < r.next)
    ensures i < s.next && s.ins[i].stage == Dispatch && DepsSatisfied(s.ins[i], r.retired)
  {
  }

  lemma CycleGone(w: seq<Instruction>, cfg: Config, s: State, top: Window)
    requires Inv(w, cfg, s) && InOrder(s)
    requires Jammed(w, cfg.dispatchCapacity, top) && Within(WindowOf(s), top)
    ensures WF(s) && !Underflows(RetireAll(s)) && Gone(Cycle(s)) <= top.gone
    ensures forall i :: i in Gone(Cycle(s)) ==> i < Dispatched(s)
  {
    hide Base, SlotClock, RetireAll, Underflows, Cycle, Leavers, InRange, Increasing, Range, Advance, TimedAt,
      DepsMet, RetiredOK, Ids, DepsSatisfied;
    InvHas(w, cfg, s);
    InvBoundary(w, cfg, s);
    BaseHas(s);
    CycleFrame(s);
    CycleInv(w, cfg, s);
    var r := Cycle(s);
    InvHas(w, cfg, r);
    InvBoundary(w, cfg, r);
    BoundaryHas(r);
    WindowSize(w, s);
    forall j | 0 <= j < r.next && r.ins[j].stage == Done ensures j in Gone(s) {
      CycleAdvance(s, j);
      DoneFrom(s.cycle, r.retired, s.ins[j], j < s.next, r.ins[j]);
    }
    forall i | i in Gone(r) ensures i in top.gone && i < Dispatched(s) {
      CycleAdvance(s, i);
      if i !in Gone(s) {
        NewlyGone(w, s, r, i);
        InFrontIff(s, i);
        JammedBoundsLeavers(w, cfg.dispatchCapacity, WindowOf(s), top, i);
      }
    }
  }

  lemma DispatchedGrows(s: State)
    requires Boundary(s)
    ensures WF(s) && !Underflows(RetireAll(s)) && Dispatched(s) <= Dispatched(Cycle(s))
  {
    hide Base, SlotClock, RetireAll, Underflows, BackEnd, FrontEnd, Range;
    CycleParts(s);
    BackQueues(s);
    TickedQueues(s);
    FrontQueues(BackEnd(s));
  }

  lemma CycleWithin(w: seq<Instruction>, cfg: Config, s: State, top: Window)
    requires Inv(w, cfg, s) && InOrder(s)
    requires Jammed(w, cfg.dispatchCapacity, top) && Within(WindowOf(s), top)
    ensures WF(s) && !Underflows(RetireAll(s)) && Within(WindowOf(Cycle(s)), top)
  {
    hide Base, SlotClock, RetireAll, Underflows, Cycle, Leavers, Increasing, Range, Gone, Inv, InRange, Jammed,
      Holds, Resources, RetiredOK;
    CycleGone(w, cfg, s, top);
    InvHas(w, cfg, s);
    InvBoundary(w, cfg, s);
    CycleFrame(s);
    CycleInOrder(s);
    CycleInv(w, cfg, s);
    DispatchedGrows(s);
    var r := Cycle(s);
    InvBoundary(w, cfg, r);
    BaseHas(r);
    WindowSize(w, r);
    EnterMany(w, cfg.dispatchCapacity, Window(Dispatched(s), Gone(r)), top, Dispatched(r) - Dispatched(s));
  }

  lemma {:induction false} RunWithin(w: seq<Instruction>, cfg: Config, tr: seq<State>, top: Window)
    requires IsRun(w, cfg, tr) && Jammed(w, cfg.dispatchCapacity, top)
    ensures Within(WindowOf(Last(tr)), top)
    decreases |tr|
  {
    hide Inv, Cycle, RetireAll, Underflows, HasWork, WF, Boundary, InOrder, WindowOf, Jammed, Within;
    if |tr| > 1 {
      RunPrefix(w, cfg, tr);
      var p := tr[..|tr| - 1];
      RunWithin(w, cfg, p, top);
      RunInv(w, cfg, p);
      RunInOrder(w, cfg, p);
      CycleWithin(w, cfg, Last(p), top);
    } else {
      InitWithin(w, cfg, top);
    }
  }

  lemma InitWithin(w: seq<Instruction>, cfg: Config, top: Window)
    ensures Within(WindowOf(Init(w, cfg)), top)
  {
  }

  /** A stuck pipeline is a jammed window with somebody left inside. */
  lemma StuckJams(w: seq<Instruction>, cfg: Config, s: State)
    requires Inv(w, cfg, s) && InOrder(s) && Stuck(s)
    ensures Jammed(w, cfg.dispatchCapacity, WindowOf(s)) && Gone(s) != AllOf(w)
  {
    hide SlotClock, InRange, Increasing, Range, TimedAt, DepsMet, Base, Holds;
    InvHas(w, cfg, s);
    InvBoundary(w, cfg, s);
    BaseHas(s);
    WindowSize(w, s);
    assert forall i: nat :: i < Dispatched(s) ==> i in Gone(s) || i in s.dispatchQ;
    var v := WindowOf(s);
    forall i: nat | i < v.p && i < |w| && i !in v.gone ensures !DepsSatisfied(w[i], Ids(w, v.gone)) {
      assert i in s.dispatchQ && i !in Satisfied(s.ins, s.retired);
      assert SameOp(s.ins[i], w[i]);
      GoneIsRetired(w, s);
    }
    HoldsFront(s.dispatchQ, s.ins, s.next, Dispatch);
  }

  lemma GoneIsRetired(w: seq<Instruction>, s: State)
    requires Placed(s) && RetiredOK(s) && SameProgram(w, s)
    requires s.readyQ == [] && s.retireQ == [] && s.slots == []
    ensures Ids(w, Gone(s)) <= s.retired
  {
    hide InRange, Holds;
    forall d | d in Ids(w, Gone(s)) ensures d in s.retired {
      var i: nat :| i in Gone(s) && i < |w| && w[i].id == d;
      HoldsMember(s.readyQ, s.ins, s.next, Ready, i);
      HoldsMember(SlotIndices(s.slots), s.ins, s.next, Execute, i);
      HoldsMember(s.retireQ, s.ins, s.next, Retire, i);
      assert SameOp(s.ins[i], w[i]);
    }
  }

  // ---------- the halting theorem ----------

  ghost predicate Halts(w: seq<Instruction>, cfg: Config) {
    exists tr :: Finishes(w, cfg, tr)
  }

  /** What a caller can check before the run. */
  predicate Admissible(w: seq<Instruction>, cfg: Config) {
    w == [] || (Provisioned(w, cfg) && WindowCompletes(w, cfg.dispatchCapacity))
  }

  function Bound(w: seq<Instruction>): int {
    Sum(seq(|w|, i requires 0 <= i < |w| => ExecCycles(w[i]) + 6))
  }

  lemma FinishedAdmissible(w: seq<Instruction>, cfg: Config, tr: seq<State>)
    requires Finishes(w, cfg, tr)
    ensures Admissible(w, cfg)
  {
    hide Inv, WindowCompletes, Leavers, CanEnter, Close;
    if w != [] {
      var s := Last(tr);
      RunGated(w, cfg, tr);
      RunInv(w, cfg, tr);
      InvHas(w, cfg, s);
      forall i | 0 <= i < |w|
        ensures i in Gone(s) && Gated(cfg, s.ins[i]) && s.ins[i].op == w[i].op && s.ins[i].stage == Done
      {
        FinishedInstruction(w, cfg, tr, i);
      }
      assert s.ins[0].stage == Done;
      var start := Window(0, {});
      var top := Close(w, cfg.dispatchCapacity, start);
      CloseIsJammed(w, cfg.dispatchCapacity, start);
      RunWithin(w, cfg, tr, top);
      assert top.gone == AllOf(w);
      CompletesBy(w, cfg.dispatchCapacity);
    }
  }

  lemma CompletesBy(w: seq<Instruction>, cap: nat)
    ensures WindowCompletes(w, cap) <==> Close(w, cap, Window(0, {})).gone == AllOf(w)
  {
    hide Close;
  }

  lemma NeverStuck(w: seq<Instruction>, cfg: Config, tr: seq<State>)
    requires IsRun(w, cfg, tr) && Admissible(w, cfg)
    ensures !Stuck(Last(tr))
  {
    hide Inv, IsRun, WindowCompletes, Provisioned, Jammed;
    RunInv(w, cfg, tr);
    RunNonEmpty(w, cfg, tr);
    RunInOrder(w, cfg, tr);
    var s := Last(tr);
    InvHas(w, cfg, s);
    if Stuck(s) {
      StuckJams(w, cfg, s);
      if w != [] {
        JammedBelowAll(w, cfg.dispatchCapacity, WindowOf(s));
      }
    }
  }

  /** One more cycle of an admissible run lowers the measure. */
  lemma AdmissibleStep(w: seq<Instruction>, cfg: Config, tr: seq<State>)
    requires IsRun(w, cfg, tr) && Admissible(w, cfg) && HasWork(Last(tr))
    ensures var s := Last(tr);
      WF(s) && !Underflows(RetireAll(s)) && Measure(Cycle(s)) < Measure(s)
  {
    hide Inv, WindowCompletes, Provisioned, Stuck, Cycle, RetireAll, Underflows, Boundary, WF, Moves, Measure;
    var s := Last(tr);
    RunInv(w, cfg, tr);
    InvBoundary(w, cfg, s);
    NeverStuck(w, cfg, tr);
    if w == [] {
      EmptyIdle(cfg, s);
    } else {
      Progress(w, cfg, s);
      var i: nat :| i < |s.ins| && i < |Cycle(s).ins|
        && Moves(s.ins[i], i < s.next, Cycle(s).ins[i], i < Cycle(s).next);
      CycleFrame(s);
      MeasureDrops(s, i);
    }
  }

  lemma EmptyIdle(cfg: Config, s: State)
    requires Inv([], cfg, s)
    ensures !HasWork(s)
  {
    hide SlotClock, RetiredOK, Resources;
    InvHas([], cfg, s);
    InvBoundary([], cfg, s);
    BaseHas(s);
    if s.slots != [] {
      HoldsFront(SlotIndices(s.slots), s.ins, s.next, Execute);
    }
  }

  lemma MeasureBounds(w: seq<Instruction>, cfg: Config, s: State)
    requires Inv(w, cfg, s)
    ensures 0 <= Measure(s) && Measure(Init(w, cfg)) == Bound(w)
  {
    hide Boundary, DepsOrdered;
    InvHas(w, cfg, s);
    forall i | 0 <= i < |s.ins| ensures Weights(s)[i] >= 0 {
      if i < s.next {
        assert TimedAt(s.ins[i], s.cycle);
      }
    }
    SumNonNegative(Weights(s));
    assert Weights(Init(w, cfg)) == seq(|w|, i requires 0 <= i < |w| => ExecCycles(w[i]) + 6);
  }

  /** In an admissible setting no run, finished or not, is longer than the bound. */
  lemma {:induction false} MeasureAlongRun(w: seq<Instruction>, cfg: Config, tr: seq<State>)
    requires IsRun(w, cfg, tr) && Admissible(w, cfg)
    ensures |tr| - 1 + Measure(Last(tr)) <= Bound(w)
    decreases |tr|
  {
    hide Inv, Admissible, Measure, HasWork, WF, RetireAll, Underflows, Cycle, Bound;
    RunInv(w, cfg, tr);
    MeasureBounds(w, cfg, Last(tr));
    if |tr| > 1 {
      RunPrefix(w, cfg, tr);
      MeasureAlongRun(w, cfg, tr[..|tr| - 1]);
      AdmissibleStep(w, cfg, tr[..|tr| - 1]);
    }
  }

  /** Upper bound on total_cycles: the execution cycles plus six per instruction. */
  lemma CycleBound(w: seq<Instruction>, cfg: Config, tr: seq<State>)
    requires IsRun(w, cfg, tr) && Admissible(w, cfg)
    ensures Last(tr).cycle <= Bound(w)
  {
    hide Inv, IsRun, Admissible, Measure, Bound;
    RunNonEmpty(w, cfg, tr);
    MeasureAlongRun(w, cfg, tr);
    RunInv(w, cfg, tr);
    MeasureBounds(w, cfg, Last(tr));
    RunClock(w, cfg, tr);
  }

  lemma ExtendRun(w: seq<Instruction>, cfg: Config, tr: seq<State>, t: State)
    requires IsRun(w, cfg, tr) && CycleTo(Last(tr), t)
    ensures IsRun(w, cfg, tr + [t])
  {
    hide CycleTo;
    var r := tr + [t];
    forall k | 0 <= k < |r| - 1 ensures CycleTo(r[k], r[k + 1]) {
      if k < |tr| - 1 {
        assert CycleTo(tr[k], tr[k + 1]);
      }
    }
  }

  /** Any admissible run can be carried on to its end. */
  lemma {:induction false} FinishRun(w: seq<Instruction>, cfg: Config, tr: seq<State>) returns (full: seq<State>)
    requires IsRun(w, cfg, tr) && Admissible(w, cfg)
    ensures Finishes(w, cfg, full)
    decreases Measure(Last(tr))
  {
    hide Inv, Admissible, Measure, HasWork, WF, RetireAll, Underflows, Cycle;
    RunInv(w, cfg, tr);
    MeasureBounds(w, cfg, Last(tr));
    if !HasWork(Last(tr)) {
      full := tr;
    } else {
      AdmissibleStep(w, cfg, tr);
      var t := Cycle(Last(tr));
      ExtendRun(w, cfg, tr, t);
      full := FinishRun(w, cfg, tr + [t]);
    }
  }

  /** The halting theorem: the source's loop ends exactly on the admissible inputs. */
  lemma HaltsIff(w: seq<Instruction>, cfg: Config)
    ensures Halts(w, cfg) <==> Admissible(w, cfg)
  {
    hide Finishes, Admissible;
    if tr :| Finishes(w, cfg, tr) {
      FinishedAdmissible(w, cfg, tr);
    }
    if Admissible(w, cfg) {
      StartRun(w, cfg);
      var full := FinishRun(w, cfg, [Init(w, cfg)]);
    }
  }

  lemma StartRun(w: seq<Instruction>, cfg: Config)
    ensures IsRun(w, cfg, [Init(w, cfg)])
  {
  }

  /** Backward dependencies and a provisioned machine always halt. */
  lemma BackwardHalts(w: seq<Instruction>, cfg: Config)
    requires BackwardDeps(w) && Provisioned(w, cfg)
    ensures Halts(w, cfg)
  {
    hide BackwardDeps, Halts, WindowCompletes;
    BackwardCompletes(w, cfg.dispatchCapacity);
    HaltsIff(w, cfg);
  }
}
