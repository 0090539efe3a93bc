/** Progress: unless the window is jammed, every cycle lowers a weighted stage measure. */
module PipelineProgress {
  import opened Instructions
  import opened Arithmetic
  import opened PipelineModel
  import opened PipelineInvariant
  import opened PipelinePhases
  import opened PipelineScans
  import opened PipelineCycle
  import opened PipelineRuns
  import opened PipelineQueues

  // ---------- the measure ----------

  /** Cycles an instruction may still need, if no other holds it up. */
  function Weight(x: Instruction, fetched: bool, c: nat): int {
    if !fetched then ExecCycles(x) + 6
    else match x.stage
      case Fetch => ExecCycles(x) + 5
      case Decode => ExecCycles(x) + 4
      case Dispatch => ExecCycles(x) + 3
      case Ready => ExecCycles(x) + 2
      case Execute => x.issueCycle + ExecCycles(x) + 2 - c
      case Retire => 1
      case Done => 0
  }

  function Weights(s: State): (r: seq<int>)
    ensures |r| == |s.ins|
  {
    seq(|s.ins|, i requires 0 <= i < |s.ins| => Weight(s.ins[i], i < s.next, s.cycle))
  }

  function Measure(s: State): int {
    Sum(Weights(s))
  }

  /** What counts as progress for one instruction. */
  ghost predicate Moves(a: Instruction, af: bool, b: Instruction, bf: bool) {
    (af && a.stage in {Execute, Retire}) || (bf && (!af || b.stage != a.stage))
  }

  lemma WeightStep(c: nat, retired: set<nat>, a: Instruction, af: bool, b: Instruction, bf: bool)
    requires Advance(c, retired, a, af, b, bf) && (af ==> TimedAt(a, c))
    ensures Weight(b, bf, c + 1) <= Weight(a, af, c)
    ensures Moves(a, af, b, bf) ==> Weight(b, bf, c + 1) < Weight(a, af, c)
  {
  }

  /** If one instruction moves, the measure drops. */
  lemma MeasureDrops(s: State, i: nat)
    requires Boundary(s) && Timed(s) && i < |s.ins|
    requires WF(s) && !Underflows(RetireAll(s)) && |Cycle(s).ins| == |s.ins|
    requires Moves(s.ins[i], i < s.next, Cycle(s).ins[i], i < Cycle(s).next)
    ensures Measure(Cycle(s)) < Measure(s)
  {
    hide Boundary, TimedAt, RetireAll, Underflows, Cycle, Advance, Moves, WF, Sum, Weight;
    var r := Cycle(s);
    CycleFrame(s);
    forall j | 0 <= j < |s.ins|
      ensures Weights(r)[j] <= Weights(s)[j]
      ensures Moves(s.ins[j], j < s.next, r.ins[j], j < r.next) ==> Weights(r)[j] < Weights(s)[j]
    {
      CycleAdvance(s, j);
      WeightStep(s.cycle, r.retired, s.ins[j], j < s.next, r.ins[j], j < r.next);
    }
    SumCompare(Weights(r), Weights(s));
  }

  // ---------- who moves ----------

  /** Every width, queue and needed unit is there. */
  predicate Provisioned(w: seq<Instruction>, cfg: Config) {
    && cfg.fetchWidth > 0 && cfg.decodeWidth > 0 && cfg.dispatchWidth > 0 && cfg.issueWidth > 0
    && cfg.dispatchCapacity > 0 && cfg.readyCapacity > 0
    && (forall i :: 0 <= i < |w| ==> if IsMemoryOp(w[i].op) then cfg.memoryPorts > 0 else cfg.computeUnits > 0)
  }

  /** Everything left sits unsatisfied in the dispatch queue, and nothing more fits in. */
  ghost predicate Stuck(s: State) {
    && s.next == |s.ins| && s.fetchQ == [] && s.readyQ == [] && s.retireQ == [] && s.slots == [] && s.dispatchQ != []
    && (forall i :: i in s.dispatchQ ==> i !in Satisfied(s.ins, s.retired))
    && (s.decodeQ == [] || |s.dispatchQ| >= s.cfg.dispatchCapacity)
  }

  ghost predicate SomeMove(s: State)
    requires WF(s) && !Underflows(RetireAll(s))
  {
    exists i: nat :: i < |s.ins| && i < |Cycle(s).ins|
      && Moves(s.ins[i], i < s.next, Cycle(s).ins[i], i < Cycle(s).next)
  }

  /** An instruction found in a later queue of the next boundary has moved. */
  lemma MovedTo(s: State, r: State, i: nat)
    requires |r.ins| == |s.ins| && i < |s.ins| && i < s.next <= r.next
    requires r.ins[i].stage != s.ins[i].stage || s.ins[i].stage in {Execute, Retire}
    ensures Moves(s.ins[i], i < s.next, r.ins[i], i < r.next)
  {
  }

  lemma MovesInBackEnd(s: State)
    requires Boundary(s) && (s.retireQ != [] || s.slots != [])
    ensures WF(s) && !Underflows(RetireAll(s)) && SomeMove(s)
  {
    hide InRange, SlotClock, Resources, RetiredOK, RetireAll, Underflows, Cycle, Base;
    BaseHas(s);
    CycleFrame(s);
    var i := if s.retireQ != [] then s.retireQ[0] else SlotIndices(s.slots)[0];
    if s.retireQ != [] {
      HoldsFront(s.retireQ, s.ins, s.next, Retire);
    } else {
      HoldsFront(SlotIndices(s.slots), s.ins, s.next, Execute);
    }
    MovedTo(s, Cycle(s), i);
  }

  /** The stage an instruction has when it is in a queue at the next boundary. */
  lemma NextStage(s: State, i: nat)
    requires Boundary(s)
    ensures WF(s) && !Underflows(RetireAll(s)) && |Cycle(s).ins| == |s.ins|
    ensures var r := Cycle(s);
      && (i in r.fetchQ ==> i < r.next && r.ins[i].stage == Fetch)
      && (i in r.decodeQ ==> i < r.next && r.ins[i].stage == Decode)
      && (i in r.dispatchQ ==> i < r.next && r.ins[i].stage == Dispatch)
      && (i < r.next && r.ins[i].stage == Fetch ==> i in r.fetchQ)
      && (i < r.next && r.ins[i].stage == Dispatch ==> i in r.dispatchQ)
      && (i < r.next && r.ins[i].stage == Ready ==> i in r.readyQ)
  {
    hide InRange, SlotClock, Resources, RetiredOK, RetireAll, Underflows, Cycle, Base, Holds;
    BaseHas(s);
    CycleFrame(s);
    CycleKeeps(s);
    var r := Cycle(s);
    BaseHas(r);
    HoldsMember(r.fetchQ, r.ins, r.next, Fetch, i);
    HoldsMember(r.decodeQ, r.ins, r.next, Decode, i);
    HoldsMember(r.dispatchQ, r.ins, r.next, Dispatch, i);
    HoldsMember(r.readyQ, r.ins, r.next, Ready, i);
  }

  lemma MovesInFetch(s: State)
    requires Boundary(s) && s.cfg.fetchWidth > 0 && s.cfg.decodeWidth > 0
    requires s.next < |s.ins| || s.fetchQ != []
    ensures WF(s) && !Underflows(RetireAll(s)) && SomeMove(s)
  {
    hide InRange, SlotClock, Resources, RetiredOK, RetireAll, Underflows, BackEnd, FrontEnd, Base, Holds, Tick;
    BaseHas(s);
    CycleParts(s);
    CycleFrame(s);
    BackQueues(s);
    TickedQueues(s);
    FrontQueues(BackEnd(s));
    var r := Cycle(s);
    if s.next < |s.ins| {
      assert Moves(s.ins[s.next], s.next < s.next, r.ins[s.next], s.next < r.next);
    } else {
      var i := s.fetchQ[0];
      HoldsFront(s.fetchQ, s.ins, s.next, Fetch);
      NextStage(s, i);
      assert i == s.fetchQ[..Min(|s.fetchQ|, s.cfg.decodeWidth)][0];
      assert i in r.decodeQ;
      MovedTo(s, r, i);
    }
  }

  lemma MovesInDecode(s: State)
    requires Boundary(s) && s.cfg.dispatchWidth > 0 && s.decodeQ != []
    requires WF(s) && !Underflows(RetireAll(s)) && |BackEnd(s).dispatchQ| < s.cfg.dispatchCapacity
    ensures SomeMove(s)
  {
    hide InRange, SlotClock, Resources, RetiredOK, RetireAll, Underflows, BackEnd, FrontEnd, Base, Holds, Tick;
    BaseHas(s);
    CycleParts(s);
    CycleFrame(s);
    BackQueues(s);
    TickedQueues(s);
    FrontQueues(BackEnd(s));
    var i := s.decodeQ[0];
    HoldsFront(s.decodeQ, s.ins, s.next, Decode);
    NextStage(s, i);
    assert i == s.decodeQ[..DecodeCount(BackEnd(s), s.cfg.dispatchWidth)][0];
    assert i in Cycle(s).dispatchQ;
    MovedTo(s, Cycle(s), i);
  }

  /** With nothing to retire and nothing executing, the first two phases do nothing. */
  lemma IdleTick(s: State)
    requires Boundary(s) && s.retireQ == [] && s.slots == []
    ensures WF(s) && !Underflows(RetireAll(s)) && Ticked'(s) == s && s.memoryInUse == 0 && s.computeInUse == 0
  {
    hide SlotClock, RetiredOK, Holds, InRange;
    UnderflowUnreachable(s);
    assert MarkFinished(s.ins, [], s.cycle) == s.ins;
    assert s.retireQ + [] == s.retireQ;
  }

  lemma LeavesDispatch(s: State, i: nat)
    requires Boundary(s) && s.readyQ == [] && s.retireQ == [] && s.slots == [] && s.cfg.readyCapacity > 0
    requires i in s.dispatchQ && i in Satisfied(s.ins, s.retired)
    ensures WF(s) && !Underflows(RetireAll(s)) && SomeMove(s)
  {
    hide InRange, SlotClock, Resources, RetiredOK, RetireAll, Underflows, BackEnd, FrontEnd, Base, Holds, Tick,
      Satisfied, DispatchScan;
    BaseHas(s);
    IdleTick(s);
    CycleParts(s);
    CycleFrame(s);
    TickedQueues(s);
    BackQueues(s);
    var sat, room := Satisfied(s.ins, s.retired), ReadyRoom(s);
    var m := MovedUp(s.dispatchQ, sat, room);
    MovedUpMeaning(s.dispatchQ, sat, room);
    assert m != [];
    var j := m[0];
    FrontQueues(BackEnd(s));
    HoldsMember(s.dispatchQ, s.ins, s.next, Dispatch, j);
    MovedLeaves(s, j);
    MovedTo(s, Cycle(s), j);
  }

  /** What the dispatch scan moved up is no longer in Dispatch at the next boundary. */
  lemma MovedLeaves(s: State, j: nat)
    requires Boundary(s) && s.retireQ == [] && s.slots == []
    requires j in MovedUp(s.dispatchQ, Satisfied(s.ins, s.retired), ReadyRoom(s))
    ensures WF(s) && !Underflows(RetireAll(s)) && j < |s.ins| == |Cycle(s).ins| && Cycle(s).ins[j].stage != Dispatch
  {
    hide InRange, SlotClock, RetiredOK, Resources, RetireAll, Underflows, FrontEnd, BackEnd, Base, Holds, Tick,
      Satisfied, DispatchScan, IssueScan, MovedUp, Taken;
    BaseHas(s);
    IdleTick(s);
    TickedQueues(s);
    CycleParts(s);
    CycleFrame(s);
    MovedUpMeaning(s.dispatchQ, Satisfied(s.ins, s.retired), ReadyRoom(s));
    HoldsMember(s.dispatchQ, s.ins, s.next, Dispatch, j);
    var n := |s.dispatchQ|;
    assert s.dispatchQ[..n] == s.dispatchQ;
    DispatchScanMoves(s, n);
    var e := Scanned(s);
    assert e.ins[j].stage == Ready;
    BaseHas(e);
    DispatchScanIsFilter(s, n);
    BackEndParts(s);
    IssueScanMoves(e, |e.readyQ|, 0);
    FrontAdvance(BackEnd(s), j);
  }

  lemma LeavesReady(s: State)
    requires Boundary(s) && s.readyQ != [] && s.retireQ == [] && s.slots == [] && s.cfg.issueWidth > 0
    requires s.readyQ[0] < |s.ins|
    requires if IsMemoryOp(s.ins[s.readyQ[0]].op) then s.cfg.memoryPorts > 0 else s.cfg.computeUnits > 0
    ensures WF(s) && !Underflows(RetireAll(s)) && SomeMove(s)
  {
    hide InRange, SlotClock, RetiredOK, Resources, RetireAll, Underflows, FrontEnd, BackEnd, Base, Holds, Tick,
      Satisfied, DispatchScan, IssueScan, MovedUp;
    BaseHas(s);
    IdleTick(s);
    TickedQueues(s);
    DispatchPhase(s);
    CycleParts(s);
    CycleFrame(s);
    var i := s.readyQ[0];
    HoldsFront(s.readyQ, s.ins, s.next, Ready);
    var n, e := |s.dispatchQ|, Scanned(s);
    DispatchScanMoves(s, n);
    DispatchScanIsFilter(s, n);
    BaseHas(e);
    BackEndParts(s);
    assert e.readyQ[0] == i && e.ins[i].op == s.ins[i].op;
    assert e.readyQ[..|e.readyQ|] == e.readyQ;
    IssueScanMoves(e, |e.readyQ|, 0);
    assert i == Taken(e.readyQ, MemoryOps(e.ins), BudgetOf(e, 0))[0];
    FrontAdvance(BackEnd(s), i);
    MovedTo(s, Cycle(s), i);
  }

  /** Nothing leaves the dispatch queue when nothing in it is satisfied. */
  lemma {:induction false} NoneMovesUp(q: seq<nat>, sat: set<nat>, room: nat)
    requires forall i :: i in q ==> i !in sat
    ensures HeldBack(q, sat, room) == q
  {
    if q != [] {
      NoneMovesUp(q[1..], sat, room);
    }
  }

  /** Progress: in a provisioned machine, a cycle that starts with work and is not stuck
      moves some instruction. */
  lemma Progress(w: seq<Instruction>, cfg: Config, s: State)
    requires Inv(w, cfg, s) && HasWork(s) && Provisioned(w, cfg) && !Stuck(s)
    ensures WF(s) && !Underflows(RetireAll(s)) && SomeMove(s)
  {
    hide InRange, SlotClock, Resources, RetiredOK, RetireAll, Underflows, Cycle, Base, Holds, SomeMove, TimedAt,
      DepsMet, SameOp, Satisfied, BackEnd, Tick;
    InvBoundary(w, cfg, s);
    InvHas(w, cfg, s);
    BaseHas(s);
    if s.retireQ != [] || s.slots != [] {
      MovesInBackEnd(s);
    } else if s.next < |s.ins| || s.fetchQ != [] {
      MovesInFetch(s);
    } else if s.readyQ != [] {
      HoldsFront(s.readyQ, s.ins, s.next, Ready);
      OpOf(w, s, s.readyQ[0]);
      LeavesReady(s);
    } else if i :| i in s.dispatchQ && i in Satisfied(s.ins, s.retired) {
      LeavesDispatch(s, i);
    } else {
      IdleTick(s);
      BackQueues(s);
      NoneMovesUp(s.dispatchQ, Satisfied(s.ins, s.retired), ReadyRoom(s));
      MovesInDecode(s);
    }
  }

  lemma OpOf(w: seq<Instruction>, s: State, i: nat)
    requires i < |w| && i < |s.ins| && SameOp(s.ins[i], w[i])
    ensures s.ins[i].op == w[i].op
  {
  }
}
