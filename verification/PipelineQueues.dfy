/** What one cycle does to the queues as sequences, and the order they keep: fetch and decode
    hold consecutive indices, dispatch is in program order, the bounded queues fit. */
module PipelineQueues {
  import opened Arithmetic
  import opened Instructions
  import opened PipelineModel
  import opened PipelineInvariant
  import opened PipelinePhases
  import opened PipelineScans
  import opened PipelineCycle
  import opened PipelineRuns

  /** The state of cycle `s` when the dispatch scan starts, and when it has ended. */
  ghost function Ticked'(s: State): State
    requires WF(s) && !Underflows(RetireAll(s))
  {
    Tick(RetireAll(s))
  }

  ghost function Scanned(s: State): State
    requires WF(s) && !Underflows(RetireAll(s))
  {
    DispatchScan(Ticked'(s), |Ticked'(s).dispatchQ|)
  }

  lemma TickedQueues(s: State)
    requires Boundary(s)
    ensures WF(s) && !Underflows(RetireAll(s))
    ensures var d := Ticked'(s);
      && MidCycle(d) && MidCycle(Scanned(s)) && MidCycle(BackEnd(s))
      && d.dispatchQ == s.dispatchQ && d.readyQ == s.readyQ && d.cfg == s.cfg && d.fetchQ == s.fetchQ
         && d.decodeQ == s.decodeQ
      && d.next == s.next && |d.ins| == |s.ins| && d.cycle == s.cycle
      && d.stats == s.stats.(completed := d.stats.completed, totalLatency := d.stats.totalLatency)
  {
    hide Base, SlotClock, RetireAll, DispatchScan, IssueScan, Finished, Survivors, InRange;
    BaseHas(s);
    BackEndParts(s);
    RetireAllEffect(s);
  }

  /** How many entries of ready_q the issue scan of this cycle passes with its width used up. */
  ghost function WidthSkips(s: State): nat {
    if WF(s) && !Underflows(RetireAll(s))
    then var e := Scanned(s); |Skipped(e.readyQ, MemoryOps(e.ins), BudgetOf(e, 0))|
    else 0
  }

  /** The dispatch scan of a cycle is a stable filter, and each entry it holds back is one stall. */
  lemma DispatchPhase(s: State)
    requires Boundary(s)
    ensures WF(s) && !Underflows(RetireAll(s))
    ensures var d, e := Ticked'(s), Scanned(s);
      var sat, room := Satisfied(d.ins, d.retired), ReadyRoom(s);
      && e.dispatchQ == HeldBack(s.dispatchQ, sat, room)
      && e.readyQ == s.readyQ + MovedUp(s.dispatchQ, sat, room)
      && e.slots == d.slots && e.fetchQ == s.fetchQ && e.decodeQ == s.decodeQ && e.next == s.next
      && e.cfg == s.cfg && |e.ins| == |s.ins| && e.cycle == s.cycle && e.retired == d.retired
      && e.stats == d.stats.(readyFull := e.stats.readyFull, waitingDep := e.stats.waitingDep)
      && e.stats.waitingDep == s.stats.waitingDep + Unsatisfied(s.dispatchQ, sat)
      && e.stats.readyFull + e.stats.waitingDep == s.stats.readyFull + s.stats.waitingDep + |e.dispatchQ|
  {
    hide Base, SlotClock, RetireAll, Tick, DispatchScan, Underflows, InRange, Satisfied, MovedUp, HeldBack;
    TickedQueues(s);
    var d := Ticked'(s);
    BaseHas(d);
    DispatchScanIsFilter(d, |d.dispatchQ|);
    assert d.dispatchQ[..|d.dispatchQ|] == d.dispatchQ;
  }

  /** The issue scan of a cycle is a stable filter whose stalls are bounded by what it leaves. */
  lemma IssuePhase(e: State)
    requires MidCycle(e)
    ensures WF(e)
    ensures var b := IssueScan(e, |e.readyQ|, 0);
      var mem, budget := MemoryOps(e.ins), BudgetOf(e, 0);
      && b.readyQ == Left(e.readyQ, mem, budget)
      && |b.slots| == |e.slots| + |Taken(e.readyQ, mem, budget)|
      && b.dispatchQ == e.dispatchQ && b.fetchQ == e.fetchQ && b.decodeQ == e.decodeQ && b.next == e.next
      && b.cfg == e.cfg && |b.ins| == |e.ins|
      && b.stats == e.stats.(noMemory := b.stats.noMemory, noCompute := b.stats.noCompute)
      && b.stats.noMemory + b.stats.noCompute + |Skipped(e.readyQ, mem, budget)| ==
           e.stats.noMemory + e.stats.noCompute + |b.readyQ|
  {
    hide Base, SlotClock, IssueScan, InRange, MemoryOps, BudgetOf, Taken, Left, OfClass, Skipped;
    BaseHas(e);
    IssueScanIsFilter(e, |e.readyQ|, 0);
    IssueStalls(e, |e.readyQ|, 0);
    ClassesPartition(Left(e.readyQ, MemoryOps(e.ins), BudgetOf(e, 0)), MemoryOps(e.ins));
    ClassesPartition(Skipped(e.readyQ, MemoryOps(e.ins), BudgetOf(e, 0)), MemoryOps(e.ins));
    assert e.readyQ[..|e.readyQ|] == e.readyQ;
  }

  /** The back end in closed form: two stable filters, with their stall counts. */
  lemma BackQueues(s: State)
    requires Boundary(s)
    ensures WF(s) && !Underflows(RetireAll(s))
    ensures var d, e, b := Ticked'(s), Scanned(s), BackEnd(s);
      var sat, room := Satisfied(d.ins, d.retired), ReadyRoom(s);
      var mem, budget := MemoryOps(e.ins), BudgetOf(e, 0);
      && b.dispatchQ == HeldBack(s.dispatchQ, sat, room)
      && e.readyQ == s.readyQ + MovedUp(s.dispatchQ, sat, room)
      && b.readyQ == Left(e.readyQ, mem, budget)
      && |b.slots| == |d.slots| + |Taken(e.readyQ, mem, budget)|
      && b.fetchQ == s.fetchQ && b.decodeQ == s.decodeQ && b.next == s.next && b.cfg == s.cfg && |b.ins| == |s.ins|
      && b.stats == d.stats.(readyFull := b.stats.readyFull, waitingDep := b.stats.waitingDep,
                             noMemory := b.stats.noMemory, noCompute := b.stats.noCompute)
      && b.stats.readyFull + b.stats.waitingDep == s.stats.readyFull + s.stats.waitingDep + |b.dispatchQ|
      && b.stats.noMemory + b.stats.noCompute + WidthSkips(s) == s.stats.noMemory + s.stats.noCompute + |b.readyQ|
  {
    hide Base, SlotClock, RetireAll, Tick, DispatchScan, IssueScan, Underflows, InRange, Satisfied, MemoryOps,
      BudgetOf, MovedUp, HeldBack, Taken, Left, Skipped, ReadyRoom;
    TickedQueues(s);
    DispatchPhase(s);
    IssuePhase(Scanned(s));
  }

  /** The front end in closed form: three prefix moves. */
  lemma FrontQueues(b: State)
    requires MidCycle(b)
    ensures var r := FrontEnd(b);
      var m1, m2, m3 := DecodeCount(b, b.cfg.dispatchWidth), Min(|b.fetchQ|, b.cfg.decodeWidth),
        Min(|b.ins| - b.next, b.cfg.fetchWidth);
      && r.dispatchQ == b.dispatchQ + b.decodeQ[..m1]
      && r.decodeQ == b.decodeQ[m1..] + b.fetchQ[..m2]
      && r.fetchQ == b.fetchQ[m2..] + Range(b.next, m3)
      && r.next == b.next + m3
      && r.readyQ == b.readyQ && r.slots == b.slots && r.retireQ == b.retireQ && r.cfg == b.cfg
      && r.stats == b.stats.(dispatchFull := r.stats.dispatchFull)
  {
    hide Base, SlotClock, DecodeMoves, FetchMoves, Enter, InRange;
    BaseHas(b);
    FrontEndParts(b);
    DecodeMovesClosed(b, b.cfg.dispatchWidth);
    DecodeMovesIns(b, b.cfg.dispatchWidth);
    var d := DecodeMoves(b, b.cfg.dispatchWidth);
    BaseHas(d);
    FetchMovesClosed(d, b.cfg.decodeWidth);
    FetchMovesIns(d, b.cfg.decodeWidth);
    var f := FetchMoves(d, b.cfg.decodeWidth);
    BaseHas(f);
    EnterClosed(f, b.cfg.fetchWidth);
  }

  // ---------- order ----------

  /** Fetch and decode hold consecutive indices, dispatch is increasing, bounded queues fit. */
  ghost predicate InOrder(s: State) {
    && |s.fetchQ| + |s.decodeQ| <= s.next
    && s.fetchQ == Range(s.next - |s.fetchQ|, |s.fetchQ|)
    && s.decodeQ == Range(s.next - |s.fetchQ| - |s.decodeQ|, |s.decodeQ|)
    && Increasing(s.dispatchQ)
    && |s.dispatchQ| <= s.cfg.dispatchCapacity && |s.readyQ| <= s.cfg.readyCapacity
  }

  /** How many instructions have been dispatched. */
  ghost function Dispatched(s: State): int {
    s.next - |s.fetchQ| - |s.decodeQ|
  }

  lemma InFrontIff(s: State, i: nat)
    requires Placed(s) && InOrder(s) && i < s.next
    ensures i >= Dispatched(s) <==> s.ins[i].stage in {Fetch, Decode}
  {
    hide InRange;
    HoldsMember(s.fetchQ, s.ins, s.next, Fetch, i);
    HoldsMember(s.decodeQ, s.ins, s.next, Decode, i);
    var a, b := s.next - |s.fetchQ|, Dispatched(s);
    if i >= a {
      assert s.fetchQ[i - a] == i;
    } else if i >= b {
      assert s.decodeQ[i - b] == i;
    }
  }

  lemma OrderAppend(q: seq<nat>, a: nat, m: nat)
    requires Increasing(q) && forall i :: i in q ==> i < a
    ensures Increasing(q + Range(a, m))
  {
    var r := q + Range(a, m);
    forall j, k | 0 <= j < k < |r| ensures r[j] < r[k] {
      if j < |q| {
        assert r[j] in q;
      }
    }
  }

  lemma BackInOrder(s: State)
    requires Boundary(s) && InOrder(s)
    ensures !Underflows(RetireAll(s)) && InOrder(BackEnd(s))
  {
    hide Base, SlotClock, RetireAll, Tick, Underflows, BackEnd, Satisfied, MemoryOps, BudgetOf, MovedUp, HeldBack,
      Taken, Left, InRange, Range;
    BackQueues(s);
    var d, e := Ticked'(s), Scanned(s);
    var sat := Satisfied(d.ins, d.retired);
    ScanKeepsOrder(s.dispatchQ, sat, ReadyRoom(s));
    SubsequenceIncreasing(BackEnd(s).dispatchQ, s.dispatchQ);
    MovedUpMeaning(s.dispatchQ, sat, ReadyRoom(s));
    TakenWithinBudget(e.readyQ, MemoryOps(e.ins), BudgetOf(e, 0));
  }

  lemma DispatchedFirst(s: State)
    requires Placed(s) && InOrder(s)
    ensures forall i :: i in s.dispatchQ ==> i < Dispatched(s)
  {
    hide Holds, InRange, Range;
    forall i | i in s.dispatchQ ensures i < Dispatched(s) {
      HoldsMember(s.dispatchQ, s.ins, s.next, Dispatch, i);
      InFrontIff(s, i);
    }
  }

  /** Prefix moves between consecutive ranges leave consecutive ranges. */
  lemma RangesMove(a: nat, d: nat, f: nat, m1: nat, m2: nat, m3: nat)
    requires m1 <= d && m2 <= f
    ensures Range(a, d)[..m1] == Range(a, m1)
    ensures Range(a, d)[m1..] + Range(a + d, f)[..m2] == Range(a + m1, d - m1 + m2)
    ensures Range(a + d, f)[m2..] + Range(a + d + f, m3) == Range(a + d + m2, f - m2 + m3)
  {
    hide Range;
    RangeSplit(a, d, m1);
    RangeSplit(a + d, f, m2);
    RangeSplit(a + m1, d - m1 + m2, d - m1);
    RangeSplit(a + d + m2, f - m2 + m3, f - m2);
  }

  lemma FrontInOrder(b: State)
    requires MidCycle(b) && InOrder(b)
    ensures InOrder(FrontEnd(b))
  {
    hide Base, SlotClock, FrontEnd, InRange, Range, Increasing, Holds;
    BaseHas(b);
    FrontQueues(b);
    var m1, m2 := DecodeCount(b, b.cfg.dispatchWidth), Min(|b.fetchQ|, b.cfg.decodeWidth);
    var m3 := Min(|b.ins| - b.next, b.cfg.fetchWidth);
    RangesMove(Dispatched(b), |b.decodeQ|, |b.fetchQ|, m1, m2, m3);
    DispatchedFirst(b);
    OrderAppend(b.dispatchQ, Dispatched(b), m1);
  }

  lemma CycleInOrder(s: State)
    requires Boundary(s) && InOrder(s)
    ensures !Underflows(RetireAll(s)) && InOrder(Cycle(s))
  {
    hide Boundary, MidCycle, RetireAll, Underflows, BackEnd, FrontEnd, InOrder, WF;
    CycleParts(s);
    BackInOrder(s);
    TickedQueues(s);
    FrontInOrder(BackEnd(s));
    ClockOnly(FrontEnd(BackEnd(s)), FrontEnd(BackEnd(s)).cycle + 1);
  }

  lemma ClockOnly(s: State, c: nat)
    requires InOrder(s)
    ensures InOrder(s.(cycle := c))
  {
  }

  lemma CycleParts(s: State)
    requires Boundary(s)
    ensures WF(s) && !Underflows(RetireAll(s))
    ensures Cycle(s) == FrontEnd(BackEnd(s)).(cycle := FrontEnd(BackEnd(s)).cycle + 1)
  {
    hide SlotClock, RetireAll, Underflows, Base, FrontEnd, BackEnd;
    BaseHas(s);
    BackEndParts(s);
  }

  /** At every cycle of every run dispatch_q is in program order and no queue overflows. */
  lemma {:induction false} RunInOrder(w: seq<Instruction>, cfg: Config, tr: seq<State>)
    requires IsRun(w, cfg, tr)
    ensures InOrder(Last(tr))
    decreases |tr|
  {
    hide Inv, Cycle, RetireAll, Underflows, HasWork, WF, Boundary, InOrder;
    if |tr| > 1 {
      RunPrefix(w, cfg, tr);
      var p := tr[..|tr| - 1];
      RunInOrder(w, cfg, p);
      RunInv(w, cfg, p);
      InvBoundary(w, cfg, Last(p));
      CycleInOrder(Last(p));
    } else {
      InitInOrder(w, cfg);
    }
  }

  lemma InitInOrder(w: seq<Instruction>, cfg: Config)
    ensures InOrder(Init(w, cfg))
  {
  }
}
