/** The issue stage over whole runs: instructions of one class issue in the order they became
    ready, nobody waits while its resource and the issue width last, and the waiting that the
    width causes is not counted by any stall. */
module PipelineIssue {
  import opened Arithmetic
  import opened Instructions
  import opened PipelineModel
  import opened PipelineInvariant
  import opened PipelinePhases
  import opened PipelineScans
  import opened PipelineCycle
  import opened PipelineRuns
  import opened PipelineOrder
  import opened PipelineQueues
  import opened PipelineHalting
  import opened PipelineAccounting

  // ---------- what issues in a cycle ----------

  /** What the issue scan takes from ready_q. */
  ghost function TakenFrom(e: State): seq<nat> {
    Taken(e.readyQ, MemoryOps(e.ins), BudgetOf(e, 0))
  }

  lemma ReadyUnique(e: State)
    requires MidCycle(e)
    ensures Unique(e.readyQ)
    ensures forall i: nat :: i in e.readyQ <==> i < e.next && i < |e.ins| && e.ins[i].stage == Ready
  {
  }

  lemma IssueAt(e: State, i: nat)
    requires MidCycle(e) && i < |e.ins|
    ensures WF(e)
    ensures var b := IssueScan(e, |e.readyQ|, 0);
      && |b.ins| == |e.ins|
      && b.ins[i] == (if i in TakenFrom(e) then e.ins[i].(stage := Execute, issueCycle := e.cycle) else e.ins[i])
      && (i in TakenFrom(e) ==> i in e.readyQ && i < e.next && e.ins[i].stage == Ready)
  {
    hide Base, SlotClock, IssueScan, MemoryOps, BudgetOf, Taken;
    BaseHas(e);
    assert e.readyQ[..|e.readyQ|] == e.readyQ;
    IssueScanMoves(e, |e.readyQ|, 0);
    TakenWithinBudget(e.readyQ, MemoryOps(e.ins), BudgetOf(e, 0));
    ReadyUnique(e);
  }

  lemma ScannedAt(d: State, i: nat)
    requires MidCycle(d) && i < |d.ins|
    ensures WF(d)
    ensures var e := DispatchScan(d, |d.dispatchQ|);
      && |e.ins| == |d.ins| && e.next == d.next && e.cycle == d.cycle
      && (e.ins[i] == d.ins[i] || (i < d.next && d.ins[i].stage == Dispatch && e.ins[i] == d.ins[i].(stage := Ready)))
  {
    hide Resources, RetiredOK, SlotClock, DispatchScan, Satisfied, MovedUp, HeldBack, ReadyRoom, InRange;
    MovedUpMeaning(d.dispatchQ, Satisfied(d.ins, d.retired), ReadyRoom(d));
    HoldsMember(d.dispatchQ, d.ins, d.next, Dispatch, i);
    BaseHas(d);
    assert d.dispatchQ[..|d.dispatchQ|] == d.dispatchQ;
    DispatchScanIsFilter(d, |d.dispatchQ|);
    DispatchScanMoves(d, |d.dispatchQ|);
  }

  /** One instruction between the tick and the end of the issue scan. */
  lemma BackAt(s: State, i: nat)
    requires Boundary(s) && i < |s.ins|
    ensures WF(s) && !Underflows(RetireAll(s))
    ensures var d, e, b := Ticked'(s), Scanned(s), BackEnd(s);
      && |d.ins| == |e.ins| == |b.ins| == |s.ins| && MidCycle(e) && MidCycle(b) && b.next == e.next == d.next == s.next
      && e.cycle == s.cycle
      && (e.ins[i] == d.ins[i] || (i < s.next && d.ins[i].stage == Dispatch && e.ins[i] == d.ins[i].(stage := Ready)))
      && b.ins[i] == (if i in TakenFrom(e) then e.ins[i].(stage := Execute, issueCycle := s.cycle) else e.ins[i])
      && (i in TakenFrom(e) ==> i < s.next && e.ins[i].stage == Ready)
      && (i in e.readyQ <==> i < s.next && e.ins[i].stage == Ready)
  {
    hide Base, SlotClock, RetireAll, Tick, Underflows, DispatchScan, IssueScan, TakenFrom;
    TickedQueues(s);
    BackFrame(s);
    ScannedAt(Ticked'(s), i);
    IssueAt(Scanned(s), i);
    ReadyUnique(Scanned(s));
  }

  /** The instruction before the cycle, after the tick, after the two scans, and at the end. */
  lemma IssuedMoves(c: nat, retired: set<nat>, a: Instruction, af: bool, d: Instruction, e: Instruction, taken: bool,
                    b: Instruction, r: Instruction, rf: bool)
    requires if af then BackMove(c, retired, a, d) else d == a
    requires af && a.stage in {Ready, Dispatch} ==> d == a
    requires e == d || (af && d.stage == Dispatch && e == d.(stage := Ready))
    requires b == (if taken then e.(stage := Execute, issueCycle := c) else e) && (taken ==> af && e.stage == Ready)
    requires FrontMove(c, b, af, r, rf) && (af ==> TimedAt(a, c))
    ensures (rf && r.stage in {Execute, Retire, Done}) <==> (af && a.stage in {Execute, Retire, Done}) || taken
    ensures taken ==> r.issueCycle == c
    ensures af && e.stage == Ready ==> a.stage !in {Execute, Retire, Done}
    ensures af && a.stage in {Execute, Retire, Done} ==> r.issueCycle == a.issueCycle < c
    ensures (rf && r.stage in {Ready, Execute, Retire, Done}) ==>
      (af && a.stage in {Execute, Retire, Done}) || (af && e.stage == Ready)
  {
  }

  /** An instruction has issued by the end of the cycle if it had before, then with the same
      issue cycle, or if this cycle's scan takes it. */
  lemma IssuedBy(s: State, i: nat)
    requires Boundary(s) && Timed(s) && i < |s.ins|
    ensures WF(s) && !Underflows(RetireAll(s))
    ensures var r, e := Cycle(s), Scanned(s);
      && |r.ins| == |s.ins|
      && (HasIssued(r, i) <==> HasIssued(s, i) || i in TakenFrom(e))
      && (i in e.readyQ ==> !HasIssued(s, i)) && (i in TakenFrom(e) ==> i in e.readyQ && r.ins[i].issueCycle == s.cycle)
      && (HasIssued(s, i) ==> r.ins[i].issueCycle == s.ins[i].issueCycle < s.cycle)
      && (Reached(r, i) ==> HasIssued(s, i) || i in e.readyQ)
  {
    hide Base, SlotClock, RetireAll, Underflows, BackEnd, FrontEnd, TakenFrom, DepsSatisfied, InRange, Tick,
      DispatchScan;
    BackAt(s, i);
    BackFrame(s);
    CycleParts(s);
    FrontAdvance(BackEnd(s), i);
    RetireTickAt(s, i);
    if i < s.next { TimedHas(s, i); }
    var d, e, b, r := Ticked'(s), Scanned(s), BackEnd(s), Cycle(s);
    IssuedMoves(s.cycle, d.retired, s.ins[i], i < s.next, d.ins[i], e.ins[i], i in TakenFrom(e), b.ins[i], r.ins[i],
      i < r.next);
  }

  lemma TimedHas(s: State, i: nat)
    requires Timed(s) && i < s.next
    ensures i < |s.ins| && TimedAt(s.ins[i], s.cycle)
  {
  }

  // ---------- order of issue ----------

  /** Ready, or past it. */
  predicate Reached(s: State, i: nat) {
    i < s.next && i < |s.ins| && s.ins[i].stage in {Ready, Execute, Retire, Done}
  }

  /** `i` became ready before `j`, and issue has respected that so far. */
  ghost predicate InReadyOrder(s: State, i: nat, j: nat) {
    || Before(s.readyQ, i, j)
    || (i in s.readyQ && !Reached(s, j))
    || (HasIssued(s, i) && (HasIssued(s, j) ==> s.ins[i].issueCycle <= s.ins[j].issueCycle))
  }

  /** ready_q when the dispatch scan of this cycle has ended. */
  ghost function ReadyToIssue(s: State): seq<nat> {
    if WF(s) && !Underflows(RetireAll(s)) then Scanned(s).readyQ else []
  }

  lemma BeforeIn(q: seq<nat>, i: nat, j: nat)
    requires Before(q, i, j)
    ensures i in q && j in q
  {
  }

  lemma BeforeAppend(q: seq<nat>, m: seq<nat>, i: nat, j: nat)
    ensures Before(q, i, j) ==> Before(q + m, i, j)
    ensures i in q && j in m ==> Before(q + m, i, j)
  {
    var r := q + m;
    if Before(q, i, j) {
      var x, y :| 0 <= x < y < |q| && q[x] == i && q[y] == j;
      assert r[x] == i && r[y] == j;
    }
    if i in q && j in m {
      var x, y :| 0 <= x < |q| && q[x] == i && 0 <= y < |m| && m[y] == j;
      assert r[x] == i && r[|q| + y] == j;
    }
  }

  /** One issue scan: of two entries of one class the first is not overtaken. */
  lemma ScanOrder(q: seq<nat>, mem: set<nat>, b: Budget, i: nat, j: nat)
    requires Unique(q) && Before(q, i, j) && (i in mem <==> j in mem)
    ensures Before(Left(q, mem, b), i, j) || (i in Taken(q, mem, b) && i !in Left(q, mem, b))
  {
    var x, y :| 0 <= x < y < |q| && q[x] == i && q[y] == j;
    ClassOrder(q, mem, b, x, y);
    TakenOrLeft(q, mem, b, i);
  }

  ghost predicate SameClass(w: seq<Instruction>, i: nat, j: nat) {
    i < |w| && j < |w| && IsMemoryOp(w[i].op) == IsMemoryOp(w[j].op)
  }

  lemma ClassInScan(w: seq<Instruction>, s: State, i: nat)
    requires Boundary(s) && SameProgram(w, s) && i < |w|
    ensures WF(s) && !Underflows(RetireAll(s)) && (i in MemoryOps(Scanned(s).ins) <==> IsMemoryOp(w[i].op))
  {
    hide Base, SlotClock, RetireAll, Underflows, Tick, DispatchScan, BackEnd, TakenFrom, InRange, DepsSatisfied;
    BackAt(s, i);
    RetireTickAt(s, i);
    assert SameOp(s.ins[i], w[i]);
  }

  lemma CycleReady(s: State)
    requires Boundary(s)
    ensures WF(s) && !Underflows(RetireAll(s))
    ensures var e := Scanned(s);
      && Cycle(s).readyQ == Left(e.readyQ, MemoryOps(e.ins), BudgetOf(e, 0)) && MidCycle(e)
      && exists m :: e.readyQ == s.readyQ + m
  {
    hide Base, SlotClock, RetireAll, Underflows, Scanned, Ticked', BackEnd, FrontEnd, Range, MovedUp, HeldBack,
      Taken, Left, Satisfied, MemoryOps, BudgetOf;
    CycleParts(s);
    BackQueues(s);
    TickedQueues(s);
    FrontQueues(BackEnd(s));
  }

  /** What stood in order when the issue scan started is in order at the next boundary. */
  lemma ScanKeepsReadyOrder(w: seq<Instruction>, s: State, i: nat, j: nat)
    requires Boundary(s) && Timed(s) && SameProgram(w, s) && SameClass(w, i, j) && Before(ReadyToIssue(s), i, j)
    ensures WF(s) && !Underflows(RetireAll(s)) && InReadyOrder(Cycle(s), i, j)
  {
    hide Base, SlotClock, RetireAll, Underflows, Scanned, Cycle, Timed, MemoryOps, BudgetOf, Before, Taken, Left,
      HasIssued, Reached, InRange;
    CycleReady(s);
    var e := Scanned(s);
    ReadyUnique(e);
    ClassInScan(w, s, i);
    ClassInScan(w, s, j);
    ScanOrder(e.readyQ, MemoryOps(e.ins), BudgetOf(e, 0), i, j);
    BeforeIn(e.readyQ, i, j);
    IssuedBy(s, i);
    IssuedBy(s, j);
  }

  lemma CycleKeepsReadyOrder(w: seq<Instruction>, s: State, i: nat, j: nat)
    requires Boundary(s) && Timed(s) && SameProgram(w, s) && SameClass(w, i, j) && InReadyOrder(s, i, j)
    ensures WF(s) && !Underflows(RetireAll(s)) && InReadyOrder(Cycle(s), i, j)
  {
    hide Base, SlotClock, RetireAll, Underflows, Scanned, Cycle, Timed, MemoryOps, BudgetOf, Before, Taken, Left,
      HasIssued, Reached, InRange;
    CycleReady(s);
    var e := Scanned(s);
    var m :| e.readyQ == s.readyQ + m;
    BeforeAppend(s.readyQ, m, i, j);
    if Before(e.readyQ, i, j) {
      ScanKeepsReadyOrder(w, s, i, j);
    } else {
      ReadyUnique(e);
      IssuedBy(s, i);
      IssuedBy(s, j);
      IssuedReached(s, j);
      assert i in s.readyQ ==> j !in m;
      TakenOrLeft(e.readyQ, MemoryOps(e.ins), BudgetOf(e, 0), i);
      TakenOrLeft(e.readyQ, MemoryOps(e.ins), BudgetOf(e, 0), j);
      if j in s.readyQ { ReadyReached(s, j); }
    }
  }

  lemma IssuedReached(s: State, j: nat)
    ensures HasIssued(s, j) ==> Reached(s, j)
  {
  }

  lemma ReadyReached(s: State, j: nat)
    requires Boundary(s) && j in s.readyQ
    ensures Reached(s, j) && !HasIssued(s, j)
  {
  }

  lemma {:induction false} ReadyOrderAlong(w: seq<Instruction>, cfg: Config, tr: seq<State>, k: nat, i: nat, j: nat)
    requires IsRun(w, cfg, tr) && k < |tr| && SameClass(w, i, j)
    requires InReadyOrder(tr[k], i, j) || (k < |tr| - 1 && Before(ReadyToIssue(tr[k]), i, j))
    ensures InReadyOrder(Last(tr), i, j)
    decreases |tr|
  {
    hide Inv, Cycle, RetireAll, Underflows, HasWork, WF, Boundary, InReadyOrder, ReadyToIssue, Timed, Before;
    if k < |tr| - 1 {
      RunPrefix(w, cfg, tr);
      var p := tr[..|tr| - 1];
      RunInv(w, cfg, p);
      InvBoundary(w, cfg, Last(p));
      InvProgram(w, cfg, Last(p));
      if k == |p| - 1 && Before(ReadyToIssue(tr[k]), i, j) {
        ScanKeepsReadyOrder(w, Last(p), i, j);
      } else {
        ReadyOrderAlong(w, cfg, p, k, i, j);
        CycleKeepsReadyOrder(w, Last(p), i, j);
      }
    }
  }

  lemma InvProgram(w: seq<Instruction>, cfg: Config, s: State)
    requires Inv(w, cfg, s)
    ensures SameProgram(w, s) && s.cfg == cfg
  {
  }

  /** Instructions of one class issue in the order they became ready.  In any run, let `i` stand
      before `j` in ready_q, at a cycle boundary or when the issue scan starts, or let `i` be
      there while `j` has not become ready.  If `j` has issued later on, so has `i`, and not
      in a later cycle. */
  lemma IssueInReadyOrder(w: seq<Instruction>, cfg: Config, tr: seq<State>, k: nat, i: nat, j: nat)
    requires IsRun(w, cfg, tr) && k < |tr| && SameClass(w, i, j) && HasIssued(Last(tr), j)
    requires || Before(tr[k].readyQ, i, j)
             || (i in tr[k].readyQ && !Reached(tr[k], j))
             || (k < |tr| - 1 && Before(ReadyToIssue(tr[k]), i, j))
    ensures HasIssued(Last(tr), i) && Last(tr).ins[i].issueCycle <= Last(tr).ins[j].issueCycle
  {
    hide IsRun, Inv, Boundary, ReadyToIssue, Before;
    ReadyOrderAlong(w, cfg, tr, k, i, j);
    var s := Last(tr);
    RunInv(w, cfg, tr);
    InvBoundary(w, cfg, s);
    IssuedReached(s, j);
    if Before(s.readyQ, i, j) {
      BeforeIn(s.readyQ, i, j);
      ReadyReached(s, j);
    }
  }

  // ---------- nothing waits without a reason ----------

  /** The instructions that issued in cycle `c`. */
  ghost function IssuedAt(s: State, c: nat): set<nat> {
    set i: nat | i < |s.ins| && HasIssued(s, i) && s.ins[i].issueCycle == c
  }

  lemma FrontKeepsUse(b: State)
    requires MidCycle(b)
    ensures FrontEnd(b).memoryInUse == b.memoryInUse && FrontEnd(b).computeInUse == b.computeInUse
  {
    hide Base, SlotClock, DecodeMoves, FetchMoves, Enter, InRange;
    BaseHas(b);
    FrontEndParts(b);
    DecodeMovesClosed(b, b.cfg.dispatchWidth);
    var d := DecodeMoves(b, b.cfg.dispatchWidth);
    BaseHas(d);
    FetchMovesClosed(d, b.cfg.decodeWidth);
    var f := FetchMoves(d, b.cfg.decodeWidth);
    BaseHas(f);
    EnterClosed(f, b.cfg.fetchWidth);
  }

  /** The resource counters at the next boundary. */
  lemma CycleUses(s: State)
    requires Boundary(s)
    ensures WF(s) && !Underflows(RetireAll(s))
    ensures var e, r := Scanned(s), Cycle(s);
      && e.cfg == s.cfg && e.memoryInUse <= s.cfg.memoryPorts && e.computeInUse <= s.cfg.computeUnits
      && r.memoryInUse == e.memoryInUse + |OfClass(TakenFrom(e), MemoryOps(e.ins), true)|
      && r.computeInUse == e.computeInUse + |OfClass(TakenFrom(e), MemoryOps(e.ins), false)|
  {
    hide Holds, InRange, SlotClock, RetiredOK, RetireAll, Underflows, Tick, DispatchScan, IssueScan, FrontEnd,
      MemoryOps, BudgetOf, Taken, OfClass, CountKind, Satisfied, MovedUp, HeldBack;
    CycleParts(s);
    TickedQueues(s);
    DispatchPhase(s);
    var e := Scanned(s);
    assert e.readyQ[..|e.readyQ|] == e.readyQ;
    IssueScanUses(e, |e.readyQ|, 0);
    FrontKeepsUse(BackEnd(s));
  }

  /** What a cycle's scan takes is what carries that cycle as its issue cycle. */
  lemma TakenAreIssued(s: State)
    requires Boundary(s) && Timed(s)
    ensures WF(s) && !Underflows(RetireAll(s))
    ensures IssuedAt(Cycle(s), s.cycle) == Elements(TakenFrom(Scanned(s)))
    ensures |IssuedAt(Cycle(s), s.cycle)| == |TakenFrom(Scanned(s))|
  {
    hide Base, SlotClock, RetireAll, Underflows, Scanned, Cycle, Timed, MemoryOps, BudgetOf, Taken, HasIssued, InRange;
    BoundaryHas(s);
    CycleReady(s);
    var e, r := Scanned(s), Cycle(s);
    ReadyUnique(e);
    TakenOrLeft(e.readyQ, MemoryOps(e.ins), BudgetOf(e, 0), 0);
    ElementsSize(TakenFrom(e));
    CycleFrame(s);
    forall i: nat | i < |s.ins| ensures i in IssuedAt(r, s.cycle) <==> i in TakenFrom(e) {
      IssuedBy(s, i);
    }
    forall i | i in TakenFrom(e) ensures i < |s.ins| {
      TakenOrLeft(e.readyQ, MemoryOps(e.ins), BudgetOf(e, 0), i);
      BackSize(s);
    }
    assert IssuedAt(r, s.cycle) == Elements(TakenFrom(e));
  }

  lemma BackSize(s: State)
    requires Boundary(s)
    ensures WF(s) && !Underflows(RetireAll(s)) && |Scanned(s).ins| == |s.ins| && Scanned(s).cfg == s.cfg
  {
    hide Base, SlotClock, RetireAll, Underflows, Tick, DispatchScan, Satisfied, MovedUp, HeldBack;
    DispatchPhase(s);
  }

  /** A later cycle does not change who issued in an earlier one. */
  lemma IssuedKept(s: State, c: nat)
    requires Boundary(s) && Timed(s) && c != s.cycle
    ensures WF(s) && !Underflows(RetireAll(s)) && IssuedAt(Cycle(s), c) == IssuedAt(s, c)
  {
    hide Base, SlotClock, RetireAll, Underflows, Scanned, Cycle, Timed, TakenFrom, HasIssued;
    BoundaryHas(s);
    CycleFrame(s);
    forall i: nat | i < |s.ins| ensures i in IssuedAt(Cycle(s), c) <==> i in IssuedAt(s, c) {
      IssuedBy(s, i);
    }
  }

  lemma IssuedNow(s: State)
    requires Boundary(s) && Timed(s)
    ensures WF(s) && !Underflows(RetireAll(s)) && |IssuedAt(Cycle(s), s.cycle)| <= s.cfg.issueWidth
  {
    hide Base, SlotClock, RetireAll, Underflows, Scanned, Cycle, Timed, Taken, MemoryOps, IssuedAt;
    TakenAreIssued(s);
    BackSize(s);
    var e := Scanned(s);
    TakenWithinBudget(e.readyQ, MemoryOps(e.ins), BudgetOf(e, 0));
    BudgetIs(e);
  }

  /** No cycle of any run issues more instructions than the issue width. */
  lemma {:induction false} IssueWidthHolds(w: seq<Instruction>, cfg: Config, tr: seq<State>, c: nat)
    requires IsRun(w, cfg, tr)
    ensures |IssuedAt(Last(tr), c)| <= cfg.issueWidth
    decreases |tr|
  {
    hide Inv, Cycle, RetireAll, Underflows, HasWork, WF, Boundary, Timed, IssuedAt;
    if |tr| > 1 {
      RunPrefix(w, cfg, tr);
      var p := tr[..|tr| - 1];
      RunInv(w, cfg, p);
      InvBoundary(w, cfg, Last(p));
      InvProgram(w, cfg, Last(p));
      if c == Last(p).cycle {
        IssuedNow(Last(p));
      } else {
        IssuedKept(Last(p), c);
        IssueWidthHolds(w, cfg, p, c);
      }
    } else {
      NoneIssued(w, cfg, c);
    }
  }

  lemma NoneIssued(w: seq<Instruction>, cfg: Config, c: nat)
    ensures IssuedAt(Init(w, cfg), c) == {}
  {
  }

  /** Issue wastes nothing, in any run: at a boundary an instruction still waiting in ready_q
      means that all units of its kind are in use, or that the last cycle issued as many
      instructions as the issue width allows. */
  lemma WaitingHasReason(w: seq<Instruction>, cfg: Config, tr: seq<State>, i: nat)
    requires IsRun(w, cfg, tr) && i in Last(tr).readyQ
    ensures var s := Last(tr);
      && i < |w| && s.cycle > 0
      && (|| (if w[i].op == Compute then s.computeInUse == cfg.computeUnits else s.memoryInUse == cfg.memoryPorts)
          || |IssuedAt(s, s.cycle - 1)| == cfg.issueWidth)
  {
    hide Inv, Cycle, RetireAll, Underflows, HasWork, WF, Boundary, Timed, Scanned, MemoryOps, Taken, Left, OfClass,
      IssuedAt, BudgetOf;
    if |tr| > 1 {
      RunPrefix(w, cfg, tr);
      var p := tr[..|tr| - 1];
      var s := Last(p);
      RunInv(w, cfg, p);
      InvBoundary(w, cfg, s);
      InvProgram(w, cfg, s);
      CycleFrame(s);
      CycleReady(s);
      CycleUses(s);
      TakenAreIssued(s);
      WaitingIn(w, s, i);
      ClassInScan(w, s, i);
      var e := Scanned(s);
      IssueIsWorkConserving(e.readyQ, MemoryOps(e.ins), BudgetOf(e, 0), i);
      BudgetIs(e);
    }
  }

  lemma BudgetIs(e: State)
    ensures BudgetOf(e, 0) ==
      Budget(e.cfg.issueWidth, Monus(e.cfg.memoryPorts, e.memoryInUse), Monus(e.cfg.computeUnits, e.computeInUse))
  {
  }

  lemma WaitingIn(w: seq<Instruction>, s: State, i: nat)
    requires Boundary(s) && SameProgram(w, s) && WF(s) && !Underflows(RetireAll(s)) && i in Cycle(s).readyQ
    ensures i < |w|
  {
    hide Base, SlotClock, RetireAll, Underflows, Cycle;
    CycleKeeps(s);
    CycleFrame(s);
    ReadyReached(Cycle(s), i);
  }

  // ---------- waiting for the issue width is not counted ----------

  /** Two independent compute instructions, and a machine that can do everything two at a time
      but issue. */
  function PairProgram(): seq<Instruction> {
    [Instruction(1, Compute, 1, 0, [], Fetch, 0, 0, 0), Instruction(2, Compute, 1, 0, [], Fetch, 0, 0, 0)]
  }

  function NarrowIssue(): Config {
    Config(2, 2, 2, 1, 2, 1, 2, 2)
  }

  /** The pair at the boundary before cycle `c`, both in stage `st`. */
  function PairAt(st: Stage, c: nat): State {
    var q := [0, 1];
    var x := PairProgram();
    Init(PairProgram(), NarrowIssue()).(
      ins := [x[0].(stage := st), x[1].(stage := st)], next := 2, cycle := c,
      fetchQ := if st == Fetch then q else [], decodeQ := if st == Decode then q else [],
      dispatchQ := if st == Dispatch then q else [])
  }

  lemma PairWF(st: Stage, c: nat)
    ensures WF(PairAt(st, c)) && WF(Init(PairProgram(), NarrowIssue()))
  {
  }

  /** With nothing behind the decode queue only the front end works. */
  lemma FrontOnly(s: State)
    requires WF(s) && s.dispatchQ == [] && s.readyQ == [] && s.retireQ == [] && s.slots == []
    ensures !Underflows(RetireAll(s)) && Cycle(s) == FrontEnd(s).(cycle := FrontEnd(s).cycle + 1)
  {
    hide FrontEnd, WF, RetireAll, Underflows, Tick;
    TickIdle(s);
  }

  lemma TickIdle(s: State)
    requires WF(s) && s.retireQ == [] && s.slots == []
    ensures !Underflows(RetireAll(s)) && Tick(RetireAll(s)) == s
  {
    hide InRange;
    assert MarkFinished(s.ins, [], s.cycle) == s.ins && s.retireQ + [] == s.retireQ;
  }

  lemma FetchPair()
    ensures var s := Init(PairProgram(), NarrowIssue());
      WF(s) && !Underflows(RetireAll(s)) && Cycle(s) == PairAt(Fetch, 1)
  {
    hide WF, Cycle, RetireAll, Underflows, Enter;
    var s := Init(PairProgram(), NarrowIssue());
    PairWF(Fetch, 1);
    FrontOnly(s);
    EnterClosed(s, 2);
    EnterIns(s, 2);
    assert Enter(s, 2).ins == PairAt(Fetch, 1).ins && s.fetchQ + Range(0, 2) == [0, 1];
  }

  lemma DecodePair()
    ensures var s := PairAt(Fetch, 1);
      WF(s) && !Underflows(RetireAll(s)) && Cycle(s) == PairAt(Decode, 2)
  {
    hide WF, Cycle, RetireAll, Underflows, FetchMoves;
    var s := PairAt(Fetch, 1);
    PairWF(Fetch, 1);
    FrontOnly(s);
    FetchMovesClosed(s, 2);
    FetchMovesIns(s, 2);
    assert s.fetchQ[..2] == [0, 1] && FetchMoves(s, 2).ins == PairAt(Decode, 2).ins;
  }

  lemma DispatchPair()
    ensures var s := PairAt(Decode, 2);
      WF(s) && !Underflows(RetireAll(s)) && Cycle(s) == PairAt(Dispatch, 3)
  {
    hide WF, Cycle, RetireAll, Underflows, DecodeMoves;
    var s := PairAt(Decode, 2);
    PairWF(Decode, 2);
    FrontOnly(s);
    DecodeMovesClosed(s, 2);
    DecodeMovesIns(s, 2);
    DispatchFullMeaning(s, 2);
    assert s.decodeQ[..2] == [0, 1] && DecodeMoves(s, 2).ins == PairAt(Dispatch, 3).ins;
  }

  /** Two entries, no memory operation, one issue: the second is skipped. */
  lemma SkipsSecond(mem: set<nat>, b: Budget)
    requires 0 !in mem && b.width == 1 && b.units > 0
    ensures Skipped([0, 1], mem, b) == [1]
  {
    assert Skipped([1], mem, b.Spend(false)) == [1];
  }

  lemma BothMoveUp(sat: set<nat>)
    requires 0 in sat && 1 in sat
    ensures MovedUp([0, 1], sat, 2) == [0, 1]
  {
    assert MovedUp([1], sat, 1) == [1] + MovedUp([], sat, 0);
  }

  lemma NoSlotsNoUse(s: State)
    requires MidCycle(s) && s.slots == []
    ensures s.memoryInUse == 0 && s.computeInUse == 0
  {
    hide Holds, InRange, RetiredOK;
  }

  /** Two satisfied instructions, of which the first takes the one issue there is. */
  lemma OneIsSkipped(w: seq<Instruction>, s: State)
    requires Boundary(s) && SameProgram(w, s) && w != [] && !IsMemoryOp(w[0].op)
    requires s.dispatchQ == [0, 1] && s.readyQ == [] && s.retireQ == [] && s.slots == []
    requires 0 in Satisfied(s.ins, s.retired) && 1 in Satisfied(s.ins, s.retired)
    requires s.cfg.issueWidth == 1 && s.cfg.computeUnits > 0 && s.cfg.readyCapacity == 2
    ensures WidthSkips(s) == 1
  {
    hide WF, Base, SlotClock, RetireAll, Underflows, Tick, DispatchScan, Skipped, MovedUp, HeldBack, Satisfied,
      MidCycle, SameProgram, MemoryOps;
    BoundaryHas(s);
    TickIdle(s);
    DispatchPhase(s);
    TickedQueues(s);
    BothMoveUp(Satisfied(s.ins, s.retired));
    ClassInScan(w, s, 0);
    NoSlotsNoUse(Scanned(s));
    assert ReadyRoom(s) == 2 && Scanned(s).readyQ == [0, 1];
    SkipsSecond(MemoryOps(Scanned(s).ins), BudgetOf(Scanned(s), 0));
  }

  /** In the next cycle both become ready and one issue uses the width up. */
  lemma PairIsSkipped()
    requires Boundary(PairAt(Dispatch, 3))
    ensures WidthSkips(PairAt(Dispatch, 3)) == 1
  {
    hide Boundary, WidthSkips;
    OneIsSkipped(PairProgram(), PairAt(Dispatch, 3));
  }

  /** The pair's fourth boundary in every run that gets that far. */
  lemma PairRuns(tr: seq<State>)
    requires Finishes(PairProgram(), NarrowIssue(), tr)
    ensures |tr| > 4 && tr[3] == PairAt(Dispatch, 3)
  {
    hide WF, Cycle, RetireAll, Underflows;
    FetchPair();
    DecodePair();
    DispatchPair();
    assert tr[0] == Init(PairProgram(), NarrowIssue()) && HasWork(tr[0]);
    assert CycleTo(tr[0], tr[0 + 1]) && HasWork(tr[1]);
    assert CycleTo(tr[1], tr[1 + 1]) && HasWork(tr[2]);
    assert CycleTo(tr[2], tr[2 + 1]) && HasWork(tr[3]);
  }

  /** A program and a machine on which the loop ends, and in whose finished run an instruction
      waits in ready_q for a cycle that no stall counter names. */
  lemma WidthWaitsUncounted()
    ensures Halts(PairProgram(), NarrowIssue())
    ensures forall tr :: Finishes(PairProgram(), NarrowIssue(), tr) ==>
      Last(tr).stats.noMemory + Last(tr).stats.noCompute < ReadyTime(tr)
  {
    hide Finishes, WF, HasWork, Inv, WidthSkips;
    BackwardHalts(PairProgram(), NarrowIssue());
    forall tr | Finishes(PairProgram(), NarrowIssue(), tr)
      ensures |tr| > 0 && Last(tr).stats.noMemory + Last(tr).stats.noCompute < ReadyTime(tr)
    {
      PairRuns(tr);
      FinishesRuns(PairProgram(), NarrowIssue(), tr);
      RunCut(PairProgram(), NarrowIssue(), tr, 4);
      RunInv(PairProgram(), NarrowIssue(), tr[..4]);
      InvBoundary(PairProgram(), NarrowIssue(), tr[3]);
      PairIsSkipped();
      ResourceStallsAreWaiting(PairProgram(), NarrowIssue(), tr);
    }
  }

  lemma FinishesRuns(w: seq<Instruction>, cfg: Config, tr: seq<State>)
    requires Finishes(w, cfg, tr)
    ensures IsRun(w, cfg, tr)
  {
  }
}
