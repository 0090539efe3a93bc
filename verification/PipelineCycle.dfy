/** What one cycle does to one instruction. */
module PipelineCycle {
  import opened Arithmetic
  import opened Instructions
  import opened PipelineModel
  import opened PipelineInvariant
  import opened PipelinePhases
  import opened PipelineScans

  // ---------- the front-end loops in closed form ----------

  function DecodeCount(s: State, room: nat): nat {
    Min(Min(|s.decodeQ|, room), Monus(s.cfg.dispatchCapacity, |s.dispatchQ|))
  }

  lemma InRangeFront(q: seq<nat>, n: nat)
    requires InRange(q, n) && q != []
    ensures q[0] < n
  {
  }

  lemma TakeFront(q: seq<nat>, m: nat)
    requires 0 < m <= |q|
    ensures q[..m] == [q[0]] + q[1..][..m - 1] && q[m..] == q[1..][m - 1..]
    ensures forall i :: i in q[..m] <==> i == q[0] || i in q[1..][..m - 1]
  {
    assert q[..m] == [q[0]] + q[1..][..m - 1];
  }

  lemma {:induction false} DecodeMovesClosed(s: State, room: nat)
    requires WF(s)
    ensures var r, m := DecodeMoves(s, room), DecodeCount(s, room);
      && r.decodeQ == s.decodeQ[m..] && r.dispatchQ == s.dispatchQ + s.decodeQ[..m]
      && r == s.(decodeQ := r.decodeQ, dispatchQ := r.dispatchQ, ins := r.ins,
         stats := s.stats.(dispatchFull := r.stats.dispatchFull))
    decreases room
  {
    hide InRange;
    var r, m := DecodeMoves(s, room), DecodeCount(s, room);
    if s.decodeQ == [] || room == 0 || |s.dispatchQ| >= s.cfg.dispatchCapacity {
      assert s.decodeQ[..0] == [] && s.dispatchQ + [] == s.dispatchQ;
    } else {
      var t := DecodeStep(s);
      DecodeMovesClosed(t, room - 1);
      TakeFront(s.decodeQ, m);
      assert DecodeCount(t, room - 1) == m - 1;
      assert r.dispatchQ == s.dispatchQ + s.decodeQ[..m];
    }
  }

  /** DispatchQueueFull is counted once in a cycle, and exactly when the dispatch queue is what
      stops the decode queue from draining further. */
  lemma {:induction false} DispatchFullMeaning(s: State, room: nat)
    requires WF(s)
    ensures var r := DecodeMoves(s, room);
      var stopped := r.decodeQ != [] && |r.dispatchQ| >= s.cfg.dispatchCapacity && |s.decodeQ| - |r.decodeQ| < room;
      r.stats.dispatchFull == s.stats.dispatchFull + (if stopped then 1 else 0)
    decreases room
  {
    hide InRange;
    if s.decodeQ != [] && room > 0 && |s.dispatchQ| < s.cfg.dispatchCapacity {
      DispatchFullMeaning(DecodeStep(s), room - 1);
      DecodeMovesClosed(DecodeStep(s), room - 1);
    }
  }

  lemma {:induction false} DecodeMovesIns(s: State, room: nat)
    requires WF(s)
    ensures var r, m := DecodeMoves(s, room), DecodeCount(s, room);
      && |r.ins| == |s.ins|
      && forall i :: 0 <= i < |s.ins| ==>
           r.ins[i] == if i in s.decodeQ[..m] then s.ins[i].(stage := Dispatch) else s.ins[i]
    decreases room
  {
    hide InRange;
    if s.decodeQ != [] && room > 0 && |s.dispatchQ| < s.cfg.dispatchCapacity {
      InRangeFront(s.decodeQ, |s.ins|);
      var t := DecodeStep(s);
      DecodeMovesIns(t, room - 1);
      var m := DecodeCount(s, room);
      TakeFront(s.decodeQ, m);
      var r := DecodeMoves(s, room);
      forall i | 0 <= i < |s.ins|
        ensures r.ins[i] == if i in s.decodeQ[..m] then s.ins[i].(stage := Dispatch) else s.ins[i]
      {
        assert r.ins[i] == if i in t.decodeQ[..m - 1] then t.ins[i].(stage := Dispatch) else t.ins[i];
      }
    }
  }

  lemma {:induction false} FetchMovesClosed(s: State, room: nat)
    requires WF(s)
    ensures var r, m := FetchMoves(s, room), Min(|s.fetchQ|, room);
      && r.fetchQ == s.fetchQ[m..] && r.decodeQ == s.decodeQ + s.fetchQ[..m]
      && r == s.(fetchQ := r.fetchQ, decodeQ := r.decodeQ, ins := r.ins)
    decreases room
  {
    hide InRange;
    var r, m := FetchMoves(s, room), Min(|s.fetchQ|, room);
    if s.fetchQ == [] || room == 0 {
      assert s.fetchQ[..0] == [] && s.decodeQ + [] == s.decodeQ;
    } else {
      var t := FetchStep(s);
      FetchMovesClosed(t, room - 1);
      TakeFront(s.fetchQ, m);
      assert r.decodeQ == s.decodeQ + s.fetchQ[..m];
    }
  }

  lemma {:induction false} FetchMovesIns(s: State, room: nat)
    requires WF(s)
    ensures var r, m := FetchMoves(s, room), Min(|s.fetchQ|, room);
      && |r.ins| == |s.ins|
      && forall i :: 0 <= i < |s.ins| ==>
           r.ins[i] == if i in s.fetchQ[..m] then s.ins[i].(stage := Decode) else s.ins[i]
    decreases room
  {
    hide InRange;
    if s.fetchQ != [] && room > 0 {
      InRangeFront(s.fetchQ, |s.ins|);
      var t := FetchStep(s);
      FetchMovesIns(t, room - 1);
      var m := Min(|s.fetchQ|, room);
      TakeFront(s.fetchQ, m);
      var r := FetchMoves(s, room);
      forall i | 0 <= i < |s.ins|
        ensures r.ins[i] == if i in s.fetchQ[..m] then s.ins[i].(stage := Decode) else s.ins[i]
      {
        assert r.ins[i] == if i in t.fetchQ[..m - 1] then t.ins[i].(stage := Decode) else t.ins[i];
      }
    }
  }

  lemma {:induction false} EnterClosed(s: State, room: nat)
    requires WF(s)
    ensures var r, m := Enter(s, room), Min(|s.ins| - s.next, room);
      && r == s.(next := s.next + m, fetchQ := s.fetchQ + Range(s.next, m), ins := r.ins)
    decreases room
  {
    hide InRange;
    if s.next < |s.ins| && room > 0 {
      EnterClosed(EnterStep(s), room - 1);
      var m := Min(|s.ins| - s.next, room);
      assert Range(s.next, m) == [s.next] + Range(s.next + 1, m - 1);
    } else {
      assert s.fetchQ + Range(s.next, 0) == s.fetchQ;
    }
  }

  lemma {:induction false} EnterIns(s: State, room: nat)
    requires WF(s)
    ensures var r, m := Enter(s, room), Min(|s.ins| - s.next, room);
      && |r.ins| == |s.ins|
      && forall i :: 0 <= i < |s.ins| ==>
           r.ins[i] == if s.next <= i < s.next + m then s.ins[i].(stage := Fetch, enqueueCycle := s.cycle) else s.ins[i]
    decreases room
  {
    hide InRange;
    if s.next < |s.ins| && room > 0 {
      EnterIns(EnterStep(s), room - 1);
    }
  }

  // ---------- one instruction through one cycle ----------

  /** The back end: retire, complete, become ready, issue. */
  ghost predicate BackMove(c: nat, retired: set<nat>, a: Instruction, b: Instruction) {
    match a.stage
    case Retire => b == a.(stage := Done)
    case Execute =>
      if c < a.issueCycle + ExecCycles(a) then b == a
      else c == a.issueCycle + ExecCycles(a) && b == a.(stage := Retire, completeCycle := c)
    case Dispatch =>
      || b == a
      || (DepsSatisfied(a, retired) && (b == a.(stage := Ready) || b == a.(stage := Execute, issueCycle := c)))
    case Ready => b == a || b == a.(stage := Execute, issueCycle := c)
    case _ => b == a
  }

  lemma HoldsMember(q: seq<nat>, ins: seq<Instruction>, next: nat, st: Stage, i: nat)
    requires Holds(q, ins, next, st)
    ensures i in q ==> i < next && i < |ins| && ins[i].stage == st
    ensures i < next && i < |ins| && ins[i].stage == st ==> i in q
  {
  }

  /** The state of the back end between its four phases. */
  lemma BackEndParts(s: State)
    requires Boundary(s)
    ensures !Underflows(RetireAll(s))
    ensures var r, d := RetireAll(s), Tick(RetireAll(s));
      var i := DispatchScan(d, |d.dispatchQ|);
      && Base(r) && SlotClock(r, s.cycle - 1) && MidCycle(d) && MidCycle(i) && MidCycle(BackEnd(s))
      && r.cycle == s.cycle && BackEnd(s) == IssueScan(i, |i.readyQ|, 0)
  {
    hide Base, WF, InRange, SlotClock, RetireAll, Underflows, DispatchScan, IssueScan;
    RetireAllBase(s);
    BackEndKeeps(s);
    RetireClock(s);
    BaseHas(s);
    RetireAllEffect(s);
  }

  lemma BaseHas(s: State)
    requires Base(s)
    ensures WF(s) && Placed(s) && Resources(s) && RetiredOK(s) && Conserved(s)
  {
  }

  lemma TickAt(r: State, i: nat)
    requires Base(r) && SlotClock(r, r.cycle - 1) && !Underflows(r) && i < |r.ins|
    ensures var d := Tick(r);
      && |d.ins| == |r.ins| && d.next == r.next && d.cycle == r.cycle && d.retired == r.retired
      && d.ins[i] == (if EndsNow(r, i) then r.ins[i].(stage := Retire, completeCycle := r.cycle) else r.ins[i])
      && (i < r.next && r.ins[i].stage == Execute ==> r.cycle <= r.ins[i].issueCycle + ExecCycles(r.ins[i]))
  {
    hide Holds, InRange, SlotClock, RetiredOK, Finished, Survivors, Underflows, EndsNow;
    TickEffect(r);
  }

  lemma RetireTickAt(s: State, i: nat)
    requires Boundary(s) && i < |s.ins|
    ensures !Underflows(RetireAll(s))
    ensures var d := Tick(RetireAll(s));
      && |d.ins| == |s.ins| && d.next == s.next && d.cycle == s.cycle && s.retired <= d.retired
      && (if i < s.next then BackMove(s.cycle, d.retired, s.ins[i], d.ins[i]) else d.ins[i] == s.ins[i])
      && (i < s.next && s.ins[i].stage in {Ready, Dispatch} ==> d.ins[i] == s.ins[i])
      && (d.ins[i].stage in {Ready, Dispatch} ==> d.ins[i] == s.ins[i])
  {
    hide Holds, InRange, SlotClock, Resources, RetiredOK, DepsSatisfied, RetireAll, Tick, Underflows;
    BackEndParts(s);
    RetireAllEffect(s);
    TickAt(RetireAll(s), i);
  }

  lemma ScansAt(d: State, i: nat)
    requires MidCycle(d) && MidCycle(DispatchScan(d, |d.dispatchQ|)) && i < |d.ins|
    ensures var e := DispatchScan(d, |d.dispatchQ|);
      var b := IssueScan(e, |e.readyQ|, 0);
      && |b.ins| == |d.ins| && b.next == d.next && b.cycle == d.cycle && b.retired == d.retired
      && (b.ins[i] == d.ins[i]
           || (i < d.next && d.ins[i].stage in {Ready, Dispatch} && BackMove(d.cycle, d.retired, d.ins[i], b.ins[i])))
  {
    hide Holds, InRange, SlotClock, CountKind, RetiredOK, DepsSatisfied, DispatchScan, IssueScan, MovedUp, Taken,
      BudgetOf, MemoryOps;
    var n := |d.dispatchQ|;
    var e := DispatchScan(d, n);
    assert d.dispatchQ[..n] == d.dispatchQ && e.readyQ[..|e.readyQ|] == e.readyQ;
    DispatchScanIsFilter(d, n);
    DispatchScanMoves(d, n);
    MovedUpMeaning(d.dispatchQ, Satisfied(d.ins, d.retired), ReadyRoom(d));
    HoldsMember(d.dispatchQ, d.ins, d.next, Dispatch, i);
    IssueScanIsFilter(e, |e.readyQ|, 0);
    IssueScanMoves(e, |e.readyQ|, 0);
    TakenWithinBudget(e.readyQ, MemoryOps(e.ins), BudgetOf(e, 0));
    HoldsMember(e.readyQ, e.ins, e.next, Ready, i);
  }

  lemma BackAdvance(s: State, i: nat)
    requires Boundary(s) && i < |s.ins|
    ensures !Underflows(RetireAll(s))
    ensures var b := BackEnd(s);
      && |b.ins| == |s.ins| && b.next == s.next && b.cycle == s.cycle && s.retired <= b.retired
      && (if i < s.next then BackMove(s.cycle, b.retired, s.ins[i], b.ins[i]) else b.ins[i] == s.ins[i])
  {
    hide Base, SlotClock, RetireAll, DepsSatisfied, DispatchScan, IssueScan, Tick, Underflows;
    BaseHas(s);
    BackEndParts(s);
    RetireTickAt(s, i);
    ScansAt(Tick(RetireAll(s)), i);
  }

  /** The front end: dispatch, decode, fetch. */
  ghost predicate FrontMove(c: nat, a: Instruction, fetchedBefore: bool, b: Instruction, fetchedAfter: bool) {
    if !fetchedBefore then
      if fetchedAfter then b == a.(stage := Fetch, enqueueCycle := c) else b == a
    else
      fetchedAfter &&
      match a.stage
      case Fetch => b == a || b == a.(stage := Decode)
      case Decode => b == a || b == a.(stage := Dispatch)
      case _ => b == a
  }

  lemma FrontEndParts(s: State)
    requires MidCycle(s)
    ensures var d := DecodeMoves(s, s.cfg.dispatchWidth);
      var f := FetchMoves(d, s.cfg.decodeWidth);
      && MidCycle(d) && MidCycle(f) && MidCycle(FrontEnd(s)) && FrontEnd(s) == Enter(f, s.cfg.fetchWidth)
  {
    hide Base, SlotClock, DecodeMoves, FetchMoves, Enter;
    BaseHas(s);
    DecodeMovesKeeps(s, s.cfg.dispatchWidth);
    var d := DecodeMoves(s, s.cfg.dispatchWidth);
    BaseHas(d);
    FetchMovesKeeps(d, s.cfg.decodeWidth);
    FrontEndKeeps(s);
  }

  lemma FrontAdvance(s: State, i: nat)
    requires MidCycle(s) && i < |s.ins|
    ensures var r := FrontEnd(s);
      && |r.ins| == |s.ins| && s.next <= r.next && r.cycle == s.cycle && r.retired == s.retired
      && r.readyQ == s.readyQ && r.slots == s.slots && r.retireQ == s.retireQ && r.cfg == s.cfg
      && FrontMove(s.cycle, s.ins[i], i < s.next, r.ins[i], i < r.next)
  {
    hide Holds, InRange, SlotClock, Resources, RetiredOK, DecodeMoves, FetchMoves, Enter;
    FrontEndParts(s);
    var d := DecodeMoves(s, s.cfg.dispatchWidth);
    var f := FetchMoves(d, s.cfg.decodeWidth);
    DecodeMovesClosed(s, s.cfg.dispatchWidth);
    DecodeMovesIns(s, s.cfg.dispatchWidth);
    FetchMovesClosed(d, s.cfg.decodeWidth);
    FetchMovesIns(d, s.cfg.decodeWidth);
    EnterClosed(f, s.cfg.fetchWidth);
    EnterIns(f, s.cfg.fetchWidth);
    HoldsMember(s.decodeQ, s.ins, s.next, Decode, i);
    HoldsMember(d.fetchQ, d.ins, d.next, Fetch, i);
  }

  /** One instruction through one whole cycle `c`; `retired` are the ids retired by its end. */
  ghost predicate Advance(c: nat, retired: set<nat>, a: Instruction, af: bool, b: Instruction, bf: bool) {
    if !af then FrontMove(c, a, af, b, bf)
    else bf && if a.stage in {Fetch, Decode} then FrontMove(c, a, af, b, bf) else BackMove(c, retired, a, b)
  }

  lemma Compose(c: nat, retired: set<nat>, a: Instruction, af: bool, m: Instruction, b: Instruction, bf: bool)
    requires if af then BackMove(c, retired, a, m) else m == a
    requires FrontMove(c, m, af, b, bf)
    ensures Advance(c, retired, a, af, b, bf)
  {
  }

  /** A cycle moves every instruction along the stage graph and in no other way. */
  lemma CycleAdvance(s: State, i: nat)
    requires Boundary(s) && i < |s.ins|
    ensures !Underflows(RetireAll(s))
    ensures var r := Cycle(s);
      && |r.ins| == |s.ins| && s.next <= r.next && r.cycle == s.cycle + 1 && s.retired <= r.retired
      && Advance(s.cycle, r.retired, s.ins[i], i < s.next, r.ins[i], i < r.next)
  {
    hide Base, SlotClock, RetireAll, Underflows, BackEnd, FrontEnd, DepsSatisfied, BackMove, FrontMove, Advance,
      InRange;
    BaseHas(s);
    BackEndParts(s);
    BackAdvance(s, i);
    FrontAdvance(BackEnd(s), i);
    var b, r := BackEnd(s), Cycle(s);
    Compose(s.cycle, r.retired, s.ins[i], i < s.next, b.ins[i], r.ins[i], i < r.next);
  }

  lemma BackFrame(s: State)
    requires Boundary(s)
    ensures !Underflows(RetireAll(s))
    ensures var b := BackEnd(s);
      && |b.ins| == |s.ins| && b.next == s.next && b.cycle == s.cycle && b.cfg == s.cfg
      && s.retired <= b.retired && b.fetchQ == s.fetchQ && b.decodeQ == s.decodeQ
  {
    hide Base, SlotClock, RetireAll, DispatchScan, IssueScan, Finished, Survivors;
    BaseHas(s);
    BackEndParts(s);
    var r := RetireAll(s);
    RetireAllEffect(s);
    BaseHas(r);
    var d := Tick(r);
    BaseHas(d);
    var e := DispatchScan(d, |d.dispatchQ|);
    DispatchScanIsFilter(d, |d.dispatchQ|);
    DispatchScanMoves(d, |d.dispatchQ|);
    BaseHas(e);
    IssueScanIsFilter(e, |e.readyQ|, 0);
    IssueScanMoves(e, |e.readyQ|, 0);
  }

  lemma FrontFrame(s: State)
    requires MidCycle(s)
    ensures var r := FrontEnd(s);
      && |r.ins| == |s.ins| && s.next <= r.next && r.cycle == s.cycle && r.cfg == s.cfg && r.retired == s.retired
      && r.readyQ == s.readyQ && r.slots == s.slots && r.retireQ == s.retireQ
  {
    hide Base, SlotClock, DecodeMoves, FetchMoves, Enter;
    BaseHas(s);
    FrontEndParts(s);
    DecodeMovesClosed(s, s.cfg.dispatchWidth);
    DecodeMovesIns(s, s.cfg.dispatchWidth);
    var d := DecodeMoves(s, s.cfg.dispatchWidth);
    BaseHas(d);
    FetchMovesClosed(d, s.cfg.decodeWidth);
    FetchMovesIns(d, s.cfg.decodeWidth);
    var f := FetchMoves(d, s.cfg.decodeWidth);
    BaseHas(f);
    EnterClosed(f, s.cfg.fetchWidth);
    EnterIns(f, s.cfg.fetchWidth);
  }

  /** What a cycle leaves alone as a whole. */
  lemma CycleFrame(s: State)
    requires Boundary(s)
    ensures !Underflows(RetireAll(s))
    ensures var r := Cycle(s);
      |r.ins| == |s.ins| && s.next <= r.next <= |r.ins| && r.cycle == s.cycle + 1 && r.cfg == s.cfg
        && s.retired <= r.retired
  {
    hide Base, SlotClock, RetireAll, Underflows, BackEnd, FrontEnd;
    BaseHas(s);
    BackEndParts(s);
    BackFrame(s);
    FrontFrame(BackEnd(s));
  }
}
