/** Each stall counter on its own, over whole runs, told by what is seen at the cycle boundaries;
    and for every queue the only reasons for which an instruction stays in it. */
module PipelineStalls {
  import opened Arithmetic
  import opened Instructions
  import opened PipelineModel
  import opened PipelineInvariant
  import opened PipelinePhases
  import opened PipelineScans
  import opened PipelineCycle
  import opened PipelineRuns
  import opened PipelineOrder
  import opened PipelineQueues
  import opened PipelineIssue

  // ---------- what stalls between two boundaries ----------

  /** Dispatched instructions with a dependency that has not retired by the end of the cycle. */
  ghost function DepWaiters(s: State, r: State): set<nat> {
    set i | i in s.dispatchQ && i < |s.ins| && !DepsSatisfied(s.ins[i], r.retired)
  }

  /** Dispatched instructions that could leave but for the ready queue. */
  ghost function RoomWaiters(s: State, r: State): set<nat> {
    set i | i in s.dispatchQ && i in r.dispatchQ && i < |s.ins| && DepsSatisfied(s.ins[i], r.retired)
  }

  /** The cycle issued all that the width allows, and `i` stands behind every one of them. */
  ghost predicate Outrun(s: State, r: State, i: nat) {
    && |IssuedAt(r, s.cycle)| == s.cfg.issueWidth
    && forall j :: j in IssuedAt(r, s.cycle) ==> Before(ReadyToIssue(s), j, i)
  }

  /** Loads and stores, or compute instructions, left in ready_q and not outrun. */
  ghost function UnitWaiters(s: State, r: State, memory: bool): set<nat> {
    set i | i in r.readyQ && i < |s.ins| && (s.ins[i].op == Compute <==> !memory) && !Outrun(s, r, i)
  }

  /** Decoded instructions dispatched in the cycle. */
  ghost function DispatchedNow(s: State, r: State): set<nat> {
    set i | i in s.decodeQ && i in r.dispatchQ
  }

  /** Dispatch had width left and somebody to move, but no room. */
  ghost predicate DecodeStopped(s: State, r: State) {
    |DispatchedNow(s, r)| < Min(|s.decodeQ|, s.cfg.dispatchWidth) && |r.dispatchQ| >= s.cfg.dispatchCapacity
  }

  // ---------- the dispatch scan ----------

  ghost function Outside(q: seq<nat>, sat: set<nat>): set<nat> {
    set i | i in q && i !in sat
  }

  lemma {:induction false} UnsatisfiedCount(q: seq<nat>, sat: set<nat>)
    requires Unique(q)
    ensures Unsatisfied(q, sat) == |Outside(q, sat)|
  {
    if q == [] {
      assert Outside(q, sat) == {};
    } else {
      UnsatisfiedCount(q[1..], sat);
      var rest := Outside(q[1..], sat);
      assert q == [q[0]] + q[1..];
      assert Outside(q, sat) == (if q[0] in sat then rest else rest + {q[0]});
      assert q[0] !in q[1..];
    }
  }

  lemma {:induction false} HeldIff(q: seq<nat>, sat: set<nat>, room: nat, i: nat)
    requires Unique(q)
    ensures i in HeldBack(q, sat, room) ==> i in q
    ensures i in q && i !in sat ==> i in HeldBack(q, sat, room)
    ensures Unique(HeldBack(q, sat, room))
  {
    if q != [] {
      var room' := if q[0] in sat && room > 0 then room - 1 else room;
      HeldIff(q[1..], sat, room', i);
      HeldIff(q[1..], sat, room', q[0]);
      assert q == [q[0]] + q[1..];
      assert q[0] !in q[1..];
      var h := HeldBack(q[1..], sat, room');
      forall k | 0 <= k < |h| ensures h[k] != q[0] {
        assert h[k] in h;
      }
    }
  }

  lemma HeldAll(q: seq<nat>, sat: set<nat>, room: nat)
    requires Unique(q)
    ensures Unique(HeldBack(q, sat, room)) && forall i :: i in HeldBack(q, sat, room) ==> i in q
    ensures forall i :: i in Outside(q, sat) ==> i in HeldBack(q, sat, room)
  {
    hide Unique, HeldBack;
    HeldIff(q, sat, room, 0);
    forall i | i in HeldBack(q, sat, room) ensures i in q { HeldIff(q, sat, room, i); }
    forall i | i in Outside(q, sat) ensures i in HeldBack(q, sat, room) { HeldIff(q, sat, room, i); }
  }

  lemma DispatchUnchanged(s: State, i: nat)
    requires Boundary(s) && i in s.dispatchQ
    ensures WF(s) && !Underflows(RetireAll(s))
    ensures i < s.next && i < |s.ins| == |Ticked'(s).ins| && Ticked'(s).ins[i] == s.ins[i] && s.ins[i].stage == Dispatch
  {
    hide Resources, RetiredOK, SlotClock, RetireAll, Tick, Underflows, InRange, DepsSatisfied;
    HoldsMember(s.dispatchQ, s.ins, s.next, Dispatch, i);
    RetireTickAt(s, i);
  }

  lemma QueuesUnique(s: State)
    requires Base(s)
    ensures Unique(s.dispatchQ) && Unique(s.decodeQ) && Unique(s.fetchQ) && Unique(s.readyQ)
  {
    hide InRange, Resources, RetiredOK;
  }

  /** The retired set at the end of the cycle is the one the dispatch scan used, and what stays of
      dispatch_q is what the scan held back. */
  lemma DispatchSeen(s: State)
    requires Boundary(s)
    ensures WF(s) && !Underflows(RetireAll(s))
    ensures var d, r, sat := Ticked'(s), Cycle(s), Satisfied(Ticked'(s).ins, Ticked'(s).retired);
      && r.retired == d.retired && |d.ins| == |s.ins|
      && DepWaiters(s, r) == Outside(s.dispatchQ, sat)
      && (forall i :: i in s.dispatchQ ==>
           i < |s.ins| && (i in r.dispatchQ <==> i in HeldBack(s.dispatchQ, sat, ReadyRoom(s))))
  {
    hide Base, SlotClock, RetireAll, Underflows, Tick, BackEnd, FrontEnd, Satisfied, HeldBack, DepsSatisfied, Range;
    TickedQueues(s);
    BackQueues(s);
    CycleParts(s);
    FrontQueues(BackEnd(s));
    RetiredSeen(s);
    var d, r, sat := Ticked'(s), Cycle(s), Satisfied(Ticked'(s).ins, Ticked'(s).retired);
    forall i | i in s.dispatchQ
      ensures i < |s.ins| && (i in sat <==> DepsSatisfied(s.ins[i], r.retired)) && i !in s.decodeQ
    {
      DispatchUnchanged(s, i);
      InSatisfied(d, i);
      NotDecoded(s, i);
    }
  }

  lemma InSatisfied(d: State, i: nat)
    requires i < |d.ins|
    ensures i in Satisfied(d.ins, d.retired) <==> DepsSatisfied(d.ins[i], d.retired)
  {
  }

  lemma NotDecoded(s: State, i: nat)
    requires Boundary(s) && i in s.dispatchQ
    ensures i !in s.decodeQ
  {
    hide Resources, RetiredOK, SlotClock, InRange;
    HoldsMember(s.dispatchQ, s.ins, s.next, Dispatch, i);
    HoldsMember(s.decodeQ, s.ins, s.next, Decode, i);
  }

  lemma RetiredSeen(s: State)
    requires Boundary(s)
    ensures WF(s) && !Underflows(RetireAll(s)) && Cycle(s).retired == Ticked'(s).retired
  {
    hide Base, SlotClock, RetireAll, Underflows, Tick, DispatchScan, IssueScan, FrontEnd, Satisfied, MovedUp, HeldBack,
      Taken, Left, MemoryOps, BudgetOf;
    TickedQueues(s);
    DispatchPhase(s);
    CycleParts(s);
    FrontFrame(BackEnd(s));
    var e := Scanned(s);
    BaseHas(e);
    IssueScanIsFilter(e, |e.readyQ|, 0);
  }

  /** WaitingDependency and ReadyQueueFull over one cycle. */
  lemma DispatchStallsOf(s: State)
    requires Boundary(s)
    ensures WF(s) && !Underflows(RetireAll(s))
    ensures var r := Cycle(s);
      && r.stats.waitingDep == s.stats.waitingDep + |DepWaiters(s, r)|
      && r.stats.readyFull == s.stats.readyFull + |RoomWaiters(s, r)|
  {
    hide Base, SlotClock, RetireAll, Underflows, Tick, BackEnd, FrontEnd, Satisfied, MovedUp, HeldBack, DepsSatisfied,
      Taken, Left, Range, Unsatisfied, Unique, DepWaiters, RoomWaiters, Outside, Elements, WF, InRange, Boundary;
    TickedQueues(s);
    BackQueues(s);
    DispatchPhase(s);
    CycleParts(s);
    FrontQueues(BackEnd(s));
    DispatchSeen(s);
    BoundaryBase(s);
    QueuesUnique(s);
    IssueKeepsDispatchStats(s);
    var r, sat, room := Cycle(s), Satisfied(Ticked'(s).ins, Ticked'(s).retired), ReadyRoom(s);
    var held := HeldBack(s.dispatchQ, sat, room);
    UnsatisfiedCount(s.dispatchQ, sat);
    HeldAll(s.dispatchQ, sat, room);
    ElementsSize(held);
    HeldSplits(s, r, held);
  }

  lemma BoundaryBase(s: State)
    requires Boundary(s)
    ensures Base(s)
  {
  }

  lemma IssueKeepsDispatchStats(s: State)
    requires Boundary(s)
    ensures WF(s) && !Underflows(RetireAll(s))
    ensures BackEnd(s).stats.waitingDep == Scanned(s).stats.waitingDep
      && BackEnd(s).stats.readyFull == Scanned(s).stats.readyFull
  {
    hide Base, SlotClock, RetireAll, Underflows, Tick, DispatchScan, IssueScan, Taken, Left, MemoryOps, BudgetOf;
    TickedQueues(s);
    IssuePhase(Scanned(s));
  }

  lemma HeldSplits(s: State, r: State, held: seq<nat>)
    requires forall i :: i in s.dispatchQ ==> i < |s.ins| && (i in r.dispatchQ <==> i in held)
    requires forall i :: i in held ==> i in s.dispatchQ
    requires forall i :: i in DepWaiters(s, r) ==> i in held
    ensures |Elements(held)| == |DepWaiters(s, r)| + |RoomWaiters(s, r)|
  {
    assert Elements(held) == DepWaiters(s, r) + RoomWaiters(s, r);
    assert DepWaiters(s, r) !! RoomWaiters(s, r);
  }

  // ---------- the issue scan ----------

  /** What a shorter queue would give is taken first; the rest comes from the rest of the queue. */
  lemma {:induction false} TakenPrefix(q: seq<nat>, mem: set<nat>, b: Budget, n: nat)
    requires n <= |q|
    ensures var t, u := Taken(q, mem, b), Taken(q[..n], mem, b);
      u <= t && forall k :: |u| <= k < |t| ==> t[k] in q[n..]
    decreases q
  {
    TakenWithinBudget(q, mem, b);
    if n > 0 {
      var kind := q[0] in mem;
      assert q[..n][0] == q[0] && q[..n][1..] == q[1..][..n - 1] && q[n..] == q[1..][n - 1..];
      TakenPrefix(q[1..], mem, if b.Allows(kind) then b.Spend(kind) else b, n - 1);
    }
  }

  lemma BeforeAt(q: seq<nat>, j: nat, x: nat)
    requires Unique(q) && x < |q|
    ensures j in q[..x] <==> Before(q, j, q[x])
  {
    if j in q[..x] {
      var y :| 0 <= y < x && q[..x][y] == j;
      assert q[y] == j;
    }
    if Before(q, j, q[x]) {
      var y, z :| 0 <= y < z < |q| && q[y] == j && q[z] == q[x];
      assert q[..x][y] == j;
    }
  }

  /** An entry is skipped if and only if the width is used up by issues that all stand before it. */
  lemma SkippedIff(q: seq<nat>, mem: set<nat>, b: Budget, x: nat)
    requires Unique(q) && x < |q|
    ensures q[x] in Skipped(q, mem, b) <==>
      |Taken(q, mem, b)| == b.width && forall j :: j in Taken(q, mem, b) ==> Before(q, j, q[x])
  {
    hide Taken, Skipped, Before;
    var t, skipped := Taken(q, mem, b), Skipped(q, mem, b);
    var m := |q| - |skipped|;
    SkippedMeaning(q, mem, b);
    TakenWithinBudget(q, mem, b);
    if x >= m {
      assert skipped[x - m] == q[x];
      TakenPrefix(q, mem, b, m);
      TakenWithinBudget(q[..m], mem, b);
      assert skipped != [] && t == Taken(q[..m], mem, b);
      forall j | j in t ensures Before(q, j, q[x]) {
        assert j in q[..m];
        var y :| 0 <= y < m && q[..m][y] == j;
        assert q[..x][y] == j;
        BeforeAt(q, j, x);
      }
    } else {
      assert q[x] !in q[m..];
      TakenPrefix(q, mem, b, x);
      if |t| == b.width {
        var j := t[|t| - 1];
        assert j in q[x..];
        var y :| 0 <= y < |q| - x && q[x..][y] == j;
        BeforeAt(q, j, x);
        assert q[x + y] == j && j !in q[..x];
      }
    }
  }

  ghost function ClassOf(q: seq<nat>, mem: set<nat>, memory: bool): set<nat> {
    set i | i in q && (i in mem) == memory
  }

  lemma ClassCons(q: seq<nat>, mem: set<nat>, memory: bool)
    requires q != [] && Unique(q)
    ensures var rest := ClassOf(q[1..], mem, memory);
      && q[0] !in rest && Unique(q[1..])
      && ClassOf(q, mem, memory) == (if (q[0] in mem) == memory then rest + {q[0]} else rest)
  {
    assert q == [q[0]] + q[1..];
    forall i | i in q[1..] ensures i != q[0] {}
  }

  lemma {:induction false} ClassCount(q: seq<nat>, mem: set<nat>, memory: bool)
    requires Unique(q)
    ensures |OfClass(q, mem, memory)| == |ClassOf(q, mem, memory)|
  {
    hide ClassOf, Unique;
    if q == [] {
      NoClass(mem, memory);
    } else {
      ClassCons(q, mem, memory);
      ClassCount(q[1..], mem, memory);
    }
  }

  lemma NoClass(mem: set<nat>, memory: bool)
    ensures ClassOf([], mem, memory) == {}
  {
  }

  lemma {:induction false} LeftUnique(q: seq<nat>, mem: set<nat>, b: Budget)
    requires Unique(q)
    ensures Unique(Left(q, mem, b))
    decreases q
  {
    if q != [] {
      var kind := q[0] in mem;
      var b' := if b.Allows(kind) then b.Spend(kind) else b;
      LeftUnique(q[1..], mem, b');
      TakenOrLeft(q[1..], mem, b', q[0]);
      var l := Left(q[1..], mem, b');
      forall k | 0 <= k < |l| ensures l[k] != q[0] {
        assert l[k] in l;
      }
    }
  }

  /** The entries of a class left and not skipped. */
  lemma CountedLeft(q: seq<nat>, mem: set<nat>, b: Budget, memory: bool)
    requires Unique(q)
    ensures var left, skipped := Left(q, mem, b), Skipped(q, mem, b);
      |OfClass(left, mem, memory)| ==
        |OfClass(skipped, mem, memory)| + |ClassOf(left, mem, memory) - ClassOf(skipped, mem, memory)|
  {
    hide Taken, Left, Skipped, OfClass;
    var left, skipped := Left(q, mem, b), Skipped(q, mem, b);
    LeftUnique(q, mem, b);
    ClassCount(left, mem, memory);
    SkippedMeaning(q, mem, b);
    ClassCount(skipped, mem, memory);
    forall i | i in skipped ensures i in left {
      var k :| 0 <= k < |skipped| && skipped[k] == i;
      var x := |q| - |skipped| + k;
      assert q[x] == i;
      SkippedIff(q, mem, b, x);
      TakenOrLeft(q, mem, b, i);
      BeforeAt(q, i, x);
    }
    var a, c := ClassOf(left, mem, memory), ClassOf(skipped, mem, memory);
    assert c <= a;
    assert a == (a - c) + c;
  }

  lemma SkippedIsOutrun(s: State, i: nat)
    requires Boundary(s) && Timed(s)
    ensures WF(s) && !Underflows(RetireAll(s))
    ensures var e := Scanned(s);
      i in e.readyQ ==> (i in Skipped(e.readyQ, MemoryOps(e.ins), BudgetOf(e, 0)) <==> Outrun(s, Cycle(s), i))
  {
    hide Base, SlotClock, RetireAll, Underflows, Scanned, Cycle, Timed, MemoryOps, Skipped, Taken, Before, IssuedAt,
      InRange, BudgetOf;
    CycleReady(s);
    var e := Scanned(s);
    ReadyUnique(e);
    TakenAreIssued(s);
    BudgetIs(e);
    BackSize(s);
    if i in e.readyQ {
      var x :| 0 <= x < |e.readyQ| && e.readyQ[x] == i;
      SkippedIff(e.readyQ, MemoryOps(e.ins), BudgetOf(e, 0), x);
    }
  }

  lemma IssueScanStats(s: State)
    requires Boundary(s)
    ensures WF(s) && !Underflows(RetireAll(s))
    ensures var e, r := Scanned(s), Cycle(s);
      var mem, b := MemoryOps(e.ins), BudgetOf(e, 0);
      && r.stats.noMemory + |OfClass(Skipped(e.readyQ, mem, b), mem, true)| ==
           s.stats.noMemory + |OfClass(Left(e.readyQ, mem, b), mem, true)|
      && r.stats.noCompute + |OfClass(Skipped(e.readyQ, mem, b), mem, false)| ==
           s.stats.noCompute + |OfClass(Left(e.readyQ, mem, b), mem, false)|
  {
    hide Base, SlotClock, RetireAll, Underflows, Tick, DispatchScan, IssueScan, FrontEnd, Satisfied, MovedUp, HeldBack,
      Taken, Left, MemoryOps, BudgetOf, OfClass, Skipped, Range;
    TickedQueues(s);
    DispatchPhase(s);
    CycleParts(s);
    FrontQueues(BackEnd(s));
    var e := Scanned(s);
    BaseHas(e);
    IssueStalls(e, |e.readyQ|, 0);
    assert e.readyQ[..|e.readyQ|] == e.readyQ;
  }

  lemma WaitersOf(s: State, memory: bool)
    requires Boundary(s) && Timed(s)
    ensures WF(s) && !Underflows(RetireAll(s))
    ensures var e := Scanned(s);
      var q, mem, b := e.readyQ, MemoryOps(e.ins), BudgetOf(e, 0);
      UnitWaiters(s, Cycle(s), memory) ==
        ClassOf(Left(q, mem, b), mem, memory) - ClassOf(Skipped(q, mem, b), mem, memory)
  {
    hide Base, SlotClock, RetireAll, Underflows, Scanned, Cycle, Timed, MemoryOps, BudgetOf, Skipped, Taken, Left,
      Outrun, InRange;
    CycleReady(s);
    var e := Scanned(s);
    var q, mem, b := e.readyQ, MemoryOps(e.ins), BudgetOf(e, 0);
    ReadyUnique(e);
    forall i | i in Left(q, mem, b)
      ensures i < |s.ins| && (i in mem <==> s.ins[i].op != Compute)
      ensures i in Skipped(q, mem, b) <==> Outrun(s, Cycle(s), i)
    {
      TakenOrLeft(q, mem, b, i);
      BackSize(s);
      ClassInScan(s.ins, s, i);
      SkippedIsOutrun(s, i);
    }
  }

  /** NoMemoryPort and NoComputeUnit over one cycle. */
  lemma IssueStallsOf(s: State)
    requires Boundary(s) && Timed(s)
    ensures WF(s) && !Underflows(RetireAll(s))
    ensures var r := Cycle(s);
      && r.stats.noMemory == s.stats.noMemory + |UnitWaiters(s, r, true)|
      && r.stats.noCompute == s.stats.noCompute + |UnitWaiters(s, r, false)|
  {
    hide Base, SlotClock, RetireAll, Underflows, Scanned, Cycle, Timed, MemoryOps, BudgetOf, Skipped, Left,
      UnitWaiters, ClassOf, OfClass, InRange;
    CycleReady(s);
    var e := Scanned(s);
    ReadyUnique(e);
    IssueScanStats(s);
    WaitersOf(s, true);
    WaitersOf(s, false);
    CountedLeft(e.readyQ, MemoryOps(e.ins), BudgetOf(e, 0), true);
    CountedLeft(e.readyQ, MemoryOps(e.ins), BudgetOf(e, 0), false);
  }

  // ---------- decode to dispatch ----------

  lemma FrontStats(b: State)
    requires MidCycle(b)
    ensures WF(b) && FrontEnd(b).stats == DecodeMoves(b, b.cfg.dispatchWidth).stats
  {
    hide Base, SlotClock, DecodeMoves, FetchMoves, Enter, InRange;
    BaseHas(b);
    FrontEndParts(b);
    DecodeMovesClosed(b, b.cfg.dispatchWidth);
    var d := DecodeMoves(b, b.cfg.dispatchWidth);
    BaseHas(d);
    FetchMovesClosed(d, b.cfg.decodeWidth);
    var f := FetchMoves(d, b.cfg.decodeWidth);
    BaseHas(f);
    EnterClosed(f, b.cfg.fetchWidth);
  }

  lemma {:induction false} PrefixUnique(q: seq<nat>, m: nat)
    requires Unique(q) && m <= |q|
    ensures Unique(q[..m])
  {
  }

  /** How many instructions decode hands over, and what stays. */
  lemma DispatchCount(s: State)
    requires Boundary(s)
    ensures WF(s) && !Underflows(RetireAll(s))
    ensures var b, r := BackEnd(s), Cycle(s);
      var m := DecodeCount(b, s.cfg.dispatchWidth);
      && m <= |s.decodeQ| == |b.decodeQ| && b.decodeQ == s.decodeQ && b.cfg == s.cfg
      && |DispatchedNow(s, r)| == m && |r.dispatchQ| == |b.dispatchQ| + m
  {
    hide Base, SlotClock, RetireAll, Underflows, Tick, BackEnd, FrontEnd, Satisfied, HeldBack, Range, MovedUp, Taken,
      Left,
      MemoryOps, BudgetOf, InRange;
    TickedQueues(s);
    BackQueues(s);
    CycleParts(s);
    FrontQueues(BackEnd(s));
    BoundaryBase(s);
    QueuesUnique(s);
    var b, r := BackEnd(s), Cycle(s);
    var m := DecodeCount(b, s.cfg.dispatchWidth);
    PrefixUnique(s.decodeQ, m);
    ElementsSize(s.decodeQ[..m]);
    var sat := Satisfied(Ticked'(s).ins, Ticked'(s).retired);
    HeldAll(s.dispatchQ, sat, ReadyRoom(s));
    forall i | i in s.decodeQ ensures i !in s.dispatchQ {
      if i in s.dispatchQ { NotDecoded(s, i); }
    }
    assert DispatchedNow(s, r) == Elements(s.decodeQ[..m]);
  }

  /** DispatchQueueFull over one cycle. */
  lemma DecodeStallOf(s: State)
    requires Boundary(s)
    ensures WF(s) && !Underflows(RetireAll(s))
    ensures Cycle(s).stats.dispatchFull == s.stats.dispatchFull + (if DecodeStopped(s, Cycle(s)) then 1 else 0)
  {
    hide Base, SlotClock, RetireAll, Underflows, Tick, BackEnd, FrontEnd, DecodeMoves, DispatchedNow, Satisfied,
      HeldBack, Range, MovedUp, Taken, Left, MemoryOps, BudgetOf, InRange, ReadyRoom;
    TickedQueues(s);
    CycleParts(s);
    DispatchCount(s);
    BackQueues(s);
    var b := BackEnd(s);
    FrontStats(b);
    DispatchFullMeaning(b, s.cfg.dispatchWidth);
    DecodeMovesClosed(b, s.cfg.dispatchWidth);
  }

  // ---------- counters over whole runs ----------

  /** What a count per cycle adds up to over a run. */
  ghost function Along(f: (State, State) -> nat, tr: seq<State>): nat
    requires |tr| > 0
  {
    if |tr| == 1 then 0 else Along(f, tr[..|tr| - 1]) + f(tr[|tr| - 2], Last(tr))
  }

  /** Every stall counter is the sum over the cycles of those it stands for. */
  ghost predicate StallLaws(tr: seq<State>, st: Stats)
    requires |tr| > 0
  {
    && st.waitingDep == Along((s, r) => |DepWaiters(s, r)|, tr)
    && st.readyFull == Along((s, r) => |RoomWaiters(s, r)|, tr)
    && st.noMemory == Along((s, r) => |UnitWaiters(s, r, true)|, tr)
    && st.noCompute == Along((s, r) => |UnitWaiters(s, r, false)|, tr)
    && st.dispatchFull == Along((s, r) => if DecodeStopped(s, r) then 1 else 0, tr)
  }

  /** The counters of every run, each by itself. */
  lemma {:induction false} StallCounters(w: seq<Instruction>, cfg: Config, tr: seq<State>)
    requires IsRun(w, cfg, tr)
    ensures StallLaws(tr, Last(tr).stats)
    decreases |tr|
  {
    hide Inv, Cycle, RetireAll, Underflows, HasWork, WF, Boundary, DepWaiters, RoomWaiters, UnitWaiters, DecodeStopped,
      Timed;
    if |tr| > 1 {
      RunPrefix(w, cfg, tr);
      var p := tr[..|tr| - 1];
      StallCounters(w, cfg, p);
      RunInv(w, cfg, p);
      InvBoundary(w, cfg, Last(p));
      DispatchStallsOf(Last(p));
      IssueStallsOf(Last(p));
      DecodeStallOf(Last(p));
      assert Last(p) == tr[|tr| - 2];
    }
  }

  // ---------- why an instruction stays where it is ----------

  lemma RunCycleAt(w: seq<Instruction>, cfg: Config, tr: seq<State>, k: nat)
    requires IsRun(w, cfg, tr) && k + 1 < |tr|
    ensures Boundary(tr[k]) && Timed(tr[k]) && InOrder(tr[k]) && tr[k].cfg == cfg
    ensures WF(tr[k]) && !Underflows(RetireAll(tr[k])) && tr[k + 1] == Cycle(tr[k])
  {
    hide Inv, Cycle, RetireAll, Underflows, HasWork, WF, Boundary, InOrder;
    RunCut(w, cfg, tr, k + 1);
    RunInv(w, cfg, tr[..k + 1]);
    RunInOrder(w, cfg, tr[..k + 1]);
    InvBoundary(w, cfg, tr[k]);
    InvProgram(w, cfg, tr[k]);
    assert CycleTo(tr[k], tr[k + 1]);
  }

  lemma RoomUsedUp(s: State, i: nat)
    requires Boundary(s) && Timed(s) && InOrder(s)
    requires WF(s) && !Underflows(RetireAll(s)) && i in RoomWaiters(s, Cycle(s))
    ensures |Cycle(s).readyQ| + |IssuedAt(Cycle(s), s.cycle)| == s.cfg.readyCapacity
  {
    hide Base, SlotClock, RetireAll, Underflows, Scanned, Ticked', Cycle, Timed, Satisfied, MovedUp, HeldBack,
      MemoryOps, BudgetOf, Taken, Left, IssuedAt, Range, Increasing, BackEnd;
    CycleReady(s);
    DispatchPhase(s);
    DispatchSeen(s);
    TakenAreIssued(s);
    var e, sat, room := Scanned(s), Satisfied(Ticked'(s).ins, Ticked'(s).retired), ReadyRoom(s);
    TakenWithinBudget(e.readyQ, MemoryOps(e.ins), BudgetOf(e, 0));
    MovedUpMeaning(s.dispatchQ, sat, room);
    BoundaryBase(s);
    QueuesUnique(s);
    assert i in HeldBack(s.dispatchQ, sat, room);
    assert i !in DepWaiters(s, Cycle(s)) && i in sat;
    MovedOrHeld(s.dispatchQ, sat, room, i);
    assert |MovedUp(s.dispatchQ, sat, room)| == room;
    assert |e.readyQ| == s.cfg.readyCapacity;
  }

  lemma MovedOrHeld(q: seq<nat>, sat: set<nat>, room: nat, i: nat)
    requires Unique(q) && i in HeldBack(q, sat, room)
    ensures i !in MovedUp(q, sat, room)
  {
    MovedUpMeaning(q, sat, room);
    var m: multiset<nat>, h: multiset<nat> := multiset(MovedUp(q, sat, room)), multiset(HeldBack(q, sat, room));
    UniqueMultiset(q, i);
    assert (m + h)[i] == m[i] + h[i];
    assert i in h;
  }

  lemma {:induction false} UniqueMultiset(q: seq<nat>, i: nat)
    requires Unique(q)
    ensures multiset(q)[i] <= 1
  {
    if q != [] {
      UniqueMultiset(q[1..], i);
      assert q == [q[0]] + q[1..];
      assert q[0] !in q[1..];
    }
  }

  /** In every run a dispatched instruction whose dependencies have retired stays in dispatch_q
      only if the dispatch scan of that cycle filled ready_q. */
  lemma HeldHasReason(w: seq<Instruction>, cfg: Config, tr: seq<State>, k: nat, i: nat)
    requires IsRun(w, cfg, tr) && k + 1 < |tr| && i in RoomWaiters(tr[k], tr[k + 1])
    ensures |tr[k + 1].readyQ| + |IssuedAt(tr[k + 1], tr[k].cycle)| == cfg.readyCapacity
  {
    hide IsRun, Boundary, RetireAll, Underflows, Cycle, WF, InOrder, Timed, RoomWaiters, IssuedAt;
    RunCycleAt(w, cfg, tr, k);
    RoomUsedUp(tr[k], i);
  }

  /** Fetched instructions decoded in the cycle. */
  ghost function DecodedNow(s: State, r: State): set<nat> {
    set i | i in s.fetchQ && i in r.decodeQ
  }

  lemma FrontMoves(s: State)
    requires Boundary(s)
    ensures WF(s) && !Underflows(RetireAll(s))
    ensures var r := Cycle(s);
      && |DecodedNow(s, r)| == Min(|s.fetchQ|, s.cfg.decodeWidth)
      && r.next == s.next + Min(|s.ins| - s.next, s.cfg.fetchWidth) && |r.ins| == |s.ins|
  {
    hide Base, SlotClock, RetireAll, Underflows, Tick, BackEnd, FrontEnd, Satisfied, HeldBack, MovedUp, Taken, Left,
      MemoryOps, BudgetOf, InRange, Range;
    TickedQueues(s);
    BackQueues(s);
    CycleParts(s);
    FrontQueues(BackEnd(s));
    FrontFrame(BackEnd(s));
    BoundaryBase(s);
    QueuesUnique(s);
    var m := Min(|s.fetchQ|, s.cfg.decodeWidth);
    PrefixUnique(s.fetchQ, m);
    ElementsSize(s.fetchQ[..m]);
    forall i | i in s.fetchQ ensures i !in s.decodeQ {
      NotFetched(s, i);
    }
    assert DecodedNow(s, Cycle(s)) == Elements(s.fetchQ[..m]);
  }

  lemma NotFetched(s: State, i: nat)
    requires Boundary(s) && i in s.fetchQ
    ensures i !in s.decodeQ
  {
    hide Resources, RetiredOK, SlotClock, InRange;
    HoldsMember(s.fetchQ, s.ins, s.next, Fetch, i);
    HoldsMember(s.decodeQ, s.ins, s.next, Decode, i);
  }

  /** The front end of every run works at full width: each cycle dispatches as many decoded
      instructions as there are, the width allows and dispatch_q has room for; decodes all
      fetched ones or the decode width; and fetches the rest of the program or the fetch width. */
  lemma FrontHasReason(w: seq<Instruction>, cfg: Config, tr: seq<State>, k: nat)
    requires IsRun(w, cfg, tr) && k + 1 < |tr|
    ensures var (s, r) := (tr[k], tr[k + 1]);
      && |DispatchedNow(s, r)| <= cfg.dispatchWidth && |DispatchedNow(s, r)| <= |s.decodeQ|
      && (|DispatchedNow(s, r)| < cfg.dispatchWidth && |DispatchedNow(s, r)| < |s.decodeQ| ==>
           |r.dispatchQ| == cfg.dispatchCapacity)
      && |DecodedNow(s, r)| <= cfg.decodeWidth && |DecodedNow(s, r)| <= |s.fetchQ|
      && (|DecodedNow(s, r)| == cfg.decodeWidth || |DecodedNow(s, r)| == |s.fetchQ|)
      && s.next <= r.next <= s.next + cfg.fetchWidth && r.next <= |w|
      && (r.next == s.next + cfg.fetchWidth || r.next == |w|)
  {
    hide IsRun, Boundary, RetireAll, Underflows, Cycle, WF, Timed, DispatchedNow, DecodedNow, Increasing, Range,
      BackEnd;
    RunCycleAt(w, cfg, tr, k);
    var s := tr[k];
    RunCut(w, cfg, tr, k + 1);
    RunInv(w, cfg, tr[..k + 1]);
    InvHas(w, cfg, s);
    NextWF(s);
    DispatchCount(s);
    FrontMoves(s);
    BackInOrder(s);
  }
}
