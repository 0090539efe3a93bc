/** Each loop iteration after the tick keeps the base invariant, and each whole scan equals
    a plain filter of the queue it started from. */
module PipelinePhases {
  import opened Instructions
  import opened PipelineModel
  import opened PipelineInvariant

  /** The invariant between the tick and the end of a cycle. */
  ghost predicate MidCycle(s: State) {
    Base(s) && SlotClock(s, s.cycle)
  }

  /** Slots and counters are unaffected by a change outside the Execute stage. */
  lemma SlotsFrame(s: State, r: State, i: nat, x: Instruction)
    requires Placed(s) && Resources(s) && SlotClock(s, s.cycle) && WF(r)
    requires i < |s.ins| && (i < s.next ==> s.ins[i].stage != Execute) && r.ins == s.ins[i := x]
    requires r.slots == s.slots && r.cfg == s.cfg && r.cycle == s.cycle
    requires r.memoryInUse == s.memoryInUse && r.computeInUse == s.computeInUse
    ensures Resources(r) && SlotClock(r, r.cycle)
  {
    forall k | 0 <= k < |s.slots| ensures r.ins[s.slots[k].index] == s.ins[s.slots[k].index] {
      assert SlotIndices(s.slots)[k] == s.slots[k].index;
    }
  }

  // ---------- dispatch ----------

  lemma DispatchStepKeeps(s: State)
    requires MidCycle(s) && s.dispatchQ != []
    ensures MidCycle(DispatchStep(s))
  {
    hide Holds, InRange, CountKind, SlotOnTime, RetiredOK, DepsSatisfied;
    var r := DispatchStep(s);
    var i := s.dispatchQ[0];
    HoldsFront(s.dispatchQ, s.ins, s.next, Dispatch);
    var x := r.ins[i];
    if r.readyQ == s.readyQ {
      HoldsRotate(s.dispatchQ, s.ins, s.next, Dispatch);
      SlotsFrame(s, r, i, s.ins[i]);
    } else {
      HoldsOther(s.fetchQ, s.ins, s.next, Fetch, i, x);
      HoldsOther(s.decodeQ, s.ins, s.next, Decode, i, x);
      HoldsLeave(s.dispatchQ, s.ins, s.next, Dispatch, x);
      HoldsEnter(s.readyQ, s.ins, s.next, Ready, i, x);
      HoldsOther(SlotIndices(s.slots), s.ins, s.next, Execute, i, x);
      HoldsOther(s.retireQ, s.ins, s.next, Retire, i, x);
      SlotsFrame(s, r, i, x);
    }
    RetiredFrame(s, r);
  }

  lemma {:induction false} DispatchScanKeeps(s: State, k: nat)
    requires MidCycle(s) && k <= |s.dispatchQ|
    ensures MidCycle(DispatchScan(s, k))
    decreases k
  {
    hide Holds, InRange, Resources, SlotClock, RetiredOK, DepsSatisfied;
    if k > 0 {
      DispatchStepKeeps(s);
      DispatchScanKeeps(DispatchStep(s), k - 1);
    }
  }

  // ---------- issue ----------

  lemma CountKindAppend(slots: seq<Slot>, x: Slot, m: bool)
    ensures CountKind(slots + [x], m) == CountKind(slots, m) + (if x.usesMemory == m then 1 else 0)
  {
    assert (slots + [x])[..|slots|] == slots;
  }

  lemma IssueStepResources(s: State, issued: nat)
    requires MidCycle(s) && s.readyQ != [] && !IssueBlocked(s, issued)
    ensures var r := IssueStep(s, issued); Resources(r) && SlotClock(r, r.cycle)
  {
    hide InRange, CountKind, RetiredOK;
    var r := IssueStep(s, issued);
    var i := s.readyQ[0];
    var y := r.slots[|s.slots|];
    CountKindAppend(s.slots, y, true);
    CountKindAppend(s.slots, y, false);
    forall k | 0 <= k < |s.slots|
      ensures r.ins[s.slots[k].index] == s.ins[s.slots[k].index] && r.slots[k] == s.slots[k]
    {
      assert SlotIndices(s.slots)[k] == s.slots[k].index;
    }
    assert SlotOnTime(y, r.ins[i], r.cycle);
  }

  lemma IssueStepPlaced(s: State, issued: nat)
    requires MidCycle(s) && s.readyQ != [] && !IssueBlocked(s, issued)
    ensures Placed(IssueStep(s, issued))
  {
    hide Holds, InRange, CountKind, SlotOnTime, RetiredOK, DepsSatisfied;
    var r := IssueStep(s, issued);
    var i := s.readyQ[0];
    HoldsFront(s.readyQ, s.ins, s.next, Ready);
    var x := r.ins[i];
    HoldsOther(s.fetchQ, s.ins, s.next, Fetch, i, x);
    HoldsOther(s.decodeQ, s.ins, s.next, Decode, i, x);
    HoldsOther(s.dispatchQ, s.ins, s.next, Dispatch, i, x);
    HoldsLeave(s.readyQ, s.ins, s.next, Ready, x);
    HoldsEnter(SlotIndices(s.slots), s.ins, s.next, Execute, i, x);
    assert SlotIndices(r.slots) == SlotIndices(s.slots) + [i];
    HoldsOther(s.retireQ, s.ins, s.next, Retire, i, x);
  }

  lemma IssueStepKeeps(s: State, issued: nat)
    requires MidCycle(s) && s.readyQ != []
    ensures MidCycle(IssueStep(s, issued))
  {
    hide Holds, InRange, CountKind, SlotOnTime, RetiredOK;
    var r := IssueStep(s, issued);
    HoldsFront(s.readyQ, s.ins, s.next, Ready);
    if IssueBlocked(s, issued) {
      HoldsRotate(s.readyQ, s.ins, s.next, Ready);
      SlotsFrame(s, r, s.readyQ[0], s.ins[s.readyQ[0]]);
    } else {
      assert Placed(r) by { IssueStepPlaced(s, issued); }
      assert Resources(r) && SlotClock(r, r.cycle) by { IssueStepResources(s, issued); }
    }
    assert RetiredOK(r) by { RetiredFrame(s, r); }
  }

  lemma {:induction false} IssueScanKeeps(s: State, k: nat, issued: nat)
    requires MidCycle(s) && k <= |s.readyQ|
    ensures MidCycle(IssueScan(s, k, issued))
    decreases k
  {
    hide Holds, InRange, Resources, SlotClock, RetiredOK, DepsSatisfied;
    if k > 0 {
      IssueStepKeeps(s, issued);
      IssueScanKeeps(IssueStep(s, issued), k - 1, if IssueBlocked(s, issued) then issued else issued + 1);
    }
  }

  // ---------- the front end ----------

  lemma DecodeStepKeeps(s: State)
    requires MidCycle(s) && s.decodeQ != []
    ensures MidCycle(DecodeStep(s))
  {
    hide Holds, InRange, CountKind, SlotOnTime, RetiredOK, DepsSatisfied;
    var r := DecodeStep(s);
    var i := s.decodeQ[0];
    HoldsFront(s.decodeQ, s.ins, s.next, Decode);
    var x := r.ins[i];
    HoldsOther(s.fetchQ, s.ins, s.next, Fetch, i, x);
    HoldsLeave(s.decodeQ, s.ins, s.next, Decode, x);
    HoldsEnter(s.dispatchQ, s.ins, s.next, Dispatch, i, x);
    HoldsOther(s.readyQ, s.ins, s.next, Ready, i, x);
    HoldsOther(SlotIndices(s.slots), s.ins, s.next, Execute, i, x);
    HoldsOther(s.retireQ, s.ins, s.next, Retire, i, x);
    SlotsFrame(s, r, i, x);
    RetiredFrame(s, r);
  }

  lemma {:induction false} DecodeMovesKeeps(s: State, room: nat)
    requires MidCycle(s)
    ensures MidCycle(DecodeMoves(s, room))
    decreases room
  {
    hide Holds, InRange, Resources, SlotClock, RetiredOK, DepsSatisfied;
    if s.decodeQ != [] && room > 0 {
      if |s.dispatchQ| < s.cfg.dispatchCapacity {
        DecodeStepKeeps(s);
        DecodeMovesKeeps(DecodeStep(s), room - 1);
      } else {
        var r := DecodeMoves(s, room);
        HoldsFront(s.decodeQ, s.ins, s.next, Decode);
        SlotsFrame(s, r, s.decodeQ[0], s.ins[s.decodeQ[0]]);
        RetiredFrame(s, r);
      }
    }
  }

  lemma FetchStepKeeps(s: State)
    requires MidCycle(s) && s.fetchQ != []
    ensures MidCycle(FetchStep(s))
  {
    hide Holds, InRange, CountKind, SlotOnTime, RetiredOK, DepsSatisfied;
    var r := FetchStep(s);
    var i := s.fetchQ[0];
    HoldsFront(s.fetchQ, s.ins, s.next, Fetch);
    var x := r.ins[i];
    HoldsLeave(s.fetchQ, s.ins, s.next, Fetch, x);
    HoldsEnter(s.decodeQ, s.ins, s.next, Decode, i, x);
    HoldsOther(s.dispatchQ, s.ins, s.next, Dispatch, i, x);
    HoldsOther(s.readyQ, s.ins, s.next, Ready, i, x);
    HoldsOther(SlotIndices(s.slots), s.ins, s.next, Execute, i, x);
    HoldsOther(s.retireQ, s.ins, s.next, Retire, i, x);
    SlotsFrame(s, r, i, x);
    RetiredFrame(s, r);
  }

  lemma {:induction false} FetchMovesKeeps(s: State, room: nat)
    requires MidCycle(s)
    ensures MidCycle(FetchMoves(s, room))
    decreases room
  {
    hide Holds, InRange, Resources, SlotClock, RetiredOK, DepsSatisfied;
    if s.fetchQ != [] && room > 0 {
      FetchStepKeeps(s);
      FetchMovesKeeps(FetchStep(s), room - 1);
    }
  }

  /** Fetching one more instruction leaves the queue of any other stage alone. */
  lemma HoldsGrow(q: seq<nat>, ins: seq<Instruction>, next: nat, st: Stage, x: Instruction)
    requires Holds(q, ins, next, st) && next < |ins| && x.stage != st
    ensures Holds(q, ins[next := x], next + 1, st)
  {
  }

  lemma HoldsFetched(q: seq<nat>, ins: seq<Instruction>, next: nat, st: Stage, x: Instruction)
    requires Holds(q, ins, next, st) && next < |ins| && x.stage == st
    ensures Holds(q + [next], ins[next := x], next + 1, st)
  {
    assert next !in q;
  }

  lemma EnterStepKeeps(s: State)
    requires MidCycle(s) && s.next < |s.ins|
    ensures MidCycle(EnterStep(s))
  {
    hide Holds, InRange, CountKind, SlotOnTime, RetiredOK;
    var r := EnterStep(s);
    var x := r.ins[s.next];
    HoldsFetched(s.fetchQ, s.ins, s.next, Fetch, x);
    HoldsGrow(s.decodeQ, s.ins, s.next, Decode, x);
    HoldsGrow(s.dispatchQ, s.ins, s.next, Dispatch, x);
    HoldsGrow(s.readyQ, s.ins, s.next, Ready, x);
    HoldsGrow(SlotIndices(s.slots), s.ins, s.next, Execute, x);
    HoldsGrow(s.retireQ, s.ins, s.next, Retire, x);
    SlotsFrame(s, r, s.next, x);
    RetiredFrame(s, r);
  }

  lemma {:induction false} EnterKeeps(s: State, room: nat)
    requires MidCycle(s)
    ensures MidCycle(Enter(s, room))
    decreases room
  {
    hide Holds, InRange, Resources, SlotClock, RetiredOK, DepsSatisfied;
    if s.next < |s.ins| && room > 0 {
      EnterStepKeeps(s);
      EnterKeeps(EnterStep(s), room - 1);
    }
  }

  // ---------- a whole cycle ----------

  /** The invariant at a cycle boundary. */
  ghost predicate Boundary(s: State) {
    Base(s) && SlotClock(s, s.cycle - 1)
  }

  lemma RetireClock(s: State)
    requires Boundary(s)
    ensures SlotClock(RetireAll(s), s.cycle - 1)
  {
    RetireAllEffect(s);
    forall k | 0 <= k < |s.slots| ensures RetireAll(s).ins[s.slots[k].index] == s.ins[s.slots[k].index] {
      assert SlotIndices(s.slots)[k] == s.slots[k].index;
    }
  }

  lemma BackEndKeeps(s: State)
    requires Boundary(s)
    ensures !Underflows(RetireAll(s)) && MidCycle(Tick(RetireAll(s))) && MidCycle(BackEnd(s))
    ensures var d := Tick(RetireAll(s)); MidCycle(DispatchScan(d, |d.dispatchQ|))
  {
    hide Holds, InRange, Resources, SlotClock, RetiredOK, DepsSatisfied, RetireAll, Survivors, Finished,
      DispatchScan, IssueScan;
    RetireAllBase(s);
    RetireAllEffect(s);
    RetireClock(s);
    TickBase(RetireAll(s));
    var d := Tick(RetireAll(s));
    DispatchScanKeeps(d, |d.dispatchQ|);
    var i := DispatchScan(d, |d.dispatchQ|);
    IssueScanKeeps(i, |i.readyQ|, 0);
  }

  lemma FrontEndKeeps(s: State)
    requires MidCycle(s)
    ensures MidCycle(FrontEnd(s))
  {
    DecodeMovesKeeps(s, s.cfg.dispatchWidth);
    var d := DecodeMoves(s, s.cfg.dispatchWidth);
    FetchMovesKeeps(d, s.cfg.decodeWidth);
    EnterKeeps(FetchMoves(d, s.cfg.decodeWidth), s.cfg.fetchWidth);
  }

  lemma Wf(s: State)
    requires Boundary(s)
    ensures WF(s)
  {
  }

  lemma NextBoundary(f: State)
    requires MidCycle(f)
    ensures Boundary(f.(cycle := f.cycle + 1))
  {
    assert RetiredOK(f.(cycle := f.cycle + 1)) by { RetiredFrame(f, f.(cycle := f.cycle + 1)); }
  }

  lemma CycleIs(s: State)
    requires WF(s) && !Underflows(RetireAll(s))
    ensures Cycle(s) == FrontEnd(BackEnd(s)).(cycle := FrontEnd(BackEnd(s)).cycle + 1)
  {
    hide WF, Underflows, RetireAll, FrontEnd, BackEnd;
  }

  /** Central invariant: no cycle can throw, and every cycle keeps the boundary invariant. */
  lemma CycleKeeps(s: State)
    requires Boundary(s)
    ensures !Underflows(RetireAll(s)) && Boundary(Cycle(s))
  {
    hide Boundary, MidCycle, WF, Cycle, FrontEnd, BackEnd, RetireAll, Underflows, Tick, DispatchScan;
    Wf(s);
    BackEndKeeps(s);
    FrontEndKeeps(BackEnd(s));
    NextBoundary(FrontEnd(BackEnd(s)));
    CycleIs(s);
  }
}
