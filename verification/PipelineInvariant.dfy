/** What every cycle keeps: each index is in exactly one place, the stage field names that
    place, the resource counters count the execution slots, and lengths are conserved. */
module PipelineInvariant {
  import opened Arithmetic
  import opened Instructions
  import opened PipelineModel

  // ---------- one queue holds exactly the fetched instructions of one stage ----------

  ghost predicate Holds(q: seq<nat>, ins: seq<Instruction>, next: nat, st: Stage) {
    && (forall k :: 0 <= k < |q| ==> q[k] < next && q[k] < |ins| && ins[q[k]].stage == st)
    && (forall j, k :: 0 <= j < k < |q| ==> q[j] != q[k])
    && (forall i :: 0 <= i < next && i < |ins| && ins[i].stage == st ==> i in q)
  }

  lemma HoldsFront(q: seq<nat>, ins: seq<Instruction>, next: nat, st: Stage)
    requires Holds(q, ins, next, st) && q != []
    ensures q[0] < next && q[0] < |ins| && ins[q[0]].stage == st
  {
  }

  lemma HoldsLeave(q: seq<nat>, ins: seq<Instruction>, next: nat, st: Stage, x: Instruction)
    requires Holds(q, ins, next, st) && q != [] && x.stage != st
    ensures Holds(q[1..], ins[q[0] := x], next, st)
  {
    var ins' := ins[q[0] := x];
    forall i | 0 <= i < next && i < |ins'| && ins'[i].stage == st
      ensures i in q[1..]
    {
      assert i != q[0] && i in q;
    }
  }

  lemma HoldsEnter(q: seq<nat>, ins: seq<Instruction>, next: nat, st: Stage, i: nat, x: Instruction)
    requires Holds(q, ins, next, st) && i < next && i < |ins| && ins[i].stage != st && x.stage == st
    ensures Holds(q + [i], ins[i := x], next, st)
  {
    assert i !in q;
  }

  lemma HoldsOther(q: seq<nat>, ins: seq<Instruction>, next: nat, st: Stage, i: nat, x: Instruction)
    requires Holds(q, ins, next, st) && i < |ins| && (i < next ==> ins[i].stage != st) && x.stage != st
    ensures Holds(q, ins[i := x], next, st)
  {
  }

  lemma HoldsRotate(q: seq<nat>, ins: seq<Instruction>, next: nat, st: Stage)
    requires Holds(q, ins, next, st) && q != []
    ensures Holds(q[1..] + [q[0]], ins, next, st)
  {
    var r := q[1..] + [q[0]];
    forall i | i in q ensures i in r {
      var k :| 0 <= k < |q| && q[k] == i;
      assert if k == 0 then r[|q| - 1] == i else r[k - 1] == i;
    }
  }

  function SlotIndices(slots: seq<Slot>): (r: seq<nat>)
    ensures |r| == |slots|
  {
    seq(|slots|, k requires 0 <= k < |slots| => slots[k].index)
  }

  /** Each index is in exactly one place: unfetched, one of the five queues, a slot, or done. */
  ghost predicate Placed(s: State) {
    && WF(s)
    && Holds(s.fetchQ, s.ins, s.next, Fetch)
    && Holds(s.decodeQ, s.ins, s.next, Decode)
    && Holds(s.dispatchQ, s.ins, s.next, Dispatch)
    && Holds(s.readyQ, s.ins, s.next, Ready)
    && Holds(SlotIndices(s.slots), s.ins, s.next, Execute)
    && Holds(s.retireQ, s.ins, s.next, Retire)
  }

  /** The counters count the slots of each kind and stay within the configuration. */
  ghost predicate Resources(s: State) {
    && WF(s)
    && (forall k :: 0 <= k < |s.slots| ==> s.slots[k].usesMemory == IsMemoryOp(s.ins[s.slots[k].index].op))
    && s.memoryInUse == CountKind(s.slots, true) <= s.cfg.memoryPorts
    && s.computeInUse == CountKind(s.slots, false) <= s.cfg.computeUnits
  }

  /** A slot's countdown agrees with its issue cycle, `t` being the last cycle ticked. */
  ghost predicate SlotClock(s: State, t: int) {
    && WF(s)
    && forall k :: 0 <= k < |s.slots| ==> SlotOnTime(s.slots[k], s.ins[s.slots[k].index], t)
  }

  ghost predicate SlotOnTime(sl: Slot, x: Instruction, t: int) {
    if x.latency == 0 then sl.remaining == 0 && x.issueCycle == t
    else sl.remaining >= 1 && x.issueCycle <= t && sl.remaining + (t - x.issueCycle) == x.latency
  }

  /** The retired ids are exactly the ids of the Done instructions. */
  ghost predicate RetiredOK(s: State) {
    && s.next <= |s.ins|
    && (forall i :: 0 <= i < s.next && s.ins[i].stage == Done ==> s.ins[i].id in s.retired)
    && (forall d :: d in s.retired ==> exists i :: 0 <= i < s.next && s.ins[i].stage == Done && s.ins[i].id == d)
  }

  /** Everything fetched is somewhere. */
  ghost predicate Conserved(s: State) {
    s.next == |s.fetchQ| + |s.decodeQ| + |s.dispatchQ| + |s.readyQ| + |s.slots| + |s.retireQ| + s.stats.completed
  }

  ghost predicate Base(s: State) {
    Placed(s) && Resources(s) && RetiredOK(s) && Conserved(s)
  }

  // ---------- retire ----------

  lemma RetireStepIds(s: State)
    requires WF(s) && RetiredOK(s) && s.retireQ != [] && s.retireQ[0] < s.next
    ensures RetiredOK(RetireStep(s))
  {
    hide InRange;
    var r := RetireStep(s);
    forall d | d in r.retired
      ensures exists j :: 0 <= j < r.next && r.ins[j].stage == Done && r.ins[j].id == d
    {
      if d in s.retired {
        var j :| 0 <= j < s.next && s.ins[j].stage == Done && s.ins[j].id == d;
        assert r.ins[j].stage == Done;
      } else {
        assert r.ins[s.retireQ[0]].stage == Done;
      }
    }
  }

  lemma RetireStepBase(s: State)
    requires Base(s) && s.retireQ != []
    ensures Base(RetireStep(s))
  {
    hide Holds, InRange, CountKind;
    HoldsFront(s.retireQ, s.ins, s.next, Retire);
    var r := RetireStep(s);
    var i := s.retireQ[0];
    var x := r.ins[i];
    HoldsOther(s.fetchQ, s.ins, s.next, Fetch, i, x);
    HoldsOther(s.decodeQ, s.ins, s.next, Decode, i, x);
    HoldsOther(s.dispatchQ, s.ins, s.next, Dispatch, i, x);
    HoldsOther(s.readyQ, s.ins, s.next, Ready, i, x);
    HoldsOther(SlotIndices(s.slots), s.ins, s.next, Execute, i, x);
    HoldsLeave(s.retireQ, s.ins, s.next, Retire, x);
    RetireStepIds(s);
  }

  lemma {:induction false} RetireAllBase(s: State)
    requires Base(s)
    ensures Base(RetireAll(s))
    decreases |s.retireQ|
  {
    if s.retireQ != [] {
      RetireStepBase(s);
      RetireAllBase(RetireStep(s));
    }
  }

  /** Retiring marks exactly the Retire-stage instructions Done and touches nothing else. */
  lemma {:induction false} RetireAllEffect(s: State)
    requires WF(s) && Holds(s.retireQ, s.ins, s.next, Retire)
    ensures var r := RetireAll(s);
      && r == s.(retireQ := [], ins := r.ins, retired := r.retired,
                 stats := s.stats.(completed := r.stats.completed, totalLatency := r.stats.totalLatency))
      && s.retired <= r.retired
      && |r.ins| == |s.ins|
      && forall i :: 0 <= i < |s.ins| ==>
           r.ins[i] == if i < s.next && s.ins[i].stage == Retire then s.ins[i].(stage := Done) else s.ins[i]
    decreases |s.retireQ|
  {
    if s.retireQ != [] {
      HoldsLeave(s.retireQ, s.ins, s.next, Retire, s.ins[s.retireQ[0]].(stage := Done));
      RetireAllEffect(RetireStep(s));
    } else {
      assert forall i :: 0 <= i < s.next && s.ins[i].stage == Retire ==> i in s.retireQ;
    }
  }

  // ---------- tick ----------

  lemma {:induction false} TickSlots(slots: seq<Slot>)
    ensures CountKind(slots, true) + CountKind(slots, false) == |slots|
    ensures EndingKind(slots, true) + EndingKind(slots, false) == |Finished(slots)|
    ensures |Survivors(slots)| + |Finished(slots)| == |slots|
    ensures forall m :: CountKind(slots, m) == CountKind(Survivors(slots), m) + EndingKind(slots, m)
  {
    if slots != [] {
      var init := slots[..|slots| - 1];
      var t := Ticked(slots[|slots| - 1]);
      TickSlots(init);
      var sv := Survivors(init);
      if t.remaining != 0 {
        assert (sv + [t])[..|sv + [t]| - 1] == sv;
      } else {
        assert Survivors(slots) == sv;
      }
    }
  }

  ghost predicate SurvivorOf(slots: seq<Slot>, x: Slot) {
    exists j :: 0 <= j < |slots| && x == Ticked(slots[j]) && x.remaining != 0
  }

  ghost predicate EndsIn(slots: seq<Slot>, i: nat) {
    exists j :: 0 <= j < |slots| && slots[j].index == i && Ticked(slots[j]).remaining == 0
  }

  lemma OriginsGrow(slots: seq<Slot>)
    requires slots != []
    ensures forall x :: SurvivorOf(slots[..|slots| - 1], x) ==> SurvivorOf(slots, x)
    ensures forall i :: EndsIn(slots[..|slots| - 1], i) ==> EndsIn(slots, i)
  {
    var init := slots[..|slots| - 1];
    forall x | SurvivorOf(init, x) ensures SurvivorOf(slots, x) {
      var j :| 0 <= j < |init| && x == Ticked(init[j]) && x.remaining != 0;
      assert init[j] == slots[j];
    }
    forall i | EndsIn(init, i) ensures EndsIn(slots, i) {
      var j :| 0 <= j < |init| && init[j].index == i && Ticked(init[j]).remaining == 0;
      assert init[j] == slots[j];
    }
  }

  /** Every survivor and every finisher was a slot. */
  lemma {:induction false} TickOrigins(slots: seq<Slot>)
    ensures forall k :: 0 <= k < |Survivors(slots)| ==> SurvivorOf(slots, Survivors(slots)[k])
    ensures forall k :: 0 <= k < |Finished(slots)| ==> EndsIn(slots, Finished(slots)[k])
  {
    if slots != [] {
      TickOrigins(slots[..|slots| - 1]);
      OriginsGrow(slots);
    }
  }

  /** Every slot becomes a survivor or a finisher. */
  lemma {:induction false} TickCovers(slots: seq<Slot>, j: nat)
    requires j < |slots|
    ensures if Ticked(slots[j]).remaining == 0 then slots[j].index in Finished(slots)
            else slots[j].index in SlotIndices(Survivors(slots))
  {
    var last := |slots| - 1;
    var sv := Survivors(slots[..last]);
    if j < last {
      TickCovers(slots[..last], j);
      if Ticked(slots[j]).remaining != 0 {
        var k :| 0 <= k < |sv| && SlotIndices(sv)[k] == slots[j].index;
        assert SlotIndices(Survivors(slots))[k] == slots[j].index;
      }
    } else if Ticked(slots[j]).remaining != 0 {
      assert SlotIndices(Survivors(slots))[|sv|] == slots[j].index;
    }
  }

  lemma {:induction false} TickUnique(slots: seq<Slot>)
    requires Unique(SlotIndices(slots))
    ensures Unique(SlotIndices(Survivors(slots))) && Unique(Finished(slots))
  {
    if slots != [] {
      var last := |slots| - 1;
      var init := slots[..last];
      assert forall k :: 0 <= k < last ==> SlotIndices(init)[k] == SlotIndices(slots)[k];
      TickUnique(init);
      TickOrigins(init);
      var sv, fn := Survivors(init), Finished(init);
      forall k | 0 <= k < |sv| ensures sv[k].index != slots[last].index {
        assert SurvivorOf(init, sv[k]);
        var j :| 0 <= j < |init| && sv[k] == Ticked(init[j]);
        assert SlotIndices(slots)[j] == sv[k].index && SlotIndices(slots)[last] == slots[last].index;
      }
      forall k | 0 <= k < |fn| ensures fn[k] != slots[last].index {
        assert EndsIn(init, fn[k]);
        var j :| 0 <= j < |init| && fn[k] == init[j].index;
        assert SlotIndices(slots)[j] == fn[k] && SlotIndices(slots)[last] == slots[last].index;
      }
      assert forall k :: 0 <= k < |sv| ==> SlotIndices(Survivors(slots))[k] == SlotIndices(sv)[k];
    }
  }

  /** The Execute-stage instruction `i` ends in this tick. */
  ghost predicate EndsNow(s: State, i: nat) {
    i < s.next && i < |s.ins| && s.ins[i].stage == Execute && s.cycle == s.ins[i].issueCycle + ExecCycles(s.ins[i])
  }

  lemma UnderflowUnreachable(s: State)
    requires Resources(s)
    ensures !Underflows(s)
  {
    TickSlots(s.slots);
    assert CountKind(s.slots, true) >= EndingKind(s.slots, true);
    assert CountKind(s.slots, false) >= EndingKind(s.slots, false);
  }

  /** A slot's own instruction is due exactly when the tick empties the slot. */
  lemma SlotDue(s: State, j: nat)
    requires WF(s) && Holds(SlotIndices(s.slots), s.ins, s.next, Execute) && SlotClock(s, s.cycle - 1)
    requires j < |s.slots|
    ensures var i := s.slots[j].index;
      && i < s.next && s.ins[i].stage == Execute
      && s.cycle <= s.ins[i].issueCycle + ExecCycles(s.ins[i])
      && (Ticked(s.slots[j]).remaining == 0 <==> EndsNow(s, i))
  {
    assert SlotIndices(s.slots)[j] == s.slots[j].index;
    assert SlotOnTime(s.slots[j], s.ins[s.slots[j].index], s.cycle - 1);
  }

  lemma FinishedAreDue(s: State, i: nat)
    requires WF(s) && Holds(SlotIndices(s.slots), s.ins, s.next, Execute) && SlotClock(s, s.cycle - 1)
    ensures i in Finished(s.slots) ==> EndsNow(s, i)
    ensures i in SlotIndices(Survivors(s.slots)) ==> i < s.next && s.ins[i].stage == Execute && !EndsNow(s, i)
  {
    TickOrigins(s.slots);
    if i in Finished(s.slots) {
      assert EndsIn(s.slots, i);
      var j :| 0 <= j < |s.slots| && s.slots[j].index == i && Ticked(s.slots[j]).remaining == 0;
      SlotDue(s, j);
    }
    if i in SlotIndices(Survivors(s.slots)) {
      var k :| 0 <= k < |Survivors(s.slots)| && Survivors(s.slots)[k].index == i;
      assert SurvivorOf(s.slots, Survivors(s.slots)[k]);
      var j :| 0 <= j < |s.slots| && Survivors(s.slots)[k] == Ticked(s.slots[j]) && Ticked(s.slots[j]).remaining != 0;
      SlotDue(s, j);
    }
  }

  lemma DueAreFinished(s: State, i: nat)
    requires WF(s) && Holds(SlotIndices(s.slots), s.ins, s.next, Execute) && SlotClock(s, s.cycle - 1)
    requires i < s.next && s.ins[i].stage == Execute
    ensures s.cycle <= s.ins[i].issueCycle + ExecCycles(s.ins[i])
    ensures if EndsNow(s, i) then i in Finished(s.slots) else i in SlotIndices(Survivors(s.slots))
  {
    var ix := SlotIndices(s.slots);
    assert i in ix;
    var j :| 0 <= j < |ix| && ix[j] == i;
    SlotDue(s, j);
    TickCovers(s.slots, j);
  }

  /** An index is finished by the tick exactly when its instruction is due. */
  lemma FinishedIff(s: State, i: nat)
    requires WF(s) && Holds(SlotIndices(s.slots), s.ins, s.next, Execute) && SlotClock(s, s.cycle - 1)
    ensures i in Finished(s.slots) <==> EndsNow(s, i)
    ensures i < s.next && s.ins[i].stage == Execute ==> s.cycle <= s.ins[i].issueCycle + ExecCycles(s.ins[i])
    ensures i in SlotIndices(Survivors(s.slots)) <==> i < s.next && s.ins[i].stage == Execute && !EndsNow(s, i)
  {
    FinishedAreDue(s, i);
    if i < s.next && s.ins[i].stage == Execute {
      DueAreFinished(s, i);
    }
  }

  /** The tick completes exactly the instructions that are due, in this cycle. */
  lemma TickEffect(s: State)
    requires WF(s) && !Underflows(s)
    requires Holds(SlotIndices(s.slots), s.ins, s.next, Execute) && SlotClock(s, s.cycle - 1)
    ensures var r := Tick(s);
      && |r.ins| == |s.ins|
      && (forall i {:trigger r.ins[i]} :: 0 <= i < |s.ins| ==>
           r.ins[i] == if EndsNow(s, i) then s.ins[i].(stage := Retire, completeCycle := s.cycle) else s.ins[i])
      && (forall i {:trigger s.ins[i]} :: 0 <= i < s.next && s.ins[i].stage == Execute ==>
           s.cycle <= s.ins[i].issueCycle + ExecCycles(s.ins[i]))
  {
    forall i | 0 <= i < |s.ins|
      ensures i in Finished(s.slots) <==> EndsNow(s, i)
      ensures i < s.next && s.ins[i].stage == Execute ==> s.cycle <= s.ins[i].issueCycle + ExecCycles(s.ins[i])
    {
      FinishedIff(s, i);
    }
  }

  /** A queue whose stage is neither Execute nor Retire is not disturbed by the tick. */
  lemma HoldsTick(q: seq<nat>, s: State, ins': seq<Instruction>, st: Stage)
    requires Holds(q, s.ins, s.next, st) && st != Execute && st != Retire
    requires |ins'| == |s.ins|
    requires forall i :: 0 <= i < |s.ins| ==>
      ins'[i] == if EndsNow(s, i) then s.ins[i].(stage := Retire, completeCycle := s.cycle) else s.ins[i]
    ensures Holds(q, ins', s.next, st)
  {
  }

  lemma TickHoldsSlots(s: State)
    requires WF(s) && !Underflows(s) && SlotClock(s, s.cycle - 1)
    requires Holds(SlotIndices(s.slots), s.ins, s.next, Execute)
    ensures var r := Tick(s); Holds(SlotIndices(r.slots), r.ins, r.next, Execute)
  {
    var r := Tick(s);
    TickEffect(s);
    TickUnique(s.slots);
    var ix := SlotIndices(r.slots);
    forall i | 0 <= i < |s.ins| ensures i in ix <==> i < r.next && r.ins[i].stage == Execute { FinishedIff(s, i); }
    forall k | 0 <= k < |ix| ensures ix[k] < r.next && r.ins[ix[k]].stage == Execute { FinishedIff(s, ix[k]); }
  }

  lemma TickHoldsRetire(s: State)
    requires WF(s) && !Underflows(s) && SlotClock(s, s.cycle - 1)
    requires Holds(SlotIndices(s.slots), s.ins, s.next, Execute) && Holds(s.retireQ, s.ins, s.next, Retire)
    ensures var r := Tick(s); Holds(r.retireQ, r.ins, r.next, Retire)
  {
    var r := Tick(s);
    TickEffect(s);
    TickUnique(s.slots);
    var fin := Finished(s.slots);
    forall i | 0 <= i < |s.ins| ensures i in fin <==> EndsNow(s, i) { FinishedIff(s, i); }
    forall k | 0 <= k < |fin| ensures EndsNow(s, fin[k]) { FinishedIff(s, fin[k]); }
  }

  lemma TickPlaced(s: State)
    requires Placed(s) && !Underflows(s) && SlotClock(s, s.cycle - 1)
    ensures Placed(Tick(s))
  {
    hide Holds, InRange, SlotClock, Survivors, Finished, Underflows, EndsNow;
    var r := Tick(s);
    TickEffect(s);
    HoldsTick(s.fetchQ, s, r.ins, Fetch);
    HoldsTick(s.decodeQ, s, r.ins, Decode);
    HoldsTick(s.dispatchQ, s, r.ins, Dispatch);
    HoldsTick(s.readyQ, s, r.ins, Ready);
    TickHoldsSlots(s);
    TickHoldsRetire(s);
  }

  lemma TickClock(s: State)
    requires WF(s) && !Underflows(s)
    requires Holds(SlotIndices(s.slots), s.ins, s.next, Execute) && SlotClock(s, s.cycle - 1)
    requires forall k :: 0 <= k < |s.slots| ==> s.slots[k].usesMemory == IsMemoryOp(s.ins[s.slots[k].index].op)
    ensures var r := Tick(s);
      && SlotClock(r, r.cycle)
      && forall k :: 0 <= k < |r.slots| ==> r.slots[k].usesMemory == IsMemoryOp(r.ins[r.slots[k].index].op)
  {
    var r := Tick(s);
    TickOrigins(s.slots);
    TickEffect(s);
    forall k | 0 <= k < |r.slots|
      ensures SlotOnTime(r.slots[k], r.ins[r.slots[k].index], r.cycle)
      ensures r.slots[k].usesMemory == IsMemoryOp(r.ins[r.slots[k].index].op)
    {
      assert SurvivorOf(s.slots, r.slots[k]);
      var j :| 0 <= j < |s.slots| && r.slots[k] == Ticked(s.slots[j]) && r.slots[k].remaining != 0;
      var i := s.slots[j].index;
      assert SlotOnTime(s.slots[j], s.ins[i], s.cycle - 1);
      assert !EndsNow(s, i);
      assert r.ins[i] == s.ins[i];
    }
  }

  /** The retired ids stay right under any change that creates or removes no Done instruction. */
  lemma RetiredFrame(s: State, r: State)
    requires RetiredOK(s) && s.retired == r.retired && s.next <= r.next <= |r.ins| && |r.ins| == |s.ins|
    requires forall i :: 0 <= i < s.next ==>
      r.ins[i].id == s.ins[i].id && (r.ins[i].stage == Done <==> s.ins[i].stage == Done)
    requires forall i :: s.next <= i < r.next ==> r.ins[i].stage != Done
    ensures RetiredOK(r)
  {
    forall d | d in r.retired
      ensures exists j :: 0 <= j < r.next && r.ins[j].stage == Done && r.ins[j].id == d
    {
      var j :| 0 <= j < s.next && s.ins[j].stage == Done && s.ins[j].id == d;
      assert r.ins[j].stage == Done;
    }
  }

  lemma TickBase(s: State)
    requires Base(s) && SlotClock(s, s.cycle - 1)
    ensures !Underflows(s) && Base(Tick(s)) && SlotClock(Tick(s), s.cycle)
  {
    hide Holds, InRange, SlotClock, RetiredOK, Survivors, Finished, Underflows, CountKind, EndingKind;
    UnderflowUnreachable(s);
    var r := Tick(s);
    assert Placed(r) by { TickPlaced(s); }
    assert SlotClock(r, s.cycle) && Resources(r) by {
      TickClock(s);
      TickSlots(s.slots);
      assert CountKind(s.slots, true) == CountKind(r.slots, true) + EndingKind(s.slots, true);
      assert CountKind(s.slots, false) == CountKind(r.slots, false) + EndingKind(s.slots, false);
    }
    assert RetiredOK(r) by {
      TickEffect(s);
      RetiredFrame(s, r);
    }
    assert Conserved(r) by { TickSlots(s.slots); }
  }
}
