/** The pipeline of run_workload as functions on a state value: one function per loop
    body, one per phase, and one per clock cycle.  Class Pipeline (Pipeline.dfy) runs the
    same loops in place and is proved to compute these functions. */
module PipelineModel {
  import opened Instructions

  datatype Slot = Slot(index: nat, remaining: nat, usesMemory: bool)

  datatype Stats = Stats(
    completed: nat, totalLatency: int,
    dispatchFull: nat, readyFull: nat, waitingDep: nat, noCompute: nat, noMemory: nat)

  datatype State = State(
    cfg: Config, ins: seq<Instruction>,
    fetchQ: seq<nat>, decodeQ: seq<nat>, dispatchQ: seq<nat>, readyQ: seq<nat>, retireQ: seq<nat>,
    slots: seq<Slot>, retired: set<nat>,
    next: nat, cycle: nat, computeInUse: nat, memoryInUse: nat,
    stats: Stats)

  predicate InRange(q: seq<nat>, n: nat) {
    forall k :: 0 <= k < |q| ==> q[k] < n
  }

  /** Every queued index names an instruction. */
  predicate WF(s: State) {
    && InRange(s.fetchQ, |s.ins|) && InRange(s.decodeQ, |s.ins|) && InRange(s.dispatchQ, |s.ins|)
    && InRange(s.readyQ, |s.ins|) && InRange(s.retireQ, |s.ins|)
    && (forall k :: 0 <= k < |s.slots| ==> s.slots[k].index < |s.ins|)
    && s.next <= |s.ins|
  }

  function Init(w: seq<Instruction>, cfg: Config): State {
    State(cfg, w, [], [], [], [], [], [], {}, 0, 0, 0, 0, Stats(0, 0, 0, 0, 0, 0, 0))
  }

  predicate HasWork(s: State) {
    s.next < |s.ins| || s.fetchQ != [] || s.decodeQ != [] || s.dispatchQ != [] ||
    s.readyQ != [] || s.retireQ != [] || s.slots != []
  }

  // ---------- retire ----------

  function RetireStep(s: State): (r: State)
    requires WF(s) && s.retireQ != []
    ensures WF(r)
  {
    var i := s.retireQ[0];
    var x := s.ins[i];
    s.(retireQ := s.retireQ[1..],
       ins := s.ins[i := x.(stage := Done)],
       retired := s.retired + {x.id},
       stats := s.stats.(completed := s.stats.completed + 1,
                         totalLatency := s.stats.totalLatency + (x.completeCycle - x.enqueueCycle)))
  }

  function RetireAll(s: State): (r: State)
    requires WF(s)
    ensures WF(r)
    decreases |s.retireQ|
  {
    if s.retireQ == [] then s else RetireAll(RetireStep(s))
  }

  // ---------- tick the execution slots ----------

  function Ticked(x: Slot): Slot {
    x.(remaining := if x.remaining > 0 then x.remaining - 1 else 0)
  }

  function Survivors(slots: seq<Slot>): seq<Slot> {
    if slots == [] then [] else
    var t := Ticked(slots[|slots| - 1]);
    Survivors(slots[..|slots| - 1]) + (if t.remaining == 0 then [] else [t])
  }

  function Finished(slots: seq<Slot>): seq<nat> {
    if slots == [] then [] else
    var t := Ticked(slots[|slots| - 1]);
    Finished(slots[..|slots| - 1]) + (if t.remaining == 0 then [t.index] else [])
  }

  /** Slots of one kind (memory or compute). */
  function CountKind(slots: seq<Slot>, memory: bool): nat {
    if slots == [] then 0 else
    CountKind(slots[..|slots| - 1], memory) + (if slots[|slots| - 1].usesMemory == memory then 1 else 0)
  }

  /** Slots of one kind that end in this tick. */
  function EndingKind(slots: seq<Slot>, memory: bool): nat {
    if slots == [] then 0 else
    var t := slots[|slots| - 1];
    EndingKind(slots[..|slots| - 1], memory) + (if Ticked(t).remaining == 0 && t.usesMemory == memory then 1 else 0)
  }

  /** The source throws when a finished slot finds its counter at zero. */
  predicate Underflows(s: State) {
    EndingKind(s.slots, true) > s.memoryInUse || EndingKind(s.slots, false) > s.computeInUse
  }

  function MarkFinished(ins: seq<Instruction>, fin: seq<nat>, cycle: nat): (r: seq<Instruction>)
    ensures |r| == |ins|
  {
    seq(|ins|, i requires 0 <= i < |ins| =>
      if i in fin then ins[i].(stage := Retire, completeCycle := cycle) else ins[i])
  }

  lemma TickWF(slots: seq<Slot>, n: nat)
    requires forall k :: 0 <= k < |slots| ==> slots[k].index < n
    ensures forall k :: 0 <= k < |Survivors(slots)| ==> Survivors(slots)[k].index < n
    ensures InRange(Finished(slots), n)
  {
    if slots != [] {
      TickWF(slots[..|slots| - 1], n);
    }
  }

  function Tick(s: State): (r: State)
    requires WF(s) && !Underflows(s)
    ensures WF(r)
  {
    TickWF(s.slots, |s.ins|);
    s.(slots := Survivors(s.slots),
       ins := MarkFinished(s.ins, Finished(s.slots), s.cycle),
       retireQ := s.retireQ + Finished(s.slots),
       memoryInUse := s.memoryInUse - EndingKind(s.slots, true),
       computeInUse := s.computeInUse - EndingKind(s.slots, false))
  }

  // ---------- dispatch to ready: a rotate-in-place scan ----------

  function DispatchStep(s: State): (r: State)
    requires WF(s) && s.dispatchQ != []
    ensures WF(r)
  {
    var i := s.dispatchQ[0];
    var x := s.ins[i];
    if DepsSatisfied(x, s.retired) then
      if |s.readyQ| < s.cfg.readyCapacity then
        s.(dispatchQ := s.dispatchQ[1..], readyQ := s.readyQ + [i],
           ins := s.ins[i := x.(stage := Ready)])
      else
        s.(dispatchQ := s.dispatchQ[1..] + [i],
           stats := s.stats.(readyFull := s.stats.readyFull + 1))
    else
      s.(dispatchQ := s.dispatchQ[1..] + [i],
         stats := s.stats.(waitingDep := s.stats.waitingDep + 1))
  }

  function DispatchScan(s: State, k: nat): (r: State)
    requires WF(s) && k <= |s.dispatchQ|
    ensures WF(r)
    decreases k
  {
    if k == 0 then s else DispatchScan(DispatchStep(s), k - 1)
  }

  // ---------- issue: a rotate-in-place scan with a width limit ----------

  /** The front of the ready queue cannot issue now. */
  predicate IssueBlocked(s: State, issued: nat)
    requires WF(s) && s.readyQ != []
  {
    || issued >= s.cfg.issueWidth
    || (if IsMemoryOp(s.ins[s.readyQ[0]].op) then s.memoryInUse >= s.cfg.memoryPorts
        else s.computeInUse >= s.cfg.computeUnits)
  }

  function IssueStep(s: State, issued: nat): (r: State)
    requires WF(s) && s.readyQ != []
    ensures WF(r)
  {
    var i := s.readyQ[0];
    var x := s.ins[i];
    var mem := IsMemoryOp(x.op);
    if IssueBlocked(s, issued) then
      s.(readyQ := s.readyQ[1..] + [i],
         stats :=
           if issued >= s.cfg.issueWidth then s.stats
           else if mem then s.stats.(noMemory := s.stats.noMemory + 1)
           else s.stats.(noCompute := s.stats.noCompute + 1))
    else
      s.(readyQ := s.readyQ[1..],
         memoryInUse := s.memoryInUse + (if mem then 1 else 0),
         computeInUse := s.computeInUse + (if mem then 0 else 1),
         ins := s.ins[i := x.(stage := Execute, issueCycle := s.cycle)],
         slots := s.slots + [Slot(i, x.latency, mem)])
  }

  function IssueScan(s: State, k: nat, issued: nat): (r: State)
    requires WF(s) && k <= |s.readyQ|
    ensures WF(r)
    decreases k
  {
    if k == 0 then s else
    IssueScan(IssueStep(s, issued), k - 1, if IssueBlocked(s, issued) then issued else issued + 1)
  }

  // ---------- the front end ----------

  function DecodeStep(s: State): (r: State)
    requires WF(s) && s.decodeQ != []
    ensures WF(r)
  {
    var i := s.decodeQ[0];
    s.(decodeQ := s.decodeQ[1..], dispatchQ := s.dispatchQ + [i],
       ins := s.ins[i := s.ins[i].(stage := Dispatch)])
  }

  /** decode_q to dispatch_q: at most `room` moves, stopped by a full dispatch queue. */
  function DecodeMoves(s: State, room: nat): (r: State)
    requires WF(s)
    ensures WF(r)
    decreases room
  {
    if s.decodeQ == [] || room == 0 then s
    else if |s.dispatchQ| >= s.cfg.dispatchCapacity then
      s.(stats := s.stats.(dispatchFull := s.stats.dispatchFull + 1))
    else DecodeMoves(DecodeStep(s), room - 1)
  }

  function FetchStep(s: State): (r: State)
    requires WF(s) && s.fetchQ != []
    ensures WF(r)
  {
    var i := s.fetchQ[0];
    s.(fetchQ := s.fetchQ[1..], decodeQ := s.decodeQ + [i],
       ins := s.ins[i := s.ins[i].(stage := Decode)])
  }

  /** fetch_q to decode_q: at most `room` moves. */
  function FetchMoves(s: State, room: nat): (r: State)
    requires WF(s)
    ensures WF(r)
    decreases room
  {
    if s.fetchQ == [] || room == 0 then s else FetchMoves(FetchStep(s), room - 1)
  }

  function EnterStep(s: State): (r: State)
    requires WF(s) && s.next < |s.ins|
    ensures WF(r)
  {
    s.(ins := s.ins[s.next := s.ins[s.next].(stage := Fetch, enqueueCycle := s.cycle)],
       fetchQ := s.fetchQ + [s.next],
       next := s.next + 1)
  }

  /** Program order to fetch_q: at most `room` instructions. */
  function Enter(s: State, room: nat): (r: State)
    requires WF(s)
    ensures WF(r)
    decreases room
  {
    if s.next == |s.ins| || room == 0 then s else Enter(EnterStep(s), room - 1)
  }

  // ---------- one cycle, and runs ----------

  /** Retire, tick, dispatch, issue: the back half of a cycle. */
  function BackEnd(s: State): (r: State)
    requires WF(s) && !Underflows(RetireAll(s))
    ensures WF(r)
  {
    var d := Tick(RetireAll(s));
    var i := DispatchScan(d, |d.dispatchQ|);
    IssueScan(i, |i.readyQ|, 0)
  }

  function FrontEnd(s: State): (r: State)
    requires WF(s)
    ensures WF(r)
  {
    Enter(FetchMoves(DecodeMoves(s, s.cfg.dispatchWidth), s.cfg.decodeWidth), s.cfg.fetchWidth)
  }

  function Cycle(s: State): (r: State)
    requires WF(s) && !Underflows(RetireAll(s))
    ensures WF(r)
  {
    var f := FrontEnd(BackEnd(s));
    f.(cycle := f.cycle + 1)
  }
}
