/** Whole runs: sequences of cycles from an initial state, and what holds at every cycle
    boundary of every run. */
module PipelineRuns {
  import opened Instructions
  import opened PipelineModel
  import opened PipelineInvariant
  import opened PipelinePhases
  import opened PipelineCycle

  // ---------- runs ----------

  ghost predicate CycleTo(s: State, t: State) {
    WF(s) && HasWork(s) && !Underflows(RetireAll(s)) && t == Cycle(s)
  }

  /** A run so far: the states at the cycle boundaries, each with work left but the last. */
  ghost predicate IsRun(w: seq<Instruction>, cfg: Config, tr: seq<State>) {
    |tr| > 0 && tr[0] == Init(w, cfg) && forall k :: 0 <= k < |tr| - 1 ==> CycleTo(tr[k], tr[k + 1])
  }

  function Last(tr: seq<State>): State
    requires |tr| > 0
  {
    tr[|tr| - 1]
  }

  lemma RunNonEmpty(w: seq<Instruction>, cfg: Config, tr: seq<State>)
    requires IsRun(w, cfg, tr)
    ensures |tr| > 0
  {
  }

  lemma RunPrefix(w: seq<Instruction>, cfg: Config, tr: seq<State>)
    requires IsRun(w, cfg, tr) && |tr| > 1
    ensures IsRun(w, cfg, tr[..|tr| - 1]) && CycleTo(Last(tr[..|tr| - 1]), Last(tr))
  {
    assert CycleTo(tr[|tr| - 2], tr[|tr| - 2 + 1]);
  }

  /** Every prefix of a run is a run. */
  lemma RunCut(w: seq<Instruction>, cfg: Config, tr: seq<State>, n: nat)
    requires IsRun(w, cfg, tr) && 0 < n <= |tr|
    ensures IsRun(w, cfg, tr[..n]) && Last(tr[..n]) == tr[n - 1]
  {
    hide CycleTo;
    forall k | 0 <= k < n - 1 ensures CycleTo(tr[..n][k], tr[..n][k + 1]) {
      assert CycleTo(tr[k], tr[k + 1]);
    }
  }

  // ---------- the invariant ----------

  /** Everything about an instruction but its stage and its three timestamps. */
  ghost predicate SameOp(a: Instruction, b: Instruction) {
    a.id == b.id && a.op == b.op && a.latency == b.latency && a.memoryBytes == b.memoryBytes && a.deps == b.deps
  }

  ghost predicate SameProgram(w: seq<Instruction>, s: State) {
    |s.ins| == |w| && forall i :: 0 <= i < |w| ==> SameOp(s.ins[i], w[i])
  }

  /** Where a fetched instruction's timestamps stand at the boundary before cycle `c`. */
  ghost predicate TimedAt(x: Instruction, c: nat) {
    match x.stage
    case Fetch => x.enqueueCycle + 1 <= c
    case Decode => x.enqueueCycle + 2 <= c
    case Dispatch => x.enqueueCycle + 3 <= c
    case Ready => x.enqueueCycle + 4 <= c
    case Execute => x.enqueueCycle + 3 <= x.issueCycle < c <= x.issueCycle + ExecCycles(x)
    case Retire =>
      x.enqueueCycle + 3 <= x.issueCycle && x.completeCycle == x.issueCycle + ExecCycles(x) && x.completeCycle + 1 == c
    case Done =>
      x.enqueueCycle + 3 <= x.issueCycle && x.completeCycle == x.issueCycle + ExecCycles(x) && x.completeCycle + 2 <= c
  }

  ghost predicate Timed(s: State) {
    s.next <= |s.ins| && forall i :: 0 <= i < s.next ==> TimedAt(s.ins[i], s.cycle)
  }

  lemma TimedAdvance(c: nat, retired: set<nat>, a: Instruction, af: bool, b: Instruction, bf: bool)
    requires Advance(c, retired, a, af, b, bf) && (af ==> TimedAt(a, c))
    ensures (bf ==> TimedAt(b, c + 1)) && SameOp(a, b)
  {
  }

  /** Some instruction with this id is Done and completed before cycle `t`. */
  ghost predicate DoneBefore(s: State, id: nat, t: nat) {
    exists j: nat :: j < s.next && j < |s.ins| && s.ins[j].stage == Done && s.ins[j].id == id
      && s.ins[j].completeCycle < t
  }

  ghost predicate DepsMet(s: State, x: Instruction) {
    match x.stage
    case Ready => DepsSatisfied(x, s.retired)
    case Execute => forall k :: 0 <= k < |x.deps| ==> DoneBefore(s, x.deps[k], x.issueCycle)
    case Retire => forall k :: 0 <= k < |x.deps| ==> DoneBefore(s, x.deps[k], x.issueCycle)
    case Done => forall k :: 0 <= k < |x.deps| ==> DoneBefore(s, x.deps[k], x.issueCycle)
    case _ => true
  }

  ghost predicate DepsOrdered(s: State) {
    s.next <= |s.ins| && forall i :: 0 <= i < s.next ==> DepsMet(s, s.ins[i])
  }

  /** What is Done stays as it is. */
  ghost predicate DoneKept(s: State, r: State) {
    && |s.ins| == |r.ins| && s.next <= r.next
    && forall j :: 0 <= j < s.next && j < |s.ins| && s.ins[j].stage == Done ==> r.ins[j] == s.ins[j]
  }

  lemma DoneBeforeKept(s: State, r: State, id: nat, t: nat)
    requires DoneKept(s, r) && DoneBefore(s, id, t)
    ensures DoneBefore(r, id, t)
  {
    var j: nat :| j < s.next && j < |s.ins| && s.ins[j].stage == Done && s.ins[j].id == id
      && s.ins[j].completeCycle < t;
    assert r.ins[j] == s.ins[j];
  }

  lemma RetiredWasDone(r: State, id: nat)
    requires RetiredOK(r) && Timed(r) && r.cycle > 0 && id in r.retired
    ensures DoneBefore(r, id, r.cycle - 1)
  {
    var j :| 0 <= j < r.next && r.ins[j].stage == Done && r.ins[j].id == id;
    assert TimedAt(r.ins[j], r.cycle);
  }

  lemma DepsAdvance(s: State, r: State, i: nat)
    requires RetiredOK(r) && Timed(r) && DoneKept(s, r) && s.retired <= r.retired && r.cycle == s.cycle + 1
    requires i < |s.ins| == |r.ins| && i < r.next && s.next <= |s.ins|
    requires Advance(s.cycle, r.retired, s.ins[i], i < s.next, r.ins[i], i < r.next)
    requires i < s.next ==> DepsMet(s, s.ins[i])
    ensures DepsMet(r, r.ins[i])
  {
    hide RetiredOK, Timed, TimedAt, DoneKept, DoneBefore;
    var a, b := s.ins[i], r.ins[i];
    if b.stage in {Execute, Retire, Done} {
      forall k | 0 <= k < |b.deps| ensures DoneBefore(r, b.deps[k], b.issueCycle) {
        if a.stage in {Dispatch, Ready} {
          assert b.deps[k] in r.retired;
          RetiredWasDone(r, b.deps[k]);
        } else {
          DoneBeforeKept(s, r, b.deps[k], b.issueCycle);
        }
      }
    }
  }

  /** The invariant of every run, at the cycle boundaries. */
  ghost predicate Inv(w: seq<Instruction>, cfg: Config, s: State) {
    Boundary(s) && SameProgram(w, s) && s.cfg == cfg && Timed(s) && DepsOrdered(s)
  }

  lemma InvInit(w: seq<Instruction>, cfg: Config)
    ensures Inv(w, cfg, Init(w, cfg))
  {
  }

  /** One cycle keeps program, timestamps and what is Done. */
  lemma CycleTimed(w: seq<Instruction>, s: State)
    requires Boundary(s) && SameProgram(w, s) && Timed(s)
    ensures !Underflows(RetireAll(s))
    ensures var r := Cycle(s);
      && SameProgram(w, r) && Timed(r) && DoneKept(s, r) && s.retired <= r.retired && r.cycle == s.cycle + 1
  {
    hide Base, SlotClock, RetireAll, Underflows, Cycle, FrontMove, BackMove, TimedAt;
    BaseHas(s);
    CycleKeeps(s);
    var r := Cycle(s);
    CycleFrame(s);
    forall i | 0 <= i < |s.ins|
      ensures SameOp(s.ins[i], r.ins[i])
      ensures i < r.next ==> TimedAt(r.ins[i], r.cycle)
      ensures i < s.next && s.ins[i].stage == Done ==> r.ins[i] == s.ins[i]
    {
      CycleAdvance(s, i);
      TimedAdvance(s.cycle, r.retired, s.ins[i], i < s.next, r.ins[i], i < r.next);
      DoneStays(s.cycle, r.retired, s.ins[i], i < s.next, r.ins[i], i < r.next);
    }
  }

  lemma DoneStays(c: nat, retired: set<nat>, a: Instruction, af: bool, b: Instruction, bf: bool)
    requires Advance(c, retired, a, af, b, bf)
    ensures af && a.stage == Done ==> b == a
  {
  }

  /** One cycle keeps the whole invariant. */
  lemma CycleInv(w: seq<Instruction>, cfg: Config, s: State)
    requires Inv(w, cfg, s)
    ensures !Underflows(RetireAll(s)) && Inv(w, cfg, Cycle(s))
  {
    hide Base, SlotClock, RetireAll, Underflows, Cycle, Timed, SameProgram, DepsMet, DoneKept, Advance;
    BoundaryHas(s);
    CycleKeeps(s);
    CycleFrame(s);
    CycleTimed(w, s);
    var r := Cycle(s);
    BoundaryHas(r);
    forall i | 0 <= i < r.next ensures DepsMet(r, r.ins[i]) {
      CycleAdvance(s, i);
      DepsAdvance(s, r, i);
    }
  }

  lemma BoundaryHas(s: State)
    requires Boundary(s)
    ensures WF(s) && RetiredOK(s)
  {
  }

  /** Every run keeps the invariant. */
  lemma {:induction false} RunInv(w: seq<Instruction>, cfg: Config, tr: seq<State>)
    requires IsRun(w, cfg, tr)
    ensures Inv(w, cfg, Last(tr))
    decreases |tr|
  {
    hide Inv;
    if |tr| == 1 {
      InvInit(w, cfg);
    } else {
      RunPrefix(w, cfg, tr);
      RunInv(w, cfg, tr[..|tr| - 1]);
      CycleInv(w, cfg, Last(tr[..|tr| - 1]));
    }
  }

  lemma InvHas(w: seq<Instruction>, cfg: Config, s: State)
    requires Inv(w, cfg, s)
    ensures WF(s) && |s.ins| == |w| && s.cfg == cfg && Conserved(s)
    ensures forall i :: 0 <= i < |w| ==> SameOp(s.ins[i], w[i])
    ensures forall i :: 0 <= i < s.next ==> TimedAt(s.ins[i], s.cycle) && DepsMet(s, s.ins[i])
  {
    hide Holds, InRange, SlotClock, Resources, RetiredOK, TimedAt, DepsMet, SameOp;
  }

  lemma InvBoundary(w: seq<Instruction>, cfg: Config, s: State)
    requires Inv(w, cfg, s)
    ensures Boundary(s) && Timed(s)
  {
  }
}
