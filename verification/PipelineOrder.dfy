/** Whole-run ordering results: dependencies complete before dependants issue, a run that
    ends has an acyclic program, and the critical path bounds the run from below. */
module PipelineOrder {
  import opened Instructions
  import opened PipelineModel
  import opened PipelineInvariant
  import opened PipelinePhases
  import opened PipelineCycle
  import opened PipelineRuns

  /** Issued, so with a fixed issue cycle. */
  predicate HasIssued(s: State, i: nat) {
    i < s.next && i < |s.ins| && s.ins[i].stage in {Execute, Retire, Done}
  }

  /** No run ever reaches either of the two underflow throws. */
  lemma NeverThrows(w: seq<Instruction>, cfg: Config, tr: seq<State>)
    requires IsRun(w, cfg, tr)
    ensures WF(Last(tr)) && !Underflows(RetireAll(Last(tr)))
  {
    hide Base, SlotClock, RetireAll, Underflows;
    RunInv(w, cfg, tr);
    BoundaryHas(Last(tr));
    CycleKeeps(Last(tr));
  }

  /** An instruction issues only after every instruction carrying one of its dependency ids
      that let it through has completed: with distinct ids, after all its dependencies. */
  lemma IssueAfterDependencies(w: seq<Instruction>, cfg: Config, tr: seq<State>, i: nat, j: nat)
    requires IsRun(w, cfg, tr) && DistinctIds(w)
    requires DependsOn(w, i, j) && HasIssued(Last(tr), i)
    ensures var s := Last(tr);
      j < s.next && j < |s.ins| && s.ins[j].stage == Done && s.ins[j].completeCycle < s.ins[i].issueCycle
  {
    hide Inv;
    var s := Last(tr);
    RunInv(w, cfg, tr);
    InvHas(w, cfg, s);
    var x := s.ins[i];
    assert SameOp(x, w[i]);
    var k :| 0 <= k < |x.deps| && x.deps[k] == w[j].id;
    assert DepsMet(s, x) && DoneBefore(s, x.deps[k], x.issueCycle);
    var m: nat :| m < s.next && m < |s.ins| && s.ins[m].stage == Done && s.ins[m].id == w[j].id
      && s.ins[m].completeCycle < x.issueCycle;
    assert SameOp(s.ins[m], w[m]);
    assert m == j;
  }

  // ---------- runs that end ----------

  ghost predicate Finishes(w: seq<Instruction>, cfg: Config, tr: seq<State>) {
    IsRun(w, cfg, tr) && !HasWork(Last(tr))
  }

  lemma AllDone(w: seq<Instruction>, cfg: Config, s: State, i: nat)
    requires Inv(w, cfg, s) && !HasWork(s) && i < |w|
    ensures i < s.next && |s.ins| == |w| && s.ins[i].stage == Done
  {
    hide InRange, SlotClock, Resources, RetiredOK, TimedAt, DepsMet, SameOp, Base;
    BaseHas(s);
    InvHas(w, cfg, s);
    assert SlotIndices(s.slots) == [];
    match s.ins[i].stage {
      case Fetch => HoldsMember(s.fetchQ, s.ins, s.next, Fetch, i);
      case Decode => HoldsMember(s.decodeQ, s.ins, s.next, Decode, i);
      case Dispatch => HoldsMember(s.dispatchQ, s.ins, s.next, Dispatch, i);
      case Ready => HoldsMember(s.readyQ, s.ins, s.next, Ready, i);
      case Execute => HoldsMember(SlotIndices(s.slots), s.ins, s.next, Execute, i);
      case Retire => HoldsMember(s.retireQ, s.ins, s.next, Retire, i);
      case Done =>
    }
  }

  /** A finished run retired every instruction exactly once, kept its operation, and gave it
      consistent timestamps. */
  lemma FinishedInstruction(w: seq<Instruction>, cfg: Config, tr: seq<State>, i: nat)
    requires Finishes(w, cfg, tr) && i < |w|
    ensures var s := Last(tr);
      && |s.ins| == |w| && s.stats.completed == |w|
      && SameOp(s.ins[i], w[i]) && s.ins[i].stage == Done && HasIssued(s, i)
      && s.ins[i].enqueueCycle + 3 <= s.ins[i].issueCycle
      && s.ins[i].completeCycle == s.ins[i].issueCycle + ExecCycles(w[i])
      && s.ins[i].completeCycle + 2 <= s.cycle
  {
    hide Inv, SlotClock;
    var s := Last(tr);
    RunInv(w, cfg, tr);
    AllDone(w, cfg, s, i);
    InvHas(w, cfg, s);
    assert SameOp(s.ins[i], w[i]) && TimedAt(s.ins[i], s.cycle);
  }

  /** The clock counts the cycles of the run. */
  lemma {:induction false} RunClock(w: seq<Instruction>, cfg: Config, tr: seq<State>)
    requires IsRun(w, cfg, tr)
    ensures Last(tr).cycle == |tr| - 1
    decreases |tr|
  {
    hide Inv, Cycle, RetireAll, Underflows, HasWork, WF;
    if |tr| > 1 {
      RunPrefix(w, cfg, tr);
      var p := tr[..|tr| - 1];
      RunClock(w, cfg, p);
      RunInv(w, cfg, p);
      InvBoundary(w, cfg, Last(p));
      CycleFrame(Last(p));
    }
  }

  /** In the last cycle of a finished run something retired that completed one cycle before. */
  lemma LastRetired(w: seq<Instruction>, cfg: Config, s: State)
    requires Inv(w, cfg, s) && HasWork(s) && !Underflows(RetireAll(s)) && !HasWork(Cycle(s))
    ensures exists i :: 0 <= i < |w| && |Cycle(s).ins| == |w| && Cycle(s).ins[i].completeCycle + 2 == Cycle(s).cycle
  {
    hide Inv, HasWork, RetireAll, Underflows, Cycle, WF, Boundary;
    InvHas(w, cfg, s);
    var r := Cycle(s);
    CycleInv(w, cfg, s);
    InvBoundary(w, cfg, s);
    CycleFrame(s);
    var i := Unfinished(w, cfg, s);
    AllDone(w, cfg, r, i);
    CycleAdvance(s, i);
  }

  /** While there is work, some instruction is not Done yet. */
  lemma Unfinished(w: seq<Instruction>, cfg: Config, s: State) returns (i: nat)
    requires Inv(w, cfg, s) && HasWork(s)
    ensures i < |w| && |s.ins| == |w| && (i < s.next ==> s.ins[i].stage != Done)
  {
    hide InRange, SlotClock, Resources, RetiredOK, TimedAt, DepsMet, SameOp, Base;
    BaseHas(s);
    InvHas(w, cfg, s);
    if s.next < |s.ins| { return s.next; }
    if s.fetchQ != [] { HoldsFront(s.fetchQ, s.ins, s.next, Fetch); return s.fetchQ[0]; }
    if s.decodeQ != [] { HoldsFront(s.decodeQ, s.ins, s.next, Decode); return s.decodeQ[0]; }
    if s.dispatchQ != [] { HoldsFront(s.dispatchQ, s.ins, s.next, Dispatch); return s.dispatchQ[0]; }
    if s.readyQ != [] { HoldsFront(s.readyQ, s.ins, s.next, Ready); return s.readyQ[0]; }
    if s.retireQ != [] { HoldsFront(s.retireQ, s.ins, s.next, Retire); return s.retireQ[0]; }
    HoldsFront(SlotIndices(s.slots), s.ins, s.next, Execute);
    return SlotIndices(s.slots)[0];
  }

  /** For a non-empty program the run takes exactly two cycles more than the latest
      completion: total_cycles = max complete_cycle + 2. */
  lemma TotalIsLastCompletionPlusTwo(w: seq<Instruction>, cfg: Config, tr: seq<State>)
    requires Finishes(w, cfg, tr) && w != []
    ensures var s := Last(tr);
      && |s.ins| == |w|
      && (forall i :: 0 <= i < |w| ==> s.ins[i].completeCycle + 2 <= s.cycle)
      && (exists i :: 0 <= i < |w| && s.ins[i].completeCycle + 2 == s.cycle)
  {
    hide Inv, HasWork, RetireAll, Underflows, Cycle, WF;
    forall i | 0 <= i < |w| ensures |Last(tr).ins| == |w| && Last(tr).ins[i].completeCycle + 2 <= Last(tr).cycle {
      FinishedInstruction(w, cfg, tr, i);
    }
    FinishedInstruction(w, cfg, tr, 0);
    FinishedIsNotInitial(w, cfg, tr);
    RunPrefix(w, cfg, tr);
    var p := tr[..|tr| - 1];
    RunInv(w, cfg, p);
    LastRetired(w, cfg, Last(p));
  }

  lemma FinishedIsNotInitial(w: seq<Instruction>, cfg: Config, tr: seq<State>)
    requires Finishes(w, cfg, tr) && w != []
    ensures |tr| > 1
  {
  }

  // ---------- acyclicity ----------

  /** A walk along dependencies: each instruction depends on the next one. */
  ghost predicate IsWalk(w: seq<Instruction>, p: seq<nat>) {
    |p| > 0 && forall k, m :: 0 <= k && m == k + 1 && m < |p| ==> DependsOn(w, p[k], p[m])
  }

  lemma {:induction false} WalkDescends(w: seq<Instruction>, cfg: Config, tr: seq<State>, p: seq<nat>)
    requires Finishes(w, cfg, tr) && DistinctIds(w) && IsWalk(w, p) && |p| > 1
    ensures |Last(tr).ins| == |w| && p[0] < |w| && p[|p| - 1] < |w|
    ensures Last(tr).ins[p[|p| - 1]].completeCycle < Last(tr).ins[p[0]].completeCycle
    decreases |p|
  {
    hide IsRun, HasWork;
    assert DependsOn(w, p[0], p[1]);
    FinishedInstruction(w, cfg, tr, p[0]);
    IssueAfterDependencies(w, cfg, tr, p[0], p[1]);
    if |p| > 2 {
      var q := p[1..];
      assert IsWalk(w, q) by {
        forall k, m | 0 <= k && m == k + 1 && m < |q| ensures DependsOn(w, q[k], q[m]) {
          assert DependsOn(w, p[k + 1], p[m + 1]);
        }
      }
      WalkDescends(w, cfg, tr, q);
    }
  }

  /** A run that ends proves the program acyclic: no walk along dependencies closes. */
  lemma FinishedIsAcyclic(w: seq<Instruction>, cfg: Config, tr: seq<State>, p: seq<nat>)
    requires Finishes(w, cfg, tr) && DistinctIds(w) && IsWalk(w, p) && |p| > 1
    ensures p[0] != p[|p| - 1]
  {
    hide IsRun, HasWork;
    WalkDescends(w, cfg, tr, p);
  }

  // ---------- blocked instructions ----------

  /** Every member has a dependency id that only members carry. */
  ghost predicate BlockedSet(w: seq<Instruction>, c: set<nat>) {
    forall i :: i in c ==> i < |w| && exists d :: d in w[i].deps && OnlyIn(w, d, c)
  }

  ghost predicate OnlyIn(w: seq<Instruction>, d: nat, c: set<nat>) {
    forall j: nat :: j < |w| && w[j].id == d ==> j in c
  }

  ghost predicate NotPastDispatch(s: State, c: set<nat>) {
    forall i :: i in c && i < s.next && i < |s.ins| ==> s.ins[i].stage in {Fetch, Decode, Dispatch}
  }

  /** One blocked instruction cannot leave Dispatch while none of its set has retired. */
  lemma BlockedStays(w: seq<Instruction>, s: State, r: State, c: set<nat>, i: nat)
    requires BlockedSet(w, c) && NotPastDispatch(s, c) && i in c && i < s.next <= |s.ins| && |s.ins| == |w| == |r.ins|
    requires SameOp(s.ins[i], w[i]) && RetiredOK(r) && forall j :: 0 <= j < |w| ==> r.ins[j].id == w[j].id
    requires forall j :: 0 <= j < r.next && r.ins[j].stage == Done ==> j < s.next && s.ins[j].stage in {Retire, Done}
    requires Advance(s.cycle, r.retired, s.ins[i], true, r.ins[i], i < r.next)
    ensures r.ins[i].stage in {Fetch, Decode, Dispatch}
  {
    var a := s.ins[i];
    var d :| d in w[i].deps && OnlyIn(w, d, c);
    var k :| 0 <= k < |a.deps| && a.deps[k] == d;
    forall j: nat | j < r.next && j < |w| && r.ins[j].id == d ensures r.ins[j].stage != Done {
      assert j in c;
    }
    assert d !in r.retired;
  }

  /** Instructions of a blocked set never leave Dispatch, in any run. */
  lemma {:induction false} BlockedNeverIssue(w: seq<Instruction>, cfg: Config, tr: seq<State>, c: set<nat>)
    requires IsRun(w, cfg, tr) && BlockedSet(w, c)
    ensures NotPastDispatch(Last(tr), c)
    decreases |tr|
  {
    hide Inv, Cycle, RetireAll, Underflows, HasWork, WF, BlockedSet, Boundary, Advance, RetiredOK;
    if |tr| > 1 {
      RunPrefix(w, cfg, tr);
      var p := tr[..|tr| - 1];
      BlockedNeverIssue(w, cfg, p, c);
      RunInv(w, cfg, p);
      RunInv(w, cfg, tr);
      var s, r := Last(p), Last(tr);
      InvHas(w, cfg, s);
      InvHas(w, cfg, r);
      InvBoundary(w, cfg, s);
      InvBoundary(w, cfg, r);
      BoundaryHas(r);
      BoundaryHas(s);
      CycleFrame(s);
      NextWF(s);
      forall j | 0 <= j < r.next && r.ins[j].stage == Done ensures j < s.next && s.ins[j].stage in {Retire, Done} {
        CycleAdvance(s, j);
        DoneFrom(s.cycle, r.retired, s.ins[j], j < s.next, r.ins[j]);
      }
      forall i | i in c && i < r.next && i < |r.ins| ensures r.ins[i].stage in {Fetch, Decode, Dispatch} {
        CycleAdvance(s, i);
        if i < s.next {
          BlockedStays(w, s, r, c, i);
        } else {
          NewlyFetched(s.cycle, r.retired, s.ins[i], r.ins[i]);
        }
      }
    }
  }

  lemma NextWF(s: State)
    requires WF(s)
    ensures s.next <= |s.ins|
  {
  }

  lemma DoneFrom(c: nat, retired: set<nat>, a: Instruction, af: bool, b: Instruction)
    requires Advance(c, retired, a, af, b, true) && b.stage == Done
    ensures af && a.stage in {Retire, Done}
  {
  }

  lemma NewlyFetched(c: nat, retired: set<nat>, a: Instruction, b: Instruction)
    requires Advance(c, retired, a, false, b, true)
    ensures b.stage == Fetch
  {
  }

  /** On or behind a dependency cycle: a walk that comes back to itself. */
  ghost predicate IsLasso(w: seq<Instruction>, p: seq<nat>) {
    IsWalk(w, p) && |p| > 1 && exists k :: 0 <= k < |p| - 1 && p[k] == p[|p| - 1]
  }

  /** Every instruction on or behind a dependency cycle stays in or before Dispatch for ever. */
  lemma CyclicNeverIssue(w: seq<Instruction>, cfg: Config, tr: seq<State>, p: seq<nat>)
    requires IsRun(w, cfg, tr) && DistinctIds(w) && IsLasso(w, p)
    ensures NotPastDispatch(Last(tr), set i | i in p)
  {
    hide IsRun;
    var c := set i | i in p;
    forall i | i in c ensures i < |w| && exists d :: d in w[i].deps && OnlyIn(w, d, c) {
      var k :| 0 <= k < |p| && p[k] == i;
      if k == |p| - 1 {
        k :| 0 <= k < |p| - 1 && p[k] == p[|p| - 1];
      }
      assert DependsOn(w, p[k], p[k + 1]);
      assert OnlyIn(w, w[p[k + 1]].id, c);
    }
    BlockedNeverIssue(w, cfg, tr, c);
  }

  // ---------- the critical path ----------

  /** A dependency chain: each instruction depends on the one before it. */
  ghost predicate IsChain(w: seq<Instruction>, p: seq<nat>) {
    |p| > 0 && p[0] < |w| && forall k, m :: 0 <= k && m == k + 1 && m < |p| ==> DependsOn(w, p[m], p[k])
  }

  function ChainCycles(w: seq<Instruction>, p: seq<nat>): nat {
    if p == [] then 0
    else ChainCycles(w, p[..|p| - 1]) + (if p[|p| - 1] < |w| then ExecCycles(w[p[|p| - 1]]) else 0)
  }

  lemma {:induction false} ChainEnds(w: seq<Instruction>, cfg: Config, tr: seq<State>, p: seq<nat>)
    requires Finishes(w, cfg, tr) && DistinctIds(w) && IsChain(w, p)
    ensures |Last(tr).ins| == |w| && p[|p| - 1] < |w|
    ensures Last(tr).ins[p[|p| - 1]].completeCycle >= ChainCycles(w, p) + |p| + 2
    decreases |p|
  {
    hide IsRun, HasWork;
    var last := |p| - 1;
    if last == 0 {
      FinishedInstruction(w, cfg, tr, p[0]);
      assert p[..0] == [];
    } else {
      assert DependsOn(w, p[last], p[last - 1]);
      FinishedInstruction(w, cfg, tr, p[last]);
      IssueAfterDependencies(w, cfg, tr, p[last], p[last - 1]);
      ChainEnds(w, cfg, tr, p[..last]);
    }
  }

  /** Critical-path bound: a chain of k instructions costs its execution cycles plus k + 4. */
  lemma CriticalPathBound(w: seq<Instruction>, cfg: Config, tr: seq<State>, p: seq<nat>)
    requires Finishes(w, cfg, tr) && DistinctIds(w) && IsChain(w, p)
    ensures Last(tr).cycle >= ChainCycles(w, p) + |p| + 4
  {
    hide IsRun, HasWork;
    ChainEnds(w, cfg, tr, p);
    FinishedInstruction(w, cfg, tr, p[|p| - 1]);
  }
}
