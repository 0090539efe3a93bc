/** What a finished run leaves behind, told in the terms of its input: the report of run_workload. */
module PipelineReport {
  import opened Arithmetic
  import opened Instructions
  import opened PipelineModel
  import opened PipelineRuns
  import opened PipelineOrder
  import opened PipelineHalting
  import opened PipelineAccounting
  import opened PipelineIssue

  /** What a finished run makes of an instruction: its operation as given, and timestamps in the
      order of the stages with the execution time it asked for. */
  ghost predicate Served(a: Instruction, x: Instruction, total: nat) {
    && x.id == a.id && x.op == a.op && x.latency == a.latency && x.memoryBytes == a.memoryBytes && x.deps == a.deps
    && x.stage == Done && x.enqueueCycle + 3 <= x.issueCycle
    && x.completeCycle - x.issueCycle == (if a.latency == 0 then 1 else a.latency)
    && x.completeCycle + 2 <= total
  }

  /** Time from fetch to completion, for each instruction. */
  function Spans(ins: seq<Instruction>): seq<int> {
    seq(|ins|, i requires 0 <= i < |ins| => ins[i].completeCycle - ins[i].enqueueCycle)
  }

  /** The instructions with one of these operations that execute in cycle `t`. */
  ghost function Executing(ins: seq<Instruction>, ops: set<OpType>, t: nat): set<nat> {
    set i: nat | i < |ins| && ins[i].op in ops && ins[i].issueCycle <= t < ins[i].completeCycle
  }

  ghost function IssuingIn(ins: seq<Instruction>, t: nat): set<nat> {
    set i: nat | i < |ins| && ins[i].issueCycle == t
  }

  /** No cycle has more loads and stores executing than ports, more compute instructions than
      units, or more issues than the issue width. */
  ghost predicate WithinMeans(ins: seq<Instruction>, cfg: Config) {
    forall t: nat ::
      && |Executing(ins, {Load, Store}, t)| <= cfg.memoryPorts
      && |Executing(ins, {Compute}, t)| <= cfg.computeUnits
      && |IssuingIn(ins, t)| <= cfg.issueWidth
  }

  /** The final clock: zero for an empty program, otherwise two after the last completion. */
  ghost predicate EndsAfterLast(ins: seq<Instruction>, total: nat) {
    && (ins == [] ==> total == 0)
    && (ins != [] ==> exists i :: 0 <= i < |ins| && ins[i].completeCycle + 2 == total)
    && (forall i :: 0 <= i < |ins| ==> ins[i].completeCycle + 2 <= total)
  }

  /** Nothing issues before what it depends on has completed. */
  ghost predicate DepsFirst(ins: seq<Instruction>) {
    forall i, j :: 0 <= i < |ins| && 0 <= j < |ins| && ins[j].id in ins[i].deps ==>
      ins[j].completeCycle < ins[i].issueCycle
  }

  lemma EmptyEnds(cfg: Config, tr: seq<State>)
    requires Finishes([], cfg, tr)
    ensures Last(tr).cycle == 0
  {
    hide WF, Cycle, RetireAll, Underflows;
    assert |tr| > 1 ==> CycleTo(tr[0], tr[0 + 1]);
    RunClock([], cfg, tr);
  }

  lemma FinishedServes(w: seq<Instruction>, cfg: Config, tr: seq<State>, i: nat)
    requires Finishes(w, cfg, tr) && i < |w|
    ensures |Last(tr).ins| == |w| && Served(w[i], Last(tr).ins[i], Last(tr).cycle)
  {
    hide Finishes;
    FinishedInstruction(w, cfg, tr, i);
  }

  /** The instructions and the clock of a finished run. */
  lemma FinishedTimes(w: seq<Instruction>, cfg: Config, tr: seq<State>)
    requires Finishes(w, cfg, tr)
    ensures var s := Last(tr);
      && s.cfg == cfg && |s.ins| == |w| && s.stats.completed == |w|
      && (forall i :: 0 <= i < |w| ==> Served(w[i], s.ins[i], s.cycle))
      && EndsAfterLast(s.ins, s.cycle) && s.cycle <= Bound(w)
  {
    hide Inv, HasWork, Served, Bound, IsRun;
    NoneLeft(w, cfg, tr);
    var s := Last(tr);
    RunInv(w, cfg, tr);
    InvHas(w, cfg, s);
    if w == [] {
      EmptyEnds(cfg, tr);
    } else {
      TotalIsLastCompletionPlusTwo(w, cfg, tr);
    }
    forall i | 0 <= i < |w| ensures Served(w[i], s.ins[i], s.cycle) {
      FinishedServes(w, cfg, tr, i);
    }
    FinishedAdmissible(w, cfg, tr);
    CycleBound(w, cfg, tr);
  }

  lemma NoneLeft(w: seq<Instruction>, cfg: Config, tr: seq<State>)
    requires Finishes(w, cfg, tr)
    ensures |tr| > 0 && Last(tr).stats.completed == |w|
  {
    hide Inv;
    RunInv(w, cfg, tr);
    InvHas(w, cfg, Last(tr));
  }

  /** total_latency is the sum of the times from fetch to completion. */
  lemma FinishedLatency(w: seq<Instruction>, cfg: Config, tr: seq<State>)
    requires Finishes(w, cfg, tr)
    ensures Last(tr).stats.totalLatency == Sum(Spans(Last(tr).ins))
  {
    hide Inv, HasWork, Sum;
    var s := Last(tr);
    LatencyAlongRun(w, cfg, tr);
    RunInv(w, cfg, tr);
    InvHas(w, cfg, s);
    forall i | 0 <= i < |s.ins| ensures Latencies(s)[i] == Spans(s.ins)[i] {
      FinishedInstruction(w, cfg, tr, i);
    }
    assert Latencies(s) == Spans(s.ins);
  }

  /** Loads and stores share the memory ports, compute instructions the compute units. */
  lemma FinishedWithinMeans(w: seq<Instruction>, cfg: Config, tr: seq<State>)
    requires Finishes(w, cfg, tr)
    ensures WithinMeans(Last(tr).ins, cfg)
  {
    hide Finishes, Served;
    NoneLeft(w, cfg, tr);
    var ins := Last(tr).ins;
    FinishedTimes(w, cfg, tr);
    forall t: nat
      ensures |Executing(ins, {Load, Store}, t)| <= cfg.memoryPorts
      ensures |Executing(ins, {Compute}, t)| <= cfg.computeUnits
      ensures |IssuingIn(ins, t)| <= cfg.issueWidth
    {
      ExecutingClasses(w, ins, cfg, tr, t);
      IssuingWidth(w, ins, cfg, tr, t);
    }
  }

  lemma IssuingWidth(w: seq<Instruction>, ins: seq<Instruction>, cfg: Config, tr: seq<State>, t: nat)
    requires Finishes(w, cfg, tr) && ins == Last(tr).ins && |ins| == |w|
    ensures |IssuingIn(ins, t)| <= cfg.issueWidth
  {
    hide IsRun, HasWork;
    NoneLeft(w, cfg, tr);
    IssueWidthHolds(w, cfg, tr, t);
    forall i: nat | i < |w| ensures HasIssued(Last(tr), i) {
      FinishedInstruction(w, cfg, tr, i);
    }
    assert IssuingIn(ins, t) == IssuedAt(Last(tr), t);
  }

  lemma ExecutingClasses(w: seq<Instruction>, ins: seq<Instruction>, cfg: Config, tr: seq<State>, t: nat)
    requires Finishes(w, cfg, tr) && ins == Last(tr).ins && |ins| == |w|
    ensures |Executing(ins, {Load, Store}, t)| <= cfg.memoryPorts && |Executing(ins, {Compute}, t)| <= cfg.computeUnits
  {
    hide Finishes;
    NoOversubscription(w, cfg, tr, t, true);
    NoOversubscription(w, cfg, tr, t, false);
    forall i: nat | i < |w| ensures ins[i].op == w[i].op {
      FinishedInstruction(w, cfg, tr, i);
    }
    var m := set i: nat | i < |w| && Uses(w[i], true) && ins[i].issueCycle <= t < ins[i].completeCycle;
    var c := set i: nat | i < |w| && Uses(w[i], false) && ins[i].issueCycle <= t < ins[i].completeCycle;
    assert Executing(ins, {Load, Store}, t) == m && Executing(ins, {Compute}, t) == c;
  }

  lemma FinishedDeps(w: seq<Instruction>, cfg: Config, tr: seq<State>)
    requires Finishes(w, cfg, tr) && DistinctIds(w)
    ensures DepsFirst(Last(tr).ins)
  {
    hide Inv, HasWork, DistinctIds, IsRun;
    NoneLeft(w, cfg, tr);
    var ins := Last(tr).ins;
    RunInv(w, cfg, tr);
    InvHas(w, cfg, Last(tr));
    forall i, j | 0 <= i < |ins| && 0 <= j < |ins| && ins[j].id in ins[i].deps
      ensures ins[j].completeCycle < ins[i].issueCycle
    {
      FinishedInstruction(w, cfg, tr, i);
      FinishedInstruction(w, cfg, tr, j);
      IssueAfterDependencies(w, cfg, tr, i, j);
    }
  }

  /** A program that ends has a port if it has a load or a store, and a unit if it computes. */
  lemma HaltsNeedsMeans(w: seq<Instruction>, cfg: Config, i: nat)
    requires Halts(w, cfg) && i < |w|
    ensures w[i].op == Compute ==> cfg.computeUnits > 0
    ensures w[i].op == Load || w[i].op == Store ==> cfg.memoryPorts > 0
  {
    hide Halts;
    HaltsIff(w, cfg);
  }
}
