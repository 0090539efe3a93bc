/** Halting when the dispatch queue can hold the whole program, where acyclic dependencies are
    all it takes, and an acyclic program that a smaller queue jams. */
module PipelineAcyclic {
  import opened Arithmetic
  import opened Instructions
  import opened Loader
  import opened PipelineModel
  import opened PipelineRuns
  import opened PipelineOrder
  import opened PipelineWindow
  import opened PipelineProgress
  import opened PipelineHalting

  /** No walk along dependencies comes back to where it started. */
  ghost predicate Acyclic(w: seq<Instruction>) {
    forall p :: IsWalk(w, p) && |p| > 1 ==> p[0] != p[|p| - 1]
  }

  // ---------- a jam without a cycle needs a small window ----------

  /** Nothing outside `gone` has all its dependency ids inside. */
  ghost predicate AllBlocked(w: seq<Instruction>, gone: set<nat>) {
    forall j: nat :: j < |w| && j !in gone ==> !DepsSatisfied(w[j], Ids(w, gone))
  }

  lemma NextBlocked(w: seq<Instruction>, gone: set<nat>, i: nat) returns (j: nat)
    requires DepsNamed(w) && AllBlocked(w, gone) && i < |w| && i !in gone
    ensures j < |w| && j !in gone && DependsOn(w, i, j)
  {
    var k :| 0 <= k < |w[i].deps| && w[i].deps[k] !in Ids(w, gone);
    assert NamedBelow(w, |w|, w[i].deps[k]);
    j :| j < |w| && w[j].id == w[i].deps[k];
  }

  /** Blocked instructions wait for blocked instructions, for as long a walk as one likes. */
  lemma {:induction false} BlockedWalk(w: seq<Instruction>, gone: set<nat>, i: nat, n: nat) returns (p: seq<nat>)
    requires DepsNamed(w) && AllBlocked(w, gone) && i < |w| && i !in gone
    ensures IsWalk(w, p) && |p| == n + 1 && p[0] == i && forall k :: 0 <= k < |p| ==> p[k] < |w|
    decreases n
  {
    if n == 0 {
      p := [i];
    } else {
      var j := NextBlocked(w, gone, i);
      var q := BlockedWalk(w, gone, j, n - 1);
      p := [i] + q;
      forall k, m | 0 <= k && m == k + 1 && m < |p| ensures DependsOn(w, p[k], p[m]) {
        assert k > 0 ==> p[k] == q[k - 1] && p[m] == q[m - 1];
      }
    }
  }

  /** A walk longer than the program passes some instruction twice. */
  lemma LongWalkCloses(w: seq<Instruction>, p: seq<nat>)
    requires IsWalk(w, p) && |p| > |w| && forall k :: 0 <= k < |p| ==> p[k] < |w|
    ensures !Acyclic(w)
  {
    if Unique(p) {
      ElementsSize(p);
      UpToSize(|w|);
      SubsetSize(Elements(p), UpTo(|w|));
    } else {
      var a, b :| 0 <= a < b < |p| && p[a] == p[b];
      var q := p[a..b + 1];
      forall k, m | 0 <= k && m == k + 1 && m < |q| ensures DependsOn(w, q[k], q[m]) {
        assert DependsOn(w, p[a + k], p[a + m]);
      }
      assert IsWalk(w, q) && q[0] == q[|q| - 1];
    }
  }

  lemma AcyclicCompletes(w: seq<Instruction>, cap: nat)
    requires DepsNamed(w) && Acyclic(w) && cap >= |w|
    ensures WindowCompletes(w, cap)
  {
    hide Acyclic, DepsNamed;
    var top := Close(w, cap, Window(0, {}));
    CloseIsJammed(w, cap, Window(0, {}));
    if top.gone != AllOf(w) {
      var i: nat :| i < |w| && i !in top.gone;
      if top.p < |w| {
        MissingOne(w, top);
      }
      assert forall j: nat :: j < |w| && j !in top.gone ==> j !in Leavers(w, top);
      var p := BlockedWalk(w, top.gone, i, |w|);
      LongWalkCloses(w, p);
    }
  }

  /** A window short of the whole program, jammed, holds at least `cap` instructions. */
  lemma MissingOne(w: seq<Instruction>, top: Window)
    requires Proper(w, top) && top.p < |w|
    ensures top.p - |top.gone| < |w|
  {
    GoneSize(w, top);
  }

  // ---------- exactly when a large dispatch queue lets a program end ----------

  /** A run that ends found every dependency id on some instruction. */
  lemma FinishedIsNamed(w: seq<Instruction>, cfg: Config, tr: seq<State>)
    requires Finishes(w, cfg, tr)
    ensures DepsNamed(w)
  {
    hide Inv, HasWork;
    var s := Last(tr);
    forall i, k | 0 <= i < |w| && 0 <= k < |w[i].deps| ensures NamedBelow(w, |w|, w[i].deps[k]) {
      FinishedInstruction(w, cfg, tr, i);
      RunInv(w, cfg, tr);
      InvHas(w, cfg, s);
      assert DepsMet(s, s.ins[i]) && DoneBefore(s, w[i].deps[k], s.ins[i].issueCycle);
      var j: nat :| j < s.next && j < |s.ins| && s.ins[j].stage == Done && s.ins[j].id == w[i].deps[k]
        && s.ins[j].completeCycle < s.ins[i].issueCycle;
      assert SameOp(s.ins[j], w[j]);
    }
  }

  /** With distinct ids and a dispatch queue that can hold the program, the loop ends if and only
      if the machine has all means, every dependency id exists, and no dependency cycle does. */
  lemma HaltsIffAcyclic(w: seq<Instruction>, cfg: Config)
    requires DistinctIds(w) && cfg.dispatchCapacity >= |w|
    ensures Halts(w, cfg) <==> w == [] || (Provisioned(w, cfg) && DepsNamed(w) && Acyclic(w))
  {
    hide Finishes, Provisioned, DepsNamed, WindowCompletes, IsWalk, DistinctIds;
    HaltsIff(w, cfg);
    if tr :| Finishes(w, cfg, tr) {
      FinishedIsNamed(w, cfg, tr);
      forall p | IsWalk(w, p) && |p| > 1 ensures p[0] != p[|p| - 1] {
        FinishedIsAcyclic(w, cfg, tr, p);
      }
    }
    if DepsNamed(w) && Acyclic(w) {
      AcyclicCompletes(w, cfg.dispatchCapacity);
    }
  }

  // ---------- a small dispatch queue can jam an acyclic program ----------

  function ForwardRows(): seq<Row> {
    [Columns(1, SomeOp(Compute), 1, 0, [2]), Columns(2, SomeOp(Compute), 1, 0, [])]
  }

  function ForwardProgram(): seq<Instruction> {
    [InstructionOf(ForwardRows()[0]), InstructionOf(ForwardRows()[1])]
  }

  lemma ForwardLoads()
    ensures LoadsAs(ForwardRows(), ForwardProgram())
  {
    var rows := ForwardRows();
    assert GoodRow(rows, 0) && GoodRow(rows, 1);
    assert HasId(rows, 2) by { assert rows[1].id == 2; }
    assert DepsKnown(rows, 0) && DepsKnown(rows, 1);
  }

  lemma ForwardIsAcyclic()
    ensures Acyclic(ForwardProgram())
  {
    var w := ForwardProgram();
    forall p | IsWalk(w, p) && |p| > 1 ensures p[0] != p[|p| - 1] {
      assert DependsOn(w, p[0], p[1]) && DependsOn(w, p[|p| - 2], p[|p| - 1]);
    }
  }

  /** The loader accepts the two rows, whose first depends on the second, and the program is
      acyclic.  With a dispatch queue of one the loop never ends, whatever else the machine
      has; with a queue of two and all other means it does. */
  lemma ForwardDependencyJams(cfg: Config)
    requires cfg.dispatchCapacity == 1
    ensures var w := ForwardProgram();
      && LoadsAs(ForwardRows(), w) && DistinctIds(w) && DepsNamed(w) && Acyclic(w)
      && !Halts(w, cfg)
      && (Provisioned(w, cfg) ==> Halts(w, cfg.(dispatchCapacity := 2)))
  {
    hide Halts, Close, WindowCompletes, LoadsAs, Acyclic, DistinctIds, DepsNamed;
    var w := ForwardProgram();
    ForwardLoads();
    ForwardIsAcyclic();
    LoadedProgram(ForwardRows(), w);
    var top := Window(1, {});
    assert w[0].deps[0] == 2;
    assert Leavers(w, top) == {};
    assert 0 in AllOf(w);
    JammedBelowAll(w, 1, top);
    HaltsIff(w, cfg);
    HaltsIffAcyclic(w, cfg.(dispatchCapacity := 2));
  }
}
