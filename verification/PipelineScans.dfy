/** The rotate-in-place scans in closed form: each is a stable filter of the queue it
    started from. */
module PipelineScans {
  import opened Arithmetic
  import opened Instructions
  import opened PipelineModel

  // ---------- dispatch scan ----------

  /** The instructions whose dependencies have all retired. */
  function Satisfied(ins: seq<Instruction>, retired: set<nat>): set<nat> {
    set i: nat | i < |ins| && DepsSatisfied(ins[i], retired)
  }

  /** The first `room` satisfied entries, in queue order. */
  function MovedUp(q: seq<nat>, sat: set<nat>, room: nat): seq<nat> {
    if q == [] then []
    else if q[0] in sat && room > 0 then [q[0]] + MovedUp(q[1..], sat, room - 1)
    else MovedUp(q[1..], sat, room)
  }

  /** The other entries, in queue order. */
  function HeldBack(q: seq<nat>, sat: set<nat>, room: nat): seq<nat> {
    if q == [] then []
    else if q[0] in sat && room > 0 then HeldBack(q[1..], sat, room - 1)
    else [q[0]] + HeldBack(q[1..], sat, room)
  }

  /** How many entries still wait for a dependency. */
  function Unsatisfied(q: seq<nat>, sat: set<nat>): nat {
    if q == [] then 0 else (if q[0] in sat then 0 else 1) + Unsatisfied(q[1..], sat)
  }

  function ReadyRoom(s: State): nat {
    Monus(s.cfg.readyCapacity, |s.readyQ|)
  }

  /** One iteration of the scan, told with the reference functions. */
  lemma DispatchStepCase(s: State)
    requires WF(s) && s.dispatchQ != []
    ensures var t, i := DispatchStep(s), s.dispatchQ[0];
      && Satisfied(t.ins, t.retired) == Satisfied(s.ins, s.retired)
      && |t.ins| == |s.ins|
      && if i in Satisfied(s.ins, s.retired) && ReadyRoom(s) > 0
         then t == s.(dispatchQ := s.dispatchQ[1..], readyQ := s.readyQ + [i],
           ins := s.ins[i := s.ins[i].(stage := Ready)])
              && ReadyRoom(t) == ReadyRoom(s) - 1
         else t == s.(dispatchQ := s.dispatchQ[1..] + [i], stats := t.stats) && ReadyRoom(t) == ReadyRoom(s)
              && t.stats == if i in Satisfied(s.ins, s.retired)
                            then s.stats.(readyFull := s.stats.readyFull + 1)
                            else s.stats.(waitingDep := s.stats.waitingDep + 1)
  {
    var t, i := DispatchStep(s), s.dispatchQ[0];
    forall j: nat | j < |s.ins| ensures DepsSatisfied(t.ins[j], t.retired) == DepsSatisfied(s.ins[j], s.retired) {}
  }

  /** The scan is the filter: what moves goes up in order, what stays keeps its order, each
      entry that stays is one stall, blamed on a dependency exactly when one is missing, and
      nothing else changes. */
  lemma {:induction false} DispatchScanIsFilter(s: State, k: nat)
    requires WF(s) && k <= |s.dispatchQ|
    ensures var r := DispatchScan(s, k);
      var sat, room := Satisfied(s.ins, s.retired), ReadyRoom(s);
      && r.dispatchQ == s.dispatchQ[k..] + HeldBack(s.dispatchQ[..k], sat, room)
      && r.readyQ == s.readyQ + MovedUp(s.dispatchQ[..k], sat, room)
      && r.stats.waitingDep == s.stats.waitingDep + Unsatisfied(s.dispatchQ[..k], sat)
      && r.stats.readyFull + r.stats.waitingDep ==
           s.stats.readyFull + s.stats.waitingDep + |HeldBack(s.dispatchQ[..k], sat, room)|
      && |r.ins| == |s.ins|
      && r == s.(dispatchQ := r.dispatchQ, readyQ := r.readyQ, ins := r.ins,
                 stats := s.stats.(readyFull := r.stats.readyFull, waitingDep := r.stats.waitingDep))
    decreases k
  {
    hide WF, Satisfied, ReadyRoom, DispatchStep;
    if k > 0 {
      var t := DispatchStep(s);
      DispatchStepCase(s);
      DispatchScanIsFilter(t, k - 1);
      assert t.dispatchQ[..k - 1] == s.dispatchQ[..k][1..];
      var sat, i := Satisfied(s.ins, s.retired), s.dispatchQ[0];
      if i in sat && ReadyRoom(s) > 0 {
        assert t.dispatchQ[k - 1..] == s.dispatchQ[k..];
      } else {
        assert t.dispatchQ[k - 1..] == s.dispatchQ[k..] + [i];
      }
    } else {
      assert s.dispatchQ[..0] == [];
    }
  }

  /** Only the entries that moved up change, and only in their stage. */
  lemma {:induction false} DispatchScanMoves(s: State, k: nat)
    requires WF(s) && k <= |s.dispatchQ|
    ensures var r := DispatchScan(s, k);
      && |r.ins| == |s.ins|
      && forall i :: 0 <= i < |s.ins| ==>
           r.ins[i] == if i in MovedUp(s.dispatchQ[..k], Satisfied(s.ins, s.retired), ReadyRoom(s))
                       then s.ins[i].(stage := Ready) else s.ins[i]
    decreases k
  {
    hide Satisfied, ReadyRoom, DispatchStep;
    if k > 0 {
      DispatchStepCase(s);
      DispatchScanMoves(DispatchStep(s), k - 1);
      assert DispatchStep(s).dispatchQ[..k - 1] == s.dispatchQ[..k][1..];
    }
  }

  /** What moved up is exactly the satisfied part of the queue, cut off at the room there was. */
  lemma {:induction false} MovedUpMeaning(q: seq<nat>, sat: set<nat>, room: nat)
    ensures var m := MovedUp(q, sat, room);
      && |m| <= room && |m| + |HeldBack(q, sat, room)| == |q|
      && (forall i :: i in m ==> i in q && i in sat)
      && (|m| < room ==> forall i :: i in q && i in sat ==> i in m)
      && multiset(q) == multiset(m) + multiset(HeldBack(q, sat, room))
  {
    if q != [] {
      assert q == [q[0]] + q[1..];
      MovedUpMeaning(q[1..], sat, if q[0] in sat && room > 0 then room - 1 else room);
    }
  }

  /** `sub` is what is left of `q` after deleting entries. */
  ghost predicate Subsequence(sub: seq<nat>, q: seq<nat>) {
    if sub == [] then true
    else q != [] && (Subsequence(sub, q[1..]) || (sub[0] == q[0] && Subsequence(sub[1..], q[1..])))
  }

  lemma {:induction false} ScanKeepsOrder(q: seq<nat>, sat: set<nat>, room: nat)
    ensures Subsequence(MovedUp(q, sat, room), q) && Subsequence(HeldBack(q, sat, room), q)
  {
    if q != [] {
      ScanKeepsOrder(q[1..], sat, if q[0] in sat && room > 0 then room - 1 else room);
    }
  }

  ghost predicate Increasing(q: seq<nat>) {
    forall j, k :: 0 <= j < k < |q| ==> q[j] < q[k]
  }

  lemma {:induction false} SubsequenceIncreasing(sub: seq<nat>, q: seq<nat>)
    requires Subsequence(sub, q) && Increasing(q)
    ensures Increasing(sub) && forall i :: i in sub ==> i in q
    decreases |q|
  {
    if sub != [] {
      if Subsequence(sub, q[1..]) {
        SubsequenceIncreasing(sub, q[1..]);
      } else {
        SubsequenceIncreasing(sub[1..], q[1..]);
        assert sub == [sub[0]] + sub[1..];
        forall k | 0 < k < |sub| ensures sub[0] < sub[k] {
          assert sub[k] == sub[1..][k - 1] && sub[k] in q[1..];
        }
      }
    }
  }

  // ---------- issue scan ----------

  /** The Load and Store instructions. */
  function MemoryOps(ins: seq<Instruction>): set<nat> {
    set i: nat | i < |ins| && IsMemoryOp(ins[i].op)
  }

  /** What one issue scan may still use: issues, memory ports, compute units. */
  datatype Budget = Budget(width: nat, ports: nat, units: nat) {
    predicate Allows(mem: bool) {
      width > 0 && if mem then ports > 0 else units > 0
    }

    function Spend(mem: bool): Budget
      requires Allows(mem)
    {
      if mem then Budget(width - 1, ports - 1, units) else Budget(width - 1, ports, units - 1)
    }
  }

  function BudgetOf(s: State, issued: nat): Budget {
    Budget(Monus(s.cfg.issueWidth, issued), Monus(s.cfg.memoryPorts, s.memoryInUse),
      Monus(s.cfg.computeUnits, s.computeInUse))
  }

  /** What the issue scan takes from the queue. */
  function Taken(q: seq<nat>, mem: set<nat>, b: Budget): seq<nat>
    decreases q
  {
    if q == [] then []
    else if b.Allows(q[0] in mem) then [q[0]] + Taken(q[1..], mem, b.Spend(q[0] in mem))
    else Taken(q[1..], mem, b)
  }

  function Left(q: seq<nat>, mem: set<nat>, b: Budget): seq<nat>
    decreases q
  {
    if q == [] then []
    else if b.Allows(q[0] in mem) then Left(q[1..], mem, b.Spend(q[0] in mem))
    else [q[0]] + Left(q[1..], mem, b)
  }

  function Issued'(s: State, issued: nat): nat
    requires WF(s) && s.readyQ != []
  {
    if IssueBlocked(s, issued) then issued else issued + 1
  }

  /** One iteration of the issue scan, told with the reference functions. */
  lemma IssueStepCase(s: State, issued: nat)
    requires WF(s) && s.readyQ != []
    ensures var t, i, b := IssueStep(s, issued), s.readyQ[0], BudgetOf(s, issued);
      var mem := i in MemoryOps(s.ins);
      var b' := BudgetOf(t, Issued'(s, issued));
      && MemoryOps(t.ins) == MemoryOps(s.ins) && |t.ins| == |s.ins| && i < |s.ins|
      && if b.Allows(mem)
         then b' == b.Spend(mem) && Issued'(s, issued) == issued + 1
              && t == s.(readyQ := s.readyQ[1..], slots := s.slots + [Slot(i, s.ins[i].latency, mem)],
                         ins := s.ins[i := s.ins[i].(stage := Execute, issueCycle := s.cycle)],
                         memoryInUse := s.memoryInUse + (if mem then 1 else 0),
                         computeInUse := s.computeInUse + (if mem then 0 else 1))
         else b' == b && Issued'(s, issued) == issued
              && t == s.(readyQ := s.readyQ[1..] + [i], stats := t.stats)
              && t.stats == s.stats.(noMemory := s.stats.noMemory + (if b.width > 0 && mem then 1 else 0),
                                     noCompute := s.stats.noCompute + (if b.width > 0 && !mem then 1 else 0))
  {
    var t, i := IssueStep(s, issued), s.readyQ[0];
    forall j: nat | j < |s.ins| ensures IsMemoryOp(t.ins[j].op) == IsMemoryOp(s.ins[j].op) {}
  }

  /** The issue scan is the filter `Taken`; nothing else in the state changes. */
  lemma {:induction false} IssueScanIsFilter(s: State, k: nat, issued: nat)
    requires WF(s) && k <= |s.readyQ|
    ensures var r := IssueScan(s, k, issued);
      var mem, b := MemoryOps(s.ins), BudgetOf(s, issued);
      && r.readyQ == s.readyQ[k..] + Left(s.readyQ[..k], mem, b)
      && |r.slots| == |s.slots| + |Taken(s.readyQ[..k], mem, b)|
      && |r.ins| == |s.ins|
      && r == s.(readyQ := r.readyQ, ins := r.ins, slots := r.slots,
                 memoryInUse := r.memoryInUse, computeInUse := r.computeInUse,
                 stats := s.stats.(noMemory := r.stats.noMemory, noCompute := r.stats.noCompute))
    decreases k
  {
    hide WF, MemoryOps, BudgetOf, IssueStep, IssueBlocked;
    if k > 0 {
      var t := IssueStep(s, issued);
      IssueStepCase(s, issued);
      IssueScanIsFilter(t, k - 1, Issued'(s, issued));
      assert t.readyQ[..k - 1] == s.readyQ[..k][1..];
      if BudgetOf(s, issued).Allows(s.readyQ[0] in MemoryOps(s.ins)) {
        assert t.readyQ[k - 1..] == s.readyQ[k..];
      } else {
        assert t.readyQ[k - 1..] == s.readyQ[k..] + [s.readyQ[0]];
      }
    } else {
      assert s.readyQ[..0] == [];
    }
  }

  /** Only the issued entries change: they enter Execute in this cycle. */
  lemma {:induction false} IssueScanMoves(s: State, k: nat, issued: nat)
    requires WF(s) && k <= |s.readyQ|
    ensures var r := IssueScan(s, k, issued);
      && |r.ins| == |s.ins|
      && forall i :: 0 <= i < |s.ins| ==>
           r.ins[i] == if i in Taken(s.readyQ[..k], MemoryOps(s.ins), BudgetOf(s, issued))
                       then s.ins[i].(stage := Execute, issueCycle := s.cycle) else s.ins[i]
    decreases k
  {
    hide WF, MemoryOps, BudgetOf, IssueStep, IssueBlocked;
    if k > 0 {
      IssueStepCase(s, issued);
      IssueScanMoves(IssueStep(s, issued), k - 1, Issued'(s, issued));
      assert IssueStep(s, issued).readyQ[..k - 1] == s.readyQ[..k][1..];
    }
  }

  /** The entries of one class, in order. */
  function OfClass(q: seq<nat>, mem: set<nat>, memory: bool): seq<nat> {
    if q == [] then []
    else (if (q[0] in mem) == memory then [q[0]] else []) + OfClass(q[1..], mem, memory)
  }

  /** The rest of the queue once the issue width is used up: scanned, but never tested. */
  function Skipped(q: seq<nat>, mem: set<nat>, b: Budget): seq<nat>
    decreases q
  {
    if b.width == 0 || q == [] then q
    else Skipped(q[1..], mem, if b.Allows(q[0] in mem) then b.Spend(q[0] in mem) else b)
  }

  /** The skipped entries are exactly those behind the issue that used up the width. */
  lemma {:induction false} SkippedMeaning(q: seq<nat>, mem: set<nat>, b: Budget)
    ensures var m := |q| - |Skipped(q, mem, b)|;
      && 0 <= m && Skipped(q, mem, b) == q[m..]
      && (Skipped(q, mem, b) != [] ==> |Taken(q[..m], mem, b)| == b.width)
      && forall n :: 0 <= n < m ==> |Taken(q[..n], mem, b)| < b.width
    decreases q
  {
    if b.width > 0 && q != [] {
      var kind := q[0] in mem;
      var b' := if b.Allows(kind) then b.Spend(kind) else b;
      SkippedMeaning(q[1..], mem, b');
      var m := |q| - |Skipped(q, mem, b)|;
      forall n | 0 < n <= |q| ensures q[..n][0] == q[0] && q[..n][1..] == q[1..][..n - 1] {}
      forall n | 0 <= n < m ensures |Taken(q[..n], mem, b)| < b.width {
        if n > 0 {
          assert |Taken(q[1..][..n - 1], mem, b')| < b'.width;
        }
      }
    }
  }

  /** With more width than ports and units together nothing is ever skipped. */
  lemma NothingSkipped(q: seq<nat>, mem: set<nat>, b: Budget)
    requires b.width > b.ports + b.units
    ensures Skipped(q, mem, b) == []
  {
    SkippedMeaning(q, mem, b);
    var front := q[..|q| - |Skipped(q, mem, b)|];
    TakenWithinBudget(front, mem, b);
    ClassesPartition(Taken(front, mem, b), mem);
  }

  lemma {:induction false} SkippedIsLeft(q: seq<nat>, mem: set<nat>, b: Budget)
    requires b.width == 0
    ensures Left(q, mem, b) == q
  {
    if q != [] {
      SkippedIsLeft(q[1..], mem, b);
    }
  }

  /** NoMemoryPort (NoComputeUnit) counts exactly the memory (compute) entries left waiting,
      but for those behind the issue that used up the width. */
  lemma {:induction false} IssueStalls(s: State, k: nat, issued: nat)
    requires WF(s) && k <= |s.readyQ|
    ensures var r := IssueScan(s, k, issued);
      var b, mem := BudgetOf(s, issued), MemoryOps(s.ins);
      var left, skipped := Left(s.readyQ[..k], mem, b), Skipped(s.readyQ[..k], mem, b);
      && r.stats.noMemory - s.stats.noMemory + |OfClass(skipped, mem, true)| == |OfClass(left, mem, true)|
      && r.stats.noCompute - s.stats.noCompute + |OfClass(skipped, mem, false)| == |OfClass(left, mem, false)|
      && s.stats.noMemory <= r.stats.noMemory && s.stats.noCompute <= r.stats.noCompute
    decreases k
  {
    hide WF, MemoryOps, BudgetOf, IssueStep, IssueBlocked;
    if k > 0 {
      IssueStepCase(s, issued);
      IssueStalls(IssueStep(s, issued), k - 1, Issued'(s, issued));
      assert IssueStep(s, issued).readyQ[..k - 1] == s.readyQ[..k][1..];
      if BudgetOf(s, issued).width == 0 {
        SkippedIsLeft(s.readyQ[..k], MemoryOps(s.ins), BudgetOf(s, issued));
        SkippedIsLeft(s.readyQ[..k][1..], MemoryOps(s.ins), BudgetOf(s, issued));
      }
    }
  }

  /** The counters after the scan: one more for each entry taken. */
  lemma {:induction false} IssueScanUses(s: State, k: nat, issued: nat)
    requires WF(s) && k <= |s.readyQ|
    ensures var r := IssueScan(s, k, issued);
      var taken := Taken(s.readyQ[..k], MemoryOps(s.ins), BudgetOf(s, issued));
      && r.memoryInUse == s.memoryInUse + |OfClass(taken, MemoryOps(s.ins), true)|
      && r.computeInUse == s.computeInUse + |OfClass(taken, MemoryOps(s.ins), false)|
    decreases k
  {
    hide WF, MemoryOps, BudgetOf, IssueStep, IssueBlocked;
    if k > 0 {
      IssueStepCase(s, issued);
      IssueScanUses(IssueStep(s, issued), k - 1, Issued'(s, issued));
      assert IssueStep(s, issued).readyQ[..k - 1] == s.readyQ[..k][1..];
    }
  }

  lemma {:induction false} ClassesPartition(q: seq<nat>, mem: set<nat>)
    ensures |OfClass(q, mem, true)| + |OfClass(q, mem, false)| == |q|
  {
    if q != [] {
      ClassesPartition(q[1..], mem);
    }
  }

  /** Nothing of a class is taken once its resource or the width is used up. */
  lemma {:induction false} TakenNone(q: seq<nat>, mem: set<nat>, b: Budget, memory: bool)
    requires !b.Allows(memory)
    ensures OfClass(Taken(q, mem, b), mem, memory) == []
    ensures OfClass(Left(q, mem, b), mem, memory) == OfClass(q, mem, memory)
    decreases q
  {
    if q != [] {
      var kind := q[0] in mem;
      TakenNone(q[1..], mem, if b.Allows(kind) then b.Spend(kind) else b, memory);
    }
  }

  /** Within a class, issue is first-in first-out: what was issued stood before what was left. */
  lemma {:induction false} IssueIsFifoPerClass(q: seq<nat>, mem: set<nat>, b: Budget, memory: bool)
    ensures OfClass(q, mem, memory) == OfClass(Taken(q, mem, b), mem, memory) + OfClass(Left(q, mem, b), mem, memory)
    decreases q
  {
    if q != [] {
      var kind := q[0] in mem;
      if !b.Allows(memory) {
        TakenNone(q, mem, b, memory);
      } else {
        IssueIsFifoPerClass(q[1..], mem, if b.Allows(kind) then b.Spend(kind) else b, memory);
      }
    }
  }

  lemma {:induction false} TakenWithinBudget(q: seq<nat>, mem: set<nat>, b: Budget)
    ensures |Taken(q, mem, b)| <= b.width
    ensures |OfClass(Taken(q, mem, b), mem, true)| <= b.ports && |OfClass(Taken(q, mem, b), mem, false)| <= b.units
    ensures |Taken(q, mem, b)| + |Left(q, mem, b)| == |q|
    ensures forall i :: i in Taken(q, mem, b) ==> i in q
    decreases q
  {
    if q != [] {
      var kind := q[0] in mem;
      TakenWithinBudget(q[1..], mem, if b.Allows(kind) then b.Spend(kind) else b);
    }
  }

  /** Issue wastes nothing: an entry left waiting means its resource is used up or the width is. */
  lemma {:induction false} IssueIsWorkConserving(q: seq<nat>, mem: set<nat>, b: Budget, i: nat)
    requires i in Left(q, mem, b)
    ensures var taken := Taken(q, mem, b);
      || |taken| == b.width
      || |OfClass(taken, mem, i in mem)| == if i in mem then b.ports else b.units
    decreases q
  {
    var kind := q[0] in mem;
    if b.Allows(kind) {
      IssueIsWorkConserving(q[1..], mem, b.Spend(kind), i);
    } else if i in Left(q[1..], mem, b) {
      IssueIsWorkConserving(q[1..], mem, b, i);
    } else {
      TakenNone(q, mem, b, kind);
      TakenWithinBudget(q, mem, b);
    }
  }

  // ---------- order of two entries ----------

  /** `i` stands before `j`. */
  ghost predicate Before(q: seq<nat>, i: nat, j: nat) {
    exists x, y :: 0 <= x < y < |q| && q[x] == i && q[y] == j
  }

  lemma {:induction false} TakenOrLeft(q: seq<nat>, mem: set<nat>, b: Budget, i: nat)
    requires Unique(q)
    ensures i in q <==> i in Taken(q, mem, b) || i in Left(q, mem, b)
    ensures i in Taken(q, mem, b) ==> i !in Left(q, mem, b)
    ensures Unique(Taken(q, mem, b))
    decreases q
  {
    if q != [] {
      var kind := q[0] in mem;
      var b' := if b.Allows(kind) then b.Spend(kind) else b;
      TakenOrLeft(q[1..], mem, b', i);
      TakenOrLeft(q[1..], mem, b', q[0]);
      assert q == [q[0]] + q[1..];
      forall k | 0 <= k < |Taken(q[1..], mem, b')| ensures Taken(q[1..], mem, b')[k] != q[0] {
        assert Taken(q[1..], mem, b')[k] in Taken(q[1..], mem, b');
      }
    }
  }

  /** Of two entries of one class the later is not taken without the earlier, and if both stay
      they keep their order. */
  lemma {:induction false} ClassOrder(q: seq<nat>, mem: set<nat>, b: Budget, x: nat, y: nat)
    requires Unique(q) && x < y < |q| && (q[x] in mem <==> q[y] in mem)
    ensures q[y] in Taken(q, mem, b) ==> q[x] in Taken(q, mem, b)
    ensures q[x] in Left(q, mem, b) ==> Before(Left(q, mem, b), q[x], q[y])
    decreases q
  {
    var kind := q[0] in mem;
    var b' := if b.Allows(kind) then b.Spend(kind) else b;
    TakenOrLeft(q, mem, b, q[x]);
    TakenOrLeft(q, mem, b, q[y]);
    TakenOrLeft(q[1..], mem, b', q[y]);
    if x > 0 {
      ClassOrder(q[1..], mem, b', x - 1, y - 1);
      var l := Left(q[1..], mem, b');
      if q[x] in Left(q, mem, b) {
        var u, v :| 0 <= u < v < |l| && l[u] == q[x] && l[v] == q[y];
        var d := if b.Allows(kind) then 0 else 1;
        assert Left(q, mem, b)[u + d] == q[x] && Left(q, mem, b)[v + d] == q[y];
      }
    } else if !b.Allows(kind) {
      NoneOfClass(q, mem, b, y);
      var l := Left(q[1..], mem, b);
      assert q[y] == q[1..][y - 1];
      var v :| 0 <= v < |l| && l[v] == q[y];
      assert Left(q, mem, b)[0] == q[0] && Left(q, mem, b)[v + 1] == q[y];
    }
  }

  lemma {:induction false} NoneOfClass(q: seq<nat>, mem: set<nat>, b: Budget, y: nat)
    requires y < |q| && Unique(q) && !b.Allows(q[y] in mem)
    ensures q[y] !in Taken(q, mem, b)
    decreases q
  {
    var kind := q[0] in mem;
    var b' := if b.Allows(kind) then b.Spend(kind) else b;
    TakenWithinBudget(q[1..], mem, b');
    if y > 0 {
      NoneOfClass(q[1..], mem, b', y - 1);
    }
  }
}
