/** What every schedule of the worker pool does: the sequential answer, no deadlock, an end. */
module WorkerPoolRuns {
  import opened Checksum
  import opened Arithmetic
  import opened TaskWork
  import opened WorkerPool
  import opened WorkerPoolSteps

  ghost predicate PoolInv(c: Setup, s: Pool) {
    Exclusion(c, s) && Phases(c, s) && WakeUps(c, s) && Conserved(c, s) && Summed(c, s) && Counted(c, s)
  }

  lemma StartInv(c: Setup)
    requires Accepted(c)
    ensures PoolInv(c, Start(c))
  {
    hide Sum, Xor, Batches;
    var s := Start(c);
    EmptyBatches(s.workers);
    AllZero(Completed(s.workers));
    AllZero(MergedCompleted(s.workers));
    AllZero(MergedLocks(s.workers));
    assert Checksums(c, []) == [];
  }

  lemma {:induction false} EmptyBatches(ws: seq<Worker>)
    requires forall i :: 0 <= i < |ws| ==> ws[i].batch == []
    ensures Batches(ws) == multiset{}
  {
    if ws != [] {
      EmptyBatches(ws[..|ws| - 1]);
    }
  }

  lemma StepInv(c: Setup, s: Pool, a: Action)
    requires Accepted(c) && PoolInv(c, s) && Enabled(c, s, a)
    ensures PoolInv(c, Apply(c, s, a))
  {
    hide Phases, WakeUps, Conserved, Summed, Enabled, Apply, BatchBounds;
    StepExclusion(c, s, a);
    StepPhases(c, s, a);
    if WorkerAction(a) { WorkerStepWakeUps(c, s, a); } else { ProducerStepWakeUps(c, s, a); }
    StepConserves(c, s, a);
    StepSummed(c, s, a);
    StepBounds(c, s, a);
    StepSums(c, s, a);
  }

  /** Every schedule keeps the invariant. */
  lemma {:induction false} ExecutionInv(c: Setup, acts: seq<Action>, tr: seq<Pool>)
    requires Accepted(c) && IsExecution(c, acts, tr)
    ensures PoolInv(c, End(tr))
    decreases |acts|
  {
    hide PoolInv, Enabled, Apply, Start;
    if acts == [] {
      StartInv(c);
    } else {
      ExecutionPrefix(c, acts, tr);
      ExecutionInv(c, acts[..|acts| - 1], tr[..|tr| - 1]);
      StepInv(c, End(tr[..|tr| - 1]), acts[|acts| - 1]);
    }
  }

  // ---------- the answer ----------

  lemma ChecksumsOrder(c: Setup, p: seq<nat>, q: seq<nat>)
    requires multiset(p) == multiset(q) && InRangeLog(c, p) && InRangeLog(c, q)
    ensures multiset(Checksums(c, p)) == multiset(Checksums(c, q))
  {
    var f: nat -> Word := (i: nat) => if i < |c.sums| then c.sums[i] else 0;
    assert Checksums(c, p) == Mapped(f, p) && Checksums(c, q) == Mapped(f, q);
    MappedOrder(f, p, q);
  }

  /** Mutual exclusion: at most one thread is in a critical section. */
  lemma AtMostOneHolder(c: Setup, acts: seq<Action>, tr: seq<Pool>, i: nat, j: nat)
    requires Accepted(c) && IsExecution(c, acts, tr) && i < j < |End(tr).workers|
    ensures !(Holds(End(tr).workers[i].pc) && Holds(End(tr).workers[j].pc))
    ensures !(Holds(End(tr).workers[i].pc) && PHolds(End(tr).producer))
  {
    hide IsExecution;
    ExecutionInv(c, acts, tr);
  }

  lemma DoneState(c: Setup, s: Pool)
    requires Accepted(c) && PoolInv(c, s) && s.producer == PDone
    ensures s.queue == [] && s.pushed == |c.sums| && AllExited(s.workers)
    ensures multiset(s.log) == multiset(Range(0, |c.sums|))
  {
    hide WakeUps, Summed, Counted, Range;
    assert s.workers[0].pc == Exited;
    EmptyBatches(s.workers);
  }

  /** Each task is processed exactly once, and the checksum is that of the tasks in order. */
  lemma EveryScheduleGivesTheAnswer(c: Setup, acts: seq<Action>, tr: seq<Pool>)
    requires Accepted(c) && IsExecution(c, acts, tr) && End(tr).producer == PDone
    ensures multiset(End(tr).log) == multiset(Range(0, |c.sums|))
    ensures End(tr).checksum == XorAll(c.sums)
    ensures End(tr).totalCompleted == |c.sums|
  {
    hide IsExecution, XorAll, Xor, Sum;
    ExecutionInv(c, acts, tr);
    ExecutionNonEmpty(c, acts, tr);
    var s := End(tr);
    DoneState(c, s);
    var all := Range(0, |c.sums|);
    assert Checksums(c, all) == c.sums;
    ChecksumsOrder(c, s.log, all);
    XorOrder(Checksums(c, s.log), c.sums);
    assert MergedCompleted(s.workers) == Completed(s.workers);
    assert |multiset(s.log)| == |s.log| && |multiset(all)| == |all|;
  }

  lemma ExecutionNonEmpty(c: Setup, acts: seq<Action>, tr: seq<Pool>)
    requires IsExecution(c, acts, tr)
    ensures |tr| > 0
  {
  }

  /** The pool that runs a given workload. */
  function SetupFor(data: seq<Word>, chunk: nat, pattern: Pattern, capacity: nat, batchSize: nat, workers: nat): Setup
    requires chunk > 0
  {
    ItemsFit(|data|, chunk);
    Setup(ItemChecksums(data, Items(|data|, chunk), pattern), capacity, batchSize, workers)
  }

  /** Whatever the schedule, worker count, batch size and capacity, the multithreaded run
      reports the checksum of the single-threaded one and counts every task. */
  lemma MultithreadedEqualsSequential(data: seq<Word>, chunk: nat, pattern: Pattern, capacity: nat, batchSize: nat,
                                      workers: nat, acts: seq<Action>, tr: seq<Pool>)
    requires chunk > 0 && batchSize > 0 && workers > 0
    requires IsExecution(SetupFor(data, chunk, pattern, capacity, batchSize, workers), acts, tr)
      && End(tr).producer == PDone
    ensures End(tr).checksum == RunChecksum(data, chunk, pattern) && RunAnswer(data, chunk, pattern, End(tr).checksum)
    ensures End(tr).totalCompleted == |Items(|data|, chunk)|
  {
    hide IsExecution, XorAll, ItemChecksum, RunAnswer;
    RunChecksumMeaning(data, chunk, pattern);
    EveryScheduleGivesTheAnswer(SetupFor(data, chunk, pattern, capacity, batchSize, workers), acts, tr);
  }

  // ---------- lock acquisitions ----------

  lemma {:induction false} TakesBound(c: Setup, ws: seq<Worker>)
    requires forall i :: 0 <= i < |ws| ==> BatchBounds(c, ws[i]) && ws[i].pc == Exited && ws[i].batch == []
    ensures Sum(MergedLocks(ws)) - |ws| <= Sum(Completed(ws)) <= c.batchSize * (Sum(MergedLocks(ws)) - |ws|)
  {
    if ws != [] {
      TakesBound(c, ws[1..]);
      assert MergedLocks(ws)[1..] == MergedLocks(ws[1..]) && Completed(ws)[1..] == Completed(ws[1..]);
      var l, r := Sum(MergedLocks(ws[1..])) - |ws[1..]|, Takes(ws[0]);
      Distribute(c.batchSize, l, r);
    }
  }

  /** ceil(T / batch) + W <= lock acquisitions <= T + W, on every schedule; with a batch size
      of one it is exactly T + W. */
  lemma LockAcquisitionBounds(c: Setup, acts: seq<Action>, tr: seq<Pool>)
    requires Accepted(c) && IsExecution(c, acts, tr) && End(tr).producer == PDone
    ensures var takes := End(tr).totalLocks - c.workers;
      && takes <= |c.sums| <= c.batchSize * takes
      && (c.batchSize == 1 ==> End(tr).totalLocks == |c.sums| + c.workers)
  {
    hide IsExecution, XorAll, Xor, Sum;
    ExecutionInv(c, acts, tr);
    ExecutionNonEmpty(c, acts, tr);
    var s := End(tr);
    DoneState(c, s);
    EveryScheduleGivesTheAnswer(c, acts, tr);
    assert MergedCompleted(s.workers) == Completed(s.workers);
    TakesBound(c, s.workers);
  }

  // ---------- deadlock ----------

  ghost predicate CanMove(c: Setup, s: Pool) {
    exists a :: Enabled(c, s, a) && !Spurious(a)
  }

  lemma BatchInRange(c: Setup, s: Pool, w: nat)
    requires Conserved(c, s) && w < |s.workers| && s.workers[w].batch != []
    ensures s.workers[w].batch[0] < |c.sums|
  {
    var t := s.workers[w].batch[0];
    InBatches(s.workers, w, t);
    assert t in multiset(Range(0, Taken(s)));
    assert t in Range(0, Taken(s));
  }

  lemma {:induction false} InBatches(ws: seq<Worker>, w: nat, t: nat)
    requires w < |ws| && t in ws[w].batch
    ensures t in Batches(ws)
  {
    if w < |ws| - 1 {
      InBatches(ws[..|ws| - 1], w, t);
    } else {
      assert t in multiset(ws[w].batch);
    }
  }

  /** A worker that is neither asleep nor gone can step, or waits for a mutex somebody holds. */
  lemma AwakeWorkerMoves(c: Setup, s: Pool, w: nat)
    requires PoolInv(c, s) && w < |s.workers| && s.workers[w].pc !in {Asleep, Exited}
    ensures CanMove(c, s)
  {
    hide WakeUps, Summed, Counted, Conserved, Phases;
    match s.workers[w].pc
    case Starting => LockMoves(c, s, Acquire(w));
    case Woken => LockMoves(c, s, Acquire(w));
    case Checking => assert Enabled(c, s, Evaluate(w));
    case Notifying => assert Enabled(c, s, NotifyNotFull(w));
    case Unlocking => assert Enabled(c, s, Unlock(w));
    case Working =>
      if s.workers[w].batch != [] { BatchInRange(c, s, w); }
      assert Enabled(c, s, Process(w));
    case Merging => assert Enabled(c, s, Merge(w));
  }

  /** Whoever holds the mutex can step; if nobody does, a thread that wants it can. */
  lemma LockMoves(c: Setup, s: Pool, a: Action)
    requires PoolInv(c, s) && !Spurious(a) && (s.lock == Free ==> Enabled(c, s, a))
    ensures CanMove(c, s)
  {
    hide WakeUps, Summed, Counted, Conserved, Phases;
    match s.lock
    case Free => assert Enabled(c, s, a);
    case ByWorker(w) =>
      assert Holds(s.workers[w].pc);
      if s.workers[w].pc == Checking { assert Enabled(c, s, Evaluate(w)); }
      else if s.workers[w].pc == Notifying { assert Enabled(c, s, NotifyNotFull(w)); }
      else { assert Enabled(c, s, Unlock(w)); }
    case ByProducer => ProducerHolderMoves(c, s);
  }

  lemma ProducerHolderMoves(c: Setup, s: Pool)
    requires PHolds(s.producer)
    ensures CanMove(c, s)
  {
    match s.producer
    case PChecking => assert Enabled(c, s, PEvaluate);
    case PNotifying =>
      if NobodyAsleep(s.workers) {
        assert Enabled(c, s, NotifyOne(0));
      } else {
        var w :| 0 <= w < |s.workers| && s.workers[w].pc == Asleep;
        assert Enabled(c, s, NotifyOne(w));
      }
    case PUnlocking => assert Enabled(c, s, PUnlock);
    case Finishing => assert Enabled(c, s, SetFinished);
    case FinishUnlocking => assert Enabled(c, s, FinishUnlock);
  }

  /** With room for at least one task, no reachable state short of the end is stuck. */
  lemma NoDeadlock(c: Setup, s: Pool)
    requires Accepted(c) && PoolInv(c, s) && c.capacity > 0 && s.producer != PDone
    ensures CanMove(c, s)
  {
    hide Summed, Counted, Conserved, Exclusion;
    match s.producer
    case PStarting => LockMoves(c, s, PAcquire);
    case PWoken => LockMoves(c, s, PAcquire);
    case PChecking => ProducerHolderMoves(c, s);
    case PNotifying => ProducerHolderMoves(c, s);
    case PUnlocking => ProducerHolderMoves(c, s);
    case Finishing => ProducerHolderMoves(c, s);
    case FinishUnlocking => ProducerHolderMoves(c, s);
    case FinishNotifying => assert Enabled(c, s, NotifyAll);
    case PAsleep =>
      if SomeoneNotifying(s) {
        var w :| 0 <= w < |s.workers| && s.workers[w].pc == Notifying;
        AwakeWorkerMoves(c, s, w);
      } else {
        var w :| 0 <= w < |s.workers| && s.workers[w].pc !in {Asleep, Merging, Exited};
        AwakeWorkerMoves(c, s, w);
      }
    case Joining =>
      if AllExited(s.workers) {
        assert Enabled(c, s, Join);
      } else {
        var w :| 0 <= w < |s.workers| && s.workers[w].pc != Exited;
        AwakeWorkerMoves(c, s, w);
      }
  }

  // ---------- every schedule ends ----------

  function WorkerWeight(x: Worker): int {
    match x.pc
    case Exited => 0
    case Merging => 1
    case Asleep => 1
    case Checking => 2
    case Starting => 3
    case Woken => 3
    case Working => 4 + |x.batch|
    case Unlocking => 5 + |x.batch|
    case Notifying => 8 + |x.batch|
  }

  function WorkerWeights(ws: seq<Worker>): (r: seq<int>)
    ensures |r| == |ws|
  {
    seq(|ws|, i requires 0 <= i < |ws| => WorkerWeight(ws[i]))
  }

  /** Steps the producer still has to take, with credit for the sleepers it will wake. */
  function ProducerWeight(c: Setup, s: Pool): int {
    var base := 5 + 2 * |s.workers| + 14 * (|c.sums| - s.pushed);
    match s.producer
    case PStarting => base
    case PChecking => base - 1
    case PAsleep => base - 2
    case PWoken => base
    case PNotifying => base + 4
    case PUnlocking => base + 1
    case Finishing => 4 + 2 * |s.workers|
    case FinishUnlocking => 3 + 2 * |s.workers|
    case FinishNotifying => 2 + 2 * |s.workers|
    case Joining => 1
    case PDone => 0
  }

  function Effort(c: Setup, s: Pool): int {
    Sum(WorkerWeights(s.workers)) + ProducerWeight(c, s) + 8 * |s.queue|
  }

  lemma {:induction false} WakeAllCost(ws: seq<Worker>)
    ensures Sum(WorkerWeights(WakeAll(ws))) <= Sum(WorkerWeights(ws)) + 2 * |ws|
  {
    if ws != [] {
      WakeAllCost(ws[1..]);
      assert WakeAll(ws)[1..] == WakeAll(ws[1..]);
      assert WorkerWeights(ws)[1..] == WorkerWeights(ws[1..]);
      assert WorkerWeights(WakeAll(ws))[1..] == WorkerWeights(WakeAll(ws[1..]));
    }
  }

  ghost predicate Cheaper(c: Setup, s: Pool, a: Action, r: Pool)
    requires WorkerAction(a) && a.w < |s.workers| && a.w < |r.workers|
  {
    var before := WorkerWeight(s.workers[a.w]) + ProducerWeight(c, s) + 8 * |s.queue|;
    var after := WorkerWeight(r.workers[a.w]) + ProducerWeight(c, r) + 8 * |r.queue|;
    && r.workers == s.workers[a.w := r.workers[a.w]]
    && if Spurious(a) then after == before + 2 else after < before
  }

  lemma EvaluateEffort(c: Setup, s: Pool, w: nat)
    requires Accepted(c) && At(s, w, Checking) && s.workers[w].batch == []
    ensures Cheaper(c, s, Evaluate(w), EvaluateStep(c, s, w))
  {
  }

  /** What a worker's action costs, apart from the sum over the other workers. */
  lemma ActorEffort(c: Setup, s: Pool, a: Action)
    requires Accepted(c) && Phases(c, s) && Enabled(c, s, a) && WorkerAction(a)
    ensures Cheaper(c, s, a, Apply(c, s, a))
  {
    hide Xor, NobodyAsleep, AllExited, EvaluateStep;
    if a.Evaluate? {
      EvaluateEffort(c, s, a.w);
    }
  }

  lemma WorkerEffort(c: Setup, s: Pool, a: Action)
    requires Accepted(c) && Phases(c, s) && Enabled(c, s, a) && WorkerAction(a)
    ensures if Spurious(a) then Effort(c, Apply(c, s, a)) == Effort(c, s) + 2
      else Effort(c, Apply(c, s, a)) < Effort(c, s)
  {
    hide Sum, Phases, Apply, ProducerWeight, WorkerWeight, Spurious;
    ActorEffort(c, s, a);
    var r := Apply(c, s, a);
    SumUpdate(WorkerWeights(s.workers), a.w, WorkerWeight(r.workers[a.w]));
    assert WorkerWeights(r.workers) == WorkerWeights(s.workers)[a.w := WorkerWeight(r.workers[a.w])];
  }

  lemma ProducerEffort(c: Setup, s: Pool, a: Action)
    requires Accepted(c) && Phases(c, s) && Enabled(c, s, a) && !WorkerAction(a)
    ensures if Spurious(a) then Effort(c, Apply(c, s, a)) == Effort(c, s) + 2
      else Effort(c, Apply(c, s, a)) < Effort(c, s)
  {
    hide Xor, Sum, NobodyAsleep, AllExited;
    var r := Apply(c, s, a);
    if a.NotifyAll? {
      WakeAllCost(s.workers);
    } else if a.NotifyOne? && !NobodyAsleep(s.workers) {
      SumUpdate(WorkerWeights(s.workers), a.w, WorkerWeight(r.workers[a.w]));
      assert WorkerWeights(r.workers) == WorkerWeights(s.workers)[a.w := WorkerWeight(r.workers[a.w])];
    } else {
      assert r.workers == s.workers;
    }
  }

  lemma EffortNonNegative(c: Setup, s: Pool)
    requires Phases(c, s)
    ensures Effort(c, s) >= 0
  {
    hide Sum, AllExited;
    SumNonNegative(WorkerWeights(s.workers));
  }

  function CountSpurious(acts: seq<Action>): nat {
    if acts == [] then 0 else CountSpurious(acts[..|acts| - 1]) + (if Spurious(acts[|acts| - 1]) then 1 else 0)
  }

  lemma StartEffort(c: Setup)
    ensures Effort(c, Start(c)) == 14 * |c.sums| + 5 * c.workers + 5
  {
    SameSum(WorkerWeights(Start(c).workers), 3);
  }

  lemma {:induction false} EffortAlong(c: Setup, acts: seq<Action>, tr: seq<Pool>)
    requires Accepted(c) && IsExecution(c, acts, tr)
    ensures |acts| + Effort(c, End(tr)) <= Effort(c, Start(c)) + 3 * CountSpurious(acts)
    decreases |acts|
  {
    hide PoolInv, Enabled, Apply, Start, Effort, Phases, Spurious;
    if acts != [] {
      ExecutionPrefix(c, acts, tr);
      var s, a := End(tr[..|tr| - 1]), acts[|acts| - 1];
      EffortAlong(c, acts[..|acts| - 1], tr[..|tr| - 1]);
      ExecutionInv(c, acts[..|acts| - 1], tr[..|tr| - 1]);
      InvPhases(c, s);
      if WorkerAction(a) { WorkerEffort(c, s, a); } else { ProducerEffort(c, s, a); }
    }
  }

  lemma InvPhases(c: Setup, s: Pool)
    requires PoolInv(c, s)
    ensures Phases(c, s)
  {
  }

  /** No schedule is longer than a bound in tasks, workers and spurious wake-ups: with finitely
      many spurious wake-ups every schedule ends. */
  lemma EveryScheduleEnds(c: Setup, acts: seq<Action>, tr: seq<Pool>)
    requires Accepted(c) && IsExecution(c, acts, tr)
    ensures |acts| <= 14 * |c.sums| + 5 * c.workers + 5 + 3 * CountSpurious(acts)
  {
    hide IsExecution, Effort, PoolInv;
    EffortAlong(c, acts, tr);
    ExecutionNonEmpty(c, acts, tr);
    ExecutionInv(c, acts, tr);
    InvPhases(c, End(tr));
    EffortNonNegative(c, End(tr));
    StartEffort(c);
  }

  // ---------- exactly when the pool completes ----------

  ghost predicate CanComplete(c: Setup) {
    exists acts, tr :: IsExecution(c, acts, tr) && End(tr).producer == PDone
  }

  /** From any reachable state a run without spurious wake-ups leads to the end. */
  lemma {:induction false} Complete(c: Setup, acts: seq<Action>, tr: seq<Pool>)
    returns (acts': seq<Action>, tr': seq<Pool>)
    requires Accepted(c) && IsExecution(c, acts, tr) && c.capacity > 0
    ensures IsExecution(c, acts', tr') && End(tr').producer == PDone
    decreases Effort(c, End(tr))
  {
    hide PoolInv, Enabled, Apply, Start, Effort, Phases, Spurious;
    var s := End(tr);
    ExecutionInv(c, acts, tr);
    InvPhases(c, s);
    EffortNonNegative(c, s);
    if s.producer == PDone {
      return acts, tr;
    }
    NoDeadlock(c, s);
    var a :| Enabled(c, s, a) && !Spurious(a);
    var t := Apply(c, s, a);
    if WorkerAction(a) { WorkerEffort(c, s, a); } else { ProducerEffort(c, s, a); }
    ExtendExecution(c, acts, tr, a, t);
    acts', tr' := Complete(c, acts + [a], tr + [t]);
  }

  /** A queue that never has room keeps the producer from pushing anything. */
  lemma {:induction false} NoRoomNoPush(c: Setup, acts: seq<Action>, tr: seq<Pool>)
    requires Accepted(c) && IsExecution(c, acts, tr) && c.capacity == 0 && |c.sums| > 0
    ensures End(tr).pushed == 0 && End(tr).producer in {PStarting, PChecking, PAsleep, PWoken}
    decreases |acts|
  {
    hide Xor, NobodyAsleep, AllExited, Sum;
    if acts != [] {
      ExecutionPrefix(c, acts, tr);
      NoRoomNoPush(c, acts[..|acts| - 1], tr[..|tr| - 1]);
    }
  }

  /** With nothing to push the capacity does not matter. */
  lemma {:induction false} CompleteEmpty(c: Setup, acts: seq<Action>, tr: seq<Pool>)
    returns (acts': seq<Action>, tr': seq<Pool>)
    requires Accepted(c) && IsExecution(c, acts, tr) && |c.sums| == 0
    ensures IsExecution(c, acts', tr') && End(tr').producer == PDone
    decreases Effort(c, End(tr))
  {
    hide PoolInv, Enabled, Apply, Start, Effort, Spurious;
    var s := End(tr);
    ExecutionInv(c, acts, tr);
    InvPhases(c, s);
    EffortNonNegative(c, s);
    if s.producer == PDone {
      return acts, tr;
    }
    IdleProducerMoves(c, s);
    var a :| Enabled(c, s, a) && !Spurious(a);
    var t := Apply(c, s, a);
    if WorkerAction(a) { WorkerEffort(c, s, a); } else { ProducerEffort(c, s, a); }
    ExtendExecution(c, acts, tr, a, t);
    acts', tr' := CompleteEmpty(c, acts + [a], tr + [t]);
  }

  lemma IdleProducerMoves(c: Setup, s: Pool)
    requires Accepted(c) && PoolInv(c, s) && |c.sums| == 0 && s.producer != PDone
    ensures CanMove(c, s)
  {
    hide Summed, Counted, Conserved, Exclusion;
    match s.producer
    case PStarting => LockMoves(c, s, PAcquire);
    case PNotifying => ProducerHolderMoves(c, s);
    case PUnlocking => ProducerHolderMoves(c, s);
    case Finishing => ProducerHolderMoves(c, s);
    case FinishUnlocking => ProducerHolderMoves(c, s);
    case FinishNotifying => assert Enabled(c, s, NotifyAll);
    case Joining =>
      if AllExited(s.workers) {
        assert Enabled(c, s, Join);
      } else {
        var w :| 0 <= w < |s.workers| && s.workers[w].pc != Exited;
        AwakeWorkerMoves(c, s, w);
      }
    case _ =>
  }

  /** The pool can complete exactly when its queue has room for a task or there is none. */
  lemma CompletesIff(c: Setup)
    requires Accepted(c)
    ensures CanComplete(c) <==> c.capacity > 0 || |c.sums| == 0
  {
    hide PoolInv, Start;
    StartExecution(c);
    if c.capacity > 0 {
      var acts, tr := Complete(c, [], [Start(c)]);
    } else if |c.sums| == 0 {
      var acts, tr := CompleteEmpty(c, [], [Start(c)]);
    } else {
      forall acts, tr | IsExecution(c, acts, tr) ensures End(tr).producer != PDone {
        NoRoomNoPush(c, acts, tr);
      }
    }
  }

  lemma StartExecution(c: Setup)
    ensures IsExecution(c, [], [Start(c)])
  {
  }
}
