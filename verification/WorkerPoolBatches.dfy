/** How the worker pool uses its queue: it never holds more than its capacity, a worker takes as
    large a batch as there is, and so the lower bound on lock acquisitions is attained. */
module WorkerPoolBatches {
  import opened Arithmetic
  import opened WorkerPool
  import opened WorkerPoolSteps
  import opened WorkerPoolRuns

  // ---------- what one evaluation of a wait predicate does ----------

  lemma StepAt(c: Setup, acts: seq<Action>, tr: seq<Pool>, k: nat)
    requires IsExecution(c, acts, tr) && k < |acts|
    ensures |tr| == |acts| + 1 && Enabled(c, tr[k], acts[k]) && tr[k + 1] == Apply(c, tr[k], acts[k])
  {
    hide Enabled, Apply, Start;
    assert StepTo(c, tr[k], acts[k], tr[k + 1]);
  }

  /** On every schedule a worker that finds tasks takes from the front of the queue until its
      batch is full or the queue is empty; one that finds none leaves if the producer has
      finished, and sleeps otherwise. */
  lemma TakesWhatThereIs(c: Setup, acts: seq<Action>, tr: seq<Pool>, k: nat, w: nat)
    requires Accepted(c) && IsExecution(c, acts, tr) && k < |acts| && acts[k] == Evaluate(w)
    ensures |tr| == |acts| + 1 && |tr[k].workers| == |tr[k + 1].workers| && w < |tr[k].workers|
    ensures var (s, r) := (tr[k], tr[k + 1]);
      var y := r.workers[w];
      && (s.queue != [] ==>
           && y.pc == Notifying && y.batch != [] && y.batch + r.queue == s.queue
           && |y.batch| <= c.batchSize && (|y.batch| == c.batchSize || r.queue == []))
      && (s.queue == [] ==> r.queue == [] && y.pc == if s.finished then Merging else Asleep)
  {
    hide IsExecution;
    StepAt(c, acts, tr, k);
  }

  /** On every schedule the producer pushes the next task when there is room, and sleeps only
      when there is none. */
  lemma PushesWhenThereIsRoom(c: Setup, acts: seq<Action>, tr: seq<Pool>, k: nat)
    requires IsExecution(c, acts, tr) && k < |acts| && acts[k] == PEvaluate
    ensures |tr| == |acts| + 1
    ensures var (s, r) := (tr[k], tr[k + 1]);
      if |s.queue| < c.capacity then r.queue == s.queue + [s.pushed] && r.pushed == s.pushed + 1
      else r.producer == PAsleep && r.queue == s.queue && r.pushed == s.pushed
  {
    hide IsExecution;
    StepAt(c, acts, tr, k);
  }

  /** The queue never exceeds its capacity. */
  lemma QueueFits(c: Setup, acts: seq<Action>, tr: seq<Pool>)
    requires Accepted(c) && IsExecution(c, acts, tr)
    ensures |End(tr).queue| <= c.capacity
  {
    hide IsExecution, Exclusion, Phases, WakeUps, Summed, Counted;
    ExecutionInv(c, acts, tr);
  }

  // ---------- the schedule with the fewest lock acquisitions ----------

  /** Takes one more action. */
  lemma Act(c: Setup, acts: seq<Action>, tr: seq<Pool>, a: Action) returns (acts': seq<Action>, tr': seq<Pool>)
    requires IsExecution(c, acts, tr) && Enabled(c, End(tr), a)
    ensures |tr'| > 0 && IsExecution(c, acts', tr') && End(tr') == Apply(c, End(tr), a)
  {
    hide Enabled, Apply, Start;
    acts', tr' := acts + [a], tr + [Apply(c, End(tr), a)];
    ExtendExecution(c, acts, tr, a, Apply(c, End(tr), a));
  }

  /** The first `n` tasks are pushed and the one worker has not started. */
  function Filled(n: nat): Pool {
    Pool(Free, Range(0, n), false, PStarting, n, [Worker(Starting, [], 0, 0)], 0, [], 0, 0)
  }

  lemma {:induction false} PushFirst(c: Setup, n: nat) returns (acts: seq<Action>, tr: seq<Pool>)
    requires c.workers == 1 && n <= |c.sums| <= c.capacity
    ensures IsExecution(c, acts, tr) && End(tr) == Filled(n)
  {
    hide IsExecution;
    if n == 0 {
      StartExecution(c);
      acts, tr := [], [Start(c)];
      assert Start(c).workers == [Worker(Starting, [], 0, 0)];
    } else {
      acts, tr := PushFirst(c, n - 1);
      acts, tr := Act(c, acts, tr, PAcquire);
      acts, tr := Act(c, acts, tr, PEvaluate);
      acts, tr := Act(c, acts, tr, NotifyOne(0));
      acts, tr := Act(c, acts, tr, PUnlock);
      assert Range(0, n - 1) + [n - 1] == Range(0, n);
    }
  }

  /** The producer waits in join, and the one worker is about to lock for its next batch. */
  ghost predicate Draining(s: Pool, locks: nat) {
    && s.lock == Free && s.finished && s.producer == Joining && s.totalLocks == 0
    && |s.workers| == 1 && s.workers[0].pc == Starting && s.workers[0].batch == [] && s.workers[0].locks == locks
  }

  /** With all tasks pushed the producer finishes. */
  lemma FinishPushing(c: Setup, acts: seq<Action>, tr: seq<Pool>) returns (acts': seq<Action>, tr': seq<Pool>)
    requires IsExecution(c, acts, tr) && |End(tr).workers| == 1 && End(tr).workers[0] == Worker(Starting, [], 0, 0)
    requires End(tr).lock == Free && End(tr).producer == PStarting && End(tr).pushed >= |c.sums|
    requires End(tr).totalLocks == 0
    ensures IsExecution(c, acts', tr') && Draining(End(tr'), 0) && End(tr').queue == End(tr).queue
  {
    hide IsExecution;
    ExecutionNonEmpty(c, acts, tr);
    acts', tr' := Act(c, acts, tr, PAcquire);
    acts', tr' := Act(c, acts', tr', SetFinished);
    acts', tr' := Act(c, acts', tr', FinishUnlock);
    acts', tr' := Act(c, acts', tr', NotifyAll);
  }

  lemma PushAll(c: Setup) returns (acts: seq<Action>, tr: seq<Pool>)
    requires c.workers == 1 && |c.sums| <= c.capacity
    ensures IsExecution(c, acts, tr) && Draining(End(tr), 0) && |End(tr).queue| == |c.sums|
  {
    hide IsExecution, Draining;
    acts, tr := PushFirst(c, |c.sums|);
    acts, tr := FinishPushing(c, acts, tr);
  }

  /** The worker processes its batch and is back at the loop head. */
  lemma {:induction false} ServeBatch(c: Setup, acts: seq<Action>, tr: seq<Pool>, locks: nat)
    returns (acts': seq<Action>, tr': seq<Pool>)
    requires Accepted(c) && IsExecution(c, acts, tr) && At(End(tr), 0, Working)
    requires Draining(End(tr).(workers := [Worker(Starting, [], 0, End(tr).workers[0].locks)]), locks)
    requires |End(tr).workers| == 1
    ensures IsExecution(c, acts', tr') && Draining(End(tr'), locks) && End(tr').queue == End(tr).queue
    decreases |End(tr).workers[0].batch|
  {
    hide IsExecution, PoolInv;
    ExecutionNonEmpty(c, acts, tr);
    var s := End(tr);
    if s.workers[0].batch != [] {
      ExecutionInv(c, acts, tr);
      InvConserves(c, s);
      BatchInRange(c, s, 0);
      acts', tr' := Act(c, acts, tr, Process(0));
      acts', tr' := ServeBatch(c, acts', tr', locks);
    } else {
      acts', tr' := Act(c, acts, tr, Process(0));
    }
  }

  lemma InvConserves(c: Setup, s: Pool)
    requires PoolInv(c, s)
    ensures Conserved(c, s)
  {
    hide Exclusion, Phases, WakeUps, Summed, Counted;
  }

  function Ceil(n: nat, b: nat): nat
    requires b > 0
  {
    (n + b - 1) / b
  }

  lemma {:induction false} QuotientIs(x: nat, q: nat, r: nat, b: nat)
    requires r < b && x == b * q + r
    ensures x / b == q
  {
    var d, e := x / b, x % b;
    assert x == b * d + e;
    if d < q {
      Distribute(b, d, q - d);
      MulAtLeast(b, q - d);
    } else if d > q {
      Distribute(b, q, d - q);
      MulAtLeast(b, d - q);
    }
  }

  lemma CeilStep(n: nat, b: nat)
    requires b > 0
    ensures n == 0 ==> Ceil(n, b) == 0
    ensures n > 0 ==> Ceil(n, b) == 1 + Ceil(n - Min(b, n), b)
  {
    QuotientIs(b - 1, 0, b - 1, b);
    if 0 < n <= b {
      QuotientIs(n + b - 1, 1, n - 1, b);
    } else if n > b {
      var q, r := (n - 1) / b, (n - 1) % b;
      assert n - 1 == b * q + r;
      Distribute(b, q, 1);
      QuotientIs(n + b - 1, q + 1, r, b);
    }
  }

  /** The worker locks, takes a batch and unlocks. */
  lemma TakeBatch(c: Setup, acts: seq<Action>, tr: seq<Pool>, locks: nat) returns (acts': seq<Action>, tr': seq<Pool>)
    requires Accepted(c) && IsExecution(c, acts, tr) && Draining(End(tr), locks) && End(tr).queue != []
    ensures IsExecution(c, acts', tr') && At(End(tr'), 0, Working) && |End(tr').workers| == 1
    ensures Draining(End(tr').(workers := [Worker(Starting, [], 0, End(tr').workers[0].locks)]), locks + 1)
    ensures End(tr').queue == End(tr).queue[Min(c.batchSize, |End(tr).queue|)..]
  {
    hide IsExecution;
    ExecutionNonEmpty(c, acts, tr);
    acts', tr' := Act(c, acts, tr, Acquire(0));
    acts', tr' := Act(c, acts', tr', Evaluate(0));
    acts', tr' := Act(c, acts', tr', NotifyNotFull(0));
    acts', tr' := Act(c, acts', tr', Unlock(0));
  }

  /** The worker locks, finds nothing left and returns, and so does the producer's join. */
  lemma Leave(c: Setup, acts: seq<Action>, tr: seq<Pool>, locks: nat) returns (acts': seq<Action>, tr': seq<Pool>)
    requires Accepted(c) && IsExecution(c, acts, tr) && Draining(End(tr), locks) && End(tr).queue == []
    ensures IsExecution(c, acts', tr') && End(tr').producer == PDone && End(tr').totalLocks == locks + 1
  {
    hide IsExecution;
    ExecutionNonEmpty(c, acts, tr);
    acts', tr' := Act(c, acts, tr, Acquire(0));
    acts', tr' := Act(c, acts', tr', Evaluate(0));
    acts', tr' := Act(c, acts', tr', Merge(0));
    acts', tr' := Act(c, acts', tr', Join);
  }

  /** The worker takes batch after batch, leaves, and the producer's join returns. */
  lemma {:induction false} DrainAll(c: Setup, acts: seq<Action>, tr: seq<Pool>, locks: nat)
    returns (acts': seq<Action>, tr': seq<Pool>)
    requires Accepted(c) && IsExecution(c, acts, tr) && Draining(End(tr), locks)
    ensures IsExecution(c, acts', tr') && End(tr').producer == PDone
    ensures End(tr').totalLocks == locks + Ceil(|End(tr).queue|, c.batchSize) + 1
    decreases |End(tr).queue|
  {
    hide IsExecution, Ceil, Draining;
    ExecutionNonEmpty(c, acts, tr);
    CeilStep(|End(tr).queue|, c.batchSize);
    if End(tr).queue == [] {
      acts', tr' := Leave(c, acts, tr, locks);
    } else {
      acts', tr' := TakeBatch(c, acts, tr, locks);
      acts', tr' := ServeBatch(c, acts', tr', locks + 1);
      acts', tr' := DrainAll(c, acts', tr', locks + 1);
    }
  }

  /** The lower bound on lock acquisitions is attained: with room for all tasks, some schedule of
      one worker completes with exactly ceil(tasks / batch) + 1. */
  lemma FewestLocks(c: Setup)
    requires Accepted(c) && c.workers == 1 && |c.sums| <= c.capacity
    ensures exists acts, tr ::
      && IsExecution(c, acts, tr) && End(tr).producer == PDone
      && End(tr).totalLocks == Ceil(|c.sums|, c.batchSize) + 1
  {
    hide IsExecution, Ceil, Draining;
    var acts, tr := PushAll(c);
    acts, tr := DrainAll(c, acts, tr, 0);
  }
}
