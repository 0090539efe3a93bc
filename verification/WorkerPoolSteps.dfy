/** What every step of the worker pool keeps: mutual exclusion, no lost wake-up, every task
    exactly once, the checksum so far and the lock count. */
module WorkerPoolSteps {
  import opened Checksum
  import opened Arithmetic
  import opened WorkerPool

  // ---------- mutual exclusion ----------

  predicate Holds(pc: WorkerPc) {
    pc in {Checking, Notifying, Unlocking}
  }

  predicate PHolds(pc: ProducerPc) {
    pc in {PChecking, PNotifying, PUnlocking, Finishing, FinishUnlocking}
  }

  /** The mutex is held by exactly the thread that is in a critical section. */
  ghost predicate Exclusion(c: Setup, s: Pool) {
    && |s.workers| == c.workers
    && (PHolds(s.producer) <==> s.lock == ByProducer)
    && (forall i :: 0 <= i < |s.workers| ==> (Holds(s.workers[i].pc) <==> s.lock == ByWorker(i)))
    && (s.lock.ByWorker? ==> s.lock.w < |s.workers|)
  }

  lemma StepExclusion(c: Setup, s: Pool, a: Action)
    requires Exclusion(c, s) && Enabled(c, s, a)
    ensures Exclusion(c, Apply(c, s, a))
  {
    hide Xor, NobodyAsleep, AllExited;
  }

  // ---------- the phases of the run ----------

  /** Finishing starts when all is pushed; workers leave only when finished and drained; a
      worker holds tasks only between taking and processing them. */
  ghost predicate Phases(c: Setup, s: Pool) {
    && s.pushed <= |c.sums|
    && (s.producer in {PChecking, PAsleep, PWoken} ==> s.pushed < |c.sums|)
    && (s.finished <==> s.producer in {FinishUnlocking, FinishNotifying, Joining, PDone})
    && (s.finished || s.producer == Finishing ==> s.pushed == |c.sums|)
    && (forall i :: 0 <= i < |s.workers| && s.workers[i].pc in {Merging, Exited} ==> s.finished && s.queue == [])
    && (forall i :: 0 <= i < |s.workers| && s.workers[i].batch != [] ==>
         s.workers[i].pc in {Notifying, Unlocking, Working})
    && (s.producer == PDone ==> AllExited(s.workers))
  }

  lemma WorkerStepPhases(c: Setup, s: Pool, a: Action)
    requires Exclusion(c, s) && Phases(c, s) && Enabled(c, s, a) && WorkerAction(a)
    ensures Phases(c, Apply(c, s, a))
  {
    hide Xor, NobodyAsleep;
  }

  lemma ProducerStepPhases(c: Setup, s: Pool, a: Action)
    requires Phases(c, s) && Enabled(c, s, a) && !WorkerAction(a)
    ensures Phases(c, Apply(c, s, a))
  {
    hide Xor, NobodyAsleep;
  }

  lemma StepPhases(c: Setup, s: Pool, a: Action)
    requires Exclusion(c, s) && Phases(c, s) && Enabled(c, s, a)
    ensures Phases(c, Apply(c, s, a))
  {
    hide Exclusion, Phases, Enabled, Apply;
    if WorkerAction(a) { WorkerStepPhases(c, s, a); } else { ProducerStepPhases(c, s, a); }
  }

  // ---------- no lost wake-up ----------

  ghost predicate SomeoneAwake(s: Pool) {
    exists i :: 0 <= i < |s.workers| && s.workers[i].pc !in {Asleep, Merging, Exited}
  }

  ghost predicate SomeoneNotifying(s: Pool) {
    exists i :: 0 <= i < |s.workers| && s.workers[i].pc == Notifying
  }

  /** A non-empty queue means a worker is awake or about to be notified; a producer asleep
      means the queue is full or a worker is about to notify it; workers asleep after the
      finish flag means the final notify-all is still to come. */
  ghost predicate WakeUps(c: Setup, s: Pool) {
    && (s.queue != [] ==> s.producer == PNotifying || SomeoneAwake(s))
    && (s.producer == PAsleep ==> |s.queue| >= c.capacity || SomeoneNotifying(s))
    && (s.finished && !NobodyAsleep(s.workers) ==> s.producer in {FinishUnlocking, FinishNotifying})
  }

  /** Changing one worker keeps the others' wakefulness. */
  lemma AwakeKept(s: Pool, r: Pool, w: nat)
    requires w < |s.workers| == |r.workers| && r.workers == s.workers[w := r.workers[w]]
    ensures SomeoneAwake(s) && r.workers[w].pc !in {Asleep, Merging, Exited} ==> SomeoneAwake(r)
    ensures r.workers[w].pc !in {Asleep, Merging, Exited} ==> SomeoneAwake(r)
    ensures SomeoneNotifying(s) && s.workers[w].pc != Notifying ==> SomeoneNotifying(r)
    ensures NobodyAsleep(s.workers) && r.workers[w].pc != Asleep ==> NobodyAsleep(r.workers)
    ensures !NobodyAsleep(s.workers) && s.workers[w].pc != Asleep ==> !NobodyAsleep(r.workers)
  {
    if SomeoneNotifying(s) && s.workers[w].pc != Notifying {
      var i :| 0 <= i < |s.workers| && s.workers[i].pc == Notifying;
      assert r.workers[i].pc == Notifying;
    }
    if r.workers[w].pc !in {Asleep, Merging, Exited} {
      assert SomeoneAwake(r);
    }
    if !NobodyAsleep(s.workers) && s.workers[w].pc != Asleep {
      var i :| 0 <= i < |s.workers| && s.workers[i].pc == Asleep;
      assert r.workers[i].pc == Asleep;
    }
  }

  lemma AwakeUnlessAsleep(c: Setup, s: Pool)
    requires Accepted(c) && |s.workers| == c.workers && NobodyAsleep(s.workers)
    requires forall i :: 0 <= i < |s.workers| ==> s.workers[i].pc !in {Merging, Exited}
    ensures SomeoneAwake(s)
  {
    assert s.workers[0].pc !in {Asleep, Merging, Exited};
  }

  predicate WorkerAction(a: Action) {
    a.Acquire? || a.Evaluate? || a.NotifyNotFull? || a.Unlock? || a.Process? || a.Merge? || a.SpuriousWorker?
  }

  lemma WorkerStepWakeUps(c: Setup, s: Pool, a: Action)
    requires Exclusion(c, s) && Phases(c, s) && WakeUps(c, s) && Enabled(c, s, a) && WorkerAction(a)
    ensures WakeUps(c, Apply(c, s, a))
  {
    hide Xor, NobodyAsleep, SomeoneAwake, SomeoneNotifying, AllExited;
    var r := Apply(c, s, a);
    AwakeKept(s, r, a.w);
    if a.Evaluate? && s.queue != [] {
      NotifyingNow(r, a.w);
    }
    if a.SpuriousWorker? {
      SleeperSeen(s, a.w);
    }
  }

  lemma NotifyingNow(s: Pool, w: nat)
    requires At(s, w, Notifying)
    ensures SomeoneNotifying(s)
  {
  }

  lemma SleeperSeen(s: Pool, w: nat)
    requires At(s, w, Asleep)
    ensures !NobodyAsleep(s.workers)
  {
  }

  lemma ProducerStepWakeUps(c: Setup, s: Pool, a: Action)
    requires Accepted(c) && Exclusion(c, s) && Phases(c, s) && WakeUps(c, s) && Enabled(c, s, a) && !WorkerAction(a)
    ensures WakeUps(c, Apply(c, s, a))
  {
    hide Xor;
    var r := Apply(c, s, a);
    if a.NotifyOne? && !NobodyAsleep(s.workers) {
      AwakeKept(s, r, a.w);
    } else if (a.NotifyOne? || a.NotifyAll?) && s.queue != [] {
      AwakeUnlessAsleep(c, r);
    } else if a.NotifyOne? || a.NotifyAll? {
    } else {
      assert r.workers == s.workers;
      assert SomeoneAwake(r) == SomeoneAwake(s);
      assert SomeoneNotifying(r) == SomeoneNotifying(s);
    }
  }

  // ---------- conservation: every task once ----------

  function Batches(ws: seq<Worker>): multiset<nat> {
    if ws == [] then multiset{} else Batches(ws[..|ws| - 1]) + multiset(ws[|ws| - 1].batch)
  }

  lemma Cancel(a: multiset<nat>, b: multiset<nat>, x: multiset<nat>)
    requires a + x == b + x
    ensures a == b
  {
    forall t ensures a[t] == b[t] {
      assert (a + x)[t] == (b + x)[t];
    }
  }

  lemma {:induction false} BatchesUpdate(ws: seq<Worker>, w: nat, x: Worker)
    requires w < |ws|
    ensures Batches(ws[w := x]) + multiset(ws[w].batch) == Batches(ws) + multiset(x.batch)
  {
    var last := |ws| - 1;
    var r := ws[w := x];
    if w < last {
      BatchesUpdate(ws[..last], w, x);
      assert r[..last] == ws[..last][w := x];
      SwapMiddle(Batches(r[..last]), Batches(ws[..last]), multiset(ws[w].batch), multiset(x.batch),
        multiset(ws[last].batch));
    } else {
      assert r[..last] == ws[..last];
    }
  }

  /** A worker that had no batch takes one. */
  lemma BatchTaken(ws: seq<Worker>, w: nat, x: Worker)
    requires w < |ws| && ws[w].batch == []
    ensures Batches(ws[w := x]) == Batches(ws) + multiset(x.batch)
  {
    hide Batches;
    BatchesUpdate(ws, w, x);
    assert multiset(ws[w].batch) == multiset{};
  }

  /** A worker drops the first task of its batch. */
  lemma BatchDropped(ws: seq<Worker>, w: nat, x: Worker)
    requires w < |ws| && ws[w].batch != [] && x.batch == ws[w].batch[1..]
    ensures Batches(ws) == Batches(ws[w := x]) + multiset{ws[w].batch[0]}
  {
    hide Batches;
    var t := ws[w].batch[0];
    BatchesUpdate(ws, w, x);
    assert ws[w].batch == [t] + x.batch;
    assert Batches(ws[w := x]) + multiset(ws[w].batch) == (Batches(ws[w := x]) + multiset{t}) + multiset(x.batch);
    Cancel(Batches(ws), Batches(ws[w := x]) + multiset{t}, multiset(x.batch));
  }

  lemma {:induction false} BatchesSame(a: seq<Worker>, b: seq<Worker>)
    requires |a| == |b| && forall i :: 0 <= i < |a| ==> a[i].batch == b[i].batch
    ensures Batches(a) == Batches(b)
  {
    if a != [] {
      BatchesSame(a[..|a| - 1], b[..|b| - 1]);
    }
  }

  function Taken(s: Pool): nat {
    if s.pushed >= |s.queue| then s.pushed - |s.queue| else 0
  }

  /** The queue is the run of pushed tasks not yet taken, and what was taken is in exactly one
      batch or in the log. */
  ghost predicate Conserved(c: Setup, s: Pool) {
    && |s.queue| <= s.pushed <= |c.sums|
    && (s.queue != [] ==> |s.queue| <= c.capacity)
    && s.queue == Range(Taken(s), |s.queue|)
    && multiset(Range(0, Taken(s))) == Batches(s.workers) + multiset(s.log)
  }

  lemma TakeConserves(c: Setup, s: Pool, w: nat)
    requires Conserved(c, s) && At(s, w, Checking) && s.workers[w].batch == []
    ensures Conserved(c, EvaluateStep(c, s, w))
  {
    hide Xor, Range, AllExited, Batches;
    var r := EvaluateStep(c, s, w);
    if s.queue == [] {
      BatchesSame(s.workers, r.workers);
    } else {
      BatchConserves(c, s, r, w, Min(c.batchSize, |s.queue|));
    }
  }

  /** Moving the first `n` queued tasks into a worker's empty batch. */
  lemma BatchConserves(c: Setup, s: Pool, r: Pool, w: nat, n: nat)
    requires Conserved(c, s) && n <= |s.queue| && w < |s.workers| && s.workers[w].batch == []
    requires |r.workers| == |s.workers| && r.workers == s.workers[w := r.workers[w]]
      && r.workers[w].batch == s.queue[..n]
    requires r.queue == s.queue[n..] && r.pushed == s.pushed && r.log == s.log
    ensures Conserved(c, r)
  {
    hide Range, Batches;
    var t, b := Taken(s), s.queue[..n];
    BatchTaken(s.workers, w, r.workers[w]);
    RangeSplit(t, |s.queue|, n);
    RangeSplit(0, t + n, t);
    assert multiset(Range(0, t + n)) == multiset(Range(0, t)) + multiset(b);
    MoveLeft(Batches(s.workers), multiset(s.log), multiset(b));
  }

  lemma MoveLeft(a: multiset<nat>, b: multiset<nat>, x: multiset<nat>)
    ensures (a + b) + x == (a + x) + b
  {
  }

  lemma ProcessConserves(c: Setup, s: Pool, w: nat)
    requires Conserved(c, s) && Enabled(c, s, Process(w))
    ensures Conserved(c, ProcessStep(c, s, w))
  {
    hide Xor, Range, Batches;
    var r, x := ProcessStep(c, s, w), s.workers[w];
    if x.batch == [] {
      BatchesSame(s.workers, r.workers);
    } else {
      BatchDropped(s.workers, w, r.workers[w]);
      assert multiset(r.log) == multiset(s.log) + multiset{x.batch[0]};
      MoveLeft(Batches(r.workers), multiset(s.log), multiset{x.batch[0]});
    }
  }

  lemma PushConserves(c: Setup, s: Pool)
    requires Phases(c, s) && Conserved(c, s) && s.producer == PChecking && |s.queue| < c.capacity
    ensures Conserved(c, Apply(c, s, PEvaluate))
  {
    hide Batches;
    assert Range(Taken(s), |s.queue|) + [s.pushed] == Range(Taken(s), |s.queue| + 1);
  }

  lemma StepConserves(c: Setup, s: Pool, a: Action)
    requires Exclusion(c, s) && Phases(c, s) && Conserved(c, s) && Enabled(c, s, a)
    ensures Conserved(c, Apply(c, s, a))
  {
    hide Xor, Range, Batches, AllExited, NobodyAsleep;
    var r := Apply(c, s, a);
    match a
    case Evaluate(w) => TakeConserves(c, s, w);
    case Process(w) => ProcessConserves(c, s, w);
    case PEvaluate => if |s.queue| < c.capacity { PushConserves(c, s); }
    case _ => BatchesSame(s.workers, r.workers);
  }

  // ---------- the checksum ----------

  ghost predicate InRangeLog(c: Setup, log: seq<nat>) {
    forall k :: 0 <= k < |log| ==> log[k] < |c.sums|
  }

  function Checksums(c: Setup, log: seq<nat>): (r: seq<Word>)
    requires forall k :: 0 <= k < |log| ==> log[k] < |c.sums|
  {
    seq(|log|, k requires 0 <= k < |log| => c.sums[log[k]])
  }

  ghost predicate Summed(c: Setup, s: Pool) {
    InRangeLog(c, s.log) && s.checksum == XorAll(Checksums(c, s.log))
  }

  lemma StepSummed(c: Setup, s: Pool, a: Action)
    requires Summed(c, s) && Enabled(c, s, a)
    ensures Summed(c, Apply(c, s, a))
  {
    hide Xor;
    if a.Process? && s.workers[a.w].batch != [] {
      var t := s.workers[a.w].batch[0];
      var v := Checksums(c, s.log + [t]);
      assert v[..|v| - 1] == Checksums(c, s.log);
    }
  }

  // ---------- lock acquisitions ----------

  /** Acquisitions of a worker that have led to a batch. */
  function Takes(x: Worker): int {
    x.locks - (if x.pc in {Checking, Asleep, Woken, Merging, Exited} then 1 else 0)
  }

  /** Each batch has between one and `batchSize` tasks. */
  ghost predicate BatchBounds(c: Setup, x: Worker) {
    0 <= Takes(x) <= x.completed + |x.batch| <= c.batchSize * Takes(x)
  }

  function Completed(ws: seq<Worker>): (r: seq<int>)
    ensures |r| == |ws|
  {
    seq(|ws|, i requires 0 <= i < |ws| => ws[i].completed)
  }

  function Merged(x: Worker, n: nat): int {
    if x.pc == Exited then n else 0
  }

  function MergedCompleted(ws: seq<Worker>): (r: seq<int>)
    ensures |r| == |ws|
  {
    seq(|ws|, i requires 0 <= i < |ws| => Merged(ws[i], ws[i].completed))
  }

  function MergedLocks(ws: seq<Worker>): (r: seq<int>)
    ensures |r| == |ws|
  {
    seq(|ws|, i requires 0 <= i < |ws| => Merged(ws[i], ws[i].locks))
  }

  ghost predicate Counted(c: Setup, s: Pool) {
    && (forall i :: 0 <= i < |s.workers| ==> BatchBounds(c, s.workers[i]))
    && Sum(Completed(s.workers)) == |s.log|
    && s.totalCompleted == Sum(MergedCompleted(s.workers))
    && s.totalLocks == Sum(MergedLocks(s.workers))
  }

  lemma ActorBounds(c: Setup, s: Pool, a: Action)
    requires Accepted(c) && Phases(c, s) && Enabled(c, s, a) && WorkerAction(a) && BatchBounds(c, s.workers[a.w])
    ensures BatchBounds(c, Apply(c, s, a).workers[a.w])
  {
    hide Xor, NobodyAsleep, AllExited;
    Distribute(c.batchSize, Takes(s.workers[a.w]), 1);
  }

  /** The worker an action is about; the others keep all that is counted. */
  lemma OthersKeep(c: Setup, s: Pool, a: Action, i: nat)
    requires Enabled(c, s, a) && i < |s.workers| && !(WorkerAction(a) && i == a.w)
    ensures var x, y := s.workers[i], Apply(c, s, a).workers[i];
      y == x || (x.pc == Asleep && y == x.(pc := Woken))
  {
    hide Xor, NobodyAsleep, AllExited;
  }

  lemma StepBounds(c: Setup, s: Pool, a: Action)
    requires Accepted(c) && Exclusion(c, s) && Phases(c, s) && Enabled(c, s, a)
    requires forall i :: 0 <= i < |s.workers| ==> BatchBounds(c, s.workers[i])
    ensures |Apply(c, s, a).workers| == |s.workers|
    ensures forall i :: 0 <= i < |s.workers| ==> BatchBounds(c, Apply(c, s, a).workers[i])
  {
    hide Phases, Apply, Enabled;
    StepExclusion(c, s, a);
    forall i | 0 <= i < |s.workers| ensures BatchBounds(c, Apply(c, s, a).workers[i]) {
      if WorkerAction(a) && i == a.w {
        ActorBounds(c, s, a);
      } else {
        OthersKeep(c, s, a, i);
      }
    }
  }

  /** What changing one worker does to the three sums. */
  lemma SumsUpdate(ws: seq<Worker>, w: nat, x: Worker)
    requires w < |ws|
    ensures Sum(Completed(ws[w := x])) == Sum(Completed(ws)) - ws[w].completed + x.completed
    ensures Sum(MergedCompleted(ws[w := x])) ==
      Sum(MergedCompleted(ws)) - Merged(ws[w], ws[w].completed) + Merged(x, x.completed)
    ensures Sum(MergedLocks(ws[w := x])) == Sum(MergedLocks(ws)) - Merged(ws[w], ws[w].locks) + Merged(x, x.locks)
  {
    hide Sum, Merged;
    SumUpdate(Completed(ws), w, x.completed);
    assert Completed(ws[w := x]) == Completed(ws)[w := x.completed];
    SumUpdate(MergedCompleted(ws), w, Merged(x, x.completed));
    assert MergedCompleted(ws[w := x]) == MergedCompleted(ws)[w := Merged(x, x.completed)];
    SumUpdate(MergedLocks(ws), w, Merged(x, x.locks));
    assert MergedLocks(ws[w := x]) == MergedLocks(ws)[w := Merged(x, x.locks)];
  }

  lemma SumsWake(ws: seq<Worker>)
    ensures Completed(WakeAll(ws)) == Completed(ws)
    ensures MergedCompleted(WakeAll(ws)) == MergedCompleted(ws) && MergedLocks(WakeAll(ws)) == MergedLocks(ws)
  {
  }

  lemma StepSums(c: Setup, s: Pool, a: Action)
    requires Counted(c, s) && Enabled(c, s, a)
    ensures var r := Apply(c, s, a);
      && Sum(Completed(r.workers)) == |r.log|
      && r.totalCompleted == Sum(MergedCompleted(r.workers))
      && r.totalLocks == Sum(MergedLocks(r.workers))
  {
    hide Xor, NobodyAsleep, AllExited, Sum, BatchBounds, Completed, MergedCompleted, MergedLocks, WakeAll;
    var r := Apply(c, s, a);
    SumsWake(s.workers);
    if WorkerAction(a) || (a.NotifyOne? && !NobodyAsleep(s.workers)) {
      SumsUpdate(s.workers, a.w, r.workers[a.w]);
    }
  }
}
