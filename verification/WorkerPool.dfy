/** The batched worker pool of run_multithreaded as interleaved atomic steps: one producer, any
    number of workers, a mutex, two condition variables with their wait sets, notify-one,
    notify-all and spurious wake-ups.  A schedule is any sequence of enabled actions. */
module WorkerPool {
  import opened Checksum
  import opened Arithmetic

  /** What is fixed for a run: the checksum of each task (tasks are named by their index), the
      queue capacity, the batch size and the number of workers. */
  datatype Setup = Setup(sums: seq<Word>, capacity: nat, batchSize: nat, workers: nat)

  /** What the engine's constructor insists on; it does not look at the capacity. */
  predicate Accepted(c: Setup) {
    c.workers > 0 && c.batchSize > 0
  }

  /** Where a worker is in its loop.  It holds the mutex in Checking, Notifying and Unlocking. */
  datatype WorkerPc = Starting | Checking | Asleep | Woken | Notifying | Unlocking | Working | Merging | Exited

  datatype Worker = Worker(pc: WorkerPc, batch: seq<nat>, completed: nat, locks: nat)

  /** Where the producer is.  It holds the mutex in PChecking, PNotifying, PUnlocking, Finishing
      and FinishUnlocking. */
  datatype ProducerPc =
    | PStarting | PChecking | PAsleep | PWoken | PNotifying | PUnlocking
    | Finishing | FinishUnlocking | FinishNotifying | Joining | PDone

  datatype Lock = Free | ByWorker(w: nat) | ByProducer

  datatype Pool = Pool(
    lock: Lock, queue: seq<nat>, finished: bool,
    producer: ProducerPc, pushed: nat,
    workers: seq<Worker>,
    checksum: Word, log: seq<nat>,
    totalCompleted: nat, totalLocks: nat)

  datatype Action =
    | Acquire(w: nat)        // lock() at the loop head, or on return from wait
    | Evaluate(w: nat)       // the wait predicate: sleep, leave the loop, or take a batch
    | NotifyNotFull(w: nat)  // notify_all on queue_not_full
    | Unlock(w: nat)
    | Process(w: nat)        // process one task of the batch and fetch_xor its checksum
    | Merge(w: nat)          // add the local metrics to the aggregate, and return
    | SpuriousWorker(w: nat)
    | PAcquire
    | PEvaluate              // sleep while the queue is full, or push
    | NotifyOne(w: nat)      // notify_one on queue_not_empty; wakes w if anybody sleeps
    | PUnlock
    | SetFinished
    | FinishUnlock
    | NotifyAll              // notify_all on queue_not_empty, after the mutex was released
    | Join
    | SpuriousProducer

  predicate Spurious(a: Action) {
    a.SpuriousWorker? || a.SpuriousProducer?
  }

  function Start(c: Setup): Pool {
    Pool(Free, [], false, PStarting, 0, seq(c.workers, _ => Worker(Starting, [], 0, 0)), 0, [], 0, 0)
  }

  predicate NobodyAsleep(ws: seq<Worker>) {
    forall i :: 0 <= i < |ws| ==> ws[i].pc != Asleep
  }

  predicate AllExited(ws: seq<Worker>) {
    forall i :: 0 <= i < |ws| ==> ws[i].pc == Exited
  }

  predicate At(s: Pool, w: nat, pc: WorkerPc) {
    w < |s.workers| && s.workers[w].pc == pc
  }

  predicate Enabled(c: Setup, s: Pool, a: Action) {
    match a
    case Acquire(w) => s.lock == Free && (At(s, w, Starting) || At(s, w, Woken))
    case Evaluate(w) => At(s, w, Checking)
    case NotifyNotFull(w) => At(s, w, Notifying)
    case Unlock(w) => At(s, w, Unlocking)
    case Process(w) => At(s, w, Working) && (s.workers[w].batch != [] ==> s.workers[w].batch[0] < |c.sums|)
    case Merge(w) => At(s, w, Merging)
    case SpuriousWorker(w) => At(s, w, Asleep)
    case PAcquire => s.lock == Free && s.producer in {PStarting, PWoken}
    case PEvaluate => s.producer == PChecking
    case NotifyOne(w) => s.producer == PNotifying && (NobodyAsleep(s.workers) || At(s, w, Asleep))
    case PUnlock => s.producer == PUnlocking
    case SetFinished => s.producer == Finishing
    case FinishUnlock => s.producer == FinishUnlocking
    case NotifyAll => s.producer == FinishNotifying
    case Join => s.producer == Joining && AllExited(s.workers)
    case SpuriousProducer => s.producer == PAsleep
  }

  function WakeAll(ws: seq<Worker>): (r: seq<Worker>)
    ensures |r| == |ws|
  {
    seq(|ws|, i requires 0 <= i < |ws| => if ws[i].pc == Asleep then ws[i].(pc := Woken) else ws[i])
  }

  /** Worker `w` evaluates its wait predicate with the mutex held. */
  function EvaluateStep(c: Setup, s: Pool, w: nat): Pool
    requires w < |s.workers|
  {
    var x := s.workers[w];
    if s.queue == [] && !s.finished then
      s.(lock := Free, workers := s.workers[w := x.(pc := Asleep)])
    else if s.queue == [] then
      s.(lock := Free, workers := s.workers[w := x.(pc := Merging)])
    else
      var n := Min(c.batchSize, |s.queue|);
      s.(queue := s.queue[n..], workers := s.workers[w := x.(pc := Notifying, batch := s.queue[..n])])
  }

  function ProcessStep(c: Setup, s: Pool, w: nat): Pool
    requires w < |s.workers| && (s.workers[w].batch != [] ==> s.workers[w].batch[0] < |c.sums|)
  {
    var x := s.workers[w];
    if x.batch == [] then s.(workers := s.workers[w := x.(pc := Starting)])
    else
      s.(workers := s.workers[w := x.(batch := x.batch[1..], completed := x.completed + 1)],
         checksum := Xor(s.checksum, c.sums[x.batch[0]]),
         log := s.log + [x.batch[0]])
  }

  function Apply(c: Setup, s: Pool, a: Action): Pool
    requires Enabled(c, s, a)
  {
    match a
    case Acquire(w) =>
      var x := s.workers[w];
      s.(lock := ByWorker(w),
         workers := s.workers[w := x.(pc := Checking, locks := x.locks + (if x.pc == Starting then 1 else 0))])
    case Evaluate(w) => EvaluateStep(c, s, w)
    case NotifyNotFull(w) =>
      s.(workers := s.workers[w := s.workers[w].(pc := Unlocking)],
         producer := if s.producer == PAsleep then PWoken else s.producer)
    case Unlock(w) => s.(lock := Free, workers := s.workers[w := s.workers[w].(pc := Working)])
    case Process(w) => ProcessStep(c, s, w)
    case Merge(w) =>
      var x := s.workers[w];
      s.(workers := s.workers[w := x.(pc := Exited)],
         totalCompleted := s.totalCompleted + x.completed, totalLocks := s.totalLocks + x.locks)
    case SpuriousWorker(w) => s.(workers := s.workers[w := s.workers[w].(pc := Woken)])
    case PAcquire =>
      s.(lock := ByProducer,
         producer := if s.producer == PStarting && s.pushed >= |c.sums| then Finishing else PChecking)
    case PEvaluate =>
      if |s.queue| >= c.capacity then s.(lock := Free, producer := PAsleep)
      else s.(queue := s.queue + [s.pushed], pushed := s.pushed + 1, producer := PNotifying)
    case NotifyOne(w) =>
      s.(producer := PUnlocking,
         workers := if NobodyAsleep(s.workers) then s.workers else s.workers[w := s.workers[w].(pc := Woken)])
    case PUnlock => s.(lock := Free, producer := PStarting)
    case SetFinished => s.(finished := true, producer := FinishUnlocking)
    case FinishUnlock => s.(lock := Free, producer := FinishNotifying)
    case NotifyAll => s.(workers := WakeAll(s.workers), producer := Joining)
    case Join => s.(producer := PDone)
    case SpuriousProducer => s.(producer := PWoken)
  }

  // ---------- schedules ----------

  ghost predicate StepTo(c: Setup, s: Pool, a: Action, t: Pool) {
    Enabled(c, s, a) && t == Apply(c, s, a)
  }

  /** An execution: the actions of a schedule and the states it passes through. */
  ghost predicate IsExecution(c: Setup, acts: seq<Action>, tr: seq<Pool>) {
    |tr| == |acts| + 1 && tr[0] == Start(c) && forall k :: 0 <= k < |acts| ==> StepTo(c, tr[k], acts[k], tr[k + 1])
  }

  function End(tr: seq<Pool>): Pool
    requires |tr| > 0
  {
    tr[|tr| - 1]
  }

  lemma ExecutionPrefix(c: Setup, acts: seq<Action>, tr: seq<Pool>)
    requires IsExecution(c, acts, tr) && acts != []
    ensures |tr| > 1 && IsExecution(c, acts[..|acts| - 1], tr[..|tr| - 1])
    ensures StepTo(c, End(tr[..|tr| - 1]), acts[|acts| - 1], End(tr))
  {
    hide StepTo;
    assert StepTo(c, tr[|acts| - 1], acts[|acts| - 1], tr[|acts| - 1 + 1]);
  }

  lemma ExtendExecution(c: Setup, acts: seq<Action>, tr: seq<Pool>, a: Action, t: Pool)
    requires IsExecution(c, acts, tr) && StepTo(c, End(tr), a, t)
    ensures IsExecution(c, acts + [a], tr + [t])
  {
    hide StepTo;
    var acts', tr' := acts + [a], tr + [t];
    forall k | 0 <= k < |acts'| ensures StepTo(c, tr'[k], acts'[k], tr'[k + 1]) {
      if k < |acts| {
        assert StepTo(c, tr[k], acts[k], tr[k + 1]);
      }
    }
  }
}
