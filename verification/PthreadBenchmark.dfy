/** The benchmark program over the pthread queue: main pushes every item and closes the queue,
    the workers pop, process and sum up until the end, and main folds what they summed up. */
module PthreadBenchmark {
  import opened Checksum
  import opened TaskWork
  import opened PthreadProtocol

  /** What is fixed for a run. */
  datatype Plan = Plan(data: seq<Word>, chunk: nat, capacity: nat, workers: nat)

  /** What is checked before a worker starts: main refuses zero workers, the queue refuses a
      capacity of zero, and the chunk size is a positive constant. */
  predicate Checked(p: Plan) {
    p.chunk > 0 && p.capacity > 0 && p.workers > 0
  }

  function Work(p: Plan): seq<WorkItem>
    requires Checked(p)
  {
    Items(|p.data|, p.chunk)
  }

  // ---------- worker contexts ----------

  /** What a worker context has summed up. */
  datatype Context = Context(checksum: Word, allocations: nat, tasks: nat)

  predicate AllFit(data: seq<Word>, items: seq<WorkItem>) {
    forall k :: 0 <= k < |items| ==> items[k].begin <= items[k].end <= |data|
  }

  /** One pass of worker_main's loop with an item: process it and sum up. */
  function Served(data: seq<Word>, c: Context, item: WorkItem): Context
    requires ItemFits(data, item)
  {
    Context(Xor(c.checksum, ItemChecksum(data, item, CacheLocal)), c.allocations + 1, c.tasks + 1)
  }

  /** The totals over a sequence of items. */
  function Summary(data: seq<Word>, items: seq<WorkItem>): Context
    requires AllFit(data, items)
  {
    Context(XorAll(ItemChecksums(data, items, CacheLocal)), |items|, |items|)
  }

  function Combined(a: Context, b: Context): Context {
    Context(Xor(a.checksum, b.checksum), a.allocations + b.allocations, a.tasks + b.tasks)
  }

  function Folded(cs: seq<Context>): Context {
    if cs == [] then Context(0, 0, 0) else Combined(Folded(cs[..|cs| - 1]), cs[|cs| - 1])
  }

  class WorkerContext {
    var checksum: Word
    var allocations: nat
    var tasksCompleted: nat

    function View(): Context
      reads this
    {
      Context(checksum, allocations, tasksCompleted)
    }

    constructor ()
      ensures View() == Context(0, 0, 0)
    {
      checksum, allocations, tasksCompleted := 0, 0, 0;
    }

    /** The loop body of worker_main after a pop that returned an item. */
    method Serve(data: seq<Word>, item: WorkItem)
      requires ItemFits(data, item)
      modifies this
      ensures View() == Served(data, old(View()), item)
    {
      hide Xor, ItemChecksum;
      var c: Word;
      c, allocations := ProcessItem(data, item, allocations);
      checksum := Xor(checksum, c);
      tasksCompleted := tasksCompleted + 1;
    }
  }

  function Views(cs: seq<WorkerContext>): seq<Context>
    reads cs
  {
    if cs == [] then [] else Views(cs[..|cs| - 1]) + [cs[|cs| - 1].View()]
  }

  /** main's loop over the worker contexts after the joins. */
  method FoldContexts(contexts: seq<WorkerContext>) returns (checksum: Word, allocations: nat, tasks: nat)
    ensures Context(checksum, allocations, tasks) == Folded(Views(contexts))
  {
    hide Xor;
    checksum, allocations, tasks := 0, 0, 0;
    for j := 0 to |contexts|
      invariant Context(checksum, allocations, tasks) == Folded(Views(contexts[..j]))
    {
      assert contexts[..j + 1][..j] == contexts[..j];
      checksum := Xor(checksum, contexts[j].checksum);
      allocations := allocations + contexts[j].allocations;
      tasks := tasks + contexts[j].tasksCompleted;
    }
    assert contexts[..|contexts|] == contexts;
  }

  // ---------- the program as steps ----------

  /** Thread 0 of the world is main, thread j + 1 is worker j with context j. */
  datatype Bench = Bench(world: World, contexts: seq<Context>)

  datatype Move = AtQueue(e: Event) | Serve(j: nat)

  predicate Spurious(m: Move) {
    m.AtQueue? && m.e.SpuriousWake?
  }

  function Launch(p: Plan): Bench {
    Bench(Begin(p.capacity, p.workers + 1), seq(p.workers, _ => Context(0, 0, 0)))
  }

  /** Worker `j` holds an item it has not processed yet. */
  predicate Holding(b: Bench, j: nat) {
    && j < |b.contexts| && j + 1 < |b.world.threads| && b.world.threads[j + 1].pc == Idle
    && b.contexts[j].tasks < |b.world.threads[j + 1].got|
  }

  /** Which calls the program makes: main pushes the items in order, then closes once; a worker
      that has served its last item pops again unless a pop returned 0. */
  predicate InProgram(p: Plan, b: Bench, e: Event)
    requires Checked(p)
  {
    var pushed := |b.world.accepted|;
    match e
    case CallPush(t, item) => t == 0 && pushed < |Work(p)| && item == Work(p)[pushed]
    case RunClose(t) => t == 0 && pushed == |Work(p)| && !b.world.queue.closed
    case CallPop(t) =>
      && 0 < t <= |b.contexts| && t < |b.world.threads|
      && !b.world.threads[t].sawEnd && b.contexts[t - 1].tasks == |b.world.threads[t].got|
    case _ => true
  }

  predicate Allowed(p: Plan, b: Bench, m: Move)
    requires Checked(p)
  {
    match m
    case AtQueue(e) => Possible(b.world, e) && InProgram(p, b, e)
    case Serve(j) => Holding(b, j) && ItemFits(p.data, b.world.threads[j + 1].got[b.contexts[j].tasks])
  }

  function Do(p: Plan, b: Bench, m: Move): Bench
    requires Checked(p) && Allowed(p, b, m)
  {
    match m
    case AtQueue(e) => b.(world := Perform(b.world, e))
    case Serve(j) =>
      var c := b.contexts[j];
      b.(contexts := b.contexts[j := Served(p.data, c, b.world.threads[j + 1].got[c.tasks])])
  }

  /** Every worker has left its loop, so main's joins return. */
  predicate Ended(b: Bench) {
    forall t :: 0 < t < |b.world.threads| ==> b.world.threads[t].sawEnd
  }

  // ---------- schedules ----------

  ghost predicate Takes(p: Plan, b: Bench, m: Move, r: Bench) {
    Checked(p) && Allowed(p, b, m) && r == Do(p, b, m)
  }

  /** Any schedule of the program: the moves and the states they pass through. */
  ghost predicate IsSchedule(p: Plan, ms: seq<Move>, bs: seq<Bench>) {
    && Checked(p) && |bs| == |ms| + 1 && bs[0] == Launch(p)
    && forall k :: 0 <= k < |ms| ==> Takes(p, bs[k], ms[k], bs[k + 1])
  }

  function Latest(bs: seq<Bench>): Bench
    requires |bs| > 0
  {
    bs[|bs| - 1]
  }

  lemma SchedulePrefix(p: Plan, ms: seq<Move>, bs: seq<Bench>)
    requires IsSchedule(p, ms, bs) && ms != []
    ensures |bs| > 1 && IsSchedule(p, ms[..|ms| - 1], bs[..|bs| - 1])
    ensures Takes(p, Latest(bs[..|bs| - 1]), ms[|ms| - 1], Latest(bs))
  {
    hide Takes, Launch;
    assert Takes(p, bs[|ms| - 1], ms[|ms| - 1], bs[|ms| - 1 + 1]);
  }

  lemma ExtendSchedule(p: Plan, ms: seq<Move>, bs: seq<Bench>, m: Move, b: Bench)
    requires IsSchedule(p, ms, bs) && Takes(p, Latest(bs), m, b)
    ensures IsSchedule(p, ms + [m], bs + [b])
  {
    hide Takes, Launch;
    var more, states := ms + [m], bs + [b];
    forall k | 0 <= k < |more| ensures Takes(p, states[k], more[k], states[k + 1]) {
      if k < |ms| {
        assert Takes(p, bs[k], ms[k], bs[k + 1]);
      }
    }
  }

  lemma ScheduleNonEmpty(p: Plan, ms: seq<Move>, bs: seq<Bench>)
    requires IsSchedule(p, ms, bs)
    ensures |bs| > 0 && Checked(p)
  {
  }
}
