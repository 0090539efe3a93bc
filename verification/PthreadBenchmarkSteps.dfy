/** What every step of the benchmark program keeps, what can be done next, and a measure that
    every useful step lowers. */
module PthreadBenchmarkSteps {
  import opened Arithmetic
  import opened Checksum
  import opened TaskWork
  import opened PthreadQueue
  import opened PthreadProtocol
  import opened PthreadRuns
  import opened PthreadBenchmark

  // ---------- who got what ----------

  /** All items the threads got, thread by thread. */
  function AllGot(ts: seq<Thread>): seq<WorkItem> {
    if ts == [] then [] else AllGot(ts[..|ts| - 1]) + ts[|ts| - 1].got
  }

  lemma {:induction false} AllGotUpdate(ts: seq<Thread>, t: nat, x: Thread)
    requires t < |ts|
    ensures multiset(AllGot(ts[t := x])) + multiset(ts[t].got) == multiset(AllGot(ts)) + multiset(x.got)
  {
    var last := |ts| - 1;
    var r := ts[t := x];
    if t < last {
      AllGotUpdate(ts[..last], t, x);
      assert r[..last] == ts[..last][t := x];
      SwapMiddle(multiset(AllGot(r[..last])), multiset(AllGot(ts[..last])),
                 multiset(ts[t].got), multiset(x.got), multiset(ts[last].got));
    } else {
      assert r[..last] == ts[..last];
    }
  }

  lemma GotMore(ts: seq<Thread>, t: nat, x: Thread, item: WorkItem)
    requires t < |ts| && x.got == ts[t].got + [item]
    ensures multiset(AllGot(ts[t := x])) == multiset(AllGot(ts)) + multiset{item}
  {
    hide AllGot;
    AllGotUpdate(ts, t, x);
    var a, b, g := multiset(AllGot(ts[t := x])), multiset(AllGot(ts)), multiset(ts[t].got);
    assert multiset(x.got) == g + multiset{item};
    forall i ensures a[i] == (b + multiset{item})[i] {
      assert (a + g)[i] == (b + (g + multiset{item}))[i];
    }
  }

  lemma {:induction false} AllGotSame(a: seq<Thread>, b: seq<Thread>)
    requires |a| == |b| && forall i :: 0 <= i < |a| ==> a[i].got == b[i].got
    ensures AllGot(a) == AllGot(b)
  {
    if a != [] {
      AllGotSame(a[..|a| - 1], b[..|b| - 1]);
    }
  }

  lemma StepGot(s: World, e: Event)
    requires Possible(s, e) && multiset(AllGot(s.threads)) == multiset(s.popped)
    ensures multiset(AllGot(Perform(s, e).threads)) == multiset(Perform(s, e).popped)
  {
    hide AllGot, NoPopAsleep, NoPushAsleep;
    var r := Perform(s, e);
    if e.RunPop? && PopOf(s.queue).0.Popped? {
      var item, x := PopOf(s.queue).0.item, s.threads[e.t];
      var ts := s.threads[e.t := x.(pc := Idle, got := x.got + [item])];
      GotMore(s.threads, e.t, ts[e.t], item);
      AllGotSame(r.threads, ts);
    } else {
      AllGotSame(r.threads, s.threads);
    }
  }

  lemma {:induction false} NothingGot(ts: seq<Thread>)
    requires forall i :: 0 <= i < |ts| ==> ts[i].got == []
    ensures AllGot(ts) == []
  {
    if ts != [] {
      NothingGot(ts[..|ts| - 1]);
    }
  }

  // ---------- the program's invariant ----------

  /** Main is about to push the next item of the program. */
  ghost predicate Pending(items: seq<WorkItem>, s: World, item: WorkItem) {
    !s.queue.closed && |s.accepted| < |items| && item == items[|s.accepted|]
  }

  /** Only main pushes, in program order; only workers pop. */
  ghost predicate InRole(items: seq<WorkItem>, s: World, t: nat)
    requires t < |s.threads|
  {
    var x := s.threads[t];
    && (x.pc.Pushing? ==> t == 0 && Pending(items, s, x.pc.item))
    && (x.pc.PushAsleep? ==> t == 0 && Pending(items, s, x.pc.x))
    && (t == 0 ==> !x.pc.Popping? && !x.pc.PopAsleep? && x.got == [] && !x.sawEnd)
  }

  /** The accepted items are a prefix of the program's, and closing comes after the last. */
  ghost predicate OnProgram(items: seq<WorkItem>, s: World) {
    && s.accepted <= items && (s.queue.closed ==> s.accepted == items)
    && forall t :: 0 <= t < |s.threads| ==> InRole(items, s, t)
  }

  /** A worker has served all its items but perhaps the last, and its context sums them up. */
  ghost predicate WorkerOK(data: seq<Word>, x: Thread, c: Context) {
    && AllFit(data, x.got) && c.tasks <= |x.got| <= c.tasks + 1 && c == Summary(data, x.got[..c.tasks])
    && (x.pc != Idle || x.sawEnd ==> |x.got| == c.tasks) && (x.sawEnd ==> x.pc == Idle)
  }

  ghost predicate WorkersOK(p: Plan, b: Bench) {
    && |b.contexts| == p.workers && |b.world.threads| == p.workers + 1
    && forall j :: 0 <= j < p.workers ==> WorkerOK(p.data, b.world.threads[j + 1], b.contexts[j])
  }

  ghost predicate BenchInv(p: Plan, b: Bench) {
    && Checked(p) && WorkersOK(p, b) && OnProgram(Work(p), b.world) && b.world.queue.capacity == p.capacity
    && FirstInFirstOut(b.world) && NoLostWakeUp(b.world) && EndIsReal(b.world)
    && multiset(AllGot(b.world.threads)) == multiset(b.world.popped)
  }

  lemma StepOnProgram(p: Plan, b: Bench, e: Event)
    requires Checked(p) && OnProgram(Work(p), b.world) && Possible(b.world, e) && InProgram(p, b, e)
    ensures OnProgram(Work(p), Perform(b.world, e))
  {
    hide NoPopAsleep, NoPushAsleep, Work;
    var s, r := b.world, Perform(b.world, e);
    assert e.t < |s.threads| ==> InRole(Work(p), s, e.t);
    assert s.accepted == Work(p)[..|s.accepted|];
    forall t | 0 <= t < |r.threads| ensures InRole(Work(p), r, t) {
      assert InRole(Work(p), s, t) && InRole(Work(p), s, 0);
    }
  }

  lemma WorkFits(p: Plan)
    requires Checked(p)
    ensures AllFit(p.data, Work(p))
  {
    ItemsFit(|p.data|, p.chunk);
  }

  /** What is queued belongs to the program, so it lies within the data. */
  lemma QueuedFits(p: Plan, s: World)
    requires Checked(p) && FirstInFirstOut(s) && s.accepted <= Work(p) && s.queue.contents != []
    ensures ItemFits(p.data, s.queue.contents[0])
  {
    hide Items;
    WorkFits(p);
    assert s.accepted[|s.popped|] == s.queue.contents[0];
    assert Work(p)[|s.popped|] == s.queue.contents[0];
  }

  lemma WorkerPops(data: seq<Word>, x: Thread, c: Context, item: WorkItem)
    requires WorkerOK(data, x, c) && |x.got| == c.tasks && ItemFits(data, item) && !x.sawEnd
    ensures WorkerOK(data, x.(pc := Idle, got := x.got + [item]), c)
  {
    hide XorAll, ItemChecksums;
    assert (x.got + [item])[..c.tasks] == x.got[..c.tasks];
  }

  lemma WorkerServes(data: seq<Word>, x: Thread, c: Context)
    requires WorkerOK(data, x, c) && c.tasks < |x.got|
    ensures WorkerOK(data, x, Served(data, c, x.got[c.tasks]))
  {
    hide Xor, ItemChecksum;
    var k := c.tasks;
    var all := ItemChecksums(data, x.got[..k + 1], CacheLocal);
    assert x.got[..k + 1][..k] == x.got[..k];
    assert all[..k] == ItemChecksums(data, x.got[..k], CacheLocal);
  }

  /** A change of `pc` that leaves the items alone. */
  lemma WorkerMoves(data: seq<Word>, x: Thread, c: Context, y: Thread)
    requires WorkerOK(data, x, c) && y.got == x.got && |x.got| == c.tasks && (y.sawEnd ==> y.pc == Idle)
    ensures WorkerOK(data, y, c)
  {
    hide XorAll, ItemChecksums;
  }

  lemma StepWorkers(p: Plan, b: Bench, e: Event)
    requires BenchInv(p, b) && Possible(b.world, e) && InProgram(p, b, e)
    ensures WorkersOK(p, b.(world := Perform(b.world, e)))
  {
    hide NoPopAsleep, NoPushAsleep, NoLostWakeUp, EndIsReal, AllGot, Work, AllFit, Summary, ItemFits;
    var s, r := b.world, Perform(b.world, e);
    forall j | 0 <= j < p.workers
      ensures |r.threads| == p.workers + 1 && WorkerOK(p.data, r.threads[j + 1], b.contexts[j])
    {
      var x, c := s.threads[j + 1], b.contexts[j];
      assert WorkerOK(p.data, x, c) && InRole(Work(p), s, j + 1);
      if e.RunPop? && e.t == j + 1 && s.queue.contents != [] {
        QueuedFits(p, s);
        WorkerPops(p.data, x, c, s.queue.contents[0]);
      } else if r.threads[j + 1] != x {
        WorkerMoves(p.data, x, c, r.threads[j + 1]);
      }
    }
  }

  lemma StepBench(p: Plan, b: Bench, m: Move)
    requires BenchInv(p, b) && Allowed(p, b, m)
    ensures BenchInv(p, Do(p, b, m))
  {
    hide NoLostWakeUp, EndIsReal, AllGot, Work, OnProgram, WorkerOK, Possible, Perform, InProgram, Served;
    match m
    case AtQueue(e) =>
      StepWorkers(p, b, e);
      StepOnProgram(p, b, e);
      StepFifo(b.world, e);
      StepWakes(b.world, e);
      StepEnd(b.world, e);
      StepGot(b.world, e);
    case Serve(j) => WorkerServes(p.data, b.world.threads[j + 1], b.contexts[j]);
  }

  lemma LaunchInv(p: Plan)
    requires Checked(p)
    ensures BenchInv(p, Launch(p))
  {
    hide Work;
    NothingGot(Launch(p).world.threads);
    BeginWakes(p.capacity, p.workers + 1);
    forall j | 0 <= j < p.workers ensures WorkerOK(p.data, Launch(p).world.threads[j + 1], Launch(p).contexts[j]) {
      assert ItemChecksums(p.data, [], CacheLocal) == [];
    }
  }

  // ---------- something can always be done ----------

  /** A move the program makes on its own, not a spurious wake-up. */
  ghost predicate Useful(p: Plan, b: Bench, m: Move)
    requires Checked(p)
  {
    Allowed(p, b, m) && !Spurious(m)
  }

  /** A thread inside a call can finish its critical section, whomever the signal wakes. */
  lemma CallGoesOn(p: Plan, b: Bench, t: nat) returns (m: Move)
    requires Checked(p) && t < |b.world.threads|
    requires b.world.threads[t].pc.Pushing? || b.world.threads[t].pc.Popping?
    ensures Useful(p, b, m)
  {
    var ts := b.world.threads;
    var wake: nat := 0;
    if ts[t].pc.Pushing? {
      if !NoPopAsleep(ts) {
        wake :| wake < |ts| && ts[wake].pc == PopAsleep;
      }
      m := AtQueue(RunPush(t, wake));
    } else {
      if !NoPushAsleep(ts) {
        wake :| wake < |ts| && ts[wake].pc.PushAsleep?;
      }
      m := AtQueue(RunPop(t, wake));
    }
  }

  /** An idle worker serves its item, pops again, or has left its loop. */
  lemma WorkerGoesOn(p: Plan, b: Bench, j: nat) returns (m: Move)
    requires BenchInv(p, b) && j < p.workers && b.world.threads[j + 1].pc == Idle && !b.world.threads[j + 1].sawEnd
    ensures Useful(p, b, m)
  {
    hide NoLostWakeUp, EndIsReal, AllGot, Work, Summary, FirstInFirstOut, InRole;
    var x, c := b.world.threads[j + 1], b.contexts[j];
    assert WorkerOK(p.data, x, c);
    if c.tasks < |x.got| {
      m := Serve(j);
    } else {
      m := AtQueue(CallPop(j + 1));
    }
  }

  /** Main pushes the next item or closes, while the queue is open. */
  lemma MainGoesOn(p: Plan, b: Bench) returns (m: Move)
    requires BenchInv(p, b) && b.world.threads[0].pc == Idle && !b.world.queue.closed
    ensures Useful(p, b, m)
  {
    hide NoLostWakeUp, EndIsReal, AllGot, Work, FirstInFirstOut, InRole, WorkerOK;
    var pushed := |b.world.accepted|;
    if pushed < |Work(p)| {
      m := AtQueue(CallPush(0, Work(p)[pushed]));
    } else {
      m := AtQueue(RunClose(0));
    }
  }

  /** In every state of the program short of the end something useful can be done. */
  lemma GoesOn(p: Plan, b: Bench) returns (m: Move)
    requires BenchInv(p, b) && !Ended(b)
    ensures Useful(p, b, m)
  {
    hide NoLostWakeUp, FirstInFirstOut, EndIsReal, AllGot, Work, WorkerOK, Useful;
    var s := b.world;
    var t :| 0 < t < |s.threads| && !s.threads[t].sawEnd;
    assert InRole(Work(p), s, 0) && InRole(Work(p), s, t);
    if i :| 0 <= i < |s.threads| && (s.threads[i].pc.Pushing? || s.threads[i].pc.Popping?) {
      m := CallGoesOn(p, b, i);
    } else if s.threads[t].pc == Idle {
      m := WorkerGoesOn(p, b, t - 1);
    } else {
      QuietWaits(s);
      assert !NoPopAsleep(s.threads);
      m := MainGoesOn(p, b);
    }
  }

  /** At the end everything was accepted and handed out, main is idle, and nothing is left to do. */
  lemma EndIsQuiet(p: Plan, b: Bench, m: Move)
    requires BenchInv(p, b) && Ended(b)
    ensures b.world.queue.closed && b.world.queue.contents == [] && b.world.popped == Work(p)
    ensures NobodyRunnable(b.world) && !Useful(p, b, m)
  {
    hide NoLostWakeUp, AllGot, Work, Summary, AllFit;
    var s := b.world;
    assert s.threads[1].sawEnd;
    forall t | 0 <= t < |s.threads| ensures s.threads[t].pc == Idle {
      assert InRole(Work(p), s, t);
      if t > 0 {
        assert WorkerOK(p.data, s.threads[t - 1 + 1], b.contexts[t - 1]);
      }
    }
    forall j | 0 <= j < p.workers ensures !Holding(b, j) {
      assert WorkerOK(p.data, s.threads[j + 1], b.contexts[j]) && s.threads[j + 1].sawEnd;
    }
  }

  // ---------- a measure ----------

  function MainWeight(x: Thread): int {
    match x.pc
    case Idle => 2
    case Pushing(_) => 1
    case _ => 0
  }

  function WorkerWeight(x: Thread, c: Context): int {
    match x.pc
    case Idle => if x.sawEnd then 0 else if c.tasks < |x.got| then 3 else 2
    case Popping => 1
    case _ => 0
  }

  function Weights(ts: seq<Thread>, cs: seq<Context>): (r: seq<int>)
    requires |ts| == |cs| + 1
    ensures |r| == |cs|
  {
    seq(|cs|, j requires 0 <= j < |cs| => WorkerWeight(ts[j + 1], cs[j]))
  }

  /** What is still to be done: items to hand out, items to push, the close, and each loop. */
  ghost function Remaining(p: Plan, b: Bench): int
    requires Checked(p) && |b.world.threads| == |b.contexts| + 1
  {
    4 * (|Work(p)| - |b.world.popped|) + 3 * (|Work(p)| - |b.world.accepted|)
    + (if b.world.queue.closed then 0 else p.workers + 1)
    + MainWeight(b.world.threads[0]) + Sum(Weights(b.world.threads, b.contexts))
  }

  lemma {:induction false} SumRaised(a: seq<int>, b: seq<int>)
    requires |a| == |b| && forall i :: 0 <= i < |a| ==> b[i] <= a[i] + 1
    ensures Sum(b) <= Sum(a) + |a|
  {
    if a != [] {
      SumRaised(a[1..], b[1..]);
    }
  }

  /** One worker changes. */
  lemma WeightsUpdate(ts: seq<Thread>, cs: seq<Context>, j: nat, x: Thread, c: Context)
    requires |ts| == |cs| + 1 && j < |cs|
    ensures Sum(Weights(ts[j + 1 := x], cs[j := c])) ==
      Sum(Weights(ts, cs)) - WorkerWeight(ts[j + 1], cs[j]) + WorkerWeight(x, c)
  {
    hide Sum, WorkerWeight;
    SumUpdate(Weights(ts, cs), j, WorkerWeight(x, c));
    assert Weights(ts[j + 1 := x], cs[j := c]) == Weights(ts, cs)[j := WorkerWeight(x, c)];
  }

  lemma MainChanges(ts: seq<Thread>, cs: seq<Context>, x: Thread)
    requires |ts| == |cs| + 1
    ensures Weights(ts[0 := x], cs) == Weights(ts, cs)
  {
  }

  lemma PushLowers(p: Plan, b: Bench, wake: nat)
    requires BenchInv(p, b) && Possible(b.world, RunPush(0, wake))
    ensures Remaining(p, b.(world := PushStep(b.world, 0, wake))) < Remaining(p, b)
  {
    hide Sum, Weights, NoLostWakeUp, EndIsReal, FirstInFirstOut, AllGot, Work, WorkerOK, NoPopAsleep, NoPushAsleep;
    var s := b.world;
    assert InRole(Work(p), s, 0);
    var x := s.threads[0];
    var r := PushStep(s, 0, wake);
    var ts := s.threads[0 := r.threads[0]];
    MainChanges(s.threads, b.contexts, r.threads[0]);
    if r.threads != ts {
      assert wake > 0 && r.threads == ts[wake := Wake(ts[wake])];
      WeightsUpdate(ts, b.contexts, wake - 1, Wake(ts[wake]), b.contexts[wake - 1]);
      assert b.contexts[wake - 1 := b.contexts[wake - 1]] == b.contexts;
    }
  }

  lemma PopLowers(p: Plan, b: Bench, t: nat, wake: nat)
    requires BenchInv(p, b) && Possible(b.world, RunPop(t, wake))
    ensures Remaining(p, b.(world := PopStep(b.world, t, wake))) < Remaining(p, b)
  {
    hide Sum, Weights, NoLostWakeUp, EndIsReal, FirstInFirstOut, AllGot, Work, Summary, NoPopAsleep, NoPushAsleep;
    var s := b.world;
    assert InRole(Work(p), s, t);
    var j := t - 1;
    var c := b.contexts[j];
    assert WorkerOK(p.data, s.threads[j + 1], c);
    var r := PopStep(s, t, wake);
    var ts := s.threads[t := r.threads[t]];
    WeightsUpdate(s.threads, b.contexts, j, r.threads[t], c);
    assert b.contexts[j := c] == b.contexts;
    if r.threads != ts {
      assert InRole(Work(p), s, wake);
      assert r.threads == ts[0 := Wake(ts[0])];
      MainChanges(ts, b.contexts, Wake(ts[0]));
    }
  }

  lemma CloseLowers(p: Plan, b: Bench)
    requires BenchInv(p, b) && Possible(b.world, RunClose(0)) && !b.world.queue.closed
    ensures Remaining(p, b.(world := Perform(b.world, RunClose(0)))) < Remaining(p, b)
  {
    hide Sum, NoLostWakeUp, EndIsReal, FirstInFirstOut, AllGot, Work, WorkerOK, NoPopAsleep, NoPushAsleep, InRole;
    SumRaised(Weights(b.world.threads, b.contexts), Weights(Broadcast(b.world.threads), b.contexts));
  }

  /** Every useful move lowers the measure; a spurious wake-up raises it by one. */
  lemma MoveLowers(p: Plan, b: Bench, m: Move)
    requires BenchInv(p, b) && Allowed(p, b, m)
    ensures var r := Do(p, b, m);
      |r.world.threads| == |r.contexts| + 1 && Remaining(p, r) <= Remaining(p, b) + (if Spurious(m) then 1 else -1)
  {
    hide Sum, Weights, NoLostWakeUp, EndIsReal, FirstInFirstOut, AllGot, Work, Summary, NoPopAsleep, NoPushAsleep,
      AllFit, Xor, ItemChecksum;
    var s := b.world;
    StepBench(p, b, m);
    match m
    case Serve(j) =>
      assert WorkerOK(p.data, s.threads[j + 1], b.contexts[j]);
      var r := Do(p, b, m);
      assert WorkerOK(p.data, s.threads[j + 1], r.contexts[j]);
      WeightsUpdate(s.threads, b.contexts, j, s.threads[j + 1], r.contexts[j]);
      assert s.threads[j + 1 := s.threads[j + 1]] == s.threads;
      assert r.contexts == b.contexts[j := r.contexts[j]] && r.contexts[j].tasks == b.contexts[j].tasks + 1;
    case AtQueue(e) =>
      assert InRole(Work(p), s, e.t);
      match e {
        case RunPush(t, wake) => PushLowers(p, b, wake);
        case RunPop(t, wake) => PopLowers(p, b, t, wake);
        case RunClose(t) => CloseLowers(p, b);
        case CallPush(t, item) => MainChanges(s.threads, b.contexts, s.threads[0].(pc := Pushing(item)));
        case CallPop(t) =>
          WeightsUpdate(s.threads, b.contexts, t - 1, s.threads[t].(pc := Popping), b.contexts[t - 1]);
          assert b.contexts[t - 1 := b.contexts[t - 1]] == b.contexts;
        case SpuriousWake(t) =>
          if t == 0 {
            MainChanges(s.threads, b.contexts, Wake(s.threads[0]));
          } else {
            WeightsUpdate(s.threads, b.contexts, t - 1, Wake(s.threads[t]), b.contexts[t - 1]);
            assert b.contexts[t - 1 := b.contexts[t - 1]] == b.contexts;
          }
      }
  }

  lemma RemainingNonNegative(p: Plan, b: Bench)
    requires BenchInv(p, b)
    ensures Remaining(p, b) >= 0
  {
    hide Sum, NoLostWakeUp, EndIsReal, AllGot, Work, WorkerOK, InRole;
    SumNonNegative(Weights(b.world.threads, b.contexts));
  }

  lemma LaunchRemaining(p: Plan)
    requires Checked(p)
    ensures Remaining(p, Launch(p)) == 7 * |Work(p)| + 3 * p.workers + 3
  {
    hide Work;
    SameSum(Weights(Launch(p).world.threads, Launch(p).contexts), 2);
  }

  // ---------- the checksum at the end ----------

  /** The context sums up all items the thread got. */
  ghost predicate Tallied(data: seq<Word>, x: Thread, c: Context) {
    AllFit(data, x.got) && c == Summary(data, x.got)
  }

  /** Contexts that sum up all items of their workers fold to the totals over all items. */
  lemma {:induction false} FoldIsTotal(data: seq<Word>, ts: seq<Thread>, cs: seq<Context>)
    requires |ts| == |cs| + 1 && ts[0].got == []
    requires forall j :: 0 <= j < |cs| ==> Tallied(data, ts[j + 1], cs[j])
    ensures AllFit(data, AllGot(ts)) && Folded(cs) == Summary(data, AllGot(ts))
    decreases |cs|
  {
    hide Xor, XorAll, ItemChecksum;
    if cs != [] {
      var n := |cs|;
      FoldIsTotal(data, ts[..n], cs[..n - 1]);
      var a, g := AllGot(ts[..n]), ts[n].got;
      assert AllGot(ts) == a + g;
      assert Tallied(data, ts[n - 1 + 1], cs[n - 1]);
      FitsBoth(data, a, g);
      assert ItemChecksums(data, a + g, CacheLocal) ==
        ItemChecksums(data, a, CacheLocal) + ItemChecksums(data, g, CacheLocal);
      XorSplit(ItemChecksums(data, a, CacheLocal), ItemChecksums(data, g, CacheLocal));
    } else {
      assert ts[..0] == [] && AllGot(ts[..0]) == [];
      assert AllGot(ts) == [];
      assert ItemChecksums(data, [], CacheLocal) == [];
      XorOfNone();
    }
  }

  lemma FitsBoth(data: seq<Word>, a: seq<WorkItem>, b: seq<WorkItem>)
    requires AllFit(data, a) && AllFit(data, b)
    ensures AllFit(data, a + b)
  {
  }

  /** The totals do not depend on the order of the items. */
  lemma SummaryOrder(data: seq<Word>, p: seq<WorkItem>, q: seq<WorkItem>)
    requires multiset(p) == multiset(q) && AllFit(data, p) && AllFit(data, q)
    ensures Summary(data, p) == Summary(data, q)
  {
    hide ItemChecksum, XorAll;
    var f: WorkItem -> Word := (x: WorkItem) =>
      if x.begin <= x.end <= |data| then ItemChecksum(data, x, CacheLocal) else 0;
    assert ItemChecksums(data, p, CacheLocal) == Mapped(f, p) && ItemChecksums(data, q, CacheLocal) == Mapped(f, q);
    MappedOrder(f, p, q);
    XorOrder(Mapped(f, p), Mapped(f, q));
    assert |p| == |multiset(p)| && |q| == |multiset(q)|;
  }
}
