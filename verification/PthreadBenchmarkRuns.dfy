/** The benchmark program on every schedule: it cannot get stuck, it ends, and it ends with
    every item processed once and the checksum of the sequential run. */
module PthreadBenchmarkRuns {
  import opened Checksum
  import opened TaskWork
  import opened PthreadRuns
  import opened PthreadBenchmark
  import opened PthreadBenchmarkSteps

  lemma {:induction false} ScheduleInv(p: Plan, ms: seq<Move>, bs: seq<Bench>)
    requires IsSchedule(p, ms, bs)
    ensures Checked(p) && BenchInv(p, Latest(bs))
    decreases |ms|
  {
    hide BenchInv, Allowed, Do, Launch;
    if ms != [] {
      SchedulePrefix(p, ms, bs);
      ScheduleInv(p, ms[..|ms| - 1], bs[..|bs| - 1]);
      StepBench(p, Latest(bs[..|bs| - 1]), ms[|ms| - 1]);
    } else {
      LaunchInv(p);
    }
  }

  /** The program is stuck exactly when it is finished: every reachable state in which some
      worker has not left its loop allows a move other than a spurious wake-up, and once all
      workers have left no such move is possible. */
  lemma BenchmarkNeverStuck(p: Plan, ms: seq<Move>, bs: seq<Bench>)
    requires IsSchedule(p, ms, bs)
    ensures Checked(p) && (Ended(Latest(bs)) <==> !exists m :: Useful(p, Latest(bs), m))
    ensures Ended(Latest(bs)) ==> var s := Latest(bs).world;
      s.queue.closed && s.queue.contents == [] && s.popped == Work(p) && NobodyRunnable(s)
  {
    hide IsSchedule, BenchInv, Useful, Ended;
    ScheduleInv(p, ms, bs);
    ScheduleNonEmpty(p, ms, bs);
    var b := Latest(bs);
    if Ended(b) {
      EndIsQuiet(p, b, Serve(0));
      forall m ensures !Useful(p, b, m) {
        EndIsQuiet(p, b, m);
      }
    } else {
      var m := GoesOn(p, b);
    }
  }

  /** Main's pushes are never refused: while main is inside a push the queue is open, and the item
      is the next one of the program. */
  lemma PushNeverRefused(p: Plan, ms: seq<Move>, bs: seq<Bench>, t: nat)
    requires IsSchedule(p, ms, bs)
    requires t < |Latest(bs).world.threads| && Latest(bs).world.threads[t].pc.Pushing?
    ensures var s := Latest(bs).world;
      && Checked(p) && t == 0 && !s.queue.closed
      && |s.accepted| < |Work(p)| && s.threads[t].pc.item == Work(p)[|s.accepted|]
  {
    hide IsSchedule, WorkersOK, NoLostWakeUp, FirstInFirstOut, EndIsReal, AllGot, Work;
    ScheduleNonEmpty(p, ms, bs);
    ScheduleInv(p, ms, bs);
    assert InRole(Work(p), Latest(bs).world, t);
  }

  function CountSpurious(ms: seq<Move>): nat {
    if ms == [] then 0 else CountSpurious(ms[..|ms| - 1]) + (if Spurious(ms[|ms| - 1]) then 1 else 0)
  }

  lemma {:induction false} RemainingAlong(p: Plan, ms: seq<Move>, bs: seq<Bench>)
    requires IsSchedule(p, ms, bs)
    ensures Checked(p) && |Latest(bs).world.threads| == |Latest(bs).contexts| + 1
    ensures |ms| + Remaining(p, Latest(bs)) <= Remaining(p, Launch(p)) + 2 * CountSpurious(ms)
    decreases |ms|
  {
    hide BenchInv, Allowed, Do, Remaining, Spurious;
    if ms != [] {
      SchedulePrefix(p, ms, bs);
      RemainingAlong(p, ms[..|ms| - 1], bs[..|bs| - 1]);
      ScheduleInv(p, ms[..|ms| - 1], bs[..|bs| - 1]);
      MoveLowers(p, Latest(bs[..|bs| - 1]), ms[|ms| - 1]);
    }
  }

  /** No schedule is longer than a bound in items, workers and spurious wake-ups. */
  lemma BenchmarkEnds(p: Plan, ms: seq<Move>, bs: seq<Bench>)
    requires IsSchedule(p, ms, bs)
    ensures Checked(p) && |ms| <= 7 * |Work(p)| + 3 * p.workers + 3 + 2 * CountSpurious(ms)
  {
    hide IsSchedule, Remaining, BenchInv, Work;
    ScheduleNonEmpty(p, ms, bs);
    ScheduleInv(p, ms, bs);
    RemainingAlong(p, ms, bs);
    RemainingNonNegative(p, Latest(bs));
    LaunchRemaining(p);
  }

  ghost function Distance(p: Plan, b: Bench): int {
    if Checked(p) && |b.world.threads| == |b.contexts| + 1 then Remaining(p, b) else 0
  }

  /** Any schedule can be carried on, without spurious wake-ups, until every worker has left. */
  lemma {:induction false} BenchmarkCompletes(p: Plan, ms: seq<Move>, bs: seq<Bench>)
    returns (more: seq<Move>, all: seq<Bench>)
    requires IsSchedule(p, ms, bs)
    ensures IsSchedule(p, more, all) && Ended(Latest(all))
    ensures ms <= more && bs <= all && CountSpurious(more) == CountSpurious(ms)
    decreases Distance(p, Latest(bs))
  {
    hide IsSchedule, BenchInv, Ended, Allowed, Do, Remaining, Spurious;
    ScheduleInv(p, ms, bs);
    ScheduleNonEmpty(p, ms, bs);
    var b := Latest(bs);
    RemainingNonNegative(p, b);
    RemainingAlong(p, ms, bs);
    if Ended(b) {
      return ms, bs;
    }
    var m := GoesOn(p, b);
    MoveLowers(p, b, m);
    ExtendSchedule(p, ms, bs, m, Do(p, b, m));
    assert (ms + [m])[..|ms|] == ms;
    more, all := BenchmarkCompletes(p, ms + [m], bs + [Do(p, b, m)]);
  }

  /** Once the workers have left, on every schedule: each item was handed to exactly one worker,
      main got none, and the folded contexts hold the task count, one allocation per task, and
      the checksum of the single-threaded cache-local run. */
  lemma BenchmarkChecksum(p: Plan, ms: seq<Move>, bs: seq<Bench>)
    requires IsSchedule(p, ms, bs) && Ended(Latest(bs))
    ensures Checked(p) && |Latest(bs).world.threads| == p.workers + 1 && Latest(bs).world.threads[0].got == []
    ensures multiset(AllGot(Latest(bs).world.threads)) == multiset(Work(p))
    ensures Folded(Latest(bs).contexts) == Context(RunChecksum(p.data, p.chunk, CacheLocal), |Work(p)|, |Work(p)|)
  {
    hide IsSchedule, AllGot, XorAll, Xor, ItemChecksums, Folded, NoLostWakeUp, EndIsReal, FirstInFirstOut, AllFit;
    ScheduleNonEmpty(p, ms, bs);
    ScheduleInv(p, ms, bs);
    var b := Latest(bs);
    EndIsQuiet(p, b, Serve(0));
    var ts := b.world.threads;
    assert InRole(Work(p), b.world, 0);
    forall j | 0 <= j < p.workers ensures Tallied(p.data, ts[j + 1], b.contexts[j]) {
      assert WorkerOK(p.data, ts[j + 1], b.contexts[j]) && ts[j + 1].sawEnd;
      assert ts[j + 1].got[..|ts[j + 1].got|] == ts[j + 1].got;
    }
    FoldIsTotal(p.data, ts, b.contexts);
    WorkFits(p);
    SummaryOrder(p.data, AllGot(ts), Work(p));
  }
}
