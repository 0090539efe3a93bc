/** What holds after every history of the pthread queue: first in, first out, an end that is
    final, and no lost wake-up. */
module PthreadRuns {
  import opened Arithmetic
  import opened PthreadQueue
  import opened PthreadProtocol

  // ---------- first in, first out ----------

  /** What was accepted is what was handed out followed by what is queued, in order. */
  ghost predicate FirstInFirstOut(s: World) {
    s.accepted == s.popped + s.queue.contents && |s.queue.contents| <= s.queue.capacity
  }

  lemma StepFifo(s: World, e: Event)
    requires FirstInFirstOut(s) && Possible(s, e)
    ensures FirstInFirstOut(Perform(s, e)) && Perform(s, e).queue.capacity == s.queue.capacity
    ensures s.popped <= Perform(s, e).popped && s.accepted <= Perform(s, e).accepted
  {
    hide NoPopAsleep, NoPushAsleep;
    if e.RunPop? && s.queue.contents != [] {
      assert s.queue.contents == [s.queue.contents[0]] + s.queue.contents[1..];
    }
  }

  /** Under any interleaving, accepted items come out once each and in the order accepted. */
  lemma {:induction false} ItemsComeOutInOrder(capacity: nat, threads: nat, es: seq<Event>, ws: seq<World>)
    requires IsHistory(capacity, threads, es, ws)
    ensures var s := Now(ws);
      && s.accepted == s.popped + s.queue.contents
      && |s.queue.contents| <= capacity && s.queue.capacity == capacity && |s.threads| == threads
    decreases |es|
  {
    hide Possible, Perform;
    if es != [] {
      HistoryPrefix(capacity, threads, es, ws);
      ItemsComeOutInOrder(capacity, threads, es[..|es| - 1], ws[..|ws| - 1]);
      StepFifo(Now(ws[..|ws| - 1]), es[|es| - 1]);
      StepThreads(Now(ws[..|ws| - 1]), es[|es| - 1]);
    }
  }

  lemma StepThreads(s: World, e: Event)
    requires Possible(s, e)
    ensures |Perform(s, e).threads| == |s.threads|
  {
  }

  // ---------- what each pass through a critical section does ----------

  /** On every history a push is refused once the queue is closed, waits while it is open and
      full, and otherwise adds its item. */
  lemma PushAnswers(capacity: nat, threads: nat, es: seq<Event>, ws: seq<World>, k: nat)
    requires IsHistory(capacity, threads, es, ws) && k < |es| && es[k].RunPush?
    ensures |ws| == |es| + 1 && es[k].t < |ws[k].threads| == |ws[k + 1].threads|
    ensures var (s, r, x) := (ws[k], ws[k + 1], ws[k].threads[es[k].t].pc);
      && x.Pushing?
      && (s.queue.closed ==>
           r.queue == s.queue && r.accepted == s.accepted && r.threads[es[k].t].pc == Idle)
      && (!s.queue.closed && |s.queue.contents| == capacity ==>
           r.queue == s.queue && r.accepted == s.accepted && r.threads[es[k].t].pc == PushAsleep(x.item))
      && (!s.queue.closed && |s.queue.contents| < capacity ==>
           && r.queue == s.queue.(contents := s.queue.contents + [x.item])
           && r.accepted == s.accepted + [x.item] && r.threads[es[k].t].pc == Idle)
  {
    hide NoPopAsleep, NoPushAsleep;
    HistoryCut(capacity, threads, es, ws, k);
    ItemsComeOutInOrder(capacity, threads, es[..k], ws[..k + 1]);
    assert Leads(ws[k], es[k], ws[k + 1]);
  }

  /** On every history a pop takes the first item if there is one, also of a closed queue; it
      waits while the queue is open and empty, and returns 0 when it is closed and empty. */
  lemma PopAnswers(capacity: nat, threads: nat, es: seq<Event>, ws: seq<World>, k: nat)
    requires IsHistory(capacity, threads, es, ws) && k < |es| && es[k].RunPop?
    ensures |ws| == |es| + 1 && es[k].t < |ws[k].threads| == |ws[k + 1].threads|
    ensures var (s, r, x, y) := (ws[k], ws[k + 1], ws[k].threads[es[k].t], ws[k + 1].threads[es[k].t]);
      if s.queue.contents != [] then
        && r.queue == s.queue.(contents := s.queue.contents[1..])
        && y == Thread(Idle, x.got + [s.queue.contents[0]], x.sawEnd)
      else if s.queue.closed then r.queue == s.queue && y == Thread(Idle, x.got, true)
      else r.queue == s.queue && y == Thread(PopAsleep, x.got, x.sawEnd)
  {
    hide NoPopAsleep, NoPushAsleep;
    assert Leads(ws[k], es[k], ws[k + 1]);
  }

  /** Every prefix of a history is one. */
  lemma HistoryCut(capacity: nat, threads: nat, es: seq<Event>, ws: seq<World>, k: nat)
    requires IsHistory(capacity, threads, es, ws) && k <= |es|
    ensures IsHistory(capacity, threads, es[..k], ws[..k + 1]) && Now(ws[..k + 1]) == ws[k]
  {
    hide Leads;
  }

  lemma ClosedStep(s: World, e: Event)
    requires Possible(s, e) && s.queue.closed
    ensures Perform(s, e).queue.closed && Perform(s, e).accepted == s.accepted
  {
    hide NoPopAsleep, NoPushAsleep;
  }

  /** Closing is final: a closed queue stays closed and accepts nothing more. */
  lemma {:induction false} ClosedForEver(capacity: nat, threads: nat, es: seq<Event>, ws: seq<World>, k: nat, m: nat)
    requires IsHistory(capacity, threads, es, ws) && k <= m < |ws| && ws[k].queue.closed
    ensures ws[m].queue.closed && ws[m].accepted == ws[k].accepted
    decreases m
  {
    hide Possible, Perform;
    if m > k {
      ClosedForEver(capacity, threads, es, ws, k, m - 1);
      assert Leads(ws[m - 1], es[m - 1], ws[m - 1 + 1]);
      ClosedStep(ws[m - 1], es[m - 1]);
    }
  }

  // ---------- the end of the queue ----------

  /** A pop returned 0 only if the queue is closed and drained. */
  ghost predicate EndIsReal(s: World) {
    (exists i :: 0 <= i < |s.threads| && s.threads[i].sawEnd) ==> s.queue.closed && s.queue.contents == []
  }

  /** What one thread shows of its pops: the items it got and whether it saw the end. */
  ghost predicate SameItems(a: seq<Thread>, b: seq<Thread>) {
    |a| == |b| && forall i :: 0 <= i < |a| ==> a[i].got == b[i].got
  }

  lemma DrainedStep(s: World, e: Event)
    requires Possible(s, e) && s.queue.closed && s.queue.contents == []
    ensures var r := Perform(s, e);
      && r.queue == s.queue && r.accepted == s.accepted && r.popped == s.popped && SameItems(r.threads, s.threads)
      && e.t < |s.threads|
      && (e.RunPop? ==> r.threads[e.t] == Thread(Idle, s.threads[e.t].got, true))
      && (e.RunPush? ==> r.threads[e.t] == s.threads[e.t].(pc := Idle))
  {
    hide NoPopAsleep, NoPushAsleep;
  }

  /** Once closed and drained, for ever after: the queue and both histories stay as they are, no
      thread gets another item, every later pop returns 0 and every later push is refused. */
  lemma {:induction false} DrainedForEver(capacity: nat, threads: nat, es: seq<Event>, ws: seq<World>, k: nat, m: nat)
    requires IsHistory(capacity, threads, es, ws) && k <= m < |ws|
    requires ws[k].queue.closed && ws[k].queue.contents == []
    ensures ws[m].queue == ws[k].queue && ws[m].accepted == ws[k].accepted && ws[m].popped == ws[k].popped
    ensures SameItems(ws[m].threads, ws[k].threads)
    ensures m < |es| && es[m].RunPop? ==>
      Possible(ws[m], es[m]) && ws[m + 1].threads[es[m].t] == Thread(Idle, ws[k].threads[es[m].t].got, true)
    ensures m < |es| && es[m].RunPush? ==>
      Possible(ws[m], es[m]) && ws[m + 1].threads[es[m].t].pc == Idle && ws[m + 1].accepted == ws[k].accepted
    decreases m
  {
    hide Possible, Perform;
    if m > k {
      DrainedForEver(capacity, threads, es, ws, k, m - 1);
      assert Leads(ws[m - 1], es[m - 1], ws[m - 1 + 1]);
      DrainedStep(ws[m - 1], es[m - 1]);
    }
    if m < |es| {
      assert Leads(ws[m], es[m], ws[m + 1]);
      DrainedStep(ws[m], es[m]);
    }
  }

  lemma StepEnd(s: World, e: Event)
    requires EndIsReal(s) && Possible(s, e)
    ensures EndIsReal(Perform(s, e))
  {
    hide NoPopAsleep, NoPushAsleep;
    var r := Perform(s, e);
    if i :| 0 <= i < |r.threads| && r.threads[i].sawEnd {
      if s.threads[i].sawEnd {
        DrainedStep(s, e);
      }
    }
  }

  lemma {:induction false} PopReturnsZeroOnlyWhenDrained(capacity: nat, threads: nat, es: seq<Event>, ws: seq<World>)
    requires IsHistory(capacity, threads, es, ws)
    ensures EndIsReal(Now(ws))
    decreases |es|
  {
    hide Possible, Perform, EndIsReal;
    if es != [] {
      HistoryPrefix(capacity, threads, es, ws);
      PopReturnsZeroOnlyWhenDrained(capacity, threads, es[..|es| - 1], ws[..|ws| - 1]);
      StepEnd(Now(ws[..|ws| - 1]), es[|es| - 1]);
    } else {
      BeginEnd(capacity, threads);
    }
  }

  lemma BeginEnd(capacity: nat, threads: nat)
    ensures EndIsReal(Begin(capacity, threads))
  {
  }

  // ---------- no lost wake-up ----------

  function PopMark(x: Thread): int { if x.pc == Popping then 1 else 0 }
  function PushMark(x: Thread): int { if x.pc.Pushing? then 1 else 0 }

  function PopMarks(ts: seq<Thread>): (r: seq<int>)
    ensures |r| == |ts|
  {
    seq(|ts|, i requires 0 <= i < |ts| => PopMark(ts[i]))
  }

  function PushMarks(ts: seq<Thread>): (r: seq<int>)
    ensures |r| == |ts|
  {
    seq(|ts|, i requires 0 <= i < |ts| => PushMark(ts[i]))
  }

  /** Threads awake inside a pop, and inside a push. */
  function Poppers(ts: seq<Thread>): int { Sum(PopMarks(ts)) }
  function Pushers(ts: seq<Thread>): int { Sum(PushMarks(ts)) }

  lemma MarksUpdate(ts: seq<Thread>, t: nat, x: Thread)
    requires t < |ts|
    ensures Poppers(ts[t := x]) == Poppers(ts) - PopMark(ts[t]) + PopMark(x)
    ensures Pushers(ts[t := x]) == Pushers(ts) - PushMark(ts[t]) + PushMark(x)
  {
    hide Sum;
    SumUpdate(PopMarks(ts), t, PopMark(x));
    SumUpdate(PushMarks(ts), t, PushMark(x));
    assert PopMarks(ts[t := x]) == PopMarks(ts)[t := PopMark(x)];
    assert PushMarks(ts[t := x]) == PushMarks(ts)[t := PushMark(x)];
  }

  lemma MarksNonNegative(ts: seq<Thread>)
    ensures Poppers(ts) >= 0 && Pushers(ts) >= 0
  {
    hide Sum;
    SumNonNegative(PopMarks(ts));
    SumNonNegative(PushMarks(ts));
  }

  /** While somebody sleeps in pop there are enough awake poppers for all queued items; while
      somebody sleeps in push, enough awake pushers for all free places; nobody sleeps once
      the queue is closed. */
  ghost predicate NoLostWakeUp(s: World) {
    && (!NoPopAsleep(s.threads) ==> !s.queue.closed && |s.queue.contents| <= Poppers(s.threads))
    && (!NoPushAsleep(s.threads) ==> !s.queue.closed && s.queue.capacity - |s.queue.contents| <= Pushers(s.threads))
  }

  /** What changing one thread does to the two wait sets. */
  lemma SleepersUpdate(ts: seq<Thread>, t: nat, x: Thread)
    requires t < |ts|
    ensures !NoPopAsleep(ts[t := x]) && x.pc != PopAsleep ==> !NoPopAsleep(ts)
    ensures !NoPushAsleep(ts[t := x]) && !x.pc.PushAsleep? ==> !NoPushAsleep(ts)
  {
    var r := ts[t := x];
    if !NoPopAsleep(r) && x.pc != PopAsleep {
      var i :| 0 <= i < |r| && r[i].pc == PopAsleep;
      assert ts[i].pc == PopAsleep;
    }
    if !NoPushAsleep(r) && !x.pc.PushAsleep? {
      var i :| 0 <= i < |r| && r[i].pc.PushAsleep?;
      assert ts[i].pc.PushAsleep?;
    }
  }

  /** After a signal on not_empty, sleepers in pop imply one popper was woken. */
  lemma SignalEmptyWakes(ts: seq<Thread>, wake: nat)
    requires NoPopAsleep(ts) || (wake < |ts| && ts[wake].pc == PopAsleep)
    ensures var r := SignalNotEmpty(ts, wake);
      && (!NoPopAsleep(r) ==> !NoPopAsleep(ts) && Poppers(r) == Poppers(ts) + 1)
      && (!NoPushAsleep(r) ==> !NoPushAsleep(ts)) && Pushers(r) == Pushers(ts)
  {
    if wake < |ts| && ts[wake].pc == PopAsleep {
      MarksUpdate(ts, wake, Wake(ts[wake]));
      SleepersUpdate(ts, wake, Wake(ts[wake]));
    }
  }

  lemma SignalFullWakes(ts: seq<Thread>, wake: nat)
    requires NoPushAsleep(ts) || (wake < |ts| && ts[wake].pc.PushAsleep?)
    ensures var r := SignalNotFull(ts, wake);
      && (!NoPushAsleep(r) ==> !NoPushAsleep(ts) && Pushers(r) == Pushers(ts) + 1)
      && (!NoPopAsleep(r) ==> !NoPopAsleep(ts)) && Poppers(r) == Poppers(ts)
  {
    if wake < |ts| && ts[wake].pc.PushAsleep? {
      MarksUpdate(ts, wake, Wake(ts[wake]));
      SleepersUpdate(ts, wake, Wake(ts[wake]));
    }
  }

  lemma PushStepWakes(s: World, t: nat, wake: nat)
    requires NoLostWakeUp(s) && FirstInFirstOut(s) && Possible(s, RunPush(t, wake))
    ensures NoLostWakeUp(PushStep(s, t, wake))
  {
    hide Poppers, Pushers, NoPopAsleep, NoPushAsleep;
    var x := s.threads[t];
    MarksNonNegative(s.threads);
    match PushOf(s.queue, x.pc.item).0
    case PushWait =>
      var y := x.(pc := PushAsleep(x.pc.item));
      MarksUpdate(s.threads, t, y);
      MarksNonNegative(s.threads[t := y]);
      SleepersUpdate(s.threads, t, y);
    case Canceled =>
      MarksUpdate(s.threads, t, x.(pc := Idle));
      SleepersUpdate(s.threads, t, x.(pc := Idle));
    case Accepted =>
      var ts := s.threads[t := x.(pc := Idle)];
      MarksUpdate(s.threads, t, x.(pc := Idle));
      SleepersUpdate(s.threads, t, x.(pc := Idle));
      StillAsleep(s.threads, t, x.(pc := Idle), wake);
      SignalEmptyWakes(ts, wake);
  }

  /** The sleeper to be signalled is still there after the caller stepped out. */
  lemma StillAsleep(ts: seq<Thread>, t: nat, x: Thread, wake: nat)
    requires t < |ts| && x.pc == Idle
    ensures NoPopAsleep(ts) ==> NoPopAsleep(ts[t := x])
    ensures NoPushAsleep(ts) ==> NoPushAsleep(ts[t := x])
  {
  }

  lemma PopStepWakes(s: World, t: nat, wake: nat)
    requires NoLostWakeUp(s) && FirstInFirstOut(s) && Possible(s, RunPop(t, wake))
    ensures NoLostWakeUp(PopStep(s, t, wake))
  {
    hide Poppers, Pushers, NoPopAsleep, NoPushAsleep;
    var x := s.threads[t];
    MarksNonNegative(s.threads);
    match PopOf(s.queue).0
    case PopWait =>
      var y := x.(pc := PopAsleep);
      MarksUpdate(s.threads, t, y);
      MarksNonNegative(s.threads[t := y]);
      SleepersUpdate(s.threads, t, y);
    case Drained =>
      MarksUpdate(s.threads, t, x.(pc := Idle, sawEnd := true));
      SleepersUpdate(s.threads, t, x.(pc := Idle, sawEnd := true));
    case Popped(item) =>
      var y := x.(pc := Idle, got := x.got + [item]);
      MarksUpdate(s.threads, t, y);
      SleepersUpdate(s.threads, t, y);
      StillAsleep(s.threads, t, y, wake);
      SignalFullWakes(s.threads[t := y], wake);
  }

  lemma StepWakes(s: World, e: Event)
    requires NoLostWakeUp(s) && FirstInFirstOut(s) && Possible(s, e)
    ensures NoLostWakeUp(Perform(s, e))
  {
    match e
    case RunPush(t, wake) => PushStepWakes(s, t, wake);
    case RunPop(t, wake) => PopStepWakes(s, t, wake);
    case RunClose(t) => BroadcastWakes(s.threads);
    case CallPush(t, item) => OtherStepWakes(s, e, s.threads[t].(pc := Pushing(item)));
    case CallPop(t) => OtherStepWakes(s, e, s.threads[t].(pc := Popping));
    case SpuriousWake(t) => OtherStepWakes(s, e, Wake(s.threads[t]));
  }

  lemma BroadcastWakes(ts: seq<Thread>)
    ensures NoPopAsleep(Broadcast(ts)) && NoPushAsleep(Broadcast(ts))
  {
  }

  lemma OtherStepWakes(s: World, e: Event, x: Thread)
    requires NoLostWakeUp(s) && Possible(s, e) && e.t < |s.threads|
    requires Perform(s, e) == s.(threads := s.threads[e.t := x])
    requires x.pc.Pushing? || x.pc.Popping?
    requires s.threads[e.t].pc.Idle? || s.threads[e.t].pc.PushAsleep? || s.threads[e.t].pc.PopAsleep?
    ensures NoLostWakeUp(Perform(s, e))
  {
    hide Poppers, Pushers, NoPopAsleep, NoPushAsleep;
    MarksUpdate(s.threads, e.t, x);
    SleepersUpdate(s.threads, e.t, x);
  }

  lemma {:induction false} WakeUpsAlong(capacity: nat, threads: nat, es: seq<Event>, ws: seq<World>)
    requires IsHistory(capacity, threads, es, ws)
    ensures NoLostWakeUp(Now(ws)) && FirstInFirstOut(Now(ws))
    decreases |es|
  {
    hide Possible, Perform, NoLostWakeUp, FirstInFirstOut;
    if es != [] {
      HistoryPrefix(capacity, threads, es, ws);
      WakeUpsAlong(capacity, threads, es[..|es| - 1], ws[..|ws| - 1]);
      StepFifo(Now(ws[..|ws| - 1]), es[|es| - 1]);
      StepWakes(Now(ws[..|ws| - 1]), es[|es| - 1]);
    } else {
      BeginWakes(capacity, threads);
    }
  }

  lemma BeginWakes(capacity: nat, threads: nat)
    ensures NoLostWakeUp(Begin(capacity, threads)) && FirstInFirstOut(Begin(capacity, threads))
  {
  }

  ghost predicate NobodyRunnable(s: World) {
    forall i :: 0 <= i < |s.threads| ==>
      s.threads[i].pc.Idle? || s.threads[i].pc.PushAsleep? || s.threads[i].pc.PopAsleep?
  }

  /** When no call can go on, sleepers in pop face an empty open queue and sleepers in push a
      full open one. */
  ghost predicate RealWaits(s: World) {
    && (!NoPopAsleep(s.threads) ==> !s.queue.closed && s.queue.contents == [])
    && (!NoPushAsleep(s.threads) ==> !s.queue.closed && |s.queue.contents| == s.queue.capacity)
    && (s.queue.capacity > 0 ==> NoPopAsleep(s.threads) || NoPushAsleep(s.threads))
  }

  lemma QuietWaits(s: World)
    requires NoLostWakeUp(s) && FirstInFirstOut(s) && NobodyRunnable(s)
    ensures RealWaits(s)
  {
    hide NoPopAsleep, NoPushAsleep, Sum;
    AllZero(PopMarks(s.threads));
    AllZero(PushMarks(s.threads));
  }

  /** In every reachable state in which no call can go on, every sleep is a real wait. */
  lemma SleepersReallyWait(capacity: nat, threads: nat, es: seq<Event>, ws: seq<World>)
    requires IsHistory(capacity, threads, es, ws) && NobodyRunnable(Now(ws))
    ensures RealWaits(Now(ws)) && Now(ws).queue.capacity == capacity
  {
    hide IsHistory, NoLostWakeUp, RealWaits;
    WakeUpsAlong(capacity, threads, es, ws);
    ItemsComeOutInOrder(capacity, threads, es, ws);
    HistoryNonEmpty(capacity, threads, es, ws);
    QuietWaits(Now(ws));
  }

  lemma HistoryNonEmpty(capacity: nat, threads: nat, es: seq<Event>, ws: seq<World>)
    requires IsHistory(capacity, threads, es, ws)
    ensures |ws| > 0
  {
  }
}
