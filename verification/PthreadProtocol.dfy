/** Any number of threads pushing, popping and closing one queue.  Every call's critical section
    runs under the mutex from the loop test to the unlock or the wait, so it is one step here;
    the wait sets, the signals and spurious wake-ups are explicit. */
module PthreadProtocol {
  import opened TaskWork
  import opened PthreadQueue

  /** Idle, about to enter the critical section of a call, or asleep in its wait loop. */
  datatype Pc = Idle | Pushing(item: WorkItem) | PushAsleep(x: WorkItem) | Popping | PopAsleep

  /** A thread, with the items its pops returned so far and whether a pop returned 0. */
  datatype Thread = Thread(pc: Pc, got: seq<WorkItem>, sawEnd: bool)

  /** The queue, the threads, and the history: items accepted and items handed out, in order. */
  datatype World = World(queue: Fifo, threads: seq<Thread>, accepted: seq<WorkItem>, popped: seq<WorkItem>)

  datatype Event =
    | CallPush(t: nat, item: WorkItem)
    | CallPop(t: nat)
    | RunPush(t: nat, wake: nat)  // critical section; signals not_empty
    | RunPop(t: nat, wake: nat)   // critical section; signals not_full
    | RunClose(t: nat)            // critical section of close; broadcasts both
    | SpuriousWake(t: nat)

  function Begin(capacity: nat, threads: nat): World {
    World(Fifo(capacity, [], false), seq(threads, _ => Thread(Idle, [], false)), [], [])
  }

  predicate Is(s: World, t: nat, pc: Pc) {
    t < |s.threads| && s.threads[t].pc == pc
  }

  predicate NoPopAsleep(ts: seq<Thread>) {
    forall i :: 0 <= i < |ts| ==> ts[i].pc != PopAsleep
  }

  predicate NoPushAsleep(ts: seq<Thread>) {
    forall i :: 0 <= i < |ts| ==> !ts[i].pc.PushAsleep?
  }

  predicate Possible(s: World, e: Event) {
    match e
    case CallPush(t, _) => Is(s, t, Idle)
    case CallPop(t) => Is(s, t, Idle)
    case RunPush(t, wake) =>
      t < |s.threads| && s.threads[t].pc.Pushing? && (NoPopAsleep(s.threads) || Is(s, wake, PopAsleep))
    case RunPop(t, wake) =>
      Is(s, t, Popping) && (NoPushAsleep(s.threads) || (wake < |s.threads| && s.threads[wake].pc.PushAsleep?))
    case RunClose(t) => Is(s, t, Idle)
    case SpuriousWake(t) => t < |s.threads| && (s.threads[t].pc.PushAsleep? || s.threads[t].pc.PopAsleep?)
  }

  /** A woken thread re-enters its critical section. */
  function Wake(x: Thread): Thread {
    match x.pc
    case PushAsleep(item) => x.(pc := Pushing(item))
    case PopAsleep => x.(pc := Popping)
    case _ => x
  }

  function Broadcast(ts: seq<Thread>): (r: seq<Thread>)
    ensures |r| == |ts|
  {
    seq(|ts|, i requires 0 <= i < |ts| => Wake(ts[i]))
  }

  /** pthread_cond_signal: wakes one sleeper of the right kind, or nobody. */
  function SignalNotEmpty(ts: seq<Thread>, wake: nat): (r: seq<Thread>)
    ensures |r| == |ts|
  {
    if wake < |ts| && ts[wake].pc.PopAsleep? then ts[wake := Wake(ts[wake])] else ts
  }

  function SignalNotFull(ts: seq<Thread>, wake: nat): (r: seq<Thread>)
    ensures |r| == |ts|
  {
    if wake < |ts| && ts[wake].pc.PushAsleep? then ts[wake := Wake(ts[wake])] else ts
  }

  function PushStep(s: World, t: nat, wake: nat): World
    requires t < |s.threads| && s.threads[t].pc.Pushing?
  {
    var x := s.threads[t];
    var (outcome, q) := PushOf(s.queue, x.pc.item);
    match outcome
    case PushWait => s.(threads := s.threads[t := x.(pc := PushAsleep(x.pc.item))])
    case Canceled => s.(threads := s.threads[t := x.(pc := Idle)])
    case Accepted =>
      s.(queue := q, accepted := s.accepted + [x.pc.item],
         threads := SignalNotEmpty(s.threads[t := x.(pc := Idle)], wake))
  }

  function PopStep(s: World, t: nat, wake: nat): World
    requires Is(s, t, Popping)
  {
    var x := s.threads[t];
    var (outcome, q) := PopOf(s.queue);
    match outcome
    case PopWait => s.(threads := s.threads[t := x.(pc := PopAsleep)])
    case Drained => s.(threads := s.threads[t := x.(pc := Idle, sawEnd := true)])
    case Popped(item) =>
      s.(queue := q, popped := s.popped + [item],
         threads := SignalNotFull(s.threads[t := x.(pc := Idle, got := x.got + [item])], wake))
  }

  function Perform(s: World, e: Event): World
    requires Possible(s, e)
  {
    match e
    case CallPush(t, item) => s.(threads := s.threads[t := s.threads[t].(pc := Pushing(item))])
    case CallPop(t) => s.(threads := s.threads[t := s.threads[t].(pc := Popping)])
    case RunPush(t, wake) => PushStep(s, t, wake)
    case RunPop(t, wake) => PopStep(s, t, wake)
    case RunClose(t) => s.(queue := CloseOf(s.queue), threads := Broadcast(s.threads))
    case SpuriousWake(t) => s.(threads := s.threads[t := Wake(s.threads[t])])
  }

  ghost predicate Leads(s: World, e: Event, r: World) {
    Possible(s, e) && r == Perform(s, e)
  }

  ghost predicate IsHistory(capacity: nat, threads: nat, es: seq<Event>, ws: seq<World>) {
    && |ws| == |es| + 1 && ws[0] == Begin(capacity, threads)
    && forall k :: 0 <= k < |es| ==> Leads(ws[k], es[k], ws[k + 1])
  }

  function Now(ws: seq<World>): World
    requires |ws| > 0
  {
    ws[|ws| - 1]
  }

  lemma HistoryPrefix(capacity: nat, threads: nat, es: seq<Event>, ws: seq<World>)
    requires IsHistory(capacity, threads, es, ws) && es != []
    ensures |ws| > 1 && IsHistory(capacity, threads, es[..|es| - 1], ws[..|ws| - 1])
    ensures Leads(Now(ws[..|ws| - 1]), es[|es| - 1], Now(ws))
  {
    hide Leads;
    assert Leads(ws[|es| - 1], es[|es| - 1], ws[|es| - 1 + 1]);
  }
}
