/** The C work queue: a circular buffer under one mutex.  Each method is one pass through the
    critical section of a call, which ends by sleeping on a condition variable or returning. */
module PthreadQueue {
  import opened TaskWork

  /** The queue as its callers see it. */
  datatype Fifo = Fifo(capacity: nat, contents: seq<WorkItem>, closed: bool)

  datatype PushOutcome = PushWait | Canceled | Accepted

  datatype PopOutcome = PopWait | Drained | Popped(item: WorkItem)

  function PushOf(q: Fifo, item: WorkItem): (PushOutcome, Fifo) {
    if |q.contents| == q.capacity && !q.closed then (PushWait, q)
    else if q.closed then (Canceled, q)
    else (Accepted, q.(contents := q.contents + [item]))
  }

  function PopOf(q: Fifo): (PopOutcome, Fifo) {
    if q.contents == [] && !q.closed then (PopWait, q)
    else if q.contents == [] then (Drained, q)
    else (Popped(q.contents[0]), q.(contents := q.contents[1..]))
  }

  function CloseOf(q: Fifo): Fifo {
    q.(closed := true)
  }

  /** x mod c, for x below 2 * c. */
  function Wrap(x: nat, c: nat): nat {
    if x < c then x else x - c
  }

  lemma WrapIsMod(x: nat, c: nat)
    requires x < 2 * c
    ensures x % c == Wrap(x, c)
  {
    if x >= c {
      assert x == c * 1 + (x - c);
    }
  }

  /** The queued items, from the head on. */
  function Unroll(buffer: seq<WorkItem>, head: nat, count: nat): (r: seq<WorkItem>)
    requires head < |buffer| && count <= |buffer|
    ensures |r| == count
  {
    seq(count, k requires 0 <= k < count => buffer[Wrap(head + k, |buffer|)])
  }

  /** Writing at the tail appends. */
  lemma UnrollPush(buffer: seq<WorkItem>, head: nat, count: nat, item: WorkItem)
    requires head < |buffer| && count < |buffer|
    ensures Unroll(buffer[Wrap(head + count, |buffer|) := item], head, count + 1) ==
      Unroll(buffer, head, count) + [item]
  {
    var n := |buffer|;
    var after := buffer[Wrap(head + count, n) := item];
    var a, b := Unroll(after, head, count + 1), Unroll(buffer, head, count);
    forall k | 0 <= k < count ensures a[k] == b[k] {
      assert Wrap(head + k, n) != Wrap(head + count, n);
      assert b[k] == buffer[Wrap(head + k, n)];
    }
    assert a[count] == item;
  }

  /** Advancing the head drops the first. */
  lemma UnrollPop(buffer: seq<WorkItem>, head: nat, count: nat)
    requires head < |buffer| && 0 < count <= |buffer|
    ensures Unroll(buffer, Wrap(head + 1, |buffer|), count - 1) == Unroll(buffer, head, count)[1..]
    ensures Unroll(buffer, head, count)[0] == buffer[head]
  {
    var n := |buffer|;
    var a, b := Unroll(buffer, Wrap(head + 1, n), count - 1), Unroll(buffer, head, count);
    forall k | 0 <= k < count - 1 ensures a[k] == b[k + 1] {
      assert Wrap(Wrap(head + 1, n) + k, n) == Wrap(head + (k + 1), n);
      assert b[k + 1] == buffer[Wrap(head + (k + 1), n)];
    }
    assert b[0] == buffer[Wrap(head + 0, n)];
  }

  class WorkQueue {
    const items: array<WorkItem>
    const capacity: nat
    var head: nat
    var tail: nat
    var count: nat
    var closed: bool
    var lockAcquisitions: nat

    ghost predicate Valid()
      reads this
    {
      && capacity > 0 && items.Length == capacity
      && head < capacity && count <= capacity && tail == Wrap(head + count, capacity)
    }

    ghost function View(): (r: Fifo)
      reads this, items
      requires Valid()
      ensures |r.contents| == count
    {
      Fifo(capacity, Unroll(items[..], head, count), closed)
    }

    constructor (capacity: nat, blank: WorkItem)
      requires capacity > 0
      ensures Valid() && View() == Fifo(capacity, [], false) && fresh(items)
    {
      this.capacity := capacity;
      items := new WorkItem[capacity](_ => blank);
      head, tail, count := 0, 0, 0;
      closed := false;
      lockAcquisitions := 0;
    }

    /** pthread_work_queue_push, from the loop test on. */
    method Push(item: WorkItem) returns (outcome: PushOutcome)
      requires Valid()
      modifies this, items
      ensures Valid()
      ensures outcome == PushOf(old(View()), item).0 && View() == PushOf(old(View()), item).1
      ensures lockAcquisitions == old(lockAcquisitions)
    {
      if count == capacity && !closed { return PushWait; }
      if closed { return Canceled; }
      UnrollPush(items[..], head, count, item);
      ghost var after := items[..][tail := item];
      items[tail] := item;
      assert items[..] == after;
      WrapIsMod(tail + 1, capacity);
      tail := (tail + 1) % capacity;
      count := count + 1;
      return Accepted;
    }

    /** pthread_work_queue_pop, from the loop test on; `entered` marks the first pass, which
        has just taken the mutex through lock_queue. */
    method Pop(entered: bool) returns (outcome: PopOutcome)
      requires Valid()
      modifies this
      ensures Valid()
      ensures outcome == PopOf(old(View())).0 && View() == PopOf(old(View())).1
      ensures lockAcquisitions == old(lockAcquisitions) + (if entered then 1 else 0)
    {
      if entered { lockAcquisitions := lockAcquisitions + 1; }
      if count == 0 && !closed { return PopWait; }
      if count == 0 && closed { return Drained; }
      UnrollPop(items[..], head, count);
      var item := items[head];
      WrapIsMod(head + 1, capacity);
      head := (head + 1) % capacity;
      count := count - 1;
      return Popped(item);
    }

    /** pthread_work_queue_close. */
    method Close()
      requires Valid()
      modifies this`closed
      ensures Valid() && View() == CloseOf(old(View()))
    {
      closed := true;
    }
  }

  /** pthread_work_queue_init: a capacity of zero is refused (EINVAL). */
  method InitQueue(capacity: nat, blank: WorkItem) returns (ok: bool, q: WorkQueue?)
    ensures ok <==> capacity > 0
    ensures ok <==> q != null
    ensures q != null ==> q.Valid() && fresh(q) && q.View() == Fifo(capacity, [], false)
  {
    if capacity == 0 { return false, null; }
    q := new WorkQueue(capacity, blank);
    ok := true;
  }
}
