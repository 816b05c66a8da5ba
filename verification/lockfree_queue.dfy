/**
 The basic lock-free task queue (`LockFreeTaskQueue` in
 work_stealing_lockfree.cc): a Boost lock-free queue with a fixed capacity
 of 1024 slots, holding owned task handles in FIFO order. The same bounded
 queue is each of the two tiers of the advanced queue, so its type is `Tier`.
 */
module LockFreeTaskQueue {
  import opened Tasks

  /** The compile-time capacity of every Boost queue in the source. */
  const Capacity: nat := 1024

  /** Resident tasks, oldest first: `push` appends at the end, `pop` takes index 0. */
  datatype Tier = Tier(items: seq<Task>) {
    /** The queue never holds more tasks than it has slots. */
    predicate Valid()
    {
      |items| <= Capacity
    }
  }

  const Empty := Tier([])

  /** The tasks of a queue, as a multiset. */
  function Contents(q: Tier): multiset<Task>
  {
    multiset(q.items)
  }

  /** `empty()`. */
  predicate IsEmpty(q: Tier): (b: bool)
    ensures b <==> Pop(q).0.None?
  {
    q.items == []
  }

  /**
   One attempt of `push`'s retry loop. With a free slot the task is appended
   and the attempt succeeds; on a full queue the attempt fails, the queue is
   unchanged and the caller still holds the task and tries again.
   */
  function Push(q: Tier, t: Task): (r: (bool, Tier))
    requires q.Valid()
    ensures r.1.Valid()
    ensures r.0 <==> |q.items| < Capacity
    ensures r.0 ==> r.1.items == q.items + [t]
    ensures !r.0 ==> r.1 == q
  {
    if |q.items| < Capacity then (true, Tier(q.items + [t])) else (false, q)
  }

  /** `pop`: takes the oldest task, or fails on an empty queue. */
  function Pop(q: Tier): (r: (Option<Task>, Tier))
    ensures r.0.None? <==> q.items == []
    ensures r.0.None? ==> r.1 == q
    ensures r.0.Some? ==> q.items == [r.0.value] + r.1.items
  {
    if q.items == [] then (None, q) else (Some(q.items[0]), Tier(q.items[1..]))
  }

  /**
   The destructor: pops until `pop` fails, releasing each handle. Every
   resident task is released exactly once, oldest first, and the queue ends
   empty; no task is run.
   */
  method Drain(q: Tier) returns (released: seq<Task>, rest: Tier)
    ensures released == q.items
    ensures rest == Empty
  {
    released := [];
    rest := q;
    var step := Pop(rest);
    while step.0.Some?
      invariant released + rest.items == q.items
      invariant step == Pop(rest)
      decreases |rest.items|
    {
      released := released + [step.0.value];
      rest := step.1;
      step := Pop(rest);
    }
  }

  /** `empty()` holds exactly when `pop` would fail, that is, when no task is resident. */
  lemma EmptyIffPopFails(q: Tier)
    ensures IsEmpty(q) <==> Pop(q).0.None?
    ensures IsEmpty(q) <==> Contents(q) == multiset{}
  {
    if Contents(q) == multiset{} {
      assert |Contents(q)| == 0;
    }
  }

  /** Pushes `ts` one after another, `ts[0]` first, into a queue with room for all of them. */
  function PushAll(q: Tier, ts: seq<Task>): Tier
    requires q.Valid() && |q.items| + |ts| <= Capacity
    decreases |ts|
  {
    if ts == [] then q else PushAll(Push(q, ts[0]).1, ts[1..])
  }

  /** The tasks obtained by popping until the queue is empty, in the order obtained. */
  function PopOrder(q: Tier): seq<Task>
    decreases |q.items|
  {
    match Pop(q).0
    case None => []
    case Some(t) => [t] + PopOrder(Pop(q).1)
  }

  /** A run of pushes that fits appends the pushed tasks, in order, behind the old ones. */
  lemma {:induction false} PushAllItems(q: Tier, ts: seq<Task>)
    requires q.Valid() && |q.items| + |ts| <= Capacity
    ensures PushAll(q, ts).items == q.items + ts
    decreases |ts|
  {
    if ts != [] {
      PushAllItems(Push(q, ts[0]).1, ts[1..]);
      assert q.items + [ts[0]] + ts[1..] == q.items + ts;
    }
  }

  /** Popping until empty yields the queue oldest first. */
  lemma {:induction false} PopOrderIsOldestFirst(q: Tier)
    ensures PopOrder(q) == q.items
    decreases |q.items|
  {
    if q.items != [] {
      PopOrderIsOldestFirst(Pop(q).1);
    }
  }

  /** The queue is FIFO: tasks come out in the order they were pushed. */
  lemma FifoOrder(ts: seq<Task>)
    requires |ts| <= Capacity
    ensures PopOrder(PushAll(Empty, ts)) == ts
  {
    PushAllItems(Empty, ts);
    PopOrderIsOldestFirst(PushAll(Empty, ts));
  }

  /**
   A push does not change what the next pop returns from a non-empty queue,
   and pushing and popping commute there; on an empty queue the pop returns
   the pushed task and leaves the queue empty again.
   */
  lemma PushPopCommute(q: Tier, t: Task)
    requires q.Valid() && |q.items| < Capacity
    ensures q.items != [] ==>
      Pop(Push(q, t).1) == (Pop(q).0, Push(Pop(q).1, t).1)
    ensures q.items == [] ==> Pop(Push(q, t).1) == (Some(t), q)
  {
    if q.items != [] {
      assert (q.items + [t])[1..] == q.items[1..] + [t];
    }
  }

  /**
   A push never loses or duplicates a task: the task is either in the queue
   afterwards or, when the queue was full, still held by the caller.
   */
  lemma PushNeverDrops(q: Tier, t: Task)
    requires q.Valid()
    ensures var (ok, r) := Push(q, t);
      Contents(r) + (if ok then multiset{} else multiset{t}) == Contents(q) + multiset{t}
  {
  }
}
