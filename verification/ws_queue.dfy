/**
 The mutex-guarded deque of the locking pool (`WorkStealingQueue` in
 work_stealing_queue.cc). The lock only makes each operation atomic, so each
 operation is one pure step. The owner pushes and pops at the front, thieves
 steal at the back: the owner sees its newest task first, a thief the oldest.
 */
module WorkStealingQueue {
  import opened Tasks

  /** Resident tasks; index 0 is the front (owner side), the last index the back (thief side). */
  datatype Deque = Deque(items: seq<Task>)

  const Empty := Deque([])

  /** The tasks of a deque, as a multiset. */
  function Contents(q: Deque): multiset<Task>
  {
    multiset(q.items)
  }

  /** `push`: the new task becomes the front; the old tasks keep their order behind it. */
  function Push(q: Deque, t: Task): (r: Deque)
    ensures |r.items| == |q.items| + 1
    ensures r.items[0] == t && r.items[1..] == q.items
  {
    Deque([t] + q.items)
  }

  /** `pop`: the owner takes the front task, or reports failure on an empty deque. */
  function Pop(q: Deque): (r: (Option<Task>, Deque))
    ensures r.0.None? <==> q.items == []
    ensures r.0.None? ==> r.1 == q
    ensures r.0.Some? ==> q.items == [r.0.value] + r.1.items
  {
    if q.items == [] then (None, q) else (Some(q.items[0]), Deque(q.items[1..]))
  }

  /** `steal`: a thief takes the back task, or reports failure on an empty deque. */
  function Steal(q: Deque): (r: (Option<Task>, Deque))
    ensures r.0.None? <==> q.items == []
    ensures r.0.None? ==> r.1 == q
    ensures r.0.Some? ==> q.items == r.1.items + [r.0.value]
  {
    if q.items == [] then (None, q) else (Some(q.items[|q.items| - 1]), Deque(q.items[..|q.items| - 1]))
  }

  /** Pushes `ts` one after another, `ts[0]` first. */
  function PushAll(q: Deque, ts: seq<Task>): Deque
    decreases |ts|
  {
    if ts == [] then q else PushAll(Push(q, ts[0]), ts[1..])
  }

  /** The tasks the owner obtains by popping until the deque is empty, in the order obtained. */
  function OwnerOrder(q: Deque): seq<Task>
    decreases |q.items|
  {
    match Pop(q).0
    case None => []
    case Some(t) => [t] + OwnerOrder(Pop(q).1)
  }

  /** The tasks a thief obtains by stealing until the deque is empty, in the order obtained. */
  function ThiefOrder(q: Deque): seq<Task>
    decreases |q.items|
  {
    match Steal(q).0
    case None => []
    case Some(t) => [t] + ThiefOrder(Steal(q).1)
  }

  /** Pushing and then popping gives back the pushed task and the deque as it was. */
  lemma PushPopRoundTrip(q: Deque, t: Task)
    ensures Pop(Push(q, t)) == (Some(t), q)
  {
  }

  /** After a run of pushes the newest of them is the one the owner pops next. */
  lemma {:induction false} PopReturnsNewest(q: Deque, ts: seq<Task>)
    requires ts != []
    ensures Pop(PushAll(q, ts)).0 == Some(ts[|ts| - 1])
  {
    PushAllItems(q, ts);
  }

  /**
   Pushes never change what a thief sees next: on a non-empty deque the
   steal after any pushes takes the same task as a steal before them, the
   oldest resident one.
   */
  lemma {:induction false} StealReturnsOldest(q: Deque, ts: seq<Task>)
    requires q.items != []
    ensures Steal(PushAll(q, ts)).0 == Some(q.items[|q.items| - 1])
  {
    PushAllItems(q, ts);
  }

  /** A run of pushes leaves the pushed tasks newest-first in front of the old ones. */
  lemma {:induction false} PushAllItems(q: Deque, ts: seq<Task>)
    ensures PushAll(q, ts).items == Reverse(ts) + q.items
    decreases |ts|
  {
    if ts != [] {
      PushAllItems(Push(q, ts[0]), ts[1..]);
      assert Reverse(ts) == Reverse(ts[1..]) + [ts[0]];
    }
  }

  /** Popping until empty yields the deque front to back. */
  lemma {:induction false} OwnerOrderIsFrontToBack(q: Deque)
    ensures OwnerOrder(q) == q.items
    decreases |q.items|
  {
    if q.items != [] {
      OwnerOrderIsFrontToBack(Pop(q).1);
    }
  }

  /** Stealing until empty yields the deque back to front. */
  lemma {:induction false} ThiefOrderIsBackToFront(q: Deque)
    ensures ThiefOrder(q) == Reverse(q.items)
    decreases |q.items|
  {
    if q.items != [] {
      var rest := Steal(q).1;
      ThiefOrderIsBackToFront(rest);
      var r := Reverse(q.items);
      assert r == [q.items[|q.items| - 1]] + Reverse(rest.items) by {
        assert forall i :: 0 <= i < |r| ==> r[i] == ([q.items[|q.items| - 1]] + Reverse(rest.items))[i];
      }
    }
  }

  /** The owner sees its own pushes in LIFO order: last pushed, first popped. */
  lemma OwnerSeesLifo(ts: seq<Task>)
    ensures OwnerOrder(PushAll(Empty, ts)) == Reverse(ts)
  {
    PushAllItems(Empty, ts);
    OwnerOrderIsFrontToBack(PushAll(Empty, ts));
    assert Reverse(ts) + [] == Reverse(ts);
  }

  /** Thieves see the owner's pushes in FIFO order: first pushed, first stolen. */
  lemma ThiefSeesFifo(ts: seq<Task>)
    ensures ThiefOrder(PushAll(Empty, ts)) == ts
  {
    PushAllItems(Empty, ts);
    assert Reverse(ts) + [] == Reverse(ts);
    ThiefOrderIsBackToFront(PushAll(Empty, ts));
    ReverseInvolutive(ts);
  }

  /**
   A successful `pop` or `steal` removes exactly the returned task: one
   task fewer, the others in their old relative order, and nothing else
   lost or added.
   */
  lemma RemovesExactlyOne(q: Deque)
    requires q.items != []
    ensures var (t, r) := Pop(q);
      t.Some? && |r.items| == |q.items| - 1 && r.items == q.items[1..]
      && Contents(q) == Contents(r) + multiset{t.value}
    ensures var (t, r) := Steal(q);
      t.Some? && |r.items| == |q.items| - 1 && r.items == q.items[..|q.items| - 1]
      && Contents(q) == Contents(r) + multiset{t.value}
  {
    var (t, r) := Pop(q);
    assert q.items == [t.value] + r.items;
    var (u, s) := Steal(q);
    assert q.items == s.items + [u.value];
  }

  /** On an empty deque `pop` and `steal` both fail and change nothing. */
  lemma EmptyFailsUnchanged()
    ensures Pop(Empty) == (None, Empty)
    ensures Steal(Empty) == (None, Empty)
  {
  }
}
