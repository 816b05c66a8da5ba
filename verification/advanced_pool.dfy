/**
 The pool over two-tier queues (`AdvancedLockFreeThreadPool` in
 work_stealing_lockfree.cc): round-robin submission into local tiers, one
 turn of `advanced_worker` (own `pop`, else one `steal` from a drawn victim),
 the drain test `all_queues_empty`, and the queues' destruction.
 */
module AdvancedLockFreeThreadPool {
  import opened Tasks
  import LF = LockFreeTaskQueue
  import AQ = AdvancedLockFreeTaskQueue
  import RoundRobin

  /** The two-tier queues, one per worker, and the submission counter (`static index`). */
  datatype Pool = Pool(queues: seq<AQ.TwoTier>, counter: nat) {
    /** At least one worker, and no tier over capacity. */
    predicate Valid()
    {
      |queues| >= 1 && forall i :: 0 <= i < |queues| ==> queues[i].Valid()
    }
  }

  /** Where a submission went, and whether the push attempt found a free local slot. */
  datatype Placement = Placement(target: nat, accepted: bool, pool: Pool)

  /** All tasks resident in either tier of any queue. */
  function Resident(qs: seq<AQ.TwoTier>): multiset<Task>
  {
    Gather(qs, AQ.Contents)
  }

  /** One push attempt on queue `i`, the first of a submission or a retry of it. */
  function PushAt(p: Pool, i: nat, t: Task): (r: (bool, Pool))
    requires p.Valid() && i < |p.queues|
    ensures r.1.Valid() && |r.1.queues| == |p.queues| && r.1.counter == p.counter
    ensures (r.0, r.1.queues[i]) == AQ.Push(p.queues[i], t)
    ensures forall j :: 0 <= j < |p.queues| && j != i ==> r.1.queues[j] == p.queues[j]
  {
    var (ok, q') := AQ.Push(p.queues[i], t);
    (ok, p.(queues := p.queues[i := q']))
  }

  /** `submit`: takes the next counter value and pushes onto the local tier of queue `counter mod n`. */
  function Submit(p: Pool, t: Task): (r: Placement)
    requires p.Valid()
    ensures r.pool.Valid() && |r.pool.queues| == |p.queues| && r.pool.counter == p.counter + 1
    ensures r.target == p.counter % |p.queues|
    ensures (r.accepted, r.pool.queues[r.target]) == AQ.Push(p.queues[r.target], t)
    ensures forall j :: 0 <= j < |p.queues| && j != r.target ==> r.pool.queues[j] == p.queues[j]
  {
    var i := RoundRobin.Target(p.counter, |p.queues|);
    var (ok, p') := PushAt(p.(counter := p.counter + 1), i, t);
    Placement(i, ok, p')
  }

  /**
   A push attempt never drops a task: it is resident afterwards, or the
   local tier was full and the caller still holds it.
   */
  lemma PushAtNeverDrops(p: Pool, i: nat, t: Task)
    requires p.Valid() && i < |p.queues|
    ensures var (ok, r) := PushAt(p, i, t);
      && (ok <==> |p.queues[i].local.items| < LF.Capacity)
      && Resident(r.queues) + (if ok then multiset{} else multiset{t}) == Resident(p.queues) + multiset{t}
  {
    var (ok, r) := PushAt(p, i, t);
    var q, q' := p.queues[i], r.queues[i];
    if ok {
      assert r.queues == p.queues[i := q'];
      GatherUpdate(p.queues, i, q', AQ.Contents);
      AQ.PushNeverDrops(q, t);
      assert AQ.Contents(q') == AQ.Contents(q) + multiset{t};
      Cancel(Resident(r.queues), Resident(p.queues) + multiset{t}, AQ.Contents(q));
    } else {
      assert r.queues == p.queues;
    }
  }

  /**
   One turn of `advanced_worker` for worker `id` with random draw `victim`:
   its own `pop` if that yields a task; otherwise, unless the draw is `id`
   itself, one `steal` from the victim.
   */
  function WorkerStep(p: Pool, id: nat, victim: nat): (r: (Option<Task>, Pool))
    requires p.Valid() && id < |p.queues| && victim < |p.queues|
    ensures r.1.Valid() && |r.1.queues| == |p.queues| && r.1.counter == p.counter
    ensures AQ.Pop(p.queues[id]).0.Some? ==>
      r == (AQ.Pop(p.queues[id]).0, p.(queues := p.queues[id := AQ.Pop(p.queues[id]).1]))
    ensures AQ.Pop(p.queues[id]).0.None? && victim == id ==> r == (None, p)
    ensures AQ.Pop(p.queues[id]).0.None? && victim != id ==>
      r == (AQ.Steal(p.queues[victim]).0, p.(queues := p.queues[victim := AQ.Steal(p.queues[victim]).1]))
  {
    match AQ.Pop(p.queues[id])
    case (Some(t), q') => (Some(t), p.(queues := p.queues[id := q']))
    case (None, _) =>
      if victim != id then
        match AQ.Steal(p.queues[victim])
        case (Some(t), q') => (Some(t), p.(queues := p.queues[victim := q']))
        case (None, q') =>
          assert q' == p.queues[victim];
          assert p.queues[victim := q'] == p.queues;
          (None, p)
      else (None, p)
  }

  /**
   A drawn victim equal to the worker itself means no steal attempt: a
   worker whose own queue is empty then finds nothing and changes nothing.
   With a single worker this is every draw, so nothing is ever stolen.
   */
  lemma SelfVictimNoSteal(p: Pool, id: nat)
    requires p.Valid() && id < |p.queues| && p.queues[id].local.items == [] && p.queues[id].steal.items == []
    ensures WorkerStep(p, id, id) == (None, p)
  {
  }

  /** The task a worker turn obtains leaves the pool; every other resident task stays. */
  lemma WorkerStepClaimsOne(p: Pool, id: nat, victim: nat)
    requires p.Valid() && id < |p.queues| && victim < |p.queues|
    ensures var (t, r) := WorkerStep(p, id, victim);
      Resident(p.queues) == Resident(r.queues) + (if t.Some? then multiset{t.value} else multiset{})
  {
    var (t, r) := WorkerStep(p, id, victim);
    if t.Some? {
      var ownHit := AQ.Pop(p.queues[id]).0.Some?;
      var i := if ownHit then id else victim;
      var q' := if ownHit then AQ.Pop(p.queues[i]).1 else AQ.Steal(p.queues[i]).1;
      assert r.queues == p.queues[i := q'];
      AQ.PopAndStealRemoveOne(p.queues[i]);
      assert AQ.Contents(p.queues[i]) == AQ.Contents(q') + multiset{t.value};
      GatherUpdate(p.queues, i, q', AQ.Contents);
      Cancel(Resident(p.queues), Resident(r.queues) + multiset{t.value}, AQ.Contents(q'));
    }
  }

  /**
   `all_queues_empty`: scans the queues and answers false at the first one
   that is not `empty()`. True exactly when every queue is empty, that is,
   when no task is resident anywhere in the pool.
   */
  method AllQueuesEmpty(qs: seq<AQ.TwoTier>) returns (b: bool)
    ensures b <==> forall i :: 0 <= i < |qs| ==> AQ.IsEmpty(qs[i])
    ensures b <==> Resident(qs) == multiset{}
  {
    var i := 0;
    while i < |qs|
      invariant 0 <= i <= |qs|
      invariant forall j :: 0 <= j < i ==> AQ.IsEmpty(qs[j])
    {
      if !AQ.IsEmpty(qs[i]) {
        AQ.EmptyIffNoTasks(qs[i]);
        GatherIncludes(qs, i, AQ.Contents);
        return false;
      }
      i := i + 1;
    }
    forall j | 0 <= j < |qs|
      ensures AQ.Contents(qs[j]) == multiset{}
    {
      AQ.EmptyIffNoTasks(qs[j]);
    }
    GatherEmpty(qs, AQ.Contents);
    return true;
  }

  /**
   Destruction: after shutdown each queue's destructor drains both of its
   tiers, so every resident task is released exactly once, unexecuted, and
   every queue ends empty.
   */
  method Destroy(p: Pool) returns (released: seq<Task>, rest: seq<AQ.TwoTier>)
    ensures multiset(released) == Resident(p.queues)
    ensures |rest| == |p.queues| && forall i :: 0 <= i < |rest| ==> AQ.IsEmpty(rest[i])
  {
    released := [];
    rest := [];
    var i := 0;
    while i < |p.queues|
      invariant 0 <= i <= |p.queues|
      invariant multiset(released) == Resident(p.queues[..i])
      invariant |rest| == i && forall j :: 0 <= j < i ==> AQ.IsEmpty(rest[j])
    {
      var out, q' := AQ.Destroy(p.queues[i]);
      assert p.queues[..i + 1] == p.queues[..i] + [p.queues[i]];
      GatherAppend(p.queues[..i], p.queues[i], AQ.Contents);
      released := released + out;
      rest := rest + [q'];
      i := i + 1;
    }
    assert p.queues[..i] == p.queues;
  }
}
