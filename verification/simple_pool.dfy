/**
 The pool over basic lock-free queues (`SimpleLockFreeThreadPool` in
 work_stealing_lockfree.cc): round-robin submission and one turn of
 `simple_worker`, whose random victim is a parameter here. Having no steal
 operation, this pool takes a victim's task with the victim's own `pop`.
 */
module SimpleLockFreeThreadPool {
  import opened Tasks
  import LF = LockFreeTaskQueue
  import RoundRobin

  /** The queues, one per worker, and the submission counter (`static index`). */
  datatype Pool = Pool(queues: seq<LF.Tier>, counter: nat) {
    /** At least one worker, and no queue over capacity. */
    predicate Valid()
    {
      |queues| >= 1 && forall i :: 0 <= i < |queues| ==> queues[i].Valid()
    }
  }

  /** Where a submission went, and whether the push attempt found a free slot. */
  datatype Placement = Placement(target: nat, accepted: bool, pool: Pool)

  /** All tasks resident in the pool's queues. */
  function Resident(qs: seq<LF.Tier>): multiset<Task>
  {
    Gather(qs, LF.Contents)
  }

  /**
   One push attempt on queue `i`: the first attempt of a submission, and
   every retry of it, since the retry loop stays on the same queue.
   */
  function PushAt(p: Pool, i: nat, t: Task): (r: (bool, Pool))
    requires p.Valid() && i < |p.queues|
    ensures r.1.Valid() && |r.1.queues| == |p.queues| && r.1.counter == p.counter
    ensures (r.0, r.1.queues[i]) == LF.Push(p.queues[i], t)
    ensures forall j :: 0 <= j < |p.queues| && j != i ==> r.1.queues[j] == p.queues[j]
  {
    var (ok, q') := LF.Push(p.queues[i], t);
    (ok, p.(queues := p.queues[i := q']))
  }

  /**
   `submit`: takes the next counter value and pushes onto queue
   `counter mod n`. On a full queue the caller keeps retrying there (`PushAt`).
   */
  function Submit(p: Pool, t: Task): (r: Placement)
    requires p.Valid()
    ensures r.pool.Valid() && |r.pool.queues| == |p.queues| && r.pool.counter == p.counter + 1
    ensures r.target == p.counter % |p.queues|
    ensures (r.accepted, r.pool.queues[r.target]) == LF.Push(p.queues[r.target], t)
    ensures forall j :: 0 <= j < |p.queues| && j != r.target ==> r.pool.queues[j] == p.queues[j]
  {
    var i := RoundRobin.Target(p.counter, |p.queues|);
    var (ok, p') := PushAt(p.(counter := p.counter + 1), i, t);
    Placement(i, ok, p')
  }

  /**
   A push attempt never drops a task and never overfills a queue: the task
   is resident afterwards, or the queue was full and the caller still holds it.
   */
  lemma PushAtNeverDrops(p: Pool, i: nat, t: Task)
    requires p.Valid() && i < |p.queues|
    ensures var (ok, r) := PushAt(p, i, t);
      && r.Valid()
      && (ok <==> |p.queues[i].items| < LF.Capacity)
      && Resident(r.queues) + (if ok then multiset{} else multiset{t}) == Resident(p.queues) + multiset{t}
  {
    var (ok, r) := PushAt(p, i, t);
    assert r.queues == p.queues[i := r.queues[i]];
    GatherUpdate(p.queues, i, r.queues[i], LF.Contents);
    LF.PushNeverDrops(p.queues[i], t);
    if ok {
      Cancel(Resident(r.queues), Resident(p.queues) + multiset{t}, LF.Contents(p.queues[i]));
    } else {
      assert r.queues == p.queues;
    }
  }

  /**
   One turn of `simple_worker` for worker `id` with random draw `victim`:
   its own oldest task if it has one; otherwise, unless the draw is `id`
   itself, the oldest task of the victim's queue.
   */
  function WorkerStep(p: Pool, id: nat, victim: nat): (r: (Option<Task>, Pool))
    requires p.Valid() && id < |p.queues| && victim < |p.queues|
    ensures r.1.Valid() && |r.1.queues| == |p.queues| && r.1.counter == p.counter
    ensures p.queues[id].items != [] ==>
      r == (Some(p.queues[id].items[0]), p.(queues := p.queues[id := LF.Pop(p.queues[id]).1]))
    ensures p.queues[id].items == [] && victim == id ==> r == (None, p)
    ensures p.queues[id].items == [] && victim != id ==>
      r == (LF.Pop(p.queues[victim]).0, p.(queues := p.queues[victim := LF.Pop(p.queues[victim]).1]))
  {
    match LF.Pop(p.queues[id])
    case (Some(t), q') => (Some(t), p.(queues := p.queues[id := q']))
    case (None, _) =>
      if victim != id then
        match LF.Pop(p.queues[victim])
        case (Some(t), q') => (Some(t), p.(queues := p.queues[victim := q']))
        case (None, _) =>
          assert p.queues[victim := p.queues[victim]] == p.queues;
          (None, p)
      else (None, p)
  }

  /** The task a worker turn obtains leaves the pool; every other resident task stays. */
  lemma WorkerStepClaimsOne(p: Pool, id: nat, victim: nat)
    requires p.Valid() && id < |p.queues| && victim < |p.queues|
    ensures var (t, r) := WorkerStep(p, id, victim);
      Resident(p.queues) == Resident(r.queues) + (if t.Some? then multiset{t.value} else multiset{})
  {
    var (t, r) := WorkerStep(p, id, victim);
    if t.Some? {
      var i := if p.queues[id].items != [] then id else victim;
      var q' := LF.Pop(p.queues[i]).1;
      assert r.queues == p.queues[i := q'];
      assert p.queues[i].items == [t.value] + q'.items;
      assert LF.Contents(p.queues[i]) == LF.Contents(q') + multiset{t.value};
      GatherUpdate(p.queues, i, q', LF.Contents);
      Cancel(Resident(p.queues), Resident(r.queues) + multiset{t.value}, LF.Contents(q'));
    }
  }

  /**
   The destructor: each queue's destructor drains it, so every resident
   task is released exactly once, unexecuted, and all queues end empty.
   */
  method Destroy(p: Pool) returns (released: seq<Task>, rest: seq<LF.Tier>)
    ensures multiset(released) == Resident(p.queues)
    ensures |rest| == |p.queues| && forall i :: 0 <= i < |rest| ==> rest[i] == LF.Empty
  {
    released := [];
    rest := [];
    var i := 0;
    while i < |p.queues|
      invariant 0 <= i <= |p.queues|
      invariant multiset(released) == Resident(p.queues[..i])
      invariant |rest| == i && forall j :: 0 <= j < i ==> rest[j] == LF.Empty
    {
      var out, q' := LF.Drain(p.queues[i]);
      assert p.queues[..i + 1] == p.queues[..i] + [p.queues[i]];
      GatherAppend(p.queues[..i], p.queues[i], LF.Contents);
      released := released + out;
      rest := rest + [q'];
      i := i + 1;
    }
    assert p.queues[..i] == p.queues;
  }
}
