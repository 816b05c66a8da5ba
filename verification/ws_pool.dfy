/**
 The locking pool (`ThreadPool` in work_stealing_queue.cc): one deque per
 worker, round-robin submission, and the worker loop's step: pop from the own
 deque, otherwise try every deque once in rotated order, starting at the
 worker's own, and take the first task a steal yields.
 */
module ThreadPool {
  import opened Tasks
  import opened WorkStealingQueue
  import RoundRobin

  /** The deques, one per worker, and the submission counter (`static index`). */
  datatype Pool = Pool(queues: seq<Deque>, counter: nat) {
    /** A pool has at least one worker; its deques are allocated once and never resized. */
    predicate Valid()
    {
      |queues| >= 1
    }
  }

  /** The outcome of an idle worker's scan over its peers. */
  datatype Scan =
    | Missed
    | Stole(task: Task, offset: nat, queues: seq<Deque>)

  /** All tasks resident in the pool's deques. */
  function Resident(qs: seq<Deque>): multiset<Task>
  {
    Gather(qs, Contents)
  }

  /** A pool of `n` workers with empty deques. */
  function New(n: nat): (p: Pool)
    requires n >= 1
    ensures p.Valid() && |p.queues| == n && p.counter == 0
    ensures forall i :: 0 <= i < n ==> p.queues[i].items == []
  {
    Pool(seq(n, _ => Empty), 0)
  }

  /**
   `submit`: the task goes to the front of deque `counter mod n`, the counter
   advances by one, and no other deque changes.
   */
  function Submit(p: Pool, t: Task): (r: Pool)
    requires p.Valid()
    ensures r.Valid() && |r.queues| == |p.queues| && r.counter == p.counter + 1
    ensures var i := p.counter % |p.queues|;
      r.queues[i] == Push(p.queues[i], t)
      && forall j :: 0 <= j < |p.queues| && j != i ==> r.queues[j] == p.queues[j]
  {
    var i := RoundRobin.Target(p.counter, |p.queues|);
    Pool(p.queues[i := Push(p.queues[i], t)], p.counter + 1)
  }

  /** Submits `ts` one after another, `ts[0]` first. */
  function SubmitAll(p: Pool, ts: seq<Task>): (r: Pool)
    requires p.Valid()
    ensures r.Valid() && |r.queues| == |p.queues| && r.counter == p.counter + |ts|
    decreases |ts|
  {
    if ts == [] then p else Submit(SubmitAll(p, ts[..|ts| - 1]), ts[|ts| - 1])
  }

  /**
   The steal attempts of idle worker `index` from the `i`-th position of its
   rotation on: it tries deque `(index + k) mod n` for `k = i, i+1, ...` and
   stops at the first steal that succeeds.
   */
  function ScanFrom(qs: seq<Deque>, index: nat, i: nat): (r: Scan)
    requires index < |qs| && i <= |qs|
    ensures r.Missed? ==> forall k :: i <= k < |qs| ==> qs[RoundRobin.Probe(index, k, |qs|)].items == []
    ensures r.Stole? ==>
      && i <= r.offset < |qs| && |r.queues| == |qs|
      && (forall k :: i <= k < r.offset ==> qs[RoundRobin.Probe(index, k, |qs|)].items == [])
      && var v := RoundRobin.Probe(index, r.offset, |qs|);
         Steal(qs[v]) == (Some(r.task), r.queues[v]) && r.queues == qs[v := r.queues[v]]
    decreases |qs| - i
  {
    if i == |qs| then Missed
    else
      var v := RoundRobin.Probe(index, i, |qs|);
      match Steal(qs[v])
      case (Some(t), q') => Stole(t, i, qs[v := q'])
      case (None, _) => ScanFrom(qs, index, i + 1)
  }

  /** The whole scan of idle worker `index`, starting with its own deque. */
  function IdleScan(qs: seq<Deque>, index: nat): (r: Scan)
    requires index < |qs|
    ensures r.Missed? ==> forall k :: 0 <= k < |qs| ==> qs[RoundRobin.Probe(index, k, |qs|)].items == []
    ensures r.Stole? ==>
      && r.offset < |qs| && |r.queues| == |qs|
      && (forall k :: 0 <= k < r.offset ==> qs[RoundRobin.Probe(index, k, |qs|)].items == [])
      && var v := RoundRobin.Probe(index, r.offset, |qs|);
         Steal(qs[v]) == (Some(r.task), r.queues[v]) && r.queues == qs[v := r.queues[v]]
  {
    ScanFrom(qs, index, 0)
  }

  /**
   The scan tries every deque exactly once, its own first, and misses only
   when every deque is empty; a hit takes the back task of the first
   non-empty deque in rotation order and changes no other deque.
   */
  lemma IdleScanCoversAll(qs: seq<Deque>, index: nat)
    requires index < |qs|
    ensures RoundRobin.Rotation(index, |qs|)[0] == index
    ensures forall j :: 0 <= j < |qs| ==> j in RoundRobin.Rotation(index, |qs|)
    ensures forall a, b :: 0 <= a < b < |qs| ==>
      RoundRobin.Rotation(index, |qs|)[a] != RoundRobin.Rotation(index, |qs|)[b]
    ensures IdleScan(qs, index).Missed? <==> forall j :: 0 <= j < |qs| ==> qs[j].items == []
    ensures IdleScan(qs, index).Stole? ==>
      var s := IdleScan(qs, index);
      var v := RoundRobin.Rotation(index, |qs|)[s.offset];
      && qs[v].items != []
      && Some(s.task) == Steal(qs[v]).0
      && (forall k :: 0 <= k < s.offset ==> qs[RoundRobin.Rotation(index, |qs|)[k]].items == [])
      && (forall j :: 0 <= j < |qs| && j != v ==> s.queues[j] == qs[j])
  {
    var n := |qs|;
    RoundRobin.RotationVisitsEachOnce(index, n);
    var rot := RoundRobin.Rotation(index, n);
    var s := IdleScan(qs, index);
    if s.Missed? {
      forall j | 0 <= j < n
        ensures qs[j].items == []
      {
        var k := RoundRobin.Offset(index, j, n);
        assert qs[RoundRobin.Probe(index, k, n)].items == [];
      }
    }
  }

  /**
   One turn of the worker loop of worker `index`: its own front task if its
   deque is non-empty, else the result of the rotated scan.
   */
  function WorkerStep(p: Pool, index: nat): (r: (Option<Task>, Pool))
    requires p.Valid() && index < |p.queues|
    ensures r.1.Valid() && |r.1.queues| == |p.queues| && r.1.counter == p.counter
    ensures p.queues[index].items != [] ==>
      r == (Some(p.queues[index].items[0]), p.(queues := p.queues[index := Pop(p.queues[index]).1]))
    ensures p.queues[index].items == [] && IdleScan(p.queues, index).Stole? ==>
      r == (Some(IdleScan(p.queues, index).task), p.(queues := IdleScan(p.queues, index).queues))
    ensures p.queues[index].items == [] && IdleScan(p.queues, index).Missed? ==> r == (None, p)
  {
    match Pop(p.queues[index])
    case (Some(t), q') => (Some(t), p.(queues := p.queues[index := q']))
    case (None, _) =>
      match IdleScan(p.queues, index)
      case Missed => (None, p)
      case Stole(t, _, qs) => (Some(t), p.(queues := qs))
  }

  /** A worker finds nothing exactly when every deque of the pool is empty. */
  lemma WorkerStepIdleIffDrained(p: Pool, index: nat)
    requires p.Valid() && index < |p.queues|
    ensures WorkerStep(p, index).0.None? <==> forall j :: 0 <= j < |p.queues| ==> p.queues[j].items == []
  {
    IdleScanCoversAll(p.queues, index);
  }

  /** The task a worker step claims leaves the pool; every other resident task stays. */
  lemma WorkerStepClaimsOne(p: Pool, index: nat)
    requires p.Valid() && index < |p.queues|
    ensures var (t, r) := WorkerStep(p, index);
      Resident(p.queues) == Resident(r.queues) + (if t.Some? then multiset{t.value} else multiset{})
  {
    var (t, r) := WorkerStep(p, index);
    if t.Some? {
      var v, q' := TakenFrom(p, index);
      assert r.queues == p.queues[v := q'];
      GatherUpdate(p.queues, v, q', Contents);
      Cancel(Resident(p.queues), Resident(r.queues) + multiset{t.value}, Contents(q'));
    }
  }

  /**
   When a worker turn obtains a task, the one deque it changed and that
   deque's new state: the task was taken from it and nothing else was.
   */
  lemma TakenFrom(p: Pool, index: nat) returns (v: nat, q': Deque)
    requires p.Valid() && index < |p.queues| && WorkerStep(p, index).0.Some?
    ensures v < |p.queues| && WorkerStep(p, index).1.queues == p.queues[v := q']
    ensures Contents(p.queues[v]) == Contents(q') + multiset{WorkerStep(p, index).0.value}
  {
    var t := WorkerStep(p, index).0.value;
    if p.queues[index].items != [] {
      v, q' := index, Pop(p.queues[index]).1;
      assert Contents(p.queues[v]) == Contents(q') + multiset{t} by {
        assert p.queues[v].items == [t] + q'.items;
      }
    } else {
      var s := IdleScan(p.queues, index);
      v := RoundRobin.Probe(index, s.offset, |p.queues|);
      q' := s.queues[v];
      assert Contents(p.queues[v]) == Contents(q') + multiset{t} by {
        assert p.queues[v].items == q'.items + [t];
      }
    }
  }

  /** A submission adds exactly the submitted task to the resident tasks. */
  lemma SubmitAddsOne(p: Pool, t: Task)
    requires p.Valid()
    ensures Resident(Submit(p, t).queues) == Resident(p.queues) + multiset{t}
  {
    var i := p.counter % |p.queues|;
    var q := Push(p.queues[i], t);
    assert Submit(p, t).queues == p.queues[i := q];
    assert Contents(q) == Contents(p.queues[i]) + multiset{t};
    GatherUpdate(p.queues, i, q, Contents);
    Cancel(Resident(Submit(p, t).queues), Resident(p.queues) + multiset{t}, Contents(p.queues[i]));
  }

  /**
   Round-robin distribution: after `k <= n` consecutive submissions, deque
   `j` has received exactly one of them, the one numbered by `j`'s offset
   from the counter, if that offset is below `k`, and none otherwise.
   */
  lemma {:induction false} RoundRobinPrefix(p: Pool, ts: seq<Task>)
    requires p.Valid() && |ts| <= |p.queues|
    ensures forall j :: 0 <= j < |p.queues| ==>
      var k := RoundRobin.Offset(p.counter, j, |p.queues|);
      SubmitAll(p, ts).queues[j] == if k < |ts| then Push(p.queues[j], ts[k]) else p.queues[j]
    decreases |ts|
  {
    var n := |p.queues|;
    if ts != [] {
      var m := |ts| - 1;
      var prev := SubmitAll(p, ts[..m]);
      RoundRobinPrefix(p, ts[..m]);
      var i := RoundRobin.Probe(p.counter, m, n);
      assert prev.counter % n == i;
      RoundRobin.OffsetUnique(p.counter, m, n);
      forall j | 0 <= j < n
        ensures var k := RoundRobin.Offset(p.counter, j, n);
          SubmitAll(p, ts).queues[j] == if k < |ts| then Push(p.queues[j], ts[k]) else p.queues[j]
      {
        var k := RoundRobin.Offset(p.counter, j, n);
        if j == i {
          assert k == m;
        } else {
          assert k != m;
          if k < m {
            assert ts[..m][k] == ts[k];
          }
        }
      }
    }
  }

  /** Any `n` consecutive submissions give each of the `n` deques exactly one task. */
  lemma RoundRobinFull(p: Pool, ts: seq<Task>)
    requires p.Valid() && |ts| == |p.queues|
    ensures forall j :: 0 <= j < |p.queues| ==>
      exists k :: 0 <= k < |ts| && SubmitAll(p, ts).queues[j] == Push(p.queues[j], ts[k])
  {
    RoundRobinPrefix(p, ts);
    forall j | 0 <= j < |p.queues|
      ensures exists k :: 0 <= k < |ts| && SubmitAll(p, ts).queues[j] == Push(p.queues[j], ts[k])
    {
      var k := RoundRobin.Offset(p.counter, j, |p.queues|);
      assert SubmitAll(p, ts).queues[j] == Push(p.queues[j], ts[k]);
    }
  }

  /**
   A run of the pool as seen from outside: the pool, every task submitted so
   far, and every task a worker has claimed (and runs, or has run).
   */
  datatype Run = Run(pool: Pool, submitted: seq<Task>, claimed: seq<Task>)

  /** Tasks are conserved: resident plus claimed tasks are exactly the submitted ones. */
  ghost predicate Conserved(r: Run)
  {
    Resident(r.pool.queues) + multiset(r.claimed) == multiset(r.submitted)
  }

  /** A caller submits `t`. */
  function RunSubmit(r: Run, t: Task): (r': Run)
    requires r.pool.Valid()
    ensures r'.pool.Valid() && r'.submitted == r.submitted + [t] && r'.claimed == r.claimed
    ensures r'.pool == Submit(r.pool, t)
  {
    Run(Submit(r.pool, t), r.submitted + [t], r.claimed)
  }

  /** Worker `index` takes one turn; a task it obtains is claimed. */
  function RunWorker(r: Run, index: nat): (r': Run)
    requires r.pool.Valid() && index < |r.pool.queues|
    ensures r'.pool.Valid() && r'.submitted == r.submitted
    ensures r'.pool == WorkerStep(r.pool, index).1
    ensures r'.claimed == r.claimed + (if WorkerStep(r.pool, index).0.Some? then [WorkerStep(r.pool, index).0.value] else [])
  {
    match WorkerStep(r.pool, index)
    case (Some(t), p') => Run(p', r.submitted, r.claimed + [t])
    case (None, p') => Run(p', r.submitted, r.claimed)
  }

  /** A fresh pool, before anything is submitted or claimed, conserves tasks. */
  lemma InitConserved(n: nat)
    requires n >= 1
    ensures Conserved(Run(New(n), [], []))
  {
    GatherEmpty(New(n).queues, Contents);
  }

  /** Both kinds of step keep tasks conserved. */
  lemma StepsConserve(r: Run, t: Task, index: nat)
    requires r.pool.Valid() && index < |r.pool.queues| && Conserved(r)
    ensures Conserved(RunSubmit(r, t))
    ensures Conserved(RunWorker(r, index))
  {
    SubmitAddsOne(r.pool, t);
    WorkerStepClaimsOne(r.pool, index);
  }

  /**
   No double delivery: when every submitted task is distinct, no task is
   claimed twice and no claimed task is still resident in a deque.
   */
  lemma NoDoubleDelivery(r: Run)
    requires Conserved(r) && NoDuplicates(multiset(r.submitted))
    ensures NoDuplicates(multiset(r.claimed))
    ensures forall t :: t in r.claimed ==> t !in Resident(r.pool.queues)
  {
    var res := Resident(r.pool.queues);
    forall t | t in r.claimed
      ensures t !in res
    {
      assert multiset(r.submitted)[t] == res[t] + multiset(r.claimed)[t];
    }
    forall t
      ensures multiset(r.claimed)[t] <= 1
    {
      assert multiset(r.submitted)[t] == res[t] + multiset(r.claimed)[t];
    }
  }
}
