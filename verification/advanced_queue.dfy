/**
 The two-tier lock-free queue (`AdvancedLockFreeTaskQueue` in
 work_stealing_lockfree.cc): a local tier that only the owner uses and a
 steal tier that thieves use, both bounded FIFO queues of 1024 slots, and a
 publish step that moves a batch of the oldest local tasks to the steal tier.
 */
module AdvancedLockFreeTaskQueue {
  import opened Tasks
  import LF = LockFreeTaskQueue

  /** The largest number of tasks one `publish_tasks` call moves. */
  const BatchSize: nat := 5

  datatype TwoTier = TwoTier(local: LF.Tier, steal: LF.Tier) {
    /** Neither tier holds more tasks than it has slots. */
    predicate Valid()
    {
      local.Valid() && steal.Valid()
    }
  }

  const Empty := TwoTier(LF.Empty, LF.Empty)

  /**
   The outcome of `publish_tasks`: it either returns, or spins forever
   holding a task it popped from the local tier because the steal tier has
   no free slot (until a thief frees one).
   */
  datatype Publish =
    | Published(queue: TwoTier)
    | Stalled(queue: TwoTier, held: Task)

  /** The tasks of both tiers together. */
  function Contents(q: TwoTier): multiset<Task>
  {
    LF.Contents(q.local) + LF.Contents(q.steal)
  }

  function Min(a: nat, b: nat): nat
  {
    if a <= b then a else b
  }

  /** `push`: one attempt on the local tier; the steal tier is not touched. */
  function Push(q: TwoTier, t: Task): (r: (bool, TwoTier))
    requires q.Valid()
    ensures r.1.Valid() && r.1.steal == q.steal
    ensures (r.0, r.1.local) == LF.Push(q.local, t)
  {
    var (ok, local') := LF.Push(q.local, t);
    (ok, TwoTier(local', q.steal))
  }

  /** A push attempt never loses a task: it is resident afterwards, or still held by the caller. */
  lemma PushNeverDrops(q: TwoTier, t: Task)
    requires q.Valid()
    ensures var (ok, r) := Push(q, t);
      Contents(r) + (if ok then multiset{} else multiset{t}) == Contents(q) + multiset{t}
  {
    LF.PushNeverDrops(q.local, t);
  }

  /**
   `pop`: the owner takes the oldest local task while there is one, leaving
   the steal tier alone; only with an empty local tier does it take the
   oldest task of the steal tier; it fails only when both tiers are empty.
   */
  function Pop(q: TwoTier): (r: (Option<Task>, TwoTier))
    ensures q.local.items != [] ==>
      r.0 == Some(q.local.items[0]) && r.1.local.items == q.local.items[1..] && r.1.steal == q.steal
    ensures q.local.items == [] ==> r.1.local == q.local && (r.0, r.1.steal) == LF.Pop(q.steal)
    ensures r.0.None? <==> q.local.items == [] && q.steal.items == []
    ensures r.0.None? ==> r.1 == q
  {
    match LF.Pop(q.local)
    case (Some(t), local') => (Some(t), TwoTier(local', q.steal))
    case (None, _) =>
      match LF.Pop(q.steal)
      case (Some(t), steal') => (Some(t), TwoTier(q.local, steal'))
      case (None, _) => (None, q)
  }

  /** `steal`: a thief takes the oldest task of the steal tier; the local tier is never touched. */
  function Steal(q: TwoTier): (r: (Option<Task>, TwoTier))
    ensures r.1.local == q.local
    ensures (r.0, r.1.steal) == LF.Pop(q.steal)
  {
    var (t, steal') := LF.Pop(q.steal);
    (t, TwoTier(q.local, steal'))
  }

  /** `empty()`: both tiers are empty. */
  predicate IsEmpty(q: TwoTier): (b: bool)
    ensures b <==> Pop(q).0.None?
    ensures b <==> Steal(q).0.None? && LF.IsEmpty(q.local)
  {
    LF.IsEmpty(q.local) && LF.IsEmpty(q.steal)
  }

  /**
   The loop of `publish_tasks` after `moved` tasks: while fewer than five
   have moved and the local tier yields one, the task is pushed onto the
   steal tier, retrying while that tier is full.
   */
  function PublishFrom(q: TwoTier, moved: nat): (r: Publish)
    requires q.Valid() && moved <= BatchSize
    ensures r.queue.Valid()
    ensures var k := Min(BatchSize - moved, |q.local.items|);
      r.Published? <==> |q.steal.items| + k <= LF.Capacity
    ensures r.Published? ==>
      var k := Min(BatchSize - moved, |q.local.items|);
      r.queue.local.items == q.local.items[k..] && r.queue.steal.items == q.steal.items + q.local.items[..k]
    ensures r.Stalled? ==>
      var m := LF.Capacity - |q.steal.items|;
      && m < |q.local.items|
      && r.held == q.local.items[m]
      && r.queue.local.items == q.local.items[m + 1..]
      && r.queue.steal.items == q.steal.items + q.local.items[..m]
    decreases BatchSize - moved
  {
    if moved >= BatchSize then Published(q)
    else
      match LF.Pop(q.local)
      case (None, _) => Published(q)
      case (Some(t), local') =>
        match LF.Push(q.steal, t)
        case (true, steal') =>
          var r := PublishFrom(TwoTier(local', steal'), moved + 1);
          PublishStepShifts(q.local.items, q.steal.items, t, local'.items);
          r
        case (false, _) => Stalled(TwoTier(local', q.steal), t)
  }

  /**
   The sequence identities behind one iteration of the publish loop: after
   `t` moves from the front of `l` to the back of `s`, the rest of the loop
   works on `l[1..]` and `s + [t]`.
   */
  lemma PublishStepShifts(l: seq<Task>, s: seq<Task>, t: Task, l': seq<Task>)
    requires l == [t] + l'
    ensures forall k :: 0 <= k <= |l'| ==> l'[k..] == l[k + 1..] && s + [t] + l'[..k] == s + l[..k + 1]
    ensures forall k :: 0 <= k < |l'| ==> l'[k] == l[k + 1]
  {
    forall k | 0 <= k <= |l'|
      ensures l'[k..] == l[k + 1..] && s + [t] + l'[..k] == s + l[..k + 1]
    {
      assert l[..k + 1] == [t] + l'[..k];
    }
  }

  /** `publish_tasks`. */
  function PublishTasks(q: TwoTier): (r: Publish)
    requires q.Valid()
    ensures r.queue.Valid()
    ensures r.Published? <==> |q.steal.items| + Min(BatchSize, |q.local.items|) <= LF.Capacity
    ensures r.Stalled? ==>
      var m := LF.Capacity - |q.steal.items|;
      && m < Min(BatchSize, |q.local.items|)
      && r.held == q.local.items[m]
      && r.queue.local.items == q.local.items[m + 1..]
      && r.queue.steal.items == q.steal.items + q.local.items[..m]
  {
    PublishFrom(q, 0)
  }

  /**
   With room in the steal tier, publishing moves exactly `min(5, |local|)`
   tasks: the oldest local ones, appended in order behind the steal tier's
   tasks. It stalls exactly when the steal tier cannot take them all.
   */
  lemma PublishMovesBatch(q: TwoTier)
    requires q.Valid()
    ensures var k := Min(BatchSize, |q.local.items|);
      && (PublishTasks(q).Published? <==> |q.steal.items| + k <= LF.Capacity)
      && (PublishTasks(q).Published? ==>
            PublishTasks(q).queue.local.items == q.local.items[k..]
            && PublishTasks(q).queue.steal.items == q.steal.items + q.local.items[..k]
            && |PublishTasks(q).queue.steal.items| == |q.steal.items| + k)
  {
  }

  /**
   Publishing is a move, not a copy: the two tiers together keep exactly
   their tasks, or, on a stall, all but the one the publisher holds.
   */
  lemma PublishConserves(q: TwoTier)
    requires q.Valid()
    ensures PublishTasks(q).Published? ==> Contents(PublishTasks(q).queue) == Contents(q)
    ensures PublishTasks(q).Stalled? ==>
      Contents(PublishTasks(q).queue) + multiset{PublishTasks(q).held} == Contents(q)
  {
    var r := PublishFrom(q, 0);
    if r.Published? {
      MoveConserves(q.local.items, q.steal.items, Min(BatchSize, |q.local.items|));
    } else {
      StallConserves(q.local.items, q.steal.items, LF.Capacity - |q.steal.items|);
    }
  }

  /** Moving the first `k` tasks of `l` behind `s` keeps the tasks of both together. */
  lemma MoveConserves(l: seq<Task>, s: seq<Task>, k: nat)
    requires k <= |l|
    ensures multiset(l[k..]) + multiset(s + l[..k]) == multiset(l) + multiset(s)
  {
    SplitMultiset(l, k);
  }

  /** Moving the first `m` tasks of `l` behind `s` and holding the next keeps them all. */
  lemma StallConserves(l: seq<Task>, s: seq<Task>, m: nat)
    requires m < |l|
    ensures multiset(l[m + 1..]) + multiset(s + l[..m]) + multiset{l[m]} == multiset(l) + multiset(s)
  {
    SplitMultiset(l, m);
    assert l[m..] == [l[m]] + l[m + 1..];
  }

  /** Cutting a sequence in two splits its multiset in two. */
  lemma SplitMultiset(l: seq<Task>, k: nat)
    requires k <= |l|
    ensures multiset(l) == multiset(l[..k]) + multiset(l[k..])
  {
    assert l == l[..k] + l[k..];
  }

  /**
   A task is never visible in both tiers: if no task occurs twice in the
   queue before publishing, none does afterwards, in particular none is in
   the local and the steal tier at once.
   */
  lemma PublishKeepsTiersDisjoint(q: TwoTier)
    requires q.Valid() && NoDuplicates(Contents(q))
    ensures NoDuplicates(Contents(PublishTasks(q).queue))
    ensures forall t :: t in PublishTasks(q).queue.local.items ==> t !in PublishTasks(q).queue.steal.items
  {
    PublishConserves(q);
    var r := PublishTasks(q).queue;
    var extra := if PublishTasks(q).Stalled? then multiset{PublishTasks(q).held} else multiset{};
    assert Contents(r) + extra == Contents(q);
    forall t
      ensures Contents(r)[t] <= 1
    {
      assert Contents(q)[t] == Contents(r)[t] + extra[t];
    }
    forall t | t in r.local.items
      ensures t !in r.steal.items
    {
      assert Contents(r)[t] == multiset(r.local.items)[t] + multiset(r.steal.items)[t];
    }
  }

  /** `empty()` holds exactly when no task is resident in either tier. */
  lemma EmptyIffNoTasks(q: TwoTier)
    ensures IsEmpty(q) <==> Contents(q) == multiset{}
  {
    if Contents(q) == multiset{} {
      assert |LF.Contents(q.local)| == 0 && |LF.Contents(q.steal)| == 0;
    }
  }

  /** A successful `pop` or `steal` removes exactly the returned task from the queue. */
  lemma PopAndStealRemoveOne(q: TwoTier)
    ensures var (t, r) := Pop(q);
      Contents(q) == Contents(r) + (if t.Some? then multiset{t.value} else multiset{})
    ensures var (t, r) := Steal(q);
      Contents(q) == Contents(r) + (if t.Some? then multiset{t.value} else multiset{})
  {
    var (t, r) := Pop(q);
    if q.local.items != [] {
      assert q.local.items == [t.value] + r.local.items;
    } else if t.Some? {
      assert q.steal.items == [t.value] + r.steal.items;
    }
  }

  /**
   The destructor: drains the local tier, then the steal tier, releasing
   every resident task exactly once without running it; both tiers end empty.
   */
  method Destroy(q: TwoTier) returns (released: seq<Task>, rest: TwoTier)
    ensures released == q.local.items + q.steal.items
    ensures multiset(released) == Contents(q)
    ensures rest == Empty && IsEmpty(rest)
  {
    var fromLocal, local' := LF.Drain(q.local);
    var fromSteal, steal' := LF.Drain(q.steal);
    released := fromLocal + fromSteal;
    rest := TwoTier(local', steal');
  }
}
