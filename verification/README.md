# Work-stealing task queues: a verified sequential model

This project models the scheduling core of a small C++ work-stealing thread
pool in Dafny: the per-worker task queues, where the pools place submitted
tasks, and which queue an idle worker takes work from. Tasks are opaque
identifiers (`Task = nat`) and every queue is an immutable sequence. Each
queue or pool operation is one pure step from a pre-state to a post-state.
The source's locks and atomics only make those steps atomic, so they do not
appear.

Two queue families are modelled:

- **Mutex-guarded deque** (`WorkStealingQueue`, `ThreadPool` in
  `work_stealing_queue.cc`). The owner pushes and pops at the front, so it
  sees its own tasks in LIFO order. Thieves steal at the back, so they get
  the oldest task. Submissions are placed round-robin. An idle worker tries
  every deque once, in rotated order starting with its own.
- **Boost lock-free queues** (`work_stealing_lockfree.cc`).
  `LockFreeTaskQueue` is a bounded FIFO with 1024 slots. A push into a full
  queue fails and is retried, so nothing is dropped.
  `AdvancedLockFreeTaskQueue` has a private local tier and a stealable tier,
  each of the same bounded type:
  - `pop` prefers the local tier.
  - `steal` only touches the steal tier.
  - `publish_tasks` moves at most five of the oldest local tasks to the
    steal tier.
  - The destructor drains both tiers.

  The two lock-free pools (`SimpleLockFreeThreadPool` and
  `AdvancedLockFreeThreadPool`) also place tasks round-robin. An idle worker
  makes one attempt on a victim it draws at random; here the draw is a
  parameter.

Files and modules:

| file | module | models |
|---|---|---|
| tasks.dfy | `Tasks` | task ids, `Option`, reversal, the multiset of tasks in a sequence of queues |
| round_robin.dfy | `RoundRobin` | `counter % n` placement and the rotated scan order `(index + i) % n` |
| ws_queue.dfy | `WorkStealingQueue` | the mutex-guarded deque |
| ws_pool.dfy | `ThreadPool` | the locking pool: submit, rotated steal scan, worker turn, conservation |
| lockfree_queue.dfy | `LockFreeTaskQueue` | the bounded Boost FIFO and its destructor |
| advanced_queue.dfy | `AdvancedLockFreeTaskQueue` | the two-tier queue and `publish_tasks` |
| simple_pool.dfy | `SimpleLockFreeThreadPool` | submit and one `simple_worker` turn |
| advanced_pool.dfy | `AdvancedLockFreeThreadPool` | submit, one `advanced_worker` turn, `all_queues_empty`, destruction |

Points where the code does something its own comments or the sibling pools
do not suggest:

- In both lock-free pools the comments above the steal attempt
  (work_stealing_lockfree.cc:179 and :252) speak of stealing from *other*
  queues and threads. The code draws the victim from all of `0..n-1` (:169,
  :241) and skips the attempt when the draw is the worker itself (:182,
  :255; `SelfVictimNoSteal`). With one worker, nothing is ever stolen.
- The comment at work_stealing_lockfree.cc:102 says `publish_tasks` moves
  half of the local tasks to the steal tier. The loop at :106 stops after five
  (`local_size < 5`), whatever the local tier holds (`PublishMovesBatch`).
- The lock-free pools make a single random steal attempt per idle turn. The
  locking pool instead scans every deque in rotated order and stops at the
  first successful steal (work_stealing_queue.cc:74-79).
- `SimpleLockFreeThreadPool` has no steal operation. It takes the victim's
  oldest task with the victim's own `pop`.
- The scan in the locking pool starts at the worker's own deque, which its
  `pop` has just found empty. In a one-step model that first probe always
  misses. In the source, a concurrent push can land between the two.

## Model

| member | source | states |
|---|---|---|
| WorkStealingQueue.Push | work_stealing_queue.cc:13-16 | the pushed task becomes the front and the old tasks stay behind it in order |
| WorkStealingQueue.Pop | work_stealing_queue.cc:18-24 | fails exactly on an empty deque and then changes nothing; otherwise returns the front task and the rest of the deque |
| WorkStealingQueue.Steal | work_stealing_queue.cc:26-32 | fails exactly on an empty deque and then changes nothing; otherwise returns the back task and the rest of the deque |
| WorkStealingQueue.PushPopRoundTrip | work_stealing_queue.cc:13-24 | pop right after push returns the pushed task and the deque as it was before the push |
| WorkStealingQueue.PushAllItems | work_stealing_queue.cc:13-16 | a run of pushes leaves the pushed tasks newest-first in front of the old ones |
| WorkStealingQueue.PopReturnsNewest | work_stealing_queue.cc:13-24 | after any run of pushes, the owner's next pop returns the last task pushed |
| WorkStealingQueue.StealReturnsOldest | work_stealing_queue.cc:13-32 | pushes never change what a thief takes next: the oldest task already resident |
| WorkStealingQueue.OwnerOrderIsFrontToBack | work_stealing_queue.cc:18-24 | popping until empty yields the deque front to back |
| WorkStealingQueue.ThiefOrderIsBackToFront | work_stealing_queue.cc:26-32 | stealing until empty yields the deque back to front |
| WorkStealingQueue.OwnerSeesLifo | work_stealing_queue.cc:13-24 | the owner pops its pushes in reverse push order (LIFO) |
| WorkStealingQueue.ThiefSeesFifo | work_stealing_queue.cc:13-32 | thieves steal the owner's pushes in push order (FIFO) |
| WorkStealingQueue.RemovesExactlyOne | work_stealing_queue.cc:18-32 | a successful pop or steal removes exactly the returned task, keeps the others in order, and shortens the deque by one |
| WorkStealingQueue.EmptyFailsUnchanged | work_stealing_queue.cc:18-32 | pop and steal on an empty deque fail and leave it unchanged |
| RoundRobin.Target | work_stealing_queue.cc:59-60 | the placement index is a valid queue index |
| RoundRobin.RotationVisitsEachOnce | work_stealing_queue.cc:74-75 | the scan order starts at the worker's own index, stays in range, contains every index and repeats none |
| RoundRobin.Offset | work_stealing_queue.cc:74-75 | every queue index is reached at some position below `n` of the rotation |
| RoundRobin.OffsetUnique | work_stealing_queue.cc:58-60 | the position at which a rotation reaches a queue is unique |
| ThreadPool.New | work_stealing_queue.cc:41-47 | a pool of `n >= 1` workers starts with `n` empty deques and counter 0 |
| ThreadPool.Submit | work_stealing_queue.cc:56-61 | the task is pushed onto deque `counter mod n`, the counter advances by one, and no other deque changes |
| ThreadPool.SubmitAll | work_stealing_queue.cc:56-61 | a run of submissions advances the counter by its length and keeps the number of deques |
| ThreadPool.RoundRobinPrefix | work_stealing_queue.cc:58-60 | after `k <= n` submissions each deque has received exactly the submission at its rotation offset if that offset is below `k`, otherwise none |
| ThreadPool.RoundRobinFull | work_stealing_queue.cc:58-60 | any `n` consecutive submissions give every deque exactly one task |
| ThreadPool.ScanFrom | work_stealing_queue.cc:74-79 | the scan misses only if every deque from the current position on is empty; a hit is the back task of the first non-empty deque in rotation order, and only that deque changes |
| ThreadPool.IdleScan | work_stealing_queue.cc:74-79 | the scan probes deque `(index + k) mod n` for `k = 0, 1, ...`; a miss means every probe was empty, a hit means the earlier probes were empty and the task is the back of the probed deque, the only one changed |
| ThreadPool.IdleScanCoversAll | work_stealing_queue.cc:74-79 | the idle scan visits every deque exactly once starting with the worker's own, misses iff all deques are empty, and steals from the first non-empty one |
| ThreadPool.WorkerStep | work_stealing_queue.cc:64-80 | a worker with a non-empty deque takes its front task; with an empty deque it takes exactly the task and deques of the idle scan's steal, and when the scan misses the pool is unchanged |
| ThreadPool.TakenFrom | work_stealing_queue.cc:69-79 | a turn that obtains a task changed exactly one deque, its own or the scan's victim, and removed exactly that task from it |
| ThreadPool.WorkerStepIdleIffDrained | work_stealing_queue.cc:69-80 | a worker's turn finds no task exactly when every deque in the pool is empty |
| ThreadPool.WorkerStepClaimsOne | work_stealing_queue.cc:69-80 | the task a turn obtains leaves the pool and every other resident task stays |
| ThreadPool.SubmitAddsOne | work_stealing_queue.cc:56-61 | a submission adds exactly the submitted task to the resident tasks |
| ThreadPool.RunSubmit | work_stealing_queue.cc:56-61 | a submission step leaves the pool as `submit` leaves it (pushed onto deque `counter mod n`, counter advanced), records the task as submitted and claims nothing |
| ThreadPool.RunWorker | work_stealing_queue.cc:64-83 | a worker turn leaves the pool as the step leaves it, appends the obtained task (if any) to the claimed tasks, and submits nothing |
| ThreadPool.InitConserved | work_stealing_queue.cc:41-47 | a fresh pool of `n` empty deques, with nothing submitted or claimed, conserves tasks, so conservation holds from the start |
| ThreadPool.StepsConserve | work_stealing_queue.cc:56-83 | resident plus claimed tasks stay equal to the submitted tasks across submissions and worker turns |
| ThreadPool.NoDoubleDelivery | work_stealing_queue.cc:18-32 | with distinct submissions, no task is claimed twice and no claimed task is still resident |
| LockFreeTaskQueue.Push | work_stealing_lockfree.cc:17-23 | one push attempt succeeds exactly when a slot is free and appends the task; on a full queue nothing changes; the 1024-slot bound is kept |
| LockFreeTaskQueue.Pop | work_stealing_lockfree.cc:25-33 | fails exactly on an empty queue and then changes nothing; otherwise returns the oldest task and the rest |
| LockFreeTaskQueue.IsEmpty | work_stealing_lockfree.cc:35-37 | `empty()` holds exactly when a `pop` would fail |
| LockFreeTaskQueue.EmptyIffPopFails | work_stealing_lockfree.cc:35-37 | `empty()` holds exactly when pop fails, that is, when no task is resident |
| LockFreeTaskQueue.Drain | work_stealing_lockfree.cc:39-45 | the destructor releases every resident task exactly once, oldest first, and leaves the queue empty |
| LockFreeTaskQueue.PushAllItems | work_stealing_lockfree.cc:17-23 | pushes that fit the capacity append the tasks in push order |
| LockFreeTaskQueue.PopOrderIsOldestFirst | work_stealing_lockfree.cc:25-33 | popping until empty yields the queue oldest first |
| LockFreeTaskQueue.FifoOrder | work_stealing_lockfree.cc:17-33 | tasks are popped in the order they were pushed (FIFO) |
| LockFreeTaskQueue.PushPopCommute | work_stealing_lockfree.cc:17-33 | a push does not change what the next pop of a non-empty queue returns; on an empty queue pop returns the pushed task |
| LockFreeTaskQueue.PushNeverDrops | work_stealing_lockfree.cc:17-23 | a push attempt loses no task: it is resident afterwards or still held by the caller for the retry |
| AdvancedLockFreeTaskQueue.Push | work_stealing_lockfree.cc:59-64 | a push attempt goes to the local tier and never touches the steal tier |
| AdvancedLockFreeTaskQueue.PushNeverDrops | work_stealing_lockfree.cc:59-64 | a push attempt loses no task: it is resident afterwards or still held by the caller |
| AdvancedLockFreeTaskQueue.Pop | work_stealing_lockfree.cc:66-86 | pop takes the oldest local task whenever the local tier is non-empty and leaves the steal tier unchanged; otherwise it pops the steal tier; it fails exactly when both tiers are empty |
| AdvancedLockFreeTaskQueue.Steal | work_stealing_lockfree.cc:89-97 | steal pops only the steal tier and never changes the local tier |
| AdvancedLockFreeTaskQueue.PublishFrom | work_stealing_lockfree.cc:100-113 | the publish loop completes iff the steal tier has room for `min(5 - moved, local size)` tasks; then those oldest local tasks are appended in order to the steal tier; otherwise it stalls holding the first task that found the steal tier full |
| AdvancedLockFreeTaskQueue.PublishTasks | work_stealing_lockfree.cc:100-113 | publishing completes exactly when the steal tier has room for `min(5, local size)` tasks; otherwise it stalls after moving as many oldest local tasks as fit, holding the next one |
| AdvancedLockFreeTaskQueue.PublishMovesBatch | work_stealing_lockfree.cc:100-113 | with room, publish moves exactly `min(5, local size)` oldest local tasks, in order, to the back of the steal tier; it stalls exactly when there is no room |
| AdvancedLockFreeTaskQueue.PublishConserves | work_stealing_lockfree.cc:100-113 | publish is a move, not a copy: both tiers together keep their tasks, apart from the one a stalled publisher holds |
| AdvancedLockFreeTaskQueue.PublishKeepsTiersDisjoint | work_stealing_lockfree.cc:100-113 | if no task was duplicated before publishing, none is afterwards, and no task is in both tiers |
| AdvancedLockFreeTaskQueue.IsEmpty | work_stealing_lockfree.cc:115-117 | `empty()` holds exactly when the owner's `pop` would fail, and exactly when a `steal` would fail and the local tier is empty |
| AdvancedLockFreeTaskQueue.EmptyIffNoTasks | work_stealing_lockfree.cc:115-117 | `empty()` holds exactly when neither tier holds a task |
| AdvancedLockFreeTaskQueue.PopAndStealRemoveOne | work_stealing_lockfree.cc:66-97 | a pop or steal removes exactly the task it returns and nothing else |
| AdvancedLockFreeTaskQueue.Destroy | work_stealing_lockfree.cc:119-128 | the destructor releases local then steal tasks, each exactly once, and leaves both tiers empty |
| SimpleLockFreeThreadPool.PushAt | work_stealing_lockfree.cc:17-23 | a push attempt, or a retry of one, on queue `i` changes only that queue and keeps every queue within capacity |
| SimpleLockFreeThreadPool.Submit | work_stealing_lockfree.cc:159-163 | the task is offered to queue `counter mod n`, the counter advances, and no other queue changes |
| SimpleLockFreeThreadPool.PushAtNeverDrops | work_stealing_lockfree.cc:159-163 | a submission attempt succeeds iff the target queue has a free slot, and the task is then resident or still held for the retry |
| SimpleLockFreeThreadPool.WorkerStep | work_stealing_lockfree.cc:171-185 | a worker takes its own oldest task if it has one; otherwise a victim equal to itself means no attempt and no change, and any other victim is popped once |
| SimpleLockFreeThreadPool.WorkerStepClaimsOne | work_stealing_lockfree.cc:175-185 | the task a turn obtains leaves the pool and every other resident task stays |
| SimpleLockFreeThreadPool.Destroy | work_stealing_lockfree.cc:39-45 | destroying the queues releases every resident task of the pool exactly once and leaves all queues empty |
| AdvancedLockFreeThreadPool.PushAt | work_stealing_lockfree.cc:59-64 | a push attempt, or a retry of one, on queue `i` changes only that queue's local tier and keeps every tier within capacity |
| AdvancedLockFreeThreadPool.Submit | work_stealing_lockfree.cc:227-231 | the task is offered to queue `counter mod n`, the counter advances, and no other queue changes |
| AdvancedLockFreeThreadPool.PushAtNeverDrops | work_stealing_lockfree.cc:227-231 | a submission attempt succeeds iff the target local tier has a free slot, and the task is then resident or still held for the retry |
| AdvancedLockFreeThreadPool.WorkerStep | work_stealing_lockfree.cc:243-259 | a worker whose own pop succeeds takes that task; otherwise a victim equal to itself means no attempt and no change, and any other victim gets one steal |
| AdvancedLockFreeThreadPool.SelfVictimNoSteal | work_stealing_lockfree.cc:254-259 | a worker with an empty queue that draws itself as victim finds nothing and changes nothing |
| AdvancedLockFreeThreadPool.WorkerStepClaimsOne | work_stealing_lockfree.cc:248-259 | the task a turn obtains leaves the pool and every other resident task stays |
| AdvancedLockFreeThreadPool.AllQueuesEmpty | work_stealing_lockfree.cc:288-295 | true exactly when every queue's `empty()` holds, that is, when no task is resident in the pool |
| AdvancedLockFreeThreadPool.Destroy | work_stealing_lockfree.cc:119-128 | destroying the queues releases every resident task of the pool exactly once and leaves every queue empty |

## Left out

- Threads, `std::atomic`, mutexes, `join`, the timing of the `done_` flag, and the `sleep_for`/`yield` back-off. These only make each step atomic or pace the loops, so each operation is one atomic step.
- The random victim draw (`std::random_device`, `mt19937`, `uniform_int_distribution`). The victim is a parameter with `0 <= victim < n`. The data race on the advanced pool's shared `rng_` is also left out.
- Running task bodies and the heap `new`/`delete` of task handles. A task is owned by whichever queue holds its id; "released" means removed by a destructor without being run.
- Wrap-around of the `size_t` submission counter. The counter is a `nat`.
- Pools with zero workers. `num_threads` can be 0 from `hardware_concurrency()`, and the source then takes `% 0`. Every pool requires `n >= 1`.
- The counter is a field of each pool. In the source it is a function-local `static`, shared by every pool of the same class.
- The retry loops of `push`, `submit` and `publish_tasks` are not unrolled. One attempt on a full queue is modelled as "no change, the caller still holds the task" (`PushAt` retries on the same queue index). A publisher spinning on a full steal tier is the `Stalled` outcome.
- The null-pointer test in `pop(ptr) && ptr`. `new` never yields null, so every slot holds a task.
- The `task_publisher` thread loop. It only calls `publish_tasks` on every queue once a millisecond, and `publish_tasks` itself is modelled.
- `wait_empty`. It polls `all_queues_empty` with a sleep; `all_queues_empty` is modelled.
- The locking pool's destructor. It only sets `done_` and joins; the `std::deque` members then drop their resident tasks with no code of the repository's own.
- Constructors of the lock-free pools. They create the vector holding `n` empty queues, as `ThreadPool.New` does, start the threads, and (in the advanced pool) seed `rng_` from `std::random_device`; threads and the random draw are left out above.
- The Boost queue internals (node pool, compare-and-swap). They are modelled as a bounded sequence with 1024 usable slots.
- The example and test drivers (`main`, `example_task`, `test_simple_pool`, `test_advanced_pool`), which only print and sleep.
- `most_winapis_it.cc`, `windows_timer.cc` and `drawable.cc` (GUI, crypto and upload wrappers, a timer demo, a virtual-call demo). They are not part of the scheduler.
