# Verified models of pot's concurrency kernel

pot is a C++ library of coroutines, executors and parallel algorithms. This project models the
parts everything else rests on and proves what they promise:

- the bounded multi-producer multi-consumer ring queue (`Ring*.dfy`),
- the work-stealing deque with its growing and shrinking buffers and their reclamation (`Deque*.dfy`),
- the asynchronous lock, a counter plus a ring of waiters (`AsyncLock*.dfy`),
- the thread pools over mutex-protected queues, one model for the global-queue pool, the
  queue-per-worker pool and the two stealing pools (`Pool*.dfy`, `ClosingDown.dfy`), and the pool over
  lock-free rings (`LockFree*.dfy`),
- the completion handshake of a coroutine and whoever waits for it (`Handshake*.dfy`),
- the asynchronous barrier (`Barrier*.dfy`),
- the parallel loop and the scalar and vectorised reductions on top (`Parfor.dfy`, `Reduce.dfy`,
  `SimdFold.dfy`, `SimdReduce.dfy`).

## How the models are built

Each concurrent component is a step system. A state holds the object's fields and, for every
thread, coroutine or client, where it is in its operation with the locals live there. Every atomic
load, store, CAS, exchange, increment, access to plain shared data and mutex section is one step, so
a sequence of actions is an interleaving, of any number of participants. An inductive invariant is
kept by every step; the main results are about every run from the initial state. The memory is
sequentially consistent. Weak CASes may fail spuriously and waits may wake up spuriously. Waiting on
an atomic follows section 31.6 [atomics.wait] of ISO C++20 (N4861): comparing and blocking are one
step, and `notify_one` unblocks a waiter whose observed value is out of date if there is one.

Beside each concurrent component's step system stands a class with the source object's fields,
updated in place. Its methods perform one atomic action each and are proved equal to the step;
`RunAll` runs any interleaving, and the operations are also there in one piece, run by one thread
while the others stand still wherever they are (`Push`, `Pop`, `Steal`, `LockNow`, `UnlockNow`,
`Execute`, `Turn`, `TrySteal`, `Shutdown`, `CoAwait`, `SetNow` and so on), with what they achieve as their contracts.

The ring is composed, not assumed: the lock and the lock-free pool interleave the ring's own steps
with theirs and keep its invariant.

The ring has two versions. `include/pot/algorithms/lfqueue.h` keeps the position a failed CAS stored
and compares with a 64-bit difference; `modules/pot/algorithms/lfqueue.cppm` loads the position
again and compares with a 32-bit one. `rereads` tells them apart, and `RingWidth` relates both to
machine words.

## What turned out not to hold

- One cell: the header queue's static check admits a capacity of one, but the protocol needs two
  (`RingFifo.CapacityMatters`, exact; `RingFifo.OverwritingRun`).
- A steal reads its slot after its CAS. A thief that stops in between can be overtaken and read,
  instead of the item it claimed, one pushed a lap later that is still in the deque
  (`DequeRuns.StealCanBeOvertaken`). It reads right if and only if meanwhile the owner has not put
  the index one lap on into the buffer the thief loaded (`DequeOvertaken.ReadsItsClaimIff`). The
  claims themselves are always those of a sequential deque, and in exactly the schedules without
  such a put before a read all deliveries are of claimed items (`DequeReturns.DeliversClaimsIff`);
  there every value is returned once (`DequeReturns.EachReturnedOnce`).
- `elementwise_reduce_simd` takes any reduction operation but adds the lanes with `+=`. For each
  lane width, `SimdFold.PlainFoldIff` says exactly for which commutative monoids it still computes
  the fold: those that are the addition up to a constant which cancels over a register. A maximum
  is not among them (`SimdFold.MaximumIsNotComputed`).
- `parfor` computes the end of a chunk before clipping it, in the index type. When that wraps around
  short of the end of the loop the last index is lost, also with the default chunk size
  (`Parfor.LastIndexIsLost`, `Parfor.LosesIndex249`); the chunks come out right exactly when it does
  not (`Parfor.Cut`).
- A second awaiter of a coroutine is rejected while the first is registered, but two waiters can
  both find the handle set: then the frame is destroyed twice, or used after it was destroyed
  (`Handshake.TwoWaitersDestroyTwice`, `Handshake.TwoWaitersTouch`). Neither can happen exactly
  when there is at most one waiter (`Handshake.SafeForOneWaiter`).
- With exactly two queues the neighbour sweep tries the same queue twice (`PoolRuns.SweepNeighbors`).

## Model

| member | source | states |
|---|---|---|
| Ring.StepKeepsInv | include/pot/algorithms/lfqueue.h:51-115 | Every atomic action of any thread keeps the ring invariant: deq <= enq <= deq+N, every cell in the window is free, being filled by its ticket's pusher, published with its ticket's message, or still owned by the popper one lap earlier, and no two threads own the same ticket. |
| Ring.InitInv | include/pot/algorithms/lfqueue.h:36-47 | The constructed queue (cell i has sequence i) satisfies the invariant for every capacity of at least two. |
| Ring.ReadyToClaim | include/pot/algorithms/lfqueue.h:60-64 | A cell whose sequence admits the CAS at the current counter really is free (for a push) or published with the ticket's message (for a pop). |
| RingFifo.RunIsFifo | include/pot/algorithms/lfqueue.h:51-115 | Refinement: in every interleaving of any number of pushers and poppers the successful CASes are a run of a sequential FIFO queue whose contents are the undequeued messages, never more than N. |
| RingFifo.RunAnswersOnce | include/pot/algorithms/lfqueue.h:51-115 | Over a whole run each ticket won by a pop is returned from that pop at most once, with the message pushed under it, and each ticket won by a push is reported as accepted at most once, with that push's message; a ticket not yet returned belongs to an operation under way. Returned is what the call ends with, not what the cell was read for. |
| RingFifo.NoDataRace | include/pot/algorithms/lfqueue.h:66-68 | No two threads are ever about to touch the data of the same cell. |
| RingFifo.PushRefusedWhen | include/pot/algorithms/lfqueue.h:72-75 | From any point of a push, the next action makes it return false exactly when it looks at its cell, its ticket is next and the ticket N places earlier is unreleased; with no operation in flight that means full. A lost CAS never ends it. |
| RingFifo.PopFindsNothingWhen | include/pot/algorithms/lfqueue.h:106-109 | From any point of a pop, the next action makes it return nothing exactly when it looks at its cell, its ticket is next and not published; with no operation in flight that means empty. |
| RingFifo.PushRetriesArePaidFor | include/pot/algorithms/lfqueue.h:56-80 | Lock-freedom: the non-spurious retries of a push are at most the tickets other pushes have won meanwhile. |
| RingFifo.PopRetriesArePaidFor | include/pot/algorithms/lfqueue.h:88-114 | The same for pops. |
| RingFifo.LostPushCas | include/pot/algorithms/lfqueue.h:64-64 | Undisturbed after a lost CAS a push is back at its CAS with the current position after one more look at a cell; the module version, which loads the counter again, takes one action more. |
| RingFifo.CapacityMatters | include/pot/algorithms/lfqueue.h:38-39 | The queue stays bounded by its capacity in every run if and only if the capacity is at least two; the static check also admits one. |
| RingFifo.OverwritingRun | include/pot/algorithms/lfqueue.h:58-70 | With one cell, a run in which the second push overwrites the first message before anything was popped. |
| RingFifo.PushAlone | include/pot/algorithms/lfqueue.h:51-81 | The actions of an undisturbed push add exactly its message under the next ticket. |
| RingFifo.PopAlone | include/pot/algorithms/lfqueue.h:83-115 | The actions of an undisturbed pop release exactly the cell of the head ticket. |
| RingWidth.MaskIsModulo | include/pot/algorithms/lfqueue.h:28-28 | Masking with N-1 is the remainder by N when N is a power of two. |
| RingWidth.PowerOfTwoTest | modules/pot/algorithms/lfqueue.cppm:44-45 | The constructor's bit test accepts exactly the powers of two. |
| RingWidth.DifIsRight | modules/pot/algorithms/lfqueue.cppm:65-65 | The two's-complement difference of two wrapped counters, of 64 or of 32 bits, is the true difference as long as it is within half the range. |
| RingWidth.WordRunRefines | include/pot/algorithms/lfqueue.h:58-72 | A step on wrapped 64-bit words is the step on unbounded counters for a thread that lags by less than half the range less one lap. |
| RingWidth.WordRunsRefine | modules/pot/algorithms/lfqueue.cppm:54-102 | Over whole runs in which threads keep up, the wrapped queue, with 64-bit or 32-bit differences, is the unbounded one, so it is FIFO too. |
| RingMachine.LfQueue.constructor | modules/pot/algorithms/lfqueue.cppm:38-52 | The in-place constructor loop establishes the initial ring. |
| RingMachine.LfQueue.PushStep | include/pot/algorithms/lfqueue.h:56-80 | Each atomic action of push, done on the buffer in place, is the step of the model. |
| RingMachine.LfQueue.PopStep | include/pot/algorithms/lfqueue.h:88-114 | Each atomic action of pop, done on the buffer in place, is the step of the model. |
| RingMachine.LfQueue.RunAll | include/pot/algorithms/lfqueue.h:51-115 | Any interleaving executed on the object is the run of the model and keeps the invariant. |
| RingMachine.LfQueue.Push | include/pot/algorithms/lfqueue.h:51-81 | The retry loop by one thread with the others standing still anywhere: appends the message, or refuses exactly when the cell one lap back is unreleased (at rest: when full); terminates after any number of spurious CAS failures. |
| RingMachine.LfQueue.Pop | include/pot/algorithms/lfqueue.h:83-115 | The retry loop of pop: removes the head, or finds nothing exactly when the head ticket is missing or unpublished (at rest: when empty). |
| DequeMemory.StepKeepsMem | include/pot/algorithms/lfdequeue.h:133-268 | Every step keeps the memory invariant: consecutive ids from unlinked to the newest buffer, tokens that cover every buffer held by a thief, and a reclamation bound that spares them. |
| DequeMemory.FreeKeepsMem | include/pot/algorithms/lfdequeue.h:262-267 | Deleting the oldest unlinked buffer below the minimum id never hits a buffer that a thief holds. |
| DequeContents.CopyGets | include/pot/algorithms/lfdequeue.h:95-98 | After the copying loop of a resize the new buffer yields what the old one did for every index of [t, b), also when b-t fills the new buffer. |
| DequeContents.ReplaceFits | include/pot/algorithms/lfdequeue.h:139-145 | Growing and shrinking keep the live items readable under the same indices, with the stale top and bottom the owner loaded. |
| DequeContents.StepKeepsCon | include/pot/algorithms/lfdequeue.h:133-243 | Every step keeps the contents invariant: live indices lie in distinct slots with the right items, the owner's loaded values are usable, and a claimed item stays readable for its owner and for a thief while top is one past it. |
| DequeRuns.RunIsSequential | include/pot/algorithms/lfdequeue.h:133-243 | Refinement: in every interleaving of the owner and any number of thieves the claims are a run of a sequential deque, and pushed = claimed + what [top, bottom) holds, as multisets. |
| DequeRuns.RunHandsOnce | include/pot/algorithms/lfdequeue.h:133-243 | In every run no claim is handed over twice, and each exactly once when nothing is under way; what is read is the claimed item or has a later index, then with top at least two past the claimed one. |
| DequeRuns.ReadsItsClaim | include/pot/algorithms/lfdequeue.h:178-199 | The owner always reads the item it claimed, and so does a thief that reads while top is still one past its index; the exact condition for later reads is the next row's. |
| DequeOvertaken.ReadsItsClaimIff | include/pot/algorithms/lfdequeue.h:231-234 | The exact condition, in every run: a thief about to read its slot reads the item it claimed if and only if the owner has not, since the thief's CAS, put the index one lap past its own into the buffer it loaded. |
| DequeOvertaken.OverwrittenMeansLost | include/pot/algorithms/lfdequeue.h:85-89 | Once overwritten in that way the slot never holds the claimed index again, and until then it keeps it, through growing, shrinking and reclaiming. |
| DequeRuns.StealCanBeOvertaken | include/pot/algorithms/lfdequeue.h:231-234 | A concrete reachable state in which a thief that stopped between its CAS and its read finds an item pushed a lap later that is still in the deque. |
| DequeRuns.NothingMeansEmpty | include/pot/algorithms/lfdequeue.h:170-181 | The owner finds nothing only when the deque is empty; a thief also while the owner is deciding about the last item, or, after its CAS, when the index it saw has been claimed by somebody else. |
| DequeRuns.SizeBounds | include/pot/algorithms/lfdequeue.h:139-145 | The active buffer never has fewer than 16 slots and always one more than there are items. |
| DequeRuns.BuffersInUseAreAlive | include/pot/algorithms/lfdequeue.h:216-268 | A buffer loaded at line 230 is allocated until the thief marks itself idle, the active one always is, and buffers are deleted in id order, each at most once. |
| DequeReturns.DeliversClaimsIff | include/pot/algorithms/lfdequeue.h:133-243 | In every run all items delivered are the claimed ones if and only if the schedule lets no thief read after the owner has put the index one lap on over its slot. |
| DequeReturns.EachReturnedOnce | include/pot/algorithms/lfdequeue.h:133-243 | In every such schedule every pushed value is returned to a caller at most once across pops and steals, and when nobody is between claim and return, pushed = returned + what [top, bottom) holds, as multisets. Returned is what the calls end with. |
| DequeReturns.ClaimsAreReturned | include/pot/algorithms/lfdequeue.h:133-243 | In every such schedule, for every value: returned plus about to be returned by a thread that has read it is at most claimed, and equal to it when nobody is between claim and read. |
| DequeCarries.ReturnsWhatItReads | include/pot/algorithms/lfdequeue.h:133-243 | In every run whatsoever each thread has read exactly the entries its calls have returned, in the same order, and at most one more, which its present call will return: pop and pop_back return what they read and nothing else. |
| DequeCarries.ReadIsReturned | include/pot/algorithms/lfdequeue.h:133-243 | In every run, for every value: read out of slots = returned to callers + in the hands of threads about to return it. |
| DequeReturns.AtOnceIsNotOvertaken | include/pot/algorithms/lfdequeue.h:231-234 | Schedules in which the CAS and the read of each steal are in one piece are among them. |
| DequeMachine.RingBuffer.GetAt | include/pot/algorithms/lfdequeue.h:79-83 | Reading a slot of the in-place buffer by i modulo its size. |
| DequeMachine.RingBuffer.PutAt | include/pot/algorithms/lfdequeue.h:85-89 | Writing a slot in place changes that slot only. |
| DequeMachine.RingBuffer.Resized | include/pot/algorithms/lfdequeue.h:91-101 | The in-place copying loop returns a fresh buffer with every live index readable and links it behind the old one. |
| DequeAlone.OwnerAdvances | include/pot/algorithms/lfdequeue.h:133-200 | Each own step brings the owner closer to the end of its push or pop: it never retries. |
| DequeAlone.ThievesDoNotDelay | include/pot/algorithms/lfdequeue.h:245-268 | Thieves lengthen an owner operation by at most two steps for each of them that registers meanwhile. |
| DequeAlone.StealIsWaitFree | include/pot/algorithms/lfdequeue.h:216-243 | A steal is over after eight of its own steps, however the owner and the other thieves run meanwhile; a lost CAS is not retried. |
| DequeReclaims.LeastIs | include/pot/algorithms/lfdequeue.h:248-260 | The reclamation bound is at most the active id and every id shown by a registered token that is not idle, and equals one of them. |
| DequeReclaims.OwnerReclaims | include/pot/algorithms/lfdequeue.h:245-268 | With the thieves standing still, every action of push and pop leads to that bound: at the end the oldest buffer has exactly the bound as its id, or stays the one it was if that is older or nothing was to be reclaimed. |
| DequeReclaims.AllIdleLeavesOne | include/pot/algorithms/lfdequeue.h:262-267 | With all tokens idle only the active buffer is left after a reclamation. |
| DequeMachine.LfDeque.OwnerAct | include/pot/algorithms/lfdequeue.h:133-200 | Each action of push, pop and reclaim_buffers on the object, the store of the buffer and the load of the token list apart, is the step of the model and keeps its invariants. |
| DequeMachine.LfDeque.ThiefAct | include/pot/algorithms/lfdequeue.h:202-243 | Each action of register_stealer and pop_back on the object is the step of the model and keeps its invariants; the CAS and the read of the slot are separate. |
| DequeMachine.LfDeque.RunAll | include/pot/algorithms/lfdequeue.h:133-243 | Any interleaving executed on the object is the run of the model and conserves the items. |
| DequeMachine.LfDeque.Push | include/pot/algorithms/lfdequeue.h:132-155 | A whole push from any state the thieves may have left, they standing still: appends exactly its item; doubles the buffer exactly when no spare slot would be left; afterwards the oldest buffer is exactly the one with the least id among the active one and those of non-idle tokens (or the one it was, if older), and with all tokens idle only the active buffer is left. |
| DequeMachine.LfDeque.Pop | include/pot/algorithms/lfdequeue.h:157-200 | A whole pop, with the race for the last item: removes and returns the newest item, or nothing exactly when there is none; halves the buffer exactly when more than 16 items were there and at most a third of the slots in use; with two items or more the old buffers are reclaimed exactly as by a push, otherwise none is. |
| DequeMachine.LfDeque.Steal | include/pot/algorithms/lfdequeue.h:216-243 | A whole pop_back with everybody else standing still wherever they are: with an item between the bounds it returns the oldest and removes exactly that one; otherwise it returns nothing and removes nothing. With the owner idle, it returns nothing exactly when there is no item. The token ends idle and shows the active id. |
| DequeMachine.LfDeque.Register | include/pot/algorithms/lfdequeue.h:202-214 | A whole register_stealer, with any number of spurious CAS failures: the new token is the newest in the list, idle, with id 0, and nothing else changes. |
| DequeMachine.LfDeque.Destroy | include/pot/algorithms/lfdequeue.h:109-121 | The destructor deletes every remaining buffer; over the object's life each buffer is deleted exactly once, in id order. |
| AsyncLock.StepKeepsInv | include/pot/sync/async_lock.h:63-81 | Every action of lock, of unlock and inside the ring keeps the lock's invariant (counter, coroutines, tickets and the ring's own invariant together). |
| AsyncLock.RunKeepsInv | include/pot/sync/async_lock.h:98-118 | The invariant holds in every reachable state. |
| AsyncLockProgress.MutualExclusion | include/pot/sync/async_lock.h:63-81 | In every reachable state at most one coroutine holds the lock, is scheduled with it, or is handing it on, and one does exactly when m_state > 0. |
| AsyncLockProgress.CountsAndHandoffs | include/pot/sync/async_lock.h:98-118 | m_state equals holder + scheduled + pushing + queued coroutines; handoffs follow the order of the claimed tickets, each at most once. |
| AsyncLockProgress.EmptyMeansPusher | include/pot/sync/async_lock.h:104-106 | An unlocker that finds the ring empty has a coroutine that is still pushing, the owner of the head ticket if one was claimed. |
| AsyncLockProgress.FullMeansInHand | include/pot/sync/async_lock.h:78-79 | A pusher that has to retry has another coroutine with the lock in hand. |
| AsyncLockProgress.SomebodyCanHold | include/pot/sync/async_lock.h:98-118 | Never stuck: whenever anybody has arrived, the coroutines present can bring one of them to hold the lock, without new arrivals. |
| AsyncLockProgress.EveryWaiterCanHold | include/pot/sync/async_lock.h:98-118 | Every suspended waiter of every run can be brought to hold the lock by the coroutines already there. |
| AsyncLockProgress.TicketCanHold | include/pot/sync/async_lock.h:100-117 | It gets the lock after exactly those with earlier tickets. |
| AsyncLockMachine.CoLock.Arrive | include/pot/sync/async_lock.h:72-76 | The increment in await_suspend: the coroutine goes on to queue itself if and only if somebody has the lock in hand, and holds the lock at once otherwise. |
| AsyncLockMachine.CoLock.Leave | include/pot/sync/async_lock.h:100-102 | The decrement in unlock: the last one out leaves, any other goes on to hand over. |
| AsyncLockMachine.CoLock.PushRound | include/pot/sync/async_lock.h:78-80 | One action inside the queueing loop on the ring object is the step of the model. |
| AsyncLockMachine.CoLock.PopRound | include/pot/sync/async_lock.h:104-106 | One action inside the dequeueing loop on the ring object is the step of the model. |
| AsyncLockMachine.CoLock.Act | include/pot/sync/async_lock.h:63-118 | Any action on the lock object keeps the invariant and is the step of the model. |
| AsyncLockMachine.CoLock.LockNow | include/pot/sync/async_lock.h:63-81 | A whole lock with everybody else standing still: the first to come holds the lock at once, anybody else is suspended under the next ticket, last in the queue, and nothing else changes. Needs room in the ring, since the loop spins without it. |
| AsyncLockMachine.CoLock.UnlockNow | include/pot/sync/async_lock.h:98-118 | A whole unlock with everybody else standing still: the last one out leaves the lock free; otherwise exactly the coroutine queued first is scheduled with the lock and leaves the queue. Needs the first ticket published, since the loop spins without it. |
| AsyncLockMachine.ScopedLockGuard.FromMoved | include/pot/sync/async_lock.h:34-37 | Move construction: the source guard gives up the lock, and the unlocks still owed stay the same. |
| AsyncLockMachine.ScopedLockGuard.Assign | include/pot/sync/async_lock.h:38-48 | Move assignment: unlocks performed plus unlocks owed stay the same for every lock; self-assignment does nothing. |
| AsyncLockMachine.ScopedLockGuard.Destroy | include/pot/sync/async_lock.h:28-32 | Destroying a guard performs exactly the unlock it owes. |
| Pool.StepKeepsInv | include/pot/sandbox/thread_pool_executor.h:67-131 | Every action of submitters, workers, shutdown and spurious wakeups keeps the waiting invariant, for the global-queue, the per-worker and both stealing pools. |
| Pool.NoLostWakeup | include/pot/sandbox/thread_pool_executor.h:108-129 | In every reachable state before shutdown, a queue whose workers are all blocked, with no submitter between its push and the end of its notify, is empty. |
| PoolRuns.QueuedTaskIsFetched | include/pot/sandbox/thread_pool_executor.h:334-375 | A nonempty queue nobody is still notifying for has a worker that, running alone, takes its head within sweep length + 5 steps without being notified. |
| PoolRuns.SweepInTurn | include/pot/sandbox/thread_pool_executor.h:350-352 | The sweep tries queue (local_id + 1 + i) % n at place i, every other queue exactly once. |
| PoolRuns.SweepNeighbors | include/pot/sandbox/thread_pool_executor.h:481-484 | The neighbour sweep tries (local_id + 1) % n and then (local_id + n - 1) % n, two other queues, distinct if and only if there are not exactly two queues. |
| PoolRuns.OnlyOwnQueue | include/pot/sandbox/thread_pool_executor.h:212-240 | In the global-queue and the per-worker pool a worker never touches a queue that is not its own. |
| PoolAlone.TurnAlone | include/pot/sandbox/thread_pool_executor.h:334-375 | A worker at the top of its loop, not asked to stop and alone, runs within sweep length + 5 steps the head of the first nonempty queue in the order own queue, then sweep; if all are empty it blocks. |
| PoolAlone.SweepSteals | include/pot/sandbox/thread_pool_executor.h:350-361 | In every reachable state a worker that begins its sweep takes, alone and with no contended lock, within sweep length + 1 steps the head of the first nonempty queue of the sweep; it goes on to wait, or to leave if asked, exactly when all of them are empty. |
| PoolAlone.TurnStealsFromAny | include/pot/sandbox/thread_pool_executor.h:350-361 | With the sweep in turn it gets a task whenever any other queue holds one. |
| PoolRuns.TasksAreConserved | include/pot/sandbox/thread_pool_executor.h:285-376 | In every reachable state each submitted function has been pushed as often as it is queued, in a worker's hands, or executed, so none is lost or run twice; and every queue hands out its functions in insertion order whoever takes them. |
| PoolRuns.ShutdownEnds | include/pot/sandbox/thread_pool_executor.h:80-93 | After shutdown has incremented and notified every context no worker is blocked or can block again, and each worker is gone after its next sweep length + 4 steps, whatever submitters do. |
| PoolRuns.AskedInOrder | include/pot/sandbox/thread_pool_executor.h:302-309 | Over every run: worker w has been asked to stop exactly from the (w + 2)-nd action of shutdown on, the first being the stop flag. |
| PoolRuns.AskedBeginsNothing | include/pot/sandbox/thread_pool_executor.h:334-334 | A worker at the top of its loop that has been asked to stop begins no further turn, whatever the others do: its next step leaves. |
| PoolMachine.ThreadPool.Deliver | include/pot/sandbox/thread_pool_executor.h:285-300 | Each part of derived_execute on the object (stop check, index, push, increment, notify) is the step of the model. |
| PoolMachine.ThreadPool.Execute | include/pot/sandbox/thread_pool_executor.h:285-300 | A whole derived_execute with everybody else standing still: accepted exactly if shutdown has not begun; then the function is the last in the queue whose turn it is, that notifier is one higher, one worker blocked on it is unblocked if there is any, and nothing else changes; if not accepted, nothing changes. |
| PoolMachine.ThreadPool.Turn | include/pot/sandbox/thread_pool_executor.h:334-375 | One whole turn of worker_loop on the object, everybody else standing still: it comes back about to run the head of the first nonempty queue in its order, or blocked if all are empty. |
| PoolMachine.ThreadPool.NotifyOne | include/pot/sandbox/thread_pool_executor.h:299-299 | notify_one unblocks a worker whose observed value is out of date, and has no effect only if there is none. |
| PoolMachine.ThreadPool.NotifyAll | include/pot/sandbox/thread_pool_executor.h:314-314 | The notify_all loop unblocks every worker whose observed value is out of date and no other. |
| PoolMachine.ThreadPool.Work | include/pot/sandbox/thread_pool_executor.h:326-376 | Each action of worker_loop on the object is the step of the model. |
| PoolMachine.ThreadPool.Shutdown | include/pot/sandbox/thread_pool_executor.h:302-318 | A whole shutdown by the first caller, the others standing still: every notifier is raised, by one or, for the global queue, by the number of workers; every blocked worker is unblocked and no other moves; none blocks again. A second call changes nothing. |
| PoolMachine.ThreadPool.RunAll | include/pot/sandbox/thread_pool_executor.h:285-376 | Any interleaving executed on the object is the run of the model. |
| LockFreePool.StepKeepsLocals | include/pot/sandbox/thread_pool_executor.h:1105-1212 | Every thread is in exactly the ring operation the pool says it is in. |
| LockFreePool.StepKeepsSound | include/pot/sandbox/thread_pool_executor.h:1105-1212 | Every ring of the pool keeps the ring invariant under all pool actions, with stealing from any ring. |
| LockFreeRuns.UnpublishedIsOwed | include/pot/algorithms/lfqueue.h:106-109 | A worker's pop that fails although tickets are claimed fails because of a submitter that has not incremented the notifier yet. |
| LockFreeRuns.StepKeepsInv | include/pot/sandbox/thread_pool_executor.h:1166-1212 | Every action keeps the waiting invariant: a worker that looked in vain is owed an increment for every claimed ticket, and a blocked worker with a changed notifier is owed a notification. |
| LockFreeRuns.NoLostWakeup | include/pot/sandbox/thread_pool_executor.h:1105-1123 | In every reachable state, if a worker is blocked and its own ring has claimed tickets, a submitter of that ring is between claiming and finishing its notify (or shutdown is about to notify), also behind unpublished tickets and under stealing. |
| LockFreeRuns.ShutdownRouses | include/pot/sandbox/thread_pool_executor.h:1138-1158 | Once shutdown only waits for the threads no worker is blocked, for ever. |
| LockFreeTurns.LeavesAlone | include/pot/sandbox/thread_pool_executor.h:1166-1212 | Once shutdown only waits for the threads, each worker, wherever it is, leaves alone within 5n+4 of its own steps. |
| LockFreeRuns.AskedInOrder | include/pot/sandbox/thread_pool_executor.h:1138-1149 | Over every run: worker w has been asked to stop exactly from the (w + 2)-nd action of shutdown on. |
| LockFreeRuns.AskedBeginsNothing | include/pot/sandbox/thread_pool_executor.h:1174-1174 | A worker at the top of its loop that has been asked to stop begins no further turn, whatever the others do. |
| LockFreeTasks.TasksAreConserved | include/pot/sandbox/thread_pool_executor.h:1105-1212 | In every reachable state each submitted function has been queued in the rings as often as it is still queued, in the hands of a worker or of a thief, or executed: none is lost, invented or run twice, in the middle of any pops. |
| LockFreeFetch.QueuedTaskIsFetched | include/pot/sandbox/thread_pool_executor.h:1166-1212 | If a ring has claimed tickets and no submitter to it is between claiming and finishing its notify, its worker, wherever it is, takes the head of the ring running alone within 5n+6 of its own steps without being notified. |
| LockFreeTurns.SweepInTurn | include/pot/sandbox/thread_pool_executor.h:1186-1196 | A sweep tries ring (w + i + 1) % n at place i, every other ring exactly once. |
| LockFreeTurns.TurnAlone | include/pot/sandbox/thread_pool_executor.h:1174-1210 | In every reachable state a worker at the top of its loop, not asked to stop, takes alone within 5n+4 steps the head of the first ring in its order that has a published one and is about to run it; it blocks if there is none; apart from its own place in the rings nothing else changes. |
| LockFreeTurns.TurnFindsAny | include/pot/sandbox/thread_pool_executor.h:1186-1196 | Such a turn comes back with a task whenever any ring has a published head. |
| LockFreeMachine.StealingPool.Execute | include/pot/sandbox/thread_pool_executor.h:1105-1123 | derived_execute with the others standing still anywhere: rejected exactly after a stop and then without effect; otherwise the function is the last of the ring whose turn it is, its notifier is raised, its worker is not left blocked, and nothing else changes. Needs room in that ring, since the loop spins without it. |
| LockFreeMachine.StealingPool.TrySteal | include/pot/sandbox/thread_pool_executor.h:1125-1136 | try_steal with the others standing still anywhere: takes and runs the head of the first ring that has a published one, leaves every other ring's contents alone, and fails exactly when there is none. |
| LockFreeMachine.StealingPool.Turn | include/pot/sandbox/thread_pool_executor.h:1174-1210 | One whole turn of worker_loop on the object, everybody else standing still: the head of the first ring in its order with a published one, or blocked if there is none. |
| LockFreeMachine.StealingPool.Shutdown | include/pot/sandbox/thread_pool_executor.h:1138-1158 | A whole shutdown by the first caller, the others standing still: every notifier is raised by one, every blocked worker is unblocked and no other moves. A second call changes nothing. |
| LockFreeMachine.StealingPool.RunAll | include/pot/sandbox/thread_pool_executor.h:1105-1212 | Any interleaving executed on the object is the run of the model and keeps the invariant. |
| Handshake.StepKeepsInv | include/pot/coroutines/task.h:137-166 | Every exchange, CAS, load and store of the coroutine's end and of any number of waiters keeps the handshake invariant. |
| Handshake.HandsOverOnce | include/pot/coroutines/task.h:223-258 | Each waiter, of any number, gets past its wait at most once (ready, CAS lost, resumed, or direct get) and returns what the body ended with, value or exception; the frame is destroyed only after the producer's last access; when the producer is through nobody is left suspended. |
| Handshake.ParkedUntilResumed | include/pot/coroutines/task.h:237-244 | A registered waiter stays registered and suspended until the final awaiter resumes it; no other action displaces it. |
| Handshake.SecondIsRejected | include/pot/coroutines/task.h:246-251 | A second waiter that tries to register is rejected and changes nothing else. |
| Handshake.OneWaiterIsServed | include/pot/coroutines/task.h:223-258 | A single waiter is never rejected, never uses a destroyed frame, which is destroyed at most once; when the producer is through and it cannot move it has returned the outcome, having got past its wait exactly once, and the frame is destroyed. |
| Handshake.TwoWaitersDestroyTwice | include/pot/coroutines/task.h:186-195 | With any two waiters there is a run in which both find the handle set before either clears it, so the frame is destroyed twice. |
| Handshake.TwoWaitersTouch | include/pot/coroutines/task.h:276-277 | And one in which the second reads the frame after the first destroyed it. |
| Handshake.SafeForOneWaiter | include/pot/coroutines/task.h:186-258 | The exact condition: in all runs with the waiters of a given set the frame is destroyed at most once, and never used after that, if and only if the set has at most one member. |
| Handshake.LateComersGoOn | include/pot/coroutines/task.h:223-226 | A waiter that looks late does not suspend: if its look at done() or at the flag is still to come when the one holds or the other is set, it never registers and is never rejected, in any continuation. |
| Handshake.WithoutHandle | include/pot/coroutines/task.h:186-230 | In any continuation once the handle is cleared: a co_await begun then goes on and uses the destroyed frame, a waiter about to register fails its check, a guard that finds the handle cleared leaves the frame alone, and one that found it set before does not; each after exactly so many of its own steps. |
| HandshakeMachine.TaskFrame.EndNow | include/pot/coroutines/task.h:144-161 | The body's end on the frame object, run through: the outcome is stored, the flag set, and exactly the registered waiter, if any, resumed. |
| HandshakeMachine.TaskFrame.CoAwaitNow | include/pot/coroutines/task.h:223-252 | await_ready and await_suspend run through: the waiter goes on exactly when the coroutine has ended, is registered and suspended exactly when it has not and nobody is registered, and is rejected exactly otherwise, leaving the registered one in place. |
| HandshakeMachine.TaskFrame.ResumeNow | include/pot/coroutines/task.h:254-258 | await_resume run through: returns what the body ended with, destroys the frame once and clears the handle. |
| HandshakeMachine.TaskFrame.GetNow | include/pot/coroutines/task.h:260-280 | get() after the body has ended: waits for the flag, returns what the body ended with and destroys the frame once; without a handle it fails and changes nothing else. |
| HandshakeMachine.TaskFrame.CoAwait | include/pot/coroutines/task.h:223-258 | A whole co_await by the only waiter, wherever the coroutine is when it comes: it gets what the body ended or ends with, by the ready path if the coroutine was done and by resumption if not, and the frame is destroyed exactly once. |
| HandshakeMachine.TaskFrame.RunAll | include/pot/coroutines/task.h:84-258 | Any interleaving executed on the frame object is the run of the model. |
| Barrier.StepKeepsInv | include/pot/coroutines/async_barrier.h:20-60 | Every step of awaiters and setters, with lock, check, push, swap and unlock separate, keeps the barrier's invariant. |
| Barrier.ProceedsOnceAfterSets | include/pot/coroutines/async_barrier.h:20-37 | Each coroutine goes past the barrier at most once, and only after the expected number of sets. |
| Barrier.SwapIsFinal | include/pot/coroutines/async_barrier.h:48-55 | Once the final setter has swapped the list out, the list stays empty for ever and nobody is about to push. |
| Barrier.NobodyIsLeft | include/pot/coroutines/async_barrier.h:44-60 | When enough sets have happened and nobody can move, every coroutine that awaited has gone past exactly once. |
| Barrier.GoAdvances | include/pot/coroutines/async_barrier.h:25-37 | Every action of an awaiter that changes anything brings it nearer to suspending or going past, and the barrier as a whole nearer to rest: nobody spins. |
| Barrier.EverybodyGoesPast | include/pot/coroutines/async_barrier.h:20-60 | From every run with enough sets the awaiters and the final setter alone can go on until any given coroutine that awaited has gone past exactly once. |
| BarrierMachine.AsyncBarrier.SetNow | include/pot/coroutines/async_barrier.h:44-60 | The last set resumes everybody on the list in order; any other set only counts. |
| BarrierMachine.AsyncBarrier.AwaitNow | include/pot/coroutines/async_barrier.h:20-37 | An awaiter goes on at once if enough sets have happened and is put on the list otherwise. |
| BarrierMachine.AsyncBarrier.AwaitReady | include/pot/coroutines/async_barrier.h:20-23 | await_ready holds exactly when enough sets have happened, and the coroutine then goes past at once. |
| BarrierMachine.AsyncBarrier.SuspendNow | include/pot/coroutines/async_barrier.h:25-37 | A whole await_suspend, possibly long after await_ready: with enough sets meanwhile the coroutine goes past after all, otherwise it is put last on the list; the mutex is free again. |
| BarrierMachine.AsyncBarrier.RunAll | include/pot/coroutines/async_barrier.h:20-60 | Any interleaving executed on the object is the run of the model. |
| Parfor.Cut | include/pot/algorithms/parfor.h:44-60 | The chunking loop, in any signed or unsigned index type with every index converted to it. Chunk k starts at from + k*size and all but the last have exactly size indices, size being the fixed one or by default max(1, n / threads); there are as many as it takes. They tile [from, to), nonempty and in order, if and only if the converted end of the last chunk reaches to; otherwise the last index is in no chunk. |
| Parfor.ChunksTile | include/pot/algorithms/parfor.h:56-60 | The same equivalence for the chunks as a function of the loop index. |
| Parfor.WrapIsModulo | include/pot/algorithms/parfor.h:57-60 | The conversion to the index type that the chunks are computed with is, for every value, the one congruent to it modulo the number of values of the type. |
| Parfor.DefaultIsRepresentable | include/pot/algorithms/parfor.h:47-49 | With the default chunk size the condition is just that the end of the last chunk does not run past the index type. |
| Parfor.DefaultChunkCount | include/pot/algorithms/parfor.h:47-51 | The default size gives at most 2p-1 chunks for p threads. |
| Parfor.DefaultChunkCountIsReached | include/pot/algorithms/parfor.h:47-51 | 2p-1 chunks do occur for every p. |
| Parfor.EachIndexOnce | include/pot/algorithms/parfor.h:62-81 | In any schedule of the chunk coroutines no index is invoked twice or outside the range, and when the last one has been awaited every index has been invoked exactly once. |
| Parfor.CreatedFirst | include/pot/algorithms/parfor.h:62-79 | In every schedule the chunk coroutines are created one by one, none invokes anything before it is created, and none is awaited before all are created. |
| Parfor.EveryRunCanFinish | include/pot/algorithms/parfor.h:62-81 | Every schedule can be carried on until all chunk coroutines have been awaited; a measure that every effective action lowers leads there. |
| Parfor.QuietIsComplete | include/pot/algorithms/parfor.h:62-81 | A schedule in which no action changes anything any more has awaited every chunk and invoked every index of the loop exactly once. |
| Parfor.TaskAlone | include/pot/algorithms/parfor.h:65-76 | The steps of one chunk coroutine by itself invoke exactly the indices of its chunk in order, and it is over exactly then. |
| Parfor.LastIndexIsLost | include/pot/algorithms/parfor.h:58-60 | Where that condition fails, no schedule ever invokes the last index. |
| Parfor.LosesIndex249 | include/pot/algorithms/parfor.h:47-60 | It fails with the default size: of 250 iterations in an unsigned 8-bit index on 3 threads, 249 is never invoked. |
| Parfor.LosesIndex119 | include/pot/algorithms/parfor.h:47-60 | And in a signed 8-bit index, of the 230 from -110 on 3 threads, 119 is never invoked. |
| Parfor.RunChunk | include/pot/algorithms/parfor.h:65-76 | The loop of one chunk coroutine invokes exactly the indices from its start up to its end, in order. |
| Parfor.RunFitsAlways | include/pot/coroutines/when_all.h:28-37 | In every schedule the invocations so far are those of the parts of the chunks gone through, and every awaited chunk is complete. |
| Reduce.BlocksFold | include/pot/algorithms/reduce.h:44-66 | Folding the folds of consecutive blocks is the fold of everything for any associative operation with a two-sided identity, also when blocks begin past the end. |
| Reduce.ReduceBlock | include/pot/algorithms/reduce.h:50-61 | The loop of one block computes the fold of that block; a block that begins past n gives the identity. |
| Reduce.Combine | include/pot/algorithms/reduce.h:63-66 | The loop over the partial results computes their fold. |
| Reduce.ElementwiseReduce | include/pot/algorithms/reduce.h:39-67 | The scalar reduction folds the folds of as many blocks as there are threads, each of the even share of elements, for every operation and execution order; for every associative operation with identity (no commutativity) that is the left-to-right fold. |
| Reduce.ShareIsLeast | include/pot/algorithms/reduce.h:44-45 | The block size is the least one with which that many blocks cover all elements. |
| SimdReduce.AddVectors | include/pot/algorithms/reduce.h:149-157 | The vector loop: every load lies inside the data, and lanes plus tail account for the whole block. |
| SimdReduce.ReduceBlockSimd | include/pot/algorithms/reduce.h:144-168 | The body of the vectorised loop computes lanes first, then folds the lanes and the tail with reduce_op. |
| SimdReduce.ElementwiseReduceSimd | include/pot/algorithms/reduce.h:125-173 | The vectorised loops compute the blocked lane sums for every n, thread count, lane width and block order, and that is the plain fold when reduce_op is a commutative monoid that suits the lanes. |
| SimdFold.BlocksAreEnough | include/pot/algorithms/reduce.h:136-138 | There are as many blocks as threads, or else as many as could each fill a register, and at least one. |
| SimdFold.BlocksAreEven | include/pot/algorithms/reduce.h:139-139 | The block size is the least one, of at least a register, with which they cover all elements. |
| SimdFold.PlainFoldIff | include/pot/algorithms/reduce.h:125-173 | The exact condition per lane width: for a commutative monoid the vectorised reduction is the plain fold for all inputs and thread counts if and only if the lanes' += is reduce_op up to a constant p, x+y = p op x op y, where a register full of p and one full of the lanes' zero both fold to the identity. |
| SimdFold.SameSuits | include/pot/algorithms/reduce.h:156-164 | The lanes' += itself with their zero as identity meets the condition at every width, and at width one nothing else does. |
| SimdFold.OffsetSumSuits | include/pot/algorithms/reduce.h:156-164 | At even widths another operation does: on bytes, the sum plus 128 with identity 128. |
| SimdFold.MaximumIsNotComputed | include/pot/algorithms/reduce.h:156-164 | With a maximum as reduce_op, which the documentation admits, two registers full of ones give 2 at every width: the lanes are added. |
| SimdFold.VectorsFold | include/pot/algorithms/reduce.h:151-165 | Lane sums and tail together fold to the fold of the block, for operations that suit the lanes, by commutativity and cancellation of p. |
| SimdReduce.DotSimd | modules/pot/algorithms/dot_simd.cppm:21-64 | dot_simd computes the dot product for every length, thread count, lane width and block order. |

## Left out

- DequeRuns.RunHandsOnce: delivery of the claimed item is not promised for a thief that is overtaken between its CAS and its read, because there the code does not keep it; `DequeOvertaken.ReadsItsClaimIff` is exact.
- DequeRuns.BuffersInUseAreAlive: covers the buffer loaded inside the non-idle window; loading the active buffer again, reading its id and storing it in the token (lines 239-240) is one step, because outside that window nothing protects that buffer.
- DequeMachine.LfDeque.ThiefAct: the same three accesses of lines 239-240 are one action, for the same reason; every other access is its own.
- RingWidth.DifIsRight: the 32-bit difference of the module version is taken to wrap around; C++ leaves the overflow of its signed subtraction undefined, and an empty queue meets it at ticket 2^31 - 1.
- RingWidth.WordRunsRefine: rests on the same reading of the 32-bit difference.
- Pool.NoLostWakeup: says nothing once shutdown has begun, because workers then leave without emptying their queues.
- LockFreeRuns.ShutdownRouses: gives no bound on a worker's remaining steps while others act, because its pops may retry as long as others win tickets; `LockFreeTurns.LeavesAlone` bounds them for a worker alone.
- AsyncLockMachine.CoLock.LockNow: requires room in the ring when the lock is taken, because alone the coroutine would spin for ever without; the steps of one that has to retry are in the runs, and so are those of an unlocker that has to wait.
- Handshake.HandsOverOnce: does not promise a single destruction of the frame to several waiters, because the code does not keep it; `Handshake.SafeForOneWaiter` is exact. A waiter that uses the frame after its destruction stops in a state of its own.
- LockFreeMachine.StealingPool.Execute: requires room in the ring whose turn it is, because alone the submitter would spin for ever without; the steps of a submitter that has to wait are in the runs.
- SimdReduce.ElementwiseReduceSimd: operand and result registers have the same number of lanes, that is, both element types have the same size; for others the code leaves lanes unset or stores past the array of lanes. The register operation agrees lane by lane with the scalar one.
- Parfor.Cut: conversions wrap around as in C++20, and `to - from` and the sums are those of types in which they do not overflow; for a signed index of the width of `int` or more their overflow is undefined in C++.
- Memory orders weaker than sequential consistency, fences, cache alignment.
- Creating, naming, pinning and joining threads; a stop request is a flag per worker, joining is the state in which shutdown waits.
- A submitter that has passed the stop check when shutdown clears the thread vector whose size it divides by.
- Wrap-around of the pools' notifiers and round-robin counter, of `m_state`, of the deque's `long` indices and of buffer ids; the ring's counters are treated in `RingWidth`.
- Overflow of the 64-bit chunk arithmetic in `parfor`, a zero fixed chunk size and a pool without threads, which divide by zero.
- Empty `std::function` submissions: the pools treat them as no work found.
- In `DequeMachine.LfDeque` the buffers are values in a map from addresses and the token list is a sequence; the in-place array is `DequeMachine.RingBuffer`. Sharing of memory between a recycled and a deleted buffer's address is not captured: addresses are never reused.
- In `LockFreeMachine.StealingPool` a ring is a value in an array; its in-place form is `RingMachine.LfQueue`.
- Destruction of messages, and throwing copy or move operations of the element types.
- Deleting the tokens in the deque's destructor.
- A coroutine that locks the lock again before unlocking it waits for itself; it is not among the actions.
- Guards made from the public constructor without locking.
- The stealing hook that `wait` calls while a result is not ready, and destroying a coroutine before it has ended.
- Exceptions thrown by the body of a parallel loop: `when_all` then stops at the first.
- A schedule for `parfor`'s coroutines as the pools would produce it; every schedule is covered instead.
- Vector instructions and floating-point rounding: a register is a sequence of lanes over an arbitrary type, and the dot product is over integers.
- The span and vector overloads of the reductions, which only check sizes and forward.
- `size`, `is_empty` and `available_space` of the sized queue, which read two counters at different moments.
- The lock-free global-queue, priority, stack and hot-queue pools, `pot::thread`, the executors and their rejection after stop, `async_condition_variable`, `lazy_task`, `unique_function`, and everything about platforms, benchmarks and memory resources: either easy beside what is here or not safe to state.
