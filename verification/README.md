# Ilias runtime: a verified model

Ilias is a C++20 coroutine runtime. This project models the small protocols its correctness
rests on and proves their properties with Dafny.

- Concurrent code (`FutexLock`, `WaitQueue`, `Mutex`, `Semaphore`, `Channel`,
  `ChannelLifetime`, `ScheduleAwaiter`, `EventLoop`, `Duplex`) is a step machine. One step is
  one atomic operation or one critical section; any number of threads, waiters and callers
  interleave in any order. The theorems are about every state of every run.
- Single-threaded mutable code (`IntrusiveList`, `EpollDescriptor`, `Timer`, `TaskGroups`, `TaskScopes`,
  `StreamBuffers`, `BufferedIo`, `WakeupLoops`, and the class `Channel.Shared`) is classes with
  the source's fields and loops. Each method's contract states the new state in terms of a
  function or an abstract value of the old one.
- Stream algorithms (`StreamExt`, `Lines`, `IntWire`) are the source's loops over a stream that
  may cut transfers into pieces of any size and may fail at any call (`Streams`).

A coroutine is an id that is parked, scheduled, resumed or stopped. Atomics are sequentially
consistent; eventfd writes succeed; the outcome of `epoll_ctl`, the clock, the chunking of a
stream and the moment a task completes are parameters or arbitrary choices.

How the pieces fit together: `WaitQueue` proves "no lost wake-up" once, for any waiting
condition that consumes something (`NoLostWakeupKept`); `Semaphore` instantiates it with its
counter, `Channel` twice, with free slots and with queued items, and `Mutex` is shown to be a
semaphore of one permit. `WakeupLoops` shows that the two wake-up loops of the source make
exactly the steps of that machine. `StreamBuffers` refines a byte queue, `BufferedIo` is built
on it, and `Lines` on `BufferedIo`.

Two results are about where the code does not do what one might expect:

- A stop that arrives while its waiter sits in the private ready list of `wakeupAll` stops a
  waiter whose predicate has already consumed something (`WaitQueue.WakeAllCanStopAGranted`).
  `WaitQueue.GrantsKeptExactly` shows that this is the only such step, and
  `WaitQueue.GrantsKeptOverRuns` that a run is free of the fault exactly when it has no such step.
- `StreamBuffer::prepare` may refuse a window that fits into the capacity by size
  (`StreamBuffers.RefusedThoughItFits`). The contract of `StreamBuffer.Prepare` gives the exact
  condition, and with it the exact condition under which `BufWriter::write` would copy into an
  empty window. That needs an earlier flush that stopped half-way
  (`BufferedIo.OverrunHistory` is such a history).

`dafny verify dfyconfig.toml` checks everything.

## Model

| member | source | states |
|---|---|---|
| FutexLock.Safety | include/ilias/sync/detail/futex.hpp:25-62 | in every state of every run, spurious CAS failures included: the word is Unlocked exactly when nobody owns the lock, at most one thread owns it, and a sleeper implies LockedWithWaiters or an unlocker that still owes notify_all |
| FutexLock.StepKeepsOwnership | include/ilias/sync/detail/futex.hpp:25-62 | every atomic step of lock and unlock keeps mutual exclusion and the meaning of the word |
| FutexLock.StepKeepsSleepersCovered | include/ilias/sync/detail/futex.hpp:33-61 | every step keeps that no sleeper is abandoned |
| FutexLock.UnlockFindsLocked | include/ilias/sync/detail/futex.hpp:54-56 | the assertion in unlock never fails for an owner |
| FutexLock.SleeperCanStillAcquire | include/ilias/sync/detail/futex.hpp:33-61 | from any reachable state with a sleeper there is a continuation of at most five steps in which that sleeper owns the lock |
| FutexLock.NoDeadlock | include/ilias/sync/detail/futex.hpp:25-62 | in a reachable state where every thread is idle or asleep, nobody is asleep |
| FutexLock.ContenderFallsAsleep | include/ilias/sync/detail/futex.hpp:33-42 | against a held lock a thread that tries can mark the word and fall asleep within three steps of its own |
| FutexLock.SleepsOnMarkedWordOnly | include/ilias/sync/detail/futex.hpp:40-42 | nobody falls asleep on a word that is not LockedWithWaiters |
| FutexLock.FailedAttempt | include/ilias/sync/detail/futex.hpp:26-31 | an attempt takes an unlocked word or leaves the word and remembers it |
| FutexLock.FreeLockIsTaken | include/ilias/sync/detail/futex.hpp:25-31 | with nobody in the way a thread owns the lock after its first attempt |
| FutexLock.OwnerGivesUp | include/ilias/sync/detail/futex.hpp:54-61 | unlock leaves the word Unlocked and owes notify_all exactly if the word was marked |
| FutexLock.NotifyWakesEverybody | include/ilias/sync/detail/futex.hpp:57-61 | after notify_all nobody sleeps |
| WaitQueue.NextKeepsWf | src/sync.cpp:24-124 | every step keeps the queue consistent and each waiter's history coherent: at most one resume or stop, exactly one once it is settled, none while it is queued |
| WaitQueue.ServedAtMostOnce | src/sync.cpp:73-124 | over every run of wake-ups, suspensions and stop callbacks, resumes plus stops of a waiter never exceed one |
| WaitQueue.OffQueueIsServed | src/sync.cpp:24-37 | whoever has been taken off the queue has its resume or its stop enabled next |
| WaitQueue.GrantsKeptExactly | src/sync.cpp:39-61 | a step keeps "who was granted something is never stopped" if and only if it is not a stop of a waiter in wakeupAll's ready list |
| WaitQueue.GrantedIsResumed | src/sync.cpp:24-37 | over every run without such a stop, a waiter whose predicate consumed something is resumed and never stopped |
| WaitQueue.ViolationPersists | src/sync.cpp:73-124 | once a granted waiter is being stopped, no later step undoes it |
| WaitQueue.GrantsKeptOverRuns | src/sync.cpp:24-124 | over every run: no granted waiter is or was being stopped if and only if no step of the run was a stop of a waiter in a ready list |
| WaitQueue.WakeAllCanStopAGranted | src/sync.cpp:39-61 | a concrete run in which wakeupAll and a stop race and a granted waiter is stopped |
| WaitQueue.NoLostWakeupKept | src/sync.cpp:24-37 | for any consuming predicate: while somebody waits, available units never exceed outstanding wake-ups, whatever a step does, provided the client accounts for the units it adds |
| WaitQueue.CloseCoveredKept | src/sync.cpp:39-61 | after a close, whoever still waits is covered by a wakeupAll that is owed or under way |
| WaitQueue.BeginWakeUsesOneCall | src/sync.cpp:24-27 | a wakeupOne that takes the lock is one owed call fewer and one scan that starts at the first waiter |
| WaitQueue.FirstWaiterServed | src/sync.cpp:24-37 | an owed call with a free lock serves the first waiter if its predicate accepts: three steps resume it, use up that call and leave the rest of the queue |
| WaitQueue.LockIsReleased | src/sync.cpp:24-54 | whatever the predicates answer, the holder of the queue lock can go on until it is free, within two steps more than there are waiters |
| WaitQueue.HolderCanGoOn | src/sync.cpp:24-54 | every holder of the queue lock has a next step, which comes nearer to the end |
| WaitQueue.QueueKeepsOrder | src/sync.cpp:24-107 | newcomers queue at the end, and a step takes at most one waiter out |
| WaitQueue.StopReachesWaiter | src/sync.cpp:110-124 | a stop that finds its waiter queued takes it out and stops it in three steps, with nothing granted |
| WaitQueue.LateStopDoesNothing | src/sync.cpp:110-124 | a stop that comes after its waiter was taken off changes nothing |
| WaitQueue.SuspendingAsksFirst | src/sync.cpp:94-107 | await_suspend evaluates the predicate under the lock, goes on if it accepts, and queues only if not |
| WaitQueue.AllGrantedKept | src/sync.cpp:73-80 | only an accepting predicate adds to the granted waiters, and only one that had nothing |
| WaitQueue.Unlink | src/sync.cpp:110-124 | a stop takes one waiter out and leaves the others in order |
| WakeupLoops.Queue.WakeupOne | src/sync.cpp:24-37 | the scan wakes the first waiter whose predicate accepts, or nobody if none does, and its evaluations are a run of the step machine to the state it leaves |
| WakeupLoops.Queue.WakeupAll | src/sync.cpp:39-61 | the accepted waiters are readied and the others kept, both in queue order, and the evaluations are a run of the step machine |
| Semaphore.TryAcquire | include/ilias/sync/semaphore.hpp:84-92 | against any sequence of observed counts and spurious failures, the CAS loop acquires only in an exchange that found the positive count read before it, so it stores exactly one less; it gives up only on a read that saw none, and every earlier operation changed nothing: one deciding instant |
| Semaphore.InvKept | include/ilias/sync/semaphore.hpp:84-133 | acquire, release, addPremits and every queue step keep conservation and the wake-up bound |
| Semaphore.PermitsConserved | include/ilias/sync/semaphore.hpp:84-147 | in every run the count is never negative and count plus live permits plus permits handed to waiters equals initial plus added; a waiter holding a permit is never stopped |
| Semaphore.WakeupsNotLost | include/ilias/sync/semaphore.hpp:99-115 | while somebody is queued, free permits never exceed outstanding wakeupOne calls; with none outstanding all permits are taken |
| Semaphore.PermitReachesWaiter | include/ilias/sync/semaphore.hpp:84-133 | in any reachable state with a permit free, somebody queued and the queue lock free, the first waiter gets the permit, is resumed and becomes its holder in four steps, for one wake-up |
| Semaphore.PermitsMoved | include/ilias/sync/semaphore.hpp:84-147 | which permits each operation moves, and that no other step moves any |
| Semaphore.Enabledness | include/ilias/sync/semaphore.hpp:84-102 | acquiring is possible exactly with a permit, releasing exactly for a holder |
| Mutex.Refines | include/ilias/sync/mutex.hpp:98-121 | every step of the mutex is a step of a semaphore with one permit |
| Mutex.InvKept | include/ilias/sync/mutex.hpp:98-121 | every step keeps the semaphore invariant and that the flag says whether there is an owner |
| Mutex.OneOwner | include/ilias/sync/mutex.hpp:98-121 | in every run there is at most one live guard, leaked guard or handed-off waiter, and exactly one when locked |
| Mutex.UnlockReachesWaiters | include/ilias/sync/mutex.hpp:117-121 | a free mutex with queued waiters has a wakeupOne outstanding, even with barging tryLock and cancellation |
| Mutex.TryLockTakesIt | include/ilias/sync/mutex.hpp:98-110 | tryLock succeeds exactly on a free mutex and makes the caller its one owner |
| Mutex.UnlockFreesIt | include/ilias/sync/mutex.hpp:117-121 | an owner can unlock, by guard or by hand, which frees the mutex and owes one wake-up |
| Mutex.LeakKeepsItLocked | include/ilias/sync/mutex.hpp:251-257 | a leaked guard leaves the mutex locked for a manual unlock |
| Mutex.LockReachesWaiter | include/ilias/sync/mutex.hpp:98-121 | in any reachable state with the mutex free, somebody queued and the queue lock free, the first waiter becomes the owner and gets its guard in four steps |
| Channel.Shared.SendPredicate | include/ilias/sync/mpmc.hpp:51-62 | the item is accepted or handed back unchanged; the sender waits on only in front of a full open channel, and leaves empty-handed only for a closed one; accepted stays delivered followed by the queue |
| Channel.Shared.ReservePredicate | include/ilias/sync/mpmc.hpp:65-77 | a slot obtained is one more permit and one free slot less; the reserver waits on only in front of a full open channel, and leaves empty-handed only for a closed one |
| Channel.Shared.RecvPredicate | include/ilias/sync/mpmc.hpp:92-103 | delivers the oldest undelivered item; without one everything accepted has been delivered, and the wait ends exactly if the senders are gone |
| Channel.Shared.SendNow | include/ilias/sync/mpmc.hpp:372-388 | the item is accepted, or comes back with a reason that is true (closed, or no free slot) and nothing changes |
| Channel.Shared.RecvNow | include/ilias/sync/mpmc.hpp:548-563 | delivers the oldest undelivered item; otherwise everything accepted has been delivered, and closed is told from empty |
| Channel.Shared.SendWithPermit | include/ilias/sync/mpmc.hpp:273-283 | the item is accepted and fits without a check, and the free slots stay the same |
| Channel.Shared.ReleasePermit | include/ilias/sync/mpmc.hpp:131-144 | one free slot more, and the deleter always finds room and wakes a sender |
| Channel.Shared.OnSenderClose | include/ilias/sync/mpmc.hpp:79-89 | no receiver waits on behind it, and one finds nothing exactly when everything accepted has been delivered |
| Channel.Shared.OnReceiverClose | include/ilias/sync/mpmc.hpp:105-115 | every sender and reserver predicate behind it ends its wait and obtains nothing |
| Channel.Shared.Perform | include/ilias/sync/mpmc.hpp:41-208 | every event of the step machine that touches the channel is what the methods do to the fields: same state, same histories, same answer of the predicate, same wake-up |
| Channel.CountsKept | include/ilias/sync/mpmc.hpp:51-77 | every event keeps queue plus reserved within capacity and reserved equal to the permits held; the deleter's space check is always true |
| Channel.FifoKept | include/ilias/sync/mpmc.hpp:51-103 | every event keeps accepted items equal to delivered items followed by the queue |
| Channel.UsePermitAlwaysFits | include/ilias/sync/mpsc.hpp:267-277 | a permit's send fits without a check and takes no free slot |
| Channel.SlotBalance | include/ilias/sync/mpmc.hpp:148-208 | free slots appear only together with a sender wake-up that is owed or will be owed by a woken receiver; a sender that keeps waiting saw no free slot |
| Channel.ItemBalance | include/ilias/sync/mpmc.hpp:148-187 | the same for queued items and receiver wake-ups |
| Channel.TakesTheOldest | include/ilias/sync/mpmc.hpp:92-103 | a receiver or a tryRecv that gets something gets the oldest item, and no other event touches what a receive awaiter returns |
| Channel.PutsItsOwn | include/ilias/sync/mpmc.hpp:51-62 | a send awaiter that is accepted puts the item it was created with, and no awaiter's item changes |
| Channel.MovesKept | include/ilias/sync/mpmc.hpp:148-187 | every event keeps the record of who put and who took which item in step with the queue |
| Channel.PossibleExactly | include/ilias/sync/mpmc.hpp:361-436 | what can be done without waiting is exactly what there is room or an item for; a permit can always be used or given up |
| Channel.WakeupsKept | include/ilias/sync/mpmc.hpp:131-208 | every joint step of the channel and its two queues keeps both wake-up bounds |
| Channel.ClosingKept | include/ilias/sync/mpmc.hpp:79-115 | every step keeps that waiters of a closed side are covered by a wake-up, also with the single receiver of mpsc, which is woken by wakeupOne |
| Channel.OutcomesKept | include/ilias/sync/mpmc.hpp:148-208 | every step keeps that a finished wait obtained what it asked for or saw the other side closed |
| Channel.InvKept | include/ilias/sync/mpmc.hpp:41-208 | the whole invariant is inductive |
| Channel.ChannelContents | include/ilias/sync/mpsc.hpp:49-101 | in every run: accepted items in order equal delivered items followed by the queue, and queue plus reserved never exceeds capacity |
| Channel.ChannelWakeups | include/ilias/sync/mpmc.hpp:131-208 | in every run: with the receiving side open and a sender queued, free slots never exceed outstanding sender wake-ups; with a receiver queued, items never exceed outstanding receiver wake-ups |
| Channel.ChannelAtRest | include/ilias/sync/mpmc.hpp:41-208 | when no wake-up is under way, a queued sender means a full open channel and a queued receiver an empty open one |
| Channel.AwaiterOutcomes | include/ilias/sync/mpmc.hpp:148-208 | a settled awaiter obtained its slot or item, or saw the other side closed, or was stopped and obtained nothing |
| Channel.WhoGotWhat | include/ilias/sync/mpmc.hpp:148-187 | in every run the items delivered, in order, are those the receive awaiters return and tryRecv returned, each awaiter one; the items accepted are those of the send awaiters, permits and trySend, each awaiter its own once |
| Channel.SlotReachesSender | include/ilias/sync/mpmc.hpp:148-208 | in any reachable state with a free slot, an owed wake-up and the queue lock free, three steps give the first waiting sender what it asked for and resume it |
| Channel.ItemReachesReceiver | include/ilias/sync/mpmc.hpp:169-187 | the same for the first waiting receiver, which gets the oldest item |
| Channel.TakerComesRound | include/ilias/sync/mpmc.hpp:174-179 | a woken receiver that has its item can be taken through await_resume in at most three steps, which owe the senders one wake-up |
| Channel.SenderComesRound | include/ilias/sync/mpmc.hpp:153-200 | the same for a woken sender, and a woken reserver comes to own its permit |
| Channel.SenderCanWait | include/ilias/sync/mpmc.hpp:148-163 | a sender that finds an open channel full comes to wait at the end of its queue, with its item |
| Channel.ReceiverCanWait | include/ilias/sync/mpmc.hpp:169-184 | a receiver that finds an open channel empty comes to wait at the end of its queue |
| Channel.SenderCanClose | include/ilias/sync/mpsc.hpp:77-88 | a sending side nobody waits on can close, which owes the receivers a wake-up: all of them, or one call for the single receiver of mpsc |
| Channel.ReceiverCanClose | include/ilias/sync/mpmc.hpp:105-115 | the same for the receiving side |
| ChannelLifetime.Counted | include/ilias/sync/detail/channel_core.hpp:36-43 | the count is the number of sides still holding the channel, and at count zero exactly one free is done or due |
| ChannelLifetime.FreedOnceAtTheEnd | include/ilias/sync/detail/channel_core.hpp:46-66 | in every interleaving of the two deleters the channel is freed exactly when both sides are through, once, after both closes |
| ChannelLifetime.FreedAfterBothDeleters | include/ilias/sync/detail/channel_core.hpp:46-66 | once each side has made its three moves, in any interleaving, the channel has been freed |
| ChannelLifetime.ThreeMovesEnough | include/ilias/sync/detail/channel_core.hpp:46-66 | how far a side is after how many of its own moves |
| ScheduleAwaiter.InvKept | src/task.cpp:317-369 | every step keeps that the state and the queued callbacks agree on who still has to resume the caller |
| ScheduleAwaiter.StepUsesFuel | src/task.cpp:330-358 | every step brings the hand-over nearer to its end |
| ScheduleAwaiter.InvokeAtMostOnce | src/task.cpp:348-369 | in every interleaving of stop, stop delivery and completion, invoke runs at most once, only in state Completed, and no callback of the awaiter is left behind it |
| ScheduleAwaiter.InvokeExactlyOnce | src/task.cpp:317-369 | runs are bounded, and one that cannot go on has invoked exactly once |
| ScheduleAwaiter.InvokeOnCaller | src/task.cpp:348-358 | in every run whose completion found no stop on its way, only the caller's executor runs invoke |
| ScheduleAwaiter.StopIsForwarded | src/task.cpp:337-342 | a stop delivered before the completion is forwarded to the task |
| EventLoop.WakeKept | src/linux/epoll.cpp:284-297 | every step keeps: a wake-up is pending exactly when the eventfd is readable or one poster owes its write, and pending callbacks have one |
| EventLoop.OrderKept | src/linux/epoll.cpp:339-358 | every step keeps all callbacks, each once, and each poster's callbacks in order |
| EventLoop.PendingIsReached | src/linux/epoll.cpp:339-358 | from any reachable state with pending callbacks, at most one owed write and then the poll bring all of them into the loop queue, behind what is there |
| EventLoop.OnceAndInOrder | src/linux/epoll.cpp:273-322 | in every run each callback runs at most once and one poster's callbacks run in the order of posting |
| EventLoop.EveryCallbackRuns | src/linux/epoll.cpp:315-358 | from any reachable state at most the owed write, a poll and one step for each callback run everything posted so far, in order |
| EventLoop.CallbacksMoved | src/linux/epoll.cpp:273-358 | a post records its callback at the end of its queue, the loop runs the first one, polling takes over all that is pending |
| EventLoop.WritesCoalesced | src/linux/epoll.cpp:284-297 | only the first remote post since a poll owes a write |
| EpollDescriptor.Descriptor.Poll | src/linux/epoll.cpp:107-128 | parking keeps every awaiter covered by the recorded mask and the recorded mask equal to the armed one; a failed registration parks nobody; every polled awaiter stays in exactly one of parked, notified and stopped |
| EpollDescriptor.Descriptor.Dispatch | src/linux/epoll.cpp:384-401 | without an error or a hang-up the awaiters that stay are exactly those that wait for nothing that happened, in order, and the others are notified; with one everybody is; the mask collected is exactly what those that stay wait for |
| EpollDescriptor.Descriptor.ProcessEvent | src/linux/epoll.cpp:371-427 | after an event what is still wanted is recorded and armed, or everybody left is told of the failed re-arm |
| EpollDescriptor.Descriptor.NotifyError | src/linux/epoll.cpp:417-424 | after a failed re-arm every awaiter gets the error and leaves |
| EpollDescriptor.Descriptor.OnStopRequested | src/linux/epoll.cpp:143-149 | a stop removes a linked awaiter and nothing else, and the invariant holds with the mask left as it was |
| EpollDescriptor.UnionCovers | src/linux/epoll.cpp:398-404 | the mask collected from the kept awaiters covers each of them |
| EpollDescriptor.UnionIsExact | src/linux/epoll.cpp:398-404 | a bit is in the collected mask exactly if some kept awaiter waits for it |
| EpollDescriptor.DispatchIsExact | src/linux/epoll.cpp:387-401 | each awaiter is either kept or woken, and an event in the mask wakes somebody |
| EpollDescriptor.WokenIffInterested | src/linux/epoll.cpp:387-401 | without an error or a hang-up, exactly the awaiters whose mask meets the event are notified, in order, and the others stay, in order; with one all are notified |
| EpollDescriptor.LedgerProcessed | src/linux/epoll.cpp:387-424 | an event, with its re-arm working or failing, leaves every awaiter that ever polled in exactly one of parked, notified and stopped, once |
| EpollDescriptor.LedgerStopped | src/linux/epoll.cpp:143-149 | the same for a stop of a parked awaiter |
| EpollDescriptor.LedgerPolled | src/linux/epoll.cpp:107-128 | the same for a new awaiter, parked or refused |
| Timer.TimerService.UpdateTimers | include/ilias/runtime/timer.hpp:140-159 | fires exactly the timers due, once each, in deadline order, and leaves the others alone; the cached deadline stays the minimum |
| Timer.TimerService.FireDue | include/ilias/runtime/timer.hpp:146-155 | the erase loop removes exactly the due prefix and schedules its awaiters |
| Timer.TimerService.SubmitTimer | include/ilias/runtime/timer.hpp:169-174 | the new entry stands behind those with the same deadline, entries and holders of a timer id stay in one-to-one correspondence, and the cached deadline is current |
| Timer.TimerService.OnStopRequested | include/ilias/runtime/timer.hpp:211-219 | cancels a timer that has not fired, removing just its entry; a fired timer is never cancelled |
| Timer.TimerService.TimerChanged | include/ilias/runtime/timer.hpp:182-191 | behind it the cached deadline is the least of all (none for no timers), attained by some timer, and the callback was called exactly when it changed |
| Timer.UpperBound | include/ilias/runtime/timer.hpp:169-171 | the insertion point is behind exactly the entries not later than the new one |
| Timer.DueIsExact | include/ilias/runtime/timer.hpp:146-150 | in a sorted map the loop's stopping point separates exactly the due entries from the others |
| Timer.NextDeadlineIsEarliest | include/ilias/runtime/timer.hpp:132-138 | the deadline reported is attained by some entry and no entry has a smaller one; none exactly for no entries |
| Timer.InsertKeepsKeys | include/ilias/runtime/timer.hpp:169-174 | inserting keeps the map sorted, entries of one deadline in the order of insertion, and its entries distinct |
| Timer.RemoveKeepsKeys | include/ilias/runtime/timer.hpp:176-180 | erasing removes exactly one entry and keeps the map sorted |
| IntrusiveList.Node.Move | include/ilias/detail/intrusive.hpp:23-40 | the new node takes the old one's place in its ring and the old one ends up alone |
| IntrusiveList.Node.IsLinked | include/ilias/detail/intrusive.hpp:47-49 | true exactly when the node's ring has another node |
| IntrusiveList.Node.Unlink | include/ilias/detail/intrusive.hpp:52-60 | the node ends up alone and the rest of its ring closes up in order |
| IntrusiveList.Node.InsertAfter | include/ilias/detail/intrusive.hpp:63-72 | the node stands behind the target, both rings in order, whether it came from the same ring, another one or none, or is its own target |
| IntrusiveList.Node.InsertBefore | include/ilias/detail/intrusive.hpp:75-84 | the same in front of the target |
| IntrusiveList.RingDetermined | include/ilias/detail/intrusive.hpp:86-99 | the links determine the ring read from a node |
| IntrusiveList.RingsDisjointOrEqual | include/ilias/detail/intrusive.hpp:86-99 | two rings share all their nodes or none |
| IntrusiveList.OneListOnly | include/ilias/detail/intrusive.hpp:103-107 | a node is in at most one list |
| IntrusiveList.Rotate | include/ilias/detail/intrusive.hpp:98-99 | a ring may be read from any of its nodes |
| IntrusiveList.List.Move | include/ilias/detail/intrusive.hpp:106-106 | a moved list holds the same nodes in order and the old one none |
| IntrusiveList.List.PushBack | include/ilias/detail/intrusive.hpp:191-191 | the node becomes the last one, also when it was in this list or another |
| IntrusiveList.List.PushFront | include/ilias/detail/intrusive.hpp:192-192 | the node becomes the first one, also when it was in this list or another |
| IntrusiveList.List.PopFront | include/ilias/detail/intrusive.hpp:194-197 | drops exactly the first node |
| IntrusiveList.List.PopBack | include/ilias/detail/intrusive.hpp:199-202 | drops exactly the last node |
| IntrusiveList.List.Erase | include/ilias/detail/intrusive.hpp:224-229 | drops exactly the node at the iterator and returns the one behind it |
| IntrusiveList.List.Clear | include/ilias/detail/intrusive.hpp:116-120 | terminates with the list empty and every node alone |
| IntrusiveList.List.Size | include/ilias/detail/intrusive.hpp:124-130 | the walk ends and counts every node once |
| IntrusiveList.List.Filter | include/ilias/detail/intrusive.hpp:224-229 | erasing while iterating looks at each node once, in order; what is dropped is alone and the rest linked in order |
| IntrusiveList.KeptMembers | include/ilias/detail/intrusive.hpp:224-229 | what such a filter keeps is exactly what it does not drop |
| StreamBuffers.FixedStreamBuffer.Prepare | include/ilias/io/stream.hpp:255-271 | the visible bytes never change, and the window is granted exactly when the size fits by count |
| StreamBuffers.FixedStreamBuffer.Commit | include/ilias/io/stream.hpp:278-282 | appends exactly the first bytes of the window, cut down to the window |
| StreamBuffers.FixedStreamBuffer.Consume | include/ilias/io/stream.hpp:327-331 | drops exactly a prefix, cut down to the contents |
| StreamBuffers.StreamBuffer.Prepare | include/ilias/io/stream.hpp:78-101 | the visible bytes never change; the window is granted exactly when it fits behind the offset the bytes are slid to; with the bytes at the front that is exactly when it fits by count |
| StreamBuffers.StreamBuffer.Settle | include/ilias/io/stream.hpp:79-87 | where the bytes stand after the compaction, and that they are the same |
| StreamBuffers.StreamBuffer.Commit | include/ilias/io/stream.hpp:108-112 | appends exactly the first bytes of the window, cut down to the window |
| StreamBuffers.StreamBuffer.Consume | include/ilias/io/stream.hpp:157-161 | drops exactly a prefix, cut down to the contents |
| StreamBuffers.StreamBuffer.ShrinkToFit | include/ilias/io/stream.hpp:186-193 | keeps the bytes and drops the spare room |
| StreamBuffers.RefusedThoughItFits | include/ilias/io/stream.hpp:78-101 | a concrete buffer that refuses a window that fits into its capacity by count |
| Bytes.MoveToFront | include/ilias/io/stream.hpp:84-84 | the overlapping move keeps the moved bytes |
| BufferedIo.BufReader.Read | include/ilias/io/stream.hpp:387-403 | delivers exactly the next bytes of buffer and source together, large reads included, the buffered ones first; none only at the end; a failed read loses nothing |
| BufferedIo.BufReader.Fill | include/ilias/io/stream.hpp:413-430 | fetches without changing the bytes still to be delivered; empty only at the end or for a buffer of no capacity, so its window is never refused; with bytes buffered it cannot fail |
| BufferedIo.BufReader.Consume | include/ilias/io/stream.hpp:433-435 | drops exactly a prefix of what is still to be delivered, at most what is buffered |
| BufferedIo.BufWriter.Write | include/ilias/io/stream.hpp:502-517 | sink plus buffer grow by exactly the bytes reported as written, in order, also for large writes; the exact condition for a refused window, which needs an earlier flush that handed over some bytes, stopped, and has not got through since; after any other history of calls, refused ones included, the window is granted |
| BufferedIo.BufWriter.Flush | include/ilias/io/stream.hpp:519-528 | moves bytes from buffer to sink without loss or reordering, everything unless a write fails or accepts nothing; exactly as much as the replies of the sink let through; stops half-way only with an error and bytes left |
| BufferedIo.BufWriter.HandOver | include/ilias/io/stream.hpp:520-526 | one turn moves what the sink takes, or stops with the buffer as it was |
| BufferedIo.OverrunHistory | include/ilias/io/stream.hpp:502-528 | a concrete history that ends in a refused window: capacity 16, two writes of 7, a flush that hands over 4 and fails, a write of 5 |
| StreamExt.WriteAll | include/ilias/io/ext.hpp:79-91 | all the data in order, or a proper prefix of it; an error exactly if the sink failed or took nothing; terminates |
| StreamExt.ReadAll | include/ilias/io/ext.hpp:121-133 | fills the whole window with the next bytes; fails exactly if a read failed or there were too few bytes |
| StreamExt.ReadToEnd | include/ilias/io/ext.hpp:163-185 | the container holds its old bytes followed by everything read, also on an error, which occurs exactly if a read failed; terminates on a finite stream |
| StreamExt.Copy | include/ilias/io/ext.hpp:271-284 | everything taken from the source has reached the sink, in order and once, but for the tail of a single piece that a failed write did not take; nothing is lost when it succeeds |
| Lines.Readline | include/ilias/io/ext.hpp:212-240 | appends exactly the next line with its delimiter, however the buffer is filled; the end of the stream is an error only in front of a line |
| Lines.Getline | include/ilias/io/ext.hpp:250-258 | returns the first element of the split of the remaining bytes and leaves the rest of the split |
| Lines.GetAllLines | include/ilias/io/ext.hpp:250-258 | repeated getline returns exactly the split of the remaining bytes |
| Lines.TakeView | include/ilias/io/ext.hpp:214-237 | one turn takes from the buffer what belongs to the current line and nothing behind it |
| Lines.JoinOfSplit | include/ilias/io/ext.hpp:202-211 | joining the lines gives the text back, with a final delimiter if it lacked one |
| Lines.SplitOfJoin | include/ilias/io/ext.hpp:202-211 | lines without a delimiter are found again after joining |
| Lines.SplitHasNone | include/ilias/io/ext.hpp:251-258 | no line contains the delimiter |
| IntWire.Byteswap | include/ilias/buffer.hpp:220-226 | the in-place loop reverses the bytes |
| IntWire.WriteInt | include/ilias/io/ext.hpp:103-110 | the bytes on the wire are the base-256 digits of the two's complement, the most significant one first for big endian and last for little, whichever the host's order |
| IntWire.ReadInt | include/ilias/io/ext.hpp:144-152 | consumes exactly the bytes that encode the value it returns |
| IntWire.WriteThenRead | include/ilias/io/ext.hpp:103-152 | what a host writes a host of either order reads back, for every width and signedness, over any partial transfers |
| IntWire.DecodedOfEncoded | include/ilias/buffer.hpp:236-261 | decoding the bytes of a value gives the value |
| IntWire.EncodedOfDecoded | include/ilias/buffer.hpp:236-261 | every byte string is the encoding of the value it stands for |
| IntWire.EncodedOnce | include/ilias/io/ext.hpp:103-152 | the bytes on the wire determine the value and what follows it |
| IntWire.EncodedDigits | include/ilias/buffer.hpp:236-261 | which digit stands at which byte |
| IntWire.DigitIsQuotient | include/ilias/buffer.hpp:236-261 | the i-th digit is the value divided by 256 to the i, modulo 256 |
| IntWire.OtherOrder | include/ilias/buffer.hpp:190-226 | swapping turns one byte order into the other |
| Duplex.ReadKeepsOk | src/io.cpp:302-317 | a read keeps the channel's invariant and returns 0 exactly when the writer closed and everything written is taken |
| Duplex.WriteKeepsOk | src/io.cpp:357-373 | a write keeps the channel's invariant and returns 0 exactly when the reader closed |
| Duplex.StepKept | src/io.cpp:290-411 | every step of either end keeps both directions in order |
| Duplex.RunOk | src/io.cpp:290-411 | in every run bytes written equal bytes taken followed by the buffer, the buffer stays within its limit, a parked reader means empty and open, a parked writer full and open, and whoever was woken can go on |
| Duplex.ZeroMeansClosed | src/io.cpp:290-373 | in every run a read or write returns 0 exactly for the closed other end |
| Duplex.NobodyWaitsInVain | src/io.cpp:290-411 | in every run the two sides of a channel never wait for each other and what is taken is a prefix of what is written |
| Duplex.ReadTakesTheFront | src/io.cpp:307-314 | a read takes the first bytes of the buffer, all it asked for or all there is, and returns their number |
| Duplex.WriteTakesAPrefix | src/io.cpp:362-373 | a write appends the prefix of its data whose length it returns: all of it or as much as there is room for |
| Duplex.StepMovesBytes | src/io.cpp:290-411 | every step, resumed transfers included, moves exactly the bytes its count says |
| Duplex.BytesMovedInRun | src/io.cpp:290-411 | the same between any two states of a run |
| Duplex.JobsStay | src/io.cpp:295-333 | a parked transfer keeps its size or data until it moves or is stopped |
| Duplex.ShutdownCloses | src/io.cpp:402-411 | a shutdown closes both directions, and nothing else does |
| Duplex.WriteReachesReader | src/io.cpp:290-379 | a write wakes a parked reader, which then takes the written bytes |
| Duplex.ReadReachesWriter | src/io.cpp:290-379 | a read wakes a parked writer, which then writes on |
| Duplex.ShutdownReachesBoth | src/io.cpp:402-411 | a shutdown wakes both parked partners, to return 0 |
| TaskGroups.TaskGroup.Insert | src/task.cpp:100-117 | a task goes to the running or, complete already, to the completed ones, asked to stop if the group is stopped, and a completion reaches the awaiter |
| TaskGroups.TaskGroup.OnTaskCompleted | src/task.cpp:119-139 | the task moves from running to completed, and the pending next is given it, drains it, or is reported stopped exactly when it was draining and nothing runs any more |
| TaskGroups.TaskGroup.NextCompletion | src/task.cpp:164-172 | the oldest completion is taken and the counters stay right |
| TaskGroups.TaskGroup.NotifyCompletion | src/task.cpp:174-179 | restores that a registered awaiter means no completion is queued |
| TaskGroups.TaskGroup.OnCompletion | src/task.cpp:190-204 | resumed with its completion still queued, or drained and registered again, or stopped when the group is empty |
| TaskGroups.TaskGroup.Stop | src/task.cpp:141-158 | every task that was running is asked to stop, also those that complete during the loop; a next reported stopped leaves the group empty |
| TaskGroups.TaskGroup.OnStopRequested | src/task.cpp:206-212 | too late once a completion was given; otherwise the group is stopped and the next never resumed with a value |
| TaskGroups.TaskGroup.Next | include/ilias/task/group.hpp:55-85 | whoever is resumed finds a completion, the oldest one not taken, whatever the others do meanwhile |
| TaskGroups.TaskGroup.WaitAll | include/ilias/task/group.hpp:220-228 | when it finishes the group is empty and the result is the values of exactly the tasks not stopped, at increasing positions of the order of completion |
| TaskGroups.ValuesInOrder | include/ilias/task/group.hpp:220-228 | the values stand for exactly the completions that carry one, in their order |
| TaskGroups.TaskGroup.Shutdown | include/ilias/task/group.hpp:212-218 | when it finishes the group is stopped and empty |
| TaskGroups.OnceCompleted | src/task.cpp:119-130 | moving a task from running to completed keeps every inserted task in exactly one of them, once |
| TaskGroups.OnceStarted | src/task.cpp:111-115 | the same for a task that starts to run |
| TaskGroups.OnceFinished | src/task.cpp:106-110 | the same for a task inserted complete |
| TaskScopes.TaskScope.Insert | src/task.cpp:249-263 | a running task is listed and counted; a stopped scope also asks it to stop, and then it stays so or has completed within the call, which wakes the waiter if it was the last; a complete task is not listed |
| TaskScopes.TaskScope.OnTaskCompleted | src/task.cpp:265-301 | the counter stays the number of tasks that run, the list keeps the entry during a stop, and the last completion wakes the waiter, as stopped if that was asked to stop |
| TaskScopes.TaskScope.Stop | src/task.cpp:303-313 | every listed task is asked to stop once, in order, although tasks may complete during the walk |
| TaskScopes.TaskScope.AwaitAll | src/task.cpp:233-245 | returns at once exactly when no task runs; otherwise a task is left whose completion wakes the waiter |
| TaskScopes.LiveAt | src/task.cpp:270-283 | completing an entry lowers the number of running tasks by one whether it is unlinked at once or later, and unlinking it later changes nothing |
| TaskScopes.LiveZero | src/task.cpp:236-238 | none runs exactly when all that are listed have completed |

## Left out

- System calls, io_uring, IOCP, Qt, TLS, fibers, processes, sockets and files: foreign or kernel behaviour; epoll and eventfd appear as an armed mask and a counter.
- Coroutine frames, exceptions, tracing, formatting and logging.
- Memory ordering: atomics are sequentially consistent.
- `WaitQueue::wakeupAll` racing a stop: the channel theorems assume that no stop takes the lock while its waiter sits in a ready list; `WaitQueue.GrantsKeptExactly` and `WaitQueue.WakeAllCanStopAGranted` say exactly what is assumed away.
- Blocking waits: a blocking waiter is a waiter that has no stop callback.
- Channels: an endpoint outlives its pending waits and its permits, because a permit holds a raw pointer.
- Sizes in buffers are unbounded numbers: the wrap-around of `size_t` for requests near its limit is not modelled.
- StreamBuffers.StreamBuffer.Prepare: does not cover a capacity lowered by `setMaxCapacity` below what is allocated.
- BufferedIo.BufReader.Fill: models the policy None only; `seek` on the wrappers is left out too.
- BufferedIo.BufWriter.Write: what the source does after its window was refused is undefined, so the model stops there with `Overrun`.
- Lines.Readline: models delimiters of one byte; the source searches each filled chunk by itself, so a longer delimiter that is split across two fills is not found.
- A reader or writer hands over a sequence of bytes where the source fills or reads the caller's memory; the containers that `readAll`, `readToEnd` and the buffers fill are arrays.
- Duplex: transfers are of at least one byte; with empty ones a woken writer may return 0 before the reader has closed. The code lets an end go on writing after its own shutdown, so "everything written" means so far.
- TaskGroups.TaskGroup.Next: no claim that a `next` cancelled on an empty group ever ends (it waits for a completion that need not come); moving and destroying a group are left out. Tasks are ids and their values integers.
- TaskGroups.TaskGroup.WaitAll: says nothing about how long it takes; the loop is followed for any number of turns.
- `Event`, `Latch`, `oneshot`, `when_all`, `when_any`: smaller instances of the patterns proved here.
- ScheduleAwaiter.InvokeOnCaller: does not say which executor runs `invoke` when the task completes while a stop is pending.
- EpollDescriptor.Descriptor.ProcessEvent: a mask is a set of bits; file descriptors that are closed while polled are left out.
- Timer.TimerService.SubmitTimer: a callback installed later than the first timer is left out; timers that are ready at once never reach the service.
- The list's methods take the ring they work on as a ghost argument; iterators are nodes, and destructors appear as `Unlink` and `Clear`.
