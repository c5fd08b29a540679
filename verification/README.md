# RT-Thread kernel core, modelled and verified

A Dafny model of the core of RT-Thread as built for one processor: the scheduler and its ready bitmap, threads, the
IPC objects with their wait lists and timeouts, the timer list, the three heap allocators with the page allocator and
the memory pool, and rt_vsnprintf.

The kernel half is a step system. A state holds the threads, the bitmap, the ready queues and wait lists, the current
thread and the scheduler lock; each interrupt-disabled region of the C code is one step (`KernelSpec`, `KernelRuns`).
Every IPC object is then studied inside such a kernel, together with whatever the rest of the system does
(`Waiting`): its own critical regions alternate in any order with timeouts, deletions, scheduling and steps of other
objects, and each theorem about an object is about every state of every such run. Where a property needs history,
the state carries it: who was woken and has not looked again, which message a node carries, what was sent. Calls that
interrupts can come in between, such as rt_thread_delete, rt_thread_resume and rt_timer_stop, are several steps; how far
they have got is part of the state (`ThreadCalls`, `StaleTests`, `Timers`).

Each allocator has a state with its representation invariant and its set of live regions, and theorems that every
operation keeps the first and changes the second as the caller expects. What each call answers, which block it takes and
what is left afterwards is stated to the byte, in terms of the state before (`MemHeapAnswers`, `SmallMemAnswers`,
`SlabAnswers`); so are the answers of the blocking calls (`WaitAnswers`, `IpcAnswers`).

Beside the specifications stand classes whose methods change fields, arrays and links in the order in which the C
code does. Their contracts equate the new state with the specified one: `Kernel`, `RtSemaphore`, `RtMutex`, `RtEvent`,
`RtMailbox`, `RtMessageQueue`, `RtMemPool`, `TimerList`, `MemHeapObj`, `SmallHeap`, `PageHeap`, `SlabHeap`.

Some statements one might expect are not true of the code. For each of these there is a lemma with the exact condition:
handing over a mutex does not boost the new owner (`Mutex.HandOffInheritance`); a memory pool counts a waiter that timed
out for ever (`MemPool.FreeAstrayIff`); shrinking a block in place can leave free memory below lfree
(`SmallMem.ShrinkLowestIff`); the last block of a heap is overlooked when it fits exactly (`SmallMem.ExactFitIsLost`);
32-bit rounding (`MemHeap.RequestCovers`, `MemHeap.ReallocRightIff`); the comparison of wrapped ticks
(`Timers.DiffRightIff`); a precision of zero drops the digits of a number (`Format.DigitsShownIff`); what comes between
the parts of rt_thread_delete, rt_thread_resume, rt_thread_suspend, rt_timer_start and rt_timer_stop can lead them astray
(`ThreadCalls.DeletionEndsWell`, `ThreadCalls.ResumeEndsWell`, `StaleTests.ResumeTestEndsWell`,
`StaleTests.SuspendTestEndsWell`, `Timers.StartEndsWell`, `Timers.StartTimeEndsWell`, `Timers.StopEndsWell`);
releasing one of two mutexes can leave their owner less urgent than a waiter of the other (`Mutex.NestedRelease`); large
power-of-two chunks are only as aligned as their zone (`SlabZones.ChunkAlignedIff`); skip_atoi does not read back numbers from 2^31 on
(`Format.NumeralReadBack`).

`dafny verify dfyconfig.toml` checks everything.

| files | subject |
|---|---|
| Bits, ReadyBitmap | `__rt_ffs` and the ready bitmap, in its one-level and two-level forms |
| Seqs, RtList | lists as sequences, and the circular pointer lists that stand for them |
| Kernel, KernelRuns, KernelObject | threads and scheduler: steps, runs, and the code |
| ThreadSteps, Events | what each step does to one thread; flags that steps raise and lower |
| KernelAnswers | the order of the ready queues |
| ThreadCalls, StaleTests | what can come between the parts of rt_thread_delete, rt_thread_resume and rt_thread_suspend |
| Waiting | blocking calls: waiting, waking, timing out, whatever else happens |
| Semaphore, Mutex, MutexSystem, Event, Mailbox, MessageNodes, MessageQueue, MemPool | the objects threads wait for |
| WaitAnswers, IpcAnswers | what each call on them answers, whom it wakes, and how long its caller waits |
| Timers, TimerDue | the timer skip list under tick wrap-around, and when a timer is due |
| ThreadTimers | threads, timers and ticks together |
| Tiles, MapRing, MemHeap, MemHeapAnswers, MemHeapObject | memheap.c |
| SmallMem, SmallMemAnswers, SmallMemObject | mem.c |
| SlabPages, SlabZones, SlabAnswers, SlabMemory, SlabHeapObject | slab.c |
| Format, FormatAnswers, Printf | rt_vsnprintf |

## Model

| member | source | states |
|---|---|---|
| Bits.FfsFindsLowestBit | rt-thread/src/kservice.c:1316-1330 | `__rt_ffs` answers 0 exactly for 0; otherwise it numbers, from 1, the lowest set bit of all 32 |
| ReadyBitmap.Bitmap.MarkSetsOneBit | rt-thread/src/scheduler.c:713-717 | inserting a thread turns on the bit of its priority and no other, in the one-level and in the two-level form |
| ReadyBitmap.Bitmap.UnmarkClearsOneBit | rt-thread/src/scheduler.c:800-811 | removing the last thread of a priority turns off that bit and no other; in the two-level form the group bit goes with the last bit of its table byte |
| ReadyBitmap.Bitmap.HighestIsLeastMarked | rt-thread/src/scheduler.c:162-184 | what the scheduler computes with `__rt_ffs` is the least marked priority; the group word is zero iff nothing is marked |
| KernelRuns.ReadyQueuesInEveryRun | rt-thread/src/scheduler.c:688-722 | in every state of every run from boot, in which startup, the tests and regions of suspend and of resume, the parts of delete, exit, timeout, priority change, sleep, block, resume-all, lock and schedule steps come in any order: a priority bit is set iff its queue is non-empty; a thread in a ready queue is READY and has that priority, and a READY thread is in its queue unless it is being deleted; no thread is on two lists; the current thread is on no ready queue; an active thread timer belongs to a suspended thread |
| KernelRuns.BitmapEqualsLinearSearch | rt-thread/src/scheduler.c:162-184 | bitmap plus `__rt_ffs` finds the same priority as a linear search of the priority table |
| KernelRuns.ScheduleRunsMostUrgent | rt-thread/src/scheduler.c:411-516 | with the scheduler unlocked, `rt_schedule` leaves running a most urgent one of the READY threads and a current thread still RUNNING; with it locked, nothing changes |
| KernelRuns.RoundRobin | rt-thread/src/scheduler.c:411-516 | k equally urgent threads take turns: the i-th call leaves the i-th of them running, and k calls restore the running thread, the queue order and the whole kernel state |
| KernelRuns.BootGoesThrough | rt-thread/src/components.c:215-256 | whatever threads are started before the scheduler, one at least, it finds one to switch to |
| KernelRuns.BootedInv | rt-thread/src/scheduler.c:246-270 | that thread is a most urgent one of those started, it runs, the others are READY, and the kernel is in order |
| KernelSpec.TimeoutInv | rt-thread/src/thread.c:749-772 | a timeout takes a waiting thread off its list, makes it READY with -RT_ETIMEOUT and stops its timer, and keeps the kernel in order |
| KernelSpec.ResumeThreadInv | rt-thread/src/thread.c:706-740 | `rt_thread_resume`, called with interrupts disabled as the IPC objects do, moves exactly one thread from a wait list to its ready queue and stops its timer |
| KernelSpec.ResumeUnlinkInv | rt-thread/src/thread.c:724-733 | the first region of any other rt_thread_resume takes the thread, whatever it is by now, off its list, stops its timer and keeps the kernel in order if the thread is in no ready queue, or is under deletion and not alone there |
| KernelSpec.SuspendThreadInv | rt-thread/src/thread.c:657-695 | `rt_thread_suspend`, called with interrupts disabled as the IPC objects do, takes a READY or RUNNING thread off its queue and leaves every wait list alone |
| KernelSpec.SuspendTakeInv | rt-thread/src/thread.c:676-692 | the region of any other rt_thread_suspend takes a started thread, whatever it is by now, off its list, suspends it, stops its timer and keeps the kernel in order |
| StaleTests.ResumeUnlinkIff | rt-thread/src/thread.c:716-733 | from any state, whatever has become of the thread since rt_thread_resume tested it, the first region keeps the kernel in order iff the thread is in no ready queue, or is under deletion and not alone there |
| StaleTests.ResumeTestEndsWell | rt-thread/src/thread.c:716-733 | in any run that is so iff everything that put the thread into a ready queue since the test was undone, unless it is under deletion and shares its queue |
| StaleTests.ReadyQueueStep | rt-thread/src/thread.c:657-778 | a step leaves a thread in a ready queue iff it puts it there, or it was there and the step does not take it out |
| StaleTests.TimeoutAfterTest | rt-thread/src/thread.c:716-728 | from any state with a sleeping thread whose ready queue is empty there is a run in which its time is up between the test and the region: the region then empties the queue and leaves the priority bit set |
| StaleTests.TestedTwice | rt-thread/src/thread.c:716-736 | of two calls that have both passed the test, one going through makes the region of the other break the invariant |
| StaleTests.SuspendTakeIff | rt-thread/src/thread.c:668-692 | from any state, whatever has become of the thread since rt_thread_suspend tested it, the region keeps the kernel in order, takes nobody off a wait list and revives no ended thread iff the thread is on no wait list and has not been closed |
| StaleTests.SuspendTestEndsWell | rt-thread/src/thread.c:668-692 | in any run that is so iff the thread has left every wait list it has come onto since the test, and has not been closed |
| StaleTests.WaitListStep | rt-thread/src/ipc.c:79-183 | a step leaves a thread on a wait list iff it blocks it, or it was on one and the step does not take it off |
| StaleTests.BlockedAfterTest | rt-thread/src/thread.c:668-692 | from any state in which rt_schedule would switch to the tested thread there is a run in which it blocks before the region: the region and a later rt_thread_resume leave it running with thread->error RT_EOK, off the list it waited on |
| KernelSpec.ChangePriorityInv | rt-thread/src/thread.c:572-613 | a priority change moves a READY thread to its new queue and recomputes the cached bit masks |
| KernelSpec.DeleteInv | rt-thread/src/thread.c:430-460 | a deletion that nothing interrupts leaves the thread CLOSE, on the defunct list and on no other, with its timer stopped |
| KernelSpec.DeleteRemoveInv | rt-thread/src/thread.c:439-443 | the first region of rt_thread_delete takes the thread off its list and keeps the kernel in order |
| KernelSpec.ExitInv | rt-thread/src/thread.c:80-113 | `rt_thread_exit`, one region, does the same to the current thread at once |
| ThreadCalls.ReadyOnNoList | rt-thread/src/thread.c:439-443 | after that region a READY thread is READY and on no list |
| ThreadSteps.RecordStep | rt-thread/src/thread.c:80-778 | what each step does to the record of one thread, field by field |
| ThreadSteps.OffStep | rt-thread/src/thread.c:80-778 | a step leaves a thread on no list iff it takes it off, or it was off and the step does not link it |
| ThreadSteps.TimerStep | rt-thread/src/thread.c:445-767 | after a step a thread timer runs iff the step starts it, or it ran and the step does not stop it |
| ThreadCalls.DeletionIff | rt-thread/src/thread.c:448-458 | from any state, closing and burying a thread leaves it on the defunct list alone iff it is on no list and its timer is stopped |
| ThreadCalls.DeletionEndsWell | rt-thread/src/thread.c:430-460 | in any run rt_thread_delete ends so iff everything that linked the thread after the first region was undone, and every start of its timer after the second |
| ThreadCalls.UndisturbedDeletion | rt-thread/src/thread.c:430-460 | it does for a thread other than the current one whose timer is stopped and that nobody resumes or gives another priority meanwhile; such a thread does not come to run |
| ThreadCalls.ClosedInEveryRun | rt-thread/src/thread.c:448-455 | once closed, a thread stays CLOSE and on no list until it is buried |
| ThreadCalls.TimeoutInTheGap | rt-thread/src/thread.c:439-455 | from any state with a running and a READY thread there is a run in which the first sleeps and its time is up between the first region and rt_timer_detach: the deletion then leaves it CLOSE on its ready queue and on the defunct list |
| ThreadCalls.ResumeIff | rt-thread/src/thread.c:735-736 | from any state, the second region of rt_thread_resume keeps the kernel in order iff the thread is on no list and its timer is stopped |
| ThreadCalls.ResumeEndsWell | rt-thread/src/thread.c:706-740 | in any run that is so iff everything that linked the thread between the regions was undone, and every start of its timer |
| ThreadCalls.ResumedTwice | rt-thread/src/thread.c:732-736 | a second rt_thread_resume between the regions of the first queues the thread twice |
| KernelSpec.BlockInv | rt-thread/src/ipc.c:79-124 | suspending the current thread on a wait list puts it at the place the queue discipline says, with its timer running iff the wait is limited |
| KernelSpec.ResumeAllInv | rt-thread/src/ipc.c:156-183 | `rt_ipc_list_resume_all` wakes every waiter of one list with an error and touches no other |
| KernelAnswers.QueueOrder | rt-thread/src/scheduler.c:688-815 | every ready queue is first come, first served: whatever the step, those that it does not take off stay in their order, and the threads that come in, one or all those of a wait list, come in at the end in order |
| ThreadTimers.SysStepInv | rt-thread/src/thread.c:487-517 | threads and timer list together: every step, an interrupt of the tick and rt_timer_check among them, keeps the timer of each thread in the list exactly while its record says so, and no timer overdue |
| ThreadTimers.TimedOutOnTime | rt-thread/src/thread.c:749-772 | in every run a thread that sleeps or waits with a timeout does so for no longer than the ticks given, and if rt_timer_check wakes it, that is exactly so many ticks later, with -RT_ETIMEOUT and off any wait list |
| KernelObject.Kernel.ScheduleInsertThread | rt-thread/src/scheduler.c:688-722 | the in-place insertion has the specified effect and changes nothing about other threads |
| KernelObject.Kernel.ScheduleRemoveThread | rt-thread/src/scheduler.c:785-815 | the in-place removal has the specified effect |
| KernelObject.Kernel.ThreadTimeout | rt-thread/src/thread.c:749-772 | the assignments of `rt_thread_timeout`, one by one, have the specified effect |
| KernelObject.Kernel.ThreadChangePriority | rt-thread/src/thread.c:572-613 | the assignments have the specified effect |
| KernelObject.Kernel.ThreadStartup | rt-thread/src/thread.c:288-313 | the assignments of `rt_thread_startup` up to its rt_schedule have the specified effect and keep the invariant |
| KernelObject.Kernel.SuspendFirst | rt-thread/src/thread.c:668-674 | the test of rt_thread_suspend refuses a thread that is neither READY nor RUNNING |
| KernelObject.Kernel.SuspendSecond | rt-thread/src/thread.c:676-692 | the assignments of its region have the specified effect and keep the invariant |
| KernelObject.Kernel.ResumeTested | rt-thread/src/thread.c:716-722 | the test of rt_thread_resume refuses a thread that is not SUSPENDed |
| KernelObject.Kernel.ResumeFirst | rt-thread/src/thread.c:724-733 | the first region of rt_thread_resume has the specified effect and keeps the invariant under the condition of StaleTests.ResumeUnlinkIff |
| KernelObject.Kernel.ResumeSecond | rt-thread/src/thread.c:735-736 | so has its second region, and keeps the invariant |
| KernelObject.Kernel.DeleteFirst | rt-thread/src/thread.c:439-443 | so has each part of rt_thread_delete: the first region, |
| KernelObject.Kernel.DeleteThird | rt-thread/src/thread.c:448-449 | the assignment of RT_THREAD_CLOSE, |
| KernelObject.Kernel.DeleteLast | rt-thread/src/thread.c:451-458 | and the last region; all keep the invariant |
| KernelObject.Kernel.ThreadDelete | rt-thread/src/thread.c:430-460 | the parts one after the other are the uninterrupted deletion |
| KernelObject.Kernel.ThreadExit | rt-thread/src/thread.c:80-113 | the assignments have the specified effect and keep the invariant |
| KernelObject.Kernel.SearchPosition | rt-thread/src/ipc.c:92-117 | the loop over a priority-ordered wait list stops before the first strictly less urgent waiter |
| KernelObject.Kernel.IpcListSuspend | rt-thread/src/ipc.c:79-124 | `rt_ipc_list_suspend` has the specified effect |
| KernelObject.Kernel.IpcListResumeAll | rt-thread/src/ipc.c:156-183 | the loop has the specified effect and keeps the invariant |
| KernelObject.Kernel.Schedule | rt-thread/src/scheduler.c:411-516 | `rt_schedule` as a sequence of assignments has the specified effect and keeps the invariant |
| KernelObject.Kernel.ExitCritical | rt-thread/src/scheduler.c:915-940 | the outermost exit reschedules, an inner one only counts down |
| Waiting.StepFrames | rt-thread/src/thread.c:657-778 | what any single kernel step may change about one thread and one wait list: who can start or stop its timer, change its error, take it off the list |
| Waiting.OtherOk | rt-thread/src/ipc.c:396-401 | whatever the rest of the system does, thread->error of other threads and the regions of a deletion included, a thread is on a wait list of the object iff it waits there, and a thread taken off carries the outcome of its wait, or is being deleted |
| Waiting.TakenWaiterIff | rt-thread/src/thread.c:668-733 | the region of an rt_thread_suspend, or the first of an rt_thread_resume, begun earlier leaves lists and calls in agreement iff the thread is not waiting in a call on the object by now |
| Waiting.TakenWaiterServed | rt-thread/src/thread.c:676-736 | otherwise an rt_thread_suspend and a later rt_thread_resume send the waiter on with RT_EOK in thread->error though the object has not ended its wait |
| Waiting.BeginOk | rt-thread/src/ipc.c:370-398 | beginning to wait keeps this |
| Waiting.WakeOneOk | rt-thread/src/ipc.c:133-147 | so does waking a waiter |
| Waiting.TimedOutWaits | rt-thread/src/thread.c:749-767 | among the threads inside a call an active timer belongs to one that still waits or is being deleted while it waited, so no wait ends by a timer after it has ended otherwise |
| WaitAnswers.BeginsWaiting | rt-thread/src/ipc.c:351-390 | a call that has to wait suspends its caller at the place that FIFO, PRIO or LIFO order says, with thread->error cleared and its timer running iff the time it still has is positive; no other thread changes |
| WaitAnswers.WakesFirst | rt-thread/src/ipc.c:140-154 | waking a wait list wakes the first thread of it, which keeps its error, stops its timer and is READY; the others wait on in their order |
| WaitAnswers.PassesAddUp | rt-thread/src/ipc.c:1673-1684 | what is left of a timeout after each pass through a loop, less the ticks elapsed, not below zero and for ever if negative, adds up over the passes |
| RtList.InsertAfter | rt-thread/include/rtservice.h:58-65 | on a circular list of nodes linked by pointers, the new node comes right after the given one and the ring is otherwise as before |
| RtList.InsertBefore | rt-thread/include/rtservice.h:73-80 | right before the given one |
| RtList.Remove | rt-thread/include/rtservice.h:86-92 | the node is taken out of its ring and ends up alone; removing it again changes nothing |
| RtList.Append | rt-thread/include/rtservice.h:73-80 | inserting before the head appends to the sequence the list stands for |
| RtList.InsertAt | rt-thread/include/rtservice.h:73-80 | inserting before a member puts the node at that place of the sequence |
| RtList.Unlink | rt-thread/include/rtservice.h:86-92 | removing a member leaves the others in their order |
| RtList.Len | rt-thread/include/rtservice.h:107-119 | the loop counts the members |
| RtList.IsEmpty | rt-thread/include/rtservice.h:98-101 | the pointer comparison answers whether the list has no members |
| Semaphore.SemStepInv | rt-thread/src/ipc.c:323-470 | every critical region of the semaphore calls, and every step elsewhere, keeps the invariant: a positive value excludes waiters, tokens are conserved, waits are accounted for |
| Semaphore.SemaphoreRuns | rt-thread/src/ipc.c:453-460 | in every state of every run from rt_sem_init: value > 0 implies no waiters; begun waits are still waiting, or were granted, timed out, failed or taken off by a deletion, each once; and initial value + releases = value + tokens handed out as long as there is no reset |
| Semaphore.WaitEndsOnce | rt-thread/src/ipc.c:342-402 | each wait ends exactly once: by a release with RT_EOK and one token, by its timer with -RT_ETIMEOUT and none, by a reset, or by a deletion, after which the thread is closed or its timer still fires; the outcome then stays until the thread returns it |
| Semaphore.TakeOutcome | rt-thread/src/ipc.c:342-402 | `rt_sem_take` returns RT_EOK exactly when a token was consumed for its caller, at once or by the release that ended its wait |
| IpcAnswers.SemTakeAnswer | rt-thread/src/ipc.c:341-390 | rt_sem_take takes a token if the value is positive, else answers -RT_ETIMEOUT for time 0 with nothing changed, else waits for the time given |
| IpcAnswers.SemReleaseAnswer | rt-thread/src/ipc.c:440-472 | rt_sem_release wakes the first waiter and leaves the value, or with nobody waiting raises it by one |
| IpcAnswers.SemResetAnswer | rt-thread/src/ipc.c:482-510 | a reset sets the value and wakes every waiter with an error |
| IpcAnswers.FinishAnswers | rt-thread/src/ipc.c:396-401 | back from rt_schedule, rt_sem_take, rt_mutex_take and rt_event_recv answer what their wait ended with |
| Semaphore.RtSemaphore.TakeRegion | rt-thread/src/ipc.c:342-398 | `rt_sem_take` up to its rt_schedule, as assignments, has the specified effect |
| Semaphore.RtSemaphore.ReleaseRegion | rt-thread/src/ipc.c:440-470 | so has `rt_sem_release` |
| Mutex.MxStepInv | rt-thread/src/ipc.c:653-880 | every critical region of the mutex calls, and every step elsewhere that does not close the owner, keeps the invariant |
| Mutex.MutexRuns | rt-thread/src/ipc.c:680-746 | in every state of every run: value = 1 iff there is no owner iff hold = 0; waiters imply an owner; a blocked take returns RT_EOK to the owner and to nobody else |
| Mutex.PriorityInheritance | rt-thread/src/ipc.c:698-746 | for one RT_IPC_FLAG_PRIO mutex, when no step outside changes the priority of the owner or a waiter: the owner is at least as urgent as every waiter through boost, enqueue, timeout, deletion and hand-off; the saved priority is its own; every other started thread, the last owner included, runs at its own priority |
| MutexSystem.TakeBeside | rt-thread/src/ipc.c:672-746 | what `rt_mutex_take` on one mutex does is, for every other mutex whose owner and callers it does not concern, a few steps of the rest of the system that keep inheritance there |
| MutexSystem.ReleaseBeside | rt-thread/src/ipc.c:815-880 | so is what `rt_mutex_release` does |
| MutexSystem.InheritanceInEveryRun | rt-thread/src/ipc.c:672-880 | for any number of RT_IPC_FLAG_PRIO mutexes, when a thread asks for one only while it owns no other and nothing but the mutexes changes the priority of an owner or a waiter, in every state of every run: each owner is at least as urgent as all its waiters and as its own priority, which is the one saved; and every started thread that owns none, whatever it has owned before, runs at its own priority |
| Mutex.PiRestore | rt-thread/src/ipc.c:829-838 | a full release gives the owner back the priority it had when it took the mutex |
| Mutex.ReleaseUndoesTake | rt-thread/src/ipc.c:680-697 | a release undoes a take that did not have to wait, nested or not, but for thread->error |
| IpcAnswers.MutexTakeAnswer | rt-thread/src/ipc.c:672-746 | rt_mutex_take answers RT_EOK iff the caller owns the mutex afterwards, taken once more than before; it waits iff it is then on the wait list, the owner having become as urgent; otherwise another thread owns it, time is 0, the answer is -RT_ETIMEOUT and only thread->error has changed |
| IpcAnswers.MutexReleaseAnswer | rt-thread/src/ipc.c:802-872 | rt_mutex_release answers RT_EOK iff the caller was the owner, else -RT_ERROR with only thread->error changed; a nested take is counted down, and the last release gives the caller its priority back and the mutex to the first waiter, or frees it |
| Mutex.HandOffInheritance | rt-thread/src/ipc.c:827-870 | after hand-off the new owner is at least as urgent as those left waiting iff it was already before, in the order of the list: hand-off does not boost |
| Mutex.FifoHandOffInverts | rt-thread/src/ipc.c:827-870 | with RT_IPC_FLAG_FIFO, from any start in which one thread runs, a less urgent one is READY and a more urgent one sleeps, there is a run whose hand-off leaves the more urgent thread waiting for the less urgent one |
| Mutex.NestedRelease | rt-thread/src/ipc.c:827-838 | a thread that owns two mutexes and releases one is still as urgent as the waiters of the other iff the priority saved for the first is |
| Mutex.RaisedWhileQueued | rt-thread/src/ipc.c:698-746 | boosting a thread that waits for another mutex leaves it at its place; that list stays in order of priority iff the new priority lies between those of its neighbours |
| Mutex.RtMutex.TakeRegion | rt-thread/src/ipc.c:672-746 | `rt_mutex_take` up to its rt_schedule, as assignments, has the specified effect |
| Mutex.RtMutex.ReleaseRegion | rt-thread/src/ipc.c:815-880 | so has `rt_mutex_release` |
| Event.CatchIsAnswer | rt-thread/src/ipc.c:1068-1090 | a thread woken by rt_event_send is given, and the event left with, what an immediate rt_event_recv at that point of the walk would return and leave, RT_EVENT_FLAG_CLEAR included |
| Event.SendServes | rt-thread/src/ipc.c:1048-1099 | `rt_event_send` as a whole: as if every waiting thread, in list order, had received immediately |
| Event.FewerEvents | rt-thread/src/ipc.c:1157-1175 | taking events away satisfies nobody, so that clearing on behalf of one thread never makes another one ready |
| Event.EventRuns | rt-thread/src/ipc.c:1157-1198 | in every state of every run no suspended thread has its AND/OR condition satisfied by the event, and a blocked receive that succeeds returns events that answer its request |
| IpcAnswers.EventRecvAnswer | rt-thread/src/ipc.c:1143-1214 | rt_event_recv answers with those of the events asked for that are there, if they are enough, all or any, and takes away exactly these if told to clear; else -RT_ETIMEOUT for time 0, or it waits with the request in its record |
| IpcAnswers.EventSendAnswer | rt-thread/src/ipc.c:1040-1108 | rt_event_send adds the new events to those that are there, all of which it keeps, and serves the waiters out of the union |
| IpcAnswers.EventResetAnswer | rt-thread/src/ipc.c:1248-1275 | a reset takes all events away and wakes every waiter with an error |
| Event.RtEvent.SendRegion | rt-thread/src/ipc.c:1028-1109 | the walk over the linked list, removing as it goes, has the specified effect |
| Event.RtEvent.RecvRegion | rt-thread/src/ipc.c:1154-1212 | `rt_event_recv` up to its rt_schedule has the specified effect |
| Mailbox.StoreAppends | rt-thread/src/ipc.c:1534-1541 | storing at in_offset appends to the queue the ring stands for |
| Mailbox.FetchTakesFirst | rt-thread/src/ipc.c:1682-1690 | fetching at out_offset takes the first message of that queue |
| Mailbox.MbStepInv | rt-thread/src/ipc.c:1441-1746 | send, receive, the turns of their loops after a wake-up, reset and steps elsewhere keep the ring in order and lose no wake-up |
| Mailbox.OutcomesFit | rt-thread/src/ipc.c:1526-1713 | a message returned is the oldest one stored, RT_EOK from a send means the message was stored, and with any other result no message has moved |
| Mailbox.MailboxRuns | rt-thread/src/ipc.c:1463-1560 | in every state of every run: received messages followed by the ring are the sent messages; if receivers wait, entry is at most the number of receivers woken and not yet back; if senders wait, size - entry is at most the number of woken senders; with barging, timeouts and resets |
| IpcAnswers.MailSendPass | rt-thread/src/ipc.c:1474-1555 | a pass of rt_mb_send_wait stores the message at the end and wakes a receiver if there is room, else answers -RT_EFULL if no time is left, else waits for the time that is left |
| IpcAnswers.MailRecvPass | rt-thread/src/ipc.c:1616-1708 | a pass of rt_mb_recv takes the first message and wakes a sender if there is one, else answers -RT_ETIMEOUT, or waits |
| IpcAnswers.MailSendAgain | rt-thread/src/ipc.c:1515-1534 | a sender back from rt_schedule gives up with the error of its wait, or makes another pass with what is left of its timeout |
| IpcAnswers.MailRecvAgain | rt-thread/src/ipc.c:1663-1684 | so does a receiver |
| IpcAnswers.MailResetAnswer | rt-thread/src/ipc.c:1725-1757 | a reset empties the ring and wakes all receivers and all senders with an error |
| Mailbox.RtMailbox.SendRegion | rt-thread/src/ipc.c:1463-1560 | one pass of the send loop, as assignments to the ring buffer, has the specified effect |
| Mailbox.RtMailbox.RecvRegion | rt-thread/src/ipc.c:1609-1713 | so has one pass of the receive loop |
| Mailbox.RtMailbox.SendReturns | rt-thread/src/ipc.c:1511-1524 | what a sender does when it runs again: its error, the time left, the loop |
| Mailbox.RtMailbox.ResetRegion | rt-thread/src/ipc.c:1733-1746 | the reset has the specified effect |
| MessageNodes.TakeIdleOk | rt-thread/src/ipc.c:1983-1996 | taking a node from the free list keeps every node in one place and both lists well linked |
| MessageNodes.LinkLastOk | rt-thread/src/ipc.c:2006-2021 | linking at the tail keeps this, and the tail pointer right |
| MessageNodes.LinkFirstOk | rt-thread/src/ipc.c:2095-2104 | linking at the head likewise |
| MessageNodes.TakeHeadOk | rt-thread/src/ipc.c:2237-2247 | taking the head likewise, the tail pointer cleared with the last node |
| MessageNodes.ReleaseOk | rt-thread/src/ipc.c:2255-2261 | giving a node back likewise |
| MessageNodes.ClearOk | rt-thread/src/ipc.c:2296-2314 | the reset loop returns every queued node to the free list and leaves nodes in flight alone |
| MessageNodes.CopyOutDelivers | rt-thread/src/ipc.c:2252-2253 | what a receiver is given agrees with what was sent, up to the shorter of the two sizes |
| MessageQueue.SendRefusedIff | rt-thread/src/ipc.c:1972-1992 | a send is refused as full iff messages queued and nodes in flight together make up all nodes; as an error iff the message is too long |
| MessageQueue.MqStepItems | rt-thread/src/ipc.c:1980-2104 | rt_mq_send appends, rt_mq_urgent puts in front, a receive takes the front, a reset empties; messages on their way between two critical regions are neither lost nor exchanged |
| MessageQueue.MqStepInv | rt-thread/src/ipc.c:1963-2320 | every region keeps the nodes in order and loses no wake-up |
| MessageQueue.MessageQueueRuns | rt-thread/src/ipc.c:2237-2261 | in every state of every run: each node is on the free list, in the queue or in the hands of one activation, and only there; the links lead from head to tail; entry is the length; if receivers wait, every message is on offer to one already woken |
| IpcAnswers.QueueSendAnswer | rt-thread/src/ipc.c:2022-2040 | the last region of a send wakes the first receiver, if there is one |
| IpcAnswers.QueueRecvPass | rt-thread/src/ipc.c:2170-2240 | a pass of rt_mq_recv takes the first message if there is one, else answers -RT_ETIMEOUT if no time is left, else waits for the time that is left |
| IpcAnswers.QueueRecvAgain | rt-thread/src/ipc.c:2218-2240 | a receiver back from rt_schedule gives up with the error of its wait, or makes another pass with what is left of its timeout |
| IpcAnswers.QueueResetAnswer | rt-thread/src/ipc.c:2279-2320 | a reset empties the queue and wakes every receiver with an error |
| MessageQueue.RtMessageQueue.constructor | rt-thread/src/ipc.c:1809-1828 | the loop of rt_mq_init threads the free list |
| MessageQueue.RtMessageQueue.SendTakeRegion | rt-thread/src/ipc.c:1974-1997 | the checks of rt_mq_send and rt_mq_urgent and their first region have the specified effect |
| MessageQueue.RtMessageQueue.CopyIn | rt-thread/src/ipc.c:1999-2002 | so has the copying of the message into the node |
| MessageQueue.RtMessageQueue.SendRegion | rt-thread/src/ipc.c:2004-2030 | the second region of rt_mq_send, as assignments, has the specified effect |
| MessageQueue.RtMessageQueue.UrgentRegion | rt-thread/src/ipc.c:2095-2115 | so has that of rt_mq_urgent |
| MessageQueue.RtMessageQueue.RecvRegion | rt-thread/src/ipc.c:2160-2247 | so has one pass of rt_mq_recv |
| MessageQueue.RtMessageQueue.DropAll | rt-thread/src/ipc.c:2296-2311 | so has the reset loop |
| MemPool.TakeBlock | rt-thread/src/mempool.c:370-381 | taking the first free block makes its header name the pool and keeps the list and its count right |
| MemPool.GiveBlock | rt-thread/src/mempool.c:414-419 | giving a block back keeps them right |
| MemPool.WaitsFirst | rt-thread/src/mempool.c:334-337 | a thread that has to wait becomes the first to be served |
| MemPool.BlocksHandedOver | rt-thread/src/mempool.c:370-419 | a block handed out was free and is no longer, a block given back is free, and no other block changes hands |
| MemPool.MemPoolRuns | rt-thread/src/mempool.c:304-441 | in every state of every run: each block is on block_list or handed out with its header naming the pool; block_free_count is the list length; suspend_thread_count is the number of waiters plus the waits that have lapsed; if threads wait, every free block is on offer to one already woken |
| MemPool.LapsesIff | rt-thread/src/thread.c:749-767 | a wait lapses when its thread times out or a deletion takes it off the list, and in no other way |
| MemPool.FreeAstrayIff | rt-thread/src/mempool.c:421-434 | `rt_mp_free` takes the head of an empty list for a thread iff nobody waits and some wait has lapsed |
| MemPool.WithoutLapses | rt-thread/src/mempool.c:421-434 | without timeouts and deletions of waiting threads it never does |
| IpcAnswers.PoolAllocPass | rt-thread/src/mempool.c:316-384 | a pass of rt_mp_alloc takes the first free block if there is one, else answers RT_NULL with -RT_ETIMEOUT if no time is left, else waits, first in line, for the time that is left |
| IpcAnswers.PoolAllocAgain | rt-thread/src/mempool.c:353-369 | an rt_mp_alloc back from rt_schedule gives up with the error of its wait, or makes another pass with what is left of its timeout |
| IpcAnswers.PoolFreeAnswer | rt-thread/src/mempool.c:406-441 | rt_mp_free puts the block in front of the free ones and wakes the first waiter if it counts one |
| MemPool.TimeoutLeadsAstray | rt-thread/src/mempool.c:337 | with one block, one thread and one timeout it would |
| MemPool.BlocksFit | rt-thread/src/mempool.c:96-117 | the blocks lie in the pool and overlap neither each other nor a header |
| MemPool.RtMemPool.constructor | rt-thread/src/mempool.c:105-117 | the loop of rt_mp_init threads the free list through the headers |
| MemPool.RtMemPool.AllocRegion | rt-thread/src/mempool.c:313-384 | `rt_mp_alloc` up to its rt_schedule or its end, as assignments, has the specified effect |
| MemPool.RtMemPool.AllocReturns | rt-thread/src/mempool.c:357-368 | so has what it does when it runs again: its error, the time left, the loop |
| MemPool.RtMemPool.FreeBlock | rt-thread/src/mempool.c:398-441 | so has `rt_mp_free`, when it finds a waiter where it looks for one |
| Timers.DiffOrders | rt-thread/src/timer.c:363-372 | comparing wrapped 32-bit ticks orders times less than half the range apart, however often the tick wraps |
| Timers.DiffRightIff | rt-thread/src/timer.c:363-372 | and only such times |
| Timers.InsertBySorted | rt-thread/src/timer.c:340-393 | a timer started now goes behind those due at the same time, and the row stays in order |
| Timers.InsertBySublist | rt-thread/src/timer.c:340-393 | inserting into two rows keeps the upper one a sublist of the lower one |
| Timers.TimerRuns | rt-thread/src/timer.c:323-444 | for any number of skip-list levels, in every state of every run, with the parts of rt_timer_start and rt_timer_stop as steps: the last row is ordered by due time and, for equal times, by start; it holds active timers only, and every active timer but those that an rt_timer_stop has taken out and whose flag it clears next; every row is a sublist of the row below |
| Timers.CheckFiresDue | rt-thread/src/timer.c:494-547 | `rt_timer_check` ends; it fires exactly the timers that are due, in that order; one-shot timers are then off and periodic ones due one period from now |
| Timers.DuePrefix | rt-thread/src/timer.c:507-547 | in an ordered row the due timers come first |
| Timers.NextTimeoutIsEarliest | rt-thread/src/timer.c:108-119 | the next timeout is the tick of the earliest due time of all active timers that nobody is stopping |
| Timers.TimerList.Heads | rt-thread/src/timer.c:340-376 | the walk along the skip list finds, in every row, the place behind everything due no later |
| Timers.StartInsertIff | rt-thread/src/timer.c:326-396 | from any state, the second region of rt_timer_start keeps the rows in order iff the timer is not in the list; otherwise it is in the last row twice |
| Timers.StartEndsWell | rt-thread/src/timer.c:296-396 | in any run that is so iff whatever started the timer since the first region was undone, for a start not overtaken by its own due time |
| Timers.StartedInTheGap | rt-thread/src/timer.c:309-327 | a start of the same timer from an interrupt between the regions is a case where it is not |
| Timers.StartTimeIff | rt-thread/src/timer.c:319-324 | from any state, storing the due tick keeps the rows in order iff the timer is in none of them, or the new time lies between those of its neighbours |
| Timers.StartTimeEndsWell | rt-thread/src/timer.c:309-324 | in any run that is so iff whatever started the timer since the first region was undone, or the new time lies there |
| TimerDue.StoredDue | rt-thread/src/timer.c:324 | where rt_timer_start stores the due tick, the timer becomes due init_tick from then on, and the tick stored is the wrapped sum, whether another call has started the timer in between or not; nothing else about any timer changes |
| TimerDue.StartedDue | rt-thread/src/timer.c:299-411 | after a start that nothing interrupts the timer is active, in the list and due init_tick from now |
| TimerDue.StartParts | rt-thread/src/timer.c:312-407 | the three parts of rt_timer_start one after the other are the uninterrupted call: the same rows, records and due times |
| TimerDue.StopParts | rt-thread/src/timer.c:422-447 | so are those of rt_timer_stop, which leaves the timer inactive and in no row, and every other timer as it was |
| TimerDue.DueInEveryRun | rt-thread/src/timer.c:324 | in every state of every run a timer in the list is due at the moment it was last started, or fired periodically, plus the init_tick it had then, and stores the tick of that |
| TimerDue.RowsByCounter | rt-thread/src/timer.c:382-404 | how many rows a timer goes into: one more for every pair of zero bits at the end of random_nr |
| TimerDue.RowsJoined | rt-thread/src/timer.c:382-404 | rt_timer_start counts random_nr up and puts the timer into that many of the lowest rows, leaving every other timer in its rows |
| Timers.RetimedInTheGap | rt-thread/src/timer.c:309-324 | from any state with two timers of equal time there is a run in which an interrupt starts both after the first region and a tick passes: the tick stored then puts the first behind the second, against their order in the list |
| Timers.ListStep | rt-thread/src/timer.c:296-547 | a step leaves a timer in the list iff it inserts it, or it was there and the step does not remove it |
| Timers.StopRemoveInv | rt-thread/src/timer.c:435-441 | after the region of rt_timer_stop the timer is in no row, though it is still active, and the rows are in order |
| Timers.StopClearIff | rt-thread/src/timer.c:443-444 | from any state, clearing the flag leaves everything in order iff the timer is not in the list |
| Timers.StopEndsWell | rt-thread/src/timer.c:422-447 | in any run rt_timer_stop leaves the timer inactive and in no row iff whatever started it between the region and the clearing of the flag was undone |
| Timers.StartedWhileStopping | rt-thread/src/timer.c:435-444 | from any state with an active timer there is a run in which an interrupt starts it there: the call leaves it in the list with its flag cleared, so that the next rt_timer_stop is refused |
| Timers.TimerList.TimerStart | rt-thread/src/timer.c:296-412 | `rt_timer_start`, not interrupted, over the rows, as a walk and insertions, has the specified effect |
| Timers.TimerList.StartFirst | rt-thread/src/timer.c:309-315 | so have its first region, |
| Timers.TimerList.StartSecond | rt-thread/src/timer.c:319-324 | the assignment of the due tick: timeout_tick becomes the wrapped sum of the present tick and init_tick, and the timer due init_tick from now; the rows stay in order under the condition of Timers.StartTimeIff and no other, |
| Timers.TimerList.StartLast | rt-thread/src/timer.c:326-396 | and its second region |
| Timers.TimerList.TimerStop | rt-thread/src/timer.c:422-449 | so has `rt_timer_stop`, not interrupted |
| Timers.TimerList.StopFirst | rt-thread/src/timer.c:430-431 | and so have its test, |
| Timers.TimerList.StopSecond | rt-thread/src/timer.c:435-441 | its region, |
| Timers.TimerList.StopLast | rt-thread/src/timer.c:443-444 | and the clearing of the flag, which keeps everything in order under the condition of Timers.StopClearIff and no other |
| Timers.TimerList.NextTimeoutTick | rt-thread/src/timer.c:108-119 | `rt_timer_list_next_timeout` returns the tick of the first timer of the last row |
| Timers.TimerList.TickIncrease | rt-thread/src/clock.c:72-81 | the tick, wrapping at 2^32, follows the time that does not wrap |
| Timers.TimerList.TimerCheck | rt-thread/src/timer.c:494-552 | the loop of `rt_timer_check` fires the specified timers |
| MemHeap.AllocSpec | rt-thread/src/memheap.c:138-272 | `rt_memheap_alloc` keeps the heap in shape and adds one live region, of at least the size asked for unless rounding that up wraps; no other live byte changes; if it fails nothing has changed |
| MemHeap.AllocFailsIff | rt-thread/src/memheap.c:155-173 | it fails iff no free block is large enough or the request is not below available_size: a request for all that is left is refused |
| MemHeap.RequestCovers | rt-thread/src/memheap.c:147-150 | the rounded size covers the request iff the request is at most 2^32 - 4 |
| MemHeapAnswers.AllocTakes | rt-thread/src/memheap.c:137-270 | it takes the first block on the free ring with room: exactly the rounded size, with the rest in front of the ring, or the whole block if the rest would be too small, less than 36 bytes more; available_size and max_used_size move accordingly |
| MemHeapAnswers.Accounting | rt-thread/src/memheap.c:137-270 | in every heap in shape: pool_size is available_size, the used payloads and 24 bytes for each block |
| MemHeap.FreeSpec | rt-thread/src/memheap.c:495-591 | freeing keeps the heap in shape, merges with unused neighbours, and removes exactly the one live region |
| MemHeapAnswers.FreeGives | rt-thread/src/memheap.c:494-586 | freeing adds the bytes of the block to available_size and a header for each unused neighbour, and puts the block in front of the ring unless it was merged to the left |
| MemHeap.ReallocSpec | rt-thread/src/memheap.c:284-492 | `rt_memheap_realloc` keeps the heap in shape; if it fails nothing has changed; otherwise the region has the rounded size, or up to 36 bytes more if it was not much larger before, begins with the first min(old, new) bytes, and no other live region changed, whether it grew, shrank or moved; for every size but those of the next line |
| MemHeap.ReallocRightIff | rt-thread/src/memheap.c:320-393 | for every size below 2^32 and any heap that rt_memheap_alloc makes, the heap stays in shape and the block is resized or untouched iff the rounded size plus 12 does not reach 2^32 or the next block is used |
| MemHeapAnswers.ReallocTakes | rt-thread/src/memheap.c:284-492 | which way rt_memheap_realloc goes, and what is left: with more than 36 bytes over the block is cut to exactly the rounded size; up to that it stays as it is; it grows to exactly that size into an unused block large enough; else it moves to the first block with room, or RT_NULL is returned; in each case available_size as a number |
| MemHeapAnswers.CallTakes | rt-thread/src/memheap.c:284-310 | so for the whole call, an RT_NULL block and a size of zero included |
| MemHeap.HugeReallocBreaks | rt-thread/src/memheap.c:350 | a pool of 96 bytes with one block of 12: resizing it to 2^32 - 8 bytes is not refused and leaves the heap out of shape |
| MemHeap.LiveDisjoint | rt-thread/src/memheap.c:188-258 | live regions do not overlap and no header lies in one |
| MemHeap.HeapStepInv | rt-thread/src/memheap.c:138-591 | every step keeps the heap in shape and every live region it does not name |
| MemHeap.HeapRuns | rt-thread/src/memheap.c:79-111 | in every state of every run from rt_memheap_init, callers writing into their blocks: the blocks tile the pool in address order and end in the used tail; the free ring holds exactly the unused blocks; no two neighbours are unused; available_size is the sum of the unused payloads |
| MemHeap.RegionPersists | rt-thread/src/memheap.c:138-591 | a live region that no step names keeps its contents over any run |
| MemHeap.MaxUsedIsHighWater | rt-thread/src/memheap.c:231-242 | max_used_size is the high-water mark of pool_size - available_size, counting the moment of a move in which old and new block are both in use |
| MapRing.InsertRing | rt-thread/src/memheap.c:209-226 | linking a header into a ring of next and prev pointers |
| MapRing.RemoveRing | rt-thread/src/memheap.c:250-254 | taking one out |
| MemHeapObject.MemHeapObj.constructor | rt-thread/src/memheap.c:50-115 | `rt_memheap_init` sets up the two rings |
| MemHeapObject.MemHeapObj.MemheapAlloc | rt-thread/src/memheap.c:138-272 | the search along the free ring and the splitting, on the pointers, have the specified effect and keep both rings |
| MemHeapObject.MemHeapObj.MemheapFree | rt-thread/src/memheap.c:495-591 | so has the coalescing |
| MemHeapObject.MemHeapObj.MemheapRealloc | rt-thread/src/memheap.c:284-492 | so has the resizing |
| SmallMem.MallocSpec | rt-thread/src/mem.c:272-387 | `rt_malloc` keeps the heap in shape, adds one live region of the rounded size and changes no other live byte |
| SmallMem.LfreeShortcut | rt-thread/src/mem.c:305-309 | while lfree is the lowest free block, searching from lfree finds the same block as searching from the start of the heap |
| SmallMem.MallocFailsIff | rt-thread/src/mem.c:305-387 | it fails iff the request is too large or no free block below mem_size_aligned - size fits |
| SmallMemAnswers.MallocNullIff | rt-thread/src/mem.c:272-387 | it fails, lfree lowest or not, iff nothing or too much is asked for, or no free block from lfree on and below mem_size_aligned - size has room |
| SmallMemAnswers.MallocTakes | rt-thread/src/mem.c:305-371 | otherwise it takes the first such block: exactly the rounded size, or the whole block if the rest would be too small; used_mem grows by that and a header |
| SmallMem.ExactFitIsLost | rt-thread/src/mem.c:306 | the strict bound of the search overlooks a last block of exactly the size |
| SmallMem.FreeSpec | rt-thread/src/mem.c:546-607 | `rt_free` keeps the heap in shape, merges with free neighbours, removes exactly the one live region, and keeps lfree lowest |
| SmallMemAnswers.FreeGives | rt-thread/src/mem.c:546-607 | it takes the block and its header off used_mem, leaves max_mem, and moves lfree down only |
| SmallMem.ShrinkLowestIff | rt-thread/src/mem.c:471-497 | shrinking in place leaves lfree the lowest free block iff the next block was free or lfree was already lower |
| SmallMem.ReallocSpec | rt-thread/src/mem.c:421-510 | `rt_realloc` keeps the heap in shape; if it fails nothing has changed; otherwise the region has the rounded size, or less than 24 bytes more than a new block, the first min(old, new) bytes are kept and no other live region changed |
| SmallMemAnswers.ReallocTakes | rt-thread/src/mem.c:421-510 | which way rt_realloc goes, and what is left: RT_NULL for more than the heap, a release for nothing, the same block for the same size, exactly the size when more than 24 bytes are over, and else the first block with room or RT_NULL; in each case used_mem as a number |
| SmallMem.LiveDisjoint | rt-thread/src/mem.c:311-371 | live regions do not overlap |
| SmallMem.SmallMemRuns | rt-thread/src/mem.c:156-194 | in every state of every run: the chain tiles the heap, prev inverts next, no two neighbours are free, used_mem is exact, lfree is a free block or heap_end; and lfree is the lowest free block as long as no block was shrunk in place |
| SmallMem.SmStepInv | rt-thread/src/mem.c:272-607 | every step keeps the heap in shape and every live region it does not name |
| SmallMem.RegionPersists | rt-thread/src/mem.c:272-607 | a live region that no step names keeps its contents over any run, callers writing into their blocks |
| SmallMem.MaxMemIsHighWater | rt-thread/src/mem.c:350-368 | max_mem is the high-water mark of used_mem, counting the moment of a move in which old and new block are both in use |
| SmallMem.ShrinkHidesSpace | rt-thread/src/mem.c:471-497 | a run in which a shrink hides 32 free bytes from rt_malloc |
| SmallMemObject.SmallHeap.Malloc | rt-thread/src/mem.c:272-387 | the search and the splitting, on the header fields, have the specified effect |
| SmallMemObject.SmallHeap.PlugHoles | rt-thread/src/mem.c:156-194 | `plug_holes` has the specified effect |
| SmallMemObject.SmallHeap.FreeBlock | rt-thread/src/mem.c:546-607 | `rt_free` has the specified effect |
| SmallMemObject.SmallHeap.Realloc | rt-thread/src/mem.c:421-510 | `rt_realloc` has the specified effect |
| SlabPages.CanonicalUnique | rt-thread/src/slab.c:272-322 | the list of maximal free runs in address order is determined by the set of free pages |
| SlabPages.AllocSpec | rt-thread/src/slab.c:236-270 | `rt_page_alloc` takes the lowest pages that will do and leaves such a list; it fails iff no run is long enough |
| SlabPages.FreeSpec | rt-thread/src/slab.c:272-322 | `rt_page_free` adds the pages and leaves such a list |
| SlabPages.FreeUndoesAlloc | rt-thread/src/slab.c:272-322 | freeing what was just allocated restores the list exactly |
| SlabPages.PageHeap.PageAlloc | rt-thread/src/slab.c:236-270 | the pointer-to-pointer loop over the linked runs has the specified effect |
| SlabPages.PageHeap.PageFree | rt-thread/src/slab.c:272-322 | so has that of rt_page_free |
| SlabZones.ZoneIndexIsTightest | rt-thread/src/slab.c:401-459 | zoneindex picks the zone with the smallest chunks that are large enough |
| SlabZones.ZoneIndexOfChunk | rt-thread/src/slab.c:713-725 | asking for a whole chunk gives the same zone, as rt_realloc relies on |
| SlabZones.LiveDisjoint | rt-thread/src/slab.c:539-577 | no two live blocks overlap, chunks and large blocks alike |
| SlabZones.LookupFinds | rt-thread/src/slab.c:825-828 | the page table leads from an address to its zone and chunk, or to the large block |
| SlabZones.MallocSpec | rt-thread/src/slab.c:478-664 | `rt_malloc` keeps the allocator in shape; what it hands out was not live and is large enough; no other block moves |
| SlabAnswers.MallocNullIff | rt-thread/src/slab.c:478-664 | it answers RT_NULL iff nothing is asked for; or a large block of n pages, n being (size + 4095) / 4096, and rounding wraps or no n consecutive pages are free; or a chunk, and no zone of its class has one, no zone is set aside, and no pages for a zone are free |
| SlabAnswers.MallocTakes | rt-thread/src/slab.c:491-652 | a large block takes exactly its n pages, the lowest; a chunk comes from a zone of its class with room, never used space first, else from a zone set aside, and new pages are taken only if there is neither |
| SlabAnswers.MallocInLine | rt-thread/src/slab.c:538-555 | the zone used is the first in zone_array, which it leaves with its last chunk; a new one becomes the first |
| SlabZones.FreeBlockSpec | rt-thread/src/slab.c:771-901 | `rt_free` keeps the allocator in shape and releases exactly the block at the address |
| SlabAnswers.FreeGives | rt-thread/src/slab.c:771-901 | a large block gives back its pages; a chunk goes back to its zone; the zone, when that was its last chunk in use and another of its class has room, is set aside, or with two set aside already gives back its pages |
| SlabAnswers.FreeInLine | rt-thread/src/slab.c:844-876 | a zone that was full comes to the front of zone_array, and one that is set aside leaves it |
| SlabZones.RetireInv | rt-thread/src/slab.c:853-900 | putting an entirely free zone aside, or back to the page allocator, loses no live chunk |
| SlabZones.ReallocSpec | rt-thread/src/slab.c:678-738 | `rt_realloc` either keeps the chunk or puts a new block in place of the old one; if it fails nothing has changed |
| SlabZones.ReallocStaysIff | rt-thread/src/slab.c:713-716 | it keeps the chunk iff the new size belongs to the zone the chunk is in |
| SlabAnswers.ReallocNullIff | rt-thread/src/slab.c:678-738 | it answers RT_NULL iff the block is no chunk of the right class already and rt_malloc refuses the size, or for a chunk the chunk size |
| SlabAnswers.ReallocFits | rt-thread/src/slab.c:678-738 | the block it returns is a chunk of the class of the new size, or just the pages needed |
| SlabZones.ChunkAlignedIff | rt-thread/src/slab.c:632-639 | a chunk whose size is a power of two is aligned to its size iff its zone is, as every zone is up to one page; every chunk is aligned to 8 bytes |
| SlabZones.FirstBlockAlignedIff | rt-thread/src/slab.c:376-391 | in any new heap the first block of 8192 bytes, a chunk or with zones of 32 KB a large block, is aligned to its size iff the page behind the page table is |
| SlabZones.ChunkMisaligned | rt-thread/src/slab.c:632-639 | in a heap of 16385 pages that begins at a multiple of 8192, the first chunk of 8192 bytes is not aligned to its size, against rt-thread/src/slab.c:152-153 |
| SlabZones.SlabRuns | rt-thread/src/slab.c:640-652 | in every state of every run from rt_system_heap_init: z_nfree = (z_nmax - 1 - z_uindex) + length of z_freechunk; a zone is on zone_array iff z_nfree > 0; zone_free_cnt is at most the threshold; pages, zones and large blocks do not overlap |
| SlabAnswers.SlabConserves | rt-thread/src/slab.c:771-901 | in every state of every run from rt_system_heap_init every page is free, of the page table, of a zone in service or set aside, or of a large block; two zones at most are set aside, and of each class one at most in service has no chunk in use |
| SlabAnswers.NothingLost | rt-thread/src/slab.c:853-900 | so when every block has been given back, all pages are free but the page table, two zones and one for each class at most |
| SlabHeapObject.ChooseZoneSize | rt-thread/src/slab.c:372-374 | the loop stops at the first of 32, 64 and 128 KB whose double is no less than a 1024th of the heap |
| SlabMemory.HeaderApart | rt-thread/src/slab.c:625-643 | no zone header lies in an allocated block |
| SlabMemory.FreeChunkApart | rt-thread/src/slab.c:825-832 | nor does a free chunk, with the link in it |
| SlabMemory.TakesFree | rt-thread/src/slab.c:247-264 | rt_page_alloc writes into heads of free pages only |
| SlabMemory.GivesFree | rt-thread/src/slab.c:285-315 | rt_page_free into heads of free pages and of the run given back |
| SlabMemory.MallocKeeps | rt-thread/src/slab.c:478-664 | rt_malloc leaves every byte of every allocated block alone: the zone headers, page heads and page table it writes are apart from them |
| SlabMemory.FreeKeeps | rt-thread/src/slab.c:771-901 | rt_free leaves every byte of every other allocated block alone |
| SlabMemory.ReallocContents | rt-thread/src/slab.c:678-738 | the block rt_realloc returns begins with the old contents, as far as they fit, and every other block keeps its place and its bytes; if it fails, so does the block itself |
| SlabMemory.BlockPersists | rt-thread/src/slab.c:478-901 | over any run from rt_system_heap_init, with callers writing into their blocks, a block that nobody gives back, moves or writes keeps its place and every byte |
| SlabHeapObject.SlabHeap.Malloc | rt-thread/src/slab.c:478-664 | the assignments of rt_malloc have the specified effect |
| SlabHeapObject.SlabHeap.Free | rt-thread/src/slab.c:771-901 | so have those of rt_free |
| SlabHeapObject.SlabHeap.Realloc | rt-thread/src/slab.c:678-738 | so have those of rt_realloc, the copying of the contents included |
| SlabHeapObject.Ram.MemCopy | rt-thread/src/slab.c:707-732 | the loop copies the bytes and changes no others |
| Format.DigitsValue | rt-thread/src/kservice.c:676-686 | the digits print_number makes stand for the number, in base ten and sixteen, without leading zeros |
| Format.NumeralFits | rt-thread/src/kservice.c:620-625 | they fit into tmp |
| Format.SignAndMagnitude | rt-thread/src/kservice.c:651-663 | sign and magnitude are those of the signed number, the least one included |
| Format.NumberTextLength | rt-thread/src/kservice.c:688-775 | the text is as wide as asked for, or as long as sign and digits need |
| Format.DigitsShownIff | rt-thread/src/kservice.c:760-765 | whatever the width, the text has the length of sign, digits and padding iff the precision is not zero: else the digits are not printed |
| Format.DotZero | rt-thread/src/kservice.c:760-765 | so "%.0d" prints a sign at most, and no digits |
| FormatAnswers.NumberReadsBack | rt-thread/src/kservice.c:606-775 | whatever the flags, the width and the precision, as long as that is not zero, the text of a number, spaces, sign, zeros, digits and spaces, reads as the number, signed or not, in base ten and sixteen |
| FormatAnswers.IntegerReadsBack | rt-thread/src/kservice.c:976-1022 | the text of "%d", "%i", "%u", "%x", "%X" and "%o" with any flags and width reads as the argument, cut to a short by h; each takes one argument |
| FormatAnswers.PointerReadsBack | rt-thread/src/kservice.c:941-956 | so does that of "%p", in base sixteen; without a width it has eight digits |
| FormatAnswers.TextConversions | rt-thread/src/kservice.c:886-974 | "%s" shows its string, "(NULL)" for none, cut to the precision, in a field of the width; "%c" a character; "%%" a percent sign; any other letter itself |
| FormatAnswers.FlagsSeen | rt-thread/src/kservice.c:823-833 | the flags are those between the percent sign and the first other character, in any order |
| FormatAnswers.WidthSeen | rt-thread/src/kservice.c:837-850 | the field width is the number the digits stand for, as an int that wraps, or the next argument for a star |
| FormatAnswers.PrecisionSeen | rt-thread/src/kservice.c:853-866 | so is the precision behind a dot; negative ones and none count as zero |
| Format.NumeralReadBack | rt-thread/src/kservice.c:588-595 | skip_atoi reads the digits up to their end; it reads the number back iff that is below 2^31, and otherwise the int with the same 32 bits |
| Format.FormatReadBack | rt-thread/src/kservice.c:777-1039 | what rt_vsnprintf puts out for "%d" and a number that is not negative, skip_atoi reads back; for "%u" it does iff the number is below 2^31 |
| Format.Literal | rt-thread/src/kservice.c:810-818 | text without a percent sign is put out as it is |
| Printf.SkipDigits | rt-thread/src/kservice.c:588-595 | the loop of skip_atoi, whose int wraps around, computes the specified number and end |
| Printf.MakeDigits | rt-thread/src/kservice.c:676-686 | the loop leaves the digits in tmp, the last one first |
| Printf.PrintNumber | rt-thread/src/kservice.c:606-775 | print_number, with its counters, writes the specified text, cut off at the end of the buffer |
| Printf.VsnPrintf | rt-thread/src/kservice.c:777-1039 | for every format and argument list the value returned is the length of the whole output, whatever the size; for size > 0 the buffer holds the first min(len, size - 1) characters and a NUL, and nothing else in memory changes |

## Left out

- `%o` prints hexadecimal digits, as `divide` does (rt-thread/src/kservice.c:568-585); the model follows the code.
- The build modelled has RT_PRINTF_PRECISION, and neither RT_PRINTF_LONGLONG nor RT_PRINTF_SPECIAL; `long` has 32 bits. Where an int overflows while digits are read, it wraps around; print_number counts with unbounded integers, so a field width below -2^31 plus the length of the number is not modelled as the machine has it.
- Format.FormatReadBack: with padding the text begins with spaces, which skip_atoi does not skip; the lemma is about "%d" and "%u" as they stand.
- Printf.VsnPrintf: asks that the output end below the end of the address space, and that the buffer be as large as what is written into it.
- SMP branches, cpu.c and spinlocks: the board has one processor, and only the `#else` paths are modelled.
- signal.c, and with it the EINTR retry of rt_mutex_take.
- Context switches, stacks, hooks, debug output, object names and the object registry; detaching and deleting IPC objects, pools and heaps.
- Of the boot only the starting of threads and of the scheduler; rt_thread_init, rt_thread_detach, and the clean-up of deleted threads by the idle thread.
- KernelRuns.ReadyQueuesInEveryRun: a run ends where rt_thread_delete would close, or rt_thread_resume insert, a thread that has been linked again in between, and where rt_thread_resume would take a thread out of a ready queue; ThreadCalls.DeletionEndsWell, ThreadCalls.ResumeEndsWell and StaleTests.ResumeTestEndsWell say when that is. It also ends where rt_thread_resume would insert, or rt_thread_suspend suspend, a thread closed in between. A thread is deleted once.
- Waiting.OtherOk: a run of an IPC object ends where the region of an rt_thread_suspend or rt_thread_resume begun earlier finds a thread waiting there; Waiting.TakenWaiterIff and StaleTests.SuspendTestEndsWell say when that is.
- The test of thread->stat in rt_thread_delete is part of its first region: a thread started after the test counts as linked after the region.
- Thread control blocks are records in a map that the methods reassign; the wait lists and ready queues in them are sequences. That the circular pointer lists stand for such sequences is shown in RtList on their own.
- An object's wait lists change only by its own steps, by timeouts and by deletions: a program that calls rt_thread_resume on a thread waiting for an IPC object, blocks with the scheduler locked, or deletes a thread that was woken but has not run yet is outside `Waiting.Foreign`.
- Closing the owner of a mutex, by rt_thread_delete or rt_thread_exit, is left out of the mutex runs.
- In the kernel runs and in those of the IPC objects any active thread timer may fire at any moment, and the ticks a thread waits between two looks are any number; ThreadTimers ties the firing to the ticks for the kernel alone. There rt_timer_check runs to its end before the next tick, rt_timer_detach of a thread timer is taken for rt_timer_stop, and other timers' functions touch neither threads nor timers.
- The region of a blocking call between the return of rt_schedule and the next look at the object is one step.
- Counter overflow: a semaphore value of 65535 and a mutex held 255 times are preconditions.
- MutexSystem.InheritanceInEveryRun: a program that gives an owner or a waiter another priority by rt_thread_control is left out. So is a thread that owns two mutexes, or that waits for one while it is boosted through another: Mutex.NestedRelease, Mutex.RaisedWhileQueued and Mutex.HandOffInheritance say for such threads when a single step keeps the order.
- MemPool.RtMemPool.constructor: asks for at least one block; with none, rt_mp_init writes in front of the pool.
- MemPool.MemPoolRuns: a run ends where rt_mp_free would go astray; MemPool.FreeAstrayIff says where that is.
- MessageQueue: a message is written and read whole while its node is in flight; byte-wise interleaving changes nothing since the node is in nobody else's hands.
- Soft timers, timer callbacks that start or stop timers, and periodic timers with a period of 0 (rt-thread/src/timer.c:539-543). Ticks go up to three past a due time before rt_timer_check runs.
- MemHeap.ReallocSpec: asks that the rounded size plus 12 stay below 2^32 or the next block be used; MemHeap.ReallocRightIff shows that the code needs this.
- MemHeap.HeapRuns: a run ends where rt_memheap_realloc would go astray in that way.
- Timers.TimerRuns: a run ends where the rest of an rt_timer_start or rt_timer_stop would upset the rows because another call has started the timer in between (Timers.StartTimeIff, Timers.StartInsertIff, Timers.StopClearIff), and a start is not overtaken by its own due time. Setting or clearing RT_TIMER_FLAG_ACTIVATED is one step. rt_timer_detach and rt_timer_delete are left out.
- Headers and payload bytes: a header's fields are kept in maps, and its bytes in memory are marked as belonging to a header, so that overlap with data would show.
- SmallMem.SmallMemRuns: asks for room for one smallest block after initialisation; RT_USING_MEMTRACE is off. The semaphore around rt_malloc and rt_free is left out: each call is one step.
- SlabHeapObject: zone headers, page heads and the page table are fields, and `Ram` holds the bytes of the blocks; that in one memory they are apart is shown in SlabMemory, which leaves open what values the allocator writes there. rt_malloc gives up its lock around rt_page_alloc; the model has the call as one step. rt_malloc(0) returns NULL, against rt-thread/src/slab.c:154.
- rt_calloc, rt_malloc_align and the rt_memory_info and list functions: nothing beyond the calls they make.
- Drivers, console, device and component code, finsh commands.
