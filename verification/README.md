# Lyos: a Dafny model of its kernel IPC, scheduling, coroutines, ext2, DMA pools, clocks and AVL tree

This project models the parts of the Lyos microkernel system whose correctness is an invariant over
every run, or arithmetic over every input, and proves those invariants. It is self-contained Dafny;
`dafny verify dfyconfig.toml` checks all of it.

Every part has two layers. A layer of functions says what one step does to a state that is a value,
and lemmas prove what every step keeps and what follows over whole runs. A layer of classes and
methods does the same work as the C code does it, on linked lists, arrays, bitmaps and byte
buffers, and each method is proved to end in the state that the functions give. Pointers are
indices into a table; `Nil` is -1.

* **Kernel rendezvous IPC** (`IpcState`, `IpcInvariant`, `IpcSteps`, `IpcAsync`, `IpcOrder`,
  `IpcHistory`, `IpcRuns`, `IpcBlocking`, `IpcNotice`, `IpcFate`, `IpcStore`, `IpcCalls`, `IpcReply`):
  processes, the sender queues, asynchronous tables and pending bits. A ghost history records every message the kernel
  accepted, so that "delivered exactly once, in order" can be said; it is proved to be what the calls
  of the run passed. A sender may hand in any table at
  any time, also an empty one, which takes everything back. The table stays in the sender's memory, so
  a run also has the sender's stores to it, between any two calls of others. The sender
  queues, deadlock and notifications are treated for every run whatsoever; the contents and the order of
  messages for every run in which no store opens an entry of the table that the kernel has. `IpcKernel` is
  `kernel/proc.c` on its linked sender queues, with the walk of `deadlock()`; `IpcClient` is
  `asyncsend3` with its kernel calls.
* **Run queues** (`RunQueue`) on the kernel's circular lists (`KList`), with the queue bitmap.
* **Coroutines** (`CoroState`, `CoroInvariant`, `CoroThreads`, `CoroRuns`, `CoroKernel`): a step is
  the code between two context switches. `CoroLaws` says what callers can rely on, in
  terms of the queues, and `CoroFrame` what steps leave alone. The clients
  `RwLock`/`RwProgress`/`RwHolders`/`RwClients`/`RwKernel` (readers/writer lock) and
  `WorkerPool`/`AsyncDriver`/`AsyncWork` (worker pool, deferred work, on the bounded queue of
  `MessageQueue`) are proved under the library's own scheduler and next to any other thread activity
  that leaves their objects alone.
* **ext2** (`Ext2Record`, `Ext2Dir`, `Ext2Directory`): directory blocks as bytes, which must behave
  as a finite map, on the buffer cache of `Ext2Cache`. `Ext2Map`/`Ext2File`: the three-level block map, which must behave as an array.
  `Ext2Alloc`: the bitmap allocator.
* **DMA pool** (`DmaCarve`, `DmaPool`): carving of slots and the life of the pool.
* **Clocks** (`ClockScale`, `ClockEvent`): fixed-point scaling in 32- and 64-bit arithmetic.
* **AVL tree** (`Avl`, `AvlArena`, `AvlIter`): insertion and removal in place, and the iterator.

Where the code does not keep what one would expect, the code is modelled as it is and the exact
condition is proved:

* `IpcFate.LostExactly` and `IpcFate.OrderExactly`: a sender that leaves an unfinished message out of
  its next table withholds it, and may overtake it.
* `IpcAsync.StoreExactly`: a sender that reopens an entry of a finished table before the kernel has
  dropped it has the old message received twice, and the new one lost (`IpcStore.StoreRace`).
  `asyncsend3` does so exactly if everything it sent is finished, the kernel still has the table, and
  the table starts at slot 0 (`IpcClient.Outbox.AsyncSend`).
* `RwProgress.StrandedExactly`: a thread that asks for the readers/writer lock while it reads is
  stranded for good if it asks for writing or behind a writer.
* `Ext2Map.WriteRightIffReady`: freshly allocated double and triple indirect blocks are not cleared.
* `Ext2File.ExtendedRight`: a block taken for a position that then cannot be mapped is lost.
* `Ext2Directory.DeletionSpoilsHint`: after some deletions a block with room is passed over.
* `Ext2Directory.DeletionKept`: a deletion does not mark the buffer dirty.
* `DmaCarve.Carve` and `DmaPool.SlotPool.Destroy`: 32-bit counts of slots and of objects wrap.
* `ClockEvent.InRangeIffProgrammable`: limits are raised to 1000 ns, and saturate.
* `ClockEvent.ClampedIs`: an upper limit that is negative as a signed number makes every event a shortest
  one.
* `ClockScale.MulShift`: a search that runs down to shift 0 returns the multiplier of shift 1. That
  exit is dead for both callers: `ClockScale.SearchBreaks` and `ClockEvent.ConfigBreaks`.
* `RunQueue.Scheduler.PstSetFlags`: a process made runnable is not queued. The only caller passes the
  free-slot flag, so this never occurs: `RunQueue.Scheduler.FreeSlot`.

## Model

| member | source | states |
|---|---|---|
| IpcRuns.NoMissedRendezvous | kernel/proc.c:461-611 | in every state reached without a reopening store, a process parked in the receive half, also of a combined send and receive, has no queued sender it would accept and, if it takes asynchronous messages, no unfinished table entry for it |
| IpcBlocking.NoDeadlockedSenders | kernel/proc.c:385-416 | in every state of every run, with any stores of the senders, no chain of blocked senders returns to its start |
| IpcBlocking.NoMissedSender | kernel/proc.c:461-611 | in every such state a process parked in the receive half has no queued sender it would accept |
| IpcBlocking.NextBlocking | kernel/proc.c:256-300 | every call and every store whatsoever keeps what the invariant says of blocking messages |
| IpcRuns.EachLetterOnePlace | kernel/proc.c:374-445 | in those states every message the kernel accepted is at exactly one place, read off the processes: queued with its sender, posted in a table, waiting in a delivery buffer, received, refused for a bad destination, or withheld by its sender |
| IpcRuns.DeliveredRight | kernel/proc.c:1005-1021 | in those states a received message is an accepted one, unchanged and with its true sender, and none is received twice |
| IpcCalls.ReceivedWasPassed | kernel/proc.c:396-432 | in those states every message received was passed, with that body and to that process, by its source in an earlier call that was accepted, and each accepted message is received at most once |
| IpcCalls.RecordIsCalls | kernel/proc.c:256-300 | in every run, whatever its stores, the record is exactly what the accepted calls passed, in order |
| IpcCalls.SendOutcome | kernel/proc.c:374-445 | each result of a send is decided by the state before it: bad peer, cycle, busy exactly for a non-blocking send to a receiver that does not wait for it, else accepted |
| IpcCalls.SendEffect | kernel/proc.c:385-437 | an accepted send puts exactly its own message on record and in the hands of a waiting receiver, or last in its queue; any other changes nothing |
| IpcCalls.NotifyEffect | kernel/proc.c:777-801 | a notification is handed to a receiver that waits for it, or becomes pending, exactly if the peer exists |
| IpcReply.ReplyFirst | kernel/proc.c:275-283 | in every run a process whose combined send and receive was accepted is not back in its own code before it has received, after the call, a message or notification of the process it sent to |
| IpcReply.MessageFirst | kernel/proc.c:461-611 | the same for every receive and the source it asked for |
| IpcReply.NoticeFirst | kernel/proc.c:482-499 | a receive by a process that does not send takes an acceptable pending notification before anything else, the lowest of several, and clears just that one |
| IpcReply.EntrySecond | kernel/proc.c:501-520 | else, if it takes asynchronous messages, the first unfinished entry for it of the lowest sender that has one, before any queued sender |
| IpcReply.SenderThird | kernel/proc.c:522-593 | else the acceptable queued sender that asked first, which is unblocked |
| IpcReply.ParkedLast | kernel/proc.c:595-605 | else it parks its caller for that source, and for asynchronous messages exactly if it takes them |
| IpcFate.LostExactly | kernel/proc.c:889-898 | over every run without a reopening store, with any tables: the kernel has given up an accepted message exactly if a table call of its sender left it out unfinished, or a store of the sender took it out of the table, and no later table of the sender has it |
| IpcFate.NextWithheld | kernel/proc.c:881-974 | a message is withheld after a call exactly if the call left it out, or the store took it out, or it was withheld and the call does not bring it back |
| IpcFate.OrderExactly | kernel/proc.c:904-963 | over every run without a reopening store two messages of one channel are out of order exactly if at some time the later one was in its receiver's hands while the sender withheld the earlier one |
| IpcFate.CompleteTablesInOrder | kernel/proc.c:904-963 | while the sender never takes back the earlier of two messages and leaves the later one with the kernel, by a table or by a store, the two are in order |
| IpcFate.BlockingInOrder | kernel/proc.c:374-445 | over those runs blocking messages from one process to another always arrive in the order of acceptance |
| IpcFate.AnyTable | kernel/proc.c:881-898 | every table a sender may hand in is covered: its messages can always be numbered as the model wants |
| IpcBlocking.OldestFirst | kernel/proc.c:522-593 | in every state of every run the head of a sender queue is a process blocked on that receiver that asked no later than any other |
| IpcRuns.HistoryGrows | kernel/proc.c:256-300 | between any two points of a run without a reopening store the record only grows: no delivery is taken back, what was received stays received, and only an unfinished asynchronous message can go back to its sender |
| IpcNotice.NotificationKept | kernel/proc.c:777-801 | whatever happens before and after, a notification to an existing process stays pending or in the receiver's hands until it has been copied out |
| IpcNotice.NextHolds | kernel/proc.c:482-499 | after any call a held notification is still held or was copied out by that call |
| IpcNotice.NoneFromNothing | kernel/proc.c:777-801 | in every run a process has received, and still has before it, no more notifications of another than were sent |
| IpcRuns.NextGood | kernel/proc.c:256-300 | every call of every kind, and every store that does not reopen an entry, keeps the global invariant: queues hold exactly the blocked senders, pending bits cover unfinished entries, the send graph is acyclic, each message has one place |
| IpcRuns.SendGood | kernel/proc.c:374-445 | a send keeps the invariant in each of its outcomes: hand-over, queueing, refusal of a cycle, busy and bad destination |
| IpcRuns.ReceiveGood | kernel/proc.c:461-611 | a receive keeps the invariant whichever source it is served from, in the order notification, asynchronous, queued, parked |
| IpcSteps.NewEdge | kernel/proc.c:385-416 | a sender whose destination does not reach it can block without making the send graph cyclic |
| IpcSteps.AcyclicNoCycle | kernel/proc.c:337-358 | the rank that makes the walk of deadlock() end excludes every cycle |
| IpcSteps.TakeSenderInv | kernel/proc.c:527-593 | taking a sender out of the queue keeps the invariant although the sender may itself be parked in its receive half: nobody it accepts can be queued on it |
| IpcAsync.ReceiveAsyncFromKeeps | kernel/proc.c:613-678 | delivering one table entry loses and duplicates none, and a receiver drops the table only when every used entry is done |
| IpcAsync.ReceiveAsyncFromFails | kernel/proc.c:613-678 | it fails only if the sender has no unfinished entry for the caller |
| IpcAsync.ReceiveAsyncAnyKeeps | kernel/proc.c:680-698 | the scan over all pending senders keeps the invariant and fails only if none has an entry for the caller |
| IpcAsync.SendTableInv | kernel/proc.c:881-974 | handing in a table, empty or not and whatever it leaves out, keeps the invariant: entries whose receiver waits are delivered, bad destinations refused, every other destination has its pending bit, and what is left out goes back to the sender |
| IpcAsync.StoreExactly | lib/liblyos/asyncsend.c:71-73 | a store of the sender to its table keeps the invariant if and only if it does not open an entry of the table the kernel has |
| IpcStore.StoreRace | lib/liblyos/asyncsend.c:46-73 | the run in which asyncsend3 restarts at slot 0 and its receiver runs between its stores: the first message is received twice and the second not accepted |
| IpcStore.ReceivedTwice | kernel/proc.c:613-678 | in every state in which a finished table is still with the kernel and its receiver still has the pending bit, storing the flags of a received entry has that message received again |
| IpcStore.MarkedNotTaken | kernel/proc.c:904-916 | the message that is then stored over the marked slot is not accepted by the call |
| IpcStore.NextMarks | kernel/proc.c:613-678 | between two calls of a sender the kernel does nothing to its table but mark entries done and drop it, whatever other processes do |
| IpcStore.TableKept | kernel/proc.c:889-974 | a table call is refused exactly without privilege, and the kernel keeps the table exactly if something in it is left unfinished |
| IpcStore.TableDropped | kernel/proc.c:613-678 | a receiver that looks delivers exactly if an unfinished entry is for it, and drops the table and its pending bit exactly if everything is finished |
| IpcStore.StoreUnseen | lib/liblyos/asyncsend.c:71-73 | a slot outside the table the kernel has stays outside whatever others do, and stores to it are no event |
| IpcStore.StoreForgotten | lib/liblyos/asyncsend.c:71-79 | a store to a finished entry makes no difference if the table is handed in before anyone looks |
| IpcKernel.Kernel.Deadlock | kernel/proc.c:337-358 | the walk ends, finds a cycle exactly when the destination reaches the sender along blocked sends, and then prints a send path from one to the other |
| IpcKernel.Kernel.PrintChain | kernel/proc.c:344-350 | the inner loop ends and lists a path of blocked sends from the destination to the sender |
| IpcKernel.Kernel.MsgSend | kernel/proc.c:374-445 | on the linked queues: the same new state and return code as the step, with the sender appended at the end of the list; accepted exactly if the peer exists, no cycle would close and the caller may wait or need not; the record grows by exactly its message, or not at all |
| IpcKernel.Kernel.TakeQueued | kernel/proc.c:522-605 | on the linked queues: finds and unlinks the first acceptable sender, or parks the receiver |
| IpcKernel.Kernel.MsgReceive | kernel/proc.c:461-611 | the same new state as the receive step, including which of the three kinds of messages is served first |
| IpcKernel.Kernel.SendRec | kernel/proc.c:275-283 | the receive half runs exactly when the send half was accepted, also when the caller is queued; the caller is then parked for its peer or has a message of it |
| IpcKernel.Kernel.MsgNotify | kernel/proc.c:777-801 | hands over to a parked receiver or sets the pending bit; keeps the invariant |
| IpcKernel.Kernel.RecvAsyncFrom | kernel/proc.c:613-678 | the table scan ends in the state of the step function: first unfinished entry for the caller, live flag dropped when all are done |
| IpcKernel.Kernel.RecvAsync | kernel/proc.c:680-698 | the scan over senders ends in the state of the step function |
| IpcKernel.Kernel.MsgSenda | kernel/proc.c:881-974 | the table loop ends in the state of the step function, for every table; the empty one only takes back, and a caller without privilege changes nothing |
| IpcKernel.Kernel.DeliverMsg | kernel/proc.c:1005-1021 | moves the waiting message to the process and clears the buffer, keeping the invariant |
| IpcKernel.Append | kernel/proc.c:427-437 | the walk to the last sender links the new one behind it and leaves every other queue alone |
| IpcKernel.Unlink | kernel/proc.c:527-577 | removes the found sender from its list and leaves every other queue alone |
| IpcClient.Outbox.constructor | lib/liblyos/asyncsend.c:21-36 | an empty table, as the kernel has it before the first call |
| IpcClient.Outbox.AsyncSend | lib/liblyos/asyncsend.c:26-80 | with its kernel calls, and callable again: takes the table back first exactly when the last slot is taken and something is unfinished; then hands in the unfinished messages in order and the new one; gives up exactly when all 200 slots are unfinished, and then the kernel has none of them. The slot it writes is one the kernel looks at exactly if all is finished, the kernel still has the table, and it starts at slot 0 |
| IpcClient.Outbox.Refresh | kernel/proc.c:652-660 | the sender sees the kernel's marks on its table, and nothing else has changed |
| IpcClient.Outbox.StaysLinked | kernel/proc.c:613-678 | whatever other processes do, what asyncsend3 relies on between two calls still holds |
| IpcClient.Outbox.Compact | lib/liblyos/asyncsend.c:50-69 | leaves exactly the unfinished messages, in order, at the front |
| IpcClient.ResubmitReposts | lib/liblyos/asyncsend.c:76-79 | the table handed in leaves out nothing the kernel has |
| IpcClient.FullArrayReposts | lib/liblyos/asyncsend.c:50-79 | whatever other processes do between taking the table back and handing it in again, other than reopening entries of theirs, the second call brings back every message |
| IpcClient.WithdrawAll | lib/liblyos/asyncsend.c:51-51 | the first of the two calls takes back every unfinished message |
| KList.Lists.Add | include/lyos/list.h:85-88 | puts an unlisted node first in one list and leaves the other rings as they are |
| KList.Lists.AddTail | include/lyos/list.h:90-93 | puts an unlisted node last in one list and leaves the other rings as they are |
| KList.Lists.Del | include/lyos/list.h:95-102 | takes a node out of the list it is in, links it to itself, and changes nothing at all for a node in no list |
| RunQueue.Scheduler.PickProc | kernel/sched.c:57-97 | nobody exactly when all queues are empty; else from the lowest non-empty queue the first expired entry, or if none the least deadline, taken off its list |
| RunQueue.Select | kernel/sched.c:81-92 | the walk chooses the first expired entry, or else a least deadline, despite the all-ones sentinel |
| RunQueue.LowestQueue | kernel/sched.c:65-75 | the bitmap scan finds the lowest non-empty queue, or that all are empty |
| RunQueue.QueuesInOrder | kernel/sched.c:99-109 | a lower queue is exactly a sooner class: real time before all others and by priority, the others by policy |
| RunQueue.Scheduler.EnqueueProc | kernel/sched.c:114-122 | keeps: listed processes are runnable, on the one list of their class; a bit is set exactly for a non-empty list |
| RunQueue.Scheduler.DequeueProc | kernel/sched.c:124-133 | keeps the bitmap exact, and a repeated dequeue changes no list |
| RunQueue.Scheduler.PstSet | include/kernel/proc.h:68-74 | keeps the run queue invariant and forgets no runnable process |
| RunQueue.Scheduler.PstSetFlags | include/kernel/proc.h:81-87 | keeps the invariant, and forgets a process exactly when it makes one runnable that was not and is not the current one |
| RunQueue.ClearingForgets | include/kernel/proc.h:81-87 | every input at which it forgets: state 0 for a blocked process that is not the current one |
| RunQueue.Scheduler.FreeSlot | kernel/system/sys_clear.c:25-31 | the one use of the macro takes the process off its list and forgets nobody |
| RunQueue.Scheduler.PstUnset | include/kernel/proc.h:94-100 | keeps the invariant; a process that becomes runnable is listed |
| RunQueue.Scheduler.Switch | kernel/proc.c:141-155 | something runs exactly when some process is runnable, no runnable process is forgotten, and it is the current one if it can go on, else the choice of pick_proc |
| RunQueue.Scheduler.Expire | kernel/sched.c:138-146 | a process out of time is queued again, first on its list and with its new deadline, and the choice of pick_proc from the lists as they then are becomes current |
| CoroRuns.OneQueueEach | lib/libcoro/queue.c:11-50 | in every state of every run a thread is in at most one queue, once, and its status tells which; the main thread runs or is ready |
| CoroRuns.LockedMeansOwner | lib/libcoro/mutex.c:36-48 | whenever a lock call returns 0, at once or after waiting, the caller owns the mutex |
| CoroRuns.GrantedInOrder | lib/libcoro/mutex.c:50-64 | a mutex is handed out in the order it was asked for, and one without owner has no waiter |
| CoroRuns.NoOvertaking | lib/libcoro/mutex.c:36-64 | over any run a waiter stays ahead of those behind it until it has owned the mutex |
| CoroRuns.WaitNeverFails | lib/libcoro/condvar.c:48-68 | a thread that returns from a wait or join never meets an error |
| CoroRuns.NextInv | lib/libcoro/scheduler.c:10-67 | every operation of the library keeps the invariant |
| CoroLaws.Answered | lib/libcoro/mutex.c:20-64 | the result of every call is decided by the state before it |
| CoroLaws.FairStep | lib/libcoro/scheduler.c:10-67 | every call makes ready exactly the threads it should, at the end of the run queue, and a switch is to its first thread |
| CoroLaws.ReadyRuns | lib/libcoro/scheduler.c:10-67 | over every run a ready thread with a threads before it has had the processor after a + 1 switches |
| CoroLaws.MutexAfter | lib/libcoro/mutex.c:20-64 | the owner and the queue of a mutex after every call: passed to the first waiter, freed, taken, joined at the end, or untouched |
| CoroLaws.WaitersAfter | lib/libcoro/condvar.c:32-68 | the queue of a condition variable after every call: a wait joins at the end, a signal takes the first out, a broadcast all, nothing else touches it |
| CoroLaws.JoinedMeansExited | lib/libcoro/thread.c:204-240 | over every run a join returns 0, at once or after a wait, only for a thread that has called exit, and frees it |
| CoroInvariant.ScheduleInv | lib/libcoro/scheduler.c:10-33 | at every switch the run queue is not empty, so the fallback to the main thread is never taken |
| CoroInvariant.HandedInv | lib/libcoro/mutex.c:50-64 | direct handoff keeps the invariant: the new owner is ready and no longer queued |
| CoroThreads.ExitInv | lib/libcoro/thread.c:186-202 | an exiting thread leaves every queue and wakes its joiner if there is one |
| CoroThreads.ResumeJoinInv | lib/libcoro/thread.c:204-240 | a woken joiner finds its target exiting and the exit mutex free, and frees the target |
| CoroThreads.StartIsMove | lib/libcoro/thread.c:90-144 | initializing a free thread drops nobody: the queues of its exit mutex and event are empty |
| CoroThreads.CreateInv | lib/libcoro/thread.c:63-88 | creation keeps the invariant and fails only with no free thread and the pool at its limit |
| CoroThreads.AddThreadsInv | lib/libcoro/thread.c:302-307 | growing the pool keeps the invariant although a thread is queued before it is reset |
| CoroKernel.Library.Enqueue | lib/libcoro/queue.c:11-21 | on the shared next field: appends to one queue and leaves the others, relying on an unqueued thread having no next |
| CoroKernel.Library.Dequeue | lib/libcoro/queue.c:23-50 | takes the first of one queue, clears its next, and leaves the others |
| CoroKernel.Library.Yield | lib/libcoro/scheduler.c:35-45 | the same state and result as the step function, on the linked queues; switches exactly if someone is ready, to the thread ready longest, with the caller last |
| CoroKernel.Library.Lock | lib/libcoro/mutex.c:36-48 | the same state and result as the step function, up to return or suspension |
| CoroKernel.Library.Unlock | lib/libcoro/mutex.c:50-64 | the same state and result as the step function |
| CoroKernel.Library.Wait | lib/libcoro/condvar.c:48-68 | the same state and result as the step function, up to the suspension |
| CoroKernel.Library.Broadcast | lib/libcoro/condvar.c:32-46 | the loop ends in the state of the step function: nobody waits any more, and all who did are ready, in order |
| CoroKernel.Library.Exit | lib/libcoro/thread.c:186-202 | the same state as the step function |
| CoroKernel.Library.Join | lib/libcoro/thread.c:204-240 | the same state and result as the step function, up to return or suspension; returns 0 at once exactly for a thread that has exited |
| CoroKernel.Library.Resume | lib/libcoro/condvar.c:63-67 | the rest of the call in which the thread was suspended, as the step function has it |
| CoroKernel.Library.Create | lib/libcoro/thread.c:63-88 | the same state and result as the step function; the new thread is ready |
| CoroKernel.Library.ResetLast | lib/libcoro/thread.c:304-307 | the reset that follows the queueing clears the link of the last free thread, which has none, so the free queue stays |
| CoroKernel.Library.GrowPool | lib/libcoro/thread.c:253-310 | doubles the pool unless that reaches 1024 threads |
| CoroFrame.StepFrame | lib/libcoro/mutex.c:20-64 | a step leaves alone every mutex and condition variable it does not name |
| CoroFrame.StepDoing | lib/libcoro/scheduler.c:10-67 | a step changes what its caller is doing and what no other thread is doing |
| RwLock.WriterExcludes | lib/libcoro/rwlock.c:53-84 | over every interleaving a writer with the lock excludes every reader and other writer, and `readers` is the number of read locks recorded; see RwClients for what is recorded |
| RwClients.CallersExclude | lib/libcoro/rwlock.c:32-123 | exclusion from the calls and their results alone: after a write request that returned 0, and until its unlock, no other has returned 0 without an unlock since, for reading or writing |
| RwClients.RunAgrees | lib/libcoro/rwlock.c:32-123 | in every run what the lock records is what the results told the callers: read requests that returned 0, at once or later, minus read unlocks, and write requests that returned 0 |
| RwClients.Results | lib/libcoro/rwlock.c:32-123 | the result of every call as a function of that: granted at once exactly if nobody writes or waits, and for writing nobody reads; later, a write request exactly if nobody reads any more; refused exactly to the writer; unlock fails exactly for a caller that has nothing |
| RwClients.Watching | lib/libcoro/rwlock.c:32-123 | every run can be seen so |
| RwLock.ParkedWriter | lib/libcoro/rwlock.c:67-81 | a writer on the writer queue is alone there and the lock is held for reading, perhaps by the writer itself |
| RwLock.NotIdle | lib/libcoro/rwlock.c:32-123 | while a thread is suspended in the lock, some thread, perhaps the same one, holds it, or one that was let in has yet to run |
| RwProgress.NobodyStranded | lib/libcoro/rwlock.c:32-123 | while no thread has asked in vain, a thread suspended in the lock has another that holds the lock and is not suspended in it, or was let in and is ready |
| RwProgress.AskEmptyHanded | lib/libcoro/rwlock.c:32-123 | the same for runs in which no thread asks while it holds the lock |
| RwProgress.StrandedExactly | lib/libcoro/rwlock.c:32-84 | in every run a thread is stranded exactly if it once asked while it held the lock for reading, and asked for writing or with a write request in front of it |
| RwProgress.StrandsExactly | lib/libcoro/rwlock.c:32-123 | one step strands nobody but its caller, and the caller exactly by such a call; who is stranded stays so |
| RwProgress.StrandedForever | lib/libcoro/rwlock.c:53-84 | a stranded thread never gets the lock, whatever the others do |
| RwProgress.LoneReaderStrands | lib/libcoro/rwlock.c:53-84 | the run in which the only reader asks for writing: it is suspended and nobody can help it |
| RwHolders.HelperPresent | lib/libcoro/rwlock.c:32-123 | if also no thread exits while it holds the lock or waits for it, the one that can help has not exited |
| RwLock.RwNextInv | lib/libcoro/rwlock.c:32-123 | every request, return and release, and every other step of the program, keeps the lock's invariant |
| RwLock.WokenWriterInv | lib/libcoro/rwlock.c:67-81 | a writer that is scheduled again finds no reader left and gets the inner mutex at once |
| RwLock.LastReaderInv | lib/libcoro/rwlock.c:98-119 | the last reader wakes exactly the waiting writer |
| RwLock.UnInv | lib/libcoro/rwlock.c:86-123 | releasing succeeds exactly for the writer or while there are readers |
| RwKernel.ReadWriteLock.RdLock | lib/libcoro/rwlock.c:32-51 | on the library's objects: the same state and result as the step function, and what is recorded of the caller changes as the result tells it |
| RwKernel.ReadWriteLock.WrLock | lib/libcoro/rwlock.c:53-84 | on the library's objects: the same state and result as the step function, and what is recorded of the caller changes as the result tells it |
| RwKernel.ReadWriteLock.GoOn | lib/libcoro/rwlock.c:32-84 | the rest of a suspended request, as the step function has it; a read request that returns 0 is counted, a write request that returns 0 has the lock |
| RwKernel.ReadWriteLock.Unlock | lib/libcoro/rwlock.c:86-123 | on the library's objects: the same state and result as the step function, and exactly one lock of the caller is given back |
| WorkerPool.NoLostWakeup | lib/libasyncdriver/asyncdriver.c:58-104 | while workers wait, the queued items number at most the workers signalled and not yet run; once those have run, a non-empty queue means no worker waits |
| WorkerPool.HandedOnceInOrder | lib/libasyncdriver/asyncdriver.c:193-205 | the items on record as accepted are those handed to workers, each once and in order, followed by those still queued |
| WorkerPool.EachItemOnce | lib/libasyncdriver/asyncdriver.c:58-104 | from the calls and their results alone: the items of the calls to enqueue that succeeded, in order, are those that workers got, each the oldest then queued, followed by those still queued |
| WorkerPool.StepRecords | lib/libasyncdriver/asyncdriver.c:58-104 | enqueueing succeeds and records its item exactly unless the queue is full; looking for an item, at once or after a wait, yields the oldest one exactly if there is any |
| WorkerPool.HistoryStays | lib/libasyncdriver/asyncdriver.c:193-205 | what was accepted or handed out stays so |
| WorkerPool.WakeInv | lib/libasyncdriver/asyncdriver.c:77-104 | a woken worker takes an item or, if another took it first, waits again, without loss |
| WorkerPool.PutInv | lib/libasyncdriver/asyncdriver.c:58-75 | queueing keeps the invariant, gets the event mutex at once, and is refused exactly when the queue is full |
| MessageQueue.Mq.Enqueue | lib/libasyncdriver/mq.c:31-47 | refused exactly with 128 messages queued; else the message is last |
| MessageQueue.Mq.Dequeue | lib/libasyncdriver/mq.c:51-65 | hands out the oldest message and frees its entry |
| MessageQueue.Mq.constructor | lib/libasyncdriver/mq.c:18-29 | the loop leaves an empty queue and all 128 entries free |
| AsyncDriver.Messages.Enqueue | lib/libasyncdriver/asyncdriver.c:58-75 | on the bounded queue and the library: the message is then last in the queue, unless 128 are queued, where the driver panics; otherwise as the step function |
| AsyncDriver.Messages.Poll | lib/libasyncdriver/asyncdriver.c:193-205 | on the bounded queue and the library: takes the oldest message exactly if there is one, else waits |
| AsyncDriver.Messages.GoOn | lib/libasyncdriver/asyncdriver.c:77-104 | the rest of the wait: takes the oldest message exactly if there is one, else waits again |
| AsyncWork.WorkQueue.EnqueueWork | lib/libasyncdriver/asyncdriver.c:265-286 | accepted exactly when the item is not queued, and then it is last in the queue, so its list node is never linked twice |
| AsyncWork.WorkQueue.Poll | lib/libasyncdriver/asyncdriver.c:330-346 | the oldest item, which may be queued again at once, or the wait for one |
| AsyncWork.WorkQueue.GoOn | lib/libasyncdriver/asyncdriver.c:300-328 | the rest of the wait: the oldest item, or the wait again |
| AsyncWork.WorkQueue.DequeueWork | lib/libasyncdriver/asyncdriver.c:288-298 | takes the first item of the list, keeping pending flags equal to membership |
| Ext2Directory.Directory.LookUp | fs/ext2/path.c:126-180 | for a directory that represents a map from names to inodes: the lookup in that map, over all blocks |
| Ext2Directory.Directory.Make | fs/ext2/path.c:113-247 | insertion in the map; a block is added, or space denied, only if no block from the hint on has room, and if no block before the hint has room for the size it remembers, then only if no block at all has; the hint is then where the search ended, with the size asked for, and that property of it is kept |
| Ext2Directory.Directory.Delete | fs/ext2/path.c:126-214 | removal from the map as it reads, in one buffer that is not marked dirty; the only other outcomes are a missing name and a read-only file system; the hint moves back to the block of the record, with its length, exactly if that is before it, and stays good unless the length is below the size it remembered; the block then has room for a record as long as the deleted one |
| Ext2Directory.HintSkips | fs/ext2/path.c:121-123 | with a good hint the blocks that a search passes over have no room |
| Ext2Directory.DeletionSpoilsHint | fs/ext2/path.c:164-167 | the deletions that spoil the hint: before it, of a record shorter than the size it remembers, with room for as much in a block still further in front, which the next search passes over |
| Ext2Directory.DeletionKept | fs/ext2/path.c:154-179 | while any other entries are made and deleted, in the same block and elsewhere, and buffers are flushed and evicted, a deleted entry stays deleted exactly if its buffer was dirty already or is marked dirty before it is evicted |
| Ext2Directory.DirNeutral | fs/ext2/path.c:154-203 | making or deleting any other entry leaves a deleted entry deleted and a present one present, in every state the run passes through |
| Ext2Directory.Directory.CacheBehind | fs/ext2/path.c:154-179 | the buffers of every valid directory are in the state that this speaks of |
| Ext2Directory.DeletionLost | fs/ext2/path.c:154-179 | the deletion that is lost: in a clean buffer that is evicted next |
| Ext2Directory.Directory.Recycle | lib/libfsdriver/cache.c:127-175 | evicting a dirty buffer changes nothing that is read; evicting a clean one brings back what the disk holds |
| Ext2Directory.Directory.WriteDirty | lib/libfsdriver/cache.c:381-407 | the disk then holds every dirty buffer, and none is dirty |
| Ext2Cache.Survives | lib/libfsdriver/cache.c:91-184 | what an unmarked change brought about is kept by a run of the cache, in which each later change of that block, marked or not, leaves the property as it finds it, exactly if the buffer is dirty or is marked before it is evicted |
| Ext2Dir.DeleteRecord | fs/ext2/path.c:154-174 | emptying a record or merging it into its predecessor keeps the block tiled by records, removes exactly that entry, and leaves room for any record of its whole length |
| Ext2Dir.MakeInBlock | fs/ext2/path.c:182-203 | uses a free record or splits one, exactly when some record has room, keeps the block tiled, and adds exactly the new entry |
| Ext2Dir.FindMatch | fs/ext2/path.c:132-149 | finds a live record with the name, and its predecessor, or the block has none |
| Ext2Dir.FindRoom | fs/ext2/path.c:182-203 | finds a record with room exactly when the block has one |
| Ext2Record.Erase | fs/ext2/path.c:155-161 | erasing keeps the record and its length although the inode is saved inside the name |
| Ext2Record.Cut | fs/ext2/path.c:194-200 | a record is split into its padded size and an empty rest, both well formed |
| Ext2Map.SplitPosition | fs/ext2/read_write.c:195-247 | splitting a position into slots is undone by recombining them, for any number of addresses per block |
| Ext2Map.SplitInjective | fs/ext2/read_write.c:195-247 | no two positions in range share a slot |
| Ext2Map.WriteIsArrayUpdate | fs/ext2/read_write.c:282-398 | with the upper blocks on the path in place, writing changes the position and no other, keeps the index a tree, and accounts for every block taken; it fails for want of space exactly if the indirect block above is missing and nothing is free |
| Ext2Map.ClearedIsArray | fs/ext2/read_write.c:282-398 | with cleared free blocks the same holds at every position, with the exact number of blocks needed, except below a missing triple indirect block, where every write fails |
| Ext2Map.WriteRightIffReady | fs/ext2/read_write.c:312-356 | with at least one free block, writing is right whatever the free blocks hold exactly when the position is direct, single, or has its double or triple block in place |
| Ext2Map.FreshDoubleFails | fs/ext2/read_write.c:332-346 | a new double indirect block that is not cleared makes another position read a stale number, whether or not there is a block left for the write itself |
| Ext2Map.FreshTripleFails | fs/ext2/read_write.c:332-346 | the same below a triple indirect block |
| Ext2Map.FailedWriteChanges | fs/ext2/read_write.c:332-356 | with one free block left, the write that links it as a double block fails for want of space and has changed the map |
| Ext2File.File.ReadMap | fs/ext2/read_write.c:180-261 | walks the index blocks to what the array holds at the position |
| Ext2File.File.WriteMap | fs/ext2/read_write.c:263-399 | on the inode and the blocks: the same result as the write function, error cases included, also when the triple block was linked and nothing is left below it |
| Ext2File.File.NewBlock | fs/ext2/read_write.c:401-431 | for every position: a mapped one is left alone; else the next free block is taken and written to the map, also where that goes through an uncleared block; see ExtendedRight and ExtendedCleared for what comes of it |
| Ext2File.ExtendedRight | fs/ext2/read_write.c:401-431 | with the upper blocks on the path in place: an unmapped position gets a block that was free exactly if there are blocks enough for it and the indirect block above it, then reads as that block, and the others are unchanged; else the map is unchanged and a block taken is lost |
| Ext2File.ExtendedCleared | fs/ext2/read_write.c:401-431 | with cleared blocks an unmapped position gets the next free block exactly if there are blocks enough and the triple indirect block is not missing, and no other position changes |
| Ext2Alloc.SetBit | fs/ext2/alloc.c:31-64 | sets exactly the lowest clear bit from the starting word on, or there is none in the whole words |
| Ext2Alloc.FileSystem.AllocBlock | fs/ext2/alloc.c:66-136 | takes the lowest clear bit of the first group with free blocks on the way around from that of the inode, keeps group counts equal to clear bits and the total equal to their sum, returns the number from which group and bit can be read off, and 0 exactly when nothing is free or the file system is read-only |
| Ext2Alloc.FileSystem.TakeFrom | fs/ext2/alloc.c:102-126 | a group with a positive count always yields a bit, so the panic is never reached |
| Ext2Alloc.FileSystem.FindGroup | fs/ext2/alloc.c:86-100 | the wrap-around search finds the first group with free blocks from where it starts, or there is none |
| Ext2Alloc.FileSystem.BlockNumberInjective | fs/ext2/alloc.c:118-119 | two different bits never give the same block number |
| Ext2Alloc.FileSystem.BlockNumberInverse | fs/ext2/alloc.c:118-119 | group and bit are the quotient and the remainder of the number, counted from the first data block |
| DmaCarve.Carve | lib/libasyncdriver/dmapool.c:189-217 | for every accepted pool and page-aligned base: finds at least one slot and at most the array, each aligned, inside one boundary window, the mask and the chunk, a stride apart, with no good place left out; the 32-bit counter ends at their number modulo 2^32, which is their number exactly below 2^32, and the array starts with the last so many |
| DmaCarve.FirstFitUnique | lib/libasyncdriver/dmapool.c:189-210 | the slots found are determined by the pool and the base |
| DmaCarve.NoWrap | lib/libasyncdriver/dmapool.c:175-175 | the counter does not wrap when the chunk has fewer than 2^32 strides |
| DmaCarve.BytesWrap | lib/libasyncdriver/dmapool.c:206-206 | one-byte objects with a boundary of 4 GB: 2^32 + 4096 slots, counted as 4096 |
| DmaCarve.BytesOk | lib/libasyncdriver/dmapool.c:264-273 | whatever Create returns for that configuration is that pool, and it is an accepted one |
| DmaCarve.Create | lib/libasyncdriver/dmapool.c:235-297 | accepts only configurations from which carving works; gives the alignment, the stride and the chunk length, each the least multiple that fits; and says which errors mean what |
| DmaCarve.AlignUp | lib/libasyncdriver/dmapool.c:71-83 | the least multiple not below the value, or that does not fit |
| DmaPool.ObjectsDisjoint | lib/libasyncdriver/dmapool.c:189-232 | any two slots of a pool, of one or of different chunks, are disjoint for the processor and the device |
| DmaPool.SlotPool.Grow | lib/libasyncdriver/dmapool.c:148-233 | adds the mapping as a chunk whose slots are all free, at the places found, and disjoint from the old ones; fails exactly for a mapping beyond the mask, a slot array too large or not granted, or a multiple of 2^32 slots |
| DmaPool.SlotPool.Alloc | lib/libasyncdriver/dmapool.c:299-323 | hands out a slot that was free, keeping the free list equal to the unused slots and `active` equal to the used ones modulo 2^32; succeeds exactly if the flags are known and a slot is free or the pool may and can grow; else nothing changes |
| DmaPool.SlotPool.Free | lib/libasyncdriver/dmapool.c:335-364 | succeeds exactly for the addresses of a live object; a double or foreign free changes nothing |
| DmaPool.SlotPool.Destroy | lib/libasyncdriver/dmapool.c:366-386 | succeeds exactly when the live objects are a multiple of 2^32, which below 2^32 is when nothing is live |
| ClockScale.MulShift | kernel/clocksource.c:95-116 | leaves the search by its break exactly when shift 1 fits, with the largest shift that fits; else returns the multiplier of shift 1 with shift 0 |
| ClockScale.Headroom | kernel/clocksource.c:98-105 | the count is below 2^(64 - acc), and acc is the largest number of multiplier bits up to 32 for which it is |
| ClockScale.NoOverflow | include/lyos/clocksource.h:37-41 | no count within the advertised time overflows the conversion |
| ClockScale.ConvertAccurate | include/lyos/clocksource.h:37-41 | the converted time differs from the exact one by at most cycles / 2^(shift + 1) + 1 |
| ClockScale.ZeroShiftDoubles | kernel/clocksource.c:95-116 | the input at which the search ends without its break and every conversion is doubled: from, to and maxsec all 2^32 - 1 |
| ClockScale.SearchBreaks | kernel/clocksource.c:127-140 | with the parameters of a registered clock source the search always ends by its break |
| ClockScale.KeptSecondsFill | kernel/clocksource.c:129-136 | for every counter width and frequency: the seconds kept fit into seven eighths of the range unless one second does not, and one more second would not fit unless they are the 600 allowed to a wide counter |
| ClockScale.Clocksource.UpdateFreq | kernel/clocksource.c:127-140 | every count a registered source may show before the kept seconds end converts without overflow and accurately |
| ClockEvent.InRangeIffProgrammable | kernel/clockevent.c:150-162 | every requested delta gives ticks in the device range exactly when the minimum converts without loss and an event of the minimum length fits |
| ClockEvent.ProductFitsWord | kernel/clockevent.c:157-160 | the product never overflows 64 bits, whatever the delta |
| ClockEvent.ClampedWithin | kernel/clockevent.c:150-158 | despite the signed comparison the clamped delta is the minimum or within the limits |
| ClockEvent.ClampedIs | kernel/clockevent.c:150-158 | a delta between the limits is kept and one outside becomes the nearer limit, exactly as long as the upper limit is not negative as a signed number |
| ClockEvent.TicksAccurate | kernel/clockevent.c:157-160 | the ticks asked for are those of the clamped delta at the frequency of the device, off by at most one and half a unit of the scale for every nanosecond |
| ClockEvent.LimitNear | kernel/clockevent.c:17-33 | a limit is converted to within one nanosecond, unless it was raised to 1000 ns |
| ClockEvent.MinimumNs | kernel/clockevent.c:17-33 | the minimum in nanoseconds never asks for fewer ticks, exactly when rounding up did not saturate |
| ClockEvent.MaximumNs | kernel/clockevent.c:17-33 | the maximum stays in the device range, saturated or not, unless it was raised to 1000 ns |
| ClockEvent.RaisedMaximumFails | kernel/clockevent.c:17-88 | a 1 GHz device with 1 to 500 ticks, configured as the code does with 2^31 and shift 31, is asked for 1000 ticks |
| ClockEvent.SaturatedMinimumFails | kernel/clockevent.c:17-88 | a 1 GHz device with a 64-bit range and a minimum of 2^41 ticks, configured with 2^23 and shift 23, is asked for one tick less |
| ClockEvent.CoveredFill | kernel/clockevent.c:78-83 | for every range and frequency: the seconds covered lie in the range unless one second does not, and one more would not unless they are the 600 allowed to a wide range |
| ClockEvent.ConfigBreaks | kernel/clockevent.c:74-85 | with the parameters of an event device the search always ends by its break |
| ClockEvent.UsualDevice | kernel/clockevent.c:17-33 | a device no finer than its scale, with a minimum of at least 1000 ns, is programmable |
| ClockEvent.Device.Config | kernel/clockevent.c:74-88 | for every frequency the multiplier is positive, rounded and that of the largest shift with room, and the device range is kept exactly under the stated condition |
| ClockEvent.Device.ProgramDelta | kernel/clockevent.c:150-162 | a programmable device is only asked for ticks in its range, accurate for the clamped delta; a shut down one for none |
| Avl.InsertBalanced | include/lyos/avl.h:106-152 | insertion keeps every tree balanced and adds at most one level |
| Avl.InsertOrder | include/lyos/avl.h:126-152 | in a search tree the new node goes behind all whose keys are not larger, and no other moves |
| Avl.FixedOrder | include/lyos/avl.h:72-124 | rotations never change the order |
| Avl.HeightBound | include/lyos/avl.h:38-51 | a balanced tree with too few nodes for one more level does not have it |
| AvlIter.InsertOnlyFits | include/lyos/avl.h:38-51 | a tree made by fewer than 9227464 insertions fits the iterator's path array |
| Avl.EraseOrder | include/lyos/avl.h:176-213 | removal takes out exactly one node with the key, if there is one, and moves no other |
| AvlArena.Arena.InsertRecur | include/lyos/avl.h:126-152 | relinks nodes in place to the inserted tree with exact heights, touching no node outside it |
| AvlArena.Arena.Fixup | include/lyos/avl.h:106-124 | the four rotations in place, with exact heights |
| AvlArena.Arena.EraseRecur | include/lyos/avl.h:176-213 | relinks nodes in place to the tree without the node, with exact heights |
| AvlArena.Root.Add | include/lyos/avl.h:154-157 | keeps search order, exact stored heights and balance |
| AvlArena.Root.Remove | include/lyos/avl.h:215-218 | keeps search order and exact stored heights |
| AvlIter.Iter.Start | include/lyos/avl.h:220-263 | lands on a node with the key if that is wanted and there is one, else on the last below or the first above, else at the end |
| AvlIter.Iter.Inc | include/lyos/avl.h:271-296 | moves to the next node in order, or to the end |
| AvlIter.Iter.Walk | include/lyos/avl.h:271-296 | repeated increments visit exactly the remaining nodes in order, although only a path prefix and branch bits are kept |
| AvlIter.Iter.Get | include/lyos/avl.h:265-269 | the node at the iterator's index in the order |

## Left out

- IPC: failing copies from and to user memory; every message copy succeeds.
- IPC: process exit, exec and fork; the set of processes is fixed.
- IPC: the special endpoints for any task, no task and the caller itself as a send destination.
- IPC: privilege structures shared by several processes, and the contents of notifications for interrupts, signals and clock ticks. No rendezvous property is stated for notifications: one sent to a process that is still blocked in its send half stays pending.
- IpcRuns.DeliveredRight, IpcRuns.EachLetterOnePlace, IpcRuns.HistoryGrows, IpcFate.LostExactly, IpcFate.OrderExactly: not for runs in which a store opens an entry of the table the kernel has, since there a message can be received twice (IpcStore.StoreRace).
- IpcClient.Outbox.AsyncSend: its stores are one step with its call; IpcStore.StoreUnseen and IpcStore.ReceivedTwice say what others can do between them. A store writes one entry; a message that is half copied is not modelled.
- IPC: a table in which an older message stands behind a newer one; there the older one counts as sent again.
- SMP: locks and queues of other processors; kernel steps are atomic on one processor.
- RunQueue: the deadlines that the clock interrupt refreshes, and the computation of a new deadline, which is a parameter.
- Coroutines: a main thread that blocks, several joiners of one thread, failing allocations, stacks and machine contexts.
- Coroutines: the results that exited threads leave for their joiners.
- RwLock.WriterExcludes: callers release only what they hold, since the code does not check it for readers.
- WorkerPool: worker creation and the start-up wait on the initialization event; a driver never stops running.
- ext2: the emptiness test of a directory, file types, time stamps and index flags, device errors, and write-back of descriptors.
- Ext2Directory.Directory.Make: the hint for where to start searching counts blocks, not bytes.
- Ext2Alloc.FileSystem.AllocBlock: blocks per group are a multiple of 64, so the branch for bits beyond the limit is dead; block 0 is marked used.
- Ext2Directory: a block is a value copied to a buffer array and back; two buffers of one block are not modelled.
- Ext2Cache: the page cache of the memory manager behind the buffers, buffers in use while others are flushed, and failing writes.
- DmaPool: the page-by-page translation of a new mapping, which is assumed contiguous, within the address range and apart from earlier ones; clearing of objects.
- ClockEvent: device registration, state switching and tick handling.
- Avl: balance after removal, which `avl_erase_min` does not restore; stepping backwards.
- AvlIter: trees higher than 32 levels, for which the path array is too short.
- tmpfs, sysfs, procfs, drivers, ACPI, PCI, DRM and the device manager, which would add message plumbing and no harder property.
