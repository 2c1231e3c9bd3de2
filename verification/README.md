# Concurrency kernel, buffers and expiring cache

This project models the concurrent core of `ServerCore` and the sequential components next to it, and proves what
they are for. Concurrent code is a state machine: a step is one atomic load, store, compare-and-swap or fetch of one
thread, a run is any sequence of steps by any number of threads, and memory is sequentially consistent. A CRASH, a
dereference of a freed node and a failed `ASSERT_CRASH` are states of the machine, so that safety says they are not
reached. Code whose objects change their own fields is modelled by classes; each method is proved to do what a function
on values says, and the theorems are about those functions and about runs of them.

| file | what it models |
|---|---|
| `LockFreeStack.dfy` | the Treiber stack with deferred reclamation (`_head`, `_pendingList`, `_popCount`); addresses of freed nodes may be allocated again |
| `StackAlone.dfy` | what one call on the stack does when its thread runs alone, and whose call deletes a node |
| `MpscQueue.dfy` | the multi-producer, single-consumer linked list with the delete in `Pop`; addresses of deleted nodes may be allocated again |
| `MpscReclamation.dfy`, `StaleTail.dfy` | any number of producers and one consumer on it, and exactly which deletes are safe |
| `JobQueue.dfy` | any number of job queues and threads on such lists, the global queue, and the worker loop |
| `QueueAlone.dfy` | who runs a job queue, when a runner gives it up and to whom, and what a thread that runs alone gets done |
| `Tails.dfy`, `UnsafeDelete.dfy` | what job queues promise of `_tail` and how long, and when threads get to an unsafe delete |
| `Lock.dfy`, `LockBounds.dfy`, `LockAlone.dfy` | the recursive reader/writer spin lock on a packed word, exactly how much it stands, and when each call returns |
| `LockOrder.dfy`, `CycleSearch.dfy`, `DeadLockProfiler.dfy`, `CircularWait.dfy` | directed graphs, what the depth-first search keeps, the profiler, and runs of locking threads |
| `SendBuffer.dfy`, `SendBufferManager.dfy` | the chunked send buffers as functions on one value, and the classes |
| `SecondClose.dfy`, `Aftermath.dfy` | what a second Close does at once, and what it does to every run after it |
| `SplitClose.dfy` | an Open of the chunk's owner between the two stores of another thread's Close |
| `Framing.dfy`, `Receiving.dfy`, `AsWritten.dfy` | the packet format, its splitter and encoder, and a receiving session as a value: with the receive call as it is meant, and as it is written |
| `RecvBuffer.dfy`, `PacketSession.dfy` | the classes of the C# client |
| `LazyCompaction.dfy`, `LazyRecvBuffer.dfy` | what the lazy compaction of the C++ receive buffer costs, and its class |
| `TimedMap.dfy` | what an expiring cache means, from its log of calls |
| `TimeIndex.dfy`, `ExpireStrategy.dfy`, `AbstractCache.dfy` | the strategy's two indexes and the cache |
| `Counting.dfy`, `Wrappers.dfy` | counting the members of a sequence, and `Option` |

`Act` in each concurrent module is the program text: one case for each program point. `Exec` runs a sequence of moves.
Proofs carry a ghost state (`Track`) along a run and show an invariant (`Inv`) for every step; the theorems about whole
runs follow, and mention only states of the program.

## Findings

* A `TryPop` that runs alone deletes its node and everything pending if no other thread is in `TryPop`, and otherwise
  nothing (`StackAlone.PopAlone`); under any interleaving the test of `_popCount` decides whether a call deletes its own
  node (`StackAlone.OwnCallDeletes`). So with all threads idle nodes may stay pending on an empty stack
  (`StackAlone.PendingStays`), and a `TryPop` clears them if and only if the stack is not empty
  (`StackAlone.ReclaimsAll`).
* The packed lock keeps writers exclusive in every run of n threads with at most r read holds at a time and write locks
  nested at most w deep, if and only if n < 65536, r < 65536 and w <= 65536, or there is no second thread or no writer
  (`LockBounds.ExclusiveIff`). That is for every client that releases only what it holds, in any order. The id of thread
  65536 is cut to 0 by the mask; the 65536th read hold carries into the owner bits; a nesting of 65537 wraps the 16-bit
  `_writeCount`, and the first unlock frees the lock. Within the bounds a call crashes if and only if it is a write
  unlock of a thread that still reads (`Lock.CrashesIff`), and a reader that asks for writing and does not own the word
  waits for itself and never gets the lock (`Lock.ReaderNeverWrites`). When the crashes are out of reach of clients that
  unlock for reading first is as exact (`LockBounds.NeverCrashesIff`).
* `Pop` of the job queue's list deletes the old head without asking whether `_tail` or a producer still points at it, and
  the pool hands the address out again. That delete is safe if and only if `_tail` has left the node and no producer has
  it as its `oldTail` (`StaleTail.DeleteSafeIff`). That no producer is about to follow it is not enough: a stale
  compare-and-swap then finds the reused address in `_tail` and moves it to a deleted node
  (`StaleTail.UnfollowedNotEnough`, `StaleTail.TailFallsBack`). With two threads and a queue some run comes to such a
  delete, and to a thread that follows the deleted node; with fewer none does (`UnsafeDelete.AlwaysCarefulIff`,
  `UnsafeDelete.NobodyFaultsIff`). The ownership token, the order and conservation of jobs and the single runner do not
  depend on it: they hold in every run, a thread that follows a deleted node being stopped there. How far `_tail` lags
  holds in every run in which no compare-and-swap is deceived in that way (`Tails.TailLag`), and a producer that runs
  alone is then done within two iterations if and only if the first node it follows is still there
  (`Tails.ProducerAlone`).
* The receive call at Session.cs:189 passes the whole array, so that bytes land at index 0 and over whatever is unread.
  It does what is meant, for all receives of given lengths, if and only if nothing is unread (`AsWritten.AgreesIff`). A
  packet of 6 bytes cut in the middle is lost (`AsWritten.CutPacketLost`). The round trip under any fragmentation holds
  of the intended call (`Receiving.RoundTrip`), and of the call as written when every receive but the last ends with a
  packet (`AsWritten.RoundTripAsWritten`).
* Closing a `SendBuffer` a second time while its chunk is open for another buffer takes the chunk from that buffer
  (`SecondClose.SecondCloseSpoils`, exact). The used mark leaves the chunk if and only if adding the second size takes
  it past 12000 (`SecondClose.CloseContainedIff`): the free size wraps, the next buffer starts behind the array and its
  first write is outside (`SecondClose.NextBufferContainedIff`, `SecondClose.OutsideRun`). And the next buffer can
  overwrite the other one, once that is closed, if and only if the second size is below what the other asked for and
  the next still fits behind it (`SecondClose.SecondCloseOverwritesIff`, `SecondClose.OverwriteRun`). At once, some
  closed buffer's bytes can change if and only if the buffer closed again now reaches into the open one, which is not
  empty (`Aftermath.StableIff`, `SecondClose.ReclosedRun`). Over everything that may follow, closed buffers never change
  if and only if the used mark is at 12000 exactly and the open buffer had asked for nothing (`Aftermath.ImmutableIff`);
  without a second Close they never do (`Aftermath.InvImmutable`). When another thread closes a buffer and the chunk's
  owner opens the next one between the two stores of that Close, closed buffers stay apart if and only if one of the two
  is empty or the new one went to another chunk (`SplitClose.SplitApartIff`, `SplitClose.SplitRun`). A buffer dropped
  before it is closed makes the thread's next `Open` crash (`SendBuffer.DroppedWhileOpen`, `SendBuffer.DroppedRun`).
* `PopLock` of a name the profiler has never seen enters it with id 0, another name's id. It keeps the profiler valid
  if and only if the thread's stack is empty or the name is known (`DeadLockProfiler.PopValid`). One such call, which
  need not crash, blinds the profiler to a deadlock over two names, for any two (`CircularWait.MissedDeadlock`). With
  scoped guards it does not happen.
* A packet survives `SendAsync` and the splitter exactly when its payload is at most 65531 bytes
  (`Framing.RoundTripIff`): beyond that a cast to `ushort` cuts. The splitter goes round for ever exactly when packets of
  the declared sizes are followed by a header of size 0 (`Framing.SpinsIff`).
* For the C++ receive buffer, copying stays within what is received for every run exactly when no compaction moves more
  than half the buffer size, rounded up (`LazyCompaction.CopiesBoundedIff`).

## Model

| member | source | states |
|---|---|---|
| LockFreeStack.ReclamationSafety | ServerCore/LockFreeStack.h:24-119 | in every run of any number of pushers and poppers, with freed addresses reused, no thread reads or writes a node that is not allocated and no node is deleted twice |
| LockFreeStack.NoAba | ServerCore/LockFreeStack.h:29-31 | whenever the popper's CAS is about to succeed, the `next` it read earlier is still the head's `next` |
| LockFreeStack.NoLeak | ServerCore/LockFreeStack.h:56-109 | when all threads are idle every allocated node is reachable from `_head` or from `_pendingList`; `StackAlone.ReclaimsAll` says when nothing is pending |
| LockFreeStack.StepInv | ServerCore/LockFreeStack.h:15-119 | every step keeps the invariant: nodes are split between unpushed, stacked, thread-owned and pending; a thread that saw `_popCount == 1` owns its node alone; `_popCount` is the number of threads in the pop region; a grabbed list is freed only at count 0 |
| LockFreeStack.StepRefines | ServerCore/LockFreeStack.h:15-54 | each atomic step is one step, or none, of a sequential stack with calls outstanding: a push takes effect at its CAS, a pop at its CAS or at the load that saw null |
| LockFreeStack.Linearizable | ServerCore/LockFreeStack.h:15-54 | the calls and returns of every run are a legal history of a sequential LIFO stack, each operation taking effect between its call and its return |
| StackAlone.PopAlone | ServerCore/LockFreeStack.h:24-71 | from any reachable state a TryPop that runs alone returns the head's value; it deletes its node and everything pending if nobody else is in TryPop, and else puts its node in front of the pending ones |
| StackAlone.PopEmptyAlone | ServerCore/LockFreeStack.h:26-50 | from any reachable state with an empty stack it changes nothing, whatever is pending |
| StackAlone.ReclaimsAll | ServerCore/LockFreeStack.h:56-71 | with all threads idle, after a TryPop that runs alone nothing is pending if and only if the stack was not empty or nothing was pending; and if it was not empty, exactly the nodes that hang off `_head` are allocated |
| StackAlone.OwnCallDeletes | ServerCore/LockFreeStack.h:56-71 | in every interleaving a TryPop that sees `_popCount == 1` at its test deletes the node it popped with the step by which it returns, and one that sees more never does |
| StackAlone.PendingStays | ServerCore/LockFreeStack.h:24-71 | with two threads a run ends with all idle, the stack empty and a popped node still allocated |
| StackAlone.PushAlone | ServerCore/LockFreeStack.h:15-22 | from any reachable state a Push that runs alone puts its node on top |
| StackAlone.FinishesAlone | ServerCore/LockFreeStack.h:15-119 | wherever a thread stands in Push or TryPop in any reachable state, running alone it returns |
| MpscQueue.LinkStep | ServerCore/MSPCLockFreeQueue.h:60-80 | on a list whose head Pop deletes, each access of Push(Node*) keeps the list and appends the job to the linked jobs exactly at the CAS on `next`; one that follows a deleted node stops the producer |
| MpscQueue.PopStep | ServerCore/MSPCLockFreeQueue.h:36-53 | each access of Pop keeps the list, the delete included, whoever still has the node; Pop removes the oldest job of the abstract FIFO at the store of `_head`, and returns empty only when the FIFO is empty at the load of `next` |
| MpscQueue.ProducerStable | ServerCore/MSPCLockFreeQueue.h:60-80 | what one producer relies on survives a step of any other thread, a delete of the node it has as `oldTail` included |
| MpscQueue.ConsumerStable | ServerCore/MSPCLockFreeQueue.h:36-48 | what the consumer relies on survives a step of any producer |
| MpscQueue.TailNearEnd | ServerCore/MSPCLockFreeQueue.h:66-79 | as long as no CAS was deceived, `_tail` is the last node or its predecessor, and a deleted `_tail` means an empty list |
| MpscQueue.LinkTail | ServerCore/MSPCLockFreeQueue.h:60-80 | a step of Push that is not deceived by a reused address moves `_tail` not at all or to its successor, and keeps it the last node or the one before |
| MpscQueue.SoloFinishes | ServerCore/MSPCLockFreeQueue.h:60-80 | as long as no CAS was deceived, from any state of Push a producer that runs alone is done after at most two more iterations, if and only if the first node it follows has not been deleted |
| MpscReclamation.StepInv | ServerCore/MSPCLockFreeQueue.h:36-80 | with deletes and with deleted addresses allocated again, each step of any producer or the consumer that is not an unsafe delete follows no pointer to a deleted node, and every `oldTail` and `_tail` stay undeleted |
| MpscReclamation.CarefulNeverFaults | ServerCore/MSPCLockFreeQueue.h:36-80 | a run whose deletes are all safe follows no pointer to a deleted node, whether or not its address was allocated again, and deletes none twice |
| StaleTail.DeleteSafeIff | ServerCore/MSPCLockFreeQueue.h:46-46 | before any delete of a run whose deletes were safe: no continuation whose further deletes are safe follows a pointer to a freed node, if and only if `_tail` has left this node and no producer has it as its `oldTail` |
| StaleTail.UnfollowedNotEnough | ServerCore/MSPCLockFreeQueue.h:36-80 | a run in which `_tail` has left every deleted node and nobody is about to follow it, and in which a reused address lets a stale CAS put `_tail` on a deleted node that a producer then follows |
| StaleTail.TailFallsBack | ServerCore/MSPCLockFreeQueue.h:72-79 | a run in which the stale CAS takes `_tail` back to a deleted node while the list is not empty |
| JobQueue.StepInv | ServerCore/JobQueue.cpp:10-60 | every step of any thread on any queue keeps the list, the token, the conservation of `_jobCount`, the order of the jobs and their names |
| JobQueue.OwnershipToken | ServerCore/JobQueue.cpp:10-60 | in every reachable state, pushers that saw 0 and have not handed off, threads inside Execute and entries of the global queue are together 1 if `_jobCount` is positive and 0 otherwise |
| JobQueue.OneRunner | ServerCore/JobQueue.cpp:31-60 | in every run no two threads are inside Execute of one queue, so the list has one consumer |
| JobQueue.FifoAndConservation | ServerCore/JobQueue.cpp:12-59 | in every run: run jobs, then the runner's unrun batch, then the list, are the jobs in link order; `_jobCount` is the list, plus popped and not subtracted, plus announced and not linked |
| JobQueue.AllRun | ServerCore/ThreadManager.cpp:33-47 | after every run, when all threads are idle and the global queue is empty, each pushed job has run exactly once, in link order, and nothing else has |
| JobQueue.PopTakesOldest | ServerCore/MSPCLockFreeQueue.h:36-53 | in every reachable state, `_head` past `_tail` included, the job the runner is about to take is the oldest in the list |
| JobQueue.RunnerNeverFaults | ServerCore/MSPCLockFreeQueue.h:36-48 | in every run the runner follows no pointer to a deleted node and deletes none twice |
| QueueAlone.FirstPusherRuns | ServerCore/JobQueue.cpp:15-28 | in any reachable state a first pusher is inside Execute, unless pushOnly is set or it already runs a queue: then the queue goes to the end of the global queue; any other pusher returns |
| QueueAlone.BatchEnds | ServerCore/JobQueue.cpp:44-58 | in any reachable state a runner at the end of a batch leaves Execute if nothing is outstanding; else, if and only if its time slice is over, it puts the queue at the end of the global queue and leaves, and otherwise begins the next batch |
| QueueAlone.PollTakesFirst | ServerCore/ThreadManager.cpp:33-47 | a worker takes the queue that was handed over first |
| QueueAlone.PushBegins | ServerCore/JobQueue.cpp:10-13 | an idle thread and a running job can always call Push, which counts the job and finds out whether it is the first |
| QueueAlone.BatchAlone | ServerCore/JobQueue.cpp:35-44 | from any reachable state a thread that begins a batch and runs alone takes all jobs behind `_head`, deletes as many nodes, and runs exactly those jobs in order |
| QueueAlone.PushAlone | ServerCore/JobQueue.cpp:10-60 | from any reachable state a Push that runs alone on a queue with no job outstanding and an undeleted `_tail` ends with the job run and the queue empty, or, with pushOnly, in the list and handed over |
| Tails.TailLag | ServerCore/MSPCLockFreeQueue.h:60-80 | in every state of a run in which no CAS on `_tail` is deceived, `_tail` of every queue is its last node or the one before, and a deleted `_tail` means nothing is behind `_head` |
| Tails.ProducerAlone | ServerCore/MSPCLockFreeQueue.h:60-80 | from every state of such a run a producer running alone, whose next CAS is not deceived, links its node and leaves Push within two iterations, if and only if the first node it follows has not been deleted |
| Tails.NeverFaults | ServerCore/MSPCLockFreeQueue.h:36-80 | in a run whose deletes are safe no CAS is deceived and no thread follows a pointer to a deleted node |
| UnsafeDelete.UnsafeDelete | ServerCore/JobQueue.cpp:10-60 | with any number of queues and threads from one and two on, a run whose deletes are safe stands before an unsafe delete, after which the other thread follows the deleted node |
| UnsafeDelete.AlwaysCarefulIff | ServerCore/MSPCLockFreeQueue.h:46-46 | every delete of every run is safe, if and only if there is no queue or at most one thread |
| UnsafeDelete.NobodyFaultsIff | ServerCore/MSPCLockFreeQueue.h:46-72 | in no run a thread follows a deleted node, if and only if there is no queue or at most one thread |
| Lock.StepInv | ServerCore/Lock.cpp:5-91 | every access of clients that release only what they hold keeps the meaning of the packed word and of `_writeCount`, within 65535 read holds and a write nesting of 65536 |
| Lock.Exclusion | ServerCore/Lock.cpp:5-91 | within those bounds, for every such client, a thread that holds the lock for writing excludes every other hold |
| Lock.WordMeaning | ServerCore/Lock.cpp:5-91 | owner 0: no writer, and the low half is the number of all read holds; owner t: only t holds anything, and the low half is t's own read holds |
| Lock.NeverCrashes | ServerCore/Lock.cpp:45-90 | clients that never unlock for writing while they read reach neither INVALID_UNLOCK_ORDER nor MULTIPLE_UNLOCK |
| Lock.CrashesIff | ServerCore/Lock.cpp:45-90 | for every client that releases only what it holds, a step crashes if and only if it is the test of WriteUnlock and its thread still reads; ReadUnlock never does |
| Lock.ReaderNeverWrites | ServerCore/Lock.cpp:16-42 | a thread that reads, does not own the word and asks for writing never gets the lock, whatever the others do |
| Lock.WriteCountPrivate | ServerCore/Lock.cpp:14-48 | only the thread in the owner bits is ever about to touch `_writeCount` |
| Lock.ClearErasesNoReader | ServerCore/Lock.cpp:49-50 | at the store of EMPTY_FLAG the word is the storing thread's id and nothing else |
| LockAlone.WriteLockAlone | ServerCore/Lock.cpp:5-36 | from any bounded reachable state a WriteLock that runs alone returns if and only if its thread has the lock for writing or nobody has it at all; the holds, word and count then |
| LockAlone.WriteUnlockAlone | ServerCore/Lock.cpp:39-51 | it returns if and only if the thread reads nothing, and else crashes; the last one empties the word |
| LockAlone.ReadLockAlone | ServerCore/Lock.cpp:53-82 | it returns if and only if nobody else has the lock for writing; the word is then one more |
| LockAlone.ReadUnlockAlone | ServerCore/Lock.cpp:84-92 | it always returns, with the word one less |
| LockAlone.ReturnsIff | ServerCore/Lock.cpp:5-92 | from any point of any call a thread that runs alone returns, if and only if it waits for no other thread nor for itself and is not about to crash |
| LockBounds.ExclusiveIff | ServerCore/Lock.cpp:5-91 | for clients that release only what they hold, in any order: every run of n threads within r read holds and w nested write locks is exclusive, if and only if n < 65536, r < 65536 and w <= 65536, or n <= 1 or w = 0 |
| LockBounds.NeverCrashesIff | ServerCore/Lock.cpp:45-90 | no run of n threads within r read holds and w nested write locks, in which nobody unlocks for writing while reading, reaches INVALID_UNLOCK_ORDER or MULTIPLE_UNLOCK, if and only if n = 0, or r = 0, or r < 65536 and w = 0, n = 1, or both n < 65536 and w <= 65536 |
| LockBounds.IdTooLarge | ServerCore/ThreadManager.cpp:27-31 | with 65536 threads some run with two write holds and no read holds is not exclusive |
| LockBounds.TooManyReads | ServerCore/Lock.cpp:62-72 | some run reaches exactly 65536 read holds at a time and is not exclusive |
| LockBounds.TooDeep | ServerCore/Lock.cpp:48-50 | some run with a nesting of 65537 write locks and no reader is not exclusive |
| CycleSearch.MetLater | ServerCore/DeadLockProfiler.cpp:93-94 | a node discovered after the innermost open call is finished, so skipping it is right |
| CycleSearch.BackTo | ServerCore/DeadLockProfiler.cpp:96-108 | an unfinished successor of the innermost node closes a cycle, and the parents lead back along it |
| CycleSearch.AllFinished | ServerCore/DeadLockProfiler.cpp:61-62 | a search that has finished every node leaves a graph without a cycle |
| DeadLockProfiler.DeadLockProfiler.ReportCycle | ServerCore/DeadLockProfiler.cpp:98-108 | the report is the edges of the cycle, from the closing one backwards, and the walk ends |
| DeadLockProfiler.DeadLockProfiler.Dfs | ServerCore/DeadLockProfiler.cpp:69-115 | finishes the node and keeps the search invariant, or reports a cycle; terminates by the number of undiscovered nodes |
| DeadLockProfiler.DeadLockProfiler.CheckCycle | ServerCore/DeadLockProfiler.cpp:53-67 | crashes if and only if the lock history has a directed cycle |
| DeadLockProfiler.DeadLockProfiler.PushLock | ServerCore/DeadLockProfiler.cpp:4-37 | the whole new state, from every state that calls lead to; crashes exactly when the edge is new and the history then cyclic; keeps a valid profiler valid |
| DeadLockProfiler.DeadLockProfiler.PopLock | ServerCore/DeadLockProfiler.cpp:39-51 | the whole new state; crashes exactly on an empty stack or a name that is not on top; an unknown name is entered with id 0 |
| DeadLockProfiler.PushMeans | ServerCore/DeadLockProfiler.cpp:4-37 | a new name gets the next id, the one new edge goes from the lock asked for last to this one, only the thread's own stack grows; a crash exactly if that edge is new and the history cyclic |
| DeadLockProfiler.PopMeans | ServerCore/DeadLockProfiler.cpp:39-51 | only the top of the thread's own stack goes, and only without a crash; the crashes told from stack and ids |
| DeadLockProfiler.PushValid | ServerCore/DeadLockProfiler.cpp:22-36 | ids stay dense, the history acyclic, and each thread's stack a walk in it |
| DeadLockProfiler.DeadLockProfiler.RecordOrder | ServerCore/DeadLockProfiler.cpp:27-32 | the new history; a crash exactly when the edge is new and the history cyclic |
| DeadLockProfiler.PopValid | ServerCore/DeadLockProfiler.cpp:43-50 | PopLock keeps ids dense and one name's each, if and only if the stack is empty or the name is known; otherwise two names share id 0 |
| CircularWait.StepInv | ServerCore/DeadLockProfiler.cpp:4-51 | under scoped guards every step keeps the profiler valid, and its stacks the ids of the names each thread itself holds, in order |
| CircularWait.PopLockExact | ServerCore/DeadLockProfiler.cpp:43-48 | for any thread and name in such a state, exactly when PopLock crashes and how |
| CircularWait.NoCircularWait | ServerCore/Lock.cpp:5-9 | in every run of scoped guards without a profiler crash, threads waiting for one another in a circle all wait for locks of one name |
| CircularWait.OneNamePerId | ServerCore/DeadLockProfiler.cpp:10-20 | in every such run equal ids are equal names, and an unlock of any name keeps it so if and only if the thread holds nothing or the name is known |
| CircularWait.OnlyDeadlocksCrash | ServerCore/DeadLockProfiler.cpp:39-51 | in every run of scoped guards, told from what the threads hold, PopLock never crashes and PushLock only over a cycle |
| CircularWait.WrongNamePops | ServerCore/DeadLockProfiler.cpp:46-50 | for any thread and two names, a run in which an unlock of a name never seen pops another name and shares its id |
| CircularWait.MissedDeadlock | ServerCore/DeadLockProfiler.cpp:24-33 | for any two threads and two names, the run goes on to a deadlock that the profiler does not notice |
| CircularWait.EveryRunBounded | ServerCore/DeadLockProfiler.cpp:4-51 | every run, whatever is unlocked, keeps what PushLock asks of the state: ids below their number |
| SendBuffer.OpenMeans | ServerCore/SendBuffer.cpp:37-73 | Open crashes exactly on a size over 12000 or an open chunk; else it succeeds with a new buffer inside the thread's chunk and behind everything closed there; no live bytes change |
| SendBuffer.OpenChooses | ServerCore/SendBuffer.cpp:56-88 | the thread keeps its chunk as long as the size fits behind the used mark; otherwise it takes the chunk that came back last, a new one only if the pool is empty, and gives its own back if no buffer is left on it |
| SendBuffer.CloseMeans | ServerCore/SendBuffer.cpp:14-54 | too large a size is a crash; else the buffer keeps the size, the chunk is open no longer and its used mark is behind what was written |
| SendBuffer.DropReturns | ServerCore/SendBuffer.cpp:90-99 | the buffer is gone, and its chunk at the end of the pool exactly if no thread and no other buffer has it |
| SendBuffer.ExitReturns | ServerCore/SendBuffer.cpp:90-99 | the thread has no chunk any more, and the one it had is at the end of the pool exactly if no buffer is left on it |
| SendBuffer.StepInv | ServerCore/SendBuffer.cpp:14-99 | every allowed move keeps: the pool is exactly the unreferenced chunks, one thread per chunk, one open buffer per chunk, closed buffers disjoint, at most 12000 bytes used |
| SendBuffer.LiveBuffersDisjoint | ServerCore/SendBuffer.cpp:14-99 | in every state of every allowed run, closed live buffers are pairwise disjoint and within the used part, pooled chunks have no live buffer and no free chunk is lost |
| SendBuffer.ClosedBufferImmutable | ServerCore/SendBuffer.cpp:14-54 | over any allowed run a closed buffer keeps its place and its bytes until its last reference goes |
| Aftermath.InvImmutable | ServerCore/SendBuffer.cpp:14-73 | from every state of an allowed run no allowed continuation changes the bytes of a closed live buffer |
| SecondClose.SecondCloseSpoils | ServerCore/SendBuffer.cpp:14-19 | after Close(b), another open buffer can no longer be closed if and only if b was a closed buffer of its chunk |
| SecondClose.CloseContainedIff | ServerCore/SendBuffer.cpp:49-54 | after a Close that does not crash every used mark is within its chunk, if and only if the buffer was not closed before or the mark leaves room for the size |
| SecondClose.NextBufferContainedIff | ServerCore/SendBuffer.h:38-39 | after a second Close the thread's next Open succeeds; its buffer is inside the chunk, and its first write too, if and only if the used mark is |
| SecondClose.SecondCloseOverwritesIff | ServerCore/SendBuffer.cpp:37-54 | the next buffer can change bytes of the other one, once closed, if and only if the second size is below what the other asked for, the next is not empty and still fits |
| SecondClose.ReclosedOverwrittenIff | ServerCore/SendBuffer.cpp:14-54 | right after the second Close a write to the open buffer can change bytes of the buffer closed again, if and only if that one now reaches into the open one, which is not empty |
| SecondClose.ReclosedApartIff | ServerCore/SendBuffer.cpp:14-54 | right after the second Close the written ranges of closed live buffers are disjoint, if and only if the buffer closed again reaches into no closed one behind it |
| Aftermath.StableIff | ServerCore/SendBuffer.cpp:14-54 | right after the second Close no allowed move changes the bytes of any closed live buffer, if and only if the buffer closed again does not reach into the open one, or that one is empty |
| Aftermath.ImmutableIff | ServerCore/SendBuffer.cpp:14-73 | after the second Close no allowed run changes the bytes of any closed live buffer, if and only if the used mark is at the end of the chunk exactly and the open buffer had asked for nothing |
| Aftermath.Wraps | ServerCore/SendBuffer.cpp:39-53 | with the used mark beyond the chunk, filled buffers push it on until it wraps, and two buffers then lie in one place |
| SecondClose.Reached | ServerCore/SendBuffer.cpp:56-73 | allowed moves reach such a situation from the start, for all sizes that fit |
| SecondClose.OutsideRun | ServerCore/SendBuffer.cpp:14-54 | a run with a used mark of 13000 and a write outside the array |
| SecondClose.OverwriteRun | ServerCore/SendBuffer.cpp:14-54 | a run after which a closed buffer can be overwritten |
| SecondClose.ReclosedRun | ServerCore/SendBuffer.cpp:14-54 | a run after which the buffer closed again can be overwritten by the open one |
| SplitClose.SplitApartIff | ServerCore/SendBuffer.cpp:49-54 | with the owner's Open between the two stores of a Close, closed live buffers stay disjoint, if and only if one of the two is empty or the new one went to another chunk |
| SplitClose.SplitOverwrittenIff | ServerCore/SendBuffer.cpp:49-54 | then a write to the new buffer can change bytes of the closed one, if and only if neither is empty and they are on one chunk |
| SplitClose.SplitRun | ServerCore/SendBuffer.cpp:37-54 | a run from the start to both |
| SendBuffer.DroppedWhileOpen | ServerCore/SendBuffer.cpp:64-64 | after a drop of a buffer never closed, the thread's next Open crashes for every size |
| SendBuffer.DroppedRun | ServerCore/SendBuffer.cpp:56-73 | Open and Drop lead from the start to such a state, for all sizes |
| SendBufferManager.SendBufferChunk.Open | ServerCore/SendBuffer.cpp:37-47 | crash, nullptr or a buffer at the used mark, and the new chunk state |
| SendBufferManager.SendBufferChunk.Close | ServerCore/SendBuffer.cpp:49-54 | crash on a closed chunk, else the used mark moves by the written size |
| SendBufferManager.SendBufferManager.Open | ServerCore/SendBuffer.cpp:56-73 | does to the objects what the specification of Open does to the world |
| SendBufferManager.SendBufferManager.Pop | ServerCore/SendBuffer.cpp:75-88 | the chunk at the back of the pool, or a new one when the pool is empty |
| SendBufferManager.SendBufferManager.Release | ServerCore/SendBuffer.cpp:90-99 | a chunk returns to the pool exactly when its last reference goes |
| SendBufferManager.SendBufferManager.Close | ServerCore/SendBuffer.cpp:14-19 | does to the objects what the specification of Close does to the world |
| SendBufferManager.SendBufferManager.Exit | ServerCore/TLS.cpp:6-6 | a thread that ends gives up its chunk, which returns to the pool if nobody else has it |
| SendBufferManager.SendBufferManager.Drop | ServerCore/SendBuffer.cpp:10-12 | the buffer's reference to its chunk goes with the buffer |
| Framing.SplitKeepsAll | DummyClient/Network/Session.cs:15-38 | delivered packets and the rest are together the bytes that came; the rest is incomplete and at most 65534 bytes |
| Framing.SplitIncremental | DummyClient/Network/Session.cs:15-38 | splitting what came and then the rest with more is splitting everything at once |
| Framing.SplitFlatten | DummyClient/Network/Session.cs:15-38 | a concatenation of well-framed packets and an incomplete tail splits into exactly those packets and that tail |
| Framing.PrefixOfStream | DummyClient/Network/Session.cs:22-28 | every prefix of a stream of packets is whole packets and a proper prefix of the next |
| Framing.SpinsIff | DummyClient/Network/Session.cs:19-35 | the splitter's loop does not end if and only if the bytes are some packets, each as long as its header in the stream says, and then a header of size 0 |
| Framing.RoundTripIff | DummyClient/Network/Session.cs:42-50 | a packet comes out whole, with protocol and payload, if and only if the payload is at most 65531 bytes |
| Receiving.FragmentationIrrelevant | DummyClient/Network/Session.cs:201-230 | a session whose receive call is given the write segment and that receives bytes in any chunks delivers what one pass of the splitter over all of them delivers |
| Receiving.RoundTrip | DummyClient/Network/Session.cs:15-50 | with that receive call, any messages, sent as a stream and received in any fitting chunks, arrive as sent and in order, with a proper prefix of the next left over, and without disconnect or hang |
| Receiving.ReceiveProgress | DummyClient/Network/RecvBuffer.cs:30-44 | after every receive at most 65534 bytes remain, so at least one more byte fits |
| AsWritten.AgreesIff | DummyClient/Network/Session.cs:189-189 | the receive call as written does what is meant, for all bytes of given lengths in all sessions that receives lead to, if and only if nothing is unread when it starts |
| AsWritten.SameResultSameBytes | DummyClient/Network/Session.cs:189-214 | for given bytes it does what is meant if and only if the splitter is handed the same bytes |
| AsWritten.CutPacketLost | DummyClient/Network/Session.cs:189-214 | a packet cut in two is delivered by the intended session and not by the one as written |
| AsWritten.RoundTripAsWritten | DummyClient/Network/Session.cs:179-230 | the round trip holds as written for all runs whose receives, but for the last, end with a packet |
| RecvBuffer.RecvBuffer.Clean | DummyClient/Network/RecvBuffer.cs:30-44 | the unread bytes stay as they are and start at 0, also where source and destination overlap |
| RecvBuffer.RecvBuffer.OnRead | DummyClient/Network/RecvBuffer.cs:46-53 | refuses more than is unread, else drops that many bytes from the front |
| RecvBuffer.RecvBuffer.OnWrite | DummyClient/Network/RecvBuffer.cs:55-62 | refuses more than is free, else the bytes behind the write position become unread |
| PacketSession.PacketSession.OnRecv | DummyClient/Network/Session.cs:15-38 | delivers exactly the packets of the splitter, in order, and returns the number of bytes they take; or spins on a declared size 0 |
| PacketSession.PacketSession.Processed | DummyClient/Network/Session.cs:214-228 | disconnects exactly when the processed length is negative or more than is unread, else drops it |
| PacketSession.PacketSession.OnRecvCompletedAsync | DummyClient/Network/Session.cs:201-241 | the whole new session state; disconnects exactly when nothing came or it does not fit |
| PacketSession.PacketSession.ReceiveOnce | DummyClient/Network/Session.cs:201-230 | one turn of receiving, the bytes landing at the write position, is one step of the intended session |
| PacketSession.PacketSession.ReceiveAsWritten | DummyClient/Network/Session.cs:179-230 | one turn of receiving, the bytes landing at index 0, is one step of the session as written, the whole array included |
| PacketSession.SendAsync | DummyClient/Network/Session.cs:42-50 | fills the buffer with the encoding, every narrowing cast included |
| LazyCompaction.RoomIff | ServerCore/RecvBuffer.cpp:15-31 | after Clean at least the buffer size is free if and only if at most the buffer size is unread |
| LazyCompaction.CleanMeans | ServerCore/RecvBuffer.cpp:15-31 | with nothing unread both positions go to 0 and twice the buffer size is free; else the unread bytes move to 0 exactly if less than the buffer size was free, and nothing changes if not |
| LazyCompaction.CopiesBoundedIff | ServerCore/RecvBuffer.cpp:4-31 | over all runs whose compactions move at most m bytes, copied bytes never exceed received ones, if and only if 2m is at most the buffer size plus 1, or the buffer size is 0 |
| LazyRecvBuffer.RecvBuffer.Clean | ServerCore/RecvBuffer.cpp:15-31 | keeps the unread bytes; with none both positions are 0 and twice the buffer size is free, else they move to the start exactly if less than the buffer size was free, and nothing changes if not |
| LazyRecvBuffer.RecvBuffer.CopyDown | ServerCore/RecvBuffer.cpp:26-26 | an ascending byte copy moves the range intact although it overlaps |
| LazyRecvBuffer.RecvBuffer.OnRead | ServerCore/RecvBuffer.cpp:33-40 | refuses more than is unread, else drops that many bytes |
| LazyRecvBuffer.RecvBuffer.OnWrite | ServerCore/RecvBuffer.cpp:42-49 | refuses more than is free, else the bytes behind the write position become unread |
| TimedMap.ReplayEntry | Include/Poco/AccessExpireStrategy.h:52-67 | an entry of the timed map is the last write of its key with no remove or clear after it, stamped with the time its window started |
| TimedMap.GetIff | Include/Poco/AbstractCache.h:320-346 | get returns v if and only if v is the last value written, the key was not removed nor the cache cleared since, and less time than the expire time has passed since the last write or (access) the last successful get |
| TimedMap.OneEntry | Include/Poco/Timestamp.h:249-254 | with a window of that many milliseconds a get finds a single entry exactly while fewer microseconds have passed |
| TimeIndex.InsertKeeps | Include/Poco/ExpireStrategy.h:64-64 | inserting keeps the index in order of time and adds exactly the entry |
| TimeIndex.InsertAt | Include/Poco/ExpireStrategy.h:64-64 | the entry goes behind all of its own or an earlier time and in front of the others |
| TimeIndex.EraseKeeps | Include/Poco/ExpireStrategy.h:79-79 | erasing takes out exactly the entry of the handle |
| TimeIndex.ReplaceAgrees | Include/Poco/AccessExpireStrategy.h:60-64 | replacing a key's entry keeps the two indexes inverse to each other, in whichever order insert and erase are done |
| ExpireStrategy.Create | Include/Poco/ExpireStrategy.h:49-54 | throws exactly below 25 milliseconds; otherwise both indexes are empty |
| ExpireStrategy.ExpireStrategy.OnAdd | Include/Poco/ExpireStrategy.h:60-72 | the key's time becomes now; an old index entry goes |
| ExpireStrategy.ExpireStrategy.OnRemove | Include/Poco/ExpireStrategy.h:74-82 | the key goes from both indexes |
| ExpireStrategy.ExpireStrategy.OnUpdate | Include/Poco/AbstractStrategy.h:43-48 | the key's time becomes now |
| ExpireStrategy.ExpireStrategy.OnGet | Include/Poco/AccessExpireStrategy.h:52-67 | the key's time becomes now exactly when access counts and the key has not expired |
| ExpireStrategy.ExpireStrategy.OnClear | Include/Poco/ExpireStrategy.h:89-93 | both indexes are empty |
| ExpireStrategy.ExpireStrategy.OnIsValid | Include/Poco/ExpireStrategy.h:95-107 | valid exactly when the key is indexed and less than the expire time has passed since its time |
| ExpireStrategy.ExpireStrategy.OnReplace | Include/Poco/ExpireStrategy.h:109-120 | stopping at the first entry that has not expired still collects exactly the expired keys |
| AbstractCache.AbstractCache.IndexesAgree | Include/Poco/AbstractCache.h:292-301 | `_data`, `_keys` and `_keyIndex` have the same keys, each once |
| AbstractCache.AbstractCache.DoAdd | Include/Poco/AbstractCache.h:224-236 | records a write in the timed map; afterwards exactly the unexpired keys are held |
| AbstractCache.AbstractCache.DoUpdate | Include/Poco/AbstractCache.h:252-270 | the same, for a key that is there or not |
| AbstractCache.AbstractCache.Remove | Include/Poco/AbstractCache.h:292-301 | records a remove; a key that is not there is ignored |
| AbstractCache.AbstractCache.DoHas | Include/Poco/AbstractCache.h:303-318 | true exactly when the timed map would give a value |
| AbstractCache.AbstractCache.DoGet | Include/Poco/AbstractCache.h:320-346 | returns what the timed map of all calls so far gives for the key, records the get, and throws an expired entry away |
| AbstractCache.AbstractCache.DoClear | Include/Poco/AbstractCache.h:348-353 | records a clear |
| AbstractCache.AbstractCache.DoReplace | Include/Poco/AbstractCache.h:355-368 | leaves exactly the unexpired keys and the timed map as it was |
| AbstractCache.AbstractCache.Size | Include/Poco/AbstractCache.h:146-152 | the number of keys a get would find |

## Left out

- Sockets, IOCP and RIO, the send queue and its completion handling (Session.cs:82-175), service start-up, logging, databases, configuration, Protobuf, SimpleMath, the C++ session and the rest of Poco: input and output, foreign code, or easy consequences of what is here. Ticks and allocated addresses are free choices of the environment.
- Spinning: `LOCK_TIMEOUT`, spin counts and `yield` are steps that change nothing; that a call returns is said of a thread that runs alone, and nothing is said about fairness. A weak compare-and-swap may fail for no reason in the stack.
- DummyClient/Lock/Lock.cs: the same acquire algorithm as Lock.cpp. Its `ReadUnLock` tests the value after the decrement; the C++ `ReadUnlock` is the one modelled.
- Lock.Exclusion: clients release only what they hold. A CRASH stops its thread, which keeps what it owns, and the others go on. The bit masks are written as division and remainder by 65536.
- Lock.NeverCrashes: is about clients that unlock for reading before they unlock for writing; `Lock.CrashesIff` says what happens to the others.
- JobQueue.OwnershipToken: a thread that follows a pointer to a deleted node is stopped there, whether or not the address was allocated again, and the others go on; what it would read or write in that memory is not modelled. Pointers are numbers of allocations, and comparisons of pointers compare addresses. Each queue has its own addresses, and any address that no live node has may be handed out, the latest deleted included.
- Tails.TailLag: is about runs in which no compare-and-swap on `_tail` succeeds because another node has got the address of the one it expects; `StaleTail.TailFallsBack` is a run in which one does.
- JobQueue.FifoAndConservation: `ClearJobs` is not modelled, because it empties the list without changing `_jobCount`. Jobs are not null. `_jobCount` and `_popCount` do not wrap; that would take 2^31 outstanding jobs or threads.
- JobQueue.OneRunner: `CheckSync` is not used as a test of exclusion, because the thread-local is cleared after the token is given up. The global queue is an atomic FIFO. The worker polls whenever it likes, which includes stopping when its time is over.
- DeadLockProfiler.DeadLockProfiler.Dfs: visits successors in any order; the source goes by ascending id. MarkDiscovered, VisitAll, Visit and MarkFinished are parts of it, and `rank` exists only for the proof. Names are compared as pointers.
- CircularWait.NoCircularWait: two locks of one name share an id, so a circle among locks of one name is not detected; nothing is claimed about it.
- SendBufferManager.SendBufferManager.Open: a shared pointer to a chunk is the chunk's number, and the reference count is the set of threads and live buffers that hold it. Each call is one step, because the chunk is the thread's own and the pool is behind a lock; what a second thread does between the steps of one call is modelled only in `SplitClose`. `SendBuffer::Close` is a method of the manager.
- SendBuffer.ClosedBufferImmutable: the callers write only into buffers not yet closed and do not close a closed buffer while its chunk is open; module `SecondClose` says exactly what happens otherwise.
- Receiving.RoundTrip: is about the receive call as it is meant, with the write segment; `AsWritten` has the one that is written.
- PacketSession.PacketSession.OnRecv: a header that declares size 0 makes the loop go round for ever, which is a state of the model; declared sizes 1 to 3 are delivered as they are. Bytes are little-endian.
- LazyRecvBuffer.RecvBuffer.CopyDown: `memcpy` on overlapping ranges is undefined; the model copies bytes in ascending order. `bufferSize * 2` does not overflow.
- AbstractCache.AbstractCache.DoGet: the clock is read once in a call and does not go back. Event subscribers outside the strategy are left out, and so are `forceReplace`, `getAllKeys` and `forEach`, which add nothing to DoReplace. Timestamps do not overflow.
