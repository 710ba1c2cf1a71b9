# HCICS vehicle firmware: a Dafny model

This project models the parts of an RT-Thread based cleaning vehicle whose
correctness spans many calls, and proves what they keep.

* **Small-memory heap** (`SmallMemSpec`, `SmallMem`). A first-fit heap in one buffer
  with offset-linked headers. `SmallMemSpec` is the heap as a sequence of blocks;
  `SmallMem` is the buffer itself, with the source's loops and header writes, proved to
  do to the buffer what the specification does to the blocks.
* **Kernel lists and IPC** (`WaitOrder`, `RtList`, `WaitList`, `Waiting`, `MessageQueue`,
  `MessageQueueRuns`, `MessageQueueMachine`, `MessageQueueCalls`, `Mutex`, `MutexRuns`,
  `EventSet`, `Mailbox`, `MailboxRuns`).
  Classes hold the pointers, rings and counters; each interrupt-disabled section is one
  atomic step of a state machine; the `...Runs` modules prove what every interleaving
  keeps, and the machines of the message queue and the mailbox join the two.
  `MessageQueueCalls` proves the queue to be the one its calls alone describe.
* **Mission and report protocol** (`MissionReport`, `MissionStory`, `MissionContext`). The UDP thread,
  the mission thread and the pending-report slot as an interleaving of lock sections,
  the functions of the application as runs of it, and what the reports say.
* **Motion** (`StallDetector`, `Motion`). Ramping, encoder polling, the emergency stop,
  and two-sided time bounds for stall detection.
* **Tracking** (`TrackSpec`, `TrackPlaces`, `Track`). The path planner and the tick
  machine, and where its paths lead.
* **Protocol** (`FaultText`, `CameraFrames`). The UDP command grammar and camera frames.

`Common` holds what several of them share.

Time is in milliseconds and sizes are 32-bit; wrap-around is written out where the source
relies on it. Threads, interrupts, sockets and drivers appear as steps or parameters, so
the lemmas hold for whatever they do.

Five promises one might read into the source do not hold of it. Each is stated with the
exact condition under which it does, as an equivalence, and with a run that breaks it:

* the stall bound after a direct motor command (`StallDetector.DirectExact`,
  `StallDetector.DirectBreaksBound`);
* priority inheritance as an equality (`MutexRuns.StepExact`, `MutexRuns.RunExact`,
  `MutexRuns.BoostOutlivesWaiter`);
* that a path finishes only with every step accepted and its target recorded as the
  location, after a refused start (`TrackSpec.StepExact`, `TrackSpec.MislocatingRun`); no
  caller inside the application asks for a target above 9 (applications/hcics_app.c:793-821),
  so this concerns the module's public entry only (`TrackPlaces.OnGridLegal`);
* that the vehicle then is at the location recorded (`TrackPlaces.PlaceExact`,
  `TrackPlaces.JourneyExact`, `TrackPlaces.SecondMissionMisses`): nothing turns it round at
  home, and a plan to a panel presumes the dock;
* that nobody sleeps on event bits that are set, after a receive naming neither AND nor OR
  (`EventSet.StepExact`, `EventSet.StrandingRun`). The assertion against such a receive
  (rt-thread/src/ipc.c:1606) is empty in this board's configuration, which leaves debugging
  out (.config:36, rt-thread/include/rtdebug.h:149).

Two further limits of the heap are exact as well: heaps shorter than a minimal block
(`SmallMemSpec.SearchEnds`) and sizes whose rounding wraps (`SmallMemSpec.RequestCovers`).

Check the project with `dafny verify dfyconfig.toml`.

## Model

| member | source | states |
|---|---|---|
| `SmallMemSpec.RunFromInitial` | rt-thread/src/mem.c:279-556 | after any sequence of alloc, free and realloc calls from a fresh heap: the blocks tile it exactly, are aligned, have no two free neighbours; used and free strides (header plus payload) add up to `mem_size_aligned + SIZEOF_STRUCT_MEM`; and with nothing live the heap is its initial single free block |
| `SmallMemSpec.RunShape` | rt-thread/src/mem.c:279-556 | the shape (tiling, alignment, no free neighbours) is kept by every run from every well-shaped heap, not only from the initial one |
| `SmallMemSpec.ApplyShape` | rt-thread/src/mem.c:279-556 | one call of any kind, in any of its cases, keeps the shape |
| `SmallMemSpec.NullIff` | rt-thread/src/mem.c:300-387 | an allocation returns NULL if and only if the request is empty or no free block anywhere has room for the rounded size: the early size test and the cached `lfree` never hide a block |
| `SmallMemSpec.FirstFit` | rt-thread/src/mem.c:313-322 | the block chosen is the lowest free block with room: nothing before it fits, and it fits |
| `SmallMemSpec.RequestCovers` | rt-thread/src/mem.c:299-311 | a request is served with at least the bytes asked for if and only if rounding up does not wrap, and then with exactly the rounded or the minimal size; the last three 32-bit sizes round to zero and get a minimal block |
| `SmallMemSpec.RtAlignLeast` | rt-thread/src/mem.c:299-300 | short of wrapping, the rounded size is the least multiple of four that is not below the size asked for |
| `SmallMemSpec.SearchEnds` | rt-thread/src/mem.c:300-322 | on every heap, for every request that reaches the search and from every starting block, the loop ends if and only if the heap is at least `MIN_SIZE_ALIGNED` long; on a shorter one the wrapped bound never stops it and it circles at the end marker |
| `SmallMemSpec.TakeShape` | rt-thread/src/mem.c:324-376 | splitting or handing out a whole block keeps the shape |
| `SmallMemSpec.PlugShape` | rt-thread/src/mem.c:125-163 | the two merges of `plug_holes` repair the only place where free neighbours can arise |
| `SmallMemSpec.ReleaseShape` | rt-thread/src/mem.c:536-555 | freeing keeps the shape, so two free neighbours never remain |
| `SmallMemSpec.ShrinkShape` | rt-thread/src/mem.c:458-489 | an in-place shrink keeps the shape, although it does not round up to a minimal payload |
| `SmallMemSpec.TakeLive` | rt-thread/src/mem.c:324-387 | after an allocation the live blocks are the old ones, untouched, and one new block at the chosen address, of at least the rounded size and by less than a header and a minimal payload more |
| `SmallMemSpec.TakenBlock` | rt-thread/src/mem.c:324-376 | the block handed out is the free block whole, or exactly the size searched for with a free block of at least a minimal payload left over |
| `SmallMemSpec.ReleaseLive` | rt-thread/src/mem.c:536-555 | after a free the live blocks are exactly the others, untouched |
| `SmallMemSpec.ShrinkLive` | rt-thread/src/mem.c:458-489 | after an in-place shrink the live blocks are the others, untouched, and the same block with the new size |
| `SmallMemSpec.TakeBytes` | rt-thread/src/mem.c:355-371 | `used` grows by exactly the stride of the block handed out |
| `SmallMemSpec.ReleaseBytes` | rt-thread/src/mem.c:552 | `used` falls by exactly the stride of the freed block, whatever merges follow |
| `SmallMemSpec.ShrinkBytes` | rt-thread/src/mem.c:461 | `used` falls by exactly the bytes given up |
| `SmallMemSpec.BytesFill` | rt-thread/src/mem.c:355-371 | used strides plus free strides always equal the whole heap, so `used` may reach `mem_size_aligned + SIZEOF_STRUCT_MEM` |
| `SmallMemSpec.TakeRelease` | rt-thread/src/mem.c:313-555 | allocating and freeing the same block is the identity on layout and status, whether or not the allocation split, from any well-shaped heap |
| `SmallMemSpec.Quiescent` | rt-thread/src/mem.c:512-555 | a heap with no used block is exactly one free block, `used` is 0 and `lfree` is offset 0 |
| `SmallMemSpec.ReallocRounded` | rt-thread/src/mem.c:432-444 | realloc depends on the rounded size only: too large is refused with nothing changed, zero frees |
| `SmallMemSpec.ReallocPromise` | rt-thread/src/mem.c:418-503 | what realloc promises its caller, in every case: a pointer is the payload of a used block with at least the rounded bytes; it is the old pointer if and only if the block has just that size or enough to spare for a header and a minimal payload, and otherwise the lowest free block with room; NULL if and only if nothing or too much is asked for, or the block cannot stay and no free block has room; a refusal changes nothing; every other live block stays, and no other becomes live |
| `SmallMemSpec.MoveLive` | rt-thread/src/mem.c:492-502 | after a move the live blocks are the others, untouched, and the newly allocated one; the old one is gone |
| `SmallMemSpec.ResizeFrees` | rt-thread/src/mem.c:434-444 | realloc frees the block if and only if the new size is 0 or is one of the three sizes that rounding wraps to 0 |
| `SmallMem.Apart` | rt-thread/src/mem.c:337-354 | two different blocks, headers included, never overlap, so live payloads are pairwise disjoint |
| `SmallMem.StoreLinked` | rt-thread/src/mem.c:337-354 | a client writing only inside its own payload leaves every header, and every other live payload, as it was |
| `SmallMem.CutLinked` | rt-thread/src/mem.c:337-354 | the header writes of a split link exactly the split block list |
| `SmallMem.CutKeeps` | rt-thread/src/mem.c:337-354 | the header writes of a split touch no live payload |
| `SmallMem.MergeLinked` | rt-thread/src/mem.c:133-162 | the header writes of a merge link exactly the merged block list |
| `SmallMem.MergeKeeps` | rt-thread/src/mem.c:133-162 | the header writes of a merge touch no live payload |
| `SmallMem.LowestIndex` | rt-thread/src/mem.c:377-386 | the first block not used is where `lfree` must point |
| `SmallMem.SmallMem.constructor` | rt-thread/src/mem.c:178-242 | `rt_smem_init` establishes the invariant on one free block |
| `SmallMem.SmallMem.Alloc` | rt-thread/src/mem.c:279-405 | the linked buffer afterwards represents the first-fit result; the address returned is the payload of a used block of at least the rounded size; NULL exactly when nothing is chosen, and then nothing changed; the high-water mark; every live payload kept; the invariant (links, `prev` inverse, `lfree` lowest free, `used` exact) kept |
| `SmallMem.SmallMem.Search` | rt-thread/src/mem.c:313-322 | the loop over `next` offsets from `lfree` ends and finds the lowest fitting block of the whole heap, or none |
| `SmallMem.SmallMem.Rescan` | rt-thread/src/mem.c:374-387 | the `lfree` rescan ends at the lowest free block or at the end marker |
| `SmallMem.SmallMem.TakeBlock` | rt-thread/src/mem.c:324-387 | splitting or handing out the found block, with accounting and `lfree` restored |
| `SmallMem.SmallMem.PlugHoleForward` | rt-thread/src/mem.c:133-148 | the forward merge, including moving `lfree` off the swallowed header |
| `SmallMem.SmallMem.PlugHoleBackward` | rt-thread/src/mem.c:150-162 | the backward merge, including moving `lfree` off the swallowed header |
| `SmallMem.SmallMem.PlugHoles` | rt-thread/src/mem.c:125-163 | both merges together do what the block-list function does |
| `SmallMem.SmallMem.Free` | rt-thread/src/mem.c:512-556 | freeing represents the released block list, keeps the invariant and every other live payload; freeing NULL changes nothing |
| `SmallMem.SmallMem.Realloc` | rt-thread/src/mem.c:418-503 | the answer and the blocks afterwards keep the whole promise of `ReallocPromise`; wherever the block now is, it begins with the first min(old, new) bytes; other live payloads untouched; a NULL block is an allocation of the rounded size; NULL for a size that does not round to zero leaves heap, block and counters as they were |
| `SmallMem.SmallMem.Resize` | rt-thread/src/mem.c:448-502 | the size comparison and the choice between same place, shrink and move: the answer keeps the promise (block of sufficient size, old pointer exactly when it can stay, NULL exactly without room) and the contents |
| `SmallMem.SmallMem.ShrinkInPlace` | rt-thread/src/mem.c:458-489 | cutting the block, making the remainder free and merging it forward |
| `SmallMem.SmallMem.Relocate` | rt-thread/src/mem.c:492-502 | allocate, copy, free; nothing happens when the allocation fails |
| `SmallMem.SmallMem.CopyPayload` | rt-thread/src/mem.c:496 | the copy fills the new block with the old bytes and touches nothing else |
| `WaitOrder.Place` | rt-thread/src/ipc.c:128-158 | the position a suspending thread gets: last with FIFO; with PRIO behind all at least as urgent and before the first less urgent one |
| `WaitOrder.PlaceSorted` | rt-thread/src/ipc.c:136-158 | priority insertion keeps the list sorted, and the newcomer stands behind every equal: first come, first served |
| `WaitOrder.RemoveSorted` | rt-thread/include/rtservice.h:86-92 | leaving from any position keeps the list sorted |
| `RtList.InsertBefore` | rt-thread/include/rtservice.h:73-80 | the four pointer writes insert at that position of the ring; all else keeps its place |
| `RtList.InsertAfter` | rt-thread/include/rtservice.h:58-65 | the four pointer writes insert behind that position of the ring |
| `RtList.Remove` | rt-thread/include/rtservice.h:86-92 | removal from any position leaves the ring of the others and a self-linked node |
| `RtList.IsEmpty` | rt-thread/include/rtservice.h:98-101 | true exactly for the empty ring |
| `RtList.Len` | rt-thread/include/rtservice.h:107-118 | the walk ends and counts the ring |
| `RtList.Suspend` | rt-thread/src/ipc.c:121-168 | the list walk of `_ipc_list_suspend` puts the thread at its sorted (or last) place in the pointer ring |
| `RtList.Resume` | rt-thread/src/ipc.c:190-207 | the first thread leaves |
| `RtList.ResumeAll` | rt-thread/src/ipc.c:219-245 | all threads leave, in list order, and the ring is empty |
| `WaitList.WaitList.SuspendThread` | rt-thread/src/ipc.c:121-168 | on the ring of the threads' own nodes, suspending a thread is insertion into the sequence of thread numbers at the place its priority (or FIFO) gives it |
| `WaitList.WaitList.ResumeThread` | rt-thread/src/ipc.c:190-203 | on the ring, resuming removes and names the first thread of the sequence |
| `WaitList.WaitList.LeaveList` | rt-thread/include/rtservice.h:86-92 | on the ring, a timeout removes that thread from the sequence, from any position |
| `WaitList.WaitList.ChangePriority` | rt-thread/src/ipc.c:993-999 | a priority change alters that thread's priority only and leaves the ring as it is |
| `MessageQueue.MessageQueue.constructor` | rt-thread/src/ipc.c:2474-2525 | the free list holds every node once, in reverse index order; the queue is empty |
| `MessageQueue.MessageQueue.TakeFree` | rt-thread/src/ipc.c:2768-2847 | the first free node leaves the free list, or NULL when there is none |
| `MessageQueue.MessageQueue.Fill` | rt-thread/src/ipc.c:2849-2852 | the unlocked copy terminates and fills the node in hand; no other node in some thread's hands changes |
| `MessageQueue.MessageQueue.FillUrgent` | rt-thread/src/ipc.c:2984-2985 | the urgent copy touches only the node in hand |
| `MessageQueue.MessageQueue.Link` | rt-thread/src/ipc.c:2855-2878 | the node is appended through `msg_queue_tail`; -RT_EFULL exactly when the counter was at its limit; nodes in other threads' hands keep their `next` |
| `MessageQueue.MessageQueue.LinkUrgent` | rt-thread/src/ipc.c:2988-3007 | the node is put in front through `msg_queue_head`; nodes in other threads' hands keep their `next` |
| `MessageQueue.MessageQueue.TakeHead` | rt-thread/src/ipc.c:3149-3165 | the head node is unlinked, with the tail reset when it was the last |
| `MessageQueue.MessageQueue.PutFree` | rt-thread/src/ipc.c:3171-3174 | the node is pushed on the free list; nodes in other threads' hands keep their `next` |
| `MessageQueue.MessageQueue.Reset` | rt-thread/src/ipc.c:3235-3252 | the loop of RT_IPC_CMD_RESET moves every queued node to the free list and clears the counter |
| `MessageQueueRuns.Safety` | rt-thread/src/ipc.c:2737-3263 | along every interleaving of sends, urgent sends, receives, timeouts and resets: free list, queue and nodes in flight partition the pool; `entry` is the queue length; no NULL head, no late -RT_EFULL; while a receiver (sender) sleeps, queued messages (free nodes) are at most the woken receivers (senders) still to look; nothing is delivered twice, and a receiver gets the bytes that were linked |
| `MessageQueueRuns.StepSound` | rt-thread/src/ipc.c:2737-3263 | each atomic section keeps node conservation, the wait lists and the no-lost-wakeup inequalities |
| `MessageQueueRuns.StepOrder` | rt-thread/src/ipc.c:2849-3174 | each step does to the queued messages what a plain queue would: append, prepend, remove the front, clear, or nothing |
| `MessageQueueRuns.StepTaken` | rt-thread/src/ipc.c:3149-3165 | what a receive takes is the front message |
| `MessageQueueRuns.StepAtMostOnce` | rt-thread/src/ipc.c:2849-3174 | each message is with its sender, or queued, or taken, never in two places |
| `MessageQueueRuns.StepCarried` | rt-thread/src/ipc.c:2849-3169 | bytes in flight stay what their thread believes: no other thread writes a node that is in hand or queued |
| `MessageQueueRuns.RunOrder` | rt-thread/src/ipc.c:2737-3263 | over whole runs the queue is a plain queue fed by the linking sections, and the messages taken are exactly those it serves, in order |
| `MessageQueueRuns.LinkSound` | rt-thread/src/ipc.c:2855-2888 | when a node is linked the counter is below its limit, so the late -RT_EFULL cannot be reached, and the section keeps conservation and the wakeup bounds |
| `MessageQueueMachine.Machine.EnterSend` | rt-thread/src/ipc.c:2768-2847 | on the real node lists, the first section of any send in any reachable state is the matching step of the state machine: the first free node or NULL, to be queued in front by an urgent send and by no other |
| `MessageQueueMachine.Machine.EnterRecv` | rt-thread/src/ipc.c:3075-3165 | the first section of a receive on the real lists is the matching step: NULL exactly when the queue is empty, otherwise the node of the front message |
| `MessageQueueMachine.Machine.FillNode` | rt-thread/src/ipc.c:2849-2852 | the unlocked copy in is the matching step, whatever other threads have in flight |
| `MessageQueueMachine.Machine.LinkNode` | rt-thread/src/ipc.c:2855-2894 | the linking section is the matching step and puts the message behind all queued ones, or in front of them if urgent; that the node still ends in NULL is kept through every section of every other thread; -RT_EFULL is never reported |
| `MessageQueueMachine.Machine.CopyNode` | rt-thread/src/ipc.c:3168 | the unlocked copy out yields the message that was linked |
| `MessageQueueMachine.Machine.PutNode` | rt-thread/src/ipc.c:3171-3192 | the second section of a receive is the matching step |
| `MessageQueueMachine.Machine.ResetQueue` | rt-thread/src/ipc.c:3222-3257 | RT_IPC_CMD_RESET on the real lists is the matching step, with nodes in flight left alone |
| `MessageQueueMachine.Machine.TwoSenders` | rt-thread/src/ipc.c:2768-2878 | two interleaved senders, both nodes taken and filled before either is linked, queue in the order of the linking sections |
| `MessageQueueMachine.InFlight` | rt-thread/src/ipc.c:2843-2855 | a node in a thread's hands is on no list and in nobody else's hands |
| `MessageQueueCalls.QueueOfCalls` | rt-thread/src/ipc.c:2737-3263 | along every interleaving from start-up, contents and messages taken are those of the plain queue computed from the calls alone: a linking section appends what its thread last passed to `rt_mq_send`, or prepends what it last passed to `rt_mq_urgent`; what a receiver copies out was taken |
| `MessageQueueCalls.StepAgrees` | rt-thread/src/ipc.c:2737-3263 | one section on nodes and flags is one step of the queue of calls |
| `MessageQueueCalls.FirstInFirstOut` | rt-thread/src/ipc.c:2737-3263 | along every run without urgent sends and resets, the messages taken and then those still queued are exactly those linked, in linking order |
| `MessageQueueCalls.NothingLost` | rt-thread/src/ipc.c:2737-3263 | along every run without resets, each linked message, urgent or not, was taken or is queued, as often as it was linked |
| `MessageQueueCalls.SendLands` | rt-thread/src/ipc.c:2737-3023 | from every reachable state with a free node, one thread's send leaves its message behind all others, and its urgent send in front of them |
| `MessageQueueCalls.SendOutcome` | rt-thread/src/ipc.c:2768-2847 | a send holds a node if and only if there was one, sleeps if and only if there was none and it may wait, and is refused if and only if there was none and it may not |
| `MessageQueueCalls.RecvOutcome` | rt-thread/src/ipc.c:3075-3165 | a receive takes the front message if there is one; it sleeps, or is refused, if and only if there is none and it may, or may not, wait |
| `Mutex.Mutex.TakeSection` | rt-thread/src/ipc.c:937-1039 | over the real ring of waiters, called by a running thread: success exactly below the limit when it owns the mutex or nobody does, with one more hold; overflow only at the limit; a refusal only without waiting, with nothing changed; otherwise the owner is boosted and the thread joins the ring at its place |
| `Mutex.Mutex.ReleaseSection` | rt-thread/src/ipc.c:1113-1183 | over the real ring: not owner, still held, handover to the first waiter of the ring, or free |
| `Mutex.Mutex.ExpireSection` | rt-thread/src/ipc.c:1023-1030 | a timeout unlinks the thread from the ring and changes no priority |
| `MutexRuns.Safety` | rt-thread/src/ipc.c:909-1193 | along every run of takes, releases and timeouts: no owner iff `value` is 1 iff `hold` is 0, and then nobody waits; `hold` is the owner's net takes; everybody but the owner runs at its own priority, the owner at least as urgently as that and as every waiter |
| `MutexRuns.StepInv` | rt-thread/src/ipc.c:909-1193 | each section keeps the invariant, including that the wait list is ordered by urgency, then arrival |
| `MutexRuns.TakeMeaning` | rt-thread/src/ipc.c:937-1004 | in every reachable state a take succeeds if and only if nobody else has takes not released and the thread has fewer than 255, and then it owns the mutex with one more; it overflows if and only if it has 255; with somebody else inside it is refused if it may not wait and sleeps on the list if it may |
| `MutexRuns.ReleaseMeaning` | rt-thread/src/ipc.c:1113-1183 | a release without takes changes nothing; one of several leaves the thread the owner with one fewer; the last one, and only that, gives the mutex up |
| `MutexRuns.Nested` | rt-thread/src/ipc.c:937-1183 | n nested takes need n releases: whatever other threads do, a thread that has released fewer times than it took owns the mutex, with the difference as its hold count, and gives it up with the release that makes them equal |
| `MutexRuns.Handover` | rt-thread/src/ipc.c:1130-1183 | the last release gives the releaser its own priority back and the mutex to the most urgent, longest-waiting thread |
| `MutexRuns.JoinQueue` | rt-thread/src/ipc.c:992-1004 | joining at its place while the owner is boosted keeps the wait list ordered by urgency, then arrival |
| `MutexRuns.StepExact` | rt-thread/src/ipc.c:937-1193 | a step leads to a state where the owner runs at exactly the most urgent of its own and its waiters' priorities if and only if inheritance was exact and the step is not the timeout of the only waiter at a borrowed priority, or the step is the owner's last release or brings a waiter at least as urgent as the owner |
| `MutexRuns.RunExact` | rt-thread/src/ipc.c:909-1193 | from a state where it is exact, inheritance stays exact along a run if and only if no step of the run is such a timeout |
| `MutexRuns.ExpireExact` | rt-thread/src/ipc.c:1023-1030 | a timeout keeps inheritance exact if and only if it was, and the waiter was not the only one at a borrowed priority |
| `MutexRuns.BoostOutlivesWaiter` | rt-thread/src/ipc.c:1023-1030 | the run take, wait, time out from start-up, after which the owner, with nobody waiting, still runs at 5 while its own priority is 20 |
| `EventSet.Event.SendBits` | rt-thread/src/ipc.c:1435-1524 | the loop over the list of suspended threads, clearing bits as it goes, equals the recursive scan; the flags left and the bits given to clearing threads are disjoint and together the old flags and the bits sent; every waiter is kept or woken |
| `EventSet.Event.RecvBits` | rt-thread/src/ipc.c:1560-1680 | succeeds at once if and only if the named bits are all set (AND) or some are (OR), with exactly the named bits that are set, clearing the named bits exactly with CLEAR; otherwise refused, or joins the list |
| `EventSet.ScanStrandsNobody` | rt-thread/src/ipc.c:1455-1514 | of the waiters in front of the first one with neither AND nor OR (all, if there is none), nobody left could have been woken by what is left in the mask, even though clearing shrinks it during the scan; the waiters from there on are left as they were |
| `EventSet.ScanGives` | rt-thread/src/ipc.c:1469-1508 | a woken thread gets only bits that were set and that it asked for; an AND thread all it asked for, an OR thread at least one |
| `EventSet.ScanDisjoint` | rt-thread/src/ipc.c:1478-1508 | bits taken by a clearing thread reach nobody behind it in the same send |
| `EventSet.ScanConserves` | rt-thread/src/ipc.c:1501-1508 | what remains and what clearing threads took are disjoint and together are what was set |
| `EventSet.ScanSplits` | rt-thread/src/ipc.c:1455-1514 | every waiter is either kept or woken, once |
| `EventSet.ScanInOrder` | rt-thread/src/ipc.c:1455-1514 | the threads kept stay in list order, and the others are woken in list order |
| `EventSet.ScanGot` | rt-thread/src/ipc.c:1469-1508 | each woken thread is given exactly what it named out of what the clearing threads woken before it left |
| `EventSet.SendConserves` | rt-thread/src/ipc.c:1443-1508 | a send loses no bit and makes none up: what is set afterwards and what clearing threads were given are disjoint and together the old flags and the bits sent; no waiter is lost |
| `EventSet.RecvMeaning` | rt-thread/src/ipc.c:1611-1660 | bit by bit, when a receive succeeds, what it answers, what it clears, and what it leaves alone when it does not succeed |
| `EventSet.StepBit` | rt-thread/src/ipc.c:1435-1680 | a bit is set after a step if and only if it was set or is sent, and no clearing thread is given it, no successful clearing receive names it, and the step is no reset |
| `EventSet.BitLives` | rt-thread/src/ipc.c:1435-1680 | along every run, a bit is set at the end if and only if it was set at the start or sent on the way and has not been taken since |
| `EventSet.ScanAborts` | rt-thread/src/ipc.c:1489-1495 | the scan breaks off if and only if some waiter has neither AND nor OR |
| `EventSet.StepExact` | rt-thread/src/ipc.c:1435-1680 | after a step from a state where nobody waits in vain, no continuation by proper steps ever strands a thread if and only if the step is not a receive that names neither AND nor OR and is ready to wait |
| `EventSet.SafeExact` | rt-thread/src/ipc.c:1435-1680 | a state from which proper steps never strand a thread is exactly one where every waiter names AND or OR and none has what it asked for |
| `EventSet.StepSettled` | rt-thread/src/ipc.c:1435-1680 | every proper send, receive, timeout or reset keeps such a state |
| `EventSet.RunStrandsNobody` | rt-thread/src/ipc.c:1435-1680 | after every run of proper steps nobody sleeps on bits that are there |
| `EventSet.MalformedStrands` | rt-thread/src/ipc.c:1489-1495 | wherever a waiter with neither AND nor OR sits in the list, a run of timeouts, one joining thread and one send strands a well-formed thread |
| `EventSet.StrandingRun` | rt-thread/src/ipc.c:1603-1645 | a run from a new event: one thread waits for neither AND nor OR, a second for bit 0, bit 0 is sent, and the second sleeps on |
| `Mailbox.Mailbox.SendMail` | rt-thread/src/ipc.c:2080-2096 | append to a bounded double-ended queue, or full exactly when `size` mails are in; the entry-overflow result never occurs |
| `Mailbox.Mailbox.SendUrgent` | rt-thread/src/ipc.c:2172-2192 | prepend by stepping the reading end back around the ring |
| `Mailbox.Mailbox.RecvMail` | rt-thread/src/ipc.c:2328-2340 | take the front mail, or empty exactly when there is none |
| `MailboxRuns.Safety` | rt-thread/src/ipc.c:1986-2415 | along every interleaving of sends, urgent sends, receives, timeouts and resets: never more than `size` mails; the wait lists hold exactly the sleeping threads; while a receiver (sender) sleeps, mails (free places) are at most the woken receivers (senders) still to look |
| `MailboxRuns.StepInv` | rt-thread/src/ipc.c:1986-2415 | each section keeps this |
| `MailboxRuns.SendInv` | rt-thread/src/ipc.c:2012-2110 | a pass through the send loop, sending, sleeping or giving up, keeps it |
| `MailboxRuns.RecvInv` | rt-thread/src/ipc.c:2257-2360 | a pass through the receive loop keeps it |
| `MailboxRuns.SendOutcome` | rt-thread/src/ipc.c:2012-2110 | a pass through the send loop puts the mail behind the others if there is room; the thread sleeps with it, or is refused, if and only if there is none and it may, or may not, wait |
| `MailboxRuns.RecvOutcome` | rt-thread/src/ipc.c:2257-2360 | a pass through the receive loop takes the front mail if there is one; the thread sleeps, or is refused, if and only if there is none and it may, or may not, wait |
| `MailboxRuns.Machine.SendSection` | rt-thread/src/ipc.c:2012-2110 | on the ring, with its waiting threads, a pass through the send loop is the matching step |
| `MailboxRuns.Machine.UrgentSection` | rt-thread/src/ipc.c:2172-2205 | an urgent send, with the receiver it wakes, is the matching step |
| `MailboxRuns.Machine.ResetSection` | rt-thread/src/ipc.c:2383-2405 | RT_IPC_CMD_RESET empties the ring and wakes everybody, as the matching step does |
| `MailboxRuns.Machine.RecvSection` | rt-thread/src/ipc.c:2257-2360 | a pass through the receive loop, with the sender it wakes, is the matching step |
| `Mailbox.MailsAppend` | rt-thread/src/ipc.c:2080-2090 | writing at the writing end appends, and moves it one place on, modulo the size |
| `Mailbox.MailsPrepend` | rt-thread/src/ipc.c:2178-2191 | writing one place back prepends and leaves the writing end where it was |
| `Mailbox.MailsTake` | rt-thread/src/ipc.c:2328-2340 | reading at the reading end yields the oldest mail and leaves the rest in order |
| `MissionReport.Safety` | applications/hcics_app.c:182-656 | over every interleaving of the UDP and mission threads and every pattern of failing sends: at most one mission is reserved, queued or running; the occupied-slot branch, the queue-full rollback and the early -RT_EINVAL return are never taken; no accepted fault's final report is sent twice; once idle every accepted fault's report was sent or is the one in the slot |
| `MissionReport.StepInv` | applications/hcics_app.c:431-656 | each lock section keeps: one mission, exactly-once reporting, and every accepted fault open, sent or pending |
| `MissionReport.StepOne` | applications/hcics_app.c:182-219 | each step keeps that `busy` says exactly whether a mission is under way, that open missions are valid and unsent, and that what the UDP thread has looked at still holds |
| `MissionReport.StepOnce` | applications/hcics_app.c:561-656 | each step keeps that sent tickets do not repeat and that the slot is unsent except between its send and its clearing |
| `MissionReport.StepCovered` | applications/hcics_app.c:431-656 | no step loses an accepted fault: open missions and the slot pass their tickets on only to each other or to the sent ones |
| `MissionReport.SendsLast` | applications/hcics_app.c:617-656 | a final report goes out only when no mission is left open |
| `MissionReport.RoomForReserved` | applications/hcics_app.c:470-476 | a reserved mission is the only one, so its send finds an empty queue |
| `MissionReport.SlotUnsent` | applications/hcics_app.c:576-603 | a report in the slot is unsent and no open mission shares its ticket, so a later flush never repeats one |
| `MissionStory.Truth` | applications/hcics_app.c:431-656 | along every interleaving and every pattern of failing sends, each final report that left, and the one in the slot, names how the mission ended, the panel of the accepted fault it was for, and the peer that sent that fault; faults accepted and how missions ended are told by the steps alone |
| `MissionStory.StepTruthful` | applications/hcics_app.c:561-656 | no step lets out or stores a report that says anything else |
| `MissionStory.RunningLatest` | applications/hcics_app.c:982-1063 | the mission under way is for the fault accepted last |
| `MissionContext.Context.ReserveMission` | applications/hcics_app.c:182-212 | refuses when busy or a report is pending, otherwise sets `busy`; the exact run of the model it makes |
| `MissionContext.Context.QueueReserved` | applications/hcics_app.c:470-478 | queues the message, or undoes the reservation when no node is free |
| `MissionContext.Context.EnqueueFault` | applications/hcics_app.c:431-479 | the four outcomes and when each occurs; the exact run of the model it makes |
| `MissionContext.Context.ClearPendingIfCurrent` | applications/hcics_app.c:561-574 | clears the slot only when it still holds the report that was sent |
| `MissionContext.Context.FlushPending` | applications/hcics_app.c:576-603 | empties the slot exactly when the send succeeded; the exact run of the model it makes |
| `MissionContext.Context.StorePendingLocked` | applications/hcics_app.c:540-559 | stores only into an empty slot |
| `MissionContext.Context.ReportFinal` | applications/hcics_app.c:617-656 | a report not delivered goes to the slot; the exact run of the model it makes |
| `MissionContext.Context.RunMission` | applications/hcics_app.c:982-1063 | from its entry to its return: an invalid message changes nothing, any other ends with the report sent or stored and `busy` clear |
| `StallDetector.NoEarlyFault` | applications/hcics_motion.c:567-671 | fault 0xE3 comes only after an unbroken stall under command of 220 ms plus 670 ms for each boost still allowed, 1560 ms when the count starts at zero, provided no direct service cuts a boost short |
| `StallDetector.FaultInTime` | applications/hcics_motion.c:567-671 | under a lasting stall with updates at most d ms apart the fault is latched within 1560 + 7 d ms of the first stalled update |
| `StallDetector.FaultExact` | applications/hcics_motion.c:594-652 | an update latches the fault if and only if it sees a stall and finds the stall clock past 220 ms with both boosts used and none on, or past 1800 ms in any case |
| `StallDetector.BoostsExactly` | applications/hcics_motion.c:594-668 | the commands are boosted at an update if and only if a boost began at it or before it, less than 450 ms ago, with speed feedback ever since |
| `StallDetector.DirectExact` | applications/hcics_motion.c:702-708 | a direct service drops the stall clock and the boost but not the count; the 1560 ms are promised after it if and only if the stall had lasted one full cycle for every boost counted |
| `StallDetector.DirectBreaksBound` | applications/hcics_motion.c:702-708 | a run with two direct services in which the fault is latched 662 ms into the stall |
| `StallDetector.StallUnbroken` | applications/hcics_motion.c:590-634 | the stall clock measures an unbroken stall: it started at an update since which every update was stalled |
| `StallDetector.PaidRun` | applications/hcics_motion.c:590-668 | along every run, each boost counted has been paid for by a whole trigger and hold time of the present stall |
| `StallDetector.DeadlineStep` | applications/hcics_motion.c:590-668 | no update comes after the state's deadline, and no update that does not fault moves the deadline back |
| `Motion.RampClosedForm` | applications/hcics_motion.c:211-231 | n updates move a command 15 n towards its target and not beyond: it arrives after exactly ceil(distance / 15) of them and stays |
| `Motion.NormalizeMeaning` | applications/hcics_motion.c:193-209 | a normalised target is zero exactly for zero, keeps its sign, lies in 25..250, and is not changed by normalising again |
| `Motion.RampWithin` | applications/hcics_motion.c:717-730 | clamping never alters a ramped or boosted command |
| `Motion.RampApproaches` | applications/hcics_motion.c:211-231 | each side moves straight towards its own target, by 15 or by less only to arrive |
| `Motion.BoostMeaning` | applications/hcics_motion.c:233-243 | on each side a boosted command is zero exactly for zero, keeps its sign, and is as strong as the command or 90, whichever is stronger |
| `Motion.NormalizeNearest` | applications/hcics_motion.c:193-209 | on each side the target taken is, of the speeds the vehicle can be given in the direction asked for, the nearest |
| `Motion.StandsMeaning` | applications/hcics_motion.c:587-592 | the vehicle counts as standing if and only if its stronger command is at least 35 and its stronger actual speed at most 3 |
| `Motion.Chassis.Output` | applications/hcics_motion.c:450-468 | what the motor bridge is driven with, and the 0xE1 stop when the PWM driver fails |
| `Motion.Chassis.PollActualSpeed` | applications/hcics_motion.c:502-565 | fails exactly when motion is requested and an encoder reaches 20 failed reads in a row; the new speed of a side is the difference of its counts when that is believable; failure counters and base counts |
| `Motion.FailStreak` | applications/hcics_motion.c:519-541 | whatever came before a good poll, the counter is the number of polls since that failed while motion was requested (up to 255), so the limit is reached with the twentieth of them and with none before it |
| `Motion.Chassis.ApplyStuckBoost` | applications/hcics_motion.c:567-671 | equals one step of the stall detector; during a boost the outputs go the way of the commands at the larger of their strength and 90, otherwise they are unchanged; the latched stop |
| `Motion.Chassis.UpdateMotion` | applications/hcics_motion.c:673-731 | keeps the invariant that a stopped vehicle is not driven; when stopped everything stays zero; otherwise each command moves up to 15 towards its target, one stall-detector step is taken, and the drive is the command or, during a boost, its direction at the larger of its strength and 90 |
| `Motion.Chassis.SetTargetDirect` | applications/hcics_motion.c:808-824 | refused with nothing changed when stopped; stopped and still when the poll fails; otherwise command and drive equal the target (or the driver failure stops it), which is the nearest the vehicle can be given to what was asked on each side, and stall detection takes the direct step |
| `Motion.Chassis.SetTarget` | applications/hcics_motion.c:790-806 | accepted exactly when not stopped, and then the nearest target the vehicle can be given on each side |
| `Motion.Chassis.EmergencyStop` | applications/hcics_motion.c:831-848 | targets, commands and drive are zero, whether or not the PWM driver answers |
| `Motion.Chassis.ResetMotion` | applications/hcics_motion.c:862-886 | zeroes everything, forgets stalls, and leaves a stop in force |
| `TrackSpec.FinishMeansDone` | applications/hcics_track.c:448-822 | along every run without a harmful start: a finished path had all steps of its plan accepted, in order, and its target is the location recorded; a running one has accepted a prefix; no path ends by running past its end |
| `TrackSpec.StepExact` | applications/hcics_track.c:704-822 | after a step of a sound run, every way of driving on (frames, forward clock, stop) keeps the promise that a path finishes only with every step accepted and its target recorded as the location, if and only if the step is not a start for a target above 9 with a fresh camera while a path is driven and not yet in its closing delay |
| `TrackSpec.MislocatingRun` | applications/hcics_track.c:704-822 | a run from start-up: set out for panel 5, accept one node, refuse a start for target 10, see the next node: finished, home recorded, one step done |
| `TrackSpec.HarmfulStartMislocates` | applications/hcics_track.c:594-602 | after such a start the next node seen ends the path and records home, with steps left undone |
| `TrackPlaces.OnGridLegal` | applications/hcics_app.c:793-821 | a run whose starts all ask for targets up to 9, as the application's own do, has no harmful start |
| `TrackSpec.NodesSpaced` | applications/hcics_track.c:448-608 | two nodes accepted one after the other are at least 500 ms apart, after a turn to the left 1400, to the right 1250, about 1700 |
| `TrackSpec.TickAccepts` | applications/hcics_track.c:448-608 | along sound runs a tick accepts a node if and only if a path is driven with no action under way, the last node is 500 ms past, and a line frame at most 1500 ms old shows a wide enough crossing; what it accepts is the next planned step |
| `TrackSpec.StoppedStays` | applications/hcics_track.c:752-766 | a stopped tracker accepts no node and finishes nothing until it is started again, whatever it sees and however long it takes |
| `TrackSpec.PlanShape` | applications/hcics_track.c:242-369 | every plan fits the 16-step table, and only its last step ends it |
| `TrackSpec.OutwardLands` | applications/hcics_track.c:256-297 | from the dock, facing the main lane, the plan to a target leads to that target's own column and row |
| `TrackSpec.TargetsDistinct` | applications/hcics_track.c:256-297 | no two targets share a place |
| `TrackSpec.OutAndHome` | applications/hcics_track.c:256-355 | out from the dock and home again leads back to the dock, facing the other way |
| `TrackPlaces.PlanLeads` | applications/hcics_track.c:256-355 | where every plan leads from every place and heading; a plan to a panel does not look at the current location |
| `TrackPlaces.FaultLeads` | applications/hcics_protocol.c:244-267 | from the dock, the plan for the panel of any valid fault leads to the row and column the fault itself names |
| `TrackPlaces.PlaceExact` | applications/hcics_track.c:256-355 | a plan made where the tracker takes the vehicle to be ends at its target's place if and only if heading and targets fit: nowhere to go, out of the dock the way it faces, home from a panel entered from the main lane, or one of six pairs of neighbouring panels |
| `TrackPlaces.LaunchExact` | applications/hcics_track.c:256-355 | for each heading there is one place to set out from, given outright, for which a plan ends at its target's place, whatever the recorded location; and the plan does so only from there |
| `TrackPlaces.EverySecondMisses` | applications/hcics_track.c:256-355 | of missions out and home, one after the other, exactly the first, third, fifth, ... reach their panel; the others end at the mirror image of its place |
| `TrackPlaces.JourneyExact` | applications/hcics_track.c:448-822 | along every run without a harmful start: a finished path leaves the vehicle where its plan leads from where it set out; having set out at the recorded location, it is at the location now recorded if and only if heading and targets fitted |
| `TrackPlaces.Missions` | applications/hcics_track.c:704-822 | any targets can be driven to one after the other on a forward clock, each path finishing, with the last target recorded and the vehicle where the plans lead |
| `TrackPlaces.SecondMissionMisses` | applications/hcics_track.c:704-822 | for any two panels, a run out, home and out again whose last path finishes with its panel recorded, at the mirror image of its place |
| `TrackPlaces.NextPanelMisses` | applications/hcics_track.c:704-822 | a run to panel 5 and from there to panel 7, as after a mission given up at a panel: 7 is recorded, elsewhere |
| `TrackSpec.AcceptInv` | applications/hcics_track.c:594-608 | accepting a node keeps the log equal to the part of the plan already passed |
| `TrackSpec.CompleteInv` | applications/hcics_track.c:568-592 | completing an action keeps it too, and a final delay ends the path at its destination |
| `Track.Tracker.AddStep` | applications/hcics_track.c:242-254 | appends to the step table, or reports it full |
| `Track.Tracker.AddForwards` | applications/hcics_track.c:271-278 | the planner's loops append exactly n forward steps |
| `Track.Tracker.BuildToTarget` | applications/hcics_track.c:256-297 | fills the table with the outward plan; refuses targets off the grid |
| `Track.Tracker.BuildReturnHome` | applications/hcics_track.c:299-355 | fills the table with the plan home from the current location, and never fails |
| `Track.Tracker.PlanPath` | applications/hcics_track.c:357-369 | clears the table and builds the plan; a refused target leaves the plan cleared |
| `Track.Tracker.StartPath` | applications/hcics_track.c:704-750 | the three results, and the new state of the tracker including the cleared plan on refusal |
| `Track.Tracker.FinishPath` | applications/hcics_track.c:474-493 | the tracker stops, finished, at the destination |
| `Track.Tracker.BeginAction` | applications/hcics_track.c:495-566 | each action's duration and effect |
| `Track.Tracker.CompleteAction` | applications/hcics_track.c:568-592 | waits for the end of the action with a wrapping comparison, then resumes or finishes |
| `Track.Tracker.AcceptNode` | applications/hcics_track.c:594-608 | the next step is logged and begun, or the path ends when none is left |
| `Track.Tracker.SeesNode` | applications/hcics_track.c:448-472 | the node test: fresh camera, cooldown over, typed wide node or very wide untyped one |
| `Track.Tracker.TrackTick` | applications/hcics_track.c:786-822 | one tick is one step of the state machine |
| `FaultText.ParseExact` | applications/hcics_protocol.c:269-315 | a text parses to a fault if and only if it is `FAULT,` the token and four comma-separated decimal fields (any leading zeros, at most 255) and trailing white space, forming that valid fault |
| `FaultText.RoundTrip` | applications/hcics_protocol.c:269-315 | parsing what was printed gives the fault back, for every usable token and valid fault |
| `FaultText.PrintExact` | applications/hcics_protocol.c:269-315 | printing what was parsed gives the text back if and only if the text has no leading zeros and ends in one newline |
| `FaultText.StopExact` | applications/hcics_protocol.c:317-334 | a stop text is accepted if and only if it is `STOP,` the token and white space |
| `FaultText.ParseUintField` | applications/hcics_protocol.c:64-116 | the digit loop with its early overflow exit equals the field's definition |
| `FaultText.ParseTail` | applications/hcics_protocol.c:93-111 | the delimiter, or white space to the end of the text |
| `FaultText.TokenIsUsable` | applications/hcics_protocol.c:118-137 | true exactly for non-empty tokens without comma or white space |
| `FaultText.ParseTokenField` | applications/hcics_protocol.c:139-187 | the comparing loop accepts exactly the token |
| `FaultText.ParseFaultText` | applications/hcics_protocol.c:269-315 | the whole parser equals its definition |
| `FaultText.ParseStopText` | applications/hcics_protocol.c:317-334 | accepts exactly the stop texts |
| `FaultText.GridOfValid` | applications/hcics_protocol.c:302-305 | the row and column test is implied by the validity test after it |
| `FaultText.ValidNumbering` | applications/hcics_protocol.c:244-267 | a fault is valid if and only if its row and column are 1 to 3, its number counts the panels row by row, and its severity is not zero |
| `CameraFrames.Framing` | applications/hcics_protocol.c:199-242 | fed any stray bytes and nine-byte stretches, the parser emits the targets of the intact frames, in order, and is ready for the next frame |
| `CameraFrames.Splits` | applications/hcics_protocol.c:199-242 | every byte stream is such items and the beginning of a frame, and what has been emitted is the items' targets |
| `CameraFrames.DecodeExact` | applications/hcics_protocol.c:228-241 | nine bytes mean a target if and only if they are its encoding, with mode 1 or 2 |
| `CameraFrames.CameraParser.Feed` | applications/hcics_protocol.c:199-242 | one byte: the buffer never overruns, stays equal to the pending bytes of the stream, and a target is returned exactly when one is emitted |

## Left out

- `rt_smem_init`: the address arithmetic that aligns the buffer; the model starts from the aligned size. Each header word is one cell at its byte offset, payload bytes are one cell each.
- `rt_smem_detach`, memory tracing and the shell commands of the heap. The board's own configuration selects a different heap (memheap), whose source is not part of this model.
- Client writes during a run are covered by `SmallMem.StoreLinked`, not by a step of `SmallMemSpec.Run`.
- MutexRuns.Safety: one mutex, with no other cause of priority change; with nested mutexes `original_priority` may record an already boosted value.
- MessageQueueRuns.Safety: a suspended thread may take any place in its wait list, so the result does not rely on the wait order; the order itself is proved in `WaitOrder`, `RtList` and `WaitList`. The size check of a send and the truncation of a receive to the caller's buffer are not modelled, nor is the remaining-time bookkeeping of the retry loops beyond "expired or not".
- Scheduler, thread and timer internals are assumed: resuming unlinks a thread and stops its timer, a timeout unlinks it with -RT_ETIMEOUT, and a priority change sets `current_priority`.
- MailboxRuns.Safety: a suspended thread may take any place in its wait list, as for the message queue, and the remaining-time bookkeeping of the retry loops is only "expired or not".
- EventSet.Event.RecvBits: the wait place is a parameter, the list of suspended threads is a sequence (`WaitList` refines a ring to such a sequence), and a mask is the set of its bit positions.
- Semaphores, devices, idle and clock code, SMP paths, hooks and debug assertions.
- MissionReport.Safety: a report goes out or fails as the environment decides, which covers the socket, link and length checks; rejection texts, which are not final reports, are not recorded; the drive, cleaning and abort logic between a mission's start and its end is one step. A STOP that arrives before the mission thread starts is cleared by it (hcics_app.c:1000-1003), so nothing is claimed about it.
- MissionContext.Context.RunMission: it is shown to be a run of the interleaving model when the other thread does not come between; interference is covered by `MissionReport`, whose steps are the lock sections.
- StallDetector.NoEarlyFault: assumes a positive clock that does not wrap and that direct services leave a running boost alone; both are needed.
- Motion.Chassis.PollActualSpeed: encoder totals and 32-bit overflow of a count difference are not modelled; values are assumed to fit 16 bits.
- Motion.Chassis.Output: direction pins and pulse widths; the model keeps only the signed drive value and that a failing driver drives nothing.
- TrackSpec.NodesSpaced: assumes a clock that does not run backwards and stays below half the 32-bit range.
- Track.Tracker.TrackTick: line following, which only steers (floating-point gains), motor commands, status texts and the check that motors are configured.
- `TrackSpec.Drive`: the meaning of the steps on the plane (one lane segment for each forward step, turns in place) is this model's reading of the step names; being picked up and turned by hand is not modelled.
- FaultText.ParseFaultText: the fault record's contents after a refused text, and its fixed `source` field. The caller's rejection of texts with embedded NUL bytes is the precondition.
- CameraFrames.CameraParser.Feed: the time stamp put on a target, and the partial update of the target record for frames of unknown mode.
- The cleaner, guard, axis and encoder modules, Wi-Fi and socket handling, and all drivers: device sequencing whose meaning lies outside this code.
