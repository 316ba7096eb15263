# Verification of the RT-Thread 4.1.0 kernel core

This project models the hard parts of the RT-Thread 4.1.0 kernel that the robot firmware carries
under `rt-thread/`, and the two copy loops of its Ethernet driver, and proves properties of them in
Dafny. Run `dafny verify dfyconfig.toml` here to check all of it.

Each kernel object of `rt-thread/src/ipc.c` and `rt-thread/src/mempool.c` appears twice. Once it is a
transition system: a state, a set of events and a function `Step`, where each event is one section
that the source runs with interrupts disabled. Every interleaving of threads and interrupt handlers
is a sequence of events, and the theorems about runs speak of every such sequence. The second time it
is a class with the source's fields, whose methods do what the source does (offsets that wrap, links
between nodes, counters with their limits, retry loops) and are proved to take exactly the model's
step. A thread is a number; its entry in `pcs` says where it is: outside the object, suspended,
woken but not yet run, or in the middle of a copy.

What a run does is told a second time without looking at what the model stores for a thread: the
`...Calls` modules read the last call of every thread, the time it has left and when it arrived off the
list of events, and say for every reachable state what each call returns, what it puts in or takes out,
and which thread it wakes.

| file | what it models |
|---|---|
| `WaitQueue.dfy` | wait lists as sequences, their order, and the rule that no wake-up is lost |
| `History.dfy` | a thread's last call, its waiting time and its arrival, read off the events of a run |
| `MailboxCalls.dfy`, `MessageQueueCalls.dfy`, `SemaphoreCalls.dfy`, `MutexCalls.dfy`, `EventCalls.dfy`, `MemPoolCalls.dfy` | for each kernel object: what a call returns and does, and who is woken, told from the calls |
| `RtList.dfy` | the circular doubly linked list and the two wait list operations on it |
| `Mailbox.dfy` | the mailbox: transition system, and the ring of words that refines it |
| `MessageQueue.dfy` | the message queue with copies byte by byte outside the critical sections |
| `MessageQueueDeque.dfy` | linearization of the message queue to a double-ended queue of messages |
| `MessageQueueLinks.dfy` | the message queue as linked nodes of one pool |
| `Semaphore.dfy`, `Mutex.dfy`, `EventFlags.dfy` | the other three objects of `ipc.c` |
| `MutexPair.dfy` | two mutexes that share their threads: where priority inheritance ends |
| `MemPool.dfy` | the memory pool, with the free list threaded through the block headers |
| `Heap.dfy` | the small-memory heap as a row of blocks |
| `HeapMemory.dfy` | the heap in memory: headers and data in one array of words |
| `HeapLimits.dfy` | where the heap's 32-bit arithmetic is safe and where it is not |
| `Number.dfy` | what `print_number` prints, and that reading it back gives the number |
| `Format.dfy` | what `rt_vsnprintf` prints, and the writer that prints it into a bounded buffer |
| `Directive.dfy` | what a format and its directives print, told from their characters |
| `EthCopy.dfy` | the transmit and receive copy loops of `drv_eth.c` |

## Main results

- Message queue: `MessageQueueCalls.CallsOnDeque`, `MessageQueueCalls.Answers`,
  `MessageQueueCalls.WakesTheFirst`, `MessageQueueDeque.NodesNeverLost`, `MessageQueueDeque.NoLostWakeup`,
  carried to the linked nodes by the methods of `MessageQueueLinks.MessageQueue`.
- Mailbox: `MailboxCalls.CallsOnQueue`, `MailboxCalls.SentInOrder`, `MailboxCalls.Answers`,
  `MailboxCalls.WakesTheFirst`, `MailboxModel.NoLostWakeup`, and the ring refinement by the methods of
  `MailboxRing.Mailbox`.
- Mutex: `MutexModel.PriorityInheritance`, `MutexCalls.PriorityChanges`, `MutexModel.ReleaseRestores`,
  `MutexModel.Ownership`, `MutexCalls.Answers`, `MutexCalls.WakesTheFirst`, `MutexModel.HoldCountsUnmatchedTakes`.
- Two mutexes: `MutexPair.BackToOwnPriority`, `MutexPair.NestedRunsRestore`,
  `MutexPair.SeparateRunsInherit`, `MutexPair.ReleaseKeepsOther`.
- Semaphore: `SemaphoreModel.Conservation`, `SemaphoreCalls.Answers`, `SemaphoreCalls.WakesTheFirst`.
- Event set: `EventModel.SendIsReceives`, `EventModel.NobodyWaitsSatisfied`, `EventModel.SweepAccounts`,
  `EventCalls.Answers`, `EventCalls.WaitersAreCalls`.
- Heap: `HeapMemory.SmallMem.Alloc`, `HeapMemory.SmallMem.Realloc`, `HeapMemory.SmallMem.Free`,
  `HeapModel.RunHeap`, `HeapModel.SpansAddUp`, `HeapMemory.ReallocAccounts`.
- Memory pool: `MemPoolModel.PoolNeverLeaks`, `MemPoolModel.FreshBlock`, `MemPoolCalls.Answers`,
  `MemPoolCalls.WakesTheNewest`.
- Formatter: `Formatter.Vsnprintf`, `DirectiveText.FormatKeepsPromise`, `NumberText.PrintedNumberReadsBack`.
- Ethernet: `EthCopy.Descriptors.Transmit`, `EthCopy.Descriptors.Receive`.

Where the code does not do what its documentation or the C standard promises, the code was followed
and the exact condition is proved:

- Priority inheritance can fail for a thread that holds two mutexes:
  - `MutexPair.NestedReleaseLosesBoost` is a run in which a release breaks the promise of the other mutex;
    `MutexPair.ReleaseKeepsOther` says for every run exactly when a release does not.
  - `MutexPair.NestedReleaseLeavesBoost` is a run that leaves a thread that owns nothing with a lent
    priority; `MutexPair.BackToOwnPriority` says for every run that a thread that gives up a mutex is back
    at its own priority exactly when it had not been lent one when it acquired that mutex, and
    `MutexPair.NestedRunsRestore` that giving up in the reverse order of acquisition always restores.
  - `MutexPair.SeparateRunsInherit`: in runs in which no thread takes one mutex while it owns the other,
    inheritance holds for both.
- A reallocation that shrinks a block keeps the minimal block size exactly when the new size is not
  below it (`HeapModel.ShrinkKeepsMinimum`).
- An allocation search ends exactly when the heap has room for one minimal block
  (`HeapLimits.SearchEnds`), and a granted block holds the bytes asked for exactly when rounding the
  request up does not wrap around in 32 bits (`HeapLimits.GrantedRequestFits`).
- `rt_mp_init` writes only inside the pool exactly when the pool has at least one block
  (`MemPoolMemory.LastWriteInside`).
- A request for at least 0xFFFF_FFFD bytes rounds to zero (`HeapMemory.RoundsToZero`), so reallocating a live
  pointer to it frees the block and returns null, as `HeapMemory.SmallMem.Realloc` states.
- The printed length of a number is the documented one exactly when the precision is not 0
  (`NumberText.PrintedLength`); `%o` prints octal digits exactly of the numbers below 8
  (`NumberText.OctalOnlyBelowEight`); a string is cut by its field width, and not by precision 0, unlike
  in the C standard, and `FormatText.StringCutIsStandard` says exactly when the two agree.
- The comment on `rt_vsnprintf` says that it returns the number of characters written; it returns the
  length of the untruncated text, as `Formatter.Vsnprintf` states, and by `Formatter.LengthIsWritten` the two
  are the same exactly when the text is shorter than the usable buffer or empty.

## Model

| member | source | states |
|---|---|---|
| `WaitQueue.InsertAt` | rt-thread/src/ipc.c:139-158 | the place found by the priority walk has only threads at least as urgent before it and a strictly less urgent one behind it |
| `WaitQueue.EnqueueMembers` | rt-thread/src/ipc.c:121-168 | suspending a thread adds exactly that thread to the wait list, once |
| `WaitQueue.EnqueueOrdered` | rt-thread/src/ipc.c:128-160 | a newly suspended thread is put where arrival order, or priority order with ties in arrival order, wants it |
| `WaitQueue.RemoveMembers` | rt-thread/src/ipc.c:235-240 | resuming or timing out removes exactly that thread from the wait list |
| `WaitQueue.RemoveAt` | rt-thread/src/ipc.c:235-240 | removing a thread keeps the threads before and behind it, in their order |
| `WaitQueue.RemoveOrdered` | rt-thread/src/ipc.c:235-240 | a wait list stays in its promised order when a thread leaves it from any place |
| `WaitQueue.GateProceed` | rt-thread/src/ipc.c:2080-2112 | a running thread that goes on, with or without a unit, keeps the rule that while threads are suspended the available units are at most the threads woken for them |
| `WaitQueue.GateSuspend` | rt-thread/src/ipc.c:2019-2058 | suspending when nothing is available keeps the rule that while threads are suspended the available units are at most the threads woken for them |
| `WaitQueue.GateWake` | rt-thread/src/ipc.c:2098-2109 | adding a unit and resuming the first suspended thread keeps the rule that while threads are suspended the available units are at most the threads woken for them |
| `WaitQueue.GateExpire` | rt-thread/src/ipc.c:2060-2065 | a timeout of a suspended thread keeps the rule that while threads are suspended the available units are at most the threads woken for them |
| `RtList.Node.constructor` | rt-thread/include/rtservice.h:47-50 | an initialised node is a circle of its own |
| `RtList.IsEmpty` | rt-thread/include/rtservice.h:98-101 | the head points to itself exactly when no thread is on the list |
| `RtList.InsertAfter` | rt-thread/include/rtservice.h:58-65 | the four writes put the new node right behind the given one in a circle linked both ways |
| `RtList.InsertBefore` | rt-thread/include/rtservice.h:73-80 | the four writes put the new node right before the given one, and at the end when that is the head |
| `RtList.InsertLast` | rt-thread/include/rtservice.h:73-80 | inserting before the head appends |
| `RtList.Unlink` | rt-thread/include/rtservice.h:86-92 | the remaining nodes are linked in their old order and the removed node is a circle of its own |
| `RtList.FindPlace` | rt-thread/src/ipc.c:139-151 | the pointer walk stops at the first strictly less urgent thread, or at the head when there is none |
| `RtList.Suspend` | rt-thread/src/ipc.c:121-168 | the pointer walk and insertion give exactly the sequence the wait queue model gives, under FIFO and PRIO |
| `RtList.InsertAtIs` | rt-thread/src/ipc.c:140-158 | the place where the walk stops is determined by what it has seen |
| `RtList.ThreadsOfInsert` | rt-thread/include/rtservice.h:58-80 | inserting a node inserts its thread at that place of the list and moves no other |
| `RtList.ThreadsOfRemove` | rt-thread/include/rtservice.h:86-92 | unlinking the node of a thread is removing the thread from the list, as resuming and timing out do |
| `RtList.ResumeAll` | rt-thread/src/ipc.c:219-247 | the loop empties the list and resumes its threads first to last |
| `RtList.ResumeFirst` | rt-thread/src/ipc.c:190-203 | the first thread leaves and the others keep their order |
| `MailboxModel.StepKeepsInv` | rt-thread/src/ipc.c:1986-2115 | every event of the mailbox keeps the wait lists equal to the suspended threads and loses no wake-up |
| `MailboxModel.RunKeepsInv` | rt-thread/src/ipc.c:1986-2413 | every run of the mailbox keeps the wait lists equal to the suspended threads and loses no wake-up |
| `MailboxModel.NoLostWakeup` | rt-thread/src/ipc.c:2019-2109 | in every reachable state mails facing a suspended receiver are at most the receivers woken and about to run, and dually for free slots and senders, through barging, timeouts, urgent mails and resets |
| `MailboxModel.FifoStep` | rt-thread/src/ipc.c:2080-2096 | what the box held and an event put in is what it took out and the box holds |
| `MailboxModel.FirstInFirstOut` | rt-thread/src/ipc.c:2080-2340 | over any run without urgent mails and resets, the mails taken out and still in the box are the mails accepted, in order; `MailboxCalls.AcceptedIsSent` says that these are the values of the sends |
| `MailboxDeque.StepRefines` | rt-thread/src/ipc.c:2080-2402 | every event of the mailbox is one step, or no step, of a bounded double-ended queue |
| `MailboxDeque.RunRefines` | rt-thread/src/ipc.c:1986-2413 | every run, with urgent mails, timeouts and resets, is a run of the bounded queue: nothing is pushed into a full one or taken from an empty one, the box holds its mails, and each receive returned the mail the queue gave that thread; `MailboxCalls.CallsOnQueue` says which call each operation is |
| `History.LastBy` | rt-thread/src/ipc.c:1986-2413 | the place of the last event about a thread, with none behind it |
| `History.FirstComesFirst` | rt-thread/src/ipc.c:190-203 | the first thread of a wait list, and no other, comes before all suspended threads in the promised order |
| `History.ListInOrder` | rt-thread/src/ipc.c:121-168 | joining at the promised place, leaving and waking keep a wait list in its promised order, with arrival read off the events |
| `MailboxCalls.PcsRemember` | rt-thread/src/ipc.c:2011-2078 | after every event a thread that is suspended or woken still has the value of its own last call, and as much waiting time as the elapsed ticks leave of it |
| `MailboxCalls.StepRemembers` | rt-thread/src/ipc.c:1986-2413 | every event keeps both wait lists in their promised order and every thread with its own call |
| `MailboxCalls.Answers` | rt-thread/src/ipc.c:1986-2363 | in every reachable state a send returns RT_EOK exactly when its own value went in at the end, the full error exactly when no waiting time is left, the timeout error exactly when its timer fired, and otherwise waits on; an urgent send puts its value in front; a receive returns the first mail |
| `MailboxCalls.WakesTheFirst` | rt-thread/src/ipc.c:2098-2109 | a suspended thread is woken by its own timer, by a reset, or exactly when it comes before all others and a mail goes in or out; no other thread is touched |
| `MailboxCalls.EffectIsCall` | rt-thread/src/ipc.c:2080-2340 | the operation of the bounded queue that an event is follows from the last call of its thread and from what the call returns |
| `MailboxCalls.CallsOnQueue` | rt-thread/src/ipc.c:1986-2413 | every run does to a bounded queue what its calls say: the value of every send that returned RT_EOK was pushed where it asked, nothing else was, the box holds the words of the queue, and receives returned what it gave them |
| `MailboxCalls.SentInOrder` | rt-thread/src/ipc.c:2080-2340 | without urgent mails and resets the mails received and then those in the box are the values of the sends that returned RT_EOK, in that order |
| `MailboxCalls.AcceptedIsSent` | rt-thread/src/ipc.c:2080-2096 | the mails that the box accepted are the values of the calls that returned RT_EOK, and those taken out are what receives returned |
| `MailboxRing.WrapIsMod` | rt-thread/src/ipc.c:2083-2085 | the conditional reset of an offset is the remainder modulo the size |
| `MailboxRing.ViewAppend` | rt-thread/src/ipc.c:2080-2085 | writing at the input offset appends to the ring, across the wrap |
| `MailboxRing.ViewPrepend` | rt-thread/src/ipc.c:2178-2189 | stepping the output offset back and writing there prepends, across the wrap |
| `MailboxRing.ViewPop` | rt-thread/src/ipc.c:2328-2334 | stepping the output offset removes the first mail, across the wrap |
| `MailboxRing.Mailbox.OffsetEquation` | rt-thread/src/ipc.c:2080-2090 | the input offset is the output offset plus the counter, modulo the size |
| `MailboxRing.Mailbox.constructor` | rt-thread/src/ipc.c:1793-1798 | a new mailbox is empty and valid, its size cut to sixteen bits |
| `MailboxRing.Mailbox.Append` | rt-thread/src/ipc.c:2080-2096 | the stored mail becomes the last one; the overflow branch cannot be reached |
| `MailboxRing.Mailbox.Prepend` | rt-thread/src/ipc.c:2178-2192 | the stored mail becomes the first one |
| `MailboxRing.Mailbox.Pop` | rt-thread/src/ipc.c:2328-2340 | the mail returned is the first one and the rest stay |
| `MailboxRing.Mailbox.PassSend` | rt-thread/src/ipc.c:2011-2115 | one pass of the send loop takes exactly the model's step and keeps the invariant; a thread that is suspended keeps its value and its time |
| `MailboxRing.Mailbox.SendOrWait` | rt-thread/src/ipc.c:1986-2115 | a send up to its return or suspension takes exactly the model's step; a thread that is suspended keeps its value and its time |
| `MailboxRing.Mailbox.Urgent` | rt-thread/src/ipc.c:2159-2211 | an urgent send takes exactly the model's step, full box included |
| `MailboxRing.Mailbox.PassRecv` | rt-thread/src/ipc.c:2256-2363 | one pass of the receive loop takes exactly the model's step and keeps the invariant |
| `MailboxRing.Mailbox.Receive` | rt-thread/src/ipc.c:2233-2363 | a receive up to its return or suspension takes exactly the model's step |
| `MailboxRing.Mailbox.Continue` | rt-thread/src/ipc.c:2060-2078 | a woken thread returns its error or makes another pass with the time that is left |
| `MailboxRing.Mailbox.TimerExpires` | rt-thread/src/ipc.c:2038-2065 | a timeout removes the thread from the list it is on and nothing else |
| `MailboxRing.Mailbox.ResumeAll` | rt-thread/src/ipc.c:219-247 | every thread of the list is resumed with an error, no other thread is touched |
| `MailboxRing.Mailbox.Reset` | rt-thread/src/ipc.c:2389-2410 | a reset resumes every suspended thread with an error and empties the box |
| `MessageQueueModel.InitInv` | rt-thread/src/ipc.c:2504-2519 | a new queue has every node on the free list once |
| `MessageQueueModel.Exclusive` | rt-thread/src/ipc.c:2843-2878 | no node is twice on a list, on both lists, on a list while a thread copies it, or copied by two threads, and no node is anywhere else |
| `MessageQueueModel.FailKeepsInv` | rt-thread/src/ipc.c:2757-2779 | a failing call keeps the node partition and loses no wake-up |
| `MessageQueueModel.TakeKeepsInv` | rt-thread/src/ipc.c:2843-2847 | taking the first free node keeps the node partition and loses no wake-up |
| `MessageQueueModel.TrySendKeepsInv` | rt-thread/src/ipc.c:2770-2847 | a pass of the send loop keeps the node partition and loses no wake-up |
| `MessageQueueModel.UnlinkKeepsInv` | rt-thread/src/ipc.c:3149-3165 | unlinking the first message keeps the node partition and loses no wake-up |
| `MessageQueueModel.TryRecvKeepsInv` | rt-thread/src/ipc.c:3077-3165 | a pass of the receive loop keeps the node partition and loses no wake-up |
| `MessageQueueModel.CopyKeepsInv` | rt-thread/src/ipc.c:2849-2852 | a byte copied with interrupts enabled keeps the node partition and loses no wake-up |
| `MessageQueueModel.LinkKeepsInv` | rt-thread/src/ipc.c:2854-2891 | linking a filled node and resuming a receiver keeps the node partition and loses no wake-up |
| `MessageQueueModel.RecycleKeepsInv` | rt-thread/src/ipc.c:3170-3189 | freeing a drained node and resuming a sender keeps the node partition and loses no wake-up |
| `MessageQueueModel.TimeOutKeepsInv` | rt-thread/src/ipc.c:2823-2828 | a timeout keeps the node partition and loses no wake-up |
| `MessageQueueModel.ClearKeepsInv` | rt-thread/src/ipc.c:3224-3252 | a reset, with calls in the middle of their copies, keeps the node partition and loses no wake-up |
| `MessageQueueModel.ReverseSame` | rt-thread/src/ipc.c:3234-3249 | the reset loop, which pushes one node after another on the free list, loses no node and makes none |
| `MessageQueueModel.StepKeepsInv` | rt-thread/src/ipc.c:2737-2897 | every event keeps the partition of the nodes and loses no wake-up |
| `MessageQueueModel.RunKeepsInv` | rt-thread/src/ipc.c:2737-3263 | every run keeps the partition of the nodes and loses no wake-up |
| `MessageQueueDeque.CopyRefines` | rt-thread/src/ipc.c:2849-2852 | a byte copied into or out of a held node disturbs no queued message and no other copy |
| `MessageQueueDeque.LinkRefines` | rt-thread/src/ipc.c:2856-2878 | linking a node is a push of the whole message, at the back for send and at the front for urgent |
| `MessageQueueDeque.TryRecvRefines` | rt-thread/src/ipc.c:3149-3162 | unlinking a node is a pop of the first message |
| `MessageQueueDeque.RecycleRefines` | rt-thread/src/ipc.c:3168-3174 | returning gives the bytes copied, and they are those of the message popped |
| `MessageQueueDeque.ClearRefines` | rt-thread/src/ipc.c:3234-3252 | a reset empties the deque and leaves the copies under way alone |
| `MessageQueueDeque.StepRefines` | rt-thread/src/ipc.c:2843-2878 | every event is one step, or no step, of the atomic deque |
| `MessageQueueDeque.RunRefines` | rt-thread/src/ipc.c:2737-3263 | every run is a run of the atomic deque |
| `MessageQueueDeque.Linearizable` | rt-thread/src/ipc.c:2843-3174 | from a new queue, every interleaving is accepted by the atomic deque with send and urgent taking effect at their link step and receive at its unlink step; a receive gives as many bytes as it asked for, exactly that prefix of the message when it asked for no more than was sent; `MessageQueueCalls.CallsOnDeque` says the same of the buffers and sizes of the calls |
| `MessageQueueDeque.NodesNeverLost` | rt-thread/src/ipc.c:2504-3249 | in every reachable state each node is in exactly one of free list, queue and running copies, and both lists are acyclic |
| `MessageQueueDeque.NoLostWakeup` | rt-thread/src/ipc.c:2880-3189 | in every reachable state messages facing a suspended receiver are at most the receivers woken and about to run, and dually for free nodes and senders |
| `MessageQueueCalls.PcsRemember` | rt-thread/src/ipc.c:2770-2852 | after every event a thread that waits, was woken or copies still has the buffer or size of its own last call, and as much waiting time as the elapsed ticks leave of it |
| `MessageQueueCalls.StepRemembers` | rt-thread/src/ipc.c:2737-3263 | every event keeps both wait lists in their promised order and every thread with its own call |
| `MessageQueueCalls.Answers` | rt-thread/src/ipc.c:2737-3196 | in every reachable state a send fails for a message that is too long, for the want of a node exactly when no waiting time is left, and for the time exactly when its timer fired; it returns RT_EOK exactly when it links its node; a receive ends with as many bytes as it asked for, up to the size of a message |
| `MessageQueueCalls.WakesTheFirst` | rt-thread/src/ipc.c:2880-3189 | a suspended thread is woken by its own timer, by a reset, or exactly when it comes before all others and a message is linked or a node freed; no other thread is touched |
| `MessageQueueCalls.EffectIsCall` | rt-thread/src/ipc.c:2852-3165 | a send that returns RT_EOK pushes the whole buffer of its own call at the back, an urgent send in front, and a receive that starts to copy pops a message for the size of its own call, whether or not the thread had to wait |
| `MessageQueueCalls.CallsOnDeque` | rt-thread/src/ipc.c:2843-3174 | from a new queue every interleaving does to an atomic deque what its calls say: exactly the buffers of the sends that returned RT_EOK were pushed, whole, and a receive gives the bytes of the message popped, as many as it asked for |
| `MessageQueueLinks.LinkedPush` | rt-thread/src/ipc.c:2990-2992 | one link write and one pointer write put a node in front of a list |
| `MessageQueueLinks.LinkedAppend` | rt-thread/src/ipc.c:2856-2864 | writing the link of the last node puts a cleared node at the end of a list |
| `MessageQueueLinks.LinkedTail` | rt-thread/src/ipc.c:2843-2844 | following the first link gives the rest of the list |
| `MessageQueueLinks.LinkedOther` | rt-thread/src/ipc.c:2849-2850 | writing the link of a node outside a list leaves the list as it is |
| `MessageQueueLinks.EntryBelowMax` | rt-thread/src/ipc.c:2869-2878 | a thread that links a message finds the counter below its maximum, so the overflow branches are never taken |
| `MessageQueueLinks.NodeCount` | rt-thread/src/ipc.c:2502 | the number of nodes always fits the sixteen-bit counter |
| `MessageQueueLinks.Alone` | rt-thread/src/ipc.c:2849-2878 | nothing else refers to the node of a running copy |
| `MessageQueueLinks.MessageQueue.constructor` | rt-thread/src/ipc.c:2497-2522 | a new queue is valid, with all nodes linked into the free list, sizes cut to sixteen bits |
| `MessageQueueLinks.MessageQueue.FreeAll` | rt-thread/src/ipc.c:2508-2516 | the loop pushes every node on the free list once |
| `MessageQueueLinks.MessageQueue.TakeFree` | rt-thread/src/ipc.c:2843-2844 | the node taken is the first of the free list and both lists stay linked |
| `MessageQueueLinks.MessageQueue.PutFree` | rt-thread/src/ipc.c:3172-3174 | the node becomes the first of the free list and both lists stay linked |
| `MessageQueueLinks.MessageQueue.Dequeue` | rt-thread/src/ipc.c:3149-3162 | the node taken is the first of the queue, the tail is cleared with the last one, and the counter follows |
| `MessageQueueLinks.MessageQueue.LinkFirst` | rt-thread/src/ipc.c:2990-3001 | the node becomes the first of the queue; head, tail and counter follow |
| `MessageQueueLinks.MessageQueue.LinkLast` | rt-thread/src/ipc.c:2856-2873 | the node becomes the last of the queue; head, tail and counter follow |
| `MessageQueueLinks.MessageQueue.PassSend` | rt-thread/src/ipc.c:2770-2847 | one pass of the send loop takes exactly the model's step; a thread that waits or starts to copy keeps its whole buffer |
| `MessageQueueLinks.MessageQueue.SendOrWait` | rt-thread/src/ipc.c:2737-2847 | a send up to its copy, return or suspension takes exactly the model's step; a thread that waits or starts to copy keeps its whole buffer |
| `MessageQueueLinks.MessageQueue.SendUrgent` | rt-thread/src/ipc.c:2948-2982 | an urgent send up to its copy or return takes exactly the model's step |
| `MessageQueueLinks.MessageQueue.PassRecv` | rt-thread/src/ipc.c:3077-3168 | one pass of the receive loop takes exactly the model's step |
| `MessageQueueLinks.MessageQueue.Receive` | rt-thread/src/ipc.c:3049-3168 | a receive up to its copy, return or suspension takes exactly the model's step |
| `MessageQueueLinks.MessageQueue.ContinueWoken` | rt-thread/src/ipc.c:2823-2840 | a woken thread returns its error or makes another pass with the time that is left |
| `MessageQueueLinks.MessageQueue.CopyOne` | rt-thread/src/ipc.c:2849-2852 | one byte of a copy takes exactly the model's step, and clearing the link breaks no list |
| `MessageQueueLinks.MessageQueue.LinkMessage` | rt-thread/src/ipc.c:2854-2896 | the second section of a send takes exactly the model's step |
| `MessageQueueLinks.MessageQueue.RecycleNode` | rt-thread/src/ipc.c:3170-3196 | the second section of a receive takes exactly the model's step |
| `MessageQueueLinks.MessageQueue.ResumeAll` | rt-thread/src/ipc.c:219-247 | every thread of the list is resumed with an error, no other thread is touched |
| `MessageQueueLinks.MessageQueue.FreeQueued` | rt-thread/src/ipc.c:3234-3249 | the loop moves every queued node to the free list, in reverse order |
| `MessageQueueLinks.MessageQueue.ResetQueue` | rt-thread/src/ipc.c:3224-3260 | a reset takes exactly the model's step |
| `MessageQueueLinks.MessageQueue.TimerExpires` | rt-thread/src/ipc.c:2801-2828 | a timeout takes exactly the model's step |
| `SemaphoreModel.StepKeepsInv` | rt-thread/src/ipc.c:498-639 | every event keeps a positive value without waiters and the list in its promised order |
| `SemaphoreModel.RunKeepsInv` | rt-thread/src/ipc.c:479-699 | every run keeps a positive value without waiters and the list in its promised order |
| `SemaphoreModel.StepConserves` | rt-thread/src/ipc.c:498-639 | an event other than a reset keeps value plus units handed over, up to what it releases and returns |
| `SemaphoreModel.Conservation` | rt-thread/src/ipc.c:498-639 | between resets, initial value plus releases that returned RT_EOK is value plus takes that returned RT_EOK plus units handed over and not yet returned; a timeout counts for nothing |
| `SemaphoreModel.NoWaitersWhileAvailable` | rt-thread/src/ipc.c:498-535 | in every reachable state a positive value means that nobody waits |
| `SemaphoreModel.HandOffOrder` | rt-thread/src/ipc.c:622-639 | a release with waiters wakes the earliest under FIFO and the most urgent, then earliest, under PRIO, and the value stays 0 |
| `SemaphoreCalls.PcsRemember` | rt-thread/src/ipc.c:498-563 | a suspended or woken thread still has the waiting time of its own take; it was woken for the time exactly when its timer fired last |
| `SemaphoreCalls.Answers` | rt-thread/src/ipc.c:498-649 | in every reachable state a take returns RT_EOK at once exactly when there is a unit, which it takes, the timeout error at once exactly when it must not wait, and after waiting exactly when its timer fired; a release adds a unit exactly when nobody waits and fails exactly at the maximum |
| `SemaphoreCalls.WakesTheFirst` | rt-thread/src/ipc.c:622-696 | a suspended thread is woken by its own timer, by a reset, or exactly when it comes before all others and somebody releases; no other thread is touched; a reset sets the low sixteen bits of the value given |
| `SemaphoreObject.Semaphore.constructor` | rt-thread/src/ipc.c:295-317 | a new semaphore is valid and has the value given |
| `SemaphoreObject.Semaphore.TakeOrWait` | rt-thread/src/ipc.c:479-548 | a take up to its return or suspension takes exactly the model's step |
| `SemaphoreObject.Semaphore.Give` | rt-thread/src/ipc.c:601-649 | a release takes exactly the model's step, overflow included |
| `SemaphoreObject.Semaphore.ReturnWoken` | rt-thread/src/ipc.c:551-563 | a woken thread returns what it was woken with |
| `SemaphoreObject.Semaphore.TimerExpires` | rt-thread/src/ipc.c:535-557 | a timeout takes exactly the model's step |
| `SemaphoreObject.Semaphore.ResetTo` | rt-thread/src/ipc.c:675-696 | a reset resumes every waiter with an error and sets the value, cut to sixteen bits |
| `MutexModel.TakeKeepsInv` | rt-thread/src/ipc.c:937-1039 | a take keeps ownership, inheritance and list order |
| `MutexModel.WaitKeepsInv` | rt-thread/src/ipc.c:992-1004 | lending the priority and suspending behind the owner keeps ownership, inheritance and list order |
| `MutexModel.HandOverKeepsInv` | rt-thread/src/ipc.c:1128-1164 | the hand-over to the first waiter keeps ownership, inheritance and list order |
| `MutexModel.StepKeepsInv` | rt-thread/src/ipc.c:937-1182 | every event keeps ownership, inheritance and list order |
| `MutexModel.RunKeepsInv` | rt-thread/src/ipc.c:909-1193 | every run keeps ownership, inheritance and list order |
| `MutexModel.PriorityInheritance` | rt-thread/src/ipc.c:961-1004 | in every reachable state the owner is at least as urgent as when it acquired the mutex and as every waiter, everybody else has the priority it started with, and the list is in priority order with ties in arrival order |
| `MutexModel.ReleaseRestores` | rt-thread/src/ipc.c:1126-1149 | after the final release the thread is back at the priority it started with |
| `MutexModel.Ownership` | rt-thread/src/ipc.c:937-1182 | in every reachable state value is 0 or 1, it is 1 exactly when there is no owner and exactly when hold is 0, a free mutex has no waiters, and a thread woken without an error owns it already; `MutexCalls.Answers` says what the calls return |
| `MutexModel.StepCounts` | rt-thread/src/ipc.c:937-1154 | every event changes a thread's hold count by the takes that succeed less the releases that return RT_EOK |
| `MutexModel.HoldCountsUnmatchedTakes` | rt-thread/src/ipc.c:937-1154 | over every run the hold count is the number of takes that succeeded and that no release has matched |
| `MutexCalls.PcsRemember` | rt-thread/src/ipc.c:984-1039 | a suspended or woken thread still has the waiting time of its own take, does not own the mutex while it waits, and was woken without an error exactly when it owns it |
| `MutexCalls.Answers` | rt-thread/src/ipc.c:937-1193 | in every reachable state a take returns RT_EOK at once exactly when the thread then owns the mutex with one hold more, the timeout error at once exactly when another owns it and no waiting is wanted, the full error exactly at 255 holds; a release returns RT_EOK exactly for the owner; a take that waited returns RT_EOK exactly when its thread is the owner |
| `MutexCalls.WakesTheFirst` | rt-thread/src/ipc.c:1136-1164 | a suspended thread is woken by its own timer, or exactly when it comes before all others and the owner gives up its last hold; then it is the owner, with one hold |
| `MutexCalls.PriorityChanges` | rt-thread/src/ipc.c:992-1134 | in every reachable state a take that has to wait lends the owner exactly the more urgent of both priorities, the last release restores the starting priority, and nothing else changes any priority |
| `MutexObject.Mutex.constructor` | rt-thread/src/ipc.c:736-759 | a new mutex is valid and free |
| `MutexObject.Mutex.TakeOrWait` | rt-thread/src/ipc.c:909-1021 | a take up to its return or suspension takes exactly the model's step; it returns RT_EOK exactly when the thread then owns the mutex with one hold more, and the timeout error exactly when another owns it and no waiting is wanted; the overflow branch of a first take cannot be reached |
| `MutexObject.Mutex.BoostAndSuspend` | rt-thread/src/ipc.c:992-1004 | the boost comes before the suspension, which sees the boosted priorities |
| `MutexObject.Mutex.Give` | rt-thread/src/ipc.c:1085-1193 | a release takes exactly the model's step; both overflow branches cannot be reached |
| `MutexObject.Mutex.PassOn` | rt-thread/src/ipc.c:1136-1182 | the first waiter becomes the owner with its own priority saved, or nobody does |
| `MutexObject.Mutex.ReturnWoken` | rt-thread/src/ipc.c:1026-1046 | a waiter that returns without an error is the owner |
| `MutexObject.Mutex.TimerExpires` | rt-thread/src/ipc.c:1006-1030 | a timeout takes exactly the model's step |
| `MutexPair.OriginalStays` | rt-thread/src/ipc.c:937-1038 | over any run on both mutexes the priority saved with a mutex stays as long as its owner does |
| `MutexPair.AcquireSaves` | rt-thread/src/ipc.c:955-962 | however a mutex is acquired, at once or by a hand-over, the current priority of the new owner is saved |
| `MutexPair.BackToOwnPriority` | rt-thread/src/ipc.c:1123-1149 | a thread that acquires one of two mutexes, keeps it through any run and gives it up is at the priority it had just before it acquired it, so at its own exactly when it had not been lent one then |
| `MutexPair.NestedRunsRestore` | rt-thread/src/ipc.c:1123-1149 | in every run in which mutexes are given up in the reverse order of their acquisition, every thread that owns neither is at its own priority |
| `MutexPair.PairListedRun` | rt-thread/src/ipc.c:1001-1004 | over every run on both mutexes each wait list holds exactly the threads suspended on that mutex |
| `MutexPair.AloneStep` | rt-thread/src/ipc.c:937-1182 | an event on one mutex does not depend on the priority of a thread that neither owns it nor waits for it nor calls it |
| `MutexPair.SeparateRunsInherit` | rt-thread/src/ipc.c:961-1149 | in every run in which no thread takes a mutex while it owns the other, both owners are at least as urgent as their own priority, which is saved, and as every waiter, both lists are in priority order, and whoever owns nothing is at its own priority |
| `MutexPair.ReleaseKeepsOther` | rt-thread/src/ipc.c:1123-1134 | in every run the final release of one mutex keeps the owner of the other at least as urgent as its waiters exactly when the thread does not own the other or the priority it falls back to serves those waiters too |
| `MutexPair.NestedReleaseLosesBoost` | rt-thread/src/ipc.c:992-1134 | a run in which a thread that releases one mutex falls back to its own priority while a more urgent thread waits for the other mutex it holds |
| `MutexPair.NestedReleaseLeavesBoost` | rt-thread/src/ipc.c:961-1134 | a run in which a thread that took a mutex while it was lent a priority keeps that priority after it has released everything |
| `EventModel.SatisfiedMonotone` | rt-thread/src/ipc.c:1592-1602 | clearing bits never satisfies a receiver |
| `EventModel.SweepEffect` | rt-thread/src/ipc.c:1460-1514 | after a send each listed thread is either woken, or still listed and not satisfied by the bits left; no other thread is touched |
| `EventModel.SweepAccounts` | rt-thread/src/ipc.c:1470-1505 | a woken thread is given the wanted bits that were set, all of them under AND, and every bit that is gone was given to a thread that clears |
| `EventModel.ReceiveTakesBits` | rt-thread/src/ipc.c:1592-1632 | a receive that succeeds at once is given exactly the wanted bits that were set and with CLEAR takes these and no others; one that fails takes none |
| `EventModel.SweepIsReceives` | rt-thread/src/ipc.c:1463-1513 | the walk over any list of suspended threads equals their non-blocking receives one after another: same bits left, same bits given, and those whose receive fails stay, in order |
| `EventModel.SendIsReceives` | rt-thread/src/ipc.c:1455-1514 | in every reachable state a send equals OR-ing in the bits and then running the receive check of every suspended thread in list order, so bits cleared by earlier waiters are hidden from later ones |
| `EventModel.SendKeepsInv` | rt-thread/src/ipc.c:1455-1514 | after a send no suspended thread is satisfied |
| `EventModel.RecvKeepsInv` | rt-thread/src/ipc.c:1592-1642 | after a receive no suspended thread is satisfied |
| `EventModel.StepKeepsInv` | rt-thread/src/ipc.c:1435-1726 | after every event no suspended thread is satisfied, and the list holds exactly the suspended threads |
| `EventModel.RunKeepsInv` | rt-thread/src/ipc.c:1435-1726 | after every run no suspended thread is satisfied, and the list holds exactly the suspended threads |
| `EventModel.NobodyWaitsSatisfied` | rt-thread/src/ipc.c:1455-1642 | in every reachable state no suspended thread is satisfied by the event set |
| `EventCalls.SweepSuits` | rt-thread/src/ipc.c:1463-1505 | a send leaves a thread as it is or wakes it with bits that suit what it waits for |
| `EventCalls.SweepOrdered` | rt-thread/src/ipc.c:1460-1514 | a send keeps the order of the threads that stay suspended |
| `EventCalls.PcsRemember` | rt-thread/src/ipc.c:1592-1679 | a suspended thread still has the bits, the option and the waiting time of its own receive; a woken one has bits that suit that receive, or an error, the timeout exactly when its timer fired |
| `EventCalls.Answers` | rt-thread/src/ipc.c:1435-1679 | in every reachable state a receive fails for no bits, succeeds at once exactly when the bits it wants are set as its option says, waits exactly when it wants to, and after waiting returns bits that suit its own call or the timeout error exactly when its timer fired; a send fails exactly for no bits |
| `EventCalls.WaitersAreCalls` | rt-thread/src/ipc.c:1455-1642 | in every reachable state the suspended threads are listed in their promised order, each with the bits, option and waiting time of its own receive |
| `EventCalls.WokenWithError` | rt-thread/src/ipc.c:1644-1722 | except for sends, another thread is touched only by its timer or a reset, which wake it with an error; a reset clears all bits |
| `EventObject.EventObj.constructor` | rt-thread/src/ipc.c:1265-1284 | a new event set is empty and valid |
| `EventObject.EventObj.SendBits` | rt-thread/src/ipc.c:1435-1524 | a send takes exactly the model's step |
| `EventObject.EventObj.Check` | rt-thread/src/ipc.c:1469-1488 | the check of one suspended thread is the receive check, and the bits recorded for it are the wanted bits that are set |
| `EventObject.EventObj.Walk` | rt-thread/src/ipc.c:1460-1514 | the walk that loses threads from the list it walks over equals the recursive sweep |
| `EventObject.EventObj.ReceiveOrWait` | rt-thread/src/ipc.c:1560-1655 | a receive up to its return or suspension takes exactly the model's step |
| `EventObject.EventObj.ReturnWoken` | rt-thread/src/ipc.c:1660-1679 | a woken thread returns its error or the bits it was given |
| `EventObject.EventObj.TimerExpires` | rt-thread/src/ipc.c:1644-1664 | a timeout takes exactly the model's step |
| `EventObject.EventObj.ResetEvent` | rt-thread/src/ipc.c:1706-1722 | a reset resumes every waiter with an error and clears the bits |
| `MemPoolModel.TryAllocKeepsInv` | rt-thread/src/mempool.c:335-398 | a pass of the allocation loop keeps the partition of the blocks and loses no wake-up |
| `MemPoolModel.FreeKeepsInv` | rt-thread/src/mempool.c:434-461 | freeing a block and resuming a waiter keeps the partition of the blocks and loses no wake-up |
| `MemPoolModel.StepKeepsInv` | rt-thread/src/mempool.c:319-465 | every event keeps the partition of the blocks and loses no wake-up |
| `MemPoolModel.RunKeepsInv` | rt-thread/src/mempool.c:319-465 | every run keeps the partition of the blocks and loses no wake-up |
| `MemPoolModel.PoolNeverLeaks` | rt-thread/src/mempool.c:335-461 | in every reachable state each block is once on the free list or allocated, and free blocks facing a waiter are at most the allocators woken and about to run |
| `MemPoolModel.FreshBlock` | rt-thread/src/mempool.c:387-406 | a block handed out belongs to the pool and was not allocated to anybody |
| `MemPoolCalls.PcsRemember` | rt-thread/src/mempool.c:335-385 | a suspended or woken thread has as much waiting time as the elapsed ticks leave of its own allocation; it was woken with an error exactly when its timer fired |
| `MemPoolCalls.Answers` | rt-thread/src/mempool.c:319-465 | in every reachable state an allocation gets the block freed last exactly when there is one and its timer has not fired, fails exactly when its timer fired or no waiting time is left, and otherwise waits on |
| `MemPoolCalls.ListedNewestFirst` | rt-thread/src/mempool.c:350-356 | in every reachable state the suspended threads are listed from the newest to the oldest |
| `MemPoolCalls.WakesTheNewest` | rt-thread/src/mempool.c:441-455 | a suspended thread is woken by its own timer, or exactly when it was suspended after all others and a block is freed; no other thread is touched |
| `MemPoolMemory.AtIs` | rt-thread/src/mempool.c:123-128 | block number i starts i strides from the start |
| `MemPoolMemory.AtAligned` | rt-thread/src/mempool.c:108-113 | blocks keep the alignment of the start |
| `MemPoolMemory.BlocksApart` | rt-thread/src/mempool.c:123-128 | different blocks do not overlap |
| `MemPoolMemory.BlocksFit` | rt-thread/src/mempool.c:116-128 | every block with its header lies inside the memory of the pool |
| `MemPoolMemory.LastWriteInside` | rt-thread/src/mempool.c:130-131 | the write behind the loop stays inside the memory of the pool exactly when the pool has a block |
| `MemPoolMemory.ThreadBlocks` | rt-thread/src/mempool.c:123-131 | the loop threads all blocks into one list that ends at the last |
| `MemPoolMemory.ChainPop` | rt-thread/src/mempool.c:390-398 | overwriting the header of the first free block leaves the rest linked |
| `MemPoolMemory.ChainPush` | rt-thread/src/mempool.c:437-439 | the freed block becomes the first of the list |
| `MemPoolMemory.MemPool.constructor` | rt-thread/src/mempool.c:89-136 | a new pool is valid with every block free |
| `MemPoolMemory.MemPool.PassAlloc` | rt-thread/src/mempool.c:335-406 | one pass of the allocation loop takes exactly the model's step |
| `MemPoolMemory.MemPool.TakeBlock` | rt-thread/src/mempool.c:387-398 | the block taken is the first free one and its header names the pool |
| `MemPoolMemory.MemPool.AllocOrWait` | rt-thread/src/mempool.c:319-406 | an allocation up to its return or suspension takes exactly the model's step |
| `MemPoolMemory.MemPool.ContinueWoken` | rt-thread/src/mempool.c:374-385 | a woken thread returns null or makes another pass with the time that is left |
| `MemPoolMemory.MemPool.PutBlock` | rt-thread/src/mempool.c:434-439 | the freed block becomes the first free one |
| `MemPoolMemory.MemPool.Release` | rt-thread/src/mempool.c:415-465 | freeing takes exactly the model's step and wakes the newest waiter; freeing the null pointer changes nothing |
| `MemPoolMemory.MemPool.TimerExpires` | rt-thread/src/mempool.c:356-375 | a timeout takes exactly the model's step |
| `HeapModel.FirstFit` | rt-thread/src/mem.c:313-319 | the place found is a free block that fits, no lower one fits, and none is found exactly when none fits |
| `HeapModel.TakeHeap` | rt-thread/src/mem.c:319-373 | allocating in a block that fits keeps the tiling without free neighbours |
| `HeapModel.PlugHeap` | rt-thread/src/mem.c:125-163 | plugging a free block restores the rule that no two neighbours are free |
| `HeapModel.FreedHeap` | rt-thread/src/mem.c:540-555 | freeing keeps the tiling without free neighbours |
| `HeapModel.ShrunkHeap` | rt-thread/src/mem.c:464-492 | shrinking keeps the tiling without free neighbours |
| `HeapModel.UsedMark` | rt-thread/src/mem.c:368-373 | tagging a block changes the used sum by its span |
| `HeapModel.UsedSplit` | rt-thread/src/mem.c:467-478 | cutting a used block takes the cut off from the used sum |
| `HeapModel.UsedPlug` | rt-thread/src/mem.c:125-163 | coalescing does not change the used sum |
| `HeapModel.SpansAddUp` | rt-thread/src/mem.c:355-552 | used and free spans together are the whole heap and its first header |
| `HeapModel.LowestFreePlug` | rt-thread/src/mem.c:141-158 | coalescing does not move the lowest free block |
| `HeapModel.AllFreedIsInitial` | rt-thread/src/mem.c:220-239 | once every block is free, the row, the used sum and the lowest free block are those of a new heap |
| `HeapModel.LiveDisjoint` | rt-thread/src/mem.c:279-404 | different blocks are disjoint and inside the heap |
| `HeapModel.PlugLive` | rt-thread/src/mem.c:125-163 | coalescing leaves exactly the same used blocks |
| `HeapModel.FreedLive` | rt-thread/src/mem.c:540-555 | freeing takes away the freed block and no other |
| `HeapModel.ShrunkOthers` | rt-thread/src/mem.c:464-492 | shrinking replaces the block by its first part and takes away no other |
| `HeapModel.TakeLive` | rt-thread/src/mem.c:319-399 | allocating adds one block with room for the request and disturbs no other; `HeapModel.TakeGrants` says how large it is |
| `HeapModel.TakeGrants` | rt-thread/src/mem.c:324-373 | the free block is cut exactly when it has six words or more beyond the request; then the allocation gets exactly the words asked for, the rest is a free block and the used memory grows by the request and three words; otherwise it gets the whole block |
| `HeapModel.ShrinkKeepsMinimum` | rt-thread/src/mem.c:464-477 | shrinking keeps the minimal block size exactly when the new size is not below it |
| `HeapModel.StepHeap` | rt-thread/src/mem.c:279-556 | every operation keeps the tiling without free neighbours |
| `HeapModel.RunHeap` | rt-thread/src/mem.c:279-556 | every sequence of operations keeps the tiling without free neighbours; the spans add up, and once nothing is used the heap is as after its initialisation |
| `HeapModel.InitialHeap` | rt-thread/src/mem.c:220-239 | a new heap is one free block that tiles the memory |
| `HeapMemory.WantedWords` | rt-thread/src/mem.c:299-311 | an aligned request that does not wrap keeps its size, raised to the minimum |
| `HeapMemory.MarkRepresents` | rt-thread/src/mem.c:372-373 | writing one tag in memory retags one block |
| `HeapMemory.SplitRepresents` | rt-thread/src/mem.c:337-354 | the header writes of a split give exactly the split row, in memory |
| `HeapMemory.MergeRepresents` | rt-thread/src/mem.c:145-147 | the link writes of a merge give exactly the merged row, in memory |
| `HeapMemory.WritesKeepData` | rt-thread/src/mem.c:313-388 | writes that stay off the data of used blocks change no allocation |
| `HeapMemory.TakeWrites` | rt-thread/src/mem.c:337-373 | the writes of an allocation stay off the data of used blocks |
| `HeapMemory.PlugWrites` | rt-thread/src/mem.c:133-162 | the writes of coalescing stay off the data of used blocks |
| `HeapMemory.TakeFacts` | rt-thread/src/mem.c:319-399 | an allocation leaves every used block as it is and its own block apart from it |
| `HeapMemory.MoveKeeps` | rt-thread/src/mem.c:495-500 | moving keeps the data of every other allocation and the words copied |
| `HeapMemory.RelocatedOthers` | rt-thread/src/mem.c:494-500 | moving replaces the old block by the new one and takes away no other |
| `HeapMemory.RelocatedIsTwoSteps` | rt-thread/src/mem.c:494-500 | moving is an allocation followed by a free, so results about runs cover it |
| `HeapMemory.ReallocAccounts` | rt-thread/src/mem.c:418-503 | what each outcome of a reallocation adds to the used memory, in plain numbers: a freed block gives back its span, one cut down the words cut off, and a new or moved one costs what an allocation of at least three words grants |
| `HeapMemory.SmallMem.constructor` | rt-thread/src/mem.c:214-239 | a new heap is one free block, with nothing used |
| `HeapMemory.SmallMem.SplitBlock` | rt-thread/src/mem.c:337-354 | the five writes split the block in memory and touch nothing else |
| `HeapMemory.SmallMem.Absorb` | rt-thread/src/mem.c:145-147 | the three writes merge two blocks in memory and touch nothing else |
| `HeapMemory.SmallMem.TakeBlock` | rt-thread/src/mem.c:319-388 | taking a block keeps the heap valid, with used, max and lfree up to date, and every allocation's data; the block is cut exactly when six words or more are left beyond the request |
| `HeapMemory.SmallMem.AdvanceLowestFree` | rt-thread/src/mem.c:381-388 | the cursor loop ends at the lowest free block, or at the end stub when there is none |
| `HeapMemory.SmallMem.Search` | rt-thread/src/mem.c:313-403 | the search from lfree up to the last useful offset finds exactly the first fit |
| `HeapMemory.SmallMem.Alloc` | rt-thread/src/mem.c:279-404 | the result is the lowest free block that fits the raised request, null exactly when there is none; the block gets exactly the words of the request (at least three) and the rest stays a free block when six words or more are left, and the whole block otherwise, with used growing by just that; max is the running maximum of used; no other allocation goes away or loses a word |
| `HeapMemory.SmallMem.PlugForward` | rt-thread/src/mem.c:133-148 | the forward half merges exactly when the next block is free |
| `HeapMemory.SmallMem.PlugBackward` | rt-thread/src/mem.c:150-162 | the backward half merges exactly when the previous block is free |
| `HeapMemory.SmallMem.PlugHoles` | rt-thread/src/mem.c:125-163 | coalescing keeps lfree the lowest free block and every allocation's data |
| `HeapMemory.SmallMem.Free` | rt-thread/src/mem.c:512-556 | freeing keeps the heap valid, takes the block's span off used, and keeps every other allocation's data |
| `HeapMemory.SmallMem.Write` | rt-thread/src/mem.c:398-399 | writing to a live allocation keeps the heap valid |
| `HeapMemory.SmallMem.CopyWords` | rt-thread/src/mem.c:498 | copying into a live allocation keeps the heap valid and writes nothing else |
| `HeapMemory.SmallMem.ShrinkBlock` | rt-thread/src/mem.c:464-492 | cutting a block down keeps the heap valid, its first words, every other allocation and its data, and max |
| `HeapMemory.SmallMem.CutAndPlug` | rt-thread/src/mem.c:469-490 | the part cut off becomes free, joins a free successor, and lfree follows |
| `HeapMemory.SmallMem.MoveBlock` | rt-thread/src/mem.c:494-502 | moving keeps the old words that fit and every other allocation, frees the old block, raises max to the moment at which both blocks are used, and changes nothing when there is no room |
| `HeapMemory.SmallMem.Resize` | rt-thread/src/mem.c:454-502 | the three branches behind the argument checks, each with its result, the words kept, the other allocations and max |
| `HeapMemory.SmallMem.Realloc` | rt-thread/src/mem.c:418-503 | each branch with its result; a result has room for the request and keeps the old words that fit; for a live pointer a null result leaves everything unchanged exactly when the rounded request is not for zero words; no other allocation goes away or loses a word; max is the running maximum of used |
| `HeapMemory.RoundsToZero` | rt-thread/src/mem.c:431-432 | a request rounds to zero words exactly when it is zero or wraps around |
| `HeapMemory.ShrunkKept` | rt-thread/src/mem.c:464-492 | shrinking leaves a live block with room for the request and every other used block |
| `HeapMemory.MovedKept` | rt-thread/src/mem.c:494-500 | moving makes a live block with room for the request and keeps every other used block |
| `HeapMemory.FreedKept` | rt-thread/src/mem.c:540-555 | freeing changes the row and keeps every other used block |
| `HeapLimits.InitAreaFits` | rt-thread/src/mem.c:186-204 | the heap area lies inside the region behind the control object, as large as it can be, and a region is refused exactly when not even an empty heap fits |
| `HeapLimits.GrantedRequestFits` | rt-thread/src/mem.c:299-311 | a granted block holds the bytes asked for exactly when rounding up does not wrap around |
| `HeapLimits.SearchEnds` | rt-thread/src/mem.c:309-315 | a search ends exactly when the heap has room for one minimal block |
| `NumberText.DigitsRead` | rt-thread/src/kservice.c:742-749 | the digits produced stand for the number |
| `NumberText.DigitsFit` | rt-thread/src/kservice.c:697-701 | a 32-bit number has at most ten digits, so the temporary buffer is large enough |
| `NumberText.PrintedNumberReadsBack` | rt-thread/src/kservice.c:709-840 | reading back what was printed gives the 32-bit value, for base 10 and 16, every width, every precision but 0 and every mix of flags |
| `NumberText.PrintedLength` | rt-thread/src/kservice.c:751-840 | the length is the larger of width and sign with the larger of precision and digit count, exactly when the precision is not 0 |
| `NumberText.OctalOnlyBelowEight` | rt-thread/src/kservice.c:641-660 | the digits for base 8 are octal exactly for numbers below 8 |
| `FormatText.StringCutIsStandard` | rt-thread/src/kservice.c:993-995 | a string is cut as the C standard says exactly when the field width is not below the standard's length, and with precision 0 exactly when nothing is to be printed |
| `FormatText.ParseFlags` | rt-thread/src/kservice.c:899-909 | parsing the flags stops at the first character that is no flag |
| `FormatText.Convert` | rt-thread/src/kservice.c:964-1097 | a directive always moves on in the format, by its conversion character unless that is the terminator |
| `DirectiveText.NumberIsField` | rt-thread/src/kservice.c:709-840 | a printed number is spaces, sign, digits, spaces: the digits stand for the magnitude in the base and case asked for, at least as many as the precision, with zeros or spaces exactly on the side and up to the width that the flags ask for |
| `DirectiveText.NumberIsBare` | rt-thread/src/kservice.c:825-831 | with precision 0 a number prints its sign and, in a wider field, padding on the side that the flags ask for, and no digit |
| `DirectiveText.JustifiedIsField` | rt-thread/src/kservice.c:966-1019 | the text stands at the left or right end of its field and the rest is spaces |
| `DirectiveText.SignedShows` | rt-thread/src/kservice.c:1060-1097 | d and i print the argument, with h its low sixteen bits sign-extended, so that it reads back in base 10, with the sign that the flags ask for |
| `DirectiveText.WordShows` | rt-thread/src/kservice.c:1046-1097 | u reads back in base 10, and x, X and o in base 16, as the word, with h its low sixteen bits; letters are capital for X only |
| `DirectiveText.PointerShows` | rt-thread/src/kservice.c:1021-1036 | p reads back in base 16 as the word, by default in eight places filled with zeros |
| `DirectiveText.TextShows` | rt-thread/src/kservice.c:989-1019 | s prints the string, cut by a field width and by a positive precision, in its field |
| `DirectiveText.OtherShows` | rt-thread/src/kservice.c:966-1084 | c prints the low byte of the argument in its field, % a percent sign, and any other character a percent sign and itself |
| `DirectiveText.FlagsAre` | rt-thread/src/kservice.c:899-909 | each flag is on exactly when its character stands in the run of flag characters |
| `DirectiveText.DigitsAre` | rt-thread/src/kservice.c:665-672 | the digits of a width or precision are read in base 10 |
| `DirectiveText.DirectiveIs` | rt-thread/src/kservice.c:896-945 | flags, width, precision and qualifier as they are written mean what they say, stars taking arguments in turn, a negative width meaning left justified and a negative precision 0 |
| `DirectiveText.PartsPrint` | rt-thread/src/kservice.c:886-1101 | every format made of plain text and directives prints, part after part, the plain text as it is and what each directive says of the next argument |
| `DirectiveText.FormatKeepsPromise` | rt-thread/src/kservice.c:886-1101 | the text of a format is what its characters promise, for every way to see it as plain text and directives |
| `Formatter.Output.Put` | rt-thread/src/kservice.c:890-892 | everything printed is in memory as far as it fits and nothing else is written |
| `Formatter.Output.PutWhile` | rt-thread/src/kservice.c:764-770 | the padding loop prints as many characters as the counter says and leaves it at -1 or one below |
| `Formatter.StoreDigits` | rt-thread/src/kservice.c:742-749 | the loop stores the digits of the number, least significant first, inside the temporary buffer |
| `Formatter.SplitSign` | rt-thread/src/kservice.c:717-730 | sign character and magnitude of a number in 32-bit arithmetic |
| `Formatter.PrintHead` | rt-thread/src/kservice.c:759-814 | the padding and sign loops print what the layout has before the digits, for every mix of flags |
| `Formatter.PrintDigits` | rt-thread/src/kservice.c:825-831 | the digits are printed most significant first, none when the precision is 0 |
| `Formatter.PrintNumber` | rt-thread/src/kservice.c:682-841 | print_number prints exactly the specified text |
| `Formatter.SkipFlags` | rt-thread/src/kservice.c:899-909 | the flag loop computes the specified flags |
| `Formatter.SkipAtoi` | rt-thread/src/kservice.c:665-672 | the loop reads the decimal number that follows |
| `Formatter.ReadDirective` | rt-thread/src/kservice.c:896-959 | width, precision, qualifier and arguments are those of the specification, star arguments included |
| `Formatter.PrintChar` | rt-thread/src/kservice.c:966-987 | a character is printed in its field, left or right |
| `Formatter.MeasureText` | rt-thread/src/kservice.c:993-996 | the length loop stops at the terminator or the width, cut to a positive precision |
| `Formatter.PrintText` | rt-thread/src/kservice.c:989-1019 | a string is printed in its field, cut as specified |
| `Formatter.PrintInteger` | rt-thread/src/kservice.c:1043-1097 | the integer conversions print the qualified argument in their base; `DirectiveText.SignedShows` and `DirectiveText.WordShows` say what can be read back |
| `Formatter.PrintDirective` | rt-thread/src/kservice.c:964-1097 | every conversion prints exactly the specified text and consumes the specified arguments |
| `Formatter.PrintAll` | rt-thread/src/kservice.c:886-1101 | the loop over the format prints exactly the specified text |
| `Formatter.Terminate` | rt-thread/src/kservice.c:1103-1110 | the terminator goes behind the text or into the last place of the buffer, and nowhere when the size is 0 |
| `Formatter.ClampSize` | rt-thread/src/kservice.c:876-884 | an end of the buffer that wraps around is moved back to the end of the address space |
| `Formatter.Vsnprintf` | rt-thread/src/kservice.c:856-1116 | the result is the length of the whole text whatever the size; a buffer of positive size holds the text, or its first size less one characters, and the terminator; nothing else is written; the text is what the plain characters and directives of the format say, told from their characters |
| `Formatter.LengthIsWritten` | rt-thread/src/kservice.c:1103-1115 | the value returned is the number of characters written exactly when the text is shorter than the usable buffer or empty |
| `EthStream.AtDiffers` | libraries/HAL_Drivers/drv_eth.c:226 | the first moves around the ring reach different descriptors |
| `EthStream.GatherWrite` | libraries/HAL_Drivers/drv_eth.c:222-223 | writing at the current position appends to the bytes that lie in the ring, until it wraps |
| `EthStream.GatherRead` | libraries/HAL_Drivers/drv_eth.c:335-336 | reading at the current position reads on in the bytes that lie in the ring |
| `EthStream.GatherMove` | libraries/HAL_Drivers/drv_eth.c:225-241 | a full buffer and the empty start of the next one are the same position |
| `EthCopy.Descriptors.SendOne` | libraries/HAL_Drivers/drv_eth.c:215-247 | one packet buffer is appended across buffer boundaries; the loop ends; it fails only at a descriptor of the DMA that it needs |
| `EthCopy.Descriptors.SendNext` | libraries/HAL_Drivers/drv_eth.c:205-248 | one packet buffer is placed behind the bytes sent before, or a descriptor that is needed belongs to the DMA |
| `EthCopy.Descriptors.SendChain` | libraries/HAL_Drivers/drv_eth.c:204-248 | the chain is appended packet by packet up to the first descriptor of the DMA that is needed |
| `EthCopy.Descriptors.Transmit` | libraries/HAL_Drivers/drv_eth.c:201-248 | transmit succeeds exactly when no descriptor it needs belongs to the DMA; then the frame length is the total, a frame that fits the ring lies in the buffers in order, and no buffer of the DMA is ever written |
| `EthCopy.Descriptors.ReceiveOne` | libraries/HAL_Drivers/drv_eth.c:329-348 | one packet buffer is filled with the next bytes of the ring across buffer boundaries; the loop ends |
| `EthCopy.Descriptors.Receive` | libraries/HAL_Drivers/drv_eth.c:325-349 | the chain is filled with exactly the bytes that lie in the ring, in order |
| `EthCopy.Descriptors.Release` | libraries/HAL_Drivers/drv_eth.c:352-360 | the descriptors of the frame, and no others, are given back to the DMA |

## Left out

- Scheduler, thread and timer code is not part of this model: resuming a thread takes it off its wait list and stops its timer, a timeout takes it off and sets the error, and a call that would reschedule just ends its event.
- A thread's priority changes only through the mutex; other callers of `rt_thread_control` are not modelled, and neither is the timer re-sorting a wait list.
- Chains of mutexes, where an owner itself waits for another mutex: the boost is not passed on, so the inheritance results are for one mutex, and for two in the runs that `MutexPair.dfy` names.
- `*_create`, `*_detach` and `*_delete`, object registration, hooks, debug output, memory tracing, shell commands and parameter assertions of the kernel objects.
- Multi-core support, which the configuration disables.
- The elapsed time of a retry is a parameter of the event that continues the thread; tick counter wrap-around is not modelled.
- The byte store of `msg->next = RT_NULL` in `rt_mq_send_wait`, which happens after the first critical section, is merged with the first byte of the copy that follows it.
- The objects keep their wait lists as sequences; that the linked list operations do to the nodes what the sequence operations do to the sequence is proved in `RtList.dfy`, but the two are not combined in one object.
- Event words are sets of bit numbers below 32: OR, AND and AND NOT are union, intersection and difference.
- MutexModel.PriorityInheritance: for runs in which each priority is changed by this mutex only, because the boost is not passed along chains of mutexes.
- MemPoolMemory.MemPool.constructor: demands room for one block, because with none the source writes outside the pool, as `MemPoolMemory.LastWriteInside` shows.
- HeapMemory.SmallMem.Alloc: in a heap without room for a minimal block it covers only requests for nothing and requests for more than the heap, because for the others the search does not end, as `HeapLimits.SearchEnds` shows.
- HeapMemory.SmallMem.Realloc: the same, and it demands a pointer that is null or live, which the source asserts.
- HeapMemory.SmallMem.constructor: covers the part of `rt_smem_init` behind its size computation; the computation is `HeapLimits.InitArea`. Offsets and sizes count words of four bytes, and the `prev` field of the end stub is not tracked, because the source does not maintain it.
- Writing through a stale or foreign pointer is outside the model; a live pointer is given with the block it belongs to.
- Formatter.Vsnprintf: an argument that is missing or of the wrong kind is read as 0 or as a null string, because the variable argument list is not modelled; field widths and precisions are unbounded integers, so their overflow in the source is not modelled; the text does not run past the end of the address space.
- DirectiveText.FormatKeepsPromise: does not speak of a format that ends in the middle of a directive, for which `FormatText.Convert` prints a percent sign.
- The `#` flag and `long long` arguments, which the configuration leaves out of the formatter.
- EthCopy.Descriptors.Transmit: says what the buffers hold for frames that fit the ring once; a longer frame, when no descriptor belongs to the DMA, overwrites its own start.
- The rest of `drv_eth.c`, the other drivers, `applications/`, `idle.c`, `device.c`, `clock.c`, `irq.c`, `components.c` and console output: register writes, counters, float control code and plumbing.
