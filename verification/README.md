# Concurrent containers and the framed session protocol, in Dafny

This project models the concurrent data structures under `blogs-main/concurrent` and the
length-prefixed session protocol of `blogs-main/asio/12-logic-system`, and proves what they promise.

## How it is built

Every concurrent component is a state machine whose step is one atomic access of one thread: a load, a
compare-exchange, a store, a lock, an unlock, a wait, a notification. The event sequence decides who moves
next, so `Run(Init(..), es)` over all `es` is every interleaving of any number of threads. Weak
compare-exchanges may fail for no reason, condition variables may wake for no reason, an allocator may
return any address not in use, and a random index is an argument of the event. Each component has

* `...Protocol`: the state, one `Next` per access, `Step` and `Run`;
* `...Invariant` (and `...Steps`, `...Frames`, `...Links`, `...Runs`, `...Counts`): the inductive invariant,
  kept by every step, hence by every run (`RunKeepsInv`);
* `...Results`: what the invariant means for callers;
* `...Calls`: what each call does. `Calls` gives every thread a book of the calls it made, the answers they got and the
  effects its own accesses had; the books of all runs are fair, and the histories are interleavings of the books;
* a class with the source's own fields, one method per access, each proved to be that step of the machine
  (`View() == Next(old(View()), ..)`), and `Schedule`, which runs any interleaving in place.

History variables (what was claimed, pushed, posted, accepted, in which order) influence nothing. They are ghost, but for
the log of the stacks, whose length a popper carries in its locals; no access reads either.
A `requires Inv(s)` in a result is met in every reachable state. Automatic induction is switched off in every
lemma, so each proof is the one written down.

| modules | source |
|---|---|
| `Calls`, `Storage` | shared by the following |
| `Bits`, `Mpmc*` | `SuperQueue` |
| `Stack*`, `TaggedStack` | `NodePool`, `TreiberStack`, `EliminationBackoffStack` |
| `ListQueue*` | `LockQueueInList` |
| `LockList*` | `LockList` |
| `Channel*` | `BufferedChannel` |
| `Logic*` | `LogicSystem` |
| `Send*` | `Session::Send`, `Session::handle_write` |
| `Bytes`, `Frames`, `Decoder*`, `SessionReader` | `MsgNode`, `SendNode`, `Session::handle_read` |
| `Delivery` | both halves of `Session` together |
| `LookupTable` | `LockLookupTable` |
| `MovingAverage`, `SpinLock*` | `AdaptiveBackoffSpinLock` |

## Where the code and its documentation part

* The static assertion of `SuperQueue` (line 55) admits a capacity of 1. With one slot, "full with ticket 0" and
  "free for ticket 1" are the same sequence number, and a second `emplace` overwrites the first.
  `MpmcResults.SafeExactlyFromCapacityTwo`: among the powers of two, every run is safe exactly from 2 on.
* `handle_read` never moves `_cur_len` of the header node back (`Session.cc` lines 77-79, 147-148, 188-189). After a
  header that arrived in two reads, the next header is read behind stray zeros.
  `DecoderSplits.DeliversExactly`: a stream of valid messages comes out right if and only if no read ends inside the
  header of a frame that another frame follows, or the first split header is followed by a lucky tail: one byte of it
  came alone, and behind its frame are only one or two messages of id 0 without a body, cut where it does no harm
  (for one such message whose frame starts at `o` not at `o + 2`; for two not at `o + 1`, `o + 2`, `o + 4`, `o + 5`).
  `DecoderSplits.SplitHeaderCanBeLucky` is such a stream, `SplitHeaderLosesMessage` one that is not.
  The code is modelled as it is (`resets == false`); `resets == true` is a deviation in which `MsgNode::Clear` is
  called after each frame, and for it how the stream is cut makes no difference at all
  (`DecoderCuts.ChunkIndependence`).
* The destructor of `LogicSystem` sets its flag without the mutex (lines 127-130), so its notification can pass by a
  worker that is about to block. `LogicInvariant.StopReachesAllButTheFallingAsleep` says that this is the only way to
  miss it, `StopCanBeMissed` gives a run.
* In `remove_if` the remover still holds the lock of the node it has just unlinked (`list.cc` lines 58-60), so "no lock
  on an unlinked node" holds of every other thread (`LockListResults.OnlyLinkedNodes`). A thread holds an unlinked node
  if and only if it is a remover between unlinking that node and unlocking it (`HoldsUnlinkedExactly`);
  `UnlinkedNodeHeld` gives a run that gets there.
* The average of the spin lock lies between its old value and the new hold time, for all hold times below a limit of at
  least 2^32 microseconds, exactly if the old value is zero or neither seven times it nor the new average can exceed 32
  bits below that limit (`MovingAverage.BetweenExactlyWhenItFits`).

## Model

| member | source | states |
|---|---|---|
| Bits.StaticAssertAdmits | blogs-main/concurrent/10-unlock-queue/mpmc_queue.cc:55 | the static assertion admits exactly zero and the powers of two |
| Bits.MaskIsMod | blogs-main/concurrent/10-unlock-queue/mpmc_queue.cc:97 | for a power of two, masking with one less is the remainder, for every position |
| MpmcProtocol.SlotOf | blogs-main/concurrent/10-unlock-queue/mpmc_queue.cc:115 | the slot of a position is the position modulo the capacity |
| MpmcInvariant.RunKeepsInv | blogs-main/concurrent/10-unlock-queue/mpmc_queue.cc:80-192 | in every run of any number of producers and consumers, every ticket of the current lap is in a phase that its slot's sequence number and storage agree with |
| MpmcResults.SlotHasOnePhase | blogs-main/concurrent/10-unlock-queue/mpmc_queue.cc:107-192 | each slot belongs to exactly one ticket of the current lap, which is free, being written, full or being read, and only one of these |
| MpmcResults.EmplaceRefusesExactlyWhenFull | blogs-main/concurrent/10-unlock-queue/mpmc_queue.cc:110-139 | wherever it is before its claim, a failed compare-exchange included, emplace gives up exactly when it loads the sequence at the current enqueue position while the ticket one capacity earlier has not been released, though position and sequence were read at different times |
| MpmcResults.PopRefusesExactlyWhenEmpty | blogs-main/concurrent/10-unlock-queue/mpmc_queue.cc:153-182 | wherever it is before its claim, pop gives up exactly when it loads the sequence at the current dequeue position while that ticket is unclaimed or not published |
| MpmcResults.StepRefinesBoundedQueue | blogs-main/concurrent/10-unlock-queue/mpmc_queue.cc:107-192 | every access is a stutter, an enqueue into a queue with room, or a dequeue of the oldest value, of a bounded first-in first-out queue |
| MpmcResults.EveryTicketDelivered | blogs-main/concurrent/10-unlock-queue/mpmc_queue.cc:107-192 | every ticket has one producer and at most one consumer, and its consumer receives the value constructed for it; the positions stay within one capacity of each other |
| MpmcResults.HistoryGrows | blogs-main/concurrent/10-unlock-queue/mpmc_queue.cc:107-192 | tickets never change owner and received values never change |
| MpmcResults.InvIsStorageSafe | blogs-main/concurrent/10-unlock-queue/mpmc_queue.cc:141-189 | no construct meets an object, no move or destroy meets raw storage |
| MpmcResults.CapacityOneOverwrites | blogs-main/concurrent/10-unlock-queue/mpmc_queue.cc:55 | a run with capacity 1 in which a construct is about to overwrite an object |
| MpmcResults.SafeExactlyFromCapacityTwo | blogs-main/concurrent/10-unlock-queue/mpmc_queue.cc:55 | every run is storage safe if and only if the capacity is at least 2 |
| MpmcCalls.EveryCallBalanced | blogs-main/concurrent/10-unlock-queue/mpmc_queue.cc:107-192 | in every run, every ended call of every thread has had exactly the effect that its answer promises, once and with its own argument: an emplace that returned true claimed one ticket with its value, a pop that returned a value took one ticket and that value, a refused call did neither |
| MpmcCalls.HistoryIsTheBooks | blogs-main/concurrent/10-unlock-queue/mpmc_queue.cc:107-192 | the claimed values and the taken values are interleavings of what the threads' own calls put in and took out, each in the order of those calls |
| MpmcCalls.CallsEndOnlyThus | blogs-main/concurrent/10-unlock-queue/mpmc_queue.cc:107-192 | no step of another thread ends a call; its own ends it only by publishing the ticket it claimed, by releasing the ticket whose value it returns, or by a refusal with the queue full or with its next ticket unclaimed or unpublished |
| MpmcCalls.ObstructionFree | blogs-main/concurrent/10-unlock-queue/mpmc_queue.cc:107-192 | from every reachable state seven accesses of its own end any call if nobody else moves, whatever the others left half done |
| MpmcQueue.SuperQueue.constructor | blogs-main/concurrent/10-unlock-queue/mpmc_queue.cc:80-87 | slot i starts with sequence i and raw storage |
| MpmcQueue.SuperQueue.LoadEnqueuePos | blogs-main/concurrent/10-unlock-queue/mpmc_queue.cc:110 | is the position load of emplace |
| MpmcQueue.SuperQueue.LoadSequenceForEnqueue | blogs-main/concurrent/10-unlock-queue/mpmc_queue.cc:115-138 | is the sequence load of emplace, with its three branches |
| MpmcQueue.SuperQueue.CompareExchangeEnqueuePos | blogs-main/concurrent/10-unlock-queue/mpmc_queue.cc:122-127 | claims the position for its value, or fails and goes on at the position it found |
| MpmcQueue.SuperQueue.Construct | blogs-main/concurrent/10-unlock-queue/mpmc_queue.cc:142 | constructs the value in the claimed slot |
| MpmcQueue.SuperQueue.Publish | blogs-main/concurrent/10-unlock-queue/mpmc_queue.cc:145 | publishes the claimed slot |
| MpmcQueue.SuperQueue.LoadDequeuePos | blogs-main/concurrent/10-unlock-queue/mpmc_queue.cc:153 | is the position load of pop |
| MpmcQueue.SuperQueue.LoadSequenceForDequeue | blogs-main/concurrent/10-unlock-queue/mpmc_queue.cc:158-181 | is the sequence load of pop, with its three branches |
| MpmcQueue.SuperQueue.CompareExchangeDequeuePos | blogs-main/concurrent/10-unlock-queue/mpmc_queue.cc:165-170 | takes the position, or fails and goes on at the position it found |
| MpmcQueue.SuperQueue.MoveOut | blogs-main/concurrent/10-unlock-queue/mpmc_queue.cc:185 | moves the value out of the slot |
| MpmcQueue.SuperQueue.Destroy | blogs-main/concurrent/10-unlock-queue/mpmc_queue.cc:186 | destroys the moved-from object |
| MpmcQueue.SuperQueue.Release | blogs-main/concurrent/10-unlock-queue/mpmc_queue.cc:189-191 | hands the slot to the producer one lap later |
| MpmcQueue.SuperQueue.Schedule | blogs-main/concurrent/10-unlock-queue/mpmc_queue.cc:107-192 | any interleaving of the accesses in place is the run of the machine, and ends in its invariant |
| MpmcQueue.SuperQueue.DestroyRemaining | blogs-main/concurrent/10-unlock-queue/mpmc_queue.cc:89-104 | at rest, the destructor destroys exactly the values claimed and never popped, in order, and leaves all storage raw |
| StackResults.SuccessSawPresent | blogs-main/concurrent/11-unlock-stack/treiber_stack.cc:189-201 | the tag argument: in every reachable state, a compare-exchange on a head that succeeds saw the present first node and its present link, though the node may have been recycled in between |
| StackRuns.RunKeepsInv | blogs-main/concurrent/11-unlock-stack/elimination_stack.cc:87-123 | in every run, both lists are acyclic chains of the links, and each node is in the one place the history says: free list, stack, one slot or one thread's hands |
| StackCounts.NodesAccountedFor | blogs-main/concurrent/11-unlock-stack/treiber_stack.cc:77-122 | free nodes, stacked nodes, nodes in slots and nodes in hands add up to the capacity |
| StackCounts.ValuesConserved | blogs-main/concurrent/11-unlock-stack/elimination_stack.cc:156-327 | the values handed in are, as a multiset, the values returned plus those in the stack, in slots, in held nodes and in poppers' hands |
| StackCounts.PlacesApart | blogs-main/concurrent/11-unlock-stack/treiber_stack.cc:86-122 | no node appears twice in a list, in two slots or in two hands |
| StackResults.StepRefinesStack | blogs-main/concurrent/11-unlock-stack/treiber_stack.cc:148-205 | every access is a stutter, or exactly one legal push, pop, offer or take on a sequential stack with exchange slots |
| StackResults.EveryRunLinearizes | blogs-main/concurrent/11-unlock-stack/elimination_stack.cc:156-327 | the log of every run, replayed sequentially, is legal and ends in the present contents; every answered pop got the value its own entry took, every other is still being served |
| StackResults.TreiberOnlyPushesAndPops | blogs-main/concurrent/11-unlock-stack/treiber_stack.cc:148-205 | without exchange slots every entry of a legal log is a push or a pop, so the Treiber stack refines a plain stack |
| StackResults.EmptyPopExactlyWhenEmpty | blogs-main/concurrent/11-unlock-stack/treiber_stack.cc:187-204 | the last loop of pop ends with nothing exactly at an instant when the stack is empty |
| StackResults.EmplaceFailsExactlyWhenExhausted | blogs-main/concurrent/11-unlock-stack/treiber_stack.cc:86-103 | emplace fails exactly at an instant when all nodes are in the stack, in slots or in hands |
| StackResults.OnlyRefusalsEndEmptyHanded | blogs-main/concurrent/11-unlock-stack/elimination_stack.cc:156-267 | a call ends only by its push or offer taking effect, by returning its popped value, or by one of these refusals |
| StackResults.TagsOnlyGrow | blogs-main/concurrent/11-unlock-stack/elimination_stack.cc:270-327 | a head or slot that changes gets a strictly larger tag |
| StackResults.WithdrawsOwnMarker | blogs-main/concurrent/11-unlock-stack/elimination_stack.cc:323-324 | a withdrawal that succeeds removes the popper's own marker |
| StackResults.MarkersApart | blogs-main/concurrent/11-unlock-stack/elimination_stack.cc:304-306 | two poppers never wait behind the same marker, whether it is still in its slot or long gone |
| StackResults.HolderUnique | blogs-main/concurrent/11-unlock-stack/elimination_stack.cc:287-327 | no two threads hold the same node |
| StackResults.SlotHandsOverOnce | blogs-main/concurrent/11-unlock-stack/elimination_stack.cc:293-319 | a node leaves a slot only into the hands of the thread whose access took it |
| StackCalls.EveryCallBalanced | blogs-main/concurrent/11-unlock-stack/elimination_stack.cc:156-267 | in every run, every ended call has had exactly the effect that its answer promises, once and with its own argument: an emplace that returned true put its value in once, on the stack or in a slot; a pop that returned a value took out one, and that value; a refused call did neither |
| StackCalls.LogIsTheBooks | blogs-main/concurrent/11-unlock-stack/elimination_stack.cc:156-327 | the linearization log is an interleaving of what the threads' own calls put in and took out, in the order of those calls |
| StackProgress.ObstructionFree | blogs-main/concurrent/11-unlock-stack/elimination_stack.cc:156-327 | from every reachable state 27 accesses of its own end any call if nobody else moves, whatever the others left half done and whatever indices are drawn |
| TaggedStack.LockFreeStack.constructor | blogs-main/concurrent/11-unlock-stack/elimination_stack.cc:78-85 | the pool starts as one chain of all nodes, heads and slots empty |
| TaggedStack.LockFreeStack.ChainNodes | blogs-main/concurrent/11-unlock-stack/elimination_stack.cc:81-82 | links each node to the next, the last to none |
| TaggedStack.LockFreeStack.LoadPoolHead | blogs-main/concurrent/11-unlock-stack/elimination_stack.cc:90 | is the snapshot of the pool's head |
| TaggedStack.LockFreeStack.ReadNext | blogs-main/concurrent/11-unlock-stack/elimination_stack.cc:94 | reads the link of the snapshot's node, which may be recycled by now |
| TaggedStack.LockFreeStack.CompareExchangePoolAcquire | blogs-main/concurrent/11-unlock-stack/elimination_stack.cc:97-102 | is the compare-exchange of acquire |
| TaggedStack.LockFreeStack.CompareExchangePoolRelease | blogs-main/concurrent/11-unlock-stack/elimination_stack.cc:117-121 | is the compare-exchange of release |
| TaggedStack.LockFreeStack.WriteNext | blogs-main/concurrent/11-unlock-stack/elimination_stack.cc:113 | writes the link of a node the thread holds |
| TaggedStack.LockFreeStack.ConstructValue | blogs-main/concurrent/11-unlock-stack/elimination_stack.cc:161 | constructs the value in the acquired node |
| TaggedStack.LockFreeStack.LoadHead | blogs-main/concurrent/11-unlock-stack/elimination_stack.cc:164 | is the snapshot of the stack's head |
| TaggedStack.LockFreeStack.CompareExchangeHeadPush | blogs-main/concurrent/11-unlock-stack/elimination_stack.cc:174-178 | is the compare-exchange of emplace |
| TaggedStack.LockFreeStack.CompareExchangeHeadPop | blogs-main/concurrent/11-unlock-stack/elimination_stack.cc:228-235 | is the compare-exchange of pop |
| TaggedStack.LockFreeStack.MoveValue | blogs-main/concurrent/11-unlock-stack/elimination_stack.cc:230 | moves the popped value out |
| TaggedStack.LockFreeStack.DestroyValue | blogs-main/concurrent/11-unlock-stack/elimination_stack.cc:231 | destroys the moved-from object |
| TaggedStack.LockFreeStack.LoadSlotAtRandom | blogs-main/concurrent/11-unlock-stack/elimination_stack.cc:272-294 | looks at a slot of any index |
| TaggedStack.LockFreeStack.CompareExchangeSlotOffer | blogs-main/concurrent/11-unlock-stack/elimination_stack.cc:278-282 | puts the node in place of a marker |
| TaggedStack.LockFreeStack.CompareExchangeSlotTake | blogs-main/concurrent/11-unlock-stack/elimination_stack.cc:296-300 | takes a node that was already waiting in a slot |
| TaggedStack.LockFreeStack.LoadSlot | blogs-main/concurrent/11-unlock-stack/elimination_stack.cc:304-323 | reads the slot again before marking, while waiting and before withdrawing |
| TaggedStack.LockFreeStack.CompareExchangeSlotMark | blogs-main/concurrent/11-unlock-stack/elimination_stack.cc:304-306 | places the popper's marker in an empty slot |
| TaggedStack.LockFreeStack.CompareExchangeSlotWaited | blogs-main/concurrent/11-unlock-stack/elimination_stack.cc:312-319 | takes what replaced the marker |
| TaggedStack.LockFreeStack.CompareExchangeSlotWithdraw | blogs-main/concurrent/11-unlock-stack/elimination_stack.cc:323-324 | withdraws the marker |
| TaggedStack.LockFreeStack.Schedule | blogs-main/concurrent/11-unlock-stack/elimination_stack.cc:156-327 | any interleaving of the accesses in place is the run of the machine, and ends in its invariant |
| ListQueueInvariant.RunKeepsInv | blogs-main/concurrent/08-stack-queue/queue.cc:148-214 | in every run, the chain from head to tail, the size, both locks and the nodes that are private to a thread agree |
| ListQueueInvariant.StepDefined | blogs-main/concurrent/08-stack-queue/queue.cc:148-214 | no access reaches a freed node, and the size is never taken below zero |
| ListQueueInvariant.FirstInFirstOut | blogs-main/concurrent/08-stack-queue/queue.cc:148-214 | in every run, popped values followed by queued values are the pushed sequence; the chain is as long as the size, but for a push or a pop not counted yet |
| ListQueueInvariant.PopperApartFromPusher | blogs-main/concurrent/08-stack-queue/queue.cc:204-208 | a popper that saw a positive size never touches the tail's node, and finds the oldest value |
| ListQueueInvariant.FindsEmptyExactlyWhenDrained | blogs-main/concurrent/08-stack-queue/queue.cc:163-186 | the size test finds nothing exactly when every counted push has been popped |
| ListQueueInvariant.NothingLeaksAtRest | blogs-main/concurrent/08-stack-queue/queue.cc:148-214 | between calls the allocated nodes are exactly the linked ones, and everything popped was returned |
| ListQueueWakeups.EveryPushAnnounced | blogs-main/concurrent/08-stack-queue/queue.cc:148-192 | in every run, while a popper is blocked un-notified, the counted values number at most the poppers taking one or about to look and the pushers still to notify, though a push is announced after its lock is released and to one popper only |
| ListQueueWakeups.SomebodyMoves | blogs-main/concurrent/08-stack-queue/queue.cc:148-214 | while any call is at work and not blocked un-notified, some thread can make its next access: nobody waits for either mutex for ever |
| ListQueueWakeups.NoLostWakeup | blogs-main/concurrent/08-stack-queue/queue.cc:148-192 | in every reachable state in which no thread can move, every thread is idle or a blocked popper, and with a blocked popper everything pushed has been returned |
| ListQueueCalls.EveryCallBalanced | blogs-main/concurrent/08-stack-queue/queue.cc:148-214 | in every run, every ended call has had exactly the effect that its answer promises, once and with its own argument: a push put its value in, a pop or try_pop that returned a value took out one, and that value; only a try_pop came back without |
| ListQueueCalls.HistoryIsTheBooks | blogs-main/concurrent/08-stack-queue/queue.cc:148-214 | the pushed and the popped values are interleavings of what the threads' own calls put in and took out, in the order of those calls |
| ListQueueCalls.WaitingPopReturnsValue | blogs-main/concurrent/08-stack-queue/queue.cc:173-186 | in every run, a pop that waits ends only by handing over a value it has taken out |
| ListQueueCalls.WaitingPopGoesOn | blogs-main/concurrent/08-stack-queue/queue.cc:173-186 | pop starts by looking; no step of any thread takes a pop that looks or is blocked anywhere but on to looking, blocking or taking, and one that takes goes on to return what it took |
| ListQueueCalls.TurnsAwayOnlyAtZero | blogs-main/concurrent/08-stack-queue/queue.cc:163-182 | a popper leaves or waits without a value only after it saw the size zero |
| ListQueueCalls.CallsEndOnlyThus | blogs-main/concurrent/08-stack-queue/queue.cc:148-214 | no step of another thread ends a call; its own ends it only when its push has woken a popper or found none blocked, when it hands over what it popped, or when a try_pop leaves |
| ListQueue.LockQueueInList.constructor | blogs-main/concurrent/08-stack-queue/queue.cc:132-134 | starts with one dummy node |
| ListQueue.LockQueueInList.AllocateNode | blogs-main/concurrent/08-stack-queue/queue.cc:150 | allocates the new dummy node |
| ListQueue.LockQueueInList.TryLockTail | blogs-main/concurrent/08-stack-queue/queue.cc:153 | takes the tail mutex |
| ListQueue.LockQueueInList.StoreTailData | blogs-main/concurrent/08-stack-queue/queue.cc:154 | stores the value in the tail |
| ListQueue.LockQueueInList.StoreTailNext | blogs-main/concurrent/08-stack-queue/queue.cc:155 | links the new node |
| ListQueue.LockQueueInList.AdvanceTail | blogs-main/concurrent/08-stack-queue/queue.cc:156 | moves the tail before the push is counted |
| ListQueue.LockQueueInList.FetchAddSize | blogs-main/concurrent/08-stack-queue/queue.cc:157 | counts the push |
| ListQueue.LockQueueInList.UnlockTailMutex | blogs-main/concurrent/08-stack-queue/queue.cc:158 | releases the tail mutex |
| ListQueue.LockQueueInList.NotifySize | blogs-main/concurrent/08-stack-queue/queue.cc:160 | wakes one blocked popper if there is one |
| ListQueue.LockQueueInList.TryLockHead | blogs-main/concurrent/08-stack-queue/queue.cc:165-184 | takes the head mutex |
| ListQueue.LockQueueInList.TestSize | blogs-main/concurrent/08-stack-queue/queue.cc:166-190 | tests the size under the head mutex, and goes on to pop, or to leave or wait as its call demands |
| ListQueue.LockQueueInList.UnlockHeadMutex | blogs-main/concurrent/08-stack-queue/queue.cc:168-182 | releases the head mutex, with a value, with nothing, or to wait |
| ListQueue.LockQueueInList.WaitForSize | blogs-main/concurrent/08-stack-queue/queue.cc:183 | blocks exactly when the size is zero, before waiting and after every wake-up |
| ListQueue.LockQueueInList.LoadHead | blogs-main/concurrent/08-stack-queue/queue.cc:206 | reads the head |
| ListQueue.LockQueueInList.AdvanceHead | blogs-main/concurrent/08-stack-queue/queue.cc:207 | moves the head before the pop is counted |
| ListQueue.LockQueueInList.MoveDataOut | blogs-main/concurrent/08-stack-queue/queue.cc:208 | moves the value out of the old head |
| ListQueue.LockQueueInList.FreeNode | blogs-main/concurrent/08-stack-queue/queue.cc:210 | deletes the old head |
| ListQueue.LockQueueInList.FetchSubSize | blogs-main/concurrent/08-stack-queue/queue.cc:211 | counts the pop |
| ListQueue.LockQueueInList.Schedule | blogs-main/concurrent/08-stack-queue/queue.cc:148-214 | any interleaving of the accesses in place is the run of the machine, and ends in its invariant |
| ListQueue.LockQueueInList.DeleteAll | blogs-main/concurrent/08-stack-queue/queue.cc:136-143 | at rest, the destructor deletes every node: nothing stays allocated |
| LockListResults.RunKeepsInv | blogs-main/concurrent/09-table-list/list.cc:39-105 | in every run, locks and their holders, links and list order, positions of the threads and their traversals agree |
| LockListInvariant.StepDefined | blogs-main/concurrent/09-table-list/list.cc:39-105 | no access reaches a deleted node, and values are read only where there are some |
| LockListResults.OnlyLinkedNodes | blogs-main/concurrent/09-table-list/list.cc:48-105 | what a thread holds, stands on or has read as successor is linked, but for the node it unlinked itself, which no other thread holds or points to |
| LockListResults.HoldsUnlinkedExactly | blogs-main/concurrent/09-table-list/list.cc:48-105 | a thread holds the lock of an unlinked node if and only if it is a remover between unlinking that node and unlocking it |
| LockListResults.UnlinkedNodeHeld | blogs-main/concurrent/09-table-list/list.cc:58-60 | a run in which a remover holds the node it has unlinked |
| LockListResults.LocksInListOrder | blogs-main/concurrent/09-table-list/list.cc:48-105 | a thread that asks for a lock while holding one asks for that of the next node |
| LockListResults.WaitingGoesDownTheList | blogs-main/concurrent/09-table-list/list.cc:39-105 | whom a thread waits for asks for a lock further down the list, or for none |
| LockListResults.NoWaitCycle | blogs-main/concurrent/09-table-list/list.cc:39-105 | no chain of waiting pushers, removers and readers comes back to its start |
| LockListResults.SomebodyCanMove | blogs-main/concurrent/09-table-list/list.cc:39-105 | while a call is running, some running call waits for nobody |
| LockListResults.CanMoveMoves | blogs-main/concurrent/09-table-list/list.cc:39-105 | a thread that waits for nobody gets the lock it asks for |
| LockListResults.StableIsWhatStaysLinked | blogs-main/concurrent/09-table-list/list.cc:72-105 | the stable nodes of a traversal are those linked when it locked the head, less those removed since |
| LockListResults.VisitsInListOrder | blogs-main/concurrent/09-table-list/list.cc:72-105 | a traversal visits no node twice, though addresses are reused, and visits stable nodes in list order |
| LockListCalls.RunCarries | blogs-main/concurrent/09-table-list/list.cc:39-105 | in every run every thread works with what its present call was made with: the value of its push_front, the predicate of its remove_if or find_first_of, and that predicate's own verdict on the node it is about to take out or pass |
| LockListCalls.EveryChangeWasAskedFor | blogs-main/concurrent/09-table-list/list.cc:39-69 | every step of every run leaves the values in the list as they are, or puts the value of the thread's own push_front in front, or takes out one value that satisfies the predicate of the thread's own remove_if |
| LockListCalls.CallsEndOnlyThus | blogs-main/concurrent/09-table-list/list.cc:39-105 | no step of another thread ends a call; its own ends it only when a push_front that has linked its node, or a walk at its end, gives back its last lock |
| LockListCalls.TraversalAnswersItsCall | blogs-main/concurrent/09-table-list/list.cc:71-105 | in every run, a find_first_of that returns a value has looked at it and it is the first it saw that satisfies the predicate the call was made with; one that returns none has looked at every node linked since it locked the head, and none of them satisfies that predicate |
| LockListCalls.TraceIsTheCalls | blogs-main/concurrent/09-table-list/list.cc:71-105 | no traversal starts over: its trace is everything its call has looked at |
| LockListRemovals.RemovalLeavesNothingStable | blogs-main/concurrent/09-table-list/list.cc:47-69 | when a remove_if is about to return, no node linked since it locked the head holds a value that its predicate accepts, whatever the other threads did meanwhile |
| LockListAlone.AloneStep | blogs-main/concurrent/09-table-list/list.cc:48-69 | every access of a remove_if running alone keeps how it will end and brings the end nearer |
| LockList.LockList.constructor | blogs-main/concurrent/09-table-list/list.cc:30 | starts with the sentinel alone |
| LockList.LockList.TryLock | blogs-main/concurrent/09-table-list/list.cc:42-55 | an exclusive lock is had exactly when nobody holds the node |
| LockList.LockList.TryLockShared | blogs-main/concurrent/09-table-list/list.cc:75-99 | a shared lock is had exactly when nobody holds the node exclusively |
| LockList.LockList.Unlock | blogs-main/concurrent/09-table-list/list.cc:60-64 | releases an exclusive lock |
| LockList.LockList.UnlockShared | blogs-main/concurrent/09-table-list/list.cc:79-100 | releases one reader's share |
| LockList.LockList.AllocateNode | blogs-main/concurrent/09-table-list/list.cc:41 | allocates the new node |
| LockList.LockList.TakeHeadLink | blogs-main/concurrent/09-table-list/list.cc:43 | moves the head's link into the new node |
| LockList.LockList.LinkBehindHead | blogs-main/concurrent/09-table-list/list.cc:44 | links the new node behind the head |
| LockList.LockList.LoadNext | blogs-main/concurrent/09-table-list/list.cc:53 | reads the successor under the current node's lock |
| LockList.LockList.TestNode | blogs-main/concurrent/09-table-list/list.cc:56 | asks the predicate |
| LockList.LockList.DetachNode | blogs-main/concurrent/09-table-list/list.cc:58 | takes the node out of the list |
| LockList.LockList.SpliceOver | blogs-main/concurrent/09-table-list/list.cc:59 | closes the gap |
| LockList.LockList.RemoveAccess | blogs-main/concurrent/09-table-list/list.cc:48-69 | is the next access of remove_if, handing the lock over where the predicate is false |
| LockList.LockList.VisitNode | blogs-main/concurrent/09-table-list/list.cc:80-101 | looks at a node, and stops a search at a match |
| LockList.LockList.ReadAccess | blogs-main/concurrent/09-table-list/list.cc:72-105 | is the next access of a traversal |
| LockList.LockList.Schedule | blogs-main/concurrent/09-table-list/list.cc:39-105 | any interleaving of the accesses in place is the run of the machine, and ends in its invariant |
| LockList.LockList.RemoveIfAlone | blogs-main/concurrent/09-table-list/list.cc:48-69 | running alone, remove_if returns and leaves exactly the order-preserving filter of the list |
| LockList.LockList.FindFirstAlone | blogs-main/concurrent/09-table-list/list.cc:71-90 | running alone, find_first_of returns the first value that satisfies the predicate, none if and only if there is none, and leaves the list as it was |
| LockList.LockList.ForEachAlone | blogs-main/concurrent/09-table-list/list.cc:92-105 | running alone, for_each calls its function on every value, first to last, and leaves the list as it was |
| LockList.LockList.RemoveAll | blogs-main/concurrent/09-table-list/list.cc:31-34 | the destructor leaves only the sentinel allocated |
| ChannelInvariant.RunKeepsInv | blogs-main/concurrent/05-actor-csp/buffercsp.cc:17-62 | in every run with spurious wake-ups, the counts of blocked, notified and notifying threads cover the items and the free places |
| ChannelInvariant.SomebodyMoves | blogs-main/concurrent/05-actor-csp/buffercsp.cc:17-62 | while any call is at work and not blocked un-notified, some thread can make its next access: nobody waits for the mutex for ever |
| ChannelInvariant.NoLostWakeup | blogs-main/concurrent/05-actor-csp/buffercsp.cc:17-62 | in every reachable state in which no thread can move, every thread is idle or blocked, a blocked receiver means open and empty, a blocked sender means open and full, and never both |
| ChannelInvariant.EverythingAnnounced | blogs-main/concurrent/05-actor-csp/buffercsp.cc:17-53 | in every state of an open channel, while a receiver is blocked un-notified, the items number at most the receivers notified or testing plus the senders still to notify, and the mirror for senders and free places; with the mutex free, nobody is testing |
| ChannelInvariant.ClosedMeansNobodyBlocked | blogs-main/concurrent/05-actor-csp/buffercsp.cc:55-62 | once every close has notified, nobody is blocked |
| ChannelCalls.DrainsBeforeNullopt | blogs-main/concurrent/05-actor-csp/buffercsp.cc:17-53 | deliveries are first in, first out and within capacity; nothing is sent after the channel is closed; a receive gives up only when it is closed and everything sent was received, and else brings out the value last delivered |
| ChannelCalls.HandsOutOldest | blogs-main/concurrent/05-actor-csp/buffercsp.cc:46-52 | in every reachable state the value a receiver brings out of its critical section is the one last taken, and of the sent values the first not received before |
| ChannelCalls.TakesOldest | blogs-main/concurrent/05-actor-csp/buffercsp.cc:46-47 | only a receiver at a nonempty buffer delivers, and it goes on with the front it took off |
| ChannelCalls.EveryCallBalanced | blogs-main/concurrent/05-actor-csp/buffercsp.cc:17-62 | in every run, every ended call has had exactly the effect that its answer promises, once and with its own argument: a send that returned put its value in, one that threw put nothing in, a receive that returned a value took out one, and that value |
| ChannelCalls.HistoryIsTheBooks | blogs-main/concurrent/05-actor-csp/buffercsp.cc:17-53 | the sent and the received values are interleavings of what the threads' own calls put in and took out, in the order of those calls |
| ChannelCalls.CallsEndOnlyThus | blogs-main/concurrent/05-actor-csp/buffercsp.cc:17-62 | no step of another thread ends a call; its own ends it only by throwing on a closed channel, by announcing what it put in or took out, by leaving a drained closed channel, or, for close, with the channel closed and no receiver left blocked |
| Channel.BufferedChannel.Create | blogs-main/concurrent/05-actor-csp/buffercsp.cc:11-15 | a capacity of zero is refused |
| Channel.BufferedChannel.TryLock | blogs-main/concurrent/05-actor-csp/buffercsp.cc:19-57 | takes the mutex, on entry or after waking |
| Channel.BufferedChannel.Unlock | blogs-main/concurrent/05-actor-csp/buffercsp.cc:30-59 | releases the mutex before the notification |
| Channel.BufferedChannel.TestNotFull | blogs-main/concurrent/05-actor-csp/buffercsp.cc:21-27 | tests the senders' wait condition, and blocks or throws |
| Channel.BufferedChannel.PushBuffer | blogs-main/concurrent/05-actor-csp/buffercsp.cc:29 | pushes the value |
| Channel.BufferedChannel.NotifyNotEmpty | blogs-main/concurrent/05-actor-csp/buffercsp.cc:32 | wakes some blocked receiver if there is one |
| Channel.BufferedChannel.TestNotEmpty | blogs-main/concurrent/05-actor-csp/buffercsp.cc:40 | tests the receivers' wait condition, and blocks |
| Channel.BufferedChannel.PopBuffer | blogs-main/concurrent/05-actor-csp/buffercsp.cc:46-47 | takes the oldest value off and keeps it to return |
| Channel.BufferedChannel.NotifyNotFull | blogs-main/concurrent/05-actor-csp/buffercsp.cc:50 | wakes some blocked sender if there is one |
| Channel.BufferedChannel.SetClosed | blogs-main/concurrent/05-actor-csp/buffercsp.cc:58 | closes |
| Channel.BufferedChannel.NotifyAll | blogs-main/concurrent/05-actor-csp/buffercsp.cc:60-61 | wakes all blocked senders, then all blocked receivers |
| Channel.BufferedChannel.Schedule | blogs-main/concurrent/05-actor-csp/buffercsp.cc:17-62 | any interleaving of the accesses in place is the run of the machine, and ends in its invariant |
| LogicInvariant.RunKeepsInv | blogs-main/asio/12-logic-system/src/core/logic/LogicSystem.cc:48-139 | in every run, what was processed, what the worker has in hand and what is queued are the posted sequence |
| LogicInvariant.ProcessedInPostOrder | blogs-main/asio/12-logic-system/src/core/logic/LogicSystem.cc:63-83 | every node is processed at most once, in post order, and never an empty one |
| LogicInvariant.NeverBlockedOnWork | blogs-main/asio/12-logic-system/src/core/logic/LogicSystem.cc:55-139 | the worker is never blocked un-notified with a nonempty queue, unless the thread that just made it nonempty is about to notify under the mutex, though only a queue of size 1 is notified |
| LogicInvariant.NothingLeftAtRest | blogs-main/asio/12-logic-system/src/core/logic/LogicSystem.cc:55-139 | in every reachable state in which nothing can move, every call has returned and the worker is blocked with everything posted processed, or done with what had been posted at its last lock |
| LogicInvariant.StuckMeansResting | blogs-main/asio/12-logic-system/src/core/logic/LogicSystem.cc:55-139 | nobody waits for the mutex for ever: where nothing can move, it is free, every call has returned and the worker is blocked or done |
| LogicInvariant.DrainedUpToLastLock | blogs-main/asio/12-logic-system/src/core/logic/LogicSystem.cc:72-84 | when the drain loop exits, the processed sequence is what had been posted up to that lock, for good |
| LogicInvariant.StopReachesAllButTheFallingAsleep | blogs-main/asio/12-logic-system/src/core/logic/LogicSystem.cc:127-130 | the stop notification is missed if and only if it comes between the worker's test and its blocking; otherwise the worker never blocks again |
| LogicInvariant.StopCanBeMissed | blogs-main/asio/12-logic-system/src/core/logic/LogicSystem.cc:127-130 | a run in which the destructor has notified and the worker stays blocked |
| LogicCalls.EveryPostPosted | blogs-main/asio/12-logic-system/src/core/logic/LogicSystem.cc:132-139 | in every run, a post has ended only when its own node went into the queue, once; no post is refused; and the posted sequence is an interleaving of the threads' own nodes in the order of their calls |
| LogicSystem.LogicSystem.WorkerLock | blogs-main/asio/12-logic-system/src/core/logic/LogicSystem.cc:53-76 | takes the queue mutex in the worker |
| LogicSystem.LogicSystem.TestWaitCondition | blogs-main/asio/12-logic-system/src/core/logic/LogicSystem.cc:55-57 | tests the wait condition |
| LogicSystem.LogicSystem.ReleaseAndBlock | blogs-main/asio/12-logic-system/src/core/logic/LogicSystem.cc:55 | releases the mutex and blocks |
| LogicSystem.LogicSystem.TestStop | blogs-main/asio/12-logic-system/src/core/logic/LogicSystem.cc:59-61 | leaves the main loop on stop |
| LogicSystem.LogicSystem.PopFront | blogs-main/asio/12-logic-system/src/core/logic/LogicSystem.cc:63-81 | takes the oldest node |
| LogicSystem.LogicSystem.ProcessMessage | blogs-main/asio/12-logic-system/src/core/logic/LogicSystem.cc:69-83 | processes the node outside the mutex |
| LogicSystem.LogicSystem.TestDrained | blogs-main/asio/12-logic-system/src/core/logic/LogicSystem.cc:77-79 | ends the drain loop on an empty queue |
| LogicSystem.LogicSystem.Drain | blogs-main/asio/12-logic-system/src/core/logic/LogicSystem.cc:73-84 | with nobody else calling, the drain loop ends with every posted message processed |
| LogicSystem.LogicSystem.PushBack | blogs-main/asio/12-logic-system/src/core/logic/LogicSystem.cc:134 | pushes under the mutex |
| LogicSystem.LogicSystem.NotifyIfFirst | blogs-main/asio/12-logic-system/src/core/logic/LogicSystem.cc:136-138 | notifies only when the size is 1 |
| LogicSystem.LogicSystem.Schedule | blogs-main/asio/12-logic-system/src/core/logic/LogicSystem.cc:48-139 | any interleaving of the accesses in place is the run of the machine, and ends in its invariant |
| SendInvariant.RunKeepsInv | blogs-main/asio/12-logic-system/src/core/session/Session.cc:44-225 | in every run of any number of sending threads, one thread or write looks after a nonempty queue, and the wire holds the popped frames and the part of the front that was transmitted |
| SendInvariant.StepDefined | blogs-main/asio/12-logic-system/src/core/session/Session.cc:62-63 | the front is never read of an empty queue, though that read takes no lock |
| SendResults.OneWriteAtATime | blogs-main/asio/12-logic-system/src/core/session/Session.cc:44-225 | writes in flight and threads about to start one never exceed one, and until the first error number one exactly when the queue is not empty (or was just emptied by a completion still holding the mutex) |
| SendResults.WireIsPrefixOfAccepted | blogs-main/asio/12-logic-system/src/core/session/Session.cc:44-225 | the bytes on the wire always begin the accepted frames concatenated in acceptance order; the queue never exceeds 1000 |
| SendResults.EverythingSentAtRest | blogs-main/asio/12-logic-system/src/core/session/Session.cc:44-225 | in every reachable state without a write error in which nothing can move, all calls have returned, all writes have ended, the queue is empty and everything accepted was sent |
| SendResults.StuckMeansResting | blogs-main/asio/12-logic-system/src/core/session/Session.cc:44-225 | nobody waits for the mutex for ever: where nothing can move, every call has returned and every write has completed or failed |
| SendResults.RefusedExactlyWhenFull | blogs-main/asio/12-logic-system/src/core/session/Session.cc:48-56 | wherever a call is before its push, its frame is refused exactly where it tests the size with 1000 queued; else the call goes on with that frame, its push queues exactly that frame, and no accepted frame is dropped |
| SendResults.NothingAfterError | blogs-main/asio/12-logic-system/src/core/session/Session.cc:220-224 | after a write error no write starts, no byte is sent and no frame leaves the queue, whatever happens |
| SendCalls.EveryFrameAccounted | blogs-main/asio/12-logic-system/src/core/session/Session.cc:44-60 | in every run, every ended call was refused or had exactly its own frame accepted, once; and the accepted frames are an interleaving of what the threads' own calls had accepted, in the order of those calls |
| SendCalls.CallsEndOnlyThus | blogs-main/asio/12-logic-system/src/core/session/Session.cc:44-68 | a call ends only refused with 1000 frames queued, accepted behind a frame that was there already, or accepted with the write of the front started |
| SendQueue.SendQueue.AsyncWriteFront | blogs-main/asio/12-logic-system/src/core/session/Session.cc:62-67 | starts a write of the front |
| SendQueue.SendQueue.ReadIfPending | blogs-main/asio/12-logic-system/src/core/session/Session.cc:50 | reads whether the queue is empty |
| SendQueue.SendQueue.CheckQueueSize | blogs-main/asio/12-logic-system/src/core/session/Session.cc:51-54 | refuses at 1000 |
| SendQueue.SendQueue.Emplace | blogs-main/asio/12-logic-system/src/core/session/Session.cc:55 | puts the call's own frame at the end of the queue |
| SendQueue.SendQueue.Unlock | blogs-main/asio/12-logic-system/src/core/session/Session.cc:56-60 | goes on to start a write only if the queue was empty |
| SendQueue.SendQueue.HandleWrite | blogs-main/asio/12-logic-system/src/core/session/Session.cc:208-219 | is the next access of a completion: lock, pop, test, start the next write, unlock |
| SendQueue.SendQueue.Schedule | blogs-main/asio/12-logic-system/src/core/session/Session.cc:44-225 | any interleaving of threads, socket and completions in place is the run of the machine, and ends in its invariant |
| Frames.NetworkRoundTrip | blogs-main/asio/12-logic-system/src/core/msg-node/MsgNode.hpp:59-62 | a short survives the casts and network order (Appendix B of RFC 791) |
| Frames.MsgNode.constructor | blogs-main/asio/12-logic-system/src/core/msg-node/MsgNode.hpp:18-21 | a node starts zeroed, with room for a terminating zero |
| Frames.MsgNode.Copy | blogs-main/asio/12-logic-system/src/core/session/Session.cc:78 | copies behind what is there and touches nothing else |
| Frames.MsgNode.Clear | blogs-main/asio/12-logic-system/src/core/msg-node/MsgNode.hpp:36-39 | zeroes the bytes and the count |
| Frames.SendNode | blogs-main/asio/12-logic-system/src/core/msg-node/MsgNode.hpp:58-64 | fills its buffer with id, length and body, the first two in network order |
| Decoder.FrameRoundTrip | blogs-main/asio/12-logic-system/src/core/session/Session.cc:97-158 | of all messages a SendNode can hold, exactly those with id 0 to 2000 and at most 2048 bytes are posted as they were sent; any other frame closes the session with nothing posted |
| DecoderCuts.ChunkIndependence | blogs-main/asio/12-logic-system/src/core/session/Session.cc:70-200 | for the deviation that clears the header node: any two cuts of any byte stream, well formed or not, post the same messages and end alike |
| DecoderCuts.DeliversHoweverCut | blogs-main/asio/12-logic-system/src/core/session/Session.cc:70-200 | for the same deviation: every cut of the frames posts the messages, and every cut of a part of them a prefix |
| DecoderSplits.DeliversUnsplit | blogs-main/asio/12-logic-system/src/core/session/Session.cc:70-200 | the code as it is: every cut that splits no header but perhaps the last posts exactly the encoded messages, and of a partial stream a prefix |
| DecoderSplits.DeliversExactly | blogs-main/asio/12-logic-system/src/core/session/Session.cc:70-200 | for all valid messages, a complete stream comes out as sent if and only if no header but perhaps the last is split, or the first split header is followed by a lucky tail |
| DecoderStray.AsManyExactly | blogs-main/asio/12-logic-system/src/core/session/Session.cc:77-158 | of the zeros of some blank frames behind a split header, as many messages are made as went in if and only if one byte of that header came alone and one or two blank frames follow, cut where it does no harm |
| DecoderSplits.DeliversExactlyUnsplit | blogs-main/asio/12-logic-system/src/core/session/Session.cc:70-200 | with no message behind the first both of id 0 and without a body, the messages come out as sent if and only if no header but perhaps the last is split |
| DecoderSplits.SplitHeaderCanBeLucky | blogs-main/asio/12-logic-system/src/core/session/Session.cc:77-79 | two messages and a cut inside the first header, both of which come out as they were sent |
| DecoderSplits.SplitHeaderLosesMessage | blogs-main/asio/12-logic-system/src/core/session/Session.cc:77-79 | two messages and a cut of which the second message never comes out |
| SessionReader.SessionReader.constructor | blogs-main/asio/12-logic-system/src/core/session/Session.cc:22-32 | starts with an empty header node and one read armed |
| SessionReader.SessionReader.KeepHeaderPart | blogs-main/asio/12-logic-system/src/core/session/Session.cc:77-87 | keeps a part of a header |
| SessionReader.SessionReader.FillHeader | blogs-main/asio/12-logic-system/src/core/session/Session.cc:90-91 | completes the header without moving its count |
| SessionReader.SessionReader.OpenFrame | blogs-main/asio/12-logic-system/src/core/session/Session.cc:97-120 | refuses the message, or makes a node for it |
| SessionReader.SessionReader.TakeBody | blogs-main/asio/12-logic-system/src/core/session/Session.cc:122-199 | takes what there is of the body, and posts the message when it is complete |
| SessionReader.SessionReader.HandleRead | blogs-main/asio/12-logic-system/src/core/session/Session.cc:70-200 | the loop over a read of any size does what the decoder does byte by byte, and a nonempty read that does not close arms exactly one more, with the buffer zeroed |
| SessionReader.SessionReader.HandleReadError | blogs-main/asio/12-logic-system/src/core/session/Session.cc:201-205 | a failed read closes the session |
| SessionReader.SessionReader.Receive | blogs-main/asio/12-logic-system/src/core/session/Session.cc:70-206 | reads one after another do what the decoder does to the cut stream |
| Delivery.DeliveredInOrder | blogs-main/asio/12-logic-system/src/core/session/Session.cc:44-225 | end to end: in every run of the sender and for every unsplit cut of what has arrived, the receiver has posted the first accepted messages, in order |
| Delivery.AllDeliveredAtRest | blogs-main/asio/12-logic-system/src/core/session/Session.cc:44-225 | end to end: when nothing can move, no write has failed and everything has arrived, everything accepted has been posted, exactly if no header but the last is split or the tail is lucky |
| LookupTable.RemoveMeaning | blogs-main/concurrent/09-table-list/table.cc:43-47 | overwriting an entry with the last one and dropping that, the last entry itself included, removes exactly one key and one entry |
| LookupTable.LookupInBucket | blogs-main/concurrent/09-table-list/table.cc:84-97 | in a table whose entries are in their hash buckets, the bucket of a key alone answers for the whole table |
| LookupTable.ChangeBucket | blogs-main/concurrent/09-table-list/table.cc:74-97 | what an operation does to the bucket of its key, it does to the table, for every hash function and table size |
| LookupTable.Bucket.FindEntryFor | blogs-main/concurrent/09-table-list/table.cc:24-28 | finds the first entry with the key, or the end |
| LookupTable.Bucket.AddOrUpdateNode | blogs-main/concurrent/09-table-list/table.cc:31-38 | sets the key, and keeps keys unique |
| LookupTable.Bucket.DeleteNode | blogs-main/concurrent/09-table-list/table.cc:40-48 | removes the key and at most one entry, and keeps keys unique |
| LookupTable.Bucket.ValueFor | blogs-main/concurrent/09-table-list/table.cc:50-55 | answers with the key's value or the default |
| LookupTable.LockLookupTable.constructor | blogs-main/concurrent/09-table-list/table.cc:63-69 | starts as the empty map |
| LookupTable.LockLookupTable.GetBucket | blogs-main/concurrent/09-table-list/table.cc:93-97 | returns the bucket of the key's hash |
| LookupTable.LockLookupTable.AddOrUpdateTable | blogs-main/concurrent/09-table-list/table.cc:74-77 | sets the key in the map |
| LookupTable.LockLookupTable.DeleteTable | blogs-main/concurrent/09-table-list/table.cc:79-82 | removes the key from the map |
| LookupTable.LockLookupTable.ValueFor | blogs-main/concurrent/09-table-list/table.cc:84-87 | answers as the map with a default |
| LookupTable.LockLookupTable.Perform | blogs-main/concurrent/09-table-list/table.cc:74-97 | every sequence of operations is answered as a map with defaults answers it |
| MovingAverage.BetweenExactlyWhenItFits | blogs-main/concurrent/03-mutex/spin_lock.cc:92-94 | for every limit from 2^32 on, the new average lies between the old one and every hold time below the limit if and only if the old one is zero or neither the product nor the quotient exceeds 32 bits below the limit |
| MovingAverage.SomeHoldWraps | blogs-main/concurrent/03-mutex/spin_lock.cc:92-94 | for every average but zero there is a hold time that puts the new average on the wrong side |
| MovingAverage.ExcessShrinks | blogs-main/concurrent/03-mutex/spin_lock.cc:92-94 | an update takes an eighth, rounded up, off the distance to the band of seven below the hold time, never crosses the hold time, and inside the band changes nothing |
| MovingAverage.Converges | blogs-main/concurrent/03-mutex/spin_lock.cc:88-95 | for a constant hold time, six updates for each binary digit of the distance bring the average into the band, exactly to the hold time from above, and it stays |
| MovingAverage.AverageStaysInRange | blogs-main/concurrent/03-mutex/spin_lock.cc:57-95 | if all hold times are in a range that fits and holds the initial 10, so is the average after any number of them, and nothing wraps |
| SpinLockProtocol.RunKeepsInv | blogs-main/concurrent/03-mutex/spin_lock.cc:25-53 | in every run at most one thread has set the flag and not cleared it, and the average it meets is that of all earlier hold times |
| SpinLockProtocol.LockedByOneAveragedByAll | blogs-main/concurrent/03-mutex/spin_lock.cc:25-95 | mutual exclusion; and while the lock is free the average is that of all hold times in unlock order, with no update lost |
| SpinLockProtocol.AverageInRange | blogs-main/concurrent/03-mutex/spin_lock.cc:88-95 | so the average stays in the range of the hold times in every run |
| SpinLockCalls.LockReturnsOnlyHolding | blogs-main/concurrent/03-mutex/spin_lock.cc:25-53 | in every run, a thread that called lock is trying or has just set the flag, until it holds the lock |
| SpinLockCalls.TryLockFailsExactlyWhenHeld | blogs-main/concurrent/03-mutex/spin_lock.cc:41-53 | in every run, try_lock gives up exactly where its load or its compare-exchange finds the flag set, and goes on where it is clear |
| SpinLockCalls.FreeLockIsTaken | blogs-main/concurrent/03-mutex/spin_lock.cc:41-53 | an attempt that looks at a free flag holds the lock three accesses later if nobody comes in between |
| SpinLockCalls.HoldTimesAreTrue | blogs-main/concurrent/03-mutex/spin_lock.cc:34-95 | in every run, the hold time an unlock feeds into the average is the time from its own lock's stamp to its reading of the clock |
| SpinLock.AdaptiveBackoffSpinLock.LoadTheFlag | blogs-main/concurrent/03-mutex/spin_lock.cc:42-44 | is the relaxed load before the compare-exchange |
| SpinLock.AdaptiveBackoffSpinLock.CompareExchange | blogs-main/concurrent/03-mutex/spin_lock.cc:46-52 | takes the flag exactly when it is clear |
| SpinLock.AdaptiveBackoffSpinLock.StampAcquireTime | blogs-main/concurrent/03-mutex/spin_lock.cc:50 | stamps the time of acquisition |
| SpinLock.AdaptiveBackoffSpinLock.MeasureHold | blogs-main/concurrent/03-mutex/spin_lock.cc:35-91 | measures the hold time in microseconds |
| SpinLock.AdaptiveBackoffSpinLock.UpdateStatistics | blogs-main/concurrent/03-mutex/spin_lock.cc:88-95 | loads the average and stores the new one, two accesses under the lock |
| SpinLock.AdaptiveBackoffSpinLock.ClearTheFlag | blogs-main/concurrent/03-mutex/spin_lock.cc:38 | releases the lock after the update |
| SpinLock.AdaptiveBackoffSpinLock.Schedule | blogs-main/concurrent/03-mutex/spin_lock.cc:25-95 | any interleaving of the accesses in place is the run of the machine, and ends in its invariant |

## Left out

- C++ memory orders, and data races on fields that are not atomic: every access is a step of one total order.
- Wrap-around of tags, positions and sequence numbers: they are unbounded naturals, so the tag argument is that of tags that never repeat.
- Progress of compare-exchange loops under contention: a call is shown to return when its thread runs alone, not while others keep interfering; back-off, pauses and timing are no steps.
- `SuperQueue` with capacity 0, which the static assertion also admits: it has no slot at all.
- `SuperQueue::size` and `empty`: the two counters are read at different moments, so no bound holds on the difference.
- Order and emptiness of the elimination stack: a node can stay in an exchange slot when the popper's withdrawal fails, so only legality slot by slot, conservation and exclusivity are claimed.
- The destructors of `TreiberStack` and `EliminationBackoffStack`, which pop until nothing is returned.
- StackResults.TreiberOnlyPushesAndPops: is about logs that replay; that the log of a run without slots replays is EveryRunLinearizes.
- How `std::atomic::wait` works inside: comparing the size and blocking is one step, as the C++ standard promises to notifications.
- Addresses of nodes: a heap is a map from addresses to nodes; the allocator's failure is not modelled.
- Exceptions thrown by values, predicates and functions passed in by callers, and functions given to `for_each` that write to the value they get, which they would do under a shared lock.
- Wake-up after stop in `LogicSystem` and `ThreadPool`: stated only as far as it holds.
- Join of the worker thread, message handlers and JSON in `LogicSystem`: processing a node is one step.
- Frames with a negative length: the decoder's model stops at a status of its own, since what the code then does is not defined.
- Asio: a read delivers any bytes, a write transmits in pieces of any size and then completes or fails; removing the session from the server, logging and `Close` on the socket are the status `Closed`.
- Locks of `LockLookupTable`: each operation is one critical section on one bucket and is taken in one step; a table of size 0 is left out, its index is not defined.
- The nested waiting loops of `AdaptiveBackoffSpinLock` (`spin_only`, `spin_with_backoff`, `hybrid_wait`): they differ only in how long they wait between loads of the flag.
- MovingAverage.Update: hold times are not negative; a clock that goes backwards is taken as no time.
- `UnlockQueue`, `LockQueue`, `LockStack`, `lock_queue.cc`: the first publishes its tail before constructing the element, the others are plain containers under one mutex.
- Chapters 15, 17 and 19 of the asio lessons: their decoders and send loops differ, and the claims here do not carry over; chapters 13 and 14 have the logic of chapter 12.
