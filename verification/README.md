# Verified models of stateful components

Each component of the platform repository that keeps state over long runs, often under several
threads, is modelled here and proved to keep its invariants. `dafny verify dfyconfig.toml`
checks everything.

| component | values and proofs | objects and loops |
|---|---|---|
| priority heap of timers | `RankedTree` | `LocHeap` |
| GPS timer service | `Timespec`, `TimerProtocol`, `TimerInvariant`, `TimerSafety`, `TimerRuns`, `TimerHistory`, `TimerRaces` | `LocTimer`, `TimerService` |
| sensor multi-HAL event path | `SensorHandles`, `MultiHal`, `MultiHalProtocol`, `MultiHalRuns`, `MultiHalWrites`, `MultiHalHandles` | `SensorEventQueue`, `SensorsPollContext` |
| LAN-to-LAN offload graph | `LanToLanGraph`, `LanToLanInvariant`, `LanToLanEvents`, `LanToLanEffects`, `LanToLanRuns`, `LanToLanLeftOvers`, `LanToLanWalks`, `LanToLanRefusals`, `LanToLanStaleRules` | `LanToLan` |
| NAT connection cache | `NatCache`, `NatInvariant`, `NatEvents`, `NatRuns`, `NatEffects`, `NatPowerSave` | `NatApp` |
| message queue and its list | `MsgQueue` | `LinkedList`, `MsgQ` |

The pattern is the same throughout. Operations are functions on values, and lemmas about these
functions say what the component promises. Classes and loops make the same changes in place, as
the source does, and their contracts equate the new state with the function of the old one. Runs
are sequences of states that follow each other by possible steps. For the concurrent components a
step is a section under a mutex, a message handled up to its next call out, one kernel call, or
one store of a device, and steps of different threads interleave freely.

**Timer service.** Clients start and stop timers; a message thread owns the heaps and handles
Push, Remove and Expire messages in order; a poll thread waits for the kernel's timers. No timer
is lost, each is deleted once and not before nothing refers to it, and each ends once.

**Multi-HAL.** Each sub-module's writer thread has its device fill a region of a ring buffer
outside the mutex; one reader goes round all rings, translates handles, and sleeps when all are
empty. Nothing is lost, repeated or reordered, nobody starves, and no wakeup is lost.

**Offload graph.** Clients know their peers and the links to those they are offloaded with. Peers
and links are mutual, the counter is right and under the cap, and the hardware has the rules of
the links and no others. One IP type is modelled; the source treats the two alike.

**NAT cache.** Slots hold connections, enabled ones have a rule in the hardware's table. The two
stay in step through WAN bounces, power save, disconnections and refused rules, until a table is
added over the rules of another.

**Message queue.** Senders and receivers over a doubly linked list. Messages leave in order, each
with one fate, and no receiver waits while messages do.

## Hypotheses

- Deadlines of live timers, and the clock, are normalised and less than 2^31 s apart, and no
  deadline is the zero time; `Timespec.RanksIsExactWithinTheWindow` shows the bound to be exact.
- Containers exist before timers are started in them; the clock's reading is a parameter. The
  kernel fires a timer no earlier than it is armed for.
- A delegate's look at its client and the `stop` that follows are one step
  (gps/utils/LocTimer.cpp:578-580).
- One writer for each ring and one caller of `poll`, at least one sub-module, every sub-module
  opened, `maxReads` positive, devices that return no more events than they were given room for.
- The two ends of a LAN connection differ. The hardware gives out handles that are not in use and
  does not fail for one direction of a pair alone; `LanToLanRefusals` has the runs in which it does.
- The hardware gives NAT rules handles that are not in use, and deletions of live rules succeed.
- Nobody uses a message queue while or after it is destroyed.

## Findings

Properties that fail, each with the condition for it to hold and, where it is a matter of runs, a
run in which it fails.

- The loop of an Expire message looks at no deadline for its first pop, against its own comment:
  a timer is expired early exactly if the top was not due when the message was handled
  (`TimerRuns.ExpireEndsWithTheDueTimers`, gps/utils/LocTimer.cpp:403). It happens:
  `TimerRaces.CalledBackBeforeItsTime`.
- Removing the last timer leaves the kernel armed, since NULL equals NULL
  (`TimerRuns.RemovingTheOnlyTimerLeavesItArmed`, with a run in `TimerRaces.KernelStaysArmed`).
  The branch that disarms is dead (`TimerRuns.NobodyDisarmsInUpdate`).
- The comment on removal says that the soonest time is updated if the removed timer is not the
  prior top; the code does so if it is (gps/utils/LocTimer.cpp:370-371). The model follows the code.
- The pruning in the heap's removal is unsound for any ranking that is not transitive
  (`RankedTree.RemoveMissesWithoutTransitivity`).
- A sensor that is registered twice has two global handles, of which the first no longer
  round-trips (`SensorHandles.GlobalHandlesRoundTrip`).
- A failed second direction of a link is not undone, and when a client comes back the pair is
  counted by its second direction alone (`LanToLanEvents.LinkBothWaysKeepsInv`,
  `LanToLanEvents.LinkPeerKeepsInv`). A client to which another has such a link can then be erased,
  which leaves a dangling pointer: exactly when is `LanToLanRefusals.EventLeavesNoneDangling`, and
  a run that does is `LanToLanRefusals.RefusalLeavesADanglingLink`. The hardware keeps rules for
  the client that is gone: which, is `LanToLanStaleRules.DisconnectLeavesRules`.
- The client table should hold nobody who is inactive and without connections. Exactly if an
  inactive peer of it has no other peer, a client that disconnects, or whose address is taken
  over, leaves one there (`LanToLanLeftOvers.EventLeavesNothing`); a run that does is
  `LanToLanLeftOvers.DisconnectLeavesAClientOver`. A connection between such ends is then not
  undone by its deletion (`LanToLanEvents.DelUndoesNew`).
- A table added while connections are enabled, not for the previous address, leaves them enabled
  without rules; so does a refused one (`NatEvents.AddTableKeepsInv`). That comes about when the
  WAN goes down under another address (IPACM_ConntrackListener.cpp:398-408 clears the flag all the
  same): `NatRuns.MissedWanDownLosesRules`.
- `NatApp::Reset` compares where its comment says it clears. As written, a run stays in step exactly
  as long as no table is granted for another than the previous address while slots are enabled
  (`NatRuns.RunStaysInStep`, which holds of both forms); but then a WAN that merely comes back under
  another address is such a run (`NatRuns.NewAddressLosesRules`). As commented, slots are disabled
  while no table is up (`NatRuns.RunKeepsInv`).
- Deleting an all-zero entry counts a free slot out (`NatEvents.DeleteEntryCounts`).
- A client that recovers from power save loses those of its connections whose rules are not taken,
  so all of them while no table is up (`NatEvents.RecoveryKeepsExactly`).
- A WAN bounce enables connections of clients in power save
  (`NatPowerSave.EventLetsSaversRest`, `NatPowerSave.BounceWakesASaver`).
- `NatApp::CacheEntry` looks for a free slot from an uninitialised index, so not all free slots
  count (`NatEvents.CacheEntryCaches`, for every index within the cache).
- Received messages are the first of the accepted ones exactly if nobody receives after a flush
  that threw messages away (`MsgQueue.ReceivedIsPrefix`, with a run in
  `MsgQueue.ReceivedAfterAFlush`).
- `linked_list_search` leaves the caller's pointer as it was for an empty list, where its header
  says NULL (`LinkedList.LinkedList.Search`).

## Model

| member | source | states |
|---|---|---|
| LocHeap.LocHeapNode.Push | gps/utils/LocHeap.cpp:111-137 | in place, a push turns the tree into the pushed tree: data swapped on the way down, sizes counted, links kept |
| LocHeap.LocHeapNode.Pop | gps/utils/LocHeap.cpp:147-179 | in place, a pop takes the top datum off and detaches one leaf |
| LocHeap.LocHeapNode.Remove | gps/utils/LocHeap.cpp:185-215 | in place, removal by identity with the rank pruning; says whether it removed |
| LocHeap.LocHeapNode.CheckNodes | gps/utils/LocHeap.cpp:219-247 | the self-check returns true if and only if the tree is ordered and every cached size is exact |
| LocHeap.LocHeap.Push | gps/utils/LocHeap.cpp:257-268 | the heap wrapper pushes onto its tree, also onto none |
| LocHeap.LocHeap.Peek | gps/utils/LocHeap.cpp:270-278 | returns the top, or nothing for an empty heap |
| LocHeap.LocHeap.Pop | gps/utils/LocHeap.cpp:280-291 | returns the old top and leaves the popped tree; nothing for an empty heap |
| LocHeap.LocHeap.Remove | gps/utils/LocHeap.cpp:293-307 | returns the given element if it was removed, else nothing |
| LocHeap.LocHeap.CheckTree | gps/utils/LocHeap.cpp:310-313 | true exactly for a heap |
| LocHeap.LocHeap.GetTreeSize | gps/utils/LocHeap.cpp:314-317 | the cached size of the tree, which is the number of elements if sizes are exact |
| RankedTree.PushKeepsHeap | gps/utils/LocHeap.cpp:105-137 | a push keeps order and exact sizes and adds exactly one element |
| RankedTree.PopKeepsHeap | gps/utils/LocHeap.cpp:139-179 | a pop keeps order and exact sizes, removes exactly the top, and nothing left outranks it |
| RankedTree.RemoveKeepsHeap | gps/utils/LocHeap.cpp:181-215 | removal finds the element if and only if it is there, takes out exactly it, and keeps the heap: the pruning is sound for a preorder |
| RankedTree.RemoveMissesWithoutTransitivity | gps/utils/LocHeap.cpp:194 | wherever the ranking is not transitive, there is a heap in which the pruning misses an element |
| RankedTree.TopIsNotOutranked | gps/utils/LocHeap.cpp:139-157 | no element of a heap outranks its top |
| RankedTree.PushesBalance | gps/utils/LocHeap.cpp:105-137 | a heap built by pushes has, at every node, zero or one element more on the left |
| RankedTree.PushesStayShallow | gps/utils/LocHeap.cpp:105-137 | so its height is at most one more than the logarithm of its size |
| RankedTree.PushDoesNotUnbalance | gps/utils/LocHeap.cpp:105-137 | in any heap, a push makes no node more unbalanced than it was, or than one |
| Timespec.RanksComparesTimes | gps/utils/LocTimer.cpp:555-571 | for normalised times less than 2^31 s apart, the sign of the rank is the order of time to the nanosecond |
| Timespec.RanksIsExactWithinTheWindow | gps/utils/LocTimer.cpp:555-571 | the ranking is the order of time for all pairs up to w seconds apart if and only if w < 2^31 |
| Timespec.DeadlineIsExact | gps/utils/LocTimer.cpp:610-618 | the deadline of a start is normalised and exactly the delay after now |
| LocTimer.LocSharedLock.Drop | gps/utils/LocSharedLock.h:56-60 | the count goes down by one, and the last user deletes the lock |
| TimerService.TimerService.NewDelegate | gps/utils/LocTimer.cpp:524-532 | a new delegate belongs to its client and container, takes one use of the client's lock, and sends its Push |
| TimerService.TimerService.Start | gps/utils/LocTimer.cpp:604-625 | start on an idle client makes one delegate with the exact deadline and sends one Push; on a running one it changes nothing |
| TimerService.TimerService.StopRunning | gps/utils/LocTimer.cpp:534-553 | client and delegate let go of each other and one Remove is sent |
| TimerService.TimerService.Stop | gps/utils/LocTimer.cpp:627-643 | stop returns true exactly if the client was running |
| TimerService.TimerService.UpdateSoonestTime | gps/utils/LocTimer.cpp:305-336 | after the top may have changed: nothing, or the poll is to be removed for an empty heap, or added for a sooner top |
| TimerService.TimerService.ReceivePush | gps/utils/LocTimer.cpp:339-356 | handling of a Push, up to its first kernel call |
| TimerService.TimerService.ReceiveRemove | gps/utils/LocTimer.cpp:359-384 | handling of a Remove, up to its first kernel call; the delegate is then due for deletion |
| TimerService.TimerService.ReceiveExpire | gps/utils/LocTimer.cpp:389-405 | handling of an Expire, with its first, unchecked pop |
| TimerService.TimerService.CallExpire | gps/utils/LocTimer.cpp:573-587 | a popped delegate stops its client, and the callback is made if the client was still running |
| TimerService.TimerService.PopNext | gps/utils/LocTimer.cpp:420-429 | the next pop, unless now is sooner than the top, or the end of the loop |
| TimerService.TimerService.AddPoll | gps/utils/LocTimer.cpp:468-481 | the container enters the polled set, before the time is set |
| TimerService.TimerService.RemovePoll | gps/utils/LocTimer.cpp:319-325 | for an empty heap: the container leaves the polled set, and the zero time is to be set, which disarms |
| TimerService.TimerService.SetTime | gps/utils/LocTimer.cpp:332-335 | the kernel timer is armed for the time decided on, or disarmed by the zero time |
| TimerService.TimerService.Delete | gps/utils/LocTimer.cpp:377-379 | the delegate is deleted and drops its use of the lock |
| TimerService.TimerService.Create | gps/utils/LocTimer.cpp:590-592 | a new client has no timer and a lock of its own |
| TimerService.TimerService.Destroy | gps/utils/LocTimer.cpp:594-602 | a destroyed client is stopped, if it runs, and then drops its use of the lock |
| TimerService.TimerService.DisarmBox | gps/utils/LocTimer.cpp:414-415 | the poll thread disarms the kernel timer first |
| TimerService.TimerService.UnpollBox | gps/utils/LocTimer.cpp:416 | then it leaves the polled set |
| TimerService.TimerService.SendExpire | gps/utils/LocTimer.cpp:417 | then it sends the Expire |
| TimerRuns.RunKeepsInv | gps/utils/LocTimer.cpp:305-643 | every state of every run, with the threads interleaved in any way, satisfies the invariant |
| TimerRuns.NoTimerIsLost | gps/utils/LocTimer.cpp:305-418 | a heap with timers in it is armed for its soonest and polled, or an Expire is on its way, or the message thread is at it |
| TimerRuns.AtRestTheSoonestTimerIsArmed | gps/utils/LocTimer.cpp:490-520 | with both service threads at rest, the kernel is armed no later than any timer of the heap |
| TimerHistory.NewTopsAreTold | gps/utils/LocTimer.cpp:339-384 | a Push or Remove changes its own heap alone, by its own timer, and the kernel is then told if and only if the top has changed and there is one |
| TimerRuns.NothingDangles | gps/utils/LocTimer.cpp:339-384 | the message thread, the poll thread and clients never find what they point at deleted |
| TimerRuns.DelegatesComeAndGoOnce | gps/utils/LocTimer.cpp:339-384 | each delegate has one Push and at most one Remove, behind it; once deleted it is in no heap and no waiting message names it |
| TimerRuns.TimersEndOnce | gps/utils/LocTimer.cpp:573-643 | a started timer ends at most once, in a callback or in a stop that returns true; till then client and delegate point at each other |
| TimerRuns.TimersAreHeld | gps/utils/LocTimer.cpp:339-405 | till it is stopped, a timer's Push waits, or it is once in its own heap, or it was popped and is about to be called back; one in a heap after its stop has its Remove waiting |
| TimerHistory.TimersEndByCallOrStop | gps/utils/LocTimer.cpp:573-643 | in a run, a timer's callbacks grow by one exactly when it is the popped one and still has its client, its stops exactly when the client that runs it stops |
| TimerRuns.DeadDelegatesStayDead | gps/utils/LocTimer.cpp:377-379 | what was deleted stays deleted, and an ended timer has no second end |
| TimerRuns.LocksLiveAsLongAsTheirUsers | gps/utils/LocSharedLock.h:50-62 | a lock exists exactly while it has clients or delegates, and its count is their number |
| TimerRuns.ExpireEndsWithTheDueTimers | gps/utils/LocTimer.cpp:389-429 | an Expire pops the old top and every other due timer, soonest first, and leaves only later ones; no popped timer was early if and only if the old top was due |
| TimerHistory.LoopBegan | gps/utils/LocTimer.cpp:389-400 | the loop of an Expire compares with the clock as read when the message was received, and its heap began as it was then |
| TimerHistory.ExpireTakesTheDue | gps/utils/LocTimer.cpp:389-429 | so an Expire takes off the heap it finds, besides the top, exactly the timers due at that reading |
| TimerRuns.UpdateNeverDisarms | gps/utils/LocTimer.cpp:315-322 | for all that its callers give it, updateSoonestTime does not get to the branch that disarms |
| TimerRuns.NobodyDisarmsInUpdate | gps/utils/LocTimer.cpp:315-335 | in no run is that branch taken, and whenever the message thread sets a time it arms |
| TimerRuns.RemovingTheOnlyTimerLeavesItArmed | gps/utils/LocTimer.cpp:368-376 | in a run, when the only timer is removed and no Expire is on its way, the kernel stays armed for it and the container polled |
| TimerHistory.SentOnceDisarmed | gps/utils/LocTimer.cpp:413-418 | the poll thread sends an Expire only after it disarmed and then unpolled the container, which stays so unless the message thread sets a time or polls again |
| TimerHistory.EachWakeIsServed | gps/utils/LocTimer.cpp:490-520 | the containers that the kernel's events named are, in order, those that an Expire was sent for and then those the poll thread has yet to handle |
| TimerRaces.KernelStaysArmed | gps/utils/LocTimer.cpp:368-376 | a run after which all timers are gone, both threads rest, and the kernel is armed for a timer that was stopped |
| TimerRaces.CalledBackBeforeItsTime | gps/utils/LocTimer.cpp:402-418 | it goes on: the kernel fires for the old timer, and the client is called back for a new one that is not due |
| TimerRaces.MakeRace | gps/utils/LocTimer.cpp:524-532 | clients and timers for such a run can be made |
| TimerInvariant.ExpireTakesWhatIsDue | gps/utils/LocTimer.cpp:402-409 | the loop's result as a fact about the heap and the clock reading |
| SensorEventQueue.SensorEventQueue.GetWritableRegion | sensors/SensorEventQueue.cpp:40-64 | the region is where the next event goes, contiguous, in bounds, no longer than asked for, cut short only by the array's end or the oldest event, and empty only without space |
| SensorEventQueue.SensorEventQueue.MarkAsWritten | sensors/SensorEventQueue.cpp:66-69 | marking k written events appends exactly those k |
| SensorEventQueue.SensorEventQueue.Peek | sensors/SensorEventQueue.cpp:76-81 | the oldest event, or none |
| SensorEventQueue.SensorEventQueue.Dequeue | sensors/SensorEventQueue.cpp:83-93 | drops exactly the oldest event and signals space if the queue was full |
| SensorEventQueue.WritableIsNotReadable | sensors/SensorEventQueue.cpp:48-62 | no slot of a writable region holds a readable event |
| SensorEventQueue.DequeueKeepsWritable | sensors/SensorEventQueue.cpp:83-93 | a dequeue leaves the writer's region writable, with the same start |
| SensorEventQueue.DequeueTakesOldest | sensors/SensorEventQueue.cpp:76-93 | the contents are the oldest event and what a dequeue leaves |
| SensorEventQueue.StoreKeepsContents | sensors/multihal.cpp:163-167 | what the device stores in its region changes nothing that can be read |
| SensorEventQueue.MarkAppends | sensors/SensorEventQueue.cpp:66-69 | the marked region becomes the newest part of the contents |
| SensorHandles.AssignKeepsMaps | sensors/multihal.cpp:86-95 | a new handle is new, and everything known stays known |
| SensorHandles.FullHandlesRoundTrip | sensors/multihal.cpp:86-137 | from a sensor to its global handle and back is right, now and after further registrations |
| SensorHandles.GlobalHandlesRoundTrip | sensors/multihal.cpp:86-137 | from a global handle to its sensor and back is right if and only if the sensor was not registered again later |
| SensorHandles.HandlesAreDistinct | sensors/multihal.cpp:86-95 | two sensors never share a handle |
| SensorHandles.RemapKeepsMeaning | sensors/multihal.cpp:323-347 | a remapped event is the same event about the same sensor, and is bad exactly if its sensor is unknown |
| SensorsPollContext.SensorsPollContext.AssignGlobalHandle | sensors/multihal.cpp:86-95 | registers the pair under the next handle |
| SensorsPollContext.SensorsPollContext.GetLocalHandle | sensors/multihal.cpp:98-106 | the local handle, or -1 |
| SensorsPollContext.SensorsPollContext.GetModuleIndex | sensors/multihal.cpp:110-121 | the module, or -1 |
| SensorsPollContext.SensorsPollContext.GetGlobalHandle | sensors/multihal.cpp:124-137 | the global handle, or -1 |
| SensorsPollContext.SensorsPollContext.CopyEventRemapHandle | sensors/multihal.cpp:323-347 | copies one event, with only the right handle field replaced |
| SensorsPollContext.SensorsPollContext.VisitNext | sensors/multihal.cpp:360-383 | one turn of the scan is one visit of the model |
| SensorsPollContext.SensorsPollContext.ScanQueues | sensors/multihal.cpp:358-384 | the scan loop, from the start of a poll or a wakeup, computes the scan of the model; it terminates |
| MultiHal.VisitKeepsValid | sensors/multihal.cpp:358-384 | each visit takes an event off or makes the row of empty queues longer |
| MultiHal.ScanStopsOnlyWhenDone | sensors/multihal.cpp:358-384 | a scan that stops with room left has emptied every queue |
| MultiHal.ScanKeeps | sensors/multihal.cpp:349-384 | a scan loses, repeats and reorders nothing, keeps its turns, and leaves writers' regions as they are |
| MultiHalRuns.RunKeepsInv | sensors/multihal.cpp:147-193 | every state of every run of writers, devices and poll satisfies the invariant |
| MultiHalRuns.RegionsStayWritable | sensors/multihal.cpp:155-187 | while a device fills a region outside the mutex it is in bounds, starts at (mStart+mSize) mod mCapacity, and holds no readable slot |
| MultiHalWrites.RegionsAreWhole | sensors/multihal.cpp:156-162 | a writer that finds space gets all of it that is contiguous, and one that finds none waits |
| MultiHalWrites.PolledEventsAreMarked | sensors/multihal.cpp:167-179 | what a writer marked, with what its last poll leaves to mark, is as many events as its device's polls returned |
| MultiHalWrites.MarkedAsLastStored | sensors/multihal.cpp:162-179 | a writer marks exactly the events of its last poll, those that the device last stored in the first slots of the region, which begins behind everything marked before |
| MultiHalRuns.EventsArriveInOrder | sensors/multihal.cpp:323-399 | what a writer marked is what was taken off in order, then what is queued; callers get all of it but bad events, with handles that lead back to the sensor |
| MultiHalRuns.DeliveredFromModule | sensors/multihal.cpp:323-399 | with a module's sensors registered before their events are taken, and none of them again since, what is delivered from it is what its writer marked, remapped, up to what is queued |
| MultiHalHandles.HandlesAreRegistrations | sensors/multihal.cpp:86-137 | in a run, a handle is that of the registration with its number, a sensor's is that of its last registration, and what was never given out translates to -1 |
| MultiHalHandles.TakenWithHandlesOfItsTime | sensors/multihal.cpp:323-384 | each event is taken off by one poll or wakeup, and remapped with the handles as they were then |
| MultiHalHandles.DeliveredOnceRegistered | sensors/multihal.cpp:323-399 | once a module's sensors are all registered when its first event is taken, what is delivered from it is what was marked, remapped, up to what is queued |
| MultiHalRuns.EachQueueHasItsTurn | sensors/multihal.cpp:358-384 | as many visits in a row as there are queues, across polls, visit each queue exactly once |
| MultiHalRuns.PollSleepsOnlyWhenEmpty | sensors/multihal.cpp:349-399 | a poll, at its call and whenever it wakes, sleeps only with all queues empty; else it returns 1 to maxReads events, fewer only having emptied all queues |
| MultiHalRuns.NoWakeupIsLost | sensors/multihal.cpp:178-186 | a writer waiting unwoken has a full queue, a reader waiting unwoken is announced and has only empty ones; they never wait for each other |
| MultiHalRuns.EveryThreadCanGoOn | sensors/multihal.cpp:147-193 | each thread can take its next step, whatever the device stores in its region and however many events it returns up to its length |
| LanToLan.LanToLan.AddOffloadLink | data-ipa-cfg-mgr/ipacm/src/IPACM_LanToLan.cpp:318-394 | adds the link with its three rules, header, route and filter, or, on any failure, rolls back to what was there |
| LanToLan.LanToLan.DelOffloadLink | data-ipa-cfg-mgr/ipacm/src/IPACM_LanToLan.cpp:521-552 | deletes the three rules of a link; fails exactly if one is missing |
| LanToLan.LanToLan.EraseOffloadLink | data-ipa-cfg-mgr/ipacm/src/IPACM_LanToLan.cpp:977-1026 | erases both directions and counts the pair out |
| LanToLan.LanToLan.TurnoffLink | data-ipa-cfg-mgr/ipacm/src/IPACM_LanToLan.cpp:477-513 | one turn of the walk: the rules, the link back with its rules, the counter |
| LanToLan.LanToLan.TurnoffOffloadLinks | data-ipa-cfg-mgr/ipacm/src/IPACM_LanToLan.cpp:463-519 | the walk over the link list, link after link, with each of its ways to fail half way |
| LanToLan.LanToLan.ClearPeerList | data-ipa-cfg-mgr/ipacm/src/IPACM_LanToLan.cpp:616-650 | the walk over the peer list takes the client off list after list, and stops where it is not found |
| LanToLanWalks.WalksSucceed | data-ipa-cfg-mgr/ipacm/src/IPACM_LanToLan.cpp:463-519 | on a consistent graph neither walk fails, and they take off all links, with their rules, and all connections |
| LanToLanWalks.WalksMakeTheEvents | data-ipa-cfg-mgr/ipacm/src/IPACM_LanToLan.cpp:157-274 | on a consistent graph the handlers, walk by walk, do what the events are said to do |
| LanToLan.LanToLan.AddConnection | data-ipa-cfg-mgr/ipacm/src/IPACM_LanToLan.cpp:785-833 | counts a connection at both ends; says whether an entry was made |
| LanToLan.LanToLan.RemoveConnection | data-ipa-cfg-mgr/ipacm/src/IPACM_LanToLan.cpp:925-975 | counts a connection out at both ends; says whether the second end's entry went |
| LanToLan.LanToLan.HandleNewConnection | data-ipa-cfg-mgr/ipacm/src/IPACM_LanToLan.cpp:712-782 | a first connection of active clients links them both ways, or as far as the hardware takes the rules |
| LanToLan.LanToLan.HandleDelConnection | data-ipa-cfg-mgr/ipacm/src/IPACM_LanToLan.cpp:835-922 | a last connection unlinks, and erases ends that are unused |
| LanToLan.LanToLan.HandleClientInactive | data-ipa-cfg-mgr/ipacm/src/IPACM_LanToLan.cpp:396-461 | on any graph where its lists do not dangle, what the walk over its links leaves; an inactive client goes without peers; on a consistent graph it loses all its links and the graph stays consistent |
| LanToLan.LanToLan.HandleClientDisconnect | data-ipa-cfg-mgr/ipacm/src/IPACM_LanToLan.cpp:554-614 | on any graph where its lists do not dangle, what both walks leave, without the client; on a consistent graph it loses links, peers and entry and the graph stays consistent |
| LanToLan.LanToLan.CheckPotentialLink | data-ipa-cfg-mgr/ipacm/src/IPACM_LanToLan.cpp:276-316 | links the peers in turn, whichever directions fail |
| LanToLan.LanToLan.HandleClientActive | data-ipa-cfg-mgr/ipacm/src/IPACM_LanToLan.cpp:157-274 | new, returning and replaced clients, on any graph where their lists do not dangle; a consistent one stays so if no direction fails alone |
| LanToLanInvariant.AddOffloadLinkKeepsRules | data-ipa-cfg-mgr/ipacm/src/IPACM_LanToLan.cpp:318-394 | success is under the cap and with all three rules; it adds exactly them, and failure changes nothing |
| LanToLanInvariant.DropLinkKeepsRules | data-ipa-cfg-mgr/ipacm/src/IPACM_LanToLan.cpp:521-552 | deleting a link deletes exactly its rules, which are there |
| LanToLanInvariant.EraseKeepsInv | data-ipa-cfg-mgr/ipacm/src/IPACM_LanToLan.cpp:977-1026 | erasing a pair keeps the graph consistent |
| LanToLanEvents.LinkBothWaysKeepsInv | data-ipa-cfg-mgr/ipacm/src/IPACM_LanToLan.cpp:755-782 | a first connection keeps the graph consistent if and only if the second direction does not fail after the first succeeded |
| LanToLanEvents.LinkPeerKeepsInv | data-ipa-cfg-mgr/ipacm/src/IPACM_LanToLan.cpp:293-312 | linking a peer of a returning client keeps it consistent if and only if both directions succeed or both fail |
| LanToLanEvents.TurnOffKeepsInv | data-ipa-cfg-mgr/ipacm/src/IPACM_LanToLan.cpp:463-519 | takes away the client's links, no others, and counts them out |
| LanToLanEvents.ClearKeepsInv | data-ipa-cfg-mgr/ipacm/src/IPACM_LanToLan.cpp:616-650 | takes away the client's connections and no others |
| LanToLanEvents.DisconnectForgetsClient | data-ipa-cfg-mgr/ipacm/src/IPACM_LanToLan.cpp:603-650 | on a consistent graph, after a disconnection no list and no rule refers to the client; each of the others keeps its entry, its connections and its links |
| LanToLanEvents.DelUndoesNew | data-ipa-cfg-mgr/ipacm/src/IPACM_LanToLan.cpp:712-922 | ending a connection right after it began restores the graph, rules and all, if and only if neither end is an inactive client without connections |
| LanToLanEffects.NewConnectionCountsAndLinks | data-ipa-cfg-mgr/ipacm/src/IPACM_LanToLan.cpp:712-833 | whatever rules the hardware takes, exactly when a new connection links each direction of its pair, and when that is counted; it counts one connection, and no other entry, connection or link changes |
| LanToLanEffects.DelConnectionCountsAndUnlinks | data-ipa-cfg-mgr/ipacm/src/IPACM_LanToLan.cpp:835-975 | the link and the pair's count go exactly with the last connection, and then an inactive end without other peers is erased; nothing else changes |
| LanToLanEffects.InactiveUnlinks | data-ipa-cfg-mgr/ipacm/src/IPACM_LanToLan.cpp:396-461 | links go, connections and other entries stay, and the entry stays exactly if there are any |
| LanToLanEffects.ActiveAgainLinks | data-ipa-cfg-mgr/ipacm/src/IPACM_LanToLan.cpp:255-316 | a returning client is linked to each peer, direction by direction, if and only if the peer is active, there is room at its turn, and the hardware takes that direction; what is counted; no other link changes |
| LanToLanEffects.NewMacStartsAnew | data-ipa-cfg-mgr/ipacm/src/IPACM_LanToLan.cpp:227-253 | a new MAC under an address starts without the old connections and links |
| LanToLanEffects.NewAndUnknownClients | data-ipa-cfg-mgr/ipacm/src/IPACM_LanToLan.cpp:157-253 | a new client enters with what the event says and no peers; one that is active under the same MAC, and events about addresses nobody knows, change nothing |
| LanToLanLeftOvers.DisconnectLeavesNothing | data-ipa-cfg-mgr/ipacm/src/IPACM_LanToLan.cpp:554-650 | a disconnection leaves no inactive client without connections in the table if and only if each inactive peer has another peer |
| LanToLanLeftOvers.NewMacLeavesNothing | data-ipa-cfg-mgr/ipacm/src/IPACM_LanToLan.cpp:227-253 | the same for a new MAC under an active client's address |
| LanToLanLeftOvers.EventLeavesNothing | data-ipa-cfg-mgr/ipacm/src/IPACM_LanToLan.cpp:94-155 | every other event leaves no such entry |
| LanToLanLeftOvers.DisconnectLeavesAClientOver | data-ipa-cfg-mgr/ipacm/src/IPACM_LanToLan.cpp:603-614 | a run of five events that leaves one |
| LanToLanRefusals.AnyAnswerStaysSound | data-ipa-cfg-mgr/ipacm/src/IPACM_LanToLan.cpp:755-782 | whatever the hardware takes and refuses, one event makes a consistent graph at worst one with links of one direction |
| LanToLanRefusals.RunsAreAnyRuns | data-ipa-cfg-mgr/ipacm/src/IPACM_LanToLan.cpp:94-155 | runs on which no direction fails alone are among the runs with any answers |
| LanToLanRefusals.DisconnectReaches | data-ipa-cfg-mgr/ipacm/src/IPACM_LanToLan.cpp:463-650 | on a graph with links of one direction, after a disconnection exactly those still have a link to the client whom the walk over its links did not reach; no peer list has it |
| LanToLanStaleRules.DisconnectLeavesRules | data-ipa-cfg-mgr/ipacm/src/IPACM_LanToLan.cpp:463-614 | exactly which rules and how many counted pairs are left after a disconnection: those of the client's links behind the one where its walk ended, and of the links to it that were not reached |
| LanToLanStaleRules.NewMacLeavesRules | data-ipa-cfg-mgr/ipacm/src/IPACM_LanToLan.cpp:227-253 | a new MAC under an active address leaves what a disconnection leaves, and its own entry, with the old links if the walk over them ended early |
| LanToLanStaleRules.InactiveLeavesRules | data-ipa-cfg-mgr/ipacm/src/IPACM_LanToLan.cpp:396-461 | inactivity leaves what a disconnection leaves, but connections, and the entry if it has any |
| LanToLanRefusals.EventLeavesNoneDangling | data-ipa-cfg-mgr/ipacm/src/IPACM_LanToLan.cpp:94-155 | exactly when an event leaves an erased address in a list: a disconnection with someone unreached, or a last connection whose inactive end goes while the other has a link to it |
| LanToLanRefusals.RefusalLeavesADanglingLink | data-ipa-cfg-mgr/ipacm/src/IPACM_LanToLan.cpp:764-768 | a run of four events, with one refused direction, to a link to a client that is not in the table |
| LanToLanRuns.RunKeepsInv | data-ipa-cfg-mgr/ipacm/src/IPACM_LanToLan.cpp:94-155 | every graph of every run of events is consistent |
| LanToLanRuns.PeersAreMutual | data-ipa-cfg-mgr/ipacm/src/IPACM_LanToLan.cpp:785-833 | peer entries are mutual with equal positive counts and unique in their list |
| LanToLanRuns.LinksAreMutualPeers | data-ipa-cfg-mgr/ipacm/src/IPACM_LanToLan.cpp:318-394 | links are mutual and unique and lead between active peers |
| LanToLanRuns.CounterCountsLinkedPairs | data-ipa-cfg-mgr/ipacm/src/IPACM_LanToLan.cpp:318-324 | the counter is the number of linked pairs, never negative and never over the cap |
| LanToLanRuns.RulesAreThoseOfLinks | data-ipa-cfg-mgr/ipacm/src/IPACM_LanToLan.cpp:318-394 | live rules are exactly those that links record, each recorded once: a filter where the sender is attached, a route where the receiver is, a header from the sender's MAC to the receiver's; none is deleted twice |
| NatApp.NatApp.constructor | data-ipa-cfg-mgr/ipacm/src/IPACM_Conntrack_NATApp.cpp:36-80 | starts with a blank cache; the power-save list and the previous address are whatever memory held |
| NatApp.NatApp.AddTable | data-ipa-cfg-mgr/ipacm/src/IPACM_Conntrack_NATApp.cpp:126-186 | a table for the previous address gets every cached connection back, slot by slot; a refused one leaves none up |
| NatApp.NatApp.Reset | data-ipa-cfg-mgr/ipacm/src/IPACM_Conntrack_NATApp.cpp:188-199 | forgets the table, and clears the enabled bits as its comment says, or leaves them as the comparison it has there does |
| NatApp.NatApp.DeleteTable | data-ipa-cfg-mgr/ipacm/src/IPACM_Conntrack_NATApp.cpp:201-226 | only with a table up and for its own address; with Reset in either form |
| NatApp.NatApp.FindSlot | data-ipa-cfg-mgr/ipacm/src/IPACM_Conntrack_NATApp.cpp:229-252 | the first slot with the tuple, from where the search begins |
| NatApp.NatApp.AddEntry | data-ipa-cfg-mgr/ipacm/src/IPACM_Conntrack_NATApp.cpp:299-405 | first-fit, with all the refusals of the source and its return codes |
| NatApp.NatApp.CacheEntry | data-ipa-cfg-mgr/ipacm/src/IPACM_Conntrack_NATApp.cpp:845-901 | first-fit into the cache alone, from wherever the free slot's search begins |
| NatApp.NatApp.DeleteEntry | data-ipa-cfg-mgr/ipacm/src/IPACM_Conntrack_NATApp.cpp:255-297 | clears the first slot with the tuple, and its rule |
| NatApp.NatApp.UpdatePwrSaveIf | data-ipa-cfg-mgr/ipacm/src/IPACM_Conntrack_NATApp.cpp:551-598 | lists the client once and takes its rules out of the table |
| NatApp.NatApp.ResetPwrSaveIf | data-ipa-cfg-mgr/ipacm/src/IPACM_Conntrack_NATApp.cpp:600-656 | unlists the client and puts its rules back |
| NatApp.NatApp.DelEntriesOnClntDiscon | data-ipa-cfg-mgr/ipacm/src/IPACM_Conntrack_NATApp.cpp:767-810 | unlists the client and takes its rules out |
| NatApp.NatApp.DelEntriesOnSTAClntDiscon | data-ipa-cfg-mgr/ipacm/src/IPACM_Conntrack_NATApp.cpp:812-843 | clears the connections to the station |
| NatEvents.BounceRestoresAll | data-ipa-cfg-mgr/ipacm/src/IPACM_Conntrack_NATApp.cpp:126-226 | with Reset in either form, DeleteTable then AddTable for the same address keeps every connection and enables all, if the table takes the rules |
| NatEvents.ResetAsWritten | data-ipa-cfg-mgr/ipacm/src/IPACM_Conntrack_NATApp.cpp:188-199 | with Reset as written, a next table that comes at once matches the cache if and only if it is for the same address or nothing was enabled |
| NatEvents.AddTableIsInStep | data-ipa-cfg-mgr/ipacm/src/IPACM_Conntrack_NATApp.cpp:126-186 | whatever was enabled before, and whatever Reset did, a table that is added matches the cache if and only if it is for the previous address or nothing is enabled |
| NatEvents.PowerSaveAndRecover | data-ipa-cfg-mgr/ipacm/src/IPACM_Conntrack_NATApp.cpp:551-656 | power save and recovery enables all of the client's slots and touches no other |
| NatEvents.RecoveryKeepsExactly | data-ipa-cfg-mgr/ipacm/src/IPACM_Conntrack_NATApp.cpp:600-656 | recovery keeps all of the client's connections if and only if a table is up that takes the rules of those not enabled; the others are lost |
| NatEvents.AddTableKeepsInv | data-ipa-cfg-mgr/ipacm/src/IPACM_Conntrack_NATApp.cpp:126-186 | adding a table, granted or not, leaves cache and table in step if and only if nothing was enabled or it is granted for the previous address |
| NatEvents.DeleteEntryKeepsInv | data-ipa-cfg-mgr/ipacm/src/IPACM_Conntrack_NATApp.cpp:255-297 | deletion keeps cache and table in step |
| NatEvents.DeleteEntryCounts | data-ipa-cfg-mgr/ipacm/src/IPACM_Conntrack_NATApp.cpp:255-297 | deletion keeps the counter right unless the tuple is all zeros and a slot is free; then it is one too low |
| NatEvents.DeleteUndoesAdd | data-ipa-cfg-mgr/ipacm/src/IPACM_Conntrack_NATApp.cpp:255-405 | a connection added and deleted leaves no trace in cache, counter or table |
| NatEffects.DeleteEntryForgets | data-ipa-cfg-mgr/ipacm/src/IPACM_Conntrack_NATApp.cpp:255-297 | deleting a connection blanks its slot, wherever it is, counts it out and takes its rule, if any, out of the table; a tuple in no slot changes nothing, an all-zero one only the counter, if a slot is free |
| NatEvents.AddEntryCaches | data-ipa-cfg-mgr/ipacm/src/IPACM_Conntrack_NATApp.cpp:299-405 | exactly when an entry is cached: complete, new, no ALG port, room, and its rule taken or a client in power save; it goes to the first free slot, and the table has its rule exactly if nobody saves power |
| NatEvents.CacheEntryCaches | data-ipa-cfg-mgr/ipacm/src/IPACM_Conntrack_NATApp.cpp:845-901 | exactly when an entry is cached without the table: complete, new, and a free slot from where the search begins, of which it takes the first |
| NatEvents.FullExactlyWhenCounted | data-ipa-cfg-mgr/ipacm/src/IPACM_Conntrack_NATApp.cpp:332-346 | there is no free slot if and only if the counter is the number of slots |
| NatEvents.DisconnectKeepsConnections | data-ipa-cfg-mgr/ipacm/src/IPACM_Conntrack_NATApp.cpp:767-810 | the client's connections stay cached and none of its rules is left |
| NatEvents.StationDisconnectForgets | data-ipa-cfg-mgr/ipacm/src/IPACM_Conntrack_NATApp.cpp:812-843 | connections to the station are gone from cache and table, and no others |
| NatEffects.TablesComeAndGo | data-ipa-cfg-mgr/ipacm/src/IPACM_Conntrack_NATApp.cpp:126-226 | what each event does to the table handle, the public and the previous address: only a granted table and a deletion for its own address change them; what a table for another address and a deletion leave |
| NatEffects.ListedWhileSaving | data-ipa-cfg-mgr/ipacm/src/IPACM_Conntrack_NATApp.cpp:551-810 | how each event changes the power-save list: a client enters it at the first free place and once, and its first entry goes when it recovers or disconnects |
| NatRuns.StepKeepsInv | data-ipa-cfg-mgr/ipacm/src/IPACM_Conntrack_NATApp.cpp:126-843 | with Reset as commented, exactly a table added while something is enabled, refused or not for the previous address, breaks that all is disabled while no table is up |
| NatRuns.RunKeepsInv | data-ipa-cfg-mgr/ipacm/src/IPACM_Conntrack_NATApp.cpp:126-843 | with Reset as commented, all states of a run have that and match the table if and only if no event does so |
| NatRuns.WithoutTableNothingIsLeft | data-ipa-cfg-mgr/ipacm/src/IPACM_Conntrack_NATApp.cpp:188-226 | with Reset as commented, and no such event, nothing is enabled and the hardware has no rule while no table is up |
| NatRuns.StepKeepsInStep | data-ipa-cfg-mgr/ipacm/src/IPACM_Conntrack_NATApp.cpp:126-843 | with Reset in either form, an event leaves cache and table in step if and only if it does not grant a table for another than the previous address while slots are enabled |
| NatRuns.RunStaysInStep | data-ipa-cfg-mgr/ipacm/src/IPACM_Conntrack_NATApp.cpp:126-843 | with Reset in either form, all states of a run are in step if and only if no event does so, whatever is cached, deleted or refused in between |
| NatRuns.TableHasTheEnabledSlots | data-ipa-cfg-mgr/ipacm/src/IPACM_Conntrack_NATApp.cpp:126-843 | with Reset in either form, till then a table that is up has exactly the rules of the enabled slots under distinct handles |
| NatRuns.SlotsHoldConnections | data-ipa-cfg-mgr/ipacm/src/IPACM_Conntrack_NATApp.cpp:229-405 | in all runs, with either form of Reset, tuples are all zero or all nonzero and none is held twice; the counter is the number of occupied slots less the deletions that took a free slot |
| NatRuns.MissedWanDownLosesRules | data-ipa-cfg-mgr/ipacm/src/IPACM_Conntrack_NATApp.cpp:201-210 | a run in which a deletion for another address leaves a table up, and the next table lacks the rules of enabled slots |
| NatRuns.NewAddressLosesRules | data-ipa-cfg-mgr/ipacm/src/IPACM_Conntrack_NATApp.cpp:188-226 | a run of four events in which, with Reset as written, a WAN that comes back under another address leaves an enabled slot without its rule |
| NatPowerSave.EventLetsSaversRest | data-ipa-cfg-mgr/ipacm/src/IPACM_Conntrack_NATApp.cpp:126-186 | exactly when an event leaves no connection of a client in power save enabled: only restoring, and a recovery of one listed twice, can |
| NatPowerSave.BounceWakesASaver | data-ipa-cfg-mgr/ipacm/src/IPACM_Conntrack_NATApp.cpp:147-177 | a run in which a WAN bounce enables the connection of a client in power save |
| LinkedList.LinkedList.Add | gps/utils/linked_list.c:112-157 | prepends, with head, tail and neighbours consistent |
| LinkedList.LinkedList.Remove | gps/utils/linked_list.c:164-206 | takes the last; an empty list is an error |
| LinkedList.LinkedList.Empty | gps/utils/linked_list.c:213-225 | whether there is no element |
| LinkedList.LinkedList.Flush | gps/utils/linked_list.c:232-262 | empties the list and deallocates, head first, what came with a function for that |
| LinkedList.LinkedList.Unlink | gps/utils/linked_list.c:304-326 | takes out exactly the given element, be it head, tail, inner or only one |
| LinkedList.LinkedList.Search | gps/utils/linked_list.c:269-343 | finds the first match, and leaves the caller's pointer alone for an empty list; removal takes out exactly that element, and its data is deallocated unless copied out |
| MsgQ.MsgQ.Snd | gps/utils/msg_q.c:187-223 | prepends to the list, unless unblocked |
| MsgQ.MsgQ.Rcv | gps/utils/msg_q.c:230-266 | refused once unblocked; else waits on an empty list, or takes the last message and returns its data |
| MsgQ.MsgQ.RcvWakes | gps/utils/msg_q.c:255-262 | the wait loop and what follows it |
| MsgQ.MsgQ.FlushAll | gps/utils/msg_q.c:278-301 | empties the queue |
| MsgQ.MsgQ.UnblockAll | gps/utils/msg_q.c:308-338 | refuses senders and new receivers and wakes all waiters, once |
| MsgQueue.RunKeepsInv | gps/utils/msg_q.c:160-338 | every state of every run of senders and receivers satisfies the invariant |
| MsgQueue.AcceptedAreSent | gps/utils/msg_q.c:187-223 | accepted are exactly the messages sent before the queue was unblocked, with their data and as they are to be deallocated, in order |
| MsgQueue.MessagesLeaveInOrder | gps/utils/msg_q.c:187-301 | accepted messages leave in order and once, received or thrown away, never both; the thrown away are deallocated |
| MsgQueue.CallsGetTheOldest | gps/utils/msg_q.c:230-266 | what each receive and wakeup returns: the data of the oldest message neither received nor thrown away, which it takes, or that the queue is unblocked, or it waits |
| MsgQueue.HandedOutIsReceived | gps/utils/msg_q.c:230-266 | over a run, the data handed to callers, in order, is that of the received messages |
| MsgQueue.ReceivedIsPrefix | gps/utils/msg_q.c:230-301 | the received are, by index, the first of the accepted if and only if no receiver got a message after a flush of a queue with messages; then the received data begin the accepted |
| MsgQueue.ReceivedAfterAFlush | gps/utils/msg_q.c:278-301 | a run in which it fails: a message is flushed and the next one received |
| MsgQueue.NothingIsAcceptedAfterUnblock | gps/utils/msg_q.c:203-208 | from an unblock to the end of the queue nothing is accepted, and receivers that come get nothing |
| MsgQueue.NoReceiverIsLeftBehind | gps/utils/msg_q.c:214-262 | with a receiver waiting unwoken, there are no more messages than woken receivers |

## Left out

- TimerService: a container keeps its heap as the tree value that `LocHeap` is proved to represent, not as the linked heap object; sharing between the nodes of different containers is not modelled at this level.
- LanToLan: the client table and its lists are map and sequence values with addresses for pointers; that no pointer dangles is the statement that no list refers to an erased address.
- LanToLanRefusals.EventLeavesNoneDangling: graphs that are no longer sound, as after a walk that ended early at a client that stays, or with a link that was added twice; and what is done with a pointer that dangles.
- TimerService.TimerService.Start: failure to create a container, or to allocate, is not modelled.
- The C wrapper around timers, the two static containers' creation, and the destruction of poll thread and message task.
- Kernel calls, condition variables and mutexes beyond their effect on the state above; atomicity of each section under a mutex is assumed.
- Overflow of the global sensor handle counter and of connection counts: these are unbounded here.
- Opening, closing, activating and batching sub-modules, and the fixing of sensor fields: plumbing.
- Power save and recovery of LAN clients: recovery links peers whose links were kept, so link lists do not stay free of duplicates there.
- The IPv6 key of the client table, which is the low half of the address, and the caching of connections that arrive before their clients.
- The events that a newly active LAN client posts for its peers: new connections come as arbitrary events instead.
- MAC and address arguments of rules beyond the two ends, interfaces and MACs that a rule is for; a route's several handles are one.
- Temporary NAT entries, whose public address is kept in 16 bits and compared with 32, UDP time stamps, timeouts, and the configuration of ALG ports.
- NatApp.NatApp.CacheEntry: an uninitialised index outside the cache, with which the source would leave the array.
- Failure of hardware deletions, and of memory allocation, in the NAT cache.
- The error codes for null arguments of the list and the message queue, and the conversion between the two sets of codes.
- Filter, route and header ioctls, interface management, netlink decoding, camera, light and touch: plumbing or small finite cases.
