# A verified model of the FaaS frontend

The frontend is the API gateway of a serverless platform.  Most of it moves requests; this project
models the parts that decide, and proves what they promise.

* **Instance leases** (`LeaseModel`, `LeasePool`, `LeaseProtocol`, `LeaseSafety`, `LeaseTheorems`,
  `LeaseOrphans`, `LeaseStale`, `LeaseEffects`, `LeaseFates`, `LeaseProgress`, `FifoQueue`, `RetainBatches`, `RetainResponses`,
  `PoolKeys`).  Requests claim
  leases from a pool's idle list or acquire new ones, every lease has an expiry loop, a periodic
  pass renews leases with their schedulers, and functions are deleted meanwhile.  The protocol is a
  state machine in which one step is one lock-protected section and all parties interleave freely;
  its theorems hold in every reachable state of every run.  Which step destroys a lease, frees it or hands
  it out is said field by field and beside the steps, and then over runs.  The pool, the batches and the effect of a
  scheduler's answer are objects updated in place, proved against functions on values.
* **Waiting for an instance** (`InstanceWait`, `InstanceWaitTheorems`, `InstanceWaitAnswers`,
  `InstanceWaitRecords`, `InstanceWaitWriters`).  Waiters look through nested maps under one mutex and sleep on a channel; writers
  change the maps without that mutex and then close the channel.  No wakeup is lost, a waiter finds what is
  there, and while writers follow one another the maps are exact.
* **Proxy discovery and owner routing** (`Discovery`, `DiscoveryTheorems`, `DiscoveryAnswers`,
  `MemoryDiscovery`, `ProxyWatcher`, `OwnerResolver`).  A cache with revisions converges whatever the order of delivery,
  its round robin is complete and fair, and dropping expired suspects on lookup cannot be observed.
* **Session history** (`SessionHistory`, `SessionTurns`, `SessionReading`, `SessionPaging`).  One pass over turn
  records and events equals a summary of every turn by filters and last writers, which is then read off the log
  position by position; cursors and page tokens lose nothing and repeat nothing.
* **Scheduler registry** (`SchedulerRegistry`).  Two streams of events are joined into exactly the
  schedulers that the history asks for.
* **Invocation and pending requests** (`Invocation`, `PendingQueue`, `QueueManager`).  Allocations are
  paired, the time budget is kept, waiting requests are conserved, and it is known which of them can be
  forgotten.
* **Binary frames** (`FrameCodec`).  Building and parsing are inverse up to the width of the length field.

`Sequences` and `Text` hold what several of them share.

Where the code does not keep a property that its design suggests, the code is modelled as it is, a
lemma shows an input or a run on which the property fails, and another says for which inputs it holds:

* a pool can be cleared between a request's lookup and its count (`ClearingOrphansExactlyTheUncounted`,
  `UncountedRequestCanBeOrphaned`);
* a lease given up by its scheduler leaves its entry in `leaseIdToLeasePool`, for good unless a retain
  pass has it in hand or somebody still publishes it (`DecreaseStrandsTheEntryExactly`,
  `GivenUpLeaseCanStayIndexed`), and a removal by ID leaves its entry in the
  queue's record (`FifoQueues.FifoQueue.DelById`);
* a lease whose ring is switched is retained under a key that names another pool or none
  (`RingSwitchChangesTheKey`), and the answer to it is then ignored (`FateOfALease`);
* a route-only record wakes no waiter (`HintWakesNobody`, `HintCanBeSleptThrough`), and overlapping
  writers can fill a queue that is no longer linked (`AddPublishesExactlyIfLinked`,
  `OverlapCanUnlinkTheQueueInHand`);
* an instance whose resource key cannot be read leaves the function map that was made for it, empty, exactly
  if the function had no queue (`LeavesEmptyExactlyIfSloppy`, `EmptyMapCanBeLeft`);
* when its 64-bit cursor jumps, the round robin can pass over an endpoint: it is complete exactly if the
  cursor does not wrap within the call or wraps at a multiple of the number of nodes
  (`GetNextIsComplete`, `JumpingCursorMissesANode`);
* a proxy registered under another name than its key survives the deletion of the key
  (`DeletionRemovesExactlyOwnNames`);
* a route whose transport does not match its capability can lead to a suspect address
  (`MismatchCanBeSuspect`);
* on an empty log appended events can change a turn that is not the last: finished turns are safe exactly
  if the log is not empty or all turns start at the same event (`FinishedTurnsStayExactly`,
  `AppendToEmptyLogCanChangeATurn`);
* the timeout of an attempt subtracts the whole elapsed time again in every attempt
  (`TimeoutIsWithinBudget`), and a request that cannot be converted keeps its allocation
  (`AllocationsArePaired`);
* a request that meets a full queue is answered and queued all the same, so it is answered twice
  (`EachIsAnsweredOnceButForOverflow`), and a timeout check stops at the first request that has not
  expired (`TimeoutCheckIsComplete`, `ExpiredRequestCanSurvive`);
* a request that finds no queue can go into its new queue after that queue was unlinked and its timeout
  loop has ended, and is then answered only if a cold start of the queue fails (`StrandsExactlyIfLate`,
  `StrandedIsAnsweredExactlyByAColdStart`, `RequestCanBeForgotten`);
* the code compares scheduler records by an update time that is always zero
  (`SchedulerRegistry.UpdateTime`, `SchedulerRegistry.AvoidedIsById`).

`dafny verify dfyconfig.toml` checks the whole project.

## Model

| member | source | states |
|---|---|---|
| LeasePools.InstanceLease.Claim | pkg/frontend/leaseadaptor/lease.go:69-80 | claims exactly an available lease, and is the value-level claim |
| LeasePools.InstanceLease.Free | pkg/frontend/leaseadaptor/lease.go:82-100 | an abnormal free destroys; a normal one makes the lease available and counts a timed request once |
| LeasePools.InstanceLease.Destroy | pkg/frontend/leaseadaptor/lease.go:102-106 | a destroyed lease is exited and can never be claimed |
| LeasePools.LeasePool.AddAcquired | pkg/frontend/leaseadaptor/lease_manager.go:973-1005 | an acquired lease is claimed and mapped unless its ID is taken; the idle list is untouched |
| LeasePools.LeasePool.RemoveLease | pkg/frontend/leaseadaptor/lease_manager.go:865-877 | the lease is destroyed and leaves leaseMap and idle list; no other object is written |
| LeasePools.LeasePool.ReleaseInstanceLease | pkg/frontend/leaseadaptor/lease_manager.go:1007-1023 | a reusable lease goes to the back of the idle list, any other is destroyed; the lists break exactly when a lease is released twice |
| LeasePools.LeasePool.TraverseIdleLeaseList | pkg/frontend/leaseadaptor/lease_manager.go:944-971 | returns the first claimable lease of the wanted signature and pops everything up to it; a foreign signature in front empties the list |
| LeasePools.DelById | pkg/common/faas_common/queue/fifoqueue.go:116-124 | removes exactly the given ID from an idle list of distinct IDs |
| LeaseModel.TraverseTakesFirstClaimable | pkg/frontend/leaseadaptor/lease_manager.go:944-971 | the value-level traversal claims the lease at the stop index, and nothing if there is none |
| LeaseModel.TraverseKeeps | pkg/frontend/leaseadaptor/lease_manager.go:944-971 | a traversal keeps the pool well formed and writes no lease but the one it claims |
| LeaseModel.PurgeKeeps | pkg/frontend/leaseadaptor/lease_manager.go:865-877 | removing leases keeps the pool well formed |
| LeaseModel.ReleaseKeeps | pkg/frontend/leaseadaptor/lease_manager.go:1007-1023 | releasing a lease that is not idle keeps the pool well formed |
| LeaseSafety.StepKeeps | pkg/frontend/leaseadaptor/lease_manager.go:97-1023 | every step of every party keeps the whole invariant: heap, directory, requests, exclusive use, tracking and guarding of leases |
| LeaseTheorems.RunKeeps | pkg/frontend/leaseadaptor/lease_manager.go:97-1023 | so does every run |
| LeaseTheorems.EveryReachableStateIsSafe | pkg/frontend/leaseadaptor/lease_manager.go:865-1023 | in every reachable state at most one request has a lease, a lease in use is unavailable and not idle, idle lists have no duplicates and only leases of their own leaseMap, globalLeaseList lies in leaseIdToLeasePool, and a listed lease is exited exactly if its pool dropped it |
| LeaseTheorems.ExpirySparesHeldLeases | pkg/frontend/leaseadaptor/lease_manager.go:879-942 | the expiry timer does nothing to a lease that a request holds |
| LeaseTheorems.ListedLeaseHasPool | pkg/frontend/leaseadaptor/lease_manager.go:247-294 | a globally listed lease has an entry in leaseIdToLeasePool and a pool behind it |
| LeaseTheorems.LiveLeaseIsTracked | pkg/frontend/leaseadaptor/lease_manager.go:879-923 | a live lease is listed or about to be, a reusable one has its expiry loop, and nothing but its holder or that loop keeps it unavailable |
| LeaseTheorems.RetainPassForgetsExits | pkg/frontend/leaseadaptor/lease_manager.go:485-580 | a lease that was exited at the snapshot of a retain pass is in neither index and in no leaseMap when the pass ends, whatever runs between the snapshot and the end and between two removals |
| LeaseTheorems.RequestLedger | pkg/frontend/leaseadaptor/lease_manager.go:247-294 | what a step of a request does to the requests, the counters, the two indexes, the registered pools and the expiry loops: it moves that request alone, carries the flag of a release unchanged and touches nothing else |
| LeaseEffects.StepDoes | pkg/frontend/leaseadaptor/lease_manager.go:485-1023 | for every step and every lease: it is destroyed exactly by an abnormal release or the release of one that cannot be reused, by its expiry loop, its scheduler or a retain pass; freed exactly by any other release, taken exactly as the first claimable one of the signature asked for or by its idle timer; written to only by its tick and its renewal; and idle lists change accordingly |
| LeaseEffects.RequestGetsTheFirst | pkg/frontend/leaseadaptor/lease_manager.go:944-978 | a request gets the first claimable lease of its signature and asks the scheduler exactly if there is none |
| LeaseEffects.IssuedLease | pkg/frontend/leaseadaptor/lease_manager.go:973-1005 | a lease that the scheduler issues is live, taken by its request, has the signature and scheduler asked for, and an expiry loop exactly if it can be reused |
| LeaseFates.StepLoops | pkg/frontend/leaseadaptor/lease_manager.go:879-942 | what every step does to every expiry loop and which pools it stops: a loop begins only with a reusable lease, is condemned only by its timer on an available lease or by a stop, and ends only by removing its lease |
| LeaseFates.ReleaseIsHonoured | pkg/frontend/leaseadaptor/lease_manager.go:1007-1023 | whatever runs between a caller's release and the pool's section, the flag given decides: the lease is destroyed and in no list, or the last of the idle list and available; every other lease and list stays |
| LeaseFates.OutOfUseForGood | pkg/frontend/leaseadaptor/lease.go:102-106 | a destroyed lease that nobody has is never handed out again in any continuation |
| LeaseFates.ExpiredLeaseIsGone | pkg/frontend/leaseadaptor/lease_manager.go:879-923 | an idle lease whose timer fires is nobody's in every run until its loop removes it, and then out of use |
| LeaseFates.HeldLeaseOutlivesItsLoop | pkg/frontend/leaseadaptor/lease_manager.go:879-923 | in every reachable state the expiry loop of a live lease that a request has can neither stop nor remove it while its pool runs |
| LeaseFates.DeletedFunctionLetsGo | pkg/frontend/leaseadaptor/lease_manager.go:97-115 | after the deletion of a function the loop of every lease in its pools can end at any later time |
| LeaseFates.PassSparesTheLiving | pkg/frontend/leaseadaptor/lease_manager.go:485-580 | a retain pass removes no lease that was unlisted, or alive and reusable, at its snapshot |
| LeaseFates.ServedCountsTheUses | pkg/frontend/leaseadaptor/lease.go:82-100 | over every run a live lease reports one served request for each release that put it back |
| LeaseProgress.RequestCanGoOn | pkg/frontend/leaseadaptor/lease_manager.go:247-294 | in every state that keeps the invariant a request, whatever it has reached, can by steps of its own be served and give its lease back, while no retain pass has the lock |
| LeaseProgress.PassCanEnd | pkg/frontend/leaseadaptor/lease_manager.go:569-580 | and a retain pass that has the lock can give it back |
| LeaseProgress.IdleLeaseCanExpire | pkg/frontend/leaseadaptor/lease_manager.go:879-923 | whenever a lease is free and its loop waits, the loop can end it |
| LeaseProgress.AnybodyCanBegin | pkg/frontend/leaseadaptor/lease_manager.go:247-334 | while no pass has the lock, a new request, the next pass and the deletion of the function can begin |
| LeaseProgress.RenewalIsHeard | pkg/frontend/leaseadaptor/lease_manager.go:598-647 | a renewal of a live lease under the key of its pool writes reacquire and scheduler as told, and nothing else of the lease |
| LeaseProgress.GivingUpIsHeard | pkg/frontend/leaseadaptor/lease_manager.go:648-664 | a lease that its scheduler gives up under the key of its pool is destroyed and in no leaseMap and no idle list |
| LeaseStale.StaleIndexEntryStays | pkg/frontend/leaseadaptor/lease_manager.go:485-580 | an entry of leaseIdToLeasePool whose lease is unlisted, dropped, published by nobody and in no pass's hand is kept by every run |
| LeaseStale.DecreaseStrandsTheEntryExactly | pkg/frontend/leaseadaptor/lease_manager.go:648-664 | when the scheduler gives a lease up, every continuation keeps its entry if and only if no retain pass has the lease in hand and nobody publishes it again before the passes end |
| LeaseStale.GivenUpLeaseCanStayIndexed | pkg/frontend/leaseadaptor/lease_manager.go:247-276 | a run from the empty state in which a lease is acquired, handed out and given up, and its entry stays for good |
| LeaseOrphans.ClearingOrphansExactlyTheUncounted | pkg/frontend/leaseadaptor/lease_manager.go:325-334 | clearing an empty pool orphans something if and only if a request has found the pool and is not yet counted |
| LeaseOrphans.CarefulRunHasNoOrphan | pkg/frontend/leaseadaptor/lease_manager.go:247-334 | runs that never do so keep the counters equal to the requests they count and orphan nothing |
| LeaseOrphans.EveryLiveLeaseIsReachable | pkg/frontend/leaseadaptor/lease_manager.go:598-700 | in such runs an answer to a retain batch can reach every live lease through leasePools |
| LeaseOrphans.UncountedRequestCanBeOrphaned | pkg/frontend/leaseadaptor/lease_manager.go:247-276 | a run in which a request acquires a lease in a pool that was cleared under it |
| FifoQueues.FifoQueue.PushBack | pkg/common/faas_common/queue/fifoqueue.go:97-104 | appends, and keeps record and list in step exactly if the ID is new and not empty |
| FifoQueues.FifoQueue.PopFront | pkg/common/faas_common/queue/fifoqueue.go:63-77 | takes the first element and keeps record and list in step |
| FifoQueues.FifoQueue.GetById | pkg/common/faas_common/queue/fifoqueue.go:107-113 | returns an element with the ID, the queued one exactly if the ID is queued, and nothing if the ID is not recorded |
| FifoQueues.FifoQueue.DelById | pkg/common/faas_common/queue/fifoqueue.go:116-124 | removes exactly the ID from the list, while the record goes on naming it |
| PoolKeys.KeyIsCanonical | pkg/frontend/leaseadaptor/lease_manager.go:191-245 | the key does not depend on the order in which the maps are visited |
| PoolKeys.KeyDeterminesThePool | pkg/frontend/leaseadaptor/lease_manager.go:218-245 | for fields free of the separators, two requests share a key exactly if they are of one function and agree on resources, labels, tags, session, session context where that is enabled, and ring |
| PoolKeys.ContextsDoNotShare | pkg/frontend/leaseadaptor/lease_manager.go:238-242 | requests that differ in the session context only share a key exactly if the contexts are equal or session contexts are off |
| PoolKeys.MapStrInjective | pkg/frontend/leaseadaptor/lease_manager.go:208-216 | rendered maps are equal exactly if the maps are, for keys without colon and values without comma |
| PoolKeys.SessionStrInjective | pkg/common/faas_common/types/lease.go:122-125 | the session string determines the session, whatever its ID contains |
| PoolKeys.RingSwitchChangesTheKey | pkg/frontend/leaseadaptor/lease_manager.go:454-471 | switching the ring of a lease changes its pool key exactly if the ring differs |
| PoolKeys.SeparatorsCanCollide | pkg/frontend/leaseadaptor/lease_manager.go:218-245 | with a separator in a field two different requests have the same key |
| Text.SortCanonical | pkg/frontend/leaseadaptor/lease_manager.go:191-206 | sorting two enumerations of one set of keys gives the same sequence |
| RetainBatches.BatchTable.AppendRetainInfo | pkg/frontend/leaseadaptor/lease_manager.go:535-558 | the lease goes into the scheduler's last batch, or into a new one if that holds the maximum |
| RetainBatches.BatchTable.AssembleRetainBatches | pkg/frontend/leaseadaptor/lease_manager.go:511-533 | for every scheduler the table holds exactly the batches of the chunks of its leases, in snapshot order, and for no other |
| RetainBatches.ChunksPartition | pkg/frontend/leaseadaptor/lease_manager.go:511-558 | the chunks partition a scheduler's leases in order; none holds more than the maximum and all but the last are full |
| RetainBatches.EachLeaseInOneBatch | pkg/frontend/leaseadaptor/lease_manager.go:511-558 | a snapshot lease with a resolved scheduler is in exactly one batch of that scheduler, and no other lease is |
| RetainBatches.BatchContents | pkg/frontend/leaseadaptor/lease_manager.go:535-567 | a batch holds exactly the infos of the leases of its chunk, the comma-join of their IDs and the address of their scheduler |
| RetainBatches.BatchesHoldAThousand | pkg/frontend/leaseadaptor/lease_manager.go:535-558 | if all leases have infos, every batch but the last holds 1000 leases and the last no more |
| RetainBatches.TargetIsJoin | pkg/frontend/leaseadaptor/lease_manager.go:560-567 | targetName is the comma-join of the batch's IDs exactly if there is one at most or the first is not empty |
| RetainResponses.FuncKeyLeasePools.ProcessBatchResponse | pkg/frontend/leaseadaptor/lease_manager.go:619-665 | the whole new state, whatever the order of Go's map iteration; the next interval is half of the one answered, or 200 milliseconds if that is below one |
| RetainResponses.FuncKeyLeasePools.ProcessErrBatchResponse | pkg/frontend/leaseadaptor/lease_manager.go:683-700 | exactly the batch's leases that are where the batch says are to be acquired anew |
| RetainResponses.FuncKeyLeasePools.WriteLeases | pkg/frontend/leaseadaptor/lease_manager.go:598-647 | the loops write to exactly the leases named, in any order |
| RetainResponses.FuncKeyLeasePools.DropLeases | pkg/frontend/leaseadaptor/lease_manager.go:648-664 | the loop removes exactly the leases named and found from leaseMap, idle list and global list |
| RetainResponses.FateOfALease | pkg/frontend/leaseadaptor/lease_manager.go:598-681 | succeeded: reacquire cleared; not found: reacquire set and scheduler cleared; non-owner: reacquire set and scheduler redirected; other failures: gone; everything else untouched |
| RetainResponses.FateInAFailedBatch | pkg/frontend/leaseadaptor/lease_manager.go:683-700 | after a batch that failed as a whole exactly its leases are to be acquired anew, and nothing else is different |
| RetainResponses.FateInTheGlobalList | pkg/frontend/leaseadaptor/lease_manager.go:648-664 | a lease leaves the global list exactly if it was given up and is where the batch says |
| RetainResponses.FateOfTheIdleList | pkg/frontend/leaseadaptor/lease_manager.go:648-664 | the idle list loses exactly the given-up leases and keeps its order |
| RetainResponses.NormalizeInterval | pkg/frontend/leaseadaptor/lease_manager.go:318-323 | an interval below a millisecond becomes 200 milliseconds, any other is kept |
| InstanceWait.StepKeeps | pkg/frontend/instancemanager/instance.go:100-169 | every step keeps: wherever a waited-for instance is, the waiter will still look there or its writer will still announce it |
| InstanceWaitTheorems.NoLostWakeup | pkg/frontend/instancemanager/instance.go:100-169 | in every reachable state, if a waiter sleeps on the open channel while its instance is in the maps (or evicting, for a forced invocation), some writer of that instance has yet to announce it |
| InstanceWaitTheorems.ScanCannotMiss | pkg/frontend/instancemanager/instance.go:230-249 | a waiter that looks cannot run past a present and announced instance |
| InstanceWaitAnswers.AnswersExactly | pkg/frontend/instancemanager/instance.go:100-130 | a step makes a waiter answer "found" exactly if it looks where its instance is (a queue, a route-only record or, forced, the evicting ones), without it exactly if its context ends, and otherwise leaves it waiting for the same instance in the same mode |
| InstanceWaitAnswers.AnswerIsJustified | pkg/frontend/instancemanager/instance.go:100-130 | over every run a waiter that answered "found" met its instance and one that answered without it was cancelled |
| InstanceWaitAnswers.SleeperCanGiveUp | pkg/frontend/instancemanager/instance.go:111-113 | a sleeping waiter can be cancelled and then answers without the instance |
| InstanceWaitAnswers.StepBringsNearer | pkg/frontend/instancemanager/instance.go:100-119 | while the instance is present and announced, every step of the waiter but a cancellation answers or leaves it less to do, and no other step touches it |
| InstanceWaitAnswers.PresentInstanceIsFound | pkg/frontend/instancemanager/instance.go:100-119 | in every run in which the instance stays present and announced, a waiter that is not cancelled has found it or can go on, and never goes to sleep |
| InstanceWaitAnswers.FindsItAlone | pkg/frontend/instancemanager/instance.go:100-119 | let run while nobody else has the mutex, it finds it |
| InstanceWaitAnswers.MutexIsNotLost | pkg/frontend/instancemanager/instance.go:100-119 | in every reachable state whoever has the update mutex can take a step |
| InstanceWaitRecords.LastRecordDecides | pkg/frontend/instancemanager/instance.go:141-162 | after every run the last record stored or dropped for an instance decides whether it is found among the evicting and the route-only ones |
| InstanceWaitWriters.WaiterKeepsToItsCall | pkg/frontend/instancemanager/instance.go:89-119 | whatever runs after the call of a waiter, it answers for the instance and the mode it was called with |
| InstanceWaitTheorems.MapsAreExact | pkg/frontend/instancemanager/instance.go:317-354 | while writers follow one another, the nested maps hold exactly what was added and not deleted since |
| InstanceWaitWriters.AdditionKeepsToItsCall | pkg/frontend/instancemanager/instance.go:317-332 | whatever runs after the call of an addition, what it writes is what it was called with |
| InstanceWaitWriters.DeletionKeepsToItsCall | pkg/frontend/instancemanager/instance.go:334-354 | and what a deletion erases |
| InstanceWaitWriters.AdditionRecords | pkg/frontend/instancemanager/instance.go:317-332 | an addition that is let run ends, and exactly its own record has become findable, if its resource key can be read |
| InstanceWaitWriters.DeletionErases | pkg/frontend/instancemanager/instance.go:334-354 | a deletion that is let run ends, and exactly its own record is no longer findable |
| InstanceWaitRecords.NothingEmptyIsLeft | pkg/frontend/instancemanager/instance.go:334-354 | while writers follow one another and no addition turns away from a map without queues, whenever none is at work every function in the map has a queue and every queue an instance |
| InstanceWaitRecords.LeavesEmptyExactlyIfSloppy | pkg/frontend/instancemanager/instance.go:423-431 | a step leaves something empty that nobody has in hand if and only if it is an addition whose resource key cannot be read and whose function map has no queue |
| InstanceWaitRecords.EmptyMapCanBeLeft | pkg/frontend/instancemanager/instance.go:423-431 | a run that leaves such a map |
| InstanceWaitTheorems.NobodySleepsOnARecord | pkg/frontend/instancemanager/instance.go:100-169 | and nobody sleeps on a recorded instance once it is announced |
| InstanceWaitTheorems.HintWakesNobody | pkg/frontend/instancemanager/instance.go:254-273 | storing a route-only record leaves every sleeping waiter asleep |
| InstanceWaitTheorems.HintCanBeSleptThrough | pkg/frontend/instancemanager/instance.go:254-273 | a run in which a waiter sleeps with nothing left to be announced although a route-only record for it exists |
| InstanceWaitTheorems.AddPublishesExactlyIfLinked | pkg/frontend/instancemanager/instance.go:423-478 | an addition makes its instance findable exactly if the queue it writes is still linked |
| InstanceWaitTheorems.TrimUnlinks | pkg/frontend/instancemanager/instance.go:445-470 | removing an empty queue unlinks it, whoever has it in hand |
| InstanceWaitTheorems.OverlapCanUnlinkTheQueueInHand | pkg/frontend/instancemanager/instance.go:423-470 | a run in which a deletion unlinks the queue that an addition is about to write |
| SessionHistory.ApplyEvent | pkg/frontend/sessioncontext/aggregate.go:56-90 | fails exactly for a relevant event whose data is no object; an input or output event appends its message field, if it has one, to its own list and nothing else does |
| SessionHistory.AggregateTurns | pkg/frontend/sessioncontext/aggregate.go:15-54 | the nested loops compute the recursive merge, errors included, for all inputs |
| SessionHistory.AggregationIsSummary | pkg/frontend/sessioncontext/aggregate.go:15-90 | on a contiguous log the pass succeeds exactly on legal histories, and every turn is then the summary of the events in its range: filtered messages, last writer's state, result and error |
| SessionTurns.TurnsReadTheLog | pkg/frontend/sessioncontext/aggregate.go:15-90 | every turn of an aggregated history, read off the log: inputs and outputs are the message fields of exactly its events of those kinds, in order; its last terminal event gives result and error, its last terminal event or input the state; ID, index, range and time are the record's |
| SessionTurns.FirstErrorIsReported | pkg/frontend/sessioncontext/aggregate.go:15-67 | the error of a history that does not aggregate is that of its first bad turn: its range, or its first event of another turn or without an object |
| SessionHistory.StartsOrdered | pkg/frontend/sessioncontext/aggregate.go:18-29 | in a legal history starts never decrease and none is beyond the next event |
| SessionHistory.EveryEventInOneTurn | pkg/frontend/sessioncontext/aggregate.go:30-47 | every event from the first start on is in exactly one turn and carries its ID |
| SessionHistory.EarlyEventsInNoTurn | pkg/frontend/sessioncontext/aggregate.go:34-36 | events before the first start are in no turn and are skipped |
| SessionHistory.AppendIsStable | pkg/frontend/sessioncontext/aggregate.go:15-90 | on a non-empty log, after more events and more turns, all turns but the last are unchanged and the last one's inputs and outputs are extended |
| SessionHistory.FinishedTurnsStayExactly | pkg/frontend/sessioncontext/aggregate.go:15-90 | for a history that aggregates, every extension that aggregates leaves all turns but the last unchanged if and only if the log is not empty or all turns start at the same event |
| SessionHistory.AppendToEmptyLogCanChangeATurn | pkg/frontend/sessioncontext/aggregate.go:15-54 | an example: two turns that start at events 1 and 2, and a first event that completes the first |
| SessionReading.ReadSequential | pkg/frontend/sessioncontext/store.go:40-66 | the stored values of the whole run of records from 1 on, or the failure of the first bad one |
| SessionReading.FailsAt | pkg/frontend/sessioncontext/store.go:40-66 | that failure is the one of the first record that is not good |
| SessionReading.ReadHistory | pkg/frontend/sessioncontext/service.go:276-307 | succeeds exactly if every record of both runs is valid, and then returns exactly the stored records and the stored log |
| SessionReading.StoredHistory | pkg/frontend/sessioncontext/service.go:290-307 | a stored history that is readable is a contiguous log with positive starts and turns numbered by their place |
| SessionReading.ReadableExactly | pkg/frontend/sessioncontext/service.go:290-307 | a history can be read exactly if every record of both runs fits its key and session and has its fields |
| SessionReading.MatchingIsTheFilter | pkg/frontend/sessioncontext/service.go:251-262 | filtering keeps exactly the events that have the turn, source and kind asked for, in order |
| SessionReading.ListEvents | pkg/frontend/sessioncontext/service.go:231-274 | the whole answer: bad queries are refused, a session without events and turns is not found, otherwise the scan from the cursor |
| SessionReading.ScanIsAPage | pkg/frontend/sessioncontext/service.go:238-264 | a page holds exactly the matching events up to its cursor and is full unless the run ends there |
| SessionReading.CursorCoversTheRun | pkg/frontend/sessioncontext/service.go:231-274 | following the cursor of ListEvents yields exactly the matching events of the run; it fails exactly for an invalid query, a session not found or unreadable, or a bad record of the run, and with that failure |
| SessionPaging.TokenServesItsQuery | pkg/frontend/sessioncontext/service.go:330-356 | a token decodes to its offset for the query it was made for and for no other, for fields without NUL |
| SessionPaging.TokensCoverTheItems | pkg/frontend/sessioncontext/service.go:180-210 | following tokens yields all items from the offset on, in pages that are full but for the last |
| SessionPaging.ZeroLimitMakesNoProgress | pkg/frontend/sessioncontext/service.go:36-63 | with a limit of zero the next token is the one just used |
| SessionPaging.ReverseTurns | pkg/frontend/sessioncontext/service.go:358-362 | reverses the array in place |
| SessionPaging.ListTurns | pkg/frontend/sessioncontext/service.go:180-210 | the whole answer: the first read failure, not found without records, corrupted for a history that does not aggregate, otherwise a page of the summaries of the stored turns, newest first |
| SessionPaging.TurnPagesCoverTheHistory | pkg/frontend/sessioncontext/service.go:180-210 | following the tokens of ListTurns over an unchanged store yields exactly the summaries of the stored turns, newest first, in pages full but for the last; it fails exactly if the store is unreadable, empty or does not aggregate |
| SessionPaging.ListedTurnsReadTheLog | pkg/frontend/sessioncontext/service.go:180-210 | the turns listed read off the stored log, the newest first |
| SessionPaging.ListSessions | pkg/frontend/sessioncontext/service.go:36-63 | a page of the entries sorted by one fixed function |
| SessionPaging.SessionPagesCoverTheRegistry | pkg/frontend/sessioncontext/service.go:36-63 | over an unchanged registry, whatever its entries, following the tokens yields exactly the sorted list: every entry once, newest first and then by ID, in pages full but for the last |
| SessionPaging.NewestComeFirst | pkg/frontend/sessioncontext/service.go:41-46 | of two listed sessions the later one is not newer, and of the same time the later one has not the smaller ID |
| Text.LessIsLexicographic | pkg/frontend/sessioncontext/service.go:41-46 | texts are compared by their first difference, a proper prefix first |
| SessionPaging.SomeFunctionSorts | pkg/frontend/sessioncontext/service.go:41-46 | sorting by insertion is such a function |
| SessionPaging.StoredOrderIsIrrelevant | pkg/frontend/sessioncontext/service.go:41-46 | with distinct creation time and ID the list does not depend on the order in which the registry stores its entries |
| SessionPaging.SessionOrderIsUnique | pkg/frontend/sessioncontext/service.go:41-46 | sessions with distinct creation time and ID have one order |
| Discovery.UpsertWellFormed | pkg/frontend/proxyrouting/discovery.go:262-278 | an upsert keeps the order a duplicate-free enumeration of the cached healthy nodes |
| Discovery.DeleteWellFormed | pkg/frontend/proxyrouting/discovery.go:286-316 | so does a deletion |
| Discovery.ReplaceWellFormed | pkg/frontend/proxyrouting/discovery.go:234-259 | and a snapshot establishes it |
| Discovery.SnapshotHoldsTheLast | pkg/frontend/proxyrouting/discovery.go:234-259 | a snapshot caches for a node the last of its healthy endpoints and its revision |
| Discovery.SnapshotHoldsNothingElse | pkg/frontend/proxyrouting/discovery.go:234-259 | and nothing for a node without one |
| Discovery.DeletionForgets | pkg/frontend/proxyrouting/discovery.go:286-316 | a deletion that is not stale removes the node, its place and the suspicion of its addresses, moves the cursor back into range and touches no other node |
| DiscoveryTheorems.NewestDecides | pkg/frontend/proxyrouting/discovery.go:262-316 | after any sequence of changes the newest change of a node decides whether and what is cached, unless the cache was ahead of it |
| DiscoveryTheorems.DeliveryOrderIsIrrelevant | pkg/frontend/proxyrouting/discovery.go:262-316 | every order of the same proper changes leaves every node the same, from any cache, if the changes of a node have distinct revisions |
| DiscoveryTheorems.GetNextIsSound | pkg/frontend/proxyrouting/discovery.go:319-343 | what GetNext returns is cached, offers the capability, is not excluded, not suspect and routable |
| DiscoveryTheorems.GetNextIsComplete | pkg/frontend/proxyrouting/discovery.go:319-343 | unless the cursor jumps within the call, it fails exactly if no endpoint is eligible |
| DiscoveryTheorems.GetNextIsFair | pkg/frontend/proxyrouting/discovery.go:319-343 | with k eligible endpoints any k successive calls, at whatever times, return each exactly once |
| DiscoveryTheorems.JumpingCursorMissesANode | pkg/frontend/proxyrouting/discovery.go:330-332 | for every order and cursor for which the cursor jumps there is a cache whose only eligible endpoint is passed over |
| DiscoveryTheorems.PruningIsInvisible | pkg/frontend/proxyrouting/discovery.go:319-393 | under a clock that does not go back, no sequence of operations tells the cache from one that never prunes on lookup |
| DiscoveryAnswers.GetNextAnswers | pkg/frontend/proxyrouting/discovery.go:319-343 | what GetNext returns is cached, has the capability and an address that is routable, unmarked and not excluded; while the cursor is smooth it fails only if there is no such endpoint |
| DiscoveryAnswers.GetByNodeAnswers | pkg/frontend/proxyrouting/discovery.go:346-361 | GetByNode returns the cached endpoint exactly if it has the capability and its address is routable and unmarked, and changes nothing but marks that have run out |
| DiscoveryAnswers.MarkLasts | pkg/frontend/proxyrouting/discovery.go:364-371 | a mark makes exactly its own address suspect, exactly before the time it is given, and changes nothing else |
| DiscoveryAnswers.MarkedIsAvoided | pkg/frontend/proxyrouting/discovery.go:319-371 | until then no lookup returns an endpoint by that address |
| DiscoveryAnswers.MarkRunsOut | pkg/frontend/proxyrouting/discovery.go:319-371 | from then on the mark makes no difference to a lookup |
| DiscoveryAnswers.MarkOutlivesLookups | pkg/frontend/proxyrouting/discovery.go:319-393 | whatever is looked up, put in and marked elsewhere meanwhile, the address is not returned before the mark runs out |
| DiscoveryAnswers.UpsertLetsIn | pkg/frontend/proxyrouting/discovery.go:262-284 | an endpoint is let in exactly if it has a name, an address, a capability and good health in any case of letters and its revision is not behind; a new node goes to the end of the order |
| DiscoveryAnswers.DeleteTakesOut | pkg/frontend/proxyrouting/discovery.go:286-316 | a deletion that is not behind takes the node out and leaves the others in their places |
| DiscoveryAnswers.DeleteLeavesATombstone | pkg/frontend/proxyrouting/discovery.go:286-300 | the deletion of a node that is not cached records its revision |
| DiscoveryAnswers.SnapshotKeepsMarks | pkg/frontend/proxyrouting/discovery.go:253-258 | a snapshot keeps a mark exactly if one of its healthy endpoints has that address |
| DiscoveryAnswers.SnapshotOrder | pkg/frontend/proxyrouting/discovery.go:234-252 | after a snapshot the cursor is at the start and nodes are in the order of their first appearance |
| ProxyRouting.MemoryDiscovery.ReplaceSnapshot | pkg/frontend/proxyrouting/discovery.go:234-259 | installs the last healthy endpoint of every node, in order of first appearance, and keeps only suspects that are still addresses |
| ProxyRouting.MemoryDiscovery.Upsert | pkg/frontend/proxyrouting/discovery.go:262-278 | the value-level upsert, and the cache stays well formed |
| ProxyRouting.MemoryDiscovery.Delete | pkg/frontend/proxyrouting/discovery.go:286-316 | the value-level deletion, and the cache stays well formed |
| ProxyRouting.MemoryDiscovery.GetNext | pkg/frontend/proxyrouting/discovery.go:319-343 | the loop does what the value-level round robin does |
| ProxyRouting.MemoryDiscovery.GetByNode | pkg/frontend/proxyrouting/discovery.go:346-361 | the cached endpoint if it offers the capability and its address is routable and not suspect |
| ProxyRouting.MemoryDiscovery.MarkSuspectAddress | pkg/frontend/proxyrouting/discovery.go:364-371 | a non-empty address is suspect exactly until now plus the given time, and no other address changes |
| ProxyRouting.MemoryDiscovery.IsSuspectLocked | pkg/frontend/proxyrouting/discovery.go:383-393 | suspect exactly before the marked time, after which the mark is dropped |
| ProxyWatcher.NodeOfKey | pkg/frontend/watcher/frontend_proxy_endpoint.go:108-117 | the node is what follows the prefix, if that is one path element |
| ProxyWatcher.Parse | pkg/frontend/watcher/frontend_proxy_endpoint.go:79-106 | accepts exactly the acceptable registrations, and the endpoint it returns is healthy, named, addressed and offers exactly the non-empty capabilities |
| ProxyWatcher.ParsedIsHealthy | pkg/frontend/watcher/frontend_proxy_endpoint.go:79-106 | every accepted registration meets the health test that the cache applies |
| ProxyWatcher.Handle | pkg/frontend/watcher/frontend_proxy_endpoint.go:57-77 | an event applies its change to the cache |
| ProxyWatcher.WatchConverges | pkg/frontend/watcher/frontend_proxy_endpoint.go:57-77 | whatever the order of delivery, the newest event of a key decides, for registrations that name their own key or none |
| ProxyWatcher.WatchCachesTheNewest | pkg/frontend/watcher/frontend_proxy_endpoint.go:57-106 | the cache ends with the newest registration of the key, field by field and at its revision, exactly if that has an address, good health and a named capability, and with nothing otherwise |
| ProxyWatcher.DeletionRemovesExactlyOwnNames | pkg/frontend/watcher/frontend_proxy_endpoint.go:57-88 | deleting a key removes what its registration cached exactly if the two names agree |
| OwnerResolver.Wait | pkg/frontend/proxyrouting/owner_resolver.go:62-100 | the first poll that can be routed decides, with the latest record of the instance |
| OwnerResolver.RouteIsTrustworthy | pkg/frontend/proxyrouting/owner_resolver.go:103-137 | for matching capability and transport a route names the instance's trimmed proxy ID, an endpoint cached under it with the capability, and an address routable and not suspect |
| OwnerResolver.RouteExactly | pkg/frontend/proxyrouting/owner_resolver.go:103-137 | for matching capability and transport there is a route exactly if the capability is named, the trimmed proxy ID is no address and names a cached proxy that offers it by a routable and unmarked address, which is the route's |
| OwnerResolver.LatestIsTheLast | pkg/frontend/proxyrouting/owner_resolver.go:90-98 | the record in use is the one found last |
| Text.TrimCutsBlanks | pkg/frontend/proxyrouting/owner_resolver.go:112-115 | trimming takes white space from both ends and nothing else |
| OwnerResolver.WaitForRoute | pkg/frontend/proxyrouting/owner_resolver.go:62-100 | so does every route the polling loop returns |
| OwnerResolver.MismatchCanBeSuspect | pkg/frontend/proxyrouting/owner_resolver.go:118-137 | for every other supported pair there is a route to a suspect address |
| SchedulerRegistry.ProxyManager.Add | pkg/frontend/schedulerproxy/proxy.go:81-103 | registers the scheduler and its exclusivity, and balances it unless it is exclusive; what was balanced stays so |
| SchedulerRegistry.ProxyManager.Remove | pkg/frontend/schedulerproxy/proxy.go:125-146 | unregisters the scheduler with all its exclusivity and balancer entries |
| SchedulerRegistry.ProxyManager.GetWithoutUnexpected | pkg/frontend/schedulerproxy/proxy.go:185-298 | a registered scheduler with none of the avoided instance IDs, from the load balancer if none is to be avoided; none exactly if there is no candidate or the one picked is blank or unregistered |
| SchedulerRegistry.EventManager.ProcessUpdate | pkg/frontend/schedulerproxy/schedulereventhandler.go:129-179 | keeps the registry exact with respect to the history of events |
| SchedulerRegistry.EventManager.ProcessDelete | pkg/frontend/schedulerproxy/schedulereventhandler.go:76-126 | keeps the registry exact with respect to the history of events |
| SchedulerRegistry.RegistryIsExact | pkg/frontend/schedulerproxy/schedulereventhandler.go:76-179 | a name is routable exactly if its last info is not deleted and, in module mode, some lease of it is live; it carries that info; balancer and exclusivity entries name registered schedulers only |
| SchedulerRegistry.UpdateTime | pkg/frontend/schedulerproxy/schedulereventhandler.go:151-160 | the update time of a scheduler is always the zero time |
| SchedulerRegistry.AvoidedIsById | pkg/frontend/schedulerproxy/proxy.go:271-278 | hence a scheduler is avoided exactly by its instance ID |
| Invocation.KernelRequestHandler.MakeReq | pkg/frontend/invocation/function_invoke_for_kernel.go:193-274 | acquires, downgrades and chooses as the value-level round does; the target is the chosen instance without a lease, the allocated one with it and none otherwise |
| Invocation.KernelRequestHandler.HandleInvokeError | pkg/frontend/invocation/function_invoke_for_kernel.go:399-439 | the verdict and the new state for every reply |
| Invocation.KernelRequestHandler.Invoke | pkg/frontend/invocation/function_invoke_for_kernel.go:343-397 | the loop runs the rounds until one does not retry |
| Invocation.AllocationsArePaired | pkg/frontend/invocation/function_invoke_for_kernel.go:343-397 | in every run an allocation that is sent is released right after the reply, once, by the ring it came from, as abnormal exactly for a fatal code; a run ends with one in hand exactly if its last acquisition was not sent |
| Invocation.RetriesExactly | pkg/frontend/invocation/function_invoke_for_kernel.go:399-439 | another round follows exactly if the request was sent and its reply is one of the eleven retry codes, an unavailable scheduler or a traffic limit of a known legacy scheduler |
| Invocation.RoundSends | pkg/frontend/invocation/function_invoke_for_kernel.go:193-439 | a round sends exactly under a condition on what it meets, once: to the chosen instance if it goes without a lease, to the allocated one with it, to none otherwise; it excludes exactly the instance sent to if the reply blames it, and is downgraded exactly by going without a lease or by the reply |
| Invocation.RoundAcquires | pkg/frontend/invocation/function_invoke_for_kernel.go:233-257 | a round acquires exactly the allocation it works with, from the ring it was given |
| Invocation.RoundEnds | pkg/frontend/invocation/function_invoke_for_kernel.go:343-439 | exactly when and why a run ends |
| Invocation.EverySendHasItsTarget | pkg/frontend/invocation/function_invoke_for_kernel.go:343-397 | in every run each request sent has the target, allocation and timeout of its round |
| Invocation.ExcludedAreTheBlamed | pkg/frontend/invocation/function_invoke_for_kernel.go:399-439 | after every run the excluded instances are the former ones and those sent to and blamed, in order |
| Invocation.DowngradeIsFinal | pkg/frontend/invocation/function_invoke_for_kernel.go:233-274 | once downgraded no lease is acquired again |
| Invocation.TimeoutIsWithinBudget | pkg/frontend/invocation/function_invoke_for_kernel.go:103-107 | every timeout sent is positive and at most the budget less the whole elapsed seconds, with equality exactly if the earlier attempts began within the first second |
| PendingQueue.ReqQueue.AddPendingRequest | pkg/frontend/wisecloud/queue.go:281-302 | a request is queued, and also answered if it meets a full queue |
| PendingQueue.ReqQueue.HandleInstanceUpdate | pkg/frontend/wisecloud/queue.go:304-331 | serves from the front, one request for each instance found |
| PendingQueue.ReqQueue.ClearQueueWithError | pkg/frontend/wisecloud/queue.go:333-347 | answers everybody, in order |
| PendingQueue.ReqQueue.CheckQueueTimeout | pkg/frontend/wisecloud/queue.go:370-391 | answers the expired requests in front, in order |
| PendingQueue.ReqQueue.Destroy | pkg/frontend/wisecloud/queue.go:270-279 | stops the queue and leaves its requests alone |
| PendingQueue.EachIsAnsweredOnceButForOverflow | pkg/frontend/wisecloud/queue.go:281-391 | in every state a request has one answer if it has left the queue and one more exactly if it met a full queue |
| PendingQueue.AnswersAreFifo | pkg/frontend/wisecloud/queue.go:281-391 | if no request met a full queue, the answers are those of the first accepted requests, one each and in order, and the rest is queued |
| PendingQueue.TimeoutCheckIsComplete | pkg/frontend/wisecloud/queue.go:370-391 | a check leaves no expired request exactly if the expired ones were in front |
| PendingQueue.ExpiresByAge | pkg/frontend/wisecloud/queue.go:379-382 | a request expires with the first whole millisecond beyond its timeout, by its age alone |
| PendingQueue.ExpiredSurvivesBehind | pkg/frontend/wisecloud/queue.go:370-391 | an expired request behind one that has not expired survives the check |
| PendingQueue.ExpiredRequestCanSurvive | pkg/frontend/wisecloud/queue.go:370-391 | a queue in order of creation in which one does |
| PendingQueue.CreationOrderSuffices | pkg/frontend/wisecloud/queue.go:370-391 | they are if timeouts are equal and requests queued in order of creation |
| QueueManager.StepKeepsLively | pkg/frontend/wisecloud/queue.go:116-238 | every step keeps linked queues running and loops alive until their queue is destroyed |
| QueueManager.StrandsExactlyIfLate | pkg/frontend/wisecloud/queue.go:136-160 | a step leaves a request in a queue without a timeout loop if and only if it adds it, late, to a queue whose loop has ended |
| QueueManager.EveryRequestIsLookedAfter | pkg/frontend/wisecloud/queue.go:116-368 | in runs without a late addition every waiting request has a live timeout loop |
| QueueManager.StepOnItems | pkg/frontend/wisecloud/queue.go:164-391 | a step appends to a queue or answers from its front, as many as it says |
| QueueManager.StepOnColdStarts | pkg/frontend/wisecloud/queue.go:281-302 | a cold start is asked for exactly if a request enters an empty queue |
| QueueManager.StepOnLife | pkg/frontend/wisecloud/queue.go:240-279 | a queue runs until it is destroyed and loops until its loop has ended |
| QueueManager.EveryQueueIsFifo | pkg/frontend/wisecloud/queue.go:116-391 | in every run a queue holds what was in it and what came, in order, less those answered from the front |
| QueueManager.HeldForItsKey | pkg/frontend/wisecloud/queue.go:136-160 | a request that finds or makes its queue is held for the queue its key then names |
| QueueManager.StrandedIsAnsweredExactlyByAColdStart | pkg/frontend/wisecloud/queue.go:281-302 | a stranded request can still be answered if and only if a cold start of its queue is under way |
| QueueManager.AnswerableExactly | pkg/frontend/wisecloud/queue.go:281-391 | a waiting request can still be answered if and only if its queue has a timeout loop or a cold start under way |
| QueueManager.InstanceCanServe | pkg/frontend/wisecloud/queue.go:164-203 | an instance update can serve any number of requests from the front of a linked queue |
| QueueManager.ForgottenForGood | pkg/frontend/wisecloud/queue.go:164-368 | a request stranded in an unlinked queue without a cold start under way is never answered in any continuation |
| QueueManager.RequestCanBeForgotten | pkg/frontend/wisecloud/queue.go:136-160 | a run that leads there |
| FrameCodec.ParseBinaryRequest | pkg/frontend/posixws/message.go:176-194 | accepts exactly frames of the known version that are as long as their length field says |
| FrameCodec.BuildBinaryResponse | pkg/frontend/posixws/message.go:197-206 | the buffer holds the frame |
| FrameCodec.ParseOfFrame | pkg/frontend/posixws/message.go:176-206 | what any built frame parses to, also beyond the width of the length field |
| FrameCodec.WireFormat | pkg/frontend/posixws/message.go:197-206 | the bytes of a frame: version 1, status, length of the ID with the high byte first, ID, payload |
| FrameCodec.RoundTrip | pkg/frontend/posixws/message.go:176-206 | status, ID and payload come back exactly for IDs of up to 65535 bytes |
| FrameCodec.FrameOfParsed | pkg/frontend/posixws/message.go:176-206 | building what was parsed gives the frame back |
| FrameCodec.ResponseToParsed | pkg/frontend/posixws/message.go:176-206 | the response to any accepted request parses back with its ID |
| FrameCodec.ErrorPayloadRoundTrip | pkg/frontend/posixws/message.go:209-215 | the message comes back, and the code exactly if it fits 32 bits |
| FrameCodec.ErrorPayloadFormat | pkg/frontend/posixws/message.go:209-215 | the code in four bytes, the highest first, and the message |

## Left out

- Lock-protected sections are single steps; the Go memory model and the locks themselves are not modelled.
- Time: timers, tickers and TTLs fire at any moment or are arguments; how long a lease stays idle before it expires is not stated.
- The scheduler's answers, HTTP, gRPC, WebSocket, SSH and etcd traffic: each is an oracle or an argument; that a scheduler never issues a lease ID twice is an assumption of the lease protocol.
- The manager above the lease pools across functions: its part in the release and the deletion of one function is modelled, that a deleted function may be registered anew is not; nor are the report records of a lease.
- RetainResponses.FuncKeyLeasePools.ProcessBatchResponse: pools and leases are values in its fields, so that a lease object is shared between maps is not captured; the protocol covers that a given-up lease is destroyed.
- setRingName's choice of ring, and resolving a lease's scheduler (`getSchedulerNodeInfo`): a snapshot carries its scheduler.
- InstanceWait.StepKeeps: the read locks on the function maps are not modelled, which allows more interleavings than the code; the instance itself is its ID.
- The subscribers that instance changes are published to, and `GetRandomInstanceWithoutUnexpectedInstance`.
- Loading the registry, control records and session details of the session service; sorting is some fixed function that leaves no entry out of order.
- JSON, base64 and hashes are encodings that can be undone; case folding and white space are those of ASCII.
- Address parsing (`IsRoutableAddress`, `IsHostPort`): predicates that are arguments.
- The load balancer is a set of names from which any may be picked; tenants' exclusive schedulers are recorded but routing by tenant and the owner keys of sessions are not modelled.
- SchedulerRegistry.EventManager.ProcessUpdate: events are handled one after another; the gap between updating the maps and the proxy manager is not a step of its own.
- Invocation: the runtime calls, metrics and the outer retry of direct proxy errors; the legacy scheduler path is modelled up to the request it makes.
- QueueManager.StepKeepsLively: function and resource key are one key, and what an inner map without queues goes through is not modelled; capacity and answers are those of `PendingQueue`.
- Web pages, routes, metrics, alarms, logging, crypto and configuration.
