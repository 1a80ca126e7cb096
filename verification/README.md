# Weighbridge platform: a verified model

This project models the parts of a truck-weighbridge platform whose correctness spans many steps, and
proves what they promise.

* **The edge gateway's store-and-forward protocol.** A site gateway records weighings while the central
  system is unreachable, keeps them in a file it replaces atomically, and delivers them in order, once,
  when the network returns. `SyncWorld` is the protocol as a state machine: operator calls, the sub-steps
  of a sync tick, requests and replies (lost, partial, repeated), exceptions after acknowledgements, and
  crashes, in any interleaving. `CentralSync` is the backend's side of a request. The objects of the source
  (`LocalStore`, `SyncLoop`, `OfflineOperator`, the store file) are classes whose methods are proved against
  the functions the state machine is made of; whole ticks and whole operator calls are proved to be runs of
  the machine, so what holds of every run holds of them.
* **The weight-anomaly engine and its ledger.** A streaming detector with a 32-sample window feeds a table
  of anomaly events. The incremental state is proved equal to what the whole stream says, and the table to
  mirror the stream.
* **The workflow and approval engine.** Guards over arbitrary workflow definitions, with approvals
  requested and decided step by step.
* **Three smaller cores.** Connectivity hysteresis, written twice in the repository; the stability tracker
  with its truncated buffer; exact decimal kilograms.

Weights are whole thousandths of a kilogram and times whole milliseconds. Random ids, clocks, policy
decisions, device readings, and how each file operation or request ends are inputs.

## Files

| topic | files |
|---|---|
| store, operator, protocol | `EdgeTypes`, `StoreSpec`, `LocalStore`, `AtomicWrite`, `Visits`, `OfflineOperator`, `Priority`, `Backoff`, `LocalIds`, `CentralSync`, `SyncWorld`, `StoreLookup`, `SyncSafety`, `SyncTheorems`, `TickSpec`, `SyncLoop`, `Drain`, `Outage`, `TickOutcomes`, `VisitSafety` |
| anomalies | `WeightAnomaly`, `AnomalyLedger` |
| workflow | `Workflow`, `Approvals` |
| small cores | `Connectivity`, `Stability`, `NetWeight` |
| helpers | `Wrappers`, `Sequences` |

## What the code does that its documentation or its shape would not suggest

Each is a lemma with the exact condition or a concrete run.

* A delivered event can be undone within a tick: an exception after acknowledgements were applied fails the
  whole batch as it was read. SYNCED is final only across tick boundaries (`SyncTheorems.SyncedUndoneIff`,
  `SyncTheorems.SyncedIsFinal`).
* A gateway without any registered device has its special events acknowledged and not remembered, so they
  are SYNCED at the edge and unknown at the backend (`CentralSync.SuccessRecordedIffDevice`). All delivery
  theorems are about gateways with a device.
* Events in conflict keep their due time and their retries, so they are sent again on every tick
  (`SyncTheorems.AckOutcome`).
* The status graph alone would let a hold bypass weighing and approval; the guards do not
  (`Workflow.OnlyHoldBypassesWeighing`, `Workflow.HoldBypassesWeighing`, `Workflow.StartUnloadingIff`).
* The event comparator is not transitive on lists that mix events with and without sequences
  (`Priority.MixedSequencesCycle`); it is exactly when no triple straddles (`Priority.TransitiveIffConsistent`).
* A batch size above 50 makes every oversized batch fail as a whole (`Outage.OversizedBatchFails`).
* Recapturing the gross of a visit that has its tare leaves the stored net untouched, and completion accepts
  it (`Visits.RegrossKeepsNetIff`, `Visits.CompletionExactness`).
* docs/offline-first.md describes a chain create, gross, tare, completion; the operator links every event to
  the creation event only, and plate readings to nothing. The model follows the code.
* A last rename that fails without a crash strands the store in its backup, and the same process goes on
  from the empty store (`AtomicWrite.StrandedLosesStore`).
* A cooldown of zero, which the settings accept, lets two ongoing anomaly rows of one kind coexist
  (`AnomalyLedger.CooldownIff`); an anomaly imported from the edge can do the same and starts with its
  running figures unset (`AnomalyLedger.ImportKeepsIff`).
* The 32-sample window is as good as the whole history exactly for settings that ask for at most 32
  consecutive anomalies, or that allow no instability at all; the settings accept others
  (`WeightAnomaly.WindowSufficesIff`).
* Looking at a visit before its first weighing already creates its approval request. As long as that row is
  pending the weighed visit stands at FIRST_WEIGHMENT, where docs/architecture.md promises PENDING_APPROVAL;
  any row requested after the weighing has it at PENDING_APPROVAL (`Approvals.PendingStatusIff`,
  `Approvals.RequestedBeforeWeighing`). The guards hold regardless.
* Requests are decided on a record read before the writing transaction. Exactly when such a request gives a
  step a second row, a visit a second pending row, or puts approvals out of order is
  `Approvals.RequestKeepsIff`; that it happens is `Approvals.StaleReadRequestsTwice`. It can even add a
  pending row to a rejected visit and move it out of REJECTED (`Approvals.LateRequestIff`,
  `Approvals.RequestAfterRejection`); decisions and guards still refuse (`Approvals.RejectionIsFinal`).
* Pretending to be disconnected does not reset the count of successes, so a pretended blip is left without
  the recovery threshold (`Connectivity.BlipKeepsSuccesses`).
* Before unloading, a visit whose material is missing is told to verify it: the refusal for missing material is
  never reached (`Workflow.UnloadingReports`).
* One failed observation takes the site out of ONLINE, although docs/offline-first.md says three
  (`Connectivity.LeavesOnlineAtFirstFailure`).

## Model

| member | source | states |
|---|---|---|
| NetWeight.ParseMeaning | apps/api/src/domain/netWeight.ts:9-20 | a text parses to m exactly when, blanks around it aside, it is an optionally signed decimal of one to three places whose value is m thousandths |
| NetWeight.TrimTakesBlanks | apps/api/src/domain/netWeight.ts:9-10 | trimming takes the blanks, all of them, off both ends and nothing else |
| NetWeight.ParseOfPrint | apps/api/src/domain/netWeight.ts:9-28 | parsing the printed weight gives the weight back, for every integer |
| NetWeight.CanonicalForm | apps/api/src/domain/netWeight.ts:9-28 | printing what was parsed keeps the value, is idempotent, and gives two texts the same form exactly when they weigh the same |
| NetWeight.NetPlusTareIsGross | apps/edge/src/offline/netWeight.ts:28-34 | net plus tare is gross exactly, in text and in thousandths, and the excess flag is set exactly when the net is negative |
| LocalIds.FormatInjective | apps/edge/src/store/localStore.ts:172-181 | an offline id determines the gateway code, the day and the number it was made from |
| LocalIds.FormatEndsInNumber | apps/edge/src/store/localStore.ts:172-181 | an id is code, day and number, six digits for the first million visits of a day |
| LocalIds.CompactKeeps | apps/edge/src/store/localStore.ts:178 | a gateway code of capitals and digits is used as it is, cut off after sixteen |
| LocalIds.CompactIgnores | apps/edge/src/store/localStore.ts:178 | anywhere in a code small letters count as capitals and anything but letters and digits not at all; a code with nothing left is EDGE01 |
| LocalIds.DayKeyIs | apps/edge/src/store/localStore.ts:174 | the counter of a timestamp is that of its year, month and day, whatever the time |
| Priority.UrgentFirst | apps/edge/src/offline/priority.ts:3-49 | CRITICAL goes before all else, HIGH before NORMAL and LOW, NORMAL before LOW; within a priority different numbers decide, else event time, then arrival |
| Priority.TransitiveIffConsistent | apps/edge/src/offline/priority.ts:29-49 | the comparator orders a set of keys exactly when no triple straddles: two numbered events whose clocks contradict their numbers and an unnumbered one timed between them |
| Priority.HomogeneousIsTransitive | apps/edge/src/offline/priority.ts:29-49 | lists whose events all have or all lack sequences are ordered by it |
| Priority.MixedSequencesCycle | apps/edge/src/offline/priority.ts:29-49 | a mixed list on which it runs in a circle |
| Backoff.DelayNonDecreasing | apps/edge/src/core/backoff.ts:1-7 | later retries never wait less, and never more than the cap |
| Backoff.DelayDoubles | apps/edge/src/core/backoff.ts:1-3 | the first retry waits twice the base delay and each later one twice the one before, up to the cap |
| StoreSpec.PruneKeepsNewest | apps/edge/src/store/localStore.ts:386-393 | a prune leaves exactly min(count, 2000) delivered telemetry rows, the newest, every other row in place, and pruning again changes nothing |
| StoreSpec.DropOldestConserves | apps/edge/src/store/localStore.ts:386-393 | what is dropped and what is kept are together what there was, with multiplicity |
| StoreSpec.UpsertChangesOne | apps/edge/src/store/localStore.ts:183-193 | a stored visit is found under its id, and what is found under every other id, the counters and the conflicts stay as they were |
| LocalStores.RemovingIdsDropsOldest | apps/edge/src/store/localStore.ts:391-392 | removing by id drops exactly the oldest delivered telemetry rows, because ids are unique |
| LocalStores.LocalStore.PruneLowPriority | apps/edge/src/store/localStore.ts:386-393 | the store afterwards is the pruned store |
| LocalStores.LocalStore.Enqueue | apps/edge/src/store/localStore.ts:49-84 | a repeated id returns the stored row, telemetry over the limit is turned away unwritten, anything else is appended fresh; then pruned |
| LocalStores.LocalStore.Update | apps/edge/src/store/localStore.ts:104-128 | patches the one row with the id, reports whether there was one, prunes |
| LocalStores.LocalStore.ListPendingForSync | apps/edge/src/store/localStore.ts:91-102 | the waiting rows whose retry time has come, in stored order |
| LocalStores.LocalStore.NextLocalTransactionId | apps/edge/src/store/localStore.ts:172-181 | takes the next number of the day and returns the id made from it |
| LocalStores.LocalStore.UpsertTransaction | apps/edge/src/store/localStore.ts:183-193 | afterwards the row is found under its id, and every other visit is found as before |
| LocalStores.LocalStore.AddConflict | apps/edge/src/store/localStore.ts:230-236 | one conflict record per event |
| AtomicWrite.WriteIsAtomic | apps/edge/src/store/atomicWrite.ts:5-28 | wherever the crash falls and whatever fails, a restart finds the old or the new value whole; new if done, old if it threw; the file is missing exactly when it was moved aside and not replaced, and then the backup is the old value |
| AtomicWrite.WriteEnds | apps/edge/src/store/atomicWrite.ts:5-28 | a write throws exactly when the new file can neither be written, replace the old one, nor be installed; backing up and tidying up may fail; done directly it leaves the backup alone, done the long way none |
| AtomicWrite.RecoveryRestores | apps/edge/src/store/atomicWrite.ts:30-43 | recovery, cut short and repeated any number of times, brings the durable value back |
| AtomicWrite.MutateIsAtomic | apps/edge/src/store/localStore.ts:283-311 | a read-modify-write is all or nothing on the committed value |
| AtomicWrite.CommittedIsHistory | apps/edge/src/store/localStore.ts:283-311 | over any run of writes, failures, crashes and restarts the committed store is the changes that took, in order: every one reported done, none that threw |
| AtomicWrite.InstallationIsHistory | apps/edge/src/store/localStore.ts:283-326 | from a fresh installation the committed store is exactly those changes, applied in order to the empty store |
| AtomicWrite.ReadsCommittedIff | apps/edge/src/store/localStore.ts:299-311 | a running process reads its committed store exactly when the file is in place or there was nothing to lose |
| AtomicWrite.StrandedLosesStore | apps/edge/src/store/atomicWrite.ts:21-27 | after a last rename that fails without a crash, the next change starts from the empty store and no restart brings the old one back |
| AtomicWrite.StoreFile.AtomicWriteJson | apps/edge/src/store/atomicWrite.ts:5-28 | the file operations in program order end in the specified disk and outcome |
| AtomicWrite.StoreFile.RecoverTempFile | apps/edge/src/store/atomicWrite.ts:30-43 | puts the backup back when the file is missing |
| AtomicWrite.StoreFile.Mutate | apps/edge/src/store/localStore.ts:283-311 | recovers once per process, reads, changes, replaces |
| CentralSync.HandleItemKeeps | apps/api/src/modules/sync/batch.ts:31-168 | one item keeps the record free of repeats and in dependency order, never unrecords, and is acknowledged as done only if recorded |
| CentralSync.HandleBatchKeeps | apps/api/src/modules/sync/batch.ts:18-171 | so does a batch |
| CentralSync.IngestSyncBatch | apps/api/src/modules/sync/batch.ts:28-170 | the request's loop handles the items one after the other, each seeing those accepted before it |
| CentralSync.AnswerIff | apps/api/src/modules/sync/batch.ts:31-168 | exactly which items are answered DEPENDENCY_PENDING (prerequisites missing, or a handler's 409), CONFLICT, REJECTED and ALREADY_PROCESSED |
| CentralSync.HandlingChanges | apps/api/src/modules/sync/batch.ts:31-168 | an item is recorded, last, exactly when it is new, there is a device and its handler worked or failed after the row was written; it counts for the items after it exactly when answered with a success |
| CentralSync.ReplyIff | apps/edge/src/sync/syncLoop.ts:105-126 | a reply arrives exactly for a request of at most 50 events handled to its end whose answer is not lost, and speaks for exactly the events sent whose acknowledgement was not dropped |
| CentralSync.SpecialIsBusiness | apps/edge/src/offline/priority.ts:10-27 | what the backend handles itself is never telemetry at the edge, exactly three event types are CRITICAL and two NORMAL |
| CentralSync.WithoutDevice | apps/api/src/modules/sync/batch.ts:324-341 | without a device a new event is accepted exactly if it is of the five local kinds, and never recorded |
| CentralSync.DeliverKeeps | apps/edge/src/sync/syncLoop.ts:105-126 | whatever part of a request or reply is lost, the record stays in order and every success that arrives is on record |
| CentralSync.SuccessRecordedIffDevice | apps/api/src/modules/sync/batch.ts:324-341 | every success is on record, for all deliveries, exactly when the gateway has a device |
| SyncSafety.StepKeeps | apps/edge/src/sync/syncLoop.ts:54-263 | every operator call, tick sub-step, request, exception and crash keeps the protocol invariant |
| SyncSafety.RunKeeps | apps/edge/src/sync/syncLoop.ts:54-263 | so does every run: rows unique, conserved and counted, delivered rows recorded, the tick's picture true, retries up by at most one a tick |
| SyncTheorems.NoEventLost | apps/edge/src/store/localStore.ts:49-128 | in every run, a stored event stays stored exactly once with its payload, priority and dependencies, unless it was delivered telemetry that a prune removed |
| SyncTheorems.BusinessEventsStay | apps/edge/src/store/localStore.ts:386-393 | events above telemetry are never removed |
| SyncTheorems.EnqueueStores | apps/edge/src/store/localStore.ts:49-84 | an event is turned away exactly when it is telemetry, new, and 8000 rows are stored, and then nothing changes; a repeat changes no history; any other is stored at once, once, untried and last in the history |
| SyncTheorems.ConflictsStay | apps/edge/src/store/localStore.ts:230-236 | over every run conflict records are only added, at most one for each event |
| SyncTheorems.ExactlyOnceInOrder | apps/api/src/domain/eventDependencies.ts:43-49 | in every run from an empty gateway, a SYNCED row is recorded at the backend at exactly one position, after everything it depends on |
| SyncTheorems.DeadLetterStays | apps/edge/src/sync/syncLoop.ts:212-235 | no step moves a dead letter or changes its count |
| SyncTheorems.DeadLetterIsFinal | apps/edge/src/sync/syncLoop.ts:212-235 | over every run a dead letter stays stored as a dead letter with the same count and content |
| SyncTheorems.FailingRow | apps/edge/src/sync/syncLoop.ts:143-146 | a failure counts from the row as the tick read it, so failing twice in a tick counts once |
| SyncTheorems.SyncedUndoneIff | apps/edge/src/sync/syncLoop.ts:143-146 | a step undoes SYNCED exactly when it fails that row of the batch after an exception |
| SyncTheorems.SyncedIsFinal | apps/edge/src/sync/syncLoop.ts:143-146 | a row SYNCED outside the tick in progress stays SYNCED for the rest of the run, or is pruned |
| SyncTheorems.DeadAfterMaxRetries | apps/edge/src/core/backoff.ts:1-7 | an event failed on each attempt carries their number, is dead exactly at the limit, keeps its first failure time, and otherwise waits a capped delay that the next does not undercut |
| SyncTheorems.CrashTakes | apps/edge/src/store/localStore.ts:283-311 | a crash takes the tick in progress, drawn ids and visit rows not stored yet, and nothing stored or recorded |
| SyncTheorems.AckOutcome | apps/edge/src/sync/syncLoop.ts:154-235 | only a rejection or a missing acknowledgement costs a retry; success delivers; a missing prerequisite makes the row due again two seconds later; a conflict leaves its due time alone |
| SyncTheorems.NotReadyWaits | apps/api/src/modules/sync/batch.ts:38-57 | an event whose prerequisites are not on record is answered DEPENDENCY_PENDING, unrecorded, and waits at the edge without losing a retry |
| SyncTheorems.AnswerAtTheEdge | apps/edge/src/sync/syncLoop.ts:154-235 | from the handling at the backend to the row: exactly which events lose a retry, which are delivered, and that one that waits, for a prerequisite or a 409, keeps its retries, is due in two seconds and leaves the backend as it was |
| TickSpec.TickIsRun | apps/edge/src/sync/syncLoop.ts:54-152 | every whole tick is a run of the protocol from an idle state to an idle one |
| TickOutcomes.AnsweredTick | apps/edge/src/sync/syncLoop.ts:154-235 | a tick whose reply is worked through leaves each row it sent exactly as its answer says, every field of it |
| TickOutcomes.InterruptedTick | apps/edge/src/sync/syncLoop.ts:143-146 | an exception after any number of acknowledgements leaves every business event sent failed once from the row as read, whatever it was answered |
| TickOutcomes.TickSparesOthers | apps/edge/src/sync/syncLoop.ts:54-148 | a row the tick does not send is as it was, but that an interrupted send waits again; without uploads nothing is sent; the backend changes by the one request |
| TickOutcomes.RecoveryStands | apps/edge/src/sync/syncLoop.ts:258-263 | recovery turns SYNCING rows to PENDING with retries and due time as they were, and changes no other row |
| TickOutcomes.TickNotesConflicts | apps/edge/src/sync/syncLoop.ts:178-195 | a tick notes a conflict for exactly the events whose answer it worked through and that were answered so |
| SyncLoops.SyncLoop.Tick | apps/edge/src/sync/syncLoop.ts:54-152 | does nothing when paused or running, otherwise exactly the specified tick, and releases the loop |
| SyncLoops.SyncLoop.RecoverOrphanedSyncing | apps/edge/src/sync/syncLoop.ts:258-263 | every SYNCING row becomes PENDING |
| SyncLoops.SyncLoop.Dispatch | apps/edge/src/sync/syncLoop.ts:62-148 | selects, marks, sends, then applies acknowledgements, fails the batch, or both |
| SyncLoops.SyncLoop.ApplyAcks | apps/edge/src/sync/syncLoop.ts:154-210 | each row is changed as its acknowledgement says, a missing one is a failure, conflicts are noted |
| Drain.BatchSelection | apps/edge/src/sync/syncLoop.ts:62-64 | the batch is sorted, due, as large as fits, and no due event left out is more urgent than one taken or, as urgent, has a smaller number or an earlier time |
| Drain.UrgentTakenFirst | apps/edge/src/sync/syncLoop.ts:62-64 | of any rows whatever: if a due CRITICAL row is left behind every row taken is CRITICAL, if a HIGH one CRITICAL or HIGH, and no LOW one goes while a NORMAL one waits |
| Drain.SortKeepsOrder | apps/edge/src/offline/priority.ts:29-49 | equal keys keep their order of enqueueing |
| Drain.ResendRecordsOnce | apps/api/src/modules/sync/batch.ts:28-170 | a request cut short anywhere, or whose reply is lost, and sent again leaves the record as if sent once: the same events, each once, in order |
| Drain.GoodTick | apps/edge/src/sync/syncLoop.ts:54-174 | with all dependencies enqueued earlier under no larger keys and a backend that accepts, a tick delivers a full batch and leaves the rest deliverable |
| Drain.Drains | apps/edge/src/sync/syncLoop.ts:54-174 | k such ticks deliver k batches |
| Drain.DrainsCompletely | apps/edge/src/sync/syncLoop.ts:54-174 | n undelivered events are all SYNCED within n such ticks |
| Outage.UnansweredTick | apps/edge/src/sync/syncLoop.ts:143-148 | a tick without a reply fails each row it sent once, from the row as it was |
| Outage.OversizedBatchFails | apps/api/src/modules/sync/validators.ts:46-48 | a batch above the backend's limit of 50 fails every event in it, whatever the network does |
| Outage.OutageDeadLetters | apps/edge/src/sync/syncLoop.ts:212-235 | through a run of unanswered ticks an event fails once per tick and is a dead letter exactly at maxRetries |
| Outage.TickCostsOneRetry | apps/edge/src/sync/syncLoop.ts:54-235 | a whole tick, acknowledgements undone by an exception or not, raises the retry count of an event by at most one |
| Visits.CaptureTareExact | apps/edge/src/offline/operator.ts:334-366 | a tare is taken exactly when a gross is stored that it does not exceed, and then tare and net are exact and nothing else changes; otherwise the reason is the one missing |
| Visits.RegrossKeepsNetIff | apps/edge/src/offline/operator.ts:334-339 | recapturing the gross keeps the net exact exactly when the new gross weighs the same |
| Visits.CompletionExactness | apps/edge/src/offline/operator.ts:132-180 | completion right after the tare is exact; after a gross recaptured in between it is accepted and exact only if the weight is the same |
| VisitSafety.NewIdIsNew | apps/edge/src/store/localStore.ts:172-181 | the next id was never handed out, in any reachable state |
| VisitSafety.NumbersFollow | apps/edge/src/store/localStore.ts:172-181 | over every run the numbers of a day run on from 1 without gaps |
| VisitSafety.VisitIntegrity | apps/edge/src/offline/operator.ts:58-180 | in every run ids never repeat, each visit's events are stored with the creation event first, and dependencies point to events enqueued earlier |
| VisitSafety.NetsExactUnlessRegrossed | apps/edge/src/offline/operator.ts:132-180 | unless a weighed-out visit has its gross recaptured with another weight, every stored net is gross less tare, exact and not negative, in every state including local completion |
| VisitSafety.NewGatewayVisits | apps/edge/src/offline/operator.ts:58-180 | all three hold of every run of a new gateway |
| VisitSafety.VisitsStay | apps/edge/src/offline/operator.ts:58-180 | over every run a stored visit stays stored under its id, its events a prefix of its events later, its captured weights and completion kept |
| VisitSafety.NewGatewayKeepsVisits | apps/edge/src/offline/operator.ts:58-180 | so from any moment of any run of a new gateway |
| OfflineOperators.CreateIsRun | apps/edge/src/offline/operator.ts:58-122 | opening a visit is a run of protocol steps with this effect on the store |
| OfflineOperators.CaptureIsRun | apps/edge/src/offline/operator.ts:309-367 | so is weighing |
| OfflineOperators.CompleteIsRun | apps/edge/src/offline/operator.ts:132-180 | so is completing or pausing |
| OfflineOperators.AnprIsRun | apps/edge/src/offline/operator.ts:182-215 | so is a plate reading, which stays queued even when its visit does not exist |
| OfflineOperators.TareStored | apps/edge/src/offline/operator.ts:334-366 | a tare call succeeds exactly for a tare the gross covers and otherwise changes nothing; the visit found then has tare and exact net, every other field and every other visit as before, and the queued event waits for the visit's first |
| OfflineOperators.CreatedStored | apps/edge/src/offline/operator.ts:58-122 | opening stores an identified visit without weights under the next number of the day, queues its event with what the call brought, and leaves other visits alone |
| OfflineOperators.GrossStored | apps/edge/src/offline/operator.ts:334-336 | a gross reading is always taken, to the thousandth, an earlier tare and net unrevised, and its event queued behind the visit's first |
| OfflineOperators.CompletedStored | apps/edge/src/offline/operator.ts:146-180 | completion succeeds exactly with gross, tare, net and no excess, marks the visit, keeps its weights and queues the state event |
| OfflineOperators.RefusalPauses | apps/edge/src/offline/operator.ts:138-144 | a completion the policy refuses pauses the visit and does nothing else |
| OfflineOperators.PlateStored | apps/edge/src/offline/operator.ts:182-215 | a plate reading is queued whether its visit exists or not, and attached to it if it does |
| OfflineOperators.Refusals | apps/edge/src/offline/operator.ts:58-380 | which call is refused for which reason, and that refused calls change nothing but for the pause and the unclaimed plate |
| OfflineOperators.PrioritiesAgree | apps/edge/src/offline/priority.ts:10-27 | the priorities the operator names are those of its event types |
| OfflineOperators.OfflineOperator.CreateTransaction | apps/edge/src/offline/operator.ts:58-122 | refused calls change nothing; otherwise id drawn, event queued, row stored |
| OfflineOperators.OfflineOperator.CaptureWeighment | apps/edge/src/offline/operator.ts:309-367 | the refusals in order, or the event queued and the row stored |
| OfflineOperators.OfflineOperator.CompleteTransaction | apps/edge/src/offline/operator.ts:132-180 | a refusal by policy pauses the visit in the store first |
| OfflineOperators.OfflineOperator.CapturePlate | apps/edge/src/offline/operator.ts:182-215 | queues before it looks the visit up |
| WeightAnomaly.RateTestIsExact | apps/api/src/domain/weightAnomaly/rules.ts:35-37 | the integer rate test decides what dividing kilograms by seconds, floored at a fifth, decides over the reals |
| WeightAnomaly.HitsIff | apps/api/src/domain/weightAnomaly/rules.ts:39-186 | when each of the five kinds is reported, in terms of the readings, rates over real seconds; a sudden change only when there is no jump |
| WeightAnomaly.HitCarries | apps/api/src/domain/weightAnomaly/rules.ts:39-186 | a hit carries the weight of its reading, and needs no repetition exactly if it is a jump, an invalid weight or a repeated instability |
| WeightAnomaly.InstabilityStats | apps/api/src/domain/weightAnomaly/engine.ts:99-116 | the backward scan finds the run of UNSTABLE samples the window ends with, and its duration |
| WeightAnomaly.TrailingHolds | apps/api/src/domain/weightAnomaly/engine.ts:99-106 | that run is UNSTABLE throughout and cannot be extended |
| WeightAnomaly.DurationIs | apps/api/src/domain/weightAnomaly/engine.ts:99-116 | its duration is the time from its first to its last sample |
| WeightAnomaly.EvaluateWeightAnomaly | apps/api/src/domain/weightAnomaly/engine.ts:40-90 | the loop over kinds computes the specified hits, confirmations, recoveries, window and candidates |
| WeightAnomaly.WindowIsLast32 | apps/api/src/modules/anomalies/ingest.ts:116-124 | after any stream the window is its last 32 samples |
| WeightAnomaly.RunIsTrailing | apps/api/src/domain/weightAnomaly/engine.ts:61-79 | the run length counts exactly the readings at the end of the stream that hit in a row |
| WeightAnomaly.CandidatesAreRuns | apps/api/src/domain/weightAnomaly/engine.ts:61-79 | a kind is a candidate exactly while it keeps hitting, with the length and first time of its trailing run |
| WeightAnomaly.DebounceRefines | apps/api/src/domain/weightAnomaly/engine.ts:40-97 | a kind is confirmed exactly when it hit and is a jump, an invalid weight or a repeated instability, or long enough in count, or long enough in time; recovered exactly when it did not hit; jump and sudden change never together |
| WeightAnomaly.SameCandidates | apps/api/src/domain/weightAnomaly/engine.ts:41-43 | the bounded window reports as unlimited memory does on every stream whose settings ask for at most 32 in a row, or, the clock not running backwards, allow no instability |
| WeightAnomaly.WindowSufficesIff | apps/api/src/domain/weightAnomaly/rules.ts:123-147 | on all streams whose clock does not run backwards that holds exactly for settings of at most 32 consecutive anomalies or with no instability allowed; the failing stream is one UNSTABLE reading repeated within a millisecond |
| WeightAnomaly.AnomalyRuntime.Observe | apps/api/src/modules/anomalies/ingest.ts:114-124 | the runtime's two fields are those of the whole stream seen so far |
| AnomalyLedger.MeanBetweenExtremes | apps/api/src/modules/anomalies/ingest.ts:571-597 | least times k, sum, greatest times k are in order, for k noted weights |
| AnomalyLedger.FoldedIsTallied | apps/api/src/modules/anomalies/ingest.ts:318-341 | folding a hit keeps the count, the exact sum and the extremes those of the weights folded in |
| AnomalyLedger.OneOngoing | apps/api/src/modules/anomalies/ingest.ts:302-309 | every other live row of a key is older in the table, recovered, and was last seen strictly before the ongoing one |
| AnomalyLedger.StepKeeps | apps/api/src/modules/anomalies/ingest.ts:288-521 | hits with a positive cooldown, recoveries and reviews keep the ledger in order, whichever row a tie would yield |
| AnomalyLedger.RunKeeps | apps/api/src/modules/anomalies/ingest.ts:288-521 | so does every run |
| AnomalyLedger.ReviewKeeps | apps/api/src/modules/anomalies/service.ts:83-226 | acknowledging, resolving and marking false positive never bring a row back to life |
| AnomalyLedger.HitsAreCounted | apps/api/src/modules/anomalies/ingest.ts:318-341 | every confirmed hit is counted in exactly one row, over every run and any cooldown |
| AnomalyLedger.HitOpensIff | apps/api/src/modules/anomalies/ingest.ts:302-355 | a hit extends the latest live row, keeping its start and status, exactly while that is ongoing or has not been recovered for the cooldown; otherwise it opens a row that starts now, open and ongoing |
| AnomalyLedger.CooldownHolds | apps/api/src/modules/anomalies/ingest.ts:313-317 | over every run with one positive cooldown, a live row starts no sooner than the cooldown after every earlier live row of its key recovered |
| AnomalyLedger.RowsEvolve | apps/api/src/modules/anomalies/service.ts:83-226 | over every run rows keep their key and start and are only extended, closed ones never change but for their mark, and a row is OPEN exactly until somebody reviews it |
| AnomalyLedger.FlurryBreaks | apps/api/src/modules/anomalies/ingest.ts:313-317 | with no cooldown, four steps in one millisecond leave two ongoing rows |
| AnomalyLedger.CooldownIff | apps/api/src/modules/anomalies/ingest.ts:313-317 | every run leaves at most one ongoing row for each key exactly when the cooldown is positive |
| AnomalyLedger.ImportKeepsIff | apps/api/src/modules/sync/anomalies.ts:60-85 | importing an edge anomaly keeps the order exactly when every live row of the key is recovered and older, and keeps the figures exactly when it has no weight |
| AnomalyLedger.AnomalyTable.FindLatest | apps/api/src/modules/anomalies/ingest.ts:302-309 | a live (or ongoing) row of the key last seen no earlier than any other, or none if there is none |
| AnomalyLedger.AnomalyTable.PersistHit | apps/api/src/modules/anomalies/ingest.ts:288-355 | opens a row exactly when there is no live one or the latest was recovered at least the cooldown ago, and otherwise folds into that |
| AnomalyLedger.AnomalyTable.PersistRecovery | apps/api/src/modules/anomalies/ingest.ts:474-521 | marks the ongoing row recovered |
| AnomalyLedger.AnomalyTable.IngestReading | apps/api/src/modules/anomalies/ingest.ts:106-168 | after each reading the table mirrors the stream: kinds with no running hits have no ongoing row, kinds confirmed now have theirs last seen now with the weight of the reading, other weighbridges are untouched |
| AnomalyLedger.AnomalyTable.Review | apps/api/src/modules/anomalies/service.ts:83-226 | allowed exactly from the statuses the service accepts, and changes the status alone |
| Workflow.ParsedAre | apps/api/src/domain/workflowSnapshot.ts:157-181 | the parsed steps are the well-formed items, all of them, in their order |
| Workflow.ParseSteps | apps/api/src/domain/workflowSnapshot.ts:157-181 | malformed steps are skipped, the others are all kept and sorted |
| Workflow.SortSorts | apps/api/src/domain/workflowSnapshot.ts:72 | a snapshot's steps are in order |
| Workflow.EqualStepsKeepOrder | apps/api/src/domain/workflowSnapshot.ts:72 | steps that share a sortOrder keep their stored order |
| Workflow.CompletionPath | apps/api/src/domain/transactionState.ts:15-67 | every way to COMPLETED ends UNLOADING, UNLOADED, SECOND_WEIGHMENT, entered from a first weighing, an approval or a hold |
| Workflow.EnteredFrom | apps/api/src/domain/transactionState.ts:15-67 | the status graph read backwards: what each status is entered from |
| Workflow.OnlyHoldBypassesWeighing | apps/api/src/domain/transactionState.ts:15-67 | every path from the gate to COMPLETED goes through FIRST_WEIGHMENT, or leaves a hold for unloading or pending approval |
| Workflow.HoldBypassesWeighing | apps/api/src/domain/transactionState.ts:15-67 | both exceptions are real paths of the graph |
| Workflow.RemainingEmptyIff | apps/api/src/domain/workflowEngine.ts:120-136 | no approval remains exactly when the shortcut applies below the threshold or every required approval step with a department is approved |
| Workflow.HeavyIsNeverWaived | apps/api/src/domain/workflowEngine.ts:375-402 | at or above the threshold, of unknown weight, or without the shortcut, what remains are all unapproved department steps; below it nothing does |
| Workflow.SatisfiedIff | apps/api/src/domain/workflowEngine.ts:62-103 | what each of the nine kinds of step asks of the visit, in facts |
| Workflow.NoneUnmetIff | apps/api/src/domain/workflowEngine.ts:105-118 | nothing is unmet exactly when the facts hold that the required steps before the first step of the target kind ask for |
| Workflow.RecordFirstIff | apps/api/src/domain/workflowEngine.ts:138-159 | exactly when a first weighing may be recorded |
| Workflow.AssignMaterialIff | apps/api/src/domain/workflowEngine.ts:161-183 | exactly when material may be assigned, by the incoming workflow's own steps |
| Workflow.FinalizeIff | apps/api/src/domain/workflowEngine.ts:320-373 | finalizing is allowed exactly when both weighings, net, unloading, material and approvals are in order, nothing was rejected, and documents are captured and verified where a required earlier step asks for it |
| Workflow.StartUnloadingIff | apps/api/src/domain/workflowEngine.ts:185-278 | likewise for starting to unload, with what a workflow may ask for before it |
| Workflow.AssignUnloadingIff | apps/api/src/domain/workflowEngine.ts:240-278 | unloading may start exactly when its point may be assigned and is |
| Workflow.LaterStagesIff | apps/api/src/domain/workflowEngine.ts:280-318 | exactly when unloading may be completed and the second weighing recorded |
| Workflow.FinalizeReports | apps/api/src/domain/workflowEngine.ts:320-373 | which fact is reported missing, the first in this order |
| Workflow.UnloadingReports | apps/api/src/domain/workflowEngine.ts:185-238 | likewise before unloading; missing material is never what is reported |
| Workflow.OthersReport | apps/api/src/domain/workflowEngine.ts:138-318 | the other guards report the first thing in the way |
| Workflow.SatisfiedStays | apps/api/src/domain/workflowEngine.ts:62-103 | more approvals, documents, verification or a first gross weight never turn a satisfied step unmet |
| Workflow.UnmetOnlyShrinks | apps/api/src/domain/workflowEngine.ts:105-118 | so a guard's required steps, once all met, stay met |
| Workflow.RegrossUndoesIff | apps/api/src/domain/workflowEngine.ts:375-402 | another gross weight undoes an approval step exactly when the old one was below the threshold of the shortcut, the new one is not, and the step and some department step are unapproved |
| Workflow.AllowedActions | apps/api/src/domain/workflowEngine.ts:505-566 | the pushes in program order give the specified list |
| Workflow.OffersMatchGuards | apps/api/src/domain/workflowEngine.ts:505-566 | each of the ten actions is offered exactly when its guard, or for those without one its status, allows it, except the first weighing at the gate or after completion |
| Approvals.RequestKeepsIff | apps/api/src/modules/approvals/engine.ts:15-115 | a request decided on any record, however old, leaves its step one row exactly if it had none, one row pending exactly if none was, and the visit in order exactly if it asks for what is due now |
| Approvals.FreshRequestIsDue | apps/api/src/modules/approvals/engine.ts:25-37 | a request decided on the present record always asks for what is due |
| Approvals.LookingAsksNext | apps/api/src/modules/approvals/engine.ts:15-115 | looking at a visit leaves a pending row for its next unapproved department step, last, unless it is rejected, light or approved, and then changes nothing |
| Approvals.WeighIff | apps/api/src/modules/transactions/service.ts:241-253 | a first weighing is taken exactly when there is none, the facts required steps before it ask for hold, and the status graph allows it |
| Approvals.WeighedIsAsked | apps/api/src/modules/approvals/engine.ts:15-115 | a first weighing notes the weight and refers a heavy, unapproved visit to its next step at PENDING_APPROVAL; a light or approved one stays at FIRST_WEIGHMENT |
| Approvals.DecisionIff | apps/api/src/modules/approvals/service.ts:122-292 | a decision is accepted exactly on a pending row of a weighed visit that nothing rejected, approvals only once a step; otherwise the first missing of these is reported |
| Approvals.DecisionSettles | apps/api/src/modules/approvals/service.ts:122-335 | an accepted decision settles its own row only, and an approval adds at most the row for the next open step |
| Approvals.ReassignKeepsIff | apps/api/src/modules/transactions/materialWorkflow.ts:85-140 | assigning a workflow to a visit with nothing decided keeps it in order exactly when the steps are sorted and any pending request is for the first of them |
| Approvals.StepKeepsIff | apps/api/src/modules/approvals/engine.ts:15-138 | decisions, weighings and changes that keep the steps keep the visit in order, a request does exactly when it lands on what is due |
| Approvals.RunKeeps | apps/api/src/modules/approvals/engine.ts:15-138 | over every such run, requests on old records, material verification and workflow assignment included, each step has at most one row, approvals are in step order, and what is pending is the first open step |
| Approvals.OrderFromTheGate | apps/api/src/modules/approvals/engine.ts:15-138 | so from the gate |
| Approvals.OpenIsSuffix | apps/api/src/modules/approvals/engine.ts:25-29 | the unapproved department steps are a tail of the sorted ones, and every pending row is for the first of them |
| Approvals.OnePending | apps/api/src/modules/approvals/engine.ts:31-37 | a visit in order has at most one pending approval |
| Approvals.ApproveShrinks | apps/api/src/modules/approvals/service.ts:122-230 | every accepted approval strictly shortens the open steps from the front |
| Approvals.ApprovedOnlyWhenDone | apps/api/src/modules/approvals/service.ts:216-227 | approving moves the visit to APPROVED only when nothing remains, and then exactly from PENDING_APPROVAL |
| Approvals.DecidedOnce | apps/api/src/modules/approvals/service.ts:155-166 | over every run whatever, requests on old records included, rows are only added and a decided row never changes |
| Approvals.RejectionIsFinal | apps/api/src/domain/workflowEngine.ts:185-188 | after a rejection no continuation of any run, requests on old records included, passes the unloading or finalize guard or has a decision accepted |
| Approvals.LateRequestIff | apps/api/src/modules/approvals/engine.ts:20-47 | a request still adds a row to a rejected visit exactly when its record was read unblocked, with nothing pending and something remaining, and moves it out of REJECTED exactly when that record stood at FIRST_WEIGHMENT |
| Approvals.RejectedRowsStand | apps/api/src/modules/approvals/engine.ts:21-23 | without records read before the rejection no row is ever added or changed again |
| Approvals.RequestAfterRejection | apps/api/src/modules/approvals/engine.ts:117-138 | for every visit weighed and awaiting its first request, asking, rejecting and writing a request decided before both leaves a rejected and a pending row at PENDING_APPROVAL |
| Approvals.RejectBlocks | apps/api/src/modules/approvals/service.ts:271-292 | an accepted rejection always blocks, and moves the status exactly when the graph allows it |
| Approvals.PendingStatusIff | apps/api/src/modules/approvals/engine.ts:39-47 | over every run of requests and decisions after the first weighing, the visit is at FIRST_WEIGHMENT exactly when nothing was requested since, and while a row is pending it is at FIRST_WEIGHMENT if that row was there before the weighing and at PENDING_APPROVAL otherwise |
| Approvals.RequestedBeforeWeighing | apps/api/src/modules/transactions/service.ts:110-113 | looking at any unrequested visit before weighing adds the request, and the visit then stays at FIRST_WEIGHMENT until a second one |
| Approvals.StaleReadRequestsTwice | apps/api/src/modules/approvals/engine.ts:117-138 | for every weighed visit awaiting its first request with a later step after it, a request decided before the first one and written after its approval leaves two rows pending |
| Approvals.ApprovalDesk.EnsureRequiredApproval | apps/api/src/modules/approvals/engine.ts:15-115 | requests the first remaining step unless blocked or already pending |
| Approvals.ApprovalDesk.ApproveRequest | apps/api/src/modules/approvals/service.ts:122-230 | the refusals in order with nothing changed, or the row decided and the next step requested or the visit approved |
| Approvals.ApprovalDesk.RejectRequest | apps/api/src/modules/approvals/service.ts:238-335 | the same refusals, or the row rejected and the visit with it |
| Connectivity.RunsAreSuffixes | apps/edge/src/connectivity/manager.ts:54-86 | without pretending the counters are the lengths of the longest runs of failures and of successes the history ends with |
| Connectivity.SuccessesAreTrailing | apps/edge/src/connectivity/manager.ts:29-86 | over every history the success counter is the longest run of successes the observations end with, pretending or not |
| Connectivity.FailuresSincePretending | apps/edge/src/connectivity/manager.ts:29-86 | after a pretended disconnect the failure counter is failThreshold plus the observations since until one succeeds, and the longest run of failures from then on |
| Connectivity.LeavesOnlineAtFirstFailure | apps/edge/src/connectivity/manager.ts:81-88 | any failed observation takes an online site out of ONLINE, and where to |
| Connectivity.OfflineIff | apps/api/src/domain/connectivityState.ts:94-102 | exactly when an observation leaves the site offline |
| Connectivity.StateAfter | apps/edge/src/connectivity/manager.ts:54-99 | for each other state, exactly when an observation leaves the site in it |
| Connectivity.RecoversIff | apps/api/src/domain/connectivityState.ts:67-93 | a suspect site recovers exactly on enough successes in a row with nothing critical pending and no conflict open |
| Connectivity.Hysteresis | apps/api/src/domain/connectivityState.ts:56-103 | over every run without pretending, offline is entered only after failThreshold failures in a row and left only after recoverThreshold successes in a row |
| Connectivity.BlipKeepsSuccesses | apps/edge/src/connectivity/manager.ts:29-41 | a pretended blip is left at the next success exactly when the earlier successes suffice; one observation in between and they do not count |
| Connectivity.ConnectivityManager.ObserveNow | apps/edge/src/connectivity/manager.ts:54-99 | the manager's fields are those of the pure machine on the masked observations, over the whole history |
| Connectivity.ConnectivityManager.SimulateDisconnect | apps/edge/src/connectivity/manager.ts:29-41 | likewise when it starts or stops pretending |
| Stability.ConfigFromKg | apps/api/src/domain/stability.ts:17-42 | settings are accepted exactly within their ranges, with the tolerance the text denotes |
| Stability.BufferDecides | apps/api/src/domain/stability.ts:57-64 | a buffer at least as long as the reading count decides as the whole history does |
| Stability.StabilityTracker.Add | apps/api/src/domain/stability.ts:57-64 | STABLE exactly when, since the last reset, there are enough readings, the last of them span the duration, and no two of those differ by more than the tolerance |
| Stability.StabilityTracker.Quality | apps/api/src/domain/stability.ts:66-95 | the scan for least and greatest decides that |

## Left out

- Stored file formats: what was written is read back as it was; repairing records written by older versions (normalizeStore) is not modelled.
- Gateway status, audit records, captured files and their upload: they share the store's writes and change no event row, so a step that only prunes stands for them; whether uploads succeeded is an input of a tick.
- The policy of what the operator may do offline, device adapters and the offline anomaly detector: their results are inputs.
- Two operator calls on one visit at the same time, and two readings of one weighbridge at the same time: the source does not serialize them.
- Random event ids are fresh.
- Gateway codes outside ASCII: upper-casing is modelled for ASCII letters.
- Date texts that do not parse: times are integers.
- What the backend's handlers do beyond recording an event: their success or failure is an input for each event; two requests of one gateway handled at the same time are left out.
- Floating-point rounding: weights, thresholds and rates are exact; the sum of anomaly weights is therefore exact to the thousandth.
- Anomaly severities, titles and explanations: each is settled by one branch. The severity of an instability does depend on the window, so agreement of window and history is about kinds, confirmations and candidates.
- Weights that are not finite in the ledger: readings carry them as missing before they reach it.
- The eviction of the oldest weighbridge runtime beyond 256: it is a reset.
- Replacing the workflow of a visit while a request for another step is pending: it puts the visit out of order, exactly as Approvals.ReassignKeepsIff says, and what follows is not pursued.
- Who may see or decide an approval, comments, notifications, and the HOLD and CANCELLED decisions, which no code path writes.
- Labels of the next action.
- apps/api/src/domain/eventDependencies.ts: no server path calls it; the batch handler applies the same readiness rule itself, and that is what is modelled.
- Stability.StabilityTracker.constructor: takes settings in the ranges ConfigFromKg accepts, which is where every adapter gets them; with a reading count of zero, which no caller passes, the source would judge the whole buffer.
- AnomalyLedger.OneOngoing: is about ledgers fed by readings and reviews; an edge import keeps it under the condition ImportKeepsIff gives.
- Approvals.PendingStatusIff: is about runs whose requests are decided on present records and in which nothing but requests and decisions moves the status; unloading, holds and the rest move it on along the status graph.
- Drain.Drains: asks for a batch size within the backend's limit, since larger batches never arrive (Outage.OversizedBatchFails).
