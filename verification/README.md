# Web intelligence sidecar: verified model

The sidecar accepts research requests, runs each one as a background task on
some instance, and keeps everything the instances share in Redis (or, on a single
instance, in memory). This project models that core in Dafny and proves what it
promises: one ledger behind two spend backends, at most one start for an
idempotency key, a service-wide concurrency bound, exclusive leases, statuses that
only move forward while reconcilers race with workers, admissions that undo
themselves, cleanup that survives any number of cancellations, exactly-once
progress streams, evidence graphs without dangling references, text assembled
within byte budgets, and an egress guard that may be left in any order.

Verify everything with `dafny verify dfyconfig.toml`.

## How it is built

Time is one shared clock in microseconds and a key is visible before its expiry
instant. Money is in micro-dollars, scores are reals. Each Lua script is one atomic
method of a class over the keys it touches, specified by a function of the old
state; lemmas about those functions quantify over every run: any number of
requests, instances and tokens, in any interleaving, crashes included (a crashed
process simply takes no further step).

| module | what it models |
|---|---|
| Keyspace | keys with expiry |
| SpendLedger, SpendBackends | the budget as a ledger; the Redis scripts and the in-memory fields that refine it |
| Idempotency | idempotency keys and their admission leases |
| Leases | owner leases, concurrency slots, heartbeats |
| OperationStore | stored operations, the index of active ones, and their scripts |
| StatusProtocol, StatusRuns | stored statuses under requests, workers and reconcilers together: the steps and what they keep, then whole runs |
| Admission | the admission sequence and its rollback over the stores above |
| ShieldedWaits | the finally block of a task: its ingest wait and releases under cancellations at any instants |
| BackgroundTask | the research task await by await, with its hold and its cleanup |
| Cancellation | the task registry, broadcast cancels, shutdown; the local cancel as a process among all other steps |
| ProgressStream | event logs and the stream that follows them |
| MemoryCache | the in-memory operation cache, its eviction and its tombstones |
| EvidenceGraph | sources, evidence, claims and citations of a result |
| Utf8Text, BrainMemory | UTF-8 sizes (section 3 of RFC 3629), lines and words; recalled context, outcome artifact, bounded inputs |
| EgressGuard | the process-wide guard's stacks and the search budget |

## What the proofs found

- No save looks at the lease of its worker. Still a status falls back at most once
  in the life of an operation's key, and in one way: the running state is stored over a
  terminal one (`StatusFallsAtMostOnce`). Either the worker was paused for a lease
  between its admission and its first save, and a reconciler failed the operation
  meanwhile; or that save was sent, its task was cancelled, and the server executed
  it late (`LateSaveUndoesCancel`). Without the two, statuses only move forward
  (`StatusNeverMovesBack`).
- The reconciler fails an operation and unindexes it in two commands. A late first
  save between them leaves the operation running, unowned and in no index, so that
  no scan of the index finds it (`LateFirstSaveIsLost`); a reopened operation stays
  findable if and only if no such command is pending (`ReopenedStaysFindable`).
  `app/storage.py:871-878` calls the backfill one-time, but its marker expires after
  a day: the next backfill indexes the operation again (`MarkStaleOperations`).
- A cancel answers true if and only if its second lookup finds cancelled stored, and
  that is final if and only if no save of the task that says otherwise is still in
  flight (`ConfirmedCancelIsFinal`). `app/cancellation.py:134-149` relies on the
  order of writes in the task alone.
- `app/api.py:407-513` presents cleanup as unconditional. A task cancelled before
  its first step never enters its function, so neither its hold, its lease nor its
  slot is released (`CleanupSkippedOnlyBeforeStart`, if and only if).
- A failed admission restores what a reader sees, at every later instant, if and
  only if nothing it took was there before (`FailedAdmissionRestores`). The `if`
  can fail: a second idempotency key for an operation under way reserves nothing
  new, is refused the operation id, and its rollback gives back the hold of the
  running operation (`SecondKeyDropsHold`; `RunningOperationLosesHold` reaches it
  from an empty store).
- An admission call that raises although it was executed is not undone: exactly
  what that one call took stays until it expires (`FailedAdmissionRestores`). A
  rollback that runs after its 30 second admission lease keeps everything
  (`LapsedRollbackKeepsAll`), and so does one after the queued state was stored,
  when the save's answer is lost or starting the task fails
  (`PersistedAdmissionIsKept`): the requester sees an error, the operation stays. A
  request that is itself cancelled is not rolled back at all
  (`CancelledAdmissionKeepsAll`), since `app/api.py:718` catches exceptions only.
- The two spend backends anchor their day differently: memory at its start, Redis
  at the first reservation. With a budget of 10, all of it reserved 12 hours after
  the start and again asked for at 25 hours, Redis refuses and memory grants
  (`MemoryDayStartsEarlier`). They answer all runs of reservations alike if and
  only if their windows are both over or end together
  (`ReservationsAgreeIffAligned`), and calls keep it so if and only if none but a
  reservation is the first after a window's end (`OneCallKeepsAligned`).
- `app/cancellation.py:253-260` counts an ingest wait and a spend release in one
  cleanup. An ingest is scheduled only when the hold is no longer due, so there are
  at most three waits, and the time shutdown allows covers timers that are late by
  up to two thirds of a second each (`CleanupIsComplete`).
- The second quiesce of `app/main.py:133-172` needs more than four seconds of
  overhead: the waits of the first attempt add up to sixteen of its twenty
  (`Drain`).
- Cutting the local input that overruns the shared budget can leave up to three
  bytes, which later inputs still use (`BoundedIsPrefix`).

## Model

| member | source | states |
|---|---|---|
| SpendLedger.ApplyKeepsFunded | app/storage.py:585-613 | every hold stays counted in the total and the total within the ceiling; a settled hold takes away exactly its amount, so no clamp loses money; while only zero is charged the total is exactly the holds |
| SpendLedger.EveryRunFunded | app/storage.py:178-260 | the same in every reachable ledger, over any run of calls and window rollovers |
| SpendLedger.HoldWithinTotal | app/storage.py:189-260 | a hold never exceeds what is left of the total beside the other holds, so subtracting it never reaches the zero clamp |
| SpendBackends.RedisSpendKeys.Reserve | app/storage.py:149-189 | the reserve script: window set-up, idempotence within the window, admission against the ceiling, refreshed hash expiry |
| SpendBackends.RedisSpendKeys.Reconcile | app/storage.py:193-224 | the reconcile script, dropping a hold of an earlier window without touching the total |
| SpendBackends.RedisSpendKeys.Release | app/storage.py:231-260 | the release script |
| SpendBackends.RedisSpendKeys.SetTotalKeepingTtl | app/storage.py:217-220 | writing the total never extends a running window |
| SpendBackends.MemorySpendFields.ResetWindowIfNeeded | app/storage.py:570-575 | total and holds are emptied together once the window is a day old |
| SpendBackends.MemorySpendFields.Reserve | app/storage.py:585-594 | the in-memory reserve |
| SpendBackends.MemorySpendFields.Release | app/storage.py:596-603 | the in-memory release |
| SpendBackends.MemorySpendFields.Reconcile | app/storage.py:605-613 | the in-memory reconcile |
| SpendBackends.TimeOnlyRollsOver | app/storage.py:158-189 | passing time changes nothing a reader sees or ends the window and empties the ledger: no hold expires before the window that counted it |
| SpendBackends.OpenWindowKeepsView | app/storage.py:158-165 | opening a window shows a reader what he saw before and keeps total and marker expiring together |
| SpendBackends.ServeRefinesApply | app/storage.py:149-260 | each call of either backend changes its visible ledger, and answers, as the abstract ledger does |
| SpendBackends.BackendRefinesLedger | app/storage.py:149-260 | over any timed run, replies and final view of either backend are the ledger's |
| SpendBackends.BackendsAgree | app/storage.py:570-613 | from equal views and windows that end together, both backends give every caller the same answers and keep equal views, as long as the first call after each window's end is a reservation |
| SpendBackends.OneCallKeepsAligned | app/storage.py:158-165 | a call keeps windows that end together so if and only if it finds them running or is a reservation: only reserve opens a Redis window, any call one in memory |
| SpendBackends.ReservationsAgreeIffAligned | app/storage.py:158-165 | from equal views, reservations are answered alike in every run if and only if the windows are both over or end together |
| SpendBackends.MisalignedDisagree | app/storage.py:570-575 | otherwise at most two reservations tell the backends apart |
| SpendBackends.MemoryDayStartsEarlier | app/storage.py:570-575 | from empty with a positive ceiling: a reservation after 25 hours that Redis refuses and memory grants |
| SpendBackends.BackendsStayFunded | app/storage.py:585-613 | from empty, in every state of either backend: visible holds are counted, the total is within the ceiling, and equals the holds when reconciliation is to zero |
| Idempotency.IdempotencyKeys.ClaimKey | app/storage.py:29-42 | the claim script: a persisted operation wins for the key's life, an unpersisted one for its admission lease |
| Idempotency.IdempotencyKeys.Release | app/storage.py:44-57 | the release script, effective only for the token that holds the admission lease |
| Idempotency.IdempotencyKeys.Save | app/storage.py:86-95 | the admitted save, only for the key's operation and the lease's token |
| Idempotency.ClaimGrantsIffFree | app/storage.py:29-42 | a claim is granted if and only if the key is unbound or expired, or its operation is not stored and no admission lease lives; then key and token are bound for a day and thirty seconds, else nothing changes |
| Idempotency.LapsedKeyIsGranted | app/storage.py:25-42 | no permanent tombstone: in every run, thirty seconds after the last grant of a key whose operation was never stored, the next claim is granted |
| Idempotency.PendingNeverOutlivesKey | app/storage.py:40-41 | in every run an admission lease ends before its key does |
| Idempotency.AtMostOneSavePerKeyLife | app/storage.py:29-95 | after one successful save, until the key expires every claim returns that operation, every rollback leaves it and every other save fails, in any interleaving |
| Idempotency.SaveFollowsItsGrant | app/storage.py:86-95 | a save succeeds only for the request granted the key last, within thirty seconds of that grant, at most once per grant |
| Leases.LeaseKeys.AcquireConcurrencySlot | app/storage.py:62-71 | expired slots are reaped first; a slot is taken only below the ceiling |
| Leases.AcquireGrantsIffRoom | app/storage.py:62-71 | a slot is granted if and only if fewer members than the ceiling are unexpired; the expired ones are gone either way, the others keep their expiry |
| Leases.SlotGrantedIffFewAreFresh | app/storage.py:59-71 | in every run a worker gets a slot if and only if fewer members than the ceiling were touched less than a TTL ago: a crashed one takes no place beyond that |
| Leases.LeaseKeys.ReleaseConcurrencySlot | app/storage.py:930-934 | only this instance's member is removed |
| Leases.LeaseKeys.BeginOperation | app/storage.py:936-945 | a live owner wins |
| Leases.LeaseKeys.ReleaseOperationLease | app/storage.py:118-124 | compare and delete |
| Leases.LeaseKeys.TouchOperation | app/storage.py:130-142 | the heartbeat script and what it tells the worker |
| Leases.FreshMembersHoldSlots | app/storage.py:910-974 | whoever acquired or renewed less than one TTL ago and did not release is still in the slot set with that expiry |
| Leases.ConcurrencyBound | app/storage.py:62-71 | in every run the slot set, and the workers that can still believe they hold a slot, stay within the ceiling |
| Leases.HeartbeatIsHonest | app/storage.py:947-974 | true if and only if lease and slot were both held, then both are extended; no slot is resurrected; a non-owner changes nothing |
| Leases.OnlyOwnerEndsLease | app/storage.py:976-982 | a live lease survives every call but its own holder's release, and blocks every other begin |
| Leases.SecondBeginNeedsRelease | app/storage.py:936-982 | between two successful begins of one operation the first lease was released by its holder or ran out |
| OperationStore.OperationKeys.WriteOperation | app/storage.py:76-84 | the save script: record and index membership change together |
| OperationStore.OperationKeys.SaveOperation | app/storage.py:643-661 | the second half of a save: the new status merged over what the first half read, however long ago |
| OperationStore.OperationKeys.FailStale | app/storage.py:102-116 | the reconciler's script: a snapshot is stored as failed only while nobody owns the operation and it is active |
| OperationStore.OperationKeys.MarkStaleOperations | app/storage.py:860-908 | one pass, with or without the backfill, fails exactly the indexed queued or running operations nobody owns, and unindexes them |
| StatusProtocol.InitialHolds | app/storage.py:76-116 | the empty system satisfies the invariant, so what follows holds over every run from it |
| StatusProtocol.StepKeepsInv | app/storage.py:76-116 | every step of any request, worker or reconciler, in time or late, keeps for the followed operations: records bound to their sealed key, statuses in step with their worker, one running state to store, the index of what was not reopened |
| StatusProtocol.StepMovesStatus | app/storage.py:643-661 | a step changes a status only as a save of its worker, in time or late, or as a reconciler failing an unowned active operation; and moves it back if and only if it stores an active state over a terminal one |
| StatusProtocol.SavesStoreTheirStatus | app/storage.py:643-661 | after a save, in time or late, the stored record is the one it read with the status it saved, and the index agrees; nothing else changed |
| StatusProtocol.StepSpendsRuns | app/api.py:299-299 | each reopening uses up the one save of the running state |
| StatusRuns.StatusFallsAtMostOnce | app/api.py:296-405 | over every run of the code as it is: an operation and its key are never forgotten, its status falls only in reopening steps, at most once, and otherwise moves queued, running, terminal |
| StatusRuns.StatusNeverMovesBack | app/researcher_adapter.py:1126-1148 | with a worker that saves only under its lease and gives up on no save, statuses never move back and active operations are always found by scans |
| StatusRuns.ReturnedTerminalIsFinal | app/cancellation.py:127-149 | once the task returned, a terminal status never changes again if and only if no save with another status is in flight |
| StatusRuns.ReturnedCancelIsFinal | app/cancellation.py:127-149 | nor does it become or cease to be cancelled, if and only if no save in flight would do that |
| StatusRuns.AtMostOneStartPerKey | app/api.py:548-762 | at most one worker is started under one live key, over any requests, tokens, operation ids and lapsed admissions |
| StatusRuns.StartIsSeen | app/storage.py:86-95 | what is counted as a start is exactly an accepted save; it leaves a new worker and a queued, indexed record, and any other leaves everything alone |
| StatusRuns.OrdinaryLife | app/api.py:296-323 | an admitted operation can be stored running and then with any result, which takes it out of the index |
| StatusRuns.ReopenedStaysFindable | app/storage.py:893-905 | a reopened operation stays in the index in every later run if and only if no reconciler that failed it has still to unindex it |
| StatusRuns.PausedIsReachable | app/api.py:729-762 | the state before a late first save is reachable: admitted, begun, stored, fetched by worker and reconciler |
| StatusRuns.LateFirstSaveIsLost | app/storage.py:893-905 | from there: lapse, failure, first save, removal from the index; the operation is running, unowned, and stale to no scan |
| StatusRuns.LateSaveUndoesCancel | app/api.py:364-375 | from there: the first save is sent, the task cancelled, cancelled stored, the task returned; then the save is executed |
| Admission.AdmissionService.ClaimOperationId | app/storage.py:746-786 | an operation id is refused when a stored operation or a live claim binds it to another key |
| Admission.SplitReleaseNeedsSameKey | app/storage.py:793-797 | the compare and the delete are two commands: the delete is right whatever happened in between if and only if the operation is not claimed under another key by then |
| Admission.AdmissionService.RollBack | app/api.py:127-173 | rollback in its order, each release isolated from errors of the others, keeping everything if the key still belongs to the operation or could not be released |
| Admission.AdmissionService.Acquire | app/api.py:563-717 | the acquisitions in order up to the first refusal or exception, executed or not, each success recorded |
| Admission.AdmissionService.StartResearch | app/api.py:539-771 | the whole admission: idempotency hit, refusals, exceptions before or after execution, cancellation of the request, save, start, rollback |
| Admission.RetryIsAnswered | app/api.py:548-560 | a request is answered with a known operation if and only if its key is bound to that stored one; with a pending key it is refused; the store is unchanged in both cases |
| Admission.RetriesFindStarted | app/api.py:540-560 | after an attempt that started, and any others by anyone, every attempt under its key within the key's life is answered with its operation |
| Admission.StartedIffAllFree | app/api.py:539-762 | an undisturbed request is started if and only if its key is free, it is valid, its budget fits, its operation id is its own or nobody's, a slot is free, nobody owns it, and its save is in time |
| Admission.HoldRoundTrip | app/api.py:681-691 | reserve then release leaves the visible ledger as it was, then and later, across a window end too, if and only if there was no hold before |
| Admission.SlotRoundTrip | app/api.py:704-706 | the same for the slot set |
| Admission.OwnerRoundTrip | app/api.py:712-717 | begin then release restores the visible owners |
| Admission.ClaimRoundTrip | app/api.py:693-699 | claim then release restores the visible claims if and only if the operation was unclaimed |
| Admission.KeyRoundTrip | app/api.py:152-165 | within the admission lease, claim then release restores the visible keys if and only if the key was free |
| Admission.FailedAdmissionRestores | app/api.py:718-724 | at every failure point, keys, claims, slots, owners and ledger are at every later instant what they would be with only a call of lost answer executed, if and only if nothing taken was there before |
| Admission.SecondKeyDropsHold | app/api.py:686-697 | a request under another key for a stored operation is refused, and its rollback removes that operation's live hold from the ledger |
| Admission.RunningOperationLosesHold | app/api.py:693-697 | reached from an empty store: the first request starts, the second takes its hold away, owner and slot stay |
| Admission.CancelledAdmissionKeepsAll | app/api.py:718-724 | a request cancelled at a call is not rolled back: key, hold, claim, slot and owner it had taken, or that call took, all stay |
| Admission.LapsedRollbackKeepsAll | app/storage.py:52-54 | a rollback after the admission lease changes nothing |
| Admission.PersistedAdmissionIsKept | app/api.py:757-769 | once stored, an admission keeps its key, owner, slot and hold even if the save's answer is lost or the task does not start |
| ShieldedWaits.ShieldedWait | app/api.py:264-280 | the loop of both kinds of wait: when and how it ends does not depend on the cancellations |
| ShieldedWaits.WaitEndsWithItsTask | app/api.py:264-272 | a wait is over as soon as its task is, with its result, and lasts its whole time if and only if the task does not end within it |
| ShieldedWaits.ReleaseCancellationSafe | app/api.py:249-282 | a release ends as it would uncancelled, also when somebody else cancelled it; it is cancelled if and only if its time is over |
| ShieldedWaits.FinallyBlock | app/api.py:458-513 | the whole block, cancelled at any instants: every stage begins, ends and turns out as if nobody had cancelled; a release is cancelled exactly on timeout, the ingest never |
| ShieldedWaits.FinallyInOrder | app/api.py:494-513 | ingest, spend, lease, slot, unregistration, each due one once, without a gap, none longer than its allowance |
| ShieldedWaits.FinallyInTime | app/cancellation.py:297-298 | the block ends before shutdown stops waiting for it |
| BackgroundTask.StepKeepsCleanup | app/api.py:458-513 | every step keeps: releases begun in order, each once, each wait within its allowance |
| BackgroundTask.StepKeepsAccounts | app/storage.py:193-260 | every step keeps: the hold is untouched, or exactly one call removed it and gave back its amount |
| BackgroundTask.StepKeepsSettled | app/api.py:345-353 | every step keeps: a settling call that was executed or reported done left no hold |
| BackgroundTask.HoldSettledOnce | app/api.py:293-353 | wherever cancellations land, the hold leaves the total at most once, and is gone at the end unless the settling call failed or timed out |
| BackgroundTask.EndedIsStored | app/api.py:296-405 | a task that ended stored a result, a failure or a cancellation, unless it lost its lease or the save of that failed |
| BackgroundTask.InterruptedIsStored | app/api.py:364-405 | every cancellation or exception that reaches the handlers, also after the result was stored, is followed by a stored failed or cancelled state, with the same exceptions |
| BackgroundTask.CleanRunReconcilesAndSchedules | app/api.py:323-362 | a task that nothing disturbs reconciles its own hold, comes to schedule its ingest exactly once, and releases only lease and slot |
| BackgroundTask.CleanRunExists | app/api.py:296-362 | and such a run to the end, with an ingest, exists from every admission |
| BackgroundTask.CleanupIsComplete | app/api.py:494-513 | a task that ended began every due release once, in order spend, lease, slot, unregistration; no ingest with an unsettled hold; less time than shutdown waits for, with timers up to two thirds of a second late |
| BackgroundTask.CleanupSkippedOnlyBeforeStart | app/api.py:757-761 | no cleanup runs if and only if the task is cancelled before its first step; the hold then stays |
| Cancellation.CancellationManager.HearBroadcast | app/cancellation.py:43-58 | a broadcast cancels a running local task once and nothing else |
| Cancellation.CancellationManager.CancelTask | app/cancellation.py:68-243 | refused without touching the task when the stored status is terminal; else one cancel, the task gone from the registry, and the answer its two lookups give, or none if the caller is cancelled; broadcast only for tasks elsewhere |
| Cancellation.CancellationManager.QuiesceTasks | app/cancellation.py:297-310 | each running task is cancelled exactly once, finished ones not at all; it returns at the earliest instant when all have ended, or at its timeout |
| Cancellation.CancellationManager.Drain | app/main.py:112-173 | shutdown ends by one deadline however long tasks take; a task is cancelled a second time if and only if the first attempt overran and the task had not ended by then; overrunning takes four seconds of overhead |
| Cancellation.StepKeepsUnderway | app/cancellation.py:99-199 | every step of the system or of a local cancel (lookups that answer or not, the await, a cancel of the caller) keeps: past the await the worker has returned, and an answer is what the lookups say |
| Cancellation.RefusedIffFoundTerminal | app/cancellation.py:99-121 | a cancel is refused if and only if its first lookup finds a terminal operation, and else it is sent |
| Cancellation.ConfirmedCancelIsFinal | app/cancellation.py:68-199 | in every race, the answer is the method's, and true if and only if the second lookup found cancelled; what it found stays so in every later run if and only if no save in flight says otherwise |
| ProgressStream.MemoryEvents.Push | app/storage.py:515-518 | an event goes to the end of its operation's log |
| ProgressStream.MemoryEvents.GetAfter | app/storage.py:523-526 | reading by position is reading what is newer than the cursor |
| ProgressStream.StepKeepsInv | app/api.py:780-814 | every push, trim, poll and yield keeps cursor, batch and yielded events consistent with the log |
| ProgressStream.DeliveredOnceInOrder | app/api.py:780-814 | with reads that may fail: yielded events are the log up to the cursor, once each and in order; only events already trimmed at the last successful read are missing; a closed stream has all that read found, and all pushed before its final read if that succeeded |
| ProgressStream.ClosesAfterTerminal | app/api.py:797-812 | a stream closes only after a terminal status, and with a terminal event or its whole grace period spent |
| ProgressStream.GraceIsBounded | app/api.py:798-807 | at most five grace rounds, and none once a terminal event was yielded |
| ProgressStream.ClosesOnTerminal | app/api.py:797-812 | a stream that has seen its terminal event can close at the next terminal status, having yielded all there is |
| MemoryCache.MemoryStorage.EvictIfNeeded | app/storage.py:407-428 | exactly the oldest finished operations go, with their events and owners |
| MemoryCache.MemoryStorage.SaveOperation | app/storage.py:436-442 | the saved status and a key that was brought are stored, other records stay or go; the operation moves to the end, no queued or running one is dropped; tombstones are untouched |
| MemoryCache.LastSaveWins | app/storage.py:436-442 | over any run of saves and evictions an operation that is there has the last status saved for it, and if it was never evicted the last key brought |
| MemoryCache.MemoryStorage.SaveAdmittedOperation | app/storage.py:444-451 | stored if and only if the key is bound to the operation |
| MemoryCache.MemoryStorage.ClaimIdempotencyKey | app/storage.py:470-479 | a known key answers with its operation, also after that was evicted; a new one may push out the oldest |
| MemoryCache.MemoryStorage.ReleaseIdempotencyKey | app/storage.py:481-490 | a key is freed only for its own operation |
| MemoryCache.MemoryStorage.ClaimOperationId | app/storage.py:492-506 | an id bound to another key by a claim, or without one by a stored operation, is refused |
| MemoryCache.MemoryStorage.EvictIdempotencyIfNeeded | app/storage.py:430-434 | the newest tombstones stay, unchanged |
| MemoryCache.MemoryStorage.BeginOperation | app/storage.py:552-559 | a live owner wins |
| MemoryCache.MemoryStorage.ReleaseOperationLease | app/storage.py:564-568 | only the owner releases |
| MemoryCache.MemoryStorage.MarkStaleOperations | app/storage.py:528-538 | exactly the unowned queued or running operations become failed |
| MemoryCache.EvictsOldestFinished | app/storage.py:413-421 | evicting n cuts the order: before the cut only live operations stay, after it everything does, and n finished ones went |
| MemoryCache.EvictionEndsAtLimit | app/storage.py:411-418 | the cache ends at its limit, or at its live operations if those are more, and keeps every live one |
| MemoryCache.DropOldest | app/storage.py:430-434 | popping from the old end leaves exactly the newest entries |
| EvidenceGraph.Attribution | app/researcher_adapter.py:228-253 | a record belongs to the last source with its address, or to the only source if it has none |
| EvidenceGraph.GatheredFromRecords | app/researcher_adapter.py:240-270 | evidence is selected passages of attributed records only, no text twice, and below the limit none missing |
| EvidenceGraph.SubstantiveAreLong | app/researcher_adapter.py:79-84 | exactly the sentences of 24 characters or more are substantive, in order |
| EvidenceGraph.ScoreIsShare | app/researcher_adapter.py:109-116 | the score is one if and only if the passage has all the claim's words, zero if and only if it has none, and no lower for more passage words |
| EvidenceGraph.Findings.CollectSources | app/researcher_adapter.py:1253-1287 | the first usable addresses, capped after filtering |
| EvidenceGraph.Findings.CiteSources | app/researcher_adapter.py:230-238 | one empty citation for each source |
| EvidenceGraph.Findings.BuildFromPassages | app/researcher_adapter.py:225-272 | evidence is exactly what the records yield; the graph is linked: positions as ids, existing sources, each citation listing exactly its source's evidence in order |
| EvidenceGraph.Findings.AddEvidence | app/researcher_adapter.py:260-270 | appending evidence keeps the graph linked |
| EvidenceGraph.ListedIffOwn | app/researcher_adapter.py:270-270 | a citation lists a piece of evidence if and only if it is its source's |
| EvidenceGraph.Findings.CitationByEvidence | app/researcher_adapter.py:276-279 | the index maps every piece of evidence to its source's citation |
| EvidenceGraph.Findings.BestEvidence | app/researcher_adapter.py:282-288 | the first evidence of maximal positive score, or none when nothing matches |
| EvidenceGraph.Findings.Judge | app/researcher_adapter.py:290-298 | a claim is linked to the first best evidence only, with the status its score and negation warrant and its score, held within 0.45 and 0.95, as confidence; unlinked means unsupported |
| EvidenceGraph.VerifiedIsDetermined | app/researcher_adapter.py:109-125 | two verifications of one text against the same evidence agree in link, status and confidence |
| EvidenceGraph.Findings.VerifyClaim | app/researcher_adapter.py:290-309 | a linked claim is added to the citation of its evidence and to no other |
| EvidenceGraph.Findings.VerifyClaims | app/researcher_adapter.py:274-311 | one verified claim for each substantive sentence up to ten; a citation lists a claim if and only if the claim's evidence is its source's |
| EvidenceGraph.Findings.ClearClaimIds | app/researcher_adapter.py:1334-1337 | all citations lose their claims and keep their evidence |
| EvidenceGraph.Findings.AppendInputSource | app/researcher_adapter.py:600-635 | one local input: a new source, its citation, at most two pieces of evidence |
| EvidenceGraph.Findings.AppendInputSources | app/researcher_adapter.py:599-635 | all local inputs in order, everything before untouched, graph still linked |
| EvidenceGraph.InputsAddAll | app/researcher_adapter.py:600-635 | the passages of each input are all there, under its own source, behind those of the inputs before |
| EvidenceGraph.Findings.InferClaims | app/researcher_adapter.py:333-340 | report sentences as unattributed claims |
| EvidenceGraph.Findings.FromResearch | app/researcher_adapter.py:1309-1328 | the graph of the web research on each of its paths |
| EvidenceGraph.Findings.Assemble | app/researcher_adapter.py:1309-1346 | the finished graph is sound on every path, with exactly the web and local evidence, and verified against all of it |
| Utf8Text.TruncateUtf8 | app/brain_memory.py:32-41 | the truncation loop |
| Utf8Text.TruncatedIsLongestPrefix | app/brain_memory.py:32-41 | truncation keeps the longest prefix of whole characters within the budget, and everything when it fits |
| Utf8Text.SizeIsEncodedLength | app/brain_memory.py:36-36 | the size of a character is the length of its UTF-8 encoding, from which the character is read back |
| Utf8Text.WordsSplitAtSpace | app/brain_memory.py:55-55 | splitting before and behind any whitespace gives all the words: none is lost, none is cut |
| Utf8Text.LineEndsAtBreak | app/brain_memory.py:54-54 | any line break ends a line, a carriage return with its line feed, and what is before is the line as it was |
| Utf8Text.NormaliseIsIdempotent | app/brain_memory.py:55-57 | a normalised line is not changed again, and is empty if and only if there were no words |
| Utf8Text.LinesOfJoined | app/brain_memory.py:54-64 | kept lines joined and split again are the same lines |
| BrainMemory.BoundedLines | app/brain_memory.py:44-64 | exactly the whole normalised lines up to the first that does not fit |
| BrainMemory.FitIsLongestPrefix | app/brain_memory.py:52-63 | the kept lines are the longest prefix within the budget |
| BrainMemory.RecordIsLeadingLines | app/brain_memory.py:243-245 | a record contributes leading whole lines of its own text |
| BrainMemory.RecallOne | app/brain_memory.py:241-259 | one result: passed over, not fitting, or its item |
| BrainMemory.RecallContext | app/brain_memory.py:230-266 | the recalled context: which results, how many lines of each, at most 6000 bytes |
| BrainMemory.ContextIsBoundedAndWhole | app/brain_memory.py:222-266 | within 6000 bytes, and nothing but the warning, provenance lines and whole leading lines of the records in order |
| BrainMemory.ItemIsLongest | app/brain_memory.py:257-260 | an item has as many lines of its record as fit what remains, and none if and only if there is none or the first does not fit |
| BrainMemory.ItemsStopWhenFull | app/brain_memory.py:240-263 | no record with lines is passed over before the first whose first line does not fit, or the end of the budget |
| BrainMemory.CollectCandidates | app/brain_memory.py:101-129 | each non-blank finding is either one whole line or counted as too long |
| BrainMemory.FindingIsWholeOrOut | app/brain_memory.py:102-129 | a finding is blank if and only if it has no words, left out if and only if its text is over 400 bytes, and else its line is the whole text with whole provenance |
| BrainMemory.CandidatesPresentFindings | app/brain_memory.py:101-129 | every candidate presents a finding whole, and every finding that fits has its candidate |
| BrainMemory.KeptInOrderWithinBound | app/brain_memory.py:131-143 | kept lines are whole, in order and within the bound; if all fit all are kept |
| BrainMemory.AllKeptIfAllFits | app/brain_memory.py:131-156 | when everything fits 8000 bytes, every candidate and every note is kept |
| BrainMemory.RenderOutcome | app/brain_memory.py:67-159 | which findings and notes are kept; kept plus omitted is the non-blank findings among the first ten; within 8000 bytes if and only if header and footer alone are |
| BrainMemory.RenderOutcomeText | app/brain_memory.py:88-159 | the same, findings, notes and omitted count included, with the header, heading and footer built from the outcome's counters and source types; every kept line presents one of the first ten findings whole |
| BrainMemory.ObservedIsSortedSet | app/brain_memory.py:89-89 | the footer names each non-empty source type once, in order |
| BrainMemory.ArtifactSize | app/brain_memory.py:131-159 | that bound, for any header, heading, footer, findings and notes |
| BrainMemory.BoundChunks | app/researcher_adapter.py:533-545 | local inputs share one byte budget |
| BrainMemory.BoundedIsPrefix | app/researcher_adapter.py:533-545 | together within the budget, each a prefix of its input, and at most three bytes after a cut |
| BrainMemory.FittingIsWhole | app/researcher_adapter.py:540-542 | nothing is cut while all fits |
| BrainMemory.CutUsesTheBudget | app/researcher_adapter.py:533-545 | if anything is cut or dropped, all but three bytes of the budget are used |
| EgressGuard.SearchBudget.Consume | app/security.py:385-395 | a request passes if and only if fewer than the maximum have; the flag is set if and only if one was refused |
| EgressGuard.PopLast | app/security.py:514-517 | searching from the top and popping removes the last occurrence only |
| EgressGuard.LimitedIffBudget | app/security.py:304-305 | exactly the positions with a real budget count as active budgets |
| EgressGuard.ProvidersAndBelowMatch | app/security.py:82-83 | exactly the listed hosts and the hosts below them are search providers |
| EgressGuard.Guard.Enter | app/security.py:500-508 | depth and both stacks gain the context |
| EgressGuard.Guard.Exit | app/security.py:511-521 | whichever context leaves, depth and both stacks stay the bags of the active contexts |
| EgressGuard.FallbackIsUnanimous | app/security.py:286-297 | the fallback is a profile if and only if all active contexts have it, and denies all as soon as two differ, whatever the order of entering and leaving |
| EgressGuard.Guard.ActiveProfile | app/security.py:286-297 | the thread's own profile, else that fallback |
| EgressGuard.Guard.ConsumeSearchBudget | app/security.py:373-395 | requests to other hosts are free; those to a search provider or below it count on the thread's own budget, else on the only active one; with several they are refused on no one's account |

## Left out

- StatusRuns.StatusFallsAtMostOnce: for operations submitted under one key each, within the life of that key; so are the other theorems about a followed operation. StatusRuns.AtMostOneStartPerKey is about one key, within its life, and needs nothing of operation ids.
- OperationStore.OperationKeys.MarkStaleOperations: one undisturbed pass; the racing, split pass is the ReconcilerRead, ReconcilerFail, ReconcilerUnindex and ReconcilerIndex steps of StatusProtocol.
- Admission.FailedAdmissionRestores: one request at a time, no failing rollback call (RollbackParts says what those leave), no cancellation of the request (CancelledAdmissionKeepsAll), rollback within the admission lease.
- Admission.AdmissionService.RollBack: a cancellation of the request in the middle of its rollback, which stops it there, is not modelled.
- Admission.SplitReleaseNeedsSameKey: elsewhere in the module the compare and the delete are one step.
- ShieldedWaits.ShieldedWait: a task that ends at the very instant of its deadline is taken as ended.
- BackgroundTask.HoldSettledOnce: without competing reservations for the same operation id, whose rollback could release this task's hold.
- Cancellation.CancellationManager.CancelTask: the two lookups and the end of the awaited task are parameters here; their races are the joint steps of ConfirmedCancelIsFinal.
- Cancellation.CancellationManager.QuiesceTasks: when each task ends is a parameter; a finished task need not have left the registry, since only running ones are looked at.
- ProgressStream.DeliveredOnceInOrder: approximate trimming of a Redis stream is any trimming from the old end; in memory it is for operations that are not evicted while streamed.
- EvidenceGraph.Findings.Assemble: a passage carries its word set and negation flag, a text its sentences; tokenising, sentence splitting, safety checks of addresses, metadata and budget trimming of the report are inputs. Ids are the numbers in their names.
- EvidenceGraph.Findings.Judge: scores are exact reals instead of floats.
- Utf8Text.TruncateUtf8: lone surrogates, which cannot be encoded, do not occur.
- BrainMemory.RecallContext: a failing search or an invalid result list gives an empty context and is left to the caller.
- EgressGuard.Guard.ConsumeSearchBudget: the host is given; taking it from an address is left out. Context variables are the `own` parameters.
- Research itself, model and search calls, the Redis client and network appear only as outcomes and durations of awaits.
- Validation of requests, authentication, schemas, health, metrics, configuration: easy predicates or plumbing.
- Address and DNS safety, secret detection, file input reading: library parsers and operating-system behaviour.
- Float rounding, number formatting in scripts, JSON, rounding of TTLs: exact numbers and instants instead.
- `add_daily_spend`, `record_operation_spend` and spend calls without an operation id: not reached from admission; `delete_operation` and the in-memory slots and operation-id release: easy members.
- The heartbeat loop of the worker, `_retained_findings` and `trim_to_token_budget`: the lease loss they lead to is an event of the task model; the others are easy members.
