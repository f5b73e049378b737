# Course registration: a verified model

This project models the course-registration system of a university in Dafny
and proves what its seat counter, its message queue, its admission rules and
its caches promise.

Students submit CREATE and CANCEL batches. The API checks a request, moves a
Redis seat counter, inserts PENDING items and publishes a message. Workers take
messages from a queue and settle each item with one atomic SQL statement that
moves `sl_dk` and the item status together. Messages can be redelivered,
retried and dead-lettered, workers can crash between any two statements, and a
job reconciles Redis with the database.

`Protocol` is this system as a labelled transition system. One action is one
SQL statement or transaction, one queue operation or one API request; a handler
loads its status snapshot, settles entry after entry and marks the batch
COMPLETED, each in its own step; a retry publishes its copy and acknowledges in
two steps. `Safety`, `Seats`, `Conservation`, `Enrolments`, `Contention`,
`RedisLedger`, `Completion`, `Cancellations`, `DeliveryGuarantees`, `Retry` and
`DashboardCounts` prove properties of all its runs; `CleanRuns` says what one
handler without faults leaves behind; `DeadLetterRuns` gives two runs of the small system in `OneSection` that
show what the assumptions about dead letters are for. The code that works on
state is modelled as methods on classes and proved against the same steps: the
SQL statements and handlers in `Worker`, the consumer's channel in `Retry`, the
reconcile job in `RedisLedger`, the request code in `RegistrationsApi`, whose
decisions and messages `AdmissionRules` states in plain terms.

Separate modules hold the timetable check and its week ranges (`WeekRange`,
`WeekText`, `Timetable`), the lab and theory limits (`Pairing`, `PairingCount`),
the daily registration window (`Calendar`, `RegistrationWindow`, `LocalClock`),
the CSV printer and parser (`Csv`), and the token-locked read-through cache
(`ReadThrough`).

`Prelude` has finite sums, `Tables` the rows and statements, `Ledger` the
invariant of the tables, `Recovery` the crash and rerun results.

## Assumptions

- Admission is atomic: `SubmitCreate` and `SubmitCancel` check and insert in one
  action (`CreateAdmitted`, `CancelAdmitted`). A request that is rejected, or
  whose insert fails, is no action; `RegistrationsApi` states its effect.
- `regime.handlers`: which batches have at most one live handler at a time:
  `AnyNumber` none, `OnePerCancel` the CANCEL batches, `OnePerBatch` all. Where a
  batch has, its message is delivered only while no handler of it is live. A lost
  connection (`Redeliver`) puts a message back while its handler runs on, so
  otherwise any number of handlers may share a batch.
- `regime.dead`: which dead-letter transactions wait until no handler of their
  batch is live. This is an assumption of its own: with one handler per batch, a
  worker can publish the dead letter and crash before its acknowledgement, and
  the redelivered message then runs beside the dead letter. `AnyTime` is no
  restriction, `CancelsWait` makes CANCEL batches wait, `AllWait` all batches.
- What each theorem takes: nothing of the two for the seat bounds, `ConservedIff`,
  `SeatedIff`, `CompletedIsSettled`, `PayloadCoversBatch`, `NoBatchDropped` and
  the results of `Retry`; `OnePerCancel` and `CancelsWait` for the second half of
  `NoOverselling` and for `ClampNeverNeeded`; `OnePerBatch` and `CancelsWait` for
  `SeatConservation`, `KthSuccess`, `CancelBijection`, `DashboardCorrection`,
  `RedisIdentity` and `LawfulIff`; `OnePerBatch` and `AllWait` for `AlwaysLawful`
  and `ExactContention`. `SeatGivenBackTwice` shows that `AnyTime` is not enough
  for the results about seats, `RevivedUnlawful` that `CancelsWait` is not enough
  for `AlwaysLawful`.
- `maxRetries` is any natural number. The code reads a setting of 0 as 6, and a
  negative setting acts like 0 here.
- `Retry.ExclusiveForFree` proves both assumptions of runs in which no worker
  crashes and no connection is lost.
- A statement that throws was not applied (`Advance` with `fault`). The cache
  model does not assume this: a Redis command may throw before or after it took
  effect.
- `CatalogWf`: sections, credits and settings do not change during a run, the
  lookup by code agrees with the rows, and rows of one code agree on course, type
  and linked code.
- `Init`: no batch exists and every section starts with `0 <= sl_dk <= sl_max`;
  `base` is the initial `sl_dk`.
- Identifiers drawn at random (`randomUUID`) are fresh.

Item rows carry three history fields that the table does not store: the position
in the published payload, the source item the payload names, and the number of
seats taken and not given back. No modelled statement branches on them.

## What the code does not do

- `assertLabPairing` counts rows, and registrations list every row of a code. A
  student registered for a lab code with two rows, or a theory code with two rows
  that is not linked to itself, is refused every later CREATE request
  (`Pairing.RowsVersusCodes`, `Admission.RepeatedCodeBlocks`).
- A cancel whose insert fails leaves a counter of 0 where there was none
  (`RegistrationsApi.RollbackNetZero`).
- A failed CREATE keeps its Redis reservation until the next reconcile
  (`RedisLedger.DriftAtRest`). The comments in `createBatch` say that the
  reconcile runs every two minutes; the job is scheduled every ten.
- The acquire statement takes a seat when the item row is missing
  (`Conservation.SeatWithoutRow`); no run reaches that case
  (`Conservation.AttemptsFindTheirRow`).
- A dead letter does not look for a live handler of its batch. A crash between
  publishing it and acknowledging the message lets a cancel give its seat back
  twice (`DeadLetterRuns.SeatGivenBackTwice`, exactly when:
  `Conservation.SeatedIff`) or brings a request back that was answered FAILED,
  which may break a rule (`DeadLetterRuns.RevivedUnlawful`, exactly when:
  `Enrolments.LawfulIff`).
- A request that misses the lookup entry of a code sets the counters of that
  code to the free seats, which erases the reservations still in the queue
  (`RegistrationsApi.LookupMissErases`, exactly when:
  `RegistrationsApi.CountersKeptExactly`). The comment in `resolveSectionCodes`
  says that live counters are not overwritten; that holds for cached codes only.
- The API and the worker disagree about two rows that meet on a day, in periods
  and in weeks exactly when one of these holds and the other does not: a field of
  the section is 0; its time of day is missing (`Timetable.WorkerAgrees`).
- An exported file with a newline in a cell or with a row without cells does not
  import back (`Csv.FileRoundTrip`). `buildMetricsExportCsv` prints two rows
  without cells, so no metrics export does.
- A request whose publish fails or times out is answered with an error although
  its batch is stored and, if the message got through, will be worked on
  (`RegistrationsApi.RegistrationsService.CreateBatch`).
- A slot stays active to the end of its closing minute, up to a minute after its
  effective close (`RegistrationWindow.CloseBelongsToOpening`), and from then to
  the next opening it is closed (`RegistrationWindow.ClosedUntilNextOpening`).

## Model

| member | source | states |
|---|---|---|
| `Seats.NoOverselling` | apps/worker/src/registration/helpers/registration-helper.service.ts:142-206 | in every state of every run, whatever the consumers do, `0 <= sl_dk <= sl_max`; where handlers and dead letters of CANCEL batches come one at a time, `sl_dk >= base + SUCCESS creates` as well, with any number of workers on stale snapshots of one CREATE batch |
| `Seats.SeatConservation` | apps/worker/src/registration/helpers/registration-helper.service.ts:149-202 | with one handler per batch at a time, and dead letters of CANCEL batches waiting for it, `sl_dk` is exactly `base + SUCCESS creates` across all interleavings, crashes, redeliveries, retries and dead letters |
| `Seats.ClampNeverNeeded` | apps/worker/src/registration/helpers/registration-helper.service.ts:184-202 | with handlers and dead letters of CANCEL batches one at a time, the seat counter is at least 1 whenever a release step is about to run, so `GREATEST(sl_dk - 1, 0)` never clamps |
| `Conservation.ConservedIff` | apps/worker/src/registration/helpers/registration-helper.service.ts:142-206 | with nothing assumed about consumers: along any run `sl_dk = base + SUCCESS creates` holds on a section up to a state if and only if no step up to it takes a seat for an item already SUCCESS, gives back the seat of a source that is not SUCCESS, or marks a SUCCESS item FAILED |
| `Conservation.StepLevel` | apps/worker/src/registration/create-batch.handler.ts:56-83 | the same for one step from a balanced state: the balance survives if and only if the step is none of these three |
| `Conservation.SeatedIff` | apps/worker/src/registration/helpers/registration-helper.service.ts:142-206 | with nothing assumed about consumers: every registration on a section has a seat (`sl_dk >= base + SUCCESS creates`) up to a state if and only if no step up to it gives back, for a source that is not SUCCESS, a seat while `sl_dk > 0` and none is to spare |
| `Conservation.ReleaseSeated` | apps/worker/src/registration/helpers/registration-helper.service.ts:176-206 | releasing keeps every registration seated if and only if the source is SUCCESS at that moment, the clamp holds the counter at 0, or a seat is to spare |
| `DeadLetterRuns.SeatGivenBackTwice` | apps/worker/src/registration/dead-letter-consumer.service.ts:76-122 | for every number of retries `m`, a run of `4m + 17` steps with one handler per batch: a dead letter overlaps a redelivered cancel, the student cancels again, and one seat is given back twice; `sl_dk` ends at 2 with nobody registered and 3 at the start |
| `DeadLetterRuns.RevivedUnlawful` | apps/worker/src/registration/dead-letter-consumer.service.ts:76-122 | for every number of retries `m`, a run of `4m + 10` steps: a dead letter fails a CREATE item under its live handler, the student asks again, and the handler revives the failed item; the student then has one course from two batches |
| `Enrolments.RuleHolds` | apps/do-an/src/modules/registrations/registrations.service.ts:222-336 | with one handler per batch at a time, any downward-closed rule that admission keeps holds of what a student holds or waits for, in every state of every run that revives no FAILED item of that student, however much of a batch fails |
| `Enrolments.AlwaysLawful` | apps/do-an/src/modules/registrations/registrations.service.ts:265-336 | with one handler per batch at a time, and dead letters waiting for it: no timetable clash, one batch per course, credits within the cap, one lab code and two linked theory codes per course, for every student and semester in every state of every run |
| `Enrolments.LawfulIff` | apps/do-an/src/modules/registrations/registrations.service.ts:265-336 | with one handler per batch and only dead letters of CANCEL batches waiting: a student keeps every rule in all states up to one if and only if no step up to it revives a FAILED item of the student whose section and batch, added to what the student holds before the step, break a rule |
| `Enrolments.LawStep` | apps/do-an/src/modules/registrations/registrations.service.ts:265-336 | the same for one step from a lawful state |
| `Enrolments.RevivalAdds` | apps/worker/src/registration/helpers/registration-helper.service.ts:149-170 | a revival adds to what its student holds exactly the section and batch of the revived item |
| `Enrolments.RevivesExactly` | apps/worker/src/registration/helpers/registration-helper.service.ts:149-170 | a step turns a FAILED create item into SUCCESS if and only if its handler read it PENDING before the dead letter failed it, stands at its entry, and a seat is free |
| `Enrolments.HeldBefore` | apps/worker/src/registration/create-batch.handler.ts:56-75 | apart from the student's own CREATE requests, an item becomes held in a step if and only if the step revives it |
| `Enrolments.OneItemPerSection` | apps/do-an/src/modules/registrations/registrations.service.ts:863-880 | with one handler per batch and dead letters of CANCEL batches waiting, a student whom no step made break a rule never holds or waits for two items of one section, so which item the query keeps does not matter |
| `Contention.ExactContention` | scripts/k6/tc03-concurrency.js:4-6 | from any state of a run on, with one handler or dead letter per batch at a time: if no cancel of the section is pending or comes in, no statement throws for a batch with a PENDING item on it, and at first no copy of such a batch is dead, about to be, or marking an item of the section FAILED while it has seats, then once nothing on it is PENDING exactly the smaller of the seats free and the items pending then or asked for since are SUCCESS, and all the others FAILED |
| `Contention.KthSuccess` | apps/worker/src/registration/helpers/registration-helper.service.ts:149-170 | with one handler per batch at a time and dead letters of CANCEL batches waiting, the step that makes an item SUCCESS records `remaining_slots` = seats free at the start minus the registrations it leaves |
| `Contention.DistinctRecords` | apps/worker/src/registration/helpers/registration-helper.service.ts:149-170 | under the conditions of `ExactContention`, at every moment the successes since then record every number of seats from the seats free now up to one below the seats free then, each exactly once |
| `Cancellations.CancelsGranted` | apps/worker/src/registration/cancel-batch.handler.ts:45-92 | from any state of any run on: if no copy of a CANCEL batch dies and no statement throws for it, then once nothing of it is PENDING every item of it that names its registration and was not refused before is SUCCESS; with one handler per batch and dead letters of CANCEL batches waiting, that registration is CANCELLED |
| `CleanRuns.CleanCancel` | apps/worker/src/registration/cancel-batch.handler.ts:22-95 | the CANCEL handler run without a fault on any stored batch: every PENDING item with a source is SUCCESS and its source CANCELLED, each with the seats left, its section has one seat less taken, never below 0; every other PENDING item is FAILED; no other row and no other seat changes; the batch is COMPLETED; the two counts are the numbers of these items |
| `CleanRuns.CleanCreate` | apps/worker/src/registration/create-batch.handler.ts:23-86 | the same for CREATE: every PENDING item whose section has a free seat is SUCCESS with the seats left after it and its section has one more taken; every other PENDING item is FAILED; nothing else changes; the two counts are the numbers of these items |
| `CleanRuns.CancelFirst` | apps/worker/src/registration/cancel-batch.handler.ts:55-84 | so it stands after any number of entries: exactly the entries gone past are settled this way |
| `CleanRuns.CreateFirst` | apps/worker/src/registration/create-batch.handler.ts:56-75 | and so it stands for CREATE |
| `Recovery.CrashTransparent` | apps/worker/src/registration/create-batch.handler.ts:46-83 | stopping a handler after any number of steps and running it again ends in the tables of one uninterrupted run |
| `Recovery.CrashesTransparent` | apps/worker/src/registration/cancel-batch.handler.ts:45-92 | the same for any sequence of interrupted attempts |
| `Recovery.FinishedAgain` | apps/worker/src/registration/create-batch.handler.ts:46-83 | rerunning a settled batch changes no table |
| `Recovery.RunsToSettle` | apps/worker/src/registration/create-batch.handler.ts:56-83 | a handler left alone finishes, in at most two steps per entry and two more, in exactly the tables that settling entry by entry describes |
| `RedisLedger.RedisIdentity` | apps/do-an/src/modules/registrations/registrations.service.ts:342-403 | with one handler per batch and dead letters of CANCEL batches waiting: from a reconcile of a key on, as long as no cache fill writes that key (fills of other keys are free), counter minus free seats is `(P0 - P - F) + (Q + G - Q0)` |
| `RedisLedger.DriftAtRest` | apps/do-an/src/modules/registrations/registrations.service.ts:342-403 | under the same conditions, with nothing pending, each CREATE failed since the reconcile leaves the counter one too low and each failed CANCEL one too high |
| `RedisLedger.ReconcileIdempotent` | apps/scheduler/src/prewarm/registration-prewarm.service.ts:117-142 | a second reconcile with no step between finds no key to fix and leaves every key as it is |
| `Seats.CancelBijection` | apps/do-an/src/modules/registrations/registrations.service.ts:585-587 | with one handler per batch and dead letters of CANCEL batches waiting, SUCCESS cancel items and CANCELLED create items correspond one to one in every state, within one student, semester and section |
| `DashboardCounts.DashboardCorrection` | apps/do-an/src/modules/dashboard/dashboard.service.ts:176-208 | under the same assumption, in every state and for every semester, the corrected success count is the number of its CREATE items that were SUCCESS at some moment of the run, and the total is the number of its items |
| `DashboardCounts.CancelsPerSemester` | apps/do-an/src/modules/dashboard/dashboard.service.ts:195-197 | under the same assumption, within a semester as many CREATE items are CANCELLED as CANCEL items succeeded |
| `DashboardCounts.GetOverview` | apps/do-an/src/modules/dashboard/dashboard.service.ts:170-208 | the loop over the grouped query computes the counts of the semester |
| `Seats.StatusSteps` | apps/worker/src/registration/create-batch.handler.ts:56-75 | with one handler per batch at a time, the item transitions are PENDING to SUCCESS or FAILED and SUCCESS to CANCELLED for create items; a create item may go from FAILED to SUCCESS only where dead letters of CREATE batches do not wait |
| `Completion.CompletedIsSettled` | apps/worker/src/registration/create-batch.handler.ts:77-83 | in every state of every run no item of a COMPLETED batch is PENDING, by the handler and by the dead-letter route, also when handlers share a batch or a dead letter overlaps one |
| `Completion.TidyHolds` | apps/worker/src/registration/create-batch.handler.ts:46-83 | the invariant behind it: a PENDING item lies at or after the position of every live handler of its batch, and every snapshot has it PENDING |
| `Seats.PayloadCoversBatch` | apps/do-an/src/modules/registrations/registrations.service.ts:410-434 | payload entries are distinct and are exactly the stored items of the batch |
| `DeliveryGuarantees.NoBatchDropped` | apps/worker/src/registration/registration-consumer.service.ts:110-125 | in every state of every run, crashes included, an accepted batch is COMPLETED, or a copy of its message is still to be worked on, or its message was never queued, or its dead-letter transaction failed |
| `Retry.BoundedHandling` | apps/worker/src/registration/registration-consumer.service.ts:146-161 | without consumer crashes and lost connections a batch is handed to a handler at most `maxRetries + 1` times, its header says how often before, and first-queued-at is present exactly on retries |
| `Retry.FirstQueuedFixed` | apps/worker/src/registration/registration-consumer.service.ts:172-186 | without crashes and lost connections first-queued-at of a batch's message never changes once set |
| `Retry.ExclusiveForFree` | apps/worker/src/registration/registration-consumer.service.ts:137-162 | without crashes and lost connections a queued or dead message has no live handler of its batch: one handler per batch, and dead letters that wait for it, are consequences there, not assumptions |
| `Retry.CrashFreeConservation` | apps/worker/src/registration/helpers/registration-helper.service.ts:149-202 | hence seat conservation holds in every run without crashes and lost connections, with nothing assumed about consumers |
| `Retry.CrashFreeLawful` | apps/do-an/src/modules/registrations/registrations.service.ts:265-336 | and so does every admission rule, for every student and semester |
| `Retry.ConsumersStop` | apps/worker/src/registration/registration-consumer.service.ts:137-199 | once requests and crashes stop, at most a computable number of consumer steps can follow, whatever the schedule |
| `Retry.ConsumersProgress` | apps/worker/src/registration/registration-consumer.service.ts:110-125 | while a copy is left some consumer step is enabled |
| `Retry.AtRest` | apps/worker/src/registration/dead-letter-consumer.service.ts:76-87 | when no consumer step is enabled every batch is COMPLETED with nothing PENDING, unless its message was never queued or its dead-letter transaction failed; nothing is assumed about consumers |
| `Safety.RunKeeps` | apps/worker/src/registration/create-batch.handler.ts:23-86 | the protocol invariant (seats balance, held seats, batches, handlers) holds in every state of every run in which handlers and dead letters of CANCEL batches come one at a time |
| `Safety.StepKeeps` | apps/worker/src/registration/create-batch.handler.ts:23-86 | every API request, delivery, handler step, retry, crash, lost connection and dead-letter step keeps that invariant |
| `Safety.ShapedHolds` | apps/do-an/src/modules/registrations/registrations.service.ts:356-434 | without any assumption about consumers, in every state of every run every item belongs to a batch whose payload names it at its place, with its section and source |
| `Conservation.SeatWithoutRow` | apps/worker/src/registration/helpers/registration-helper.service.ts:142-170 | the acquire statement takes a seat and marks no row if and only if a seat is free and the item row does not exist; it then reports the section as full |
| `Conservation.SeatWithRow` | apps/worker/src/registration/helpers/registration-helper.service.ts:142-170 | with a row, seat and row move together or neither does, the result says which, and no other row or seat changes |
| `Conservation.AttemptsFindTheirRow` | apps/worker/src/registration/create-batch.handler.ts:56-75 | in every state of every run the row of every entry of a stored batch exists, so no handler meets that case |
| `Conservation.AcquireExact` | apps/worker/src/registration/helpers/registration-helper.service.ts:142-170 | acquiring keeps the counter at `base + SUCCESS creates` if and only if no seat of the section is taken or the item is a create item that is not SUCCESS yet |
| `Conservation.ReleaseExact` | apps/worker/src/registration/helpers/registration-helper.service.ts:176-206 | releasing keeps it if and only if the source is SUCCESS at that moment or the clamp holds the counter at 0 |
| `Conservation.MarkFailedExact` | apps/worker/src/registration/helpers/registration-helper.service.ts:124-133 | marking FAILED, which looks at no status, keeps it if and only if the item is not a registration |
| `Conservation.DeadLetterExact` | apps/worker/src/registration/dead-letter-consumer.service.ts:100-122 | the dead-letter transaction never moves a registration, leaves nothing of the batch PENDING, and changes no other row |
| `Worker.CreateBatchHandler.Handle` | apps/worker/src/registration/create-batch.handler.ts:23-86 | the loop is a run of handler steps for every pattern of throwing statements; the success count is the number of its steps that settle an entry and the fail count the number that mark one FAILED, adding up to the entries the snapshot reported PENDING |
| `Worker.CreateBatchHandler.TrySettle` | apps/worker/src/registration/create-batch.handler.ts:56-75 | one entry: skipped, settled, refused and marked FAILED, or thrown |
| `Worker.CancelBatchHandler.Handle` | apps/worker/src/registration/cancel-batch.handler.ts:22-95 | the same for cancel batches |
| `Worker.CancelBatchHandler.TrySettle` | apps/worker/src/registration/cancel-batch.handler.ts:55-84 | one cancel entry, failing without touching a seat when section or source is missing |
| `Recovery.CreateAfterCrashes` | apps/worker/src/registration/create-batch.handler.ts:23-86 | a fault-free run of the CREATE handler method after any sequence of crashed attempts succeeds and leaves the tables one clean run would leave |
| `Recovery.CancelAfterCrashes` | apps/worker/src/registration/cancel-batch.handler.ts:22-95 | the same for the CANCEL handler method |
| `Recovery.SettledStatus` | apps/worker/src/registration/create-batch.handler.ts:56-75 | after the first entries, each entry is settled exactly when it comes before the position or was not PENDING in the snapshot |
| `Recovery.CountsAreStatuses` | apps/worker/src/registration/create-batch.handler.ts:56-86 | after a finished handler, of the entries its snapshot had PENDING as many are SUCCESS as it counted successes and as many FAILED as it counted failures, whatever statements threw |
| `Retry.Channel.HandleProcessingFailure` | apps/worker/src/registration/registration-consumer.service.ts:137-162 | the copy is published, with the header one higher and first-queued-at kept, or to the dead-letter queue when retries are used up; then the message is acknowledged |
| `Retry.FailureIsTwoActions` | apps/worker/src/registration/registration-consumer.service.ts:137-199 | the method is the protocol's republish step followed by its acknowledge step |
| `Ledger.AcquireKeeps` | apps/worker/src/registration/helpers/registration-helper.service.ts:142-170 | the acquire statement keeps the table invariant and only settles |
| `Ledger.ReleaseKeeps` | apps/worker/src/registration/helpers/registration-helper.service.ts:176-206 | so does the release statement on a waiting cancel item |
| `Ledger.MarkFailedKeeps` | apps/worker/src/registration/helpers/registration-helper.service.ts:124-133 | so does marking an item FAILED |
| `Ledger.MarkBatchFailedKeeps` | apps/worker/src/registration/dead-letter-consumer.service.ts:100-122 | so does the dead-letter transaction |
| `Ledger.InsertKeeps` | apps/do-an/src/modules/registrations/registrations.service.ts:356-382 | so does inserting a fresh batch |
| `Ledger.ReleaseUnclamped` | apps/worker/src/registration/helpers/registration-helper.service.ts:184-202 | the seat given back is one the source holds |
| `RegistrationsApi.RegistrationsService.CreateBatch` | apps/do-an/src/modules/registrations/registrations.service.ts:213-449 | the first failing check is the answer; the codes without a lookup entry have the counters of all their rows overwritten with the free seats, even if the request is then rejected, and beyond that a rejected request only fills missing counters; a failed insert leaves the counters as the capacity check left them; an admitted request is the protocol's CacheFill and SubmitCreate steps and its message body is the stored payload; it is answered with an error although its batch is stored when the publish is not confirmed |
| `RegistrationsApi.RegistrationsService.CancelBatch` | apps/do-an/src/modules/registrations/registrations.service.ts:530-691 | the same for cancels, which resolve their codes before every check; the counters after a failed insert are stated exactly |
| `RegistrationsApi.RegistrationsService.ResolveSectionCodes` | apps/do-an/src/modules/registrations/registrations.service.ts:59-117 | the loops over cached and missed codes leave exactly the counters of a reconcile of the missed codes' rows, and every code resolves if and only if each has rows |
| `RegistrationsApi.LookupMissErases` | apps/do-an/src/modules/registrations/registrations.service.ts:171-211 | a counter with `r` reservations still to be served goes up by `r` when a request misses the lookup entry of its code |
| `RegistrationsApi.CountersKeptExactly` | apps/do-an/src/modules/registrations/registrations.service.ts:171-211 | a request leaves every existing counter alone if and only if each counter of a missed code already equals the free seats |
| `AdmissionRules.Register` | apps/do-an/src/modules/registrations/registrations.service.ts:213-449 | createBatch over every request: it is refused exactly when one of these holds, and for the first that does: not the current semester or outside `openAt <= now <= closeAt`; a waiting batch of the student; a code without rows; a first row CANCELLED or REGISTRATION_CLOSED; a row with no seat by its counter, or by the tables where its code was not cached or it has no counter; a course already registered; the pairing rule broken; two rows asked for or registered in conflict; the credits of all courses above the limit. Otherwise the batch is stored for the student with one entry per row of every code, and the message body is its payload |
| `AdmissionRules.Withdraw` | apps/do-an/src/modules/registrations/registrations.service.ts:530-691 | cancelBatch over every request: refused exactly for the first of: a code without rows; not the current semester or outside the session; a first row the student is not registered on; a waiting CANCEL batch. Otherwise the batch is stored with one entry per row of every code; an entry has a source if and only if the student is registered on its row, and the source is a registration of the student on that row |
| `AdmissionRules.CreateDecision` | apps/do-an/src/modules/registrations/registrations.service.ts:218-336 | the checks of createBatch, one by one, are those conditions |
| `AdmissionRules.CancelDecision` | apps/do-an/src/modules/registrations/registrations.service.ts:539-582 | and so are those of cancelBatch |
| `AdmissionRules.CreateStores` | apps/do-an/src/modules/registrations/registrations.service.ts:356-434 | every SubmitCreate step of a run stores such a batch |
| `AdmissionRules.CancelStores` | apps/do-an/src/modules/registrations/registrations.service.ts:585-676 | and so does every SubmitCancel step, with these sources |
| `AdmissionRules.SourceExactly` | apps/do-an/src/modules/registrations/registrations.service.ts:585-587 | the source chosen for a row is a registration of the student on it, and there is one if and only if the student is registered there |
| `RegistrationsApi.RollbackNetZero` | apps/do-an/src/modules/registrations/registrations.service.ts:591-654 | reserve then roll back restores the counters if and only if every key existed; a missing key comes back as 0 |
| `RegistrationsApi.RegistrationsService.AssertSectionsHaveCapacityRedisFirst` | apps/do-an/src/modules/registrations/registrations.service.ts:451-526 | missing counters are filled from the tables, present ones untouched, and the request is refused exactly when some row has no seat left in the filled counters |
| `RegistrationsApi.RegistrationsService.AdjustSlots` | apps/do-an/src/modules/registrations/registrations.service.ts:342-353 | every distinct row moves by the given amount once, a missing key counting as 0 |
| `RegistrationsApi.BuildCreatePayload` | apps/do-an/src/modules/registrations/registrations.service.ts:410-434 | the payload pairs every row with its own item whatever order the insert lists them in |
| `RegistrationsApi.BuildCancelPayload` | apps/do-an/src/modules/registrations/registrations.service.ts:585-676 | the same, with the source item of each section, absent where the section is not registered |
| `RegistrationsApi.OwnItem` | apps/do-an/src/modules/registrations/registrations.service.ts:410-412 | the map from section to item gives each row its own item |
| `RegistrationsApi.FindActiveRegistrationItems` | apps/do-an/src/modules/registrations/registrations.service.ts:816-880 | the loop over the query answer keeps one registered item for every registered section |
| `RegistrationsApi.LatestIsFirst` | apps/do-an/src/modules/registrations/registrations.service.ts:871-877 | and that item is the first listed of its section |
| `RegistrationsApi.SameCourses` | apps/do-an/src/modules/registrations/registrations.service.ts:953-979 | the credit query over all items and the registered sections name the same courses |
| `RegistrationsApi.RegistrationsService.CheckCreate` | apps/do-an/src/modules/registrations/registrations.service.ts:218-336 | the sequence of checks returns the first failing one, evaluated against the counters as resolving the codes leaves them, and leaves the counters as the check it reached does |
| `RegistrationsApi.RegistrationsService.CheckCancel` | apps/do-an/src/modules/registrations/registrations.service.ts:539-582 | the sequence of cancel checks returns the first failing one |
| `RegistrationsApi.BumpEachIsBump` | apps/do-an/src/modules/registrations/registrations.service.ts:347-350 | INCRBY one after the other over distinct keys moves each key once |
| `Admission.PassedExtends` | apps/do-an/src/modules/registrations/registrations.service.ts:265-336 | a request that passes the checks extends a lawful set of registrations to a lawful set |
| `Admission.LawfulDownward` | apps/do-an/src/modules/registrations/registrations.service.ts:265-336 | losing registrations never breaks a rule |
| `Admission.AllRowsDistinct` | apps/do-an/src/modules/registrations/registrations.service.ts:242-243 | the rows of distinct codes are distinct |
| `Admission.RowsOfCodes` | apps/do-an/src/modules/registrations/registrations.service.ts:225-243 | every row of a request is a row of one of its codes |
| `Admission.RepeatedCodeBlocks` | apps/do-an/src/modules/registrations/registrations.service.ts:295-309 | being registered for a lab code with two rows, or a theory code with two rows not linked to itself, rejects every further CREATE request, whatever it asks for |
| `Enrolments.AdmissionLawful` | apps/do-an/src/modules/registrations/registrations.service.ts:265-336 | in any reachable state an admitted request keeps the student lawful |
| `Enrolments.ActiveListsHeld` | apps/do-an/src/modules/registrations/registrations.service.ts:222-279 | when a request is accepted nothing of the student is pending, so the query lists everything held |
| `Safety.CreateInsertable` | apps/do-an/src/modules/registrations/registrations.service.ts:356-382 | an accepted CREATE inserts fresh items over distinct known sections |
| `Safety.CancelInsertable` | apps/do-an/src/modules/registrations/registrations.service.ts:559-633 | every cancel entry with a source names a registered item of that student that no other cancel is waiting on |
| `Timetable.ConflictValidator.AssertNoScheduleConflict` | apps/do-an/src/modules/registrations/helpers/registration-batch-validator.service.ts:148-209 | the bucketed search throws if and only if two fully scheduled rows of different codes share day and time of day and overlap in periods and weeks, and the pair it names does |
| `Timetable.ConflictValidator.GroupBySlot` | apps/do-an/src/modules/registrations/helpers/registration-batch-validator.service.ts:158-171 | every scheduled row is in the bucket of its key and nothing else is |
| `Timetable.KeyInjective` | apps/do-an/src/modules/registrations/helpers/registration-batch-validator.service.ts:163-167 | equal bucket keys mean the same day and the same time of day |
| `Timetable.PairsSuffice` | apps/do-an/src/modules/registrations/helpers/registration-batch-validator.service.ts:173-207 | comparing each pair once is comparing all pairs |
| `Timetable.ConflictOrderIrrelevant` | apps/do-an/src/modules/registrations/helpers/registration-batch-validator.service.ts:148-209 | the result does not depend on the order of the rows |
| `Timetable.CheckScheduleConflict` | apps/worker/src/registration/helpers/registration-helper.service.ts:73-91 | the worker's check, with JavaScript truthiness of null and 0 |
| `Timetable.WorkerAgrees` | apps/worker/src/registration/helpers/registration-helper.service.ts:73-91 | exactly when the API's check and the worker's agree on two rows of different codes |
| `Timetable.SharedPeriod` | apps/do-an/src/modules/registrations/helpers/registration-batch-validator.service.ts:181-196 | rows whose periods run forwards conflict if and only if their codes differ, day and time of day are the same, the weeks overlap and one period belongs to both |
| `Pairing.AssertLabPairing` | apps/do-an/src/modules/registrations/helpers/registration-batch-validator.service.ts:69-139 | no error if and only if every course has at most one lab row, at most two theory rows and then linked, a lab where required and a theory row beside each lab |
| `Pairing.CheckCourse` | apps/do-an/src/modules/registrations/helpers/registration-batch-validator.service.ts:84-137 | the filters and counts decide that rule for one course |
| `Pairing.OneCourseRule` | apps/do-an/src/modules/registrations/helpers/registration-batch-validator.service.ts:84-137 | inside one course the rule is three counts and one link |
| `Pairing.GroupsSuffice` | apps/do-an/src/modules/registrations/helpers/registration-batch-validator.service.ts:80-83 | checking course by course checks the list |
| `Pairing.GroupPasses` | apps/do-an/src/modules/registrations/helpers/registration-batch-validator.service.ts:80-83 | and a list that passes passes in every course |
| `Pairing.GroupByCourse` | apps/do-an/src/modules/registrations/helpers/registration-batch-validator.service.ts:78-83 | grouping keeps each course's rows in order |
| `Pairing.RowsVersusCodes` | apps/do-an/src/modules/registrations/helpers/registration-batch-validator.service.ts:84-137 | the check, which counts rows, is the rule about section codes if and only if no lab code is listed with two rows, no theory code that is not linked to itself is, and no three theory rows of a course share a code |
| `PairingCount.PairingIsCounting` | apps/do-an/src/modules/registrations/helpers/registration-batch-validator.service.ts:84-137 | the rule by counting, per course: at most one row of type TN or TH; at most two of type LT, LT_BT or BT, and two only if one names the other; a lab row where one is required; a theory row beside a lab row |
| `Pairing.TwoRowLabExample` | apps/do-an/src/modules/registrations/helpers/registration-batch-validator.service.ts:91-97 | a lab code with two meetings passes when requested and fails once both rows are registered |
| `WeekRange.ParseWeekRange` | libs/shared/src/schedule-week-range.util.ts:1-37 | the parsed set is the union of the tokens' weeks; none when a token cannot be read or no week is listed |
| `WeekRange.WeekRangesOverlap` | libs/shared/src/schedule-week-range.util.ts:39-53 | true if and only if a side is unusable or some week is in both |
| `WeekText.ParsePrinted` | libs/shared/src/schedule-week-range.util.ts:1-37 | any list of weeks and ranges printed in decimal, with blanks, any of the four dashes and separators ; or , reads back as exactly the weeks named, and as none if it names no week |
| `WeekText.PrintedOverlap` | libs/shared/src/schedule-week-range.util.ts:39-53 | two such lists overlap if and only if one names no week or both name a common one |
| `WeekText.DecimalReads` | libs/shared/src/schedule-week-range.util.ts:15-29 | the decimal text of every number reads back as that number |
| `WeekText.WholeText` | libs/shared/src/schedule-week-range.util.ts:1-8 | cutting outer blanks off the whole text first changes no token |
| `WeekText.JunkUnreadable` | libs/shared/src/schedule-week-range.util.ts:33 | a character that is not a digit, blank, dash or separator makes the list unusable, so it overlaps every other |
| `WeekRange.OverlapSymmetric` | libs/shared/src/schedule-week-range.util.ts:39-53 | overlap is symmetric |
| `WeekRange.TokenOrderIrrelevant` | libs/shared/src/schedule-week-range.util.ts:8-34 | order, repetition, blank tokens and reversed endpoints do not matter |
| `WeekRange.RangeToken` | libs/shared/src/schedule-week-range.util.ts:14-27 | a range is read exactly when both endpoints are safe integers, and then as written |
| `WeekRange.SingleToken` | libs/shared/src/schedule-week-range.util.ts:29-33 | a single number is its rounded double |
| `WeekRange.UnsafeStaysUnsafe` | libs/shared/src/schedule-week-range.util.ts:17-21 | rounding to a double never turns an unsafe integer into a safe one |
| `RedisLedger.SlotCounters.ReconcileCurrentSemesterSlots` | apps/scheduler/src/prewarm/registration-prewarm.service.ts:91-155 | every listed section gets its free seats, other keys stay, and `fixedCount` counts the keys that were missing or wrong |
| `RedisLedger.ReconciledMeans` | apps/scheduler/src/prewarm/registration-prewarm.service.ts:117-142 | the counters after a reconcile: every listed one is the seats not taken or 0, every other key as before, and the wrong keys are those that changed |
| `RegistrationWindow.NextOpenExact` | libs/shared/src/registration-slot-window.util.ts:58-86 | null if and only if no instant from `at` on is active; from an inactive instant the result is active and nothing before it is; from an active instant it is that day's start |
| `RegistrationWindow.CloseBelongsToOpening` | libs/shared/src/registration-slot-window.util.ts:88-97 | opening and close fall on one local date, opening first, and every instant between, to the end of the closing minute, is active |
| `RegistrationWindow.ClosedUntilNextOpening` | libs/shared/src/registration-slot-window.util.ts:58-97 | from the end of the closing minute to the next opening no instant is active |
| `RegistrationWindow.MinuteAfterClose` | libs/shared/src/registration-slot-window.util.ts:45-56 | the minute after a closing minute is active if and only if the window runs from 00:00 to 23:59 and the day is not the last |
| `RegistrationWindow.Trichotomy` | libs/shared/src/registration-slot-window.util.ts:45-110 | every instant is exactly one of active, outside, and before the opening of the first covered date |
| `RegistrationWindow.ActiveMeaning` | libs/shared/src/registration-slot-window.util.ts:45-56 | string comparison of local parts is comparison of days and minutes (what these are at UTC: `LocalClock`) |
| `RegistrationWindow.NextOpenMeaning` | libs/shared/src/registration-slot-window.util.ts:58-86 | the branches pick the first covered day whose window has not closed |
| `RegistrationWindow.OutsideMeaning` | libs/shared/src/registration-slot-window.util.ts:99-110 | outside means after the last date, or after closing time on or after the first |
| `RegistrationWindow.AddOneDay` | libs/shared/src/registration-slot-window.util.ts:39-43 | setting the UTC date one higher gives the successor date, over month and year ends |
| `RegistrationWindow.SetUtcDateAdds` | libs/shared/src/registration-slot-window.util.ts:39-43 | overflowing the day of the month moves by whole days |
| `RegistrationWindow.PartsRead` | libs/shared/src/registration-slot-window.util.ts:15-33 | local parts read back as the instant's day and minute |
| `RegistrationWindow.WindowInNumbers` | apps/do-an/src/modules/registration-slots/registration-slots.service.ts:391-403 | the accepted slot ranges are ordered as days and as minutes |
| `Calendar.DateTextOrder` | libs/shared/src/registration-slot-window.util.ts:50-55 | zero-padded date strings order as calendar days |
| `Calendar.TimeTextOrder` | libs/shared/src/registration-slot-window.util.ts:50-55 | zero-padded time strings order as minutes |
| `Calendar.DatesOrderAsDays` | libs/shared/src/registration-slot-window.util.ts:39-43 | dates order and coincide as their day numbers |
| `Calendar.NextDayNumber` | libs/shared/src/registration-slot-window.util.ts:39-43 | the successor date is one day number later |
| `Calendar.DayNumberIsGregorian` | libs/shared/src/registration-slot-window.util.ts:35-43 | on every date the day number is the closed form of the Gregorian count with months in fives of 153 days |
| `LocalClock.EpochReads` | libs/shared/src/registration-slot-window.util.ts:1-33 | the Unix epoch is 1970-01-01 07:00 on the local clock |
| `LocalClock.ClockReads` | libs/shared/src/registration-slot-window.util.ts:15-33 | at seven hours before an instant of a UTC date and time, the local date and time are that date and time |
| `LocalClock.EveryInstantReads` | libs/shared/src/registration-slot-window.util.ts:15-33 | every instant has such a reading: local time is UTC plus seven hours |
| `LocalClock.InstantReads` | libs/shared/src/registration-slot-window.util.ts:35-37 | a local date and time converts to the instant seven hours before the same time at UTC |
| `LocalClock.ActiveOnTheClock` | libs/shared/src/registration-slot-window.util.ts:45-56 | a slot is active exactly on its dates and from its first to its last minute, on the clock of UTC plus seven |
| `LocalClock.OpensOnTheClock` | libs/shared/src/registration-slot-window.util.ts:58-97 | openings and closings lie on the slot's dates at its start and end time on that clock |
| `Csv.LineRoundTrip` | apps/do-an/src/modules/dashboard/dashboard.service.ts:675-684 | a printed row reads back as its cells if and only if it has a cell, quotes, commas and newlines included |
| `Csv.FileRoundTrip` | apps/do-an/src/modules/class-sections/class-sections.service.ts:912-916 | an exported file imports to its rows if and only if every row has a cell and no cell holds a newline, because the import cuts lines before it reads quotes |
| `Csv.ParseCsvLine` | apps/do-an/src/modules/class-sections/class-sections.service.ts:1193-1223 | the index loop computes the parser's state machine |
| `Csv.ReadCell` | apps/do-an/src/modules/dashboard/dashboard.service.ts:680-684 | an escaped cell followed by a comma or the end reads back as itself |
| `Csv.ReadQuoted` | apps/do-an/src/modules/class-sections/class-sections.service.ts:1201-1210 | inside quotes doubled quotes come back single and the closing quote ends the cell |
| `Csv.EscapedCell` | apps/do-an/src/modules/dashboard/dashboard.service.ts:680-684 | escaping keeps newlines and never ends a cell in a carriage return |
| `Csv.QuotedExactly` | apps/do-an/src/modules/dashboard/dashboard.service.ts:680-684 | a cell is quoted if and only if it holds a comma, a quote or a line break, and printed as it is otherwise |
| `ReadThrough.ReleaseIsOwn` | apps/do-an/src/modules/registration-slots/registration-slots.service.ts:516-531 | in any run no step of a reader removes or replaces a lock another reader took, and a release that goes through leaves no lock of its own |
| `ReadThrough.OneLoader` | apps/do-an/src/modules/registration-slots/registration-slots.service.ts:459-486 | unless the lock expires at most one reader is loading under it |
| `ReadThrough.ReturnedWasLoaded` | apps/do-an/src/modules/registration-slots/registration-slots.service.ts:455-499 | every value returned was returned by loadFromDb at an earlier step of the run |
| `ReadThrough.SlotsCache.ReadThroughRegistrationSlotsCache` | apps/do-an/src/modules/registration-slots/registration-slots.service.ts:455-499 | the method is a run of reader steps, phase by phase and write by write, of at most 24 calls |
| `ReadThrough.SlotsCache.Poll` | apps/do-an/src/modules/registration-slots/registration-slots.service.ts:488-494 | polling ends within 20 sleeps, in the cached value or the fallback |
| `ReadThrough.SlotsCache.LoadUnderLock` | apps/do-an/src/modules/registration-slots/registration-slots.service.ts:468-485 | the lock is released on every path, and an exception in the finally block replaces the result |
| `ReadThrough.ReadSlots` | apps/do-an/src/modules/registration-slots/registration-slots.service.ts:455-499 | a cached value is returned; with nothing cached and the lock free the reader takes the lock, returns and caches what it loads and drops its lock; while another holds the lock it returns the first value a poll finds within a second, or else loads without the cache |

## Left out

- Failure reasons, `processedAt`, log lines and the batch metrics in Redis: no step depends on them.
- The contents of the section lookup entries: a code resolves to its rows in the catalog of `CatalogWf`, cached or not. Which codes miss is a parameter, and the counters a miss writes are modelled.
- Errors of the Redis pipelines in the API (they are caught and logged): the counters are taken to move. A Redis failure, and a counter that expires, are covered in the runs by `CacheFill`, which lets every counter take any value or vanish.
- The counters a rejected request fills or overwrites: in the runs this is `CacheFill` too.
- Messages whose body is not JSON, unknown event types and non-numeric retry headers: the API publishes none.
- The value of the credit aggregate: `SumCredits` stands for the database's sum.
- All rows of one section code succeeding or failing together, and lab/theory completeness after a partial failure: the code does not provide them.
- Slot-cache fills from stale list responses: `NoFill` excludes those that write the key from the ledger results about it.
- `findNextForStudent`, student-code ranges and the slot CRUD: no hard state.
- RegistrationWindow.NextOpenExact: dates are real calendar dates with four-digit years, and `at` is before 31 December 9999, because a five-digit year sorts before a four-digit one as a string; time zones other than a fixed +07:00 are not modelled.
- RegistrationWindow.AddOneDay: stated for one day, the only step the window functions take.
- Csv.FileRoundTrip: states what the split and the line parser give; header lookup, trimming and row validation of the import are not modelled, nor is JavaScript number formatting.
- Retry.AtRest: assumes the message was queued and the dead-letter transaction did not fail; a batch for which this does not hold is recorded in `lost` and may stay PENDING.
- Retry.BoundedHandling: excludes consumer crashes and lost connections, because a redelivery after one keeps its header.
- ReadThrough.ReturnedWasLoaded: a loader that is slow may fill the cache after an invalidation, so no bound on the age of a value is claimed.
- JSON conversion of cached slots and of `createdAt`: values are kept as they are.
- Controllers, DTO validation, authentication, notifications, course, user and grade CRUD, dashboards other than the item counts, and the prerequisite check, which the live registration path does not call.
