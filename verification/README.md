# Verified model of the macro data platform

The platform collects macro-economic and market data from providers, turns it into a daily report
and delivers the report to a chat. This project models the parts of it where workers overlap,
crash and wake up again, and the parts where one function relies on what another has written, and
proves what they promise.

- **Ingestion.** `RunLedger` is the table of provider runs, keyed by their request and fenced by
  attempt number and lease; `JobRunner` is the program that executes one request over it.
  `TaskCheckpoint` is the scheduler's progress row of a report date, fenced by epoch and owner;
  `ScheduledTask` is the loop that walks a provider's pages. `IngestionProtocol` puts any number of
  workers, clocks, crashes and foreign clients on top: whatever they do, a checkpoint summarizes
  one sequential walk; `IngestionRuns` says what a worker alone gets done. `PageCommit` is the
  transaction that writes a page, with rollback and replay.
- **Delivery.** `DeliveryRow` and `DeliveryService` are the attempt row and the sender loops,
  `DeliveryProtocol` is the interleaving of senders, manual retriers and crashes, for reports and,
  with fewer resumable statuses, for workflow alerts. `RecoveryProtocol` and `RecoveryService` are
  the operator actions that trigger a manual retry at most once for a request. `DeliveryRuns` and
  `RecoveryRuns` show that one actor alone gets through.
- **Facts and pages.** `BarVersions` compares deduplicated base rows and revisions with a full
  log. `Base64Url` (sections 3.2 and 5 of RFC 4648) and `CursorCodec` are the cursors,
  `CursorWalk` follows them, `BaoStockPaging` and `FixturePaging` are two providers whose pages
  come from one snapshot.
- **Reports.** `DayPolicy`, `QualityGate`, `SnapshotMaterializer` and `GateAgreement` lead from an
  exchange calendar and collected evidence to a quality decision. `EvidenceOutcome` says snapshot
  and decision in terms of the evidence itself, `PolicyReading` which policies are accepted.
  `ReportContract`, `ReportValidator`, `ReportPublication`, `ReportFallback` and
  `MaterializedFallback` lead from a snapshot to a published report. `ReportReach` and
  `ReportWitness` say what the checks miss.
- **Schedule.** `ScheduledWorker` and `ScheduledRuntime` bound tries, backoff and attempts.

Where the source updates rows or lists in place, the model is a method with loops or a class whose
methods are tied to a function of the old state; what holds over all runs is then proved about
that function. A protocol is a function `Next` from a state and a step to a state, and a run is a
list of steps, so a theorem about every list of steps is a theorem about every interleaving. A
transaction is one step, and an aborted one changes nothing.

Sender and runner programs call `OthersRun` between their own transactions. Its contract says what
everybody else may have done meanwhile, and the protocol lemma named beside it shows that nobody
does more; callers see that contract only. In a call whose ghost parameter `calm` is set there are
no others, and the clauses about calm calls say what such a call gets done.

Some properties turned out to hold only in part, and are proved in their exact form:

- A checkpoint lists one run for each page exactly when cursors never repeat, and its counts are
  the stored ones of the listed runs exactly when the pages read again carry none
  (`TaskCheckpoint.CountsMatchRunIdsExactly`).
- A macro release whose checksum returns after another one reads back the other one
  (`BarVersions.ReleasesReadLikeAFullLogExactly`, `BarVersions.ReturningReleaseIsMissed`); a bar
  that arrives late with the newest checksum is lost to reads in between
  (`BarVersions.DeduplicationIsInvisible`, `BarVersions.LateBarIsLost`).
- The finalized payload of a candidate report can break the report contract, because the
  rewritten notice counts its own text only and keeps the candidate's maximum
  (`ReportPublication.FinalizedMeetsContractExactlyWhen`,
  `ReportWitness.FinalizedCandidateBreaksTheContract`).
- The validator looks up the facts that sections, items and claims name, but not those inside a
  claim's value, which the contract does collect. Such a fact is one of the snapshot's, but it may
  be late and uncited (`ReportReach.BackingIsSureExactlyWhen`,
  `ReportWitness.LateFactIsReachedUnseen`).
- A fallback report over a fact whose value is a boolean never validates: a boolean counts as a
  number but does not read as a decimal, so no claim equals it
  (`ReportFallback.FallbackIsSoundExactlyWhen`, `ReportFallback.BooleanStopsTheFallback`).
- The automatic resume of a delivery compares no attempt numbers, so a sender's number can fall
  behind its row (`DeliveryProtocol.LocalNumberCanLag`); at-most-once delivery holds all the same.

## Model

| member | source | states |
|---|---|---|
| JobRunner.IngestionRunRepository.AcquireRun | src/macro_platform/storage/repositories.py:979-1015 | an unknown request gets a fresh run with attempt 1 and a lease; a known one gets the existing run; nothing else in the table moves |
| JobRunner.IngestionRunRepository.ClaimRecoverableRun | src/macro_platform/storage/repositories.py:1017-1052 | the new table and the lease are those of the claim transaction |
| JobRunner.IngestionRunRepository.RenewLease | src/macro_platform/storage/repositories.py:1054-1065 | only the current attempt of a running run is renewed, and only its expiry changes |
| JobRunner.IngestionRunRepository.CompleteRun | src/macro_platform/storage/repositories.py:1067-1095 | only the current attempt of a running run records its answer |
| JobRunner.IngestionRunRepository.FailRun | src/macro_platform/storage/repositories.py:1097-1108 | only the current attempt of a running run is marked failed |
| RunLedger.ClaimFences | src/macro_platform/storage/repositories.py:1017-1052 | a claim succeeds exactly on a recoverable run, strictly raises the attempt number and leaves no earlier lease an owner |
| RunLedger.LeaseShutsClaimsOut | src/macro_platform/storage/repositories.py:1017-1065 | over every history a running attempt still owns its run exactly if all claims came before its lease, as renewed so far, ran out and the holder has not ended the run; then the row is unchanged but for the renewed expiry, and a failure by the holder makes the run claimable at any time |
| RunLedger.GrantedLeaseHolds | src/macro_platform/storage/repositories.py:979-1052 | a lease just acquired or claimed owns its run exactly as long as claims come before it runs out and the holder does not end the run |
| RunLedger.StaleLeaseIsInert | src/macro_platform/storage/repositories.py:1054-1108 | after any transactions, renewing, completing or failing with a lease that lost its run changes nothing, ever |
| RunLedger.CompletionRecords | src/macro_platform/storage/repositories.py:1067-1135 | completing with an answer that can be replayed records exactly that answer for the request |
| RunLedger.ReplayReturnsTheRecordedResult | src/macro_platform/storage/repositories.py:1110-1135 | after any further transactions, a replay returns field by field what the completing execution returned |
| RunLedger.AtMostOneRecording | src/macro_platform/storage/repositories.py:1067-1135 | over every sequence of transactions a run records at most one replayable answer |
| RunLedger.ApplyAllKeeps | src/macro_platform/storage/repositories.py:979-1135 | every sequence of transactions keeps the table valid, attempt numbers never fall, and recorded answers and request keys stay |
| JobRunner.WaitOrReclaim | src/macro_platform/jobs/runner.py:155-192 | with other workers running in between: a replayed answer is the recorded one, a granted lease is a newer attempt that owns the run; the call never sleeps past its deadline and gives up on a live owner only at the deadline |
| JobRunner.AcquireCheckpointedRun | src/macro_platform/jobs/runner.py:130-153 | a recorded request is always replayed; a grant owns the run the request is keyed to |
| JobRunner.Execute | src/macro_platform/jobs/runner.py:76-128 | a recorded request is replayed and never runs its handler; an unknown one under a fresh run ID is always handled, and so, alone, is a free one; a handled request is settled by its handler's answer: a raising or unfitting handler marks the run failed and raises, a fitting answer is returned and recorded with every field exactly when its lease still owns the run, and alone it always does |
| JobRunner.SettleRun | src/macro_platform/jobs/runner.py:92-128 | the run, the request keys and the outcome after the handler came back: completed with its answer, failed with its error, or, without the run, an error and an untouched table |
| ScheduledTask.ScheduledTaskCheckpointStore.BeginOrLoad | src/macro_platform/storage/repositories.py:851-901 | inserts or re-leases an active checkpoint, leaves a completed one alone and refuses one of another identity |
| ScheduledTask.ScheduledTaskCheckpointStore.Advance | src/macro_platform/storage/repositories.py:903-942 | advances only under the current epoch and owner of an active checkpoint |
| TaskCheckpoint.WalksAreOneChain | src/macro_platform/jobs/scheduled_tasks.py:107-167 | two walks over the recorded answers of one checkpoint agree page by page as far as both go |
| TaskCheckpoint.AdvanceAppendsOnePage | src/macro_platform/storage/repositories.py:903-942 | a fenced advance turns the summary of a walk into the summary of the walk with one page more |
| TaskCheckpoint.CountsMatchRunIdsExactly | src/macro_platform/storage/repositories.py:903-942 | the run list is the pages' runs one for one exactly when cursors never repeat; the accepted and the rejected count each equal the sum of the stored results over the run list exactly when the pages read again carry none of it, and are larger otherwise |
| TaskCheckpoint.TotalAgainstStored | src/macro_platform/storage/repositories.py:1113-1135 | the pages' total of a count is at least the stored sum over the run list, and equal exactly when repeated pages count nothing |
| TaskCheckpoint.PageRequestsDiffer | src/macro_platform/jobs/scheduled_runtime.py:401-425 | a page request asks the configured region for the window around the local midnight of its report date, never forced and never dry; two of them are one ledger key exactly if date, request time and cursor agree |
| IngestionProtocol.NextKeeps | src/macro_platform/jobs/scheduled_tasks.py:107-167 | every step of any worker, crash, clock or foreign client keeps the invariant and only makes progress |
| IngestionProtocol.CheckpointIsOneSequentialWalk | src/macro_platform/jobs/scheduled_tasks.py:107-167 | after any interleaving a checkpoint summarizes a walk one reader could have made alone over the recorded answers, from the first claimer's request time, and its run list and both counts agree with the stored results as said above |
| IngestionProtocol.FirstClaimFixesTheWalk | src/macro_platform/storage/repositories.py:851-901 | the request time of a checkpoint is for good that of its first claimer |
| IngestionProtocol.ProgressIsNeverUndone | src/macro_platform/storage/repositories.py:851-942 | consumed pages, listed runs, both counts and completion are never taken back |
| IngestionProtocol.NoLostUpdate | src/macro_platform/storage/repositories.py:903-942 | while epoch and owner match, the local copy is the row, so rewriting the run list loses and repeats nothing; otherwise an advance changes nothing |
| IngestionProtocol.SuccessesAgree | src/macro_platform/jobs/scheduled_tasks.py:170-185 | reported successes of one checkpoint are one completed row without a cursor, whose run is in its run list, so the projection never raises; it summarizes the whole chain: every walk over the recorded answers is a prefix of it |
| IngestionRuns.BeginningATask | src/macro_platform/storage/repositories.py:851-901 | a worker that begins inserts a fresh checkpoint, re-leases an active one under the next epoch, or reports a completed one |
| IngestionRuns.PageAlone | src/macro_platform/jobs/scheduled_tasks.py:107-167 | a worker alone at a new page executes it, records the answer and advances its checkpoint to the answer's cursor, or completes it |
| IngestionRuns.WaiterGetsThrough | src/macro_platform/jobs/runner.py:155-192 | a waiting worker is given the recorded answer as soon as there is one, and the run itself once it failed, waits for a retry or its lease ran out |
| IngestionRuns.PageFails | src/macro_platform/jobs/runner.py:92-128 | a raising page fails its run with the error and leaves the checkpoint alone; a failed or retryable answer is recorded and ends the task as such |
| ScheduledTask.AdvanceWith | src/macro_platform/jobs/scheduled_tasks.py:131-160 | one advance keeps the row a sound summary of the walk over the ledger |
| ScheduledTask.RunTask | src/macro_platform/jobs/scheduled_tasks.py:107-167 | a reported success is the finished walk in the table; a completed checkpoint is reported without touching either table, and a key of another task is refused without touching them; alone over pages nobody has read, the call reads on from the stored cursor to the first page that does not go on, consumes exactly the pages before it, and ends as that page says |
| ScheduledTask.ReadPage | src/macro_platform/jobs/scheduled_tasks.py:124-167 | one round of the loop: alone over a new page the checkpoint consumes an answer with a cursor and goes on from it, and any other outcome ends the call by its kind |
| ScheduledTask.ResultFromCheckpoint | src/macro_platform/jobs/scheduled_tasks.py:170-185 | a row without a run raises; any other row is a success with the row's counts, run and run list |
| ScheduledTask.CompletedRowIsReported | src/macro_platform/jobs/scheduled_tasks.py:170-185 | a completed row is reported as a success that names the walk's last run, lists each run of the walk once and carries the walk's totals |
| PageCommit.IngestionCheckpointRepository.CommitPage | src/macro_platform/jobs/ingestion_checkpoint.py:88-112 | a page is skipped if its key is committed, rolled back if a write raises, and committed otherwise; then every bar has its old history with the versions of the page's own records upserted in order, and the slot's watermark is the page's; a skipped or rolled back page changes nothing |
| PageCommit.PagesAreUpserted | src/macro_platform/storage/repositories.py:183-261 | after any committed pages the history of every bar is its initial one with the versions of the records that name it upserted in order; bars no record names are unchanged |
| PageCommit.CommittedBarsReadLikeAFullLog | src/macro_platform/storage/repositories.py:183-261 | over committed pages whose versions of a new bar become available one after another, every read as of a time is the last version a record brought by then |
| PageCommit.IngestionCheckpointRepository.LoadWatermark | src/macro_platform/storage/repositories.py:1634-1645 | reads the watermark and cursor of the last committed page of its key |
| PageCommit.CommitKeepsConsistent | src/macro_platform/jobs/ingestion_checkpoint.py:88-112 | facts, commit rows and watermarks stay those of writing the committed pages in order |
| PageCommit.ReplayIsIdempotent | src/macro_platform/storage/repositories.py:1575-1608 | replaying committed pages any number of times commits nothing |
| PageCommit.EachPageOnce | src/macro_platform/storage/repositories.py:1575-1608 | over any order of commits, failures and replays each page that ever got through is written exactly once |
| DeliveryProtocol.NextKeeps | src/macro_platform/services/report_delivery.py:738-846 | every step of any sender, retrier or crash keeps the invariant that ties local number, created number and row |
| DeliveryProtocol.AtMostOnceDelivery | src/macro_platform/services/report_delivery.py:751-828 | cards accepted never exceed one plus the confirmed retries taken from an uncertain row, and sends never exceed the row's attempt number |
| DeliveryProtocol.OneSendInFlight | src/macro_platform/storage/repositories.py:1381-1458 | at most one sender is between creating an attempt and reporting it, and it holds the newest attempt |
| DeliveryProtocol.ReportLandsOnlyFromItsCreator | src/macro_platform/storage/repositories.py:1381-1408 | a status update lands exactly when the local number is the one the actor's own step created |
| DeliveryProtocol.ReportedSuccessIsFinal | src/macro_platform/services/report_delivery.py:539-614 | whoever is told a delivery succeeded sees a row that has succeeded for good |
| DeliveryProtocol.AbandonedAttemptIsNeverResent | src/macro_platform/storage/repositories.py:1410-1428 | a row left pending by a crash is never sent for again |
| DeliveryProtocol.LocalNumberCanLag | src/macro_platform/storage/repositories.py:1410-1428 | a run from the initial state after which a sender believes in attempt 2 while its own resume created attempt 3, and whatever it reports is not recorded |
| DeliveryProtocol.SendIsCounted | src/macro_platform/services/report_delivery.py:751-828 | a send puts a card into the chat exactly if the transport accepted it or, with an unknown outcome, it arrived after all |
| DeliveryProtocol.FoundRowDecides | src/macro_platform/services/report_delivery.py:539-614 | a delivery that finds the row goes on only from a waiting one with attempts left, and a caller that lost the row is given it as it stands; neither sends |
| DeliveryProtocol.MisjudgedIsCounted | src/macro_platform/services/report_delivery.py:616-704 | the confirmations and misjudgements of the at-most-once bound are counted exactly when a retry is taken from an uncertain row, and from one whose card had arrived |
| DeliveryProtocol.ReviewGoesByTheRow | src/macro_platform/services/report_delivery.py:616-704 | a manual retry reviews the row it finds: it is told exactly why not, is given a succeeded row, or goes on with that attempt |
| DeliveryProtocol.ReviewIsCompared | src/macro_platform/storage/repositories.py:1430-1458 | an authorized retry lands exactly if the row still is the reviewed attempt and may still be retried, and is a conflict otherwise |
| DeliveryRuns.SenderAlone | src/macro_platform/services/report_delivery.py:738-846 | the interleaving protocol with one sender: a run of its own steps ends as the sender loop does, with one send for each attempt |
| DeliveryRuns.DeliveryAlone | src/macro_platform/services/report_delivery.py:539-614 | a first delivery with nobody beside it ends as the loop does, from attempt 1 on |
| DeliveryRuns.WaitingRowAlone | src/macro_platform/storage/repositories.py:1410-1428 | a row that waits for a retry is picked up by the next delivery, at its next attempt |
| DeliveryRuns.ManualRetryAlone | src/macro_platform/services/report_delivery.py:616-704 | a manual retry alone sends the next attempt once, and the row ends by the answer |
| DeliveryProtocol.AlertRunsAreFinal | src/macro_platform/services/workflow_alerts.py:148-165 | without manual retries, failed, uncertain and succeeded alerts never change |
| DeliveryProtocol.AlertsArriveAtMostOnce | src/macro_platform/services/workflow_alerts.py:263-420 | an alert card arrives at most once over all interleavings |
| DeliveryService.SendingAloneStops | src/macro_platform/services/report_delivery.py:751-828 | a sender alone retries exactly while the transport refuses retryably and attempts are left |
| DeliveryService.Send | src/macro_platform/services/report_delivery.py:738-846 | under interference a lagging sender sends once and reports nothing; alone, the result is the sequential sender's |
| DeliveryService.Deliver | src/macro_platform/services/report_delivery.py:539-614 | a succeeded row is returned without a send; an unoverlapped call ends as the sequential sender and keeps max_attempts |
| DeliveryService.RetryManually | src/macro_platform/services/report_delivery.py:616-704 | at most one send, only after a review that allows it; a settled, pending, unconfirmed or exhausted row is returned or refused with its own code, and any other is sent or is a conflict; unoverlapped it is sent exactly once as the next attempt, and row and result end by the transport's answer |
| DeliveryService.DeliveryStore.RetryDeliveryAttempt | src/macro_platform/storage/repositories.py:1410-1428 | resumes by status alone and raises the attempt number |
| DeliveryService.DeliveryStore.AuthorizeManualRetry | src/macro_platform/storage/repositories.py:1430-1458 | resumes only the reviewed attempt |
| DeliveryService.DeliveryStore.UpdateDeliveryAttempt | src/macro_platform/storage/repositories.py:1381-1408 | updates only the expected pending attempt |
| RecoveryProtocol.NextKeeps | src/macro_platform/services/delivery_recovery.py:152-287 | every step of operators, deliveries and crashes keeps the invariant of actions, callers and deliveries |
| RecoveryProtocol.OneRetryPerRequest | src/macro_platform/services/delivery_recovery.py:152-249 | a request triggers at most one delivery retry, and an action marked succeeded is about a succeeded row |
| RecoveryProtocol.FinishedActionsAreFinal | src/macro_platform/services/delivery_recovery.py:113-139 | a terminal action never changes, and the success it stands for stays |
| RecoveryProtocol.OtherParametersAreRefused | src/macro_platform/services/delivery_recovery.py:273-287 | the same request ID with other parameters is refused ever after and changes nothing |
| RecoveryProtocol.AnswersAgree | src/macro_platform/services/delivery_recovery.py:251-271 | all replays of a finished action answer alike |
| RecoveryProtocol.CompletionsAreTrue | src/macro_platform/services/delivery_recovery.py:152-249 | a completion that says succeeded comes from a retry whose row succeeded |
| RecoveryProtocol.RetryConcludes | src/macro_platform/services/delivery_recovery.py:205-249 | what a retry makes of its action: succeeded exactly for a succeeded row, rejected exactly for a refused retry, with that code and the prior status, and failed otherwise |
| RecoveryProtocol.ReplayConcludes | src/macro_platform/services/delivery_recovery.py:251-271 | a replay concludes a pending action exactly when an attempt after the inspected one has ended, by that attempt's status |
| RecoveryProtocol.FirstInsertWins | src/macro_platform/services/delivery_recovery.py:167-203 | of the operators that insert one request the first owns it; a later one replays it if it asks the same and is refused otherwise; without an attempt to retry the action is rejected |
| RecoveryRuns.RequestAlone | src/macro_platform/services/delivery_recovery.py:152-205 | an operator with a new request reserves it for the row it inspected and calls the retry once |
| RecoveryRuns.RetryCompletes | src/macro_platform/services/delivery_recovery.py:230-249 | once the retry has returned or was refused, the action is completed by it and answered |
| RecoveryRuns.RaisingRetryCompletes | src/macro_platform/services/delivery_recovery.py:214-228 | a retry that raises completes its action as failed with the exception's code |
| RecoveryRuns.ReplayAlone | src/macro_platform/services/delivery_recovery.py:251-287 | a replay answers a known action, after concluding it if the row shows how its attempt ended, and touches nothing else |
| RecoveryService.RecoveryAuditStore.Complete | src/macro_platform/services/delivery_recovery.py:113-139 | completes a pending action and leaves a finished one as it is |
| RecoveryService.ReplayAction | src/macro_platform/services/delivery_recovery.py:152-287 | a replay answers a finished action unchanged and refuses other parameters; alone, it concludes a pending action by the row exactly when a later attempt has ended |
| RecoveryService.Retry | src/macro_platform/services/delivery_recovery.py:152-249 | under interference: a known request never sends, any call sends at most once, an answer of success is the row's success, and an inspection that is refused writes nothing; alone, a new request is answered with the conclusion of its one retry: rejected with the refusal's code and the prior status exactly when the retry was refused or no attempt existed, failed with the exception's code when it raised, and otherwise succeeded exactly when the row, sent once as its next attempt, did |
| RecoveryService.RetryOrRaise | src/macro_platform/services/delivery_recovery.py:205-228 | a retry that raises sent exactly if it raised after the send, and leaves the row as it was or pending at its next attempt; attempt numbers never fall and a succeeded row stays; alone, a refusal is the review's and a result is the row |
| BarVersions.ReadIsTheMaximum | src/macro_platform/storage/repositories.py:517-580 | the read as of a time is an available version no available version sorts before |
| BarVersions.BarReadsAreStable | src/macro_platform/storage/repositories.py:183-261 | whatever bars arrive after a time leave every read as of it, and stored rows are never rewritten |
| BarVersions.ReleaseReadsAreStable | src/macro_platform/storage/repositories.py:331-371 | the same for macro releases |
| BarVersions.DeduplicationIsInvisible | src/macro_platform/storage/repositories.py:183-261 | skipping a repeated bar checksum is invisible to every read exactly when the upsert is not a late arrival that the skip loses |
| BarVersions.LateBarIsLost | src/macro_platform/storage/repositories.py:183-261 | such a history: a repeat of the newest checksum for an earlier time is dropped, and reads in between return the older checksum |
| BarVersions.BarsReadLikeAFullLog | src/macro_platform/storage/repositories.py:183-261 | bars fed in increasing time read, at every time, like a log that keeps every upsert |
| BarVersions.ReleasesReadLikeAFullLogExactly | src/macro_platform/storage/repositories.py:331-371 | releases read like a full log exactly when no checksum returns after another one |
| BarVersions.ReturningReleaseIsMissed | src/macro_platform/storage/repositories.py:517-580 | such a log: after checksums A, B, A the store reads B and the log A |
| Base64Url.RoundTrip | src/macro_platform/providers/cn/baostock.py:725-730 | decoding the stripped and repadded base64url text gives back every byte string |
| Base64Url.PaddingIsRestored | src/macro_platform/providers/cn/baostock.py:729-730 | restoring the padding of the bare symbols gives exactly the padded encoding |
| Base64Url.OthersAreSkipped | src/macro_platform/providers/cn/baostock.py:729-730 | the decoder skips every character outside its alphabet, wherever it stands |
| Base64Url.OnlyFullGroupsDecode | src/macro_platform/providers/cn/baostock.py:729-730 | symbols alone decode exactly if they fill their groups of four |
| CursorCodec.SealedIsUnsealed | src/macro_platform/providers/cn/baostock.py:483-521 | splitting and decoding a sealed cursor gives back version, body, signature and every field |
| CursorCodec.BaoStockRoundTrip | src/macro_platform/providers/cn/baostock.py:483-539 | encoding fails exactly outside the offset range; decoding gives every field under the same fingerprint and refuses every other |
| CursorCodec.AcceptedWasIssued | src/macro_platform/providers/cn/baostock.py:507-539 | if no signature was forged, an accepted cursor, however spelled, is a position issued for this very query |
| CursorCodec.LiveRoundTrip | src/macro_platform/providers/live.py:72-143 | the same round trip and refusal for the live providers' cursors |
| CursorCodec.FamiliesDoNotMix | src/macro_platform/providers/live.py:104-143 | a signed cursor of one family is refused by the other |
| CursorCodec.FixtureRoundTrip | src/macro_platform/providers/_regional_fixture.py:1313-1402 | the fixture cursor gives back every field for its dataset and query and is refused for any other |
| CursorCodec.BaoStockAcceptsExactly | src/macro_platform/providers/cn/baostock.py:507-539 | a signed body is accepted as a position exactly if it carries this family's version, the signature of its own bytes and the five fields of that position for this query |
| CursorCodec.FixtureReadsExactly | src/macro_platform/providers/_regional_fixture.py:1346-1402 | an unsigned fixture body is read as a cursor exactly if it has the fields of that cursor and no others |
| Sorting.SortPermutes | src/macro_platform/providers/cn/baostock.py:307 | sorting keeps every element as often as it was there |
| Sorting.SortOrders | src/macro_platform/providers/cn/baostock.py:307 | no element sorts before one in front of it |
| Sorting.SortIsStable | src/macro_platform/providers/_regional_fixture.py:537 | elements that compare equal keep their order |
| Sorting.TextBeforeMeans | src/macro_platform/providers/cn/baostock.py:307 | one text sorts before another exactly if it is a proper prefix of it or smaller at the first difference |
| CursorWalk.PageCountIsTheCeiling | src/macro_platform/providers/cn/baostock.py:286-350 | the page count of a walk is max(1, ceil(n / limit)) |
| BaoStockPaging.ParseRows | src/macro_platform/providers/cn/baostock.py:415-460 | fails exactly when the parseable dates do not strictly increase; otherwise keeps the rows in the window and reports every other malformed one |
| BaoStockPaging.RequestedInstruments | src/macro_platform/providers/cn/baostock.py:462-475 | the configured instruments of the distinct IDs in order of first mention, or a refusal |
| BaoStockPaging.HasUniqueIds | src/macro_platform/providers/cn/baostock.py:715-722 | answers whether no bar ID occurs twice |
| BaoStockPaging.FetchBars | src/macro_platform/providers/cn/baostock.py:286-350 | the page is the slice the cursor asks of the whole sorted result, with every check in order |
| BaoStockPaging.SnapshotIsSorted | src/macro_platform/providers/cn/baostock.py:307-308 | what a source shows is a permutation of its bars in strict key order, at most 7500 of them, so the duplicate check never fires |
| BaoStockPaging.SnapshotShowsWhatIsAsked | src/macro_platform/providers/cn/baostock.py:286-308 | a source can be read exactly if every ID is configured and every instrument behind them has at most 2500 rows whose dates go up; it then shows exactly the bars whose instrument was asked for, whose row it holds and whose session opens inside the window, by date and within a date by instrument |
| BaoStockPaging.FirstUnreadableDecides | src/macro_platform/providers/cn/baostock.py:415-460 | the first requested instrument that cannot be read decides the error |
| BaoStockPaging.PositionIsChecked | src/macro_platform/providers/cn/baostock.py:318-333 | a position is served exactly if it names the shown list and the bar before it; a named offset behind the end is INVALID_CURSOR, anything else SNAPSHOT_CHANGED |
| BaoStockPaging.PageIsLabelled | src/macro_platform/providers/cn/baostock.py:334-350 | a page carries the digest of the whole list and is complete exactly if nothing follows |
| BaoStockPaging.ContinuationNeedsTheSameSnapshot | src/macro_platform/providers/cn/baostock.py:318-345 | a continuation is answered with its slice exactly when the source still shows the same record IDs and checksums, and with SNAPSHOT_CHANGED otherwise |
| BaoStockPaging.UnchangedSourceIsReadOnce | src/macro_platform/providers/cn/baostock.py:286-350 | on an unchanged source the cursors end after PageCount pages that hold the sorted result, nothing skipped or repeated |
| BaoStockPaging.PagesNeverMixSnapshots | src/macro_platform/providers/cn/baostock.py:318-333 | however the source changes, the pages of a walk without an error all come from the first page's snapshot, and a finished walk has read all of it |
| BaoStockPaging.EncoderBoundNeverFires | src/macro_platform/providers/cn/baostock.py:491-492 | no query makes the encoder's own offset bound raise |
| FixturePaging.ParseRecords | src/macro_platform/providers/_regional_fixture.py:519-537 | keeps the parsed records the query includes and reports every rejected one |
| FixturePaging.FetchPage | src/macro_platform/providers/_regional_fixture.py:479-569 | the page of the decoded position, with every check in order |
| FixturePaging.ShownAreIncludedByKey | src/macro_platform/providers/_regional_fixture.py:519-537 | a raw page shows the included items as often as its records parse to them, by key and under one key in file order |
| FixturePaging.RawPageFailsExactly | src/macro_platform/providers/_regional_fixture.py:507-537 | a raw page fails exactly as the third empty one in a row that continues, with a repeated record ID, or with nothing included and something rejected |
| FixturePaging.LookupFindsTheFirst | src/macro_platform/providers/_regional_fixture.py:1405-1432 | the raw page behind a cursor is the first listed under it |
| FixturePaging.OffsetIsChecked | src/macro_platform/providers/_regional_fixture.py:1247-1285 | an offset behind the end is PROVIDER_CURSOR_INVALID, one behind another record than named SNAPSHOT_CHANGED |
| FixturePaging.ChainIsReadOnce | src/macro_platform/providers/_regional_fixture.py:479-569 | over every chain of raw pages and every limit the cursors yield the pages' sorted items in order, or the first failing page's error, in a known number of pages |
| FixturePaging.FailsExactlyAtTheThirdEmptyPage | src/macro_platform/providers/_regional_fixture.py:507-517 | with readable pages the walk fails with INVALID_PAGINATION exactly when a third empty raw page in a row continues |
| FixturePaging.OtherSnapshotIsRefused | src/macro_platform/providers/_regional_fixture.py:494-503 | a cursor of another timestamp, or another known watermark, is refused as SNAPSHOT_CHANGED |
| DayPolicy.WhatAPolicyRequires | src/macro_platform/services/report_day_policy.py:73-103 | exactly the markets without a session are optional; the fixed inputs and the other markets are required |
| DayPolicy.PolicySplitsTheInputs | src/macro_platform/services/report_day_policy.py:73-103 | required and optional inputs split the fixed list |
| DayPolicy.PolicyIsOfTheDate | src/macro_platform/services/report_day_policy.py:73-103 | there is a policy exactly if the calendar resolves the date for all three regions; it carries their previous sessions and days, and a weekend closes every market |
| QualityGate.CheckRegions | src/macro_platform/services/report_input_quality.py:193-242 | accepts exactly the region lists that are complete, known, consistent with the optional inputs and with the day type |
| QualityGate.ReadInputs | src/macro_platform/services/report_input_quality.py:151-190 | derives the split of an accepted policy and falls back to all inputs otherwise |
| QualityGate.EvaluateGate | src/macro_platform/services/report_input_quality.py:50-137 | the issues and the decision of a snapshot |
| PolicyReading.AcceptedExactlyWhen | src/macro_platform/services/report_input_quality.py:151-242 | a raw policy is accepted exactly when it names this date, the policy and a calendar version, gives each market's day once with its own input and flag, the day type these days make, the closed markets' inputs as optional and all others as required |
| PolicyReading.PolicyIsAccepted | src/macro_platform/services/report_input_quality.py:151-190 | an accepted policy splits the inputs as its regions say |
| GateAgreement.GateAcceptsThePolicy | src/macro_platform/services/report_input_quality.py:151-242 | for every date and calendar the gate accepts the policy that was built for the date and derives the same split |
| GateAgreement.OtherDatesAreRefused | src/macro_platform/services/report_input_quality.py:163-164 | a policy of another date is refused and the snapshot blocked |
| SnapshotMaterializer.ApplyPolicy | src/macro_platform/services/report_input_materializer.py:226-270 | adjusts every evidence and adds a placeholder for each closed market without one |
| SnapshotMaterializer.CollectSources | src/macro_platform/services/report_input_materializer.py:143-150 | collects sources by ID and fails exactly on a missing ID or a conflict |
| SnapshotMaterializer.MakeSnapshot | src/macro_platform/services/report_input_materializer.py:118-207 | the snapshot of the evidence after the day policy, or the error of its first broken rule; the rows below say which facts, sources and entries that is |
| EvidenceOutcome.SnapshotHoldsTheContributions | src/macro_platform/services/report_input_materializer.py:118-207 | a fact or source is in the snapshot exactly when it belongs to evidence with status available or revised all of whose facts carry a readable time not after the cutoff |
| EvidenceOutcome.SnapshotListsTheEvidence | src/macro_platform/services/report_input_materializer.py:280-318 | every evidence is listed once with its own flag, status and reason, or as late or invalid by its first offending fact |
| EvidenceOutcome.SnapshotIsNamed | src/macro_platform/services/report_input_materializer.py:152-207 | date, times, version and policy are those asked for, the fact IDs are the facts' own in strictly increasing order, and ID and fingerprint cover the rest |
| EvidenceOutcome.SourcesAreInOrder | src/macro_platform/services/report_input_materializer.py:143-150 | sources are listed in strictly increasing order of their IDs |
| EvidenceOutcome.RefusedExactlyWhen | src/macro_platform/services/report_input_materializer.py:118-150 | there is a snapshot exactly when inputs are distinct, contributed facts have distinct text IDs and contributed sources share an ID only if they are the same |
| EvidenceOutcome.EvidenceIsAdjusted | src/macro_platform/services/report_input_materializer.py:226-270 | the day policy makes needed evidence required, keeps a closed market's usable evidence as optional and replaces its other evidence by a placeholder |
| EvidenceOutcome.OnlyClosedMarketsAreAdded | src/macro_platform/services/report_input_materializer.py:226-270 | the policy adds placeholders for closed markets without evidence and nothing else |
| EvidenceOutcome.ClosedMarketsAreObserved | src/macro_platform/services/report_input_materializer.py:226-270 | after the policy every closed market has evidence |
| GateAgreement.FactsAreBeforeTheCutoff | src/macro_platform/services/report_input_materializer.py:280-318 | every snapshot fact carries a readable time not after the cutoff |
| GateAgreement.FactCheckSeesAnyFact | src/macro_platform/services/report_input_quality.py:269-278 | the gate's fact check passes exactly when at least one fact survived |
| GateAgreement.RequiredStaysRequired | src/macro_platform/services/report_input_materializer.py:226-270 | a required input stays required and a closed market's input optional from policy to gate |
| GateAgreement.GateSees | src/macro_platform/services/report_input_quality.py:50-137 | a required issue of a materialized snapshot is there exactly when the evidence gives a reason for it |
| GateAgreement.ClosedMarketsNeverBlock | src/macro_platform/services/report_input_quality.py:281-290 | a closed market's input never yields a required issue, so it never pushes the decision past degraded |
| GateAgreement.BlockedExactlyWhen | src/macro_platform/services/report_input_quality.py:281-290 | a materialized snapshot is blocked exactly when no fact survived, a required input has no evidence or required evidence failed |
| EvidenceOutcome.DecidedByEvidence | src/macro_platform/services/report_input_quality.py:281-290 | the decision in terms of the collected evidence: blocked exactly when no contributing evidence has a fact, a needed input was not collected, or required evidence came with a failing status or an untimely fact; otherwise a retry exactly when required evidence asks for one; otherwise passed exactly when every market has a session and all evidence is quiet; otherwise degraded |
| EvidenceOutcome.IssuesHaveReasons | src/macro_platform/services/report_input_quality.py:50-137 | an issue of a materialized snapshot is there exactly when the evidence gives its reason: a needed input was not collected, a closed market's is available all the same, an evidence ends up with a reported status, or there is no fact |
| ReportContract.CheckSection | src/macro_platform/contracts/report.py:125-146 | accepts exactly the sections whose counted visible text, limit and maximum agree |
| ReportContract.CollectIds | src/macro_platform/services/report_validation.py:736-753 | the visitor adds the nested IDs to the set it is given |
| ReportContract.NestedMeansAtAnyDepth | src/macro_platform/services/report_validation.py:736-753 | the nested IDs are exactly those some path of child positions leads to |
| ReportContract.CheckReport | src/macro_platform/contracts/report.py:166-196 | a payload is accepted exactly when its eight sections hold, references are lists of known IDs, sources are unique and an incomplete report is not published |
| ReportContract.SectionsFitTheContract | src/macro_platform/contracts/report.py:125-183 | a report that holds has the eight sections under their own names, each no longer than its contract limit |
| ReportValidator.AppendSourceIssues | src/macro_platform/services/report_validation.py:756-771 | an error is added exactly when some ID is not in the snapshot |
| ReportValidator.CheckFact | src/macro_platform/services/report_validation.py:171-234 | adds an error exactly when the fact is unknown, late, of another day, cites an unknown source or is not cited in its section |
| ReportValidator.CheckClaim | src/macro_platform/services/report_validation.py:236-285 | adds an error exactly when the claim does not repeat its fact: a claim about an allowed fact that agrees in value, unit, direction and period adds none, and one that differs in any of them does; values agree as numbers, a number also with a text that reads as it, and otherwise only as the same value |
| ReportValidator.Validate | src/macro_platform/services/report_validation.py:71-287 | a report is publishable exactly when it meets the contract and every identity, quality, source, fact and claim rule; warnings come from the gate alone |
| ReportPublication.ValidateAndFinalize | src/macro_platform/services/report_validation.py:309-348 | the outcome depends only on whether the report is sound and whether the gate degrades it: validated exactly for sound reports, degraded on warnings, failed otherwise; row and payload agree |
| ReportPublication.ValidatedReportIsBacked | src/macro_platform/services/report_validation.py:71-287 | every fact a validated report mentions in a section, at any depth of its items or as the fact of a claim, is a snapshot fact in time and of the right day, with a source cited in the same section and claims that repeat it |
| ReportPublication.ValidatedClaimsSayWhatFactsSay | src/macro_platform/services/report_validation.py:236-285 | every claim of a validated report says what its fact says: numbers are equal as numbers, a number is what the fact's text reads as, anything else is the very value and no boolean; units, directions and periods are the fact's |
| ReportPublication.ReachedFactIsMaterialized | src/macro_platform/contracts/report.py:177-183 | every fact ID a validated report reaches, inside claim values too, is that of a fact the snapshot materialized |
| ReportReach.BackingIsSureExactlyWhen | src/macro_platform/services/report_validation.py:171-234 | a reached fact is sure to be backed in a section, whatever the snapshot says about it, exactly when it is named outside claim values in a section that cites no source beyond that section's own |
| ReportWitness.LateFactIsReachedUnseen | src/macro_platform/services/report_validation.py:726-733 | a snapshot whose fallback validates although a claim's value names a fact that is late and cites no source |
| ReportPublication.CitedSourcesAreApproved | src/macro_platform/services/report_validation.py:161-170 | every source cited at any depth, inside claim values too, is a snapshot source |
| ReportPublication.ListedSourcesAreTheSnapshots | src/macro_platform/services/report_validation.py:137-159 | every source a validated report lists is the snapshot's source of its ID, field by field |
| ReportPublication.FinalizedSays | src/macro_platform/services/report_validation.py:488-545 | finalizing changes three flags of the payload and, in its notice, text and count; the notice says that everything passed, that the report is withheld or that it is reduced |
| ReportPublication.FinalizedMeetsContractExactlyWhen | src/macro_platform/services/report_validation.py:488-545 | the rewritten payload still meets the contract exactly when the notice section shows no item text and has room for the notice |
| ReportWitness.FinalizedCandidateBreaksTheContract | src/macro_platform/services/report_validation.py:526-535 | over every ready snapshot there is a candidate that validates and is published, and whose finalized payload breaks the contract |
| ReportWitness.WitnessCandidateBreaksTheContract | src/macro_platform/services/report_validation.py:526-535 | such a candidate over a concrete snapshot |
| ReportFallback.FactItemIsRead | src/macro_platform/services/report_validation.py:633-642 | a fact item names its fact and the fact's sources and nothing else |
| ReportFallback.SourcesAgree | src/macro_platform/services/report_validation.py:593-630 | the report's source section reads back as the snapshot's records, each under its own ID |
| ReportFallback.FallbackMeetsTheContract | src/macro_platform/services/report_validation.py:354-485 | a ready snapshot gives a payload that meets the report contract, recounted characters included, whatever the gate decided |
| ReportFallback.FallbackIsSoundExactlyWhen | src/macro_platform/services/report_validation.py:354-485 | with distinct, listed facts and canonical metadata the fallback is sound exactly when the gate passes or degrades, the sections fit and every sectioned fact can be shown: it cites known sources only, is in time and of the right day, and its value is no boolean and names known facts and sources only |
| ReportFallback.FallbackIsPublished | src/macro_platform/services/report_validation.py:309-348 | the fallback of a ready snapshot is validated and published, complete if the gate passed and degraded otherwise, and still meets the contract after its notice was rewritten |
| ReportFallback.BuildFallback | src/macro_platform/services/report_validation.py:354-485 | the loop over the sections builds the report its specification describes, or none when a claim does not read back |
| ReportFallback.FallbackShowsItsFacts | src/macro_platform/services/report_validation.py:354-485 | every fact section shows each of its facts by one item, in order, and claims each that has a value |
| ReportFallback.ClaimsFollowTheFacts | src/macro_platform/services/report_validation.py:645-657 | there is one claim for each fact with a value, in order, and it copies the fact's value, unit, direction and period |
| ReportFallback.FallbackIsMarked | src/macro_platform/services/report_validation.py:363-371 | the fallback is withheld exactly if a required issue is no mere revision, complete exactly without issues, and carries the snapshot's identity in row and payload |
| ReportFallback.EmptySectionsSaySo | src/macro_platform/services/report_validation.py:403-440 | a section without facts shows no item and says so, unless it is a list that may be empty |
| ReportFallback.SourceItemCopies | src/macro_platform/services/report_validation.py:660-674 | a source item copies the eight fields of its source that are there and nothing else |
| ReportFallback.PublishFallback | src/macro_platform/services/report_validation.py:309-348 | building, validating and finalizing publishes exactly when the gate passes or degrades and the sections are ready |
| ReportFallback.BooleanStopsTheFallback | src/macro_platform/services/report_validation.py:889-895 | a sectioned fact whose value is a boolean makes the fallback unsound and failed, whatever else the snapshot holds |
| MaterializedFallback.FactsAreReady | src/macro_platform/services/report_input_materializer.py:136-142 | a materialized snapshot lists distinct text fact IDs |
| MaterializedFallback.FactsAreInTime | src/macro_platform/services/report_input_materializer.py:280-318 | no materialized fact is late for the validator |
| MaterializedFallback.SourcesAreDistinct | src/macro_platform/services/report_input_materializer.py:143-150 | a materialized snapshot holds each source once |
| MaterializedFallback.MaterializedFallbackIsPublished | src/macro_platform/services/report_validation.py:309-348 | over materialized evidence with canonical metadata the fallback is published exactly when the gate passes or degrades, every sectioned fact can be presented and the sections fit; it then meets the contract with the gate's status |
| MaterializedFallback.PublishFromEvidence | src/macro_platform/services/report_validation.py:309-348 | from evidence over policy, snapshot, fallback, validator and finalizer to that outcome |
| ScheduledWorker.RunTask | src/macro_platform/jobs/scheduled_worker.py:237-318 | a task is tried up to the first try that settles it, at most max_attempts times, and ends by that try: an error fails it, and so does a success without a durable run; the backoff doubles in between |
| ScheduledWorker.BackoffIsBounded | src/macro_platform/jobs/scheduled_worker.py:319-345 | one task's backoff in one run is at most delay times (2^(max_attempts-1) - 1) |
| ScheduledWorker.WorkerStatusIsTheWorst | src/macro_platform/jobs/scheduled_worker.py:348-362 | the status of a date is that of its worst task, optional tasks only degrading it |
| ScheduledWorker.DateStatusIsTheWorst | src/macro_platform/jobs/scheduled_worker.py:365-375 | the status of a date, quality decision included, is that of the worst task or decision; a missing decision blocks and a report workflow has the last word |
| ScheduledWorker.RunForDate | src/macro_platform/jobs/scheduled_worker.py:102-175 | status and tries of a date run: blocked without tasks, locked without the lock, otherwise every task once |
| ScheduledRuntime.RunSchedule | src/macro_platform/jobs/scheduled_runtime.py:604-651 | the journal of the loop over any clock readings |
| ScheduledRuntime.AttemptsAreBounded | src/macro_platform/jobs/scheduled_runtime.py:616-651 | a date is run at most max_report_attempts times, and notified exhausted, once, exactly when all of them settled nothing |
| ScheduledRuntime.SettledDatesAreLeftAlone | src/macro_platform/jobs/scheduled_runtime.py:624-642 | after a terminal result or an exhaustion notice a date is neither run nor notified again |
| ScheduledRuntime.RunsExactlyWhenDue | src/macro_platform/jobs/scheduled_runtime.py:616-651 | at every reading the loop runs the date exactly if it is due: past its start time, neither settled nor given up, and the doubled delay, or the poll interval after a locked run, over; otherwise it sleeps |
| ScheduledRuntime.RetriesWait | src/macro_platform/jobs/scheduled_runtime.py:643-649 | an attempt starts no sooner than the doubled delay, or the poll interval after a locked run |
| ScheduledRuntime.TriesAreBounded | src/macro_platform/jobs/scheduled_runtime.py:616-651 | each task is tried at most max_report_attempts times max_attempts times for one date |

## Left out

- JobRunner.WaitOrReclaim: the heartbeat runs as an interference step and not on a clock of its own, and nothing is said about how long the transactions take.
- JobRunner.Execute: the branch without a database, which only checks the handler's answer, is not modelled.
- ScheduledTask.RunTask: the process lives for a given number of pages, as a provider may hand out cursors without end; what is read is said for calls that nobody overlaps and pages nobody has read.
- TaskCheckpoint.RequestFor: a report date starts at a fixed number of seconds, so a zone that shifts its clocks at midnight is not modelled.
- PageCommit.IngestionCheckpointRepository.CommitPage: page commits are not fenced by the run lease in the source either, so a stale attempt may commit a page of another fingerprint.
- DeliveryProtocol.AtMostOnceDelivery: the transport's own second post after an expired token is part of one send.
- DeliveryService.Deliver: the attempt bound is claimed for calls that nobody overlaps; with overlap only fencing and at-most-once hold.
- JobRunner.SettleRun: a handler that never comes back is a crashed worker of the protocol.
- DeliveryRow: error codes, payloads and message IDs of an attempt are not modelled, nor is the check that a reserved key carries the same request payload.
- RecoveryService.Retry: the error code of the delivery attempt itself is not modelled; a failed retry carries DELIVERY_RECOVERY_FAILED.
- RecoveryProtocol: the operator's name and reason are not among the parameters compared.
- Base64Url.Decode: follows the lenient decoder of CPython, which skips characters outside the alphabet; decoding in strict mode is not modelled.
- CursorCodec: JSON text and the keyed digest are functions given to the codec; the only law assumed of JSON is that an object of scalars reads back with its fields, and UTF-8 decoding belongs to it.
- BaoStockPaging.FetchBars: the refusals before the cursor is decoded (interval, adjustment, historical time, empty or oversized window), the socket session and its time limits are not modelled; the row limit is checked on the finished answer.
- BaoStockPaging: record IDs, bar IDs and checksums are distinct for distinct things, and Shanghai has one offset.
- FixturePaging.FetchPage: the envelope checks, the parsers of single records and the query filters are given as a parsed file and a predicate.
- QualityGate.EvaluateGate: issue messages are not modelled; issue codes are names of cases.
- SnapshotMaterializer.MakeSnapshot: the editor context, which repeats the other parts, and the waiting for the cutoff are not modelled; the checksum is a function of the body.
- ReportContract.Holds: reading a payload into typed fields, with the fields that carry no rule here (schedule, calendar, section status, reason and issue codes, data-quality lists), is left to the library; a payload of another shape is None.
- ReportValidator.ValuesEqual: comparing two containers is structural, where Python also equates numbers of different types inside them.
- ReportPublication.ValidateAndFinalize: loading the snapshot and storing the result with its expected lifecycle status are not modelled.
- ScheduledWorker.RunForDate: the report workflow is the status it settles on; logging, metrics and backfill are not modelled.
- ScheduledRuntime.RunSchedule: the loop sees as many clock readings as the process lives for, and a notification that raises is not modelled.
- SQL isolation: every unit of work is atomic.
- In-place overwrites of market observations and instruments, macro series and news: they keep no versions, so only easy members would follow.
- HTTP routes, command lines, card rendering, redaction, error classification, language-model calls, migrations, provider factories and read-only views: no state property, or easy members only.
