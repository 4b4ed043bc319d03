/** The execution seam for one ingestion request: acquire or replay, run the handler, record
    the answer. The table is shared with other workers, so between two of its own transactions
    a runner knows only what `Evolves` promises. */
module JobRunner {
  import opened Prelude
  import opened RunLedger

  // An exception; a provider's own error also says whether a retry may help.
  datatype RunError = ProviderError(typeName: string, code: string, retryable: bool) | OtherError(typeName: string)

  // What the handler does with one page: it answers, or it raises.
  datatype HandlerOutcome = Answered(result: IngestResult) | HandlerRaised(error: RunError)

  datatype ExecuteOutcome = Returned(result: IngestResult) | Raised(error: RunError)

  datatype Grant = Granted(lease: Lease) | Replayed(result: IngestResult) | Refused(error: RunError)

  const IN_PROGRESS := OtherError("INGESTIONRUNINPROGRESSERROR")

  class IngestionRunRepository {
    var table: RunTable

    constructor ()
      ensures ValidTable(table) && table == EMPTY_TABLE
    {
      table := EMPTY_TABLE;
    }

    method AcquireRun(request: Request, runId: RunId, now: int, leaseExpiresAt: int)
      returns (acquired: Acquired)
      modifies this
      ensures (table, acquired) == Acquire(old(table), request, runId, now, leaseExpiresAt)
    {
      if request in table.byKey {
        acquired := Existing(table.byKey[request]);
      } else if runId in table.rows {
        acquired := IdTaken;
      } else {
        var row := RunRow(request, Running, 1, Some(leaseExpiresAt), now, None, 0, 0, 0, None, NO_DETAILS);
        table := RunTable(table.rows[runId := row], table.byKey[request := runId]);
        acquired := Leased(Lease(runId, 1));
      }
    }

    method ClaimRecoverableRun(runId: RunId, now: int, leaseExpiresAt: int) returns (lease: Option<Lease>)
      modifies this
      ensures (table, lease) == Claim(old(table), runId, now, leaseExpiresAt)
    {
      var (t, l) := Claim(table, runId, now, leaseExpiresAt);
      table, lease := t, l;
    }

    method RenewLease(lease: Lease, leaseExpiresAt: int) returns (renewed: bool)
      modifies this
      ensures (table, renewed) == Renew(old(table), lease, leaseExpiresAt)
    {
      renewed := Owns(table, lease.runId, lease.attemptNo);
      if renewed {
        var row := table.rows[lease.runId];
        table := table.(rows := table.rows[lease.runId := row.(leaseExpiresAt := Some(leaseExpiresAt))]);
      }
    }

    method CompleteRun(result: IngestResult, lease: Lease) returns (completed: bool)
      modifies this
      ensures (table, completed) == Complete(old(table), result, lease)
    {
      var (t, done) := Complete(table, result, lease);
      table, completed := t, done;
    }

    method FailRun(lease: Lease, errorCode: string) returns (failed: bool)
      modifies this
      ensures (table, failed) == Fail(old(table), lease, errorCode)
    {
      failed := Owns(table, lease.runId, lease.attemptNo);
      if failed {
        var row := table.rows[lease.runId];
        table := table.(rows := table.rows[lease.runId :=
          row.(status := Ended(ResultStatus.Failed), errorCode := Some(errorCode), leaseExpiresAt := None)]);
      }
    }

    // The place where other workers, and this worker's own heartbeat, may run. A caller learns
    // only that the table evolved; `RunLedger.ApplyAllKeeps` shows that every client does no more.
    // In a calm call nobody else runs.
    method OthersRun(ghost calm: bool)
      requires ValidTable(table)
      modifies this
      ensures ValidTable(table) && Evolves(old(table), table)
      ensures calm ==> table == old(table)
    {
    }
  }

  // How long to wait for a live owner and how often to look, in units of the monotonic clock;
  // `busy(i)` is what passes on it around the i-th look.
  datatype Patience = Patience(wait: nat, poll: nat, busy: nat -> nat) {
    ghost predicate Valid() { wait >= 1 && poll >= 1 }
  }

  // A run whose last attempt failed or asked for a retry, or whose lease is over.
  ghost predicate IsFree(t: RunTable, runId: RunId, now: int) {
    && runId in t.rows
    && (|| t.rows[runId].status == Ended(ResultStatus.Failed) || t.rows[runId].status == Ended(RetryWait)
        || (t.rows[runId].status == Running && t.rows[runId].leaseExpiresAt.GetOr(now) <= now))
  }

  /** Wait for a live owner, or fence an expired one, until the deadline. `clock(i)` is the time
      read before the i-th claim, `slept` what this call sleeps and `passed` what passes meanwhile. */
  method WaitOrReclaim(repository: IngestionRunRepository, runId: RunId,
                       clock: nat -> int, leaseSeconds: nat, patience: Patience, ghost calm: bool)
    returns (grant: Grant, slept: nat, passed: nat)
    requires ValidTable(repository.table) && runId in repository.table.rows && patience.Valid()
    modifies repository
    ensures ValidTable(repository.table) && Evolves(old(repository.table), repository.table)
    ensures grant.Replayed? ==> LoadCompleted(repository.table, runId) == Some(grant.result)
    ensures grant.Granted? ==>
              && grant.lease.runId == runId
              && grant.lease.attemptNo > old(repository.table).rows[runId].attemptNo
              && Owns(repository.table, runId, grant.lease.attemptNo)
    ensures grant.Refused? ==> LoadCompleted(repository.table, runId).None?
    // It never sleeps past the deadline, and gives up on a live owner at the deadline only.
    ensures slept <= patience.wait && slept <= passed
    ensures runId in repository.table.rows
    ensures grant.Refused? && repository.table.rows[runId].status == Running ==> passed >= patience.wait
    ensures grant.Refused? ==> grant.error == IN_PROGRESS
    // Alone, a run that has ended badly or whose lease is over is taken over at the first look.
    ensures calm && LoadCompleted(old(repository.table), runId).None?
            && IsFree(old(repository.table), runId, clock(0)) ==>
              && grant == Granted(Lease(runId, old(repository.table).rows[runId].attemptNo + 1))
              && repository.table.byKey == old(repository.table).byKey
              && repository.table.rows[runId].request == old(repository.table).rows[runId].request
              && slept == 0
  {
    var i := 0;
    slept, passed := 0, 0;
    while true
      invariant slept <= passed && slept <= patience.wait
      invariant i == 0 ==> repository.table == old(repository.table) && slept == 0
      invariant i > 0 ==>
        !(calm && LoadCompleted(old(repository.table), runId).None? && IsFree(old(repository.table), runId, clock(0)))
      invariant ValidTable(repository.table) && Evolves(old(repository.table), repository.table)
      decreases patience.wait - passed
    {
      ghost var start := repository.table;
      repository.OthersRun(calm);
      EvolvesTransitive(old(repository.table), start, repository.table);
      assert KeepsRow(old(repository.table), repository.table, runId);
      assert ValidRow(repository.table, runId);
      var completed := LoadCompleted(repository.table, runId);
      if completed.Some? {
        return Replayed(completed.value), slept, passed;
      }
      ghost var before := repository.table;
      var lease := repository.ClaimRecoverableRun(runId, clock(i), clock(i) + leaseSeconds);
      ApplyKeeps(before, OpClaim(runId, clock(i), clock(i) + leaseSeconds));
      EvolvesTransitive(old(repository.table), before, repository.table);
      if lease.Some? {
        return Granted(lease.value), slept, passed;
      }
      passed := passed + patience.busy(i);
      if repository.table.rows[runId].status != Running || passed >= patience.wait {
        return Refused(IN_PROGRESS), slept, passed;
      }
      var pause := if patience.poll <= patience.wait - passed then patience.poll else patience.wait - passed;
      slept, passed, i := slept + pause, passed + pause, i + 1;
    }
  }

  method AcquireCheckpointedRun(repository: IngestionRunRepository, request: Request, newRunId: RunId,
                                clock: nat -> int, leaseSeconds: nat, patience: Patience, ghost calm: bool)
    returns (grant: Grant)
    requires ValidTable(repository.table) && patience.Valid()
    modifies repository
    ensures ValidTable(repository.table) && Evolves(old(repository.table), repository.table)
    ensures grant.Replayed? ==> RecordedFor(repository.table, request) == Some(grant.result)
    ensures grant.Granted? ==>
              && Owns(repository.table, grant.lease.runId, grant.lease.attemptNo)
              && request in repository.table.byKey && repository.table.byKey[request] == grant.lease.runId
    ensures RecordedFor(old(repository.table), request).Some? ==>
              grant == Replayed(RecordedFor(old(repository.table), request).value)
    // Whatever others do, an unknown request under a fresh ID is granted at once.
    ensures request !in old(repository.table).byKey && newRunId !in old(repository.table).rows ==>
              && grant == Granted(Lease(newRunId, 1))
              && repository.table.byKey == old(repository.table).byKey[request := newRunId]
              && repository.table.rows.Keys == old(repository.table).rows.Keys + {newRunId}
    ensures request !in old(repository.table).byKey && newRunId in old(repository.table).rows ==>
              grant == Refused(OtherError("INTEGRITYERROR"))
    ensures calm && RecordedFor(old(repository.table), request).None? && request in old(repository.table).byKey
            && IsFree(old(repository.table), old(repository.table).byKey[request], clock(1)) ==>
              var runId := old(repository.table).byKey[request];
              grant == Granted(Lease(runId, old(repository.table).rows[runId].attemptNo + 1))
  {
    var now := clock(0);
    var acquired := repository.AcquireRun(request, newRunId, now, now + leaseSeconds);
    ApplyKeeps(old(repository.table), OpAcquire(request, newRunId, now, now + leaseSeconds));
    match acquired
    case Leased(lease) => return Granted(lease);
    case IdTaken => return Refused(OtherError("INTEGRITYERROR"));
    case Existing(runId) =>
      assert ValidKey(repository.table, request);
      var completed := LoadCompleted(repository.table, runId);
      if completed.Some? {
        return Replayed(completed.value);
      }
      ghost var found := repository.table;
      var slept, passed;
      grant, slept, passed := WaitOrReclaim(repository, runId, (n: nat) => clock(n + 1), leaseSeconds, patience, calm);
      EvolvesTransitive(old(repository.table), found, repository.table);
      assert KeepsKey(found, repository.table, request);
  }

  // An answer the runner records: it is of the request and of the run that was granted.
  ghost predicate Fits(answer: HandlerOutcome, request: Request, runId: RunId) {
    && answer.Answered? && answer.result.runId == runId
    && answer.result.providerRole == request.providerRole && answer.result.dataset == request.dataset
  }

  // The error an execution fails its run with when the answer is not recorded.
  ghost function ErrorOf(answer: HandlerOutcome, request: Request, runId: RunId): RunError {
    match answer
    case HandlerRaised(error) => error
    case Answered(_) => if Fits(answer, request, runId) then IN_PROGRESS else OtherError("VALUEERROR")
  }

  // The row after an answer was recorded under a lease, field by field.
  ghost predicate IsRecorded(row: RunRow, before: RunRow, result: IngestResult) {
    && row.status == Ended(result.status) && row.leaseExpiresAt.None?
    && row.request == before.request && row.attemptNo == before.attemptNo
    && row.startedAt == result.startedAt && row.finishedAt == Some(result.finishedAt)
    && row.fetched == result.fetched && row.accepted == result.accepted && row.rejected == result.rejected
    && row.errorCode == result.errorCode
    && row.details.inserted == result.inserted && row.details.updated == result.updated
    && row.details.nextCursor == result.nextCursor && row.details.sourceWatermark == result.sourceWatermark
    && row.details.retryAfterSeconds == result.retryAfterSeconds && row.details.warnings == result.warnings
  }

  // How an execution leaves the table it found when its handler came back with `answer`.
  ghost predicate IsSettled(before: RunTable, after: RunTable, request: Request, lease: Lease, answer: HandlerOutcome,
                            outcome: ExecuteOutcome) {
    && after.byKey == before.byKey && after.rows.Keys == before.rows.Keys
    && (forall id <- before.rows.Keys | id != lease.runId :: after.rows[id] == before.rows[id])
    && (if !Owns(before, lease.runId, lease.attemptNo) then
          after == before && outcome == Raised(ErrorOf(answer, request, lease.runId))
        else if Fits(answer, request, lease.runId) then
          && outcome == Returned(answer.result)
          && IsRecorded(after.rows[lease.runId], before.rows[lease.runId], answer.result)
        else
          && outcome == Raised(ErrorOf(answer, request, lease.runId))
          && after.rows[lease.runId] == before.rows[lease.runId].(
               status := Ended(ResultStatus.Failed), leaseExpiresAt := None,
               errorCode := Some(ErrorOf(answer, request, lease.runId).typeName)))
  }

  // The rest of execute once the handler is back: check its answer, record it under the lease,
  // or fail the run.
  method SettleRun(repository: IngestionRunRepository, request: Request, lease: Lease, answer: HandlerOutcome)
    returns (outcome: ExecuteOutcome)
    requires ValidTable(repository.table)
    requires lease.runId in repository.table.rows && repository.table.rows[lease.runId].request == request
    modifies repository
    ensures ValidTable(repository.table) && Evolves(old(repository.table), repository.table)
    ensures IsSettled(old(repository.table), repository.table, request, lease, answer, outcome)
    ensures outcome.Returned? ==> outcome.result.Answers(request)
    ensures outcome.Returned? && outcome.result.Replayable() ==>
              RecordedFor(repository.table, request) == Some(outcome.result)
  {
    ghost var found := repository.table;
    var error := IN_PROGRESS;
    if answer.HandlerRaised? {
      error := answer.error;
    } else if !answer.result.Answers(request) || answer.result.runId != lease.runId {
      error := OtherError("VALUEERROR");
    } else {
      var completed := repository.CompleteRun(answer.result, lease);
      if completed {
        ApplyKeeps(found, OpComplete(answer.result, lease));
        if answer.result.Replayable() {
          CompletionRecords(found, lease, answer.result);
        }
        return Returned(answer.result);
      }
    }
    var _ := repository.FailRun(lease, error.typeName);
    ApplyKeeps(found, OpFail(lease, error.typeName));
    return Raised(error);
  }

  /** JobRunner.execute. The handler sees only the run it was given; whatever it does, an answer
      that this call returns as succeeded or partial is the one the table records for the request,
      now and forever, and a lost lease turns into an error instead of a second answer. `found` is
      the table when the handler came back under `lease`. */
  method Execute(repository: IngestionRunRepository, request: Request, newRunId: RunId,
                 clock: nat -> int, leaseSeconds: nat, patience: Patience, handler: RunId -> HandlerOutcome,
                 ghost calm: bool)
    returns (outcome: ExecuteOutcome, handled: bool, ghost lease: Lease, ghost found: RunTable)
    requires ValidTable(repository.table) && patience.Valid()
    modifies repository
    ensures ValidTable(repository.table) && Evolves(old(repository.table), repository.table)
    ensures outcome.Returned? ==> outcome.result.Answers(request)
    ensures outcome.Returned? && outcome.result.Replayable() ==>
              RecordedFor(repository.table, request) == Some(outcome.result)
    ensures !handled && outcome.Returned? ==> outcome.result.Replayable()
    ensures RecordedFor(old(repository.table), request).Some? ==>
              !handled && outcome == Returned(RecordedFor(old(repository.table), request).value)
    // A handled request is settled by its handler's answer and the fence, whoever runs beside it.
    ensures handled ==>
              && request in found.byKey && found.byKey[request] == lease.runId
              && IsSettled(found, repository.table, request, lease, handler(lease.runId), outcome)
    ensures handled && outcome.Returned? ==> lease.runId in found.rows && found.rows[lease.runId].request == request
    // An unknown request under a fresh ID is always handled; alone, so is a free one, and the
    // lease still owns its run at the end.
    ensures request !in old(repository.table).byKey && newRunId !in old(repository.table).rows ==>
              && handled && lease == Lease(newRunId, 1)
              && (calm ==> found.byKey == old(repository.table).byKey[request := newRunId]
                           && found.rows.Keys == old(repository.table).rows.Keys + {newRunId})
    ensures calm && RecordedFor(old(repository.table), request).None? && request in old(repository.table).byKey
            && IsFree(old(repository.table), old(repository.table).byKey[request], clock(1)) ==>
              var runId := old(repository.table).byKey[request];
              handled && lease == Lease(runId, old(repository.table).rows[runId].attemptNo + 1)
    ensures calm && handled ==> Owns(found, lease.runId, lease.attemptNo)
  {
    lease, found := Lease(newRunId, 0), repository.table;
    var grant := AcquireCheckpointedRun(repository, request, newRunId, clock, leaseSeconds, patience, calm);
    match grant
    case Replayed(result) =>
      RecordedAnswersItsRequest(repository.table, request);
      return Returned(result), false, lease, found;
    case Refused(error) =>
      return Raised(error), false, lease, found;
    case Granted(granted) =>
      lease := granted;
      ghost var mine := repository.table;
      repository.OthersRun(calm);
      EvolvesTransitive(old(repository.table), mine, repository.table);
      found := repository.table;
      assert KeepsKey(mine, found, request) && ValidKey(found, request);
      outcome := SettleRun(repository, request, granted, handler(granted.runId));
      EvolvesTransitive(old(repository.table), found, repository.table);
      handled := true;
  }
}
