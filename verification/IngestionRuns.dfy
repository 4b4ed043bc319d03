/** What the ingestion protocol does when one worker has a task to itself: it gets through. */
module IngestionRuns {
  import opened Prelude
  import opened RunLedger
  import opened TaskCheckpoint
  import opened IngestionProtocol

  // Beginning a task claims a new checkpoint, takes over an active one from its stored cursor, or
  // reports a completed one.
  lemma {:induction false} BeginningATask(s: State, w: WorkerId, key: TaskKey, requestAsOf: int, owner: nat)
    requires Inv(s) && (WorkerAt(s, w).Idle? || WorkerAt(s, w).Done?) && key.taskId in s.configs
    ensures var s' := Next(s, Begin(w, key, requestAsOf, owner));
            && key in s'.checkpoints && s'.runs == s.runs
            && (if key !in s.checkpoints then
                  && WorkerAt(s', w) == Ready(key, s'.checkpoints[key]) && s'.checkpoints[key].status == Active
                  && s'.checkpoints[key].requestAsOf == requestAsOf && s'.checkpoints[key].nextCursor.None?
                  && s'.checkpoints[key].leaseEpoch == 1 && s'.checkpoints[key].leaseOwner == owner
                  && key in s'.journal && s'.journal[key] == []
                else if s.checkpoints[key].status == Active then
                  && WorkerAt(s', w) == Ready(key, s'.checkpoints[key]) && s'.journal == s.journal
                  && s'.checkpoints[key] == s.checkpoints[key].(
                       leaseEpoch := s.checkpoints[key].leaseEpoch + 1, leaseOwner := owner)
                else
                  && s'.checkpoints == s.checkpoints && s'.journal == s.journal
                  && WorkerAt(s', w) == Done(key, TaskSucceeded(s.checkpoints[key])))
  {
    assert RowIsAWalk(s, key);
  }

  // A worker alone at a new page executes it under a fresh run, records the answer and advances.
  lemma {:induction false} PageAlone(
      s: State, w: WorkerId, runId: RunId, now: int, expires: int, result: IngestResult)
    requires Inv(s) && WorkerAt(s, w).Ready?
    requires var key, mine := WorkerAt(s, w).key, WorkerAt(s, w).mine;
             && key in s.checkpoints && mine == s.checkpoints[key] && key.taskId in s.configs
             && PageRequest(s, key, mine) !in s.runs.byKey && runId !in s.runs.rows
             && result.runId == runId && result.Answers(PageRequest(s, key, mine)) && result.Replayable()
    ensures var key, mine := WorkerAt(s, w).key, WorkerAt(s, w).mine;
            var executing := Next(s, AcquireRun(w, runId, now, expires));
            var holding := Next(executing, CompleteRun(w, result));
            var end := Next(holding, AdvanceTask(w));
            && WorkerAt(executing, w) == Executing(key, mine, Lease(runId, 1))
            && WorkerAt(holding, w) == Holding(key, mine, result)
            && RecordedFor(end.runs, PageRequest(s, key, mine)) == Some(result)
            && key in s.journal && key in end.journal && end.journal[key] == s.journal[key] + [result]
            && key in end.checkpoints
            && end.checkpoints[key].nextCursor == result.nextCursor
            && end.checkpoints[key].recordsAccepted == mine.recordsAccepted + result.accepted
            && end.checkpoints[key].recordsRejected == mine.recordsRejected + result.rejected
            && result.runId in end.checkpoints[key].runIds
            && WorkerAt(end, w) == (if result.nextCursor.Some? then Ready(key, end.checkpoints[key])
                                    else Done(key, TaskSucceeded(end.checkpoints[key])))
  {
    var Ready(key, mine) := WorkerAt(s, w);
    assert CopyIsFenced(s, w) && RowIsAWalk(s, key) && ValidRow(s.runs, runId);
    var request := PageRequest(s, key, mine);
    var executing := Next(s, AcquireRun(w, runId, now, expires));
    ApplyKeeps(s.runs, OpAcquire(request, runId, now, expires));
    assert WorkerAt(executing, w) == Executing(key, mine, Lease(runId, 1));
    CompletionRecords(executing.runs, Lease(runId, 1), result);
    var holding := Next(executing, CompleteRun(w, result));
    assert WorkerAt(holding, w) == Holding(key, mine, result);
  }

  // A worker that found somebody else's run gets its answer once it is recorded, and the run
  // itself once it has failed or its lease is over.
  lemma {:induction false} WaiterGetsThrough(s: State, w: WorkerId, now: int, expires: int)
    requires Inv(s) && WorkerAt(s, w).Waiting?
    ensures var Waiting(key, mine, runId) := WorkerAt(s, w);
            var s' := Next(s, Poll(w, now, expires));
            && runId in s.runs.rows
            && (LoadCompleted(s.runs, runId).Some? ==>
                  WorkerAt(s', w) == Holding(key, mine, LoadCompleted(s.runs, runId).value) && s'.runs == s.runs)
            && (LoadCompleted(s.runs, runId).None?
                && (|| s.runs.rows[runId].status == Ended(Failed) || s.runs.rows[runId].status == Ended(RetryWait)
                    || (s.runs.rows[runId].status == Running
                         && s.runs.rows[runId].leaseExpiresAt.GetOr(now) <= now)) ==>
                  && WorkerAt(s', w) == Executing(key, mine, Lease(runId, s.runs.rows[runId].attemptNo + 1))
                  && Owns(s'.runs, runId, s.runs.rows[runId].attemptNo + 1))
  {
    assert RunIsKnown(s, w) && ValidRow(s.runs, WorkerAt(s, w).runId);
  }

  // What a failing or asking page makes of the worker, and of its run.
  lemma {:induction false} PageFails(s: State, w: WorkerId, result: IngestResult, errorCode: string)
    requires Inv(s) && WorkerAt(s, w).Executing?
    requires Owns(s.runs, WorkerAt(s, w).lease.runId, WorkerAt(s, w).lease.attemptNo)
    ensures var Executing(key, mine, lease) := WorkerAt(s, w);
            var raised := Next(s, HandlerFails(w, errorCode));
            && WorkerAt(raised, w) == Done(key, TaskError) && raised.checkpoints == s.checkpoints
            && raised.runs.rows[lease.runId].status == Ended(Failed)
            && raised.runs.rows[lease.runId].errorCode == Some(errorCode)
    ensures var Executing(key, mine, lease) := WorkerAt(s, w);
            var s' := Next(s, CompleteRun(w, result));
            key.taskId in s.configs && result.runId == lease.runId && result.Answers(PageRequest(s, key, mine)) ==>
              && s'.checkpoints == s.checkpoints
              && s'.runs.rows[lease.runId].status == Ended(result.status)
              && (result.status == RetryWait ==> WorkerAt(s', w) == Done(key, TaskRetryable))
              && (result.status == Failed ==> WorkerAt(s', w) == Done(key, TaskFailed))
  {
    assert RunIsKnown(s, w);
  }
}
