/** Any number of scheduler workers over one database. Each step is one transaction or one crash,
    chosen by an arbitrary scheduler with arbitrary clocks. Workers stall past their leases,
    die at any point and come back; foreign clients may run any ledger transaction. */
module IngestionProtocol {
  import opened Prelude
  import opened RunLedger
  import opened TaskCheckpoint

  type WorkerId = nat

  datatype TaskOutcome = TaskSucceeded(checkpoint: Checkpoint) | TaskRetryable | TaskFailed | TaskError

  // Where a worker's call of CheckpointedScheduledTask.run stands.
  datatype Worker =
    | Idle
    | Ready(key: TaskKey, mine: Checkpoint)
    | Waiting(key: TaskKey, mine: Checkpoint, runId: RunId)
    | Executing(key: TaskKey, mine: Checkpoint, lease: Lease)
    | Holding(key: TaskKey, mine: Checkpoint, result: IngestResult)
    | Done(key: TaskKey, outcome: TaskOutcome)
  {
    predicate Busy() {
      Ready? || Waiting? || Executing? || Holding?
    }
  }

  // `journal` is a history variable, the answers each checkpoint has consumed. No step reads it.
  datatype State = State(
    configs: map<string, TaskConfig>, runs: RunTable, checkpoints: CheckpointTable,
    workers: map<WorkerId, Worker>, journal: map<TaskKey, seq<IngestResult>>)

  datatype Step =
    | Begin(worker: WorkerId, key: TaskKey, requestAsOf: int, owner: nat)
    | AcquireRun(worker: WorkerId, newRunId: RunId, now: int, leaseExpiresAt: int)
    | Poll(worker: WorkerId, now: int, leaseExpiresAt: int)
    | Heartbeat(worker: WorkerId, leaseExpiresAt: int)
    | CompleteRun(worker: WorkerId, result: IngestResult)
    | HandlerFails(worker: WorkerId, errorCode: string)
    | GiveUp(worker: WorkerId)
    | AdvanceTask(worker: WorkerId)
    | Crash(worker: WorkerId)
    | Foreign(op: RunOp)

  function Init(configs: map<string, TaskConfig>): State {
    State(configs, EMPTY_TABLE, map[], map[], map[])
  }

  function WorkerAt(s: State, w: WorkerId): Worker {
    if w in s.workers then s.workers[w] else Idle
  }

  function Goes(s: State, w: WorkerId, next: Worker): State {
    s.(workers := s.workers[w := next])
  }

  function PageRequest(s: State, key: TaskKey, mine: Checkpoint): Request
    requires key.taskId in s.configs
  {
    RequestFor(s.configs[key.taskId], key, mine.requestAsOf, mine.nextCursor)
  }

  function DoBegin(s: State, w: WorkerId, key: TaskKey, asOf: int, owner: nat): State
    requires key.taskId in s.configs
  {
    var (table, begun) := BeginOrLoad(s.checkpoints, key, s.configs[key.taskId], asOf, owner);
    var journal := if key in s.checkpoints then s.journal else s.journal[key := []];
    var next := match begun
                case IdentityReused => Done(key, TaskError)
                case Loaded(row) => if row.status == Completed then Done(key, TaskSucceeded(row)) else Ready(key, row);
    Goes(s.(checkpoints := table, journal := journal), w, next)
  }

  function DoAcquire(s: State, w: WorkerId, key: TaskKey, mine: Checkpoint,
                     newRunId: RunId, now: int, expires: int): State
    requires key.taskId in s.configs
  {
    var (runs, acquired) := Acquire(s.runs, PageRequest(s, key, mine), newRunId, now, expires);
    var next := match acquired
                case Leased(lease) => Executing(key, mine, lease)
                case IdTaken => Done(key, TaskError)
                case Existing(runId) =>
                  (match LoadCompleted(runs, runId)
                   case Some(result) => Holding(key, mine, result)
                   case None => Waiting(key, mine, runId));
    Goes(s.(runs := runs), w, next)
  }

  function DoPoll(s: State, w: WorkerId, key: TaskKey, mine: Checkpoint, runId: RunId,
                  now: int, expires: int): State
  {
    match LoadCompleted(s.runs, runId)
    case Some(result) => Goes(s, w, Holding(key, mine, result))
    case None =>
      var (runs, lease) := Claim(s.runs, runId, now, expires);
      match lease
      case Some(l) => Goes(s.(runs := runs), w, Executing(key, mine, l))
      case None => s
  }

  // The runner checks that the answer fits its request before it records it.
  function DoComplete(s: State, w: WorkerId, key: TaskKey, mine: Checkpoint, lease: Lease,
                      result: IngestResult): State
    requires key.taskId in s.configs
  {
    if result.runId != lease.runId || !result.Answers(PageRequest(s, key, mine)) then
      Goes(s.(runs := Fail(s.runs, lease, "VALUEERROR").0), w, Done(key, TaskError))
    else
      var (runs, completed) := Complete(s.runs, result, lease);
      if !completed then
        Goes(s.(runs := Fail(runs, lease, "INGESTIONRUNINPROGRESSERROR").0), w, Done(key, TaskError))
      else
        var next := match result.status
                    case RetryWait => Done(key, TaskRetryable)
                    case Failed => Done(key, TaskFailed)
                    case _ => Holding(key, mine, result);
        Goes(s.(runs := runs), w, next)
  }

  function DoAdvance(s: State, w: WorkerId, key: TaskKey, mine: Checkpoint, result: IngestResult): State {
    var (table, advanced) := Advance(s.checkpoints, key, mine, result);
    match advanced
    case AdvancedTo(row) =>
      var journal := if key in s.journal then s.journal[key := s.journal[key] + [result]] else s.journal;
      Goes(s.(checkpoints := table, journal := journal), w,
           if row.status == Completed then Done(key, TaskSucceeded(row)) else Ready(key, row))
    case _ => Goes(s, w, Done(key, TaskError))
  }

  // A step that is not enabled leaves the state alone.
  function Next(s: State, step: Step): State {
    match step
    case Begin(w, key, asOf, owner) =>
      if !WorkerAt(s, w).Busy() && key.taskId in s.configs then DoBegin(s, w, key, asOf, owner) else s
    case AcquireRun(w, newRunId, now, expires) =>
      (match WorkerAt(s, w)
       case Ready(key, mine) =>
         if key.taskId in s.configs then DoAcquire(s, w, key, mine, newRunId, now, expires) else s
       case _ => s)
    case Poll(w, now, expires) =>
      (match WorkerAt(s, w)
       case Waiting(key, mine, runId) => DoPoll(s, w, key, mine, runId, now, expires)
       case _ => s)
    case Heartbeat(w, expires) =>
      (match WorkerAt(s, w)
       case Executing(_, _, lease) => s.(runs := Renew(s.runs, lease, expires).0)
       case _ => s)
    case CompleteRun(w, result) =>
      (match WorkerAt(s, w)
       case Executing(key, mine, lease) =>
         if key.taskId in s.configs then DoComplete(s, w, key, mine, lease, result) else s
       case _ => s)
    case HandlerFails(w, code) =>
      (match WorkerAt(s, w)
       case Executing(key, mine, lease) =>
         Goes(s.(runs := Fail(s.runs, lease, code).0), w, Done(key, TaskError))
       case _ => s)
    case GiveUp(w) =>
      (match WorkerAt(s, w)
       case Ready(key, _) => Goes(s, w, Done(key, TaskError))
       case Waiting(key, _, _) => Goes(s, w, Done(key, TaskError))
       case _ => s)
    case AdvanceTask(w) =>
      (match WorkerAt(s, w)
       case Holding(key, mine, result) => DoAdvance(s, w, key, mine, result)
       case _ => s)
    case Crash(w) => Goes(s, w, Idle)
    case Foreign(op) => s.(runs := Apply(s.runs, op))
  }

  function Run(s: State, steps: seq<Step>): State
    decreases |steps|
  {
    if steps == [] then s else Run(Next(s, steps[0]), steps[1..])
  }

  // ---- The invariant ----------------------------------------------------------------------

  // A checkpoint row is the summary of one sequential walk over recorded answers.
  ghost predicate RowIsAWalk(s: State, key: TaskKey) {
    key in s.checkpoints ==>
      && key in s.journal && key.taskId in s.configs
      && s.checkpoints[key].BelongsTo(s.configs[key.taskId])
      && s.checkpoints[key].leaseEpoch >= 1
      && IsWalk(s.runs, s.configs[key.taskId], key, s.checkpoints[key].requestAsOf, s.journal[key])
      && Summarizes(s.checkpoints[key], s.journal[key])
  }

  // A busy worker's copy is the row itself unless somebody began the task after it.
  ghost predicate CopyIsFenced(s: State, w: WorkerId) {
    WorkerAt(s, w).Busy() ==>
      var key, mine := WorkerAt(s, w).key, WorkerAt(s, w).mine;
      && key.taskId in s.configs && key in s.checkpoints
      && mine.status == Active
      && mine.requestAsOf == s.checkpoints[key].requestAsOf
      && mine.leaseEpoch <= s.checkpoints[key].leaseEpoch
      && (mine.leaseEpoch == s.checkpoints[key].leaseEpoch ==> mine == s.checkpoints[key])
  }

  ghost predicate EpochsDiffer(s: State, v: WorkerId, w: WorkerId) {
    v != w && WorkerAt(s, v).Busy() && WorkerAt(s, w).Busy() && WorkerAt(s, v).key == WorkerAt(s, w).key
    ==> WorkerAt(s, v).mine.leaseEpoch != WorkerAt(s, w).mine.leaseEpoch
  }

  // What a worker remembers about runs is in the ledger.
  ghost predicate RunIsKnown(s: State, w: WorkerId) {
    match WorkerAt(s, w)
    case Waiting(key, mine, runId) =>
      && key.taskId in s.configs && runId in s.runs.rows
      && s.runs.rows[runId].request == PageRequest(s, key, mine)
    case Executing(key, mine, lease) =>
      && key.taskId in s.configs && lease.runId in s.runs.rows
      && s.runs.rows[lease.runId].request == PageRequest(s, key, mine)
      && lease.attemptNo <= s.runs.rows[lease.runId].attemptNo
    case Holding(key, mine, result) =>
      && key.taskId in s.configs
      && RecordedFor(s.runs, PageRequest(s, key, mine)) == Some(result)
    case Done(key, TaskSucceeded(row)) =>
      key in s.checkpoints && s.checkpoints[key] == row && row.status == Completed
    case _ => true
  }

  ghost predicate Inv(s: State) {
    && ValidTable(s.runs)
    && (forall key :: RowIsAWalk(s, key))
    && (forall w :: CopyIsFenced(s, w))
    && (forall v, w :: EpochsDiffer(s, v, w))
    && (forall w :: RunIsKnown(s, w))
  }

  // What no step ever takes back: the first claimer's request time, consumed pages, completion.
  ghost predicate KeepsCheckpoint(before: State, after: State, key: TaskKey) {
    key in before.checkpoints && key in before.journal ==>
      && key in after.checkpoints && key in after.journal
      && after.checkpoints[key].requestAsOf == before.checkpoints[key].requestAsOf
      && after.checkpoints[key].leaseEpoch >= before.checkpoints[key].leaseEpoch
      && before.journal[key] <= after.journal[key]
      && (before.checkpoints[key].status == Completed ==> after.checkpoints[key] == before.checkpoints[key])
  }

  ghost predicate Progresses(before: State, after: State) {
    && after.configs == before.configs
    && Evolves(before.runs, after.runs)
    && (forall key :: KeepsCheckpoint(before, after, key))
  }

  lemma {:induction false} ProgressesTransitive(a: State, b: State, c: State)
    requires Progresses(a, b) && Progresses(b, c)
    ensures Progresses(a, c)
  {
    EvolvesTransitive(a.runs, b.runs, c.runs);
    forall key ensures KeepsCheckpoint(a, c, key) {
      assert KeepsCheckpoint(a, b, key) && KeepsCheckpoint(b, c, key);
    }
  }

  // ---- Steps keep the invariant -------------------------------------------------------------

  // A step of worker `w` that touches the ledger and `w` only.
  lemma {:induction false} LedgerStepKeeps(s: State, runs: RunTable, w: WorkerId, next: Worker)
    requires Inv(s) && ValidTable(runs) && Evolves(s.runs, runs)
    requires next.Busy() ==> WorkerAt(s, w).Busy() && next.key == WorkerAt(s, w).key && next.mine == WorkerAt(s, w).mine
    requires RunIsKnown(Goes(s.(runs := runs), w, next), w)
    ensures Inv(Goes(s.(runs := runs), w, next))
    ensures Progresses(s, Goes(s.(runs := runs), w, next))
  {
    var s' := Goes(s.(runs := runs), w, next);
    forall key ensures RowIsAWalk(s', key) && KeepsCheckpoint(s, s', key) {
      assert RowIsAWalk(s, key);
      if key in s.checkpoints {
        WalkSurvives(s.runs, runs, s.configs[key.taskId], key, s.checkpoints[key].requestAsOf, s.journal[key]);
      }
    }
    forall v ensures CopyIsFenced(s', v) {
      assert CopyIsFenced(s, v);
    }
    forall u, v ensures EpochsDiffer(s', u, v) {
      assert EpochsDiffer(s, u, v);
    }
    forall v ensures RunIsKnown(s', v) {
      if v != w {
        assert RunIsKnown(s, v);
        KnownStaysKnown(s, s', v);
      }
    }
  }

  lemma {:induction false} KnownStaysKnown(s: State, s': State, v: WorkerId)
    requires ValidTable(s.runs) && Evolves(s.runs, s'.runs) && s'.configs == s.configs
    requires RunIsKnown(s, v) && WorkerAt(s', v) == WorkerAt(s, v)
    requires WorkerAt(s, v).Done? && WorkerAt(s, v).key in s.checkpoints
             && s.checkpoints[WorkerAt(s, v).key].status == Completed ==>
               && WorkerAt(s, v).key in s'.checkpoints
               && s'.checkpoints[WorkerAt(s, v).key] == s.checkpoints[WorkerAt(s, v).key]
    ensures RunIsKnown(s', v)
  {
    match WorkerAt(s, v)
    case Waiting(_, _, runId) => assert KeepsRow(s.runs, s'.runs, runId);
    case Executing(_, _, lease) => assert KeepsRow(s.runs, s'.runs, lease.runId);
    case Holding(key, mine, _) => RecordedStays(s.runs, s'.runs, PageRequest(s, key, mine));
    case _ =>
  }

  lemma {:induction false} SelfEvolves(t: RunTable)
    ensures Evolves(t, t)
  {}

  // A step of worker `w` on one checkpoint row: it leaves `w` with that row or finished, and
  // every other busy worker of the task behind its epoch.
  lemma {:induction false} CheckpointStepKeeps(
      s: State, w: WorkerId, key: TaskKey, row: Checkpoint, pages: seq<IngestResult>, next: Worker, s': State)
    requires Inv(s) && key.taskId in s.configs
    requires s' == Goes(s.(checkpoints := s.checkpoints[key := row], journal := s.journal[key := pages]), w, next)
    requires row.BelongsTo(s.configs[key.taskId]) && row.leaseEpoch >= 1
    requires IsWalk(s.runs, s.configs[key.taskId], key, row.requestAsOf, pages) && Summarizes(row, pages)
    requires key in s.checkpoints ==>
               && s.checkpoints[key].status == Active
               && row.requestAsOf == s.checkpoints[key].requestAsOf
               && row.leaseEpoch >= s.checkpoints[key].leaseEpoch
               && key in s.journal && s.journal[key] <= pages
    requires next == if row.status == Active then Ready(key, row) else Done(key, TaskSucceeded(row))
    requires forall v | v != w && WorkerAt(s, v).Busy() && WorkerAt(s, v).key == key ::
               WorkerAt(s, v).mine.leaseEpoch < row.leaseEpoch
    ensures Inv(s') && Progresses(s, s')
  {
    SelfEvolves(s.runs);
    forall k ensures RowIsAWalk(s', k) && KeepsCheckpoint(s, s', k) {
      assert RowIsAWalk(s, k);
    }
    forall v ensures CopyIsFenced(s', v) {
      assert CopyIsFenced(s, v);
    }
    forall u, v ensures EpochsDiffer(s', u, v) {
      assert EpochsDiffer(s, u, v);
    }
    forall v ensures RunIsKnown(s', v) {
      assert RunIsKnown(s, v);
      if v != w {
        KnownStaysKnown(s, s', v);
      }
    }
  }

  lemma {:induction false} BeginKeeps(s: State, w: WorkerId, key: TaskKey, asOf: int, owner: nat)
    requires Inv(s) && !WorkerAt(s, w).Busy() && key.taskId in s.configs
    ensures Inv(DoBegin(s, w, key, asOf, owner)) && Progresses(s, DoBegin(s, w, key, asOf, owner))
  {
    var config := s.configs[key.taskId];
    var (table, begun) := BeginOrLoad(s.checkpoints, key, config, asOf, owner);
    assert RowIsAWalk(s, key);
    forall v | WorkerAt(s, v).Busy() && WorkerAt(s, v).key == key
      ensures key in s.checkpoints && WorkerAt(s, v).mine.leaseEpoch <= s.checkpoints[key].leaseEpoch
    {
      assert CopyIsFenced(s, v);
    }
    if key in s.checkpoints && s.checkpoints[key].status == Completed {
      SelfEvolves(s.runs);
      assert s.checkpoints[key := s.checkpoints[key]] == s.checkpoints;
      assert DoBegin(s, w, key, asOf, owner)
          == Goes(s.(runs := s.runs), w, Done(key, TaskSucceeded(s.checkpoints[key])));
      LedgerStepKeeps(s, s.runs, w, Done(key, TaskSucceeded(s.checkpoints[key])));
    } else {
      var row := begun.checkpoint;
      var pages := if key in s.checkpoints then s.journal[key] else [];
      assert key in s.checkpoints ==> s.journal[key := pages] == s.journal;
      assert DoBegin(s, w, key, asOf, owner) ==
             Goes(s.(checkpoints := s.checkpoints[key := row], journal := s.journal[key := pages]), w, Ready(key, row));
      CheckpointStepKeeps(s, w, key, row, pages, Ready(key, row),
        Goes(s.(checkpoints := s.checkpoints[key := row], journal := s.journal[key := pages]), w, Ready(key, row)));
    }
  }

  lemma {:induction false} AdvanceKeeps(s: State, w: WorkerId)
    requires Inv(s) && WorkerAt(s, w).Holding?
    ensures Inv(Next(s, AdvanceTask(w))) && Progresses(s, Next(s, AdvanceTask(w)))
  {
    var Holding(key, mine, result) := WorkerAt(s, w);
    assert CopyIsFenced(s, w) && RunIsKnown(s, w) && RowIsAWalk(s, key);
    var (table, advanced) := Advance(s.checkpoints, key, mine, result);
    match advanced
    case AdvancedTo(row) =>
      AdvanceAppendsOnePage(s.checkpoints, key, s.journal[key], result);
      var pages := s.journal[key] + [result];
      WalkExtends(s.runs, s.configs[key.taskId], key, mine.requestAsOf, s.journal[key], result);
      forall v | v != w && WorkerAt(s, v).Busy() && WorkerAt(s, v).key == key
        ensures WorkerAt(s, v).mine.leaseEpoch < row.leaseEpoch
      {
        assert CopyIsFenced(s, v) && EpochsDiffer(s, v, w);
      }
      CheckpointStepKeeps(s, w, key, row, pages,
        if row.status == Completed then Done(key, TaskSucceeded(row)) else Ready(key, row), Next(s, AdvanceTask(w)));
    case _ =>
      SelfEvolves(s.runs);
      LedgerStepKeeps(s, s.runs, w, Done(key, TaskError));
  }

  lemma {:induction false} AcquireRunKeeps(s: State, w: WorkerId, newRunId: RunId, now: int, expires: int)
    requires Inv(s) && WorkerAt(s, w).Ready?
    ensures var s' := Next(s, AcquireRun(w, newRunId, now, expires)); Inv(s') && Progresses(s, s')
  {
    var Ready(key, mine) := WorkerAt(s, w);
    assert CopyIsFenced(s, w);
    var request := PageRequest(s, key, mine);
    ApplyKeeps(s.runs, OpAcquire(request, newRunId, now, expires));
    var s' := Next(s, AcquireRun(w, newRunId, now, expires));
    assert ValidKey(s.runs, request);
    LedgerStepKeeps(s, s'.runs, w, WorkerAt(s', w));
  }

  lemma {:induction false} PollKeeps(s: State, w: WorkerId, now: int, expires: int)
    requires Inv(s) && WorkerAt(s, w).Waiting?
    ensures var s' := Next(s, Poll(w, now, expires)); Inv(s') && Progresses(s, s')
  {
    var Waiting(key, mine, runId) := WorkerAt(s, w);
    assert CopyIsFenced(s, w) && RunIsKnown(s, w) && ValidRow(s.runs, runId);
    ApplyKeeps(s.runs, OpClaim(runId, now, expires));
    SelfEvolves(s.runs);
    var s' := Next(s, Poll(w, now, expires));
    if s' != s {
      LedgerStepKeeps(s, s'.runs, w, WorkerAt(s', w));
    }
  }

  lemma {:induction false} CompleteRunKeeps(s: State, w: WorkerId, result: IngestResult)
    requires Inv(s) && WorkerAt(s, w).Executing?
    ensures var s' := Next(s, CompleteRun(w, result)); Inv(s') && Progresses(s, s')
  {
    var Executing(key, mine, lease) := WorkerAt(s, w);
    assert CopyIsFenced(s, w) && RunIsKnown(s, w);
    var s' := Next(s, CompleteRun(w, result));
    ApplyKeeps(s.runs, OpFail(lease, "VALUEERROR"));
    ApplyKeeps(s.runs, OpFail(lease, "INGESTIONRUNINPROGRESSERROR"));
    ApplyKeeps(s.runs, OpComplete(result, lease));
    if result.runId == lease.runId && result.Answers(PageRequest(s, key, mine))
       && Complete(s.runs, result, lease).1 && result.Replayable() {
      CompletionRecords(s.runs, lease, result);
    }
    LedgerStepKeeps(s, s'.runs, w, WorkerAt(s', w));
  }

  lemma {:induction false} NextKeeps(s: State, step: Step)
    requires Inv(s)
    ensures Inv(Next(s, step)) && Progresses(s, Next(s, step))
  {
    SelfEvolves(s.runs);
    var s' := Next(s, step);
    match step
    case Begin(w, key, asOf, owner) =>
      if s' != s { BeginKeeps(s, w, key, asOf, owner); }
    case AcquireRun(w, newRunId, now, expires) =>
      if s' != s { AcquireRunKeeps(s, w, newRunId, now, expires); }
    case Poll(w, now, expires) =>
      if s' != s { PollKeeps(s, w, now, expires); }
    case Heartbeat(w, expires) =>
      if s' != s {
        ApplyKeeps(s.runs, OpRenew(WorkerAt(s, w).lease, expires));
        LedgerOnlyKeeps(s, s'.runs);
      }
    case CompleteRun(w, result) =>
      if s' != s { CompleteRunKeeps(s, w, result); }
    case HandlerFails(w, code) =>
      if s' != s {
        ApplyKeeps(s.runs, OpFail(WorkerAt(s, w).lease, code));
        LedgerStepKeeps(s, s'.runs, w, WorkerAt(s', w));
      }
    case GiveUp(w) =>
      if s' != s { LedgerStepKeeps(s, s.runs, w, WorkerAt(s', w)); }
    case AdvanceTask(w) =>
      if s' != s { AdvanceKeeps(s, w); }
    case Crash(w) =>
      LedgerStepKeeps(s, s.runs, w, Idle);
    case Foreign(op) =>
      ApplyKeeps(s.runs, op);
      LedgerOnlyKeeps(s, s'.runs);
  }

  lemma {:induction false} LedgerOnlyKeeps(s: State, runs: RunTable)
    requires Inv(s) && ValidTable(runs) && Evolves(s.runs, runs)
    ensures Inv(s.(runs := runs)) && Progresses(s, s.(runs := runs))
  {
    var s' := s.(runs := runs);
    forall key ensures RowIsAWalk(s', key) && KeepsCheckpoint(s, s', key) {
      assert RowIsAWalk(s, key);
      if key in s.checkpoints {
        WalkSurvives(s.runs, runs, s.configs[key.taskId], key, s.checkpoints[key].requestAsOf, s.journal[key]);
      }
    }
    forall v ensures CopyIsFenced(s', v) && RunIsKnown(s', v) {
      assert CopyIsFenced(s, v) && RunIsKnown(s, v);
      KnownStaysKnown(s, s', v);
    }
    forall u, v ensures EpochsDiffer(s', u, v) {
      assert EpochsDiffer(s, u, v);
    }
  }

  // ---- Every interleaving --------------------------------------------------------------------

  lemma {:induction false} RunKeeps(s: State, steps: seq<Step>)
    requires Inv(s)
    ensures Inv(Run(s, steps)) && Progresses(s, Run(s, steps))
    decreases |steps|
  {
    SelfEvolves(s.runs);
    if steps != [] {
      NextKeeps(s, steps[0]);
      RunKeeps(Next(s, steps[0]), steps[1..]);
      ProgressesTransitive(s, Next(s, steps[0]), Run(s, steps));
    }
  }

  lemma {:induction false} InitHolds(configs: map<string, TaskConfig>)
    ensures Inv(Init(configs))
  {}

  // Whatever the scheduler, the clocks, the crashes and the foreign clients do, a checkpoint row
  // is the summary of a walk that one reader could have made alone over the recorded answers.
  lemma {:induction false} CheckpointIsOneSequentialWalk(
      configs: map<string, TaskConfig>, steps: seq<Step>, key: TaskKey)
    requires key in Run(Init(configs), steps).checkpoints
    ensures var s := Run(Init(configs), steps);
            var row := s.checkpoints[key];
            && key.taskId in configs
            && (exists pages ::
                  && IsWalk(s.runs, configs[key.taskId], key, row.requestAsOf, pages)
                  && Summarizes(row, pages)
                  && CountsAgree(s.runs, row, pages))
  {
    InitHolds(configs);
    RunKeeps(Init(configs), steps);
    var s := Run(Init(configs), steps);
    assert RowIsAWalk(s, key);
    var row := s.checkpoints[key];
    CountsMatchRunIdsExactly(s.runs, configs[key.taskId], key, row.requestAsOf, row, s.journal[key]);
  }

  // The walk only ever grows, from the request time the first claimer chose.
  lemma {:induction false} FirstClaimFixesTheWalk(configs: map<string, TaskConfig>, steps: seq<Step>, more: seq<Step>,
                               w: WorkerId, key: TaskKey, requestAsOf: int, owner: nat)
    requires !WorkerAt(Run(Init(configs), steps), w).Busy() && key.taskId in configs
    requires key !in Run(Init(configs), steps).checkpoints
    ensures var claimed := Next(Run(Init(configs), steps), Begin(w, key, requestAsOf, owner));
            var later := Run(claimed, more);
            && key in later.checkpoints
            && later.checkpoints[key].requestAsOf == requestAsOf
  {
    InitHolds(configs);
    RunKeeps(Init(configs), steps);
    var s := Run(Init(configs), steps);
    NextKeeps(s, Begin(w, key, requestAsOf, owner));
    var claimed := Next(s, Begin(w, key, requestAsOf, owner));
    RunKeeps(claimed, more);
    assert KeepsCheckpoint(claimed, Run(claimed, more), key);
  }

  lemma {:induction false} ProgressIsNeverUndone(
      configs: map<string, TaskConfig>, steps: seq<Step>, more: seq<Step>, key: TaskKey)
    requires key in Run(Init(configs), steps).checkpoints
    ensures var earlier := Run(Init(configs), steps);
            var later := Run(earlier, more);
            && key in later.checkpoints && key in earlier.journal && key in later.journal
            && earlier.journal[key] <= later.journal[key]
            && later.checkpoints[key].requestAsOf == earlier.checkpoints[key].requestAsOf
            && later.checkpoints[key].recordsAccepted >= earlier.checkpoints[key].recordsAccepted
            && later.checkpoints[key].recordsRejected >= earlier.checkpoints[key].recordsRejected
            && earlier.checkpoints[key].runIds <= later.checkpoints[key].runIds
            && (earlier.checkpoints[key].status == Completed ==> later.checkpoints[key] == earlier.checkpoints[key])
  {
    InitHolds(configs);
    RunKeeps(Init(configs), steps);
    var earlier := Run(Init(configs), steps);
    RunKeeps(earlier, more);
    var later := Run(earlier, more);
    assert RowIsAWalk(earlier, key) && RowIsAWalk(later, key) && KeepsCheckpoint(earlier, later, key);
    TotalsGrow(earlier.journal[key], later.journal[key], Accepted());
    TotalsGrow(earlier.journal[key], later.journal[key], Rejected());
    ListGrows(earlier.journal[key], later.journal[key]);
  }

  // No lost update: while a worker's epoch and owner still match the row, its copy is the row,
  // so rewriting the run list from the copy neither drops nor repeats an ID; once they do not
  // match, its advance changes nothing.
  lemma {:induction false} NoLostUpdate(configs: map<string, TaskConfig>, steps: seq<Step>, w: WorkerId)
    requires WorkerAt(Run(Init(configs), steps), w).Holding?
    ensures var s := Run(Init(configs), steps);
            var Holding(key, mine, result) := WorkerAt(s, w);
            var s' := Next(s, AdvanceTask(w));
            && key in s.checkpoints
            && (s.checkpoints[key].leaseEpoch == mine.leaseEpoch && s.checkpoints[key].leaseOwner == mine.leaseOwner ==>
                  && mine == s.checkpoints[key]
                  && key in s.journal && s'.checkpoints.Keys == s.checkpoints.Keys
                  && Summarizes(s'.checkpoints[key], s.journal[key] + [result])
                  && s'.checkpoints[key].runIds == WithRun(s.checkpoints[key].runIds, result.runId))
            && (s.checkpoints[key].leaseEpoch != mine.leaseEpoch || s.checkpoints[key].leaseOwner != mine.leaseOwner ==>
                  s'.checkpoints == s.checkpoints && WorkerAt(s', w) == Done(key, TaskError))
  {
    InitHolds(configs);
    RunKeeps(Init(configs), steps);
    var s := Run(Init(configs), steps);
    var Holding(key, mine, result) := WorkerAt(s, w);
    assert CopyIsFenced(s, w) && RowIsAWalk(s, key);
    if mine == s.checkpoints[key] {
      AdvanceAppendsOnePage(s.checkpoints, key, s.journal[key], result);
    }
  }

  // Reporting a completed checkpoint never raises, everybody who reports a task as succeeded
  // reports the same finished walk, and no walk over the recorded answers goes beyond it.
  lemma {:induction false} SuccessesAgree(
      configs: map<string, TaskConfig>, steps: seq<Step>, v: WorkerId, w: WorkerId)
    requires WorkerAt(Run(Init(configs), steps), v).Done? && WorkerAt(Run(Init(configs), steps), w).Done?
    requires WorkerAt(Run(Init(configs), steps), v).outcome.TaskSucceeded?
    requires WorkerAt(Run(Init(configs), steps), w).outcome.TaskSucceeded?
    requires WorkerAt(Run(Init(configs), steps), v).key == WorkerAt(Run(Init(configs), steps), w).key
    ensures var s := Run(Init(configs), steps);
            var row := WorkerAt(s, v).outcome.checkpoint;
            && WorkerAt(s, w).outcome.checkpoint == row
            && row.status == Completed && row.nextCursor.None?
            && row.runId.Some? && row.runId.value in row.runIds
            && (forall i, j | 0 <= i < j < |row.runIds| :: row.runIds[i] != row.runIds[j])
            && WorkerAt(s, v).key.taskId in configs
            && (exists pages :: Summarizes(row, pages)
                                && IsWholeChain(s.runs, configs[WorkerAt(s, v).key.taskId], WorkerAt(s, v).key,
                                                row.requestAsOf, pages))
  {
    InitHolds(configs);
    RunKeeps(Init(configs), steps);
    var s := Run(Init(configs), steps);
    assert RunIsKnown(s, v) && RunIsKnown(s, w);
    var key := WorkerAt(s, v).key;
    assert RowIsAWalk(s, key);
    var pages := s.journal[key];
    assert pages[|pages| - 1].runId == s.checkpoints[key].runId.value;
    var config, asOf := configs[key.taskId], s.checkpoints[key].requestAsOf;
    forall other | IsWalk(s.runs, config, key, asOf, other) ensures other <= pages {
      FinishedWalkIsLongest(s.runs, config, key, asOf, pages, other);
    }
    assert IsWholeChain(s.runs, config, key, asOf, pages);
  }
}
