/** CheckpointedScheduledTask.run as a program: claim the checkpoint, then execute and advance
    page by page, while other workers use the same ledger and checkpoint table. */
module ScheduledTask {
  import opened Prelude
  import opened RunLedger
  import opened TaskCheckpoint
  import opened JobRunner

  datatype ScheduledTaskResult =
    | Success(recordCount: nat, recordsRejected: nat, runId: RunId, runIds: seq<RunId>)
    | Retryable(errorCode: Option<string>)
    | Failure(errorCode: Option<string>)
    | Raises(typeName: string)
    | Died

  // A row that summarizes a walk over the ledger, with the pages as its witness.
  ghost predicate SoundRow(
    runs: RunTable, config: TaskConfig, key: TaskKey, row: Checkpoint, pages: seq<IngestResult>)
  {
    && row.BelongsTo(config)
    && IsWalk(runs, config, key, row.requestAsOf, pages)
    && Summarizes(row, pages)
  }

  class ScheduledTaskCheckpointStore {
    var checkpoints: CheckpointTable
    ghost var journal: map<TaskKey, seq<IngestResult>>

    constructor ()
      ensures checkpoints == map[] && journal == map[]
    {
      checkpoints, journal := map[], map[];
    }

    ghost predicate Sound(runs: RunTable, config: TaskConfig, key: TaskKey)
      reads this
    {
      key in checkpoints ==> key in journal && SoundRow(runs, config, key, checkpoints[key], journal[key])
    }

    // The key is taken by the checkpoint of another task.
    ghost predicate IsForeign(config: TaskConfig, key: TaskKey)
      reads this
    {
      key in checkpoints && !checkpoints[key].BelongsTo(config)
    }

    method BeginOrLoad(key: TaskKey, config: TaskConfig, requestAsOf: int, owner: nat) returns (begun: Begun)
      modifies this
      ensures (checkpoints, begun) == TaskCheckpoint.BeginOrLoad(old(checkpoints), key, config, requestAsOf, owner)
      ensures journal == if key in old(checkpoints) then old(journal) else old(journal)[key := []]
    {
      if key !in checkpoints {
        var row := Checkpoint(config.providerRole, config.dataset, config.region, requestAsOf,
                              Active, None, None, None, [], 0, 0, 1, owner);
        checkpoints, journal := checkpoints[key := row], journal[key := []];
        return Loaded(row);
      }
      var row := checkpoints[key];
      if row.status == Active {
        row := row.(leaseEpoch := row.leaseEpoch + 1, leaseOwner := owner);
      }
      if !row.BelongsTo(config) {
        return IdentityReused;
      }
      checkpoints := checkpoints[key := row];
      return Loaded(row);
    }

    method Advance(key: TaskKey, mine: Checkpoint, result: IngestResult) returns (advanced: Advanced)
      modifies this
      ensures (checkpoints, advanced) == TaskCheckpoint.Advance(old(checkpoints), key, mine, result)
      ensures journal == if advanced.AdvancedTo? && key in old(journal)
                         then old(journal)[key := old(journal)[key] + [result]] else old(journal)
    {
      if mine.status == Completed {
        return AlreadyCompleted;
      }
      if key !in checkpoints || checkpoints[key].status != Active
         || checkpoints[key].leaseEpoch != mine.leaseEpoch || checkpoints[key].leaseOwner != mine.leaseOwner {
        return CheckpointLost;
      }
      var row := checkpoints[key];
      var updated := row.(
        status := if result.nextCursor.None? then Completed else Active,
        runId := Some(result.runId), runIds := WithRun(mine.runIds, result.runId),
        nextCursor := result.nextCursor, sourceWatermark := result.sourceWatermark,
        recordsAccepted := row.recordsAccepted + result.accepted,
        recordsRejected := row.recordsRejected + result.rejected);
      checkpoints := checkpoints[key := updated];
      if key in journal {
        journal := journal[key := journal[key] + [result]];
      }
      return AdvancedTo(updated);
    }

    // Other workers run while the ledger goes from `before` to `after`. By
    // `IngestionProtocol.RunKeeps` they leave the row sound, and a row whose epoch did not rise
    // untouched. In a calm call there are none.
    method OthersRun(key: TaskKey, config: TaskConfig, ghost before: RunTable, ghost after: RunTable, ghost calm: bool)
      requires ValidTable(before) && Evolves(before, after)
      requires key in checkpoints && Sound(before, config, key)
      modifies this
      ensures key in checkpoints && Sound(after, config, key)
      ensures checkpoints[key].leaseEpoch >= old(checkpoints)[key].leaseEpoch
      ensures checkpoints[key].leaseEpoch == old(checkpoints)[key].leaseEpoch ==>
                checkpoints[key] == old(checkpoints)[key]
      ensures calm ==> checkpoints == old(checkpoints) && journal == old(journal)
    {
      WalkSurvives(before, after, config, key, checkpoints[key].requestAsOf, journal[key]);
    }
  }

  // A row without a run raises; the others are reported with their counts and runs.
  function ResultFromCheckpoint(row: Checkpoint): (result: ScheduledTaskResult)
    ensures row.runId.None? <==> result == Raises("RUNTIMEERROR")
    ensures row.runId.Some? <==> result.Success? && Some(result.runId) == row.runId
    ensures result.Success? ==>
              && result.recordCount == row.recordsAccepted && result.recordsRejected == row.recordsRejected
              && result.runIds == row.runIds
  {
    if row.runId.None? then Raises("RUNTIMEERROR")
    else Success(row.recordsAccepted, row.recordsRejected, row.runId.value, row.runIds)
  }

  // Reporting a completed row never raises: the success names the walk's last run, lists each
  // run once and carries the walk's totals.
  lemma {:induction false} CompletedRowIsReported(row: Checkpoint, pages: seq<IngestResult>)
    requires Summarizes(row, pages) && row.status == Completed
    ensures var result := ResultFromCheckpoint(row);
            && result.Success? && pages != []
            && result.runId == pages[|pages| - 1].runId && result.runId in result.runIds
            && (forall i, j | 0 <= i < j < |result.runIds| :: result.runIds[i] != result.runIds[j])
            && (forall id :: id in result.runIds <==> exists i :: 0 <= i < |pages| && pages[i].runId == id)
            && result.recordCount == Total(pages, Accepted()) && result.recordsRejected == Total(pages, Rejected())
  {
    assert pages[|pages| - 1].runId == row.runId.value;
  }

  // One durable advance of a checkpoint with the answer the ledger records for its next page.
  method AdvanceWith(repository: IngestionRunRepository, store: ScheduledTaskCheckpointStore, key: TaskKey,
                     config: TaskConfig, mine: Checkpoint, answer: IngestResult)
    returns (advanced: Advanced)
    requires key in store.checkpoints && store.Sound(repository.table, config, key)
    requires mine.status == Active
    requires mine.leaseEpoch == store.checkpoints[key].leaseEpoch ==> mine == store.checkpoints[key]
    requires RecordedFor(repository.table, RequestFor(config, key, mine.requestAsOf, mine.nextCursor)) == Some(answer)
    modifies store
    ensures (store.checkpoints, advanced) == TaskCheckpoint.Advance(old(store.checkpoints), key, mine, answer)
    ensures key in store.checkpoints && store.Sound(repository.table, config, key)
    ensures advanced.AdvancedTo? ==> advanced.checkpoint == store.checkpoints[key]
    ensures mine == old(store.checkpoints)[key] ==>
              && advanced.AdvancedTo?
              && store.journal == old(store.journal)[key := old(store.journal)[key] + [answer]]
  {
    ghost var pages := store.journal[key];
    if mine == store.checkpoints[key] {
      AdvanceAppendsOnePage(store.checkpoints, key, pages, answer);
      WalkExtends(repository.table, config, key, mine.requestAsOf, pages, answer);
    }
    advanced := store.Advance(key, mine, answer);
  }

  // ---- What one call reads when nobody runs beside it -----------------------------------------

  type Provider = (nat, RunId) -> HandlerOutcome

  // The cursor before page `i` if every page before it was answered.
  ghost function CursorAt(start: Option<string>, handler: Provider, ids: nat -> RunId, i: nat): Option<string> {
    if i == 0 then start
    else
      match handler(i - 1, ids(i - 1))
      case Answered(result) => result.nextCursor
      case HandlerRaised(_) => None
  }

  // The page is answered with a recorded result and a cursor to go on from.
  ghost predicate GoesOn(config: TaskConfig, answer: HandlerOutcome, runId: RunId) {
    && AnswersTask(answer, config, runId)
    && (answer.result.status == ResultStatus.Succeeded || answer.result.status == Partial)
    && answer.result.nextCursor.Some?
  }

  ghost predicate AnswersTask(answer: HandlerOutcome, config: TaskConfig, runId: RunId) {
    && answer.Answered? && answer.result.runId == runId
    && answer.result.providerRole == config.providerRole && answer.result.dataset == config.dataset
  }

  ghost predicate CursorsDiffer(start: Option<string>, handler: Provider, ids: nat -> RunId, n: nat) {
    && (forall i: nat, j: nat | i < j < n :: CursorAt(start, handler, ids, i) != CursorAt(start, handler, ids, j))
    && (forall i: nat, j: nat | i < j < n :: ids(i) != ids(j))
  }

  // The ledger knows neither the request nor the run ID of page `i`.
  ghost predicate IsNew(
    runs: RunTable, config: TaskConfig, key: TaskKey, asOf: int, cursor: Option<string>, id: RunId)
  {
    RequestFor(config, key, asOf, cursor) !in runs.byKey && id !in runs.rows
  }

  ghost predicate AllNew(runs: RunTable, config: TaskConfig, key: TaskKey, asOf: int, start: Option<string>,
                         handler: Provider, ids: nat -> RunId, from: nat, n: nat) {
    forall i: nat | from <= i < n :: IsNew(runs, config, key, asOf, CursorAt(start, handler, ids, i), ids(i))
  }

  ghost function Answers(handler: Provider, ids: nat -> RunId, n: nat): (pages: seq<IngestResult>)
    requires forall i: nat | i < n :: handler(i, ids(i)).Answered?
    ensures |pages| == n && forall i | 0 <= i < n :: pages[i] == handler(i, ids(i)).result
  {
    seq(n, i requires 0 <= i < n => handler(i, ids(i)).result)
  }

  // Pages 0 to `n` - 1 go on and `n` does not, unless the process dies before it; none of them
  // was ever read.
  ghost predicate StopsAt(runs: RunTable, config: TaskConfig, key: TaskKey, asOf: int, start: Option<string>,
                          handler: Provider, ids: nat -> RunId, n: nat, lifetime: nat) {
    && n <= lifetime && (forall i: nat | i < n :: GoesOn(config, handler(i, ids(i)), ids(i)))
    && (n < lifetime ==> !GoesOn(config, handler(n, ids(n)), ids(n)))
    && CursorsDiffer(start, handler, ids, n + 1)
    && AllNew(runs, config, key, asOf, start, handler, ids, 0, n + 1)
  }

  // What the first page that does not go on makes of the call.
  ghost predicate EndsAs(config: TaskConfig, answer: HandlerOutcome, runId: RunId, result: ScheduledTaskResult) {
    match answer
    case HandlerRaised(ProviderError(_, code, retryable)) =>
      result == if retryable then Retryable(Some(code)) else Failure(Some(code))
    case HandlerRaised(OtherError(typeName)) => result == Raises(typeName)
    case Answered(page) =>
      if !AnswersTask(answer, config, runId) then result == Raises("VALUEERROR")
      else
        match page.status
        case RetryWait => result == Retryable(page.errorCode)
        case Failed => result == Failure(page.errorCode)
        case _ => page.nextCursor.None? ==> result.Success? && result.runId == page.runId
  }

  // Alone over new pages, the call stops at page `n`: the first that does not go on, or the end
  // of the process. Every page before it was consumed, and `n` too if it is the last one.
  ghost predicate ReadsUpTo(
    config: TaskConfig, handler: Provider, ids: nat -> RunId, n: nat, lifetime: nat, before: seq<IngestResult>,
    after: seq<IngestResult>, result: ScheduledTaskResult)
    requires forall i: nat | i < n :: handler(i, ids(i)).Answered?
  {
    if n >= lifetime then result == Died && after == before + Answers(handler, ids, n)
    else
      && EndsAs(config, handler(n, ids(n)), ids(n), result)
      && after == before + Answers(handler, ids, n)
                  + (if result.Success? then [handler(n, ids(n)).result] else [])
  }

  lemma {:induction false} NewStaysNew(
      before: RunTable, after: RunTable, config: TaskConfig, key: TaskKey, asOf: int, start: Option<string>,
      handler: Provider, ids: nat -> RunId, page: nat, n: nat)
    requires page < n && AllNew(before, config, key, asOf, start, handler, ids, page, n)
    requires CursorsDiffer(start, handler, ids, n)
    requires after.byKey.Keys
          == before.byKey.Keys + {RequestFor(config, key, asOf, CursorAt(start, handler, ids, page))}
    requires after.rows.Keys == before.rows.Keys + {ids(page)}
    ensures AllNew(after, config, key, asOf, start, handler, ids, page + 1, n)
  {
    forall i: nat | page + 1 <= i < n
      ensures IsNew(after, config, key, asOf, CursorAt(start, handler, ids, i), ids(i))
    {
      assert IsNew(before, config, key, asOf, CursorAt(start, handler, ids, i), ids(i));
      OtherCursorOtherRequest(config, key, asOf, CursorAt(start, handler, ids, page), CursorAt(start, handler, ids, i));
    }
  }

  lemma {:induction false} OtherCursorOtherRequest(
      config: TaskConfig, key: TaskKey, asOf: int, one: Option<string>, other: Option<string>)
    requires one != other
    ensures RequestFor(config, key, asOf, one) != RequestFor(config, key, asOf, other)
  {}

  // One round of the loop: execute the page's request and advance the checkpoint with its answer.
  // None goes on with `next`.
  method ReadPage(repository: IngestionRunRepository, store: ScheduledTaskCheckpointStore, key: TaskKey,
                  config: TaskConfig, mine: Checkpoint, runId: RunId, clock: nat -> int, leaseSeconds: nat,
                  patience: Patience, handler: RunId -> HandlerOutcome, ghost calm: bool)
    returns (ended: Option<ScheduledTaskResult>, next: Checkpoint)
    requires ValidTable(repository.table) && patience.Valid()
    requires key in store.checkpoints && store.Sound(repository.table, config, key)
    requires mine.status == Active && mine.leaseEpoch <= store.checkpoints[key].leaseEpoch
    requires mine.leaseEpoch == store.checkpoints[key].leaseEpoch ==> mine == store.checkpoints[key]
    modifies repository, store
    ensures ValidTable(repository.table) && Evolves(old(repository.table), repository.table)
    ensures key in store.checkpoints && store.Sound(repository.table, config, key)
    ensures ended.None? ==> next.status == Active && next == store.checkpoints[key]
    ensures ended.Some? && ended.value.Success? ==>
              store.checkpoints[key].status == Completed && ended.value == ResultFromCheckpoint(store.checkpoints[key])
    // Alone over a new page, what happens is what the handler answered.
    ensures var request := RequestFor(config, key, mine.requestAsOf, mine.nextCursor);
            calm && mine == old(store.checkpoints)[key]
            && request !in old(repository.table).byKey && runId !in old(repository.table).rows ==>
              && repository.table.byKey.Keys == old(repository.table).byKey.Keys + {request}
              && repository.table.rows.Keys == old(repository.table).rows.Keys + {runId}
              && key in old(store.journal) && key in store.journal
              && (if GoesOn(config, handler(runId), runId) then
                    && ended.None? && next.requestAsOf == mine.requestAsOf
                    && next.nextCursor == handler(runId).result.nextCursor
                    && store.journal[key] == old(store.journal)[key] + [handler(runId).result]
                  else
                    && ended.Some? && EndsAs(config, handler(runId), runId, ended.value)
                    && store.journal[key]
                       == old(store.journal)[key] + (if ended.value.Success? then [handler(runId).result] else []))
  {
    var request := RequestFor(config, key, mine.requestAsOf, mine.nextCursor);
    ghost var found := repository.table;
    next := mine;
    assert key in store.journal && store.journal[key] + [] == store.journal[key];
    var outcome, handled, _, _ :=
      Execute(repository, request, runId, clock, leaseSeconds, patience, handler, calm);
    store.OthersRun(key, config, found, repository.table, calm);
    match outcome {
      case Raised(ProviderError(_, code, retryable)) =>
        return Some(if retryable then Retryable(Some(code)) else Failure(Some(code))), next;
      case Raised(OtherError(typeName)) =>
        return Some(Raises(typeName)), next;
      case Returned(answer) =>
        if answer.status == RetryWait {
          return Some(Retryable(answer.errorCode)), next;
        }
        if answer.status == ResultStatus.Failed {
          return Some(Failure(answer.errorCode)), next;
        }
        var advanced := AdvanceWith(repository, store, key, config, mine, answer);
        if !advanced.AdvancedTo? {
          return Some(Raises("RUNTIMEERROR")), next;
        }
        next := advanced.checkpoint;
        if next.status == Completed {
          return Some(ResultFromCheckpoint(next)), next;
        }
        return None, next;
    }
  }

  // What is read after `page` pages of a walk alone.
  ghost predicate ReadSoFar(
    runs: RunTable, config: TaskConfig, key: TaskKey, start: Checkpoint, mine: Checkpoint, handler: Provider,
    ids: nat -> RunId, page: nat, n: nat, before: seq<IngestResult>, after: seq<IngestResult>)
    requires forall i: nat | i < n :: handler(i, ids(i)).Answered?
  {
    && page <= n && mine.requestAsOf == start.requestAsOf
    && mine.nextCursor == CursorAt(start.nextCursor, handler, ids, page)
    && after == before + Answers(handler, ids, page)
    && AllNew(runs, config, key, start.requestAsOf, start.nextCursor, handler, ids, page, n + 1)
  }

  lemma {:induction false} ReadOneMore(
      found: RunTable, runs: RunTable, config: TaskConfig, key: TaskKey, start: Checkpoint, mine: Checkpoint,
      next: Checkpoint, handler: Provider, ids: nat -> RunId, page: nat, n: nat, before: seq<IngestResult>,
      read: seq<IngestResult>, after: seq<IngestResult>)
    requires forall i: nat | i < n :: handler(i, ids(i)).Answered?
    requires ReadSoFar(found, config, key, start, mine, handler, ids, page, n, before, read) && page < n
    requires CursorsDiffer(start.nextCursor, handler, ids, n + 1)
    requires runs.byKey.Keys == found.byKey.Keys + {RequestFor(config, key, mine.requestAsOf, mine.nextCursor)}
    requires runs.rows.Keys == found.rows.Keys + {ids(page)}
    requires next.requestAsOf == mine.requestAsOf && next.nextCursor == handler(page, ids(page)).result.nextCursor
    requires after == read + [handler(page, ids(page)).result]
    ensures ReadSoFar(runs, config, key, start, next, handler, ids, page + 1, n, before, after)
  {
    NewStaysNew(found, runs, config, key, start.requestAsOf, start.nextCursor, handler, ids, page, n + 1);
    OneAnswerMore(handler, ids, page, before);
  }

  lemma {:induction false} OneAnswerMore(handler: Provider, ids: nat -> RunId, page: nat, before: seq<IngestResult>)
    requires forall i: nat | i <= page :: handler(i, ids(i)).Answered?
    ensures before + Answers(handler, ids, page) + [handler(page, ids(page)).result]
         == before + Answers(handler, ids, page + 1)
  {
    assert Answers(handler, ids, page + 1) == Answers(handler, ids, page) + [handler(page, ids(page)).result];
  }

  // The loop of run from an active checkpoint on.
  method ReadPages(repository: IngestionRunRepository, store: ScheduledTaskCheckpointStore,
                   key: TaskKey, config: TaskConfig, start: Checkpoint,
                   ids: nat -> RunId, clock: nat -> int, handler: Provider,
                   leaseSeconds: nat, patience: Patience, lifetime: nat, ghost calm: bool, ghost n: nat)
    returns (result: ScheduledTaskResult)
    requires ValidTable(repository.table) && patience.Valid()
    requires key in store.checkpoints && store.Sound(repository.table, config, key)
    requires start == store.checkpoints[key] && start.status == Active
    modifies repository, store
    ensures ValidTable(repository.table) && Evolves(old(repository.table), repository.table)
    ensures store.Sound(repository.table, config, key)
    ensures result.Success? ==>
              && key in store.checkpoints && store.checkpoints[key].status == Completed
              && result == ResultFromCheckpoint(store.checkpoints[key])
    ensures calm && StopsAt(old(repository.table), config, key, start.requestAsOf, start.nextCursor, handler, ids, n,
                            lifetime) ==>
              && key in old(store.journal) && key in store.journal
              && ReadsUpTo(config, handler, ids, n, lifetime, old(store.journal)[key], store.journal[key], result)
  {
    ghost var before := store.journal[key];
    ghost var alone := calm && StopsAt(repository.table, config, key, start.requestAsOf, start.nextCursor, handler, ids,
                                       n, lifetime);
    var mine := start;
    var page: nat := 0;
    assert before == before + (if alone then Answers(handler, ids, 0) else []);
    while page < lifetime
      invariant ValidTable(repository.table) && Evolves(old(repository.table), repository.table)
      invariant key in store.checkpoints && store.Sound(repository.table, config, key)
      invariant mine.status == Active && mine == store.checkpoints[key]
      invariant page <= lifetime
      invariant alone ==>
        ReadSoFar(repository.table, config, key, start, mine, handler, ids, page, n, before, store.journal[key])
    {
      ghost var found, read := repository.table, store.journal[key];
      assert alone ==> IsNew(found, config, key, mine.requestAsOf, mine.nextCursor, ids(page));
      var ended, next := ReadPage(repository, store, key, config, mine, ids(page), (n: nat) => clock(page + n),
                                  leaseSeconds, patience, (run: RunId) => handler(page, run), calm);
      EvolvesTransitive(old(repository.table), found, repository.table);
      if ended.Some? {
        return ended.value;
      }
      if alone {
        ReadOneMore(found, repository.table, config, key, start, mine, next, handler, ids, page, n, before, read,
                    store.journal[key]);
      }
      mine := next;
      page := page + 1;
    }
    return Died;
  }

  /** One call of run. `ids`, `clock` and `handler` are the fresh run IDs, the clock and the
      provider's behaviour for each page in turn; the process may die after `lifetime` pages.
      In a calm call nobody else runs, and `n` is a page to which the last clause speaks. */
  method RunTask(repository: IngestionRunRepository, store: ScheduledTaskCheckpointStore,
                 key: TaskKey, config: TaskConfig, requestAsOf: int, owner: nat,
                 ids: nat -> RunId, clock: nat -> int, handler: Provider,
                 leaseSeconds: nat, patience: Patience, lifetime: nat, ghost calm: bool, ghost n: nat)
    returns (result: ScheduledTaskResult)
    requires ValidTable(repository.table) && patience.Valid()
    requires store.Sound(repository.table, config, key) || store.IsForeign(config, key)
    modifies repository, store
    ensures ValidTable(repository.table) && Evolves(old(repository.table), repository.table)
    ensures store.Sound(repository.table, config, key) || old(store.IsForeign(config, key))
    // A reported success is the finished walk in the table; a completed task only reports it.
    ensures result.Success? ==>
              && key in store.checkpoints && store.checkpoints[key].status == Completed
              && result == ResultFromCheckpoint(store.checkpoints[key])
    ensures key in old(store.checkpoints) && old(store.checkpoints)[key].status == Completed ==>
              && store.checkpoints == old(store.checkpoints) && repository.table == old(repository.table)
              && (!old(store.IsForeign(config, key)) ==>
                    result.Success? && result == ResultFromCheckpoint(store.checkpoints[key]))
    // A checkpoint of another task under the key is an error that changes nothing.
    ensures old(store.IsForeign(config, key)) ==>
              && result == Raises("VALUEERROR")
              && store.checkpoints == old(store.checkpoints) && repository.table == old(repository.table)
    // Alone over pages that nobody has read, the call reads on from the stored cursor to the
    // first page that does not go on, and ends as that page says.
    ensures calm && key !in old(store.checkpoints)
            && StopsAt(old(repository.table), config, key, requestAsOf, None, handler, ids, n, lifetime) ==>
              && key in store.journal
              && ReadsUpTo(config, handler, ids, n, lifetime, [], store.journal[key], result)
    ensures calm && key in old(store.checkpoints) && old(store.checkpoints)[key].status == Active
            && !old(store.IsForeign(config, key))
            && StopsAt(old(repository.table), config, key, old(store.checkpoints)[key].requestAsOf,
                       old(store.checkpoints)[key].nextCursor, handler, ids, n, lifetime) ==>
              && key in store.journal
              && ReadsUpTo(config, handler, ids, n, lifetime, old(store.journal)[key], store.journal[key], result)
  {
    var begun := store.BeginOrLoad(key, config, requestAsOf, owner);
    if begun.IdentityReused? {
      return Raises("VALUEERROR");
    }
    var mine := begun.checkpoint;
    assert store.Sound(repository.table, config, key) by {
      if key !in old(store.checkpoints) {
        assert IsWalk(repository.table, config, key, requestAsOf, []);
      }
    }
    if mine.status == Completed {
      return ResultFromCheckpoint(mine);
    }
    result := ReadPages(
      repository, store, key, config, mine, ids, clock, handler, leaseSeconds, patience, lifetime, calm, n);
  }
}
