/** Scheduler progress of one report date and task, fenced by a lease epoch and owner. */
module TaskCheckpoint {
  import opened Prelude
  import opened RunLedger

  datatype TaskKey = TaskKey(reportDate: int, taskId: string)

  // What a scheduled task is configured with. Offsets are seconds around local midnight.
  datatype TaskConfig = TaskConfig(
    providerRole: string, dataset: string, region: string, startOffset: int, endOffset: int)

  datatype CheckpointStatus = Active | Completed

  // The row and a worker's local copy have the same shape.
  datatype Checkpoint = Checkpoint(
    providerRole: string, dataset: string, region: string, requestAsOf: int,
    status: CheckpointStatus, nextCursor: Option<string>, sourceWatermark: Option<string>,
    runId: Option<RunId>, runIds: seq<RunId>, recordsAccepted: nat, recordsRejected: nat,
    leaseEpoch: nat, leaseOwner: nat)
  {
    predicate BelongsTo(config: TaskConfig) {
      providerRole == config.providerRole && dataset == config.dataset && region == config.region
    }
  }

  type CheckpointTable = map<TaskKey, Checkpoint>

  const DAY := 86400

  // The page request of a task at a cursor; the report date names a local midnight.
  function RequestFor(config: TaskConfig, key: TaskKey, asOf: int, cursor: Option<string>): Request {
    var dayStart := key.reportDate * DAY;
    Request(config.providerRole, config.dataset, {config.region},
            dayStart + config.startOffset, dayStart + config.endOffset, asOf, cursor, false, false)
  }

  // The page requests of a configured task: one region, the window around the date's midnight,
  // never forced and never dry. They differ exactly in date, time of request and cursor, so each
  // page of each walk has its own ledger key.
  lemma {:induction false} PageRequestsDiffer(
      config: TaskConfig, k: TaskKey, l: TaskKey, asOf: int, asOf': int, cursor: Option<string>,
      cursor': Option<string>)
    ensures var r := RequestFor(config, k, asOf, cursor);
            && r.providerRole == config.providerRole && r.dataset == config.dataset && r.regions == {config.region}
            && r.start - k.reportDate * 86400 == config.startOffset
            && r.end - k.reportDate * 86400 == config.endOffset
            && r.asOf == asOf && r.cursor == cursor && !r.dryRun && !r.force
    ensures RequestFor(config, k, asOf, cursor) == RequestFor(config, l, asOf', cursor')
       <==> k.reportDate == l.reportDate && asOf == asOf' && cursor == cursor'
  {}

  datatype Begun = Loaded(checkpoint: Checkpoint) | IdentityReused

  // INSERT .. ON CONFLICT DO UPDATE of the lease WHERE status = 'active'; a row of another
  // task's identity aborts the whole transaction.
  function BeginOrLoad(t: CheckpointTable, key: TaskKey, config: TaskConfig, requestAsOf: int, owner: nat)
    : (CheckpointTable, Begun)
  {
    if key !in t then
      var row := Checkpoint(config.providerRole, config.dataset, config.region, requestAsOf,
                            Active, None, None, None, [], 0, 0, 1, owner);
      (t[key := row], Loaded(row))
    else
      var row := if t[key].status == Active
                 then t[key].(leaseEpoch := t[key].leaseEpoch + 1, leaseOwner := owner)
                 else t[key];
      if row.BelongsTo(config) then (t[key := row], Loaded(row)) else (t, IdentityReused)
  }

  function WithRun(runIds: seq<RunId>, runId: RunId): seq<RunId> {
    if runId in runIds then runIds else runIds + [runId]
  }

  datatype Advanced = AdvancedTo(checkpoint: Checkpoint) | AlreadyCompleted | CheckpointLost

  // UPDATE .. WHERE active and still our epoch and owner. The counts are added to the row; the
  // list of run IDs is rewritten from the caller's own copy.
  function Advance(t: CheckpointTable, key: TaskKey, mine: Checkpoint, result: IngestResult)
    : (CheckpointTable, Advanced)
  {
    if mine.status == Completed then (t, AlreadyCompleted)
    else if key in t && t[key].status == Active
            && t[key].leaseEpoch == mine.leaseEpoch && t[key].leaseOwner == mine.leaseOwner then
      var row := t[key].(
        status := if result.nextCursor.None? then Completed else Active,
        runId := Some(result.runId), runIds := WithRun(mine.runIds, result.runId),
        nextCursor := result.nextCursor, sourceWatermark := result.sourceWatermark,
        recordsAccepted := t[key].recordsAccepted + result.accepted,
        recordsRejected := t[key].recordsRejected + result.rejected);
      (t[key := row], AdvancedTo(row))
    else (t, CheckpointLost)
  }

  // ---- The sequential walk a checkpoint stands for ---------------------------------------

  // The cursor a reader holds before page `i` of a walk that read `pages`.
  function CursorBefore(pages: seq<IngestResult>, i: nat): Option<string>
    requires i <= |pages|
  {
    if i == 0 then None else pages[i - 1].nextCursor
  }

  ghost predicate PageIsRecorded(runs: RunTable, config: TaskConfig, key: TaskKey, asOf: int,
                                 pages: seq<IngestResult>, i: nat)
    requires i < |pages|
  {
    RecordedFor(runs, RequestFor(config, key, asOf, CursorBefore(pages, i))) == Some(pages[i])
  }

  // One reader that starts without a cursor and follows each recorded answer's next cursor.
  ghost predicate IsWalk(runs: RunTable, config: TaskConfig, key: TaskKey, asOf: int, pages: seq<IngestResult>) {
    && (forall i | 0 <= i < |pages| :: PageIsRecorded(runs, config, key, asOf, pages, i))
    && (forall i | 0 <= i < |pages| - 1 :: pages[i].nextCursor.Some?)
  }

  // One of the counts of an answer.
  type Count = IngestResult -> nat

  function Accepted(): Count {
    (page: IngestResult) => page.accepted
  }

  function Rejected(): Count {
    (page: IngestResult) => page.rejected
  }

  function Total(pages: seq<IngestResult>, count: Count): nat {
    if pages == [] then 0 else Total(pages[..|pages| - 1], count) + count(pages[|pages| - 1])
  }

  // The run IDs of the pages, each at its first occurrence.
  function FirstOccurrences(pages: seq<IngestResult>): (ids: seq<RunId>)
    ensures |ids| <= |pages|
    ensures forall id :: id in ids <==> exists i :: 0 <= i < |pages| && pages[i].runId == id
    ensures forall i, j | 0 <= i < j < |ids| :: ids[i] != ids[j]
  {
    if pages == [] then []
    else
      var front := FirstOccurrences(pages[..|pages| - 1]);
      var last := pages[|pages| - 1].runId;
      if last in front then front else front + [last]
  }

  // The row says exactly what one sequential reader knows after `pages`.
  ghost predicate Summarizes(row: Checkpoint, pages: seq<IngestResult>) {
    && row.nextCursor == CursorBefore(pages, |pages|)
    && row.sourceWatermark == (if pages == [] then None else pages[|pages| - 1].sourceWatermark)
    && row.runId == (if pages == [] then None else Some(pages[|pages| - 1].runId))
    && row.runIds == FirstOccurrences(pages)
    && row.recordsAccepted == Total(pages, Accepted())
    && row.recordsRejected == Total(pages, Rejected())
    && (row.status == Completed <==> pages != [] && pages[|pages| - 1].nextCursor.None?)
  }

  // Two readers of one chain never disagree: the shorter walk is a prefix of the longer one.
  lemma {:induction false} WalksAreOneChain(runs: RunTable, config: TaskConfig, key: TaskKey, asOf: int,
                                            shorter: seq<IngestResult>, longer: seq<IngestResult>)
    requires IsWalk(runs, config, key, asOf, shorter)
    requires IsWalk(runs, config, key, asOf, longer)
    requires |shorter| <= |longer|
    ensures shorter == longer[..|shorter|]
  {
    if shorter != [] {
      var n := |shorter| - 1;
      var front := shorter[..n];
      forall i | 0 <= i < n ensures PageIsRecorded(runs, config, key, asOf, front, i) {
        assert PageIsRecorded(runs, config, key, asOf, shorter, i);
      }
      WalksAreOneChain(runs, config, key, asOf, front, longer);
      assert forall i | 0 <= i < n :: shorter[i] == front[i] == longer[i];
      assert CursorBefore(shorter, n) == CursorBefore(longer, n);
      assert PageIsRecorded(runs, config, key, asOf, shorter, n);
      assert PageIsRecorded(runs, config, key, asOf, longer, n);
    }
  }

  // A finished walk cannot be continued: every other walk is a prefix of it.
  lemma {:induction false} FinishedWalkIsLongest(runs: RunTable, config: TaskConfig, key: TaskKey, asOf: int,
                              finished: seq<IngestResult>, other: seq<IngestResult>)
    requires IsWalk(runs, config, key, asOf, finished) && IsWalk(runs, config, key, asOf, other)
    requires finished != [] && finished[|finished| - 1].nextCursor.None?
    ensures |other| <= |finished| && other == finished[..|other|]
  {
    if |other| > |finished| {
      WalksAreOneChain(runs, config, key, asOf, finished, other);
      assert false;
    } else {
      WalksAreOneChain(runs, config, key, asOf, other, finished);
    }
  }

  // A walk that every other walk over the recorded answers is a prefix of.
  ghost predicate IsWholeChain(runs: RunTable, config: TaskConfig, key: TaskKey, asOf: int, pages: seq<IngestResult>) {
    && IsWalk(runs, config, key, asOf, pages)
    && forall other | IsWalk(runs, config, key, asOf, other) :: other <= pages
  }

  lemma {:induction false} WalkSurvives(
      before: RunTable, after: RunTable, config: TaskConfig, key: TaskKey, asOf: int, pages: seq<IngestResult>)
    requires ValidTable(before) && Evolves(before, after)
    requires IsWalk(before, config, key, asOf, pages)
    ensures IsWalk(after, config, key, asOf, pages)
  {
    forall i | 0 <= i < |pages| ensures PageIsRecorded(after, config, key, asOf, pages, i) {
      assert PageIsRecorded(before, config, key, asOf, pages, i);
      RecordedStays(before, after, RequestFor(config, key, asOf, CursorBefore(pages, i)));
    }
  }

  lemma {:induction false} WalkExtends(runs: RunTable, config: TaskConfig, key: TaskKey, asOf: int,
                    pages: seq<IngestResult>, page: IngestResult)
    requires IsWalk(runs, config, key, asOf, pages)
    requires pages != [] ==> pages[|pages| - 1].nextCursor.Some?
    requires RecordedFor(runs, RequestFor(config, key, asOf, CursorBefore(pages, |pages|))) == Some(page)
    ensures IsWalk(runs, config, key, asOf, pages + [page])
  {
    var longer := pages + [page];
    forall i | 0 <= i < |longer| ensures PageIsRecorded(runs, config, key, asOf, longer, i) {
      assert CursorBefore(longer, i) == CursorBefore(pages, i);
      if i < |pages| {
        assert PageIsRecorded(runs, config, key, asOf, pages, i);
      }
    }
  }

  // No lost update: advancing from a copy that equals the row appends one page to its summary.
  lemma {:induction false} AdvanceAppendsOnePage(
      t: CheckpointTable, key: TaskKey, pages: seq<IngestResult>, result: IngestResult)
    requires key in t && t[key].status == Active && Summarizes(t[key], pages)
    ensures Advance(t, key, t[key], result).1.AdvancedTo?
    ensures Summarizes(Advance(t, key, t[key], result).0[key], pages + [result])
  {
    assert (pages + [result])[..|pages|] == pages;
  }

  // ---- Counting each page once ------------------------------------------------------------

  ghost predicate CursorsNeverRepeat(pages: seq<IngestResult>) {
    forall i, j | 0 <= i < j < |pages| :: CursorBefore(pages, i) != CursorBefore(pages, j)
  }

  lemma {:induction false} SameRunSameCursor(runs: RunTable, config: TaskConfig, key: TaskKey, asOf: int,
                          pages: seq<IngestResult>, i: nat, j: nat)
    requires ValidTable(runs) && IsWalk(runs, config, key, asOf, pages)
    requires i < |pages| && j < |pages|
    ensures pages[i].runId == pages[j].runId <==> CursorBefore(pages, i) == CursorBefore(pages, j)
  {
    assert PageIsRecorded(runs, config, key, asOf, pages, i);
    assert PageIsRecorded(runs, config, key, asOf, pages, j);
    var ri := RequestFor(config, key, asOf, CursorBefore(pages, i));
    var rj := RequestFor(config, key, asOf, CursorBefore(pages, j));
    RecordedAnswersItsRequest(runs, ri);
    RecordedAnswersItsRequest(runs, rj);
    assert ValidKey(runs, ri) && ValidKey(runs, rj);
  }

  function RunIdsOf(pages: seq<IngestResult>): (ids: seq<RunId>)
    ensures |ids| == |pages| && forall i | 0 <= i < |ids| :: ids[i] == pages[i].runId
  {
    seq(|pages|, i requires 0 <= i < |pages| => pages[i].runId)
  }

  lemma {:induction false} FirstOccurrencesLength(pages: seq<IngestResult>)
    ensures |FirstOccurrences(pages)| == |pages| <==>
            forall i, j | 0 <= i < j < |pages| :: pages[i].runId != pages[j].runId
    ensures |FirstOccurrences(pages)| == |pages| ==> FirstOccurrences(pages) == RunIdsOf(pages)
  {
    if pages != [] {
      var n := |pages| - 1;
      var front := pages[..n];
      FirstOccurrencesLength(front);
      if pages[n].runId in FirstOccurrences(front) {
        var i :| 0 <= i < |front| && front[i].runId == pages[n].runId;
        assert pages[i].runId == pages[n].runId;
      } else {
        assert forall i | 0 <= i < n :: front[i].runId != pages[n].runId;
        assert forall i | 0 <= i < n :: pages[i] == front[i];
        if |FirstOccurrences(pages)| == |pages| {
          assert RunIdsOf(pages) == RunIdsOf(front) + [pages[n].runId];
        }
      }
    }
  }

  // The count that the run table itself stores for a list of runs.
  function Stored(runs: RunTable, ids: seq<RunId>, count: Count): nat {
    if ids == [] then 0
    else
      Stored(runs, ids[..|ids| - 1], count)
      + (match LoadCompleted(runs, ids[|ids| - 1]) case Some(result) => count(result) case None => 0)
  }

  // Page `i` was read with a cursor that an earlier page had been read with.
  ghost predicate Repeats(pages: seq<IngestResult>, i: nat)
    requires i < |pages|
  {
    exists j :: 0 <= j < i && CursorBefore(pages, j) == CursorBefore(pages, i)
  }

  // No repeated page carries any of the counted records.
  ghost predicate RepeatsCountNothing(pages: seq<IngestResult>, count: Count) {
    forall i | 0 <= i < |pages| && Repeats(pages, i) :: count(pages[i]) == 0
  }

  ghost predicate AreStored(runs: RunTable, pages: seq<IngestResult>) {
    forall i | 0 <= i < |pages| :: LoadCompleted(runs, pages[i].runId) == Some(pages[i])
  }

  ghost predicate RunsFollowCursors(pages: seq<IngestResult>) {
    forall i, j | 0 <= i < j < |pages| ::
      pages[i].runId == pages[j].runId <==> CursorBefore(pages, i) == CursorBefore(pages, j)
  }

  lemma {:induction false} LastIsListed(pages: seq<IngestResult>)
    requires pages != [] && RunsFollowCursors(pages)
    ensures pages[|pages| - 1].runId in FirstOccurrences(pages[..|pages| - 1]) <==> Repeats(pages, |pages| - 1)
  {
    var n := |pages| - 1;
    var front := pages[..n];
    if Repeats(pages, n) {
      var j :| 0 <= j < n && CursorBefore(pages, j) == CursorBefore(pages, n);
      assert pages[j].runId == pages[n].runId && front[j] == pages[j];
    }
    if pages[n].runId in FirstOccurrences(front) {
      var i :| 0 <= i < |front| && front[i].runId == pages[n].runId;
      assert pages[i].runId == pages[n].runId;
      assert CursorBefore(pages, i) == CursorBefore(pages, n);
    }
  }

  lemma {:induction false} FrontFollows(pages: seq<IngestResult>, count: Count)
    requires pages != [] && RunsFollowCursors(pages)
    ensures RunsFollowCursors(pages[..|pages| - 1])
    ensures RepeatsCountNothing(pages, count) <==>
              && RepeatsCountNothing(pages[..|pages| - 1], count)
              && (Repeats(pages, |pages| - 1) ==> count(pages[|pages| - 1]) == 0)
  {
    var n := |pages| - 1;
    var front := pages[..n];
    forall i | 0 <= i < n ensures front[i] == pages[i] && (Repeats(front, i) <==> Repeats(pages, i)) {
      assert forall j | 0 <= j <= i :: CursorBefore(front, j) == CursorBefore(pages, j);
    }
    forall i, j | 0 <= i < j < n
      ensures front[i].runId == front[j].runId <==> CursorBefore(front, i) == CursorBefore(front, j)
    {
      assert CursorBefore(front, i) == CursorBefore(pages, i) && CursorBefore(front, j) == CursorBefore(pages, j);
    }
  }

  lemma {:induction false} OneMoreStored(runs: RunTable, ids: seq<RunId>, page: IngestResult, count: Count)
    requires LoadCompleted(runs, page.runId) == Some(page)
    ensures Stored(runs, ids + [page.runId], count) == Stored(runs, ids, count) + count(page)
  {
    assert (ids + [page.runId])[..|ids|] == ids;
  }

  // The total is never below what the table stores for the listed runs, and equals it exactly
  // when the repeated pages count nothing.
  lemma {:induction false} TotalAgainstStored(runs: RunTable, pages: seq<IngestResult>, count: Count)
    requires AreStored(runs, pages) && RunsFollowCursors(pages)
    ensures Total(pages, count) >= Stored(runs, FirstOccurrences(pages), count)
    ensures Total(pages, count) == Stored(runs, FirstOccurrences(pages), count) <==> RepeatsCountNothing(pages, count)
  {
    if pages != [] {
      var n := |pages| - 1;
      var front := pages[..n];
      FrontFollows(pages, count);
      assert AreStored(runs, front) by {
        assert forall i | 0 <= i < n :: front[i] == pages[i];
      }
      TotalAgainstStored(runs, front, count);
      LastIsListed(pages);
      OneMoreStored(runs, FirstOccurrences(front), pages[n], count);
    }
  }

  // What the row lists and counts. The run IDs are the pages' runs, one for one and in order,
  // exactly when the provider never hands out the same cursor twice. A count of the row is the
  // sum of what the table stores for the listed runs exactly when the pages read again carry
  // none of it; otherwise it is larger.
  ghost predicate CountsAgree(runs: RunTable, row: Checkpoint, pages: seq<IngestResult>) {
    && (row.runIds == RunIdsOf(pages) <==> CursorsNeverRepeat(pages))
    && (row.recordsAccepted == Stored(runs, row.runIds, Accepted()) <==> RepeatsCountNothing(pages, Accepted()))
    && (row.recordsRejected == Stored(runs, row.runIds, Rejected()) <==> RepeatsCountNothing(pages, Rejected()))
    && row.recordsAccepted >= Stored(runs, row.runIds, Accepted())
    && row.recordsRejected >= Stored(runs, row.runIds, Rejected())
    && (CursorsNeverRepeat(pages) ==> RepeatsCountNothing(pages, Accepted()) && RepeatsCountNothing(pages, Rejected()))
  }

  lemma {:induction false} CountsMatchRunIdsExactly(
      runs: RunTable, config: TaskConfig, key: TaskKey, asOf: int, row: Checkpoint, pages: seq<IngestResult>)
    requires ValidTable(runs) && IsWalk(runs, config, key, asOf, pages) && Summarizes(row, pages)
    ensures CountsAgree(runs, row, pages)
  {
    FirstOccurrencesLength(pages);
    forall i, j | 0 <= i < j < |pages|
      ensures pages[i].runId == pages[j].runId <==> CursorBefore(pages, i) == CursorBefore(pages, j)
    {
      SameRunSameCursor(runs, config, key, asOf, pages, i, j);
    }
    forall i | 0 <= i < |pages| ensures LoadCompleted(runs, pages[i].runId) == Some(pages[i]) {
      assert PageIsRecorded(runs, config, key, asOf, pages, i);
      RecordedAnswersItsRequest(runs, RequestFor(config, key, asOf, CursorBefore(pages, i)));
    }
    TotalAgainstStored(runs, pages, Accepted());
    TotalAgainstStored(runs, pages, Rejected());
    if CursorsNeverRepeat(pages) {
      assert forall i | 0 <= i < |pages| :: !Repeats(pages, i);
    }
  }

  lemma {:induction false} ListGrows(shorter: seq<IngestResult>, longer: seq<IngestResult>)
    requires shorter <= longer
    ensures FirstOccurrences(shorter) <= FirstOccurrences(longer)
  {
    if |shorter| < |longer| {
      ListGrows(shorter, longer[..|longer| - 1]);
    } else {
      assert shorter == longer;
    }
  }

  lemma {:induction false} TotalsGrow(shorter: seq<IngestResult>, longer: seq<IngestResult>, count: Count)
    requires shorter <= longer
    ensures Total(shorter, count) <= Total(longer, count)
  {
    if |shorter| < |longer| {
      TotalsGrow(shorter, longer[..|longer| - 1], count);
    } else {
      assert shorter == longer;
    }
  }
}
