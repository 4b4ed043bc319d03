/** The durable ledger of provider runs.

    One row per ingestion request, fenced by an attempt number and an expiring lease. The
    request itself is the idempotency key, and `byKey` is the unique index on that key. Every
    function below is one database transaction; a rolled back transaction leaves the table
    unchanged. */
module RunLedger {
  import opened Prelude

  type RunId = nat

  datatype Request = Request(
    providerRole: string, dataset: string, regions: set<string>,
    start: int, end: int, asOf: int, cursor: Option<string>,
    dryRun: bool, force: bool)

  datatype ResultStatus = Succeeded | Partial | Failed | RetryWait

  // The answer of one provider page. Succeeded and partial answers can be replayed.
  datatype IngestResult = IngestResult(
    runId: RunId, status: ResultStatus, providerRole: string, dataset: string,
    startedAt: int, finishedAt: int,
    fetched: nat, accepted: nat, rejected: nat, inserted: nat, updated: nat,
    nextCursor: Option<string>, sourceWatermark: Option<string>,
    errorCode: Option<string>, retryAfterSeconds: Option<nat>, warnings: seq<string>)
  {
    predicate Replayable() {
      status == Succeeded || status == Partial
    }

    predicate Answers(request: Request) {
      providerRole == request.providerRole && dataset == request.dataset
    }
  }

  datatype Details = Details(
    inserted: nat, updated: nat, nextCursor: Option<string>, sourceWatermark: Option<string>,
    retryAfterSeconds: Option<nat>, warnings: seq<string>)

  datatype RunStatus = Running | Ended(outcome: ResultStatus)

  datatype RunRow = RunRow(
    request: Request, status: RunStatus, attemptNo: nat, leaseExpiresAt: Option<int>,
    startedAt: int, finishedAt: Option<int>,
    fetched: nat, accepted: nat, rejected: nat, errorCode: Option<string>, details: Details)

  datatype RunTable = RunTable(rows: map<RunId, RunRow>, byKey: map<Request, RunId>)

  datatype Lease = Lease(runId: RunId, attemptNo: nat)

  datatype Acquired = Leased(lease: Lease) | Existing(runId: RunId) | IdTaken

  const EMPTY_TABLE := RunTable(map[], map[])
  const NO_DETAILS := Details(0, 0, None, None, None, [])

  // ---- Transactions ---------------------------------------------------------------------

  // INSERT .. ON CONFLICT (idempotency_key) DO NOTHING; a primary-key clash aborts.
  function Acquire(t: RunTable, request: Request, runId: RunId, now: int, leaseExpiresAt: int)
    : (RunTable, Acquired)
  {
    if request in t.byKey then (t, Existing(t.byKey[request]))
    else if runId in t.rows then (t, IdTaken)
    else
      var row := RunRow(request, Running, 1, Some(leaseExpiresAt), now, None, 0, 0, 0, None, NO_DETAILS);
      (RunTable(t.rows[runId := row], t.byKey[request := runId]), Leased(Lease(runId, 1)))
  }

  // A row another worker may take over: ended without a replayable answer, or its lease ran out.
  predicate Recoverable(row: RunRow, now: int) {
    match row.status
    case Ended(outcome) => outcome == Failed || outcome == RetryWait
    case Running => row.leaseExpiresAt.None? || row.leaseExpiresAt.value <= now
  }

  function Claim(t: RunTable, runId: RunId, now: int, leaseExpiresAt: int): (RunTable, Option<Lease>) {
    if runId in t.rows && Recoverable(t.rows[runId], now) then
      var row := t.rows[runId];
      var claimed := row.(status := Running, attemptNo := row.attemptNo + 1,
                          leaseExpiresAt := Some(leaseExpiresAt),
                          startedAt := now, finishedAt := None, errorCode := None);
      (t.(rows := t.rows[runId := claimed]), Some(Lease(runId, claimed.attemptNo)))
    else (t, None)
  }

  // The fence every later write passes: this attempt still owns the running row.
  predicate Owns(t: RunTable, runId: RunId, attemptNo: nat) {
    runId in t.rows && t.rows[runId].attemptNo == attemptNo && t.rows[runId].status == Running
  }

  function Renew(t: RunTable, lease: Lease, leaseExpiresAt: int): (RunTable, bool) {
    if Owns(t, lease.runId, lease.attemptNo) then
      var row := t.rows[lease.runId];
      (t.(rows := t.rows[lease.runId := row.(leaseExpiresAt := Some(leaseExpiresAt))]), true)
    else (t, false)
  }

  function Complete(t: RunTable, result: IngestResult, lease: Lease): (RunTable, bool) {
    if Owns(t, result.runId, lease.attemptNo) then
      var row := t.rows[result.runId];
      var ended := row.(
        status := Ended(result.status), startedAt := result.startedAt,
        finishedAt := Some(result.finishedAt), fetched := result.fetched,
        accepted := result.accepted, rejected := result.rejected,
        errorCode := result.errorCode, leaseExpiresAt := None,
        details := Details(result.inserted, result.updated, result.nextCursor,
                           result.sourceWatermark, result.retryAfterSeconds, result.warnings));
      (t.(rows := t.rows[result.runId := ended]), true)
    else (t, false)
  }

  function Fail(t: RunTable, lease: Lease, errorCode: string): (RunTable, bool) {
    if Owns(t, lease.runId, lease.attemptNo) then
      var row := t.rows[lease.runId];
      var failed := row.(status := Ended(Failed), errorCode := Some(errorCode), leaseExpiresAt := None);
      (t.(rows := t.rows[lease.runId := failed]), true)
    else (t, false)
  }

  // The stored answer of a run that ended well.
  function LoadCompleted(t: RunTable, runId: RunId): Option<IngestResult> {
    if runId !in t.rows then None
    else
      var row := t.rows[runId];
      if row.status.Ended? && (row.status.outcome == Succeeded || row.status.outcome == Partial)
         && row.finishedAt.Some?
      then Some(IngestResult(
                  runId, row.status.outcome, row.request.providerRole, row.request.dataset,
                  row.startedAt, row.finishedAt.value,
                  row.fetched, row.accepted, row.rejected, row.details.inserted, row.details.updated,
                  row.details.nextCursor, row.details.sourceWatermark, row.errorCode,
                  row.details.retryAfterSeconds, row.details.warnings))
      else None
  }

  function RecordedFor(t: RunTable, request: Request): Option<IngestResult> {
    if request in t.byKey then LoadCompleted(t, t.byKey[request]) else None
  }

  // ---- What every transaction keeps -----------------------------------------------------

  ghost predicate ValidRow(t: RunTable, id: RunId) {
    id in t.rows ==>
      var row := t.rows[id];
      && row.request in t.byKey && t.byKey[row.request] == id
      && row.attemptNo >= 1
      && (row.status == Running ==> row.leaseExpiresAt.Some?)
  }

  ghost predicate ValidKey(t: RunTable, request: Request) {
    request in t.byKey ==> t.byKey[request] in t.rows && t.rows[t.byKey[request]].request == request
  }

  ghost predicate ValidTable(t: RunTable) {
    && (forall id :: ValidRow(t, id))
    && (forall request :: ValidKey(t, request))
  }

  // How a table may change while somebody else works: identities stay, attempts only rise,
  // and a recorded answer is recorded for good.
  ghost predicate KeepsRow(before: RunTable, after: RunTable, id: RunId) {
    id in before.rows ==>
      && id in after.rows
      && after.rows[id].request == before.rows[id].request
      && after.rows[id].attemptNo >= before.rows[id].attemptNo
      && (LoadCompleted(before, id).Some? ==> LoadCompleted(after, id) == LoadCompleted(before, id))
  }

  ghost predicate KeepsKey(before: RunTable, after: RunTable, request: Request) {
    request in before.byKey ==> request in after.byKey && after.byKey[request] == before.byKey[request]
  }

  ghost predicate Evolves(before: RunTable, after: RunTable) {
    && (forall id :: KeepsRow(before, after, id))
    && (forall request :: KeepsKey(before, after, request))
  }

  lemma {:induction false} EvolvesTransitive(a: RunTable, b: RunTable, c: RunTable)
    requires Evolves(a, b) && Evolves(b, c)
    ensures Evolves(a, c)
  {
    forall id ensures KeepsRow(a, c, id) {
      assert KeepsRow(a, b, id) && KeepsRow(b, c, id);
    }
    forall request ensures KeepsKey(a, c, request) {
      assert KeepsKey(a, b, request) && KeepsKey(b, c, request);
    }
  }

  // A recorded answer stays recorded for its request.
  lemma {:induction false} RecordedStays(before: RunTable, after: RunTable, request: Request)
    requires ValidTable(before) && Evolves(before, after)
    requires RecordedFor(before, request).Some?
    ensures RecordedFor(after, request) == RecordedFor(before, request)
  {
    assert ValidKey(before, request) && KeepsKey(before, after, request);
    assert KeepsRow(before, after, before.byKey[request]);
  }

  lemma {:induction false} RecordedAnswersItsRequest(t: RunTable, request: Request)
    requires ValidTable(t) && RecordedFor(t, request).Some?
    ensures var result := RecordedFor(t, request).value;
            && result.Answers(request) && result.Replayable()
            && LoadCompleted(t, result.runId) == Some(result)
            && result.runId == t.byKey[request]
  {
    assert ValidKey(t, request);
  }

  // One transaction by any client, with any lease it may have kept.
  datatype RunOp =
    | OpAcquire(request: Request, runId: RunId, now: int, leaseExpiresAt: int)
    | OpClaim(runId: RunId, now: int, leaseExpiresAt: int)
    | OpRenew(lease: Lease, leaseExpiresAt: int)
    | OpComplete(result: IngestResult, lease: Lease)
    | OpFail(lease: Lease, errorCode: string)

  function Apply(t: RunTable, op: RunOp): RunTable {
    match op
    case OpAcquire(request, runId, now, expires) => Acquire(t, request, runId, now, expires).0
    case OpClaim(runId, now, expires) => Claim(t, runId, now, expires).0
    case OpRenew(lease, expires) => Renew(t, lease, expires).0
    case OpComplete(result, lease) => Complete(t, result, lease).0
    case OpFail(lease, code) => Fail(t, lease, code).0
  }

  function ApplyAll(t: RunTable, ops: seq<RunOp>): RunTable
    decreases |ops|
  {
    if ops == [] then t else ApplyAll(Apply(t, ops[0]), ops[1..])
  }

  // Rewriting one row that has no recorded answer yet, under the same request.
  lemma {:induction false} RewriteKeeps(t: RunTable, id: RunId, row: RunRow)
    requires ValidTable(t) && id in t.rows && LoadCompleted(t, id).None?
    requires row.request == t.rows[id].request && row.attemptNo >= t.rows[id].attemptNo
    requires row.status == Running ==> row.leaseExpiresAt.Some?
    ensures ValidTable(t.(rows := t.rows[id := row]))
    ensures Evolves(t, t.(rows := t.rows[id := row]))
  {
    var t' := t.(rows := t.rows[id := row]);
    assert ValidRow(t, id);
    forall other ensures ValidRow(t', other) && KeepsRow(t, t', other) {
      assert ValidRow(t, other);
    }
    forall request ensures ValidKey(t', request) && KeepsKey(t, t', request) {
      assert ValidKey(t, request);
    }
  }

  lemma {:induction false} AcquireKeeps(t: RunTable, request: Request, runId: RunId, now: int, leaseExpiresAt: int)
    requires ValidTable(t)
    ensures ValidTable(Acquire(t, request, runId, now, leaseExpiresAt).0)
    ensures Evolves(t, Acquire(t, request, runId, now, leaseExpiresAt).0)
  {
    var t' := Acquire(t, request, runId, now, leaseExpiresAt).0;
    forall id ensures ValidRow(t', id) && KeepsRow(t, t', id) {
      assert ValidRow(t, id);
    }
    forall key ensures ValidKey(t', key) && KeepsKey(t, t', key) {
      assert ValidKey(t, key);
    }
  }

  lemma {:induction false} ApplyKeeps(t: RunTable, op: RunOp)
    requires ValidTable(t)
    ensures ValidTable(Apply(t, op))
    ensures Evolves(t, Apply(t, op))
  {
    var t' := Apply(t, op);
    match op
    case OpAcquire(request, runId, now, expires) => AcquireKeeps(t, request, runId, now, expires);
    case OpClaim(runId, _, _) => if t' != t { RewriteKeeps(t, runId, t'.rows[runId]); }
    case OpRenew(lease, _) => if t' != t { RewriteKeeps(t, lease.runId, t'.rows[lease.runId]); }
    case OpComplete(result, _) => if t' != t { RewriteKeeps(t, result.runId, t'.rows[result.runId]); }
    case OpFail(lease, _) => if t' != t { RewriteKeeps(t, lease.runId, t'.rows[lease.runId]); }
  }

  lemma {:induction false} ApplyAllKeeps(t: RunTable, ops: seq<RunOp>)
    requires ValidTable(t)
    ensures ValidTable(ApplyAll(t, ops))
    ensures Evolves(t, ApplyAll(t, ops))
    decreases |ops|
  {
    if ops != [] {
      ApplyKeeps(t, ops[0]);
      ApplyAllKeeps(Apply(t, ops[0]), ops[1..]);
      EvolvesTransitive(t, Apply(t, ops[0]), ApplyAll(t, ops));
    }
  }

  // ---- Fencing --------------------------------------------------------------------------

  // A claim succeeds exactly on a recoverable row, and then strictly raises the attempt number
  // and shuts every earlier lease out.
  lemma {:induction false} ClaimFences(t: RunTable, runId: RunId, now: int, leaseExpiresAt: int)
    requires ValidTable(t)
    ensures var (t', lease) := Claim(t, runId, now, leaseExpiresAt);
            && (lease.Some? <==>
                && runId in t.rows
                && (t.rows[runId].status == Running ==> t.rows[runId].leaseExpiresAt.GetOr(now) <= now)
                && t.rows[runId].status !in {Ended(Succeeded), Ended(Partial)})
            && (lease.None? ==> t' == t)
            && (lease.Some? ==>
                && lease.value.attemptNo > t.rows[runId].attemptNo
                && Owns(t', runId, lease.value.attemptNo)
                && forall attempt: nat | attempt <= t.rows[runId].attemptNo :: !Owns(t', runId, attempt))
  {
    assert ValidRow(t, runId);
  }

  // A transaction through this very lease that ends its run.
  predicate EndsThrough(op: RunOp, lease: Lease) {
    || (op.OpComplete? && op.result.runId == lease.runId && op.lease.attemptNo == lease.attemptNo)
    || (op.OpFail? && op.lease == lease)
  }

  // When the lease runs out if it ran out at `expiry` and `op` went through.
  function ExpiryAfter(op: RunOp, lease: Lease, expiry: int): int {
    if op.OpRenew? && op.lease == lease then op.leaseExpiresAt else expiry
  }

  function FinalExpiry(ops: seq<RunOp>, lease: Lease, expiry: int): int
    decreases |ops|
  {
    if ops == [] then expiry else FinalExpiry(ops[1..], lease, ExpiryAfter(ops[0], lease, expiry))
  }

  // The holder does not end the run, and every claim of it comes before the lease, as renewed so
  // far, runs out.
  predicate ClaimsComeEarly(ops: seq<RunOp>, lease: Lease, expiry: int)
    decreases |ops|
  {
    ops != [] ==>
      && !EndsThrough(ops[0], lease)
      && (ops[0].OpClaim? && ops[0].runId == lease.runId ==> ops[0].now < expiry)
      && ClaimsComeEarly(ops[1..], lease, ExpiryAfter(ops[0], lease, expiry))
  }

  ghost predicate HoldsUntil(t: RunTable, lease: Lease, expiry: int) {
    Owns(t, lease.runId, lease.attemptNo) && t.rows[lease.runId].leaseExpiresAt == Some(expiry)
  }

  // The lease can never own its run again: a later attempt exists, or this one has ended.
  ghost predicate IsSpent(t: RunTable, lease: Lease) {
    && lease.runId in t.rows
    && (|| t.rows[lease.runId].attemptNo > lease.attemptNo
        || (t.rows[lease.runId].attemptNo == lease.attemptNo && t.rows[lease.runId].status != Running))
  }

  lemma {:induction false} SpentStaysSpent(t: RunTable, ops: seq<RunOp>, lease: Lease)
    requires IsSpent(t, lease)
    ensures !Owns(ApplyAll(t, ops), lease.runId, lease.attemptNo)
    decreases |ops|
  {
    if ops != [] {
      assert IsSpent(Apply(t, ops[0]), lease);
      SpentStaysSpent(Apply(t, ops[0]), ops[1..], lease);
    }
  }

  // While a lease runs, anybody's transaction leaves its row alone, up to the holder's own renewal.
  lemma {:induction false} HolderKeepsTheRow(t: RunTable, op: RunOp, lease: Lease, expiry: int)
    requires HoldsUntil(t, lease, expiry) && !EndsThrough(op, lease)
    requires op.OpClaim? && op.runId == lease.runId ==> op.now < expiry
    ensures HoldsUntil(Apply(t, op), lease, ExpiryAfter(op, lease, expiry))
    ensures Apply(t, op).rows[lease.runId]
         == t.rows[lease.runId].(leaseExpiresAt := Some(ExpiryAfter(op, lease, expiry)))
  {
    assert t.rows[lease.runId].(leaseExpiresAt := Some(expiry)) == t.rows[lease.runId];
  }

  lemma {:induction false} OtherwiseTheLeaseIsSpent(t: RunTable, op: RunOp, lease: Lease, expiry: int)
    requires HoldsUntil(t, lease, expiry)
    requires EndsThrough(op, lease) || (op.OpClaim? && op.runId == lease.runId && op.now >= expiry)
    ensures IsSpent(Apply(t, op), lease)
  {
    assert Recoverable(t.rows[lease.runId], expiry);
  }

  // Over every history a running attempt still owns its run exactly if every claim came before
  // its lease, as renewed so far, ran out and the holder itself has not ended the run. Then no
  // claim got through: the row is the old one with the renewed expiry. And once the holder
  // fails the run, the next claim gets it at any time.
  lemma {:induction false} LeaseShutsClaimsOut(
      t: RunTable, ops: seq<RunOp>, lease: Lease, expiry: int, errorCode: string, now: int, leaseExpiresAt: int)
    requires HoldsUntil(t, lease, expiry)
    ensures var later := ApplyAll(t, ops);
            && (Owns(later, lease.runId, lease.attemptNo) <==> ClaimsComeEarly(ops, lease, expiry))
            && (Owns(later, lease.runId, lease.attemptNo) ==>
                  && later.rows[lease.runId]
                     == t.rows[lease.runId].(leaseExpiresAt := Some(FinalExpiry(ops, lease, expiry)))
                  && Claim(Fail(later, lease, errorCode).0, lease.runId, now, leaseExpiresAt).1
                     == Some(Lease(lease.runId, lease.attemptNo + 1)))
    decreases |ops|
  {
    if ops == [] {
      assert t.rows[lease.runId].(leaseExpiresAt := Some(expiry)) == t.rows[lease.runId];
    } else {
      var op := ops[0];
      if EndsThrough(op, lease) || (op.OpClaim? && op.runId == lease.runId && op.now >= expiry) {
        OtherwiseTheLeaseIsSpent(t, op, lease, expiry);
        SpentStaysSpent(Apply(t, op), ops[1..], lease);
      } else {
        HolderKeepsTheRow(t, op, lease, expiry);
        LeaseShutsClaimsOut(Apply(t, op), ops[1..], lease, ExpiryAfter(op, lease, expiry), errorCode, now,
                            leaseExpiresAt);
      }
    }
  }

  // So a lease just acquired or claimed until `expiry` owns its run just as long.
  lemma {:induction false} GrantedLeaseHolds(
      t: RunTable, request: Request, runId: RunId, now: int, expiry: int, ops: seq<RunOp>)
    ensures var (t', acquired) := Acquire(t, request, runId, now, expiry);
            acquired.Leased? ==>
              && acquired.lease == Lease(runId, 1)
              && (Owns(ApplyAll(t', ops), runId, 1) <==> ClaimsComeEarly(ops, acquired.lease, expiry))
    ensures var (t', lease) := Claim(t, runId, now, expiry);
            lease.Some? ==>
              && lease.value.runId == runId
              && (Owns(ApplyAll(t', ops), runId, lease.value.attemptNo) <==> ClaimsComeEarly(ops, lease.value, expiry))
  {
    var (acquiredIn, acquired) := Acquire(t, request, runId, now, expiry);
    if acquired.Leased? {
      LeaseShutsClaimsOut(acquiredIn, ops, acquired.lease, expiry, "", now, expiry);
    }
    var (claimedIn, lease) := Claim(t, runId, now, expiry);
    if lease.Some? {
      LeaseShutsClaimsOut(claimedIn, ops, lease.value, expiry, "", now, expiry);
    }
  }

  // Renew, complete and fail through a lease older than the row change nothing, whatever
  // happened in between.
  lemma {:induction false} StaleLeaseIsInert(t: RunTable, ops: seq<RunOp>, lease: Lease, result: IngestResult,
                          leaseExpiresAt: int, errorCode: string)
    requires ValidTable(t)
    requires lease.runId in t.rows && lease.attemptNo < t.rows[lease.runId].attemptNo
    requires result.runId == lease.runId
    ensures var later := ApplyAll(t, ops);
            && Renew(later, lease, leaseExpiresAt) == (later, false)
            && Complete(later, result, lease) == (later, false)
            && Fail(later, lease, errorCode) == (later, false)
  {
    ApplyAllKeeps(t, ops);
    assert KeepsRow(t, ApplyAll(t, ops), lease.runId);
  }

  lemma {:induction false} CompletionRecords(t: RunTable, lease: Lease, result: IngestResult)
    requires ValidTable(t)
    requires Complete(t, result, lease).1
    requires result.Replayable() && result.Answers(t.rows[result.runId].request)
    ensures LoadCompleted(Complete(t, result, lease).0, result.runId) == Some(result)
    ensures RecordedFor(Complete(t, result, lease).0, t.rows[result.runId].request) == Some(result)
  {
    assert ValidRow(t, result.runId);
  }

  // Completing a run and replaying it later give back exactly the same answer, after any
  // number of transactions by anybody.
  lemma {:induction false} ReplayReturnsTheRecordedResult(
      t: RunTable, lease: Lease, result: IngestResult, ops: seq<RunOp>)
    requires ValidTable(t)
    requires Complete(t, result, lease).1
    requires result.Replayable() && result.Answers(t.rows[result.runId].request)
    ensures var request := t.rows[result.runId].request;
            RecordedFor(ApplyAll(Complete(t, result, lease).0, ops), request) == Some(result)
  {
    var completed := Complete(t, result, lease).0;
    ApplyKeeps(t, OpComplete(result, lease));
    ApplyAllKeeps(completed, ops);
    CompletionRecords(t, lease, result);
    RecordedStays(completed, ApplyAll(completed, ops), t.rows[result.runId].request);
  }

  // The answers recorded for one run over a whole history: one entry for each completion
  // that landed with a replayable status.
  function Recordings(t: RunTable, ops: seq<RunOp>, runId: RunId): seq<IngestResult>
    decreases |ops|
  {
    if ops == [] then []
    else
      (if Records(t, ops[0], runId) then [ops[0].result] else [])
      + Recordings(Apply(t, ops[0]), ops[1..], runId)
  }

  predicate Records(t: RunTable, op: RunOp, runId: RunId) {
    op.OpComplete? && op.result.runId == runId && op.result.Replayable()
    && Complete(t, op.result, op.lease).1
  }

  lemma {:induction false} OnlyACompletionRecords(t: RunTable, op: RunOp, runId: RunId)
    requires ValidTable(t)
    requires LoadCompleted(t, runId).None?
    ensures LoadCompleted(Apply(t, op), runId).Some? <==> Records(t, op, runId)
  {
    if runId !in t.rows {
    } else if op.OpAcquire? {
      assert Apply(t, op).rows[runId] == t.rows[runId];
    }
  }

  lemma {:induction false} NothingAfterARecording(t: RunTable, ops: seq<RunOp>, runId: RunId)
    requires ValidTable(t)
    requires LoadCompleted(t, runId).Some?
    ensures Recordings(t, ops, runId) == []
    decreases |ops|
  {
    if ops != [] {
      ApplyKeeps(t, ops[0]);
      assert KeepsRow(t, Apply(t, ops[0]), runId);
      NothingAfterARecording(Apply(t, ops[0]), ops[1..], runId);
    }
  }

  // Over every history each run, and so each request, records at most one answer, and the
  // table keeps an answer exactly when one was recorded.
  lemma {:induction false} AtMostOneRecording(t: RunTable, ops: seq<RunOp>, runId: RunId)
    requires ValidTable(t)
    requires LoadCompleted(t, runId).None?
    ensures |Recordings(t, ops, runId)| <= 1
    ensures LoadCompleted(ApplyAll(t, ops), runId).Some? <==> |Recordings(t, ops, runId)| == 1
    decreases |ops|
  {
    if ops != [] {
      var next := Apply(t, ops[0]);
      ApplyKeeps(t, ops[0]);
      OnlyACompletionRecords(t, ops[0], runId);
      if LoadCompleted(next, runId).Some? {
        NothingAfterARecording(next, ops[1..], runId);
        ApplyAllKeeps(next, ops[1..]);
        assert KeepsRow(next, ApplyAll(next, ops[1..]), runId);
      } else {
        AtMostOneRecording(next, ops[1..], runId);
      }
    }
  }
}
