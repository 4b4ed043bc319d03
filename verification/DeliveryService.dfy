/** The sender loops: deliver, the manual retry and the alert twin of deliver. Other senders may
    run between any two transactions; a `calm` call is one that nobody overlaps. */
module DeliveryService {
  import opened Prelude
  import opened DeliveryRow

  datatype DeliveryResult = Delivered(seen: Row) | ManualError(code: string)

  // What sending alone from attempt `n` on leads to, for a transport that gives `answers(i)` to
  // attempt `i`.
  function SendingAlone(answers: nat -> Answer, n: nat, maxNo: nat): Row
    decreases maxNo - n
  {
    var status := StatusAfter(answers(n), n, maxNo);
    if status == RetryWait then SendingAlone(answers, n + 1, maxNo) else Row(status, n)
  }

  // Sending alone retries exactly while the transport refuses retryably and attempts are left.
  lemma {:induction false} SendingAloneStops(answers: nat -> Answer, n: nat, maxNo: nat)
    ensures var row := SendingAlone(answers, n, maxNo);
            && n <= row.attemptNo && (n <= maxNo ==> row.attemptNo <= maxNo)
            && (forall i | n <= i < row.attemptNo :: answers(i) == Refused(true))
            && (row.status == Succeeded <==> answers(row.attemptNo) == Accepted)
            && (row.status == Uncertain <==> answers(row.attemptNo).Unknown?)
            && (row.status == Failed <==>
                  answers(row.attemptNo).Refused? && (answers(row.attemptNo).retryable ==> row.attemptNo >= maxNo))
            && row.status != Pending && row.status != RetryWait
    decreases maxNo - n
  {
    if StatusAfter(answers(n), n, maxNo) == RetryWait {
      SendingAloneStops(answers, n + 1, maxNo);
    }
  }

  class DeliveryStore {
    var row: Option<Row>

    constructor ()
      ensures row == None
    {
      row := None;
    }

    method ReserveDeliveryAttempt() returns (inserted: bool)
      modifies this
      ensures (row, inserted) == Reserve(old(row))
    {
      inserted := row.None?;
      if inserted {
        row := Some(Row(Pending, 1));
      }
    }

    method UpdateDeliveryAttempt(expectedNo: nat, status: Status) returns (updated: bool)
      requires row.Some?
      modifies this
      ensures row.Some? && (row.value, updated) == Update(old(row).value, expectedNo, status)
    {
      updated := row.value.attemptNo == expectedNo && row.value.status == Pending;
      if updated {
        row := Some(row.value.(status := status));
      }
    }

    method RetryDeliveryAttempt(resumable: set<Status>) returns (resumed: bool)
      requires row.Some?
      modifies this
      ensures row.Some? && (row.value, resumed) == Resume(old(row).value, resumable)
    {
      resumed := row.value.status in resumable;
      if resumed {
        row := Some(Row(Pending, row.value.attemptNo + 1));
      }
    }

    method AuthorizeManualRetry(expectedNo: nat, allowUncertain: bool) returns (authorized: bool)
      requires row.Some?
      modifies this
      ensures row.Some? && (row.value, authorized) == Authorize(old(row).value, expectedNo, allowUncertain)
    {
      var (next, ok) := Authorize(row.value, expectedNo, allowUncertain);
      row, authorized := Some(next), ok;
    }

    // Other senders run. By `DeliveryProtocol.NextKeeps` attempts only rise and success is
    // final; by `DeliveryProtocol.ReportLandsOnlyFromItsCreator` nobody touches a pending row
    // whose newest attempt the caller created.
    method OthersRun(ghost created: Option<nat>, ghost calm: bool)
      modifies this
      ensures old(row).Some? ==> row.Some? && row.value.attemptNo >= old(row).value.attemptNo
      ensures old(row).Some? && old(row).value.status == Succeeded ==> row == old(row)
      ensures created.Some? && old(row) == Some(Row(Pending, created.value)) ==> row == old(row)
      ensures calm ==> row == old(row)
    {
    }
  }

  /** The shared send loop. `localNo` may lag behind the attempt this call created. */
  method Send(store: DeliveryStore, localNo: nat, maxNo: nat, resumable: set<Status>,
              answers: nat -> Answer, ghost calm: bool)
    returns (seen: Row, sends: nat)
    requires store.row.Some? && store.row.value.status == Pending
    requires 1 <= localNo <= store.row.value.attemptNo && localNo <= maxNo
    requires RetryWait in resumable && Succeeded !in resumable
    modifies store
    ensures store.row.Some? && store.row.value.attemptNo >= old(store.row).value.attemptNo
    ensures 1 <= sends <= maxNo - localNo + 1
    ensures seen.status == Succeeded ==> store.row.value.status == Succeeded
    // Fencing: a call whose number lags never reports anything.
    ensures localNo < old(store.row).value.attemptNo ==> sends == 1
    ensures localNo < old(store.row).value.attemptNo && calm ==> store.row == old(store.row)
    // Alone and not lagging, the call ends like the sequential sender.
    ensures calm && localNo == old(store.row).value.attemptNo ==>
              && seen == SendingAlone(answers, localNo, maxNo)
              && store.row == Some(seen)
              && sends == seen.attemptNo - localNo + 1
  {
    var number := localNo;
    ghost var created: nat := store.row.value.attemptNo;
    sends := 0;
    while true
      invariant store.row == Some(Row(Pending, created))
      invariant created >= old(store.row).value.attemptNo
      invariant localNo <= number <= created && number <= maxNo && sends == number - localNo
      invariant localNo < old(store.row).value.attemptNo ==> sends == 0 && created == old(store.row).value.attemptNo
      invariant calm && localNo == old(store.row).value.attemptNo ==>
                  number == created && SendingAlone(answers, localNo, maxNo) == SendingAlone(answers, number, maxNo)
      decreases maxNo - number
    {
      store.OthersRun(Some(created), calm);
      sends := sends + 1;
      var status := StatusAfter(answers(number), number, maxNo);
      var updated := store.UpdateDeliveryAttempt(number, status);
      if !updated {
        store.OthersRun(None, calm);
        return store.row.value, sends;
      }
      if status != RetryWait {
        return Row(status, number), sends;
      }
      store.OthersRun(None, calm);
      var resumed := store.RetryDeliveryAttempt(resumable);
      if !resumed {
        store.OthersRun(None, calm);
        return store.row.value, sends;
      }
      number := number + 1;
      created := store.row.value.attemptNo;
    }
  }

  /** deliver, for reports and alerts: reserve the row or pick up a waiting one, then send. */
  method Deliver(store: DeliveryStore, maxAttempts: nat, resumable: set<Status>,
                 answers: nat -> Answer, ghost calm: bool)
    returns (result: DeliveryResult, sends: nat)
    requires maxAttempts >= 1
    requires RetryWait in resumable && Succeeded !in resumable
    requires store.row.Some? ==> store.row.value.attemptNo >= 1
    modifies store
    ensures store.row.Some? && result.Delivered?
    ensures sends <= maxAttempts
    ensures result.seen.status == Succeeded ==> store.row.value.status == Succeeded
    ensures old(store.row).Some? && old(store.row).value.status == Succeeded ==>
              store.row == old(store.row) && sends == 0 && result == Delivered(old(store.row).value)
    ensures calm ==> store.row == Some(result.seen)
    ensures calm && old(store.row).None? ==>
              result.seen == SendingAlone(answers, 1, maxAttempts) && sends == result.seen.attemptNo
    ensures calm && old(store.row).Some? ==>
              var before := old(store.row).value;
              if before.status == RetryWait && before.attemptNo < maxAttempts
              then result.seen == SendingAlone(answers, before.attemptNo + 1, maxAttempts)
                   && sends == result.seen.attemptNo - before.attemptNo
              else result.seen == before && sends == 0
  {
    var inserted := store.ReserveDeliveryAttempt();
    var number := 1;
    if !inserted {
      store.OthersRun(None, calm);
      var existing := store.row.value;
      if existing.status != RetryWait || existing.attemptNo >= maxAttempts {
        return Delivered(existing), 0;
      }
      store.OthersRun(None, calm);
      var resumed := store.RetryDeliveryAttempt(resumable);
      if !resumed {
        store.OthersRun(None, calm);
        return Delivered(store.row.value), 0;
      }
      number := existing.attemptNo + 1;
    }
    var seen, n := Send(store, number, maxAttempts, resumable, answers, calm);
    return Delivered(seen), n;
  }

  // A row an operator may retry: refused for good or for now, or uncertain and confirmed absent.
  predicate IsRetryable(row: Row, confirmed: bool) {
    row.status == Failed || row.status == RetryWait || (row.status == Uncertain && confirmed)
  }

  /** retry: one reviewed manual send, with its attempt compared before and after. */
  method RetryManually(store: DeliveryStore, confirmed: bool, maxTotal: nat,
                       answers: nat -> Answer, ghost calm: bool)
    returns (result: DeliveryResult, sends: nat)
    requires store.row.Some? ==> store.row.value.attemptNo >= 1
    modifies store
    ensures sends <= 1
    ensures result.Delivered? ==> store.row.Some?
    ensures old(store.row).Some? ==> store.row.Some? && store.row.value.attemptNo >= old(store.row).value.attemptNo
    ensures old(store.row).Some? && old(store.row).value.status == Succeeded ==> store.row == old(store.row)
    ensures result.Delivered? && result.seen.status == Succeeded ==> store.row.value.status == Succeeded
    ensures old(store.row).None? ==> result == ManualError("DELIVERY_ATTEMPT_NOT_FOUND")
    ensures result.ManualError? ==> sends == 0
    ensures sends == 1 ==>
              && old(store.row).Some?
              && IsRetryable(old(store.row).value, confirmed) && old(store.row).value.attemptNo < maxTotal
    // The row decides: what is settled or in flight, unconfirmed or out of attempts is returned or
    // refused, and everything else is sent once as its next attempt, unless another call moves it first.
    ensures old(store.row).Some? ==>
              var before := old(store.row).value;
              && (before.status == Succeeded ==> result == Delivered(before))
              && (before.status == Pending ==> result == ManualError("DELIVERY_ATTEMPT_IN_PROGRESS"))
              && (before.status == Uncertain && !confirmed ==>
                    result == ManualError("DELIVERY_ABSENCE_CONFIRMATION_REQUIRED"))
              && (IsRetryable(before, confirmed) && before.attemptNo >= maxTotal ==>
                    result == ManualError("DELIVERY_RETRY_LIMIT_EXHAUSTED"))
              && (IsRetryable(before, confirmed) && before.attemptNo < maxTotal ==>
                    sends == 1 || result == ManualError("DELIVERY_RETRY_CONFLICT"))
    ensures calm && old(store.row).Some? ==>
              var before := old(store.row).value;
              && (sends == 1 <==> IsRetryable(before, confirmed) && before.attemptNo < maxTotal)
              && (sends == 1 ==>
                    && result.Delivered? && store.row == Some(result.seen)
                    && result.seen.attemptNo == before.attemptNo + 1
                    && (result.seen.status == Succeeded <==> answers(before.attemptNo + 1) == Accepted)
                    && (result.seen.status == Uncertain <==> answers(before.attemptNo + 1).Unknown?)
                    && (result.seen.status == Failed <==> answers(before.attemptNo + 1).Refused?))
    ensures calm && sends == 0 ==> store.row == old(store.row)
  {
    if store.row.None? {
      return ManualError("DELIVERY_ATTEMPT_NOT_FOUND"), 0;
    }
    var existing := store.row.value;
    match ReviewManually(existing, confirmed, maxTotal)
    case AlreadySucceeded => return Delivered(existing), 0;
    case NotRetryable(code) => return ManualError(code), 0;
    case MayAuthorize =>
      store.OthersRun(None, calm);
      var authorized := store.AuthorizeManualRetry(existing.attemptNo, confirmed);
      if !authorized {
        return ManualError("DELIVERY_RETRY_CONFLICT"), 0;
      }
      var number := existing.attemptNo + 1;
      var seen, n := Send(store, number, number, REPORT_RESUMABLE, answers, calm);
      return Delivered(seen), n;
  }
}
