/** One delivery row and the conditional updates that move it. Reports and workflow alerts
    share this shape; they differ in the statuses an automatic sender may resume. */
module DeliveryRow {
  import opened Prelude

  datatype Status = Pending | RetryWait | Failed | Uncertain | Succeeded

  datatype Row = Row(status: Status, attemptNo: nat)

  // The transport's answer to one send. A refusal is definite: the chat did not get the card.
  // After an unknown outcome the card may have arrived or not.
  datatype Answer = Accepted | Refused(retryable: bool) | Unknown(arrived: bool)
  {
    predicate Arrived() {
      Accepted? || (Unknown? && arrived)
    }
  }

  const REPORT_RESUMABLE: set<Status> := {Failed, RetryWait}
  const ALERT_RESUMABLE: set<Status> := {RetryWait}

  // INSERT .. ON CONFLICT DO NOTHING of the first, pending attempt.
  function Reserve(row: Option<Row>): (Option<Row>, bool) {
    if row.None? then (Some(Row(Pending, 1)), true) else (row, false)
  }

  // UPDATE .. WHERE attempt_no = expected AND status = 'pending'.
  function Update(row: Row, expectedNo: nat, status: Status): (Row, bool) {
    if row.attemptNo == expectedNo && row.status == Pending then (row.(status := status), true) else (row, false)
  }

  // The automatic resume looks at the status only, not at the attempt number.
  function Resume(row: Row, resumable: set<Status>): (Row, bool) {
    if row.status in resumable then (Row(Pending, row.attemptNo + 1), true) else (row, false)
  }

  // The manual retry compares the reviewed attempt number as well.
  function Authorize(row: Row, expectedNo: nat, allowUncertain: bool): (Row, bool) {
    if row.attemptNo == expectedNo
       && (row.status == Failed || row.status == RetryWait || (allowUncertain && row.status == Uncertain))
    then (Row(Pending, row.attemptNo + 1), true) else (row, false)
  }

  function StatusAfter(answer: Answer, localNo: nat, maxNo: nat): Status {
    match answer
    case Accepted => Succeeded
    case Unknown(_) => Uncertain
    case Refused(retryable) => if retryable && localNo < maxNo then RetryWait else Failed
  }

  datatype Review = AlreadySucceeded | NotRetryable(code: string) | MayAuthorize

  // What a manual retry decides from the attempt it loaded.
  function ReviewManually(row: Row, confirmed: bool, maxTotal: nat): Review {
    if row.status == Succeeded then AlreadySucceeded
    else if row.status == Pending then NotRetryable("DELIVERY_ATTEMPT_IN_PROGRESS")
    else if row.status == Uncertain && !confirmed then NotRetryable("DELIVERY_ABSENCE_CONFIRMATION_REQUIRED")
    else if row.attemptNo >= maxTotal then NotRetryable("DELIVERY_RETRY_LIMIT_EXHAUSTED")
    else MayAuthorize
  }
}
