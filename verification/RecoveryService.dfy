/** DeliveryRecoveryService.retry as a program over one report's delivery row and the audit
    table, with other operators and senders running between its transactions. */
module RecoveryService {
  import opened Prelude
  import opened DeliveryRow
  import opened DeliveryService
  import opened RecoveryProtocol

  datatype RecoveryResult = Answer(action: Action, replayed: bool) | RequestConflict | InspectionRefused(code: string)

  // Where the delivery retry may raise something other than its own error: before it authorizes,
  // before its send or after it.
  datatype FaultPoint = BeforeAuthorizing | BeforeSending | AfterSending

  datatype Fault = Fault(point: FaultPoint, typeName: string)

  // An audit table whose succeeded actions about `report` are about a succeeded row.
  ghost predicate Truthful(actions: map<RequestId, Action>, report: ReportId, row: Option<Row>) {
    forall request <- actions | actions[request].reportId == report && actions[request].status == ActionSucceeded ::
      row.Some? && row.value.status == Succeeded
  }

  ghost predicate Kept(before: map<RequestId, Action>, after: map<RequestId, Action>, request: RequestId) {
    request in before ==>
      && request in after
      && after[request].SameRequest(before[request].reportId, before[request].confirmed)
      && after[request].prior == before[request].prior
      && (before[request].status != ActionPending ==> after[request] == before[request])
  }

  class RecoveryAuditStore {
    var actions: map<RequestId, Action>

    constructor ()
      ensures actions == map[]
    {
      actions := map[];
    }

    method Reserve(request: RequestId, action: Action) returns (inserted: bool)
      modifies this
      ensures inserted == (request !in old(actions))
      ensures actions == if inserted then old(actions)[request := action] else old(actions)
    {
      inserted := request !in actions;
      if inserted {
        actions := actions[request := action];
      }
    }

    method LoadForRequest(request: RequestId) returns (action: Option<Action>)
      ensures action == if request in actions then Some(actions[request]) else None
    {
      action := if request in actions then Some(actions[request]) else None;
    }

    method Complete(request: RequestId, completion: Completion) returns (action: Action)
      requires request in actions
      modifies this
      ensures action == Completed(old(actions)[request], completion)
      ensures actions == old(actions)[request := action]
    {
      action := actions[request];
      if action.status == ActionPending {
        action := action.(status := completion.status, deliveryStatus := completion.deliveryStatus,
                          errorCode := completion.errorCode);
      }
      actions := actions[request := action];
    }

    // Other operators run. By `RecoveryProtocol.NextKeeps` actions keep their parameters,
    // finished ones do not change, and success is about a succeeded row. In a calm call there are
    // no others.
    method OthersRun(ghost report: ReportId, ghost row: Option<Row>, ghost calm: bool)
      requires Truthful(actions, report, row)
      modifies this
      ensures Truthful(actions, report, row)
      ensures forall request :: Kept(old(actions), actions, request)
      ensures calm ==> actions == old(actions)
    {
    }
  }

  ghost predicate AllKept(before: map<RequestId, Action>, after: map<RequestId, Action>) {
    forall request :: Kept(before, after, request)
  }

  lemma {:induction false} AllKeptTransitive(
      a: map<RequestId, Action>, b: map<RequestId, Action>, c: map<RequestId, Action>)
    requires AllKept(a, b) && AllKept(b, c)
    ensures AllKept(a, c)
  {
    forall request ensures Kept(a, c, request) {
      assert Kept(a, b, request) && Kept(b, c, request);
    }
  }

  // Complete an action while other operators may have done so.
  method CompleteAction(audit: RecoveryAuditStore, request: RequestId, completion: Completion,
                        ghost report: ReportId, ghost row: Option<Row>, ghost calm: bool)
    returns (done: Action)
    requires request in audit.actions && audit.actions[request].reportId == report
    requires Truthful(audit.actions, report, row)
    requires completion.status == ActionSucceeded ==> row.Some? && row.value.status == Succeeded
    modifies audit
    ensures Truthful(audit.actions, report, row) && AllKept(old(audit.actions), audit.actions)
    ensures request in audit.actions && audit.actions[request] == done
    ensures completion.status != ActionPending ==> done.status != ActionPending
    ensures done.SameRequest(report, old(audit.actions)[request].confirmed)
    ensures done.prior == old(audit.actions)[request].prior
    ensures calm && old(audit.actions)[request].status == ActionPending ==>
              && done.status == completion.status && done.deliveryStatus == completion.deliveryStatus
              && done.errorCode == completion.errorCode
    ensures calm ==> audit.actions == old(audit.actions)[request := done]
  {
    audit.OthersRun(report, row, calm);
    assert Kept(old(audit.actions), audit.actions, request);
    ghost var before := audit.actions;
    done := audit.Complete(request, completion);
    forall other ensures Kept(old(audit.actions), audit.actions, other) {
      assert Kept(old(audit.actions), before, other);
    }
  }

  // Why a manual retry of a row is refused, if it is.
  ghost function RefusalOf(row: Row, confirmed: bool, maxTotal: nat): Option<string> {
    if row.status == Succeeded then None
    else if row.status == Pending then Some("DELIVERY_ATTEMPT_IN_PROGRESS")
    else if row.status == Uncertain && !confirmed then Some("DELIVERY_ABSENCE_CONFIRMATION_REQUIRED")
    else if row.attemptNo >= maxTotal then Some("DELIVERY_RETRY_LIMIT_EXHAUSTED")
    else None
  }

  ghost predicate Reviewable(row: Row, confirmed: bool, maxTotal: nat) {
    row.status != Succeeded && RefusalOf(row, confirmed, maxTotal).None?
  }

  // A delivered row stays as it is; any other gets its next attempt, sent once and ended by the answer.
  ghost predicate IsRetried(before: Row, after: Row, answers: nat -> DeliveryRow.Answer, sends: nat) {
    if before.status == Succeeded then after == before && sends == 0
    else
      && sends == 1 && after.attemptNo == before.attemptNo + 1
      && (after.status == Succeeded <==> answers(after.attemptNo) == DeliveryRow.Accepted)
      && (after.status == Uncertain <==> answers(after.attemptNo).Unknown?)
      && (after.status == Failed <==> answers(after.attemptNo).Refused?)
  }

  // The delivery retry, which may raise on its way. None is a raised exception.
  method RetryOrRaise(store: DeliveryStore, confirmed: bool, maxTotal: nat, answers: nat -> DeliveryRow.Answer,
                      fault: Option<Fault>, ghost calm: bool)
    returns (result: Option<DeliveryResult>, sends: nat)
    requires store.row.Some? && store.row.value.attemptNo >= 1
    modifies store
    ensures store.row.Some? && store.row.value.attemptNo >= old(store.row).value.attemptNo
    ensures old(store.row).value.status == Succeeded ==> store.row == old(store.row)
    ensures sends <= 1
    ensures fault.None? ==> result.Some?
    ensures result.None? && fault.value.point != AfterSending ==> sends == 0
    ensures result.Some? && result.value.Delivered? && result.value.seen.status == Succeeded ==>
              store.row.value.status == Succeeded
    // Alone, a refusal leaves the row as it was, and what is reported is the row.
    ensures calm && result.Some? && result.value.ManualError? ==>
              && store.row == old(store.row) && sends == 0
              && RefusalOf(old(store.row).value, confirmed, maxTotal) == Some(result.value.code)
    ensures calm && result.Some? && result.value.Delivered? ==>
              store.row == Some(result.value.seen) && RefusalOf(old(store.row).value, confirmed, maxTotal).None?
    ensures calm ==> (result.None? <==> fault.Some? && Reviewable(old(store.row).value, confirmed, maxTotal))
    ensures calm && result.Some? && result.value.Delivered? ==>
              IsRetried(old(store.row).value, store.row.value, answers, sends)
    // An exception leaves a row it did not authorize alone, and one it did pending.
    ensures result.None? ==> sends == (if fault.value.point == AfterSending then 1 else 0)
    ensures result.None? && fault.value.point != BeforeAuthorizing ==>
              store.row == Some(DeliveryRow.Row(Pending, old(store.row).value.attemptNo + 1))
    ensures calm && result.None? && fault.value.point == BeforeAuthorizing ==> store.row == old(store.row)
    ensures result.Some? && result.value.ManualError? && Reviewable(old(store.row).value, confirmed, maxTotal) ==>
              result.value.code == "DELIVERY_RETRY_CONFLICT"
  {
    if fault.None? {
      var retried, n := RetryManually(store, confirmed, maxTotal, answers, calm);
      return Some(retried), n;
    }
    var existing := store.row.value;
    match ReviewManually(existing, confirmed, maxTotal)
    case AlreadySucceeded => return Some(Delivered(existing)), 0;
    case NotRetryable(code) => return Some(ManualError(code)), 0;
    case MayAuthorize =>
      store.OthersRun(None, calm);
      if fault.value.point == BeforeAuthorizing {
        return None, 0;
      }
      var authorized := store.AuthorizeManualRetry(existing.attemptNo, confirmed);
      if !authorized {
        return Some(ManualError("DELIVERY_RETRY_CONFLICT")), 0;
      }
      return None, if fault.value.point == AfterSending then 1 else 0;
  }

  // type(error).__name__[:64]
  function SafeCode(typeName: string): string {
    if |typeName| > 64 then typeName[..64] else typeName
  }

  // How an action concludes that nobody else interfered with, from the row before and after.
  ghost predicate IsConcluded(
    done: Action, before: Option<Row>, after: Option<Row>, confirmed: bool, maxTotal: nat,
    answers: nat -> DeliveryRow.Answer, fault: Option<Fault>, sends: nat)
  {
    if before.None? then
      && sends == 0 && done.status == ActionRejected && done.deliveryStatus.None?
      && done.errorCode == Some("DELIVERY_ATTEMPT_NOT_FOUND") && after.None?
    else if RefusalOf(before.value, confirmed, maxTotal).Some? then
      && sends == 0 && done.status == ActionRejected && done.deliveryStatus == Some(before.value.status)
      && done.errorCode == RefusalOf(before.value, confirmed, maxTotal) && after == before
    else if fault.Some? && before.value.status != Succeeded then
      && sends == (if fault.value.point == AfterSending then 1 else 0)
      && after == (if fault.value.point == BeforeAuthorizing then before
                   else Some(DeliveryRow.Row(Pending, before.value.attemptNo + 1)))
      && done.status == ActionFailed && done.deliveryStatus.None?
      && done.errorCode == Some(if |fault.value.typeName| <= 64 then fault.value.typeName
                                else fault.value.typeName[..64])
    else
      && after.Some? && IsRetried(before.value, after.value, answers, sends)
      && done.deliveryStatus == Some(after.value.status)
      && (done.status == ActionSucceeded <==> after.value.status == Succeeded)
      && (done.status == ActionFailed <==> after.value.status != Succeeded)
      && done.errorCode == (if after.value.status == Succeeded then None else Some("DELIVERY_RECOVERY_FAILED"))
  }

  // The operator whose insert won triggers the one delivery retry of its request. Whatever that
  // raises, the action is completed, as failed with the safe code.
  method RetryReserved(store: DeliveryStore, audit: RecoveryAuditStore, request: RequestId, report: ReportId,
                       inspected: Option<Row>, confirmed: bool, maxTotal: nat, answers: nat -> DeliveryRow.Answer,
                       fault: Option<Fault>, ghost calm: bool)
    returns (done: Action, sends: nat)
    requires request in audit.actions && audit.actions[request].SameRequest(report, confirmed)
    requires Truthful(audit.actions, report, store.row)
    requires inspected.Some? ==> store.row.Some? && store.row.value.attemptNo >= 1
    modifies store, audit
    ensures Truthful(audit.actions, report, store.row) && AllKept(old(audit.actions), audit.actions)
    ensures request in audit.actions && audit.actions[request] == done && done.SameRequest(report, confirmed)
    ensures done.status != ActionPending && sends <= 1
    ensures inspected.None? ==> sends == 0 && store.row == old(store.row)
    ensures calm && old(audit.actions)[request].status == ActionPending && inspected == old(store.row) ==>
              && IsConcluded(done, inspected, store.row, confirmed, maxTotal, answers, fault, sends)
              && done.prior == old(audit.actions)[request].prior
              && audit.actions == old(audit.actions)[request := done]
  {
    sends := 0;
    var completion := Completion(ActionRejected, None, Some("DELIVERY_ATTEMPT_NOT_FOUND"));
    if inspected.Some? {
      var retried;
      retried, sends := RetryOrRaise(store, confirmed, maxTotal, answers, fault, calm);
      match retried {
        case None =>
          completion := Completion(ActionFailed, None, Some(SafeCode(fault.value.typeName)));
        case Some(ManualError(code)) =>
          completion := Completion(ActionRejected, Some(inspected.value.status), Some(code));
        case Some(Delivered(seen)) =>
          completion := if seen.status == Succeeded then Completion(ActionSucceeded, Some(Succeeded), None)
                        else Completion(ActionFailed, Some(seen.status), Some("DELIVERY_RECOVERY_FAILED"));
      }
    }
    done := CompleteAction(audit, request, completion, report, store.row, calm);
  }

  // `refusal` is the error inspecting the delivery raises, if it does; a replay swallows it.
  method ReplayAction(store: DeliveryStore, audit: RecoveryAuditStore, request: RequestId, report: ReportId,
                      confirmed: bool, existing: Action, refusal: Option<string>, ghost calm: bool)
    returns (result: RecoveryResult)
    requires request in audit.actions && audit.actions[request] == existing
    requires Truthful(audit.actions, report, store.row)
    modifies audit
    ensures Truthful(audit.actions, report, store.row) && AllKept(old(audit.actions), audit.actions)
    ensures request in audit.actions
    ensures if existing.SameRequest(report, confirmed)
            then result.Answer? && result.replayed && audit.actions[request] == result.action
                 && result.action.SameRequest(report, confirmed)
            else result.RequestConflict? && audit.actions == old(audit.actions)
    ensures existing.status != ActionPending && result.Answer? ==> result.action == existing
    // A pending action is concluded from the row exactly when a later attempt has ended.
    ensures calm && result.Answer? && existing.status == ActionPending ==>
              if refusal.None? && existing.prior.Some? && store.row.Some?
                 && store.row.value.attemptNo > existing.prior.value.attemptNo && store.row.value.status != Pending
              then
                && (result.action.status == ActionSucceeded <==> store.row.value.status == Succeeded)
                && (result.action.status == ActionFailed <==> store.row.value.status != Succeeded)
                && result.action.deliveryStatus == Some(store.row.value.status)
                && result.action.errorCode
                   == (if store.row.value.status == Succeeded then None else Some("DELIVERY_RECOVERY_FAILED"))
              else result.action == existing && audit.actions == old(audit.actions)
  {
    if !existing.SameRequest(report, confirmed) {
      return RequestConflict;
    }
    if refusal.Some? {
      return Answer(existing, true);
    }
    match Reconciled(existing, store.row)
    case None => return Answer(existing, true);
    case Some(completion) =>
      var done := CompleteAction(audit, request, completion, report, store.row, calm);
      return Answer(done, true);
  }

  /** A replay never sends, at most one send happens in any call, an answer of success is the
      success of the row, and other parameters under a known ID change nothing. An unknown request
      is either answered with a finished action of its own, exceptions included, or refused before
      anything was written. */
  method Retry(store: DeliveryStore, audit: RecoveryAuditStore, request: RequestId, report: ReportId,
               confirmed: bool, maxTotal: nat, answers: nat -> DeliveryRow.Answer,
               refusal: Option<string>, fault: Option<Fault>, ghost calm: bool)
    returns (result: RecoveryResult, sends: nat)
    requires Truthful(audit.actions, report, store.row)
    requires store.row.Some? ==> store.row.value.attemptNo >= 1
    modifies store, audit
    ensures Truthful(audit.actions, report, store.row) && AllKept(old(audit.actions), audit.actions)
    ensures sends <= 1
    ensures request in old(audit.actions) ==>
              && sends == 0
              && (result.RequestConflict? <==> !old(audit.actions)[request].SameRequest(report, confirmed))
              && (result.RequestConflict? ==> audit.actions == old(audit.actions) && store.row == old(store.row))
    ensures result.InspectionRefused? <==> request !in old(audit.actions) && refusal.Some?
    ensures result.InspectionRefused? ==>
              refusal == Some(result.code) && audit.actions == old(audit.actions) && store.row == old(store.row)
    ensures !result.InspectionRefused? ==> request in audit.actions
    ensures result.Answer? ==>
              && audit.actions[request] == result.action && result.action.SameRequest(report, confirmed)
              && (result.action.status == ActionSucceeded ==> store.row.Some? && store.row.value.status == Succeeded)
              && (!result.replayed ==> result.action.status != ActionPending)
    ensures sends == 1 ==> result.Answer? && !result.replayed
    // Alone, a new request is answered with the conclusion of its one retry.
    ensures calm && request !in old(audit.actions) && refusal.None? ==>
              && result.Answer? && !result.replayed
              && result.action.prior == old(store.row)
              && IsConcluded(result.action, old(store.row), store.row, confirmed, maxTotal, answers, fault, sends)
              && audit.actions == old(audit.actions)[request := result.action]
  {
    var existing := audit.LoadForRequest(request);
    if existing.None? {
      if refusal.Some? {
        return InspectionRefused(refusal.value), 0;
      }
      var inspected := store.row;
      audit.OthersRun(report, store.row, calm);
      ghost var looked := audit.actions;
      assert AllKept(old(audit.actions), looked);
      var inserted := audit.Reserve(request, Action(report, confirmed, inspected, ActionPending, None, None));
      ghost var reserved := audit.actions;
      assert forall other :: Kept(looked, reserved, other);
      AllKeptTransitive(old(audit.actions), looked, reserved);
      if inserted {
        var done;
        done, sends := RetryReserved(store, audit, request, report, inspected, confirmed, maxTotal, answers, fault,
                                     calm);
        AllKeptTransitive(old(audit.actions), reserved, audit.actions);
        return Answer(done, false), sends;
      }
      existing := audit.LoadForRequest(request);
      result := ReplayAction(store, audit, request, report, confirmed, existing.value, refusal, calm);
      AllKeptTransitive(old(audit.actions), reserved, audit.actions);
      return result, 0;
    }
    result := ReplayAction(store, audit, request, report, confirmed, existing.value, refusal, calm);
    return result, 0;
  }
}
