/** What the recovery protocol does when one operator has a report to itself. */
module RecoveryRuns {
  import opened Prelude
  import opened DeliveryRow
  import opened RecoveryProtocol
  import Delivery = DeliveryProtocol

  lemma {:induction false} RunAppends(w: World, steps: seq<Step>, step: Step)
    ensures Run(w, steps + [step]) == Next(Run(w, steps), step)
    decreases |steps|
  {
    if steps == [] {
      assert steps + [step] == [step] && [step][1..] == [];
    } else {
      assert (steps + [step])[1..] == steps[1..] + [step];
      RunAppends(Next(w, steps[0]), steps[1..], step);
    }
  }

  // One step more at the end of a run.
  lemma {:induction false} Go(w0: World, steps: seq<Step>, step: Step) returns (longer: seq<Step>, w: World)
    ensures longer == steps + [step] && w == Run(w0, longer) == Next(Run(w0, steps), step)
  {
    RunAppends(w0, steps, step);
    longer, w := steps + [step], Next(Run(w0, steps), step);
  }

  // An operator with a new request reserves it for the row it inspected and calls the retry.
  lemma {:induction false} RequestAlone(
      w0: World, op: OperatorId, request: RequestId, report: ReportId, confirmed: bool, actor: Delivery.ActorId,
      maxTotal: nat)
    returns (steps: seq<Step>, w: World)
    requires OperatorAt(w0, op).Free? || OperatorAt(w0, op).Answered? || OperatorAt(w0, op).Conflict?
    requires request !in w0.actions && CallsOf(w0, request) == 0
    requires DeliveryAt(w0, report).row.Some?
    requires var caller := Delivery.ActorAt(DeliveryAt(w0, report), actor);
             caller.Idle? || caller.Returned? || caller.Rejected?
    ensures w == Run(w0, steps)
    ensures OperatorAt(w, op) == InRetry(request, actor) && CallsOf(w, request) == 1
    ensures w.actions == w0.actions[request := Action(report, confirmed, DeliveryAt(w0, report).row, ActionPending,
                                                      None, None)]
    ensures DeliveryAt(w, report)
         == Delivery.Next(DeliveryAt(w0, report), Delivery.StartManual(actor, confirmed, maxTotal))
  {
    steps, w := Go(w0, [], Open(op, request, report, confirmed));
    assert OperatorAt(w, op) == Inspecting(request, report, confirmed);
    steps, w := Go(w0, steps, Inspect(op));
    assert OperatorAt(w, op) == Inserting(request, report, confirmed, DeliveryAt(w0, report).row);
    steps, w := Go(w0, steps, Insert(op));
    assert OperatorAt(w, op) == Calling(request);
    steps, w := Go(w0, steps, CallRetry(op, actor, maxTotal));
  }

  // ... and once the retry has returned or was refused, the action is completed by it for good.
  lemma {:induction false} RetryCompletes(w0: World, op: OperatorId, request: RequestId, actor: Delivery.ActorId)
    returns (steps: seq<Step>, w: World)
    requires OperatorAt(w0, op) == InRetry(request, actor) && request in w0.actions
    requires w0.actions[request].status == ActionPending
    requires var retry := Delivery.ActorAt(DeliveryAt(w0, w0.actions[request].reportId), actor);
             retry.Returned? || retry.Rejected?
    ensures w == Run(w0, steps) && request in w.actions
    ensures OperatorAt(w, op) == Answered(request, w.actions[request])
    ensures var retry := Delivery.ActorAt(DeliveryAt(w0, w0.actions[request].reportId), actor);
            var action := w.actions[request];
            && action.prior == w0.actions[request].prior
            && (retry.Rejected? ==> action.status == ActionRejected && action.errorCode == Some(retry.code))
            && (retry.Returned? ==>
                  && (action.status == ActionSucceeded <==> retry.seen.status == Succeeded)
                  && (action.status == ActionFailed <==> retry.seen.status != Succeeded)
                  && action.deliveryStatus == Some(retry.seen.status))
  {
    steps, w := Go(w0, [], RetryEnds(op));
    RetryConcludes(Delivery.ActorAt(DeliveryAt(w0, w0.actions[request].reportId), actor), w0.actions[request].prior);
    steps, w := Go(w0, steps, Complete(op));
  }

  // A retry that raises completes its action as failed, with the exception's code.
  lemma {:induction false} RaisingRetryCompletes(
      w0: World, op: OperatorId, request: RequestId, actor: Delivery.ActorId, code: string)
    returns (steps: seq<Step>, w: World)
    requires OperatorAt(w0, op) == InRetry(request, actor) && request in w0.actions
    requires w0.actions[request].status == ActionPending
    ensures w == Run(w0, steps) && request in w.actions
    ensures OperatorAt(w, op) == Answered(request, w.actions[request])
    ensures w.actions[request].status == ActionFailed && w.actions[request].errorCode == Some(code)
    ensures w.actions[request].deliveryStatus.None?
  {
    steps, w := Go(w0, [], RetryRaises(op, code));
    steps, w := Go(w0, steps, Complete(op));
  }

  // A replay answers a known action of the same parameters, after concluding it if the row shows
  // how its attempt ended.
  lemma {:induction false} ReplayAlone(
      w0: World, op: OperatorId, request: RequestId, report: ReportId, confirmed: bool)
    returns (steps: seq<Step>, w: World)
    requires OperatorAt(w0, op).Free? || OperatorAt(w0, op).Answered? || OperatorAt(w0, op).Conflict?
    requires request in w0.actions
    requires w0.actions[request].reportId == report && w0.actions[request].confirmed == confirmed
    ensures w == Run(w0, steps) && w.deliveries == w0.deliveries && w.calls == w0.calls
    ensures request in w.actions && OperatorAt(w, op) == Answered(request, w.actions[request])
    ensures var c := Reconciled(w0.actions[request], DeliveryAt(w0, report).row);
            if c.None? then w.actions == w0.actions
            else w.actions == w0.actions[request := w0.actions[request].(
                   status := c.value.status, deliveryStatus := c.value.deliveryStatus, errorCode := c.value.errorCode)]
  {
    steps, w := Go(w0, [], Open(op, request, report, confirmed));
    assert OperatorAt(w, op) == Replaying(request);
    steps, w := Go(w0, steps, Reconcile(op));
    if Reconciled(w0.actions[request], DeliveryAt(w0, report).row).Some? {
      steps, w := Go(w0, steps, Complete(op));
    }
  }
}
