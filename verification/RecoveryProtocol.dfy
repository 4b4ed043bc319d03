/** Manual recovery: operators replay requests, overlap and crash around an audit table and the
    delivery rows of many reports. */
module RecoveryProtocol {
  import opened Prelude
  import opened DeliveryRow
  import Delivery = DeliveryProtocol

  type ReportId = string
  type RequestId = nat
  type OperatorId = nat

  datatype ActionStatus = ActionPending | ActionSucceeded | ActionRejected | ActionFailed

  datatype Action = Action(
    reportId: ReportId, confirmed: bool, prior: Option<Row>, status: ActionStatus,
    deliveryStatus: Option<Status>, errorCode: Option<string>)
  {
    predicate SameRequest(report: ReportId, confirmedAgain: bool) {
      reportId == report && confirmed == confirmedAgain
    }
  }

  datatype Completion = Completion(status: ActionStatus, deliveryStatus: Option<Status>, errorCode: Option<string>)

  datatype Operator =
    | Free
    | Inspecting(request: RequestId, report: ReportId, confirmed: bool)
    | Inserting(request: RequestId, report: ReportId, confirmed: bool, inspected: Option<Row>)
    | Calling(request: RequestId)
    | InRetry(request: RequestId, actor: Delivery.ActorId)
    | Replaying(request: RequestId)
    | Completing(request: RequestId, completion: Completion)
    | Answered(request: RequestId, action: Action)
    | Conflict

  // `calls` counts delivery retries triggered for each request. No step reads it.
  datatype World = World(
    deliveries: map<ReportId, Delivery.State>, actions: map<RequestId, Action>,
    operators: map<OperatorId, Operator>, calls: map<RequestId, nat>)

  datatype Step =
    | Open(op: OperatorId, request: RequestId, report: ReportId, confirmed: bool)
    | Inspect(op: OperatorId)
    | Insert(op: OperatorId)
    | CallRetry(op: OperatorId, actor: Delivery.ActorId, maxTotal: nat)
    | RetryEnds(op: OperatorId)
    | RetryRaises(op: OperatorId, code: string)
    | Reconcile(op: OperatorId)
    | Complete(op: OperatorId)
    | CrashOperator(op: OperatorId)
    | DeliveryStep(report: ReportId, step: Delivery.Step)

  function Init(): World {
    World(map[], map[], map[], map[])
  }

  function DeliveryAt(w: World, report: ReportId): Delivery.State {
    if report in w.deliveries then w.deliveries[report] else Delivery.Init(REPORT_RESUMABLE)
  }

  function OperatorAt(w: World, op: OperatorId): Operator {
    if op in w.operators then w.operators[op] else Free
  }

  function CallsOf(w: World, request: RequestId): nat {
    if request in w.calls then w.calls[request] else 0
  }

  function Goes(w: World, op: OperatorId, next: Operator): World {
    w.(operators := w.operators[op := next])
  }

  predicate AtRest(operator: Operator) {
    operator.Free? || operator.Answered? || operator.Conflict?
  }

  // UPDATE .. WHERE status = 'pending'.
  function Completed(action: Action, c: Completion): Action {
    if action.status == ActionPending
    then action.(status := c.status, deliveryStatus := c.deliveryStatus, errorCode := c.errorCode)
    else action
  }

  // What a replay finds out about a pending action from the delivery row.
  function Reconciled(action: Action, row: Option<Row>): Option<Completion> {
    if action.status != ActionPending || action.prior.None? || row.None?
       || row.value.attemptNo <= action.prior.value.attemptNo || row.value.status == Pending then None
    else if row.value.status == Succeeded then Some(Completion(ActionSucceeded, Some(Succeeded), None))
    else Some(Completion(ActionFailed, Some(row.value.status), Some("DELIVERY_RECOVERY_FAILED")))
  }

  function FromRetry(actor: Delivery.Actor, prior: Option<Row>): Option<Completion> {
    match actor
    case Returned(seen) =>
      Some(if seen.status == Succeeded then Completion(ActionSucceeded, Some(Succeeded), None)
           else Completion(ActionFailed, Some(seen.status), Some("DELIVERY_RECOVERY_FAILED")))
    case Rejected(code) =>
      var status := match prior case None => None case Some(row) => Some(row.status);
      Some(Completion(ActionRejected, status, Some(code)))
    case _ => None
  }

  function Next(w: World, step: Step): World {
    match step
    case Open(op, request, report, confirmed) =>
      if !AtRest(OperatorAt(w, op)) then w
      else if request !in w.actions then Goes(w, op, Inspecting(request, report, confirmed))
      else if !w.actions[request].SameRequest(report, confirmed) then Goes(w, op, Conflict)
      else Goes(w, op, Replaying(request))
    case Inspect(op) =>
      (match OperatorAt(w, op)
       case Inspecting(request, report, confirmed) =>
         Goes(w, op, Inserting(request, report, confirmed, DeliveryAt(w, report).row))
       case _ => w)
    case Insert(op) =>
      (match OperatorAt(w, op)
       case Inserting(request, report, confirmed, inspected) =>
         if request in w.actions then
           Goes(w, op, if w.actions[request].SameRequest(report, confirmed) then Replaying(request) else Conflict)
         else
           var action := Action(report, confirmed, inspected, ActionPending, None, None);
           Goes(w.(actions := w.actions[request := action]), op,
                if inspected.None?
                then Completing(request, Completion(ActionRejected, None, Some("DELIVERY_ATTEMPT_NOT_FOUND")))
                else Calling(request))
       case _ => w)
    case CallRetry(op, actor, maxTotal) =>
      (match OperatorAt(w, op)
       case Calling(request) =>
         if request !in w.actions then w
         else
           var action := w.actions[request];
           var delivery := DeliveryAt(w, action.reportId);
           if !Delivery.AtRest(Delivery.ActorAt(delivery, actor)) then w
           else
             var started := Delivery.Next(delivery, Delivery.StartManual(actor, action.confirmed, maxTotal));
             Goes(w.(deliveries := w.deliveries[action.reportId := started],
                     calls := w.calls[request := CallsOf(w, request) + 1]), op, InRetry(request, actor))
       case _ => w)
    case RetryEnds(op) =>
      (match OperatorAt(w, op)
       case InRetry(request, actor) =>
         if request !in w.actions then w
         else
           (match FromRetry(Delivery.ActorAt(DeliveryAt(w, w.actions[request].reportId), actor),
                            w.actions[request].prior)
            case None => w
            case Some(c) => Goes(w, op, Completing(request, c)))
       case _ => w)
    case RetryRaises(op, code) =>
      (match OperatorAt(w, op)
       case InRetry(request, _) => Goes(w, op, Completing(request, Completion(ActionFailed, None, Some(code))))
       case _ => w)
    case Reconcile(op) =>
      (match OperatorAt(w, op)
       case Replaying(request) =>
         if request !in w.actions then w
         else
           var action := w.actions[request];
           (match Reconciled(action, DeliveryAt(w, action.reportId).row)
            case None => Goes(w, op, Answered(request, action))
            case Some(c) => Goes(w, op, Completing(request, c)))
       case _ => w)
    case Complete(op) =>
      (match OperatorAt(w, op)
       case Completing(request, c) =>
         if request !in w.actions then w
         else
           var action := Completed(w.actions[request], c);
           Goes(w.(actions := w.actions[request := action]), op, Answered(request, action))
       case _ => w)
    case CrashOperator(op) => Goes(w, op, Free)
    case DeliveryStep(report, inner) =>
      w.(deliveries := w.deliveries[report := Delivery.Next(DeliveryAt(w, report), inner)])
  }

  function Run(w: World, steps: seq<Step>): World
    decreases |steps|
  {
    if steps == [] then w else Run(Next(w, steps[0]), steps[1..])
  }

  // ---- The invariant ----------------------------------------------------------------------

  ghost predicate ReportSucceeded(w: World, report: ReportId) {
    DeliveryAt(w, report).row.Some? && DeliveryAt(w, report).row.value.status == Succeeded
  }

  ghost predicate ActionOk(w: World, request: RequestId) {
    && CallsOf(w, request) <= 1
    && (request !in w.actions ==> CallsOf(w, request) == 0)
    && (request in w.actions && w.actions[request].status == ActionSucceeded ==>
          ReportSucceeded(w, w.actions[request].reportId))
  }

  ghost predicate OperatorOk(w: World, op: OperatorId) {
    match OperatorAt(w, op)
    case Calling(request) => request in w.actions && CallsOf(w, request) == 0
    case InRetry(request, _) => request in w.actions
    case Replaying(request) => request in w.actions
    case Completing(request, c) =>
      request in w.actions && (c.status == ActionSucceeded ==> ReportSucceeded(w, w.actions[request].reportId))
    case Answered(request, action) =>
      && request in w.actions && w.actions[request].SameRequest(action.reportId, action.confirmed)
      && (action.status != ActionPending ==> w.actions[request] == action)
    case _ => true
  }

  ghost predicate OneCaller(w: World, a: OperatorId, b: OperatorId) {
    a != b && OperatorAt(w, a).Calling? && OperatorAt(w, b).Calling? ==>
      OperatorAt(w, a).request != OperatorAt(w, b).request
  }

  ghost predicate DeliveryOk(w: World, report: ReportId) {
    Delivery.Inv(DeliveryAt(w, report)) && DeliveryAt(w, report).resumable == REPORT_RESUMABLE
  }

  ghost predicate Inv(w: World) {
    && (forall report :: DeliveryOk(w, report))
    && (forall request :: ActionOk(w, request))
    && (forall op :: OperatorOk(w, op))
    && (forall a, b :: OneCaller(w, a, b))
  }

  // An action keeps its parameters, and a finished one never changes.
  ghost predicate KeepsAction(before: World, after: World, request: RequestId) {
    request in before.actions ==>
      && request in after.actions
      && after.actions[request].SameRequest(before.actions[request].reportId, before.actions[request].confirmed)
      && (before.actions[request].status != ActionPending ==> after.actions[request] == before.actions[request])
  }

  ghost predicate KeepsReport(before: World, after: World, report: ReportId) {
    ReportSucceeded(before, report) ==> DeliveryAt(after, report).row == DeliveryAt(before, report).row
  }

  ghost predicate Progresses(before: World, after: World) {
    && (forall request :: KeepsAction(before, after, request))
    && (forall report :: KeepsReport(before, after, report))
  }

  lemma {:induction false} ProgressesTransitive(a: World, b: World, c: World)
    requires Progresses(a, b) && Progresses(b, c)
    ensures Progresses(a, c)
  {
    forall request ensures KeepsAction(a, c, request) {
      assert KeepsAction(a, b, request) && KeepsAction(b, c, request);
    }
    forall report ensures KeepsReport(a, c, report) {
      assert KeepsReport(a, b, report) && KeepsReport(b, c, report);
    }
  }

  // ---- Steps keep the invariant -------------------------------------------------------------

  // A step of one operator that leaves the tables alone.
  lemma {:induction false} QuietStepKeeps(w: World, op: OperatorId, next: Operator)
    requires Inv(w) && !next.Calling? && OperatorOk(Goes(w, op, next), op)
    ensures Inv(Goes(w, op, next)) && Progresses(w, Goes(w, op, next))
  {
    var w' := Goes(w, op, next);
    forall report ensures DeliveryOk(w', report) && KeepsReport(w, w', report) { assert DeliveryOk(w, report); }
    forall request ensures ActionOk(w', request) && KeepsAction(w, w', request) { assert ActionOk(w, request); }
    forall a ensures OperatorOk(w', a) { assert OperatorOk(w, a); }
    forall a, b ensures OneCaller(w', a, b) { assert OneCaller(w, a, b); }
  }

  lemma {:induction false} DeliveryStepKeeps(w: World, report: ReportId, inner: Delivery.Step)
    requires Inv(w)
    ensures Inv(Next(w, DeliveryStep(report, inner))) && Progresses(w, Next(w, DeliveryStep(report, inner)))
  {
    var w' := Next(w, DeliveryStep(report, inner));
    assert DeliveryOk(w, report);
    Delivery.NextKeeps(DeliveryAt(w, report), inner);
    forall r ensures DeliveryOk(w', r) && KeepsReport(w, w', r) { assert DeliveryOk(w, r); }
    forall request ensures ActionOk(w', request) && KeepsAction(w, w', request) {
      assert ActionOk(w, request);
      if request in w.actions { assert KeepsReport(w, w', w.actions[request].reportId); }
    }
    forall a ensures OperatorOk(w', a) {
      assert OperatorOk(w, a);
      if OperatorAt(w, a).Completing? { assert KeepsReport(w, w', w.actions[OperatorAt(w, a).request].reportId); }
    }
    forall a, b ensures OneCaller(w', a, b) { assert OneCaller(w, a, b); }
  }

  lemma {:induction false} InsertKeeps(w: World, op: OperatorId)
    requires Inv(w) && OperatorAt(w, op).Inserting? && OperatorAt(w, op).request !in w.actions
    ensures Inv(Next(w, Insert(op))) && Progresses(w, Next(w, Insert(op)))
  {
    var w' := Next(w, Insert(op));
    var request := OperatorAt(w, op).request;
    forall report ensures DeliveryOk(w', report) && KeepsReport(w, w', report) { assert DeliveryOk(w, report); }
    forall r ensures ActionOk(w', r) && KeepsAction(w, w', r) { assert ActionOk(w, r); }
    forall a ensures OperatorOk(w', a) { assert OperatorOk(w, a) && ActionOk(w, request); }
    forall a, b ensures OneCaller(w', a, b) {
      assert OneCaller(w, a, b) && OperatorOk(w, a) && OperatorOk(w, b);
    }
  }

  lemma {:induction false} CallRetryKeeps(w: World, op: OperatorId, actor: Delivery.ActorId, maxTotal: nat)
    requires Inv(w) && OperatorAt(w, op).Calling?
    requires Next(w, CallRetry(op, actor, maxTotal)) != w
    ensures Inv(Next(w, CallRetry(op, actor, maxTotal))) && Progresses(w, Next(w, CallRetry(op, actor, maxTotal)))
  {
    var request := OperatorAt(w, op).request;
    assert OperatorOk(w, op);
    var action := w.actions[request];
    var inner := Delivery.StartManual(actor, action.confirmed, maxTotal);
    var moved := Next(w, DeliveryStep(action.reportId, inner));
    DeliveryStepKeeps(w, action.reportId, inner);
    var w' := Next(w, CallRetry(op, actor, maxTotal));
    assert w' == Goes(moved.(calls := w.calls[request := CallsOf(w, request) + 1]), op, InRetry(request, actor));
    forall report ensures DeliveryOk(w', report) && KeepsReport(w, w', report) {
      assert DeliveryOk(moved, report) && KeepsReport(w, moved, report);
    }
    forall r ensures ActionOk(w', r) && KeepsAction(w, w', r) {
      assert ActionOk(moved, r) && KeepsAction(w, moved, r);
    }
    forall a ensures OperatorOk(w', a) { assert OperatorOk(moved, a) && OneCaller(w, a, op); }
    forall a, b ensures OneCaller(w', a, b) { assert OneCaller(w, a, b); }
  }

  lemma {:induction false} CompleteKeeps(w: World, op: OperatorId)
    requires Inv(w) && OperatorAt(w, op).Completing?
    ensures Inv(Next(w, Complete(op))) && Progresses(w, Next(w, Complete(op)))
  {
    var w' := Next(w, Complete(op));
    assert OperatorOk(w, op);
    forall report ensures DeliveryOk(w', report) && KeepsReport(w, w', report) { assert DeliveryOk(w, report); }
    forall r ensures ActionOk(w', r) && KeepsAction(w, w', r) { assert ActionOk(w, r); }
    forall a ensures OperatorOk(w', a) { assert OperatorOk(w, a); }
    forall a, b ensures OneCaller(w', a, b) { assert OneCaller(w, a, b); }
  }

  // What a retry or the delivery row says can complete an action as succeeded only if the
  // report's row has succeeded.
  lemma {:induction false} CompletionsAreTrue(w: World, report: ReportId, actor: Delivery.ActorId, action: Action)
    requires Inv(w)
    ensures var c := FromRetry(Delivery.ActorAt(DeliveryAt(w, report), actor), action.prior);
            c.Some? && c.value.status == ActionSucceeded ==> ReportSucceeded(w, report)
    ensures var c := Reconciled(action, DeliveryAt(w, report).row);
            c.Some? && c.value.status == ActionSucceeded ==> ReportSucceeded(w, report)
  {
    assert DeliveryOk(w, report);
    assert Delivery.ActorOk(DeliveryAt(w, report), actor);
  }

  // What a finished retry makes of its action: a returned attempt concludes it by its status, a
  // refusal rejects it with the refusal's code and the status found before, and an unfinished one
  // concludes nothing.
  lemma {:induction false} RetryConcludes(actor: Delivery.Actor, prior: Option<Row>)
    ensures var c := FromRetry(actor, prior);
            && (c.Some? <==> actor.Returned? || actor.Rejected?)
            && (actor.Returned? ==>
                  && (c.value.status == ActionSucceeded <==> actor.seen.status == Succeeded)
                  && (c.value.status == ActionFailed <==> actor.seen.status != Succeeded)
                  && c.value.deliveryStatus == Some(actor.seen.status)
                  && c.value.errorCode
                     == (if actor.seen.status == Succeeded then None else Some("DELIVERY_RECOVERY_FAILED")))
            && (actor.Rejected? ==>
                  && c.value.status == ActionRejected && c.value.errorCode == Some(actor.code)
                  && (prior.Some? <==> c.value.deliveryStatus.Some?)
                  && (prior.Some? ==> c.value.deliveryStatus.value == prior.value.status))
  {}

  // An operator in the middle of a request opens no other one, and a delivery call is made by an
  // actor that has none of its own.
  lemma {:induction false} BusyCallersGoOn(w: World, op: OperatorId, step: Step)
    requires step.Open? || step.CallRetry?
    requires step.op == op && Next(w, step) != w
    ensures step.Open? ==> OperatorAt(w, op).Free? || OperatorAt(w, op).Answered? || OperatorAt(w, op).Conflict?
    ensures step.CallRetry? ==>
              && OperatorAt(w, op).Calling? && OperatorAt(w, op).request in w.actions
              && var delivery := DeliveryAt(w, w.actions[OperatorAt(w, op).request].reportId);
                 var actor := Delivery.ActorAt(delivery, step.actor);
                 actor.Idle? || actor.Returned? || actor.Rejected?
  {}

  // Of the operators that insert one request, the first owns it; a later one replays it if it asks
  // the same and is refused otherwise. Without an attempt to retry, the owner's action is rejected.
  lemma {:induction false} FirstInsertWins(w: World, op: OperatorId)
    requires OperatorAt(w, op).Inserting?
    ensures var Inserting(request, report, confirmed, inspected) := OperatorAt(w, op);
            var w' := Next(w, Insert(op));
            if request in w.actions then
              && w'.actions == w.actions
              && var action := w.actions[request];
                 OperatorAt(w', op)
                 == if action.reportId == report && action.confirmed == confirmed then Replaying(request) else Conflict
            else
              && w'.actions == w.actions[request := Action(report, confirmed, inspected, ActionPending, None, None)]
              && (inspected.Some? ==> OperatorAt(w', op) == Calling(request))
              && (inspected.None? ==>
                    OperatorAt(w', op)
                    == Completing(request, Completion(ActionRejected, None, Some("DELIVERY_ATTEMPT_NOT_FOUND"))))
  {}

  // What a replay makes of a pending action: it is concluded exactly when an attempt after the
  // inspected one has ended, by that attempt's status.
  lemma {:induction false} ReplayConcludes(action: Action, row: Option<Row>)
    ensures var c := Reconciled(action, row);
            && (c.Some? <==>
                  && action.status == ActionPending && action.prior.Some? && row.Some?
                  && action.prior.value.attemptNo < row.value.attemptNo && row.value.status != Pending)
            && (c.Some? ==>
                  && (c.value.status == ActionSucceeded <==> row.value.status == Succeeded)
                  && (c.value.status == ActionFailed <==> row.value.status != Succeeded)
                  && c.value.deliveryStatus == Some(row.value.status)
                  && c.value.errorCode
                     == (if row.value.status == Succeeded then None else Some("DELIVERY_RECOVERY_FAILED")))
  {}

  lemma {:induction false} RetryEndsKeeps(w: World, op: OperatorId)
    requires Inv(w) && OperatorAt(w, op).InRetry?
    ensures Inv(Next(w, RetryEnds(op))) && Progresses(w, Next(w, RetryEnds(op)))
  {
    var InRetry(request, actor) := OperatorAt(w, op);
    assert OperatorOk(w, op);
    CompletionsAreTrue(w, w.actions[request].reportId, actor, w.actions[request]);
    if Next(w, RetryEnds(op)) != w {
      QuietStepKeeps(w, op, OperatorAt(Next(w, RetryEnds(op)), op));
    }
  }

  lemma {:induction false} ReconcileKeeps(w: World, op: OperatorId)
    requires Inv(w) && OperatorAt(w, op).Replaying?
    ensures Inv(Next(w, Reconcile(op))) && Progresses(w, Next(w, Reconcile(op)))
  {
    var request := OperatorAt(w, op).request;
    assert OperatorOk(w, op);
    CompletionsAreTrue(w, w.actions[request].reportId, 0, w.actions[request]);
    QuietStepKeeps(w, op, OperatorAt(Next(w, Reconcile(op)), op));
  }

  lemma {:induction false} LookKeeps(w: World, step: Step)
    requires Inv(w)
    requires step.Open? || step.Inspect? || step.RetryRaises? || step.CrashOperator?
    ensures Inv(Next(w, step)) && Progresses(w, Next(w, step))
  {
    assert OperatorOk(w, step.op);
    if Next(w, step) != w {
      QuietStepKeeps(w, step.op, OperatorAt(Next(w, step), step.op));
    }
  }

  lemma {:induction false} NextKeeps(w: World, step: Step)
    requires Inv(w)
    ensures Inv(Next(w, step)) && Progresses(w, Next(w, step))
  {
    match step
    case DeliveryStep(report, inner) => DeliveryStepKeeps(w, report, inner);
    case Insert(op) =>
      if OperatorAt(w, op).Inserting? {
        if OperatorAt(w, op).request in w.actions {
          QuietStepKeeps(w, op, OperatorAt(Next(w, step), op));
        } else {
          InsertKeeps(w, op);
        }
      }
    case CallRetry(op, actor, maxTotal) =>
      if OperatorAt(w, op).Calling? && Next(w, step) != w { CallRetryKeeps(w, op, actor, maxTotal); }
    case Complete(op) => if OperatorAt(w, op).Completing? { CompleteKeeps(w, op); }
    case RetryEnds(op) => if OperatorAt(w, op).InRetry? { RetryEndsKeeps(w, op); }
    case Reconcile(op) => if OperatorAt(w, op).Replaying? { ReconcileKeeps(w, op); }
    case _ => LookKeeps(w, step);
  }

  // ---- Every interleaving --------------------------------------------------------------------

  lemma {:induction false} RunKeeps(w: World, steps: seq<Step>)
    requires Inv(w)
    ensures Inv(Run(w, steps)) && Progresses(w, Run(w, steps))
    decreases |steps|
  {
    if steps != [] {
      NextKeeps(w, steps[0]);
      RunKeeps(Next(w, steps[0]), steps[1..]);
      ProgressesTransitive(w, Next(w, steps[0]), Run(w, steps));
    }
  }

  lemma {:induction false} InitHolds()
    ensures Inv(Init())
  {
    Delivery.InitHolds(REPORT_RESUMABLE);
  }

  // Whatever operators replay, overlap and crash, a request triggers at most one delivery
  // retry, and an action that says succeeded is about a row that succeeded.
  lemma {:induction false} OneRetryPerRequest(steps: seq<Step>, request: RequestId)
    ensures var w := Run(Init(), steps);
            && CallsOf(w, request) <= 1
            && (request !in w.actions ==> CallsOf(w, request) == 0)
            && (request in w.actions && w.actions[request].status == ActionSucceeded ==>
                  ReportSucceeded(w, w.actions[request].reportId))
  {
    InitHolds();
    RunKeeps(Init(), steps);
    assert ActionOk(Run(Init(), steps), request);
  }

  // A finished action and the success it stands for are there for good.
  lemma {:induction false} FinishedActionsAreFinal(steps: seq<Step>, more: seq<Step>, request: RequestId)
    requires request in Run(Init(), steps).actions
    requires Run(Init(), steps).actions[request].status != ActionPending
    ensures var w := Run(Init(), steps);
            var later := Run(w, more);
            && request in later.actions && later.actions[request] == w.actions[request]
            && (w.actions[request].status == ActionSucceeded ==> ReportSucceeded(later, w.actions[request].reportId))
  {
    InitHolds();
    RunKeeps(Init(), steps);
    var w := Run(Init(), steps);
    RunKeeps(w, more);
    assert KeepsAction(w, Run(w, more), request) && ActionOk(Run(w, more), request);
  }

  // The same request ID with other parameters is refused forever after, and changes nothing.
  lemma {:induction false} OtherParametersAreRefused(
      steps: seq<Step>, more: seq<Step>, op: OperatorId, request: RequestId, report: ReportId, confirmed: bool)
    requires request in Run(Init(), steps).actions
    requires var action := Run(Init(), steps).actions[request];
             action.reportId != report || action.confirmed != confirmed
    requires var operator := OperatorAt(Run(Run(Init(), steps), more), op);
             operator.Free? || operator.Answered? || operator.Conflict?
    ensures var later := Run(Run(Init(), steps), more);
            Next(later, Open(op, request, report, confirmed)) == Goes(later, op, Conflict)
  {
    InitHolds();
    RunKeeps(Init(), steps);
    var w := Run(Init(), steps);
    RunKeeps(w, more);
    assert KeepsAction(w, Run(w, more), request);
  }

  // What a replay answers for a finished action is what every later replay answers.
  lemma {:induction false} AnswersAgree(steps: seq<Step>, a: OperatorId, b: OperatorId)
    requires OperatorAt(Run(Init(), steps), a).Answered? && OperatorAt(Run(Init(), steps), b).Answered?
    requires OperatorAt(Run(Init(), steps), a).request == OperatorAt(Run(Init(), steps), b).request
    requires OperatorAt(Run(Init(), steps), a).action.status != ActionPending
    requires OperatorAt(Run(Init(), steps), b).action.status != ActionPending
    ensures OperatorAt(Run(Init(), steps), a).action == OperatorAt(Run(Init(), steps), b).action
  {
    InitHolds();
    RunKeeps(Init(), steps);
    var w := Run(Init(), steps);
    assert OperatorOk(w, a) && OperatorOk(w, b);
  }
}
