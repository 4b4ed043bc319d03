/** Automatic senders, manual retriers and crashes around one delivery row. */
module DeliveryProtocol {
  import opened Prelude
  import opened DeliveryRow

  type ActorId = nat

  // `localNo` is the attempt number a sender believes in, `createdNo` the one its own step put
  // into the row. `createdNo` is a history value; no step reads it.
  datatype Actor =
    | Idle
    | Loading(maxNo: nat)
    | Resuming(localNo: nat, maxNo: nat)
    | Reviewed(seenNo: nat, confirmed: bool)
    | Sending(localNo: nat, createdNo: nat, maxNo: nat)
    | Reporting(localNo: nat, createdNo: nat, maxNo: nat, answer: Answer)
    | Reloading
    | Returned(seen: Row)
    | Rejected(code: string)

  // `accepted` counts cards the chat got, `sends` transport calls, `confirmations` manual
  // retries taken from an uncertain row and `misjudged` those of them taken although a card
  // had arrived. No step reads the counters.
  datatype State = State(
    resumable: set<Status>, row: Option<Row>, actors: map<ActorId, Actor>,
    accepted: nat, sends: nat, confirmations: nat, misjudged: nat)

  datatype Step =
    | StartDeliver(actor: ActorId, maxAttempts: nat)
    | LoadExisting(actor: ActorId)
    | TryResume(actor: ActorId)
    | StartManual(actor: ActorId, confirmed: bool, maxTotal: nat)
    | TryAuthorize(actor: ActorId)
    | Send(actor: ActorId, answer: Answer)
    | Report(actor: ActorId)
    | Reload(actor: ActorId)
    | Crash(actor: ActorId)

  function Init(resumable: set<Status>): State {
    State(resumable, None, map[], 0, 0, 0, 0)
  }

  function ActorAt(s: State, a: ActorId): Actor {
    if a in s.actors then s.actors[a] else Idle
  }

  function Goes(s: State, a: ActorId, next: Actor): State {
    s.(actors := s.actors[a := next])
  }

  predicate AtRest(actor: Actor) {
    actor.Idle? || actor.Returned? || actor.Rejected?
  }

  function Next(s: State, step: Step): State {
    var a := step.actor;
    match (step, ActorAt(s, a))
    case (StartDeliver(_, maxAttempts), actor) =>
      if !AtRest(actor) then s
      else
        var (row, inserted) := Reserve(s.row);
        Goes(s.(row := row), a, if inserted then Sending(1, 1, maxAttempts) else Loading(maxAttempts))
    case (LoadExisting(_), Loading(maxNo)) =>
      if s.row.None? then s
      else if s.row.value.status != RetryWait || s.row.value.attemptNo >= maxNo then Goes(s, a, Returned(s.row.value))
      else Goes(s, a, Resuming(s.row.value.attemptNo, maxNo))
    case (TryResume(_), Resuming(localNo, maxNo)) =>
      if s.row.None? then s
      else
        var (row, resumed) := Resume(s.row.value, s.resumable);
        Goes(s.(row := Some(row)), a, if resumed then Sending(localNo + 1, row.attemptNo, maxNo) else Reloading)
    case (StartManual(_, confirmed, maxTotal), actor) =>
      if !AtRest(actor) then s
      else if s.row.None? then Goes(s, a, Rejected("DELIVERY_ATTEMPT_NOT_FOUND"))
      else
        (match ReviewManually(s.row.value, confirmed, maxTotal)
         case AlreadySucceeded => Goes(s, a, Returned(s.row.value))
         case NotRetryable(code) => Goes(s, a, Rejected(code))
         case MayAuthorize => Goes(s, a, Reviewed(s.row.value.attemptNo, confirmed)))
    case (TryAuthorize(_), Reviewed(seenNo, confirmed)) =>
      if s.row.None? then s
      else
        var (row, authorized) := Authorize(s.row.value, seenNo, confirmed);
        if !authorized then Goes(s, a, Rejected("DELIVERY_RETRY_CONFLICT"))
        else
          var fromUncertain := s.row.value.status == Uncertain;
          Goes(s.(row := Some(row),
                  confirmations := s.confirmations + (if fromUncertain then 1 else 0),
                  misjudged := s.misjudged + (if fromUncertain && s.accepted > 0 then 1 else 0)),
               a, Sending(seenNo + 1, row.attemptNo, seenNo + 1))
    case (Send(_, answer), Sending(localNo, createdNo, maxNo)) =>
      Goes(s.(sends := s.sends + 1, accepted := s.accepted + (if answer.Arrived() then 1 else 0)),
           a, Reporting(localNo, createdNo, maxNo, answer))
    case (Report(_), Reporting(localNo, _, maxNo, answer)) =>
      if s.row.None? then s
      else
        var status := StatusAfter(answer, localNo, maxNo);
        var (row, updated) := Update(s.row.value, localNo, status);
        Goes(s.(row := Some(row)), a,
             if !updated then Reloading
             else if status == RetryWait then Resuming(localNo, maxNo)
             else Returned(Row(status, localNo)))
    case (Reload(_), Reloading) =>
      if s.row.None? then s else Goes(s, a, Returned(s.row.value))
    case (Crash(_), _) => Goes(s, a, Idle)
    case _ => s
  }

  function Run(s: State, steps: seq<Step>): State
    decreases |steps|
  {
    if steps == [] then s else Run(Next(s, steps[0]), steps[1..])
  }

  // ---- The invariant ----------------------------------------------------------------------

  predicate InFlight(actor: Actor) {
    actor.Sending? || actor.Reporting?
  }

  // Whoever is between creating an attempt and reporting it holds the newest attempt of a
  // pending row; its own number may lag behind but never leads.
  ghost predicate ActorOk(s: State, a: ActorId) {
    var actor := ActorAt(s, a);
    && (InFlight(actor) ==>
          && s.row.Some? && s.row.value == Row(Pending, actor.createdNo)
          && 1 <= actor.localNo <= actor.createdNo)
    && (actor.Sending? ==> s.accepted <= s.misjudged && s.sends < s.row.value.attemptNo)
    && (actor.Reporting? && actor.answer.Refused? ==> s.accepted <= s.misjudged)
    && (actor.Resuming? ==> s.row.Some? && 1 <= actor.localNo <= s.row.value.attemptNo)
    && (actor.Reviewed? ==> s.row.Some? && 1 <= actor.seenNo <= s.row.value.attemptNo)
    && (actor.Loading? || actor.Reloading? ==> s.row.Some?)
    && (actor.Returned? ==>
          && s.row.Some? && actor.seen.attemptNo <= s.row.value.attemptNo
          && (actor.seen.status == Succeeded ==> s.row.value.status == Succeeded))
  }

  ghost predicate Exclusive(s: State, a: ActorId, b: ActorId) {
    a != b ==> !(InFlight(ActorAt(s, a)) && InFlight(ActorAt(s, b)))
  }

  ghost predicate RowOk(s: State) {
    && s.accepted <= s.misjudged + 1
    && s.misjudged <= s.confirmations
    && (s.row.None? ==> s.accepted == 0 && s.sends == 0)
    && (s.row.Some? ==>
          && s.row.value.attemptNo >= 1
          && s.sends <= s.row.value.attemptNo
          && (s.row.value.status == Failed || s.row.value.status == RetryWait ==> s.accepted <= s.misjudged))
  }

  ghost predicate Inv(s: State) {
    && s.resumable <= REPORT_RESUMABLE
    && RowOk(s)
    && (forall a :: ActorOk(s, a))
    && (forall a, b :: Exclusive(s, a, b))
  }

  // What no step undoes. `Succeeded` is final; a sender's resumable statuses decide which
  // others are.
  ghost predicate Progresses(before: State, after: State) {
    && after.resumable == before.resumable
    && after.accepted >= before.accepted
    && (before.row.Some? ==>
          && after.row.Some? && after.row.value.attemptNo >= before.row.value.attemptNo
          && (before.row.value.status == Succeeded ==> after.row == before.row))
  }

  // A step that leaves the row and the counters alone and its actor not in flight.
  lemma {:induction false} QuietStepKeeps(s: State, a: ActorId, next: Actor)
    requires Inv(s) && !InFlight(next) && ActorOk(Goes(s, a, next), a)
    ensures Inv(Goes(s, a, next)) && Progresses(s, Goes(s, a, next))
  {
    var s' := Goes(s, a, next);
    forall b ensures ActorOk(s', b) {
      assert ActorOk(s, b);
    }
    forall b, c ensures Exclusive(s', b, c) {
      assert Exclusive(s, b, c);
    }
  }

  // A step that creates attempt `n` and makes its actor the sender of it.
  lemma {:induction false} CreateStepKeeps(
      s: State, a: ActorId, row: Row, localNo: nat, maxNo: nat, confirmations: nat, misjudged: nat)
    requires Inv(s)
    requires s.row.None? || (s.row.value.status != Pending && s.row.value.status != Succeeded)
    requires row == Row(Pending, if s.row.None? then 1 else s.row.value.attemptNo + 1)
    requires 1 <= localNo <= row.attemptNo
    requires confirmations - s.confirmations >= misjudged - s.misjudged >= 0
    requires s.accepted <= misjudged
    ensures var s' := Goes(s.(row := Some(row), confirmations := confirmations, misjudged := misjudged), a,
                           Sending(localNo, row.attemptNo, maxNo));
            Inv(s') && Progresses(s, s')
  {
    var s' := Goes(s.(row := Some(row), confirmations := confirmations, misjudged := misjudged), a,
                   Sending(localNo, row.attemptNo, maxNo));
    forall b ensures ActorOk(s', b) {
      assert ActorOk(s, b);
    }
    forall b, c ensures Exclusive(s', b, c) {
      assert ActorOk(s, b) && ActorOk(s, c);
    }
  }

  lemma {:induction false} SendKeeps(s: State, a: ActorId, answer: Answer)
    requires Inv(s) && ActorAt(s, a).Sending?
    ensures Inv(Next(s, Send(a, answer))) && Progresses(s, Next(s, Send(a, answer)))
  {
    var s' := Next(s, Send(a, answer));
    assert ActorOk(s, a);
    forall b ensures ActorOk(s', b) {
      assert ActorOk(s, b) && Exclusive(s, a, b);
    }
    forall b, c ensures Exclusive(s', b, c) {
      assert Exclusive(s, b, c);
    }
  }

  // Fencing: a report changes the row exactly when the reporter's own step created the row's
  // attempt and its number does not lag.
  lemma {:induction false} ReportLandsOnlyFromItsCreator(s: State, a: ActorId)
    requires Inv(s) && ActorAt(s, a).Reporting?
    ensures s.row.Some?
    ensures var Reporting(localNo, createdNo, maxNo, answer) := ActorAt(s, a);
            && createdNo == s.row.value.attemptNo
            && (Next(s, Report(a)).row != s.row <==> localNo == createdNo)
  {
    assert ActorOk(s, a);
  }

  lemma {:induction false} ReportKeeps(s: State, a: ActorId)
    requires Inv(s) && ActorAt(s, a).Reporting?
    ensures Inv(Next(s, Report(a))) && Progresses(s, Next(s, Report(a)))
  {
    var s' := Next(s, Report(a));
    assert ActorOk(s, a);
    forall b ensures ActorOk(s', b) {
      assert ActorOk(s, b) && Exclusive(s, a, b);
    }
    forall b, c ensures Exclusive(s', b, c) {
      assert Exclusive(s, b, c);
    }
  }

  lemma {:induction false} TryResumeKeeps(s: State, a: ActorId)
    requires Inv(s) && ActorAt(s, a).Resuming?
    ensures Inv(Next(s, TryResume(a))) && Progresses(s, Next(s, TryResume(a)))
  {
    assert ActorOk(s, a);
    var Resuming(localNo, maxNo) := ActorAt(s, a);
    if s.row.value.status in s.resumable {
      CreateStepKeeps(s, a, Row(Pending, s.row.value.attemptNo + 1), localNo + 1, maxNo, s.confirmations, s.misjudged);
    } else {
      QuietStepKeeps(s, a, Reloading);
    }
  }

  lemma {:induction false} TryAuthorizeKeeps(s: State, a: ActorId)
    requires Inv(s) && ActorAt(s, a).Reviewed?
    ensures Inv(Next(s, TryAuthorize(a))) && Progresses(s, Next(s, TryAuthorize(a)))
  {
    assert ActorOk(s, a);
    var Reviewed(seenNo, confirmed) := ActorAt(s, a);
    var s' := Next(s, TryAuthorize(a));
    if Authorize(s.row.value, seenNo, confirmed).1 {
      CreateStepKeeps(s, a, Row(Pending, s.row.value.attemptNo + 1), seenNo + 1, seenNo + 1,
                      s'.confirmations, s'.misjudged);
    } else {
      QuietStepKeeps(s, a, Rejected("DELIVERY_RETRY_CONFLICT"));
    }
  }

  lemma {:induction false} StartDeliverKeeps(s: State, a: ActorId, maxAttempts: nat)
    requires Inv(s) && AtRest(ActorAt(s, a))
    ensures Inv(Next(s, StartDeliver(a, maxAttempts))) && Progresses(s, Next(s, StartDeliver(a, maxAttempts)))
  {
    if s.row.None? {
      CreateStepKeeps(s, a, Row(Pending, 1), 1, maxAttempts, s.confirmations, s.misjudged);
    } else {
      assert s.(row := s.row) == s;
      QuietStepKeeps(s, a, Loading(maxAttempts));
    }
  }

  lemma {:induction false} StartManualKeeps(s: State, a: ActorId, confirmed: bool, maxTotal: nat)
    requires Inv(s) && AtRest(ActorAt(s, a))
    ensures var s' := Next(s, StartManual(a, confirmed, maxTotal)); Inv(s') && Progresses(s, s')
  {
    QuietStepKeeps(s, a, ActorAt(Next(s, StartManual(a, confirmed, maxTotal)), a));
  }

  lemma {:induction false} LookKeeps(s: State, step: Step)
    requires Inv(s) && (step.LoadExisting? || step.Reload? || step.Crash?)
    ensures Inv(Next(s, step)) && Progresses(s, Next(s, step))
  {
    assert ActorOk(s, step.actor);
    if Next(s, step) != s {
      QuietStepKeeps(s, step.actor, ActorAt(Next(s, step), step.actor));
    }
  }

  lemma {:induction false} NextKeeps(s: State, step: Step)
    requires Inv(s)
    ensures Inv(Next(s, step)) && Progresses(s, Next(s, step))
  {
    var a := step.actor;
    match step
    case StartDeliver(_, maxAttempts) => if AtRest(ActorAt(s, a)) { StartDeliverKeeps(s, a, maxAttempts); }
    case TryResume(_) => if ActorAt(s, a).Resuming? { TryResumeKeeps(s, a); }
    case StartManual(_, confirmed, maxTotal) =>
      if AtRest(ActorAt(s, a)) { StartManualKeeps(s, a, confirmed, maxTotal); }
    case TryAuthorize(_) => if ActorAt(s, a).Reviewed? { TryAuthorizeKeeps(s, a); }
    case Send(_, answer) => if ActorAt(s, a).Sending? { SendKeeps(s, a, answer); }
    case Report(_) => if ActorAt(s, a).Reporting? { ReportKeeps(s, a); }
    case _ => LookKeeps(s, step);
  }

  // ---- Every interleaving --------------------------------------------------------------------

  lemma {:induction false} RunKeeps(s: State, steps: seq<Step>)
    requires Inv(s)
    ensures Inv(Run(s, steps)) && Progresses(s, Run(s, steps))
    decreases |steps|
  {
    if steps != [] {
      NextKeeps(s, steps[0]);
      RunKeeps(Next(s, steps[0]), steps[1..]);
    }
  }

  lemma {:induction false} InitHolds(resumable: set<Status>)
    requires resumable <= REPORT_RESUMABLE
    ensures Inv(Init(resumable))
  {}

  // At most once: the chat gets one card, and one more only for each manual retry that was
  // confirmed from an uncertain row although a card had arrived.
  lemma {:induction false} AtMostOnceDelivery(resumable: set<Status>, steps: seq<Step>)
    requires resumable <= REPORT_RESUMABLE
    ensures var s := Run(Init(resumable), steps);
            && s.accepted <= 1 + s.misjudged <= 1 + s.confirmations
            && (s.row.Some? ==> s.sends <= s.row.value.attemptNo)
  {
    InitHolds(resumable);
    RunKeeps(Init(resumable), steps);
  }

  // At most one sender is between creating an attempt and reporting it, and it holds the
  // newest attempt of the row.
  lemma {:induction false} OneSendInFlight(resumable: set<Status>, steps: seq<Step>, a: ActorId, b: ActorId)
    requires resumable <= REPORT_RESUMABLE
    requires InFlight(ActorAt(Run(Init(resumable), steps), a)) && InFlight(ActorAt(Run(Init(resumable), steps), b))
    ensures var s := Run(Init(resumable), steps);
            && a == b
            && s.row == Some(Row(Pending, ActorAt(s, a).createdNo))
            && ActorAt(s, a).localNo <= ActorAt(s, a).createdNo
  {
    InitHolds(resumable);
    RunKeeps(Init(resumable), steps);
    var s := Run(Init(resumable), steps);
    assert Exclusive(s, a, b) && ActorOk(s, a);
  }

  // Nobody is ever told that a delivery succeeded unless its row has succeeded, for good.
  lemma {:induction false} ReportedSuccessIsFinal(
      resumable: set<Status>, steps: seq<Step>, more: seq<Step>, a: ActorId)
    requires resumable <= REPORT_RESUMABLE
    requires ActorAt(Run(Init(resumable), steps), a).Returned?
    requires ActorAt(Run(Init(resumable), steps), a).seen.status == Succeeded
    ensures var s := Run(Init(resumable), steps);
            && s.row.Some? && s.row.value.status == Succeeded
            && Run(s, more).row == s.row
  {
    InitHolds(resumable);
    RunKeeps(Init(resumable), steps);
    var s := Run(Init(resumable), steps);
    assert ActorOk(s, a);
    RunKeeps(s, more);
  }

  // A row left pending by a crash stays as it is: nobody sends for it again.
  lemma {:induction false} AbandonedAttemptIsNeverResent(s: State, steps: seq<Step>)
    requires Inv(s) && s.row.Some? && s.row.value.status == Pending
    requires forall a :: !InFlight(ActorAt(s, a))
    ensures var later := Run(s, steps);
            && later.row == s.row && later.sends == s.sends && later.accepted == s.accepted
            && forall a :: !InFlight(ActorAt(later, a))
    decreases |steps|
  {
    if steps != [] {
      NextKeeps(s, steps[0]);
      var s' := Next(s, steps[0]);
      assert !InFlight(ActorAt(s, steps[0].actor));
      forall a ensures !InFlight(ActorAt(s', a)) {
        assert !InFlight(ActorAt(s, a));
      }
      AbandonedAttemptIsNeverResent(s', steps[1..]);
    }
  }

  // One step more at the end of a run.
  lemma {:induction false} RunIsStepwise(s: State, steps: seq<Step>, step: Step)
    returns (longer: seq<Step>, next: State)
    ensures longer == steps + [step] && next == Run(s, longer) == Next(Run(s, steps), step)
    decreases |steps|
  {
    longer, next := steps + [step], Next(Run(s, steps), step);
    if steps != [] {
      assert (steps + [step])[1..] == steps[1..] + [step];
      var _, _ := RunIsStepwise(Next(s, steps[0]), steps[1..], step);
    }
  }

  // Two senders come to wait for the same row: 0 was refused its first send, and 1 found the
  // row waiting.
  lemma {:induction false} BothWait(maxNo: nat) returns (steps: seq<Step>, s: State)
    requires maxNo > 2
    ensures s == Run(Init(REPORT_RESUMABLE), steps)
    ensures s.resumable == REPORT_RESUMABLE && s.row == Some(Row(RetryWait, 1))
    ensures ActorAt(s, 0) == Resuming(1, maxNo) && ActorAt(s, 1) == Resuming(1, maxNo)
  {
    var s0 := Init(REPORT_RESUMABLE);
    steps, s := RunIsStepwise(s0, [], StartDeliver(0, maxNo));
    assert ActorAt(s, 0) == Sending(1, 1, maxNo);
    steps, s := RunIsStepwise(s0, steps, Send(0, Refused(true)));
    assert ActorAt(s, 0) == Reporting(1, 1, maxNo, Refused(true));
    steps, s := RunIsStepwise(s0, steps, Report(0));
    assert ActorAt(s, 0) == Resuming(1, maxNo);
    steps, s := RunIsStepwise(s0, steps, StartDeliver(1, maxNo));
    assert ActorAt(s, 1) == Loading(maxNo);
    steps, s := RunIsStepwise(s0, steps, LoadExisting(1));
  }

  // ... then 1 resumes and is refused again.
  lemma {:induction false} OneOvertakes(maxNo: nat) returns (steps: seq<Step>, s: State)
    requires maxNo > 2
    ensures s == Run(Init(REPORT_RESUMABLE), steps)
    ensures s.resumable == REPORT_RESUMABLE && s.row == Some(Row(RetryWait, 2))
    ensures ActorAt(s, 0) == Resuming(1, maxNo)
  {
    var s0 := Init(REPORT_RESUMABLE);
    steps, s := BothWait(maxNo);
    steps, s := RunIsStepwise(s0, steps, TryResume(1));
    assert ActorAt(s, 1) == Sending(2, 2, maxNo) && ActorAt(s, 0) == Resuming(1, maxNo);
    steps, s := RunIsStepwise(s0, steps, Send(1, Refused(true)));
    assert ActorAt(s, 1) == Reporting(2, 2, maxNo, Refused(true)) && s.row == Some(Row(Pending, 2));
    steps, s := RunIsStepwise(s0, steps, Report(1));
  }

  // The resume does not compare attempt numbers. When 0 wakes up in this run it believes in
  // attempt 2 while its own step put attempt 3 into the row, so whatever it reports is not
  // recorded.
  lemma {:induction false} LocalNumberCanLag(maxNo: nat, answer: Answer) returns (steps: seq<Step>)
    requires maxNo > 2
    ensures var s := Run(Init(REPORT_RESUMABLE), steps);
            && ActorAt(s, 0) == Sending(2, 3, maxNo) && s.row == Some(Row(Pending, 3))
            && Next(Next(s, Send(0, answer)), Report(0)).row == s.row
  {
    var s;
    steps, s := OneOvertakes(maxNo);
    steps, s := RunIsStepwise(Init(REPORT_RESUMABLE), steps, TryResume(0));
    LaggingReportIsLost(s, 2, 3, maxNo, answer);
  }

  lemma {:induction false} LaggingReportIsLost(s: State, localNo: nat, createdNo: nat, maxNo: nat, answer: Answer)
    requires ActorAt(s, 0) == Sending(localNo, createdNo, maxNo) && localNo < createdNo
    requires s.row == Some(Row(Pending, createdNo))
    ensures Next(Next(s, Send(0, answer)), Report(0)).row == s.row
  {}

  // One send counts as a send, and as a card exactly if the transport accepted it or, with an
  // unknown outcome, it arrived after all.
  lemma {:induction false} SendIsCounted(s: State, a: ActorId, answer: Answer)
    requires ActorAt(s, a).Sending?
    ensures var s' := Next(s, Send(a, answer));
            && s'.sends == s.sends + 1
            && s'.accepted == s.accepted + (if answer == Accepted || answer == Unknown(true) then 1 else 0)
  {}

  // A delivery that finds the row goes on only from a waiting one with attempts left; a caller that
  // lost the row is given it as it stands. Neither sends.
  lemma {:induction false} FoundRowDecides(s: State, a: ActorId)
    requires s.row.Some?
    requires ActorAt(s, a).Loading? || ActorAt(s, a).Reloading?
    ensures var s' := Next(s, if ActorAt(s, a).Loading? then LoadExisting(a) else Reload(a));
            && s'.row == s.row && s'.sends == s.sends
            && (match ActorAt(s, a)
                case Loading(last) =>
                  if s.row.value.status == RetryWait && s.row.value.attemptNo < last
                  then ActorAt(s', a) == Resuming(s.row.value.attemptNo, last)
                  else ActorAt(s', a) == Returned(s.row.value)
                case _ => ActorAt(s', a) == Returned(s.row.value))
  {}

  // A confirmed retry is misjudged exactly when it was taken from an uncertain row although a card
  // had arrived.
  lemma {:induction false} MisjudgedIsCounted(s: State, a: ActorId)
    requires ActorAt(s, a).Reviewed? && s.row.Some?
    ensures var s' := Next(s, TryAuthorize(a));
            && (s'.confirmations == s.confirmations + 1 <==>
                  s'.row != s.row && s.row.value.status == Uncertain)
            && (s'.misjudged == s.misjudged + 1 <==>
                  s'.row != s.row && s.row.value.status == Uncertain && s.accepted >= 1)
            && s.confirmations <= s'.confirmations <= s.confirmations + 1
            && s.misjudged <= s'.misjudged <= s.misjudged + 1
  {}

  // An authorized retry compares the reviewed attempt: it lands exactly if the row still is that
  // attempt and may still be retried, and is a conflict otherwise.
  lemma {:induction false} ReviewIsCompared(s: State, a: ActorId)
    requires ActorAt(s, a).Reviewed? && s.row.Some?
    ensures var Reviewed(seenNo, confirmed) := ActorAt(s, a);
            var s' := Next(s, TryAuthorize(a));
            if s.row.value.attemptNo == seenNo
               && (s.row.value.status in {Failed, RetryWait} || (s.row.value.status == Uncertain && confirmed))
            then && s'.row == Some(Row(Pending, seenNo + 1))
                 && ActorAt(s', a) == Sending(seenNo + 1, seenNo + 1, seenNo + 1)
            else s'.row == s.row && ActorAt(s', a) == Rejected("DELIVERY_RETRY_CONFLICT")
  {}

  // A manual retry reviews the row it finds: it is told why not, or goes on with that attempt.
  lemma {:induction false} ReviewGoesByTheRow(s: State, a: ActorId, confirmed: bool, maxTotal: nat)
    requires ActorAt(s, a).Idle? || ActorAt(s, a).Returned? || ActorAt(s, a).Rejected?
    ensures var actor := ActorAt(Next(s, StartManual(a, confirmed, maxTotal)), a);
            match s.row
            case None => actor == Rejected("DELIVERY_ATTEMPT_NOT_FOUND")
            case Some(Row(Succeeded, n)) => actor == Returned(Row(Succeeded, n))
            case Some(Row(Pending, _)) => actor == Rejected("DELIVERY_ATTEMPT_IN_PROGRESS")
            case Some(Row(status, n)) =>
              if status == Uncertain && !confirmed then actor == Rejected("DELIVERY_ABSENCE_CONFIRMATION_REQUIRED")
              else if n >= maxTotal then actor == Rejected("DELIVERY_RETRY_LIMIT_EXHAUSTED")
              else actor == Reviewed(n, confirmed)
  {}

  // ---- Workflow alerts: no manual retry, and a failed alert is not resumed -------------------

  ghost predicate AlertSteps(steps: seq<Step>) {
    forall step <- steps :: !step.StartManual?
  }

  ghost predicate NobodyReviews(s: State) {
    forall a :: !ActorAt(s, a).Reviewed?
  }

  lemma {:induction false} AlertRunsAreFinal(s: State, steps: seq<Step>)
    requires Inv(s) && s.resumable == ALERT_RESUMABLE && NobodyReviews(s) && AlertSteps(steps)
    ensures var later := Run(s, steps);
            && later.confirmations == s.confirmations && later.misjudged == s.misjudged
            && (s.row.Some? && s.row.value.status in {Failed, Uncertain, Succeeded} ==> later.row == s.row)
    decreases |steps|
  {
    if steps != [] {
      assert steps[0] in steps;
      NextKeeps(s, steps[0]);
      var s' := Next(s, steps[0]);
      assert ActorOk(s, steps[0].actor);
      forall a ensures !ActorAt(s', a).Reviewed? {
        assert !ActorAt(s, a).Reviewed?;
      }
      AlertRunsAreFinal(s', steps[1..]);
    }
  }

  // An alert card arrives at most once, whatever senders overlap or crash.
  lemma {:induction false} AlertsArriveAtMostOnce(steps: seq<Step>)
    requires AlertSteps(steps)
    ensures Run(Init(ALERT_RESUMABLE), steps).accepted <= 1
  {
    InitHolds(ALERT_RESUMABLE);
    AlertRunsAreFinal(Init(ALERT_RESUMABLE), steps);
    AtMostOnceDelivery(ALERT_RESUMABLE, steps);
  }
}
