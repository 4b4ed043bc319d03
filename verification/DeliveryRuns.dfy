/** What the interleaving protocol does when one actor has the row to itself: it gets through, and
    ends as the sender loops do. */
module DeliveryRuns {
  import opened Prelude
  import opened DeliveryRow
  import opened DeliveryProtocol
  import Loops = DeliveryService

  lemma {:induction false} RunAppends(s: State, steps: seq<Step>, more: seq<Step>)
    ensures Run(s, steps + more) == Run(Run(s, steps), more)
    decreases |steps|
  {
    if steps == [] {
      assert steps + more == more;
    } else {
      assert (steps + more)[1..] == steps[1..] + more;
      RunAppends(Next(s, steps[0]), steps[1..], more);
    }
  }

  lemma {:induction false} RunTwo(s: State, one: Step, two: Step)
    ensures Run(s, [one, two]) == Next(Next(s, one), two)
  {
    assert [one, two][1..] == [two] && [two][1..] == [];
    assert Run(Next(s, one), [two]) == Run(Next(Next(s, one), two), []);
  }

  ghost predicate OnlyOf(steps: seq<Step>, a: ActorId) {
    forall step <- steps :: step.actor == a
  }

  // How many cards the chat gets from attempts `n` to `last`.
  function Arrivals(answers: nat -> Answer, n: nat, last: nat): nat
    requires n <= last + 1
    decreases last + 1 - n
  {
    if n > last then 0 else (if answers(n).Arrived() then 1 else 0) + Arrivals(answers, n + 1, last)
  }

  // A sender alone with its attempt sends, reports and resumes until the transport settles it.
  lemma {:induction false} SenderAlone(s: State, a: ActorId, answers: nat -> Answer, n: nat, maxNo: nat)
    returns (steps: seq<Step>)
    requires ActorAt(s, a) == Sending(n, n, maxNo) && s.row == Some(Row(Pending, n)) && n <= maxNo
    requires RetryWait in s.resumable
    ensures OnlyOf(steps, a)
    ensures var end, row := Run(s, steps), Loops.SendingAlone(answers, n, maxNo);
            && end.row == Some(row) && ActorAt(end, a) == Returned(row)
            && row.attemptNo >= n && end.sends == s.sends + row.attemptNo - n + 1
            && end.accepted == s.accepted + Arrivals(answers, n, row.attemptNo)
    decreases maxNo - n
  {
    var sent := Next(s, Send(a, answers(n)));
    var reported := Next(sent, Report(a));
    RunTwo(s, Send(a, answers(n)), Report(a));
    steps := [Send(a, answers(n)), Report(a)];
    Loops.SendingAloneStops(answers, n, maxNo);
    if StatusAfter(answers(n), n, maxNo) == RetryWait {
      var resumed := Next(reported, TryResume(a));
      assert ActorAt(resumed, a) == Sending(n + 1, n + 1, maxNo);
      RunTwo(reported, TryResume(a), TryResume(a));
      assert [TryResume(a)][1..] == [] && Run(reported, [TryResume(a)]) == resumed;
      var rest := SenderAlone(resumed, a, answers, n + 1, maxNo);
      RunAppends(reported, [TryResume(a)], rest);
      RunAppends(s, steps, [TryResume(a)] + rest);
      steps := steps + ([TryResume(a)] + rest);
    } else {
      assert Arrivals(answers, n + 1, n) == 0;
    }
  }

  // Delivering with nobody beside ends as the loop of deliver does.
  lemma {:induction false} DeliveryAlone(resumable: set<Status>, a: ActorId, answers: nat -> Answer, maxAttempts: nat)
    returns (steps: seq<Step>)
    requires RetryWait in resumable && maxAttempts >= 1
    ensures OnlyOf(steps, a)
    ensures var end, row := Run(Init(resumable), steps), Loops.SendingAlone(answers, 1, maxAttempts);
            && end.row == Some(row) && ActorAt(end, a) == Returned(row)
            && end.sends == row.attemptNo && end.accepted == Arrivals(answers, 1, row.attemptNo)
  {
    var started := Next(Init(resumable), StartDeliver(a, maxAttempts));
    var rest := SenderAlone(started, a, answers, 1, maxAttempts);
    steps := [StartDeliver(a, maxAttempts)] + rest;
    assert steps[1..] == rest;
  }

  // A waiting row is picked up by the next delivery.
  lemma {:induction false} WaitingRowAlone(s: State, a: ActorId, answers: nat -> Answer, maxAttempts: nat)
    returns (steps: seq<Step>)
    requires ActorAt(s, a).Idle? || ActorAt(s, a).Returned? || ActorAt(s, a).Rejected?
    requires s.row.Some? && s.row.value.status == RetryWait
    requires s.row.value.attemptNo < maxAttempts && RetryWait in s.resumable
    ensures OnlyOf(steps, a)
    ensures var row := Loops.SendingAlone(answers, s.row.value.attemptNo + 1, maxAttempts);
            Run(s, steps).row == Some(row) && ActorAt(Run(s, steps), a) == Returned(row)
  {
    var n := s.row.value.attemptNo;
    var loading := Next(s, StartDeliver(a, maxAttempts));
    var found := Next(loading, LoadExisting(a));
    assert ActorAt(found, a) == Resuming(n, maxAttempts);
    var resumed := Next(found, TryResume(a));
    assert ActorAt(resumed, a) == Sending(n + 1, n + 1, maxAttempts);
    var rest := SenderAlone(resumed, a, answers, n + 1, maxAttempts);
    RunTwo(s, StartDeliver(a, maxAttempts), LoadExisting(a));
    assert ([TryResume(a)] + rest)[1..] == rest;
    RunAppends(s, [StartDeliver(a, maxAttempts), LoadExisting(a)], [TryResume(a)] + rest);
    steps := [StartDeliver(a, maxAttempts), LoadExisting(a)] + ([TryResume(a)] + rest);
  }

  // A manual retry alone sends the next attempt once and records what became of it.
  lemma {:induction false} ManualRetryAlone(s: State, a: ActorId, confirmed: bool, maxTotal: nat, answer: Answer)
    requires ActorAt(s, a).Idle? || ActorAt(s, a).Returned? || ActorAt(s, a).Rejected?
    requires s.row.Some?
    requires s.row.value.status in {Failed, RetryWait} || (s.row.value.status == Uncertain && confirmed)
    requires s.row.value.attemptNo < maxTotal
    ensures var end := Run(s, [StartManual(a, confirmed, maxTotal), TryAuthorize(a)] + [Send(a, answer), Report(a)]);
            && end.row.Some? && end.row.value.attemptNo == s.row.value.attemptNo + 1
            && ActorAt(end, a) == Returned(end.row.value)
            && (end.row.value.status == Succeeded <==> answer == Accepted)
            && (end.row.value.status == Uncertain <==> answer.Unknown?)
            && (end.row.value.status == Failed <==> answer.Refused?)
            && end.sends == s.sends + 1
            && end.confirmations == s.confirmations + (if s.row.value.status == Uncertain then 1 else 0)
  {
    var n := s.row.value.attemptNo;
    var first := [StartManual(a, confirmed, maxTotal), TryAuthorize(a)];
    RunTwo(s, StartManual(a, confirmed, maxTotal), TryAuthorize(a));
    var authorized := Run(s, first);
    assert ActorAt(Next(s, StartManual(a, confirmed, maxTotal)), a) == Reviewed(n, confirmed);
    assert ActorAt(authorized, a) == Sending(n + 1, n + 1, n + 1);
    RunTwo(authorized, Send(a, answer), Report(a));
    RunAppends(s, first, [Send(a, answer), Report(a)]);
  }
}
