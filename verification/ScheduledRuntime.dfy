/** The schedule loop of one process: when a report date is run, retried and given up. */
module ScheduledRuntime {
  import opened Prelude
  import opened ScheduledWorker

  // Local wall-clock seconds; nothing is assumed about how successive readings compare.
  type LocalTime = real

  const DAY := 86400

  function DateOf(t: LocalTime): (date: int)
    ensures (date * 86400) as real <= t < ((date + 1) * 86400) as real
  {
    t.Floor / DAY
  }

  function TimeOfDay(t: LocalTime): (time: real)
    ensures 0.0 <= time < 86400.0
  {
    t - (DateOf(t) * DAY) as real
  }

  datatype Config = Config(
    startTime: real, pollSeconds: nat, retryDelay: real, maxReportAttempts: nat, retries: Retries)
  {
    // The loop refuses to start with less than one attempt.
    predicate Valid() { maxReportAttempts >= 1 && retries.Valid() }
  }

  datatype Event =
    | Ran(date: int, status: Status, tries: seq<nat>, at: LocalTime)
    | Exhausted(date: int)
    | Slept

  datatype State = State(
    completed: set<int>, attempts: map<int, nat>, nextAt: map<int, LocalTime>, journal: seq<Event>)

  const INITIAL := State({}, map[], map[], [])

  function Attempts(s: State, date: int): nat {
    if date in s.attempts then s.attempts[date] else 0
  }

  predicate Due(s: State, c: Config, now: LocalTime) {
    && TimeOfDay(now) >= c.startTime
    && DateOf(now) !in s.completed
    && (DateOf(now) in s.nextAt ==> now >= s.nextAt[DateOf(now)])
  }

  function Delay(c: Config, status: Status, attemptNo: nat): real {
    if status == Locked then c.pollSeconds as real
    else c.retryDelay * Power(if attemptNo == 0 then 0 else attemptNo - 1) as real
  }

  function AfterRun(s: State, c: Config, now: LocalTime, status: Status, tries: seq<nat>): State {
    var date := DateOf(now);
    var journal := s.journal + [Ran(date, status, tries, now)];
    if Terminal(status) then
      State(s.completed + {date}, s.attempts - {date}, s.nextAt - {date}, journal)
    else
      var attemptNo := Attempts(s, date) + 1;
      var attempts := s.attempts[date := attemptNo];
      if attemptNo >= c.maxReportAttempts then
        State(s.completed + {date}, attempts, s.nextAt - {date}, journal + [Exhausted(date)])
      else
        State(s.completed, attempts, s.nextAt[date := now + Delay(c, status, attemptNo)], journal)
  }

  // One pass of the loop. `meets(k)` is what the run would meet that starts after k events.
  function Tick(s: State, c: Config, meets: nat -> Encounter, now: LocalTime): State
    requires c.Valid()
  {
    if Due(s, c, now) then
      var (status, tries) := Outcome(meets(|s.journal|), c.retries);
      AfterRun(s, c, now, status, tries)
    else s.(journal := s.journal + [Slept])
  }

  function Ticks(c: Config, meets: nat -> Encounter, clock: seq<LocalTime>): State
    requires c.Valid()
  {
    if clock == [] then INITIAL
    else Tick(Ticks(c, meets, clock[..|clock| - 1]), c, meets, clock[|clock| - 1])
  }

  // _run_configured_schedule, over as many clock readings as the process lives to see.
  method RunSchedule(c: Config, meets: nat -> Encounter, clock: seq<LocalTime>) returns (journal: seq<Event>)
    requires c.Valid()
    ensures journal == Ticks(c, meets, clock).journal
  {
    var completedDates: set<int> := {};
    var retryAttempts: map<int, nat> := map[];
    var nextAttemptAt: map<int, LocalTime> := map[];
    journal := [];
    for n := 0 to |clock|
      invariant Ticks(c, meets, clock[..n]) == State(completedDates, retryAttempts, nextAttemptAt, journal)
    {
      assert clock[..n + 1][..n] == clock[..n];
      var now := clock[n];
      var date := DateOf(now);
      if TimeOfDay(now) >= c.startTime && date !in completedDates
         && (date !in nextAttemptAt || now >= nextAttemptAt[date]) {
        var status, tries := RunForDate(meets(|journal|), c.retries);
        journal := journal + [Ran(date, status, tries, now)];
        if Terminal(status) {
          completedDates := completedDates + {date};
          retryAttempts := retryAttempts - {date};
          nextAttemptAt := nextAttemptAt - {date};
        } else {
          var attemptNo := (if date in retryAttempts then retryAttempts[date] else 0) + 1;
          retryAttempts := retryAttempts[date := attemptNo];
          if attemptNo >= c.maxReportAttempts {
            journal := journal + [Exhausted(date)];
            completedDates := completedDates + {date};
            nextAttemptAt := nextAttemptAt - {date};
          } else {
            nextAttemptAt := nextAttemptAt[date := now + Delay(c, status, attemptNo)];
          }
        }
      } else {
        journal := journal + [Slept];
      }
    }
    assert clock[..|clock|] == clock;
  }

  // ---- What the journal can hold ------------------------------------------------------------------

  predicate IsRun(e: Event, date: int) { e.Ran? && e.date == date }

  function Runs(journal: seq<Event>, date: int): nat {
    if journal == [] then 0
    else Runs(journal[..|journal| - 1], date) + if IsRun(journal[|journal| - 1], date) then 1 else 0
  }

  function Notices(journal: seq<Event>, date: int): nat {
    if journal == [] then 0
    else Notices(journal[..|journal| - 1], date) + if journal[|journal| - 1] == Exhausted(date) then 1 else 0
  }

  // How often the k-th task of a date was tried over all of the date's runs.
  function Tried(journal: seq<Event>, date: int, k: nat): nat {
    if journal == [] then 0
    else
      var last := journal[|journal| - 1];
      Tried(journal[..|journal| - 1], date, k)
      + if IsRun(last, date) && k < |last.tries| then last.tries[k] else 0
  }

  // The time of the last run of a date.
  function LastRun(journal: seq<Event>, date: int): (last: Option<Event>)
    ensures last.Some? ==> IsRun(last.value, date)
  {
    if journal == [] then None
    else if IsRun(journal[|journal| - 1], date) then Some(journal[|journal| - 1])
    else LastRun(journal[..|journal| - 1], date)
  }

  // What the loop's variables say about one date and its part of the journal.
  ghost predicate Tracks(s: State, c: Config, date: int) {
    var runs := Runs(s.journal, date);
    var last := LastRun(s.journal, date);
    if date !in s.completed then
      && Attempts(s, date) == runs < c.maxReportAttempts && Notices(s.journal, date) == 0
      && (runs == 0 <==> last.None?)
      && (last.Some? ==>
            && !Terminal(last.value.status)
            && date in s.nextAt && s.nextAt[date] == last.value.at + Delay(c, last.value.status, runs))
      && (last.None? ==> date !in s.nextAt)
    else
      && last.Some? && 1 <= runs <= c.maxReportAttempts
      && Notices(s.journal, date) == (if Terminal(last.value.status) then 0 else 1)
      && (!Terminal(last.value.status) ==> runs == c.maxReportAttempts)
  }

  lemma {:induction false} Appended(journal: seq<Event>, e: Event, date: int, k: nat)
    ensures Runs(journal + [e], date) == Runs(journal, date) + if IsRun(e, date) then 1 else 0
    ensures Notices(journal + [e], date) == Notices(journal, date) + if e == Exhausted(date) then 1 else 0
    ensures LastRun(journal + [e], date) == if IsRun(e, date) then Some(e) else LastRun(journal, date)
    ensures Tried(journal + [e], date, k)
         == Tried(journal, date, k) + if IsRun(e, date) && k < |e.tries| then e.tries[k] else 0
  {
    assert (journal + [e])[..|journal|] == journal;
  }

  // What one run adds to the journal, notice included.
  lemma {:induction false} JournalAfterRun(
      s: State, c: Config, now: LocalTime, status: Status, tries: seq<nat>, date: int, k: nat)
    requires c.Valid()
    ensures var journal := AfterRun(s, c, now, status, tries).journal;
            var here := DateOf(now) == date;
            var gaveUp := !Terminal(status) && Attempts(s, date) + 1 >= c.maxReportAttempts;
            && Runs(journal, date) == Runs(s.journal, date) + (if here then 1 else 0)
            && Notices(journal, date) == Notices(s.journal, date) + (if here && gaveUp then 1 else 0)
            && LastRun(journal, date)
               == (if here then Some(Ran(date, status, tries, now)) else LastRun(s.journal, date))
            && Tried(journal, date, k)
               == Tried(s.journal, date, k) + (if here && k < |tries| then tries[k] else 0)
  {
    var ran := Ran(DateOf(now), status, tries, now);
    Appended(s.journal, ran, date, k);
    Appended(s.journal + [ran], Exhausted(DateOf(now)), date, k);
  }

  lemma {:induction false} TickTracks(s: State, c: Config, meets: nat -> Encounter, now: LocalTime, date: int)
    requires c.Valid() && Tracks(s, c, date)
    ensures Tracks(Tick(s, c, meets, now), c, date)
  {
    if Due(s, c, now) {
      var (status, tries) := Outcome(meets(|s.journal|), c.retries);
      RunTracks(s, c, now, status, tries, date);
    } else {
      Appended(s.journal, Slept, date, 0);
    }
  }

  lemma {:induction false} RunTracks(s: State, c: Config, now: LocalTime, status: Status, tries: seq<nat>, date: int)
    requires c.Valid() && Tracks(s, c, date) && DateOf(now) !in s.completed
    ensures Tracks(AfterRun(s, c, now, status, tries), c, date)
  {
    JournalAfterRun(s, c, now, status, tries, date, 0);
    var after := AfterRun(s, c, now, status, tries);
    if DateOf(now) != date {
      assert date in after.completed <==> date in s.completed;
      assert Attempts(after, date) == Attempts(s, date);
      assert date in after.nextAt <==> date in s.nextAt;
    }
  }

  lemma {:induction false} TicksTrack(c: Config, meets: nat -> Encounter, clock: seq<LocalTime>, date: int)
    requires c.Valid()
    ensures Tracks(Ticks(c, meets, clock), c, date)
  {
    if clock != [] {
      TicksTrack(c, meets, clock[..|clock| - 1], date);
      TickTracks(Ticks(c, meets, clock[..|clock| - 1]), c, meets, clock[|clock| - 1], date);
    }
  }

  // For any clock and any outcomes, a date is run at most max_report_attempts times. It is
  // reported exhausted at most once, exactly when all of those runs were used up and the last
  // of them settled nothing.
  lemma {:induction false} AttemptsAreBounded(c: Config, meets: nat -> Encounter, clock: seq<LocalTime>, date: int)
    requires c.Valid()
    ensures var journal := Ticks(c, meets, clock).journal;
            var last := LastRun(journal, date);
            && Runs(journal, date) <= c.maxReportAttempts
            && Notices(journal, date) <= 1
            && (Notices(journal, date) == 1 <==>
                  Runs(journal, date) == c.maxReportAttempts && last.Some? && !Terminal(last.value.status))
  {
    TicksTrack(c, meets, clock, date);
  }

  // Nothing about the date happened between the two states.
  ghost predicate Leaves(before: State, after: State, date: int) {
    && date in after.completed
    && Runs(after.journal, date) == Runs(before.journal, date)
    && Notices(after.journal, date) == Notices(before.journal, date)
  }

  lemma {:induction false} LeavesTransitive(a: State, b: State, c: State, date: int)
    requires Leaves(a, b, date) && Leaves(b, c, date)
    ensures Leaves(a, c, date)
  {}

  function More(s: State, c: Config, meets: nat -> Encounter, clock: seq<LocalTime>): State
    requires c.Valid()
  {
    if clock == [] then s else Tick(More(s, c, meets, clock[..|clock| - 1]), c, meets, clock[|clock| - 1])
  }

  lemma {:induction false} TicksGoOn(c: Config, meets: nat -> Encounter, clock: seq<LocalTime>, more: seq<LocalTime>)
    requires c.Valid()
    ensures Ticks(c, meets, clock + more) == More(Ticks(c, meets, clock), c, meets, more)
  {
    if more == [] {
      assert clock + more == clock;
    } else {
      var m := |more| - 1;
      assert (clock + more)[..|clock + more| - 1] == clock + more[..m];
      TicksGoOn(c, meets, clock, more[..m]);
    }
  }

  lemma {:induction false} CompletedStays(
      s: State, c: Config, meets: nat -> Encounter, clock: seq<LocalTime>, date: int)
    requires c.Valid() && date in s.completed
    ensures Leaves(s, More(s, c, meets, clock), date)
  {
    if clock != [] {
      var before := More(s, c, meets, clock[..|clock| - 1]);
      CompletedStays(s, c, meets, clock[..|clock| - 1], date);
      TickLeavesCompleted(before, c, meets, clock[|clock| - 1], date);
      LeavesTransitive(s, before, More(s, c, meets, clock), date);
    }
  }

  lemma {:induction false} TickLeavesCompleted(
      s: State, c: Config, meets: nat -> Encounter, now: LocalTime, date: int)
    requires c.Valid() && date in s.completed
    ensures Leaves(s, Tick(s, c, meets, now), date)
  {
    if Due(s, c, now) {
      var (status, tries) := Outcome(meets(|s.journal|), c.retries);
      JournalAfterRun(s, c, now, status, tries, date, 0);
    } else {
      Appended(s.journal, Slept, date, 0);
    }
  }

  // Once a date had a terminal result, or its exhaustion was notified, it is neither run nor
  // notified again.
  lemma {:induction false} SettledDatesAreLeftAlone(
      c: Config, meets: nat -> Encounter, clock: seq<LocalTime>, more: seq<LocalTime>, date: int)
    requires c.Valid()
    requires var journal := Ticks(c, meets, clock).journal;
             || (LastRun(journal, date).Some? && Terminal(LastRun(journal, date).value.status))
             || Notices(journal, date) > 0
    ensures Leaves(Ticks(c, meets, clock), Ticks(c, meets, clock + more), date)
  {
    TicksTrack(c, meets, clock, date);
    CompletedStays(Ticks(c, meets, clock), c, meets, more, date);
    TicksGoOn(c, meets, clock, more);
  }

  // How long a date waits after its `runs`-th run: one poll interval if it found the date locked,
  // the retry delay doubled with every run otherwise.
  function WaitAfter(c: Config, last: Event, runs: nat): real
    requires last.Ran? && runs >= 1
  {
    if last.status == Locked then c.pollSeconds as real else c.retryDelay * Power(runs - 1) as real
  }

  // What the journal says about running a date at a reading of the clock: it is past the start
  // time, no run has settled the date, no notice has given it up, and its wait is over.
  predicate IsDue(c: Config, journal: seq<Event>, now: LocalTime) {
    var last := LastRun(journal, DateOf(now));
    && now - (DateOf(now) * DAY) as real >= c.startTime
    && Notices(journal, DateOf(now)) == 0
    && (last.Some? ==>
          && last.value.status != Done && last.value.status != Reduced && last.value.status != Blocked
          && Runs(journal, DateOf(now)) >= 1
          && now >= last.value.at + WaitAfter(c, last.value, Runs(journal, DateOf(now))))
  }

  lemma {:induction false} PowersDouble(n: nat)
    ensures Power(0) == 1 && Power(n + 1) == 2 * Power(n)
  {}

  // The settings the loop starts with: at least one attempt, at least one try and some delay.
  lemma {:induction false} SettingsAreValidExactly(c: Config)
    ensures c.Valid() <==> c.maxReportAttempts >= 1 && c.retries.maxAttempts >= 1 && c.retries.delay > 0.0
  {}

  // At every reading the loop runs the date exactly if it is due, and sleeps otherwise. So a
  // retry never starts before the doubled delay is over, and none is forgotten.
  lemma {:induction false} RunsExactlyWhenDue(
      c: Config, meets: nat -> Encounter, clock: seq<LocalTime>, now: LocalTime)
    requires c.Valid()
    ensures var before, after := Ticks(c, meets, clock).journal, Ticks(c, meets, clock + [now]).journal;
            if IsDue(c, before, now) then
              var (status, tries) := Outcome(meets(|before|), c.retries);
              var ran := before + [Ran(DateOf(now), status, tries, now)];
              after == ran || after == ran + [Exhausted(DateOf(now))]
            else after == before + [Slept]
  {
    assert (clock + [now])[..|clock|] == clock;
    var s, date := Ticks(c, meets, clock), DateOf(now);
    TicksTrack(c, meets, clock, date);
    LastRunCounts(s.journal, date);
    assert IsDue(c, s.journal, now) <==> Due(s, c, now);
  }

  lemma {:induction false} LastRunCounts(journal: seq<Event>, date: int)
    ensures LastRun(journal, date).Some? <==> Runs(journal, date) >= 1
  {
    if journal != [] {
      LastRunCounts(journal[..|journal| - 1], date);
    }
  }

  // The k-th attempt of a date starts no sooner than the doubled delay after the attempt before
  // it, or one poll interval after a run that found the date locked.
  lemma {:induction false} RetriesWait(c: Config, meets: nat -> Encounter, clock: seq<LocalTime>, now: LocalTime)
    requires c.Valid()
    ensures var s := Ticks(c, meets, clock);
            var last := LastRun(s.journal, DateOf(now));
            Due(s, c, now) && last.Some? ==>
              && Runs(s.journal, DateOf(now)) >= 1
              && now >= last.value.at + (if last.value.status == Locked then c.pollSeconds as real
                                         else c.retryDelay * Power(Runs(s.journal, DateOf(now)) - 1) as real)
  {
    TicksTrack(c, meets, clock, DateOf(now));
    LastRunCounts(Ticks(c, meets, clock).journal, DateOf(now));
  }

  // Each task is tried at most max_report_attempts times max_attempts times for one date.
  lemma {:induction false} TriesAreBounded(
      c: Config, meets: nat -> Encounter, clock: seq<LocalTime>, date: int, k: nat)
    requires c.Valid()
    ensures Tried(Ticks(c, meets, clock).journal, date, k) <= c.maxReportAttempts * c.retries.maxAttempts
  {
    AttemptsAreBounded(c, meets, clock, date);
    TriesPerRun(c, meets, clock, date, k);
    Monotone(Runs(Ticks(c, meets, clock).journal, date), c.maxReportAttempts, c.retries.maxAttempts);
  }

  lemma {:induction false} Monotone(a: nat, b: nat, factor: nat)
    requires a <= b
    ensures a * factor <= b * factor && (a + 1) * factor == a * factor + factor
  {}

  lemma {:induction false} TriesPerRun(c: Config, meets: nat -> Encounter, clock: seq<LocalTime>, date: int, k: nat)
    requires c.Valid()
    ensures Tried(Ticks(c, meets, clock).journal, date, k)
         <= Runs(Ticks(c, meets, clock).journal, date) * c.retries.maxAttempts
  {
    if clock != [] {
      var s := Ticks(c, meets, clock[..|clock| - 1]);
      TriesPerRun(c, meets, clock[..|clock| - 1], date, k);
      TickTries(s, c, meets, clock[|clock| - 1], date, k);
    }
  }

  lemma {:induction false} TickTries(s: State, c: Config, meets: nat -> Encounter, now: LocalTime, date: int, k: nat)
    requires c.Valid() && Tried(s.journal, date, k) <= Runs(s.journal, date) * c.retries.maxAttempts
    ensures var after := Tick(s, c, meets, now).journal;
            Tried(after, date, k) <= Runs(after, date) * c.retries.maxAttempts
  {
    if Due(s, c, now) {
      var (status, tries) := Outcome(meets(|s.journal|), c.retries);
      assert k < |tries| ==> tries[k] in tries;
      JournalAfterRun(s, c, now, status, tries, date, k);
      Monotone(Runs(s.journal, date), Runs(s.journal, date), c.retries.maxAttempts);
    } else {
      Appended(s.journal, Slept, date, k);
    }
  }
}
