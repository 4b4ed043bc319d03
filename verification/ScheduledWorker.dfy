/** One report date's run of all scheduled tasks, with bounded retries and backoff. */
module ScheduledWorker {
  import opened Prelude

  datatype TaskStatus = Succeeded | Degraded | Retryable | Failed

  // How one try of a task ends: a result, the error that asks for a retry, or any other error. A
  // result of another task ID counts as an error.
  datatype Try = Returned(status: TaskStatus, hasRunId: bool) | AskedRetry | Raised

  datatype TaskResult = TaskResult(status: TaskStatus, attemptNo: nat)

  // What trying a task came to: its result and the seconds slept between the tries.
  datatype TaskRun = TaskRun(result: TaskResult, tries: nat, slept: real)

  // The policy of a worker; its constructor refuses other values.
  datatype Retries = Retries(maxAttempts: nat, delay: real) {
    predicate Valid() { maxAttempts >= 1 && delay > 0.0 }
  }

  function Power(n: nat): (p: nat)
    ensures p >= 1
  {
    if n == 0 then 1 else 2 * Power(n - 1)
  }

  predicate WantsRetry(t: Try) {
    t == AskedRetry || (t.Returned? && t.status == Retryable)
  }

  // A success without a durable run is a failure.
  function Ended(t: Try, attemptNo: nat): TaskResult {
    match t
    case Returned(status, hasRunId) =>
      TaskResult(if status == Succeeded && !hasRunId then Failed else status, attemptNo)
    case AskedRetry => TaskResult(Retryable, attemptNo)
    case Raised => TaskResult(Failed, attemptNo)
  }

  // The first try that is not to be repeated, or the last one allowed.
  function LastTry(tries: nat -> Try, attemptNo: nat, max: nat): (last: nat)
    requires 1 <= attemptNo <= max
    ensures attemptNo <= last <= max
    ensures forall k | attemptNo <= k < last :: WantsRetry(tries(k))
    ensures last < max ==> !WantsRetry(tries(last))
    decreases max - attemptNo
  {
    if WantsRetry(tries(attemptNo)) && attemptNo < max then LastTry(tries, attemptNo + 1, max) else attemptNo
  }

  // _run_task: `tries(k)` is what the k-th try would do. The task is tried up to the first try
  // that settles it, the result names that try, and the backoff doubles in between.
  method RunTask(tries: nat -> Try, retries: Retries) returns (run: TaskRun)
    requires retries.Valid()
    ensures run.tries == LastTry(tries, 1, retries.maxAttempts)
    ensures run.result == Ended(tries(run.tries), run.tries)
    // The last try is the first that neither asks for a retry nor returns one, or the last allowed ...
    ensures 1 <= run.tries <= retries.maxAttempts
    ensures forall k | 1 <= k < run.tries ::
              tries(k) == AskedRetry || (tries(k).Returned? && tries(k).status == Retryable)
    ensures run.tries < retries.maxAttempts ==>
              tries(run.tries) != AskedRetry && (tries(run.tries).Returned? ==> tries(run.tries).status != Retryable)
    // ... and it decides: an error fails the task, and so does a success without a durable run.
    ensures run.result.attemptNo == run.tries
    ensures match tries(run.tries)
            case Raised => run.result.status == Failed
            case AskedRetry => run.result.status == Retryable
            case Returned(Succeeded, hasRunId) => run.result.status == Succeeded <==> hasRunId
            case Returned(status, _) => run.result.status == status
    ensures tries(run.tries) == Returned(Succeeded, false) ==> run.result.status == Failed
    ensures run.slept == retries.delay * (Power(run.tries - 1) - 1) as real
  {
    var slept := 0.0;
    var attemptNo: nat := 1;
    while true
      invariant 1 <= attemptNo <= retries.maxAttempts
      invariant LastTry(tries, 1, retries.maxAttempts) == LastTry(tries, attemptNo, retries.maxAttempts)
      invariant slept == retries.delay * (Power(attemptNo - 1) - 1) as real
      decreases retries.maxAttempts - attemptNo
    {
      var outcome := tries(attemptNo);
      if WantsRetry(outcome) && attemptNo < retries.maxAttempts {
        DelayDoubles(retries.delay, attemptNo);
        slept := slept + retries.delay * Power(attemptNo - 1) as real;
        attemptNo := attemptNo + 1;
        continue;
      }
      return TaskRun(Ended(outcome, attemptNo), attemptNo, slept);
    }
  }

  lemma {:induction false} DelayDoubles(delay: real, attemptNo: nat)
    requires attemptNo >= 1
    ensures delay * (Power(attemptNo - 1) - 1) as real + delay * Power(attemptNo - 1) as real
         == delay * (Power(attemptNo) - 1) as real
  {
    var p := Power(attemptNo - 1) as real;
    assert (Power(attemptNo) - 1) as real == (p - 1.0) + p;
    assert delay * ((p - 1.0) + p) == delay * (p - 1.0) + delay * p;
  }

  lemma {:induction false} PowerGrows(m: nat, n: nat)
    requires m <= n
    ensures Power(m) <= Power(n)
  {
    if m < n {
      PowerGrows(m, n - 1);
    }
  }

  // One task's backoff in one run totals at most delay * (2^(max - 1) - 1).
  lemma {:induction false} BackoffIsBounded(tries: nat -> Try, retries: Retries)
    requires retries.Valid()
    ensures var last := LastTry(tries, 1, retries.maxAttempts);
            retries.delay * (Power(last - 1) - 1) as real
            <= retries.delay * (Power(retries.maxAttempts - 1) - 1) as real
  {
    var last := LastTry(tries, 1, retries.maxAttempts);
    PowerGrows(last - 1, retries.maxAttempts - 1);
    var (a, b) := ((Power(last - 1) - 1) as real, (Power(retries.maxAttempts - 1) - 1) as real);
    assert retries.delay * (b - a) >= 0.0;
    assert retries.delay * b == retries.delay * a + retries.delay * (b - a);
  }

  // ---- The status of a date ---------------------------------------------------------------------

  datatype Status = Done | Reduced | Retry | Blocked | Locked

  // succeeded or degraded or blocked; the schedule never runs such a date again.
  predicate Terminal(status: Status) {
    status == Done || status == Reduced || status == Blocked
  }

  datatype Task = Task(required: bool, tries: nat -> Try)

  datatype Quality = Passed | Lowered | Stopped | Later

  function WorkerStatus(tasks: seq<Task>, results: seq<TaskResult>): Status
    requires |tasks| == |results|
  {
    if tasks == [] then Blocked
    else if exists i :: 0 <= i < |tasks| && results[i].status == Failed && tasks[i].required then Blocked
    else if exists i :: 0 <= i < |tasks| && results[i].status == Retryable && tasks[i].required then Retry
    else if exists i :: 0 <= i < |tasks| && results[i].status != Succeeded then Reduced
    else Done
  }

  // How bad one task's result is for its date; an optional task can only degrade it.
  function Weight(task: Task, result: TaskResult): nat {
    if task.required && result.status == Failed then 3
    else if task.required && result.status == Retryable then 2
    else if result.status != Succeeded then 1
    else 0
  }

  // The status of a date is that of its worst task.
  lemma {:induction false} WorkerStatusIsTheWorst(tasks: seq<Task>, results: seq<TaskResult>)
    requires |tasks| == |results| && tasks != []
    ensures var severity := Severity(WorkerStatus(tasks, results));
            && (forall i | 0 <= i < |tasks| :: Weight(tasks[i], results[i]) <= severity)
            && (exists i :: 0 <= i < |tasks| && Weight(tasks[i], results[i]) == severity)
  {
    var status := WorkerStatus(tasks, results);
    if i :| status == Blocked && 0 <= i < |tasks| && results[i].status == Failed && tasks[i].required {
      assert Weight(tasks[i], results[i]) == 3;
    } else if i :| status == Retry && 0 <= i < |tasks| && results[i].status == Retryable && tasks[i].required {
      assert Weight(tasks[i], results[i]) == 2;
    } else if i :| status == Reduced && 0 <= i < |tasks| && results[i].status != Succeeded {
      assert Weight(tasks[i], results[i]) == 1;
    } else {
      assert Weight(tasks[0], results[0]) == 0;
    }
  }

  function Combined(worker: Status, quality: Quality): Status {
    if worker == Locked || worker == Blocked || quality == Stopped then
      if worker != Locked then Blocked else Locked
    else if worker == Retry || quality == Later then Retry
    else if worker == Reduced || quality == Lowered then Reduced
    else Done
  }

  function Severity(status: Status): nat {
    match status case Done => 0 case Reduced => 1 case Retry => 2 case Blocked => 3 case Locked => 4
  }

  function QualityStatus(quality: Quality): Status {
    match quality case Passed => Done case Lowered => Reduced case Later => Retry case Stopped => Blocked
  }

  // Combining takes the worse of the two, and a lock outranks everything.
  lemma {:induction false} CombinedIsTheWorse(worker: Status, quality: Quality)
    ensures Severity(Combined(worker, quality))
         == if Severity(worker) >= Severity(QualityStatus(quality)) then Severity(worker)
            else Severity(QualityStatus(quality))
  {}

  // What one run of a date meets: whether the date lock was free, what each task's tries do, the
  // quality decision if inputs are materialized (None inside it is an error there), and the
  // status the report workflow settles on if there is one.
  datatype Encounter = Encounter(
    lockFree: bool, tasks: seq<Task>, quality: Option<Option<Quality>>, workflow: Option<Status>)

  function DateStatus(e: Encounter, results: seq<TaskResult>): Status
    requires |results| == |e.tasks|
  {
    var worker := WorkerStatus(e.tasks, results);
    var judged := match e.quality
                  case None => worker
                  case Some(None) => Blocked
                  case Some(Some(quality)) => Combined(worker, quality);
    e.workflow.GetOr(judged)
  }

  // The status of a date, quality decision included, is that of the worst there is: no task and
  // no decision is worse, and one of them is as bad. Without a decision although inputs are
  // materialized the date is blocked, and a report workflow has the last word.
  lemma {:induction false} DateStatusIsTheWorst(e: Encounter, results: seq<TaskResult>)
    requires |results| == |e.tasks| && e.tasks != []
    ensures e.workflow.Some? ==> DateStatus(e, results) == e.workflow.value
    ensures e.workflow.None? && e.quality == Some(None) ==> DateStatus(e, results) == Blocked
    ensures e.workflow.None? && e.quality != Some(None) ==>
              var severity := Severity(DateStatus(e, results));
              && (forall i | 0 <= i < |e.tasks| :: Weight(e.tasks[i], results[i]) <= severity)
              && (e.quality.Some? ==> Severity(QualityStatus(e.quality.value.value)) <= severity)
              && (|| (exists i :: 0 <= i < |e.tasks| && Weight(e.tasks[i], results[i]) == severity)
                  || (e.quality.Some? && Severity(QualityStatus(e.quality.value.value)) == severity))
  {
    WorkerStatusIsTheWorst(e.tasks, results);
    var worker := WorkerStatus(e.tasks, results);
    if e.workflow.None? && e.quality.Some? && e.quality.value.Some? {
      CombinedIsTheWorse(worker, e.quality.value.value);
      assert DateStatus(e, results) == Combined(worker, e.quality.value.value);
    }
  }

  function ResultsOf(tasks: seq<Task>, retries: Retries): (results: seq<TaskResult>)
    requires retries.Valid()
    ensures |results| == |tasks|
    ensures forall i | 0 <= i < |tasks| ::
              var last := LastTry(tasks[i].tries, 1, retries.maxAttempts);
              results[i] == Ended(tasks[i].tries(last), last)
  {
    seq(|tasks|, i requires 0 <= i < |tasks| =>
      var last := LastTry(tasks[i].tries, 1, retries.maxAttempts); Ended(tasks[i].tries(last), last))
  }

  function TriesOf(tasks: seq<Task>, retries: Retries): (tries: seq<nat>)
    requires retries.Valid()
    ensures |tries| == |tasks|
    ensures forall i | 0 <= i < |tasks| :: tries[i] == LastTry(tasks[i].tries, 1, retries.maxAttempts)
  {
    seq(|tasks|, i requires 0 <= i < |tasks| => LastTry(tasks[i].tries, 1, retries.maxAttempts))
  }

  function Outcome(e: Encounter, retries: Retries): (r: (Status, seq<nat>))
    requires retries.Valid()
    ensures forall n <- r.1 :: 1 <= n <= retries.maxAttempts
  {
    if e.tasks == [] then (Blocked, [])
    else if !e.lockFree then (Locked, [])
    else (DateStatus(e, ResultsOf(e.tasks, retries)), TriesOf(e.tasks, retries))
  }

  // run_for_date: the status and how often each task was tried.
  method RunForDate(e: Encounter, retries: Retries) returns (status: Status, tries: seq<nat>)
    requires retries.Valid()
    ensures (status, tries) == Outcome(e, retries)
  {
    if e.tasks == [] {
      return Blocked, [];
    }
    if !e.lockFree {
      return Locked, [];
    }
    var results: seq<TaskResult> := [];
    tries := [];
    for n := 0 to |e.tasks|
      invariant results == ResultsOf(e.tasks, retries)[..n]
      invariant tries == TriesOf(e.tasks, retries)[..n]
    {
      var run := RunTask(e.tasks[n].tries, retries);
      results := results + [run.result];
      tries := tries + [run.tries];
    }
    assert results == ResultsOf(e.tasks, retries) && tries == TriesOf(e.tasks, retries);
    status := DateStatus(e, results);
  }
}
