/** The runner's loops (scripts/ci/run.ts), with the variables they update, proved against module CheckRun. */
module Runner {
  import opened Wrappers
  import opened Sequences
  import opened Sorting
  import opened CheckPlan
  import opened PlanFacts
  import opened CheckRun
  import Pool

  /** `runTask`: one attempt, and a second if the first failed, a retry is allowed and no signal has arrived. */
  method RunOne(planned: Planned, retry: bool, trial: Trial) returns (result: TaskResult)
    ensures result == RunTask(planned, retry, trial)
  {
    var attempts := [AttemptTask(trial.first)];
    var mayRetry := retry && planned.task.limits.retry;
    if !trial.cancelledFirst && !Passed(attempts[0]) && mayRetry {
      attempts := attempts + [AttemptTask(trial.second)];
    }
    var status := if Passed(attempts[0]) then Pass else if |attempts| > 1 && Passed(attempts[1]) then Flaky else Fail;
    result := TaskResult(TaskKey(planned), planned.iteration, planned.task.run, status, attempts);
  }

  /** Once cancelled, no further step changes anything. */
  lemma {:induction false} PrepareStops(steps: seq<Planned>, trials: nat -> Trial, cancelled: bool, n: nat)
    requires n <= |steps| && Prepare(steps[..n], trials, cancelled).cancelling
    ensures Prepare(steps, trials, cancelled) == Prepare(steps[..n], trials, cancelled)
    decreases |steps| - n
  {
    if n == |steps| {
      assert steps[..n] == steps;
    } else {
      assert steps[..n + 1][..n] == steps[..n];
      PrepareStops(steps, trials, cancelled, n + 1);
    }
  }

  lemma PrepareNext(steps: seq<Planned>, trials: nat -> Trial, cancelled: bool, n: nat)
    requires n < |steps|
    ensures Prepare(steps[..n + 1], trials, cancelled) ==
            PrepareStep(Prepare(steps[..n], trials, cancelled), steps[n], trials(n))
  {
    assert steps[..n + 1][..n] == steps[..n];
  }

  /** The prepare loop: a failed step breaks its suite, and a step another suite already ran is not run again. */
  method PrepareAll(steps: seq<Planned>, trials: nat -> Trial, cancelled: bool) returns (prep: Preparation)
    ensures prep == Prepare(steps, trials, cancelled)
  {
    var broken: set<string> := {};
    var prepared: map<StepKey, bool> := map[];
    var results: seq<TaskResult> := [];
    var cancelling := cancelled;
    var n := 0;
    while n < |steps|
      invariant n <= |steps|
      invariant Preparation(broken, prepared, results, cancelling) == Prepare(steps[..n], trials, cancelled)
    {
      if cancelling {
        PrepareStops(steps, trials, cancelled, n);
        return Preparation(broken, prepared, results, cancelling);
      }
      PrepareNext(steps, trials, cancelled, n);
      var planned := steps[n];
      n := n + 1;
      if planned.suite in broken { continue; }
      var key := StepOf(planned);
      if key in prepared {
        if !prepared[key] { broken := broken + {planned.suite}; }
        continue;
      }
      var result := RunOne(planned, true, trials(n - 1));
      cancelling := Interrupted(trials(n - 1));
      prepared := prepared[key := result.status != Fail];
      if result.status == Fail {
        results := results + [result];
        broken := broken + {planned.suite};
      }
    }
    assert steps[..n] == steps;
    return Preparation(broken, prepared, results, cancelling);
  }

  lemma BlockedNext(tasks: seq<Planned>, n: nat, keep: Planned -> bool)
    requires n < |tasks|
    ensures Filter(keep, tasks[..n + 1]) == Filter(keep, tasks[..n]) + if keep(tasks[n]) then [tasks[n]] else []
  {
    assert tasks[..n + 1][..n] == tasks[..n];
  }

  /** After a cancellation, every task without a result is recorded as blocked. */
  method FillCancelled(gathered: seq<TaskResult>, tasks: seq<Planned>) returns (results: seq<TaskResult>)
    ensures results == gathered + Map(BlockedResult, Unobserved(gathered, tasks))
  {
    var observed := set i | 0 <= i < |gathered| :: SlotOf(gathered[i]);
    ghost var seen := Map(SlotOf, gathered);
    ghost var keep := (planned: Planned) => Slot(planned) !in seen;
    results := gathered;
    var n := 0;
    while n < |tasks|
      invariant n <= |tasks|
      invariant results == gathered + Map(BlockedResult, Filter(keep, tasks[..n]))
    {
      BlockedNext(tasks, n, keep);
      assert Slot(tasks[n]) in observed <==> Slot(tasks[n]) in seen;
      if Slot(tasks[n]) !in observed { results := results + [BlockedResult(tasks[n])]; }
      n := n + 1;
    }
    assert tasks[..n] == tasks;
    FilterCongruent(keep, (planned: Planned) => Slot(planned) !in seen, tasks);
  }

  /** The late sweep of one result: each attempt's root is searched once more, and a find fails the task. */
  method SweepOne(result: TaskResult, found: nat -> seq<string>) returns (swept: TaskResult)
    ensures swept == SweepResult(result, found)
  {
    var attempts, status := result.attempts, result.status;
    var j := 0;
    while j < |attempts|
      invariant j <= |attempts| == |result.attempts|
      invariant forall k :: 0 <= k < j ==> attempts[k] == SweepAttempt(result.attempts[k], found(k))
      invariant forall k :: j <= k < |attempts| ==> attempts[k] == result.attempts[k]
      invariant status == if exists k :: 0 <= k < j && found(k) != [] then Fail else result.status
    {
      var leaked := found(j);
      if leaked != [] {
        attempts := attempts[j := SweepAttempt(attempts[j], leaked)];
        status := Fail;
      }
      j := j + 1;
    }
    swept := result.(attempts := attempts, status := status);
    assert swept.attempts == SweepResult(result, found).attempts;
  }

  /** The late sweep updates the results in place. */
  method SweepAll(results: array<TaskResult>, found: (nat, nat) -> seq<string>)
    modifies results
    ensures results[..] == Sweep(old(results[..]), found)
  {
    var i := 0;
    while i < results.Length
      invariant i <= results.Length
      invariant forall k :: 0 <= k < i ==> results[k] == SweepResult(old(results[k]), FoundFor(found, k))
      invariant forall k :: i <= k < results.Length ==> results[k] == old(results[k])
    {
      results[i] := SweepOne(results[i], FoundFor(found, i));
      i := i + 1;
    }
  }

  /** `writeReports`: one counter for each status, and the verdict. */
  method Report(header: Header, sel: Selection, results: seq<TaskResult>, cancelling: bool, complete: bool)
    returns (report: CheckRun.Report)
    ensures report == WriteReport(header, sel, results, cancelling, complete)
  {
    var pass, flaky, fail, blocked := 0, 0, 0, 0;
    var n := 0;
    while n < |results|
      invariant n <= |results|
      invariant Counts(pass, flaky, fail, blocked) == CountAll(results[..n])
    {
      assert results[..n + 1][..n] == results[..n];
      match results[n].status {
        case Pass => pass := pass + 1;
        case Flaky => flaky := flaky + 1;
        case Fail => fail := fail + 1;
        case Blocked => blocked := blocked + 1;
      }
      n := n + 1;
    }
    assert results[..n] == results;
    var counts := Counts(pass, flaky, fail, blocked);
    report := CheckRun.Report(header, sel, complete, !cancelling && fail + blocked == 0, cancelling, counts, results);
  }

  /** The run, from its plan to its report; the pool is that of module Pool. */
  method RunAll(cat: Catalogue, options: Options, env: Environment) returns (report: CheckRun.Report)
    requires Ends(cat, options, env)
    ensures report == RunChecks(cat, options, env)
  {
    var plan, sel := PlanOf(cat, options, env).value, options.selection;
    var header := Header(SCHEMA_VERSION, true, env.commit, env.dirty, env.host);
    var prep := PrepareAll(plan.prepare, env.steps, env.cancelledEarly);
    var runnable := RunnableTasks(prep.broken, plan.tasks);
    var results := prep.results + Map(BlockedResult, BrokenTasks(prep.broken, plan.tasks));
    var pool := PoolOf(plan, options, env).value;
    PoolPositions(plan, options, env);
    results := results + PoolResults(runnable, pool.results, options.retry, env.tasks);
    if pool.cancelling {
      results := FillCancelled(results, plan.tasks);
      report := Report(header, sel, results, true, false);
      return;
    }
    var swept := new TaskResult[|results|](i requires 0 <= i < |results| => results[i]);
    assert swept[..] == results;
    SweepAll(swept, env.found);
    results := Sort(PlanOrder(plan.tasks), swept[..]);
    report := Report(header, sel, results, env.cancelledLate, IsComplete(cat, sel, env.host.platform));
  }
}
