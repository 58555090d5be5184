/** What the runner's report says: each planned task once, and `pass` exactly when everything went right. */
module RunReport {
  import opened Wrappers
  import opened Sequences
  import opened Sorting
  import opened CheckPlan
  import opened PlanFacts
  import opened CheckRun
  import opened RunAccounts
  import Pool

  /** The results of the failed prepare steps are among those gathered. */
  lemma StepsGathered(plan: Plan, options: Options, env: Environment)
    requires options.concurrency > 0 && PoolOf(plan, options, env).Some?
    ensures ResultSlots(Prepared(plan, env).results) <= ResultSlots(Gathered(plan, options, env))
  {
    GatheredSlots(plan, options, env);
  }

  lemma CancelledAccounts(plan: Plan, options: Options, env: Environment)
    requires Apart(plan) && options.concurrency > 0 && PoolOf(plan, options, env).Some?
    requires PoolOf(plan, options, env).value.control.Returned?
    ensures var gathered := Gathered(plan, options, env);
      ResultSlots(gathered + Map(BlockedResult, Unobserved(gathered, plan.tasks))) ==
      ResultSlots(Prepared(plan, env).results) + Slots(plan.tasks)
  {
    var gathered := Gathered(plan, options, env);
    var left := GatheredAccounts(plan, options, env);
    StepsGathered(plan, options, env);
    PrepareFails(plan.prepare, env.steps, env.cancelledEarly);
    FillsIn(plan, Prepared(plan, env).results, gathered, left);
    BlockedSlots(Unobserved(gathered, plan.tasks));
    SlotsAppend(gathered, Map(BlockedResult, Unobserved(gathered, plan.tasks)));
  }

  lemma FinishedAccounts(plan: Plan, options: Options, env: Environment)
    requires options.concurrency > 0 && PoolOf(plan, options, env).Some?
    requires PoolOf(plan, options, env).value.control.Returned? && !PoolOf(plan, options, env).value.cancelling
    ensures ResultSlots(Sort(PlanOrder(plan.tasks), Sweep(Gathered(plan, options, env), env.found))) ==
            ResultSlots(Prepared(plan, env).results) + Slots(plan.tasks)
  {
    var left := GatheredAccounts(plan, options, env);
    SweptSlots(Gathered(plan, options, env), env.found);
    SortedSlots(plan.tasks, Sweep(Gathered(plan, options, env), env.found));
  }

  /**
   * Whole-run accounting. Through failed prepare steps, blocked suites, retries, late leaks and a cancellation at any
   * point, the report names each planned task and iteration once; what else it holds is failed prepare steps.
   */
  lemma ReportAccounts(cat: Catalogue, options: Options, env: Environment)
    requires WellNamed(cat) && Ends(cat, options, env)
    ensures var plan := PlanOf(cat, options, env).value; var steps := Prepared(plan, env).results;
      && ResultSlots(RunChecks(cat, options, env).tasks) == ResultSlots(steps) + Slots(plan.tasks)
      && FailedSteps(plan.prepare, steps)
      && forall slot :: slot in Slots(plan.tasks) ==> ResultSlots(RunChecks(cat, options, env).tasks)[slot] == 1
  {
    var plan := PlanOf(cat, options, env).value;
    PlanApart(cat, options.selection, Some(env.host.platform));
    PrepareFails(plan.prepare, env.steps, env.cancelledEarly);
    if PoolOf(plan, options, env).value.cancelling {
      CancelledAccounts(plan, options, env);
    } else {
      FinishedAccounts(plan, options, env);
    }
    DistinctCounts(Map(Slot, plan.tasks));
    forall slot | slot in Slots(plan.tasks)
      ensures ResultSlots(RunChecks(cat, options, env).tasks)[slot] == 1
    {
      StepsElsewhere(plan, Prepared(plan, env).results, slot);
    }
  }

  // ---------------------------------------------------------------- what `pass` means

  predicate Good(result: TaskResult) { result.status == Pass || result.status == Flaky }

  ghost predicate AllGood(results: seq<TaskResult>) {
    forall i :: 0 <= i < |results| ==> Good(results[i])
  }

  lemma {:induction false} CountNone(status: Status, results: seq<TaskResult>)
    ensures Count(status, results) == 0 <==> forall i :: 0 <= i < |results| ==> results[i].status != status
  {
    if results != [] {
      CountNone(status, results[..|results| - 1]);
    }
  }

  /** Nothing failed and nothing was blocked exactly when every result is a pass, on the first or the second attempt. */
  lemma CountsGood(results: seq<TaskResult>)
    ensures CountAll(results).fail + CountAll(results).blocked == 0 <==> AllGood(results)
  {
    CountNone(Fail, results);
    CountNone(Blocked, results);
  }

  lemma PermutedGood(a: seq<TaskResult>, b: seq<TaskResult>)
    requires multiset(a) == multiset(b) && AllGood(a)
    ensures AllGood(b)
  {
    forall i | 0 <= i < |b|
      ensures Good(b[i])
    {
      assert b[i] in multiset(a);
      assert b[i] in a;
    }
  }

  ghost predicate NoneFound(result: TaskResult, found: nat -> seq<string>) {
    forall j :: 0 <= j < |result.attempts| ==> found(j) == []
  }

  ghost predicate NothingFound(results: seq<TaskResult>, found: (nat, nat) -> seq<string>) {
    forall i :: 0 <= i < |results| ==> NoneFound(results[i], FoundFor(found, i))
  }

  lemma SweepUntouched(result: TaskResult, found: nat -> seq<string>)
    ensures NoneFound(result, found) ==> SweepResult(result, found) == result
    ensures Good(SweepResult(result, found)) <==> Good(result) && NoneFound(result, found)
  {
    if NoneFound(result, found) {
      assert SweepResult(result, found).attempts == result.attempts;
    }
  }

  lemma SweptGood(results: seq<TaskResult>, found: (nat, nat) -> seq<string>)
    ensures AllGood(Sweep(results, found)) <==> AllGood(results) && NothingFound(results, found)
    ensures NothingFound(results, found) ==> Sweep(results, found) == results
  {
    var swept := Sweep(results, found);
    forall i: nat | i < |results|
      ensures Good(swept[i]) <==> Good(results[i]) && NoneFound(results[i], FoundFor(found, i))
      ensures NoneFound(results[i], FoundFor(found, i)) ==> swept[i] == results[i]
    {
      SweepUntouched(results[i], FoundFor(found, i));
    }
    if AllGood(swept) {
      assert forall i :: 0 <= i < |results| ==> Good(swept[i]);
    }
  }

  /** If every suite's preparation worked, the pool was given all the tasks and what is gathered is what it ran. */
  lemma {:induction false} NoneBroken(tasks: seq<Planned>)
    ensures BrokenTasks({}, tasks) == [] && RunnableTasks({}, tasks) == tasks
  {
    if tasks != [] {
      NoneBroken(tasks[..|tasks| - 1]);
      Snoc(tasks);
    }
  }

  lemma NoFailedStep(prep: seq<TaskResult>, more: seq<TaskResult>)
    requires AllGood(prep + more) && forall i :: 0 <= i < |prep| ==> prep[i].status == Fail
    ensures prep == []
  {
    assert prep != [] ==> (prep + more)[0] == prep[0];
  }

  lemma StepsWorked(plan: Plan, options: Options, env: Environment)
    requires options.concurrency > 0 && PoolOf(plan, options, env).Some? && AllGood(Gathered(plan, options, env))
    ensures Prepared(plan, env).results == [] && Prepared(plan, env).broken == {}
  {
    var prep := Prepared(plan, env);
    PrepareFails(plan.prepare, env.steps, env.cancelledEarly);
    var blocked := Map(BlockedResult, BrokenTasks(prep.broken, plan.tasks));
    assert Gathered(plan, options, env) == prep.results + (blocked + PoolPart(plan, options, env));
    NoFailedStep(prep.results, blocked + PoolPart(plan, options, env));
  }

  lemma GatheredGood(plan: Plan, options: Options, env: Environment)
    requires options.concurrency > 0 && PoolOf(plan, options, env).Some? && AllGood(Gathered(plan, options, env))
    ensures Prepared(plan, env).results == [] && Prepared(plan, env).broken == {}
    ensures GivenTasks(plan, env) == plan.tasks && Gathered(plan, options, env) == PoolPart(plan, options, env)
  {
    StepsWorked(plan, options, env);
    NoneBroken(plan.tasks);
  }

  /**
   * A run passes exactly when no signal arrived, what it gathered is good, and no process was found afterwards.
   */
  lemma PassGathers(cat: Catalogue, options: Options, env: Environment)
    requires Ends(cat, options, env)
    ensures var plan := PlanOf(cat, options, env).value; var gathered := Gathered(plan, options, env);
      RunChecks(cat, options, env).passed <==>
        && !PoolOf(plan, options, env).value.cancelling && !env.cancelledLate
        && AllGood(gathered) && NothingFound(gathered, env.found)
  {
    var plan := PlanOf(cat, options, env).value;
    var gathered, order := Gathered(plan, options, env), PlanOrder(plan.tasks);
    var swept := Sweep(gathered, env.found);
    if !PoolOf(plan, options, env).value.cancelling {
      CountsGood(Sort(order, swept));
      SweptGood(gathered, env.found);
      SortPermutes(order, swept);
      if AllGood(swept) { PermutedGood(swept, Sort(order, swept)); }
      if AllGood(Sort(order, swept)) { PermutedGood(Sort(order, swept), swept); }
    }
  }

  /** Some trial makes this the result of running this task of the plan. */
  ghost predicate RanFrom(tasks: seq<Planned>, retry: bool, result: TaskResult) {
    exists i: nat, trial: Trial :: i < |tasks| && result == RunTask(tasks[i], retry, trial)
  }

  /** In a passing report every result is that of running a planned task, and every planned task has one. */
  lemma PassReports(cat: Catalogue, options: Options, env: Environment)
    requires Ends(cat, options, env) && RunChecks(cat, options, env).passed
    ensures var plan, r := PlanOf(cat, options, env).value, RunChecks(cat, options, env);
      && AllGood(r.tasks) && ResultSlots(r.tasks) == Slots(plan.tasks)
      && forall i :: 0 <= i < |r.tasks| ==> RanFrom(plan.tasks, options.retry, r.tasks[i])
  {
    var plan, r := PlanOf(cat, options, env).value, RunChecks(cat, options, env);
    var gathered := Gathered(plan, options, env);
    PassGathers(cat, options, env);
    SweptGood(gathered, env.found);
    GatheredGood(plan, options, env);
    FinishedAccounts(plan, options, env);
    SortPermutes(PlanOrder(plan.tasks), gathered);
    PermutedGood(gathered, r.tasks);
    assert ResultSlots([]) == multiset{};
    forall i | 0 <= i < |r.tasks|
      ensures RanFrom(plan.tasks, options.retry, r.tasks[i])
    {
      assert r.tasks[i] in multiset(gathered);
      assert r.tasks[i] in gathered;
      PoolRan(plan, options, env, r.tasks[i]);
    }
  }

  lemma PoolRan(plan: Plan, options: Options, env: Environment, result: TaskResult)
    requires options.concurrency > 0 && PoolOf(plan, options, env).Some? && result in PoolPart(plan, options, env)
    ensures RanFrom(GivenTasks(plan, env), options.retry, result)
  {
    var part, order := PoolPart(plan, options, env), PoolOf(plan, options, env).value.results;
    PoolPositions(plan, options, env);
    var i :| 0 <= i < |part| && part[i] == result;
    assert result == RunTask(GivenTasks(plan, env)[order[i]], options.retry, env.tasks(order[i]));
  }
}
