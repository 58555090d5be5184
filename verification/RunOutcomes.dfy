/**
 * The check runner's results in terms of what the commands did: exit codes, timeouts, stray and leaked processes, and
 * signals, as the environment of a run gives them (scripts/ci/run.ts).
 */
module RunOutcomes {
  import opened Wrappers
  import opened Sequences
  import opened Sorting
  import opened CheckPlan
  import opened PlanFacts
  import opened CheckRun
  import opened RunAccounts
  import opened RunReport
  import Pool

  // ---------------------------------------------------------------- one task

  /** The command ended with exit code 0, in time, and left nothing running. */
  predicate Fine(outcome: Outcome) {
    outcome.exitCode == 0 && !outcome.timedOut && !outcome.strays && outcome.found == []
  }

  /** A second attempt is made: the first went wrong, retries are allowed, and no signal arrived during the first. */
  predicate Again(mayRetry: bool, trial: Trial) {
    !Fine(trial.first) && mayRetry && !trial.cancelledFirst
  }

  /** An attempt that went well in the end. */
  predicate Succeeds(mayRetry: bool, trial: Trial) {
    Fine(trial.first) || (Again(mayRetry, trial) && Fine(trial.second))
  }

  /** The attempt records what the command did; processes found are recorded only if there are some. */
  predicate Recorded(outcome: Outcome, attempt: Attempt) {
    && attempt.exitCode == outcome.exitCode && attempt.durationMs == outcome.durationMs
    && attempt.timedOut == outcome.timedOut && attempt.strays == outcome.strays
    && (if outcome.found == [] then attempt.leaked.None? else attempt.leaked == Some(outcome.found))
  }

  /** The result of a task whose commands did this. */
  predicate Records(planned: Planned, mayRetry: bool, trial: Trial, r: TaskResult) {
    && r.key == Key(planned.suite, planned.task.id) && r.iteration == planned.iteration && r.command == planned.task.run
    && |r.attempts| == (if Again(mayRetry, trial) then 2 else 1)
    && Recorded(trial.first, r.attempts[0])
    && (Again(mayRetry, trial) ==> Recorded(trial.second, r.attempts[1]))
    && (r.status == Pass <==> Fine(trial.first))
    && (r.status == Flaky <==> Again(mayRetry, trial) && Fine(trial.second))
    && (r.status == Fail <==> !Succeeds(mayRetry, trial))
  }

  /**
   * What a result says of the commands: a pass means the first attempt was fine, a flaky pass that only the second was,
   * a failure that neither was; and each attempt recorded is what its command did.
   */
  lemma AttemptsTell(planned: Planned, retry: bool, trial: Trial)
    ensures Records(planned, retry && planned.task.limits.retry, trial, RunTask(planned, retry, trial))
  {
  }

  // ---------------------------------------------------------------- prepare steps

  /** No earlier step runs the same command in the same directory. */
  predicate FirstUse(steps: seq<Planned>, i: nat)
    requires i < |steps|
  {
    forall j :: 0 <= j < i ==> (steps[j].task.cwd, steps[j].task.run) != (steps[i].task.cwd, steps[i].task.run)
  }

  /** The step, if it is the first with its command, succeeds undisturbed. */
  predicate StepPrepares(steps: seq<Planned>, trials: nat -> Trial, i: nat)
    requires i < |steps|
  {
    FirstUse(steps, i) ==>
      Succeeds(steps[i].task.limits.retry, trials(i)) && !trials(i).cancelledFirst && !trials(i).cancelledSecond
  }

  /** Every command of the preparation succeeded on its first use, and no signal arrived during it. */
  ghost predicate Prepares(steps: seq<Planned>, trials: nat -> Trial) {
    forall i: nat :: i < |steps| ==> StepPrepares(steps, trials, i)
  }

  /** A preparation in which nothing has gone wrong yet. */
  ghost predicate Smooth(prep: Preparation, steps: seq<Planned>) {
    && prep.results == [] && prep.broken == {} && !prep.cancelling
    && (forall key :: key in prep.prepared <==> exists j :: 0 <= j < |steps| && StepOf(steps[j]) == key)
    && (forall key :: key in prep.prepared ==> prep.prepared[key])
  }

  lemma FirstUsePrefix(init: seq<Planned>, last: Planned)
    ensures forall i: nat :: i < |init| ==> (FirstUse(init + [last], i) <==> FirstUse(init, i))
    ensures FirstUse(init + [last], |init|) <==> !exists j :: 0 <= j < |init| && StepOf(init[j]) == StepOf(last)
  {
    var steps := init + [last];
    forall i: nat | i < |init|
      ensures FirstUse(steps, i) <==> FirstUse(init, i)
    {
      assert forall j :: 0 <= j <= i ==> steps[j] == init[j];
    }
    assert forall j :: 0 <= j < |init| ==> steps[j] == init[j];
  }

  /** One step of a preparation that has gone well so far. */
  lemma SmoothStep(prep: Preparation, init: seq<Planned>, last: Planned, trial: Trial)
    requires Smooth(prep, init)
    ensures var next := PrepareStep(prep, last, trial);
      Smooth(next, init + [last]) <==>
        (FirstUse(init + [last], |init|) ==>
           Succeeds(last.task.limits.retry, trial) && !trial.cancelledFirst && !trial.cancelledSecond)
  {
    var steps, next := init + [last], PrepareStep(prep, last, trial);
    FirstUsePrefix(init, last);
    AttemptsTell(last, true, trial);
    assert steps[|init|] == last && forall j :: 0 <= j < |init| ==> steps[j] == init[j];
    forall key | key in next.prepared
      ensures exists j :: 0 <= j < |steps| && StepOf(steps[j]) == key
    {
      if key in prep.prepared {
        var j :| 0 <= j < |init| && StepOf(init[j]) == key;
        assert StepOf(steps[j]) == key;
      } else {
        assert StepOf(steps[|init|]) == key;
      }
    }
  }

  /** Once something has gone wrong it stays so. */
  lemma RoughStays(prep: Preparation, init: seq<Planned>, last: Planned, trial: Trial)
    requires prep.results != [] || prep.cancelling
    ensures var next := PrepareStep(prep, last, trial); next.results != [] || next.cancelling
  {
  }

  /** A step that does not keep things smooth leaves a failure or a signal. */
  lemma StepWrong(prep: Preparation, init: seq<Planned>, last: Planned, trial: Trial)
    requires Smooth(prep, init)
    ensures var next := PrepareStep(prep, last, trial);
      next.results == [] && !next.cancelling ==> Smooth(next, init + [last])
  {
    SmoothStep(prep, init, last, trial);
    AttemptsTell(last, true, trial);
    FirstUsePrefix(init, last);
  }

  lemma PreparesMore(init: seq<Planned>, last: Planned, trials: nat -> Trial)
    ensures Prepares(init + [last], trials) <==>
      Prepares(init, trials) && StepPrepares(init + [last], trials, |init|)
  {
    var steps := init + [last];
    FirstUsePrefix(init, last);
    assert forall i: nat :: i < |init| ==> steps[i] == init[i];
    assert forall i: nat :: i < |init| ==> (StepPrepares(steps, trials, i) <==> StepPrepares(init, trials, i));
  }

  /** The preparation leaves no failure and no signal exactly when every command succeeded undisturbed on first use. */
  lemma {:induction false} PreparesExactly(steps: seq<Planned>, trials: nat -> Trial)
    ensures var prep := Prepare(steps, trials, false);
      && (prep.results == [] && !prep.cancelling <==> Prepares(steps, trials))
      && (Prepares(steps, trials) ==> Smooth(prep, steps))
  {
    if steps != [] {
      var init, last := steps[..|steps| - 1], steps[|steps| - 1];
      PreparesExactly(init, trials);
      assert steps == init + [last];
      PreparesMore(init, last, trials);
      PreparesNext(Prepare(init, trials, false), init, last, trials);
    }
  }

  lemma PreparesNext(prep: Preparation, init: seq<Planned>, last: Planned, trials: nat -> Trial)
    requires prep.results == [] && !prep.cancelling <==> Prepares(init, trials)
    requires Prepares(init, trials) ==> Smooth(prep, init)
    ensures var next := PrepareStep(prep, last, trials(|init|));
      var prepares := Prepares(init, trials) && StepPrepares(init + [last], trials, |init|);
      && (next.results == [] && !next.cancelling <==> prepares)
      && (prepares ==> Smooth(next, init + [last]))
  {
    if Prepares(init, trials) {
      SmoothStep(prep, init, last, trials(|init|));
      StepWrong(prep, init, last, trials(|init|));
    } else {
      RoughStays(prep, init, last, trials(|init|));
    }
  }

  // ---------------------------------------------------------------- the whole run

  /** Every task succeeded, the i-th meeting the i-th trial. */
  ghost predicate AllSucceed(tasks: seq<Planned>, retry: bool, trials: nat -> Trial) {
    forall i: nat :: i < |tasks| ==> Succeeds(retry && tasks[i].task.limits.retry, trials(i))
  }

  /** The search after the run found nothing under any attempt; the k-th task searched is the k-th that finished. */
  ghost predicate NothingLate(tasks: seq<Planned>, retry: bool, trials: nat -> Trial, order: seq<nat>,
          found: (nat, nat) -> seq<string>)
  {
    forall k: nat, j: nat ::
      (&& k < |order| && order[k] < |tasks|
       && j < if Again(retry && tasks[order[k]].task.limits.retry, trials(order[k])) then 2 else 1) ==>
      found(k, j) == []
  }

  lemma ResultGood(planned: Planned, retry: bool, trial: Trial)
    ensures Good(RunTask(planned, retry, trial)) <==> Succeeds(retry && planned.task.limits.retry, trial)
    ensures |RunTask(planned, retry, trial).attempts| ==
            if Again(retry && planned.task.limits.retry, trial) then 2 else 1
  {
    AttemptsTell(planned, retry, trial);
  }

  lemma PoolGood(tasks: seq<Planned>, retry: bool, trials: nat -> Trial, order: seq<nat>)
    requires forall k :: 0 <= k < |order| ==> order[k] < |tasks|
    requires forall i: nat :: i < |tasks| ==> i in order
    ensures AllGood(PoolResults(tasks, order, retry, trials)) <==> AllSucceed(tasks, retry, trials)
  {
    var results := PoolResults(tasks, order, retry, trials);
    forall k | 0 <= k < |order|
      ensures Good(results[k]) <==>
        Succeeds(retry && tasks[order[k]].task.limits.retry, trials(order[k]))
    {
      ResultGood(tasks[order[k]], retry, trials(order[k]));
    }
    if AllGood(results) {
      forall i: nat | i < |tasks|
        ensures Succeeds(retry && tasks[i].task.limits.retry, trials(i))
      {
        assert i in order;
        var k :| 0 <= k < |order| && order[k] == i;
        assert Good(results[k]);
      }
    }
  }

  lemma PoolFound(tasks: seq<Planned>, retry: bool, trials: nat -> Trial, order: seq<nat>,
          found: (nat, nat) -> seq<string>)
    requires forall k :: 0 <= k < |order| ==> order[k] < |tasks|
    ensures NothingFound(PoolResults(tasks, order, retry, trials), found) <==>
            NothingLate(tasks, retry, trials, order, found)
  {
    var results := PoolResults(tasks, order, retry, trials);
    forall k: nat | k < |order|
      ensures |results[k].attempts| ==
              if Again(retry && tasks[order[k]].task.limits.retry, trials(order[k])) then 2 else 1
    {
      ResultGood(tasks[order[k]], retry, trials(order[k]));
    }
    if NothingFound(results, found) {
      forall k: nat, j: nat | k < |order| && j < |results[k].attempts|
        ensures found(k, j) == []
      {
        assert NoneFound(results[k], FoundFor(found, k));
        assert FoundFor(found, k)(j) == [];
      }
    }
    if NothingLate(tasks, retry, trials, order, found) {
      forall k | 0 <= k < |results|
        ensures NoneFound(results[k], FoundFor(found, k))
      {
        forall j | 0 <= j < |results[k].attempts|
          ensures FoundFor(found, k)(j) == []
        {
          assert found(k, j) == [];
        }
      }
    }
  }

  /** The pool of a run, told by its events: no signal, and its results in the order the tasks finished. */
  lemma PoolTold(plan: Plan, options: Options, env: Environment)
    requires options.concurrency > 0 && PoolOf(plan, options, env).Some?
    ensures var p := PoolOf(plan, options, env).value;
      && p.results == Pool.Finishes(env.events)
      && (p.cancelling <==> Prepared(plan, env).cancelling || Pool.Cancel in env.events)
  {
    var prep := Prepared(plan, env);
    var pool := PoolConfig(RunnableTasks(prep.broken, plan.tasks), options.concurrency);
    Pool.RecordsEvents(pool, prep.cancelling, env.events);
  }

  /** An uncancelled pool that has returned finished every task it was given. */
  lemma AllFinished(plan: Plan, options: Options, env: Environment, i: nat)
    requires options.concurrency > 0 && PoolOf(plan, options, env).Some? && i < |GivenTasks(plan, env)|
    requires PoolOf(plan, options, env).value.control.Returned? && !PoolOf(plan, options, env).value.cancelling
    ensures i in PoolOf(plan, options, env).value.results
  {
    var p := PoolOf(plan, options, env).value;
    PoolDone(plan, options, env);
    var all := seq<nat>(|GivenTasks(plan, env)|, (k: nat) => k);
    assert all[i] in multiset(all);
    assert i in multiset(p.results);
  }

  /** No signal arrived before, between or after the tasks. */
  predicate Undisturbed(env: Environment) {
    !env.cancelledEarly && !env.cancelledLate && Pool.Cancel !in env.events
  }

  /** Everything the commands and the signals of a run can do right. */
  ghost predicate WentWell(plan: Plan, options: Options, env: Environment) {
    && Undisturbed(env) && Prepares(plan.prepare, env.steps)
    && AllSucceed(plan.tasks, options.retry, env.tasks)
    && NothingLate(plan.tasks, options.retry, env.tasks, Pool.Finishes(env.events), env.found)
  }

  lemma StepsSmooth(plan: Plan, env: Environment)
    requires !env.cancelledEarly
    ensures Prepares(plan.prepare, env.steps) <==>
            Prepared(plan, env).results == [] && !Prepared(plan, env).cancelling
    ensures Prepares(plan.prepare, env.steps) ==>
      Prepared(plan, env).broken == {} && GivenTasks(plan, env) == plan.tasks
  {
    PreparesExactly(plan.prepare, env.steps);
    NoneBroken(plan.tasks);
  }

  /** With every suite prepared and no signal, what is gathered is good exactly when every task succeeded. */
  lemma GatheredSucceeds(plan: Plan, options: Options, env: Environment)
    requires options.concurrency > 0 && PoolOf(plan, options, env).Some?
    requires PoolOf(plan, options, env).value.control.Returned? && !PoolOf(plan, options, env).value.cancelling
    requires Prepared(plan, env).results == [] && Prepared(plan, env).broken == {}
    ensures var gathered := Gathered(plan, options, env);
      && (AllGood(gathered) <==> AllSucceed(plan.tasks, options.retry, env.tasks))
      && (NothingFound(gathered, env.found) <==>
            NothingLate(plan.tasks, options.retry, env.tasks, Pool.Finishes(env.events), env.found))
  {
    var order := PoolOf(plan, options, env).value.results;
    NoneBroken(plan.tasks);
    PoolTold(plan, options, env);
    PoolPositions(plan, options, env);
    forall i: nat | i < |plan.tasks|
      ensures i in order
    {
      AllFinished(plan, options, env, i);
    }
    PoolGood(plan.tasks, options.retry, env.tasks, order);
    PoolFound(plan.tasks, options.retry, env.tasks, order, env.found);
    assert Map(BlockedResult, BrokenTasks({}, plan.tasks)) == [];
    assert Gathered(plan, options, env) == PoolResults(plan.tasks, order, options.retry, env.tasks);
  }

  /**
   * A run passes exactly when no signal arrived, every prepare command succeeded the first time it was used, every task
   * ended with exit code 0, in time and leaving nothing running, on its first or a permitted second attempt, and the
   * search afterwards found nothing.
   */
  lemma PassExactly(cat: Catalogue, options: Options, env: Environment)
    requires Ends(cat, options, env)
    ensures RunChecks(cat, options, env).passed <==> WentWell(PlanOf(cat, options, env).value, options, env)
  {
    var plan := PlanOf(cat, options, env).value;
    PassGathers(cat, options, env);
    PoolTold(plan, options, env);
    if RunChecks(cat, options, env).passed {
      GatheredGood(plan, options, env);
      EarlyCancels(plan.prepare, env.steps);
      StepsSmooth(plan, env);
      GatheredSucceeds(plan, options, env);
    }
    if WentWell(plan, options, env) {
      StepsSmooth(plan, env);
      GatheredSucceeds(plan, options, env);
    }
  }

  lemma {:induction false} EarlyCancels(steps: seq<Planned>, trials: nat -> Trial)
    ensures Prepare(steps, trials, true).cancelling
  {
    if steps != [] {
      EarlyCancels(steps[..|steps| - 1], trials);
    }
  }
}
