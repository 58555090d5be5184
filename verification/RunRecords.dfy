/**
 * What a check report holds, field by field, in terms of the plan and of what the environment did (scripts/ci/run.ts).
 */
module RunRecords {
  import opened Wrappers
  import opened Sequences
  import opened Sorting
  import opened CheckPlan
  import opened PlanFacts
  import opened CheckRun
  import opened RunAccounts
  import opened RunReport
  import opened RunOutcomes
  import Pool

  // ---------------------------------------------------------------- where a result comes from

  /** A task that was not run: no attempts. */
  predicate NotRun(planned: Planned, r: TaskResult) {
    r == TaskResult(Key(planned.suite, planned.task.id), planned.iteration, planned.task.run, Blocked, [])
  }

  /** The failing run of a prepare step. */
  ghost predicate FromStep(steps: seq<Planned>, trials: nat -> Trial, r: TaskResult) {
    exists i: nat :: i < |steps| && r.status == Fail && Records(steps[i], steps[i].task.limits.retry, trials(i), r)
  }

  /** A task of a suite whose preparation failed. */
  ghost predicate FromBroken(tasks: seq<Planned>, broken: set<string>, r: TaskResult) {
    exists i: nat :: i < |tasks| && tasks[i].suite in broken && NotRun(tasks[i], r)
  }

  /** The run of a task, which finished: `tasks` are those of suites whose preparation worked. */
  ghost predicate FromTask(tasks: seq<Planned>, retry: bool, trials: nat -> Trial, order: seq<nat>, r: TaskResult) {
    exists i: nat :: i < |tasks| && i in order && Records(tasks[i], retry && tasks[i].task.limits.retry, trials(i), r)
  }

  lemma {:induction false} StepsRecorded(steps: seq<Planned>, trials: nat -> Trial, cancelled: bool, k: nat)
    requires k < |Prepare(steps, trials, cancelled).results|
    ensures FromStep(steps, trials, Prepare(steps, trials, cancelled).results[k])
  {
    var init, last := steps[..|steps| - 1], steps[|steps| - 1];
    var before, r := Prepare(init, trials, cancelled), Prepare(steps, trials, cancelled).results[k];
    if k < |before.results| {
      StepsRecorded(init, trials, cancelled, k);
      var i: nat :| i < |init| && r.status == Fail && Records(init[i], init[i].task.limits.retry, trials(i), r);
      assert steps[i] == init[i];
    } else {
      AttemptsTell(last, true, trials(|init|));
      assert Records(steps[|init|], steps[|init|].task.limits.retry, trials(|init|), r);
    }
  }

  lemma BrokenRecorded(tasks: seq<Planned>, broken: set<string>, k: nat)
    requires k < |BrokenTasks(broken, tasks)|
    ensures FromBroken(tasks, broken, Map(BlockedResult, BrokenTasks(broken, tasks))[k])
  {
    var isBroken := (planned: Planned) => IsBroken(broken, planned);
    var planned := BrokenTasks(broken, tasks)[k];
    FilterMember(isBroken, tasks, planned);
    var i :| 0 <= i < |tasks| && tasks[i] == planned;
    assert NotRun(tasks[i], BlockedResult(planned));
  }

  lemma TaskRecorded(tasks: seq<Planned>, retry: bool, trials: nat -> Trial, order: seq<nat>, k: nat)
    requires k < |order| && forall j :: 0 <= j < |order| ==> order[j] < |tasks|
    ensures FromTask(tasks, retry, trials, order, PoolResults(tasks, order, retry, trials)[k])
  {
    AttemptsTell(tasks[order[k]], retry, trials(order[k]));
    assert order[k] in order;
  }

  lemma GatheredParts(plan: Plan, options: Options, env: Environment)
    requires options.concurrency > 0 && PoolOf(plan, options, env).Some?
    ensures Gathered(plan, options, env) ==
      Prepared(plan, env).results + Map(BlockedResult, BrokenTasks(Prepared(plan, env).broken, plan.tasks))
      + PoolPart(plan, options, env)
  {
  }

  lemma InParts<T>(a: seq<T>, b: seq<T>, c: seq<T>, k: nat)
    requires k < |a + b + c|
    ensures k < |a| ==> (a + b + c)[k] == a[k]
    ensures |a| <= k < |a| + |b| ==> (a + b + c)[k] == b[k - |a|]
    ensures |a| + |b| <= k ==> (a + b + c)[k] == c[k - |a| - |b|]
  {
  }

  /** What a gathered result is: a failing prepare step, a task held back by one, or a task that finished. */
  ghost predicate Accounted(plan: Plan, options: Options, env: Environment, r: TaskResult) {
    || FromStep(plan.prepare, env.steps, r)
    || FromBroken(plan.tasks, Prepared(plan, env).broken, r)
    || FromTask(GivenTasks(plan, env), options.retry, env.tasks, Pool.Finishes(env.events), r)
  }

  lemma PoolRecorded(plan: Plan, options: Options, env: Environment, k: nat)
    requires options.concurrency > 0 && PoolOf(plan, options, env).Some? && k < |PoolPart(plan, options, env)|
    ensures FromTask(GivenTasks(plan, env), options.retry, env.tasks, Pool.Finishes(env.events),
                     PoolPart(plan, options, env)[k])
  {
    PoolPositions(plan, options, env);
    PoolTold(plan, options, env);
    TaskRecorded(GivenTasks(plan, env), options.retry, env.tasks, PoolOf(plan, options, env).value.results, k);
  }

  lemma StepAccounted(plan: Plan, options: Options, env: Environment, k: nat)
    requires k < |Prepared(plan, env).results|
    ensures Accounted(plan, options, env, Prepared(plan, env).results[k])
  {
    StepsRecorded(plan.prepare, env.steps, env.cancelledEarly, k);
  }

  lemma BlockedAccounted(plan: Plan, options: Options, env: Environment, k: nat)
    requires k < |BrokenTasks(Prepared(plan, env).broken, plan.tasks)|
    ensures Accounted(plan, options, env, Map(BlockedResult, BrokenTasks(Prepared(plan, env).broken, plan.tasks))[k])
  {
    BrokenRecorded(plan.tasks, Prepared(plan, env).broken, k);
  }

  lemma PoolAccounted(plan: Plan, options: Options, env: Environment, k: nat)
    requires options.concurrency > 0 && PoolOf(plan, options, env).Some? && k < |PoolPart(plan, options, env)|
    ensures Accounted(plan, options, env, PoolPart(plan, options, env)[k])
  {
    PoolRecorded(plan, options, env, k);
  }

  lemma AllParts<T>(holds: T -> bool, a: seq<T>, b: seq<T>, c: seq<T>, k: nat)
    requires forall i :: 0 <= i < |a| ==> holds(a[i])
    requires forall i :: 0 <= i < |b| ==> holds(b[i])
    requires forall i :: 0 <= i < |c| ==> holds(c[i])
    requires k < |a + b + c|
    ensures holds((a + b + c)[k])
  {
    InParts(a, b, c, k);
  }

  lemma GatheredTells(plan: Plan, options: Options, env: Environment, k: nat)
    requires options.concurrency > 0 && PoolOf(plan, options, env).Some? && k < |Gathered(plan, options, env)|
    ensures Accounted(plan, options, env, Gathered(plan, options, env)[k])
  {
    ghost var holds := (r: TaskResult) => Accounted(plan, options, env, r);
    var steps, broken := Prepared(plan, env).results, BrokenTasks(Prepared(plan, env).broken, plan.tasks);
    var blocked, ran := Map(BlockedResult, broken), PoolPart(plan, options, env);
    forall i | 0 <= i < |steps| ensures holds(steps[i]) { StepAccounted(plan, options, env, i); }
    forall i | 0 <= i < |blocked| ensures holds(blocked[i]) { BlockedAccounted(plan, options, env, i); }
    forall i | 0 <= i < |ran| ensures holds(ran[i]) { PoolAccounted(plan, options, env, i); }
    GatheredParts(plan, options, env);
    AllParts(holds, steps, blocked, ran, k);
  }

  // ---------------------------------------------------------------- the search after the run

  /** The leaks an attempt has recorded. */
  function LeaksOf(attempt: Attempt): seq<string> {
    if attempt.leaked.Some? then attempt.leaked.value else []
  }

  /** What the search leaves of a result: leaks found are added to those recorded, and any find fails the task. */
  ghost predicate Searched(before: TaskResult, found: nat -> seq<string>, after: TaskResult) {
    && after.key == before.key && after.iteration == before.iteration && after.command == before.command
    && |after.attempts| == |before.attempts|
    && (forall j :: 0 <= j < |after.attempts| ==>
          && LeaksOf(after.attempts[j]) == LeaksOf(before.attempts[j]) + found(j)
          && (found(j) == [] ==> after.attempts[j] == before.attempts[j])
          && after.attempts[j].(leaked := None) == before.attempts[j].(leaked := None))
    && (after.status == before.status || after.status == Fail)
    && (after.status == Fail <==>
          before.status == Fail || exists j :: 0 <= j < |before.attempts| && found(j) != [])
  }

  lemma SweepTells(result: TaskResult, found: nat -> seq<string>)
    ensures Searched(result, found, SweepResult(result, found))
  {
  }

  // ---------------------------------------------------------------- the report

  function HowMany(status: Status, results: seq<TaskResult>): nat {
    |Filter((r: TaskResult) => r.status == status, results)|
  }

  lemma {:induction false} CountIs(status: Status, results: seq<TaskResult>)
    ensures Count(status, results) == HowMany(status, results)
  {
    if results != [] {
      CountIs(status, results[..|results| - 1]);
    }
  }

  /** Every suite of the table that runs on the host was asked for. */
  predicate AsksAll(cat: Catalogue, sel: Selection, host: string) {
    forall i :: 0 <= i < |cat.suites| && cat.runsOn(cat.suites[i].id, host) ==> cat.suites[i].id in sel.suites
  }

  lemma CompleteMeans(cat: Catalogue, sel: Selection, host: string)
    ensures IsComplete(cat, sel, host) <==>
      sel.shard.None? && sel.only.None? && sel.repeat == 1 && AsksAll(cat, sel, host)
  {
    var runs := (suite: Suite) => cat.runsOn(suite.id, host);
    var kept, all := Filter(runs, cat.suites), HostSuites(cat, host);
    forall suite: Suite
      ensures suite in kept <==> suite in cat.suites && cat.runsOn(suite.id, host)
    {
      FilterMember(runs, cat.suites, suite);
    }
    if AsksAll(cat, sel, host) {
      forall i | 0 <= i < |all|
        ensures all[i] in sel.suites
      {
        assert kept[i] in kept;
      }
    }
    if forall i :: 0 <= i < |all| ==> all[i] in sel.suites {
      forall i | 0 <= i < |cat.suites| && cat.runsOn(cat.suites[i].id, host)
        ensures cat.suites[i].id in sel.suites
      {
        assert cat.suites[i] in kept;
        var k :| 0 <= k < |kept| && kept[k] == cat.suites[i];
        assert all[k] == cat.suites[i].id;
      }
    }
  }

  /** What a report says of its own results. */
  predicate Summarised(header: Header, sel: Selection, cancelled: bool, complete: bool, r: Report) {
    && r.header == header && r.selection == sel && r.cancelled == cancelled && r.complete == complete
    && r.counts.pass == HowMany(Pass, r.tasks) && r.counts.flaky == HowMany(Flaky, r.tasks)
    && r.counts.fail == HowMany(Fail, r.tasks) && r.counts.blocked == HowMany(Blocked, r.tasks)
    && (r.passed <==> !cancelled && r.counts.fail == 0 && r.counts.blocked == 0)
  }

  lemma WriteTells(header: Header, sel: Selection, results: seq<TaskResult>, cancelled: bool, complete: bool)
    ensures Summarised(header, sel, cancelled, complete, WriteReport(header, sel, results, cancelled, complete))
  {
    CountIs(Pass, results);
    CountIs(Flaky, results);
    CountIs(Fail, results);
    CountIs(Blocked, results);
  }

  /** Everything the host can run was asked for, whole and once, and no signal stopped the pool. */
  predicate RanAll(cat: Catalogue, sel: Selection, host: string, stopped: bool) {
    !stopped && sel.shard.None? && sel.only.None? && sel.repeat == 1 && AsksAll(cat, sel, host)
  }

  /**
   * The report's own fields: whose run it is of, how many results have each status, whether a signal arrived, whether
   * everything the host can run was asked for, and the verdict.
   */
  lemma ReportTells(cat: Catalogue, options: Options, env: Environment)
    requires Ends(cat, options, env)
    ensures var plan := PlanOf(cat, options, env).value;
      var stopped := Prepared(plan, env).cancelling || Pool.Cancel in env.events;
      Summarised(Header(7, true, env.commit, env.dirty, env.host), options.selection, stopped || env.cancelledLate,
                 RanAll(cat, options.selection, env.host.platform, stopped), RunChecks(cat, options, env))
  {
    var plan, sel := PlanOf(cat, options, env).value, options.selection;
    var gathered := Gathered(plan, options, env);
    var header := Header(7, true, env.commit, env.dirty, env.host);
    PoolTold(plan, options, env);
    CompleteMeans(cat, sel, env.host.platform);
    if PoolOf(plan, options, env).value.cancelling {
      WriteTells(header, sel, gathered + Map(BlockedResult, Unobserved(gathered, plan.tasks)), true, false);
    } else {
      WriteTells(header, sel, Sort(PlanOrder(plan.tasks), Sweep(gathered, env.found)), env.cancelledLate,
                 IsComplete(cat, sel, env.host.platform));
    }
  }

  /** What became of one gathered result in the report. */
  ghost predicate Reported(plan: Plan, options: Options, env: Environment, k: nat, r: TaskResult)
    requires options.concurrency > 0 && PoolOf(plan, options, env).Some? && k < |Gathered(plan, options, env)|
  {
    var before := Gathered(plan, options, env)[k];
    Accounted(plan, options, env, before) && Searched(before, FoundFor(env.found, k), r)
  }

  /** In a run no signal stopped, each result reported is a gathered one after the search for leaks. */
  lemma ResultsTell(cat: Catalogue, options: Options, env: Environment, i: nat) returns (k: nat)
    requires Ends(cat, options, env) && i < |RunChecks(cat, options, env).tasks|
    requires !PoolOf(PlanOf(cat, options, env).value, options, env).value.cancelling
    ensures var plan := PlanOf(cat, options, env).value;
      k < |Gathered(plan, options, env)| && Reported(plan, options, env, k, RunChecks(cat, options, env).tasks[i])
  {
    var plan, results := PlanOf(cat, options, env).value, RunChecks(cat, options, env).tasks;
    var swept := Sweep(Gathered(plan, options, env), env.found);
    SortPermutes(PlanOrder(plan.tasks), swept);
    assert results[i] in multiset(swept);
    assert results[i] in swept;
    k :| 0 <= k < |swept| && swept[k] == results[i];
    GatheredTells(plan, options, env, k);
    SweepTells(Gathered(plan, options, env)[k], FoundFor(env.found, k));
  }

  /** In a run a signal stopped, what was gathered is reported as it is, and every task without a result as not run. */
  lemma StoppedTells(cat: Catalogue, options: Options, env: Environment, i: nat)
    requires Ends(cat, options, env) && i < |RunChecks(cat, options, env).tasks|
    requires PoolOf(PlanOf(cat, options, env).value, options, env).value.cancelling
    ensures var plan, results := PlanOf(cat, options, env).value, RunChecks(cat, options, env).tasks;
      var gathered := Gathered(plan, options, env);
      && (i < |gathered| ==> results[i] == gathered[i] && Accounted(plan, options, env, gathered[i]))
      && (i >= |gathered| ==> exists p :: p in plan.tasks && NotRun(p, results[i]) && Slot(p) !in Map(SlotOf, gathered))
  {
    var plan := PlanOf(cat, options, env).value;
    var gathered := Gathered(plan, options, env);
    if i < |gathered| {
      GatheredTells(plan, options, env, i);
    } else {
      UnobservedTells(gathered, plan.tasks, i - |gathered|);
    }
  }

  lemma UnobservedTells(gathered: seq<TaskResult>, tasks: seq<Planned>, i: nat)
    requires i < |Unobserved(gathered, tasks)|
    ensures var p := Unobserved(gathered, tasks)[i];
      p in tasks && NotRun(p, BlockedResult(p)) && Slot(p) !in Map(SlotOf, gathered)
  {
    var observed := Map(SlotOf, gathered);
    FilterMember((planned: Planned) => Slot(planned) !in observed, tasks, Unobserved(gathered, tasks)[i]);
  }

  // ---------------------------------------------------------------- the order of the report

  lemma {:induction false} PlaceFound(tasks: seq<Planned>, a: nat)
    requires NoRepeat(Map(Slot, tasks)) && a < |tasks|
    ensures PlaceIn(tasks, Slot(tasks[a])) == a
  {
    var last := |tasks| - 1;
    if a < last {
      assert Map(Slot, tasks)[a] != Map(Slot, tasks)[last];
      assert forall i :: 0 <= i < last ==> Map(Slot, tasks[..last])[i] == Map(Slot, tasks)[i];
      PlaceFound(tasks[..last], a);
    }
  }

  lemma {:induction false} PlaceMissing(tasks: seq<Planned>, slot: SlotName)
    requires forall a :: 0 <= a < |tasks| ==> Slot(tasks[a]) != slot
    ensures PlaceIn(tasks, slot) == -1
  {
    if tasks != [] {
      PlaceMissing(tasks[..|tasks| - 1], slot);
    }
  }

  /**
   * The report follows the plan: of two planned tasks' results the earlier planned comes first, and failed prepare
   * steps come before all.
   */
  lemma ReportOrdered(cat: Catalogue, options: Options, env: Environment, i: nat, j: nat, b: nat)
    requires WellNamed(cat) && Ends(cat, options, env) && i < j < |RunChecks(cat, options, env).tasks|
    requires !PoolOf(PlanOf(cat, options, env).value, options, env).value.cancelling
    requires b < |PlanOf(cat, options, env).value.tasks|
    requires SlotOf(RunChecks(cat, options, env).tasks[i]) == Slot(PlanOf(cat, options, env).value.tasks[b])
    ensures var tasks, slot := PlanOf(cat, options, env).value.tasks, SlotOf(RunChecks(cat, options, env).tasks[j]);
      exists c :: b <= c < |tasks| && slot == Slot(tasks[c])
  {
    var plan, results := PlanOf(cat, options, env).value, RunChecks(cat, options, env).tasks;
    SortSorts(PlanOrder(plan.tasks), Sweep(Gathered(plan, options, env), env.found));
    assert PlanOrder(plan.tasks)(results[i], results[j]);
    SlotsOnce(cat, options.selection, Some(env.host.platform));
    PlaceFound(plan.tasks, b);
    PlacedAt(plan.tasks, SlotOf(results[j]), b);
  }

  lemma PlacedAt(tasks: seq<Planned>, slot: SlotName, b: nat)
    requires NoRepeat(Map(Slot, tasks)) && PlaceIn(tasks, slot) >= b
    ensures exists c :: b <= c < |tasks| && slot == Slot(tasks[c])
  {
    if forall a :: 0 <= a < |tasks| ==> Slot(tasks[a]) != slot {
      PlaceMissing(tasks, slot);
    } else {
      var a: nat :| a < |tasks| && Slot(tasks[a]) == slot;
      PlaceFound(tasks, a);
    }
  }

  // ---------------------------------------------------------------- tasks at the same time

  /**
   * At every moment of a run, whatever comes next, no more tasks run than asked for, and of two running tasks one at
   * least is not of the serial class.
   */
  lemma SerialApart(plan: Plan, options: Options, env: Environment, sofar: seq<Pool.Event>, a: nat, b: nat)
    requires options.concurrency > 0
    requires
      Pool.Run(PoolConfig(GivenTasks(plan, env), options.concurrency), Prepared(plan, env).cancelling, sofar).Some?
    ensures var p := Pool.Run(PoolConfig(GivenTasks(plan, env), options.concurrency), Prepared(plan, env).cancelling,
                              sofar).value;
      var tasks := GivenTasks(plan, env);
      && |p.running| <= options.concurrency
      && (a in Pool.Active(p) && b in Pool.Active(p) && a != b ==>
            a < |tasks| && b < |tasks| && !(tasks[a].task.limits.serial && tasks[b].task.limits.serial))
  {
    var cfg := PoolConfig(GivenTasks(plan, env), options.concurrency);
    Pool.PoolSafe(cfg, Prepared(plan, env).cancelling, sofar);
    Pool.RunKeeps(cfg, Prepared(plan, env).cancelling, sofar);
    var p := Pool.Run(cfg, Prepared(plan, env).cancelling, sofar).value;
    if a in Pool.Active(p) && b in Pool.Active(p) {
      Pool.InOnePlace(cfg, p, a);
      Pool.InOnePlace(cfg, p, b);
    }
  }
}
