/** Whole-run accounting: whatever fails, retries or is cancelled, the report holds each planned task once. */
module RunAccounts {
  import opened Wrappers
  import opened Sequences
  import opened Sorting
  import opened CheckPlan
  import opened PlanFacts
  import opened CheckRun
  import Pool

  type SlotName = (Key, nat)

  // ---------------------------------------------------------------- prepare steps

  /** Only failed prepare steps leave a result, each the failing run of a step of the plan. */
  ghost predicate FailedSteps(steps: seq<Planned>, results: seq<TaskResult>) {
    forall i :: 0 <= i < |results| ==>
      results[i].status == Fail && exists j :: 0 <= j < |steps| && SlotOf(results[i]) == Slot(steps[j])
  }

  ghost predicate AnyFailed(prep: Preparation) {
    exists key :: key in prep.prepared && !prep.prepared[key]
  }

  lemma {:induction false} PrepareFails(steps: seq<Planned>, trials: nat -> Trial, cancelled: bool)
    ensures FailedSteps(steps, Prepare(steps, trials, cancelled).results)
    ensures Prepare(steps, trials, cancelled).broken != {} ==> Prepare(steps, trials, cancelled).results != []
    ensures AnyFailed(Prepare(steps, trials, cancelled)) ==> Prepare(steps, trials, cancelled).results != []
  {
    if steps != [] {
      var init, last := steps[..|steps| - 1], steps[|steps| - 1];
      PrepareFails(init, trials, cancelled);
      var before, after := Prepare(init, trials, cancelled), Prepare(steps, trials, cancelled);
      forall i | 0 <= i < |after.results|
        ensures after.results[i].status == Fail
        ensures exists j :: 0 <= j < |steps| && SlotOf(after.results[i]) == Slot(steps[j])
      {
        if i < |before.results| {
          var j :| 0 <= j < |init| && SlotOf(before.results[i]) == Slot(init[j]);
          assert Slot(steps[j]) == Slot(init[j]);
        } else {
          assert SlotOf(after.results[i]) == Slot(steps[|steps| - 1]);
        }
      }
    }
  }

  predicate Runs(prep: Preparation, planned: Planned) {
    !prep.cancelling && planned.suite !in prep.broken && StepOf(planned) !in prep.prepared
  }

  /** The commands the preparation runs, in order. */
  function Executed(steps: seq<Planned>, trials: nat -> Trial, cancelled: bool): seq<StepKey> {
    if steps == [] then []
    else
      var init, last := steps[..|steps| - 1], steps[|steps| - 1];
      Executed(init, trials, cancelled) + if Runs(Prepare(init, trials, cancelled), last) then [StepOf(last)] else []
  }

  /** No command is run twice, however many suites ask for it: those run are those whose outcome is known. */
  lemma {:induction false} StepsRunOnce(steps: seq<Planned>, trials: nat -> Trial, cancelled: bool)
    ensures NoRepeat(Executed(steps, trials, cancelled))
    ensures forall key ::
      key in Executed(steps, trials, cancelled) <==> key in Prepare(steps, trials, cancelled).prepared
  {
    if steps != [] {
      StepsRunOnce(steps[..|steps| - 1], trials, cancelled);
    }
  }

  /** Some step of the suite is known to have failed. */
  ghost predicate Failed(prep: Preparation, steps: seq<Planned>, suite: string) {
    exists i :: 0 <= i < |steps| && steps[i].suite == suite
      && StepOf(steps[i]) in prep.prepared && !prep.prepared[StepOf(steps[i])]
  }

  ghost predicate Worked(prep: Preparation, steps: seq<Planned>, suite: string) {
    forall i :: 0 <= i < |steps| && steps[i].suite == suite ==>
      StepOf(steps[i]) in prep.prepared && prep.prepared[StepOf(steps[i])]
  }

  lemma StepKeepsKnown(prep: Preparation, planned: Planned, trial: Trial)
    ensures var next := PrepareStep(prep, planned, trial);
      && prep.broken <= next.broken <= prep.broken + {planned.suite}
      && (forall key :: key in prep.prepared ==> key in next.prepared && next.prepared[key] == prep.prepared[key])
      && (!next.cancelling && planned.suite !in next.broken ==>
           StepOf(planned) in next.prepared && next.prepared[StepOf(planned)])
      && (planned.suite in next.broken && planned.suite !in prep.broken ==>
           StepOf(planned) in next.prepared && !next.prepared[StepOf(planned)])
      && (!next.cancelling ==> !prep.cancelling)
  {
  }

  /**
   * What the preparation decides: a suite is broken only if one of its steps failed, here or for another suite, and, if
   * nothing was cancelled, every suite that is not broken has had all its steps work.
   */
  lemma {:induction false} PreparationDecides(steps: seq<Planned>, trials: nat -> Trial, cancelled: bool, suite: string)
    ensures var prep := Prepare(steps, trials, cancelled);
      && (suite in prep.broken ==> Failed(prep, steps, suite))
      && (!prep.cancelling && suite !in prep.broken ==> Worked(prep, steps, suite))
  {
    if steps != [] {
      var init, last := steps[..|steps| - 1], steps[|steps| - 1];
      var prep, next := Prepare(init, trials, cancelled), Prepare(steps, trials, cancelled);
      PreparationDecides(init, trials, cancelled, suite);
      StepKeepsKnown(prep, last, trials(|init|));
      assert forall i :: 0 <= i < |init| ==> steps[i] == init[i];
      if suite in next.broken {
        if suite in prep.broken {
          var i :| 0 <= i < |init| && init[i].suite == suite
                   && StepOf(init[i]) in prep.prepared && !prep.prepared[StepOf(init[i])];
          assert steps[i] == init[i];
        } else {
          assert steps[|steps| - 1].suite == suite;
        }
      }
    }
  }

  // ---------------------------------------------------------------- slots of the pieces

  function Slots(tasks: seq<Planned>): multiset<SlotName> { multiset(Map(Slot, tasks)) }

  function ResultSlots(results: seq<TaskResult>): multiset<SlotName> { multiset(Map(SlotOf, results)) }

  lemma BlockedSlots(tasks: seq<Planned>)
    ensures Map(SlotOf, Map(BlockedResult, tasks)) == Map(Slot, tasks)
  {
  }

  lemma SlotsAppend(a: seq<TaskResult>, b: seq<TaskResult>)
    ensures ResultSlots(a + b) == ResultSlots(a) + ResultSlots(b)
  {
    assert Map(SlotOf, a + b) == Map(SlotOf, a) + Map(SlotOf, b);
  }

  function SlotAt(tasks: seq<Planned>): nat -> SlotName {
    (i: nat) => if i < |tasks| then Slot(tasks[i]) else (Key([], []), 0)
  }

  lemma PoolSlots(tasks: seq<Planned>, order: seq<nat>, retry: bool, trials: nat -> Trial)
    requires forall i :: 0 <= i < |order| ==> order[i] < |tasks|
    ensures Map(SlotOf, PoolResults(tasks, order, retry, trials)) == Map(SlotAt(tasks), order)
  {
  }

  lemma AllSlots(tasks: seq<Planned>)
    ensures Map(SlotAt(tasks), seq<nat>(|tasks|, (i: nat) => i)) == Map(Slot, tasks)
  {
  }

  /** What the pool finished and what it never started are, by name, all the tasks it was given. */
  lemma PoolAccounts(tasks: seq<Planned>, order: seq<nat>, pending: seq<nat>, retry: bool, trials: nat -> Trial)
    requires forall i :: 0 <= i < |order| ==> order[i] < |tasks|
    requires multiset(order) + multiset(pending) == multiset(seq<nat>(|tasks|, (i: nat) => i))
    ensures ResultSlots(PoolResults(tasks, order, retry, trials)) + multiset(Map(SlotAt(tasks), pending)) ==
            Slots(tasks)
  {
    PoolSlots(tasks, order, retry, trials);
    AllSlots(tasks);
    MapAppends(SlotAt(tasks), order, pending);
    MapPermutes(SlotAt(tasks), order + pending, seq<nat>(|tasks|, (i: nat) => i));
  }

  // ---------------------------------------------------------------- what has been gathered when the pool returns

  function GivenTasks(plan: Plan, env: Environment): seq<Planned> {
    RunnableTasks(Prepared(plan, env).broken, plan.tasks)
  }

  /**
   * The pool has finished every task given it but those it never started, and there are none of those if not cancelled.
   */
  lemma PoolDone(plan: Plan, options: Options, env: Environment)
    requires options.concurrency > 0 && PoolOf(plan, options, env).Some?
    requires PoolOf(plan, options, env).value.control.Returned?
    ensures var p := PoolOf(plan, options, env).value;
      && multiset(p.results) + multiset(p.pending) == multiset(seq<nat>(|GivenTasks(plan, env)|, (i: nat) => i))
      && (!p.cancelling ==> p.pending == [])
  {
    var p, prep := PoolOf(plan, options, env).value, Prepared(plan, env);
    var cfg := PoolConfig(GivenTasks(plan, env), options.concurrency);
    Pool.ReturnsEverything(cfg, prep.cancelling, env.events);
    Pool.RunKeeps(cfg, prep.cancelling, env.events);
    assert Pool.Tasks(cfg) == seq<nat>(|GivenTasks(plan, env)|, (i: nat) => i);
  }

  function PoolPart(plan: Plan, options: Options, env: Environment): seq<TaskResult>
    requires options.concurrency > 0 && PoolOf(plan, options, env).Some?
  {
    PoolPositions(plan, options, env);
    PoolResults(GivenTasks(plan, env), PoolOf(plan, options, env).value.results, options.retry, env.tasks)
  }

  lemma GatheredSlots(plan: Plan, options: Options, env: Environment)
    requires options.concurrency > 0 && PoolOf(plan, options, env).Some?
    ensures ResultSlots(Gathered(plan, options, env)) ==
      ResultSlots(Prepared(plan, env).results) + Slots(BrokenTasks(Prepared(plan, env).broken, plan.tasks))
      + ResultSlots(PoolPart(plan, options, env))
  {
    var prep, broken := Prepared(plan, env).results, BrokenTasks(Prepared(plan, env).broken, plan.tasks);
    BlockedSlots(broken);
    SlotsAppend(prep, Map(BlockedResult, broken));
    SlotsAppend(prep + Map(BlockedResult, broken), PoolPart(plan, options, env));
  }

  lemma PoolPartSlots(plan: Plan, options: Options, env: Environment)
    requires options.concurrency > 0 && PoolOf(plan, options, env).Some?
    requires PoolOf(plan, options, env).value.control.Returned?
    ensures var pending := PoolOf(plan, options, env).value.pending;
      ResultSlots(PoolPart(plan, options, env)) + multiset(Map(SlotAt(GivenTasks(plan, env)), pending)) ==
      Slots(GivenTasks(plan, env))
  {
    var p := PoolOf(plan, options, env).value;
    PoolDone(plan, options, env);
    PoolPositions(plan, options, env);
    PoolAccounts(GivenTasks(plan, env), p.results, p.pending, options.retry, env.tasks);
  }

  lemma BrokenSplit(broken: set<string>, tasks: seq<Planned>)
    ensures Slots(tasks) == Slots(BrokenTasks(broken, tasks)) + Slots(RunnableTasks(broken, tasks))
  {
    MapSplit(Slot, (planned: Planned) => IsBroken(broken, planned), tasks);
  }

  /** By name: the failed prepare steps and every task, except those a cancelled pool never started. */
  lemma GatheredAccounts(plan: Plan, options: Options, env: Environment) returns (left: multiset<SlotName>)
    requires options.concurrency > 0 && PoolOf(plan, options, env).Some?
    requires PoolOf(plan, options, env).value.control.Returned?
    ensures ResultSlots(Gathered(plan, options, env)) + left ==
            ResultSlots(Prepared(plan, env).results) + Slots(plan.tasks)
    ensures !PoolOf(plan, options, env).value.cancelling ==> left == multiset{}
  {
    var pending := PoolOf(plan, options, env).value.pending;
    left := multiset(Map(SlotAt(GivenTasks(plan, env)), pending));
    GatheredSlots(plan, options, env);
    PoolPartSlots(plan, options, env);
    BrokenSplit(Prepared(plan, env).broken, plan.tasks);
    PoolDone(plan, options, env);
  }

  // ---------------------------------------------------------------- sorting, sweeping and filling in

  lemma SweptSlots(results: seq<TaskResult>, found: (nat, nat) -> seq<string>)
    ensures Map(SlotOf, Sweep(results, found)) == Map(SlotOf, results)
  {
  }

  lemma SortedSlots(tasks: seq<Planned>, results: seq<TaskResult>)
    ensures ResultSlots(Sort(PlanOrder(tasks), results)) == ResultSlots(results)
  {
    SortPermutes(PlanOrder(tasks), results);
    MapPermutes(SlotOf, Sort(PlanOrder(tasks), results), results);
  }

  /** The names in the plan are used once, and no prepare step has one of them. */
  ghost predicate Apart(plan: Plan) {
    && NoRepeat(Map(Slot, plan.tasks))
    && forall i, j :: 0 <= i < |plan.prepare| && 0 <= j < |plan.tasks| ==> Slot(plan.prepare[i]) != Slot(plan.tasks[j])
  }

  lemma PlanApart(cat: Catalogue, sel: Selection, host: Option<string>)
    requires WellNamed(cat) && PlanChecks(cat, sel, host).Ok?
    ensures Apart(PlanChecks(cat, sel, host).value)
  {
    var plan := PlanChecks(cat, sel, host).value;
    SlotsOnce(cat, sel, host);
    forall i, j | 0 <= i < |plan.prepare| && 0 <= j < |plan.tasks|
      ensures Slot(plan.prepare[i]) != Slot(plan.tasks[j])
    {
      PrepareApart(cat, sel, host, i, j);
    }
  }

  /** A name of a planned task is not the name of a failed prepare step. */
  lemma StepsElsewhere(plan: Plan, results: seq<TaskResult>, slot: SlotName)
    requires Apart(plan) && FailedSteps(plan.prepare, results) && slot in Slots(plan.tasks)
    ensures ResultSlots(results)[slot] == 0
  {
    assert slot in Map(Slot, plan.tasks);
    assert slot in ResultSlots(results) <==> slot in Map(SlotOf, results);
  }

  lemma {:induction false} MapFilterCounts(tasks: seq<Planned>, seen: seq<SlotName>, slot: SlotName)
    ensures Slots(Filter((planned: Planned) => Slot(planned) !in seen, tasks))[slot] ==
            if slot in seen then 0 else Slots(tasks)[slot]
  {
    if tasks != [] {
      var keep := (planned: Planned) => Slot(planned) !in seen;
      var init, last := tasks[..|tasks| - 1], tasks[|tasks| - 1];
      MapFilterCounts(init, seen, slot);
      assert Filter(keep, tasks) == Filter(keep, init) + if keep(last) then [last] else [];
      MapAppends(Slot, init, [last]);
      MapAppends(Slot, Filter(keep, init), if keep(last) then [last] else []);
      assert tasks == init + [last];
    }
  }

  /** What a cancelled run fills in is exactly what was missing. */
  lemma FillsIn(plan: Plan, steps: seq<TaskResult>, gathered: seq<TaskResult>, left: multiset<SlotName>)
    requires Apart(plan) && FailedSteps(plan.prepare, steps)
    requires ResultSlots(gathered) + left == ResultSlots(steps) + Slots(plan.tasks)
    requires ResultSlots(steps) <= ResultSlots(gathered)
    ensures ResultSlots(gathered) + Slots(Unobserved(gathered, plan.tasks)) == ResultSlots(steps) + Slots(plan.tasks)
  {
    var all, seen := Slots(plan.tasks), Map(SlotOf, gathered);
    DistinctCounts(Map(Slot, plan.tasks));
    forall slot: SlotName
      ensures ResultSlots(gathered)[slot] + Slots(Unobserved(gathered, plan.tasks))[slot] ==
              ResultSlots(steps)[slot] + all[slot]
    {
      MapFilterCounts(plan.tasks, seen, slot);
      assert slot in seen <==> ResultSlots(gathered)[slot] > 0;
      assert (ResultSlots(gathered) + left)[slot] == (ResultSlots(steps) + all)[slot];
      if slot in all {
        StepsElsewhere(plan, steps, slot);
      }
    }
  }
}
