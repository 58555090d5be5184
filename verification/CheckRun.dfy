/**
 * The check runner (scripts/ci/run.ts) from its plan to its report: attempts and retries, prepare steps, blocked
 * suites, the pool, cancellation, the late sweep for leaked processes, and the report's counts and status.
 *
 * What commands and signals do is the environment's choice, given as trials; every theorem holds for all of them.
 */
module CheckRun {
  import opened Wrappers
  import opened Sequences
  import opened Sorting
  import opened CheckPlan
  import opened PlanFacts
  import Pool

  const SCHEMA_VERSION := 7

  datatype Attempt = Attempt(exitCode: int, durationMs: int, timedOut: bool, strays: bool, leaked: Option<seq<string>>)

  datatype Status = Pass | Fail | Flaky | Blocked

  datatype TaskResult = TaskResult(
    key: Key,
    iteration: nat,
    command: seq<string>,
    status: Status,
    attempts: seq<Attempt>)

  datatype Counts = Counts(pass: nat, flaky: nat, fail: nat, blocked: nat)

  datatype Host = Host(platform: string, bun: string)

  /** What a report says it is about. `ours` is whether its kind is that of a check report. */
  datatype Header = Header(schemaVersion: int, ours: bool, commit: string, dirty: bool, host: Host)

  datatype Report = Report(
    header: Header,
    selection: Selection,
    complete: bool,
    passed: bool,
    cancelled: bool,
    counts: Counts,
    tasks: seq<TaskResult>)

  // ---------------------------------------------------------------- one task

  /** What one supervised command did, and the harness processes found running after it. */
  datatype Outcome = Outcome(exitCode: int, durationMs: nat, timedOut: bool, strays: bool, found: seq<string>)

  /**
   * What the environment does to one task: its first and, if it gets one, second attempt, and when a signal arrived.
   */
  datatype Trial = Trial(first: Outcome, second: Outcome, cancelledFirst: bool, cancelledSecond: bool)

  function AttemptTask(outcome: Outcome): Attempt {
    Attempt(outcome.exitCode, outcome.durationMs, outcome.timedOut, outcome.strays,
            if outcome.found == [] then None else Some(outcome.found))
  }

  predicate Passed(attempt: Attempt) {
    attempt.exitCode == 0 && !attempt.timedOut && attempt.leaked.None? && !attempt.strays
  }

  function RunTask(planned: Planned, retry: bool, trial: Trial): TaskResult {
    var first, second := AttemptTask(trial.first), AttemptTask(trial.second);
    var again := !trial.cancelledFirst && !Passed(first) && retry && planned.task.limits.retry;
    TaskResult(TaskKey(planned), planned.iteration, planned.task.run,
               if Passed(first) then Pass else if again && Passed(second) then Flaky else Fail,
               if again then [first, second] else [first])
  }

  predicate Interrupted(trial: Trial) { trial.cancelledFirst || trial.cancelledSecond }

  function BlockedResult(planned: Planned): TaskResult {
    TaskResult(TaskKey(planned), planned.iteration, planned.task.run, Blocked, [])
  }

  // ---------------------------------------------------------------- prepare steps

  /** Where and how a prepare step runs: steps that agree run once. */
  type StepKey = (string, seq<string>)

  function StepOf(planned: Planned): StepKey { (planned.task.cwd, planned.task.run) }

  datatype Preparation = Preparation(
    broken: set<string>,
    prepared: map<StepKey, bool>,
    results: seq<TaskResult>,
    cancelling: bool)

  function PrepareStep(prep: Preparation, planned: Planned, trial: Trial): Preparation {
    if prep.cancelling || planned.suite in prep.broken then prep
    else if StepOf(planned) in prep.prepared then
      if prep.prepared[StepOf(planned)] then prep else prep.(broken := prep.broken + {planned.suite})
    else
      var result := RunTask(planned, true, trial);
      var next := prep.(prepared := prep.prepared[StepOf(planned) := result.status != Fail],
                        cancelling := Interrupted(trial));
      if result.status == Fail then next.(broken := prep.broken + {planned.suite}, results := prep.results + [result])
      else next
  }

  /** The first `n` prepare steps, the i-th meeting the i-th trial. */
  function Prepare(steps: seq<Planned>, trials: nat -> Trial, cancelled: bool): Preparation {
    if steps == [] then Preparation({}, map[], [], cancelled)
    else PrepareStep(Prepare(steps[..|steps| - 1], trials, cancelled), steps[|steps| - 1], trials(|steps| - 1))
  }

  // ---------------------------------------------------------------- the tasks

  predicate IsBroken(broken: set<string>, planned: Planned) { planned.suite in broken }

  function BrokenTasks(broken: set<string>, tasks: seq<Planned>): seq<Planned> {
    Filter((planned: Planned) => IsBroken(broken, planned), tasks)
  }

  function RunnableTasks(broken: set<string>, tasks: seq<Planned>): seq<Planned> {
    Filter(Not((planned: Planned) => IsBroken(broken, planned)), tasks)
  }

  function PoolConfig(tasks: seq<Planned>, concurrency: nat): Pool.Config {
    Pool.Config(seq(|tasks|, i requires 0 <= i < |tasks| => tasks[i].task.limits.serial), concurrency)
  }

  /** The result of the task at each position in the order the pool finished them. */
  function PoolResults(tasks: seq<Planned>, order: seq<nat>, retry: bool, trials: nat -> Trial): seq<TaskResult>
    requires forall i :: 0 <= i < |order| ==> order[i] < |tasks|
  {
    seq(|order|, i requires 0 <= i < |order| => RunTask(tasks[order[i]], retry, trials(order[i])))
  }

  // ---------------------------------------------------------------- the end of the run

  function SlotOf(result: TaskResult): (Key, nat) { (result.key, result.iteration) }

  /** A cancelled run records every task it has no result for as blocked. */
  function Unobserved(results: seq<TaskResult>, tasks: seq<Planned>): seq<Planned> {
    var observed := Map(SlotOf, results);
    Filter((planned: Planned) => Slot(planned) !in observed, tasks)
  }

  function SweepAttempt(attempt: Attempt, found: seq<string>): Attempt {
    if found == [] then attempt
    else attempt.(leaked := Some((if attempt.leaked.Some? then attempt.leaked.value else []) + found))
  }

  /** Processes found after the run under the roots an attempt recorded fail its task. */
  function SweepResult(result: TaskResult, found: nat -> seq<string>): TaskResult {
    var n := |result.attempts|;
    result.(attempts := seq(n, j requires 0 <= j < n => SweepAttempt(result.attempts[j], found(j))),
            status := if exists j :: 0 <= j < n && found(j) != [] then Fail else result.status)
  }

  function FoundFor(found: (nat, nat) -> seq<string>, i: nat): nat -> seq<string> {
    (j: nat) => found(i, j)
  }

  function Sweep(results: seq<TaskResult>, found: (nat, nat) -> seq<string>): seq<TaskResult> {
    seq(|results|, (i: nat) requires i < |results| => SweepResult(results[i], FoundFor(found, i)))
  }

  /** The place of a result in the plan's order; a prepare step comes before all. */
  function PlaceIn(tasks: seq<Planned>, slot: (Key, nat)): int {
    if tasks == [] then -1
    else if Slot(tasks[|tasks| - 1]) == slot then |tasks| - 1 else PlaceIn(tasks[..|tasks| - 1], slot)
  }

  function PlanOrder(tasks: seq<Planned>): Order<TaskResult> {
    (a: TaskResult, b: TaskResult) => PlaceIn(tasks, SlotOf(a)) <= PlaceIn(tasks, SlotOf(b))
  }

  function Count(status: Status, results: seq<TaskResult>): nat {
    if results == [] then 0
    else Count(status, results[..|results| - 1]) + if results[|results| - 1].status == status then 1 else 0
  }

  function CountAll(results: seq<TaskResult>): Counts {
    Counts(Count(Pass, results), Count(Flaky, results), Count(Fail, results), Count(Blocked, results))
  }

  function HostSuites(cat: Catalogue, host: string): seq<string> {
    Map(SuiteId, Filter((suite: Suite) => cat.runsOn(suite.id, host), cat.suites))
  }

  predicate IsComplete(cat: Catalogue, sel: Selection, host: string) {
    var all := HostSuites(cat, host);
    sel.shard.None? && sel.only.None? && sel.repeat == 1 && forall i :: 0 <= i < |all| ==> all[i] in sel.suites
  }

  function WriteReport(header: Header, sel: Selection, results: seq<TaskResult>, cancelling: bool,
          complete: bool): Report
  {
    var counts := CountAll(results);
    Report(header, sel, complete, !cancelling && counts.fail + counts.blocked == 0, cancelling, counts, results)
  }

  // ---------------------------------------------------------------- a whole run

  /** How a run was asked for. */
  datatype Options = Options(selection: Selection, retry: bool, concurrency: nat)

  /** Everything the environment decides in one run. */
  datatype Environment = Environment(
    commit: string,
    dirty: bool,
    host: Host,
    cancelledEarly: bool,
    steps: nat -> Trial,
    tasks: nat -> Trial,
    events: seq<Pool.Event>,
    found: (nat, nat) -> seq<string>,
    cancelledLate: bool)

  function PlanOf(cat: Catalogue, options: Options, env: Environment): Result<Plan, PlanError> {
    PlanChecks(cat, options.selection, Some(env.host.platform))
  }

  function Prepared(plan: Plan, env: Environment): Preparation {
    Prepare(plan.prepare, env.steps, env.cancelledEarly)
  }

  function PoolOf(plan: Plan, options: Options, env: Environment): Option<Pool.Pool> {
    var prep := Prepared(plan, env);
    Pool.Run(PoolConfig(RunnableTasks(prep.broken, plan.tasks), options.concurrency), prep.cancelling, env.events)
  }

  /** The plan has a task to run, and the pool, meeting these events, comes to its end. */
  predicate Ends(cat: Catalogue, options: Options, env: Environment) {
    && options.concurrency > 0
    && PlanOf(cat, options, env).Ok? && PlanOf(cat, options, env).value.tasks != []
    && PoolOf(PlanOf(cat, options, env).value, options, env).Some?
    && PoolOf(PlanOf(cat, options, env).value, options, env).value.control.Returned?
  }

  /** A pool that has returned holds positions of the tasks it was given. */
  lemma PoolPositions(plan: Plan, options: Options, env: Environment)
    requires options.concurrency > 0 && PoolOf(plan, options, env).Some?
    ensures var order := PoolOf(plan, options, env).value.results;
      forall i :: 0 <= i < |order| ==> order[i] < |RunnableTasks(Prepared(plan, env).broken, plan.tasks)|
  {
    var prep := Prepared(plan, env);
    var cfg := PoolConfig(RunnableTasks(prep.broken, plan.tasks), options.concurrency);
    Pool.RunKeeps(cfg, prep.cancelling, env.events);
    var p := PoolOf(plan, options, env).value;
    forall i | 0 <= i < |p.results|
      ensures p.results[i] < |cfg.serial|
    {
      Pool.InOnePlace(cfg, p, p.results[i]);
    }
  }

  /** The results when the pool has returned: failed prepare steps, tasks of broken suites, and what the pool ran. */
  function Gathered(plan: Plan, options: Options, env: Environment): seq<TaskResult>
    requires options.concurrency > 0 && PoolOf(plan, options, env).Some?
  {
    var prep := Prepared(plan, env);
    PoolPositions(plan, options, env);
    var order := PoolOf(plan, options, env).value.results;
    prep.results + Map(BlockedResult, BrokenTasks(prep.broken, plan.tasks))
    + PoolResults(RunnableTasks(prep.broken, plan.tasks), order, options.retry, env.tasks)
  }

  function RunChecks(cat: Catalogue, options: Options, env: Environment): Report
    requires Ends(cat, options, env)
  {
    var plan, sel := PlanOf(cat, options, env).value, options.selection;
    var gathered := Gathered(plan, options, env);
    var header := Header(SCHEMA_VERSION, true, env.commit, env.dirty, env.host);
    if PoolOf(plan, options, env).value.cancelling then
      WriteReport(header, sel, gathered + Map(BlockedResult, Unobserved(gathered, plan.tasks)), true, false)
    else
      WriteReport(header, sel, Sort(PlanOrder(plan.tasks), Sweep(gathered, env.found)), env.cancelledLate,
                  IsComplete(cat, sel, env.host.platform))
  }
}
