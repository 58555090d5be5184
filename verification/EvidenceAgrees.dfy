/** The runner and the validator, two separate pieces of code, agree about what a passing run is. */
module EvidenceAgrees {
  import opened Wrappers
  import opened Sequences
  import opened CheckPlan
  import opened PlanFacts
  import opened CheckRun
  import opened RunAccounts
  import opened RunReport
  import opened CheckEvidence

  // ---------------------------------------------------------------- attempts

  /**
   * The validator reads an attempt as clean where the runner passed it, and also when an empty list of leaks is
   * recorded.
   */
  lemma CleanExactly(attempt: Attempt)
    ensures Clean(attempt) <==> Passed(attempt) || (Passed(attempt.(leaked := None)) && attempt.leaked == Some([]))
    ensures Clean(attempt) <==> !Failing(attempt)
  {
  }

  /** The runner never records an empty list of leaks, so on its attempts the two agree. */
  lemma AttemptsAgree(outcome: Outcome)
    ensures Clean(AttemptTask(outcome)) <==> Passed(AttemptTask(outcome))
    ensures Clean(AttemptTask(outcome))
      <==> outcome.exitCode == 0 && !outcome.timedOut && !outcome.strays && outcome.found == []
    ensures WellFormed(AttemptTask(outcome))
  {
  }

  /** A good result of running a planned task once satisfies the validator. */
  lemma GoodIsOk(planned: Planned, retry: bool, trial: Trial)
    requires Good(RunTask(planned, retry, trial)) && planned.iteration == 1
    ensures ResultOk(planned, RunTask(planned, retry, trial))
  {
    AttemptsAgree(trial.first);
    AttemptsAgree(trial.second);
    CleanExactly(AttemptTask(trial.first));
  }

  // ---------------------------------------------------------------- plans

  /** A plan that could be made for a host is the one made without asking about the host. */
  lemma {:induction false} HostOnlyRefuses(cat: Catalogue, sel: Selection, host: string, suites: seq<string>)
    requires Shares(cat, sel, Some(host), suites).Ok?
    ensures Shares(cat, sel, None, suites) == Shares(cat, sel, Some(host), suites)
  {
    if suites != [] {
      HostOnlyRefuses(cat, sel, host, suites[..|suites| - 1]);
    }
  }

  lemma {:induction false} SuitesKnown(cat: Catalogue, sel: Selection, host: string, suites: seq<string>, i: nat)
    requires Shares(cat, sel, Some(host), suites).Ok? && i < |suites|
    ensures Find(cat.suites, suites[i]).Some? && cat.runsOn(suites[i], host)
  {
    if i < |suites| - 1 {
      SuitesKnown(cat, sel, host, suites[..|suites| - 1], i);
    }
  }

  lemma IterationOne(cat: Catalogue, sel: Selection, host: Option<string>, i: nat)
    requires sel.repeat == 1 && PlanChecks(cat, sel, host).Ok? && i < |PlanChecks(cat, sel, host).value.tasks|
    ensures PlanChecks(cat, sel, host).value.tasks[i].iteration == 1
  {
    PlanTakes(cat, sel, host, PlanChecks(cat, sel, host).value.tasks[i]);
  }

  /** In an unrepeated plan, tasks have different keys. */
  lemma KeysOnce(cat: Catalogue, sel: Selection, host: Option<string>)
    requires WellNamed(cat) && sel.repeat == 1 && PlanChecks(cat, sel, host).Ok?
    ensures NoRepeat(Map(TaskKey, PlanChecks(cat, sel, host).value.tasks))
  {
    var tasks := PlanChecks(cat, sel, host).value.tasks;
    SlotsOnce(cat, sel, host);
    forall i, j | 0 <= i < j < |tasks|
      ensures TaskKey(tasks[i]) != TaskKey(tasks[j])
    {
      IterationOne(cat, sel, host, i);
      IterationOne(cat, sel, host, j);
      assert Map(Slot, tasks)[i] != Map(Slot, tasks)[j];
    }
  }

  lemma {:induction false} FindsIt(planned: seq<Planned>, i: nat)
    requires NoRepeat(Map(TaskKey, planned)) && i < |planned|
    ensures FindPlanned(planned, TaskKey(planned[i])) == Some(planned[i])
  {
    var found := FindPlanned(planned, TaskKey(planned[i])).value;
    var j :| 0 <= j < |planned| && planned[j] == found;
    assert Map(TaskKey, planned)[i] == Map(TaskKey, planned)[j];
  }

  // ---------------------------------------------------------------- the complete suites

  lemma HostSuite(cat: Catalogue, host: string, id: string)
    ensures id in HostSuites(cat, host) <==> Find(cat.suites, id).Some? && cat.runsOn(id, host)
  {
    var runs := (suite: Suite) => cat.runsOn(suite.id, host);
    var kept := Filter(runs, cat.suites);
    if id in HostSuites(cat, host) {
      var i :| 0 <= i < |kept| && HostSuites(cat, host)[i] == id;
      FilterMember(runs, cat.suites, kept[i]);
    }
    if Find(cat.suites, id).Some? && cat.runsOn(id, host) {
      var suite := Find(cat.suites, id).value;
      FilterMember(runs, cat.suites, suite);
      var i :| 0 <= i < |kept| && kept[i] == suite;
      assert HostSuites(cat, host)[i] == id;
    }
  }

  /** A run the runner calls complete has selected exactly the host's suites. */
  lemma CompleteSelects(cat: Catalogue, sel: Selection, host: string)
    requires WellNamed(cat) && IsComplete(cat, sel, host) && PlanChecks(cat, sel, Some(host)).Ok?
    ensures SameSet(sel.suites, HostSuites(cat, host))
  {
    var all := HostSuites(cat, host);
    FilterDistinct((suite: Suite) => cat.runsOn(suite.id, host), SuiteId, cat.suites);
    forall x: string
      ensures x in sel.suites <==> x in all
    {
      HostSuite(cat, host, x);
      if x in sel.suites {
        var i :| 0 <= i < |sel.suites| && sel.suites[i] == x;
        SuitesKnown(cat, sel, host, sel.suites, i);
      }
    }
    SameMembers(sel.suites, all);
    SameSetPermutation(sel.suites, all);
  }

  // ---------------------------------------------------------------- agreement

  /** What the command line lets through. */
  predicate Parsed(sel: Selection) {
    && sel.layout.Some? && 1 <= sel.repeat <= 50
    && (sel.shard.Some? ==> sel.shard.value.total <= MAX_SHARDS)
    && !(sel.shard.Some? && sel.layout == Some(Combined))
  }

  /** The context of the run itself, perhaps fixing the platform or the version. */
  predicate Expects(ctx: Context, env: Environment, report: Report) {
    && ctx.commit == env.commit && ctx.dirty == env.dirty && ctx.complete == report.complete
    && (report.complete ==> ctx.requiredSuites.None?)
    && (ctx.bun.Some? ==> ctx.bun.value == env.host.bun)
    && (ctx.platform.Some? ==> ctx.platform.value == env.host.platform)
  }

  lemma ResultsOk(cat: Catalogue, options: Options, env: Environment, i: nat)
    requires WellNamed(cat) && Ends(cat, options, env) && RunChecks(cat, options, env).passed
    requires options.selection.repeat == 1 && i < |RunChecks(cat, options, env).tasks|
    ensures PlannedOk(PlanOf(cat, options, env).value.tasks, RunChecks(cat, options, env).tasks[i])
  {
    var tasks, result := PlanOf(cat, options, env).value.tasks, RunChecks(cat, options, env).tasks[i];
    var host := Some(env.host.platform);
    PassReports(cat, options, env);
    assert RanFrom(tasks, options.retry, result);
    var j: nat, trial: Trial :| j < |tasks| && result == RunTask(tasks[j], options.retry, trial);
    IterationOne(cat, options.selection, host, j);
    GoodIsOk(tasks[j], options.retry, trial);
    KeysOnce(cat, options.selection, host);
    FindsIt(tasks, j);
  }

  function KeyIn(slot: SlotName): Key { slot.0 }

  lemma KeysMatch(cat: Catalogue, options: Options, env: Environment)
    requires WellNamed(cat) && Ends(cat, options, env) && RunChecks(cat, options, env).passed
    requires options.selection.repeat == 1
    ensures SameSet(Map(KeyOf, RunChecks(cat, options, env).tasks), Map(TaskKey, PlanOf(cat, options, env).value.tasks))
  {
    var tasks, results := PlanOf(cat, options, env).value.tasks, RunChecks(cat, options, env).tasks;
    PassReports(cat, options, env);
    MapPermutes(KeyIn, Map(SlotOf, results), Map(Slot, tasks));
    assert Map(KeyIn, Map(SlotOf, results)) == Map(KeyOf, results);
    assert Map(KeyIn, Map(Slot, tasks)) == Map(TaskKey, tasks);
    KeysOnce(cat, options.selection, Some(env.host.platform));
    SameSetPermutation(Map(KeyOf, results), Map(TaskKey, tasks));
  }

  lemma SelectionFits(cat: Catalogue, options: Options, env: Environment)
    requires Ends(cat, options, env) && Parsed(options.selection)
    ensures SelectionOk(cat, options.selection) <==> options.selection.only.None? && options.selection.repeat == 1
  {
    var sel := options.selection;
    forall i | 0 <= i < |sel.suites|
      ensures Find(cat.suites, sel.suites[i]).Some?
    {
      SuitesKnown(cat, sel, env.host.platform, sel.suites, i);
    }
  }

  lemma CountsFit(results: seq<TaskResult>)
    requires AllGood(results)
    ensures CountAll(results) == Recount(results)
  {
    CountsGood(results);
  }

  /**
   * A passing run of the runner, complete or partial, is accepted as evidence of its own commit, dirty state and host
   * exactly when it was not filtered or repeated, the commit is a full hash and the host is one of the three supported.
   */
  lemma RunnerAgrees(cat: Catalogue, options: Options, env: Environment, ctx: Context)
    requires WellNamed(cat) && Parsed(options.selection) && Ends(cat, options, env)
    requires RunChecks(cat, options, env).passed && Expects(ctx, env, RunChecks(cat, options, env))
    ensures Accepts(cat, RunChecks(cat, options, env), ctx) <==>
      && options.selection.only.None? && options.selection.repeat == 1
      && Hex40(env.commit) && SupportedHost(env.host.platform)
  {
    var sel, report := options.selection, RunChecks(cat, options, env);
    SelectionFits(cat, options, env);
    if sel.only.None? && sel.repeat == 1 {
      ReportFits(cat, options, env, ctx);
    }
  }

  lemma ReportFits(cat: Catalogue, options: Options, env: Environment, ctx: Context)
    requires WellNamed(cat) && Ends(cat, options, env) && RunChecks(cat, options, env).passed
    requires Expects(ctx, env, RunChecks(cat, options, env)) && options.selection.repeat == 1
    ensures var report := RunChecks(cat, options, env);
      && CompletenessOk(cat, report, ctx)
      && PlanChecks(cat, report.selection, None).Ok?
      && TasksOk(PlanChecks(cat, report.selection, None).value.tasks, report.tasks)
      && report.counts == Recount(report.tasks)
  {
    var sel, report := options.selection, RunChecks(cat, options, env);
    HostOnlyRefuses(cat, sel, env.host.platform, sel.suites);
    KeysMatch(cat, options, env);
    forall i | 0 <= i < |report.tasks|
      ensures PlannedOk(PlanOf(cat, options, env).value.tasks, report.tasks[i])
    {
      ResultsOk(cat, options, env, i);
    }
    PassReports(cat, options, env);
    CountsFit(report.tasks);
    if report.complete {
      CompleteSelects(cat, sel, env.host.platform);
    }
  }

  /** The suites run only on the three supported hosts. */
  ghost predicate RunsOnSupported(cat: Catalogue) {
    forall id: string, host: string :: cat.runsOn(id, host) ==> SupportedHost(host)
  }

  /** A run that has something to run has a suite, so its host is one the suite runs on. */
  lemma HostSupported(cat: Catalogue, options: Options, env: Environment)
    requires Ends(cat, options, env) && RunsOnSupported(cat)
    ensures SupportedHost(env.host.platform)
  {
    var sel := options.selection;
    assert sel.suites != [];
    SuitesKnown(cat, sel, env.host.platform, sel.suites, 0);
  }

  /** With such suites the host never decides: what an unfiltered, unrepeated pass still needs is a full hash. */
  lemma CommitDecides(cat: Catalogue, options: Options, env: Environment, ctx: Context)
    requires WellNamed(cat) && RunsOnSupported(cat) && Parsed(options.selection) && Ends(cat, options, env)
    requires RunChecks(cat, options, env).passed && Expects(ctx, env, RunChecks(cat, options, env))
    ensures Accepts(cat, RunChecks(cat, options, env), ctx) <==>
      options.selection.only.None? && options.selection.repeat == 1 && Hex40(env.commit)
  {
    RunnerAgrees(cat, options, env, ctx);
    HostSupported(cat, options, env);
  }

  /** The headline case: a complete pass on a supported host at a known commit is accepted. */
  lemma CompletePassAccepted(cat: Catalogue, options: Options, env: Environment, ctx: Context)
    requires WellNamed(cat) && Parsed(options.selection) && Ends(cat, options, env)
    requires RunChecks(cat, options, env).passed && RunChecks(cat, options, env).complete
    requires Expects(ctx, env, RunChecks(cat, options, env)) && Hex40(env.commit) && SupportedHost(env.host.platform)
    ensures Accepts(cat, RunChecks(cat, options, env), ctx)
  {
    RunnerAgrees(cat, options, env, ctx);
  }

  // ---------------------------------------------------------------- what acceptance means

  /** One clean attempt, or one that failed and then a clean one. */
  predicate EndedClean(attempts: seq<Attempt>) {
    || (|attempts| == 1 && Clean(attempts[0]))
    || (|attempts| == 2 && Failing(attempts[0]) && Clean(attempts[1]))
  }

  /** An accepted result of a planned task is of its own command and ended clean. */
  lemma ResultMeans(planned: seq<Planned>, k: nat, result: TaskResult)
    requires NoRepeat(Map(TaskKey, planned)) && k < |planned|
    requires result.key == TaskKey(planned[k]) && PlannedOk(planned, result)
    ensures result.command == planned[k].task.run && result.iteration == 1 && EndedClean(result.attempts)
  {
    FindsIt(planned, k);
  }

  lemma OneResult(planned: seq<Planned>, results: seq<TaskResult>, k: nat) returns (i: nat)
    requires SameSet(Map(KeyOf, results), Map(TaskKey, planned)) && k < |planned|
    ensures i < |results| && results[i].key == TaskKey(planned[k])
    ensures forall j :: 0 <= j < |results| && results[j].key == TaskKey(planned[k]) ==> j == i
  {
    var keys := Map(KeyOf, results);
    assert Map(TaskKey, planned)[k] in keys;
    i :| 0 <= i < |keys| && keys[i] == TaskKey(planned[k]);
    forall j | 0 <= j < |results| && results[j].key == TaskKey(planned[k])
      ensures j == i
    {
      assert keys[j] == keys[i];
    }
  }

  /**
   * Whoever wrote it, an accepted report has for each planned task one result, of its own command, that ended clean.
   */
  lemma AcceptedMeans(cat: Catalogue, report: Report, ctx: Context, k: nat) returns (i: nat)
    requires WellNamed(cat) && Accepts(cat, report, ctx)
    requires k < |PlanChecks(cat, report.selection, None).value.tasks|
    ensures var p := PlanChecks(cat, report.selection, None).value.tasks[k];
      && i < |report.tasks| && report.tasks[i].key == TaskKey(p)
      && report.tasks[i].command == p.task.run && report.tasks[i].iteration == 1 && EndedClean(report.tasks[i].attempts)
      && forall j :: 0 <= j < |report.tasks| && report.tasks[j].key == TaskKey(p) ==> j == i
  {
    var planned := PlanChecks(cat, report.selection, None).value.tasks;
    i := OneResult(planned, report.tasks, k);
    KeysOnce(cat, report.selection, None);
    ResultMeans(planned, k, report.tasks[i]);
  }
}
