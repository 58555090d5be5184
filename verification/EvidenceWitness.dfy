/** The smallest complete run: one suite of one task, run once, with any commit at all. */
module EvidenceWitness {
  import opened Wrappers
  import opened Sequences
  import opened Sorting
  import opened CheckPlan
  import opened PlanFacts
  import opened CheckRun
  import opened RunReport
  import opened CheckEvidence
  import opened EvidenceAgrees
  import Pool

  const ONLY_TASK := Task("t", ["true"], ".", Limits(None, None, false, false))

  const ONLY_SUITE := Suite("s", [], [ONLY_TASK])

  const ONE_SUITE := Catalogue(
    [ONLY_SUITE], "client", (id: string) => false, "flutter", "test", ("flutter", "test", "-r"), ".",
    (a: string, b: string) => true, (a: string, b: string) => true,
    (suite: string, host: string) => host == "linux", ["s"], "web", (a: Unit, b: Unit) => true)

  const ASKED := Options(Selection(["s"], None, None, 1, Some(SerialShards)), false, 1)

  const CLEAN := Trial(Outcome(0, 0, false, false, []), Outcome(0, 0, false, false, []), false, false)

  /** Nothing goes wrong: the task ends with exit code 0, and no process is found afterwards. */
  function Calm(commit: string): Environment {
    Environment(commit, false, Host("linux", "1"), false, (i: nat) => CLEAN, (i: nat) => CLEAN,
                [Pool.Finish(0), Pool.Drop(0), Pool.Wake], (i: nat, j: nat) => [], false)
  }

  const ONLY_PLANNED := Planned("s", ONLY_TASK, 1)

  lemma OneSelected()
    ensures FindRunnable(ONE_SUITE, "s", Some("linux")) == Some(ONLY_SUITE)
    ensures Selected(ONE_SUITE, ONLY_SUITE, ASKED.selection) == Some([ONLY_TASK])
  {
    assert !Combines(ONE_SUITE, ONLY_SUITE, ASKED.selection);
    assert Filter((task: Task) => Wanted(None, task), [ONLY_TASK]) == [ONLY_TASK] by {
      assert Wanted(None, ONLY_TASK);
    }
  }

  lemma OneShare()
    ensures Share(ONE_SUITE, ONLY_SUITE, ASKED.selection, [ONLY_TASK]) == Plan([], [ONLY_PLANNED])
  {
    assert Repeated("s", [ONLY_TASK], 0) == [];
    assert Map(InSuite("s", 1), [ONLY_TASK]) == [ONLY_PLANNED];
    assert Map(InSuite("s", 1), ONLY_SUITE.prepare) == [];
  }

  lemma SharesOne(cat: Catalogue, sel: Selection, host: Option<string>, suite: Suite, selected: seq<Task>)
    requires FindRunnable(cat, suite.id, host) == Some(suite) && Selected(cat, suite, sel) == Some(selected)
    ensures Shares(cat, sel, host, [suite.id]) == Ok(Share(cat, suite, sel, selected))
  {
    var share := Share(cat, suite, sel, selected);
    assert [suite.id][..0] == [];
    assert Shares(cat, sel, host, []) == Ok(Plan([], []));
    assert [] + share.prepare == share.prepare && [] + share.tasks == share.tasks;
  }

  lemma SortOne<T>(before: Order<T>, x: T)
    ensures Sort(before, [x]) == [x]
  {
    assert [x][..0] == [];
    assert Sort(before, []) == [];
  }

  lemma OnePlanned(commit: string)
    ensures PlanOf(ONE_SUITE, ASKED, Calm(commit)) == Ok(Plan([], [ONLY_PLANNED]))
  {
    OneSelected();
    OneShare();
    SharesOne(ONE_SUITE, ASKED.selection, Some("linux"), ONLY_SUITE, [ONLY_TASK]);
    SortOne(LongestFirst(ONE_SUITE), ONLY_PLANNED);
  }

  // ---------------------------------------------------------------- its run

  lemma PoolMore(cfg: Pool.Config, es: seq<Pool.Event>, e: Pool.Event)
    requires Pool.Run(cfg, false, es).Some? && Pool.Enabled(Pool.Run(cfg, false, es).value, e)
    ensures Pool.Run(cfg, false, es + [e]) == Some(Pool.Step(cfg, Pool.Run(cfg, false, es).value, e))
  {
    assert (es + [e])[..|es + [e]| - 1] == es;
  }

  const ONE_SLOT := Pool.Config([false], 1)

  /** The pool with its one task under way, after the task ended, and after its promise left. */
  const UNDER_WAY := Pool.Pool([], {0}, {}, false, [], false, Pool.Asleep({0}))
  const TASK_ENDED := Pool.Pool([], {0}, {0}, false, [0], false, Pool.Asleep({0}))
  const PROMISE_LEFT := Pool.Pool([], {}, {}, false, [0], false, Pool.Asleep({0}))

  lemma OneStarted()
    ensures Pool.Run(ONE_SLOT, false, []) == Some(UNDER_WAY)
  {
    var idle := Pool.Idle(ONE_SLOT, false);
    assert idle.pending == [0];
    assert Pool.FirstEligible(ONE_SLOT, idle.pending, false, 0) == 0;
    assert Pool.Start(ONE_SLOT, idle, 0) == UNDER_WAY.(control := Pool.Spinning);
    assert Pool.Fill(ONE_SLOT, idle) == UNDER_WAY.(control := Pool.Spinning);
  }

  lemma OnePooled()
    ensures Pool.Run(ONE_SLOT, false, [Pool.Finish(0), Pool.Drop(0), Pool.Wake]) ==
            Some(PROMISE_LEFT.(control := Pool.Returned))
  {
    OneStarted();
    PoolMore(ONE_SLOT, [], Pool.Finish(0));
    assert [] + [Pool.Finish(0)] == [Pool.Finish(0)];
    assert Pool.Step(ONE_SLOT, UNDER_WAY, Pool.Finish(0)) == TASK_ENDED by {
      assert {} + {0} == {0} && [] + [0] == [0];
    }
    PoolMore(ONE_SLOT, [Pool.Finish(0)], Pool.Drop(0));
    assert [Pool.Finish(0)] + [Pool.Drop(0)] == [Pool.Finish(0), Pool.Drop(0)];
    assert Pool.Step(ONE_SLOT, TASK_ENDED, Pool.Drop(0)) == PROMISE_LEFT;
    PoolMore(ONE_SLOT, [Pool.Finish(0), Pool.Drop(0)], Pool.Wake);
    assert [Pool.Finish(0), Pool.Drop(0)] + [Pool.Wake] == [Pool.Finish(0), Pool.Drop(0), Pool.Wake];
  }

  lemma OnePoolOf(plan: Plan, commit: string)
    requires plan == Plan([], [ONLY_PLANNED])
    ensures var env := Calm(commit);
      && Prepared(plan, env) == Preparation({}, map[], [], false) && RunnableTasks({}, plan.tasks) == plan.tasks
      && PoolOf(plan, ASKED, env) == Some(PROMISE_LEFT.(control := Pool.Returned))
  {
    NoneBroken(plan.tasks);
    assert PoolConfig(plan.tasks, 1) == ONE_SLOT;
    OnePooled();
  }

  lemma OneNamed()
    ensures WellNamed(ONE_SUITE) && RunsOnSupported(ONE_SUITE) && Parsed(ASKED.selection)
  {
    assert Map(SuiteId, ONE_SUITE.suites) == ["s"];
    assert Map(IdOf, [] + [ONLY_TASK]) == ["t"];
  }

  lemma OneEnds(commit: string)
    ensures Ends(ONE_SUITE, ASKED, Calm(commit))
  {
    OnePlanned(commit);
    OnePoolOf(Plan([], [ONLY_PLANNED]), commit);
  }

  /** One task, one clean trial: what any such run gathers. */
  lemma GatheredOne(plan: Plan, options: Options, env: Environment, planned: Planned)
    requires options.concurrency > 0 && plan.tasks == [planned]
    requires Prepared(plan, env) == Preparation({}, map[], [], false)
    requires PoolOf(plan, options, env).Some? && PoolOf(plan, options, env).value.results == [0]
    ensures Gathered(plan, options, env) == [RunTask(planned, options.retry, env.tasks(0))]
  {
    NoneBroken(plan.tasks);
    PoolPositions(plan, options, env);
    assert Map(BlockedResult, BrokenTasks({}, plan.tasks)) == [];
    assert PoolResults(plan.tasks, [0], options.retry, env.tasks) == [RunTask(planned, options.retry, env.tasks(0))];
  }

  /** A run whose one result is good, with nothing found and no signal, passes. */
  lemma PassesOne(cat: Catalogue, options: Options, env: Environment, result: TaskResult)
    requires Ends(cat, options, env) && !PoolOf(PlanOf(cat, options, env).value, options, env).value.cancelling
    requires Gathered(PlanOf(cat, options, env).value, options, env) == [result] && Good(result)
    requires !env.cancelledLate && forall i: nat, j: nat :: env.found(i, j) == []
    ensures RunChecks(cat, options, env).passed
    ensures RunChecks(cat, options, env).complete == IsComplete(cat, options.selection, env.host.platform)
  {
    PassGathers(cat, options, env);
    assert NoneFound(result, FoundFor(env.found, 0));
  }

  lemma OneComplete()
    ensures IsComplete(ONE_SUITE, ASKED.selection, "linux")
  {
    var all := HostSuites(ONE_SUITE, "linux");
    forall i | 0 <= i < |all|
      ensures all[i] == "s"
    {
      HostSuite(ONE_SUITE, "linux", all[i]);
    }
  }

  lemma OneGood()
    ensures Good(RunTask(ONLY_PLANNED, false, CLEAN))
  {
  }

  lemma OneCompletes(commit: string)
    ensures Ends(ONE_SUITE, ASKED, Calm(commit))
    ensures var report := RunChecks(ONE_SUITE, ASKED, Calm(commit)); report.passed && report.complete
  {
    var plan, env := Plan([], [ONLY_PLANNED]), Calm(commit);
    OneEnds(commit);
    OnePlanned(commit);
    OnePoolOf(plan, commit);
    GatheredOne(plan, ASKED, env, ONLY_PLANNED);
    OneGood();
    OneComplete();
    PassesOne(ONE_SUITE, ASKED, env, RunTask(ONLY_PLANNED, false, CLEAN));
  }

  /** A validator that expects what the run itself recorded. */
  function Itself(commit: string): Context {
    Context(commit, false, None, true, None, None)
  }

  /** This run is complete and passes whatever its commit, and is accepted exactly when its commit is a full hash. */
  lemma CompleteRun(commit: string)
    ensures Ends(ONE_SUITE, ASKED, Calm(commit))
    ensures var report := RunChecks(ONE_SUITE, ASKED, Calm(commit));
      && report.passed && report.complete
      && (Accepts(ONE_SUITE, report, Itself(commit)) <==> Hex40(commit))
  {
    OneNamed();
    OneCompletes(commit);
    CommitDecides(ONE_SUITE, ASKED, Calm(commit), Itself(commit));
  }

  /** Outside a checkout the runner records no commit: its complete pass is refused. */
  lemma PassRefused()
    ensures Ends(ONE_SUITE, ASKED, Calm(""))
    ensures var report := RunChecks(ONE_SUITE, ASKED, Calm(""));
      report.passed && report.complete && !Accepts(ONE_SUITE, report, Itself(""))
  {
    CompleteRun("");
  }
}
