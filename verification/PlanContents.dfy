/**
 * What a check plan is made of, in terms of the suites' own fields: which tasks, which prepare steps, in which order,
 * and when there is no plan at all (scripts/ci/check-plan.ts).
 */
module PlanContents {
  import opened Wrappers
  import opened Sequences
  import opened Sorting
  import opened CheckPlan
  import opened PlanFacts
  import Shard

  // ---------------------------------------------------------------- reading a task

  /** How long a task is expected to take: what it says, or a minute for a test and twenty seconds for anything else. */
  function MsOf(cat: Catalogue, task: Task): nat {
    match task.limits.estimateMs
    case Some(ms) => ms
    case None => if |task.run| >= 2 && task.run[1] == cat.test then 60_000 else 20_000
  }

  /** How long a task may take: what it says, or three minutes. */
  function LimitOf(task: Task): nat {
    match task.limits.timeoutMs case Some(ms) => ms case None => 180_000
  }

  /** The words of a command after the third. */
  function WordsAfter(task: Task): seq<string> {
    if |task.run| <= 3 then [] else task.run[3..]
  }

  /** One text stands somewhere in the other. */
  ghost predicate Mentions(text: string, part: string) {
    exists before: string, after: string :: text == before + part + after
  }

  /** The filter lets the task through: there is none, or one of its texts is in the task's id. */
  ghost predicate Passes(only: Option<seq<string>>, task: Task) {
    only.Some? ==> exists i :: 0 <= i < |only.value| && Mentions(task.id, only.value[i])
  }

  lemma IncludesMeans(text: string, part: string)
    ensures Includes(text, part) <==> Mentions(text, part)
  {
    if at :| 0 <= at <= |text| && OccursAt(text, part, at) {
      assert text == text[..at] + part + text[at + |part|..];
    }
    if before: string, after: string :| text == before + part + after {
      assert OccursAt(text, part, |before|);
    }
  }

  lemma WantedMeans(only: Option<seq<string>>, task: Task)
    ensures Wanted(only, task) <==> Passes(only, task)
  {
    if only.Some? {
      forall i | 0 <= i < |only.value|
        ensures Includes(task.id, only.value[i]) <==> Mentions(task.id, only.value[i])
      {
        IncludesMeans(task.id, only.value[i]);
      }
    }
  }

  lemma TimesMean(cat: Catalogue, task: Task)
    ensures Estimate(cat, task) == MsOf(cat, task)
    ensures Timeout(task) == LimitOf(task) && FilesOf(task) == WordsAfter(task)
  {
  }

  // ---------------------------------------------------------------- the combined task

  /** The client suite's shard tasks, in order. */
  function FlutterShards(cat: Catalogue, suite: Suite): seq<Task> {
    Filter((task: Task) => cat.isFlutterShard(task.id), suite.tasks)
  }

  /**
   * The task that runs all of the shard tasks' files at once: sorted, after the three words of its command, in the
   * client's directory, alone of its class, with the sums of their limits and of their estimates.
   */
  ghost predicate IsCombined(cat: Catalogue, suite: Suite, task: Task) {
    var shards := FlutterShards(cat, suite);
    && task.id == cat.flutterTest && task.cwd == cat.combinedCwd
    && |task.run| >= 3 && task.run[..3] == [cat.flutter.0, cat.flutter.1, cat.flutter.2]
    && Sorted(cat.fileOrder, task.run[3..]) && multiset(task.run[3..]) == multiset(FlatMap(WordsAfter, shards))
    && task.limits == Limits(Some(Total(LimitOf, shards)), Some(Total((t: Task) => MsOf(cat, t), shards)), true, true)
  }

  lemma {:induction false} TotalSame(a: Task -> nat, b: Task -> nat, tasks: seq<Task>)
    requires forall i :: 0 <= i < |tasks| ==> a(tasks[i]) == b(tasks[i])
    ensures Total(a, tasks) == Total(b, tasks)
  {
    if tasks != [] {
      TotalSame(a, b, tasks[..|tasks| - 1]);
    }
  }

  lemma {:induction false} FlatSame(a: Task -> seq<string>, b: Task -> seq<string>, tasks: seq<Task>)
    requires forall i :: 0 <= i < |tasks| ==> a(tasks[i]) == b(tasks[i])
    ensures FlatMap(a, tasks) == FlatMap(b, tasks)
  {
    if tasks != [] {
      FlatSame(a, b, tasks[..|tasks| - 1]);
    }
  }

  lemma ShardsMean(cat: Catalogue, suite: Suite)
    ensures ShardTasks(cat, suite) == FlutterShards(cat, suite)
  {
    FilterCongruent((task: Task) => IsShardTask(cat, task), (task: Task) => cat.isFlutterShard(task.id), suite.tasks);
  }

  lemma CombinedMeans(cat: Catalogue, suite: Suite)
    requires Preorder(cat.fileOrder)
    ensures IsCombined(cat, suite, CombinedTask(cat, suite))
  {
    var shards, task := FlutterShards(cat, suite), CombinedTask(cat, suite);
    ShardsMean(cat, suite);
    forall i | 0 <= i < |shards|
      ensures Timeout(shards[i]) == LimitOf(shards[i]) && FilesOf(shards[i]) == WordsAfter(shards[i])
      ensures Estimate(cat, shards[i]) == MsOf(cat, shards[i])
    {
      TimesMean(cat, shards[i]);
    }
    TotalSame(Timeout, LimitOf, shards);
    TotalSame((t: Task) => Estimate(cat, t), (t: Task) => MsOf(cat, t), shards);
    FlatSame(FilesOf, WordsAfter, shards);
    SortSorts(cat.fileOrder, FlatMap(FilesOf, shards));
    SortPermutes(cat.fileOrder, FlatMap(FilesOf, shards));
    assert task.run[3..] == Files(cat, suite);
  }

  // ---------------------------------------------------------------- the tasks selected

  /** The client suite is asked for whole and combined. */
  predicate Merges(cat: Catalogue, id: string, sel: Selection) {
    id == cat.client && sel.shard.None? && sel.layout == Some(Combined)
  }

  /** What a suite has to offer: its tasks, or, combined, those that are no Flutter shard and the combined one. */
  predicate Offers(cat: Catalogue, suite: Suite, sel: Selection, task: Task) {
    if Merges(cat, suite.id, sel)
    then (task in suite.tasks && !cat.isFlutterShard(task.id)) || task == CombinedTask(cat, suite)
    else task in suite.tasks
  }

  lemma TasksMean(cat: Catalogue, suite: Suite, sel: Selection, task: Task)
    requires TasksFor(cat, suite, sel).Some?
    ensures task in TasksFor(cat, suite, sel).value <==> Offers(cat, suite, sel, task)
  {
    FilterMember(Not((t: Task) => IsShardTask(cat, t)), suite.tasks, task);
  }

  lemma NamedMeans(cat: Catalogue, suite: Suite, sel: Selection, task: Task)
    requires Named(cat, suite, sel).Some?
    ensures task in Named(cat, suite, sel).value <==> Offers(cat, suite, sel, task) && Passes(sel.only, task)
  {
    TasksMean(cat, suite, sel, task);
    FilterMember((t: Task) => Wanted(sel.only, t), TasksFor(cat, suite, sel).value, task);
    WantedMeans(sel.only, task);
  }

  /** The shard's group holds the task's id; `named` are the tasks to be split. */
  predicate InPart(cat: Catalogue, named: seq<Task>, part: ShardPart, id: string) {
    var items := Map((task: Task) => Shard.Item(task.id, MsOf(cat, task)), named);
    var group := Shard.Groups(cat.idOrder, items, part.total)[part.index - 1];
    exists i :: 0 <= i < |group| && group[i].id == id
  }

  lemma PartMeans(cat: Catalogue, named: seq<Task>, part: ShardPart, id: string)
    ensures InShard(cat, named, part, id) <==> InPart(cat, named, part, id)
  {
    assert Map(Weighed(cat), named) == Map((task: Task) => Shard.Item(task.id, MsOf(cat, task)), named);
  }

  /**
   * A task is selected exactly when the suite offers it, the filter passes it, and it falls into the shard asked for.
   */
  lemma SelectedMeans(cat: Catalogue, suite: Suite, sel: Selection, task: Task)
    requires Selected(cat, suite, sel).Some?
    ensures task in Selected(cat, suite, sel).value <==>
      && Offers(cat, suite, sel, task) && Passes(sel.only, task)
      && (sel.shard.Some? ==> InPart(cat, Named(cat, suite, sel).value, sel.shard.value, task.id))
  {
    var named := Named(cat, suite, sel).value;
    NamedMeans(cat, suite, sel, task);
    if sel.shard.Some? {
      FilterMember((t: Task) => InShard(cat, named, sel.shard.value, t.id), named, task);
      PartMeans(cat, named, sel.shard.value, task.id);
    }
  }

  // ---------------------------------------------------------------- the plan

  /** The suite of this id in the table. */
  predicate IsSuite(cat: Catalogue, id: string, suite: Suite) {
    suite in cat.suites && suite.id == id
  }

  lemma SuiteFound(cat: Catalogue, id: string, suite: Suite)
    requires WellNamed(cat) && IsSuite(cat, id, suite)
    ensures Find(cat.suites, id) == Some(suite)
  {
    var found := Find(cat.suites, id).value;
    var i :| 0 <= i < |cat.suites| && cat.suites[i] == suite;
    var j :| 0 <= j < |cat.suites| && cat.suites[j] == found;
    assert Map(SuiteId, cat.suites)[i] == Map(SuiteId, cat.suites)[j];
  }

  /** What a plan holds: the tasks selected from the suites asked for, once for each iteration. */
  lemma PlanMeans(cat: Catalogue, sel: Selection, host: Option<string>, suite: Suite, p: Planned)
    requires WellNamed(cat) && PlanChecks(cat, sel, host).Ok? && IsSuite(cat, p.suite, suite)
    requires p.suite in sel.suites
    ensures Selected(cat, suite, sel).Some?
    ensures p in PlanChecks(cat, sel, host).value.tasks <==>
      && 1 <= p.iteration <= sel.repeat
      && Offers(cat, suite, sel, p.task) && Passes(sel.only, p.task)
      && (sel.shard.Some? ==> InPart(cat, Named(cat, suite, sel).value, sel.shard.value, p.task.id))
  {
    var i :| 0 <= i < |sel.suites| && sel.suites[i] == p.suite;
    SuiteFound(cat, p.suite, suite);
    SuitePlans(cat, sel, host, sel.suites, i);
    PlanHolds(cat, sel, host, p);
    assert p in PlanChecks(cat, sel, host).value.tasks <==> p in multiset(PlanChecks(cat, sel, host).value.tasks);
    SelectedMeans(cat, suite, sel, p.task);
    assert p.task in SelectedOf(cat, sel, p.suite) <==> p.task in multiset(SelectedOf(cat, sel, p.suite));
  }

  lemma {:induction false} SuitePlans(cat: Catalogue, sel: Selection, host: Option<string>, suites: seq<string>, i: nat)
    requires Shares(cat, sel, host, suites).Ok? && i < |suites|
    ensures FindRunnable(cat, suites[i], host).Some?
    ensures Find(cat.suites, suites[i]).Some? && Selected(cat, Find(cat.suites, suites[i]).value, sel).Some?
  {
    if i < |suites| - 1 {
      SuitePlans(cat, sel, host, suites[..|suites| - 1], i);
    }
  }

  /** A plan holds nothing of suites that were not asked for. */
  lemma PlanWithin(cat: Catalogue, sel: Selection, host: Option<string>, p: Planned)
    requires PlanChecks(cat, sel, host).Ok? && p in PlanChecks(cat, sel, host).value.tasks
    ensures p.suite in sel.suites && exists suite :: IsSuite(cat, p.suite, suite)
  {
    PlanHolds(cat, sel, host, p);
    assert p in multiset(PlanChecks(cat, sel, host).value.tasks);
    assert IsSuite(cat, p.suite, Find(cat.suites, p.suite).value);
  }

  /** The longest estimates come first, and tasks of one estimate in the order their suites were asked for. */
  lemma LongestComeFirst(cat: Catalogue, sel: Selection, host: Option<string>, ms: nat)
    requires PlanChecks(cat, sel, host).Ok?
    ensures var tasks := PlanChecks(cat, sel, host).value.tasks;
      && (forall i, j :: 0 <= i < j < |tasks| ==> MsOf(cat, tasks[i].task) >= MsOf(cat, tasks[j].task))
      && Filter((p: Planned) => MsOf(cat, p.task) == ms, tasks) ==
         Filter((p: Planned) => MsOf(cat, p.task) == ms, SharedTasks(cat, sel, sel.suites))
  {
    var tasks, shared := PlanChecks(cat, sel, host).value.tasks, SharedTasks(cat, sel, sel.suites);
    PlanOrdered(cat, sel, host, ms);
    forall task
      ensures Estimate(cat, task) == MsOf(cat, task)
    {
      TimesMean(cat, task);
    }
    FilterCongruent((p: Planned) => MsOf(cat, p.task) == ms, (p: Planned) => Estimate(cat, p.task) == ms, tasks);
    FilterCongruent((p: Planned) => MsOf(cat, p.task) == ms, (p: Planned) => Estimate(cat, p.task) == ms, shared);
  }

  // ---------------------------------------------------------------- coverage

  /** What a planned task covers: its files one by one if it runs the client's, and otherwise itself. */
  lemma CoversMean(cat: Catalogue, p: Planned)
    ensures CoverageUnits(cat)(p) ==
      if p.suite == cat.client && (cat.isFlutterShard(p.task.id) || p.task.id == cat.flutterTest)
      then Map((path: string) => ClientFile(path), WordsAfter(p.task)) else [WholeTask(Key(p.suite, p.task.id))]
  {
  }

  // ---------------------------------------------------------------- prepare steps

  /** A suite's own prepare steps, if anything of it is selected. */
  function StepsOf(cat: Catalogue, sel: Selection): string -> seq<Planned> {
    (id: string) =>
      if SelectedOf(cat, sel, id) == [] || Find(cat.suites, id).None? then []
      else Map((step: Task) => Planned(id, step, 1), Find(cat.suites, id).value.prepare)
  }

  lemma {:induction false} SharedSteps(cat: Catalogue, sel: Selection, host: Option<string>, suites: seq<string>)
    requires Shares(cat, sel, host, suites).Ok?
    ensures Shares(cat, sel, host, suites).value.prepare == FlatMap(StepsOf(cat, sel), suites)
  {
    if suites != [] {
      var id := suites[|suites| - 1];
      SharedSteps(cat, sel, host, suites[..|suites| - 1]);
      var suite := FindRunnable(cat, id, host).value;
      assert Map(InSuite(id, 1), suite.prepare) == Map((step: Task) => Planned(id, step, 1), suite.prepare);
    }
  }

  /** The prepare steps of a plan: those of each suite something is selected from, once, in the order asked for. */
  lemma PrepareHolds(cat: Catalogue, sel: Selection, host: Option<string>)
    requires PlanChecks(cat, sel, host).Ok?
    ensures PlanChecks(cat, sel, host).value.prepare == FlatMap(StepsOf(cat, sel), sel.suites)
  {
    SharedSteps(cat, sel, host, sel.suites);
  }

  // ---------------------------------------------------------------- when there is no plan

  /** The suite is known and runs on the host, if one is asked about. */
  ghost predicate Runs(cat: Catalogue, id: string, host: Option<string>) {
    && (exists suite :: IsSuite(cat, id, suite))
    && (host.Some? ==> cat.runsOn(id, host.value))
  }

  /** Merging the suite's files, if it is to be merged, finds some file and none twice. */
  ghost predicate Mergeable(cat: Catalogue, id: string, sel: Selection) {
    Merges(cat, id, sel) && Find(cat.suites, id).Some? ==>
      var files := FlatMap(WordsAfter, FlutterShards(cat, Find(cat.suites, id).value));
      files != [] && NoRepeat(files)
  }

  ghost predicate Plannable(cat: Catalogue, sel: Selection, host: Option<string>, id: string) {
    Runs(cat, id, host) && Mergeable(cat, id, sel)
  }

  lemma RunsMeans(cat: Catalogue, id: string, host: Option<string>)
    ensures FindRunnable(cat, id, host).Some? <==> Runs(cat, id, host)
  {
    if Find(cat.suites, id).Some? {
      assert IsSuite(cat, id, Find(cat.suites, id).value);
    }
  }

  lemma MergeMeans(cat: Catalogue, suite: Suite, sel: Selection)
    requires Find(cat.suites, suite.id) == Some(suite)
    ensures Selected(cat, suite, sel).Some? <==> Mergeable(cat, suite.id, sel)
  {
    var shards := FlutterShards(cat, suite);
    var files := FlatMap(FilesOf, shards);
    ShardsMean(cat, suite);
    FlatSame(FilesOf, WordsAfter, shards);
    SortPermutes(cat.fileOrder, files);
    DistinctCounts(files);
    DistinctCounts(Files(cat, suite));
    assert |multiset(files)| == |files| && |multiset(Files(cat, suite))| == |Files(cat, suite)|;
  }

  /** The first suite that cannot be planned decides what the refusal says. */
  ghost predicate RefusedAt(cat: Catalogue, sel: Selection, host: Option<string>, suites: seq<string>, i: nat,
          error: PlanError)
  {
    && i < |suites| && !Plannable(cat, sel, host, suites[i])
    && (forall j :: 0 <= j < i ==> Plannable(cat, sel, host, suites[j]))
    && error == if Runs(cat, suites[i], host) then BadFilePartition else SuiteDoesNotRun
  }

  /** One more suite. */
  lemma SharesMore(cat: Catalogue, sel: Selection, host: Option<string>, suites: seq<string>)
    requires suites != []
    ensures var init, id := suites[..|suites| - 1], suites[|suites| - 1];
      match Shares(cat, sel, host, init)
      case Refused(error) => Shares(cat, sel, host, suites) == Refused(error)
      case Ok(_) =>
        if Plannable(cat, sel, host, id) then Shares(cat, sel, host, suites).Ok?
        else
          Shares(cat, sel, host, suites) == Refused(if Runs(cat, id, host) then BadFilePartition else SuiteDoesNotRun)
  {
    var id := suites[|suites| - 1];
    RunsMeans(cat, id, host);
    if FindRunnable(cat, id, host).Some? { MergeMeans(cat, FindRunnable(cat, id, host).value, sel); }
  }

  lemma RefusedStill(cat: Catalogue, sel: Selection, host: Option<string>, init: seq<string>, id: string, i: nat,
          error: PlanError)
    requires RefusedAt(cat, sel, host, init, i, error)
    ensures RefusedAt(cat, sel, host, init + [id], i, error)
  {
    assert forall j :: 0 <= j <= i ==> (init + [id])[j] == init[j];
  }

  lemma {:induction false} SharesExactly(cat: Catalogue, sel: Selection, host: Option<string>, suites: seq<string>)
    ensures Shares(cat, sel, host, suites).Ok? ==>
      forall i :: 0 <= i < |suites| ==> Plannable(cat, sel, host, suites[i])
    ensures Shares(cat, sel, host, suites).Refused? ==>
      exists i: nat :: RefusedAt(cat, sel, host, suites, i, Shares(cat, sel, host, suites).error)
  {
    if suites != [] {
      var init, id := suites[..|suites| - 1], suites[|suites| - 1];
      SharesExactly(cat, sel, host, init);
      SharesMore(cat, sel, host, suites);
      assert suites == init + [id];
      if Shares(cat, sel, host, init).Refused? {
        var error := Shares(cat, sel, host, init).error;
        var i: nat :| RefusedAt(cat, sel, host, init, i, error);
        RefusedStill(cat, sel, host, init, id, i, error);
      } else if Shares(cat, sel, host, suites).Refused? {
        assert RefusedAt(cat, sel, host, suites, |init|, Shares(cat, sel, host, suites).error);
      }
    }
  }

  /**
   * A plan is made exactly when no suite is asked for twice, a shard is not asked for combined, every suite is known
   * and runs on the host, and the files to be merged are some and none twice; otherwise the first of these that fails
   * is the reason given.
   */
  lemma PlansExactly(cat: Catalogue, sel: Selection, host: Option<string>)
    ensures var plan := PlanChecks(cat, sel, host);
      var clash := sel.shard.Some? && sel.layout == Some(Combined);
      && (plan == Refused(DuplicateSuites) <==> !NoRepeat(sel.suites))
      && (plan == Refused(CombinedShard) <==> NoRepeat(sel.suites) && clash)
      && (plan.Ok? <==>
            && NoRepeat(sel.suites) && !clash
            && forall i :: 0 <= i < |sel.suites| ==> Plannable(cat, sel, host, sel.suites[i]))
      && (plan.Refused? && NoRepeat(sel.suites) && !clash ==>
            exists i: nat :: RefusedAt(cat, sel, host, sel.suites, i, plan.error))
  {
    SharesExactly(cat, sel, host, sel.suites);
  }
}
