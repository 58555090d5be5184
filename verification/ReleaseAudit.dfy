/**
 * The static audit of the release's job matrix (scripts/ci/audit-release-matrix.ts): what it accepts before anything
 * runs, the aggregate will accept afterwards, if each job's report validates.
 */
module ReleaseAudit {
  import opened Wrappers
  import opened Sequences
  import opened CheckPlan
  import opened PlanFacts
  import opened PlanCoverage
  import opened PlanContents
  import opened CheckRun
  import opened CheckEvidence
  import opened Partition
  import opened Aggregate
  import EvidenceAgrees

  /** One row of the matrix: a suite, perhaps a shard of it, its artifact's name and what its job sets up. */
  datatype Row = Row(suite: string, shard: Option<ShardPart>, part: string, flutter: bool, browser: bool)

  function RowSelection(row: Row): Selection {
    Selection([row.suite], row.shard, None, 1, Some(SerialShards))
  }

  predicate NeedsFlutter(cat: Catalogue, plan: Plan) {
    exists i :: 0 <= i < |plan.prepare|
      && plan.prepare[i].task.run != [] && plan.prepare[i].task.run[0] == cat.flutter.0
  }

  predicate RowOk(cat: Catalogue, row: Row) {
    && row.suite in cat.releaseSuites && (row.shard.Some? ==> row.shard.value.total <= MAX_SHARDS)
    && row.part == PartitionName((row.suite, row.shard))
    && var plan := PlanChecks(cat, RowSelection(row), None);
       && plan.Ok? && plan.value.tasks != []
       && (NeedsFlutter(cat, plan.value) ==> row.flutter) && (row.suite == cat.web ==> row.browser)
  }

  function RowUnits(cat: Catalogue): Row -> seq<Unit> {
    (row: Row) => UnitsFor(cat, RowSelection(row))
  }

  predicate Audits(cat: Catalogue, rows: seq<Row>) {
    && Expected(cat, cat.releaseSuites).Some?
    && (forall i :: 0 <= i < |rows| ==> RowOk(cat, rows[i]))
    && SameSet(FlatMap(RowUnits(cat), rows), Expected(cat, cat.releaseSuites).value)
  }

  function CheckRow(cat: Catalogue): Row -> Option<seq<Unit>> {
    (row: Row) => if RowOk(cat, row) then Some(UnitsFor(cat, RowSelection(row))) else None
  }

  /** Push what one row covers. */
  function Pushing(check: Row -> Option<seq<Unit>>): (seq<Unit>, Row) -> Option<seq<Unit>> {
    (before: seq<Unit>, row: Row) => if check(row).None? then None else Some(before + check(row).value)
  }

  lemma {:induction false} PushingIs(check: Row -> Option<seq<Unit>>, units: Row -> seq<Unit>, rows: seq<Row>)
    requires forall i :: 0 <= i < |rows| && check(rows[i]).Some? ==> check(rows[i]).value == units(rows[i])
    ensures Steps(Pushing(check), [], rows) ==
            if forall i :: 0 <= i < |rows| ==> check(rows[i]).Some? then Some(FlatMap(units, rows)) else None
  {
    if rows != [] {
      PushingIs(check, units, rows[..|rows| - 1]);
    }
  }

  /** The loop over the rows: check each and push what it covers. */
  method ObserveRows(cat: Catalogue, rows: seq<Row>) returns (observed: Option<seq<Unit>>)
    ensures observed == Steps(Pushing(CheckRow(cat)), [], rows)
  {
    ghost var step := Pushing(CheckRow(cat));
    var units: seq<Unit> := [];
    var n := 0;
    while n < |rows|
      invariant n <= |rows| && Steps(step, [], rows[..n]) == Some(units)
    {
      StepsNext(step, [], rows, n);
      if !RowOk(cat, rows[n]) {
        StepsStop(step, [], rows, n + 1);
        return None;
      }
      units := units + UnitsFor(cat, RowSelection(rows[n]));
      n := n + 1;
    }
    assert rows[..n] == rows;
    return Some(units);
  }

  lemma RowsChecked(cat: Catalogue, rows: seq<Row>)
    ensures Steps(Pushing(CheckRow(cat)), [], rows) ==
            if forall i :: 0 <= i < |rows| ==> RowOk(cat, rows[i]) then Some(FlatMap(RowUnits(cat), rows)) else None
  {
    PushingIs(CheckRow(cat), RowUnits(cat), rows);
    forall i | 0 <= i < |rows|
      ensures CheckRow(cat)(rows[i]).Some? <==> RowOk(cat, rows[i])
    {
    }
  }

  /** The audit of the matrix's coverage. */
  method AuditMatrix(cat: Catalogue, rows: seq<Row>) returns (accepted: bool)
    ensures accepted <==> Audits(cat, rows)
  {
    var expected := Expected(cat, cat.releaseSuites);
    var observed := ObserveRows(cat, rows);
    RowsChecked(cat, rows);
    return expected.Some? && observed.Some? && SameSet(observed.value, expected.value);
  }

  // ---------------------------------------------------------------- what an audited matrix is

  /** The name of a row's artifact: its suite, and the shard's two numbers after it if it has one. */
  function PartText(row: Row): string {
    match row.shard
    case None => row.suite
    case Some(part) => row.suite + "-" + Decimal(part.index) + "-" + Decimal(part.total)
  }

  /**
   * A row of a release suite, perhaps one shard of at most 32, under its own artifact name, with something to run, with
   * Flutter set up if a prepare step needs it and a browser if it is the web suite.
   */
  ghost predicate RowFits(cat: Catalogue, row: Row) {
    var plan := PlanChecks(cat, Selection([row.suite], row.shard, None, 1, Some(SerialShards)), None);
    && row.suite in cat.releaseSuites && (row.shard.Some? ==> row.shard.value.total <= 32)
    && row.part == PartText(row) && plan.Ok? && |plan.value.tasks| > 0
    && (row.flutter || forall i :: 0 <= i < |plan.value.prepare| && plan.value.prepare[i].task.run != [] ==>
          plan.value.prepare[i].task.run[0] != cat.flutter.0)
    && (row.browser || row.suite != cat.web)
  }

  lemma PartIs(row: Row)
    ensures PartText(row) == PartitionName((row.suite, row.shard))
  {
    match row.shard
    case None =>
    case Some(part) =>
      var index, total := Decimal(part.index), Decimal(part.total);
      assert row.suite + "-" + index + "-" + total == row.suite + (['-'] + (index + ['-'] + total));
  }

  lemma RowMeans(cat: Catalogue, row: Row)
    ensures RowOk(cat, row) <==> RowFits(cat, row)
  {
    PartIs(row);
  }

  /** The audit accepts exactly the matrices whose rows all fit and whose coverage is, as a set, what is expected. */
  lemma AuditsExactly(cat: Catalogue, rows: seq<Row>)
    ensures Audits(cat, rows) <==>
      && Expected(cat, cat.releaseSuites).Some?
      && (forall i :: 0 <= i < |rows| ==> RowFits(cat, rows[i]))
      && SameSet(FlatMap(RowUnits(cat), rows), Expected(cat, cat.releaseSuites).value)
  {
    AllRowsMean(cat, rows);
  }

  lemma AllRowsMean(cat: Catalogue, rows: seq<Row>)
    ensures (forall i :: 0 <= i < |rows| ==> RowOk(cat, rows[i])) <==>
            (forall i :: 0 <= i < |rows| ==> RowFits(cat, rows[i]))
  {
    forall i | 0 <= i < |rows|
      ensures RowOk(cat, rows[i]) <==> RowFits(cat, rows[i])
    {
      RowMeans(cat, rows[i]);
    }
  }

  /** What is expected of some suites leaves nothing out: every unit of every task of theirs is expected. */
  lemma ExpectsAll(cat: Catalogue, suites: seq<string>, suite: Suite, task: Task, unit: Unit)
    requires WellNamed(cat) && Expected(cat, suites).Some?
    requires IsSuite(cat, suite.id, suite) && suite.id in suites && task in suite.tasks
    requires unit in CoverageUnits(cat)(Planned(suite.id, task, 1))
    ensures unit in Expected(cat, suites).value
  {
    var p, tasks := Planned(suite.id, task, 1), PlanChecks(cat, WholeSelection(suites), None).value.tasks;
    PlanMeans(cat, WholeSelection(suites), None, suite, p);
    var i :| 0 <= i < |tasks| && tasks[i] == p;
    FlatMapMember(CoverageUnits(cat), tasks, unit);
  }

  /** And nothing more: every unit expected is of a task of one of them. */
  lemma ExpectsOnly(cat: Catalogue, suites: seq<string>, unit: Unit)
    requires WellNamed(cat) && Expected(cat, suites).Some? && unit in Expected(cat, suites).value
    ensures exists suite: Suite, task: Task ::
      IsSuite(cat, suite.id, suite) && suite.id in suites && task in suite.tasks
      && unit in CoverageUnits(cat)(Planned(suite.id, task, 1))
  {
    var tasks := PlanChecks(cat, WholeSelection(suites), None).value.tasks;
    FlatMapMember(CoverageUnits(cat), tasks, unit);
    var i :| 0 <= i < |tasks| && unit in CoverageUnits(cat)(tasks[i]);
    var p := tasks[i];
    PlanWithin(cat, WholeSelection(suites), None, p);
    var suite :| IsSuite(cat, p.suite, suite);
    PlanMeans(cat, WholeSelection(suites), None, suite, p);
    assert p.task in suite.tasks && unit in CoverageUnits(cat)(Planned(suite.id, p.task, 1));
  }

  // ---------------------------------------------------------------- the plan expects nothing twice

  /** The files of a client's shard tasks, each once. */
  predicate FilesOnce(cat: Catalogue) {
    var client := Find(cat.suites, cat.client);
    client.Some? ==> NoRepeat(FlatMap(FilesOf, ShardTasks(cat, client.value)))
  }

  predicate CoversFiles(cat: Catalogue, p: Planned) { p.suite == cat.client && IsFlutter(cat, p.task.id) }

  /** A planned task that covers files is one of the client's shard tasks. */
  lemma FileTask(cat: Catalogue, sel: Selection, p: Planned)
    requires WellNamed(cat) && PlanChecks(cat, sel, None).Ok? && p in PlanChecks(cat, sel, None).value.tasks
    requires CoversFiles(cat, p) && sel.layout != Some(Combined)
    ensures Find(cat.suites, cat.client).Some? && p.task in ShardTasks(cat, Find(cat.suites, cat.client).value)
  {
    PlanTakes(cat, sel, None, p);
    var suite := Find(cat.suites, cat.client).value;
    SuiteNamed(cat, cat.client);
    NotCombined(cat, sel, p.task);
    FilterMember((task: Task) => IsShardTask(cat, task), suite.tasks, p.task);
    var i :| 0 <= i < |suite.tasks| && suite.tasks[i] == p.task;
  }

  lemma NotCombined(cat: Catalogue, sel: Selection, task: Task)
    requires sel.layout != Some(Combined) && task in SelectedOf(cat, sel, cat.client)
    ensures Find(cat.suites, cat.client).Some? && task in Find(cat.suites, cat.client).value.tasks
  {
    var suite := Find(cat.suites, cat.client).value;
    var named := Named(cat, suite, sel).value;
    if sel.shard.Some? {
      FilterMember((t: Task) => InShard(cat, named, sel.shard.value, t.id), named, task);
    }
    FilterMember((t: Task) => Wanted(sel.only, t), suite.tasks, task);
  }

  lemma ApartFiles(shards: seq<Task>, a: Task, b: Task)
    requires NoRepeat(FlatMap(FilesOf, shards)) && a in shards && b in shards && a != b
    ensures Disjoint(FileUnits(FilesOf(a)), FileUnits(FilesOf(b))) && NoRepeat(FileUnits(FilesOf(a)))
  {
    FlatMapDistinct(FilesOf, shards);
    var i :| 0 <= i < |shards| && shards[i] == a;
    var j :| 0 <= j < |shards| && shards[j] == b;
    assert if i < j then Disjoint(FilesOf(shards[i]), FilesOf(shards[j]))
           else Disjoint(FilesOf(shards[j]), FilesOf(shards[i]));
    assert NoRepeat(FilesOf(shards[i]));
  }

  lemma OwnFiles(shards: seq<Task>, a: Task)
    requires NoRepeat(FlatMap(FilesOf, shards)) && a in shards
    ensures NoRepeat(FileUnits(FilesOf(a)))
  {
    FlatMapDistinct(FilesOf, shards);
    var i :| 0 <= i < |shards| && shards[i] == a;
    assert NoRepeat(FilesOf(shards[i]));
  }

  lemma UnitsDistinct(cat: Catalogue, sel: Selection, i: nat)
    requires WellNamed(cat) && FilesOnce(cat) && sel.layout != Some(Combined)
    requires PlanChecks(cat, sel, None).Ok? && i < |PlanChecks(cat, sel, None).value.tasks|
    ensures NoRepeat(CoverageUnits(cat)(PlanChecks(cat, sel, None).value.tasks[i]))
  {
    var p := PlanChecks(cat, sel, None).value.tasks[i];
    if CoversFiles(cat, p) {
      FileTask(cat, sel, p);
      OwnFiles(ShardTasks(cat, Find(cat.suites, cat.client).value), p.task);
    }
  }

  lemma UnitsApart(cat: Catalogue, sel: Selection, i: nat, j: nat)
    requires WellNamed(cat) && FilesOnce(cat) && sel.layout != Some(Combined) && sel.repeat == 1
    requires PlanChecks(cat, sel, None).Ok? && i < j < |PlanChecks(cat, sel, None).value.tasks|
    ensures var tasks := PlanChecks(cat, sel, None).value.tasks;
      Disjoint(CoverageUnits(cat)(tasks[i]), CoverageUnits(cat)(tasks[j]))
  {
    var tasks := PlanChecks(cat, sel, None).value.tasks;
    EvidenceAgrees.KeysOnce(cat, sel, None);
    assert Map(TaskKey, tasks)[i] != Map(TaskKey, tasks)[j];
    if CoversFiles(cat, tasks[i]) && CoversFiles(cat, tasks[j]) {
      FileTask(cat, sel, tasks[i]);
      FileTask(cat, sel, tasks[j]);
      ApartFiles(ShardTasks(cat, Find(cat.suites, cat.client).value), tasks[i].task, tasks[j].task);
    }
  }

  /** With names and files used once, no plan expects a unit twice, which is what makes the aggregate sound. */
  lemma CoverageOnce(cat: Catalogue, sel: Selection)
    requires WellNamed(cat) && FilesOnce(cat) && sel.layout != Some(Combined) && sel.repeat == 1
    requires PlanChecks(cat, sel, None).Ok?
    ensures NoRepeat(Coverage(cat, PlanChecks(cat, sel, None).value.tasks))
  {
    var tasks := PlanChecks(cat, sel, None).value.tasks;
    forall i | 0 <= i < |tasks|
      ensures NoRepeat(CoverageUnits(cat)(tasks[i]))
    {
      UnitsDistinct(cat, sel, i);
    }
    forall i, j | 0 <= i < j < |tasks|
      ensures Disjoint(CoverageUnits(cat)(tasks[i]), CoverageUnits(cat)(tasks[j]))
    {
      UnitsApart(cat, sel, i, j);
    }
    FlatMapDistinct(CoverageUnits(cat), tasks);
  }

  /** So, in such a catalogue, an accepted aggregate has run every unit of the plan exactly once. */
  lemma AggregateRunsAll(cat: Catalogue, ctx: AggregateContext, contributors: seq<Contributor>)
    requires WellNamed(cat) && FilesOnce(cat) && MayCombine(cat, ctx, contributors)
    ensures multiset(FlatMap(RecordedUnits(cat), AllResults(contributors))) ==
            multiset(Expected(cat, RequiredSuites(cat, ctx)).value)
  {
    CoverageOnce(cat, WholeSelection(RequiredSuites(cat, ctx)));
    AggregateRuns(cat, ctx, contributors);
  }

  // ---------------------------------------------------------------- the static audit implies dynamic acceptance

  type RowKey = (seq<string>, Option<ShardPart>)

  function KeyOfRow(row: Row): RowKey { ([row.suite], row.shard) }

  function KeyOfContributor(contributor: Contributor): RowKey {
    (contributor.report.selection.suites, contributor.report.selection.shard)
  }

  function UnitsOfKey(cat: Catalogue): RowKey -> seq<Unit> {
    (key: RowKey) => UnitsFor(cat, Selection(key.0, key.1, None, 1, Some(SerialShards)))
  }

  lemma ContributorPlans(cat: Catalogue, ctx: AggregateContext, contributor: Contributor)
    requires ContributorOk(cat, contributor, ctx)
    ensures var sel := contributor.report.selection;
      sel.only.None? && sel.repeat == 1 && sel.layout.Some? && PlanChecks(cat, sel, None).Ok?
  {
  }

  lemma LayoutsSame(cat: Catalogue, sel: Selection)
    requires sel.only.None? && sel.layout.Some? && PlanChecks(cat, sel, None).Ok?
    ensures multiset(UnitsFor(cat, sel)) == multiset(UnitsFor(cat, WithLayout(sel, Some(SerialShards))))
  {
    var serial := WithLayout(sel, Some(SerialShards));
    if sel.layout == Some(Combined) {
      assert sel == WithLayout(serial, Some(Combined));
      CombinedPlans(cat, serial, None);
      LayoutsCoverSame(cat, serial, None);
    } else {
      assert sel.layout.value == SerialShards;
      assert sel == serial;
    }
  }

  /** A validated contributor covers what its suites and shard do, whichever layout it ran. */
  lemma ContributorUnits(cat: Catalogue, ctx: AggregateContext, contributor: Contributor)
    requires ContributorOk(cat, contributor, ctx)
    ensures multiset(UnitsOfContributor(cat)(contributor)) == multiset(UnitsOfKey(cat)(KeyOfContributor(contributor)))
  {
    var sel := contributor.report.selection;
    ContributorPlans(cat, ctx, contributor);
    LayoutsSame(cat, sel);
    assert WithLayout(sel, Some(SerialShards)) == Selection(sel.suites, sel.shard, None, 1, Some(SerialShards));
  }

  /** What valid contributors cover together, and what the rows do, by their suites and shards alone. */
  lemma ObservedByKey(cat: Catalogue, ctx: AggregateContext, contributors: seq<Contributor>)
    requires forall i :: 0 <= i < |contributors| ==> ContributorOk(cat, contributors[i], ctx)
    ensures multiset(Observed(cat, contributors)) ==
            multiset(FlatMap(UnitsOfKey(cat), Map(KeyOfContributor, contributors)))
  {
    var byKey := UnitsOfKey(cat);
    var units := (contributor: Contributor) => byKey(KeyOfContributor(contributor));
    forall i | 0 <= i < |contributors|
      ensures multiset(UnitsOfContributor(cat)(contributors[i])) == multiset(units(contributors[i]))
    {
      ContributorUnits(cat, ctx, contributors[i]);
    }
    FlatMapSame(UnitsOfContributor(cat), units, contributors);
    FlatMapThrough(byKey, KeyOfContributor, units, contributors);
  }

  lemma RowsByKey(cat: Catalogue, rows: seq<Row>)
    ensures FlatMap(UnitsOfKey(cat), Map(KeyOfRow, rows)) == FlatMap(RowUnits(cat), rows)
  {
    FlatMapThrough(UnitsOfKey(cat), KeyOfRow, RowUnits(cat), rows);
  }

  /** Valid contributors that cover what the audited rows cover are accepted together. */
  lemma CoveringCombines(cat: Catalogue, ctx: AggregateContext, rows: seq<Row>, contributors: seq<Contributor>)
    requires Audits(cat, rows) && contributors != [] && RequiredSuites(cat, ctx) == cat.releaseSuites
    requires forall i :: 0 <= i < |contributors| ==> ContributorOk(cat, contributors[i], ctx)
    requires multiset(Observed(cat, contributors)) == multiset(FlatMap(RowUnits(cat), rows))
    ensures MayCombine(cat, ctx, contributors)
    ensures CompleteEvidence(cat, Whole(Combination(cat, ctx, contributors)), ctx)
  {
    SameSetOrder(FlatMap(RowUnits(cat), rows), Observed(cat, contributors), Expected(cat, cat.releaseSuites).value);
    CompleteExactly(cat, ctx, Combination(cat, ctx, contributors));
  }

  /**
   * If the audit accepts the matrix, then contributors for exactly its rows, in any order and either layout, each valid
   * on its own, are accepted together.
   */
  lemma AuditImpliesCombined(cat: Catalogue, ctx: AggregateContext, rows: seq<Row>,
          contributors: seq<Contributor>)
    requires Audits(cat, rows) && rows != [] && RequiredSuites(cat, ctx) == cat.releaseSuites
    requires forall i :: 0 <= i < |contributors| ==> ContributorOk(cat, contributors[i], ctx)
    requires multiset(Map(KeyOfContributor, contributors)) == multiset(Map(KeyOfRow, rows))
    ensures MayCombine(cat, ctx, contributors)
    ensures CompleteEvidence(cat, Whole(Combination(cat, ctx, contributors)), ctx)
  {
    ObservedByKey(cat, ctx, contributors);
    RowsByKey(cat, rows);
    FlatMapPermutes(UnitsOfKey(cat), Map(KeyOfContributor, contributors), Map(KeyOfRow, rows));
    assert |multiset(Map(KeyOfContributor, contributors))| == |contributors|;
    assert |multiset(Map(KeyOfRow, rows))| == |rows|;
    CoveringCombines(cat, ctx, rows, contributors);
  }

  // ---------------------------------------------------------------- end to end

  /** A job of the matrix: how its runner was called, what happened, and the provenance it was uploaded with. */
  datatype Job = Job(options: Options, env: Environment, meta: Meta)

  /** The job ran its row on Linux at the release's commit and passed. */
  ghost predicate JobPassed(cat: Catalogue, ctx: AggregateContext, row: Row, job: Job) {
    && job.options.selection == RowSelection(row) && Ends(cat, job.options, job.env)
    && RunChecks(cat, job.options, job.env).passed && !RunChecks(cat, job.options, job.env).complete
    && job.env.commit == ctx.base.commit && job.env.dirty == ctx.base.dirty && job.env.host.platform == LINUX
    && (ctx.base.bun.Some? ==> ctx.base.bun.value == job.env.host.bun)
    && MetaOk(job.meta, ctx)
  }

  /** The contributor is the report that job's runner wrote. */
  ghost predicate JobReported(cat: Catalogue, ctx: AggregateContext, row: Row, job: Job, contributor: Contributor) {
    JobPassed(cat, ctx, row, job) && contributor == Contributor(job.meta, RunChecks(cat, job.options, job.env))
  }

  lemma JobValid(cat: Catalogue, ctx: AggregateContext, row: Row, job: Job, contributor: Contributor)
    requires WellNamed(cat) && Hex40(ctx.base.commit) && RowOk(cat, row) && JobReported(cat, ctx, row, job, contributor)
    ensures ContributorOk(cat, contributor, ctx)
  {
    EvidenceAgrees.RunnerAgrees(cat, job.options, job.env, PartContext(ctx));
  }

  lemma JobKey(cat: Catalogue, ctx: AggregateContext, row: Row, job: Job, contributor: Contributor)
    requires JobReported(cat, ctx, row, job, contributor)
    ensures KeyOfContributor(contributor) == KeyOfRow(row)
  {
  }

  lemma JobsValid(cat: Catalogue, ctx: AggregateContext, rows: seq<Row>, jobs: seq<Job>,
          contributors: seq<Contributor>, i: nat)
    requires WellNamed(cat) && Audits(cat, rows) && Hex40(ctx.base.commit) && |jobs| == |rows| == |contributors|
    requires i < |rows| && JobReported(cat, ctx, rows[i], jobs[i], contributors[i])
    ensures ContributorOk(cat, contributors[i], ctx) && KeyOfContributor(contributors[i]) == KeyOfRow(rows[i])
  {
    JobValid(cat, ctx, rows[i], jobs[i], contributors[i]);
    JobKey(cat, ctx, rows[i], jobs[i], contributors[i]);
  }

  /**
   * End to end: if the audit accepts the matrix and every job's runner passes, the reports those runners write validate
   * and combine into complete release evidence, whatever happened inside the runs.
   */
  lemma ReleaseJobsAccepted(cat: Catalogue, ctx: AggregateContext, rows: seq<Row>, jobs: seq<Job>,
          contributors: seq<Contributor>)
    requires WellNamed(cat) && Audits(cat, rows) && rows != [] && RequiredSuites(cat, ctx) == cat.releaseSuites
    requires Hex40(ctx.base.commit) && |jobs| == |rows| == |contributors|
    requires forall i :: 0 <= i < |rows| ==> JobReported(cat, ctx, rows[i], jobs[i], contributors[i])
    ensures CompleteEvidence(cat, Whole(Combination(cat, ctx, contributors)), ctx)
  {
    forall i | 0 <= i < |rows|
      ensures ContributorOk(cat, contributors[i], ctx) && KeyOfContributor(contributors[i]) == KeyOfRow(rows[i])
    {
      JobsValid(cat, ctx, rows, jobs, contributors, i);
    }
    assert Map(KeyOfContributor, contributors) == Map(KeyOfRow, rows);
    AuditImpliesCombined(cat, ctx, rows, contributors);
  }
}
