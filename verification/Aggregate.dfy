/**
 * Release evidence put together from several partial check reports (`combineChecks` and `validateCompleteEvidence` in
 * scripts/ci/check-evidence.ts).
 */
module Aggregate {
  import opened Wrappers
  import opened Sequences
  import opened Sorting
  import opened CheckPlan
  import opened PlanFacts
  import opened PlanCoverage
  import opened CheckRun
  import opened CheckEvidence
  import opened RunRecords
  import opened Acceptance
  import EvidenceAgrees

  const LINUX := "linux"

  /** Where a report was produced. */
  datatype Origin = Origin(
    repository: string,
    workflow: string,
    runId: int,
    commit: string,
    bun: string,
    linuxRelease: bool)

  datatype Meta = Meta(schemaVersion: int, verifyJob: bool, origin: Origin, attempt: int)

  datatype Producer = Producer(origin: Origin, attempt: int)

  datatype Contributor = Contributor(meta: Meta, report: Report)

  /** The aggregate's context: that of one report, and who must have produced the contributions. */
  datatype AggregateContext = AggregateContext(base: Context, producer: Option<Producer>)

  datatype AggregateSelection = AggregateSelection(
    suites: seq<string>,
    complete: bool,
    shard: Option<ShardPart>,
    only: Option<seq<string>>,
    repeat: nat)

  datatype AggregateIdentity = AggregateIdentity(
    schemaVersion: int,
    passed: bool,
    commit: string,
    dirty: bool,
    linuxRelease: bool)

  datatype AggregateReport = AggregateReport(
    identity: AggregateIdentity,
    selection: AggregateSelection,
    counts: Counts,
    contributors: seq<Contributor>,
    coverage: seq<Unit>)

  // ---------------------------------------------------------------- what is expected

  function RequiredSuites(cat: Catalogue, ctx: AggregateContext): seq<string> {
    if ctx.base.requiredSuites.Some? then ctx.base.requiredSuites.value else cat.releaseSuites
  }

  function WholeSelection(suites: seq<string>): Selection {
    Selection(suites, None, None, 1, Some(SerialShards))
  }

  /** The coverage of a selection, if it can be planned. */
  function SelectionCoverage(cat: Catalogue, sel: Selection): Option<seq<Unit>> {
    match PlanChecks(cat, sel, None)
    case Refused(_) => None
    case Ok(plan) => Some(Coverage(cat, plan.tasks))
  }

  function Expected(cat: Catalogue, suites: seq<string>): Option<seq<Unit>> {
    SelectionCoverage(cat, WholeSelection(suites))
  }

  // ---------------------------------------------------------------- combining

  predicate MetaOk(meta: Meta, ctx: AggregateContext) {
    && meta.schemaVersion == 1 && meta.origin.commit == ctx.base.commit && meta.origin.linuxRelease && meta.verifyJob
    && (ctx.producer.Some? ==>
          meta.origin == ctx.producer.value.origin && 1 <= meta.attempt <= ctx.producer.value.attempt)
  }

  function PartContext(ctx: AggregateContext): Context { ctx.base.(platform := Some(LINUX), complete := false) }

  predicate ContributorOk(cat: Catalogue, contributor: Contributor, ctx: AggregateContext) {
    MetaOk(contributor.meta, ctx) && Accepts(cat, contributor.report, PartContext(ctx))
  }

  function UnitsFor(cat: Catalogue, sel: Selection): seq<Unit> {
    if SelectionCoverage(cat, sel).Some? then SelectionCoverage(cat, sel).value else []
  }

  function UnitsOfContributor(cat: Catalogue): Contributor -> seq<Unit> {
    (contributor: Contributor) => UnitsFor(cat, contributor.report.selection)
  }

  function Observed(cat: Catalogue, contributors: seq<Contributor>): seq<Unit> {
    FlatMap(UnitsOfContributor(cat), contributors)
  }

  function AddCounts(a: Counts, b: Counts): Counts {
    Counts(a.pass + b.pass, a.flaky + b.flaky, a.fail + b.fail, a.blocked + b.blocked)
  }

  function SumCounts(contributors: seq<Contributor>): Counts {
    if contributors == [] then Counts(0, 0, 0, 0)
    else AddCounts(SumCounts(contributors[..|contributors| - 1]), contributors[|contributors| - 1].report.counts)
  }

  predicate MayCombine(cat: Catalogue, ctx: AggregateContext, contributors: seq<Contributor>) {
    && contributors != [] && Expected(cat, RequiredSuites(cat, ctx)).Some?
    && (forall i :: 0 <= i < |contributors| ==> ContributorOk(cat, contributors[i], ctx))
    && SameSet(Observed(cat, contributors), Expected(cat, RequiredSuites(cat, ctx)).value)
  }

  function Combination(cat: Catalogue, ctx: AggregateContext, contributors: seq<Contributor>): AggregateReport {
    AggregateReport(
      AggregateIdentity(1, true, ctx.base.commit, ctx.base.dirty, true),
      AggregateSelection(RequiredSuites(cat, ctx), true, None, None, 1),
      SumCounts(contributors), contributors, Sort(cat.unitOrder, Observed(cat, contributors)))
  }

  // ---------------------------------------------------------------- the loop over the contributors

  type Gathered = (seq<Unit>, Counts)

  /** What checking one contributor gives, if it passes. */
  type Check = Contributor -> Option<Gathered>

  function Checks(cat: Catalogue, ctx: AggregateContext): Check {
    (contributor: Contributor) =>
      if ContributorOk(cat, contributor, ctx)
      then Some((UnitsFor(cat, contributor.report.selection), contributor.report.counts)) else None
  }

  /** Add what one contributor gives. */
  function Adding(check: Check): (Gathered, Contributor) -> Option<Gathered> {
    (before: Gathered, contributor: Contributor) =>
      match check(contributor)
      case None => None
      case Some(checked) => Some((before.0 + checked.0, AddCounts(before.1, checked.1)))
  }

  const NOTHING: Gathered := ([], Counts(0, 0, 0, 0))

  lemma {:induction false} AddingIs(check: Check, units: Contributor -> seq<Unit>, contributors: seq<Contributor>)
    requires forall i :: 0 <= i < |contributors| && check(contributors[i]).Some? ==>
      check(contributors[i]).value == (units(contributors[i]), contributors[i].report.counts)
    ensures Steps(Adding(check), NOTHING, contributors) ==
            if forall i :: 0 <= i < |contributors| ==> check(contributors[i]).Some?
            then Some((FlatMap(units, contributors), SumCounts(contributors))) else None
  {
    if contributors != [] {
      AddingIs(check, units, contributors[..|contributors| - 1]);
    }
  }

  /** One contributor: its provenance, its report, and then what it covers and counts. */
  method CheckContributor(cat: Catalogue, contributor: Contributor, ctx: AggregateContext)
    returns (checked: Option<Gathered>)
    ensures checked == Checks(cat, ctx)(contributor)
  {
    if !MetaOk(contributor.meta, ctx) { return None; }
    var check := ValidateCheck(cat, contributor.report, PartContext(ctx));
    if check.None? { return None; }
    return Some((SelectionCoverage(cat, check.value.selection).value, check.value.counts));
  }

  method CollectContributors(cat: Catalogue, contributors: seq<Contributor>, ctx: AggregateContext)
    returns (collected: Option<Gathered>)
    ensures collected == Steps(Adding(Checks(cat, ctx)), NOTHING, contributors)
  {
    ghost var step := Adding(Checks(cat, ctx));
    var observed: seq<Unit> := [];
    var counts := Counts(0, 0, 0, 0);
    var n := 0;
    while n < |contributors|
      invariant n <= |contributors|
      invariant Steps(step, NOTHING, contributors[..n]) == Some((observed, counts))
    {
      StepsNext(step, NOTHING, contributors, n);
      var checked := CheckContributor(cat, contributors[n], ctx);
      if checked.None? {
        StepsStop(step, NOTHING, contributors, n + 1);
        return None;
      }
      observed := observed + checked.value.0;
      counts := AddCounts(counts, checked.value.1);
      n := n + 1;
    }
    assert contributors[..n] == contributors;
    return Some((observed, counts));
  }

  lemma ChecksMean(cat: Catalogue, contributors: seq<Contributor>, ctx: AggregateContext)
    ensures (forall i :: 0 <= i < |contributors| ==> Checks(cat, ctx)(contributors[i]).Some?) <==>
            (forall i :: 0 <= i < |contributors| ==> ContributorOk(cat, contributors[i], ctx))
  {
    forall i | 0 <= i < |contributors|
      ensures Checks(cat, ctx)(contributors[i]).Some? <==> ContributorOk(cat, contributors[i], ctx)
    {
    }
  }

  /** `combineChecks`: what it builds, and `None` where it throws. */
  method CombineChecks(cat: Catalogue, contributors: seq<Contributor>, ctx: AggregateContext)
    returns (report: Option<AggregateReport>)
    ensures report == if MayCombine(cat, ctx, contributors) then Some(Combination(cat, ctx, contributors)) else None
  {
    if contributors == [] { return None; }
    var expected := Expected(cat, RequiredSuites(cat, ctx));
    if expected.None? { return None; }
    var collected := CollectContributors(cat, contributors, ctx);
    AddingIs(Checks(cat, ctx), UnitsOfContributor(cat), contributors);
    ChecksMean(cat, contributors, ctx);
    if collected.None? || !SameSet(collected.value.0, expected.value) { return None; }
    return Some(AggregateReport(
      AggregateIdentity(1, true, ctx.base.commit, ctx.base.dirty, true),
      AggregateSelection(RequiredSuites(cat, ctx), true, None, None, 1),
      collected.value.1, contributors, Sort(cat.unitOrder, collected.value.0)));
  }

  // ---------------------------------------------------------------- validating what was combined

  datatype Evidence = Single(report: Report) | Whole(aggregate: AggregateReport)

  /** `validateCompleteEvidence`: a report on its own, or an aggregate that must be what its contributors combine to. */
  predicate CompleteEvidence(cat: Catalogue, evidence: Evidence, ctx: AggregateContext) {
    match evidence
    case Single(report) => Accepts(cat, report, ctx.base)
    case Whole(aggregate) =>
      && aggregate.identity.schemaVersion == 1 && aggregate.identity.passed
      && aggregate.identity.commit == ctx.base.commit
      && aggregate.identity.dirty == ctx.base.dirty && aggregate.identity.linuxRelease
      && MayCombine(cat, ctx, aggregate.contributors)
      && var rebuilt := Combination(cat, ctx, aggregate.contributors);
         && aggregate.selection == rebuilt.selection && aggregate.counts == rebuilt.counts
         && aggregate.coverage == rebuilt.coverage
  }

  /**
   * An aggregate is accepted exactly when it is what `combineChecks` builds from its own contributors: what was built
   * under the same context is accepted, and any change to its identity, selection, counts or coverage is not.
   */
  lemma CompleteExactly(cat: Catalogue, ctx: AggregateContext, aggregate: AggregateReport)
    ensures CompleteEvidence(cat, Whole(aggregate), ctx) <==>
            MayCombine(cat, ctx, aggregate.contributors) && aggregate == Combination(cat, ctx, aggregate.contributors)
  {
  }

  // ---------------------------------------------------------------- what acceptance says of every contributor

  /** A contribution of the release's verification job, at its commit, and by the producing run if one is expected. */
  predicate FromRelease(meta: Meta, ctx: AggregateContext) {
    && meta.schemaVersion == 1 && meta.verifyJob && meta.origin.linuxRelease && meta.origin.commit == ctx.base.commit
    && (ctx.producer.Some? ==>
          var producer := ctx.producer.value;
          && meta.origin.repository == producer.origin.repository && meta.origin.workflow == producer.origin.workflow
          && meta.origin.runId == producer.origin.runId && meta.origin.commit == producer.origin.commit
          && meta.origin.bun == producer.origin.bun && meta.origin.linuxRelease == producer.origin.linuxRelease
          && 1 <= meta.attempt <= producer.attempt)
  }

  /** A passing partial report of the release's commit and state, made on Linux. */
  predicate PartOfSource(report: Report, ctx: AggregateContext) {
    OfThisSource(report, ctx.base.(platform := Some("linux"))) && !report.complete
  }

  lemma ContributorMeans(cat: Catalogue, contributor: Contributor, ctx: AggregateContext)
    ensures ContributorOk(cat, contributor, ctx) ==>
      FromRelease(contributor.meta, ctx) && PartOfSource(contributor.report, ctx)
    ensures ContributorOk(cat, contributor, ctx) <==>
      FromRelease(contributor.meta, ctx)
      && Accepts(cat, contributor.report, ctx.base.(platform := Some("linux"), complete := false))
  {
    IdentityMeans(contributor.report, ctx.base.(platform := Some("linux"), complete := false));
  }

  /**
   * What an accepted aggregate is: a release of the commit and state expected, covering the suites required, whose
   * every contributor is a passing partial report of that commit and state, made on Linux by the release's verification
   * job.
   */
  lemma AcceptedAggregate(cat: Catalogue, ctx: AggregateContext, aggregate: AggregateReport)
    requires CompleteEvidence(cat, Whole(aggregate), ctx)
    ensures aggregate.identity == AggregateIdentity(1, true, ctx.base.commit, ctx.base.dirty, true)
    ensures aggregate.contributors != []
    ensures aggregate.selection.complete && aggregate.selection.shard.None? && aggregate.selection.only.None?
    ensures aggregate.selection.repeat == 1 && aggregate.selection.suites ==
      match ctx.base.requiredSuites case Some(suites) => suites case None => cat.releaseSuites
    ensures forall i :: 0 <= i < |aggregate.contributors| ==>
      FromRelease(aggregate.contributors[i].meta, ctx) && PartOfSource(aggregate.contributors[i].report, ctx)
  {
    forall i | 0 <= i < |aggregate.contributors|
      ensures FromRelease(aggregate.contributors[i].meta, ctx) && PartOfSource(aggregate.contributors[i].report, ctx)
    {
      ContributorMeans(cat, aggregate.contributors[i], ctx);
    }
  }

  /** So an aggregate is evidence of one commit and one state only. */
  lemma OneRelease(cat: Catalogue, aggregate: AggregateReport, a: AggregateContext, b: AggregateContext)
    requires CompleteEvidence(cat, Whole(aggregate), a) && CompleteEvidence(cat, Whole(aggregate), b)
    ensures a.base.commit == b.base.commit && a.base.dirty == b.base.dirty
  {
  }

  // ---------------------------------------------------------------- what an aggregate proves

  /** What a recorded result covers, read from its own name and command. */
  function RecordedUnits(cat: Catalogue): TaskResult -> seq<Unit> {
    (result: TaskResult) =>
      UnitsOf(cat, result.key.suite, Task(result.key.id, result.command, [], Limits(None, None, false, false)))
  }

  function ResultsOf(contributor: Contributor): seq<TaskResult> { contributor.report.tasks }

  function AllResults(contributors: seq<Contributor>): seq<TaskResult> { FlatMap(ResultsOf, contributors) }

  function UnitsByKey(cat: Catalogue, planned: seq<Planned>, key: Key): seq<Unit> {
    var found := FindPlanned(planned, key);
    if found.None? then [] else UnitsOf(cat, found.value.suite, found.value.task)
  }

  function KeyUnits(cat: Catalogue, planned: seq<Planned>): Key -> seq<Unit> {
    (key: Key) => UnitsByKey(cat, planned, key)
  }

  lemma KeyUnitsAt(cat: Catalogue, planned: seq<Planned>, k: nat)
    requires NoRepeat(Map(TaskKey, planned)) && k < |planned|
    ensures UnitsByKey(cat, planned, TaskKey(planned[k])) == UnitsOf(cat, planned[k].suite, planned[k].task)
  {
    EvidenceAgrees.FindsIt(planned, k);
  }

  lemma SameCommand(cat: Catalogue, task: Task, result: TaskResult)
    requires result.key.id == task.id && result.command == task.run
    ensures RecordedUnits(cat)(result) == UnitsOf(cat, result.key.suite, task)
  {
    var recorded := Task(result.key.id, result.command, [], Limits(None, None, false, false));
    assert FilesOf(recorded) == FilesOf(task);
    assert FileUnits(FilesOf(recorded)) == FileUnits(FilesOf(task));
  }

  lemma RecordedAt(cat: Catalogue, planned: seq<Planned>, result: TaskResult)
    requires PlannedOk(planned, result)
    ensures RecordedUnits(cat)(result) == UnitsByKey(cat, planned, result.key)
  {
    SameCommand(cat, FindPlanned(planned, result.key).value.task, result);
  }

  lemma PlannedByKey(cat: Catalogue, planned: seq<Planned>)
    requires NoRepeat(Map(TaskKey, planned))
    ensures FlatMap(KeyUnits(cat, planned), Map(TaskKey, planned)) == Coverage(cat, planned)
  {
    forall k | 0 <= k < |planned|
      ensures UnitsByKey(cat, planned, TaskKey(planned[k])) == UnitsOf(cat, planned[k].suite, planned[k].task)
    {
      KeyUnitsAt(cat, planned, k);
    }
    FlatMapThrough(KeyUnits(cat, planned), TaskKey, CoverageUnits(cat), planned);
  }

  lemma RecordedByKey(cat: Catalogue, planned: seq<Planned>, results: seq<TaskResult>)
    requires forall i :: 0 <= i < |results| ==> PlannedOk(planned, results[i])
    ensures FlatMap(KeyUnits(cat, planned), Map(KeyOf, results)) == FlatMap(RecordedUnits(cat), results)
  {
    forall i | 0 <= i < |results|
      ensures RecordedUnits(cat)(results[i]) == UnitsByKey(cat, planned, results[i].key)
    {
      RecordedAt(cat, planned, results[i]);
    }
    FlatMapThrough(KeyUnits(cat, planned), KeyOf, RecordedUnits(cat), results);
  }

  /** The accepted results of a plan cover, by their own names and commands, exactly what the plan does. */
  lemma ResultsCover(cat: Catalogue, planned: seq<Planned>, results: seq<TaskResult>)
    requires NoRepeat(Map(TaskKey, planned)) && TasksOk(planned, results)
    ensures multiset(FlatMap(RecordedUnits(cat), results)) == multiset(Coverage(cat, planned))
  {
    SameSetPermutation(Map(KeyOf, results), Map(TaskKey, planned));
    FlatMapPermutes(KeyUnits(cat, planned), Map(KeyOf, results), Map(TaskKey, planned));
    PlannedByKey(cat, planned);
    RecordedByKey(cat, planned, results);
  }

  lemma {:induction false} AllResultsCover(cat: Catalogue, contributors: seq<Contributor>, ctx: AggregateContext)
    requires WellNamed(cat) && forall i :: 0 <= i < |contributors| ==> ContributorOk(cat, contributors[i], ctx)
    ensures multiset(FlatMap(RecordedUnits(cat), AllResults(contributors))) == multiset(Observed(cat, contributors))
  {
    if contributors != [] {
      var init, last := contributors[..|contributors| - 1], contributors[|contributors| - 1];
      AllResultsCover(cat, init, ctx);
      FlatMapAppend(RecordedUnits(cat), AllResults(init), ResultsOf(last));
      ContributorCovers(cat, last, ctx);
    }
  }

  lemma ContributorCovers(cat: Catalogue, contributor: Contributor, ctx: AggregateContext)
    requires WellNamed(cat) && ContributorOk(cat, contributor, ctx)
    ensures multiset(FlatMap(RecordedUnits(cat), ResultsOf(contributor))) ==
            multiset(UnitsOfContributor(cat)(contributor))
  {
    var sel := contributor.report.selection;
    EvidenceAgrees.KeysOnce(cat, sel, None);
    ResultsCover(cat, PlanChecks(cat, sel, None).value.tasks, contributor.report.tasks);
  }

  /**
   * Aggregate soundness. An accepted aggregate's recorded results, read by their own names and commands, run every
   * expected unit of coverage exactly once, provided the plan expects none twice: with a repeat among the expected they
   * cannot.
   */
  lemma AggregateRuns(cat: Catalogue, ctx: AggregateContext, contributors: seq<Contributor>)
    requires WellNamed(cat) && MayCombine(cat, ctx, contributors)
    ensures multiset(FlatMap(RecordedUnits(cat), AllResults(contributors))) ==
            multiset(Expected(cat, RequiredSuites(cat, ctx)).value)
            <==> NoRepeat(Expected(cat, RequiredSuites(cat, ctx)).value)
  {
    AllResultsCover(cat, contributors, ctx);
    SameSetExact(Observed(cat, contributors), Expected(cat, RequiredSuites(cat, ctx)).value);
  }

  /** Its counts are those of its results: so many passed at once, so many on the second attempt, and none otherwise. */
  lemma {:induction false} AggregateCounts(cat: Catalogue, ctx: AggregateContext, contributors: seq<Contributor>)
    requires forall i :: 0 <= i < |contributors| ==> ContributorOk(cat, contributors[i], ctx)
    ensures var counts, results := SumCounts(contributors), AllResults(contributors);
      && counts == Counts(HowMany(Pass, results), HowMany(Flaky, results), 0, 0)
      && counts.pass + counts.flaky == |results|
  {
    if contributors != [] {
      var init, last := contributors[..|contributors| - 1], contributors[|contributors| - 1];
      AggregateCounts(cat, ctx, init);
      ContributorCounts(cat, last, ctx);
      FilterAppend((r: TaskResult) => r.status == Pass, AllResults(init), ResultsOf(last));
      FilterAppend((r: TaskResult) => r.status == Flaky, AllResults(init), ResultsOf(last));
    }
  }

  lemma ContributorCounts(cat: Catalogue, contributor: Contributor, ctx: AggregateContext)
    requires ContributorOk(cat, contributor, ctx)
    ensures var counts, results := contributor.report.counts, ResultsOf(contributor);
      && counts == Counts(HowMany(Pass, results), HowMany(Flaky, results), 0, 0)
      && counts.pass + counts.flaky == |results|
  {
    var results := contributor.report.tasks;
    var planned := PlanChecks(cat, contributor.report.selection, None).value.tasks;
    forall i | 0 <= i < |results|
      ensures results[i].status == Pass || results[i].status == Flaky
    {
      assert PlannedOk(planned, results[i]);
    }
    CountsAll(results);
    CountIs(Pass, results);
    CountIs(Flaky, results);
  }

  lemma {:induction false} CountsAll(results: seq<TaskResult>)
    requires forall i :: 0 <= i < |results| ==> results[i].status == Pass || results[i].status == Flaky
    ensures Count(Pass, results) + Count(Flaky, results) == |results|
  {
    if results != [] {
      CountsAll(results[..|results| - 1]);
    }
  }

  /**
   * The coverage recorded is what the contributors cover, in the order of the units, and what is expected if that has
   * no repeats.
   */
  lemma CoverageRecorded(cat: Catalogue, ctx: AggregateContext, aggregate: AggregateReport)
    requires CompleteEvidence(cat, Whole(aggregate), ctx) && Preorder(cat.unitOrder)
    ensures Sorted(cat.unitOrder, aggregate.coverage)
    ensures multiset(aggregate.coverage) == multiset(Observed(cat, aggregate.contributors))
    ensures NoRepeat(Expected(cat, RequiredSuites(cat, ctx)).value) ==>
      multiset(aggregate.coverage) == multiset(Expected(cat, RequiredSuites(cat, ctx)).value)
  {
    SortSorts(cat.unitOrder, Observed(cat, aggregate.contributors));
    SortPermutes(cat.unitOrder, Observed(cat, aggregate.contributors));
    SameSetExact(Observed(cat, aggregate.contributors), Expected(cat, RequiredSuites(cat, ctx)).value);
  }
}
