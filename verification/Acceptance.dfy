/**
 * What the validator's acceptance says of a report, and an aggregate's of every contributor, in terms of their own
 * fields (scripts/ci/check-evidence.ts).
 */
module Acceptance {
  import opened Wrappers
  import opened Sequences
  import opened CheckPlan
  import opened PlanFacts
  import opened CheckRun
  import opened RunOutcomes
  import opened RunRecords
  import opened CheckEvidence
  import opened EvidenceAgrees

  // ---------------------------------------------------------------- one report

  /** Forty lower-case hexadecimal digits. */
  predicate FullHash(commit: string) {
    |commit| == 40 && forall i :: 0 <= i < 40 ==> commit[i] in "0123456789abcdef"
  }

  /** A passing report of this commit and state, made on a supported host, and on the host expected if one is. */
  predicate OfThisSource(report: Report, ctx: Context) {
    var header := report.header;
    && report.passed && header.schemaVersion == 7 && header.ours
    && header.commit == ctx.commit && FullHash(header.commit) && header.dirty == ctx.dirty
    && (header.host.platform == "linux" || header.host.platform == "darwin" || header.host.platform == "win32")
    && (ctx.platform.Some? ==> ctx.platform.value == header.host.platform)
    && (ctx.bun.Some? ==> ctx.bun.value == header.host.bun)
  }

  predicate Known(cat: Catalogue, id: string) {
    exists k :: 0 <= k < |cat.suites| && cat.suites[k].id == id
  }

  /** Some known suites, unfiltered, once, in a stated layout, perhaps one shard of at most 32. */
  predicate AsksPlainly(cat: Catalogue, sel: Selection) {
    && sel.suites != [] && sel.only.None? && sel.repeat == 1 && sel.layout.Some?
    && (forall i :: 0 <= i < |sel.suites| ==> Known(cat, sel.suites[i]))
    && (sel.shard.Some? ==> sel.shard.value.total <= 32)
  }

  /** Asking for exactly the suites that run on a host, each once. */
  predicate AsksExactly(cat: Catalogue, sel: Selection, host: string) {
    && NoRepeat(sel.suites) && AsksAll(cat, sel, host)
    && forall i :: 0 <= i < |sel.suites| ==> cat.runsOn(sel.suites[i], host)
  }

  /** Whether everything required was asked for is as the report says and the context expects. */
  predicate AsksEnough(cat: Catalogue, report: Report, ctx: Context) {
    && (report.complete <==> ctx.complete)
    && (ctx.complete ==>
          && report.selection.shard.None?
          && match ctx.requiredSuites
             case Some(required) => SameSet(report.selection.suites, required)
             case None => AsksExactly(cat, report.selection, report.header.host.platform))
  }

  /** An attempt that ended with exit code 0, in time, leaving nothing running that was recorded. */
  predicate CleanAttempt(attempt: Attempt) {
    attempt.exitCode == 0 && !attempt.timedOut && !attempt.strays
    && (attempt.leaked.Some? ==> |attempt.leaked.value| == 0)
  }

  /** The result is of this task and its own command: one clean attempt, or one that went wrong and then a clean one. */
  predicate Answers(planned: Planned, r: TaskResult) {
    && r.key == Key(planned.suite, planned.task.id) && r.command == planned.task.run && r.iteration == 1
    && (forall i :: 0 <= i < |r.attempts| ==> r.attempts[i].durationMs >= 0)
    && (|| (r.status == Pass && |r.attempts| == 1 && CleanAttempt(r.attempts[0]))
        || (&& r.status == Flaky && |r.attempts| == 2
            && !CleanAttempt(r.attempts[0]) && CleanAttempt(r.attempts[1])))
  }

  ghost predicate Answered(planned: Planned, results: seq<TaskResult>) {
    exists i :: 0 <= i < |results| && Answers(planned, results[i])
  }

  ghost predicate AnswerTo(planned: seq<Planned>, r: TaskResult) {
    exists k :: 0 <= k < |planned| && Answers(planned[k], r)
  }

  /** Every planned task has a result, every result is of a planned task, and there are as many. */
  ghost predicate AllAnswered(planned: seq<Planned>, results: seq<TaskResult>) {
    && |results| == |planned|
    && (forall k :: 0 <= k < |planned| ==> Answered(planned[k], results))
    && (forall i :: 0 <= i < |results| ==> AnswerTo(planned, results[i]))
  }

  lemma OkAnswers(planned: Planned, r: TaskResult)
    ensures Answers(planned, r) <==> r.key == TaskKey(planned) && ResultOk(planned, r)
  {
    if |r.attempts| == 2 {
      CleanExactly(r.attempts[0]);
    }
  }

  lemma PlannedAnswers(planned: seq<Planned>, r: TaskResult)
    requires NoRepeat(Map(TaskKey, planned))
    ensures PlannedOk(planned, r) <==> AnswerTo(planned, r)
  {
    var found := FindPlanned(planned, r.key);
    if PlannedOk(planned, r) {
      var k :| 0 <= k < |planned| && planned[k] == found.value;
      OkAnswers(planned[k], r);
    }
    if k :| 0 <= k < |planned| && Answers(planned[k], r) {
      OkAnswers(planned[k], r);
      FindsIt(planned, k);
    }
  }

  lemma AnsweredKey(planned: seq<Planned>, results: seq<TaskResult>, k: nat)
    requires k < |planned| && Answered(planned[k], results)
    ensures TaskKey(planned[k]) in Map(KeyOf, results)
  {
    var i :| 0 <= i < |results| && Answers(planned[k], results[i]);
    assert Map(KeyOf, results)[i] == TaskKey(planned[k]);
  }

  lemma AnswersAreTasks(planned: seq<Planned>, results: seq<TaskResult>)
    requires NoRepeat(Map(TaskKey, planned)) && AllAnswered(planned, results)
    ensures SameSet(Map(KeyOf, results), Map(TaskKey, planned))
  {
    var keys, expected := Map(KeyOf, results), Map(TaskKey, planned);
    forall k | 0 <= k < |expected|
      ensures expected[k] in keys
    {
      AnsweredKey(planned, results, k);
    }
    WithinAndAsLong(keys, expected);
    SameSetPermutation(keys, expected);
  }

  lemma KeyAnswered(planned: seq<Planned>, results: seq<TaskResult>, k: nat)
    requires NoRepeat(Map(TaskKey, planned)) && k < |planned| && TaskKey(planned[k]) in Map(KeyOf, results)
    requires forall i :: 0 <= i < |results| ==> PlannedOk(planned, results[i])
    ensures Answered(planned[k], results)
  {
    var i :| 0 <= i < |results| && Map(KeyOf, results)[i] == TaskKey(planned[k]);
    assert PlannedOk(planned, results[i]);
    FindsIt(planned, k);
    OkAnswers(planned[k], results[i]);
  }

  lemma AllOk(planned: seq<Planned>, results: seq<TaskResult>)
    requires NoRepeat(Map(TaskKey, planned))
    ensures (forall i :: 0 <= i < |results| ==> PlannedOk(planned, results[i])) <==>
            (forall i :: 0 <= i < |results| ==> AnswerTo(planned, results[i]))
  {
    forall i | 0 <= i < |results|
      ensures PlannedOk(planned, results[i]) <==> AnswerTo(planned, results[i])
    {
      PlannedAnswers(planned, results[i]);
    }
  }

  /** The results accepted are exactly those that answer the plan, task by task. */
  lemma TasksAnswer(planned: seq<Planned>, results: seq<TaskResult>)
    requires NoRepeat(Map(TaskKey, planned))
    ensures TasksOk(planned, results) <==> AllAnswered(planned, results)
  {
    AllOk(planned, results);
    if TasksOk(planned, results) {
      forall k | 0 <= k < |planned|
        ensures Answered(planned[k], results)
      {
        assert Map(TaskKey, planned)[k] in Map(KeyOf, results);
        KeyAnswered(planned, results, k);
      }
    }
    if AllAnswered(planned, results) {
      AnswersAreTasks(planned, results);
    }
  }

  lemma HashIs(commit: string)
    ensures FullHash(commit) <==> Hex40(commit)
  {
    var digits := "0123456789abcdef";
    forall c: char
      ensures HexDigit(c) <==> c in digits
    {
      if HexDigit(c) {
        var at := if c <= '9' then c as int - '0' as int else c as int - 'a' as int + 10;
        assert digits[at] == c;
      }
    }
  }

  lemma KnownIs(cat: Catalogue, id: string)
    ensures Find(cat.suites, id).Some? <==> Known(cat, id)
  {
    if Find(cat.suites, id).Some? {
      assert Find(cat.suites, id).value in cat.suites;
    }
  }

  lemma IdentityMeans(report: Report, ctx: Context)
    ensures OfThisSource(report, ctx) <==> IdentityOk(report, ctx)
  {
    HashIs(report.header.commit);
  }

  lemma SelectionMeans(cat: Catalogue, sel: Selection)
    ensures AsksPlainly(cat, sel) <==> SelectionOk(cat, sel)
  {
    forall i | 0 <= i < |sel.suites|
      ensures Find(cat.suites, sel.suites[i]).Some? <==> Known(cat, sel.suites[i])
    {
      KnownIs(cat, sel.suites[i]);
    }
  }

  lemma HostMeans(cat: Catalogue, sel: Selection, host: string)
    requires WellNamed(cat) && AsksPlainly(cat, sel)
    ensures SameSet(sel.suites, HostSuites(cat, host)) <==> AsksExactly(cat, sel, host)
  {
    var all := HostSuites(cat, host);
    FilterDistinct((suite: Suite) => cat.runsOn(suite.id, host), SuiteId, cat.suites);
    SameSetPermutation(sel.suites, all);
    if SameSet(sel.suites, all) {
      AsksFor(cat, sel, host);
    }
    if AsksExactly(cat, sel, host) {
      forall x: string
        ensures x in sel.suites <==> x in all
      {
        SuiteAsked(cat, sel, host, x);
      }
      SameMembers(sel.suites, all);
    }
  }

  lemma SuiteAsked(cat: Catalogue, sel: Selection, host: string, id: string)
    requires AsksPlainly(cat, sel) && AsksExactly(cat, sel, host)
    ensures id in sel.suites <==> id in HostSuites(cat, host)
  {
    HostSuite(cat, host, id);
    KnownIs(cat, id);
    if id in sel.suites {
      var i :| 0 <= i < |sel.suites| && sel.suites[i] == id;
    }
  }

  lemma AsksFor(cat: Catalogue, sel: Selection, host: string)
    requires multiset(sel.suites) == multiset(HostSuites(cat, host)) && NoRepeat(sel.suites)
    ensures AsksExactly(cat, sel, host)
  {
    forall id: string
      ensures id in sel.suites <==> id in HostSuites(cat, host)
    {
      assert id in sel.suites <==> id in multiset(sel.suites);
      assert id in HostSuites(cat, host) <==> id in multiset(HostSuites(cat, host));
    }
    forall i | 0 <= i < |cat.suites| && cat.runsOn(cat.suites[i].id, host)
      ensures cat.suites[i].id in sel.suites
    {
      KnownIs(cat, cat.suites[i].id);
      HostSuite(cat, host, cat.suites[i].id);
    }
    forall i | 0 <= i < |sel.suites|
      ensures cat.runsOn(sel.suites[i], host)
    {
      HostSuite(cat, host, sel.suites[i]);
    }
  }

  lemma CompletenessMeans(cat: Catalogue, report: Report, ctx: Context)
    requires WellNamed(cat) && AsksPlainly(cat, report.selection)
    ensures AsksEnough(cat, report, ctx) <==> CompletenessOk(cat, report, ctx)
  {
    HostMeans(cat, report.selection, report.header.host.platform);
  }

  /** As many results passed at once, and as many on the second attempt, as counted; none failed or was blocked. */
  predicate CountsRight(report: Report) {
    report.counts == Counts(HowMany(Pass, report.tasks), HowMany(Flaky, report.tasks), 0, 0)
  }

  /**
   * The validator accepts a report exactly when it is a passing one of the commit, state and host expected, of plainly
   * selected suites, as complete as said, with one good result for each task its selection plans, rightly counted.
   */
  lemma AcceptsExactly(cat: Catalogue, report: Report, ctx: Context)
    requires WellNamed(cat)
    ensures Accepts(cat, report, ctx) <==>
      && OfThisSource(report, ctx) && AsksPlainly(cat, report.selection) && AsksEnough(cat, report, ctx)
      && PlanChecks(cat, report.selection, None).Ok?
      && AllAnswered(PlanChecks(cat, report.selection, None).value.tasks, report.tasks)
      && CountsRight(report)
  {
    IdentityMeans(report, ctx);
    SelectionMeans(cat, report.selection);
    CountIs(Pass, report.tasks);
    CountIs(Flaky, report.tasks);
    if AsksPlainly(cat, report.selection) {
      CompletenessMeans(cat, report, ctx);
      if PlanChecks(cat, report.selection, None).Ok? {
        KeysOnce(cat, report.selection, None);
        TasksAnswer(PlanChecks(cat, report.selection, None).value.tasks, report.tasks);
      }
    }
  }

  /** So a report is evidence of one commit and one state only. */
  lemma OneSource(cat: Catalogue, report: Report, a: Context, b: Context)
    requires Accepts(cat, report, a) && Accepts(cat, report, b)
    ensures a.commit == b.commit == report.header.commit && a.dirty == b.dirty == report.header.dirty
    ensures a.complete == b.complete == report.complete
  {
    IdentityMeans(report, a);
    IdentityMeans(report, b);
  }
}
