/** The validator of check reports (`sameSet` and `validateCheck` in scripts/ci/check-evidence.ts). */
module CheckEvidence {
  import opened Wrappers
  import opened Sequences
  import opened CheckPlan
  import opened PlanFacts
  import opened CheckRun

  const MAX_SHARDS := 32

  /** What a validator is told to expect. */
  datatype Context = Context(
    commit: string,
    dirty: bool,
    requiredSuites: Option<seq<string>>,
    complete: bool,
    bun: Option<string>,
    platform: Option<string>)

  predicate SameSet<T(==)>(actual: seq<T>, expected: seq<T>) {
    NoRepeat(actual) && |actual| == |expected| && forall i :: 0 <= i < |expected| ==> expected[i] in actual
  }

  predicate HexDigit(c: char) { '0' <= c <= '9' || 'a' <= c <= 'f' }

  predicate Hex40(commit: string) {
    |commit| == 40 && forall i :: 0 <= i < |commit| ==> HexDigit(commit[i])
  }

  predicate SupportedHost(platform: string) {
    platform == "linux" || platform == "darwin" || platform == "win32"
  }

  predicate IdentityOk(report: Report, ctx: Context) {
    && report.header.schemaVersion == SCHEMA_VERSION && report.header.ours
    && report.header.commit == ctx.commit && Hex40(ctx.commit)
    && report.header.dirty == ctx.dirty && report.passed
    && SupportedHost(report.header.host.platform)
    && (ctx.platform.Some? ==> report.header.host.platform == ctx.platform.value)
    && (ctx.bun.Some? ==> report.header.host.bun == ctx.bun.value)
  }

  predicate SelectionOk(cat: Catalogue, sel: Selection) {
    && sel.suites != [] && (forall i :: 0 <= i < |sel.suites| ==> Find(cat.suites, sel.suites[i]).Some?)
    && sel.only.None? && sel.repeat == 1 && sel.layout.Some?
    && (sel.shard.Some? ==> sel.shard.value.total <= MAX_SHARDS)
  }

  predicate CompletenessOk(cat: Catalogue, report: Report, ctx: Context) {
    if ctx.complete then
      && report.complete && report.selection.shard.None?
      && SameSet(report.selection.suites,
                 if ctx.requiredSuites.Some? then ctx.requiredSuites.value
                 else HostSuites(cat, report.header.host.platform))
    else !report.complete
  }

  predicate WellFormed(attempt: Attempt) { attempt.durationMs >= 0 }

  predicate Clean(attempt: Attempt) {
    && attempt.exitCode == 0 && !attempt.timedOut && !attempt.strays
    && (attempt.leaked.None? || attempt.leaked.value == [])
  }

  predicate Failing(attempt: Attempt) {
    attempt.exitCode != 0 || attempt.timedOut || attempt.strays || (attempt.leaked.Some? && attempt.leaked.value != [])
  }

  predicate ResultOk(expected: Planned, result: TaskResult) {
    && result.iteration == 1 && result.command == expected.task.run
    && (result.status == Pass || result.status == Flaky)
    && |result.attempts| == (if result.status == Pass then 1 else 2)
    && (forall i :: 0 <= i < |result.attempts| ==> WellFormed(result.attempts[i]))
    && Clean(result.attempts[|result.attempts| - 1])
    && (result.status == Flaky ==> Failing(result.attempts[0]))
  }

  function FindPlanned(planned: seq<Planned>, key: Key): (found: Option<Planned>)
    ensures found.Some? ==> TaskKey(found.value) == key && found.value in planned
    ensures found.None? ==> forall i :: 0 <= i < |planned| ==> TaskKey(planned[i]) != key
  {
    if planned == [] then None
    else if TaskKey(planned[0]) == key then Some(planned[0])
    else FindPlanned(planned[1..], key)
  }

  function KeyOf(result: TaskResult): Key { result.key }

  predicate PlannedOk(planned: seq<Planned>, result: TaskResult) {
    var expected := FindPlanned(planned, result.key);
    expected.Some? && ResultOk(expected.value, result)
  }

  predicate TasksOk(planned: seq<Planned>, results: seq<TaskResult>) {
    && SameSet(Map(KeyOf, results), Map(TaskKey, planned))
    && forall i :: 0 <= i < |results| ==> PlannedOk(planned, results[i])
  }

  /** What the validator counts. */
  function Recount(results: seq<TaskResult>): Counts { Counts(Count(Pass, results), Count(Flaky, results), 0, 0) }

  predicate Accepts(cat: Catalogue, report: Report, ctx: Context) {
    && IdentityOk(report, ctx) && SelectionOk(cat, report.selection) && CompletenessOk(cat, report, ctx)
    && PlanChecks(cat, report.selection, None).Ok?
    && TasksOk(PlanChecks(cat, report.selection, None).value.tasks, report.tasks)
    && report.counts == Recount(report.tasks)
  }

  datatype Validated = Validated(selection: Selection, counts: Counts)

  /** The loop over the results: check each and count it. */
  method CheckResults(planned: seq<Planned>, results: seq<TaskResult>) returns (counts: Option<Counts>)
    ensures counts ==
            if forall i :: 0 <= i < |results| ==> PlannedOk(planned, results[i]) then Some(Recount(results)) else None
  {
    var pass, flaky := 0, 0;
    var i := 0;
    while i < |results|
      invariant i <= |results|
      invariant forall j :: 0 <= j < i ==> PlannedOk(planned, results[j])
      invariant pass == Count(Pass, results[..i]) && flaky == Count(Flaky, results[..i])
    {
      if !PlannedOk(planned, results[i]) { return None; }
      assert results[..i + 1][..i] == results[..i];
      if results[i].status == Pass { pass := pass + 1; } else { flaky := flaky + 1; }
      i := i + 1;
    }
    assert results[..i] == results;
    return Some(Counts(pass, flaky, 0, 0));
  }

  /** `validateCheck`: what it returns, and `None` where it throws. */
  method ValidateCheck(cat: Catalogue, report: Report, ctx: Context) returns (validated: Option<Validated>)
    ensures validated == if Accepts(cat, report, ctx) then Some(Validated(report.selection, report.counts)) else None
  {
    if !IdentityOk(report, ctx) || !SelectionOk(cat, report.selection) { return None; }
    if !CompletenessOk(cat, report, ctx) { return None; }
    var plan := PlanChecks(cat, report.selection, None);
    if plan.Refused? { return None; }
    if !SameSet(Map(KeyOf, report.tasks), Map(TaskKey, plan.value.tasks)) { return None; }
    var counts := CheckResults(plan.value.tasks, report.tasks);
    if counts.None? || counts.value != report.counts { return None; }
    return Some(Validated(report.selection, counts.value));
  }

  // ---------------------------------------------------------------- same set

  lemma {:induction false} WithinAndAsLong<T(!new)>(a: seq<T>, b: seq<T>)
    requires NoRepeat(b) && |a| == |b| && forall i :: 0 <= i < |b| ==> b[i] in a
    ensures multiset(a) == multiset(b)
    decreases |b|
  {
    if b == [] {
    } else {
      var init, last := b[..|b| - 1], b[|b| - 1];
      Snoc(b);
      var before, after := Around(a, last);
      Middle(before, [last], after);
      assert last !in init;
      forall i | 0 <= i < |init|
        ensures init[i] in before + after
      {
        assert init[i] == b[i] && b[i] in a;
      }
      WithinAndAsLong(before + after, init);
    }
  }

  /**
   * Accepted lists are a permutation of what was expected exactly when nothing was expected twice: with a repeat among
   * the expected, one of them can stand in for another.
   */
  lemma SameSetExact<T(!new)>(actual: seq<T>, expected: seq<T>)
    requires SameSet(actual, expected)
    ensures multiset(actual) == multiset(expected) <==> NoRepeat(expected)
  {
    if NoRepeat(expected) {
      WithinAndAsLong(actual, expected);
    } else if multiset(actual) == multiset(expected) {
      DistinctPermutes(actual, expected);
    }
  }

  /** Against expectations without repeats, exactly the permutations are accepted. */
  lemma SameSetPermutation<T(!new)>(actual: seq<T>, expected: seq<T>)
    requires NoRepeat(expected)
    ensures SameSet(actual, expected) <==> multiset(actual) == multiset(expected)
  {
    if SameSet(actual, expected) {
      WithinAndAsLong(actual, expected);
    } else if multiset(actual) == multiset(expected) {
      DistinctPermutes(expected, actual);
      assert |multiset(actual)| == |actual| && |multiset(expected)| == |expected|;
      forall i | 0 <= i < |expected|
        ensures expected[i] in actual
      {
        assert expected[i] in multiset(actual);
      }
    }
  }

  /** With a repeat among the expected, a list that lacks nothing but holds a stranger is accepted. */
  lemma SameSetFooled<T(!new)>(x: T, y: T)
    requires x != y
    ensures SameSet([x, y], [x, x]) && multiset([x, y]) != multiset([x, x])
  {
    assert multiset([x, y])[y] == 1 && multiset([x, x])[y] == 0;
  }

  /** The order of what is checked does not matter. */
  lemma SameSetOrder<T(!new)>(a: seq<T>, b: seq<T>, expected: seq<T>)
    requires multiset(a) == multiset(b) && SameSet(a, expected)
    ensures SameSet(b, expected)
  {
    DistinctPermutes(a, b);
    assert |multiset(a)| == |a| && |multiset(b)| == |b|;
    forall i | 0 <= i < |expected|
      ensures expected[i] in b
    {
      assert expected[i] in multiset(a);
    }
  }
}
