/** The combined and the sharded layout of the client's Flutter tests prove the same coverage. */
module PlanCoverage {
  import opened Wrappers
  import opened Sequences
  import opened Sorting
  import opened CheckPlan
  import opened PlanFacts

  function Coverage(cat: Catalogue, tasks: seq<Planned>): seq<Unit> {
    FlatMap(CoverageUnits(cat), tasks)
  }

  function UnitsIn(cat: Catalogue, suite: string): Task -> seq<Unit> {
    (task: Task) => UnitsOf(cat, suite, task)
  }

  lemma {:induction false} MappedCovers(cat: Catalogue, suite: string, iteration: nat, tasks: seq<Task>)
    ensures Coverage(cat, Map(InSuite(suite, iteration), tasks)) == FlatMap(UnitsIn(cat, suite), tasks)
  {
    var mapped := Map(InSuite(suite, iteration), tasks);
    if tasks != [] {
      assert mapped[..|mapped| - 1] == Map(InSuite(suite, iteration), tasks[..|tasks| - 1]);
      MappedCovers(cat, suite, iteration, tasks[..|tasks| - 1]);
    }
  }

  lemma RepeatedMore(cat: Catalogue, suite: string, tasks: seq<Task>, times: nat)
    requires times > 0
    ensures Coverage(cat, Repeated(suite, tasks, times)) ==
            Coverage(cat, Repeated(suite, tasks, times - 1)) + FlatMap(UnitsIn(cat, suite), tasks)
  {
    FlatMapAppend(CoverageUnits(cat), Repeated(suite, tasks, times - 1), Map(InSuite(suite, times), tasks));
    MappedCovers(cat, suite, times, tasks);
  }

  lemma {:induction false} RepeatedCovers(cat: Catalogue, suite: string, a: seq<Task>, b: seq<Task>, times: nat)
    requires multiset(FlatMap(UnitsIn(cat, suite), a)) == multiset(FlatMap(UnitsIn(cat, suite), b))
    ensures multiset(Coverage(cat, Repeated(suite, a, times))) == multiset(Coverage(cat, Repeated(suite, b, times)))
  {
    if times != 0 {
      RepeatedCovers(cat, suite, a, b, times - 1);
      RepeatedMore(cat, suite, a, times);
      RepeatedMore(cat, suite, b, times);
      BothMore(Coverage(cat, Repeated(suite, a, times - 1)), FlatMap(UnitsIn(cat, suite), a),
               Coverage(cat, Repeated(suite, b, times - 1)), FlatMap(UnitsIn(cat, suite), b));
    }
  }

  lemma BothMore(a: seq<Unit>, moreA: seq<Unit>, b: seq<Unit>, moreB: seq<Unit>)
    requires multiset(a) == multiset(b) && multiset(moreA) == multiset(moreB)
    ensures multiset(a + moreA) == multiset(b + moreB)
  {
  }

  ghost predicate SameUnits(cat: Catalogue, a: Selection, b: Selection, id: string) {
    multiset(FlatMap(UnitsIn(cat, id), SelectedOf(cat, a, id))) ==
    multiset(FlatMap(UnitsIn(cat, id), SelectedOf(cat, b, id)))
  }

  lemma {:induction false} SharedCovers(cat: Catalogue, a: Selection, b: Selection, suites: seq<string>)
    requires a.repeat == b.repeat && forall i :: 0 <= i < |suites| ==> SameUnits(cat, a, b, suites[i])
    ensures multiset(Coverage(cat, SharedTasks(cat, a, suites))) == multiset(Coverage(cat, SharedTasks(cat, b, suites)))
  {
    if suites != [] {
      var init, id := suites[..|suites| - 1], suites[|suites| - 1];
      SharedCovers(cat, a, b, init);
      assert SameUnits(cat, a, b, id);
      RepeatedCovers(cat, id, SelectedOf(cat, a, id), SelectedOf(cat, b, id), a.repeat);
      FlatMapAppend(CoverageUnits(cat), SharedTasks(cat, a, init), Repeated(id, SelectedOf(cat, a, id), a.repeat));
      FlatMapAppend(CoverageUnits(cat), SharedTasks(cat, b, init), Repeated(id, SelectedOf(cat, b, id), b.repeat));
    }
  }

  /** A shard task covers its files. */
  lemma {:induction false} ShardUnits(cat: Catalogue, shards: seq<Task>)
    requires forall i :: 0 <= i < |shards| ==> IsShardTask(cat, shards[i])
    ensures FlatMap(UnitsIn(cat, cat.client), shards) == FileUnits(FlatMap(FilesOf, shards))
  {
    if shards != [] {
      var init, last := shards[..|shards| - 1], shards[|shards| - 1];
      ShardUnits(cat, init);
      assert UnitsOf(cat, cat.client, last) == FileUnits(FilesOf(last));
      UnitsAppend(FlatMap(FilesOf, init), FilesOf(last));
    }
  }

  lemma UnitsAppend(a: seq<string>, b: seq<string>)
    ensures FileUnits(a + b) == FileUnits(a) + FileUnits(b)
  {
  }

  lemma UnitsPermute(a: seq<string>, b: seq<string>)
    requires multiset(a) == multiset(b)
    ensures multiset(FileUnits(a)) == multiset(FileUnits(b))
  {
    var unit := (path: string) => ClientFile(path);
    MapPermutes(unit, a, b);
    assert Map(unit, a) == FileUnits(a) && Map(unit, b) == FileUnits(b);
  }

  lemma CombinedUnits(cat: Catalogue, suite: Suite)
    ensures UnitsIn(cat, cat.client)(CombinedTask(cat, suite)) == FileUnits(Files(cat, suite))
  {
    assert FilesOf(CombinedTask(cat, suite)) == Files(cat, suite);
  }

  /** Replacing the shard tasks by the combined one leaves what the suite covers as it was. */
  lemma CombinedCovers(cat: Catalogue, suite: Suite)
    ensures multiset(FlatMap(UnitsIn(cat, cat.client), OtherTasks(cat, suite) + [CombinedTask(cat, suite)])) ==
            multiset(FlatMap(UnitsIn(cat, cat.client), suite.tasks))
  {
    var units, shards := UnitsIn(cat, cat.client), ShardTasks(cat, suite);
    var isShard := (task: Task) => IsShardTask(cat, task);
    FlatMapSplit(units, isShard, suite.tasks);
    forall i | 0 <= i < |shards|
      ensures IsShardTask(cat, shards[i])
    {
      FilterMember(isShard, suite.tasks, shards[i]);
    }
    ShardUnits(cat, shards);
    CombinedUnits(cat, suite);
    var files := FlatMap(FilesOf, shards);
    SortPermutes(cat.fileOrder, files);
    UnitsPermute(Files(cat, suite), files);
    FlatMapLast(units, OtherTasks(cat, suite), CombinedTask(cat, suite));
  }

  /** With no filter and no shard, a suite's selected tasks are all the layout gives it. */
  lemma SelectedWhole(cat: Catalogue, sel: Selection, id: string)
    requires sel.only.None? && sel.shard.None? && Find(cat.suites, id).Some?
    ensures var tasks := TasksFor(cat, Find(cat.suites, id).value, sel);
      SelectedOf(cat, sel, id) == if tasks.Some? then tasks.value else []
  {
    var tasks := TasksFor(cat, Find(cat.suites, id).value, sel);
    if tasks.Some? {
      FilterAll((task: Task) => Wanted(sel.only, task), tasks.value);
    }
  }

  function WithLayout(sel: Selection, layout: Option<Layout>): Selection { sel.(layout := layout) }

  lemma LayoutUnits(cat: Catalogue, sel: Selection, host: Option<string>, suites: seq<string>, i: nat)
    requires sel.only.None? && sel.shard.None? && sel.layout != Some(Combined) && i < |suites|
    requires Shares(cat, WithLayout(sel, Some(Combined)), host, suites).Ok?
    ensures SameUnits(cat, WithLayout(sel, Some(Combined)), sel, suites[i])
  {
    var combined, id := WithLayout(sel, Some(Combined)), suites[i];
    SuitesFound(cat, combined, host, suites, i);
    SelectedWhole(cat, combined, id);
    SelectedWhole(cat, sel, id);
    if id == cat.client {
      CombinedCovers(cat, Find(cat.suites, id).value);
    }
  }

  lemma {:induction false} SuitesFound(cat: Catalogue, sel: Selection, host: Option<string>,
          suites: seq<string>, i: nat)
    requires Shares(cat, sel, host, suites).Ok? && i < |suites|
    ensures var suite := FindRunnable(cat, suites[i], host); suite.Some? && Selected(cat, suite.value, sel).Some?
  {
    if i < |suites| - 1 {
      SuitesFound(cat, sel, host, suites[..|suites| - 1], i);
    }
  }

  /**
   * A whole selection covers the same files and tasks, each as often, whether the Flutter files run combined or
   * sharded.
   */
  lemma LayoutsCoverSame(cat: Catalogue, sel: Selection, host: Option<string>)
    requires sel.only.None? && sel.shard.None? && sel.layout != Some(Combined)
    requires PlanChecks(cat, sel, host).Ok? && PlanChecks(cat, WithLayout(sel, Some(Combined)), host).Ok?
    ensures multiset(Coverage(cat, PlanChecks(cat, WithLayout(sel, Some(Combined)), host).value.tasks)) ==
            multiset(Coverage(cat, PlanChecks(cat, sel, host).value.tasks))
  {
    var combined := WithLayout(sel, Some(Combined));
    forall i | 0 <= i < |sel.suites|
      ensures SameUnits(cat, combined, sel, sel.suites[i])
    {
      LayoutUnits(cat, sel, host, sel.suites, i);
    }
    SharedCovers(cat, combined, sel, sel.suites);
    PlanCovers(cat, combined, host);
    PlanCovers(cat, sel, host);
  }

  /** Sorting the plan does not change what it covers. */
  lemma PlanCovers(cat: Catalogue, sel: Selection, host: Option<string>)
    requires PlanChecks(cat, sel, host).Ok?
    ensures multiset(Coverage(cat, PlanChecks(cat, sel, host).value.tasks)) ==
            multiset(Coverage(cat, SharedTasks(cat, sel, sel.suites)))
  {
    PlanSorted(cat, sel, host);
    FlatMapPermutes(CoverageUnits(cat), PlanChecks(cat, sel, host).value.tasks, SharedTasks(cat, sel, sel.suites));
  }

  /** The files of the client's shard tasks are some, and none twice. */
  predicate GoodFiles(cat: Catalogue) {
    var client := Find(cat.suites, cat.client);
    client.Some? ==> Files(cat, client.value) != [] && NoRepeat(Files(cat, client.value))
  }

  lemma {:induction false} CombinedShares(cat: Catalogue, sel: Selection, host: Option<string>, suites: seq<string>)
    requires sel.shard.None? && sel.layout != Some(Combined)
    ensures Shares(cat, WithLayout(sel, Some(Combined)), host, suites).Ok? <==>
            Shares(cat, sel, host, suites).Ok? && (cat.client in suites ==> GoodFiles(cat))
  {
    if suites != [] {
      var init, id := suites[..|suites| - 1], suites[|suites| - 1];
      CombinedShares(cat, sel, host, init);
      assert cat.client in suites <==> cat.client in init || cat.client == id;
    }
  }

  /** The combined layout can be planned exactly when the sharded one can and the client's files are good. */
  lemma CombinedPlans(cat: Catalogue, sel: Selection, host: Option<string>)
    requires sel.shard.None? && sel.layout != Some(Combined)
    ensures PlanChecks(cat, WithLayout(sel, Some(Combined)), host).Ok? <==>
            PlanChecks(cat, sel, host).Ok? && (cat.client in sel.suites ==> GoodFiles(cat))
  {
    CombinedShares(cat, sel, host, sel.suites);
  }

  // ---------------------------------------------------------------- the bound of the combined task

  function Sum(amounts: seq<nat>): nat {
    if amounts == [] then 0 else Sum(amounts[..|amounts| - 1]) + amounts[|amounts| - 1]
  }

  lemma {:induction false} SumWithin(tasks: seq<Task>, took: seq<nat>)
    requires |took| == |tasks| && forall i :: 0 <= i < |tasks| ==> took[i] <= Timeout(tasks[i])
    ensures Sum(took) <= Total(Timeout, tasks)
  {
    if tasks != [] {
      SumWithin(tasks[..|tasks| - 1], took[..|took| - 1]);
    }
  }

  /**
   * The combined task keeps the total bound of all the invocations it owns: run one after the other in any order, each
   * within its own bound, they end within the bound of the combined task, and there is nothing to spare in it.
   */
  lemma CombinedKeepsBound(cat: Catalogue, suite: Suite, order: seq<Task>, took: seq<nat>)
    requires multiset(order) == multiset(ShardTasks(cat, suite)) && |took| == |order|
    requires forall i :: 0 <= i < |order| ==> took[i] <= Timeout(order[i])
    ensures Sum(took) <= Timeout(CombinedTask(cat, suite))
    ensures (forall i :: 0 <= i < |order| ==> took[i] == Timeout(order[i])) ==>
              Sum(took) == Timeout(CombinedTask(cat, suite))
  {
    TotalPermutes(Timeout, order, ShardTasks(cat, suite));
    SumWithin(order, took);
    if forall i :: 0 <= i < |order| ==> took[i] == Timeout(order[i]) {
      SumReaches(order, took);
    }
  }

  lemma {:induction false} SumReaches(tasks: seq<Task>, took: seq<nat>)
    requires |took| == |tasks| && forall i :: 0 <= i < |tasks| ==> took[i] == Timeout(tasks[i])
    ensures Sum(took) == Total(Timeout, tasks)
  {
    if tasks != [] {
      SumReaches(tasks[..|tasks| - 1], took[..|took| - 1]);
    }
  }
}
