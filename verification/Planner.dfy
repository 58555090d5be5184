/**
 * The planner's loops (`shardOf` and `planChecks` in scripts/ci/check-plan.ts, `flutterTestFiles` and the unique-id
 * check in scripts/ci/suites.ts), with the loads and lists they update in place, proved against modules Shard and
 * CheckPlan.
 */
module Planner {
  import opened Wrappers
  import opened Sequences
  import opened Sorting
  import opened Shard
  import opened CheckPlan
  import opened PlanFacts

  function IdsIn(group: seq<Item>): set<string> {
    set i | 0 <= i < |group| :: group[i].id
  }

  /** `reduce` over the loads: the first that none is lighter than. */
  method LightestOf(loads: array<nat>, ghost groups: seq<seq<Item>>) returns (best: nat)
    requires loads.Length == |groups| > 0 && forall k :: 0 <= k < |groups| ==> loads[k] == Load(groups[k])
    ensures best == Lightest(groups, |groups|)
  {
    best := 0;
    var k := 1;
    while k < loads.Length
      invariant 1 <= k <= loads.Length && best == Lightest(groups, k)
    {
      if loads[k] < loads[best] { best := k; }
      k := k + 1;
    }
  }

  lemma PlaceOne(items: seq<Item>, m: nat, n: nat, groups: seq<seq<Item>>)
    requires n < |items| && m > 0 && groups == Greedy(items[..n], m)
    ensures |groups| == m && Greedy(items[..n + 1], m) == Place(groups, items[n])
  {
    assert items[..n + 1][..n] == items[..n];
  }

  lemma PlacedLoad(group: seq<Item>, x: Item)
    ensures Load(group + [x]) == Load(group) + x.weight
    ensures IdsIn(group + [x]) == IdsIn(group) + {x.id}
    ensures Map(PathOf, group + [x]) == Map(PathOf, group) + [x.id]
  {
    var more := group + [x];
    assert more[..|group|] == group;
    assert forall i :: 0 <= i < |group| ==> more[i] == group[i];
    assert more[|group|] == x;
  }

  /** One step of either loop on its loads: the lightest takes the next item. */
  method PutOnLightest(loads: array<nat>, x: Item, ghost groups: seq<seq<Item>>) returns (best: nat)
    requires loads.Length == |groups| > 0 && forall k :: 0 <= k < |groups| ==> loads[k] == Load(groups[k])
    modifies loads
    ensures best == Lightest(groups, |groups|)
    ensures forall k :: 0 <= k < |groups| ==> loads[k] == Load(Place(groups, x)[k])
  {
    best := LightestOf(loads, groups);
    PlacedLoad(groups[best], x);
    loads[best] := loads[best] + x.weight;
  }

  lemma PlaceIds(groups: seq<seq<Item>>, x: Item, best: nat)
    requires groups != [] && best == Lightest(groups, |groups|)
    ensures forall k :: 0 <= k < |groups| ==>
      IdsIn(Place(groups, x)[k]) == if k == best then IdsIn(groups[k]) + {x.id} else IdsIn(groups[k])
  {
    PlacedLoad(groups[best], x);
  }

  method PlaceAll(items: seq<Item>, m: nat) returns (members: array<set<string>>)
    requires m > 0
    ensures members.Length == m && forall k :: 0 <= k < m ==> members[k] == IdsIn(Greedy(items, m)[k])
  {
    var loads := new nat[m](_ => 0);
    members := new set<string>[m](_ => {});
    ghost var groups := Greedy(items[..0], m);
    var n := 0;
    while n < |items|
      invariant n <= |items| && |groups| == m && groups == Greedy(items[..n], m)
      invariant forall k :: 0 <= k < m ==> loads[k] == Load(groups[k])
      invariant forall k :: 0 <= k < m ==> members[k] == IdsIn(groups[k])
    {
      PlaceOne(items, m, n, groups);
      var best := PutOnLightest(loads, items[n], groups);
      PlaceIds(groups, items[n], best);
      members[best] := members[best] + {items[n].id};
      groups := Place(groups, items[n]);
      n := n + 1;
    }
    assert items[..n] == items;
  }

  /** The ids of the tasks of one shard: exactly those the specification puts there. */
  method ShardOf(cat: Catalogue, tasks: seq<Task>, part: ShardPart) returns (ids: set<string>)
    ensures forall id :: id in ids <==> InShard(cat, tasks, part, id)
  {
    var members := PlaceAll(Sort(HeaviestFirst(cat.idOrder), Map(Weighed(cat), tasks)), part.total);
    ids := members[part.index - 1];
  }

  // ---------------------------------------------------------------- the client's test files

  function PathOf(file: Item): string { file.id }

  /** What each of `count` shard tasks runs: the paths of its group, sorted. */
  function SplitFiles(cat: Catalogue, files: seq<Item>, count: nat): (split: seq<seq<string>>)
    requires count > 0
    ensures |split| == count
  {
    var groups := Groups(cat.idOrder, files, count);
    seq(count, k requires 0 <= k < count => Sort(cat.fileOrder, Map(PathOf, groups[k])))
  }

  lemma PlacePathsOf(groups: seq<seq<Item>>, x: Item, best: nat)
    requires groups != [] && best == Lightest(groups, |groups|)
    ensures forall k :: 0 <= k < |groups| ==>
      Map(PathOf, Place(groups, x)[k]) == if k == best then Map(PathOf, groups[k]) + [x.id] else Map(PathOf, groups[k])
  {
    PlacedLoad(groups[best], x);
  }

  method PlacePaths(items: seq<Item>, m: nat) returns (paths: array<seq<string>>)
    requires m > 0
    ensures fresh(paths) && paths.Length == m && forall k :: 0 <= k < m ==> paths[k] == Map(PathOf, Greedy(items, m)[k])
  {
    var sizes := new nat[m](_ => 0);
    paths := new seq<string>[m](_ => []);
    ghost var groups := Greedy(items[..0], m);
    var n := 0;
    while n < |items|
      invariant n <= |items| && |groups| == m && groups == Greedy(items[..n], m)
      invariant forall k :: 0 <= k < m ==> sizes[k] == Load(groups[k])
      invariant forall k :: 0 <= k < m ==> paths[k] == Map(PathOf, groups[k])
    {
      PlaceOne(items, m, n, groups);
      var best := PutOnLightest(sizes, items[n], groups);
      PlacePathsOf(groups, items[n], best);
      groups := Place(groups, items[n]);
      paths[best] := paths[best] + [items[n].id];
      n := n + 1;
    }
    assert items[..n] == items;
  }

  method FlutterTestFiles(cat: Catalogue, files: seq<Item>, count: nat) returns (split: array<seq<string>>)
    requires count > 0
    ensures split[..] == SplitFiles(cat, files, count)
  {
    split := PlacePaths(Sort(HeaviestFirst(cat.idOrder), files), count);
    ghost var paths := split[..];
    ghost var sorted := SplitFiles(cat, files, count);
    var n := 0;
    while n < count
      invariant n <= count
      invariant forall k :: 0 <= k < n ==> split[k] == sorted[k]
      invariant forall k :: n <= k < count ==> split[k] == paths[k]
    {
      split[n] := Sort(cat.fileOrder, split[n]);
      n := n + 1;
    }
  }

  function AllPaths(split: seq<seq<string>>): seq<string> {
    if split == [] then [] else AllPaths(split[..|split| - 1]) + split[|split| - 1]
  }

  lemma {:induction false} SplitHolds(cat: Catalogue, groups: seq<seq<Item>>, split: seq<seq<string>>, all: seq<Item>)
    requires |split| == |groups| && Members(groups) == multiset(all)
    requires forall k :: 0 <= k < |groups| ==> split[k] == Sort(cat.fileOrder, Map(PathOf, groups[k]))
    ensures multiset(AllPaths(split)) == multiset(Map(PathOf, all))
  {
    if groups == [] {
      assert |multiset(all)| == 0;
    } else {
      var last := groups[|groups| - 1];
      var flat := Flatten(groups[..|groups| - 1]);
      FlattenMembers(groups[..|groups| - 1]);
      SplitHolds(cat, groups[..|groups| - 1], split[..|split| - 1], flat);
      SortPermutes(cat.fileOrder, Map(PathOf, last));
      MapPermutes(PathOf, all, flat + last);
      assert Map(PathOf, flat + last) == Map(PathOf, flat) + Map(PathOf, last);
    }
  }

  function Flatten(groups: seq<seq<Item>>): seq<Item> {
    if groups == [] then [] else Flatten(groups[..|groups| - 1]) + groups[|groups| - 1]
  }

  lemma {:induction false} FlattenMembers(groups: seq<seq<Item>>)
    ensures multiset(Flatten(groups)) == Members(groups)
  {
    if groups != [] {
      FlattenMembers(groups[..|groups| - 1]);
    }
  }

  /** Every test file found is given to one shard task, and to one only. */
  lemma SplitFilesOnce(cat: Catalogue, files: seq<Item>, count: nat)
    requires count > 0
    ensures multiset(AllPaths(SplitFiles(cat, files, count))) == multiset(Map(PathOf, files))
  {
    GroupsConserve(cat.idOrder, files, count);
    SplitHolds(cat, Groups(cat.idOrder, files, count), SplitFiles(cat, files, count), files);
  }

  lemma {:induction false} FilesAre(tasks: seq<Task>, split: seq<seq<string>>)
    requires |tasks| == |split| && forall k :: 0 <= k < |tasks| ==> FilesOf(tasks[k]) == split[k]
    ensures FlatMap(FilesOf, tasks) == AllPaths(split)
  {
    if tasks != [] {
      FilesAre(tasks[..|tasks| - 1], split[..|split| - 1]);
    }
  }

  /**
   * A client suite whose shard tasks run the files split this way recovers in its combined task exactly the files
   * found, so the combined layout is refused only when no file was found or one was found twice.
   */
  lemma CombinedFindsAll(cat: Catalogue, suite: Suite, files: seq<Item>, count: nat)
    requires count > 0 && |ShardTasks(cat, suite)| == count
    requires forall k :: 0 <= k < count ==> FilesOf(ShardTasks(cat, suite)[k]) == SplitFiles(cat, files, count)[k]
    ensures multiset(Files(cat, suite)) == multiset(Map(PathOf, files))
    ensures Files(cat, suite) != [] && NoRepeat(Files(cat, suite)) <==> files != [] && NoRepeat(Map(PathOf, files))
  {
    SplitFilesOnce(cat, files, count);
    FilesAre(ShardTasks(cat, suite), SplitFiles(cat, files, count));
    SortPermutes(cat.fileOrder, FlatMap(FilesOf, ShardTasks(cat, suite)));
    DistinctCounts(Files(cat, suite));
    DistinctCounts(Map(PathOf, files));
    assert |Files(cat, suite)| == |multiset(Files(cat, suite))| == |multiset(Map(PathOf, files))| == |files|;
  }

  // ---------------------------------------------------------------- names used once

  /** The check over a suite's prepare steps and tasks, one set of the ids seen. */
  method IdsUnique(suite: Suite) returns (unique: bool)
    ensures unique <==> UniqueIds(suite.prepare + suite.tasks)
  {
    var all := suite.prepare + suite.tasks;
    var seen: set<string> := {};
    var i := 0;
    while i < |all|
      invariant i <= |all|
      invariant forall id :: id in seen <==> exists j :: 0 <= j < i && all[j].id == id
      invariant forall j, k :: 0 <= j < k < i ==> all[j].id != all[k].id
    {
      if all[i].id in seen {
        var j :| 0 <= j < i && all[j].id == all[i].id;
        assert Map(IdOf, all)[j] == Map(IdOf, all)[i];
        return false;
      }
      seen := seen + {all[i].id};
      i := i + 1;
    }
    return true;
  }

  // ---------------------------------------------------------------- the plan

  /** The iterations of one suite's tasks, pushed one by one. */
  method PushTasks(suite: string, selected: seq<Task>, times: nat, before: seq<Planned>) returns (tasks: seq<Planned>)
    ensures tasks == before + Repeated(suite, selected, times)
  {
    tasks := before;
    var iteration := 1;
    while iteration <= times
      invariant 1 <= iteration <= times + 1
      invariant tasks == before + Repeated(suite, selected, iteration - 1)
    {
      var i := 0;
      ghost var pushed := tasks;
      while i < |selected|
        invariant i <= |selected|
        invariant tasks == pushed + Map(InSuite(suite, iteration), selected[..i])
      {
        assert Map(InSuite(suite, iteration), selected[..i + 1]) ==
               Map(InSuite(suite, iteration), selected[..i]) + [Planned(suite, selected[i], iteration)];
        tasks := tasks + [Planned(suite, selected[i], iteration)];
        i := i + 1;
      }
      assert selected[..i] == selected;
      iteration := iteration + 1;
    }
  }

  /** The tasks one suite contributes, as a sharded selection filters them. */
  method SelectTasks(cat: Catalogue, suite: Suite, sel: Selection) returns (selected: Option<seq<Task>>)
    ensures selected == Selected(cat, suite, sel)
  {
    selected := Named(cat, suite, sel);
    if selected.Some? && sel.shard.Some? {
      var named := selected.value;
      var mine := ShardOf(cat, named, sel.shard.value);
      FilterCongruent((task: Task) => task.id in mine,
                      (task: Task) => InShard(cat, named, sel.shard.value, task.id), named);
      selected := Some(Filter((task: Task) => task.id in mine, named));
    }
  }

  method PushSuite(cat: Catalogue, suite: Suite, sel: Selection, selected: seq<Task>, before: Plan) returns (plan: Plan)
    ensures var share := Share(cat, suite, sel, selected);
      plan == Plan(before.prepare + share.prepare, before.tasks + share.tasks)
  {
    plan := before;
    if selected != [] {
      var tasks := PushTasks(suite.id, selected, sel.repeat, before.tasks);
      plan := Plan(before.prepare + Map(InSuite(suite.id, 1), suite.prepare), tasks);
    }
  }

  /** `planChecks`, with its loop over the suites and its errors. */
  method PlanAll(cat: Catalogue, sel: Selection, host: Option<string>) returns (planned: Result<Plan, PlanError>)
    ensures planned == PlanChecks(cat, sel, host)
  {
    if !NoRepeat(sel.suites) { return Refused(DuplicateSuites); }
    if sel.shard.Some? && sel.layout == Some(Combined) { return Refused(CombinedShard); }
    var plan := Plan([], []);
    var n := 0;
    while n < |sel.suites|
      invariant n <= |sel.suites|
      invariant Shares(cat, sel, host, sel.suites[..n]) == Ok(plan)
    {
      SharesNext(cat, sel, host, n, plan);
      var suite := FindRunnable(cat, sel.suites[n], host);
      if suite.None? {
        SharesStop(cat, sel, host, n + 1);
        return Refused(SuiteDoesNotRun);
      }
      var selected := SelectTasks(cat, suite.value, sel);
      if selected.None? {
        SharesStop(cat, sel, host, n + 1);
        return Refused(BadFilePartition);
      }
      plan := PushSuite(cat, suite.value, sel, selected.value, plan);
      n := n + 1;
    }
    assert sel.suites[..n] == sel.suites;
    return Ok(plan.(tasks := Sort(LongestFirst(cat), plan.tasks)));
  }

  lemma SharesNext(cat: Catalogue, sel: Selection, host: Option<string>, n: nat, plan: Plan)
    requires n < |sel.suites| && Shares(cat, sel, host, sel.suites[..n]) == Ok(plan)
    ensures var suite := FindRunnable(cat, sel.suites[n], host);
      Shares(cat, sel, host, sel.suites[..n + 1]) ==
        if suite.None? then Refused(SuiteDoesNotRun)
        else if Selected(cat, suite.value, sel).None? then Refused(BadFilePartition)
        else
          var share := Share(cat, suite.value, sel, Selected(cat, suite.value, sel).value);
          Ok(Plan(plan.prepare + share.prepare, plan.tasks + share.tasks))
  {
    assert sel.suites[..n + 1][..n] == sel.suites[..n];
  }

  /** The first error stands. */
  lemma {:induction false} SharesStop(cat: Catalogue, sel: Selection, host: Option<string>, n: nat)
    requires n <= |sel.suites| && Shares(cat, sel, host, sel.suites[..n]).Refused?
    ensures Shares(cat, sel, host, sel.suites) == Shares(cat, sel, host, sel.suites[..n])
    decreases |sel.suites| - n
  {
    if n == |sel.suites| {
      assert sel.suites[..n] == sel.suites;
    } else {
      assert sel.suites[..n + 1][..n] == sel.suites[..n];
      SharesStop(cat, sel, host, n + 1);
    }
  }
}
