/** What every check plan holds: its exact contents, the split into shards, and what its layouts cover. */
module PlanFacts {
  import opened Wrappers
  import opened Sequences
  import opened Sorting
  import opened CheckPlan
  import Shard

  function IdOf(task: Task): string { task.id }

  predicate UniqueIds(tasks: seq<Task>) { NoRepeat(Map(IdOf, tasks)) }

  // ---------------------------------------------------------------- shards are a partition

  lemma {:induction false} Found(groups: seq<seq<Shard.Item>>, x: Shard.Item) returns (k: nat)
    requires Shard.Members(groups)[x] > 0
    ensures k < |groups| && x in groups[k]
  {
    k := |groups| - 1;
    if x !in groups[k] {
      assert x !in multiset(groups[k]);
      k := Found(groups[..k], x);
    }
  }

  lemma {:induction false} HoldsMember(groups: seq<seq<Shard.Item>>, k: nat, x: Shard.Item)
    requires k < |groups| && x in groups[k]
    ensures Shard.Members(groups)[x] > 0
  {
    if k < |groups| - 1 {
      HoldsMember(groups[..|groups| - 1], k, x);
    } else {
      assert x in multiset(groups[k]);
    }
  }

  lemma {:induction false} HeldTwice(groups: seq<seq<Shard.Item>>, j: nat, k: nat, x: Shard.Item)
    requires j < k < |groups| && x in groups[j] && x in groups[k]
    ensures Shard.Members(groups)[x] > 1
  {
    var init := groups[..|groups| - 1];
    if k < |groups| - 1 {
      HeldTwice(init, j, k, x);
    } else {
      HoldsMember(init, j, x);
      assert x in multiset(groups[k]);
    }
  }

  lemma SameTask(tasks: seq<Task>, a: Task, b: Task)
    requires UniqueIds(tasks) && a in tasks && b in tasks && a.id == b.id
    ensures a == b
  {
    var i :| 0 <= i < |tasks| && tasks[i] == a;
    var j :| 0 <= j < |tasks| && tasks[j] == b;
    assert Map(IdOf, tasks)[i] == Map(IdOf, tasks)[j];
  }

  /** An item in a group is some task's. */
  lemma GroupHolds(cat: Catalogue, tasks: seq<Task>, total: nat, k: nat, x: Shard.Item) returns (task: Task)
    requires k < total && x in TaskGroups(cat, tasks, total)[k]
    ensures task in tasks && Weighed(cat)(task) == x
  {
    var items := Map(Weighed(cat), tasks);
    Shard.GroupsConserve(cat.idOrder, items, total);
    HoldsMember(TaskGroups(cat, tasks, total), k, x);
    assert x in multiset(items);
    assert x in items;
    var i :| 0 <= i < |items| && items[i] == x;
    task := tasks[i];
  }

  lemma WeighedOnce(cat: Catalogue, tasks: seq<Task>, task: Task)
    requires UniqueIds(tasks) && task in tasks
    ensures multiset(Map(Weighed(cat), tasks))[Weighed(cat)(task)] == 1
  {
    var items := Map(Weighed(cat), tasks);
    forall i, j | 0 <= i < j < |items|
      ensures items[i] != items[j]
    {
      assert Map(IdOf, tasks)[i] != Map(IdOf, tasks)[j];
    }
    DistinctCounts(items);
    var i :| 0 <= i < |tasks| && tasks[i] == task;
    assert items[i] in multiset(items);
  }

  lemma OneGroupOnly(cat: Catalogue, tasks: seq<Task>, total: nat, task: Task, j: nat, k: nat)
    requires UniqueIds(tasks) && task in tasks && j < total && k < total
    requires var groups := TaskGroups(cat, tasks, total); InGroup(groups[j], task.id) && Weighed(cat)(task) in groups[k]
    ensures j == k
  {
    var groups, x := TaskGroups(cat, tasks, total), Weighed(cat)(task);
    var group: seq<Shard.Item> := groups[j];
    var i :| 0 <= i < |group| && group[i].id == task.id;
    var other := GroupHolds(cat, tasks, total, j, group[i]);
    SameTask(tasks, task, other);
    Shard.GroupsConserve(cat.idOrder, Map(Weighed(cat), tasks), total);
    WeighedOnce(cat, tasks, task);
    if j < k { HeldTwice(groups, j, k, x); }
    if k < j { HeldTwice(groups, k, j, x); }
  }

  lemma SomeGroup(cat: Catalogue, tasks: seq<Task>, total: nat, task: Task) returns (k: nat)
    requires UniqueIds(tasks) && task in tasks && total > 0
    ensures k < total
    ensures var group := TaskGroups(cat, tasks, total)[k]; Weighed(cat)(task) in group && InGroup(group, task.id)
  {
    var groups, x := TaskGroups(cat, tasks, total), Weighed(cat)(task);
    Shard.GroupsConserve(cat.idOrder, Map(Weighed(cat), tasks), total);
    WeighedOnce(cat, tasks, task);
    k := Found(groups, x);
    var at :| 0 <= at < |groups[k]| && groups[k][at] == x;
    assert groups[k][at].id == task.id;
  }

  /** With ids used once, each task of a suite is in exactly one shard, whatever the number of shards. */
  lemma OneShardEach(cat: Catalogue, tasks: seq<Task>, total: nat, task: Task) returns (index: nat)
    requires UniqueIds(tasks) && task in tasks && total > 0
    ensures 1 <= index <= total
    ensures forall part: ShardPart :: part.total == total ==>
      (InShard(cat, tasks, part, task.id) <==> part.index == index)
  {
    var k := SomeGroup(cat, tasks, total, task);
    index := k + 1;
    forall part: ShardPart | part.total == total
      ensures InShard(cat, tasks, part, task.id) <==> part.index == index
    {
      if InShard(cat, tasks, part, task.id) {
        OneGroupOnly(cat, tasks, total, task, part.index - 1, k);
      }
    }
  }

  /** The shards do not depend on the order the suite's tasks are discovered in. */
  lemma ShardsIgnoreOrder(cat: Catalogue, tasks: seq<Task>, other: seq<Task>, part: ShardPart, id: string)
    requires Shard.TotalOrder(cat.idOrder) && multiset(tasks) == multiset(other)
    ensures InShard(cat, tasks, part, id) == InShard(cat, other, part, id)
  {
    MapPermutes(Weighed(cat), tasks, other);
    Shard.GroupsIgnoreOrder(cat.idOrder, Map(Weighed(cat), tasks), Map(Weighed(cat), other), part.total);
  }

  // ---------------------------------------------------------------- the exact contents of a plan

  lemma {:induction false} InSuiteCounts(suite: string, iteration: nat, tasks: seq<Task>, p: Planned)
    ensures multiset(Map(InSuite(suite, iteration), tasks))[p] ==
            if p.suite == suite && p.iteration == iteration then multiset(tasks)[p.task] else 0
  {
    var mapped := Map(InSuite(suite, iteration), tasks);
    if tasks != [] {
      Snoc(tasks);
      Snoc(mapped);
      assert mapped[..|mapped| - 1] == Map(InSuite(suite, iteration), tasks[..|tasks| - 1]);
      InSuiteCounts(suite, iteration, tasks[..|tasks| - 1], p);
    }
  }

  lemma {:induction false} RepeatedCounts(suite: string, tasks: seq<Task>, times: nat, p: Planned)
    ensures multiset(Repeated(suite, tasks, times))[p] ==
            if p.suite == suite && 1 <= p.iteration <= times then multiset(tasks)[p.task] else 0
  {
    if times != 0 {
      RepeatedCounts(suite, tasks, times - 1, p);
      InSuiteCounts(suite, times, tasks, p);
    }
  }

  /** The tasks the selection takes from the suite of this id. */
  function SelectedOf(cat: Catalogue, sel: Selection, id: string): seq<Task> {
    match Find(cat.suites, id)
    case None => []
    case Some(suite) => if Selected(cat, suite, sel).None? then [] else Selected(cat, suite, sel).value
  }

  lemma {:induction false} RepeatedNothing(suite: string, times: nat)
    ensures Repeated(suite, [], times) == []
  {
    if times != 0 {
      RepeatedNothing(suite, times - 1);
    }
  }

  lemma SharesLast(cat: Catalogue, sel: Selection, host: Option<string>, suites: seq<string>)
    requires suites != [] && Shares(cat, sel, host, suites).Ok?
    ensures var init, id := suites[..|suites| - 1], suites[|suites| - 1];
      && Shares(cat, sel, host, init).Ok?
      && Shares(cat, sel, host, suites).value.tasks ==
         Shares(cat, sel, host, init).value.tasks + Repeated(id, SelectedOf(cat, sel, id), sel.repeat)
  {
    RepeatedNothing(suites[|suites| - 1], sel.repeat);
  }

  function SharedTasks(cat: Catalogue, sel: Selection, suites: seq<string>): seq<Planned> {
    if suites == [] then []
    else
      var id := suites[|suites| - 1];
      SharedTasks(cat, sel, suites[..|suites| - 1]) + Repeated(id, SelectedOf(cat, sel, id), sel.repeat)
  }

  lemma {:induction false} SharesAre(cat: Catalogue, sel: Selection, host: Option<string>, suites: seq<string>)
    requires Shares(cat, sel, host, suites).Ok?
    ensures Shares(cat, sel, host, suites).value.tasks == SharedTasks(cat, sel, suites)
  {
    if suites != [] {
      SharesLast(cat, sel, host, suites);
      SharesAre(cat, sel, host, suites[..|suites| - 1]);
    }
  }

  lemma {:induction false} SharedCount(cat: Catalogue, sel: Selection, suites: seq<string>, p: Planned)
    requires NoRepeat(suites)
    ensures multiset(SharedTasks(cat, sel, suites))[p] ==
            if p.suite in suites && 1 <= p.iteration <= sel.repeat
            then multiset(SelectedOf(cat, sel, p.suite))[p.task] else 0
  {
    if suites != [] {
      var init, id := suites[..|suites| - 1], suites[|suites| - 1];
      SharedCount(cat, sel, init, p);
      InLast(suites, p.suite);
      RepeatedCounts(id, SelectedOf(cat, sel, id), sel.repeat, p);
    }
  }

  lemma InLast(s: seq<string>, x: string)
    requires NoRepeat(s) && s != []
    ensures x in s <==> x in s[..|s| - 1] || x == s[|s| - 1]
    ensures s[|s| - 1] !in s[..|s| - 1]
  {
  }

  lemma PlanSorted(cat: Catalogue, sel: Selection, host: Option<string>)
    requires PlanChecks(cat, sel, host).Ok?
    ensures NoRepeat(sel.suites)
    ensures multiset(PlanChecks(cat, sel, host).value.tasks) == multiset(SharedTasks(cat, sel, sel.suites))
  {
    SharesAre(cat, sel, host, sel.suites);
    SortPermutes(LongestFirst(cat), Shares(cat, sel, host, sel.suites).value.tasks);
  }

  /**
   * A plan holds exactly, for every suite asked for and every iteration up to the repeat count, the tasks selected from
   * that suite: nothing else, and nothing more often.
   */
  lemma PlanHolds(cat: Catalogue, sel: Selection, host: Option<string>, p: Planned)
    requires PlanChecks(cat, sel, host).Ok?
    ensures multiset(PlanChecks(cat, sel, host).value.tasks)[p] ==
            if p.suite in sel.suites && 1 <= p.iteration <= sel.repeat
            then multiset(SelectedOf(cat, sel, p.suite))[p.task]
            else 0
  {
    PlanSorted(cat, sel, host);
    SharedCount(cat, sel, sel.suites, p);
  }

  /** A plan runs the longest estimates first, and tasks of one estimate in the order their suites were asked for. */
  lemma PlanOrdered(cat: Catalogue, sel: Selection, host: Option<string>, ms: nat)
    requires PlanChecks(cat, sel, host).Ok?
    ensures var tasks := PlanChecks(cat, sel, host).value.tasks;
      && (forall i, j :: 0 <= i < j < |tasks| ==> Estimate(cat, tasks[i].task) >= Estimate(cat, tasks[j].task))
      && Filter((p: Planned) => Estimate(cat, p.task) == ms, tasks) ==
         Filter((p: Planned) => Estimate(cat, p.task) == ms, SharedTasks(cat, sel, sel.suites))
  {
    var order, shared := LongestFirst(cat), SharedTasks(cat, sel, sel.suites);
    SharesAre(cat, sel, host, sel.suites);
    SortSorts(order, shared);
    SortKeepsTies(order, (p: Planned) => Estimate(cat, p.task) == ms, shared);
    var tasks := Sort(order, shared);
    forall i, j | 0 <= i < j < |tasks|
      ensures Estimate(cat, tasks[i].task) >= Estimate(cat, tasks[j].task)
    {
      assert order(tasks[i], tasks[j]);
    }
  }

  // ---------------------------------------------------------------- names used once

  function SuiteId(suite: Suite): string { suite.id }

  /**
   * Suites have different ids, every suite names its tasks and prepare steps once (checked in suites.ts), and none
   * takes the combined task's name.
   */
  ghost predicate WellNamed(cat: Catalogue) {
    && NoRepeat(Map(SuiteId, cat.suites))
    && forall i :: 0 <= i < |cat.suites| ==>
      && UniqueIds(cat.suites[i].prepare + cat.suites[i].tasks)
      && LeavesFree(cat.suites[i].prepare + cat.suites[i].tasks, cat.flutterTest)
  }

  ghost predicate LeavesFree(tasks: seq<Task>, id: string) {
    forall j :: 0 <= j < |tasks| ==> tasks[j].id != id
  }

  lemma NamedApart(prepare: seq<Task>, tasks: seq<Task>)
    requires UniqueIds(prepare + tasks)
    ensures UniqueIds(tasks)
    ensures forall j, k :: 0 <= j < |prepare| && 0 <= k < |tasks| ==> prepare[j].id != tasks[k].id
  {
    var all := Map(IdOf, prepare + tasks);
    assert forall j :: 0 <= j < |prepare| ==> all[j] == prepare[j].id;
    assert forall k :: 0 <= k < |tasks| ==> all[|prepare| + k] == tasks[k].id;
  }

  lemma LeavesBothFree(prepare: seq<Task>, tasks: seq<Task>, id: string)
    requires LeavesFree(prepare + tasks, id)
    ensures LeavesFree(prepare, id) && LeavesFree(tasks, id)
  {
    assert forall j :: 0 <= j < |prepare| ==> (prepare + tasks)[j] == prepare[j];
    assert forall j :: 0 <= j < |tasks| ==> (prepare + tasks)[|prepare| + j] == tasks[j];
  }

  lemma SuiteNamed(cat: Catalogue, id: string)
    requires WellNamed(cat) && Find(cat.suites, id).Some?
    ensures var suite := Find(cat.suites, id).value;
      && UniqueIds(suite.tasks)
      && LeavesFree(suite.prepare, cat.flutterTest) && LeavesFree(suite.tasks, cat.flutterTest)
      && forall j, k :: 0 <= j < |suite.prepare| && 0 <= k < |suite.tasks| ==> suite.prepare[j].id != suite.tasks[k].id
  {
    var suite := Find(cat.suites, id).value;
    var i :| 0 <= i < |cat.suites| && cat.suites[i] == suite;
    NamedApart(suite.prepare, suite.tasks);
    LeavesBothFree(suite.prepare, suite.tasks, cat.flutterTest);
  }

  lemma TasksNamed(cat: Catalogue, suite: Suite, sel: Selection)
    requires UniqueIds(suite.tasks) && LeavesFree(suite.tasks, cat.flutterTest)
    requires TasksFor(cat, suite, sel).Some?
    ensures UniqueIds(TasksFor(cat, suite, sel).value)
  {
    if Combines(cat, suite, sel) {
      var others := OtherTasks(cat, suite);
      var keep := Not((task: Task) => IsShardTask(cat, task));
      FilterDistinct(keep, IdOf, suite.tasks);
      forall i | 0 <= i < |others|
        ensures others[i].id != cat.flutterTest
      {
        FilterMember(keep, suite.tasks, others[i]);
      }
      var all := others + [CombinedTask(cat, suite)];
      assert forall i :: 0 <= i < |others| ==> Map(IdOf, all)[i] == Map(IdOf, others)[i];
    }
  }

  lemma SelectedNamed(cat: Catalogue, sel: Selection, id: string)
    requires WellNamed(cat)
    ensures UniqueIds(SelectedOf(cat, sel, id))
  {
    if SelectedOf(cat, sel, id) != [] {
      var suite := Find(cat.suites, id).value;
      SuiteNamed(cat, id);
      TasksNamed(cat, suite, sel);
      FilterDistinct((task: Task) => Wanted(sel.only, task), IdOf, TasksFor(cat, suite, sel).value);
      var named := Named(cat, suite, sel).value;
      if sel.shard.Some? {
        FilterDistinct((task: Task) => InShard(cat, named, sel.shard.value, task.id), IdOf, named);
      }
    }
  }

  function Slot(p: Planned): (Key, nat) { (TaskKey(p), p.iteration) }

  /** No plan runs two tasks under one name in one iteration, so results can be told apart by name. */
  lemma SlotsOnce(cat: Catalogue, sel: Selection, host: Option<string>)
    requires WellNamed(cat) && PlanChecks(cat, sel, host).Ok?
    ensures NoRepeat(Map(Slot, PlanChecks(cat, sel, host).value.tasks))
  {
    var tasks := PlanChecks(cat, sel, host).value.tasks;
    forall i, j | 0 <= i < j < |tasks|
      ensures Slot(tasks[i]) != Slot(tasks[j])
    {
      if Slot(tasks[i]) == Slot(tasks[j]) {
        var p := tasks[i];
        PlanTakes(cat, sel, host, tasks[i]);
        PlanTakes(cat, sel, host, tasks[j]);
        SelectedNamed(cat, sel, p.suite);
        SameTask(SelectedOf(cat, sel, p.suite), tasks[i].task, tasks[j].task);
        PlanOnce(cat, sel, host, p);
        CountsTwice(tasks, i, j);
      }
    }
  }

  lemma CountsTwice(s: seq<Planned>, i: nat, j: nat)
    requires i < j < |s| && s[i] == s[j]
    ensures multiset(s)[s[i]] > 1
  {
    assert s == s[..j] + [s[j]] + s[j + 1..];
    assert s[i] in s[..j];
    assert s[i] in multiset(s[..j]);
  }

  lemma PlanTakes(cat: Catalogue, sel: Selection, host: Option<string>, p: Planned)
    requires PlanChecks(cat, sel, host).Ok? && p in PlanChecks(cat, sel, host).value.tasks
    ensures p.suite in sel.suites && 1 <= p.iteration <= sel.repeat && p.task in SelectedOf(cat, sel, p.suite)
  {
    PlanHolds(cat, sel, host, p);
    assert p in multiset(PlanChecks(cat, sel, host).value.tasks);
    assert p.task in multiset(SelectedOf(cat, sel, p.suite));
  }

  lemma PlanOnce(cat: Catalogue, sel: Selection, host: Option<string>, p: Planned)
    requires PlanChecks(cat, sel, host).Ok? && UniqueIds(SelectedOf(cat, sel, p.suite))
    ensures multiset(PlanChecks(cat, sel, host).value.tasks)[p] <= 1
  {
    var selected := SelectedOf(cat, sel, p.suite);
    PlanHolds(cat, sel, host, p);
    forall i, j | 0 <= i < j < |selected|
      ensures selected[i] != selected[j]
    {
      assert Map(IdOf, selected)[i] != Map(IdOf, selected)[j];
    }
    DistinctCounts(selected);
  }

  // ---------------------------------------------------------------- shards cover the plan

  function Sharded(sel: Selection, part: ShardPart): Selection { sel.(shard := Some(part)) }

  lemma SelectedPart(cat: Catalogue, sel: Selection, part: ShardPart, id: string)
    requires sel.shard.None? && sel.layout != Some(Combined)
    ensures SelectedOf(cat, Sharded(sel, part), id) == Mine(cat, SelectedOf(cat, sel, id), part)
  {
  }

  lemma {:induction false} PartPlans(cat: Catalogue, sel: Selection, host: Option<string>, part: ShardPart,
          suites: seq<string>)
    requires sel.shard.None? && sel.layout != Some(Combined)
    ensures Shares(cat, sel, host, suites).Ok? <==> Shares(cat, Sharded(sel, part), host, suites).Ok?
  {
    if suites != [] {
      PartPlans(cat, sel, host, part, suites[..|suites| - 1]);
    }
  }

  /**
   * The shards of a selection are a partition of its plan: every shard plans successfully, and each task of the whole
   * plan is planned by exactly one of them, as often as in the whole plan.
   */
  lemma ShardsCoverPlan(cat: Catalogue, sel: Selection, host: Option<string>, total: nat, p: Planned)
    returns (index: nat)
    requires WellNamed(cat) && total > 0 && sel.shard.None? && sel.layout != Some(Combined)
    requires PlanChecks(cat, sel, host).Ok? && p in PlanChecks(cat, sel, host).value.tasks
    ensures 1 <= index <= total
    ensures forall part: ShardPart :: part.total == total ==>
      && PlanChecks(cat, Sharded(sel, part), host).Ok?
      && multiset(PlanChecks(cat, Sharded(sel, part), host).value.tasks)[p] ==
         if part.index == index then multiset(PlanChecks(cat, sel, host).value.tasks)[p] else 0
  {
    PlanTakes(cat, sel, host, p);
    PlanHolds(cat, sel, host, p);
    SelectedNamed(cat, sel, p.suite);
    index := OneShardEach(cat, SelectedOf(cat, sel, p.suite), total, p.task);
    forall part: ShardPart | part.total == total
      ensures PlanChecks(cat, Sharded(sel, part), host).Ok?
      ensures multiset(PlanChecks(cat, Sharded(sel, part), host).value.tasks)[p] ==
              if part.index == index then multiset(PlanChecks(cat, sel, host).value.tasks)[p] else 0
    {
      ShardCounts(cat, sel, host, part, p);
    }
  }

  lemma ShardCounts(cat: Catalogue, sel: Selection, host: Option<string>, part: ShardPart, p: Planned)
    requires sel.shard.None? && sel.layout != Some(Combined) && PlanChecks(cat, sel, host).Ok?
    ensures PlanChecks(cat, Sharded(sel, part), host).Ok?
    ensures multiset(PlanChecks(cat, Sharded(sel, part), host).value.tasks)[p] ==
            if InShard(cat, SelectedOf(cat, sel, p.suite), part, p.task.id)
            then multiset(PlanChecks(cat, sel, host).value.tasks)[p] else 0
  {
    var whole := SelectedOf(cat, sel, p.suite);
    PartPlans(cat, sel, host, part, sel.suites);
    PlanHolds(cat, sel, host, p);
    PlanHolds(cat, Sharded(sel, part), host, p);
    SelectedPart(cat, sel, part, p.suite);
    FilterCounts((task: Task) => InShard(cat, whole, part, task.id), whole, p.task);
  }

  /** A shard plans nothing the whole selection does not. */
  lemma ShardsAddNothing(cat: Catalogue, sel: Selection, host: Option<string>, part: ShardPart, p: Planned)
    requires sel.shard.None? && sel.layout != Some(Combined) && PlanChecks(cat, sel, host).Ok?
    ensures PlanChecks(cat, Sharded(sel, part), host).Ok?
    ensures multiset(PlanChecks(cat, Sharded(sel, part), host).value.tasks)[p] <=
            multiset(PlanChecks(cat, sel, host).value.tasks)[p]
  {
    ShardCounts(cat, sel, host, part, p);
  }

  // ---------------------------------------------------------------- prepare steps

  lemma {:induction false} PreparesFrom(cat: Catalogue, sel: Selection, host: Option<string>,
          suites: seq<string>, i: nat)
    requires Shares(cat, sel, host, suites).Ok? && i < |Shares(cat, sel, host, suites).value.prepare|
    ensures var p := Shares(cat, sel, host, suites).value.prepare[i];
      Find(cat.suites, p.suite).Some? && p.task in Find(cat.suites, p.suite).value.prepare
  {
    var init := suites[..|suites| - 1];
    var before := |Shares(cat, sel, host, init).value.prepare|;
    if i < before {
      PreparesFrom(cat, sel, host, init, i);
    }
  }

  /** A task selected from a suite is one of the suite's or the combined one. */
  lemma SelectedFrom(cat: Catalogue, sel: Selection, id: string, task: Task)
    requires task in SelectedOf(cat, sel, id)
    ensures Find(cat.suites, id).Some? && (task in Find(cat.suites, id).value.tasks || task.id == cat.flutterTest)
  {
    var suite := Find(cat.suites, id).value;
    var tasks, named := TasksFor(cat, suite, sel).value, Named(cat, suite, sel).value;
    if sel.shard.Some? {
      FilterMember((t: Task) => InShard(cat, named, sel.shard.value, t.id), named, task);
    }
    FilterMember((t: Task) => Wanted(sel.only, t), tasks, task);
    if Combines(cat, suite, sel) && task in OtherTasks(cat, suite) {
      FilterMember(Not((t: Task) => IsShardTask(cat, t)), suite.tasks, task);
    }
  }

  /** No prepare step of a plan has the name of one of its tasks. */
  lemma PrepareApart(cat: Catalogue, sel: Selection, host: Option<string>, i: nat, j: nat)
    requires WellNamed(cat) && PlanChecks(cat, sel, host).Ok?
    requires var plan := PlanChecks(cat, sel, host).value; i < |plan.prepare| && j < |plan.tasks|
    ensures var plan := PlanChecks(cat, sel, host).value; TaskKey(plan.prepare[i]) != TaskKey(plan.tasks[j])
  {
    var plan := PlanChecks(cat, sel, host).value;
    var step, p := plan.prepare[i], plan.tasks[j];
    PreparesFrom(cat, sel, host, sel.suites, i);
    PlanTakes(cat, sel, host, p);
    SelectedFrom(cat, sel, p.suite, p.task);
    if step.suite == p.suite {
      var suite := Find(cat.suites, p.suite).value;
      SuiteNamed(cat, p.suite);
      var k :| 0 <= k < |suite.prepare| && suite.prepare[k] == step.task;
      if p.task in suite.tasks {
        var l :| 0 <= l < |suite.tasks| && suite.tasks[l] == p.task;
      }
    }
  }
}
