/**
 * The check planner (scripts/ci/check-plan.ts): which tasks a selection of suites, shard and layout runs, and what they
 * cover.
 */
module CheckPlan {
  import opened Wrappers
  import opened Sequences
  import opened Sorting
  import Shard

  const DEFAULT_TIMEOUT_MS := 180_000
  const TEST_ESTIMATE_MS := 60_000
  const OTHER_ESTIMATE_MS := 20_000

  datatype Limits = Limits(timeoutMs: Option<nat>, estimateMs: Option<nat>, serial: bool, retry: bool)

  datatype Task = Task(id: string, run: seq<string>, cwd: string, limits: Limits)

  datatype Suite = Suite(id: string, prepare: seq<Task>, tasks: seq<Task>)

  /** The suite table, with the names and orders the planner looks at. */
  datatype Catalogue = Catalogue(
    suites: seq<Suite>,
    client: string,                      // the id of the suite whose Flutter shards may be combined
    isFlutterShard: string -> bool,      // the pattern of that suite's shard task ids
    flutterTest: string,                 // the id of the combined task
    test: string,                        // the second word of a test command
    flutter: (string, string, string),   // the words of its command before the files
    combinedCwd: string,
    idOrder: Shard.IdOrder,
    fileOrder: Order<string>,
    runsOn: (string, string) -> bool,    // whether a suite runs on a host
    releaseSuites: seq<string>,          // the suites of a Linux release, Android's included
    web: string,                         // the id of the suite that needs a browser
    unitOrder: Order<Unit>)              // the order of coverage units as text

  datatype Part = Part(index: nat, total: nat)

  /** One shard of several. */
  type ShardPart = p: Part | 1 <= p.index <= p.total witness Part(1, 1)

  datatype Layout = Combined | SerialShards

  datatype Selection = Selection(
    suites: seq<string>,
    shard: Option<ShardPart>,
    only: Option<seq<string>>,
    repeat: nat,
    layout: Option<Layout>)

  datatype Planned = Planned(suite: string, task: Task, iteration: nat)

  datatype Plan = Plan(prepare: seq<Planned>, tasks: seq<Planned>)

  datatype PlanError = DuplicateSuites | CombinedShard | SuiteDoesNotRun | BadFilePartition

  function Estimate(cat: Catalogue, task: Task): nat {
    match task.limits.estimateMs
    case Some(ms) => ms
    case None => if |task.run| > 1 && task.run[1] == cat.test then TEST_ESTIMATE_MS else OTHER_ESTIMATE_MS
  }

  function Timeout(task: Task): nat {
    if task.limits.timeoutMs.Some? then task.limits.timeoutMs.value else DEFAULT_TIMEOUT_MS
  }

  // ---------------------------------------------------------------- sharding

  function Weighed(cat: Catalogue): Task -> Shard.Item {
    (task: Task) => Shard.Item(task.id, Estimate(cat, task))
  }

  /** The groups the tasks of a suite fall into. */
  function TaskGroups(cat: Catalogue, tasks: seq<Task>, total: nat): (groups: seq<seq<Shard.Item>>)
    requires total > 0
    ensures |groups| == total
  {
    Shard.Groups(cat.idOrder, Map(Weighed(cat), tasks), total)
  }

  predicate InGroup(group: seq<Shard.Item>, id: string) {
    exists i :: 0 <= i < |group| && group[i].id == id
  }

  predicate InShard(cat: Catalogue, tasks: seq<Task>, part: ShardPart, id: string) {
    InGroup(TaskGroups(cat, tasks, part.total)[part.index - 1], id)
  }

  function Mine(cat: Catalogue, tasks: seq<Task>, part: ShardPart): seq<Task> {
    Filter((task: Task) => InShard(cat, tasks, part, task.id), tasks)
  }

  // ---------------------------------------------------------------- a suite's tasks

  function FilesOf(task: Task): seq<string> {
    if |task.run| < 3 then [] else task.run[3..]
  }

  predicate IsShardTask(cat: Catalogue, task: Task) { cat.isFlutterShard(task.id) }

  function ShardTasks(cat: Catalogue, suite: Suite): seq<Task> {
    Filter((task: Task) => IsShardTask(cat, task), suite.tasks)
  }

  function OtherTasks(cat: Catalogue, suite: Suite): seq<Task> {
    Filter(Not((task: Task) => IsShardTask(cat, task)), suite.tasks)
  }

  function Files(cat: Catalogue, suite: Suite): seq<string> {
    Sort(cat.fileOrder, FlatMap(FilesOf, ShardTasks(cat, suite)))
  }

  /** The one task that runs all the Flutter files, with the time limits of all the tasks it replaces. */
  function CombinedTask(cat: Catalogue, suite: Suite): Task {
    var shards := ShardTasks(cat, suite);
    Task(cat.flutterTest, [cat.flutter.0, cat.flutter.1, cat.flutter.2] + Files(cat, suite), cat.combinedCwd,
         Limits(Some(Total(Timeout, shards)), Some(Total((task: Task) => Estimate(cat, task), shards)), true, true))
  }

  predicate Combines(cat: Catalogue, suite: Suite, sel: Selection) {
    suite.id == cat.client && sel.shard.None? && sel.layout == Some(Combined)
  }

  function TasksFor(cat: Catalogue, suite: Suite, sel: Selection): Option<seq<Task>> {
    if !Combines(cat, suite, sel) then Some(suite.tasks)
    else
      var files := Files(cat, suite);
      if files == [] || !NoRepeat(files) then None else Some(OtherTasks(cat, suite) + [CombinedTask(cat, suite)])
  }

  predicate OccursAt(text: string, part: string, at: nat) {
    at + |part| <= |text| && text[at..at + |part|] == part
  }

  predicate Includes(text: string, part: string) {
    exists at :: 0 <= at <= |text| && OccursAt(text, part, at)
  }

  predicate Wanted(only: Option<seq<string>>, task: Task) {
    only.Some? ==> exists i :: 0 <= i < |only.value| && Includes(task.id, only.value[i])
  }

  /** The tasks of a suite the selection names, before sharding. */
  function Named(cat: Catalogue, suite: Suite, sel: Selection): Option<seq<Task>> {
    match TasksFor(cat, suite, sel)
    case None => None
    case Some(tasks) => Some(Filter((task: Task) => Wanted(sel.only, task), tasks))
  }

  function Selected(cat: Catalogue, suite: Suite, sel: Selection): Option<seq<Task>> {
    match Named(cat, suite, sel)
    case None => None
    case Some(tasks) => Some(if sel.shard.None? then tasks else Mine(cat, tasks, sel.shard.value))
  }

  // ---------------------------------------------------------------- the plan

  function InSuite(suite: string, iteration: nat): Task -> Planned {
    (task: Task) => Planned(suite, task, iteration)
  }

  function Repeated(suite: string, tasks: seq<Task>, times: nat): seq<Planned> {
    if times == 0 then [] else Repeated(suite, tasks, times - 1) + Map(InSuite(suite, times), tasks)
  }

  function Find(suites: seq<Suite>, id: string): (found: Option<Suite>)
    ensures found.Some? ==> found.value.id == id && found.value in suites
    ensures found.None? ==> forall i :: 0 <= i < |suites| ==> suites[i].id != id
  {
    if suites == [] then None else if suites[0].id == id then Some(suites[0]) else Find(suites[1..], id)
  }

  /** The suite of that id, unless it is unknown or does not run on the host asked about. */
  function FindRunnable(cat: Catalogue, id: string, host: Option<string>): Option<Suite> {
    if host.Some? && !cat.runsOn(id, host.value) then None else Find(cat.suites, id)
  }

  /** One suite's share of the plan. */
  function Share(cat: Catalogue, suite: Suite, sel: Selection, selected: seq<Task>): Plan {
    if selected == [] then Plan([], [])
    else Plan(Map(InSuite(suite.id, 1), suite.prepare), Repeated(suite.id, selected, sel.repeat))
  }

  /** The shares of the suites asked for, in order, not yet sorted. */
  function Shares(cat: Catalogue, sel: Selection, host: Option<string>, suites: seq<string>): Result<Plan, PlanError> {
    if suites == [] then Ok(Plan([], []))
    else
      match Shares(cat, sel, host, suites[..|suites| - 1])
      case Refused(error) => Refused(error)
      case Ok(plan) =>
        match FindRunnable(cat, suites[|suites| - 1], host)
        case None => Refused(SuiteDoesNotRun)
        case Some(suite) =>
          match Selected(cat, suite, sel)
          case None => Refused(BadFilePartition)
          case Some(selected) =>
            var share := Share(cat, suite, sel, selected);
            Ok(Plan(plan.prepare + share.prepare, plan.tasks + share.tasks))
  }

  function LongestFirst(cat: Catalogue): Order<Planned> {
    (a: Planned, b: Planned) => Estimate(cat, a.task) >= Estimate(cat, b.task)
  }

  function PlanChecks(cat: Catalogue, sel: Selection, host: Option<string>): Result<Plan, PlanError> {
    if !NoRepeat(sel.suites) then Refused(DuplicateSuites)
    else if sel.shard.Some? && sel.layout == Some(Combined) then Refused(CombinedShard)
    else
      match Shares(cat, sel, host, sel.suites)
      case Refused(error) => Refused(error)
      case Ok(plan) => Ok(plan.(tasks := Sort(LongestFirst(cat), plan.tasks)))
  }

  // ---------------------------------------------------------------- names and coverage

  datatype Key = Key(suite: string, id: string)

  function TaskKey(planned: Planned): Key { Key(planned.suite, planned.task.id) }

  /** What a task proves covered: a test file of the client, or the task itself. */
  datatype Unit = ClientFile(path: string) | WholeTask(key: Key)

  predicate IsFlutter(cat: Catalogue, id: string) { cat.isFlutterShard(id) || id == cat.flutterTest }

  function FileUnits(files: seq<string>): (units: seq<Unit>)
    ensures |units| == |files| && forall i :: 0 <= i < |files| ==> units[i] == ClientFile(files[i])
  {
    seq(|files|, i requires 0 <= i < |files| => ClientFile(files[i]))
  }

  function UnitsOf(cat: Catalogue, suite: string, task: Task): seq<Unit> {
    if suite == cat.client && IsFlutter(cat, task.id) then FileUnits(FilesOf(task))
    else [WholeTask(Key(suite, task.id))]
  }

  function CoverageUnits(cat: Catalogue): Planned -> seq<Unit> {
    (planned: Planned) => UnitsOf(cat, planned.suite, planned.task)
  }
}
