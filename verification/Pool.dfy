/**
 * The concurrent task pool (`runPool` in scripts/ci/run.ts) as a state machine over its event-loop turns.
 *
 * Tasks are their positions in the list given. A job that ends first runs its callback (`Finish`), and only in a later
 * turn leaves the running set (`Drop`); the loop sleeps on a race over the running set and may wake in between.
 */
module Pool {
  import opened Wrappers

  datatype Config = Config(serial: seq<bool>, concurrency: nat)

  /** Where the outer loop is: asleep on a race, returned, or about to go round again with nothing to wait for. */
  datatype Control = Asleep(raced: set<nat>) | Returned | Spinning

  datatype Pool = Pool(
    pending: seq<nat>,
    running: set<nat>,        // the promises the loop holds
    finished: set<nat>,       // those of them whose callback has run
    serialBusy: bool,
    results: seq<nat>,        // in the order of completion
    cancelling: bool,
    control: Control)

  datatype Event = Finish(job: nat) | Drop(job: nat) | Wake | Cancel

  predicate IsSerial(cfg: Config, job: nat) {
    job < |cfg.serial| && cfg.serial[job]
  }

  predicate Eligible(cfg: Config, serialBusy: bool, job: nat) {
    !(IsSerial(cfg, job) && serialBusy)
  }

  /** The position of the first pending task that may start, at or after `from`; `|pending|` if there is none. */
  function FirstEligible(cfg: Config, pending: seq<nat>, serialBusy: bool, from: nat): (at: nat)
    requires from <= |pending|
    ensures from <= at <= |pending|
    ensures at < |pending| ==> Eligible(cfg, serialBusy, pending[at])
    ensures forall i :: from <= i < at ==> !Eligible(cfg, serialBusy, pending[i])
    decreases |pending| - from
  {
    if from == |pending| || Eligible(cfg, serialBusy, pending[from]) then from
    else FirstEligible(cfg, pending, serialBusy, from + 1)
  }

  function Without(s: seq<nat>, at: nat): seq<nat>
    requires at < |s|
  {
    s[..at] + s[at + 1..]
  }

  function Start(cfg: Config, p: Pool, at: nat): Pool
    requires at < |p.pending|
  {
    var job := p.pending[at];
    p.(pending := Without(p.pending, at),
       running := p.running + {job},
       serialBusy := p.serialBusy || IsSerial(cfg, job))
  }

  /** The inner loop: start tasks while there is a free slot and a task that may start. */
  function Fill(cfg: Config, p: Pool): Pool
    decreases |p.pending|
  {
    if p.cancelling || |p.running| >= cfg.concurrency then p
    else
      var at := FirstEligible(cfg, p.pending, p.serialBusy, 0);
      if at == |p.pending| then p else Fill(cfg, Start(cfg, p, at))
  }

  /** What the outer loop does once the inner loop stops. */
  function Sleep(p: Pool): Pool {
    p.(control := if p.running == {} then Spinning else Asleep(p.running))
  }

  /** One round of the outer loop, from its condition to the next sleep. */
  function Round(cfg: Config, p: Pool): Pool {
    if (p.cancelling || p.pending == []) && p.running == {} then p.(control := Returned) else Sleep(Fill(cfg, p))
  }

  function Tasks(cfg: Config): seq<nat> {
    seq(|cfg.serial|, i => i)
  }

  function Idle(cfg: Config, cancelling: bool): Pool {
    Pool(Tasks(cfg), {}, {}, false, [], cancelling, Spinning)
  }

  /** A race is over once one of the promises raced has left the running set. */
  predicate Won(p: Pool) {
    p.control.Asleep? && !(p.control.raced <= p.running)
  }

  predicate Enabled(p: Pool, e: Event) {
    match e
    case Finish(job) => job in p.running && job !in p.finished
    case Drop(job) => job in p.finished
    case Wake => Won(p)
    case Cancel => !p.cancelling && !p.control.Returned?
  }

  function Step(cfg: Config, p: Pool, e: Event): Pool
    requires Enabled(p, e)
  {
    match e
    case Finish(job) =>
      p.(finished := p.finished + {job},
         serialBusy := p.serialBusy && !IsSerial(cfg, job),
         results := p.results + [job])
    case Drop(job) => p.(running := p.running - {job}, finished := p.finished - {job})
    case Wake => Round(cfg, p)
    case Cancel => p.(cancelling := true)
  }

  /** The pool after these events, in this order; none if one of them cannot happen when its turn comes. */
  function Run(cfg: Config, cancelled: bool, es: seq<Event>): Option<Pool>
    decreases |es|
  {
    if es == [] then Some(Round(cfg, Idle(cfg, cancelled)))
    else
      match Run(cfg, cancelled, es[..|es| - 1])
      case None => None
      case Some(p) => if Enabled(p, es[|es| - 1]) then Some(Step(cfg, p, es[|es| - 1])) else None
  }

  // ---------------------------------------------------------------- what every turn keeps

  /** Started and not yet ended. */
  function Active(p: Pool): set<nat> { p.running - p.finished }

  /** Every task is in one place: waiting, under way or done. */
  ghost predicate Conserved(cfg: Config, p: Pool) {
    multiset(p.pending) + multiset(Active(p)) + multiset(p.results) == multiset(Tasks(cfg))
  }

  ghost predicate Exclusive(cfg: Config, p: Pool) {
    && (forall a, b :: a in Active(p) && b in Active(p) && IsSerial(cfg, a) && IsSerial(cfg, b) ==> a == b)
    && (p.serialBusy <==> exists a :: a in Active(p) && IsSerial(cfg, a))
  }

  ghost predicate Bounded(cfg: Config, p: Pool) {
    |p.running| <= cfg.concurrency && p.finished <= p.running && forall job :: job in p.finished ==> job in p.results
  }

  ghost predicate Valid(cfg: Config, p: Pool) {
    Conserved(cfg, p) && Exclusive(cfg, p) && Bounded(cfg, p)
  }

  /** The loop is asleep on something that can end, or has returned with nothing left that it should have run. */
  ghost predicate Settled(cfg: Config, p: Pool) {
    match p.control
    case Spinning => false
    case Asleep(raced) => raced != {} && (p.running == {} ==> Won(p))
    case Returned => p.running == {} && (p.cancelling || p.pending == [])
  }

  lemma WithoutCounts(s: seq<nat>, at: nat)
    requires at < |s|
    ensures multiset(s) == multiset(Without(s, at)) + multiset{s[at]}
  {
    assert s == s[..at] + [s[at]] + s[at + 1..];
  }

  /** A task number occurs once in the list of tasks. */
  lemma {:induction false} TasksOnce(n: nat, job: nat)
    ensures multiset(seq(n, i => i))[job] == if job < n then 1 else 0
  {
    var s := seq(n, i => i);
    if n > 0 {
      assert s == seq(n - 1, i => i) + [n - 1];
      TasksOnce(n - 1, job);
    }
  }

  lemma InOnePlace(cfg: Config, p: Pool, job: nat)
    requires Conserved(cfg, p)
    ensures job in p.pending ==> job !in Active(p) && job !in p.results
    ensures job in Active(p) ==> job !in p.results
    ensures job in p.pending || job in Active(p) || job in p.results <==> job < |cfg.serial|
    ensures multiset(p.pending)[job] <= 1 && multiset(p.results)[job] <= 1
  {
    TasksOnce(|cfg.serial|, job);
    assert multiset(Tasks(cfg))[job] ==
           multiset(p.pending)[job] + multiset(Active(p))[job] + multiset(p.results)[job];
    assert job in p.pending <==> job in multiset(p.pending);
    assert job in p.results <==> job in multiset(p.results);
  }

  /** A waiting task is not in the running set either. */
  lemma PendingOutside(cfg: Config, p: Pool, at: nat)
    requires Valid(cfg, p) && at < |p.pending|
    ensures p.pending[at] !in p.running
  {
    InOnePlace(cfg, p, p.pending[at]);
  }

  lemma StartConserves(cfg: Config, p: Pool, at: nat)
    requires Valid(cfg, p) && at < |p.pending|
    ensures Conserved(cfg, Start(cfg, p, at))
  {
    var job := p.pending[at];
    PendingOutside(cfg, p, at);
    WithoutCounts(p.pending, at);
    assert Active(Start(cfg, p, at)) == Active(p) + {job};
    assert multiset(Active(p) + {job}) == multiset(Active(p)) + multiset{job};
  }

  lemma StartKeeps(cfg: Config, p: Pool, at: nat)
    requires Valid(cfg, p) && at < |p.pending| && |p.running| < cfg.concurrency
    requires Eligible(cfg, p.serialBusy, p.pending[at])
    ensures Valid(cfg, Start(cfg, p, at))
  {
    StartConserves(cfg, p, at);
    PendingOutside(cfg, p, at);
    StartExcludes(cfg, p, at);
  }

  lemma StartExcludes(cfg: Config, p: Pool, at: nat)
    requires Valid(cfg, p) && at < |p.pending| && Eligible(cfg, p.serialBusy, p.pending[at])
    ensures Exclusive(cfg, Start(cfg, p, at))
  {
    var q, job := Start(cfg, p, at), p.pending[at];
    PendingOutside(cfg, p, at);
    assert Active(q) == Active(p) + {job};
    if p.serialBusy {
      var a :| a in Active(p) && IsSerial(cfg, a);
      assert a in Active(q);
    } else if IsSerial(cfg, job) {
      assert job in Active(q);
    }
  }

  /** No free slot is idle while a task that may start is waiting. */
  ghost predicate Packed(cfg: Config, p: Pool) {
    || p.cancelling
    || |p.running| >= cfg.concurrency
    || forall i :: 0 <= i < |p.pending| ==> !Eligible(cfg, p.serialBusy, p.pending[i])
  }

  lemma {:induction false} FillKeeps(cfg: Config, p: Pool)
    requires Valid(cfg, p)
    ensures var q := Fill(cfg, p);
      && Valid(cfg, q) && Packed(cfg, q)
      && q.cancelling == p.cancelling && q.finished == p.finished && q.results == p.results && p.running <= q.running
    decreases |p.pending|
  {
    if !p.cancelling && |p.running| < cfg.concurrency {
      var at := FirstEligible(cfg, p.pending, p.serialBusy, 0);
      if at < |p.pending| {
        StartKeeps(cfg, p, at);
        FillKeeps(cfg, Start(cfg, p, at));
      }
    }
  }

  lemma SleepKeeps(cfg: Config, p: Pool, control: Control)
    requires Valid(cfg, p)
    ensures Valid(cfg, p.(control := control))
  {
    assert Active(p.(control := control)) == Active(p);
  }

  /** With nothing running, nothing cancelled and something waiting, the inner loop starts something. */
  lemma NeverSpins(cfg: Config, p: Pool)
    requires Valid(cfg, p) && Packed(cfg, p) && cfg.concurrency > 0 && p.running == {}
    ensures p.cancelling || p.pending == []
  {
    if p.pending != [] && !p.cancelling {
      assert !p.serialBusy;
      assert Eligible(cfg, p.serialBusy, p.pending[0]);
    }
  }

  /**
   * A round ends asleep on something, every slot it may use taken, or returned: it never goes round with nothing
   * running.
   */
  lemma RoundSettles(cfg: Config, p: Pool)
    requires Valid(cfg, p) && cfg.concurrency > 0
    ensures Valid(cfg, Round(cfg, p)) && Settled(cfg, Round(cfg, p)) && Packed(cfg, Round(cfg, p))
  {
    FillKeeps(cfg, p);
    var q := Fill(cfg, p);
    SleepKeeps(cfg, p, Returned);
    SleepKeeps(cfg, q, Sleep(q).control);
    if q.running == {} {
      NeverSpins(cfg, q);
      NothingStarted(cfg, p, q);
    }
  }

  /** If still nothing runs, nothing has been taken from the waiting list. */
  lemma NothingStarted(cfg: Config, p: Pool, q: Pool)
    requires Conserved(cfg, p) && Conserved(cfg, q) && p.results == q.results && p.running == {} && q.running == {}
    ensures |p.pending| == |q.pending|
  {
    assert Active(p) == {} && Active(q) == {};
    var rest := multiset(Tasks(cfg)) - multiset(p.results);
    assert multiset(p.pending) == rest;
    assert multiset(q.pending) == rest;
    assert |multiset(p.pending)| == |p.pending| && |multiset(q.pending)| == |q.pending|;
  }

  lemma InitKeeps(cfg: Config, cancelled: bool)
    requires cfg.concurrency > 0
    ensures var p := Round(cfg, Idle(cfg, cancelled)); Valid(cfg, p) && Settled(cfg, p)
  {
    RoundSettles(cfg, Idle(cfg, cancelled));
  }

  lemma FinishKeeps(cfg: Config, p: Pool, job: nat)
    requires Valid(cfg, p) && Settled(cfg, p) && Enabled(p, Finish(job))
    ensures Valid(cfg, Step(cfg, p, Finish(job))) && Settled(cfg, Step(cfg, p, Finish(job)))
  {
    var q := Step(cfg, p, Finish(job));
    assert Active(q) == Active(p) - {job};
    assert multiset(Active(p)) == multiset(Active(q)) + multiset{job};
    assert multiset(q.results) == multiset(p.results) + multiset{job};
    FinishFrees(cfg, p, job);
    assert q.results[|p.results|] == job;
  }

  lemma FinishFrees(cfg: Config, p: Pool, job: nat)
    requires Valid(cfg, p) && Enabled(p, Finish(job))
    ensures Exclusive(cfg, Step(cfg, p, Finish(job)))
  {
    var q := Step(cfg, p, Finish(job));
    assert Active(q) == Active(p) - {job};
    if q.serialBusy {
      var a :| a in Active(p) && IsSerial(cfg, a);
      assert a in Active(q);
    }
  }

  lemma DropKeeps(cfg: Config, p: Pool, job: nat)
    requires Valid(cfg, p) && Settled(cfg, p) && Enabled(p, Drop(job))
    ensures Valid(cfg, Step(cfg, p, Drop(job))) && Settled(cfg, Step(cfg, p, Drop(job)))
  {
    var q := Step(cfg, p, Drop(job));
    assert Active(q) == Active(p);
  }

  lemma CancelKeeps(cfg: Config, p: Pool)
    requires Valid(cfg, p) && Settled(cfg, p) && Enabled(p, Cancel)
    ensures Valid(cfg, Step(cfg, p, Cancel)) && Settled(cfg, Step(cfg, p, Cancel))
  {
    assert Active(Step(cfg, p, Cancel)) == Active(p);
  }

  lemma StepKeeps(cfg: Config, p: Pool, e: Event)
    requires Valid(cfg, p) && Settled(cfg, p) && cfg.concurrency > 0 && Enabled(p, e)
    ensures Valid(cfg, Step(cfg, p, e)) && Settled(cfg, Step(cfg, p, e))
  {
    match e
    case Wake => RoundSettles(cfg, p);
    case Cancel => CancelKeeps(cfg, p);
    case Finish(job) => FinishKeeps(cfg, p, job);
    case Drop(job) => DropKeeps(cfg, p, job);
  }

  lemma {:induction false} RunKeeps(cfg: Config, cancelled: bool, es: seq<Event>)
    requires Run(cfg, cancelled, es).Some? && cfg.concurrency > 0
    ensures Valid(cfg, Run(cfg, cancelled, es).value) && Settled(cfg, Run(cfg, cancelled, es).value)
    decreases |es|
  {
    if es == [] {
      InitKeeps(cfg, cancelled);
    } else {
      RunKeeps(cfg, cancelled, es[..|es| - 1]);
      StepKeeps(cfg, Run(cfg, cancelled, es[..|es| - 1]).value, es[|es| - 1]);
    }
  }

  /**
   * While the loop sleeps, the promises it raced only leave; if none has ended, it is as packed as when it went to
   * sleep.
   */
  ghost predicate Rested(cfg: Config, p: Pool) {
    p.control.Asleep? ==> p.running <= p.control.raced && (p.finished == {} && !Won(p) ==> Packed(cfg, p))
  }

  lemma {:induction false} RunRests(cfg: Config, cancelled: bool, es: seq<Event>)
    requires Run(cfg, cancelled, es).Some? && cfg.concurrency > 0
    ensures Rested(cfg, Run(cfg, cancelled, es).value)
    decreases |es|
  {
    if es == [] {
      InitKeeps(cfg, cancelled);
      RoundSettles(cfg, Idle(cfg, cancelled));
    } else {
      RunRests(cfg, cancelled, es[..|es| - 1]);
      RunKeeps(cfg, cancelled, es[..|es| - 1]);
      RoundSettles(cfg, Run(cfg, cancelled, es[..|es| - 1]).value);
    }
  }

  // ---------------------------------------------------------------- over every run

  /** A task of the serial class, read off the configuration. */
  predicate Serial(cfg: Config, job: nat) { job < |cfg.serial| && cfg.serial[job] }

  /**
   * Safety: after any events in any order, no more tasks run than allowed, no two of the serial class run at once, and
   * the flag that holds the class back is up exactly while one of them runs.
   */
  lemma PoolSafe(cfg: Config, cancelled: bool, es: seq<Event>)
    requires Run(cfg, cancelled, es).Some? && cfg.concurrency > 0
    ensures var p := Run(cfg, cancelled, es).value;
      && |p.running| <= cfg.concurrency
      && (forall a, b :: a in Active(p) && b in Active(p) && Serial(cfg, a) && Serial(cfg, b) ==> a == b)
      && (p.serialBusy <==> exists a :: a in Active(p) && Serial(cfg, a))
  {
    RunKeeps(cfg, cancelled, es);
    assert forall a: nat :: Serial(cfg, a) <==> IsSerial(cfg, a);
  }

  /**
   * While the loop sleeps with everything it raced still running, a waiting task is held back by a full pool or, if it
   * is serial, by a serial task under way, and by nothing else.
   */
  lemma NoIdleSlot(cfg: Config, cancelled: bool, es: seq<Event>, i: nat)
    requires Run(cfg, cancelled, es).Some? && cfg.concurrency > 0
    requires var p := Run(cfg, cancelled, es).value;
      && p.control.Asleep? && p.control.raced <= p.running && p.finished == {} && !p.cancelling && i < |p.pending|
    ensures var p := Run(cfg, cancelled, es).value;
      || |p.running| == cfg.concurrency
      || (Serial(cfg, p.pending[i]) && exists a :: a in Active(p) && Serial(cfg, a))
  {
    RunRests(cfg, cancelled, es);
    RunKeeps(cfg, cancelled, es);
    assert forall a: nat :: Serial(cfg, a) <==> IsSerial(cfg, a);
  }

  // ---------------------------------------------------------------- the order of starting

  /** Waiting tasks keep their order, and only serial ones have been overtaken, by tasks that are not serial. */
  ghost predicate InOrder(cfg: Config, p: Pool) {
    && (forall i, j :: 0 <= i < j < |p.pending| ==> p.pending[i] < p.pending[j])
    && (forall i :: 0 <= i < |p.pending| ==> p.pending[i] < |cfg.serial|)
    && (forall i: nat, job: nat :: i < |p.pending| && Overtakes(cfg, p, job, i) ==>
          Serial(cfg, p.pending[i]) && !Serial(cfg, job))
  }

  /** A task that is no longer waiting comes after one that is. */
  predicate Overtakes(cfg: Config, p: Pool, job: nat, i: nat)
    requires i < |p.pending|
  {
    p.pending[i] < job < |cfg.serial| && job !in p.pending
  }

  lemma StartInOrder(cfg: Config, p: Pool)
    requires InOrder(cfg, p) && FirstEligible(cfg, p.pending, p.serialBusy, 0) < |p.pending|
    ensures InOrder(cfg, Start(cfg, p, FirstEligible(cfg, p.pending, p.serialBusy, 0)))
  {
    var at := FirstEligible(cfg, p.pending, p.serialBusy, 0);
    var q, started := Start(cfg, p, at), p.pending[at];
    forall i: nat, job: nat | i < |q.pending| && Overtakes(cfg, q, job, i)
      ensures Serial(cfg, q.pending[i]) && !Serial(cfg, job)
    {
      var k := if i < at then i else i + 1;
      assert q.pending[i] == p.pending[k];
      if job == started {
        assert k < at;
        assert !Eligible(cfg, p.serialBusy, p.pending[k]);
      } else {
        StillWaits(p.pending, at, job);
        assert Overtakes(cfg, p, job, k);
      }
    }
  }

  lemma StillWaits(pending: seq<nat>, at: nat, job: nat)
    requires at < |pending| && job !in Without(pending, at) && job != pending[at]
    ensures job !in pending
  {
    assert pending == pending[..at] + [pending[at]] + pending[at + 1..];
  }

  lemma {:induction false} FillInOrder(cfg: Config, p: Pool)
    requires InOrder(cfg, p)
    ensures InOrder(cfg, Fill(cfg, p))
    decreases |p.pending|
  {
    if !p.cancelling && |p.running| < cfg.concurrency {
      var at := FirstEligible(cfg, p.pending, p.serialBusy, 0);
      if at < |p.pending| {
        StartInOrder(cfg, p);
        FillInOrder(cfg, Start(cfg, p, at));
      }
    }
  }

  lemma SameInOrder(cfg: Config, p: Pool, q: Pool)
    requires InOrder(cfg, p) && q.pending == p.pending
    ensures InOrder(cfg, q)
  {
    assert forall i: nat, job: nat :: i < |p.pending| ==> (Overtakes(cfg, q, job, i) <==> Overtakes(cfg, p, job, i));
  }

  lemma RoundInOrder(cfg: Config, p: Pool)
    requires InOrder(cfg, p)
    ensures InOrder(cfg, Round(cfg, p))
  {
    FillInOrder(cfg, p);
    SameInOrder(cfg, Fill(cfg, p), Sleep(Fill(cfg, p)));
    SameInOrder(cfg, p, p.(control := Returned));
  }

  lemma StepInOrder(cfg: Config, p: Pool, e: Event)
    requires InOrder(cfg, p) && Enabled(p, e)
    ensures InOrder(cfg, Step(cfg, p, e))
  {
    if e.Wake? { RoundInOrder(cfg, p); } else { SameInOrder(cfg, p, Step(cfg, p, e)); }
  }

  lemma IdleInOrder(cfg: Config, cancelled: bool)
    ensures InOrder(cfg, Idle(cfg, cancelled))
  {
    var p := Idle(cfg, cancelled);
    forall i: nat, job: nat | i < |p.pending|
      ensures !Overtakes(cfg, p, job, i)
    {
      assert job < |cfg.serial| ==> p.pending[job] == job;
    }
  }

  /** Tasks start in the order given: a task overtakes a waiting one only if that one is serial and it is not. */
  lemma {:induction false} StartsInOrder(cfg: Config, cancelled: bool, es: seq<Event>)
    requires Run(cfg, cancelled, es).Some?
    ensures InOrder(cfg, Run(cfg, cancelled, es).value)
    decreases |es|
  {
    if es == [] {
      IdleInOrder(cfg, cancelled);
      RoundInOrder(cfg, Idle(cfg, cancelled));
    } else {
      StartsInOrder(cfg, cancelled, es[..|es| - 1]);
      StepInOrder(cfg, Run(cfg, cancelled, es[..|es| - 1]).value, es[|es| - 1]);
    }
  }

  /** Nothing is lost or run twice: every task is waiting, under way or in the results, and there once. */
  lemma EachTaskOnce(cfg: Config, cancelled: bool, es: seq<Event>, job: nat)
    requires Run(cfg, cancelled, es).Some? && cfg.concurrency > 0 && job < |cfg.serial|
    ensures var p := Run(cfg, cancelled, es).value;
      multiset(p.pending)[job] + (if job in Active(p) then 1 else 0) + multiset(p.results)[job] == 1
  {
    RunKeeps(cfg, cancelled, es);
    var p := Run(cfg, cancelled, es).value;
    TasksOnce(|cfg.serial|, job);
    assert multiset(Tasks(cfg))[job] == multiset(p.pending)[job] + multiset(Active(p))[job] + multiset(p.results)[job];
  }

  /**
   * When the pool returns, its results and the tasks never started are together every task once; uncancelled, none is
   * left.
   */
  lemma ReturnsEverything(cfg: Config, cancelled: bool, es: seq<Event>)
    requires Run(cfg, cancelled, es).Some? && cfg.concurrency > 0 && Run(cfg, cancelled, es).value.control.Returned?
    ensures var p := Run(cfg, cancelled, es).value;
      && multiset(p.results) + multiset(p.pending) == multiset(Tasks(cfg))
      && (!p.cancelling ==> multiset(p.results) == multiset(Tasks(cfg)))
  {
    RunKeeps(cfg, cancelled, es);
    assert Active(Run(cfg, cancelled, es).value) == {};
  }

  /**
   * Until it returns, some task can still end, leave the running set, or wake the loop: there is no deadlock. Once it
   * has returned nothing more happens, a signal included.
   */
  lemma NeverStuck(cfg: Config, cancelled: bool, es: seq<Event>)
    requires Run(cfg, cancelled, es).Some? && cfg.concurrency > 0
    ensures var p := Run(cfg, cancelled, es).value;
      if p.control.Returned? then forall e :: !Enabled(p, e) else exists e :: e != Cancel && Enabled(p, e)
  {
    RunKeeps(cfg, cancelled, es);
    var p := Run(cfg, cancelled, es).value;
    if p.control.Returned? {
    } else if p.running == {} {
      assert Enabled(p, Wake);
    } else {
      var job :| job in p.running;
      assert if job in p.finished then Enabled(p, Drop(job)) else Enabled(p, Finish(job));
    }
  }

  /** The tasks whose callbacks have run, in that order. */
  function Finishes(es: seq<Event>): seq<nat> {
    if es == [] then []
    else Finishes(es[..|es| - 1]) + if es[|es| - 1].Finish? then [es[|es| - 1].job] else []
  }

  lemma {:induction false} FillRecords(cfg: Config, p: Pool)
    ensures Fill(cfg, p).results == p.results && Fill(cfg, p).cancelling == p.cancelling
    decreases |p.pending|
  {
    if !p.cancelling && |p.running| < cfg.concurrency {
      var at := FirstEligible(cfg, p.pending, p.serialBusy, 0);
      if at < |p.pending| {
        FillRecords(cfg, Start(cfg, p, at));
      }
    }
  }

  lemma RoundRecords(cfg: Config, p: Pool)
    ensures Round(cfg, p).results == p.results && Round(cfg, p).cancelling == p.cancelling
  {
    FillRecords(cfg, p);
  }

  lemma StepRecords(cfg: Config, p: Pool, e: Event)
    requires Enabled(p, e)
    ensures Step(cfg, p, e).results == p.results + if e.Finish? then [e.job] else []
    ensures Step(cfg, p, e).cancelling <==> p.cancelling || e == Cancel
  {
    if e.Wake? { RoundRecords(cfg, p); }
  }

  /** Results come in the order the tasks finished, and only a signal cancels. */
  lemma {:induction false} RecordsEvents(cfg: Config, cancelled: bool, es: seq<Event>)
    requires Run(cfg, cancelled, es).Some?
    ensures Run(cfg, cancelled, es).value.results == Finishes(es)
    ensures Run(cfg, cancelled, es).value.cancelling <==> cancelled || Cancel in es
    decreases |es|
  {
    if es == [] {
      RoundRecords(cfg, Idle(cfg, cancelled));
    } else {
      var init, e := es[..|es| - 1], es[|es| - 1];
      RecordsEvents(cfg, cancelled, init);
      StepRecords(cfg, Run(cfg, cancelled, init).value, e);
      assert es == init + [e];
    }
  }

  /** What is still to come, at most. */
  function Measure(p: Pool): nat {
    4 * |p.pending| + 3 * |Active(p)| + 2 * |p.finished| + (if Won(p) then 1 else 0) + (if p.cancelling then 0 else 1)
  }

  lemma {:induction false} FillMeasure(cfg: Config, p: Pool)
    requires Valid(cfg, p)
    ensures var q := Fill(cfg, p); 4 * |q.pending| + 3 * |Active(q)| <= 4 * |p.pending| + 3 * |Active(p)|
    decreases |p.pending|
  {
    if !p.cancelling && |p.running| < cfg.concurrency {
      var at := FirstEligible(cfg, p.pending, p.serialBusy, 0);
      if at < |p.pending| {
        var q := Start(cfg, p, at);
        StartKeeps(cfg, p, at);
        PendingOutside(cfg, p, at);
        assert Active(q) == Active(p) + {p.pending[at]};
        FillMeasure(cfg, q);
      }
    }
  }

  lemma RoundMeasure(cfg: Config, p: Pool)
    requires Valid(cfg, p)
    ensures Measure(Round(cfg, p)) + (if Won(p) then 1 else 0) <= Measure(p)
  {
    FillKeeps(cfg, p);
    FillMeasure(cfg, p);
    var q := Round(cfg, p);
    assert !Won(q);
    assert Active(Sleep(Fill(cfg, p))) == Active(Fill(cfg, p)) && Active(p.(control := Returned)) == Active(p);
  }

  lemma FinishMeasure(cfg: Config, p: Pool, job: nat)
    requires Enabled(p, Finish(job))
    ensures Measure(Step(cfg, p, Finish(job))) < Measure(p)
  {
    var q := Step(cfg, p, Finish(job));
    assert Active(q) == Active(p) - {job};
    assert Won(q) == Won(p);
  }

  lemma DropMeasure(cfg: Config, p: Pool, job: nat)
    requires Bounded(cfg, p) && Enabled(p, Drop(job))
    ensures Measure(Step(cfg, p, Drop(job))) < Measure(p)
  {
    assert Active(Step(cfg, p, Drop(job))) == Active(p);
  }

  lemma CancelMeasure(cfg: Config, p: Pool)
    requires Enabled(p, Cancel)
    ensures Measure(Step(cfg, p, Cancel)) < Measure(p)
  {
    assert Active(Step(cfg, p, Cancel)) == Active(p);
  }

  lemma StepMeasure(cfg: Config, p: Pool, e: Event)
    requires Valid(cfg, p) && Enabled(p, e)
    ensures Measure(Step(cfg, p, e)) < Measure(p)
  {
    match e
    case Wake => RoundMeasure(cfg, p);
    case Cancel => CancelMeasure(cfg, p);
    case Finish(job) => FinishMeasure(cfg, p, job);
    case Drop(job) => DropMeasure(cfg, p, job);
  }

  /** The pool ends: no run is longer than four events a task and one for a cancellation. */
  lemma {:induction false} RunEnds(cfg: Config, cancelled: bool, es: seq<Event>)
    requires Run(cfg, cancelled, es).Some? && cfg.concurrency > 0
    ensures |es| + Measure(Run(cfg, cancelled, es).value) <= 4 * |cfg.serial| + 1
    decreases |es|
  {
    if es == [] {
      RoundMeasure(cfg, Idle(cfg, cancelled));
    } else {
      var p := Run(cfg, cancelled, es[..|es| - 1]).value;
      RunEnds(cfg, cancelled, es[..|es| - 1]);
      RunKeeps(cfg, cancelled, es[..|es| - 1]);
      StepMeasure(cfg, p, es[|es| - 1]);
    }
  }

  lemma CancelledStep(cfg: Config, p: Pool, e: Event)
    requires p.cancelling && Enabled(p, e) && p.finished <= p.running
    ensures var q := Step(cfg, p, e); q.cancelling && q.pending == p.pending && Active(q) <= Active(p)
  {
    if e.Wake? {
      assert Fill(cfg, p) == p;
    }
  }

  /** Once cancelled, nothing more is started, and what was under way still ends up in the results. */
  lemma {:induction false} CancelFreezes(cfg: Config, cancelled: bool, es: seq<Event>, more: seq<Event>)
    requires Run(cfg, cancelled, es).Some? && Run(cfg, cancelled, es).value.cancelling
    requires Run(cfg, cancelled, es + more).Some? && cfg.concurrency > 0
    ensures var p, q := Run(cfg, cancelled, es).value, Run(cfg, cancelled, es + more).value;
      && q.cancelling && q.pending == p.pending && Active(q) <= Active(p)
      && multiset(q.results) + multiset(Active(q)) == multiset(p.results) + multiset(Active(p))
    decreases |more|
  {
    RunKeeps(cfg, cancelled, es);
    RunKeeps(cfg, cancelled, es + more);
    if more == [] {
      assert es + more == es;
    } else {
      var init := more[..|more| - 1];
      assert (es + more)[..|es + more| - 1] == es + init;
      CancelFreezes(cfg, cancelled, es, init);
      RunKeeps(cfg, cancelled, es + init);
      CancelledStep(cfg, Run(cfg, cancelled, es + init).value, more[|more| - 1]);
    }
    SamePending(cfg, Run(cfg, cancelled, es).value, Run(cfg, cancelled, es + more).value);
  }

  lemma SamePending(cfg: Config, p: Pool, q: Pool)
    requires Conserved(cfg, p) && Conserved(cfg, q) && p.pending == q.pending
    ensures multiset(q.results) + multiset(Active(q)) == multiset(p.results) + multiset(Active(p))
  {
    var rest := multiset(Tasks(cfg)) - multiset(p.pending);
    assert multiset(q.results) + multiset(Active(q)) == rest == multiset(p.results) + multiset(Active(p));
  }
}
