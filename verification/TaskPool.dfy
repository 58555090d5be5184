/** `runPool` in scripts/ci/run.ts as an object whose variables change in place, proved against module Pool. */
module TaskPool {
  import opened Wrappers
  import opened P = Pool

  lemma RoundLeaves(cfg: Config, p: P.Pool)
    requires P.Valid(cfg, p)
    ensures Round(cfg, p).results == p.results
  {
    FillKeeps(cfg, p);
  }

  lemma RunSettled(cfg: Config, cancelled: bool, es: seq<Event>)
    requires cfg.concurrency > 0 && Run(cfg, cancelled, es).Some?
    ensures var p := Run(cfg, cancelled, es).value;
      && !p.control.Spinning?
      && (p.control.Returned? && !p.cancelling ==> multiset(p.results) == multiset(Tasks(cfg)))
  {
    RunKeeps(cfg, cancelled, es);
    if Run(cfg, cancelled, es).value.control.Returned? { ReturnsEverything(cfg, cancelled, es); }
  }

  class TaskPool {
    const cfg: Config
    const wasCancelled: bool

    var pending: seq<nat>
    var running: set<nat>
    var finished: set<nat>
    var serialBusy: bool
    var results: seq<nat>
    var cancelling: bool
    var control: Control
    ghost var history: seq<Event>

    function State(): P.Pool
      reads this
    {
      P.Pool(pending, running, finished, serialBusy, results, cancelling, control)
    }

    /** The variables are what the events so far make of them. */
    ghost predicate Valid()
      reads this
    {
      cfg.concurrency > 0 && Run(cfg, wasCancelled, history) == Some(State())
    }

    /** Called with the tasks; returns at the first sleep, or for good. */
    constructor (cfg: Config, cancelled: bool)
      requires cfg.concurrency > 0
      ensures Valid() && history == [] && this.cfg == cfg && wasCancelled == cancelled
    {
      this.cfg, wasCancelled := cfg, cancelled;
      pending, running, finished, results := Tasks(cfg), {}, {}, [];
      serialBusy, cancelling, control, history := false, cancelled, Spinning, [];
      new;
      GoRound();
    }

    /** `findIndex` over the waiting tasks: the first that may start, or -1. */
    method FindIndex() returns (index: int)
      ensures -1 <= index < |pending|
      ensures index >= 0 ==> Eligible(cfg, serialBusy, pending[index])
      ensures forall i :: 0 <= i < (if index < 0 then |pending| else index) ==> !Eligible(cfg, serialBusy, pending[i])
    {
      index := 0;
      while index < |pending|
        invariant 0 <= index <= |pending|
        invariant forall i :: 0 <= i < index ==> !Eligible(cfg, serialBusy, pending[i])
      {
        if Eligible(cfg, serialBusy, pending[index]) { return; }
        index := index + 1;
      }
      index := -1;
    }

    /** The inner loop. */
    method StartWhatMay()
      modifies `pending, `running, `serialBusy
      ensures State() == Fill(cfg, old(State()))
    {
      while !cancelling && |running| < cfg.concurrency
        invariant Fill(cfg, State()) == Fill(cfg, old(State()))
        decreases |pending|
      {
        var index := FindIndex();
        ghost var at := FirstEligible(cfg, pending, serialBusy, 0);
        if index < 0 {
          assert at == |pending|;
          break;
        }
        assert at == index;
        ghost var before := State();
        var job := pending[index];
        pending := pending[..index] + pending[index + 1..];
        if IsSerial(cfg, job) { serialBusy := true; }
        running := running + {job};
        assert State() == Start(cfg, before, index);
      }
    }

    /** One round of the outer loop: return, or fill the slots and wait for the first of the running promises. */
    method GoRound()
      modifies `pending, `running, `serialBusy, `control
      ensures State() == Round(cfg, old(State()))
    {
      if (cancelling || pending == []) && running == {} {
        control := Returned;
        return;
      }
      StartWhatMay();
      control := if running == {} then Spinning else Asleep(running);
    }

    ghost method Note(e: Event, before: P.Pool)
      requires cfg.concurrency > 0 && Run(cfg, wasCancelled, history) == Some(before)
      requires Enabled(before, e) && State() == Step(cfg, before, e)
      modifies `history
      ensures Valid() && history == old(history) + [e]
    {
      history := history + [e];
      assert history[..|history| - 1] == old(history);
    }

    /** A task's callback: the class is free again and the result recorded. */
    method TaskEnds(job: nat)
      requires Valid() && job in running && job !in finished
      modifies this
      ensures Valid() && history == old(history) + [Finish(job)]
      ensures results == old(results) + [job] && pending == old(pending) && running == old(running)
      ensures serialBusy == (old(serialBusy) && !IsSerial(cfg, job))
    {
      ghost var before := State();
      if IsSerial(cfg, job) { serialBusy := false; }
      results := results + [job];
      finished := finished + {job};
      Note(Finish(job), before);
    }

    /** `finally`: the promise leaves the running set. */
    method PromiseSettles(job: nat)
      requires Valid() && job in finished
      modifies this
      ensures Valid() && history == old(history) + [Drop(job)]
      ensures running == old(running) - {job} && results == old(results) && pending == old(pending)
    {
      ghost var before := State();
      running := running - {job};
      finished := finished - {job};
      Note(Drop(job), before);
    }

    /** The race is over and the loop goes round. */
    method RaceEnds()
      requires Valid() && Won(State())
      modifies this
      ensures Valid() && history == old(history) + [Wake]
      ensures !control.Spinning? && results == old(results)
      ensures control.Returned? && !cancelling ==> multiset(results) == multiset(Tasks(cfg))
    {
      ghost var before := State();
      RunKeeps(cfg, wasCancelled, history);
      GoRound();
      RoundLeaves(cfg, before);
      Note(Wake, before);
      RunSettled(cfg, wasCancelled, history);
    }

    /** A signal asks the run to stop: nothing more is started. */
    method AskToStop()
      requires Valid() && !cancelling && !control.Returned?
      modifies this
      ensures Valid() && history == old(history) + [Cancel]
      ensures cancelling && pending == old(pending) && running == old(running) && results == old(results)
    {
      ghost var before := State();
      cancelling := true;
      Note(Cancel, before);
    }
  }
}
