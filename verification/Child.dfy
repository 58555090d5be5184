/**
 * Stopping a captured child process (`stopCaptureChild` in scripts/adapters/dsh-capture-child.ts) as a protocol over
 * its log of process-table reads, signals, clock readings and sleeps. The process table may answer anything, and
 * process ids may be reused at any moment.
 */
module Child {
  import opened Wrappers

  const KILL_WAIT_MS := 3000
  const POLL_MS := 50

  datatype Identity = Identity(pid: int, start: string, boot: string)

  /** What one read of the process table says about a process id. */
  datatype Live = Running(identity: Identity) | Gone | NotKnown

  datatype Signal = Term | Kill

  /** One thing done, with the process id it was done to. */
  datatype Action =
    | Look(pid: int, isFresh: bool, live: Live)
    | Signalled(pid: int, signal: Signal)
    | Clock(time: int)
    | Slept(ms: int)

  datatype Seen = Owned | Absent | Unknown | Changed

  datatype Reason = UnknownState | IdentityChanged | StillRunning

  datatype Stop = Stopped(escalated: bool) | AlreadyGone | Preserved(reason: Reason)

  function Inspect(owned: Identity, live: Live): Seen {
    match live
    case Gone => Absent
    case NotKnown => Unknown
    case Running(identity) => if identity == owned then Owned else Changed
  }

  /** What the code does next. */
  datatype Stage =
    | Starting
    | Signalling(signal: Signal)
    | Timing(signal: Signal)                  // about to read the clock for the deadline of the wait after this signal
    | Waiting(signal: Signal, deadline: int)  // about to compare the clock with it
    | Polling(signal: Signal, deadline: int)
    | Sleeping(signal: Signal, deadline: int)
    | Reproving
    | Finished(stop: Stop)

  /** The end the read brings about, if it does not show the owned process. */
  function Ends(seen: Seen, gone: Stop): Stage
    requires seen != Owned
  {
    match seen
    case Absent => Finished(gone)
    case Unknown => Finished(Preserved(UnknownState))
    case Changed => Finished(Preserved(IdentityChanged))
  }

  /** The wait after a signal: the caller's grace period, or a fixed one. */
  function Wait(graceMs: int, signal: Signal): int { if signal == Term then graceMs else KILL_WAIT_MS }

  /** The stage after an action; none if this is not what the code does at this stage. */
  function Advance(owned: Identity, graceMs: int, stage: Stage, action: Action): Option<Stage> {
    if (action.Look? || action.Signalled?) && action.pid != owned.pid then None
    else
      match (stage, action)
      case (Starting, Look(_, true, live)) =>
        var seen := Inspect(owned, live);
        Some(if seen == Owned then Signalling(Term) else Ends(seen, AlreadyGone))
      case (Signalling(signal), Signalled(_, sent)) => if sent == signal then Some(Timing(signal)) else None
      case (Timing(signal), Clock(time)) => Some(Waiting(signal, time + Wait(graceMs, signal)))
      case (Waiting(signal, deadline), Clock(time)) =>
        if time < deadline then Some(Polling(signal, deadline))
        else if signal == Term then Some(Reproving) else Some(Finished(Preserved(StillRunning)))
      case (Polling(signal, deadline), Look(_, false, live)) =>
        var seen := Inspect(owned, live);
        Some(if seen == Owned then Sleeping(signal, deadline) else Ends(seen, Stopped(signal == Kill)))
      case (Sleeping(signal, deadline), Slept(ms)) => if ms == POLL_MS then Some(Waiting(signal, deadline)) else None
      case (Reproving, Look(_, true, live)) =>
        var seen := Inspect(owned, live);
        Some(if seen == Owned then Signalling(Kill) else Ends(seen, Stopped(false)))
      case _ => None
  }

  /** The stage a log leads to; none if the code would not have written it. */
  function Replay(owned: Identity, graceMs: int, log: seq<Action>): Option<Stage> {
    if log == [] then Some(Starting)
    else
      match Replay(owned, graceMs, log[..|log| - 1])
      case None => None
      case Some(stage) => Advance(owned, graceMs, stage, log[|log| - 1])
  }

  // ---------------------------------------------------------------- what a log says

  /** The signals sent, in order. */
  function Signals(log: seq<Action>): seq<Signal> {
    if log == [] then []
    else Signals(log[..|log| - 1]) + if log[|log| - 1].Signalled? then [log[|log| - 1].signal] else []
  }

  /** What the last read showed. */
  function LastRead(log: seq<Action>): Option<Live> {
    if log == [] then None
    else if log[|log| - 1].Look? then Some(log[|log| - 1].live) else LastRead(log[..|log| - 1])
  }

  /** The first clock reading after the last signal. */
  function SignalTime(log: seq<Action>): Option<int> {
    if log == [] || log[|log| - 1].Signalled? then None
    else
      var before := SignalTime(log[..|log| - 1]);
      if before.Some? then before
      else if log[|log| - 1].Clock? && Signals(log) != [] then Some(log[|log| - 1].time) else None
  }

  /** The latest clock reading. */
  function LastTime(log: seq<Action>): Option<int> {
    if log == [] then None else if log[|log| - 1].Clock? then Some(log[|log| - 1].time) else LastTime(log[..|log| - 1])
  }

  function SentBy(stage: Stage): seq<Signal>
    requires !stage.Finished?
  {
    match stage
    case Starting => []
    case Signalling(signal) => if signal == Term then [] else [Term]
    case Timing(signal) => if signal == Term then [Term] else [Term, Kill]
    case Waiting(signal, _) => if signal == Term then [Term] else [Term, Kill]
    case Polling(signal, _) => if signal == Term then [Term] else [Term, Kill]
    case Sleeping(signal, _) => if signal == Term then [Term] else [Term, Kill]
    case Reproving => [Term]
  }

  /** The result of a log that sent these signals and last read this. */
  predicate Tells(owned: Identity, signals: seq<Signal>, live: Live, stop: Stop) {
    match live
    case Gone => if signals == [] then stop == AlreadyGone else stop == Stopped(Kill in signals)
    case NotKnown => stop == Preserved(UnknownState)
    case Running(identity) =>
      if identity != owned then stop == Preserved(IdentityChanged)
      else stop == Preserved(StillRunning) && signals == [Term, Kill]
  }

  /** Signals and last reading at every stage. */
  ghost predicate Keeps(owned: Identity, log: seq<Action>, stage: Stage) {
    if stage.Finished? then LastRead(log).Some? && Tells(owned, Signals(log), LastRead(log).value, stage.stop)
    else
      && Signals(log) == SentBy(stage)
      && (stage == Starting <==> log == [])
      && (stage != Starting ==> LastRead(log) == Some(Running(owned)))
  }

  lemma {:induction false} ReplayKeeps(owned: Identity, graceMs: int, log: seq<Action>)
    requires Replay(owned, graceMs, log).Some?
    ensures Keeps(owned, log, Replay(owned, graceMs, log).value)
    ensures Signals(log) <= [Term, Kill]
  {
    if log != [] {
      ReplayKeeps(owned, graceMs, log[..|log| - 1]);
    }
  }

  lemma {:induction false} ReplayPrefix(owned: Identity, graceMs: int, log: seq<Action>, n: nat)
    requires Replay(owned, graceMs, log).Some? && n <= |log|
    ensures Replay(owned, graceMs, log[..n]).Some?
  {
    if n < |log| {
      var init := log[..|log| - 1];
      ReplayPrefix(owned, graceMs, init, n);
      assert init[..n] == log[..n];
    } else {
      assert log[..n] == log;
    }
  }

  /** One action of a log, from the stage before it. */
  lemma ActionAt(owned: Identity, graceMs: int, log: seq<Action>, i: nat)
    requires Replay(owned, graceMs, log).Some? && i < |log|
    ensures Replay(owned, graceMs, log[..i]).Some?
    ensures Replay(owned, graceMs, log[..i + 1]) ==
            Advance(owned, graceMs, Replay(owned, graceMs, log[..i]).value, log[i])
    ensures Replay(owned, graceMs, log[..i + 1]).Some?
  {
    ReplayPrefix(owned, graceMs, log, i);
    ReplayPrefix(owned, graceMs, log, i + 1);
    assert log[..i + 1][..i] == log[..i];
  }

  // ---------------------------------------------------------------- safety, against any answers

  /** Every signal goes to the owned process id, directly after a fresh read of it that shows the owned identity. */
  lemma SignalsProved(owned: Identity, graceMs: int, log: seq<Action>, i: nat)
    requires Replay(owned, graceMs, log).Some? && i < |log| && log[i].Signalled?
    ensures i > 0 && log[i].pid == owned.pid && log[i - 1] == Look(owned.pid, true, Running(owned))
  {
    ActionAt(owned, graceMs, log, i);
    if i > 0 {
      ActionAt(owned, graceMs, log, i - 1);
    }
  }

  /** At most one SIGTERM is sent, then at most one SIGKILL, and nothing else. */
  lemma SignalOrder(owned: Identity, graceMs: int, log: seq<Action>)
    requires Replay(owned, graceMs, log).Some?
    ensures Signals(log) == [] || Signals(log) == [Term] || Signals(log) == [Term, Kill]
  {
    ReplayKeeps(owned, graceMs, log);
    var signals := Signals(log);
    if |signals| == 1 {
      assert signals[0] == [Term, Kill][0];
    }
  }

  /** A read that does not show the owned identity is the last thing done: no signal, read or sleep follows it. */
  lemma DoubtEnds(owned: Identity, graceMs: int, log: seq<Action>, i: nat)
    requires Replay(owned, graceMs, log).Some? && i < |log| && log[i].Look? && log[i].live != Running(owned)
    ensures i == |log| - 1 && Replay(owned, graceMs, log).value.Finished?
  {
    ActionAt(owned, graceMs, log, i);
    if i + 1 < |log| {
      ActionAt(owned, graceMs, log, i + 1);
    } else {
      assert log[..i + 1] == log;
    }
  }

  /**
   * The result tells the truth about the log: it is a success exactly when the last read found the process gone,
   * escalated exactly when SIGKILL had been sent by then, and otherwise names what the last read showed.
   */
  predicate ToldBy(owned: Identity, log: seq<Action>, stop: Stop) {
    var live := LastRead(log);
    && live.Some?
    && (stop.Preserved? <==> live != Some(Gone))
    && (stop.AlreadyGone? <==> live == Some(Gone) && Signals(log) == [])
    && (stop == Stopped(true) <==> live == Some(Gone) && Kill in Signals(log))
    && (stop == Preserved(UnknownState) <==> live == Some(NotKnown))
    && (stop == Preserved(IdentityChanged) <==> live.value.Running? && live.value.identity != owned)
    && (stop == Preserved(StillRunning) <==> live == Some(Running(owned)))
    && (stop == Preserved(StillRunning) ==> Signals(log) == [Term, Kill])
  }

  lemma ResultTells(owned: Identity, graceMs: int, log: seq<Action>)
    requires Replay(owned, graceMs, log).Some? && Replay(owned, graceMs, log).value.Finished?
    ensures ToldBy(owned, log, Replay(owned, graceMs, log).value.stop)
  {
    ReplayKeeps(owned, graceMs, log);
  }

  // ---------------------------------------------------------------- the grace period

  ghost predicate Timed(graceMs: int, log: seq<Action>, stage: Stage) {
    match stage
    case Waiting(signal, deadline) => SignalTime(log).Some? && deadline == SignalTime(log).value + Wait(graceMs, signal)
    case Polling(signal, deadline) => SignalTime(log).Some? && deadline == SignalTime(log).value + Wait(graceMs, signal)
    case Sleeping(signal, deadline) =>
      SignalTime(log).Some? && deadline == SignalTime(log).value + Wait(graceMs, signal)
    case Timing(_) => SignalTime(log).None?
    case Reproving => Elapsed(log, graceMs)
    case Signalling(signal) => signal == Kill ==> Elapsed(log, graceMs)
    case Finished(stop) => stop == Preserved(StillRunning) ==> Elapsed(log, KILL_WAIT_MS)
    case Starting => true
  }

  /** The clock has been seen to pass this long after the last signal. */
  predicate Elapsed(log: seq<Action>, ms: int) {
    SignalTime(log).Some? && LastTime(log).Some? && LastTime(log).value >= SignalTime(log).value + ms
  }

  lemma {:induction false} ReplayTimed(owned: Identity, graceMs: int, log: seq<Action>)
    requires Replay(owned, graceMs, log).Some?
    ensures Timed(graceMs, log, Replay(owned, graceMs, log).value)
  {
    if log != [] {
      ReplayTimed(owned, graceMs, log[..|log| - 1]);
      ReplayKeeps(owned, graceMs, log[..|log| - 1]);
      TimesNext(log);
    }
  }

  lemma TimesNext(log: seq<Action>)
    requires log != []
    ensures var init, last := log[..|log| - 1], log[|log| - 1];
      && (last.Look? || last.Slept? ==> SignalTime(log) == SignalTime(init) && LastTime(log) == LastTime(init))
      && (last.Clock? ==> LastTime(log) == Some(last.time))
      && (last.Clock? && SignalTime(init).Some? ==> SignalTime(log) == SignalTime(init))
      && (last.Clock? && SignalTime(init).None? && Signals(init) != [] ==> SignalTime(log) == Some(last.time))
  {
  }

  /** SIGKILL is sent only after the clock has been seen the whole grace period past its first reading after SIGTERM. */
  lemma GraceGiven(owned: Identity, graceMs: int, log: seq<Action>, i: nat)
    requires Replay(owned, graceMs, log).Some? && i < |log| && log[i].Signalled? && log[i].signal == Kill
    ensures Elapsed(log[..i], graceMs) && Signals(log[..i]) == [Term]
  {
    ActionAt(owned, graceMs, log, i);
    ReplayTimed(owned, graceMs, log[..i]);
    ReplayKeeps(owned, graceMs, log[..i]);
  }

  /** After SIGKILL the process is given up on only three seconds later. */
  lemma KillWaits(owned: Identity, graceMs: int, log: seq<Action>)
    requires Replay(owned, graceMs, log) == Some(Finished(Preserved(StillRunning)))
    ensures Elapsed(log, 3000) && Signals(log) == [Term, Kill]
  {
    ReplayTimed(owned, graceMs, log);
    ReplayKeeps(owned, graceMs, log);
  }

  // ---------------------------------------------------------------- what is done next

  /** How long is waited after the signals sent so far. */
  function PeriodAfter(signals: seq<Signal>, graceMs: int): int { if signals == [Term] then graceMs else 3000 }

  /**
   * What follows an action in a log, in terms of the log before it: a proof is followed by the signal it is for, a
   * signal by the clock twice, a poll that shows the owned process by a sleep of 50 ms and the clock, a clock before
   * the deadline by a poll, and one past it by a fresh read after SIGTERM and by nothing after SIGKILL.
   */
  predicate Follows(owned: Identity, graceMs: int, before: seq<Action>, action: Action, next: Action) {
    match action
    case Look(_, isFresh, _) =>
      if isFresh then next == Signalled(owned.pid, if Signals(before) == [] then Term else Kill) else next == Slept(50)
    case Signalled(_, _) => next.Clock?
    case Slept(_) => next.Clock?
    case Clock(time) =>
      match SignalTime(before)
      case None => next.Clock?
      case Some(start) =>
        next.Look? && next.pid == owned.pid && (next.isFresh <==> time >= start + PeriodAfter(Signals(before), graceMs))
  }

  lemma NextAction(owned: Identity, graceMs: int, log: seq<Action>, i: nat)
    requires Replay(owned, graceMs, log).Some? && i + 1 < |log|
    ensures Follows(owned, graceMs, log[..i], log[i], log[i + 1])
  {
    ActionAt(owned, graceMs, log, i);
    ActionAt(owned, graceMs, log, i + 1);
    ReplayKeeps(owned, graceMs, log[..i]);
    ReplayTimed(owned, graceMs, log[..i]);
  }

  lemma FirstAction(owned: Identity, graceMs: int, log: seq<Action>)
    requires Replay(owned, graceMs, log).Some? && log != []
    ensures log[0].Look? && log[0].isFresh && log[0].pid == owned.pid
  {
    ActionAt(owned, graceMs, log, 0);
  }
}
