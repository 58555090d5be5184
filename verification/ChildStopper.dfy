/**
 * `stopCaptureChild`, `trackCaptureChildren` and `rememberCaptureChild` (scripts/adapters/dsh-capture-child.ts) over
 * effects whose answers are arbitrary, proved against the protocol of module Child.
 */
module ChildStopper {
  import opened Wrappers
  import opened Child

  /** The effects: any answer from the process table, and a clock that does not go back and that each sleep advances. */
  class Effects {
    var clock: int
    ghost var log: seq<Action>

    constructor ()
      ensures log == []
    {
      clock, log := 0, [];
    }

    method Read(pid: int, isFresh: bool) returns (live: Live)
      modifies this
      ensures log == old(log) + [Look(pid, isFresh, live)] && clock == old(clock)
    {
      live := *;
      log := log + [Look(pid, isFresh, live)];
    }

    method Send(pid: int, signal: Signal)
      modifies this
      ensures log == old(log) + [Signalled(pid, signal)] && clock == old(clock)
    {
      log := log + [Signalled(pid, signal)];
    }

    method Now() returns (time: int)
      modifies this
      ensures log == old(log) + [Clock(time)] && clock == time >= old(clock)
    {
      time :| time >= clock;
      clock := time;
      log := log + [Clock(time)];
    }

    method Sleep(ms: nat)
      requires ms > 0
      modifies this
      ensures log == old(log) + [Slept(ms)] && clock > old(clock)
    {
      var later :| later > clock;
      clock := later;
      log := log + [Slept(ms)];
    }
  }

  lemma ReplayMore(owned: Identity, graceMs: int, log: seq<Action>, action: Action)
    requires Replay(owned, graceMs, log).Some?
    ensures Replay(owned, graceMs, log + [action]) == Advance(owned, graceMs, Replay(owned, graceMs, log).value, action)
  {
    assert (log + [action])[..|log + [action]| - 1] == log;
  }

  /** The stage one round of polling leads to. */
  lemma PollStage(owned: Identity, graceMs: int, log: seq<Action>, signal: Signal, deadline: int, live: Live)
    requires Replay(owned, graceMs, log) == Some(Polling(signal, deadline))
    ensures var read := log + [Look(owned.pid, false, live)];
      Replay(owned, graceMs, read) == Some(
        match Inspect(owned, live)
        case Owned => Sleeping(signal, deadline)
        case Absent => Finished(Stopped(signal == Kill))
        case Unknown => Finished(Preserved(UnknownState))
        case Changed => Finished(Preserved(IdentityChanged)))
  {
    ReplayMore(owned, graceMs, log, Look(owned.pid, false, live));
  }

  lemma WaitStage(owned: Identity, graceMs: int, log: seq<Action>, signal: Signal, deadline: int, time: int)
    requires Replay(owned, graceMs, log) == Some(Waiting(signal, deadline))
    ensures Replay(owned, graceMs, log + [Clock(time)]) == Some(
      if time < deadline then Polling(signal, deadline)
      else if signal == Term then Reproving else Finished(Preserved(StillRunning)))
  {
    ReplayMore(owned, graceMs, log, Clock(time));
  }

  lemma SleepStage(owned: Identity, graceMs: int, log: seq<Action>, signal: Signal, deadline: int)
    requires Replay(owned, graceMs, log) == Some(Sleeping(signal, deadline))
    ensures Replay(owned, graceMs, log + [Slept(POLL_MS)]) == Some(Waiting(signal, deadline))
  {
    ReplayMore(owned, graceMs, log, Slept(POLL_MS));
  }

  lemma TimeStage(owned: Identity, graceMs: int, log: seq<Action>, signal: Signal, time: int)
    requires Replay(owned, graceMs, log) == Some(Timing(signal))
    ensures Replay(owned, graceMs, log + [Clock(time)]) == Some(Waiting(signal, time + Wait(graceMs, signal)))
  {
    ReplayMore(owned, graceMs, log, Clock(time));
  }

  /** The wait after a signal: poll until the deadline, the owned process gone, or doubt about it. */
  method Poll(owned: Identity, effects: Effects, graceMs: int, signal: Signal) returns (stop: Option<Stop>)
    requires Replay(owned, graceMs, effects.log) == Some(Timing(signal))
    modifies effects
    ensures old(effects.log) <= effects.log
    ensures Replay(owned, graceMs, effects.log) == Some(
      match stop
      case Some(end) => Finished(end)
      case None => if signal == Term then Reproving else Finished(Preserved(StillRunning)))
  {
    var start := effects.Now();
    TimeStage(owned, graceMs, old(effects.log), signal, start);
    var deadline := start + Wait(graceMs, signal);
    while true
      invariant old(effects.log) <= effects.log
      invariant Replay(owned, graceMs, effects.log) == Some(Waiting(signal, deadline))
      decreases deadline - effects.clock
    {
      ghost var log := effects.log;
      var now := effects.Now();
      WaitStage(owned, graceMs, log, signal, deadline, now);
      if now >= deadline { return None; }
      log := effects.log;
      var live := effects.Read(owned.pid, false);
      PollStage(owned, graceMs, log, signal, deadline, live);
      match Inspect(owned, live) {
        case Absent => return Some(Stopped(signal == Kill));
        case Unknown => return Some(Preserved(UnknownState));
        case Changed => return Some(Preserved(IdentityChanged));
        case Owned =>
      }
      log := effects.log;
      effects.Sleep(POLL_MS);
      SleepStage(owned, graceMs, log, signal, deadline);
    }
  }

  /** Read afresh, and send the signal only to the owned process; otherwise the stop this read brings about. */
  method ProveAndSend(owned: Identity, effects: Effects, graceMs: int, signal: Signal) returns (stop: Option<Stop>)
    requires Replay(owned, graceMs, effects.log) == Some(if signal == Term then Starting else Reproving)
    modifies effects
    ensures old(effects.log) <= effects.log
    ensures Replay(owned, graceMs, effects.log) == Some(if stop.Some? then Finished(stop.value) else Timing(signal))
  {
    var live := effects.Read(owned.pid, true);
    ReplayMore(owned, graceMs, old(effects.log), Look(owned.pid, true, live));
    match Inspect(owned, live) {
      case Absent => return Some(if signal == Term then AlreadyGone else Stopped(false));
      case Unknown => return Some(Preserved(UnknownState));
      case Changed => return Some(Preserved(IdentityChanged));
      case Owned =>
    }
    ghost var log := effects.log;
    effects.Send(owned.pid, signal);
    ReplayMore(owned, graceMs, log, Signalled(owned.pid, signal));
    return None;
  }

  /** The whole stop. It ends, what it did is the protocol's, and the stop it returns is what the log tells. */
  method StopCaptureChild(owned: Identity, effects: Effects, graceMs: int) returns (stop: Stop)
    requires effects.log == []
    modifies effects
    ensures Replay(owned, graceMs, effects.log) == Some(Finished(stop)) && ToldBy(owned, effects.log, stop)
  {
    var ended := ProveAndSend(owned, effects, graceMs, Term);
    if ended.None? { ended := Poll(owned, effects, graceMs, Term); }
    if ended.None? { ended := ProveAndSend(owned, effects, graceMs, Kill); }
    if ended.None? { ended := Poll(owned, effects, graceMs, Kill); }
    stop := if ended.Some? then ended.value else Preserved(StillRunning);
    ResultTells(owned, graceMs, effects.log);
  }

  /** `rememberCaptureChild`: the identity a fresh read proves, and `None` where it throws. */
  method Remember(pid: int, effects: Effects) returns (identity: Option<Identity>)
    modifies effects
    ensures |effects.log| == |old(effects.log)| + 1 && old(effects.log) <= effects.log
    ensures var last := effects.log[|old(effects.log)|];
      && last.Look? && last.isFresh && last.pid == pid
      && identity == if last.live.Running? then Some(last.live.identity) else None
  {
    var live := effects.Read(pid, true);
    identity := if live.Running? then Some(live.identity) else None;
  }

  // ---------------------------------------------------------------- which children are owned

  /** What a capture sees of its children: a launch, or a read passed through. */
  datatype Sight = Launched(pid: int) | ReadBack(pid: int, isFresh: bool, live: Live)

  predicate Proof(sight: Sight, pid: int) {
    sight.ReadBack? && sight.pid == pid && sight.isFresh && sight.live.Running?
  }

  predicate WasLaunched(sights: seq<Sight>, pid: int) {
    exists i :: 0 <= i < |sights| && sights[i] == Launched(pid)
  }

  /** The identity of the first fresh read that shows a process running under this id after it was launched. */
  function FirstProof(sights: seq<Sight>, pid: int): Option<Identity> {
    if sights == [] then None
    else
      var before, last := FirstProof(sights[..|sights| - 1], pid), sights[|sights| - 1];
      if before.Some? then before
      else if WasLaunched(sights[..|sights| - 1], pid) && Proof(last, pid) then Some(last.live.identity) else None
  }

  /** A proof once taken stays: nothing seen later replaces it, not even another launch under the same id. */
  lemma {:induction false} FirstProofStays(sights: seq<Sight>, more: seq<Sight>, pid: int)
    requires FirstProof(sights, pid).Some?
    ensures FirstProof(sights + more, pid) == FirstProof(sights, pid)
    decreases |more|
  {
    if more == [] {
      assert sights + more == sights;
    } else {
      assert (sights + more)[..|sights + more| - 1] == sights + more[..|more| - 1];
      FirstProofStays(sights, more[..|more| - 1], pid);
    }
  }

  /** And it is a proof: a fresh running read, after the launch, of an id without one before. */
  lemma {:induction false} FirstProofIs(sights: seq<Sight>, pid: int) returns (i: nat)
    requires FirstProof(sights, pid).Some?
    ensures i < |sights| && sights[i] == ReadBack(pid, true, Running(FirstProof(sights, pid).value))
    ensures WasLaunched(sights[..i], pid) && FirstProof(sights[..i], pid).None?
  {
    var init := sights[..|sights| - 1];
    if FirstProof(init, pid).Some? {
      i := FirstProofIs(init, pid);
      assert init[..i] == sights[..i];
    } else {
      i := |sights| - 1;
    }
  }

  /** The wrappers around `spawn` and `liveProcess`, and the set and map they fill. */
  class Tracker {
    var launched: set<int>
    var identities: map<int, Identity>
    ghost var sights: seq<Sight>

    ghost predicate Valid()
      reads this
    {
      && (forall pid :: pid in launched <==> WasLaunched(sights, pid))
      && (forall pid :: pid in identities <==> FirstProof(sights, pid).Some?)
      && (forall pid :: pid in identities ==> identities[pid] == FirstProof(sights, pid).value)
    }

    constructor ()
      ensures Valid() && sights == []
    {
      launched, identities, sights := {}, map[], [];
    }

    ghost method Saw(sight: Sight)
      modifies `sights
      ensures sights == old(sights) + [sight] && sights[..|sights| - 1] == old(sights)
      ensures forall pid :: WasLaunched(sights, pid) <==> WasLaunched(old(sights), pid) || sight == Launched(pid)
    {
      sights := sights + [sight];
      assert forall i :: 0 <= i < |old(sights)| ==> sights[i] == old(sights)[i];
      assert sights[|old(sights)|] == sight;
    }

    method Spawned(pid: int)
      requires Valid()
      modifies this
      ensures Valid() && sights == old(sights) + [Launched(pid)]
      ensures launched == old(launched) + {pid} && identities == old(identities)
    {
      launched := launched + {pid};
      Saw(Launched(pid));
    }

    /** Pass a read through, taking the first fresh proof of a launched child. */
    method LiveProcess(pid: int, isFresh: bool, live: Live)
      requires Valid()
      modifies this
      ensures Valid() && sights == old(sights) + [ReadBack(pid, isFresh, live)] && launched == old(launched)
      ensures forall other :: other in old(identities) ==>
        other in identities && identities[other] == old(identities)[other]
    {
      if pid in launched && pid !in identities && isFresh && live.Running? {
        identities := identities[pid := live.identity];
      }
      Saw(ReadBack(pid, isFresh, live));
    }
  }
}
