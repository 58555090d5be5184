/**
 * `runPromptTurn` in its own form: an object whose handlers update its fields (scripts/adapters/dsh-capture-turn.ts).
 * Every handler is proved to do exactly what the state machine of module Turn does, so what module TurnReport proves of
 * runs holds of this object.
 */
module PromptTurn {
  import opened Wrappers
  import E = Evidence
  import opened T = Turn
  import R = TurnRuns

  class PromptTurn {
    const cfg: Config
    var frames: seq<Captured>
    var evidence: E.PromptEvidence
    var clientId: Option<string>
    var baseline: bool
    var taken: set<string>
    var queuedApprovals: seq<string>
    var replacedFollow: bool
    var answers: seq<AnswerRecord>
    var airborne: set<Op>
    var landed: set<Op>
    var idles: nat
    var promptSent: bool
    var promptState: PromptState
    var promptDetail: Option<PromptDetail>
    var sent: seq<Sent>
    var ending: Ending
    var result: Option<TurnResult>
    /** The events handled so far. */
    ghost var history: seq<Event>

    ghost function ViewOf(): View
      reads this
    {
      View(frames, evidence, clientId, baseline, taken, queuedApprovals, replacedFollow)
    }

    ghost function WorkOf(): Work
      reads this
    {
      Work(answers, airborne, landed, idles, promptSent, promptState, promptDetail, sent)
    }

    ghost function State(): Turn
      reads this
    {
      T.Turn(ViewOf(), WorkOf(), ending, result)
    }

    /** The fields are what the handled events lead to. */
    ghost predicate Valid()
      reads this
    {
      Run(cfg, history) == Some(State())
    }

    constructor (cfg: Config)
      ensures Valid() && history == [] && this.cfg == cfg
    {
      this.cfg := cfg;
      frames, evidence, clientId, baseline := [], E.EMPTY, None, false;
      taken, queuedApprovals, replacedFollow := {}, [], false;
      answers, airborne, landed, idles := [], {}, {}, 0;
      promptSent, promptState, promptDetail, sent := false, NotSent, None, [];
      ending := Ending(Running, None, {}, 0, 0, 0);
      result := None;
      history := [];
    }

    /** Take on an answer, recording the attempt before the request leaves. */
    method LaunchAnswer(eventId: string)
      modifies this`answers, this`airborne, this`landed, this`idles, this`sent
      ensures State() == T.LaunchAnswer(cfg, old(State()), eventId)
    {
      if ending.phase.Running? && clientId.Some? {
        var outcome := OutcomeOf(cfg.approval);
        airborne := airborne + {AnswerOp(|answers|)};
        answers := answers + [AnswerRecord(eventId, outcome, Attempted, None)];
        sent := sent + [AnswerPost(|answers|, clientId.value, eventId, outcome)];
      } else {
        landed := landed + {Idle(idles)};
        idles := idles + 1;
      }
    }

    method SendPrompt()
      modifies this`promptSent, this`promptState, this`sent, this`airborne
      ensures State() == T.SendPrompt(old(State()))
    {
      if !ending.phase.Running? || promptSent || clientId.None? || !baseline {
        return;
      }
      promptSent := true;
      promptState := Pending;
      sent := sent + [PromptPost];
      airborne := airborne + {PromptOp};
    }

    method Stop(reason: TurnStop)
      modifies this`ending
      ensures State() == T.Stop(old(State()), reason)
    {
      if !ending.phase.Running? {
        return;
      }
      ending := ending.(stoppedBy := Some(reason), phase := Settling,
                        awaited := airborne + landed, stoppedAt := ending.now);
    }

    /** Answer, in order, what was queued before the client id was known. */
    method AnswerQueued()
      modifies this`queuedApprovals, this`answers, this`airborne, this`landed, this`idles, this`sent
      ensures State() == T.LaunchAll(cfg, old(State()).(view := old(ViewOf()).(queued := [])), old(queuedApprovals))
    {
      var queue := queuedApprovals;
      queuedApprovals := [];
      ghost var before := State();
      var i := 0;
      while i < |queue|
        invariant 0 <= i <= |queue|
        invariant State() == T.LaunchAll(cfg, before, queue[..i])
      {
        assert queue[..i + 1][..i] == queue[..i];
        LaunchAnswer(queue[i]);
        i := i + 1;
      }
      assert queue[..i] == queue;
    }

    method Keep(frame: Frame)
      modifies this`frames, this`evidence
      ensures State() == T.Keep(cfg, old(State()), frame)
    {
      if |frames| < cfg.maxFrames {
        frames := frames + [frame.captured];
      }
      evidence := E.Apply(evidence, frame.said);
    }

    method Replace(frame: Frame)
      modifies this`replacedFollow, this`sent
      ensures State() == T.Replace(cfg, old(State()), frame)
    {
      if cfg.replaceFollow && !replacedFollow && frame.isTextDelta {
        replacedFollow := true;
        sent := sent + [FollowReopened];
      }
    }

    method TakeReady(frame: Frame)
      modifies this
      ensures State() == T.Announce(cfg, old(State()), frame) && history == old(history)
    {
      if clientId.None? && frame.announced.Some? {
        clientId := frame.announced;
        AnswerQueued();
        SendPrompt();
      }
    }

    method TakeBaseline(frame: Frame)
      modifies this
      ensures State() == T.TakeBaseline(old(State()), frame) && history == old(history)
    {
      if frame.isBaseline && !baseline {
        baseline := true;
        SendPrompt();
      }
    }

    method TakeApproval(frame: Frame)
      modifies this
      ensures State() == T.Raise(cfg, old(State()), frame) && history == old(history)
    {
      if frame.raised.Some? && frame.raised.value !in taken {
        taken := taken + {frame.raised.value};
        if clientId.None? {
          queuedApprovals := queuedApprovals + [frame.raised.value];
        } else {
          LaunchAnswer(frame.raised.value);
        }
      }
    }

    /** One frame off the socket. */
    method FoldFrame(frame: Frame)
      modifies this
      ensures State() == T.FoldFrame(cfg, old(State()), frame) && history == old(history)
    {
      if ending.phase.Done? {
        return;
      }
      Keep(frame);
      Replace(frame);
      TakeReady(frame);
      TakeBaseline(frame);
      TakeApproval(frame);
      if evidence.turnEnded.Some? {
        Stop(TurnEnded);
      } else if evidence.streamEnded.Some? {
        Stop(StreamEnded);
      }
    }

    method CloseOpenAnswers()
      modifies this`answers
      ensures answers == CloseAnswers(old(answers))
    {
      var i := 0;
      while i < |answers|
        invariant 0 <= i <= |answers| == |old(answers)|
        invariant forall k :: 0 <= k < i ==> answers[k] == CloseAnswer(old(answers)[k])
        invariant forall k :: i <= k < |answers| ==> answers[k] == old(answers)[k]
      {
        if answers[i].state.Attempted? {
          answers := answers[i := answers[i].(state := Failed(NoReceipt))];
        }
        i := i + 1;
      }
    }

    /** Close the answers and the prompt that are still waiting for a receipt. */
    method CloseOpen()
      modifies this`answers, this`promptState, this`promptDetail
      ensures WorkOf() == T.CloseOpen(old(WorkOf()))
    {
      CloseOpenAnswers();
      if promptState.Pending? {
        promptState := PromptFailed;
        promptDetail := Some(NoAcceptance);
      }
    }

    /** Write the report. Nothing changes it afterwards. */
    method Freeze()
      modifies this
      ensures State() == T.FreezeNow(cfg, old(State())) && history == old(history)
    {
      if ending.phase.Done? {
        return;
      }
      ending := ending.(phase := Done, frozenAt := ending.now);
      CloseOpen();
      result := Some(TurnResult(evidence, answers, Take(cfg.maxFrames, frames), promptSent, promptState, promptDetail,
                                ending.stoppedBy, airborne + landed == {}));
    }

    method TakeReply(receipt: PromptReceipt)
      modifies this`evidence, this`promptState, this`promptDetail
      ensures State() == T.TakeReply(old(State()), receipt)
    {
      if !receipt.NoReply? {
        evidence := evidence.(promptAccepted := receipt.Taken?);
      }
      if receipt.Taken? {
        promptState := Accepted;
      } else {
        promptState := PromptFailed;
        promptDetail := DetailOf(receipt);
      }
    }

    /** The reply to the prompt, or the error its POST threw. */
    method LandPrompt(receipt: PromptReceipt)
      modifies this
      ensures State() == T.LandPrompt(old(State()), receipt) && history == old(history)
    {
      TakeReply(receipt);
      if !receipt.Taken? {
        Stop(PromptRefused);
      }
      airborne := airborne - {PromptOp};
      landed := landed + {PromptOp};
    }

    method LandAnswer(index: nat, receipt: AnswerReceipt)
      requires index < |answers|
      modifies this
      ensures State() == T.LandAnswer(old(State()), index, receipt) && history == old(history)
    {
      answers := answers[index := SettleAnswer(answers[index], receipt)];
      airborne := airborne - {AnswerOp(index)};
      landed := landed + {AnswerOp(index)};
    }

    method Dispatch(e: Event)
      requires Enabled(cfg, State(), e)
      modifies this
      ensures State() == Step(cfg, old(State()), e) && history == old(history)
    {
      match e {
        case Message(frame) => FoldFrame(frame);
        case PromptReply(reply) => LandPrompt(reply);
        case AnswerReply(index, receipt) => LandAnswer(index, receipt);
        case Forget(op) => landed := landed - {op};
        case SocketError => Stop(SocketFailed);
        case Deadline => Stop(DeadlinePassed);
        case Freeze => Freeze();
        case Tick(ms) => ending := ending.(now := ending.now + ms);
      }
    }

    /** Handle the next event the environment delivers: the handled events always lead to these fields. */
    method Handle(e: Event)
      requires Valid() && Enabled(cfg, State(), e)
      modifies this
      ensures Valid() && history == old(history) + [e]
      ensures old(result).Some? ==> result == old(result)
    {
      ghost var before := State();
      Dispatch(e);
      HandledMore(cfg, history, before, e);
      history := history + [e];
    }
  }

  lemma HandledMore(cfg: Config, history: seq<Event>, t: Turn, e: Event)
    requires Run(cfg, history) == Some(t) && Enabled(cfg, t, e)
    ensures Run(cfg, history + [e]) == Some(Step(cfg, t, e))
    ensures t.result.Some? ==> Step(cfg, t, e).result == t.result
  {
    R.RunKeepsInv(cfg, history);
    R.StepKeepsInv(cfg, history, t, e);
    assert (history + [e])[..|history + [e]| - 1] == history;
  }
}
