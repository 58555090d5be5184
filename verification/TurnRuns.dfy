/**
 * What every run of a capture turn keeps, and what its report says, in terms of the events alone.
 */
module TurnRuns {
  import opened Wrappers
  import opened Json
  import opened Evidence
  import opened Turn
  import opened TurnTrace
  import opened TurnFlights

  // ---------------------------------------------------------------- what every run keeps

  /** The view is what the frames seen amount to. */
  predicate ViewAt(cfg: Config, seen: seq<Frame>, accepted: bool, v: View) {
    && v.frames == Take(cfg.maxFrames, Kept(seen))
    && v.evidence == Fold(EMPTY, Said(seen)).(promptAccepted := accepted)
    && v.clientId == ClientOf(seen)
    && v.baseline == HasBaseline(seen)
    && v.taken == (set id | id in Approvals(seen))
    && v.queued == (if v.clientId.None? then Approvals(seen) else [])
    && v.replacedFollow == Replaced(cfg, seen)
  }

  /** The work is one answer per approval owed, the prompt if it was due, and the replies that came. */
  ghost predicate WorkAt(cfg: Config, es: seq<Event>, w: Work, prompted: bool, owed: seq<string>) {
    && |w.answers| == |owed|
    && (forall i :: 0 <= i < |owed| ==> w.answers[i] == RecordAt(cfg, es, owed[i], i))
    && w.promptSent == prompted
    && w.promptState == PromptStateAt(es, prompted)
    && w.promptDetail == PromptDetailOf(es)
    && (PromptOp in w.airborne <==> prompted && PromptReplyIn(es).None?)
    && (forall i: nat :: AnswerOp(i) in w.airborne <==> i < |owed| && AnswerReplyIn(es, i).None?)
    && (PromptReplyIn(es).Some? ==> prompted)
    && (forall i: nat :: AnswerReplyIn(es, i).Some? ==> i < |owed|)
  }

  /** What was sent: an answer per approval owed, numbered in order, the prompt if due, and at most one reopening. */
  predicate SentAt(cfg: Config, sent: seq<Sent>, client: Option<string>, prompted: bool, owed: seq<string>,
          reopened: bool)
  {
    && |AnswersSent(sent)| == |owed|
    && (|owed| > 0 ==> client.Some?)
    && (forall i :: 0 <= i < |owed| ==>
          AnswersSent(sent)[i] == AnswerPost(i + 1, client.value, owed[i], OutcomeOf(cfg.approval)))
    && PromptsSent(sent) == (if prompted then 1 else 0)
    && FollowsReopened(sent) == (if reopened then 1 else 0)
  }

  predicate EndingAt(cfg: Config, es: seq<Event>, n: Ending) {
    && n.stoppedBy == FirstStop(es)
    && (n.phase.Running? <==> FirstStop(es).None?)
    && (n.phase.Done? <==> Frozen(es))
    && (n.phase.Running? ==> n.now <= cfg.timeoutMs)
    && (!n.phase.Running? ==> n.stoppedAt <= cfg.timeoutMs)
    && (n.stoppedBy == Some(DeadlinePassed) ==> n.stoppedAt == cfg.timeoutMs)
    && (n.phase.Settling? ==> n.now <= n.stoppedAt + cfg.graceMs)
    && (n.phase.Done? ==> n.frozenAt <= n.stoppedAt + cfg.graceMs)
  }

  /** The report, field by field, as a function of the events. */
  ghost predicate ReportAt(cfg: Config, es: seq<Event>, r: TurnResult) {
    var pending := PromptStateAt(es, PromptDue(es)).Pending?;
    && r.evidence == EvidenceOf(es)
    && r.frames == Take(cfg.maxFrames, Kept(Seen(es)))
    && |r.answers| == |Answerable(es)|
    && (forall i :: 0 <= i < |r.answers| ==> r.answers[i] == CloseAnswer(RecordAt(cfg, es, Answerable(es)[i], i)))
    && r.promptSent == PromptDue(es)
    && r.promptState == (if pending then PromptFailed else PromptStateAt(es, PromptDue(es)))
    && r.promptDetail == (if pending then Some(NoAcceptance) else PromptDetailOf(es))
    && r.stoppedBy == FirstStop(es)
    && (r.receiptsSettled <==> Settled(es))
    && (r.receiptsSettled ==> AllReplied(es))
  }

  /** After the stop nothing new is waited for: what is in flight was so at the stop, or was never sent. */
  ghost predicate Awaited(w: Work, n: Ending) {
    n.phase.Settling? ==> w.airborne <= n.awaited && forall op: Op :: op in InFlight(w) ==> op in n.awaited || op.Idle?
  }

  /** Before the report is written, view and work are what the events say. */
  ghost predicate OpenAt(cfg: Config, es: seq<Event>, t: Turn) {
    && ViewAt(cfg, Seen(es), PromptTaken(es), t.view)
    && WorkAt(cfg, es, t.work, PromptDue(es), Answerable(es))
    && (t.ending.phase.Running? ==>
          Seen(es) == Heard(es) && t.view.evidence.turnEnded.None? && t.view.evidence.streamEnded.None?)
    && Awaited(t.work, t.ending)
    && FlightsAt(es, t.work)
    && Load(t.work) == |TakenOn(es)|
  }

  ghost predicate Inv(cfg: Config, es: seq<Event>, t: Turn) {
    && EndingAt(cfg, es, t.ending)
    && SentAt(cfg, t.work.sent, ClientOf(Heard(es)), PromptDue(es), Answerable(es), Replaced(cfg, Seen(es)))
    && (t.result.Some? <==> Frozen(es))
    && (!Frozen(es) ==> OpenAt(cfg, es, t))
    && (Frozen(es) ==>
          && ReportAt(cfg, es, t.result.value)
          && (AllReplied(es) || t.ending.frozenAt >= t.ending.stoppedAt + cfg.graceMs)
          && (Settled(es) || LateOf(es) > 0 || t.ending.frozenAt >= t.ending.stoppedAt + cfg.graceMs))
  }

  // ---------------------------------------------------------------- one event at a time

  /** After the freeze an event changes neither the report, nor the ending, nor what was sent. */
  lemma FrozenStep(cfg: Config, t: Turn, e: Event)
    requires t.ending.phase.Done? && Enabled(cfg, t, e)
    ensures var next := Step(cfg, t, e);
      && next.result == t.result && next.ending == t.ending.(now := next.ending.now)
      && next.work.sent == t.work.sent && next.view.replacedFollow == t.view.replacedFollow
  {
  }

  /** After the freeze an event adds nothing to what the report is about. */
  lemma FrozenMore(es: seq<Event>, e: Event)
    requires Frozen(es) && FirstStop(es).Some?
    ensures var more := es + [e];
      && Frozen(more) && Seen(more) == Seen(es) && Heard(more) == Heard(es) && FirstStop(more) == FirstStop(es)
      && PromptReplyIn(more) == PromptReplyIn(es) && (forall i :: AnswerReplyIn(more, i) == AnswerReplyIn(es, i))
      && (forall op: Op :: Forgotten(more, op) == Forgotten(es, op))
  {
    Snoc(es, e);
    ForgottenSame(es, e);
  }

  lemma ReportKept(cfg: Config, es: seq<Event>, e: Event, r: TurnResult)
    requires Frozen(es) && FirstStop(es).Some? && ReportAt(cfg, es, r)
    ensures ReportAt(cfg, es + [e], r)
  {
    FrozenMore(es, e);
  }

  lemma KeepFrozen(cfg: Config, es: seq<Event>, t: Turn, e: Event)
    requires Inv(cfg, es, t) && Frozen(es) && Enabled(cfg, t, e)
    ensures Inv(cfg, es + [e], Step(cfg, t, e)) && Step(cfg, t, e).result == t.result
  {
    FrozenStep(cfg, t, e);
    FrozenMore(es, e);
    ReportKept(cfg, es, e, t.result.value);
  }

  /** An event that is neither a frame nor the freeze leaves what was seen and heard, and so what is due, as it was. */
  lemma NotFrame(es: seq<Event>, e: Event)
    requires !Frozen(es) && !e.Message? && !e.Freeze?
    ensures var more := es + [e];
      && !Frozen(more) && Seen(more) == Seen(es) && Heard(more) == Heard(es)
      && Answerable(more) == Answerable(es) && PromptDue(more) == PromptDue(es) && TakenOn(more) == TakenOn(es)
      && FirstStop(more) == (if FirstStop(es).Some? then FirstStop(es) else StopCause(e))
  {
    Snoc(es, e);
  }

  lemma NotReply(es: seq<Event>, e: Event)
    requires !e.PromptReply? && !e.AnswerReply?
    ensures var more := es + [e];
      && PromptReplyIn(more) == PromptReplyIn(es) && PromptTaken(more) == PromptTaken(es)
      && forall i :: AnswerReplyIn(more, i) == AnswerReplyIn(es, i)
  {
    Snoc(es, e);
  }

  /**
   * The work depends on the events only through the replies that came, and not on what has already landed or was sent.
   */
  lemma WorkElsewhere(cfg: Config, es: seq<Event>, more: seq<Event>, w: Work, next: Work, prompted: bool,
          owed: seq<string>)
    requires WorkAt(cfg, es, w, prompted, owed)
    requires PromptReplyIn(more) == PromptReplyIn(es) && forall i :: AnswerReplyIn(more, i) == AnswerReplyIn(es, i)
    requires next == w.(landed := next.landed, idles := next.idles, sent := next.sent)
    ensures WorkAt(cfg, more, next, prompted, owed)
  {
    forall i | 0 <= i < |owed|
      ensures RecordAt(cfg, more, owed[i], i) == RecordAt(cfg, es, owed[i], i)
    {
    }
  }

  /** What a turn that has not reported needs to keep. */
  lemma StillOpen(cfg: Config, es: seq<Event>, t: Turn)
    requires EndingAt(cfg, es, t.ending) && !Frozen(es) && t.result.None? && OpenAt(cfg, es, t)
    requires SentAt(cfg, t.work.sent, ClientOf(Heard(es)), PromptDue(es), Answerable(es), t.view.replacedFollow)
    ensures Inv(cfg, es, t)
  {
  }

  lemma QuietStep(cfg: Config, es: seq<Event>, t: Turn, e: Event)
    requires EndingAt(cfg, es, t.ending) && !Frozen(es) && Enabled(cfg, t, e) && (e.Tick? || e.Forget?)
    ensures var next := Step(cfg, t, e);
      && EndingAt(cfg, es + [e], next.ending)
      && next.view == t.view && next.result == t.result
      && next.work == t.work.(landed := next.work.landed)
      && next.ending == t.ending.(now := next.ending.now)
  {
    NotFrame(es, e);
  }

  lemma QuietFlights(es: seq<Event>, t: Turn, cfg: Config, e: Event)
    requires FlightsAt(es, t.work) && Awaited(t.work, t.ending) && !Frozen(es) && Enabled(cfg, t, e)
    requires e.Tick? || e.Forget?
    ensures var next := Step(cfg, t, e);
      FlightsAt(es + [e], next.work) && Awaited(next.work, next.ending) && Load(next.work) == Load(t.work)
  {
    if e.Tick? {
      FlightsElsewhere(es, e, t.work, t.work);
    } else {
      ForgetFlights(es, t.work, e.op);
    }
  }

  /** Clock ticks and forgotten promises. */
  lemma KeepQuiet(cfg: Config, es: seq<Event>, t: Turn, e: Event)
    requires Inv(cfg, es, t) && !Frozen(es) && Enabled(cfg, t, e)
    requires e.Tick? || e.Forget?
    ensures Inv(cfg, es + [e], Step(cfg, t, e))
  {
    var next := Step(cfg, t, e);
    NotFrame(es, e);
    NotReply(es, e);
    QuietStep(cfg, es, t, e);
    WorkElsewhere(cfg, es, es + [e], t.work, next.work, PromptDue(es), Answerable(es));
    QuietFlights(es, t, cfg, e);
    StillOpen(cfg, es + [e], next);
  }

  lemma StopStep(cfg: Config, es: seq<Event>, t: Turn, e: Event)
    requires EndingAt(cfg, es, t.ending) && !Frozen(es) && Enabled(cfg, t, e) && (e.SocketError? || e.Deadline?)
    ensures var next := Step(cfg, t, e);
      && EndingAt(cfg, es + [e], next.ending) && next == t.(ending := next.ending)
      && next.ending.phase.Settling?
      && (t.ending.phase.Settling? ==> next.ending == t.ending)
      && (t.ending.phase.Running? ==> next.ending.awaited == InFlight(t.work))
  {
    NotFrame(es, e);
  }

  /** The two ways of stopping without a frame or a reply. */
  lemma KeepStop(cfg: Config, es: seq<Event>, t: Turn, e: Event)
    requires Inv(cfg, es, t) && !Frozen(es) && Enabled(cfg, t, e)
    requires e.SocketError? || e.Deadline?
    ensures Inv(cfg, es + [e], Step(cfg, t, e))
  {
    NotFrame(es, e);
    NotReply(es, e);
    StopStep(cfg, es, t, e);
    WorkElsewhere(cfg, es, es + [e], t.work, t.work, PromptDue(es), Answerable(es));
    FlightsElsewhere(es, e, t.work, t.work);
    StillOpen(cfg, es + [e], Step(cfg, t, e));
  }

  lemma FreezeStep(cfg: Config, es: seq<Event>, t: Turn)
    requires EndingAt(cfg, es, t.ending) && !Frozen(es) && Enabled(cfg, t, Freeze)
    ensures var next := Step(cfg, t, Freeze);
      && EndingAt(cfg, es + [Freeze], next.ending) && next.view == t.view && next.work == CloseOpen(t.work)
      && next.result == Some(ReportOf(cfg, next))
      && next.ending == t.ending.(phase := Done, frozenAt := t.ending.now)
  {
    Snoc(es, Freeze);
  }

  /** The freeze itself adds nothing to what the events say. */
  lemma FreezeAddsNothing(es: seq<Event>)
    requires !Frozen(es)
    ensures var more := es + [Freeze];
      && Frozen(more) && Seen(more) == Seen(es) && Heard(more) == Heard(es)
      && Answerable(more) == Answerable(es) && PromptDue(more) == PromptDue(es) && FirstStop(more) == FirstStop(es)
      && LateOf(more) == LateOf(es) && (Settled(more) <==> Settled(es))
      && PromptReplyIn(more) == PromptReplyIn(es) && (forall i :: AnswerReplyIn(more, i) == AnswerReplyIn(es, i))
      && (AllReplied(more) <==> AllReplied(es))
  {
    Snoc(es, Freeze);
    ForgottenSame(es, Freeze);
  }

  /** Nothing is in flight exactly when everything taken on was forgotten. */
  lemma SettledExactly(cfg: Config, es: seq<Event>, w: Work)
    requires WorkAt(cfg, es, w, PromptDue(es), Answerable(es)) && FlightsAt(es, w) && Load(w) == |TakenOn(es)|
    ensures InFlight(w) == {} <==> Settled(es)
    ensures InFlight(w) == {} ==> AllReplied(es)
  {
    assert w.idles == LateOf(es);
    if InFlight(w) == {} {
      assert forall op: Op :: Started(w, op) ==> Forgotten(es, op);
      assert PromptDue(es) ==> Started(w, PromptOp);
      assert forall i: nat :: i < |Answerable(es)| ==> Started(w, AnswerOp(i));
      assert forall k: nat :: k < LateOf(es) ==> Started(w, Idle(k));
      assert w.airborne == {};
      NothingAirborne(cfg, es, w);
    }
    if Settled(es) {
      forall op: Op | Started(w, op)
        ensures Forgotten(es, op)
      {
      }
      assert forall op: Op :: op !in InFlight(w);
    }
  }

  /** With no request waiting for its reply, every reply that was due has come. */
  lemma NothingAirborne(cfg: Config, es: seq<Event>, w: Work)
    requires WorkAt(cfg, es, w, PromptDue(es), Answerable(es)) && w.airborne == {}
    ensures AllReplied(es)
  {
    assert PromptOp !in w.airborne;
    forall i: nat | i < |Answerable(es)|
      ensures AnswerReplyIn(es, i).Some?
    {
      assert AnswerOp(i) !in w.airborne;
    }
  }

  lemma FreezeReports(cfg: Config, es: seq<Event>, t: Turn, next: Turn)
    requires OpenAt(cfg, es, t) && !Frozen(es) && next.view == t.view && next.work == CloseOpen(t.work)
    requires t.ending.stoppedBy == FirstStop(es) && next.ending.stoppedBy == t.ending.stoppedBy
    ensures ReportAt(cfg, es + [Freeze], ReportOf(cfg, next))
  {
    var more, due := es + [Freeze], Answerable(es);
    FreezeAddsNothing(es);
    assert InFlight(next.work) == InFlight(t.work);
    forall i | 0 <= i < |due|
      ensures RecordAt(cfg, more, due[i], i) == t.work.answers[i]
    {
    }
    SettledExactly(cfg, es, t.work);
  }

  /** Short of the whole grace period, every request has its reply, and only answers never sent can be in flight. */
  lemma FreezeWaited(cfg: Config, es: seq<Event>, t: Turn)
    requires OpenAt(cfg, es, t) && Enabled(cfg, t, Freeze) && t.ending.now < t.ending.stoppedAt + cfg.graceMs
    ensures AllReplied(es)
    ensures Settled(es) || LateOf(es) > 0
  {
    var w := t.work;
    assert t.ending.awaited !! InFlight(w);
    assert forall op: Op :: op in w.airborne ==> op in t.ending.awaited && op in InFlight(w);
    assert w.airborne == {};
    NothingAirborne(cfg, es, w);
    SettledExactly(cfg, es, w);
    if InFlight(w) != {} {
      var op :| op in InFlight(w);
      assert op.Idle? && Started(w, op);
    }
  }

  lemma KeepFreeze(cfg: Config, es: seq<Event>, t: Turn)
    requires Inv(cfg, es, t) && !Frozen(es) && Enabled(cfg, t, Freeze)
    ensures Inv(cfg, es + [Freeze], Step(cfg, t, Freeze))
  {
    FreezeAddsNothing(es);
    FreezeStep(cfg, es, t);
    FreezeReports(cfg, es, t, Step(cfg, t, Freeze));
    if t.ending.now < t.ending.stoppedAt + cfg.graceMs {
      FreezeWaited(cfg, es, t);
    }
  }

  lemma PromptReplyStep(cfg: Config, es: seq<Event>, t: Turn, reply: PromptReceipt)
    requires EndingAt(cfg, es, t.ending) && !Frozen(es) && Enabled(cfg, t, PromptReply(reply))
    ensures var next := Step(cfg, t, PromptReply(reply));
      && EndingAt(cfg, es + [PromptReply(reply)], next.ending) && next.result == t.result
      && (next.ending.phase.Running? ==> t.ending.phase.Running?)
      && (t.ending.phase.Settling? ==> next.ending == t.ending)
      && (t.ending.phase.Running? && next.ending.phase.Settling? ==> next.ending.awaited == InFlight(t.work))
      && next.view == t.view.(evidence := next.view.evidence)
      && next.view.evidence ==
         (if reply.NoReply? then t.view.evidence else t.view.evidence.(promptAccepted := reply.Taken?))
      && next.work.answers == t.work.answers && next.work.sent == t.work.sent
      && next.work.promptSent == t.work.promptSent
      && next.work.airborne == t.work.airborne - {PromptOp}
      && next.work.promptState == (if reply.Taken? then Accepted else PromptFailed)
      && next.work.promptDetail == (if reply.Taken? then t.work.promptDetail else DetailOf(reply))
  {
    NotFrame(es, PromptReply(reply));
  }

  lemma PromptReplyWork(cfg: Config, es: seq<Event>, w: Work, next: Work, reply: PromptReceipt, prompted: bool,
          owed: seq<string>)
    requires WorkAt(cfg, es, w, prompted, owed) && !Frozen(es) && PromptOp in w.airborne
    requires next.answers == w.answers && next.promptSent == w.promptSent && next.airborne == w.airborne - {PromptOp}
    requires next.promptState == (if reply.Taken? then Accepted else PromptFailed)
    requires next.promptDetail == (if reply.Taken? then w.promptDetail else DetailOf(reply))
    ensures WorkAt(cfg, es + [PromptReply(reply)], next, prompted, owed)
    ensures PromptReplyIn(es).None?
  {
    var more := es + [PromptReply(reply)];
    Snoc(es, PromptReply(reply));
    assert PromptReplyIn(more) == Some(reply) && PromptDetailOf(es) == None;
    forall i | 0 <= i < |owed|
      ensures RecordAt(cfg, more, owed[i], i) == RecordAt(cfg, es, owed[i], i)
    {
    }
  }

  lemma PromptReplyFlights(cfg: Config, es: seq<Event>, t: Turn, reply: PromptReceipt)
    requires FlightsAt(es, t.work) && Awaited(t.work, t.ending) && Enabled(cfg, t, PromptReply(reply))
    ensures var next := Step(cfg, t, PromptReply(reply));
      && FlightsAt(es + [PromptReply(reply)], next.work) && Awaited(next.work, next.ending)
      && Load(next.work) == Load(t.work)
  {
    var replied := TakeReply(t, reply).work;
    FlightsElsewhere(es, PromptReply(reply), t.work, replied);
    LandFlights(es + [PromptReply(reply)], replied, PromptOp);
    assert InFlight(Land(replied, PromptOp)) == InFlight(t.work);
  }

  lemma KeepPromptReply(cfg: Config, es: seq<Event>, t: Turn, reply: PromptReceipt)
    requires Inv(cfg, es, t) && !Frozen(es) && Enabled(cfg, t, PromptReply(reply))
    ensures Inv(cfg, es + [PromptReply(reply)], Step(cfg, t, PromptReply(reply)))
  {
    var more, next := es + [PromptReply(reply)], Step(cfg, t, PromptReply(reply));
    NotFrame(es, PromptReply(reply));
    Snoc(es, PromptReply(reply));
    PromptReplyStep(cfg, es, t, reply);
    PromptReplyWork(cfg, es, t.work, next.work, reply, PromptDue(es), Answerable(es));
    PromptReplyFlights(cfg, es, t, reply);
    StillOpen(cfg, more, next);
  }

  lemma AnswerReplyWork(cfg: Config, es: seq<Event>, w: Work, index: nat, receipt: AnswerReceipt, prompted: bool,
          owed: seq<string>)
    requires WorkAt(cfg, es, w, prompted, owed) && !Frozen(es) && AnswerOp(index) in w.airborne && index < |w.answers|
    ensures var settled := w.(answers := w.answers[index := SettleAnswer(w.answers[index], receipt)]);
      WorkAt(cfg, es + [AnswerReply(index, receipt)], Land(settled, AnswerOp(index)), prompted, owed)
  {
    var more := es + [AnswerReply(index, receipt)];
    Snoc(es, AnswerReply(index, receipt));
    assert AnswerReplyIn(es, index).None? && AnswerReplyIn(more, index) == Some(receipt);
    forall i | 0 <= i < |owed| && i != index
      ensures RecordAt(cfg, more, owed[i], i) == RecordAt(cfg, es, owed[i], i)
    {
    }
  }

  lemma AnswerReplyStep(cfg: Config, es: seq<Event>, t: Turn, index: nat, receipt: AnswerReceipt)
    requires EndingAt(cfg, es, t.ending) && !Frozen(es) && Enabled(cfg, t, AnswerReply(index, receipt))
    ensures var next := Step(cfg, t, AnswerReply(index, receipt));
      && next == t.(work := next.work) && EndingAt(cfg, es + [AnswerReply(index, receipt)], next.ending)
      && next.work.sent == t.work.sent && next.work.airborne <= t.work.airborne
  {
    NotFrame(es, AnswerReply(index, receipt));
  }

  lemma AnswerReplyFlights(cfg: Config, es: seq<Event>, t: Turn, index: nat, receipt: AnswerReceipt)
    requires FlightsAt(es, t.work) && Awaited(t.work, t.ending) && Enabled(cfg, t, AnswerReply(index, receipt))
    ensures var next := Step(cfg, t, AnswerReply(index, receipt));
      && FlightsAt(es + [AnswerReply(index, receipt)], next.work) && Awaited(next.work, next.ending)
      && Load(next.work) == Load(t.work)
  {
    var replied := t.work.(answers := t.work.answers[index := SettleAnswer(t.work.answers[index], receipt)]);
    FlightsElsewhere(es, AnswerReply(index, receipt), t.work, replied);
    LandFlights(es + [AnswerReply(index, receipt)], replied, AnswerOp(index));
    assert InFlight(Land(replied, AnswerOp(index))) == InFlight(t.work);
  }

  lemma KeepAnswerReply(cfg: Config, es: seq<Event>, t: Turn, index: nat, reply: AnswerReceipt)
    requires Inv(cfg, es, t) && !Frozen(es) && Enabled(cfg, t, AnswerReply(index, reply))
    ensures Inv(cfg, es + [AnswerReply(index, reply)], Step(cfg, t, AnswerReply(index, reply)))
  {
    var e := AnswerReply(index, reply);
    NotFrame(es, e);
    Snoc(es, e);
    AnswerReplyStep(cfg, es, t, index, reply);
    AnswerReplyWork(cfg, es, t.work, index, reply, PromptDue(es), Answerable(es));
    AnswerReplyFlights(cfg, es, t, index, reply);
    StillOpen(cfg, es + [e], Step(cfg, t, e));
  }

  // ---------------------------------------------------------------- frames: the view

  lemma TakeMore<T>(n: nat, s: seq<T>, x: T)
    ensures Take(n, s + [x]) == if |Take(n, s)| < n then Take(n, s) + [x] else Take(n, s)
  {
  }

  lemma ApplyEnds(e: PromptEvidence, o: Observation, accepted: bool)
    ensures Apply(e.(promptAccepted := accepted), o) == Apply(e, o).(promptAccepted := accepted)
    ensures Apply(e, o).turnEnded.Some? <==> e.turnEnded.Some? || o.TurnOver?
    ensures Apply(e, o).streamEnded.Some? <==> e.streamEnded.Some? || o.StreamOver?
  {
  }

  /** What a frame does to the view, whatever the phase. */
  function ViewAfter(cfg: Config, v: View, frame: Frame): View {
    var clientId := if v.clientId.Some? then v.clientId else frame.announced;
    var unseen := frame.raised.Some? && frame.raised.value !in v.taken;
    View(if |v.frames| < cfg.maxFrames then v.frames + [frame.captured] else v.frames,
         Apply(v.evidence, frame.said),
         clientId,
         v.baseline || frame.isBaseline,
         if unseen then v.taken + {frame.raised.value} else v.taken,
         if clientId.Some? then (if v.clientId.Some? then v.queued else [])
         else if unseen then v.queued + [frame.raised.value] else v.queued,
         v.replacedFollow || (cfg.replaceFollow && frame.isTextDelta))
  }

  lemma EvidenceMore(cfg: Config, seen: seq<Frame>, accepted: bool, v: View, frame: Frame)
    requires ViewAt(cfg, seen, accepted, v)
    ensures var next := ViewAfter(cfg, v, frame);
      && next.frames == Take(cfg.maxFrames, Kept(seen + [frame]))
      && next.evidence == Fold(EMPTY, Said(seen + [frame])).(promptAccepted := accepted)
  {
    ObservedMore(seen, frame);
    TakeMore(cfg.maxFrames, Kept(seen), frame.captured);
    ApplyEnds(Fold(EMPTY, Said(seen)), frame.said, accepted);
  }

  lemma SubscribedMore(cfg: Config, seen: seq<Frame>, accepted: bool, v: View, frame: Frame)
    requires ViewAt(cfg, seen, accepted, v)
    ensures var next := ViewAfter(cfg, v, frame);
      && next.clientId == ClientOf(seen + [frame])
      && next.baseline == HasBaseline(seen + [frame])
      && next.taken == (set id | id in Approvals(seen + [frame]))
      && next.queued == (if next.clientId.None? then Approvals(seen + [frame]) else [])
      && next.replacedFollow == Replaced(cfg, seen + [frame])
  {
    ObservedMore(seen, frame);
    ReplacedMore(cfg, seen, frame);
  }

  lemma ViewMore(cfg: Config, seen: seq<Frame>, accepted: bool, v: View, frame: Frame)
    requires ViewAt(cfg, seen, accepted, v)
    ensures ViewAt(cfg, seen + [frame], accepted, ViewAfter(cfg, v, frame))
  {
    EvidenceMore(cfg, seen, accepted, v, frame);
    SubscribedMore(cfg, seen, accepted, v, frame);
  }

  lemma AnnounceFrame(cfg: Config, t: Turn, frame: Frame)
    ensures var next := Announce(cfg, t, frame);
      next == t.(work := next.work,
                 view := t.view.(
                   clientId := if t.view.clientId.Some? then t.view.clientId else frame.announced,
                   queued := if t.view.clientId.None? && frame.announced.Some? then [] else t.view.queued))
  {
    LaunchAllFrame(cfg, t.(view := t.view.(clientId := frame.announced, queued := [])), t.view.queued);
  }

  lemma HandleView(cfg: Config, t: Turn, frame: Frame)
    ensures var next := HandleFrame(cfg, t, frame);
      next == t.(work := next.work, view := ViewAfter(cfg, t.view, frame))
  {
    var t2 := Replace(cfg, Keep(cfg, t, frame), frame);
    AnnounceFrame(cfg, t2, frame);
  }

  // ---------------------------------------------------------------- frames: the work

  lemma SentMore(sent: seq<Sent>, s: Sent)
    ensures AnswersSent(sent + [s]) == (if s.AnswerPost? then AnswersSent(sent) + [s] else AnswersSent(sent))
    ensures PromptsSent(sent + [s]) == PromptsSent(sent) + if s.PromptPost? then 1 else 0
    ensures FollowsReopened(sent + [s]) == FollowsReopened(sent) + if s.FollowReopened? then 1 else 0
  {
    assert (sent + [s])[..|sent + [s]| - 1] == sent;
  }

  /** Work and sent log together, for a turn that knows this client and owes these answers. */
  ghost predicate LiveAt(cfg: Config, es: seq<Event>, w: Work, client: Option<string>, prompted: bool,
          owed: seq<string>, reopened: bool)
  {
    WorkAt(cfg, es, w, prompted, owed) && SentAt(cfg, w.sent, client, prompted, owed, reopened)
  }

  lemma LaunchLive(cfg: Config, es: seq<Event>, w: Work, client: string, prompted: bool, owed: seq<string>,
          reopened: bool, id: string)
    requires LiveAt(cfg, es, w, Some(client), prompted, owed, reopened)
    ensures LiveAt(cfg, es, Launch(cfg, w, client, id), Some(client), prompted, owed + [id], reopened)
  {
    SentMore(w.sent, AnswerPost(|w.answers| + 1, client, id, OutcomeOf(cfg.approval)));
  }

  lemma AskLive(cfg: Config, es: seq<Event>, w: Work, client: Option<string>, owed: seq<string>, reopened: bool)
    requires LiveAt(cfg, es, w, client, false, owed, reopened)
    ensures LiveAt(cfg, es, Ask(w), client, true, owed, reopened)
  {
    SentMore(w.sent, PromptPost);
  }

  lemma {:induction false} LaunchAllLive(cfg: Config, es: seq<Event>, t: Turn, ids: seq<string>, reopened: bool)
    requires t.ending.phase.Running? && t.view.clientId.Some?
    requires LiveAt(cfg, es, t.work, t.view.clientId, false, [], reopened)
    ensures LiveAt(cfg, es, LaunchAll(cfg, t, ids).work, t.view.clientId, false, ids, reopened)
  {
    if ids != [] {
      var p, id := ids[..|ids| - 1], ids[|ids| - 1];
      LaunchAllLive(cfg, es, t, p, reopened);
      LaunchAllFrame(cfg, t, p);
      LaunchLive(cfg, es, LaunchAll(cfg, t, p).work, t.view.clientId.value, false, p, reopened, id);
      assert ids == p + [id];
    }
  }

  /** A running turn whose work matches what its view knows; `ids` are the approvals raised so far. */
  ghost predicate Live(cfg: Config, es: seq<Event>, t: Turn, ids: seq<string>) {
    var v := t.view;
    && t.ending.phase.Running?
    && (v.clientId.None? ==> v.queued == ids)
    && v.taken == (set id | id in ids)
    && LiveAt(cfg, es, t.work, v.clientId, v.clientId.Some? && v.baseline, Owed(v.clientId, ids), v.replacedFollow)
  }

  lemma ReplaceLive(cfg: Config, es: seq<Event>, t: Turn, frame: Frame, ids: seq<string>)
    requires Live(cfg, es, t, ids)
    ensures Live(cfg, es, Replace(cfg, Keep(cfg, t, frame), frame), ids)
  {
    SentMore(t.work.sent, FollowReopened);
  }

  lemma AnnounceLive(cfg: Config, es: seq<Event>, t: Turn, frame: Frame, ids: seq<string>)
    requires Live(cfg, es, t, ids)
    ensures Live(cfg, es, Announce(cfg, t, frame), ids)
  {
    if t.view.clientId.None? && frame.announced.Some? {
      var t0 := t.(view := t.view.(clientId := frame.announced, queued := []));
      LaunchAllFrame(cfg, t0, ids);
      LaunchAllLive(cfg, es, t0, ids, t.view.replacedFollow);
      AskLive(cfg, es, LaunchAll(cfg, t0, ids).work, frame.announced, ids, t.view.replacedFollow);
    }
  }

  lemma BaselineLive(cfg: Config, es: seq<Event>, t: Turn, frame: Frame, ids: seq<string>)
    requires Live(cfg, es, t, ids)
    ensures Live(cfg, es, TakeBaseline(t, frame), ids)
  {
    if frame.isBaseline && !t.view.baseline {
      AskLive(cfg, es, t.work, t.view.clientId, Owed(t.view.clientId, ids), t.view.replacedFollow);
    }
  }

  lemma RaiseLive(cfg: Config, es: seq<Event>, t: Turn, frame: Frame, ids: seq<string>)
    requires Live(cfg, es, t, ids)
    ensures Live(cfg, es, Raise(cfg, t, frame),
                 if frame.raised.Some? && frame.raised.value !in ids then ids + [frame.raised.value] else ids)
  {
    if frame.raised.Some? && frame.raised.value !in ids {
      RaiseNewLive(cfg, es, t, frame, ids, frame.raised.value);
    }
  }

  lemma RaiseNewLive(cfg: Config, es: seq<Event>, t: Turn, frame: Frame, ids: seq<string>, id: string)
    requires Live(cfg, es, t, ids) && frame.raised == Some(id) && id !in ids
    ensures Live(cfg, es, Raise(cfg, t, frame), ids + [id])
  {
    var v, next := t.view, Raise(cfg, t, frame);
    assert next.view.taken == set x | x in ids + [id];
    if v.clientId.Some? {
      LaunchLive(cfg, es, t.work, v.clientId.value, v.baseline, ids, v.replacedFollow, id);
      assert next.work == Launch(cfg, t.work, v.clientId.value, id);
    } else {
      assert next.work == t.work;
    }
  }

  lemma HandleLive(cfg: Config, es: seq<Event>, t: Turn, frame: Frame, ids: seq<string>)
    requires Live(cfg, es, t, ids)
    ensures Live(cfg, es, HandleFrame(cfg, t, frame),
                 if frame.raised.Some? && frame.raised.value !in ids then ids + [frame.raised.value] else ids)
  {
    ReplaceLive(cfg, es, t, frame, ids);
    var t2 := Replace(cfg, Keep(cfg, t, frame), frame);
    AnnounceLive(cfg, es, t2, frame, ids);
    var t3 := Announce(cfg, t2, frame);
    BaselineLive(cfg, es, t3, frame, ids);
    RaiseLive(cfg, es, TakeBaseline(t3, frame), frame, ids);
  }

  /** A running turn stops on a frame exactly when that frame ends the turn or the stream. */
  lemma ConcludeEnds(cfg: Config, es: seq<Event>, t: Turn, frame: Frame, h: Turn)
    requires EndingAt(cfg, es, t.ending) && FirstStop(es).None? && !Frozen(es)
    requires h.ending == t.ending && h.view.evidence == Apply(t.view.evidence, frame.said)
    requires t.view.evidence.turnEnded.None? && t.view.evidence.streamEnded.None?
    ensures var more, next := es + [Message(frame)], Conclude(h);
      && next == h.(ending := next.ending)
      && EndingAt(cfg, more, next.ending)
      && (next.ending.phase.Running? ==> h.view.evidence.turnEnded.None? && h.view.evidence.streamEnded.None?)
      && Awaited(h.work, next.ending)
  {
    Snoc(es, Message(frame));
    ApplyEnds(t.view.evidence, frame.said, false);
  }

  lemma HeardMore(es: seq<Event>, frame: Frame)
    requires FirstStop(es).None? && !Frozen(es) && Seen(es) == Heard(es)
    ensures var more, heard := es + [Message(frame)], Heard(es) + [frame];
      && Seen(more) == Heard(more) == heard && !Frozen(more)
      && PromptReplyIn(more) == PromptReplyIn(es) && (forall i :: AnswerReplyIn(more, i) == AnswerReplyIn(es, i))
      && Answerable(more) == Owed(ClientOf(heard), Approvals(heard))
      && PromptDue(more) == (ClientOf(heard).Some? && HasBaseline(heard))
      && Approvals(heard) == (if frame.raised.Some? && frame.raised.value !in Approvals(Heard(es))
                              then Approvals(Heard(es)) + [frame.raised.value] else Approvals(Heard(es)))
  {
    Snoc(es, Message(frame));
    ObservedMore(Heard(es), frame);
  }

  /** What handling a frame leaves of a running turn, in terms of the events with the frame. */
  lemma HandledRunning(cfg: Config, es: seq<Event>, t: Turn, frame: Frame)
    requires OpenAt(cfg, es, t) && t.ending.phase.Running? && FirstStop(es).None? && !Frozen(es)
    requires SentAt(cfg, t.work.sent, ClientOf(Heard(es)), PromptDue(es), Answerable(es), t.view.replacedFollow)
    ensures var more, h := es + [Message(frame)], HandleFrame(cfg, t, frame);
      && ViewAt(cfg, Seen(more), PromptTaken(more), h.view)
      && WorkAt(cfg, more, h.work, PromptDue(more), Answerable(more))
      && SentAt(cfg, h.work.sent, ClientOf(Heard(more)), PromptDue(more), Answerable(more), h.view.replacedFollow)
  {
    var more, h, heard := es + [Message(frame)], HandleFrame(cfg, t, frame), Heard(es) + [frame];
    HeardMore(es, frame);
    HandleView(cfg, t, frame);
    ViewMore(cfg, Seen(es), PromptTaken(es), t.view, frame);
    HandleLive(cfg, es, t, frame, Approvals(Heard(es)));
    WorkElsewhere(cfg, es, more, h.work, h.work, PromptDue(more), Answerable(more));
  }

  /** What a frame leaves in flight, in any phase before the report. */
  lemma FrameFlights(cfg: Config, es: seq<Event>, t: Turn, frame: Frame)
    requires OpenAt(cfg, es, t) && !Frozen(es)
    ensures var more, h := es + [Message(frame)], HandleFrame(cfg, t, frame);
      FlightsAt(more, h.work) && Load(h.work) == |TakenOn(more)|
  {
    var more, h := es + [Message(frame)], HandleFrame(cfg, t, frame);
    Snoc(es, Message(frame));
    ObservedMore(Seen(es), frame);
    HandleTracks(cfg, es, t, frame, Approvals(Seen(es)));
    HandleView(cfg, t, frame);
    FlightsElsewhere(es, Message(frame), h.work, h.work);
  }

  lemma KeepRunningFrame(cfg: Config, es: seq<Event>, t: Turn, frame: Frame)
    requires Inv(cfg, es, t) && !Frozen(es) && t.ending.phase.Running?
    ensures Inv(cfg, es + [Message(frame)], FoldFrame(cfg, t, frame))
  {
    var more, h := es + [Message(frame)], HandleFrame(cfg, t, frame);
    HeardMore(es, frame);
    HandledRunning(cfg, es, t, frame);
    HandleView(cfg, t, frame);
    ConcludeEnds(cfg, es, t, frame, h);
    FrameFlights(cfg, es, t, frame);
    StillOpen(cfg, more, Conclude(h));
  }

  /** A frame after the stop is recorded, but sends nothing: it only tracks promises that are already done. */
  lemma HandleSettling(cfg: Config, t: Turn, frame: Frame)
    requires !t.ending.phase.Running?
    ensures var w, next := t.work, HandleFrame(cfg, t, frame).work;
      && next == w.(landed := next.landed, idles := next.idles, sent := next.sent)
      && (forall op: Op :: op in next.landed ==> op in w.landed || op.Idle?)
      && next.sent ==
         (if cfg.replaceFollow && !t.view.replacedFollow && frame.isTextDelta then w.sent + [FollowReopened]
          else w.sent)
  {
    var t2 := Replace(cfg, Keep(cfg, t, frame), frame);
    LaunchAllFrame(cfg, t2.(view := t2.view.(clientId := frame.announced, queued := [])), t2.view.queued);
  }

  lemma SettledMore(es: seq<Event>, frame: Frame)
    requires FirstStop(es).Some? && !Frozen(es)
    ensures var more := es + [Message(frame)];
      && Seen(more) == Seen(es) + [frame] && Heard(more) == Heard(es)
      && FirstStop(more) == FirstStop(es) && !Frozen(more)
      && PromptReplyIn(more) == PromptReplyIn(es) && (forall i :: AnswerReplyIn(more, i) == AnswerReplyIn(es, i))
  {
    Snoc(es, Message(frame));
  }

  lemma KeepSettlingFrame(cfg: Config, es: seq<Event>, t: Turn, frame: Frame)
    requires Inv(cfg, es, t) && !Frozen(es) && t.ending.phase.Settling?
    ensures Inv(cfg, es + [Message(frame)], FoldFrame(cfg, t, frame))
  {
    SettledMore(es, frame);
    HandleView(cfg, t, frame);
    SettlingOpen(cfg, es, t, frame);
    SettlingSent(cfg, es, t, frame, ClientOf(Heard(es)), PromptDue(es), Answerable(es));
    assert FoldFrame(cfg, t, frame) == HandleFrame(cfg, t, frame);
  }

  lemma SettlingOpen(cfg: Config, es: seq<Event>, t: Turn, frame: Frame)
    requires OpenAt(cfg, es, t) && t.ending.phase.Settling? && FirstStop(es).Some? && !Frozen(es)
    ensures OpenAt(cfg, es + [Message(frame)], HandleFrame(cfg, t, frame))
  {
    var next := HandleFrame(cfg, t, frame);
    SettledMore(es, frame);
    HandleView(cfg, t, frame);
    HandleSettling(cfg, t, frame);
    ViewMore(cfg, Seen(es), PromptTaken(es), t.view, frame);
    WorkElsewhere(cfg, es, es + [Message(frame)], t.work, next.work, PromptDue(es), Answerable(es));
    FrameFlights(cfg, es, t, frame);
    SettlingAwaits(cfg, t, frame);
  }

  /** The only operations a frame can start after the stop are answers that are not sent. */
  lemma SettlingAwaits(cfg: Config, t: Turn, frame: Frame)
    requires t.ending.phase.Settling? && Awaited(t.work, t.ending)
    ensures Awaited(HandleFrame(cfg, t, frame).work, t.ending)
  {
    HandleSettling(cfg, t, frame);
  }

  lemma SettlingSent(cfg: Config, es: seq<Event>, t: Turn, frame: Frame, client: Option<string>,
          prompted: bool, owed: seq<string>)
    requires t.ending.phase.Settling? && SentAt(cfg, t.work.sent, client, prompted, owed, t.view.replacedFollow)
    ensures var h := HandleFrame(cfg, t, frame); SentAt(cfg, h.work.sent, client, prompted, owed, h.view.replacedFollow)
  {
    HandleView(cfg, t, frame);
    HandleSettling(cfg, t, frame);
    SentMore(t.work.sent, FollowReopened);
  }

  // ---------------------------------------------------------------- every run

  lemma StepKeepsInv(cfg: Config, es: seq<Event>, t: Turn, e: Event)
    requires Inv(cfg, es, t) && Enabled(cfg, t, e)
    ensures Inv(cfg, es + [e], Step(cfg, t, e))
    ensures Frozen(es) ==> Step(cfg, t, e).result == t.result
  {
    if Frozen(es) {
      KeepFrozen(cfg, es, t, e);
    } else {
      match e
      case Message(frame) =>
        if t.ending.phase.Running? {
          KeepRunningFrame(cfg, es, t, frame);
        } else {
          KeepSettlingFrame(cfg, es, t, frame);
        }
      case PromptReply(reply) => KeepPromptReply(cfg, es, t, reply);
      case AnswerReply(index, reply) => KeepAnswerReply(cfg, es, t, index, reply);
      case Freeze => KeepFreeze(cfg, es, t);
      case Tick(_) => KeepQuiet(cfg, es, t, e);
      case Forget(_) => KeepQuiet(cfg, es, t, e);
      case _ => KeepStop(cfg, es, t, e);
    }
  }

  lemma StartInv(cfg: Config)
    ensures Inv(cfg, [], START)
  {
    assert Said([]) == [];
    assert Kept([]) == [];
  }

  lemma RunLast(cfg: Config, es: seq<Event>)
    requires es != [] && Run(cfg, es).Some?
    ensures var init, e := es[..|es| - 1], es[|es| - 1];
      && es == init + [e] && Run(cfg, init).Some? && Enabled(cfg, Run(cfg, init).value, e)
      && Run(cfg, es).value == Step(cfg, Run(cfg, init).value, e)
  {
  }

  /** Every reachable state is what the events say it is. */
  lemma {:induction false} RunKeepsInv(cfg: Config, es: seq<Event>)
    requires Run(cfg, es).Some?
    ensures Inv(cfg, es, Run(cfg, es).value)
  {
    if es == [] {
      StartInv(cfg);
    } else {
      var init, e := es[..|es| - 1], es[|es| - 1];
      RunLast(cfg, es);
      RunKeepsInv(cfg, init);
      StepKeepsInv(cfg, init, Run(cfg, init).value, e);
    }
  }
}
