/**
 * The promises of a capture turn (scripts/adapters/dsh-capture-turn.ts), each over every run the environment can
 * produce.
 */
module TurnReport {
  import opened Wrappers
  import opened Json
  import opened Evidence
  import opened Turn
  import opened TurnTrace
  import opened TurnRuns

  lemma {:induction false} RunAppend(cfg: Config, es: seq<Event>, more: seq<Event>)
    requires Run(cfg, es + more).Some?
    ensures Run(cfg, es).Some?
    ensures Run(cfg, es).value.result.Some? ==> Run(cfg, es + more).value.result == Run(cfg, es).value.result
  {
    if more == [] {
      assert es + more == es;
    } else {
      var init, e := more[..|more| - 1], more[|more| - 1];
      assert (es + more)[..|es + more| - 1] == es + init;
      RunAppend(cfg, es, init);
      RunKeepsInv(cfg, es + init);
      StepKeepsInv(cfg, es + init, Run(cfg, es + init).value, e);
    }
  }

  /** The turn resolves at most once: no later event, late receipts included, changes a report that exists. */
  lemma ResolvesOnce(cfg: Config, es: seq<Event>, more: seq<Event>)
    requires Run(cfg, es + more).Some?
    ensures Run(cfg, es).Some?
    ensures Run(cfg, es).value.result.Some? <==> Frozen(es)
    ensures Frozen(es) ==> Run(cfg, es + more).value.result == Run(cfg, es).value.result
  {
    RunAppend(cfg, es, more);
    RunKeepsInv(cfg, es);
  }

  /**
   * What the report says, field by field, in terms of the events of the run: the evidence is the fold of every frame
   * delivered before the freeze, the frames are its first `maxFrames`, the answers are the distinct approvals raised
   * while running (none without a client id), each closed by its own receipt or marked as never acknowledged.
   */
  lemma ReportSaysWhatHappened(cfg: Config, es: seq<Event>)
    requires Run(cfg, es).Some? && Frozen(es)
    ensures var result := Run(cfg, es).value.result; result.Some? && ReportAt(cfg, es, result.value)
  {
    RunKeepsInv(cfg, es);
  }

  /** The prompt is not sent, or sent and accepted, or sent and failed; never left pending. */
  lemma PromptAccounted(cfg: Config, es: seq<Event>)
    requires Run(cfg, es).Some? && Frozen(es)
    ensures var result := Run(cfg, es).value.result;
      result.Some? && var r := result.value;
      && (r.promptState == NotSent <==> !r.promptSent)
      && r.promptState != Pending
      && (r.promptState == Accepted <==> r.evidence.promptAccepted)
      && (r.evidence.promptAccepted <==> PromptTaken(es))
      && (r.promptState == PromptFailed <==> r.promptDetail.Some?)
  {
    RunKeepsInv(cfg, es);
    ReplyNeedsPost(cfg, es);
  }

  /** A reply can only follow the request it answers. */
  lemma {:induction false} ReplyNeedsPost(cfg: Config, es: seq<Event>)
    requires Run(cfg, es).Some?
    ensures PromptReplyIn(es).Some? ==> PromptDue(es)
    ensures forall i: nat :: AnswerReplyIn(es, i).Some? ==> i < |Answerable(es)|
  {
    if es != [] {
      var init, e := es[..|es| - 1], es[|es| - 1];
      assert es == init + [e];
      Snoc(init, e);
      RunKeepsInv(cfg, init);
      RunKeepsInv(cfg, es);
      ReplyNeedsPost(cfg, init);
    }
  }

  /** Every reply to the prompt was read off what the host sent back. */
  ghost predicate PromptReplies(es: seq<Event>) {
    forall i :: 0 <= i < |es| && es[i].PromptReply? ==> exists reply :: es[i].reply == ReadPrompt(reply)
  }

  lemma {:induction false} PromptLanded(es: seq<Event>) returns (i: nat)
    requires PromptReplyIn(es).Some?
    ensures i < |es| && es[i] == PromptReply(PromptReplyIn(es).value) && !Frozen(es[..i])
  {
    var init := es[..|es| - 1];
    if PromptReplyIn(init).Some? {
      i := PromptLanded(init);
      assert init[..i] == es[..i];
    } else {
      i := |es| - 1;
    }
  }

  /** A prompt is reported as accepted only on the strength of an accepting envelope that landed before the freeze. */
  lemma AcceptedNeedsEnvelope(cfg: Config, es: seq<Event>) returns (i: nat, reply: Reply)
    requires Run(cfg, es).Some? && Frozen(es) && PromptReplies(es)
    requires Run(cfg, es).value.result.Some? && Run(cfg, es).value.result.value.promptState == Accepted
    ensures i < |es| && es[i] == PromptReply(ReadPrompt(reply)) && !Frozen(es[..i])
    ensures reply.Answered? && Accepts(reply.envelope)
  {
    PromptAccounted(cfg, es);
    i := PromptLanded(es);
    reply :| es[i].reply == ReadPrompt(reply);
  }

  /**
   * Each approval is answered at most once, no record is left `attempted`, and `delivered` needs an ok receipt in time.
   */
  lemma AnswersAccounted(cfg: Config, es: seq<Event>)
    requires Run(cfg, es).Some? && Frozen(es) && Receipts(es)
    ensures var result := Run(cfg, es).value.result;
      result.Some? && var r := result.value;
      && |r.answers| == |Answerable(es)|
      && (forall i :: 0 <= i < |r.answers| ==> r.answers[i].eventId == Answerable(es)[i])
      && (forall i, j :: 0 <= i < j < |r.answers| ==> r.answers[i].eventId != r.answers[j].eventId)
      && (forall i :: 0 <= i < |r.answers| ==> Closed(cfg, r.answers[i], AnswerReplyIn(es, i)))
  {
    ReportSaysWhatHappened(cfg, es);
    ApprovalsDistinct(Heard(es));
    var r, due := Run(cfg, es).value.result.value, Answerable(es);
    forall i | 0 <= i < |r.answers|
      ensures r.answers[i].eventId == due[i] && Closed(cfg, r.answers[i], AnswerReplyIn(es, i))
    {
      ClosedRecord(cfg, es, due[i], i);
    }
  }

  /** One record of the report, by the receipt that came for it. */
  predicate Closed(cfg: Config, record: AnswerRecord, receipt: Option<AnswerReceipt>) {
    && record.outcome == OutcomeOf(cfg.approval)
    && !record.state.Attempted?
    && (record.state == Failed(NoReceipt) <==> receipt.None?)
    && (record.state.Delivered? <==> receipt.Some? && receipt.value.state.Delivered?)
  }

  lemma ClosedRecord(cfg: Config, es: seq<Event>, eventId: string, i: nat)
    requires Receipts(es)
    ensures var record := CloseAnswer(RecordAt(cfg, es, eventId, i));
      record.eventId == eventId && Closed(cfg, record, AnswerReplyIn(es, i))
  {
    if AnswerReplyIn(es, i).Some? {
      ReceiptFinal(es, i);
    }
  }

  predicate Distinct(ids: seq<string>) {
    forall i, j :: 0 <= i < j < |ids| ==> ids[i] != ids[j]
  }

  lemma {:induction false} ApprovalsDistinct(frames: seq<Frame>)
    ensures Distinct(Approvals(frames))
  {
    if frames != [] {
      ApprovalsDistinct(frames[..|frames| - 1]);
    }
  }

  /** A receipt decides its answer one way or the other. */
  predicate Final(receipt: AnswerReceipt) {
    !receipt.state.Attempted? && receipt.state != Failed(NoReceipt)
  }

  /** Every answer's reply was read off what the host sent back. */
  ghost predicate Receipts(es: seq<Event>) {
    forall i :: 0 <= i < |es| && es[i].AnswerReply? ==> exists reply :: es[i].receipt == ReadAnswer(reply)
  }

  lemma {:induction false} ReceiptFinal(es: seq<Event>, index: nat)
    requires Receipts(es) && AnswerReplyIn(es, index).Some?
    ensures Final(AnswerReplyIn(es, index).value)
  {
    var init, last := es[..|es| - 1], es[|es| - 1];
    if AnswerReplyIn(init, index).Some? {
      assert forall i :: 0 <= i < |init| ==> init[i] == es[i];
      ReceiptFinal(init, index);
    } else {
      var reply :| last.receipt == ReadAnswer(reply);
      DeliveredExactly(reply);
    }
  }

  /** Only an envelope whose result is ok delivers an answer; every reply settles it. */
  lemma DeliveredExactly(reply: Reply)
    ensures Final(ReadAnswer(reply))
    ensures ReadAnswer(reply).state.Delivered?
      <==> reply.Answered? && Field(Field(reply.envelope, "result"), "ok") == Some(Bool(true))
    ensures reply.Answered? ==> ReadAnswer(reply).raw.Some? && |ReadAnswer(reply).raw.value.1| <= 500
  {
  }

  /**
   * Everything that leaves the process, at every moment of every run: the prompt exactly once as soon as both a client
   * id and a baseline have been heard while running and never before; one answer per approval due, numbered in order
   * and carrying the announced client id; the follow stream reopened once a text delta is seen, if that was asked for.
   */
  lemma RequestsSent(cfg: Config, es: seq<Event>)
    requires Run(cfg, es).Some?
    ensures var sent, client, due := Run(cfg, es).value.work.sent, ClientOf(Heard(es)), Answerable(es);
      && PromptsSent(sent) == (if client.Some? && HasBaseline(Heard(es)) then 1 else 0)
      && |AnswersSent(sent)| == |due|
      && (forall i :: 0 <= i < |due| ==>
            client.Some? && AnswersSent(sent)[i] == AnswerPost(i + 1, client.value, due[i], OutcomeOf(cfg.approval)))
      && FollowsReopened(sent) == (if Replaced(cfg, Seen(es)) then 1 else 0)
  {
    RunKeepsInv(cfg, es);
  }

  lemma RunMore(cfg: Config, es: seq<Event>, e: Event)
    requires Run(cfg, es).Some? && Enabled(cfg, Run(cfg, es).value, e)
    ensures Run(cfg, es + [e]) == Some(Step(cfg, Run(cfg, es).value, e))
  {
    assert (es + [e])[..|es + [e]| - 1] == es;
  }

  predicate Timer(e: Event) { e.Tick? || e.Deadline? || e.Freeze? }

  /**
   * What the report says of receipts: settled exactly when everything the turn took on was forgotten before the freeze,
   * and then every request has its reply. A request without a reply means the whole grace period was waited out, and so
   * does a turn not settled, unless an approval was taken on after the stop. The deadline stops it at its time only.
   */
  lemma WaitsForReceipts(cfg: Config, es: seq<Event>)
    requires Run(cfg, es).Some? && Frozen(es)
    ensures var t := Run(cfg, es).value;
      && t.result.Some?
      && (t.result.value.receiptsSettled <==> Settled(es))
      && (Settled(es) ==> AllReplied(es))
      && (AllReplied(es) || t.ending.frozenAt == t.ending.stoppedAt + cfg.graceMs)
      && (Settled(es) || LateOf(es) > 0 || t.ending.frozenAt == t.ending.stoppedAt + cfg.graceMs)
      && t.ending.stoppedAt <= cfg.timeoutMs && t.ending.frozenAt <= cfg.timeoutMs + cfg.graceMs
      && (t.result.value.stoppedBy == Some(DeadlinePassed) ==> t.ending.stoppedAt == cfg.timeoutMs)
  {
    RunKeepsInv(cfg, es);
  }

  /** The deadline, the grace period or both ended the turn: what the field's comment says it records. */
  predicate TimedOut(cfg: Config, n: Ending) {
    n.stoppedBy == Some(DeadlinePassed) || n.frozenAt == n.stoppedAt + cfg.graceMs
  }

  /** A turn that fails at once is reported as settled, though neither the deadline nor the grace period ended it. */
  lemma SettledUntimed(cfg: Config)
    requires cfg.graceMs > 0
    ensures var end := Run(cfg, [SocketError, Freeze]);
      end.Some? && !TimedOut(cfg, end.value.ending) && end.value.result.Some? && end.value.result.value.receiptsSettled
  {
    var stopped := Stop(START, SocketFailed);
    assert Run(cfg, []) == Some(START);
    RunMore(cfg, [], SocketError);
    RunMore(cfg, [SocketError], Freeze);
    assert [SocketError] + [Freeze] == [SocketError, Freeze] && [] + [SocketError] == [SocketError];
    assert stopped.ending.awaited == InFlight(stopped.work) == {};
  }

  /** A prompt the host never answers: the deadline and the grace period both end the turn. */
  function Unanswered(cfg: Config, ready: Frame, snapshot: Frame): seq<Event> {
    [Message(ready), Message(snapshot)] + [Tick(cfg.timeoutMs)] + [Deadline] + [Tick(cfg.graceMs)] + [Freeze]
  }

  /** A frame that ends neither the turn nor the stream leaves the clock and the phase alone. */
  lemma OpenFrame(cfg: Config, t: Turn, frame: Frame)
    requires t.ending.phase.Running? && t.view.evidence.turnEnded.None? && t.view.evidence.streamEnded.None?
    requires !frame.said.TurnOver? && !frame.said.StreamOver?
    ensures var next := FoldFrame(cfg, t, frame);
      next.ending == t.ending && next.view.evidence.turnEnded.None? && next.view.evidence.streamEnded.None?
  {
    HandleView(cfg, t, frame);
    ApplyEnds(t.view.evidence, frame.said, false);
  }

  lemma OpenFrames(cfg: Config, ready: Frame, snapshot: Frame)
    requires !ready.said.TurnOver? && !ready.said.StreamOver? && !snapshot.said.TurnOver? && !snapshot.said.StreamOver?
    ensures var run := Run(cfg, [Message(ready), Message(snapshot)]); run.Some? && run.value.ending == START.ending
  {
    var first := FoldFrame(cfg, START, ready);
    assert Run(cfg, []) == Some(START);
    OpenFrame(cfg, START, ready);
    RunMore(cfg, [], Message(ready));
    OpenFrame(cfg, first, snapshot);
    RunMore(cfg, [Message(ready)], Message(snapshot));
    assert [] + [Message(ready)] == [Message(ready)];
    assert [Message(ready)] + [Message(snapshot)] == [Message(ready), Message(snapshot)];
  }

  /** From a running turn with nothing on its clock, the two timers in turn. */
  lemma TimersRun(cfg: Config, es: seq<Event>)
    requires Run(cfg, es).Some? && Run(cfg, es).value.ending == START.ending
    ensures var run := Run(cfg, es + [Tick(cfg.timeoutMs)] + [Deadline] + [Tick(cfg.graceMs)] + [Freeze]);
      && run.Some? && run.value.ending.stoppedBy == Some(DeadlinePassed)
      && run.value.ending.frozenAt == run.value.ending.stoppedAt + cfg.graceMs
  {
    RunMore(cfg, es, Tick(cfg.timeoutMs));
    RunMore(cfg, es + [Tick(cfg.timeoutMs)], Deadline);
    RunMore(cfg, es + [Tick(cfg.timeoutMs)] + [Deadline], Tick(cfg.graceMs));
    RunMore(cfg, es + [Tick(cfg.timeoutMs)] + [Deadline] + [Tick(cfg.graceMs)], Freeze);
  }

  /** A timer adds nothing to what was heard or forgotten. */
  lemma TimerAddsNothing(es: seq<Event>, e: Event)
    requires Timer(e)
    ensures Heard(es + [e]) == Heard(es) && (Forgotten(es + [e], PromptOp) <==> Forgotten(es, PromptOp))
  {
    Snoc(es, e);
    ForgottenMore(es, e, PromptOp);
  }

  lemma UnansweredTrace(cfg: Config, ready: Frame, snapshot: Frame)
    requires !ready.said.TurnOver? && !ready.said.StreamOver?
    ensures var es := Unanswered(cfg, ready, snapshot); Heard(es) == [ready, snapshot] && !Forgotten(es, PromptOp)
  {
    var frames := [Message(ready), Message(snapshot)];
    Snoc([], Message(ready));
    Snoc([Message(ready)], Message(snapshot));
    assert [] + [Message(ready)] == [Message(ready)] && [Message(ready)] + [Message(snapshot)] == frames;
    assert Heard(frames) == [ready, snapshot];
    assert forall e :: e in frames ==> !e.Forget?;
    assert !Forgotten(frames[..1], PromptOp);
    TimerAddsNothing(frames, Tick(cfg.timeoutMs));
    TimerAddsNothing(frames + [Tick(cfg.timeoutMs)], Deadline);
    TimerAddsNothing(frames + [Tick(cfg.timeoutMs)] + [Deadline], Tick(cfg.graceMs));
    TimerAddsNothing(frames + [Tick(cfg.timeoutMs)] + [Deadline] + [Tick(cfg.graceMs)], Freeze);
  }

  /** The other way round: such a turn is reported as not settled, though both ended it. */
  lemma TimedUnsettled(cfg: Config, ready: Frame, snapshot: Frame)
    requires ready.announced.Some? && !ready.said.TurnOver? && !ready.said.StreamOver?
    requires snapshot.isBaseline && !snapshot.said.TurnOver? && !snapshot.said.StreamOver?
    ensures var end := Run(cfg, Unanswered(cfg, ready, snapshot));
      && end.Some? && end.value.ending.stoppedBy == Some(DeadlinePassed)
      && end.value.ending.frozenAt == end.value.ending.stoppedAt + cfg.graceMs
      && end.value.result.Some? && !end.value.result.value.receiptsSettled
  {
    var es := Unanswered(cfg, ready, snapshot);
    OpenFrames(cfg, ready, snapshot);
    TimersRun(cfg, [Message(ready), Message(snapshot)]);
    UnansweredTrace(cfg, ready, snapshot);
    assert [ready, snapshot][1].isBaseline;
    assert ClientOf([ready, snapshot]).Some? by {
      assert [ready, snapshot][..1] == [ready];
    }
    WaitsForReceipts(cfg, es);
  }

  /** No clock reading past the deadline plus the grace period is without a report. */
  lemma ResolvedInTime(cfg: Config, es: seq<Event>)
    requires Run(cfg, es).Some? && Run(cfg, es).value.ending.now > cfg.timeoutMs + cfg.graceMs
    ensures Run(cfg, es).value.result.Some?
  {
    RunKeepsInv(cfg, es);
  }

  lemma EndingKept(cfg: Config, es: seq<Event>)
    requires Run(cfg, es).Some?
    ensures EndingAt(cfg, es, Run(cfg, es).value.ending) && (Run(cfg, es).value.result.Some? <==> Frozen(es))
  {
    RunKeepsInv(cfg, es);
  }

  lemma GraceFreezes(cfg: Config, es: seq<Event>) returns (more: seq<Event>)
    requires Run(cfg, es).Some? && Run(cfg, es).value.ending.phase.Settling?
    ensures forall i :: 0 <= i < |more| ==> Timer(more[i])
    ensures Run(cfg, es + more).Some? && Run(cfg, es + more).value.result.Some?
  {
    EndingKept(cfg, es);
    var n := Run(cfg, es).value.ending;
    var wait := Tick(n.stoppedAt + cfg.graceMs - n.now);
    RunMore(cfg, es, wait);
    RunMore(cfg, es + [wait], Freeze);
    more := [wait, Freeze];
    assert es + more == es + [wait] + [Freeze];
  }

  lemma DeadlineStops(cfg: Config, es: seq<Event>) returns (more: seq<Event>)
    requires Run(cfg, es).Some? && Run(cfg, es).value.ending.phase.Running?
    ensures forall i :: 0 <= i < |more| ==> Timer(more[i])
    ensures Run(cfg, es + more).Some? && Run(cfg, es + more).value.ending.phase.Settling?
  {
    EndingKept(cfg, es);
    var wait := Tick(cfg.timeoutMs - Run(cfg, es).value.ending.now);
    RunMore(cfg, es, wait);
    RunMore(cfg, es + [wait], Deadline);
    more := [wait, Deadline];
    assert es + more == es + [wait] + [Deadline];
  }

  lemma RunningResolves(cfg: Config, es: seq<Event>) returns (more: seq<Event>)
    requires Run(cfg, es).Some? && Run(cfg, es).value.ending.phase.Running?
    ensures forall i :: 0 <= i < |more| ==> Timer(more[i])
    ensures Run(cfg, es + more).Some? && Run(cfg, es + more).value.result.Some?
  {
    var first := DeadlineStops(cfg, es);
    var rest := GraceFreezes(cfg, es + first);
    more := first + rest;
    Associates(es, first, rest);
  }

  lemma Associates(a: seq<Event>, b: seq<Event>, c: seq<Event>)
    ensures a + (b + c) == (a + b) + c
  {
  }

  /** From wherever a run has got to, the two timers alone resolve it: nothing the host withholds can hold it open. */
  lemma {:induction false} TimersResolve(cfg: Config, es: seq<Event>) returns (more: seq<Event>)
    requires Run(cfg, es).Some?
    ensures forall i :: 0 <= i < |more| ==> Timer(more[i])
    ensures Run(cfg, es + more).Some? && Run(cfg, es + more).value.result.Some?
  {
    EndingKept(cfg, es);
    match Run(cfg, es).value.ending.phase
    case Running => more := RunningResolves(cfg, es);
    case Settling =>
      more := GraceFreezes(cfg, es);
    case Done =>
      more := [];
      assert es + more == es;
  }

  /** Every frame was read off what the socket delivered. */
  ghost predicate Genuine(es: seq<Event>) {
    forall i :: 0 <= i < |es| && es[i].Message? ==> es[i].frame == Look(es[i].frame.captured)
  }

  lemma {:induction false} SeenGenuine(es: seq<Event>)
    requires Genuine(es)
    ensures forall i :: 0 <= i < |Seen(es)| ==> Seen(es)[i] == Look(Seen(es)[i].captured)
  {
    if es != [] {
      SeenGenuine(es[..|es| - 1]);
    }
  }

  /** What the frames carried, as `JSON.parse` made it. */
  function Values(frames: seq<Frame>): (values: seq<Json>)
    ensures |values| == |frames| && forall i :: 0 <= i < |frames| ==> values[i] == frames[i].captured.value
  {
    seq(|frames|, i requires 0 <= i < |frames| => frames[i].captured.value)
  }

  lemma GenuineRead(frames: seq<Frame>)
    requires forall i :: 0 <= i < |frames| ==> frames[i] == Look(frames[i].captured)
    ensures Reads(Values(frames)) == Said(frames)
  {
  }

  lemma FramesModelBacked(frames: seq<Frame>, accepted: bool, attempted: bool)
    requires Reads(Values(frames)) == Said(frames)
    ensures var os := Said(frames);
      ModelBackedVerdict(Fold(EMPTY, os).(promptAccepted := accepted), attempted).modelBacked
      <==> && attempted
           && accepted
           && Count(os, (o: Observation) => o.ApprovalAsked?) <= Count(os, (o: Observation) => o.ApprovalDecided?)
           && (Count(os, (o: Observation) => o.QuestionAsked?) == 0 || CompletedLast(os))
           && exists i :: 0 <= i < |frames| && Speaks(frames[i].captured.value)
  {
    ModelBackedExactly(Values(frames), accepted, attempted);
    assert forall i :: 0 <= i < |frames| ==> Speaks(Values(frames)[i]) == Speaks(frames[i].captured.value);
  }

  /**
   * The provenance line of a report, exactly: model-backed means the prompt left after both subscriptions were up, its
   * acceptance landed before the freeze, approvals and questions were settled, and a live frame delivered before the
   * freeze carried visible assistant text.
   */
  lemma ReportModelBacked(cfg: Config, es: seq<Event>)
    requires Run(cfg, es).Some? && Frozen(es) && Genuine(es)
    ensures var result := Run(cfg, es).value.result;
      result.Some? && var r := result.value;
      var os := Said(Seen(es));
      ModelBackedVerdict(r.evidence, r.promptSent).modelBacked
      <==> && ClientOf(Heard(es)).Some? && HasBaseline(Heard(es))
           && PromptTaken(es)
           && Count(os, (o: Observation) => o.ApprovalAsked?) <= Count(os, (o: Observation) => o.ApprovalDecided?)
           && (Count(os, (o: Observation) => o.QuestionAsked?) == 0 || CompletedLast(os))
           && exists i :: 0 <= i < |Seen(es)| && Speaks(Seen(es)[i].captured.value)
  {
    ReportSaysWhatHappened(cfg, es);
    SeenGenuine(es);
    GenuineRead(Seen(es));
    FramesModelBacked(Seen(es), PromptTaken(es), PromptDue(es));
  }
}
