/**
 * A run of a capture turn, read from its events alone: what was seen, what was due, what came back, and what the report
 * of such a run must say.
 */
module TurnTrace {
  import opened Wrappers
  import opened Json
  import opened Evidence
  import opened Turn

  // ---------------------------------------------------------------- a run, read from its events

  /** The report has been written. */
  predicate Frozen(es: seq<Event>) {
    es != [] && (es[|es| - 1].Freeze? || Frozen(es[..|es| - 1]))
  }

  /** Why one event, taken alone, would stop a running turn. */
  function StopCause(e: Event): Option<TurnStop> {
    match e
    case Message(frame) =>
      if frame.said.TurnOver? then Some(TurnEnded) else if frame.said.StreamOver? then Some(StreamEnded) else None
    case PromptReply(reply) => if reply.Taken? then None else Some(PromptRefused)
    case SocketError => Some(SocketFailed)
    case Deadline => Some(DeadlinePassed)
    case _ => None
  }

  /** The first event that stops the turn says why it stopped. */
  function FirstStop(es: seq<Event>): Option<TurnStop> {
    if es == [] then None
    else
      var before := FirstStop(es[..|es| - 1]);
      if before.Some? then before else StopCause(es[|es| - 1])
  }

  /** The frames delivered before the report was written. */
  function Seen(es: seq<Event>): seq<Frame> {
    if es == [] then []
    else
      var init, last := es[..|es| - 1], es[|es| - 1];
      if last.Message? && !Frozen(init) then Seen(init) + [last.frame] else Seen(init)
  }

  /** The frames delivered while the turn was running, the one that stopped it included. */
  function Heard(es: seq<Event>): seq<Frame> {
    if es == [] then []
    else
      var init, last := es[..|es| - 1], es[|es| - 1];
      if last.Message? && FirstStop(init).None? then Heard(init) + [last.frame] else Heard(init)
  }

  /** The first client id these frames announce. */
  function ClientOf(frames: seq<Frame>): Option<string> {
    if frames == [] then None
    else
      var before := ClientOf(frames[..|frames| - 1]);
      if before.Some? then before else frames[|frames| - 1].announced
  }

  predicate HasBaseline(frames: seq<Frame>) {
    exists i :: 0 <= i < |frames| && frames[i].isBaseline
  }

  /** The turn asks for its follow stream to be replaced, and one of these frames is a text delta. */
  predicate Replaced(cfg: Config, frames: seq<Frame>) {
    cfg.replaceFollow && exists i :: 0 <= i < |frames| && frames[i].isTextDelta
  }

  /** The distinct approvals these frames raise, in the order first raised. */
  function Approvals(frames: seq<Frame>): seq<string> {
    if frames == [] then []
    else
      var before := Approvals(frames[..|frames| - 1]);
      var raised := frames[|frames| - 1].raised;
      if raised.Some? && raised.value !in before then before + [raised.value] else before
  }

  /** The reply to the prompt, if one landed before the report was written. */
  function PromptReplyIn(es: seq<Event>): Option<PromptReceipt> {
    if es == [] then None
    else
      var init, last := es[..|es| - 1], es[|es| - 1];
      var before := PromptReplyIn(init);
      if before.None? && last.PromptReply? && !Frozen(init) then Some(last.reply) else before
  }

  /** The reply to one answer, if it landed before the report was written. */
  function AnswerReplyIn(es: seq<Event>, index: nat): Option<AnswerReceipt> {
    if es == [] then None
    else
      var init, last := es[..|es| - 1], es[|es| - 1];
      var before := AnswerReplyIn(init, index);
      if before.None? && last.AnswerReply? && last.index == index && !Frozen(init) then Some(last.receipt) else before
  }

  /** What the frames said, in order. */
  function Said(frames: seq<Frame>): (os: seq<Observation>)
    ensures |os| == |frames|
    ensures forall i :: 0 <= i < |frames| ==> os[i] == frames[i].said
  {
    seq(|frames|, i requires 0 <= i < |frames| => frames[i].said)
  }

  /** The frames as the record keeps them. */
  function Kept(frames: seq<Frame>): (cs: seq<Captured>)
    ensures |cs| == |frames|
    ensures forall i :: 0 <= i < |frames| ==> cs[i] == frames[i].captured
  {
    seq(|frames|, i requires 0 <= i < |frames| => frames[i].captured)
  }

  // ---------------------------------------------------------------- the report a run must produce

  /** An approval is taken on only for a client id. */
  function Owed(client: Option<string>, ids: seq<string>): seq<string> {
    if client.Some? then ids else []
  }

  /** The approvals that get an answer: those raised while running, if a client id came while running. */
  function Answerable(es: seq<Event>): seq<string> {
    Owed(ClientOf(Heard(es)), Approvals(Heard(es)))
  }

  /** Every approval taken on: the answerable ones, and those raised or given a client id after the stop. */
  function TakenOn(es: seq<Event>): seq<string> {
    Owed(ClientOf(Seen(es)), Approvals(Seen(es)))
  }

  /** How many approvals were taken on after the stop. They are tracked, but no answer is sent. */
  function LateOf(es: seq<Event>): int {
    |TakenOn(es)| - |Answerable(es)|
  }

  predicate PromptDue(es: seq<Event>) {
    ClientOf(Heard(es)).Some? && HasBaseline(Heard(es))
  }

  /** The record of one answer once the reply that came, if one did, is taken in. */
  function RecordAt(cfg: Config, es: seq<Event>, eventId: string, index: nat): AnswerRecord {
    var sent := AnswerRecord(eventId, OutcomeOf(cfg.approval), Attempted, None);
    var reply := AnswerReplyIn(es, index);
    if reply.Some? then SettleAnswer(sent, reply.value) else sent
  }

  /** The prompt's acceptance landed before the report was written. */
  predicate PromptTaken(es: seq<Event>) {
    PromptReplyIn(es).Some? && PromptReplyIn(es).value.Taken?
  }

  /** The evidence of the frames seen, with the receipt folded in wherever it came. */
  function EvidenceOf(es: seq<Event>): PromptEvidence {
    Fold(EMPTY, Said(Seen(es))).(promptAccepted := PromptTaken(es))
  }

  function PromptStateAt(es: seq<Event>, prompted: bool): PromptState {
    if !prompted then NotSent
    else if PromptReplyIn(es).None? then Pending
    else if PromptTaken(es) then Accepted
    else PromptFailed
  }

  function PromptDetailOf(es: seq<Event>): Option<PromptDetail> {
    match PromptReplyIn(es)
    case None => None
    case Some(reply) => DetailOf(reply)
  }

  /** Every request that was due has its reply. */
  ghost predicate AllReplied(es: seq<Event>) {
    && (PromptDue(es) ==> PromptReplyIn(es).Some?)
    && forall i: nat :: i < |Answerable(es)| ==> AnswerReplyIn(es, i).Some?
  }

  /** The promise of an operation left the in-flight set before the report was written. */
  predicate Forgotten(es: seq<Event>, op: Op) {
    es != [] && (Forgotten(es[..|es| - 1], op) || (es[|es| - 1] == Forget(op) && !Frozen(es[..|es| - 1])))
  }

  /** Every operation taken on was forgotten: the prompt, each answer, and each approval taken on after the stop. */
  ghost predicate Settled(es: seq<Event>) {
    && (PromptDue(es) ==> Forgotten(es, PromptOp))
    && (forall i: nat :: i < |Answerable(es)| ==> Forgotten(es, AnswerOp(i)))
    && (forall k: nat :: k < LateOf(es) ==> Forgotten(es, Idle(k)))
  }

  // ---------------------------------------------------------------- what was sent

  function AnswersSent(sent: seq<Sent>): seq<Sent> {
    if sent == [] then []
    else
      var before, last := AnswersSent(sent[..|sent| - 1]), sent[|sent| - 1];
      if last.AnswerPost? then before + [last] else before
  }

  function PromptsSent(sent: seq<Sent>): nat {
    if sent == [] then 0 else PromptsSent(sent[..|sent| - 1]) + if sent[|sent| - 1].PromptPost? then 1 else 0
  }

  function FollowsReopened(sent: seq<Sent>): nat {
    if sent == [] then 0 else FollowsReopened(sent[..|sent| - 1]) + if sent[|sent| - 1].FollowReopened? then 1 else 0
  }

  // ---------------------------------------------------------------- one event, one frame more

  lemma Snoc(es: seq<Event>, e: Event)
    ensures var more := es + [e];
      && more[..|more| - 1] == es
      && Frozen(more) == (e.Freeze? || Frozen(es))
      && FirstStop(more) == (if FirstStop(es).Some? then FirstStop(es) else StopCause(e))
      && Seen(more) == (if e.Message? && !Frozen(es) then Seen(es) + [e.frame] else Seen(es))
      && Heard(more) == (if e.Message? && FirstStop(es).None? then Heard(es) + [e.frame] else Heard(es))
      && PromptReplyIn(more) ==
         (if PromptReplyIn(es).None? && e.PromptReply? && !Frozen(es) then Some(e.reply) else PromptReplyIn(es))
      && (forall i :: AnswerReplyIn(more, i) ==
            (if AnswerReplyIn(es, i).None? && e.AnswerReply? && e.index == i && !Frozen(es) then Some(e.receipt)
             else AnswerReplyIn(es, i)))
  {
    assert (es + [e])[..|es + [e]| - 1] == es;
  }

  lemma ForgottenMore(es: seq<Event>, e: Event, op: Op)
    ensures Forgotten(es + [e], op) <==> Forgotten(es, op) || (e == Forget(op) && !Frozen(es))
  {
    assert (es + [e])[..|es + [e]| - 1] == es;
  }

  lemma ReplacedMore(cfg: Config, frames: seq<Frame>, frame: Frame)
    ensures Replaced(cfg, frames + [frame]) <==> Replaced(cfg, frames) || (cfg.replaceFollow && frame.isTextDelta)
  {
    var more := frames + [frame];
    if Replaced(cfg, frames) {
      var i :| 0 <= i < |frames| && frames[i].isTextDelta;
      assert more[i] == frames[i];
    }
    assert more[|frames|] == frame;
  }

  lemma ObservedMore(frames: seq<Frame>, frame: Frame)
    ensures Fold(EMPTY, Said(frames + [frame])) == Apply(Fold(EMPTY, Said(frames)), frame.said)
    ensures Kept(frames + [frame]) == Kept(frames) + [frame.captured]
    ensures Approvals(frames + [frame]) ==
      (if frame.raised.Some? && frame.raised.value !in Approvals(frames) then Approvals(frames) + [frame.raised.value]
       else Approvals(frames))
    ensures ClientOf(frames + [frame]) == (if ClientOf(frames).Some? then ClientOf(frames) else frame.announced)
    ensures HasBaseline(frames + [frame]) == (HasBaseline(frames) || frame.isBaseline)
  {
    var more := frames + [frame];
    assert more[..|more| - 1] == frames;
    var os := Said(more);
    assert os[..|os| - 1] == Said(frames);
    if HasBaseline(frames) {
      var i :| 0 <= i < |frames| && frames[i].isBaseline;
      assert more[i] == frames[i];
    }
    if frame.isBaseline {
      assert more[|frames|] == frame;
    }
  }
}
