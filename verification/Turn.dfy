/**
 * One model turn of a contract capture as a state machine (scripts/adapters/dsh-capture-turn.ts).
 *
 * An event is one entry of the JavaScript queue: a socket frame, one reply taking effect, one promise leaving the
 * in-flight set, a timer, or the freeze itself. Nothing is assumed about the order in which they come.
 */
module Turn {
  import opened Wrappers
  import opened Json
  import opened Evidence

  const EVENTS_STREAM := "cap-turn-events"
  const FOLLOW_STREAM := "cap-turn-follow"

  datatype Approval = AllowOnce | Deny

  /** The host's words for the two decisions: `allowed-once` and `rejected`. */
  datatype Outcome = AllowedOnce | Rejected

  datatype Config = Config(approval: Approval, timeoutMs: nat, graceMs: nat, maxFrames: nat, replaceFollow: bool)

  /** One frame as the record keeps it. */
  datatype Captured = Captured(streamId: string, value: Json)

  /** A frame together with everything the turn reads off it (see `Look`). */
  datatype Frame = Frame(
    captured: Captured,
    said: Observation,
    announced: Option<string>,
    isBaseline: bool,
    raised: Option<string>,
    isTextDelta: bool)

  /** What became of one POST: it threw, or it was answered. `envelope` is what `JSON.parse` makes of the body. */
  datatype Reply = Threw(message: string) | Answered(status: int, body: string, envelope: Option<Json>)

  datatype AnswerDetail =
    | PostThrew(message: string)
    | NoEnvelope(status: int)
    | HostCode(code: Json)
    | HostStatus(status: int)
    | NoReceipt

  datatype AnswerState = Attempted | Delivered | Failed(detail: AnswerDetail)

  datatype AnswerRecord = AnswerRecord(
    eventId: string,
    outcome: Outcome,
    state: AnswerState,
    raw: Option<(int, string)>)

  datatype PromptState = NotSent | Pending | Accepted | PromptFailed

  datatype PromptDetail =
    | PromptThrew(message: string)
    | NotAccepted(status: int, code: Option<Json>, reason: Option<Json>)
    | NoAcceptance

  datatype TurnStop = TurnEnded | StreamEnded | DeadlinePassed | SocketFailed | PromptRefused

  datatype Phase = Running | Settling | Done

  /** One tracked promise. An `Idle` one is an answer that was not sent because the turn had stopped. */
  datatype Op = PromptOp | AnswerOp(index: nat) | Idle(serial: nat)

  /** What left the process: a POST, or the pair of frames that reopens the follow stream. */
  datatype Sent =
    | PromptPost
    | AnswerPost(rpc: nat, clientId: string, eventId: string, outcome: Outcome)
    | FollowReopened

  datatype TurnResult = TurnResult(
    evidence: PromptEvidence,
    answers: seq<AnswerRecord>,
    frames: seq<Captured>,
    promptSent: bool,
    promptState: PromptState,
    promptDetail: Option<PromptDetail>,
    stoppedBy: Option<TurnStop>,
    receiptsSettled: bool)

  /** What the turn has gathered from frames and the prompt's receipt. */
  datatype View = View(
    frames: seq<Captured>,
    evidence: PromptEvidence,
    clientId: Option<string>,
    baseline: bool,
    taken: set<string>,
    queued: seq<string>,
    replacedFollow: bool)

  /** What the turn has sent, and what came back. */
  datatype Work = Work(
    answers: seq<AnswerRecord>,
    airborne: set<Op>,          // in flight, no reply yet
    landed: set<Op>,            // in flight, reply taken in, promise not yet forgotten
    idles: nat,
    promptSent: bool,
    promptState: PromptState,
    promptDetail: Option<PromptDetail>,
    sent: seq<Sent>)            // everything sent, in order

  /** How the turn ends, by the clock. */
  datatype Ending = Ending(
    phase: Phase,
    stoppedBy: Option<TurnStop>,
    awaited: set<Op>,           // what was in flight when the turn stopped
    now: nat,
    stoppedAt: nat,
    frozenAt: nat)

  datatype Turn = Turn(view: View, work: Work, ending: Ending, result: Option<TurnResult>)

  const START := Turn(
    View([], EMPTY, None, false, {}, [], false),
    Work([], {}, {}, 0, false, NotSent, None, []),
    Ending(Running, None, {}, 0, 0, 0),
    None)

  datatype Event =
    | Message(frame: Frame)
    | PromptReply(reply: PromptReceipt)
    | AnswerReply(index: nat, receipt: AnswerReceipt)
    | Forget(op: Op)
    | SocketError
    | Deadline
    | Freeze
    | Tick(ms: nat)

  // ---------------------------------------------------------------- reading one frame

  /** The client id a `ready` frame of the event stream announces. */
  function Announced(c: Captured): Option<string> {
    var clientId := StringOf(Some(c.value), "clientId");
    if c.streamId == EVENTS_STREAM && Says(c.value, "type", "ready") && clientId != "" then Some(clientId) else None
  }

  /** The follow stream's snapshot. */
  predicate IsBaseline(c: Captured) {
    c.streamId == FOLLOW_STREAM && Says(c.value, "type", "snapshot")
  }

  /** The approval a frame of the event stream raises. The code looks at `event`, whatever the frame's type. */
  function Raised(c: Captured): Option<string> {
    var eventId := StringOf(Some(c.value), "eventId");
    if c.streamId == EVENTS_STREAM && StringOf(Some(c.value), "event") == "approval/request" && eventId != ""
    then Some(eventId) else None
  }

  predicate IsTextDelta(c: Captured) {
    var inner := Field(Some(c.value), "frame");
    Says(c.value, "type", "assistant-stream") && StringOf(inner, "type") == "chunk"
    && StringOf(Field(inner, "chunk"), "type") == "text-delta"
  }

  /** Read a frame once, for all the handlers below. */
  function Look(c: Captured): Frame {
    Frame(c, Read(c.value), Announced(c), IsBaseline(c), Raised(c), IsTextDelta(c))
  }

  function OutcomeOf(approval: Approval): Outcome {
    if approval.AllowOnce? then AllowedOnce else Rejected
  }

  // ---------------------------------------------------------------- reading one reply

  /** What an answer's reply makes of its record (`answerApprovalWaterfall`). */
  datatype AnswerReceipt = AnswerReceipt(state: AnswerState, raw: Option<(int, string)>)

  function ReadAnswer(reply: Reply): AnswerReceipt {
    match reply
    case Threw(message) => AnswerReceipt(Failed(PostThrew(message)), None)
    case Answered(status, body, envelope) =>
      var raw := Some((status, if |body| <= 500 then body else body[..500]));
      var result := Field(envelope, "result");
      if envelope.None? || envelope.value.Null? then AnswerReceipt(Failed(NoEnvelope(status)), raw)
      else if Field(result, "ok") == Some(Bool(true)) then AnswerReceipt(Delivered, raw)
      else
        var code := Field(Field(result, "error"), "code");
        AnswerReceipt(Failed(if code.None? || code.value.Null? then HostStatus(status) else HostCode(code.value)), raw)
  }

  function SettleAnswer(record: AnswerRecord, receipt: AnswerReceipt): AnswerRecord {
    record.(state := receipt.state, raw := receipt.raw)
  }

  /** The POST of the prompt threw, or the host took the prompt, or it replied without taking it. */
  datatype PromptReceipt = NoReply(message: string) | Taken | NotTaken(detail: PromptDetail)

  function ReadPrompt(reply: Reply): PromptReceipt {
    match reply
    case Threw(message) => NoReply(message)
    case Answered(status, _, envelope) =>
      var error := Field(Field(envelope, "result"), "error");
      var code := Field(error, "code");
      var reason := Field(Field(error, "details"), "reason");
      if Accepts(envelope) then Taken
      else NotTaken(NotAccepted(status, if Truthy(code) then code else None, if Truthy(reason) then reason else None))
  }

  function DetailOf(receipt: PromptReceipt): Option<PromptDetail> {
    match receipt
    case NoReply(message) => Some(PromptThrew(message))
    case Taken => None
    case NotTaken(detail) => Some(detail)
  }

  // ---------------------------------------------------------------- the operations

  function InFlight(w: Work): set<Op> { w.airborne + w.landed }

  /** Send one answer, recording the attempt before the request. */
  function Launch(cfg: Config, w: Work, clientId: string, eventId: string): Work {
    var outcome := OutcomeOf(cfg.approval);
    w.(answers := w.answers + [AnswerRecord(eventId, outcome, Attempted, None)],
       sent := w.sent + [AnswerPost(|w.answers| + 1, clientId, eventId, outcome)],
       airborne := w.airborne + {AnswerOp(|w.answers|)})
  }

  /** Take on an answer: sent only while running with a client id, tracked either way. */
  function LaunchAnswer(cfg: Config, t: Turn, eventId: string): Turn {
    if t.ending.phase.Running? && t.view.clientId.Some?
    then t.(work := Launch(cfg, t.work, t.view.clientId.value, eventId))
    else t.(work := t.work.(landed := t.work.landed + {Idle(t.work.idles)}, idles := t.work.idles + 1))
  }

  function LaunchAll(cfg: Config, t: Turn, ids: seq<string>): Turn {
    if ids == [] then t else LaunchAnswer(cfg, LaunchAll(cfg, t, ids[..|ids| - 1]), ids[|ids| - 1])
  }

  function Ask(w: Work): Work {
    w.(promptSent := true, promptState := Pending, sent := w.sent + [PromptPost], airborne := w.airborne + {PromptOp})
  }

  function SendPrompt(t: Turn): Turn {
    if !t.ending.phase.Running? || t.work.promptSent || t.view.clientId.None? || !t.view.baseline then t
    else t.(work := Ask(t.work))
  }

  /** Stop observing; receipts already in flight may still land. */
  function Stop(t: Turn, reason: TurnStop): Turn {
    if !t.ending.phase.Running? then t
    else
      t.(ending := t.ending.(stoppedBy := Some(reason), phase := Settling,
                             awaited := InFlight(t.work), stoppedAt := t.ending.now))
  }

  function Keep(cfg: Config, t: Turn, frame: Frame): Turn {
    t.(view := t.view.(
      frames := if |t.view.frames| < cfg.maxFrames then t.view.frames + [frame.captured] else t.view.frames,
      evidence := Apply(t.view.evidence, frame.said)))
  }

  function Replace(cfg: Config, t: Turn, frame: Frame): Turn {
    if cfg.replaceFollow && !t.view.replacedFollow && frame.isTextDelta
    then t.(view := t.view.(replacedFollow := true), work := t.work.(sent := t.work.sent + [FollowReopened])) else t
  }

  function Announce(cfg: Config, t: Turn, frame: Frame): Turn {
    if t.view.clientId.None? && frame.announced.Some?
    then SendPrompt(LaunchAll(cfg, t.(view := t.view.(clientId := frame.announced, queued := [])), t.view.queued))
    else t
  }

  function TakeBaseline(t: Turn, frame: Frame): Turn {
    if frame.isBaseline && !t.view.baseline then SendPrompt(t.(view := t.view.(baseline := true))) else t
  }

  function Raise(cfg: Config, t: Turn, frame: Frame): Turn {
    if frame.raised.None? || frame.raised.value in t.view.taken then t
    else
      var id := frame.raised.value;
      var view := t.view.(taken := t.view.taken + {id});
      if t.view.clientId.None? then t.(view := view.(queued := t.view.queued + [id]))
      else LaunchAnswer(cfg, t.(view := view), id)
  }

  function Conclude(t: Turn): Turn {
    if t.view.evidence.turnEnded.Some? then Stop(t, TurnEnded)
    else if t.view.evidence.streamEnded.Some? then Stop(t, StreamEnded)
    else t
  }

  /** Everything a frame makes the turn do before it is asked whether to stop. */
  function HandleFrame(cfg: Config, t: Turn, frame: Frame): Turn {
    Raise(cfg, TakeBaseline(Announce(cfg, Replace(cfg, Keep(cfg, t, frame), frame), frame), frame), frame)
  }

  function FoldFrame(cfg: Config, t: Turn, frame: Frame): Turn {
    if t.ending.phase.Done? then t else Conclude(HandleFrame(cfg, t, frame))
  }

  /** Take in the reply to the prompt. A POST that threw leaves the evidence alone. */
  function TakeReply(t: Turn, receipt: PromptReceipt): Turn {
    var evidence := t.view.evidence;
    t.(view := t.view.(evidence := if receipt.NoReply? then evidence else evidence.(promptAccepted := receipt.Taken?)),
       work := t.work.(promptState := if receipt.Taken? then Accepted else PromptFailed,
                       promptDetail := if receipt.Taken? then t.work.promptDetail else DetailOf(receipt)))
  }

  function Land(w: Work, op: Op): Work {
    w.(airborne := w.airborne - {op}, landed := w.landed + {op})
  }

  function LandPrompt(t: Turn, receipt: PromptReceipt): Turn {
    var taken := TakeReply(t, receipt);
    var stopped := if receipt.Taken? then taken else Stop(taken, PromptRefused);
    stopped.(work := Land(stopped.work, PromptOp))
  }

  function LandAnswer(t: Turn, index: nat, receipt: AnswerReceipt): Turn
    requires index < |t.work.answers|
  {
    var settled := t.work.(answers := t.work.answers[index := SettleAnswer(t.work.answers[index], receipt)]);
    t.(work := Land(settled, AnswerOp(index)))
  }

  /** An answer still without a receipt when the report is written. */
  function CloseAnswer(record: AnswerRecord): AnswerRecord {
    if record.state.Attempted? then record.(state := Failed(NoReceipt)) else record
  }

  function CloseAnswers(records: seq<AnswerRecord>): (closed: seq<AnswerRecord>)
    ensures |closed| == |records|
    ensures forall i :: 0 <= i < |records| ==> closed[i] == CloseAnswer(records[i])
  {
    seq(|records|, i requires 0 <= i < |records| => CloseAnswer(records[i]))
  }

  function Take<T>(n: nat, s: seq<T>): seq<T> { if |s| <= n then s else s[..n] }

  /** Close whatever is still waiting for its receipt. */
  function CloseOpen(w: Work): Work {
    w.(answers := CloseAnswers(w.answers),
       promptState := if w.promptState.Pending? then PromptFailed else w.promptState,
       promptDetail := if w.promptState.Pending? then Some(NoAcceptance) else w.promptDetail)
  }

  function ReportOf(cfg: Config, t: Turn): TurnResult {
    TurnResult(t.view.evidence, t.work.answers, Take(cfg.maxFrames, t.view.frames),
               t.work.promptSent, t.work.promptState, t.work.promptDetail,
               t.ending.stoppedBy, InFlight(t.work) == {})
  }

  function FreezeNow(cfg: Config, t: Turn): Turn {
    if t.ending.phase.Done? then t
    else
      var closed := t.(work := CloseOpen(t.work), ending := t.ending.(phase := Done, frozenAt := t.ending.now));
      closed.(result := Some(ReportOf(cfg, closed)))
  }

  // ---------------------------------------------------------------- runs

  /** Which events the environment may deliver next. A timer that is due fires before the clock moves on. */
  predicate Enabled(cfg: Config, t: Turn, e: Event) {
    match e
    case Message(_) => true
    case PromptReply(_) => PromptOp in t.work.airborne
    case AnswerReply(index, _) => AnswerOp(index) in t.work.airborne && index < |t.work.answers|
    case Forget(op) => op in t.work.landed
    case SocketError => true
    case Deadline => t.ending.phase.Running? && t.ending.now >= cfg.timeoutMs
    case Freeze =>
      && t.ending.phase.Settling?
      && (t.ending.awaited !! InFlight(t.work) || t.ending.now >= t.ending.stoppedAt + cfg.graceMs)
    case Tick(ms) =>
      && (t.ending.phase.Running? ==> t.ending.now + ms <= cfg.timeoutMs)
      && (t.ending.phase.Settling? ==> t.ending.now + ms <= t.ending.stoppedAt + cfg.graceMs)
  }

  function Step(cfg: Config, t: Turn, e: Event): Turn
    requires Enabled(cfg, t, e)
  {
    match e
    case Message(frame) => FoldFrame(cfg, t, frame)
    case PromptReply(reply) => LandPrompt(t, reply)
    case AnswerReply(index, receipt) => LandAnswer(t, index, receipt)
    case Forget(op) => t.(work := t.work.(landed := t.work.landed - {op}))
    case SocketError => Stop(t, SocketFailed)
    case Deadline => Stop(t, DeadlinePassed)
    case Freeze => FreezeNow(cfg, t)
    case Tick(ms) => t.(ending := t.ending.(now := t.ending.now + ms))
  }

  /** The state after a sequence of events, if the environment can deliver them in that order. */
  function Run(cfg: Config, es: seq<Event>): Option<Turn> {
    if es == [] then Some(START)
    else
      var before := Run(cfg, es[..|es| - 1]);
      var e := es[|es| - 1];
      if before.Some? && Enabled(cfg, before.value, e) then Some(Step(cfg, before.value, e)) else None
  }
}
