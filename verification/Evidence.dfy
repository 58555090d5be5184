/**
 * What the frames of one captured turn prove (scripts/adapters/dsh-capture-prompt.ts):
 * the fold of frames into evidence, the receipt of the prompt, and the verdict.
 */
module Evidence {
  import opened Wrappers
  import opened Json
  import S = Sequences

  datatype StreamEnd = End | Error

  datatype ReasonDetail =
    | NoDetail
    | NoReasonField
    | Unrecognised(reason: Json)
    | Failure(code: string, message: string)
    | Cause(kind: string)

  datatype TurnEnd = TurnEnd(turn: int, reason: string, detail: ReasonDetail)

  /** Text that arrived: its length, its length once trimmed, and the number of non-empty pieces. */
  datatype TextCount = TextCount(bytes: nat, visibleBytes: nat, chunks: nat)

  datatype Tally = Tally(
    historyRecords: nat,
    toolEvents: nat,
    approvalsRequested: nat,
    approvalsAnswered: nat,
    questionsRequested: nat)

  /** The evidence record of one turn; committed and streamed assistant text are kept apart. */
  datatype PromptEvidence = PromptEvidence(
    promptAccepted: bool,
    userMessageEchoed: bool,
    assistant: TextCount,
    streamed: TextCount,
    tally: Tally,
    streamEnded: Option<StreamEnd>,
    turnEnded: Option<TurnEnd>,
    sawReady: bool,
    readyClientId: Option<string>,
    approvalEventIds: seq<string>)

  const EMPTY := PromptEvidence(
    false, false, TextCount(0, 0, 0), TextCount(0, 0, 0), Tally(0, 0, 0, 0, 0), None, None, false, None, [])

  // ---------------------------------------------------------------- text

  /** The text of every part that carries one, joined. */
  function PartsText(parts: seq<Json>): string {
    if parts == [] then "" else StringOf(Some(parts[0]), "text") + PartsText(parts[1..])
  }

  /** All the text in a message content: a string, or a list of parts. */
  function TextOf(content: Option<Json>): string {
    match content
    case Some(Str(text)) => text
    case Some(Arr(parts)) => PartsText(parts)
    case _ => ""
  }

  predicate HasImage(content: Option<Json>) {
    content.Some? && content.value.Arr?
    && exists i :: 0 <= i < |content.value.items| && Says(content.value.items[i], "type", "image")
  }

  /** The text of one streaming chunk, and only if it is a text delta. */
  function DeltaText(chunk: Option<Json>): string {
    if StringOf(chunk, "type") != "text-delta" then "" else StringOf(chunk, "text")
  }

  // ---------------------------------------------------------------- the fold

  /** Read `TurnEndReason`, keeping what an unknown shape still tells. */
  function DecodeTurnEndReason(value: Option<Json>): (string, ReasonDetail) {
    if value.None? then ("unknown", NoReasonField)
    else if !value.value.Obj? then ("unknown", Unrecognised(value.value))
    else
      var named := StringOf(value, "kind");
      var kind := if named == "" then "unknown" else named;
      if kind == "error" then
        var failure := Field(value, "error");
        (kind, Failure(StringOf(failure, "code"), StringOf(failure, "message")))
      else if kind == "aborted" then
        var cause := StringOf(Field(value, "reason"), "kind");
        (kind, Cause(if cause == "" then "unknown" else cause))
      else (kind, NoDetail)
  }

  /** The one thing a frame can say, whichever stream it came off. */
  datatype Observation =
    | Nothing
    | Ready(clientId: string)
    | ApprovalAsked(eventId: string)
    | QuestionAsked
    | TurnOver(end: TurnEnd)
    | ToolEvent
    | ApprovalDecided
    | UserMessage(echoed: bool)
    | Committed(text: string)
    | History(records: nat)
    | Streamed(text: string)
    | StreamOver(how: StreamEnd)

  /** One durable session event, as it arrives wrapped on the follow stream. */
  function ReadSessionEvent(name: string, data: Option<Json>): Observation {
    if name == "turn/end" then
      var turn := match Field(data, "turn") case Some(Num(n)) => n case _ => -1;
      var (kind, detail) := DecodeTurnEndReason(Field(data, "reason"));
      TurnOver(TurnEnd(turn, kind, detail))
    else if name == "tool/call" || name == "tool/result" then ToolEvent
    else if name == "approval/decided" then ApprovalDecided
    else if name == "user/message" then
      var content := Field(data, "content");
      UserMessage(TextOf(content) != "" || HasImage(content))
    else if name == "assistant/message" then Committed(TextOf(Field(Field(data, "message"), "content")))
    else Nothing
  }

  /** Read one frame, off either stream. */
  function Read(value: Json): Observation {
    var v := Some(value);
    var kind := StringOf(v, "type");
    if kind == "ready" then Ready(StringOf(v, "clientId"))
    else if kind == "waterfall" || kind == "emit" then
      var name := StringOf(v, "event");
      if name == "approval/request" then ApprovalAsked(StringOf(v, "eventId"))
      else if name == "user-questions/request" then QuestionAsked
      else Nothing
    else if kind == "event" then
      var event := Field(v, "event");
      ReadSessionEvent(StringOf(event, "type"), Field(event, "data"))
    else if kind == "snapshot" then
      History(match Field(v, "records") case Some(Arr(items)) => |items| case _ => 0)
    else if kind == "assistant-stream" then
      var inner := Field(v, "frame");
      if StringOf(inner, "type") == "chunk" then Streamed(DeltaText(Field(inner, "chunk"))) else Nothing
    else if kind == "end" then StreamOver(End)
    else if kind == "error" then StreamOver(Error)
    else Nothing
  }

  function AddText(count: TextCount, text: string): TextCount {
    TextCount(count.bytes + |text|, count.visibleBytes + |Trim(text)|, count.chunks + if text == "" then 0 else 1)
  }

  function Add(tally: Tally, o: Observation): Tally {
    match o
    case ApprovalAsked(_) => tally.(approvalsRequested := tally.approvalsRequested + 1)
    case QuestionAsked => tally.(questionsRequested := tally.questionsRequested + 1)
    case ToolEvent => tally.(toolEvents := tally.toolEvents + 1)
    case ApprovalDecided => tally.(approvalsAnswered := tally.approvalsAnswered + 1)
    case History(records) => tally.(historyRecords := tally.historyRecords + records)
    case _ => tally
  }

  /** Fold what one frame said into the evidence. */
  function Apply(e: PromptEvidence, o: Observation): PromptEvidence {
    PromptEvidence(
      e.promptAccepted,
      e.userMessageEchoed || (o.UserMessage? && o.echoed),
      if o.Committed? then AddText(e.assistant, o.text) else e.assistant,
      if o.Streamed? then AddText(e.streamed, o.text) else e.streamed,
      Add(e.tally, o),
      if o.StreamOver? && e.streamEnded.None? then Some(o.how) else e.streamEnded,
      if o.TurnOver? then Some(o.end) else e.turnEnded,
      e.sawReady || o.Ready?,
      if o.Ready? && o.clientId != "" then Some(o.clientId) else e.readyClientId,
      if o.ApprovalAsked? && o.eventId != "" then e.approvalEventIds + [o.eventId] else e.approvalEventIds)
  }

  /** Fold observations in the order they were made. */
  function Fold(e: PromptEvidence, os: seq<Observation>): PromptEvidence {
    if os == [] then e else Apply(Fold(e, os[..|os| - 1]), os[|os| - 1])
  }

  function Reads(frames: seq<Json>): (os: seq<Observation>)
    ensures |os| == |frames|
    ensures forall i :: 0 <= i < |frames| ==> os[i] == Read(frames[i])
  {
    S.Map(Read, frames)
  }

  /** The evidence a sequence of frames amounts to. */
  function Observed(frames: seq<Json>): PromptEvidence {
    Fold(EMPTY, Reads(frames))
  }

  /** The host said the prompt entered the inbox. */
  predicate Accepts(envelope: Option<Json>) {
    var result := Field(envelope, "result");
    Field(result, "ok") == Some(Bool(true)) && Field(Field(result, "value"), "accepted") == Some(Bool(true))
  }

  // ---------------------------------------------------------------- the verdict

  datatype Verdict = Verdict(modelBacked: bool, attempted: bool, stalledOn: Option<string>)

  function ModelBackedVerdict(e: PromptEvidence, attempted: bool): Verdict {
    if !attempted then Verdict(false, false, None)
    else if !e.promptAccepted then Verdict(false, true, Some("prompt-not-accepted"))
    else if e.tally.approvalsRequested > e.tally.approvalsAnswered then Verdict(false, true, Some("approval"))
    else if e.tally.questionsRequested > 0 && !(e.turnEnded.Some? && e.turnEnded.value.reason == "completed") then
      Verdict(false, true, Some("user-question"))
    else if e.assistant.visibleBytes == 0 && e.streamed.visibleBytes == 0 then
      Verdict(false, true, Some(
        if e.turnEnded.Some? then "turn-ended-without-text"
        else match e.streamEnded
             case Some(End) => "end"
             case Some(Error) => "error"
             case None => "no-assistant-output"))
    else Verdict(true, true, if e.turnEnded.None? then Some("turn-unfinished") else None)
  }

  // ---------------------------------------------------------------- closed form of the fold

  function Later<T>(a: Option<T>, b: Option<T>): Option<T> { if b.Some? then b else a }

  function AddCounts(a: TextCount, b: TextCount): TextCount {
    TextCount(a.bytes + b.bytes, a.visibleBytes + b.visibleBytes, a.chunks + b.chunks)
  }

  function AddTallies(a: Tally, b: Tally): Tally {
    Tally(a.historyRecords + b.historyRecords, a.toolEvents + b.toolEvents, a.approvalsRequested + b.approvalsRequested,
          a.approvalsAnswered + b.approvalsAnswered, a.questionsRequested + b.questionsRequested)
  }

  /**
   * Evidence of two stretches of frames, put together: counters add, the first stream end and the last turn end win.
   */
  function Merge(a: PromptEvidence, b: PromptEvidence): PromptEvidence {
    PromptEvidence(
      a.promptAccepted || b.promptAccepted,
      a.userMessageEchoed || b.userMessageEchoed,
      AddCounts(a.assistant, b.assistant),
      AddCounts(a.streamed, b.streamed),
      AddTallies(a.tally, b.tally),
      if a.streamEnded.Some? then a.streamEnded else b.streamEnded,
      Later(a.turnEnded, b.turnEnded),
      a.sawReady || b.sawReady,
      Later(a.readyClientId, b.readyClientId),
      a.approvalEventIds + b.approvalEventIds)
  }

  lemma ApplyMerges(a: PromptEvidence, b: PromptEvidence, o: Observation)
    ensures Apply(Merge(a, b), o) == Merge(a, Apply(b, o))
  {
    if o.ApprovalAsked? {
      var ids := a.approvalEventIds + b.approvalEventIds;
      assert ids + [o.eventId] == a.approvalEventIds + (b.approvalEventIds + [o.eventId]);
    }
  }

  /** The fold has a closed form: what a stretch of frames adds does not depend on what came before it. */
  lemma {:induction false} FoldMerges(e: PromptEvidence, os: seq<Observation>)
    ensures Fold(e, os) == Merge(e, Fold(EMPTY, os))
  {
    if os == [] {
      assert e.approvalEventIds + [] == e.approvalEventIds;
    } else {
      FoldMerges(e, os[..|os| - 1]);
      ApplyMerges(e, Fold(EMPTY, os[..|os| - 1]), os[|os| - 1]);
    }
  }

  lemma {:induction false} FoldAppend(e: PromptEvidence, a: seq<Observation>, b: seq<Observation>)
    ensures Fold(e, a + b) == Fold(Fold(e, a), b)
  {
    if b == [] {
      assert a + b == a;
    } else {
      FoldAppend(e, a, b[..|b| - 1]);
      assert (a + b)[..|a + b| - 1] == a + b[..|b| - 1];
    }
  }

  lemma ReadsAppend(a: seq<Json>, b: seq<Json>)
    ensures Reads(a + b) == Reads(a) + Reads(b)
  {
    S.MapAppends(Read, a, b);
  }

  /** Evidence of a concatenation is the merge of the two evidences. */
  lemma ObservedConcat(a: seq<Json>, b: seq<Json>)
    ensures Observed(a + b) == Merge(Observed(a), Observed(b))
  {
    ReadsAppend(a, b);
    FoldAppend(EMPTY, Reads(a), Reads(b));
    FoldMerges(Observed(a), Reads(b));
  }

  // ---------------------------------------------------------------- what the frames together say

  /** Text a committed assistant message carries. */
  function CommittedText(value: Json): string {
    var event := Field(Some(value), "event");
    if Says(value, "type", "event") && StringOf(event, "type") == "assistant/message"
    then TextOf(Field(Field(Field(event, "data"), "message"), "content")) else ""
  }

  /** Text a streamed text delta carries. Reasoning and tool-call deltas carry none. */
  function StreamedText(value: Json): string {
    var inner := Field(Some(value), "frame");
    var chunk := Field(inner, "chunk");
    if Says(value, "type", "assistant-stream")
       && StringOf(inner, "type") == "chunk" && StringOf(chunk, "type") == "text-delta"
    then StringOf(chunk, "text") else ""
  }

  /** A live frame with assistant text a reader could see. */
  predicate Speaks(value: Json) {
    !AllBlank(CommittedText(value)) || !AllBlank(StreamedText(value))
  }

  lemma TypeIs(value: Json, kind: string)
    requires kind != ""
    ensures Says(value, "type", kind) <==> StringOf(Some(value), "type") == kind
  {
  }

  /** The reader reports visible text for exactly the frames that speak. */
  lemma SpeaksRead(value: Json)
    ensures Speaks(value) <==> match Read(value)
                               case Committed(text) => !AllBlank(text)
                               case Streamed(text) => !AllBlank(text)
                               case _ => false
  {
    TypeIs(value, "event");
    TypeIs(value, "assistant-stream");
  }

  /** How many observations satisfy a test. */
  function Count(os: seq<Observation>, test: Observation -> bool): nat {
    if os == [] then 0 else Count(os[..|os| - 1], test) + if test(os[|os| - 1]) then 1 else 0
  }

  /** The last `turn/end` says the turn completed. */
  predicate CompletedLast(os: seq<Observation>) {
    os != [] &&
    var last := os[|os| - 1];
    if last.TurnOver? then last.end.reason == "completed" else CompletedLast(os[..|os| - 1])
  }

  /** The counters the verdict reads, each as a count of frames. */
  lemma {:induction false} FoldCounts(os: seq<Observation>)
    ensures var e := Fold(EMPTY, os);
      && e.tally.approvalsRequested == Count(os, (o: Observation) => o.ApprovalAsked?)
      && e.tally.questionsRequested == Count(os, (o: Observation) => o.QuestionAsked?)
      && e.tally.approvalsAnswered == Count(os, (o: Observation) => o.ApprovalDecided?)
      && (e.turnEnded.Some? && e.turnEnded.value.reason == "completed" <==> CompletedLast(os))
      && !e.promptAccepted
  {
    if os != [] {
      FoldCounts(os[..|os| - 1]);
    }
  }

  predicate Visible(o: Observation) {
    (o.Committed? || o.Streamed?) && !AllBlank(o.text)
  }

  lemma ApplyVisible(e: PromptEvidence, o: Observation)
    ensures var next := Apply(e, o);
      next.assistant.visibleBytes + next.streamed.visibleBytes > 0
      <==> e.assistant.visibleBytes + e.streamed.visibleBytes > 0 || Visible(o)
  {
    if o.Committed? || o.Streamed? {
      TrimVisible(o.text);
    }
  }

  lemma {:induction false} FoldVisible(os: seq<Observation>)
    ensures var e := Fold(EMPTY, os);
      e.assistant.visibleBytes + e.streamed.visibleBytes > 0 <==> exists i :: 0 <= i < |os| && Visible(os[i])
  {
    if os != [] {
      var init, last := os[..|os| - 1], os[|os| - 1];
      FoldVisible(init);
      ApplyVisible(Fold(EMPTY, init), last);
      assert forall i :: 0 <= i < |init| ==> os[i] == init[i];
    }
  }

  /**
   * Exactly when a turn counts as model-backed, over every sequence of frames and every receipt: the prompt was
   * posted and accepted, at least as many approvals were decided as requested, no question is left open, and at least
   * one live frame carried visible assistant text.
   */
  lemma ModelBackedExactly(frames: seq<Json>, accepted: bool, attempted: bool)
    ensures ModelBackedVerdict(Observed(frames).(promptAccepted := accepted), attempted).modelBacked
      <==> && attempted
           && accepted
           && Count(Reads(frames), (o: Observation) => o.ApprovalAsked?)
              <= Count(Reads(frames), (o: Observation) => o.ApprovalDecided?)
           && (Count(Reads(frames), (o: Observation) => o.QuestionAsked?) == 0 || CompletedLast(Reads(frames)))
           && exists i :: 0 <= i < |frames| && Speaks(frames[i])
  {
    FoldCounts(Reads(frames));
    FoldVisible(Reads(frames));
    forall i | 0 <= i < |frames|
      ensures Speaks(frames[i]) <==> Visible(Reads(frames)[i])
    {
      SpeaksRead(frames[i]);
    }
  }

  /** History (a snapshot frame) inserted anywhere never changes the verdict. */
  lemma HistoryChangesNothing(before: seq<Json>, snapshot: Json, after: seq<Json>, accepted: bool, attempted: bool)
    requires Says(snapshot, "type", "snapshot")
    ensures ModelBackedVerdict((Observed(before + [snapshot] + after)).(promptAccepted := accepted), attempted)
         == ModelBackedVerdict((Observed(before + after)).(promptAccepted := accepted), attempted)
  {
    var records := ObservedSnapshot(snapshot);
    ObservedConcat(before + [snapshot], after);
    ObservedConcat(before, [snapshot]);
    ObservedConcat(before, after);
    HistoryMerge(Observed(before), records, Observed(after), accepted, attempted);
  }

  lemma ObservedSnapshot(snapshot: Json) returns (records: nat)
    requires Says(snapshot, "type", "snapshot")
    ensures Observed([snapshot]) == EMPTY.(tally := EMPTY.tally.(historyRecords := records))
  {
    var o := Read(snapshot);
    assert o.History?;
    records := o.records;
    assert Reads([snapshot]) == [o];
    assert [o][..0] == [];
    assert Fold(EMPTY, [o]) == Apply(Fold(EMPTY, []), o);
  }

  lemma HistoryMerge(a: PromptEvidence, records: nat, b: PromptEvidence, accepted: bool, attempted: bool)
    ensures var history := EMPTY.(tally := EMPTY.tally.(historyRecords := records));
      ModelBackedVerdict((Merge(Merge(a, history), b)).(promptAccepted := accepted), attempted) ==
      ModelBackedVerdict((Merge(a, b)).(promptAccepted := accepted), attempted)
  {
  }
}
