/**
 * What the reader of frames (scripts/adapters/dsh-capture-prompt.ts) makes of the JSON that arrived, and the fold of
 * it, in terms of the field names and texts of the host's own frames.
 */
module FrameMeaning {
  import opened Wrappers
  import opened Json
  import opened Evidence

  // ---------------------------------------------------------------- one frame

  predicate Typed(value: Json, kind: string) {
    Has(value, ["type"], Str(kind))
  }

  /** A frame of the event stream that forwards the named event. */
  predicate Forwards(value: Json, name: string) {
    (Typed(value, "waterfall") || Typed(value, "emit")) && Has(value, ["event"], Str(name))
  }

  /** A frame of the follow stream that carries the named session event. */
  predicate Logs(value: Json, name: string) {
    Typed(value, "event") && Has(value, ["event", "type"], Str(name))
  }

  /** The text at the end of a path: a string standing there, or the texts of the parts of a list, joined. */
  ghost predicate ContentIs(value: Json, path: seq<string>, text: string) {
    || Has(value, path, Str(text))
    || (exists parts: seq<Json> :: Has(value, path, Arr(parts)) && text == PartsText(parts))
    || (text == "" && forall other: Json :: Has(value, path, other) ==> !other.Str? && !other.Arr?)
  }

  /** One of the parts listed at the end of a path is an image. */
  ghost predicate Pictures(value: Json, path: seq<string>) {
    exists parts: seq<Json>, i: nat ::
      Has(value, path, Arr(parts)) && i < |parts| && Has(parts[i], ["type"], Str("image"))
  }

  /** The text at the end of a path, or the word `unknown` where there is none. */
  ghost predicate NameIs(value: Json, path: seq<string>, name: string) {
    if TextIs(value, path, "") then name == "unknown" else TextIs(value, path, name)
  }

  /** A reason, decoded: its kind, and the detail its kind carries. */
  ghost predicate ReasonIs(reason: Json, kind: string, detail: ReasonDetail) {
    if !reason.Obj? then kind == "unknown" && detail == Unrecognised(reason)
    else
      && NameIs(reason, ["kind"], kind)
      && (match detail
          case Failure(code, message) =>
            kind == "error" && TextIs(reason, ["error", "code"], code) && TextIs(reason, ["error", "message"], message)
          case Cause(cause) => kind == "aborted" && NameIs(reason, ["reason", "kind"], cause)
          case NoDetail => kind != "error" && kind != "aborted"
          case _ => false)
  }

  /** How a `turn/end` reads: its number, or -1, and its reason. */
  ghost predicate EndIs(value: Json, end: TurnEnd) {
    && (Has(value, ["event", "data", "turn"], Num(end.turn))
        || (end.turn == -1 && forall n: int :: !Has(value, ["event", "data", "turn"], Num(n))))
    && (if end.detail == NoReasonField then
          end.reason == "unknown" && forall other: Json :: !Has(value, ["event", "data", "reason"], other)
        else
          exists reason: Json ::
            Has(value, ["event", "data", "reason"], reason) && ReasonIs(reason, end.reason, end.detail))
  }

  /** What a frame says, by the fields it has. */
  ghost predicate Means(value: Json, o: Observation) {
    match o
    case Ready(id) => Typed(value, "ready") && TextIs(value, ["clientId"], id)
    case ApprovalAsked(id) => Forwards(value, "approval/request") && TextIs(value, ["eventId"], id)
    case QuestionAsked => Forwards(value, "user-questions/request")
    case TurnOver(end) => Logs(value, "turn/end") && EndIs(value, end)
    case ToolEvent => Logs(value, "tool/call") || Logs(value, "tool/result")
    case ApprovalDecided => Logs(value, "approval/decided")
    case UserMessage(echoed) => Logs(value, "user/message") && (echoed <==> Shows(value, ["event", "data", "content"]))
    case Committed(text) =>
      Logs(value, "assistant/message") && ContentIs(value, ["event", "data", "message", "content"], text)
    case History(records) => Typed(value, "snapshot") && Lists(value, ["records"], records)
    case Streamed(text) =>
      && Typed(value, "assistant-stream") && Has(value, ["frame", "type"], Str("chunk"))
      && (if Has(value, ["frame", "chunk", "type"], Str("text-delta"))
          then TextIs(value, ["frame", "chunk", "text"], text) else text == "")
    case StreamOver(End) => Typed(value, "end")
    case StreamOver(Error) => Typed(value, "error")
    case Nothing => !Known(value)
  }

  /** A message with something in it: text, or an image. */
  ghost predicate Shows(value: Json, path: seq<string>) {
    !ContentIs(value, path, "") || Pictures(value, path)
  }

  ghost predicate Lists(value: Json, path: seq<string>, count: nat) {
    || (exists items: seq<Json> :: Has(value, path, Arr(items)) && count == |items|)
    || (count == 0 && forall items: seq<Json> :: !Has(value, path, Arr(items)))
  }

  /** The frame is of a kind the reader knows. */
  predicate Known(value: Json) {
    || Typed(value, "ready") || Typed(value, "snapshot") || Typed(value, "end") || Typed(value, "error")
    || Forwards(value, "approval/request") || Forwards(value, "user-questions/request")
    || Logs(value, "turn/end") || Logs(value, "tool/call") || Logs(value, "tool/result")
    || Logs(value, "approval/decided") || Logs(value, "user/message") || Logs(value, "assistant/message")
    || (Typed(value, "assistant-stream") && Has(value, ["frame", "type"], Str("chunk")))
  }

  lemma TypedIs(value: Json, kind: string)
    requires kind != ""
    ensures Typed(value, kind) <==> StringOf(Some(value), "type") == kind
  {
    HasOne(value, "type", Str(kind));
  }

  lemma ForwardsIs(value: Json, name: string)
    requires name != ""
    ensures Forwards(value, name)
      <==> StringOf(Some(value), "type") in ["waterfall", "emit"] && StringOf(Some(value), "event") == name
  {
    TypedIs(value, "waterfall");
    TypedIs(value, "emit");
    HasOne(value, "event", Str(name));
  }

  lemma LogsIs(value: Json, name: string)
    requires name != ""
    ensures Logs(value, name)
      <==> StringOf(Some(value), "type") == "event" && StringOf(Field(Some(value), "event"), "type") == name
  {
    TypedIs(value, "event");
    HasTwo(value, "event", "type", Str(name));
  }

  /** `TextOf`, at the end of a path. */
  lemma ContentRead(value: Json, path: seq<string>, content: Option<Json>, text: string)
    requires forall leaf: Json :: Has(value, path, leaf) <==> content == Some(leaf)
    ensures ContentIs(value, path, text) <==> TextOf(content) == text
  {
  }

  lemma PicturesRead(value: Json, path: seq<string>, content: Option<Json>)
    requires forall leaf: Json :: Has(value, path, leaf) <==> content == Some(leaf)
    ensures Pictures(value, path) <==> HasImage(content)
  {
    if content.Some? && content.value.Arr? {
      assert Has(value, path, Arr(content.value.items));
      forall i | 0 <= i < |content.value.items|
        ensures Has(content.value.items[i], ["type"], Str("image")) <==> Says(content.value.items[i], "type", "image")
      {
        HasOne(content.value.items[i], "type", Str("image"));
      }
    }
  }

  lemma NameRead(value: Json, path: seq<string>, found: string, name: string)
    requires forall text: string :: TextIs(value, path, text) <==> found == text
    ensures NameIs(value, path, name) <==> name == if found == "" then "unknown" else found
  {
    assert TextIs(value, path, "") <==> found == "";
    assert TextIs(value, path, name) <==> found == name;
  }

  lemma ReasonRead(reason: Json, kind: string, detail: ReasonDetail)
    ensures ReasonIs(reason, kind, detail) <==> DecodeTurnEndReason(Some(reason)) == (kind, detail)
  {
    var v := Some(reason);
    var named, cause := StringOf(v, "kind"), StringOf(Field(v, "reason"), "kind");
    forall text: string { TextOne(reason, "kind", text); }
    NameRead(reason, ["kind"], named, kind);
    match detail
    case Failure(code, message) =>
      TextTwo(reason, "error", "code", code);
      TextTwo(reason, "error", "message", message);
    case Cause(word) =>
      forall text: string { TextTwo(reason, "reason", "kind", text); }
      NameRead(reason, ["reason", "kind"], cause, word);
    case _ =>
  }

  lemma EndRead(value: Json, end: TurnEnd)
    ensures EndIs(value, end)
      <==> ReadSessionEvent("turn/end", Field(Field(Some(value), "event"), "data")) == TurnOver(end)
  {
    var data := Field(Field(Some(value), "event"), "data");
    forall leaf: Json { HasThree(value, "event", "data", "turn", leaf); }
    forall leaf: Json { HasThree(value, "event", "data", "reason", leaf); }
    if Field(data, "reason").Some? { ReasonRead(Field(data, "reason").value, end.reason, end.detail); }
  }

  lemma UserRead(value: Json)
    ensures var content := Field(Field(Field(Some(value), "event"), "data"), "content");
      Shows(value, ["event", "data", "content"]) <==> TextOf(content) != "" || HasImage(content)
  {
    var content := Field(Field(Field(Some(value), "event"), "data"), "content");
    forall leaf: Json { HasThree(value, "event", "data", "content", leaf); }
    ContentRead(value, ["event", "data", "content"], content, "");
    PicturesRead(value, ["event", "data", "content"], content);
  }

  lemma CommittedRead(value: Json, text: string)
    ensures ContentIs(value, ["event", "data", "message", "content"], text)
      <==> TextOf(Field(Field(Field(Field(Some(value), "event"), "data"), "message"), "content")) == text
  {
    var content := Field(Field(Field(Field(Some(value), "event"), "data"), "message"), "content");
    forall leaf: Json { HasFour(value, "event", "data", "message", "content", leaf); }
    ContentRead(value, ["event", "data", "message", "content"], content, text);
  }

  lemma HistoryRead(value: Json, count: nat)
    ensures Lists(value, ["records"], count)
      <==> count == match Field(Some(value), "records") case Some(Arr(items)) => |items| case _ => 0
  {
    forall leaf: Json { HasOne(value, "records", leaf); }
  }

  lemma ChunkRead(value: Json, text: string)
    ensures var inner := Field(Some(value), "frame");
      && (Has(value, ["frame", "type"], Str("chunk")) <==> StringOf(inner, "type") == "chunk")
      && (Has(value, ["frame", "chunk", "type"], Str("text-delta"))
          <==> StringOf(Field(inner, "chunk"), "type") == "text-delta")
      && (TextIs(value, ["frame", "chunk", "text"], text) <==> StringOf(Field(inner, "chunk"), "text") == text)
  {
    HasTwo(value, "frame", "type", Str("chunk"));
    HasThree(value, "frame", "chunk", "type", Str("text-delta"));
    TextThree(value, "frame", "chunk", "text", text);
  }

  /** A frame has one type. */
  lemma OneType(value: Json, kind: string)
    requires Typed(value, kind)
    ensures forall other: string :: Typed(value, other) ==> other == kind
  {
    forall other: string | Typed(value, other)
      ensures other == kind
    {
      HasOnce(value, ["type"], Str(kind), Str(other));
    }
  }

  lemma LogRead(value: Json, o: Observation)
    requires Typed(value, "event")
    ensures Means(value, o) <==> Read(value) == o
  {
    OneType(value, "event");
    TypedIs(value, "event");
    LogsIs(value, "turn/end");
    LogsIs(value, "tool/call");
    LogsIs(value, "tool/result");
    LogsIs(value, "approval/decided");
    LogsIs(value, "user/message");
    LogsIs(value, "assistant/message");
    match o
    case TurnOver(end) => EndRead(value, end);
    case UserMessage(_) => UserRead(value);
    case Committed(text) => CommittedRead(value, text);
    case _ =>
  }

  lemma ForwardRead(value: Json, o: Observation)
    requires Typed(value, "waterfall") || Typed(value, "emit")
    ensures Means(value, o) <==> Read(value) == o
  {
    OneType(value, if Typed(value, "waterfall") then "waterfall" else "emit");
    TypedIs(value, "waterfall");
    TypedIs(value, "emit");
    ForwardsIs(value, "approval/request");
    ForwardsIs(value, "user-questions/request");
    if o.ApprovalAsked? { TextOne(value, "eventId", o.eventId); }
  }

  lemma StreamRead(value: Json, o: Observation)
    requires Typed(value, "assistant-stream")
    ensures Means(value, o) <==> Read(value) == o
  {
    TypedIs(value, "assistant-stream");
    if o.Streamed? {
      ChunkRead(value, o.text);
    } else {
      OneType(value, "assistant-stream");
      HasTwo(value, "frame", "type", Str("chunk"));
    }
  }

  lemma SnapshotRead(value: Json, o: Observation)
    requires Typed(value, "snapshot") || Typed(value, "ready")
    ensures Means(value, o) <==> Read(value) == o
  {
    OneType(value, if Typed(value, "snapshot") then "snapshot" else "ready");
    TypedIs(value, "snapshot");
    TypedIs(value, "ready");
    match o
    case Ready(id) => TextOne(value, "clientId", id);
    case History(records) => HistoryRead(value, records);
    case _ =>
  }

  lemma PlainRead(value: Json, o: Observation)
    requires !Typed(value, "event") && !Typed(value, "waterfall") && !Typed(value, "emit")
    requires !Typed(value, "snapshot") && !Typed(value, "ready") && !Typed(value, "assistant-stream")
    ensures Means(value, o) <==> Read(value) == o
  {
    TypedIs(value, "event");
    TypedIs(value, "waterfall");
    TypedIs(value, "emit");
    TypedIs(value, "ready");
    TypedIs(value, "snapshot");
    TypedIs(value, "assistant-stream");
    TypedIs(value, "end");
    TypedIs(value, "error");
  }

  /** The reader is exact: it reports of a frame what the frame's own fields say, and nothing else. */
  lemma ReadExactly(value: Json, o: Observation)
    ensures Read(value) == o <==> Means(value, o)
  {
    if Typed(value, "event") {
      LogRead(value, o);
    } else if Typed(value, "waterfall") || Typed(value, "emit") {
      ForwardRead(value, o);
    } else if Typed(value, "assistant-stream") {
      StreamRead(value, o);
    } else if Typed(value, "snapshot") || Typed(value, "ready") {
      SnapshotRead(value, o);
    } else {
      PlainRead(value, o);
    }
  }

  /** The text of a list of parts is what each carries in its own `text` field, joined in order. */
  lemma {:induction false} PartsJoined(a: seq<Json>, part: Json, text: string)
    requires TextIs(part, ["text"], text)
    ensures PartsText([]) == "" && PartsText(a + [part]) == PartsText(a) + text
  {
    if a == [] {
      assert [part][1..] == [] && a + [part] == [part];
      TextOne(part, "text", text);
    } else {
      PartsJoined(a[1..], part, text);
      assert (a + [part])[1..] == a[1..] + [part];
    }
  }

  /** The host took the prompt: its reply says `ok`, and its value says `accepted`. */
  lemma AcceptsExactly(envelope: Option<Json>)
    ensures Accepts(envelope)
      <==> && envelope.Some? && Has(envelope.value, ["result", "ok"], Bool(true))
           && Has(envelope.value, ["result", "value", "accepted"], Bool(true))
  {
    if envelope.Some? {
      HasTwo(envelope.value, "result", "ok", Bool(true));
      HasThree(envelope.value, "result", "value", "accepted", Bool(true));
    }
  }

  // ---------------------------------------------------------------- all the frames

  function Sum(os: seq<Observation>, weight: Observation -> nat): nat {
    if os == [] then 0 else Sum(os[..|os| - 1], weight) + weight(os[|os| - 1])
  }

  /** Every counter of the evidence is a sum over the observations, each weighed by its own text or records. */
  lemma {:induction false} FoldSums(os: seq<Observation>)
    ensures var e := Fold(EMPTY, os);
      && e.assistant.bytes == Sum(os, (o: Observation) => if o.Committed? then |o.text| else 0)
      && e.assistant.visibleBytes == Sum(os, (o: Observation) => if o.Committed? then |Trim(o.text)| else 0)
      && e.assistant.chunks == Count(os, (o: Observation) => o.Committed? && o.text != "")
      && e.streamed.bytes == Sum(os, (o: Observation) => if o.Streamed? then |o.text| else 0)
      && e.streamed.visibleBytes == Sum(os, (o: Observation) => if o.Streamed? then |Trim(o.text)| else 0)
      && e.streamed.chunks == Count(os, (o: Observation) => o.Streamed? && o.text != "")
      && e.tally.historyRecords == Sum(os, (o: Observation) => if o.History? then o.records else 0)
      && e.tally.toolEvents == Count(os, (o: Observation) => o.ToolEvent?)
  {
    if os != [] {
      FoldSums(os[..|os| - 1]);
    }
  }

  /** The first stream end among the observations. */
  ghost predicate FirstEnd(os: seq<Observation>, ended: Option<StreamEnd>) {
    match ended
    case None => forall i :: 0 <= i < |os| ==> !os[i].StreamOver?
    case Some(how) =>
      exists i :: 0 <= i < |os| && os[i] == StreamOver(how) && forall j :: 0 <= j < i ==> !os[j].StreamOver?
  }

  /** The last turn end among the observations. */
  ghost predicate LastEnd(os: seq<Observation>, ended: Option<TurnEnd>) {
    match ended
    case None => forall i :: 0 <= i < |os| ==> !os[i].TurnOver?
    case Some(end) =>
      exists i :: 0 <= i < |os| && os[i] == TurnOver(end) && forall j :: i < j < |os| ==> !os[j].TurnOver?
  }

  /** The last client id that is not empty. */
  ghost predicate LastReady(os: seq<Observation>, client: Option<string>) {
    match client
    case None => forall i :: 0 <= i < |os| ==> !os[i].Ready? || os[i].clientId == ""
    case Some(id) =>
      && id != ""
      && exists i :: 0 <= i < |os| && os[i] == Ready(id)
                     && forall j :: i < j < |os| ==> !os[j].Ready? || os[j].clientId == ""
  }

  /** The stream end reported is the first, the turn end is the last. */
  lemma {:induction false} FoldEnds(os: seq<Observation>)
    ensures FirstEnd(os, Fold(EMPTY, os).streamEnded) && LastEnd(os, Fold(EMPTY, os).turnEnded)
  {
    if os != [] {
      FoldEnds(os[..|os| - 1]);
      assert os == os[..|os| - 1] + [os[|os| - 1]];
    }
  }

  /** The client id reported is the last announced; a `ready` without one still counts, and so does one echo. */
  lemma {:induction false} FoldReady(os: seq<Observation>)
    ensures var e := Fold(EMPTY, os);
      && LastReady(os, e.readyClientId)
      && (e.sawReady <==> exists i :: 0 <= i < |os| && os[i].Ready?)
      && (e.userMessageEchoed <==> exists i :: 0 <= i < |os| && os[i] == UserMessage(true))
  {
    if os != [] {
      FoldReady(os[..|os| - 1]);
      assert os == os[..|os| - 1] + [os[|os| - 1]];
    }
  }

  /** The approvals reported are those asked for with an id, in order, repetitions included. */
  function Asked(os: seq<Observation>): seq<string> {
    if os == [] then []
    else Asked(os[..|os| - 1]) + match os[|os| - 1] case ApprovalAsked(id) => if id == "" then [] else [id] case _ => []
  }

  lemma {:induction false} FoldAsked(os: seq<Observation>)
    ensures Fold(EMPTY, os).approvalEventIds == Asked(os)
  {
    if os != [] {
      FoldAsked(os[..|os| - 1]);
    }
  }

  /** More approvals were asked for than decided. */
  predicate Waits(os: seq<Observation>) {
    Count(os, (o: Observation) => o.ApprovalAsked?) > Count(os, (o: Observation) => o.ApprovalDecided?)
  }

  /** A question was asked, and the last turn end, if there is one, does not say that the turn completed. */
  predicate Asks(os: seq<Observation>) {
    Count(os, (o: Observation) => o.QuestionAsked?) > 0 && !CompletedLast(os)
  }

  predicate Silent(os: seq<Observation>) {
    forall i :: 0 <= i < |os| ==> !Visible(os[i])
  }

  predicate Over(os: seq<Observation>) {
    exists i :: 0 <= i < |os| && os[i].TurnOver?
  }

  lemma FoldTells(os: seq<Observation>)
    ensures var e := Fold(EMPTY, os);
      && (Waits(os) <==> e.tally.approvalsRequested > e.tally.approvalsAnswered)
      && (Asks(os) <==>
            e.tally.questionsRequested > 0 && !(e.turnEnded.Some? && e.turnEnded.value.reason == "completed"))
      && (Silent(os) <==> e.assistant.visibleBytes == 0 && e.streamed.visibleBytes == 0)
  {
    FoldCounts(os);
    FoldVisible(os);
  }

  lemma FoldOver(os: seq<Observation>)
    ensures Over(os) <==> Fold(EMPTY, os).turnEnded.Some?
    ensures FirstEnd(os, Fold(EMPTY, os).streamEnded)
  {
    FoldEnds(os);
  }

  /** What a turn stalled on, if on anything, by what its frames said. */
  ghost predicate StallIs(os: seq<Observation>, accepted: bool, stall: Option<string>) {
    if !accepted then stall == Some("prompt-not-accepted")
    else if Waits(os) then stall == Some("approval")
    else if Asks(os) then stall == Some("user-question")
    else if !Silent(os) then stall == if Over(os) then None else Some("turn-unfinished")
    else if Over(os) then stall == Some("turn-ended-without-text")
    else
      || (stall == Some("end") && FirstEnd(os, Some(End)))
      || (stall == Some("error") && FirstEnd(os, Some(Error)))
      || (stall == Some("no-assistant-output") && FirstEnd(os, None))
  }

  /** The whole verdict of a turn, by what its frames said. */
  lemma VerdictTells(os: seq<Observation>, accepted: bool, attempted: bool)
    ensures var v := ModelBackedVerdict(Fold(EMPTY, os).(promptAccepted := accepted), attempted);
      && v.attempted == attempted
      && (v.modelBacked <==> attempted && accepted && !Waits(os) && !Asks(os) && !Silent(os))
      && (if attempted then StallIs(os, accepted, v.stalledOn) else v.stalledOn == None)
  {
    FoldTells(os);
    FoldOver(os);
  }
}
