/**
 * The promises of a capture turn (scripts/adapters/dsh-capture-turn.ts) in the words of the wire: the stream a frame
 * came on, the fields of its JSON, and the replies of the host, not what the turn reads off them.
 */
module TurnStreams {
  import opened Wrappers
  import opened Json
  import opened Evidence
  import opened FrameMeaning
  import opened Turn
  import opened TurnTrace
  import opened TurnRuns
  import opened TurnReport

  // ---------------------------------------------------------------- one frame

  predicate Announces(c: Captured, id: string) {
    c.streamId == "cap-turn-events" && Has(c.value, ["type"], Str("ready")) && Has(c.value, ["clientId"], Str(id))
    && id != ""
  }

  predicate Snapshots(c: Captured) {
    c.streamId == "cap-turn-follow" && Has(c.value, ["type"], Str("snapshot"))
  }

  predicate Raises(c: Captured, id: string) {
    c.streamId == "cap-turn-events" && Has(c.value, ["event"], Str("approval/request"))
    && Has(c.value, ["eventId"], Str(id)) && id != ""
  }

  predicate Streams(c: Captured) {
    Has(c.value, ["type"], Str("assistant-stream")) && Has(c.value, ["frame", "type"], Str("chunk"))
    && Has(c.value, ["frame", "chunk", "type"], Str("text-delta"))
  }

  /** The frame closes the turn, whichever stream it came on. */
  predicate ClosesTurn(c: Captured) {
    Has(c.value, ["type"], Str("event")) && Has(c.value, ["event", "type"], Str("turn/end"))
  }

  predicate ClosesStream(c: Captured) {
    Has(c.value, ["type"], Str("end")) || Has(c.value, ["type"], Str("error"))
  }

  lemma AnnouncedExactly(c: Captured, id: string)
    ensures Announced(c) == Some(id) <==> Announces(c, id)
  {
    HasOne(c.value, "type", Str("ready"));
    HasOne(c.value, "clientId", Str(id));
  }

  lemma BaselineExactly(c: Captured)
    ensures IsBaseline(c) <==> Snapshots(c)
  {
    HasOne(c.value, "type", Str("snapshot"));
  }

  lemma RaisedExactly(c: Captured, id: string)
    ensures Raised(c) == Some(id) <==> Raises(c, id)
  {
    HasOne(c.value, "event", Str("approval/request"));
    HasOne(c.value, "eventId", Str(id));
  }

  lemma DeltaExactly(c: Captured)
    ensures IsTextDelta(c) <==> Streams(c)
  {
    HasOne(c.value, "type", Str("assistant-stream"));
    ChunkRead(c.value, "");
  }

  lemma ClosesExactly(c: Captured)
    ensures Read(c.value).TurnOver? <==> ClosesTurn(c)
    ensures Read(c.value).StreamOver? <==> ClosesStream(c)
  {
    LogsIs(c.value, "turn/end");
    TypedIs(c.value, "end");
    TypedIs(c.value, "error");
  }

  // ---------------------------------------------------------------- what a run hears

  /** This event stops a turn that is still running, for this reason. */
  predicate Stops(e: Event, reason: TurnStop) {
    match e
    case Message(frame) =>
      if ClosesTurn(frame.captured) then reason == TurnEnded
      else ClosesStream(frame.captured) && reason == StreamEnded
    case PromptReply(reply) => !reply.Taken? && reason == PromptRefused
    case SocketError => reason == SocketFailed
    case Deadline => reason == DeadlinePassed
    case _ => false
  }

  /** Nothing among the events so far stops the turn. */
  ghost predicate Open(es: seq<Event>) {
    forall j, reason :: 0 <= j < |es| ==> !Stops(es[j], reason)
  }

  /** The `i`th event is a frame that arrives while the turn is running. */
  ghost predicate Hears(es: seq<Event>, i: nat) {
    i < |es| && es[i].Message? && Open(es[..i])
  }

  /** The `i`th event is a frame that arrives before the report is written. */
  predicate Sees(es: seq<Event>, i: nat) {
    i < |es| && es[i].Message? && forall j :: 0 <= j < i ==> !es[j].Freeze?
  }

  ghost predicate AnnouncesAt(es: seq<Event>, i: nat, id: string) {
    Hears(es, i) && Announces(es[i].frame.captured, id)
  }

  ghost predicate SnapshotsAt(es: seq<Event>, i: nat) {
    Hears(es, i) && Snapshots(es[i].frame.captured)
  }

  ghost predicate RaisesAt(es: seq<Event>, i: nat, id: string) {
    Hears(es, i) && Raises(es[i].frame.captured, id)
  }

  predicate StreamsAt(es: seq<Event>, i: nat) {
    Sees(es, i) && Streams(es[i].frame.captured)
  }

  /** Why the turn stopped: the reason of the first event that stops it. */
  ghost predicate StoppedBy(es: seq<Event>, stop: Option<TurnStop>) {
    match stop
    case None => Open(es)
    case Some(reason) => exists i: nat :: i < |es| && Stops(es[i], reason) && Open(es[..i])
  }

  /** The client id announced first. */
  ghost predicate ClientIs(es: seq<Event>, client: Option<string>) {
    match client
    case None => forall i: nat, id: string :: !AnnouncesAt(es, i, id)
    case Some(id) =>
      exists i: nat :: AnnouncesAt(es, i, id) && forall j: nat, other: string :: j < i ==> !AnnouncesAt(es, j, other)
  }

  /** The list holds just the approvals raised. */
  ghost predicate RaisedAll(es: seq<Event>, ids: seq<string>) {
    forall id: string :: id in ids <==> exists i: nat :: RaisesAt(es, i, id)
  }

  /** Whenever the second of two approvals is raised, the first has been raised before. */
  ghost predicate RaisedBefore(es: seq<Event>, first: string, second: string) {
    forall j: nat :: RaisesAt(es, j, second) ==> exists i: nat :: i < j && RaisesAt(es, i, first)
  }

  /** The approvals raised, each once, in the order in which they were first raised. */
  ghost predicate RaisedFirst(es: seq<Event>, ids: seq<string>) {
    && Distinct(ids)
    && RaisedAll(es, ids)
    && (forall k, m :: 0 <= k < m < |ids| ==> RaisedBefore(es, ids[k], ids[m]))
  }

  lemma CauseRead(e: Event, reason: TurnStop)
    requires e.Message? ==> e.frame == Look(e.frame.captured)
    ensures StopCause(e) == Some(reason) <==> Stops(e, reason)
  {
    if e.Message? { ClosesExactly(e.frame.captured); }
  }

  lemma StopMore(es: seq<Event>, e: Event, stop: Option<TurnStop>, next: Option<TurnStop>)
    requires StoppedBy(es, stop) && next == if stop.Some? then stop else StopCause(e)
    requires forall reason :: StopCause(e) == Some(reason) <==> Stops(e, reason)
    ensures StoppedBy(es + [e], next)
  {
    var more := es + [e];
    if stop.Some? {
      var i: nat :| i < |es| && Stops(es[i], stop.value) && Open(es[..i]);
      assert more[i] == es[i] && more[..i] == es[..i];
    } else if next.Some? {
      assert more[|es|] == e && more[..|es|] == es;
    }
  }

  lemma {:induction false} StopRead(es: seq<Event>)
    requires Genuine(es)
    ensures StoppedBy(es, FirstStop(es))
  {
    if es != [] {
      var init, e := es[..|es| - 1], es[|es| - 1];
      StopRead(init);
      assert es == init + [e];
      forall reason { CauseRead(e, reason); }
      StopMore(init, e, FirstStop(init), FirstStop(es));
    }
  }

  /** One event more: what was heard stays heard, and the event itself is heard if it is a frame and nothing stopped. */
  lemma HearsMore(es: seq<Event>, e: Event)
    requires Genuine(es)
    ensures forall i: nat :: i < |es| ==> (Hears(es + [e], i) <==> Hears(es, i)) && (es + [e])[i] == es[i]
    ensures Hears(es + [e], |es|) <==> e.Message? && FirstStop(es).None?
    ensures (es + [e])[|es|] == e
  {
    var more := es + [e];
    StopRead(es);
    assert more[..|es|] == es;
    forall i: nat | i < |es|
      ensures Hears(more, i) <==> Hears(es, i)
    {
      assert more[..i] == es[..i];
    }
    if FirstStop(es).Some? {
      assert !Open(es);
    }
  }

  lemma {:induction false} ClientHeard(es: seq<Event>)
    requires Genuine(es)
    ensures ClientIs(es, ClientOf(Heard(es)))
  {
    if es != [] {
      var init, e := es[..|es| - 1], es[|es| - 1];
      assert es == init + [e];
      ClientHeard(init);
      Snoc(init, e);
      HearsMore(init, e);
      if Hears(es, |init|) {
        ObservedMore(Heard(init), e.frame);
        forall id { AnnouncedExactly(e.frame.captured, id); }
      }
      ClientMore(init, e, ClientOf(Heard(init)), ClientOf(Heard(es)));
    }
  }

  lemma ClientMore(es: seq<Event>, e: Event, client: Option<string>, next: Option<string>)
    requires ClientIs(es, client)
    requires forall i: nat :: i < |es| ==> (Hears(es + [e], i) <==> Hears(es, i)) && (es + [e])[i] == es[i]
    requires if client.Some? then next == client else forall id :: next == Some(id) <==> AnnouncesAt(es + [e], |es|, id)
    ensures ClientIs(es + [e], next)
  {
    var more := es + [e];
    assert forall i: nat, id: string :: i < |es| ==> (AnnouncesAt(more, i, id) <==> AnnouncesAt(es, i, id));
  }

  lemma {:induction false} BaselineHeard(es: seq<Event>)
    requires Genuine(es)
    ensures HasBaseline(Heard(es)) <==> exists i: nat :: SnapshotsAt(es, i)
  {
    if es != [] {
      var init, e := es[..|es| - 1], es[|es| - 1];
      assert es == init + [e];
      BaselineHeard(init);
      Snoc(init, e);
      HearsMore(init, e);
      if Hears(es, |init|) {
        ObservedMore(Heard(init), e.frame);
        BaselineExactly(e.frame.captured);
      }
      BaselineMore(init, e);
    }
  }

  lemma BaselineMore(es: seq<Event>, e: Event)
    requires forall i: nat :: i < |es| ==> (Hears(es + [e], i) <==> Hears(es, i)) && (es + [e])[i] == es[i]
    ensures (exists i: nat :: SnapshotsAt(es + [e], i))
      <==> (exists i: nat :: SnapshotsAt(es, i)) || SnapshotsAt(es + [e], |es|)
  {
    assert forall i: nat :: i < |es| ==> (SnapshotsAt(es + [e], i) <==> SnapshotsAt(es, i));
  }

  lemma {:induction false} ApprovalsHeard(es: seq<Event>)
    requires Genuine(es)
    ensures RaisedFirst(es, Approvals(Heard(es)))
  {
    if es != [] {
      var init, e := es[..|es| - 1], es[|es| - 1];
      assert es == init + [e];
      ApprovalsHeard(init);
      Snoc(init, e);
      HearsMore(init, e);
      var ids, next := Approvals(Heard(init)), Approvals(Heard(es));
      if Hears(es, |init|) {
        ObservedMore(Heard(init), e.frame);
        forall id { RaisedExactly(e.frame.captured, id); }
      }
      ApprovalsMore(init, e, ids, next);
    }
  }

  lemma MembersMore(es: seq<Event>, e: Event, ids: seq<string>, next: seq<string>)
    requires RaisedAll(es, ids)
    requires forall i: nat :: i < |es| ==> (Hears(es + [e], i) <==> Hears(es, i)) && (es + [e])[i] == es[i]
    requires forall id :: id in next <==> id in ids || RaisesAt(es + [e], |es|, id)
    ensures RaisedAll(es + [e], next)
  {
    var more := es + [e];
    forall id: string
      ensures id in next <==> exists i: nat :: RaisesAt(more, i, id)
    {
      assert forall i: nat :: i < |es| ==> (RaisesAt(more, i, id) <==> RaisesAt(es, i, id));
    }
  }

  lemma OrderMore(es: seq<Event>, e: Event, ids: seq<string>, k: nat, m: nat)
    requires RaisedFirst(es, ids) && k < m < |ids|
    requires forall i: nat :: i < |es| ==> (Hears(es + [e], i) <==> Hears(es, i)) && (es + [e])[i] == es[i]
    ensures RaisedBefore(es + [e], ids[k], ids[m])
  {
    BeforeMore(es, e, ids, ids[k], ids[m]);
  }

  lemma ApprovalsMore(es: seq<Event>, e: Event, ids: seq<string>, next: seq<string>)
    requires RaisedFirst(es, ids)
    requires forall i: nat :: i < |es| ==> (Hears(es + [e], i) <==> Hears(es, i)) && (es + [e])[i] == es[i]
    requires forall id :: id in next <==> id in ids || RaisesAt(es + [e], |es|, id)
    requires next == ids || exists id :: id !in ids && next == ids + [id]
    ensures RaisedFirst(es + [e], next)
  {
    MembersMore(es, e, ids, next);
    if next != ids {
      var id :| id !in ids && next == ids + [id];
      LastRaised(es, e, ids, id);
    }
    forall k, m | 0 <= k < m < |ids|
      ensures RaisedBefore(es + [e], ids[k], ids[m])
    {
      OrderMore(es, e, ids, k, m);
    }
  }

  lemma LastRaised(es: seq<Event>, e: Event, ids: seq<string>, id: string)
    requires RaisedAll(es, ids) && id !in ids
    requires forall i: nat :: i < |es| ==> (Hears(es + [e], i) <==> Hears(es, i)) && (es + [e])[i] == es[i]
    ensures forall k :: 0 <= k < |ids| ==> RaisedBefore(es + [e], ids[k], id)
  {
    forall k | 0 <= k < |ids|
      ensures RaisedBefore(es + [e], ids[k], id)
    {
      BeforeMore(es, e, ids, ids[k], id);
    }
  }

  lemma BeforeMore(es: seq<Event>, e: Event, ids: seq<string>, first: string, second: string)
    requires RaisedAll(es, ids) && first in ids && (second in ids ==> RaisedBefore(es, first, second))
    requires forall i: nat :: i < |es| ==> (Hears(es + [e], i) <==> Hears(es, i)) && (es + [e])[i] == es[i]
    ensures RaisedBefore(es + [e], first, second)
  {
    var more := es + [e];
    assert forall i: nat, id: string :: i < |es| ==> (RaisesAt(more, i, id) <==> RaisesAt(es, i, id));
    var i: nat :| RaisesAt(es, i, first);
    assert RaisesAt(more, i, first);
  }

  lemma {:induction false} FrozenExactly(es: seq<Event>)
    ensures Frozen(es) <==> exists j :: 0 <= j < |es| && es[j].Freeze?
  {
    if es != [] {
      FrozenExactly(es[..|es| - 1]);
      assert es == es[..|es| - 1] + [es[|es| - 1]];
    }
  }

  lemma {:induction false} DeltaSeen(cfg: Config, es: seq<Event>)
    requires Genuine(es)
    ensures Replaced(cfg, Seen(es)) <==> cfg.replaceFollow && exists i: nat :: StreamsAt(es, i)
  {
    if es != [] {
      var init, e := es[..|es| - 1], es[|es| - 1];
      assert es == init + [e];
      DeltaSeen(cfg, init);
      Snoc(init, e);
      FrozenExactly(init);
      if Sees(es, |init|) {
        ReplacedMore(cfg, Seen(init), e.frame);
        DeltaExactly(e.frame.captured);
      }
      DeltaMore(init, e);
    }
  }

  lemma DeltaMore(es: seq<Event>, e: Event)
    ensures (exists i: nat :: StreamsAt(es + [e], i))
      <==> (exists i: nat :: StreamsAt(es, i)) || StreamsAt(es + [e], |es|)
  {
    var more := es + [e];
    forall i: nat | i < |es|
      ensures StreamsAt(more, i) <==> StreamsAt(es, i)
    {
      assert more[..i] == es[..i] && more[i] == es[i];
      assert forall j :: 0 <= j < i ==> more[j] == more[..i][j] && es[j] == es[..i][j];
    }
  }

  // ---------------------------------------------------------------- replies

  /** What stands along the path in the reply's JSON, unless it is false, zero, empty or null. */
  ghost predicate WordIs(envelope: Option<Json>, path: seq<string>, word: Option<Json>) {
    match word
    case Some(v) => envelope.Some? && Has(envelope.value, path, v) && Truthy(Some(v))
    case None => envelope.None? || forall v: Json :: Has(envelope.value, path, v) ==> !Truthy(Some(v))
  }

  /** What the host's reply to the prompt says, by its JSON. */
  ghost predicate PromptSays(reply: Reply, receipt: PromptReceipt) {
    match reply
    case Threw(message) => receipt == NoReply(message)
    case Answered(status, _, envelope) =>
      if envelope.Some? && Has(envelope.value, ["result", "ok"], Bool(true))
         && Has(envelope.value, ["result", "value", "accepted"], Bool(true))
      then receipt == Taken
      else
        && receipt.NotTaken? && receipt.detail.NotAccepted? && receipt.detail.status == status
        && WordIs(envelope, ["result", "error", "code"], receipt.detail.code)
        && WordIs(envelope, ["result", "error", "details", "reason"], receipt.detail.reason)
  }

  lemma PromptRead(reply: Reply)
    ensures PromptSays(reply, ReadPrompt(reply))
  {
    if reply.Answered? {
      AcceptsExactly(reply.envelope);
      if reply.envelope.Some? {
        var v := reply.envelope.value;
        forall leaf: Json { HasThree(v, "result", "error", "code", leaf); }
        forall leaf: Json { HasFour(v, "result", "error", "details", "reason", leaf); }
      }
    }
  }

  /** What the host's reply to an answer says, by its JSON; the record keeps the first 500 characters of the body. */
  ghost predicate AnswerSays(reply: Reply, receipt: AnswerReceipt) {
    match reply
    case Threw(message) => receipt == AnswerReceipt(Failed(PostThrew(message)), None)
    case Answered(status, body, envelope) =>
      && receipt.raw.Some? && receipt.raw.value.0 == status && receipt.raw.value.1 <= body
      && |receipt.raw.value.1| == (if |body| < 500 then |body| else 500)
      && (if envelope.None? || envelope == Some(Null) then receipt.state == Failed(NoEnvelope(status))
          else if Has(envelope.value, ["result", "ok"], Bool(true)) then receipt.state == Delivered
          else if exists code: Json :: Has(envelope.value, ["result", "error", "code"], code) && code != Null then
            receipt.state.Failed? && receipt.state.detail.HostCode? && receipt.state.detail.code != Null
            && Has(envelope.value, ["result", "error", "code"], receipt.state.detail.code)
          else receipt.state == Failed(HostStatus(status)))
  }

  lemma AnswerRead(reply: Reply)
    ensures AnswerSays(reply, ReadAnswer(reply))
  {
    if reply.Answered? && reply.envelope.Some? {
      var v := reply.envelope.value;
      HasTwo(v, "result", "ok", Bool(true));
      forall leaf: Json { HasThree(v, "result", "error", "code", leaf); }
    }
  }

  /** The `i`th event is the prompt's reply, before the report is written. */
  predicate PromptLands(es: seq<Event>, i: nat) {
    i < |es| && es[i].PromptReply? && forall j :: 0 <= j < i ==> !es[j].Freeze?
  }

  predicate AnswerLands(es: seq<Event>, index: nat, i: nat) {
    i < |es| && es[i].AnswerReply? && es[i].index == index && forall j :: 0 <= j < i ==> !es[j].Freeze?
  }

  /** The reply to the prompt, if any: there is one at most. */
  ghost predicate PromptLanding(es: seq<Event>, landed: Option<PromptReceipt>) {
    match landed
    case None => forall i: nat :: !PromptLands(es, i)
    case Some(reply) =>
      (exists i: nat :: PromptLands(es, i)) && forall i: nat :: PromptLands(es, i) ==> es[i].reply == reply
  }

  /** The reply to one answer, if any: there is one at most. */
  ghost predicate AnswerLanding(es: seq<Event>, index: nat, landed: Option<AnswerReceipt>) {
    match landed
    case None => forall i: nat :: !AnswerLands(es, index, i)
    case Some(receipt) =>
      && (exists i: nat :: AnswerLands(es, index, i))
      && forall i: nat :: AnswerLands(es, index, i) ==> es[i].receipt == receipt
  }

  lemma PromptLandingMore(es: seq<Event>, e: Event, landed: Option<PromptReceipt>, next: Option<PromptReceipt>)
    requires PromptLanding(es, landed) && (PromptLands(es + [e], |es|) ==> landed.None?)
    requires next == if PromptLands(es + [e], |es|) then Some(e.reply) else landed
    ensures PromptLanding(es + [e], next)
  {
    var more := es + [e];
    assert forall i: nat :: i < |es| ==> (PromptLands(more, i) <==> PromptLands(es, i)) && more[i] == es[i];
  }

  lemma AnswerLandingMore(es: seq<Event>, index: nat, e: Event, landed: Option<AnswerReceipt>,
          next: Option<AnswerReceipt>)
    requires AnswerLanding(es, index, landed) && (AnswerLands(es + [e], index, |es|) ==> landed.None?)
    requires next == if AnswerLands(es + [e], index, |es|) then Some(e.receipt) else landed
    ensures AnswerLanding(es + [e], index, next)
  {
    var more := es + [e];
    assert forall i: nat :: i < |es| ==>
                              (AnswerLands(more, index, i) <==> AnswerLands(es, index, i)) && more[i] == es[i];
  }

  /** A reply comes only while its request is in the air, so only for the first time. */
  lemma FirstReply(cfg: Config, es: seq<Event>, e: Event)
    requires Run(cfg, es).Some? && Enabled(cfg, Run(cfg, es).value, e) && !Frozen(es)
    ensures e.PromptReply? ==> PromptReplyIn(es).None?
    ensures e.AnswerReply? ==> AnswerReplyIn(es, e.index).None?
  {
    RunKeepsInv(cfg, es);
  }

  lemma {:induction false} PromptLandsOnce(cfg: Config, es: seq<Event>)
    requires Run(cfg, es).Some?
    ensures PromptLanding(es, PromptReplyIn(es))
  {
    if es != [] {
      var init, e := es[..|es| - 1], es[|es| - 1];
      RunLast(cfg, es);
      PromptLandsOnce(cfg, init);
      Snoc(init, e);
      FrozenExactly(init);
      if !Frozen(init) { FirstReply(cfg, init, e); }
      PromptLandingMore(init, e, PromptReplyIn(init), PromptReplyIn(es));
    }
  }

  lemma {:induction false} AnswerLandsOnce(cfg: Config, es: seq<Event>, index: nat)
    requires Run(cfg, es).Some?
    ensures AnswerLanding(es, index, AnswerReplyIn(es, index))
  {
    if es != [] {
      var init, e := es[..|es| - 1], es[|es| - 1];
      RunLast(cfg, es);
      AnswerLandsOnce(cfg, init, index);
      Snoc(init, e);
      FrozenExactly(init);
      if !Frozen(init) { FirstReply(cfg, init, e); }
      AnswerLandingMore(init, index, e, AnswerReplyIn(init, index), AnswerReplyIn(es, index));
    }
  }

  // ---------------------------------------------------------------- what a run sends

  /** The request is sent once if it is due, and never otherwise. */
  predicate Once(sent: seq<Sent>, request: Sent, due: bool) {
    && (request in sent <==> due)
    && forall i, j :: 0 <= i < j < |sent| ==> sent[i] != request || sent[j] != request
  }

  lemma {:induction false} PromptCounted(sent: seq<Sent>)
    ensures PromptsSent(sent) == 0 <==> PromptPost !in sent
    ensures PromptsSent(sent) <= 1 ==> Once(sent, PromptPost, PromptPost in sent)
  {
    if sent != [] {
      PromptCounted(sent[..|sent| - 1]);
      assert sent == sent[..|sent| - 1] + [sent[|sent| - 1]];
    }
  }

  lemma {:induction false} FollowCounted(sent: seq<Sent>)
    ensures FollowsReopened(sent) == 0 <==> FollowReopened !in sent
    ensures FollowsReopened(sent) <= 1 ==> Once(sent, FollowReopened, FollowReopened in sent)
  {
    if sent != [] {
      FollowCounted(sent[..|sent| - 1]);
      assert sent == sent[..|sent| - 1] + [sent[|sent| - 1]];
    }
  }

  /** The answers posted: one for each approval raised, in order, numbered from 1, with the decision asked for. */
  predicate Posted(cfg: Config, posts: seq<Sent>, client: Option<string>, ids: seq<string>) {
    if client.None? then posts == []
    else
      && |posts| == |ids|
      && forall i :: 0 <= i < |ids| ==>
           posts[i] == AnswerPost(i + 1, client.value, ids[i],
                                  if cfg.approval == AllowOnce then AllowedOnce else Rejected)
  }

  /**
   * Everything that leaves the process, at every moment of every run, in terms of what the socket delivered. The prompt
   * is posted once if a `ready` frame with a client id was heard on the event stream and a snapshot on the follow
   * stream; an answer is posted for each approval request heard on the event stream, to the client announced first; the
   * follow stream is reopened once if that was asked for and a text delta was seen.
   */
  lemma RequestsExactly(cfg: Config, es: seq<Event>) returns (client: Option<string>, ids: seq<string>)
    requires Run(cfg, es).Some? && Genuine(es)
    ensures ClientIs(es, client) && RaisedFirst(es, ids)
    ensures var sent := Run(cfg, es).value.work.sent;
      && Once(sent, PromptPost, client.Some? && exists i: nat :: SnapshotsAt(es, i))
      && Posted(cfg, AnswersSent(sent), client, ids)
      && Once(sent, FollowReopened, cfg.replaceFollow && exists i: nat :: StreamsAt(es, i))
  {
    client, ids := ClientOf(Heard(es)), Approvals(Heard(es));
    var sent := Run(cfg, es).value.work.sent;
    ClientHeard(es);
    ApprovalsHeard(es);
    BaselineHeard(es);
    DeltaSeen(cfg, es);
    RequestsSent(cfg, es);
    PromptCounted(sent);
    FollowCounted(sent);
  }

  // ---------------------------------------------------------------- what a report says

  /** What became of the prompt, by the reply that landed before the report was written. */
  ghost predicate PromptTold(es: seq<Event>, r: TurnResult) {
    if !r.promptSent then r.promptState == NotSent && r.promptDetail == None && !r.evidence.promptAccepted
    else if forall i: nat :: !PromptLands(es, i) then
      r.promptState == PromptFailed && r.promptDetail == Some(NoAcceptance) && !r.evidence.promptAccepted
    else
      forall i: nat :: PromptLands(es, i) ==>
        match es[i].reply
        case Taken => r.promptState == Accepted && r.promptDetail == None && r.evidence.promptAccepted
        case NoReply(message) =>
          r.promptState == PromptFailed && r.promptDetail == Some(PromptThrew(message)) && !r.evidence.promptAccepted
        case NotTaken(detail) =>
          r.promptState == PromptFailed && r.promptDetail == Some(detail) && !r.evidence.promptAccepted
  }

  /** What became of one answer, by the reply that landed for it before the report was written. */
  ghost predicate AnswerTold(cfg: Config, es: seq<Event>, index: nat, id: string, record: AnswerRecord) {
    && record.eventId == id
    && record.outcome == (if cfg.approval == AllowOnce then AllowedOnce else Rejected)
    && (if forall i: nat :: !AnswerLands(es, index, i) then record.state == Failed(NoReceipt) && record.raw == None
        else
          forall i: nat :: AnswerLands(es, index, i) ==>
            record.state == es[i].receipt.state && record.raw == es[i].receipt.raw)
  }

  lemma AnswerTells(cfg: Config, es: seq<Event>, index: nat, id: string)
    requires Run(cfg, es).Some? && Receipts(es)
    ensures AnswerTold(cfg, es, index, id, CloseAnswer(RecordAt(cfg, es, id, index)))
  {
    AnswerLandsOnce(cfg, es, index);
    if AnswerReplyIn(es, index).Some? {
      ReceiptFinal(es, index);
    }
  }

  lemma PromptTells(cfg: Config, es: seq<Event>, r: TurnResult)
    requires Run(cfg, es).Some? && Frozen(es) && ReportAt(cfg, es, r)
    ensures PromptTold(es, r)
  {
    PromptLandsOnce(cfg, es);
    ReplyNeedsPost(cfg, es);
  }

  /**
   * The report, in terms of what the socket and the host delivered: whether the prompt left, one record for each
   * approval heard and in that order, what each reply said, and which event stopped the turn first.
   */
  lemma ReportExactly(cfg: Config, es: seq<Event>) returns (client: Option<string>, ids: seq<string>)
    requires Run(cfg, es).Some? && Frozen(es) && Genuine(es) && Receipts(es)
    ensures ClientIs(es, client) && RaisedFirst(es, ids)
    ensures var result := Run(cfg, es).value.result;
      result.Some? && var r := result.value;
      && (r.promptSent <==> client.Some? && exists i: nat :: SnapshotsAt(es, i))
      && PromptTold(es, r)
      && |r.answers| == (if client.Some? then |ids| else 0)
      && (forall k: nat :: k < |r.answers| ==> AnswerTold(cfg, es, k, ids[k], r.answers[k]))
      && StoppedBy(es, r.stoppedBy)
  {
    client, ids := ClientOf(Heard(es)), Approvals(Heard(es));
    ReportSaysWhatHappened(cfg, es);
    var r := Run(cfg, es).value.result.value;
    ClientHeard(es);
    ApprovalsHeard(es);
    BaselineHeard(es);
    StopRead(es);
    PromptTells(cfg, es, r);
    forall k: nat | k < |r.answers|
      ensures AnswerTold(cfg, es, k, ids[k], r.answers[k])
    {
      AnswerTells(cfg, es, k, ids[k]);
    }
  }

  /** The provenance line of a report is the verdict on what the frames seen mean, by the fields they carry. */
  lemma VerdictOfReport(cfg: Config, es: seq<Event>) returns (os: seq<Observation>)
    requires Run(cfg, es).Some? && Frozen(es) && Genuine(es)
    ensures |os| == |Seen(es)| && forall i :: 0 <= i < |os| ==> Means(Seen(es)[i].captured.value, os[i])
    ensures var result := Run(cfg, es).value.result;
      result.Some? && var r := result.value;
      var v := ModelBackedVerdict(r.evidence, r.promptSent);
      && v.attempted == r.promptSent
      && (v.modelBacked <==> r.promptSent && r.evidence.promptAccepted && !Waits(os) && !Asks(os) && !Silent(os))
      && (if r.promptSent then StallIs(os, r.evidence.promptAccepted, v.stalledOn) else v.stalledOn == None)
  {
    os := Said(Seen(es));
    ReportSaysWhatHappened(cfg, es);
    SeenGenuine(es);
    forall i | 0 <= i < |os|
      ensures Means(Seen(es)[i].captured.value, os[i])
    {
      ReadExactly(Seen(es)[i].captured.value, os[i]);
    }
    VerdictTells(os, PromptTaken(es), Run(cfg, es).value.result.value.promptSent);
  }
}
