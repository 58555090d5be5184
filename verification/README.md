# Verified models of the capture turn, the wire reader, the check pipeline and its small cores

This project models the parts of the repository that hold the most state, concurrency and arithmetic, and proves what their
comments, tests and release process rely on. `dafny verify dfyconfig.toml` checks all of it.

- **One capture turn** (`Turn`, `TurnTrace`, `TurnFlights`, `TurnRuns`, `TurnReport`, `TurnStreams`, `PromptTurn`,
  `Evidence`, `FrameMeaning`, `Json`). A prompt turn is a state machine over queue entries: frames, replies, promises
  leaving the in-flight set, two timers, the freeze. The environment may deliver any enabled event next. `PromptTurn` is
  the same turn as an object whose handlers update its variables; each handler is proved equal to its step. `TurnReport`
  says what every run's report contains in terms of the events alone, and `TurnStreams` says it in terms of stream ids,
  JSON fields and replies.
- **The WebSocket reader and writer** (`Bytes`, `Wire`, `WireRoundTrip`, `WireFrames`, `WebSocketWire`,
  `ClientFrame`). Arbitrary chunks, three length encodings (RFC 6455, section 5.2), masking in place (section 5.3), fragments and interleaved
  control frames (section 5.4), the compression flag and tail (RFC 7692, sections 6 and 7.2.2).
- **The check pipeline** (`Sorting`, `Sequences`, `Shard`, `ShardBalance`, `CheckPlan`, `PlanFacts`, `PlanContents`,
  `PlanCoverage`, `Planner`, `Pool`, `TaskPool`, `CheckRun`, `RunAccounts`, `RunReport`, `RunOutcomes`, `RunRecords`,
  `Runner`, `CheckEvidence`, `EvidenceAgrees`, `Acceptance`, `EvidenceWitness`, `Aggregate`, `ReleaseAudit`, `Partition`, `Contributors`, `NewestRelease`): the longest-first sharder
  with its balance bounds, the planner, the task pool with its mutual-exclusion class, the runner's accounting, the
  validator, the aggregator, the static audit of the release matrix, and the choice of each partition's newest artifact.
  The runner, the validator, the aggregator and the audit are separate code in the repository; the theorems in
  `EvidenceAgrees`, `ReleaseAudit` and `NewestRelease` say that they agree.
- **The child stopper** (`Child`, `ChildStopper`): a SIGTERM, poll, re-prove, SIGKILL protocol over a log of actions,
  against any answers of the process table.
- **Small exact cores** (`Fnv`, `Contract`, `Png`, `PngVerdict`): the 32-bit FNV-1a surface hash, the compatibility matrix, the bounded
  context body, and the golden-image PNG walker (W3C PNG specification, sections 5.2 and 5.3).

Code that computes in expressions is a function with lemmas about it. Code that updates variables in loops or handlers is a
method or a class, proved equal to a specification function or predicate about which the properties are proved.

What the environment decides is a parameter: event orders and replies of a turn, process-table answers and the clock of the
child stopper (it does not go back, and a sleep advances it), what each command of a run does and when a signal arrives, the
files found. Pure code that is not modelled is a parameter too: inflate, JSON parsing of wire payloads and the reading of the
extension header (`Wire.Codec`), the pattern of Flutter shard ids, the orders behind `localeCompare` and the default sort,
whether a suite runs on a host (`CheckPlan.Catalogue`).

## Where the code and its documentation differ

- The comment on `receiptsSettled` (scripts/adapters/dsh-capture-turn.ts, line 76) says it is set when the deadline, the
  grace window or both ended the turn. The code sets it when nothing is in flight at the freeze: exactly when the prompt,
  every answer sent and every approval taken on after the stop left the in-flight set before it
  (`TurnReport.WaitsForReceipts`). `TurnReport.SettledUntimed` is a run with the field set and neither period run out,
  `TurnReport.TimedUnsettled` runs with both run out and the field not set.
- `sameSet` is sound only if the expected list has no repeats: `CheckEvidence.SameSetFooled` is a list it wrongly accepts
  and `CheckEvidence.SameSetExact` the exact condition. `ReleaseAudit.CoverageOnce` shows the plans it is used with meet
  it.
- The duplicate-attempt check of the artifact loop notices only a repeat of the highest attempt so far
  (`Contributors.RefusedExactly`, `Contributors.DuplicateMissed`). Directory names are canonical, so no listing has such a
  repeat (`Contributors.SelectsNewest`).
- `boundContextBody` is documented to return well-formed UTF-16 always. It does exactly when no lone surrogate of the text
  is in the part kept (`Contract.CutMakesNoLone`, `Contract.LoneIsKept`).
- A validator that reads `leaked: []` as clean accepts an attempt the runner's own test would fail; the runner never
  records one (`EvidenceAgrees.CleanExactly`, `EvidenceAgrees.AttemptsAgree`).
- The runner records an empty commit outside a checkout (scripts/ci/run.ts, line 343), and the validator wants 40 hex
  digits, so a complete pass can be refused: `EvidenceWitness.PassRefused` is one. For an unfiltered, unrepeated pass the
  commit is all that decides (`EvidenceAgrees.CommitDecides`): the validator's check of the host never does, because the
  suites run only on linux, darwin and win32 (scripts/ci/suites.ts, lines 272, 311 and 364;
  `EvidenceAgrees.HostSupported`).

## Model

| member | source | states |
|---|---|---|
| TurnReport.ResolvesOnce | scripts/adapters/dsh-capture-turn.ts:129-285 | In every run the turn resolves at most once, exactly when the freeze happens; no later event, a late receipt included, changes the report |
| TurnReport.ReportSaysWhatHappened | scripts/adapters/dsh-capture-turn.ts:204-284 | The report field by field from the events alone: the evidence is the fold of every frame before the freeze, `frames` its first `maxFrames`, the answers the distinct approvals raised while running (none without a client id), each closed by its own receipt, `stoppedBy` the first stop reason, and `receiptsSettled` exactly whether the promises of the prompt, of every answer and of every approval taken on after the stop had all left the in-flight set |
| TurnReport.PromptAccounted | scripts/adapters/dsh-capture-turn.ts:167-202 | `promptState` is never `pending` in a report, is `not-sent` exactly when the prompt was not sent, and `accepted` exactly when the evidence says so, which is exactly when an accepting receipt landed before the freeze |
| TurnReport.AcceptedNeedsEnvelope | scripts/adapters/dsh-capture-turn.ts:176-202 | `accepted` is reported only if the host's reply was an accepting envelope and landed before the freeze |
| TurnReport.ReplyNeedsPost | scripts/adapters/dsh-capture-turn.ts:131-202 | A prompt reply or an answer receipt can only come for a request that was due |
| TurnReport.AnswersAccounted | scripts/adapters/dsh-capture-turn.ts:138-165 | One record per approval due, distinct event ids in the order first raised, none left `attempted`; `delivered` exactly with an ok receipt before the freeze, and the no-receipt detail exactly without one |
| TurnReport.ApprovalsDistinct | scripts/adapters/dsh-capture-turn.ts:233-239 | The approvals taken on are pairwise different |
| TurnReport.DeliveredExactly | scripts/adapters/dsh-capture-prompt.ts:465-513 | An answer is delivered exactly when the reply is an envelope with `result.ok === true`; every reply settles it and keeps at most 500 units of the body |
| TurnReport.RequestsSent | scripts/adapters/dsh-capture-turn.ts:138-231 | At every moment: the prompt has been posted once if both a client id and a baseline were heard while running and otherwise not at all; one answer per approval due, numbered in order, with the announced client id; the follow stream reopened once a text delta was seen, if that was asked for |
| TurnReport.WaitsForReceipts | scripts/adapters/dsh-capture-turn.ts:131-283 | `receiptsSettled` holds exactly when everything taken on left the in-flight set before the freeze, and then every reply that was due came; a missing reply means the grace period was waited out, and so does an unsettled turn unless an approval was taken on after the stop; the turn stops by `timeoutMs`, for the deadline only then, and freezes by `timeoutMs + graceMs` |
| TurnReport.SettledUntimed | scripts/adapters/dsh-capture-turn.ts:76-282 | A run the comment on `receiptsSettled` is wrong about: set, though neither the deadline nor the grace period ended the turn |
| TurnReport.TimedUnsettled | scripts/adapters/dsh-capture-turn.ts:76-282 | The other way round: whatever the two frames that announce the client and the baseline, if the host never answers the prompt both periods end the turn and the field is not set |
| TurnReport.ResolvedInTime | scripts/adapters/dsh-capture-turn.ts:244-258 | Once the clock is past `timeoutMs + graceMs` there is a report |
| TurnReport.TimersResolve | scripts/adapters/dsh-capture-turn.ts:256-306 | From wherever a run has got to, the two timers alone lead to a report: nothing the host withholds can hold the turn open |
| TurnReport.ReportModelBacked | scripts/adapters/dsh-capture-prompt.ts:321-375 | A report is model-backed exactly when the prompt left after both subscriptions, its acceptance landed before the freeze, approvals and questions were settled, and a live frame before the freeze carried visible assistant text |
| TurnStreams.RequestsExactly | scripts/adapters/dsh-capture-turn.ts:138-239 | In terms of stream ids and JSON fields alone, at every moment of every run: the prompt is posted once exactly if a `ready` frame with a non-empty client id was heard on `cap-turn-events` and a `snapshot` on `cap-turn-follow`; the answers are one for each distinct non-empty `eventId` of an `approval/request` heard on `cap-turn-events`, in order, numbered from 1, to the client announced first and with the decision asked for; the follow stream is reopened once exactly if asked for and a text delta was seen |
| TurnStreams.ReportExactly | scripts/adapters/dsh-capture-turn.ts:204-284 | In the same terms, what a report says: whether the prompt left, one record for each approval heard and in that order with what its reply said, what became of the prompt by the reply that landed, and the reason of the first event that stops a turn |
| TurnStreams.VerdictOfReport | scripts/adapters/dsh-capture-prompt.ts:321-375 | The verdict on a report, by what the fields of the frames seen mean |
| TurnStreams.PromptRead | scripts/adapters/dsh-capture-turn.ts:186-201 | What the host's reply to the prompt says by its JSON: taken exactly if `result.ok` and `result.value.accepted` are true, otherwise its status with the code and the reason that are there |
| TurnStreams.AnswerRead | scripts/adapters/dsh-capture-prompt.ts:480-513 | What the host's reply to an answer says by its JSON: delivered exactly if `result.ok` is true, otherwise the code that is there or the status; the first 500 characters of the body are kept |
| TurnRuns.StepKeepsInv | scripts/adapters/dsh-capture-turn.ts:112-284 | Every event keeps the invariant that ties view, work, clock and report to the events so far, and after the freeze keeps the report |
| TurnRuns.RunKeepsInv | scripts/adapters/dsh-capture-turn.ts:112-284 | The invariant holds of every reachable state |
| TurnRuns.HandleLive | scripts/adapters/dsh-capture-turn.ts:204-239 | Handling a frame while running sends exactly the answers and the prompt that the frames heard so far make due |
| TurnRuns.HandleSettling | scripts/adapters/dsh-capture-turn.ts:204-239 | A frame after the stop sends no answer and no prompt |
| TurnRuns.FreezeReports | scripts/adapters/dsh-capture-turn.ts:260-284 | Freezing writes the report the events call for, its settled flag included, and closes what is still open |
| TurnRuns.SettledExactly | scripts/adapters/dsh-capture-turn.ts:131-282 | Nothing is in flight exactly when everything the events made the turn take on was forgotten |
| TurnRuns.FreezeWaited | scripts/adapters/dsh-capture-turn.ts:249-257 | A freeze short of the whole grace period finds every reply in, and in flight at most answers that were never sent |
| TurnFlights.HandleTracks | scripts/adapters/dsh-capture-turn.ts:158-239 | In any phase a frame takes on one operation per approval it makes the turn owe, and in flight stays exactly what was started and not yet forgotten |
| PromptTurn.PromptTurn.constructor | scripts/adapters/dsh-capture-turn.ts:112-129 | The handlers' variables at the start are the empty run's |
| PromptTurn.PromptTurn.LaunchAnswer | scripts/adapters/dsh-capture-turn.ts:138-165 | Taking on an answer: recorded before it is sent, or tracked without being sent once stopped |
| PromptTurn.PromptTurn.SendPrompt | scripts/adapters/dsh-capture-turn.ts:167-178 | The prompt leaves only once, while running, with a client id and a baseline |
| PromptTurn.PromptTurn.Stop | scripts/adapters/dsh-capture-turn.ts:245-258 | Only the first reason stops the turn, and what is in flight then is awaited |
| PromptTurn.PromptTurn.FoldFrame | scripts/adapters/dsh-capture-turn.ts:204-243 | One frame: recorded, folded into the evidence, subscriptions and approvals taken, then asked whether it stops the turn |
| PromptTurn.PromptTurn.LandPrompt | scripts/adapters/dsh-capture-turn.ts:178-202 | The prompt's reply or error |
| PromptTurn.PromptTurn.LandAnswer | scripts/adapters/dsh-capture-turn.ts:145-155 | An answer's receipt overwrites its record |
| PromptTurn.PromptTurn.Freeze | scripts/adapters/dsh-capture-turn.ts:260-285 | The report is written once from the variables as they are |
| PromptTurn.PromptTurn.Handle | scripts/adapters/dsh-capture-turn.ts:187-308 | Whatever event comes next, the variables stay those of a run of the state machine, and a report once written stays |
| Evidence.ApplyMerges | scripts/adapters/dsh-capture-prompt.ts:231-302 | Observing one frame commutes with merging evidence gathered before it |
| Evidence.FoldMerges | scripts/adapters/dsh-capture-prompt.ts:231-302 | The fold over frames from any evidence is that evidence merged with the fold from none |
| Evidence.FoldAppend | scripts/adapters/dsh-capture-prompt.ts:231-302 | Folding two lists in turn is folding their concatenation |
| Evidence.ObservedConcat | scripts/adapters/dsh-capture-prompt.ts:231-302 | Evidence of a concatenation is the merge of the two: counters add, approval ids keep their order, the stream's end is the first, the turn's end the last |
| Evidence.FoldCounts | scripts/adapters/dsh-capture-prompt.ts:181-228 | The approval and question counters count the frames of their kind, and a question counts as settled by the last turn end |
| Evidence.FoldVisible | scripts/adapters/dsh-capture-prompt.ts:129-148 | Visible text has been counted exactly if some frame carried visible text |
| Evidence.SpeaksRead | scripts/adapters/dsh-capture-prompt.ts:231-302 | A frame counts as visible assistant text exactly when it is a live committed message or text delta with visible characters, never a reasoning or tool-call delta |
| Evidence.ModelBackedExactly | scripts/adapters/dsh-capture-prompt.ts:321-375 | Model-backed exactly when the prompt was sent and accepted, no approval is outstanding, no question is open, and some live frame spoke |
| Evidence.HistoryChangesNothing | scripts/adapters/dsh-capture-prompt.ts:247-302 | A snapshot frame inserted anywhere changes neither the verdict nor what it stalled on |
| FrameMeaning.ReadExactly | scripts/adapters/dsh-capture-prompt.ts:189-302 | Reading is exact: for every JSON value and every observation, the reader reports it exactly if the fields of the value, path by path, say so |
| FrameMeaning.PartsJoined | scripts/adapters/dsh-capture-prompt.ts:113-127 | The text of a list of parts is what each carries in its own `text`, joined in order |
| FrameMeaning.FoldSums | scripts/adapters/dsh-capture-prompt.ts:150-302 | Every counter of the evidence is a sum over the frames: lengths, trimmed lengths and non-empty pieces of committed and of streamed text, history records, tool events |
| FrameMeaning.FoldEnds | scripts/adapters/dsh-capture-prompt.ts:192-300 | The stream end kept is the first, the turn end the last |
| FrameMeaning.FoldReady | scripts/adapters/dsh-capture-prompt.ts:252-257 | The client id kept is the last non-empty one; any `ready` and any echo count |
| FrameMeaning.FoldAsked | scripts/adapters/dsh-capture-prompt.ts:258-265 | The approval ids kept are those asked for, in order |
| FrameMeaning.VerdictTells | scripts/adapters/dsh-capture-prompt.ts:321-375 | The whole verdict by what the frames said: what the turn stalled on, and on nothing |
| FrameMeaning.AcceptsExactly | scripts/adapters/dsh-capture-prompt.ts:305-310 | A prompt is accepted exactly if the envelope has `result.ok` and `result.value.accepted` true |
| Json.TrimIs | scripts/adapters/dsh-capture-prompt.ts:126 | Trimming cuts the blank characters at both ends and nothing else |
| Json.BlankExactly | scripts/adapters/dsh-capture-prompt.ts:126 | The blank characters are the white space and line terminators of ECMA-262, by code point |
| Wire.DecodeMore | e2e/harness/websocket-wire.ts:106-120 | A frame decoded from a buffer is decoded the same when more bytes follow, and an oversized one is refused the same |
| Wire.DrainMore | e2e/harness/websocket-wire.ts:106-133 | Draining a longer buffer is draining the shorter and then going on |
| Wire.ChunkInvariance | e2e/harness/websocket-wire.ts:95-134 | Receiving `a` then `b` is receiving `a + b`, for arbitrary bytes and states, splits inside the handshake, a length field or a payload included |
| Wire.AnyChunking | e2e/harness/websocket-wire.ts:95-134 | Any cut of the bytes into chunks leaves the state one chunk would, if no step throws |
| Wire.ReceiveAppends | e2e/harness/websocket-wire.ts:131-132 | Messages once reported are never changed or withdrawn |
| WireRoundTrip.DecodeEncode | e2e/harness/websocket-wire.ts:106-120 | Decoding inverts encoding in all three length forms (RFC 6455, section 5.2) |
| WireRoundTrip.AcceptMessage | e2e/harness/websocket-wire.ts:121-131 | The frames of one message, however fragmented and interleaved with skipped frames, report it once with its flag, its data-frame bytes and its decoded length |
| WireRoundTrip.RoundTrip | e2e/harness/websocket-wire.ts:95-134 | Any messages, any fragments, any control frames between them, any 101 head, any cut into chunks: exactly those messages in order, nothing kept back, nothing thrown |
| WireRoundTrip.PartialStream | e2e/harness/websocket-wire.ts:95-134 | Part of the stream reports a prefix of the messages that includes every one whose last byte has arrived |
| WireRoundTrip.DecodeWaits | e2e/harness/websocket-wire.ts:106-120 | Any beginning of a frame short of all of it is waited for |
| WireRoundTrip.HeaderWaits | e2e/harness/websocket-wire.ts:106-118 | So is a header whose length bytes have not all arrived |
| WireRoundTrip.DecodeRefuses | e2e/harness/websocket-wire.ts:112-119 | A frame said to be longer than 16 MiB is refused as soon as its length is there |
| WireRoundTrip.MaskIgnored | e2e/harness/websocket-wire.ts:106-120 | The mask bit of a received frame is not looked at |
| WireFrames.AcceptTells | e2e/harness/websocket-wire.ts:121-131 | For frames in any order, the reader goes on exactly as long as everything it reports can be read, and reports just that |
| WireFrames.AnyFrames | e2e/harness/websocket-wire.ts:95-134 | Whatever frames follow the head, in order or out of it, and however the bytes are cut, each final data frame reports the data frames since the last one that began a message |
| WireFrames.StopsAtUnreadable | e2e/harness/websocket-wire.ts:121-131 | A message that cannot be decoded or parsed is the end: what was reported stays, and what follows is left in the buffer |
| WireFrames.StopsAtHuge | e2e/harness/websocket-wire.ts:112-119 | A frame said to be longer than 16 MiB is the end, and nothing of it is taken off the buffer |
| WireFrames.HeadRefused | e2e/harness/websocket-wire.ts:97-101 | A response whose head does not begin with `HTTP/1.1 101` is refused once the head is there |
| WireFrames.HeadAwaited | e2e/harness/websocket-wire.ts:97-100 | Until an empty line has come nothing is read |
| WebSocketWire.WebSocketWire.Receive | e2e/harness/websocket-wire.ts:95-134 | The reader's fields after a chunk are the specification's, or it throws the same problem |
| WebSocketWire.WebSocketWire.NextFrame | e2e/harness/websocket-wire.ts:106-120 | One frame is taken off the buffer, or it waits, or it refuses the size |
| WebSocketWire.WebSocketWire.DrainBuffer | e2e/harness/websocket-wire.ts:106-133 | The frame loop drains the buffer as specified |
| WebSocketWire.WebSocketWire.TakeFrame | e2e/harness/websocket-wire.ts:121-132 | One frame's effect on the fragments, the flags and the reported messages |
| WebSocketWire.WebSocketWire.OnData | e2e/harness/websocket-wire.ts:93-96 | A chunk that makes the reader throw is recorded as its error |
| WebSocketWire.Send | e2e/harness/websocket-wire.ts:80-89 | The written bytes are the masked client frame of the payload, which is masked in place; at 65536 bytes and above it is refused with the payload untouched |
| ClientFrame.MaskedTwice | e2e/harness/websocket-wire.ts:87 | Masking with the same key twice gives the payload back |
| ClientFrame.MaskedBits | e2e/harness/websocket-wire.ts:87 | Bit by bit, a masked byte is the payload's with the bits flipped that are set in the key's byte for its place |
| ClientFrame.Unmasked | e2e/harness/websocket-wire.ts:87 | A server that flips those bits has the payload (RFC 6455, section 5.3) |
| Bytes.XorBit | e2e/harness/websocket-wire.ts:87 | A bit of the exclusive or is 1 exactly when the two bits differ |
| Bytes.BigEndianPlaces | e2e/harness/websocket-wire.ts:112-117 | Numbers are read most significant byte first |
| ClientFrame.ServerReadsClientFrame | e2e/harness/websocket-wire.ts:80-89 | A server reading by RFC 6455 sections 5.2 and 5.3 recovers the payload and the rest of its buffer |
| Sorting.SortPermutes | scripts/ci/check-plan.ts:33 | Sorting keeps the elements, each as often |
| Sorting.SortSorts | scripts/ci/check-plan.ts:33 | The sort puts them in order |
| Sorting.SortedUnique | scripts/ci/check-plan.ts:33 | With ties broken by id there is one sorted order |
| Sorting.SortKeepsTies | scripts/ci/check-plan.ts:84 | The sort is stable |
| Shard.Lightest | scripts/ci/check-plan.ts:34 | The first group that none is lighter than |
| Shard.GroupsConserve | scripts/ci/check-plan.ts:31-39 | Every item is in the groups as often as it was given |
| Shard.GroupsIgnoreOrder | scripts/ci/check-plan.ts:31-39 | The groups do not depend on the order of discovery, so separate jobs agree |
| Shard.GroupsAre | scripts/ci/check-plan.ts:31-39 | The groups are those of placing the items one by one, listed heaviest first and equal ones by id, however they were listed before |
| Shard.GreedyStep | scripts/ci/check-plan.ts:33-37 | Each item goes to the end of the first of the groups that weigh least |
| ShardBalance.LightestBelowAverage | scripts/ci/check-plan.ts:34 | The lightest group is no heavier than the average |
| ShardBalance.GreedyBound | scripts/ci/check-plan.ts:31-39 | Graham: m times any load is at most the total plus (m - 1) times the largest item |
| ShardBalance.GreedyCompetes | scripts/ci/check-plan.ts:31-39 | Any load is within 2 - 1/m of the heaviest group of any other assignment |
| ShardBalance.SomeoneShares | scripts/ci/check-plan.ts:33 | With an item above a third of the bound last, some heavy item must share a group in any assignment within the bound |
| ShardBalance.LastItemFits | scripts/ci/check-plan.ts:33-37 | Such an item goes on the lightest group without leaving the bound |
| ShardBalance.DescendingCompetes | scripts/ci/check-plan.ts:31-39 | Placed heaviest first, any load is within 4/3 - 1/(3m) of the heaviest group of any other assignment |
| ShardBalance.ShardsCompete | scripts/ci/check-plan.ts:31-39 | Both bounds for the shards the planner makes, whatever the tasks, the number of shards and the assignment compared with, which may put equal tasks in different groups |
| Sorting.SortThrough | scripts/ci/check-plan.ts:33 | Sorting by an image and then taking images is taking images and then sorting |
| PlanFacts.OneShardEach | scripts/ci/check-plan.ts:31-77 | With ids used once, each task of a suite is in exactly one shard, whatever the number of shards |
| PlanFacts.ShardsIgnoreOrder | scripts/ci/check-plan.ts:31-39 | Shards do not depend on the order the suite's tasks come in |
| PlanFacts.PlanHolds | scripts/ci/check-plan.ts:60-86 | A plan holds exactly the selected tasks of each suite asked for, once per iteration |
| PlanFacts.PlanOrdered | scripts/ci/check-plan.ts:84 | A plan runs the longest estimates first, and equal ones in the order their suites were asked for |
| PlanFacts.SlotsOnce | scripts/ci/check-plan.ts:60-90 | No plan runs two tasks under one name in one iteration |
| PlanFacts.PrepareApart | scripts/ci/check-plan.ts:78-82 | No prepare step of a plan has the name of one of its tasks |
| PlanFacts.ShardsCoverPlan | scripts/ci/check-plan.ts:60-86 | Every shard of a plannable selection can be planned, and each task of the whole plan is planned by exactly one of them, as often |
| PlanFacts.ShardsAddNothing | scripts/ci/check-plan.ts:60-86 | A shard plans nothing the whole selection does not |
| PlanContents.PlansExactly | scripts/ci/check-plan.ts:60-76 | A plan is made exactly when no suite is asked for twice, no shard is asked for combined, every suite is known and runs on the host, and the files to be merged are some and none twice; otherwise the first failing of these is the reason |
| PlanContents.PlanMeans | scripts/ci/check-plan.ts:60-86 | A planned task is one its suite offers in the layout asked for, which the filter passes and which falls into the shard, once for each iteration, and every such task is planned |
| PlanContents.LongestComeFirst | scripts/ci/check-plan.ts:84 | By their own estimates the longest come first, and equal ones keep the order of the suites asked for |
| PlanContents.PrepareHolds | scripts/ci/check-plan.ts:78-82 | The prepare steps are those of each suite something is selected from, in order |
| PlanContents.CombinedMeans | scripts/ci/check-plan.ts:41-58 | The combined task runs all the files once, after one another, within the sum of the limits it replaces |
| PlanContents.CoversMean | scripts/ci/check-plan.ts:93-97 | What a planned task covers: its files one by one if it runs the client's, otherwise itself |
| PlanCoverage.CombinedCovers | scripts/ci/check-plan.ts:41-97 | Replacing the Flutter shard tasks by the combined task leaves the client suite's coverage as it was |
| PlanCoverage.CombinedKeepsBound | scripts/ci/check-plan.ts:48-56 | All the tasks the combined task replaces, run one after the other in any order within their own limits, end within its limit, and it is exactly their total |
| PlanCoverage.LayoutsCoverSame | scripts/ci/check-plan.ts:41-97 | Combined and sharded layouts cover the same units, each as often |
| PlanCoverage.CombinedPlans | scripts/ci/check-plan.ts:43-65 | The combined layout can be planned exactly when the sharded one can and the client's files are some and none twice |
| Planner.LightestOf | scripts/ci/check-plan.ts:34 | The reduce over the loads finds the specification's lightest |
| Planner.PutOnLightest | scripts/ci/check-plan.ts:34-35 | One step of the loop updates the loads as placing the item does |
| Planner.ShardOf | scripts/ci/check-plan.ts:31-39 | The loop's set of ids is exactly the specification's shard |
| Planner.FlutterTestFiles | scripts/ci/suites.ts:137-160 | The loop's file lists are the greedy groups, each sorted |
| Planner.SplitFilesOnce | scripts/ci/suites.ts:137-160 | Every test file found is given to one shard task and one only |
| Planner.CombinedFindsAll | scripts/ci/check-plan.ts:43-45 | A client suite made of this split recovers exactly the files found, so the combined layout is refused only if none or one twice was found |
| Planner.IdsUnique | scripts/ci/suites.ts:353-361 | The set-filling check accepts a suite exactly when its ids are used once |
| Planner.PlanAll | scripts/ci/check-plan.ts:60-86 | The loop over suites, with its errors, computes the plan |
| Pool.FirstEligible | scripts/ci/run.ts:321 | The first waiting task that may start |
| Pool.FillKeeps | scripts/ci/run.ts:320-334 | The inner loop keeps the invariant and stops only when cancelled, full, or with no task that may start |
| Pool.RoundSettles | scripts/ci/run.ts:319-337 | A round ends asleep on something or returned; it never goes round with nothing running |
| Pool.RunKeeps | scripts/ci/run.ts:314-337 | The invariant holds after any events in any order |
| Pool.PoolSafe | scripts/ci/run.ts:314-337 | At most `concurrency` tasks run, at most one serial task runs, and `serialBusy` is up exactly while one does |
| Pool.NoIdleSlot | scripts/ci/run.ts:320-322 | A task that may start never waits beside a free slot while every running task still runs |
| Pool.EachTaskOnce | scripts/ci/run.ts:314-337 | At every moment each task is waiting, under way or done, and counted once |
| Pool.ReturnsEverything | scripts/ci/run.ts:314-337 | On return, results and never-started tasks are together every task once; uncancelled, the results are |
| Pool.NeverStuck | scripts/ci/run.ts:319-335 | Until it returns, some task can end, leave the running set or wake the loop; once it has returned nothing more happens |
| Pool.RunEnds | scripts/ci/run.ts:319-335 | No run is longer than four events a task and one for a cancellation |
| Pool.CancelFreezes | scripts/ci/run.ts:319-320 | After a cancellation nothing more is started and what was under way still ends in the results |
| Pool.StartsInOrder | scripts/ci/run.ts:320-324 | Tasks start in the order given: one overtakes another only if that one is serial and it is not |
| Pool.RecordsEvents | scripts/ci/run.ts:325-333 | Results come in the order the tasks finished, and only a signal cancels |
| TaskPool.TaskPool.constructor | scripts/ci/run.ts:314-319 | Called with its tasks, the pool runs to its first sleep |
| TaskPool.TaskPool.FindIndex | scripts/ci/run.ts:321 | `findIndex` over the waiting tasks |
| TaskPool.TaskPool.StartWhatMay | scripts/ci/run.ts:320-334 | The inner loop does what the specification's does |
| TaskPool.TaskPool.GoRound | scripts/ci/run.ts:319-336 | One round of the outer loop |
| TaskPool.TaskPool.TaskEnds | scripts/ci/run.ts:325-330 | A task's callback frees the class and records the result |
| TaskPool.TaskPool.PromiseSettles | scripts/ci/run.ts:331 | The promise leaves the running set |
| TaskPool.TaskPool.RaceEnds | scripts/ci/run.ts:335 | The race ends and the loop goes round; if it returns uncancelled, the results are all tasks |
| TaskPool.TaskPool.AskToStop | scripts/ci/run.ts:447-457 | A signal stops the starting of tasks |
| CheckRun.PoolPositions | scripts/ci/run.ts:524 | A returned pool holds positions of the tasks it was given |
| RunAccounts.PrepareFails | scripts/ci/run.ts:492-509 | Only failed prepare steps leave a result, and a broken suite has one |
| RunAccounts.StepsRunOnce | scripts/ci/run.ts:491-500 | No prepare command is run twice, however many suites ask for it |
| RunAccounts.PreparationDecides | scripts/ci/run.ts:492-509 | A suite is broken only if a step of it failed, and uncancelled an unbroken suite has had all its steps work |
| RunAccounts.PoolAccounts | scripts/ci/run.ts:314-337 | Finished and never-started tasks are by name the tasks given |
| RunAccounts.GatheredAccounts | scripts/ci/run.ts:489-524 | When the pool returns, failed steps and every task are recorded, except those a cancelled pool never started |
| RunAccounts.FillsIn | scripts/ci/run.ts:527-536 | What a cancelled run fills in is exactly what was missing |
| RunReport.ReportAccounts | scripts/ci/run.ts:489-566 | Through failed steps, blocked suites, retries, late leaks and cancellation at any point, the report names each planned task and iteration once; the rest are failed prepare steps |
| RunReport.PassGathers | scripts/ci/run.ts:346-559 | A run passes exactly when no signal arrived, every result gathered is good, and no process was found afterwards |
| RunOutcomes.PassExactly | scripts/ci/run.ts:346-559 | In terms of what the commands did alone: a run passes exactly when no signal arrived, every prepare command succeeded the first time it was used, every task ended with exit code 0, in time and leaving nothing running, on its first or a permitted second attempt, and the search afterwards found nothing |
| RunOutcomes.AttemptsTell | scripts/ci/run.ts:246-295 | A result says what its commands did: pass, flaky and fail by their exit codes, timeouts and leftovers, each attempt recorded with its own exit code, duration, timeout, strays and leaks |
| RunOutcomes.PreparesExactly | scripts/ci/run.ts:489-509 | The preparation leaves no failure exactly when every command succeeded undisturbed on first use |
| RunRecords.ReportTells | scripts/ci/run.ts:341-377 | The report's own fields: version, commit, state and host of the run, how many results have each status, cancelled, complete, verdict |
| RunRecords.ResultsTell | scripts/ci/run.ts:489-551 | In a run no signal stopped, each result reported says what its commands did, the late search included |
| RunRecords.StoppedTells | scripts/ci/run.ts:524-533 | In a run a signal stopped, what was gathered is reported as it is and every other task as not run |
| RunRecords.SweepTells | scripts/ci/run.ts:540-551 | The late search adds what it found to each attempt, and what it found fails the task |
| RunRecords.ReportOrdered | scripts/ci/run.ts:534-537 | The report follows the plan's order |
| RunRecords.SerialApart | scripts/ci/run.ts:314-524 | At every moment of a run at most `concurrency` of its tasks run, and no two of the serial class |
| RunReport.PassReports | scripts/ci/run.ts:353-559 | Every result of a passing report is that of running a planned task, and every planned task has one |
| Runner.RunOne | scripts/ci/run.ts:280-295 | One attempt, and a second only if the first failed, retries are allowed and nothing is cancelled |
| Runner.PrepareAll | scripts/ci/run.ts:489-509 | The prepare loop with its break and its continues |
| Runner.FillCancelled | scripts/ci/run.ts:527-533 | The loop that blocks what has no result |
| Runner.SweepOne | scripts/ci/run.ts:541-549 | Late leaks are added to each attempt and fail the task |
| Runner.SweepAll | scripts/ci/run.ts:540-551 | The late sweep updates the results in place |
| Runner.Report | scripts/ci/run.ts:346-377 | The counters and the verdict |
| Runner.RunAll | scripts/ci/run.ts:489-566 | The whole run, as its loops do it, is the specification's |
| CheckEvidence.SameSetExact | scripts/ci/check-evidence.ts:14-17 | What `sameSet` accepts is a permutation of the expected exactly when nothing is expected twice |
| CheckEvidence.SameSetPermutation | scripts/ci/check-evidence.ts:14-17 | Against expectations without repeats it accepts exactly the permutations |
| CheckEvidence.SameSetFooled | scripts/ci/check-evidence.ts:14-17 | With a repeat expected, a list holding a stranger is accepted |
| CheckEvidence.SameSetOrder | scripts/ci/check-evidence.ts:14-17 | The order of what is checked does not matter |
| CheckEvidence.CheckResults | scripts/ci/check-evidence.ts:69-94 | The loop over the results checks and counts each |
| CheckEvidence.ValidateCheck | scripts/ci/check-evidence.ts:35-100 | The validator returns the selection and counts exactly of the reports that meet its conditions |
| EvidenceAgrees.CleanExactly | scripts/ci/check-evidence.ts:78-92 | The validator's clean attempt is the runner's passed one, or one with an empty list of leaks; failing is its negation |
| EvidenceAgrees.AttemptsAgree | scripts/ci/run.ts:216-260 | On the attempts the runner records the two agree: clean is exit code 0, in time, nothing left behind |
| EvidenceAgrees.HostOnlyRefuses | scripts/ci/check-plan.ts:70-71 | A plan that could be made for a host is the one made without asking about it |
| EvidenceAgrees.CompleteSelects | scripts/ci/run.ts:556-558 | A run the runner calls complete has selected exactly the host's suites |
| EvidenceAgrees.RunnerAgrees | scripts/ci/check-evidence.ts:35-100 | A passing run is accepted as evidence of its own commit, state and host exactly when unfiltered, unrepeated, at a full hash and on one of the three supported hosts |
| EvidenceAgrees.HostSupported | scripts/ci/check-plan.ts:70-71 | When suites run only on the three supported hosts, a run with something to run is on one of them |
| EvidenceAgrees.CommitDecides | scripts/ci/check-evidence.ts:35-100 | With such suites an unfiltered, unrepeated pass is accepted exactly when its commit is a full hash |
| EvidenceAgrees.CompletePassAccepted | scripts/ci/check-evidence.ts:35-100 | A complete pass on a supported host at a known commit is accepted |
| EvidenceWitness.CompleteRun | scripts/ci/run.ts:489-566 | A concrete run of one suite of one task: complete and passing whatever its commit, and accepted exactly at a full hash |
| EvidenceWitness.PassRefused | scripts/ci/run.ts:341-359 | Outside a checkout that complete pass is refused |
| EvidenceAgrees.AcceptedMeans | scripts/ci/check-evidence.ts:66-92 | Whoever wrote it, an accepted report has for each planned task one result, of its own command, with one clean attempt or a failed and then a clean one |
| Acceptance.AcceptsExactly | scripts/ci/check-evidence.ts:19-100 | By the report's own fields: accepted exactly if it is a passing one of the commit, state, platform and Bun expected, of plainly selected suites, as complete as said, with one good result for each task planned, rightly counted |
| Acceptance.OneSource | scripts/ci/check-evidence.ts:35-41 | A report is evidence of one commit and one state only |
| Aggregate.CombineChecks | scripts/ci/check-evidence.ts:102-125 | What is built, and exactly when nothing is |
| Aggregate.CollectContributors | scripts/ci/check-evidence.ts:108-121 | The loop validates each contributor, pushes its coverage and adds its counts |
| Aggregate.AddingIs | scripts/ci/check-evidence.ts:108-121 | Those steps give all the coverage and the summed counts, and nothing if one contributor does not pass |
| Aggregate.CompleteExactly | scripts/ci/check-evidence.ts:127-146 | An aggregate is accepted exactly when it is what its own contributors combine to |
| Aggregate.ResultsCover | scripts/ci/check-evidence.ts:66-121 | Accepted results cover by their own names and commands exactly what the plan does |
| Aggregate.AggregateRuns | scripts/ci/check-evidence.ts:102-125 | The recorded results of an accepted aggregate run every expected unit exactly once, exactly when none is expected twice |
| Aggregate.AggregateCounts | scripts/ci/check-evidence.ts:107-122 | No failure and no blocked task is counted, and as many passes as there are results |
| Aggregate.AcceptedAggregate | scripts/ci/check-evidence.ts:102-146 | An accepted aggregate is of the commit and state expected, covers the suites required, and its every contributor is a passing partial report of that commit and state from the release's own job |
| Aggregate.ContributorMeans | scripts/ci/check-evidence.ts:108-116 | A contributor counts exactly if it is from that job and its report is accepted for Linux |
| Aggregate.OneRelease | scripts/ci/check-evidence.ts:127-146 | An aggregate is evidence of one commit and one state only |
| Aggregate.CoverageRecorded | scripts/ci/check-evidence.ts:108-121 | The coverage recorded is what the contributors cover, in order, and what is expected where that has no repeats |
| ReleaseAudit.ObserveRows | scripts/ci/audit-release-matrix.ts:27-46 | The loop over the rows checks each and pushes its coverage |
| ReleaseAudit.AuditMatrix | scripts/ci/audit-release-matrix.ts:22-47 | The audit accepts exactly the matrices whose rows are in order and cover the plan |
| ReleaseAudit.AuditsExactly | scripts/ci/audit-release-matrix.ts:22-47 | By the rows' own fields: accepted exactly if every row fits and together they cover, as a set, what is expected |
| ReleaseAudit.ExpectsAll | scripts/ci/check-evidence.ts:102-106 | Every unit of every task of the suites is expected |
| ReleaseAudit.ExpectsOnly | scripts/ci/check-evidence.ts:102-106 | And nothing else is |
| ReleaseAudit.CoverageOnce | scripts/ci/check-plan.ts:88-97 | With names and files used once, no plan expects a unit twice |
| ReleaseAudit.AggregateRunsAll | scripts/ci/check-evidence.ts:102-125 | In such a catalogue an accepted aggregate has run every unit exactly once |
| ReleaseAudit.ContributorUnits | scripts/ci/check-plan.ts:93-97 | A valid contributor covers what its suites and shard do in either layout |
| ReleaseAudit.AuditImpliesCombined | scripts/ci/audit-release-matrix.ts:25-47 | If the audit accepts the matrix, valid contributors for its rows, in any order and layout, combine into accepted evidence |
| ReleaseAudit.ReleaseJobsAccepted | scripts/ci/run.ts:489-566 | End to end: an audited matrix whose jobs' runners pass yields reports that validate, combine and are accepted |
| NewestRelease.NewestAccepted | scripts/ci/aggregate-checks.ts:35-81 | From uploads to evidence: if the audit accepts the matrix, every upload is an attempt of one of its partitions and each partition's newest attempt passed, the selection refuses nothing, the selected names agree with their contents, and the selected reports are accepted together, whatever older attempts hold |
| NewestRelease.PartsCombine | scripts/ci/check-evidence.ts:102-146 | Valid contributors, one per partition of an audited matrix, are accepted together even if the matrix repeats a row |
| NewestRelease.NameAgreesExactly | scripts/ci/aggregate-checks.ts:67-70 | What a selected artifact holds is of this workflow run, of the attempt in its name, and asked for just the suite and shard in it, and it could be found under one name only |
| Partition.DecimalValue | scripts/ci/aggregate-checks.ts:44 | A number is read back from its decimal text |
| Partition.NameReadBack | scripts/ci/aggregate-checks.ts:40-50 | The canonical name of a known suite and shard is read back to just these |
| Partition.ReadIsName | scripts/ci/aggregate-checks.ts:40-50 | An accepted name is the canonical name of what it is read as |
| Contributors.SelectParts | scripts/ci/aggregate-checks.ts:35-59 | The loop over the directories selects and supersedes as specified, and refuses the same |
| Contributors.SelectIsChoose | scripts/ci/aggregate-checks.ts:35-59 | Reading names and choosing in one loop is reading all the names and then choosing among the entries |
| Contributors.ChoosesHighest | scripts/ci/aggregate-checks.ts:51-59 | Each partition's selected entry is its highest attempt |
| Contributors.ChooseConserves | scripts/ci/aggregate-checks.ts:51-59 | Selected and superseded are together the entries, each as often |
| Contributors.SelectionIgnoresOrder | scripts/ci/aggregate-checks.ts:35-59 | Selection and superseded do not depend on the listing order when attempts differ |
| Contributors.SelectsNewest | scripts/ci/aggregate-checks.ts:35-59 | Over a directory with different, orderly names each partition's highest attempt is selected and nothing is lost |
| Contributors.NamesDiffer | scripts/ci/aggregate-checks.ts:36-50 | Different orderly names are different partitions or attempts |
| Contributors.AdmitExactly | scripts/ci/aggregate-checks.ts:35-50 | A name is read as an attempt and a partition exactly if it is written with the attempt's own digits, the attempt is between 1 and the last one, and the rest is the partition's canonical name |
| Contributors.RefusedExactly | scripts/ci/aggregate-checks.ts:54 | The duplicate check refuses exactly an entry repeating the highest attempt so far of its partition |
| Contributors.DuplicateMissed | scripts/ci/aggregate-checks.ts:54 | A repeated attempt superseded in between is missed |
| Child.SignalsProved | scripts/adapters/dsh-capture-child.ts:61-79 | Every signal goes to the owned process id, directly after a fresh read of it that shows the owned identity, start and boot included |
| Child.SignalOrder | scripts/adapters/dsh-capture-child.ts:61-79 | At most one SIGTERM, then at most one SIGKILL |
| Child.DoubtEnds | scripts/adapters/dsh-capture-child.ts:67-86 | A read that does not show the owned identity is the last thing done: no signal, read or sleep follows |
| Child.ResultTells | scripts/adapters/dsh-capture-child.ts:67-89 | The result by the last read: a success exactly if it showed the process gone, kept as changed exactly if it showed another identity under the id, escalated exactly if SIGKILL had been sent |
| Child.GraceGiven | scripts/adapters/dsh-capture-child.ts:71-79 | SIGKILL comes only after the clock was seen the whole grace period past its first reading after SIGTERM |
| Child.KillWaits | scripts/adapters/dsh-capture-child.ts:79-86 | After SIGKILL the process is given up on only three seconds later |
| Child.NextAction | scripts/adapters/dsh-capture-child.ts:58-90 | What follows what: each action is the one the log so far calls for |
| Child.FirstAction | scripts/adapters/dsh-capture-child.ts:66-67 | The first thing done is a fresh read of the owned process id |
| ChildStopper.Poll | scripts/adapters/dsh-capture-child.ts:71-86 | The polling loop ends, with the process gone, doubted, or the deadline passed |
| ChildStopper.ProveAndSend | scripts/adapters/dsh-capture-child.ts:66-79 | A fresh proof and then the signal, or the stop the read brings about |
| ChildStopper.StopCaptureChild | scripts/adapters/dsh-capture-child.ts:58-90 | The stop ends, and what it did is the protocol's up to its result |
| ChildStopper.Remember | scripts/adapters/dsh-capture-child.ts:24-28 | The identity comes from one fresh read that shows a running process |
| ChildStopper.FirstProofStays | scripts/adapters/dsh-capture-child.ts:31-52 | A proof once taken is never replaced |
| ChildStopper.FirstProofIs | scripts/adapters/dsh-capture-child.ts:31-52 | It is the first fresh running read of the id after its launch |
| ChildStopper.Tracker.Spawned | scripts/adapters/dsh-capture-child.ts:41-45 | A launch is remembered |
| ChildStopper.Tracker.LiveProcess | scripts/adapters/dsh-capture-child.ts:46-51 | A read is passed through; the set and map stay what was seen |
| Fnv.MixUndone | contracts/generated/broker-client.snapshot.ts:2293-2296 | Each step is undone by the inverse multiplier and the unit: a bijection on 32-bit states |
| Fnv.UnitTells | contracts/generated/broker-client.snapshot.ts:2293-2296 | From one state, different units lead to different states |
| Fnv.StatesStayApart | contracts/generated/broker-client.snapshot.ts:2291-2298 | Different states stay different through any text |
| Fnv.OneChangeTells | contracts/generated/broker-client.snapshot.ts:2291-2298 | Two texts of equal length that differ in exactly one unit hash differently |
| Fnv.ImulAgrees | contracts/generated/broker-client.snapshot.ts:2295 | The signed multiplication agrees with the unsigned one |
| Fnv.HexFits | contracts/generated/broker-client.snapshot.ts:2297 | The printed number padded is its low hex digits |
| Fnv.HashStep | contracts/generated/broker-client.snapshot.ts:2291-2296 | The hash by its definition: from 2166136261, for each unit flip the bits set in it, multiply by 16777619 and keep 32 bits |
| Fnv.DigitsRead | contracts/generated/broker-client.snapshot.ts:2297 | Each character printed is the hexadecimal digit of its place, the highest first |
| Fnv.Fnv1a32 | contracts/generated/broker-client.snapshot.ts:2291-2298 | The signed loop computes the unsigned hash in exactly eight hex digits |
| Fnv.SurfaceChanges | contracts/generated/broker-client.snapshot.ts:2300-2310 | A change of one unit of the registries changes the text of the surface hash |
| Contract.MatrixIsMirrored | contracts/generated/broker-client.snapshot.ts:2348-2434 | Exchanging client and broker exchanges who is behind and nothing else |
| Contract.ReadOnlyExactly | contracts/generated/broker-client.snapshot.ts:2348-2434 | For every client, known or not, and broker, writing is allowed exactly between sound revisions that are equal with the same surface or none told, or adjacent with the newer side still taking the older, and the status says who is behind |
| Contract.BoundContextBody | contracts/generated/broker-client.snapshot.ts:1529-1541 | The body is the specified beginning, and `truncated` says whether anything was cut |
| Contract.CutMakesNoLone | contracts/generated/broker-client.snapshot.ts:1518-1541 | The body is well-formed UTF-16 exactly when none of the text's own lone surrogates is kept |
| Contract.CutExactly | contracts/generated/broker-client.snapshot.ts:1529-1541 | The cut is at the bound, one unit earlier just where the unit before it is a high surrogate |
| Contract.WellFormedExactly | contracts/generated/broker-client.snapshot.ts:1518-1528 | A text without lone surrogates is a row of whole characters, and the other way round |
| Contract.BodyIsLongest | contracts/generated/broker-client.snapshot.ts:1529-1541 | Of a well-formed text it is the longest well-formed beginning within the bound |
| Contract.LoneIsKept | contracts/generated/broker-client.snapshot.ts:1526-1528 | A lone surrogate before the cut stays, so the body is not always well-formed |
| Png.WalkChunks | scripts/ci/check-flutter-goldens.rb:336-363 | The cursor loop ends and finds the chunks and framing failures specified |
| Png.ParsePng | scripts/ci/check-flutter-goldens.rb:325-395 | Every failure reported is one specified, in order |
| Png.ChunkReadBack | scripts/ci/check-flutter-goldens.rb:345-354 | A chunk read is well framed, and writing it again gives the bytes read |
| Png.ContentsJudged | scripts/ci/check-flutter-goldens.rb:365-394 | Contents pass exactly in sequence IHDR, sBIT, sRGB, IDAT+, IEND with the policy's header, sBIT and sRGB and no empty IDAT |
| Png.AcceptedIsFile | scripts/ci/check-flutter-goldens.rb:325-395 | An accepted file is the signature and its chunks and nothing after, and writing them again gives the same bytes |
| Png.FileIsAccepted | scripts/ci/check-flutter-goldens.rb:325-395 | Every file of at most 4 MiB written from chunks meeting the policy is accepted |
| Png.AcceptsExactly | scripts/ci/check-flutter-goldens.rb:325-395 | Both directions together |
| PngVerdict.ReportedExactly | scripts/ci/check-flutter-goldens.rb:325-395 | For any bytes whatever: how far the walk reads, each failure reported just under its own condition on the bytes, once, and in the order of the checks |
| PngVerdict.FramedExactly | scripts/ci/check-flutter-goldens.rb:345-352 | A chunk is well framed exactly with four letters for its type, named by them, a length that fits four bytes and a CRC of four |
| PngVerdict.DisallowedOrder | scripts/ci/check-flutter-goldens.rb:365-366 | Disallowed types are reported in the order first met |

## Left out

- TurnReport.ReportModelBacked: the prose of the verdict's `reason` and of failure details is not modelled, only which case they belong to.
- Evidence.ObservedConcat: JSON numbers are integers, and a text's length is counted in Dafny characters, each standing for one UTF-16 unit; surrogates are not represented in JSON text.
- Turn.Look: text that does not parse as JSON is dropped before the modelled handlers see it; a JSON number, string or array reaches them as a frame with an empty stream id and takes a place in `frames`, which the model allows; a bare `null` throws in the handler and is not modelled.
- Turn.Event: an event is one entry of the queue; that a POST rejects asynchronously, and that sending on or closing a socket does not throw into the handlers, is assumed.
- PromptTurn.PromptTurn.Handle: opening the socket and the two subscription frames it sends on opening are not modelled; the turn starts subscribed to whatever frames come.
- Wire.ChunkInvariance: the constructor's HTTP request, `waitFor` and `close` are outside the model; a text is a sequence of bytes and UTF-8 decoding belongs to the codec's parser.
- WireRoundTrip.RoundTrip: server frames are unmasked, text, and at most 16 MiB, as RFC 6455 section 5.1 and the reader's own limit have it; compressed messages are whatever the codec inflates.
- ShardBalance.ShardsCompete: `localeCompare` is taken to be a total order on ids, so canonically equivalent but different ids are not modelled.
- CheckPlan.CoverageUnits: coverage units, task keys and iteration keys are tuples, not the concatenated texts; suite ids contain no slash.
- CheckPlan.FindRunnable: whether Android can be built here (`suiteRunsOn`) and the suite table itself are parameters; that ids are used once is the table's own check (`Planner.IdsUnique`) and the theorems' hypothesis `PlanFacts.WellNamed`.
- Planner.FlutterTestFiles: walking the directory is a parameter, the list of files with their sizes.
- Pool.PoolSafe: a callback that throws, and console output, are not modelled; tasks are the positions in the list given.
- RunReport.ReportAccounts: the forced exit three seconds after a signal writes no report and is not modelled; log files, summaries, environments and the markdown report are left out.
- CheckRun.Trial: a signal's arrival is given per attempt and to the pool independently, so the theorems also cover combinations no single clock produces.
- CheckEvidence.ValidateCheck: reports are typed records, so refusals of missing or wrongly typed JSON members, of shard texts that do not parse or are out of order, and of non-integer exit codes are not modelled; which error is thrown is not either.
- Aggregate.CompleteExactly: equality of JSON texts is equality of values.
- NewestRelease.NewestAccepted: reading `report.json` and `provenance.json` is a parameter, what each artifact's directory holds; missing or linked files and the checkout's own checks are not modelled.
- ReleaseAudit.AuditMatrix: only the coverage loop; the workflow's names, steps, permissions and publication order are not modelled.
- Contributors.SelectParts: the fixed prefix and run number of a directory's name, copying, and reading the superseded reports are not modelled.
- Child.ResultTells: an identity is its pid, start and boot; the Windows process-tree branch of the signal is one signal.
- Png.AcceptsExactly: reading the file and its errors are not modelled; chunk CRCs are carried through unchecked, as in the code.
- Contract.ReadOnlyExactly: revisions are integers, within the safe range or not; fractional and missing numbers are not represented, and the reason texts are left out.
- The broker hub, history paging, schedules, the update planner, the capture scripts that drive a real host, client benchmarks and builds: I/O, data or code whose behaviour is not in these files.
