# apexos-rv: the goal loop, the mesh client and the colony state, verified

A Dafny model of the parts of the bare-metal kernel that are state machines and
loops, with proofs of what they keep over whole runs.

* **Goal driver** (`Driver`, `DriverLaws`, `GoalDriver`, `Scripted`,
  `ScriptLaws`). A goal is a bounded machine fed one turn result at a time. A
  run is given a closed form that depends only on the results that are not
  pending; the log shape, steer transport and finality follow from it.
* **Verdict lines** (`Text`, `Verdicts`, `VerdictLaws`, `SpellingLaws`,
  `DirectiveLaws`). The directive that asks a model for a `GOAL_STEP:` line and
  the parser that reads it back, in every spelling. Rust's `lines`, `trim`,
  `strip_prefix` and `split_once` are written out.
* **Watchdog loop** (`Time`, `Watchdog`, `WatchdogLaws`, `Engines`, `Agent`).
  `drive_goal` polls an engine, notes when a step is first seen, and stalls a
  quiet step. The loop is a method over real objects (driver, engine, clock,
  event sink) proved against a transition function over what each pass observed.
* **Mesh client** (`Frames`, `FrameLaws`, `Rfc6455`, `RfcLaws`, `Link`, `Mesh`,
  `MeshLaws`, `GatewayTurns`, `MeshInference`, `DetRng`). A polled,
  non-blocking WebSocket client that reassembles messages from arbitrary TCP
  chunks and turns each goal step into one gateway turn.
* **End to end** (`EndToEnd`, `PollLaws`, `StallLaws`, `Conversation`,
  `MeshGoal`, `MeshRuns`). The polled, chunked, timed loop over the mesh refines
  a synchronous driver that sends the directive, waits for the whole reply and
  applies its verdict. It stalls only where the reply has not come in or the
  kernel itself was slow.
* **Colony state** (`Colony`, `SystemState`, `FoldLaws`, `Forest`, `SpawnGraph`,
  `SubtreeLaws`, `ForestLaws`). The event fold into four maps, and the
  work-list scan over the spawn graph, with a birth clock that makes it end.
* **DMA arena** (`DmaArena`). The bump allocator behind the network card.

`Seqs`, `Wrappers`, `Protocol` and `Turn` hold shared types and sequence facts.

## Results that need a condition

* `subtree` does not end on every state the public operations can build:
  `register_child(x, x)` makes a session its own child. The scan from a root
  ends if and only if no session the root reaches has spawned itself
  (`SubtreeLaws.ScanEndsExactlyWhen`, `SubtreeLaws.SelfRegistrationNeverEnds`).
* The comment on `plugins` in state.rs says that it holds the tools each live
  plugin advertises, which suggests that an owned tool is on its owner's list.
  A plugin that comes up a second time with a shorter list breaks this: the old
  names stay in `tools` (`FoldLaws.ReannouncedPluginIsInconsistent`). One
  operation keeps the two maps in agreement if and only if no owned name of a
  plugin that comes up is missing from its new list (`FoldLaws.ConsistencyStep`);
  over a whole history they agree if and only if no plugin has come up again
  since it last advertised a tool that it owns (`FoldLaws.ConsistentExactlyWhen`).
* The allocator's safety comment promises that a single hart and an atomic bump
  exclude double allocation. In a build without overflow checks a request whose
  64-bit sum wraps passes the assertion and takes the counter backwards, so that
  the next request is given a page that already has an owner
  (`DmaArena.WrappedRequestTakesPagesBack`). Accepted requests fit if and only
  if their sum does not wrap (`DmaArena.AcceptedFitsUnlessWrapped`).
* The documentation speaks of the trailing verdict line. The parser takes the
  last verdict line wherever it stands, and a reply that merely echoes the
  directive reads as `continue` with the placeholder as its steer
  (`VerdictLaws.EchoedDirectiveContinues`).
* `wrapping_sub` measures a quiet step up to whole turns of the tick counter. It
  is exact while no step outlasts 2^64 ticks (`WatchdogLaws.FiresExactly`); beyond that the
  watchdog sees the remainder, and a step left alone for exactly one turn of the
  counter looks fresh (`WatchdogLaws.FiresModulo`, `WatchdogLaws.WholeTurnIsMissed`).

## How the surroundings are modelled

* `Link.Environment` holds everything outside the client as arbitrary functions:
  the gateway (bytes sent as a function of the prompts it has seen), arrival
  times, receive slices, decoder buffer sizes, partial sends, the header
  parser, the upgrade check, UTF-8, the JSON codecs and the outgoing frame
  encoder. Results hold for all of them that meet `Sane`: a header and an
  upgrade response are read the same way when more bytes follow them, and lie
  within the bytes they were read from. `Rfc6455.ParseHeader` is proved to meet
  this, and `Conversation.AGatewayThatConverses` gives a whole environment that
  meets the contract of a conversing gateway.
* The decoder contract is that of `embedded-websocket`, which is not part of
  this model: a successful read takes at least one byte and may hand out part of
  a payload, a continuation carries the type of its message, control frames
  come whole, and an incomplete read takes nothing. A data frame that interrupts
  a fragmented message, and a continuation without one, are read as protocol
  errors (RFC 6455 section 5.4).
* `Time.Clock` counts ticks since reset; every look at it may find that any
  amount of time has passed, and `wfi` returns at the armed deadline or later.
* A panic ends the kernel. `Outcome.Panicked` carries the reason, and callers
  pass it straight up. What has been logged or queued by then is still stated,
  and so is the cause: a poll panics only if it has lasted for more than ten
  seconds (a send sets its deadline once, and progress does not move it), if the
  tick counter has run out, or if what the gateway sends after the prompts so
  far is no session (`Mesh.Excuse`, `MeshGoal.BrokeOff`). Over a script, or any
  engine that itself never panics, the loop always returns unless the counter
  runs out.
* The `Inference` trait is the closed sum `Engines.Inference`, of the script, the
  mesh and `AnyInference`, which stands for any other engine: its answer may
  depend on everything it has been shown.

## Model

| member | source | states |
|---|---|---|
| DriverLaws.ClosedForm | agent-core/src/goal.rs:128-186 | every run: with pendings removed, the first result that is not a `continue` decides if it comes within the budget; otherwise the used-up budget closes the goal as Done; otherwise it is still acting; final goal and whole log are given |
| DriverLaws.PendingIsInvisible | agent-core/src/goal.rs:165-186 | inserting or deleting pending results anywhere changes neither the goal nor the log |
| DriverLaws.SameSettledSameRun | agent-core/src/goal.rs:165-186 | two runs that differ only in pending results end in the same goal with the same log |
| DriverLaws.LogShape | agent-core/src/goal.rs:96-163 | field by field: every log is Acting(1)…Acting(step) with the goal's id, objective and budget, no detail and no yolo flag, then at most one closing event at that same step, whose state and detail text are those of the deciding result or of the used-up budget; its last entry is the driver's own fields; 1 ≤ step ≤ max_steps ≤ 100; only Acting, Done, Blocked and Failed appear |
| DriverLaws.ClosedIsFinal | agent-core/src/goal.rs:126-131 | a goal that has left Acting ignores every later result and logs nothing more |
| DriverLaws.RunSplit | agent-core/src/goal.rs:128-163 | a run over two stretches of results is the second stretch run from where the first ended, with the logs joined |
| DriverLaws.Progress | agent-core/src/goal.rs:152-161 | a result that is not pending uses up exactly one step or closes the goal |
| DriverLaws.SteerTransport | agent-core/src/goal.rs:137-160 | the context of every poll of step k+1, pending polls included, carries exactly the steer of the `continue` that ended step k, with that step, the budget, the goal's id and its objective; step 1 carries no steer |
| Driver.Clamp | agent-core/src/goal.rs:96 | a budget from 1 to 100 is kept, a larger one becomes 100, and none is below 1 |
| GoalDriver.GoalDriver.Start | agent-core/src/goal.rs:85-101 | the goal starts Acting at step 1 with its budget clamped to 1..100, and the first event announces it, each field in its place |
| GoalDriver.GoalDriver.EmitState | agent-core/src/goal.rs:113-123 | one event with goal, objective, state, step, budget and detail, each in its place, and yolo off |
| GoalDriver.GoalDriver.Advance | agent-core/src/goal.rs:128-163 | the fields updated in place are the specified successor, and exactly the specified event is emitted |
| GoalDriver.GoalDriver.Poll | agent-core/src/goal.rs:168-186 | an acting goal shows its own context to the engine once and takes the answer as its next transition; any other goal does not consult the engine |
| GoalDriver.GoalDriver.Run | agent-core/src/goal.rs:192-197 | over an engine that never pends the loop returns, in the state of the run over the engine's answers, with that run's log |
| Scripted.ScriptedInference.Next | agent-core/src/goal.rs:227-249 | answers follow the transcript; an entry that hangs is not consumed; past the end the engine has stalled |
| ScriptLaws.ScriptEnds | agent-core/src/goal.rs:214-249 | a script without a hang ends every goal within one poll more than it has entries: an exhausted script stalls, it never hangs |
| ScriptLaws.HangWaits | agent-core/src/goal.rs:209-232 | a script with a hang leaves its goal waiting, for however many polls, if and only if everything before the hang goes on and the budget reaches that far; it waits in the step of the hang |
| ScriptLaws.ScriptSpeaks | agent-core/src/goal.rs:227-249 | what an entry says reaches the goal: a `ContinueWith` becomes the next step's steer, a `Blocked` closes the goal and announces its reason, the others continue, finish, stall or wait |
| ScriptLaws.CompiledInScripts | agent-core/src/goal.rs:251-262 | the three compiled-in scripts: Done in step 3 after three polls, Failed in step 2 after two, waiting in step 2 for ever |
| SpellingLaws.ReplyMeans | agent-core/src/goal.rs:291-317 | the whole parser, on every spelling: the last line that starts with the mark, whitespace aside, decides; with any whitespace before the mark and after it and any tail after the word, `done` is Done whatever the tail, `blocked` carries the trimmed tail or says that it is blocked, `continue` carries the trimmed tail or no steer, and any other word is no verdict |
| SpellingLaws.MarkedLineIsSpelled | agent-core/src/goal.rs:293-300 | every marked line has one of these spellings |
| SpellingLaws.BareMarkMeansNothing | agent-core/src/goal.rs:296-314 | a mark with only whitespace after it is a verdict line without a verdict |
| SpellingLaws.UnmarkedReplyContinues | agent-core/src/goal.rs:288-316 | a reply without a marked line has no verdict, and the turn counts as `continue` without steer |
| SpellingLaws.CarriageReturnIsHarmless | agent-core/src/goal.rs:292-293 | a carriage return at the end of a line makes no difference |
| Text.TrimIs | agent-core/src/goal.rs:293-298 | trimming takes away exactly the whitespace at both ends |
| Text.LineBreaks | agent-core/src/goal.rs:292 | a line break is a newline, with or without a carriage return before it |
| Text.WhiteSpaceIs | agent-core/src/goal.rs:297 | whitespace is the 25 characters with the Unicode White_Space property |
| DirectiveLaws.DirectiveSays | agent-core/src/goal.rs:269-286 | the directive names the step and the budget, in this order and in decimal, then the objective, then the steer if there is one, and ends with the request for a verdict line |
| DirectiveLaws.DecimalReads | agent-core/src/goal.rs:271-275 | a printed number reads back as itself and has no leading zero |
| VerdictLaws.ParseInvertsPrint | agent-core/src/goal.rs:291-317 | parsing inverts the directive's grammar: whatever lines come before and whatever lines without a verdict come after, a printed normal verdict is read back exactly |
| VerdictLaws.QuotedDirectiveIsHarmless | agent-core/src/goal.rs:269-317 | a reply that quotes the whole directive before its own verdict line is read as that verdict |
| VerdictLaws.EchoedDirectiveContinues | agent-core/src/goal.rs:281-317 | a reply that only echoes the directive reads as `continue` with the placeholder as its steer |
| VerdictLaws.ParsedIsNormal | agent-core/src/goal.rs:296-312 | every steer or reason that comes out of the parser is trimmed, non-empty and on one line |
| VerdictLaws.UnknownWordIsContinue | agent-core/src/goal.rs:288-316 | the last verdict line alone decides, however it is written: the reply has no verdict if and only if that line's word is unknown, whatever earlier lines say, and then counts as `continue` without steer |
| VerdictLaws.NoVerdictIsContinue | agent-core/src/goal.rs:288-316 | a reply without a verdict line counts as `continue` without steer |
| VerdictLaws.VerdictOfJoin | agent-core/src/goal.rs:291-316 | text after a line break overrides the verdict before it exactly when it contains a verdict line |
| Verdicts.ParseGoalStep | agent-core/src/goal.rs:291-317 | the backward scan with early return finds the last line that can be read as a verdict line |
| WatchdogLaws.WrappingElapsed | kernel/src/agent.rs:136-137 | `wrapping_sub` of two readings is the real time between them if and only if that is below 2^64, and its remainder in general |
| WatchdogLaws.StartedIsFirstSeen | kernel/src/agent.rs:126-134 | over any passes `step_started` is the moment at which the step in force was first observed |
| WatchdogLaws.FiresExactly | kernel/src/agent.rs:125-144 | across counter wrap, where no step outlasts the counter's range, the watchdog fires in a pass if and only if the goal is still acting after the poll and more than the timeout has really passed since its step was first seen |
| WatchdogLaws.FiresModulo | kernel/src/agent.rs:136-139 | without that bound it fires if and only if the remainder of the real time exceeds the timeout |
| WatchdogLaws.WholeTurnIsMissed | kernel/src/agent.rs:136-139 | a step quiet for exactly 2^64 ticks is not stalled |
| WatchdogLaws.EarlierChecksPassed | kernel/src/agent.rs:128-145 | the stall is applied at the first overdue check: no check before the last was overdue |
| WatchdogLaws.StallIsPrompt | kernel/src/agent.rs:135-143 | a stall comes more than the timeout after the step was first seen, and no later than one idle quantum and the time from waking to the check beyond it |
| WatchdogLaws.PollWins | kernel/src/agent.rs:130-144 | a turn that the poll completes is applied before any stall of the same pass, and a goal it closes is never stalled |
| WatchdogLaws.GoalIsRun | kernel/src/agent.rs:128-145 | the loop's goal is the driver's run over the polls' answers and the stalls, in order |
| WatchdogLaws.PassesSoFar | kernel/src/agent.rs:20-27 | while the goal is acting, passes are bounded by steps used up and idle quanta spent in the current step |
| WatchdogLaws.LoopIsBounded | kernel/src/agent.rs:121-145 | whatever the engine answers, even pending for ever, the loop ends within max_steps × (timeout / 100 000 + 2) passes, 100 000 ticks being the idle quantum |
| Agent.CheckOrSleep | kernel/src/agent.rs:135-144 | an overdue goal is stalled; otherwise nothing changes and the loop sleeps for the idle quantum, and longer only by the clock's own drift |
| Agent.OnePass | kernel/src/agent.rs:129-144 | the loop's body changes driver, clock, sink and engine as one specified pass; the sleep lasts at least the idle quantum |
| Agent.DriveGoal | kernel/src/agent.rs:121-164 | terminates for every engine within the bound; its events are the full log of the run over everything applied, in its shape, for goal 1 with a budget of 8; it returns true if and only if the goal ended Done; the engine was shown exactly the contexts of that run; it panics only if the counter runs out or the engine has a reason |
| Mesh.IdleTick | kernel/src/net/mesh.rs:207-213 | gives up only when it finds the deadline past; otherwise at least a millisecond passes |
| Mesh.Mesh.Receive | kernel/src/net/mesh.rs:199-204 | whatever the slices, the receive loop appends exactly the bytes that have arrived, in order |
| Mesh.Mesh.Pump | kernel/src/net/mesh.rs:196-205 | everything that has come in by this pump is received; consumed bytes, then `rx_raw`, then bytes not yet received are always the stream, and what the client will have decoded in the end is unchanged |
| Mesh.Mesh.BlockingSendRaw | kernel/src/net/mesh.rs:216-230 | for every pattern of partial sends that ends in return, the socket holds what it held and then all the bytes; a run that gives up has queued a prefix |
| Mesh.Mesh.SendFrame | kernel/src/net/mesh.rs:233-241 | the queued bytes are the upgrade request and then the frames in call order |
| Mesh.Mesh.SendText | kernel/src/net/mesh.rs:233-241 | one text frame more, everything received so far still in place |
| Mesh.Mesh.AnswerPing | kernel/src/net/mesh.rs:261-274 | one pong per ping, in order, with the ping's payload; neither the partial message nor the prompts are disturbed |
| Mesh.Mesh.TakeText | kernel/src/net/mesh.rs:254-260 | fragments accumulate across calls; the end of a message hands out exactly the whole message |
| Mesh.Mesh.DecodeOne | kernel/src/net/mesh.rs:249-285 | one pass keeps the invariant; every pass that reads shrinks `rx_raw`; a panic for close, protocol error or bad UTF-8 happens only on a stream that contains one |
| Mesh.Mesh.DecodeOn | kernel/src/net/mesh.rs:249-286 | the loop ends; it hands out the next message of the stream, or `None` with everything received so far decoded |
| Mesh.Mesh.TryNextText | kernel/src/net/mesh.rs:246-287 | the same, after one pump: everything that has come in by it is received |
| Mesh.Mesh.NextText | kernel/src/net/mesh.rs:290-297 | a message it returns is the next one of the stream, however many polls that took; it gives up at the deadline only while no message is complete in all that has come in |
| Mesh.Mesh.Handshake | kernel/src/net/mesh.rs:172-185 | however the response is cut up, the bytes after it are retained and are where decoding starts; it gives up at the deadline only while the response is incomplete in all that has come in |
| Mesh.Mesh.Establish | kernel/src/net/mesh.rs:169-193 | the response's length is the one the gateway's stream determines, and the first message is the session frame; every panic has its reason in time or in the stream |
| Mesh.Mesh.TextsAreFirst | kernel/src/net/mesh.rs:246-287 | at every moment the messages handed out are the first messages of the whole stream |
| Mesh.Mesh.DeadIsDoomed | kernel/src/net/mesh.rs:275-283 | a protocol error or close met on a part of the stream is one of the whole stream |
| FrameLaws.SplitRead | kernel/src/net/mesh.rs:248-251 | a read cut short by its buffer is completed by the next read to what one read would have delivered |
| FrameLaws.StepRoom | kernel/src/net/mesh.rs:248-281 | the buffer size of any read does not change what everything decodes to |
| FrameLaws.DrainInChunks | kernel/src/net/mesh.rs:196-287 | chunking invariance: decoding what is there and then decoding more is decoding it all at once |
| FrameLaws.LongerStream | kernel/src/net/mesh.rs:246-287 | further bytes only add messages and pings, and do not revive an ended session |
| Rfc6455.HeadersAreSelfDelimiting | kernel/src/net/mesh.rs:250-283 | the frame header format of RFC 6455 section 5.2 meets the contract assumed of the decoder |
| RfcLaws.StepFrame | kernel/src/net/mesh.rs:250-281 | one whole frame at the front of the buffer is consumed by one pass, which delivers what the frame adds to its message |
| RfcLaws.FramesDecode | kernel/src/net/mesh.rs:249-285 | the bytes of a legal frame sequence decode to the text messages and pings it means, whatever control frames stand between fragments |
| RfcLaws.StreamDecodes | kernel/src/net/mesh.rs:196-287 | the same for every way of cutting the bytes into chunks, with nothing left over |
| MeshLaws.HistoryIsInOrder | kernel/src/net/mesh.rs:216-287 | at every moment of every run: messages handed out are the first text messages of the frames, pongs answer the first pings one-to-one with equal payload, and the queued bytes are the frames in call order |
| MeshLaws.CaughtUp | kernel/src/net/mesh.rs:246-287 | once all has been received and decoded, the messages are exactly those of the frames, every ping has its pong, no byte is left |
| MeshLaws.ReadOn | kernel/src/net/mesh.rs:384 | once the gateway's bytes have come in, calling until `None` hands out exactly the text messages of the whole stream, in order, answers every ping, leaves no byte, and ends in no protocol error and no close |
| MeshLaws.LegalIsNotDoomed | kernel/src/net/mesh.rs:275-283 | a client that reads legal frames meets neither protocol error nor close |
| GatewayTurns.RepliesGrow | kernel/src/net/mesh.rs:384-398 | later messages never change a turn already completed |
| MeshInference.MeshInference.constructor | kernel/src/net/mesh.rs:357-359 | no turn is in flight, nothing has been asked, and the messages read before belong to no turn |
| MeshInference.MeshInference.Next | kernel/src/net/mesh.rs:369-400 | a poll without a turn in flight sends one directive; any other completes the turn if and only if the reply to the prompt in flight has been received, and whenever it had come in by the poll's first pump; the history stays faithful to the gateway; a panic has its reason in time or in the stream |
| MeshInference.MeshInference.AwaitReply | kernel/src/net/mesh.rs:384-399 | the receive loop ends; `reply` is the deltas read since the prompt; the verdict is that of the whole reply; a reply that had come in by the first pump is not missed |
| MeshInference.MeshInference.TakeMessage | kernel/src/net/mesh.rs:385-397 | a delta extends the reply, the end of the turn reads the verdict from it, anything else changes nothing |
| EndToEnd.PollingFollows | kernel/src/net/mesh.rs:369-400 | every faithful poll history is in step with the synchronous driver: same settled turns, same prompts, and one more prompt if a turn is in flight |
| EndToEnd.LoopIsDriven | kernel/src/agent.rs:128-145 | every context the loop shows is that of the goal driven by the answers before it |
| EndToEnd.SynchronousShape | agent-core/src/goal.rs:168-197 | the synchronous driver takes at most max_steps turns and stops only when the goal has left Acting |
| EndToEnd.LoopRefinesSynchronous | kernel/src/agent.rs:121-145 | end-to-end refinement: over every schedule without a time-out the loop's log equals the synchronous driver's; with one, it is that log up to the stalled step and then the stall |
| EndToEnd.SynchronousNeverFails | agent-core/src/goal.rs:140-161 | only a stall makes a goal fail |
| StallLaws.StallHasReason | kernel/src/agent.rs:135-139 | a run that stalls has spent more than the timeout in its last step, and if its last poll waited in vain the reply had not come in by that poll's pump |
| StallLaws.StallMeansNoReply | kernel/src/agent.rs:128-145 | where the passes are swift a stalled run was waiting for a reply, overdue since its step was first seen, that had not come in |
| StallLaws.NoStall | kernel/src/agent.rs:128-145 | a gateway whose replies have come in when the client looks, and swift passes, give no stall |
| MeshGoal.RunOverMesh | kernel/src/agent.rs:84-97 | the same for the run as a whole, from the upgrade request on, for every environment: the events of a run that returns are the synchronous log, or its start and the stall, and there is no stall over a responsive gateway; a run that panics was opening the session or in a poll that lasted over ten seconds, or has its reason in what the gateway sends after the synchronous driver's first prompts |
| MeshRuns.RunTwice | kernel/src/agent.rs:84-97 | the schedule does not matter: two runs over the same gateway, with other chunking, fragmentation, partial sends, arrival times, clocks and timeouts, that return without a stall announce the same events and come to the same result |
| MeshRuns.ConversationIsAlive | kernel/src/net/mesh.rs:275-283 | the stream of a gateway that converses contains no protocol error and no close |
| MeshRuns.DeliveredIsResponsive | kernel/src/net/mesh.rs:384-399 | such a gateway, its bytes delivered whenever the client looks, has answered every prompt of the synchronous driver in time |
| MeshRuns.RunOverConversation | kernel/src/agent.rs:84-97 | over such a gateway a run that returns announces the dialogue's log, or its start and the stall; there is no stall if the bytes are delivered and the passes swift; no panic comes from a protocol error or a close in its frames |
| PollLaws.OnePromptPerStep | kernel/src/net/mesh.rs:376-399 | while acting, prompts sent are the steps done plus one if a turn is in flight, and prompt k+1 directs the agent to step k+1 of the budget, with the objective, and with the steer of the gateway's verdict on prompt k |
| PollLaws.SteerOverMesh | kernel/src/net/mesh.rs:369-400 | on every poll of step k+1 the steer is that of the verdict on reply k, trimmed, non-empty and on one line, or none; in step 1 there is none |
| PollLaws.SentAreFirst | kernel/src/net/mesh.rs:376-383 | the prompts sent while the goal is acting are the synchronous driver's first prompts |
| Conversation.WholeTurn | kernel/src/net/mesh.rs:385-397 | a turn of deltas and ignored messages, its end, and ignored messages adds one reply: everything said in it |
| Conversation.StreamSpeaks | kernel/src/net/mesh.rs:246-287 | for a gateway that sends whole legal frames per turn, the stream's messages are those of the turns, in order |
| Conversation.OneReplyPerPrompt | kernel/src/net/mesh.rs:376-398 | a gateway that ends one turn per prompt gives one reply per prompt, and the step's verdict is read from that prompt's own deltas |
| Conversation.VerdictlessTurnGoesOn | kernel/src/net/mesh.rs:389-393 | a turn whose deltas hold no verdict line takes an acting goal below its budget to the next step, still acting and without steer, and announces it; at its budget the goal is Done with "step budget reached" |
| Conversation.LoopRefinesDialogue | kernel/src/net/mesh.rs:369-400 | with such a gateway the log of every schedule without a time-out is that of a driver fed, per step, the verdict in the concatenated deltas of that turn, `continue` by default |
| DetRng.ShuffleIsBijective | kernel/src/net/mesh.rs:75-80 | the generator's step is a bijection on 64-bit words, with an explicit inverse |
| DetRng.StepIsXorshift | kernel/src/net/mesh.rs:76-80 | the step is the one of xorshift64*, with shifts 12, 25 and 27 |
| DetRng.OutputIsBijective | kernel/src/net/mesh.rs:81 | so is the output multiplication |
| DetRng.RunsNeverMerge | kernel/src/net/mesh.rs:75-82 | the state after any number of steps determines the seed |
| DetRng.ZeroIsIsolated | kernel/src/net/mesh.rs:75-82 | a run is at zero if and only if it was seeded with zero |
| DetRng.DetRng.NextU64 | kernel/src/net/mesh.rs:75-82 | one step of the state, and the output of the new state |
| DetRng.DetRng.NextU32 | kernel/src/net/mesh.rs:83-85 | the upper half of the next word |
| DetRng.DetRng.FillBytes | kernel/src/net/mesh.rs:86-91 | for any length n the buffer receives the first n bytes of the little-endian output stream, and the state advances ⌈n/8⌉ times |
| DetRng.BytesMakeWord | kernel/src/net/mesh.rs:88 | a word is the sum of its eight little-endian bytes, each at its power of 256 |
| DetRng.FillsCompose | kernel/src/net/mesh.rs:86-91 | a fill of whole words followed by another reads the stream on without a gap |
| DetRng.PartialWordIsDiscarded | kernel/src/net/mesh.rs:86-91 | after any other length the rest of the last word is skipped |
| SystemState.SystemState.Apply | agent-core/src/state.rs:27-145 | the four maps updated in place are the fold of the history with this event added; after a prompt the session's last message is its text, unless empty, and then its images in order |
| SystemState.SystemState.RegisterTools | agent-core/src/state.rs:86-88 | the insertion loop gives every advertised name to the plugin and leaves every other owner |
| SystemState.SystemState.RegisterChild | agent-core/src/state.rs:148-153 | the maps are the fold of the history with this registration added; the child starts afresh and an absent parent is not created |
| SystemState.SystemState.Subtree | agent-core/src/state.rs:156-166 | where it ends, it returns the level-by-level flattening of the spawn lists from the root |
| SystemState.Scan | agent-core/src/state.rs:156-166 | the growing work list ends, with the queued subtree sizes as its measure, and is the level order |
| FoldLaws.ToolOwner | agent-core/src/state.rs:85-95 | a tool belongs to a plugin if and only if its last advertisement came from that plugin and the plugin has not gone down since |
| FoldLaws.PluginList | agent-core/src/state.rs:85-95 | a plugin's list is that of its last PluginUp, if no PluginDown followed, and absent otherwise |
| FoldLaws.OwnersAreLive | agent-core/src/state.rs:85-95 | over every history every tool owner is a live plugin |
| FoldLaws.ConsistencyStep | agent-core/src/state.rs:85-95 | an operation keeps every owned tool on its owner's list if and only if no owned name of a plugin that comes up is missing from its new list |
| FoldLaws.ConsistentExactlyWhen | agent-core/src/state.rs:85-95 | over every history each owned tool is on its owner's list if and only if no plugin has come up again since it last advertised a tool it owns |
| FoldLaws.FreshUpsStayConsistent | agent-core/src/state.rs:85-95 | so it holds over every history in which plugins only come up while down |
| FoldLaws.ReannouncedPluginIsInconsistent | agent-core/src/state.rs:85-90 | a plugin that comes up twice with different lists keeps a tool that is not on its list |
| FoldLaws.PendingApproval | agent-core/src/state.rs:62-68 | an action is pending, for a session, if and only if the last event that touched it is ApprovalPending with that session |
| FoldLaws.BirthIs | agent-core/src/state.rs:31-33 | a session's birth is its last registration, or without one its first prompt |
| FoldLaws.SessionSinceBirth | agent-core/src/state.rs:30-48 | a session is what happened since its birth: its history is its prompts since then in order, its spawn list the registrations under it, its parent that of its last registration alone |
| FoldLaws.HistoryReads | agent-core/src/state.rs:34-47 | over every history message k of a session is its prompt k since its birth: the text block first, unless the text is empty, then one block per image with its media type and data, in order |
| FoldLaws.Slices | agent-core/src/state.rs:14-23 | each map depends only on its own part of the history |
| SpawnGraph.EdgesClimb | agent-core/src/state.rs:148-153 | over every history spawn edges lead to existing sessions, and the birth clock increases along every edge but a self-edge |
| SubtreeLaws.ScanEndsExactlyWhen | agent-core/src/state.rs:156-166 | over every history the scan ends if and only if no session the root reaches has spawned itself |
| SubtreeLaws.ProperHistoriesAlwaysEnd | agent-core/src/state.rs:148-166 | if no registration has child equal to parent, every scan ends |
| SubtreeLaws.SelfRegistrationNeverEnds | agent-core/src/state.rs:148-166 | right after a session is registered under itself, the scan from it never ends |
| SubtreeLaws.SubtreeCountsPaths | agent-core/src/state.rs:155-166 | a session occurs in a subtree once per spawn path from the root, repeated edges counted |
| Forest.ClosedListIsLevelOrder | agent-core/src/state.rs:156-166 | a list that consists of its start and its own members' children is the level order, and so is unique |
| ForestLaws.SpawnListsMatchParents | agent-core/src/state.rs:148-153 | when every registered child is new and its parent exists, a session is on a spawn list if and only if that list's owner is its parent, and on no list twice |
| ForestLaws.SubtreeIsReach | agent-core/src/state.rs:155-166 | the members of a subtree are exactly the sessions the root reaches |
| ForestLaws.SubtreeListsDescendants | agent-core/src/state.rs:15-16 | in such histories the subtree lists exactly the sessions whose parent chain reaches the root, each once |
| ForestLaws.SubtreeIsSortedByDepth | agent-core/src/state.rs:156-166 | in non-decreasing depth |
| ForestLaws.SubtreeIsNoLongerThanTheColony | agent-core/src/state.rs:155-166 | and with no more entries than there are sessions |
| DmaArena.AcceptsExactly | kernel/src/net/mod.rs:50-51 | the assertion lets through exactly the requests that fit and, in a build without overflow checks, those whose sum wraps |
| DmaArena.AcceptedFitsUnlessWrapped | kernel/src/net/mod.rs:50-51 | an accepted request fits if and only if its sum does not wrap |
| DmaArena.WrappedRequestExists | kernel/src/net/mod.rs:50-51 | a concrete request that is accepted but does not fit, and leaves the counter lower than it was |
| DmaArena.WrappedRequestTakesPagesBack | kernel/src/net/mod.rs:50-55 | after a wrapped request the next page handed out already has an owner |
| DmaArena.GrantsAreDisjoint | kernel/src/net/mod.rs:44-57 | all ranges handed out over a run are pairwise disjoint, in increasing order and inside the arena |
| DmaArena.CounterIsPagesGranted | kernel/src/net/mod.rs:50 | the counter is the number of pages granted; none is lost and none comes back |
| DmaArena.DmaArena.DmaAlloc | kernel/src/net/mod.rs:49-57 | returns if and only if the assertion passes; a request that did not wrap gets page-aligned pages past every earlier grant, all still zero; the counter moves in any case |
| DmaArena.DmaArena.DmaDealloc | kernel/src/net/mod.rs:59-61 | gives nothing back and reports success |
| DmaArena.DmaArena.Store | kernel/src/net/mod.rs:52-54 | an owner that writes within its grant keeps every page not yet granted zero |
| DmaArena.OwnersDoNotInterfere | kernel/src/net/mod.rs:44-57 | a write within one grant is not seen through any other |

## Left out

- Mesh.Mesh.Establish: starts at the upgrade request; device bring-up, address configuration, TCP connect, headers and the bearer token are plumbing.
- Mesh.Mesh.NextText: does not promise that a message is handed out before the deadline, because the gateway may stay silent; then the run ends in a panic.
- Agent.DriveGoal: ends with `ClockOverrun` where the source's 64-bit counter would wrap, for the reasons given for the clock.
- Time.Clock.Mtime: the clock of the methods stops at 2^64 ticks with `ClockOverrun`; `now + IDLE_QUANTUM_TICKS` and `secs * TICKS_PER_SEC` are therefore not wrapped; past that point the source would arm a wake-up in the past and not sleep. Counter wrap is covered on the recorded passes by `WatchdogLaws.FiresExactly` and `WatchdogLaws.FiresModulo`.
- MeshInference.MeshInference.Next: says why a panic happened, but not which state it leaves behind, because the kernel halts there.
- EndToEnd.LoopRefinesSynchronous: the gateway does not filter by session and neither does the client; one session per socket is part of the environment.
- DmaArena.DmaArena.DmaAlloc: after a wrapped request the invariant is not restored; `DmaArena.WrappedRequestTakesPagesBack` says what happens instead.
- DetRng.DetRng.FillBytes: the mask is not tied to the bytes on the wire, because `ws.write` is an arbitrary function of frame number and frame.
- RfcLaws.StreamDecodes: a close frame ends the session in the model; the close handshake itself is not modelled.
- SystemState.SystemState.Apply: the arms that leave the state unchanged are one `OtherEvent`; tool schemas, call arguments and the other payloads that no map keeps are dropped.
- `close_clean`, `smoke` and the UART output: best effort or output only.
- JSON and UTF-8: messages arrive already classified as agent text, end of turn, or anything else.
- The fold demonstration in `fold_demo`: one concrete history, covered by the laws of the fold.
- Device code (virtio, smoltcp, CLINT, UART, QEMU exit), `mockd` and the scripts.
- Resume, cancel, the approval gate and the failure breaker, which this repository documents but does not implement.
