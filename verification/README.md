# RetroFit models

A Dafny model of the behaviour-heavy parts of the RetroFit repository, with proofs of what they promise.
`dafny verify dfyconfig.toml` checks all of it.

## What is modelled

**The rollback frame driver.** One call of `ProcessFrame` in `cc3o3` decides how to simulate a frame (a single
frame, a rollback, a replay of committed input, or a stall), commits input, may rewind and re-simulate, ticks, and
commits again. The model covers the driver, and also what it relies on: the bounded histories of rollback variables
(`StateStreams`), the input streams and their commit step (`InputStreams`), local and remote input, and the main
loop. `FrameDriver` holds one frame as a function of the world, and the class `Driver`, whose methods update the same
state step by step and are proved to do what the function says. `RollbackSteps` has what each phase keeps,
`RollbackStreams` what a frame does to clocks and streams, `RollbackRuns` the invariant about simulated states and the
proof that a frame keeps it, `RollbackTheorems` what follows for whole runs, and `RollbackSessions` concrete ones.
`RollbackInput` is about where input comes from and that none is lost, `RollbackModes` about frames without streams,
instant replays, snapshot loads and time resets.
Game logic is a parameter: any deterministic function from time, variables and input to writes. A run is any sequence
of frames with any local input and any honest arrivals of remote input. An arrival
is honest if its stream rejects it, or if it is for a remote stream, on a frame boundary, and not real input for a frame
at the commit head. Ready marks may be repeated there, as a stalled peer does. Together with the fatal read-head check,
that is all that the claims about clocks, commit heads and input ask for (`AtEntry`, `SafeRun`).
A session can start anywhere where the streams are in order, with markers, ready marks, known input and committed
history, after a stall or not, and the frame at the commit head was simulated from its predecessor with the committed
input (`SessionStart`). Of frames that were predicted since, one thing is asked (`RunOk`): those that the first frame
commits without a rollback were predicted with the input that it commits (`Covered`). This asks nothing if the first
frame rolls back, if nothing is predicted, or if some remote stream is still at the commit head (`FloorIsHeadIff`). It
can only fail while a local stream lags behind the previous frame, and no later frame can fail it (`LaterIsCovered`).
`RollbackSessions` has short concrete sessions, which show that the conditions can be met, what can go wrong, and what
frame zero does.

**The frame builder.** A plan of actions with dependencies is flown on worker threads. `Scheduling` is the state machine
of its atomic steps (one per critical section, in any interleaving, with scheduling passes that somebody still owes as
part of the state); `FrameBuilder` is the class itself, with its nested loops and its plan cache, each of whose methods
takes logged steps of that machine. The assignment of the current plan, which the source makes without the lock
(`FrameBuilder.cpp:185`), is one atomic step. The planner is a parameter; its answer may depend on how often it ran.

**The dialogue compiler.** `DialogueText` is the first pass, `Dialogue` the raw lines, compiled entries and the effect
of one line, `DialogueLoader` the second pass as a mutable loader. `DialogueScopes` proves bracketing and defines a
jumping interpreter of raw scripts; `DialogueMeaning` compares it with the flat entries and the executor's filter;
`DialogueCaches` is about interning, `DialogueSpeech` about omitted speakers and expressions, `DialogueContent` about
which scripts are accepted and what becomes of layout, command and scene lines.

**Smaller cores.** `Endpoints`: the endpoint manager's stream registry and the channels of logical endpoints.
`ArgParse`: the command-line parser. `TimeSlots`: the frame-pack editor's parallel arrays and the commands that undo an
insertion.

## What the proofs found

- The limit of `kMaxChangesInWindow - 3` frames, which `cc3o3.cpp:320` asks about, is exactly tight: one slot of the
  window is for the change older than the commit head, one for the commit head's own frame, and one for the stalled frame's tick
  (`BoundedSpeculation` and `RewindPointSurvives` with the limit, `OneMoreFrameIsTooMany` beyond it).
- A rollback while the commit head is at the lowest time rewinds to that time, not to before it, and then ticks frame
  zero on top of the state it started from (`cc3o3.cpp:402-409`). With a new local stream this happens if and only if
  some remote stream has declared nothing when the first frame begins, and all have in the end (`FrameZeroWithLocal`),
  so that two peers with the same committed input can end up with different states (`FrameZeroDesync`). The refinement
  theorem takes this into account: it holds for such runs too, with frame zero in the straight simulation.
- Real remote input exactly at the commit head, for a stream written no further, is accepted and amends a committed
  frame that is not simulated again (`LateInputAmendsCommittedFrame`); nothing else does (`AmendsCommittedIff`).
- While a local stream lags behind the previous frame, as one that has just been created or claimed does, the plan
  waits for it, and it catches up within the frame. The commit after the tick then takes in the remote input of all
  frames that every remote stream has come past, and does not simulate them again. This can go wrong in ordinary play: a
  lobby of remote streams stalls at commit head zero, and `ProcessSessionControllerOperations` makes one of them
  local and applies the peer's pack in the same call (`cc3o3.cpp:575`, `Session.cpp:112-138`). Whatever the peer pressed in
  the predicted frames is committed by the next frame, and the stored states know nothing of it (`LobbyIsReached`,
  `LobbyCommitsUnsimulated`). Input that is submitted as a frame begins (`cc3o3.cpp:241`) can do the same. The frame is
  right exactly when the predictions it commits were made with the input it commits (`CommitsRightIff`); on the side of
  the input, exactly when no arrival amends a frame up to the least remote write head (`CommittedAsKnownIff`).
- A local stream's read head can be moved past its write head, which is fatal in `InputStream::increase_read_head`:
  exactly in frames that repeat a stalled one when everybody's input, with a delayed local stream as the least, has come
  past them meanwhile (`OverrunIff`), which does happen (`SomeSessionOverruns`). Run theorems exclude such frames; one
  local stream without artificial delay rules them out (`PromptSessionsAreSafe`).
- Flattening scopes into entries inserts conditions without replacing, so an inner scope whose key an outer scope of the
  same polarity already has is dropped. `FlatteningIsExact` says for which scripts this changes nothing; it is more
  than those without clashing scopes, since a scope may follow from the others or the conditions may be unsatisfiable.
- An omitted speaker is the stored, already resolved name, which is looked up in the alias table again.
- `SetStartingCondition` and `SetDesiredCondition` never replace an existing value, but still drop the cached plan.
- `AddIncomingStream` and `AddOutgoingStream` accept one null stream, which `RemoveOrphanedStreams` asserts against.
- Undoing an insertion into a frame pack without slots fails the assertion `numSlots - 1 > 0` in `RemoveTimeSlotAt`,
  although it restores the pack; with at least one slot to begin with it passes (`InsertTexture`). For zero slots that
  assertion would pass, since it is unsigned (`RemovalAssertsIff`).

## Model

| member | source | states |
|---|---|---|
| `RollbackTheorems.RollbackRefinesStraightSimulation` | apps/cc3o3/cc3o3.cpp:371-528 | after any run of a session without debug time changes, however late honest remote input arrived, with ready marks repeated at will, the stored state of the newest frame that is committed and simulated is what ticking every frame once, in order, with the committed input gives; so is everything the window still holds of older frames |
| `RollbackRuns.FrameKeepsInv` | apps/cc3o3/cc3o3.cpp:126-597 | one whole frame, in any of the four modes, keeps the invariant behind that: stream bookkeeping, which frames were simulated with all known input, the state a rollback would resume from, and the bound on prediction; it may not commit at its end what was predicted with other input (`Covered`) |
| `RollbackTheorems.RunKeepsInv` | apps/cc3o3/cc3o3.cpp:126-597 | and so does every run whose first frame is covered; every later one is |
| `RollbackTheorems.SessionInv` | apps/cc3o3/cc3o3.cpp:126-597 | every run from a session start satisfies the invariant |
| `RollbackRuns.CommitsRightIff` | apps/cc3o3/cc3o3.cpp:526-541 | and covered is exactly what it takes: in a frame that neither rolls back nor replays, all frames that its end commits, other than the true one, read as straight simulation of the committed input if and only if the frame is covered |
| `RollbackStreams.CommittedAsKnownIff` | apps/cc3o3/cc3o3.cpp:526-541 | how far that commit reaches, capped at the previous frame, is the least remote write head; and the input it commits is what was known for those frames at the entry if and only if no arrival amends one of them in between |
| `RollbackRuns.UnamendedIsCoveredIff` | libs/GameSync/RollbackInputManager.cpp:231-286 | if none does, the frame is covered if and only if the frames that it commits were predicted with the input known at its entry |
| `RollbackRuns.LaterIsCovered` | apps/cc3o3/cc3o3.cpp:284-340 | once no local stream lags behind the previous frame, as after any frame, every frame is covered |
| `RollbackStreams.FloorIsHeadIff` | apps/cc3o3/cc3o3.cpp:284-340 | a frame commits no earlier prediction at its end if and only if it rolls back, replays, has no prediction behind it, or finds some remote stream still at the commit head |
| `RollbackStreams.FrameKeepsOrder` | apps/cc3o3/cc3o3.cpp:126-597 | clocks and streams are in order after every honest frame that passes the read-head check, whatever was simulated, and every local stream is written up to it |
| `RollbackTheorems.RewindPointSurvives` | apps/cc3o3/cc3o3.cpp:399-432 | the ten-change window never loses the state right before the commit head: the rewind finds the straight simulation's state there |
| `RollbackTheorems.CommittedInputIsFinal` | libs/Rollback/RollbackManager.cpp:226-274 | a frame never moves the commit head back and never changes the input of a committed frame |
| `RollbackTheorems.CommittedInputStaysFinal` | libs/Rollback/RollbackManager.cpp:226-274 | nor does any safe run of frames |
| `RollbackTheorems.CommittedInputIsAll` | libs/Rollback/RollbackManager.cpp:202-274 | nothing uncommitted is left at or before the commit head, so committed input is all there is for those frames |
| `RollbackInput.RunAddsInput` | apps/cc3o3/cc3o3.cpp:126-597 | over every safe run known input is conserved: each stream reports for each frame what it did at the start, and then what arrived in time and what was typed for it, in that order; commits, rollbacks and stalls lose, double and move nothing |
| `RollbackInput.FrameAddsInput` | apps/cc3o3/cc3o3.cpp:126-597 | one frame adds exactly its early arrivals, its local input unless it is a replay, and its session input |
| `RollbackInput.LocalInputIsTyped` | apps/cc3o3/cc3o3.cpp:475-483 | after any frame but a replayed one, the input of a local stream for this frame plus its delay ends with what was typed, and its input for other frames is as before |
| `RollbackInput.TypedInputLands` | libs/GameSync/RollbackController.cpp:80-95 | what a player types is appended to their own stream, for the frame that the delay leads to |
| `RollbackInput.ArrivalLands` | libs/GameSync/RollbackFilters.cpp:167-198 | an arrival is taken if and only if it is not before the write head of its stream, committed or not; then its value is that frame's input and the stream is written up to it |
| `RollbackInput.NoneIsLost` | libs/GameSync/RollbackInputManager.cpp:231-286 | arrivals for one stream, in the order of their times, are all taken, several for one frame among them |
| `RollbackInput.LocalHeadIs` | libs/GameSync/RollbackController.cpp:99-105 | after every frame but a replayed one, a local stream is written exactly up to this frame and its delay |
| `RollbackTheorems.BoundedSpeculation` | apps/cc3o3/cc3o3.cpp:303-340 | in every run the previous true frame is at most kMaxChangesInWindow - 3 frames ahead of the commit head |
| `RollbackTheorems.StallCondition` | apps/cc3o3/cc3o3.cpp:303-340 | a frame stalls if and only if it is at that limit and nothing new can be committed |
| `RollbackTheorems.StallRepeatsTime` | apps/cc3o3/cc3o3.cpp:578-593 | a stalled frame is entered again at the same time; any other frame moves on by one |
| `RollbackTheorems.StallRepeatsState` | apps/cc3o3/cc3o3.cpp:578-593 | and from the same state: the stalled tick leaves no trace in any reading at the previous frame |
| `StateStreams.OneMoreFrameIsTooMany` | apps/cc3o3/cc3o3.cpp:320-324 | why three frames: with one frame more of prediction, the stalled frame's own write evicts the only change older than the commit head and the rewind reads a default value |
| `RollbackTheorems.ResimulationCoverage` | apps/cc3o3/cc3o3.cpp:434-462 | the re-simulation loop ticks exactly the frames from the start of the range up to, not including, the true frame, each once, ascending, and ends on the true frame |
| `RollbackTheorems.ClockPairing` | apps/cc3o3/cc3o3.cpp:136-237 | at every entry the rollback head is one frame behind the frame clock, over any mixture of normal, stalled and replayed frames, snapshot loads and hard resets |
| `RollbackTheorems.FrameKeepsPairing` | apps/cc3o3/cc3o3.cpp:136-237 | one frame and the main loop's added frame keep that pairing |
| `RollbackModes.InertRun` | apps/cc3o3/cc3o3.cpp:284-292 | without input streams n frames advance the clock by n and tick each frame once, in order, without input |
| `RollbackModes.InertFrame` | apps/cc3o3/cc3o3.cpp:284-292 | one such frame: it neither stalls nor rolls back, and there are still no streams |
| `RollbackModes.InstantReplay` | apps/cc3o3/cc3o3.cpp:197-214 | a replay of n frames ticks the last n frames again, each once, in order, with all the input that is known for them, loses no input, and ends one frame after the frame that asked for it |
| `RollbackModes.RailsFrame` | apps/cc3o3/cc3o3.cpp:254-259 | a replayed frame ticks with the input that it had; typed and session input are not taken, and neither is another replay request |
| `RollbackModes.LoadRestores` | apps/cc3o3/cc3o3.cpp:180-236 | loading a snapshot restores its window, goes on with the frame after it, forgets the input from its time on and keeps all input before; a replay that is over is not taken up again |
| `RollbackModes.ResetRestarts` | apps/cc3o3/cc3o3.cpp:187-236 | a hard reset keeps the window, forgets all input and goes on with frame one |
| `RollbackModes.RewindKeepsPast` | libs/Rollback/InputStream.cpp:149-183 | a rewound stream keeps exactly its input before that time, and its head if that is not later |
| `RollbackTheorems.PromptStreamNeverOverruns` | apps/cc3o3/cc3o3.cpp:284-300 | with one local stream without artificial delay, no fatal check of the frame fires, and committing the current frame is only considered after a stall |
| `RollbackTheorems.PromptSessionsAreSafe` | libs/GameSync/RollbackController.cpp:99-105 | then honest remote input alone makes every frame of every run meet the conditions the other theorems need |
| `RollbackTheorems.OverrunIff` | libs/Rollback/InputStream.cpp:127-129 | the fatal read-head check fires if and only if the frame repeats a stalled one, its commit head is behind it, and all input, a delayed local stream being the least, is written past it |
| `RollbackInput.ReadHeadLocksIff` | libs/GameSync/RollbackController.cpp:99-105 | that check is the one that locking the read head after the committed range makes: the advance before the tick does its work on a stream if and only if the stream may be written that far |
| `RollbackTheorems.ReadyCheckPasses` | libs/Rollback/RollbackManager.cpp:202-222 | the invariant rules out stale streams and real input at the commit head, the fatal cases of GetFramesReadyToCommit |
| `RollbackSessions.FrameZeroWithLocal` | apps/cc3o3/cc3o3.cpp:401-413 | in a session with a freshly created local stream, frame zero is part of the straight simulation if and only if some remote stream has no input declared yet as the first frame begins, and the commit head has left zero at the end |
| `RollbackSessions.FrameZeroCondition` | apps/cc3o3/cc3o3.cpp:401-413 | and for any session from commit head zero: if and only if the head has left zero, and did not do so by the very first frame's commit after its tick |
| `RollbackSessions.StaysIff` | libs/Rollback/RollbackManager.cpp:202-222 | a commit head that a frame's plan does not raise stays after the tick if and only if a remote stream is still there |
| `RollbackSessions.FrameZeroDesync` | apps/cc3o3/cc3o3.cpp:401-413 | two concrete sessions of two frames, with the same start and the same committed input, the remote input in time in one and a frame late in the other, that end at the same time with different states |
| `RollbackSessions.SomeSessionRollsBack` | apps/cc3o3/cc3o3.cpp:387-472 | a concrete session that meets all conditions of the run theorems and rolls back in its second frame |
| `RollbackSessions.LobbyIsStart` | libs/Rollback/RollbackManager.cpp:176-198 | a stalled lobby in which a stream has just become local is a session start, with any game state and any input of the other peer |
| `RollbackSessions.SomeSessionOverruns` | libs/Rollback/InputStream.cpp:127-129 | a concrete session of eight silent frames, the last stalled, after which honest remote input makes the read-head check fire |
| `RollbackSessions.LobbyIsReached` | apps/cc3o3/sync/Session.cpp:112-138 | a watching peer gets to such a lobby in eight frames, and with the pack that it applies at the end of the last one the remote input of frames 1 to 7 is in its streams |
| `RollbackSessions.LobbyCommitsUnsimulated` | apps/cc3o3/sync/Session.cpp:112-138 | why a first frame has to be covered: once its own stream is made local there, the next, silent frame commits that input, and the stored states up to frame 7 know nothing of it |
| `RollbackSessions.LobbyIsCoveredIff` | apps/cc3o3/cc3o3.cpp:284-340 | in any such lobby, with any game: covered if and only if up to where the other peer has come each frame was predicted with what that peer has sent |
| `RollbackSteps.AmendsCommittedIff` | libs/GameSync/RollbackFilters.cpp:167-198 | an arrival changes the input of a frame at or before the commit head if and only if it is real input exactly at the commit head for a stream that is not written any further |
| `RollbackSteps.DeliverAllAmendsIff` | libs/GameSync/RollbackInputManager.cpp:231-286 | and for any arrivals in a row: what one of them changes, no later one changes back |
| `RollbackSteps.DeliverAmendsIff` | libs/GameSync/RollbackFilters.cpp:167-198 | the same for any floor: exactly the accepted real input at or before it |
| `RollbackTheorems.LateInputAmendsCommittedFrame` | libs/GameSync/RollbackFilters.cpp:167-198 | why remote input must be later than the commit head: an event exactly at it passes every check, joins the committed input of that frame, and the frame is not simulated again |
| `RollbackRuns.ResimulateKeeps` | apps/cc3o3/cc3o3.cpp:434-459 | re-simulation keeps readings before its range and the survival of the rewind state |
| `RollbackRuns.ResimulateCatchesUp` | apps/cc3o3/cc3o3.cpp:434-459 | after re-simulation every frame of the range up to the true frame agrees with straight simulation |
| `RollbackStreams.PlanFacts` | apps/cc3o3/cc3o3.cpp:250-365 | the chosen mode and commit range, characterized by the commit head, the clock and the streams' heads |
| `RollbackRuns.RollbackIsSimulated` | apps/cc3o3/cc3o3.cpp:387-472 | commit, rewind and re-simulation together establish that all frames before the true one are simulated with all known input |
| `RollbackRuns.TrueFrameTick` | apps/cc3o3/cc3o3.cpp:488-490 | ticking the true frame keeps that, and adds the true frame if nothing was missing |
| `RollbackRuns.PostCommitIsSimulated` | apps/cc3o3/cc3o3.cpp:526-541 | the post-frame commit only commits frames already simulated with that input: up to the true frame, each reads in the ticked window as straight simulation of what is known then |
| `RollbackStreams.CommittedStreams` | apps/cc3o3/cc3o3.cpp:526-541 | the post-frame commit keeps all known input and the stream bookkeeping, and puts the commit head at the least write head that it finds |
| `RollbackStreams.CommitReaches` | apps/cc3o3/cc3o3.cpp:526-541 | which is, capped at the true frame or before, the least remote write head before the tick: no local stream holds this commit back |
| `RollbackSteps.CommitKeeps` | libs/Rollback/RollbackManager.cpp:226-274 | a commit changes no known input and leaves nothing uncommitted in its range |
| `RollbackSteps.AdvanceKeeps` | libs/GameSync/RollbackInputManager.cpp:171-186 | moving local read and write heads loses no input |
| `RollbackSteps.TypeKeeps` | libs/GameSync/RollbackController.cpp:80-95 | local input lands after the commit head and changes no earlier frame |
| `RollbackSteps.DeliverKeeps` | libs/GameSync/RollbackInputManager.cpp:231-286 | honest arrivals, one after the other, change no frame at or before their floor; repeated ready marks are among them |
| `RollbackSteps.TickEffect` | apps/cc3o3/cc3o3.cpp:440-458 | a tick changes readings from its own frame on, and none that is near enough to survive eviction |
| `RollbackSteps.TickWrites` | apps/cc3o3/cc3o3.cpp:440-458 | variable by variable: the last value that the game writes to it in the frame, or the value it had |
| `RollbackSteps.RewindAllEffect` | libs/core_state/StateTree.inl:104-118 | a rewind of all variables keeps every reading at or before the rewind point |
| `RollbackSteps.MinHeadIsMin` | libs/Rollback/RollbackManager.cpp:206-218 | the ready frame is the least uncommitted write head |
| `InputStreams.CommitConserves` | libs/Rollback/RollbackManager.cpp:239-263 | a commit loses no input, invents none and moves none to another frame |
| `InputStreams.SelectEffect` | libs/Rollback/RollbackManager.cpp:239-260 | what is transferred is exactly the real input of the range |
| `InputStreams.FromEffect` | libs/Rollback/InputStream.cpp:127-145 | trimming removes exactly the input before the given time |
| `StateStreams.WriteEffect` | libs/core_state/StateStream.inl:19-74 | a write fixes all later readings, keeps every reading near enough not to be evicted, and keeps the history ordered and bounded |
| `StateStreams.WriteStores` | libs/core_state/StateStream.inl:19-74 | which changes a write leaves stored: the older ones and its own, unless it repeats the last older value; what is later goes, and so does the oldest of ten |
| `StateStreams.ReadIs` | libs/core_state/StateStream.inl:79-94 | a reading is the newest change that is not later, and the default before the first one |
| `StateStreams.WriteAllEffect` | libs/core_state/StateStream.inl:19-74 | the same for several writes of one tick: the last one counts |
| `StateStreams.RewindEffect` | libs/core_state/StateStream.inl:98-119 | discarding keeps every earlier reading and freezes every later one |
| `StateStreams.SecondOldestSurvives` | libs/core_state/StateStream.inl:37-42 | a full history of aligned changes reaches back far enough that evicting the oldest harms no near reading |
| `FrameDriver.Driver.ProcessFrame` | apps/cc3o3/cc3o3.cpp:126-597 | the imperative driver does what the frame function says, given the two entry checks |
| `FrameDriver.Driver.HandleTimeChanges` | apps/cc3o3/cc3o3.cpp:136-237 | replay requests, snapshot loads and hard resets, and the rewind they cause |
| `FrameDriver.Driver.SelectMode` | apps/cc3o3/cc3o3.cpp:246-365 | mode and commit range by the source's branches, also without streams |
| `FrameDriver.Driver.CommitAndRollback` | apps/cc3o3/cc3o3.cpp:371-472 | commit, advance, rewind and re-simulate |
| `FrameDriver.Driver.ResimulateFrom` | apps/cc3o3/cc3o3.cpp:434-462 | the while loop comes back to the true frame with the re-simulated window |
| `FrameDriver.Driver.TickTrueFrame` | apps/cc3o3/cc3o3.cpp:475-505 | local input, the true tick, and the second advance |
| `FrameDriver.Driver.CommitAfterTick` | apps/cc3o3/cc3o3.cpp:520-542 | the post-frame commit and the third advance |
| `FrameDriver.Driver.FinishFrame` | apps/cc3o3/cc3o3.cpp:565-597 | session input for the next frame, and undoing a stalled frame |
| `FrameDriver.Driver.AddTime` | apps/cc3o3/main.cpp:62 | the main loop adds one frame to the clock |
| `Scheduling.EveryRunKeepsInv` | apps/AppCommon_GraphicalClient/FrameBuilder.cpp:252-346 | over every interleaving of completions and owed passes: the task table is a bijection onto the flighted actions, retired and remaining actions partition the started plan, retirement is a topological order, nothing flies before its dependencies or twice, and no wakeup is lost |
| `Scheduling.StepKeepsInv` | apps/AppCommon_GraphicalClient/FrameBuilder.cpp:252-346 | each atomic step keeps all of that |
| `Scheduling.DependenciesFirst` | apps/AppCommon_GraphicalClient/FrameBuilder.cpp:299-322 | over every interleaving, with the plan as it was started: every action retires after all its dependencies in the plan, and flies only when they have retired |
| `Scheduling.WaitsForSomething` | apps/AppCommon_GraphicalClient/FrameBuilder.cpp:299-322 | and no action waits for anything else: with no pass owed, what is left flies or has a dependency left |
| `Scheduling.FollowsPlan` | apps/AppCommon_GraphicalClient/FrameBuilder.cpp:252-346 | what is planned, launched and retired is of the started plan; exactly the actions with a task fly |
| `Scheduling.CountsAreExact` | apps/AppCommon_GraphicalClient/FrameBuilder.cpp:252-346 | completions count the returned tasks, and owed passes are those that starts and returns have made due and nobody has made |
| `Scheduling.NoDeadlock` | apps/AppCommon_GraphicalClient/FrameBuilder.cpp:252-346 | an unfinished acyclic plan has a task in flight or a pass owed; a finished one has no flight left and has retired each of its actions once |
| `Scheduling.StuckMeansCycle` | apps/AppCommon_GraphicalClient/FrameBuilder.cpp:279-345 | a plan that is stuck contains a dependency cycle, which the lemma returns |
| `Scheduling.WaitingPlanHasCycle` | apps/AppCommon_GraphicalClient/FrameBuilder.cpp:299-317 | if every remaining action waits on a remaining one, the dependencies have a cycle |
| `Scheduling.CompletionsBounded` | apps/AppCommon_GraphicalClient/FrameBuilder.cpp:252-271 | task completions plus remaining actions never exceed the size of the started plan |
| `Scheduling.InstanceIsBounded` | apps/AppCommon_GraphicalClient/FrameBuilder.cpp:252-346 | between two starts only so many steps of any kind can happen, in any interleaving: three for an action on the ground, two for a flighted one, and the owed passes |
| `Scheduling.EndedMeansComplete` | apps/AppCommon_GraphicalClient/FrameBuilder.cpp:252-346 | an instance that can take no further step has, if its dependencies are acyclic, retired all it started, with nothing in flight and no pass owed |
| `Scheduling.PassIsDeterministic` | apps/AppCommon_GraphicalClient/FrameBuilder.cpp:275-346 | whatever order the map yields actions in, a finished pass retires the same empty actions and flies the same tasks |
| `Scheduling.SameInstance` | apps/AppCommon_GraphicalClient/FrameBuilder.cpp:157-190 | only starting a plan begins a new plan instance |
| `FrameBuilder.FrameBuilder.ScheduleNextTasks` | apps/AppCommon_GraphicalClient/FrameBuilder.cpp:275-346 | the nested loops terminate and end settled: every remaining action is in flight or waits on a remaining dependency |
| `FrameBuilder.FrameBuilder.Sweep` | apps/AppCommon_GraphicalClient/FrameBuilder.cpp:283-344 | a repeated sweep has shrunk the plan; a sweep that executed nothing leaves the plan settled |
| `FrameBuilder.FrameBuilder.Visit` | apps/AppCommon_GraphicalClient/FrameBuilder.cpp:287-343 | one action is skipped, executed or flown, by exactly the source's conditions |
| `FrameBuilder.FrameBuilder.DependenciesMet` | apps/AppCommon_GraphicalClient/FrameBuilder.cpp:299-317 | the inner loop decides whether no dependency is left in the plan |
| `FrameBuilder.FrameBuilder.OnTaskComplete` | apps/AppCommon_GraphicalClient/FrameBuilder.cpp:252-271 | removal, with the two assertions on the plan and the flighted actions proved for a task that is known, and a pass |
| `FrameBuilder.FrameBuilder.RemoveTask` | apps/AppCommon_GraphicalClient/FrameBuilder.cpp:254-268 | the locked first half of a completion is one legal step |
| `FrameBuilder.FrameBuilder.StartPlan` | apps/AppCommon_GraphicalClient/FrameBuilder.cpp:157-190 | the started plan is the planner's answer for the current conditions, whether cached or fresh |
| `FrameBuilder.FrameBuilder.BeginPlan` | apps/AppCommon_GraphicalClient/FrameBuilder.cpp:157-189 | when starting succeeds, when the planner runs, and that the cache stays coherent |
| `FrameBuilder.FrameBuilder.IsPlanComplete` | apps/AppCommon_GraphicalClient/FrameBuilder.cpp:194-204 | an empty plan has nothing in flight and retired exactly what it started with |
| `FrameBuilder.FrameBuilder.TestCanChangeConditions` | apps/AppCommon_GraphicalClient/FrameBuilder.cpp:208-223 | conditions may change exactly when finalized and no plan runs |
| `FrameBuilder.FrameBuilder.SetStartingCondition` | apps/AppCommon_GraphicalClient/FrameBuilder.cpp:101-111 | the cache is dropped, so it stays coherent; an existing value is kept |
| `FrameBuilder.FrameBuilder.RemoveStartingCondition` | apps/AppCommon_GraphicalClient/FrameBuilder.cpp:115-125 | the condition is gone and the cache is dropped |
| `FrameBuilder.FrameBuilder.SetDesiredCondition` | apps/AppCommon_GraphicalClient/FrameBuilder.cpp:129-139 | as for starting conditions |
| `FrameBuilder.FrameBuilder.RemoveDesiredCondition` | apps/AppCommon_GraphicalClient/FrameBuilder.cpp:143-153 | as for starting conditions |
| `FrameBuilder.FrameBuilder.FinalizePlan` | apps/AppCommon_GraphicalClient/FrameBuilder.cpp:87-97 | succeeds once |
| `DialogueMeaning.FlatteningIsExact` | libs/GameDialogue/DialogueLoader.cpp:132-154 | for every accepted script: the entries that pass their filter are, in every environment, the lines a jumping interpreter runs, if and only if each content line's scope stack flattens without loss, a condition on the script that its text decides |
| `DialogueMeaning.FlatteningWithoutClash` | libs/GameDialogue/DialogueLoader.cpp:132-154 | in particular when no two open scopes of one polarity ask for different values of one key |
| `DialogueMeaning.ShownByOutermost` | libs/GameDialogue/DialogueLoader.cpp:132-154 | and for every accepted script: shown are, in order, the content lines whose outermost scope per polarity and key holds |
| `DialogueMeaning.PassesIffOutermostHold` | libs/GameDialogue/executors/ConditionSkipper.cpp:30-98 | an entry passes if and only if the outermost scope of each polarity and key holds |
| `DialogueMeaning.PassesIs` | libs/GameDialogue/executors/ConditionSkipper.cpp:30-98 | an entry passes if and only if each necessary condition is found with its value and no forbidden one is |
| `DialogueMeaning.UnfaithfulLineShows` | libs/GameDialogue/DialogueLoader.cpp:146-151 | for any content line that loses a scope there is an environment in which the flat entries show something else than the jumps run |
| `DialogueMeaning.ClashChangesMeaning` | libs/GameDialogue/DialogueLoader.cpp:146-151 | a six-line script for which that happens |
| `DialogueMeaning.DecidedByOutermost` | libs/GameDialogue/DialogueLoader.cpp:132-154 | an entry's condition maps have exactly the keys of its scopes of that polarity, with the outermost values |
| `DialogueMeaning.LoadFlattens` | libs/GameDialogue/DialogueLoader.cpp:207-305 | one entry a content line, in order, with the conditions of the scopes open on that line |
| `DialogueMeaning.SkipUnmetConditions` | libs/GameDialogue/executors/ConditionSkipper.cpp:14-106 | the executor stops at the first entry from its index on that passes, or at the end |
| `DialogueMeaning.Play` | apps/retrofit/Tests.cpp:1526-1564 | skipping and advancing by one from the first entry plays exactly the entries that pass, in order |
| `DialogueMeaning.ShownIsPlayed` | apps/retrofit/Tests.cpp:1526-1564 | what is played are the content lines that the meaning theorems speak of |
| `DialogueScopes.JumpsFollowScopes` | libs/GameDialogue/DialogueLoader.cpp:348-429 | jumping through a well-formed script runs exactly the lines whose open scopes all hold |
| `DialogueScopes.ScopeCloses` | libs/GameDialogue/DialogueLoader.cpp:309-344 | in an accepted script each scope is opened once and closed by exactly one, later label of its name |
| `DialogueScopes.ScopesNest` | libs/GameDialogue/DialogueLoader.cpp:309-344 | and scopes nest |
| `DialogueScopes.LabelsAreUnique` | libs/GameDialogue/DialogueLoader.cpp:317-325 | no label occurs twice |
| `DialogueScopes.MarkIsInnermost` | libs/GameDialogue/DialogueLoader.cpp:327-341 | the next line that names an open scope finds it innermost; anything else would have left it open for good |
| `DialogueScopes.LoadControl` | libs/GameDialogue/DialogueLoader.cpp:309-429 | the loader's open scopes and used labels are those that the lines say, and each line has obeyed them |
| `DialogueContent.AcceptedIff` | libs/GameDialogue/DialogueLoader.cpp:512-549 | a script is accepted if and only if each of its lines fits, by its own fields and what came before it, and no scope is left open; a label that closes nothing is fine |
| `DialogueContent.LineIsTakenIff` | libs/GameDialogue/DialogueLoader.cpp:158-429 | after an accepted beginning the next line is taken if and only if it fits |
| `DialogueContent.ContentIsStored` | libs/GameDialogue/DialogueLoader.cpp:207-261 | every command and scene line of an accepted script has an entry of its kind with its name and exactly its parameters, the last pair deciding each key |
| `DialogueContent.LayoutIsStored` | libs/GameDialogue/DialogueLoader.cpp:182-203 | the compiled layout is that of the one layout line |
| `DialogueLoader.SecondPassParse` | libs/GameDialogue/DialogueLoader.cpp:512-549 | the loop compiles the whole list, or yields an empty sequence for any rejected line or unclosed scope |
| `DialogueLoader.RejectionLasts` | libs/GameDialogue/DialogueLoader.cpp:529-535 | a rejected line rejects every longer script |
| `DialogueLoader.MakeStorage` | libs/GameDialogue/DialogueLoader.cpp:114-128 | the first equal stored string, or a new one at the end |
| `DialogueLoader.Loader.PushConditionsOntoEntry` | libs/GameDialogue/DialogueLoader.cpp:132-154 | all scopes' conditions are interned, and inserted outermost first without replacing |
| `DialogueLoader.Loader.StoreParams` | libs/GameDialogue/DialogueLoader.cpp:222-228 | parameters are rejected at the first empty half, and otherwise all stored |
| `DialogueLoader.Loader.IngestLine` | libs/GameDialogue/DialogueLoader.cpp:433-459 | one line has the state change, or the rejection, of its kind |
| `DialogueLoader.Loader.IngestSpeechLine` | libs/GameDialogue/DialogueLoader.cpp:265-305 | speaker and expression are resolved, remembered and interned |
| `DialogueLoader.Loader.StoreSpeech` | libs/GameDialogue/DialogueLoader.cpp:294-302 | character, expression and text are interned, the pair is noted, and the entry is stored under the open scopes |
| `DialogueLoader.Loader.IngestCommandLine` | libs/GameDialogue/DialogueLoader.cpp:207-232 | a command needs a layout and non-empty parameters |
| `DialogueLoader.Loader.IngestSceneLine` | libs/GameDialogue/DialogueLoader.cpp:236-261 | as for commands |
| `DialogueLoader.Loader.IngestLabelLine` | libs/GameDialogue/DialogueLoader.cpp:309-344 | a fresh label closes the innermost scope if it names it, and is remembered either way |
| `DialogueLoader.Loader.IngestCondLine` | libs/GameDialogue/DialogueLoader.cpp:348-396 | a scope opens unless one of that name is open |
| `DialogueLoader.Loader.IngestElseLine` | libs/GameDialogue/DialogueLoader.cpp:400-429 | an else inverts the innermost scope, which it must name |
| `DialogueCaches.CompiledIsBacked` | libs/GameDialogue/DialogueLoader.cpp:114-154 | every cache is free of duplicates; commands, scenes, characters, expressions, texts, parameter keys and condition keys are exactly those of the entries, values are all there |
| `DialogueCaches.CachesOnlyGrow` | libs/GameDialogue/DialogueLoader.cpp:114-128 | from any line to any later one, every cache only grows at its end |
| `DialogueCaches.ViewsAreStable` | libs/GameDialogue/DialogueLoader.cpp:114-128 | so a view keeps its storage, and two views share storage if and only if their texts are equal |
| `DialogueCaches.ExpressionsPerCharacterAreExact` | libs/GameDialogue/DialogueLoader.cpp:298-301 | the table lists exactly the character and expression pairs that occur in speech entries |
| `DialogueCaches.IngestBacks` | libs/GameDialogue/DialogueLoader.cpp:433-459 | each line keeps all of that |
| `DialogueSpeech.LoadRemembers` | libs/GameDialogue/DialogueLoader.cpp:265-292 | the running state is what looking back finds: aliases so far, the last speaker, and each character's last expression |
| `DialogueSpeech.SpeechIsStored` | libs/GameDialogue/DialogueLoader.cpp:265-305 | every speech line of an accepted script has an entry with its declared speaker, expression, text and location |
| `DialogueSpeech.SpeakerIs` | libs/GameDialogue/DialogueLoader.cpp:273-282 | the speaker is the name on the line, or the previous speaker, replaced by what the last alias line for that name says, if there is one |
| `DialogueSpeech.SpeechRefusedIff` | libs/GameDialogue/DialogueLoader.cpp:265-292 | a speech line is refused if and only if it has no text, nobody to speak it, or no expression to use |
| `DialogueSpeech.OmittedSpeakerRepeatsIff` | libs/GameDialogue/DialogueLoader.cpp:273-282 | an omitted speaker is the previous one if and only if the alias table does not send that resolved name elsewhere |
| `DialogueSpeech.FlatAliasesCarrySpeakers` | libs/GameDialogue/DialogueLoader.cpp:273-282 | which never happens in scripts whose replacements are no shorthands and whose shorthands are declared before they speak |
| `DialogueSpeech.ChainChangesSpeaker` | libs/GameDialogue/DialogueLoader.cpp:95-110 | a four-line script in which it does happen: the stored name is looked up a second time |
| `DialogueText.FirstPassParse` | libs/GameDialogue/DialogueLoader.cpp:469-508 | numbered lines, blank ones dropped; one invalid line discards everything |
| `DialogueText.LinesMakeText` | libs/GameDialogue/DialogueLoader.cpp:473-482 | the lines put together are the text, up to a final newline |
| `DialogueText.LinesAreUnique` | libs/rftl/extension/string_parse.h:148-163 | and there is no other way to put it together from pieces without newlines |
| `DialogueText.KeptLines` | libs/GameDialogue/DialogueLoader.cpp:473-505 | entries correspond in order to exactly the lines that are not blank, with their numbers |
| `DialogueText.FirstPassIs` | libs/GameDialogue/DialogueLoader.cpp:469-508 | for the pass as a whole: the text falls into lines, one of which is invalid, or the entries are exactly those of the lines that are not blank |
| `DialogueText.StrtokView` | libs/rftl/extension/string_parse.h:148-163 | the token before the first delimiter, and what follows it |
| `DialogueText.Parse` | libs/GameDialogue/DialogueLoader.cpp:553-556 | both passes together |
| `DialogueText.InvalidLineRejects` | libs/GameDialogue/DialogueLoader.cpp:489-495 | an invalid line yields the empty sequence |
| `Endpoints.EndpointManager.RemoveOrphanedStreams` | libs/Communication/EndpointManager.cpp:155-213 | handed back are exactly the unreferenced streams, kept exactly the others, both in order; what is kept has no holes or duplicates, and a second call would hand back nothing |
| `Endpoints.EndpointManager.ExtractIncoming` | libs/Communication/EndpointManager.cpp:164-183 | the first pass leaves a hole for each orphan and nothing else changes |
| `Endpoints.EndpointManager.ExtractOutgoing` | libs/Communication/EndpointManager.cpp:185-204 | the same for outgoing streams |
| `Endpoints.EraseIf` | libs/Communication/EndpointManager.cpp:207-212 | the second pass drops the holes |
| `Endpoints.EraseAfterExtract` | libs/Communication/EndpointManager.cpp:155-213 | both passes together keep exactly the referenced streams |
| `Endpoints.SplitPositions` | libs/Communication/EndpointManager.cpp:162-205 | each part comes from ascending positions, and every position goes to one part |
| `Endpoints.SplitConserves` | libs/Communication/EndpointManager.cpp:155-213 | no stream is lost or doubled |
| `Endpoints.SecondSplitIsEmpty` | libs/Communication/EndpointManager.cpp:155-213 | splitting what was kept changes nothing |
| `Endpoints.EndpointManager.AnyHasIncoming` | libs/Communication/EndpointManager.cpp:168-177 | whether any endpoint has a channel for the stream |
| `Endpoints.EndpointManager.AnyHasOutgoing` | libs/Communication/EndpointManager.cpp:189-198 | the same for outgoing streams |
| `Endpoints.EndpointManager.AddIncomingStream` | libs/Communication/EndpointManager.cpp:14-27 | a stored stream is refused; otherwise it is appended, and the registry stays valid if and only if it is not null |
| `Endpoints.EndpointManager.AddOutgoingStream` | libs/Communication/EndpointManager.cpp:31-44 | the same for outgoing streams |
| `Endpoints.EndpointManager.RemoveIncomingStream` | libs/Communication/EndpointManager.cpp:48-68 | the stream is taken out and handed back, or nothing happens |
| `Endpoints.EndpointManager.RemoveOutgoingStream` | libs/Communication/EndpointManager.cpp:72-92 | the same for outgoing streams |
| `Endpoints.WithoutIsMultiset` | libs/Communication/EndpointManager.cpp:61-66 | and nothing else is lost or doubled |
| `Endpoints.WithoutTakesOut` | libs/Communication/EndpointManager.cpp:52-66 | taking out the first occurrence takes out all there is of it, and only that |
| `Endpoints.EndpointManager.AddEndpoint` | libs/Communication/EndpointManager.cpp:96-107 | get or create; a new endpoint references nothing |
| `Endpoints.EndpointManager.RemoveEndpoint` | libs/Communication/EndpointManager.cpp:125-129 | removing an endpoint can only turn streams into orphans |
| `Endpoints.LogicalEndpoint.AddIncomingChannel` | libs/Communication/LogicalEndpoint.cpp:10-14 | the channel is appended |
| `Endpoints.LogicalEndpoint.AddOutgoingChannel` | libs/Communication/LogicalEndpoint.cpp:18-22 | the channel is appended |
| `Endpoints.LogicalEndpoint.HasIncomingStream` | libs/Communication/LogicalEndpoint.cpp:26-37 | true if and only if some channel has the stream |
| `Endpoints.LogicalEndpoint.HasOutgoingStream` | libs/Communication/LogicalEndpoint.cpp:41-52 | true if and only if some channel has the stream |
| `ArgParse.ParsePrintParse` | libs/CommandLine/ArgParse.cpp:72-120 | printing options with their values in any order of the options, then the terminator, then the arguments, and parsing that, gives the same options and arguments, for every input |
| `ArgParse.NormalIffParsed` | libs/CommandLine/ArgParse.cpp:72-120 | a pair of options and arguments is the result of some command line if and only if it is in normal form |
| `ArgParse.ParseByRoles` | libs/CommandLine/ArgParse.cpp:82-119 | every parameter has one role; arguments, and the values of each option over all its repetitions, are the parameters of that role in order |
| `ArgParse.RoleIs` | libs/CommandLine/ArgParse.cpp:90-119 | the role of a parameter, in literals: before a terminator, what has a dash and something after it opens an option; anything else is a value of the option opened last, or an argument if there is none |
| `ArgParse.RolePositions` | libs/CommandLine/ArgParse.cpp:82-119 | what is gathered for a role are the parameters at exactly its positions, in order |
| `ArgParse.NamesAreOpened` | libs/CommandLine/ArgParse.cpp:102-107 | the options of a parse are exactly the parameters that open one |
| `ArgParse.LoneDash` | libs/CommandLine/ArgParse.cpp:102-119 | a dash alone is a value or an argument, and so is everything after a terminator |
| `ArgParse.ShortOptions` | apps/foundation_test/commandline_argparse.cpp:102-124 | two command lines with their options and arguments |
| `ArgParse.Parser.Parse` | libs/CommandLine/ArgParse.cpp:72-120 | the loop with its cursor and flag computes that parse |
| `ArgParse.Parser.constructor` | libs/CommandLine/ArgParse.cpp:12-15 | a constructed parser has parsed its input |
| `ArgParse.Parser.HasAnyOption` | libs/CommandLine/ArgParse.cpp:39-49 | true if and only if one of the names is an option |
| `ArgParse.Parser.GetOptionNames` | libs/CommandLine/ArgParse.cpp:19-28 | exactly the names of the options |
| `TimeSlots.FramePackEditor.CommandTextureInsertBefore` | apps/FramePackEditor/FramePackEditor.cpp:802-818 | a chosen texture inserts one slot at the editing frame; a failed choice restores count, live slots, live sustains and editing frame, and its assertion fails if and only if there was no slot before |
| `TimeSlots.FramePackEditor.CommandTextureInsertAfter` | apps/FramePackEditor/FramePackEditor.cpp:822-842 | the same one slot later, moving the editing frame along, or back |
| `TimeSlots.FramePackEditor.InsertTexture` | apps/FramePackEditor/FramePackEditor.cpp:810-823 | insertion, choice and undo, and when the assertion in the undo fails: what both commands share |
| `TimeSlots.FramePackEditor.CommandMetaDeleteFrame` | apps/FramePackEditor/FramePackEditor.cpp:779-798 | removes the edited slot unless it is the last one |
| `TimeSlots.FramePackEditor.ChangeTexture` | apps/FramePackEditor/FramePackEditor.cpp:1094-1125 | sets the texture of one slot, or changes nothing |
| `TimeSlots.FramePack.InsertTimeSlotBefore` | apps/FramePackEditor/FramePackEditor.cpp:1024-1060 | both arrays shift as one sequence insertion of the fresh slot; what lies behind the live slots stays |
| `TimeSlots.FreshSlotIs` | apps/FramePackEditor/FramePackEditor.cpp:1047-1057 | a fresh slot shows and hits nothing; it has the origins and the sustain of the slot before, or no offset and one frame if it is the first |
| `TimeSlots.InsertedAt` | apps/FramePackEditor/FramePackEditor.cpp:1039-1045 | a sequence insertion, position by position |
| `TimeSlots.RemovedAt` | apps/FramePackEditor/FramePackEditor.cpp:1077-1083 | a sequence removal, position by position |
| `TimeSlots.FramePack.RemoveTimeSlotAt` | apps/FramePackEditor/FramePackEditor.cpp:1064-1089 | both arrays shift as one sequence removal; the freed slot is reset; an index just past the end removes the last slot; the assertion is an outcome |
| `TimeSlots.RemovalAssertsIff` | apps/FramePackEditor/FramePackEditor.cpp:1071-1072 | the unsigned assertion numSlots - 1 > 0 fails for one slot only, so that it passes for none |
| `TimeSlots.FramePack.PushEverythingOver` | apps/FramePackEditor/FramePackEditor.cpp:1039-1045 | the upward shift moves every slot from the index on by one |
| `TimeSlots.FramePack.PullEverythingBack` | apps/FramePackEditor/FramePackEditor.cpp:1077-1083 | the downward shift moves every slot after the index by one |
| `TimeSlots.InsertThenRemove` | apps/FramePackEditor/FramePackEditor.cpp:810-817 | removing what was just inserted gives back the sequence |

## Left out

- Rendering, UI, input devices, fonts, the developer HUD, window handling, file and network I/O: outside of the modelled logic.
- RollbackTheorems.RollbackRefinesStraightSimulation: no debug time changes and no change of the global app state during the run, as the code calls both unreliable (`cc3o3.cpp:451-453`, `:492`); streams are created before the run and stay local or remote.
- RollbackRuns.FrameKeepsInv: no frame that commits a prediction made with other input, where what it commits is wrong (`CommitsRightIff`, and `LobbyCommitsUnsimulated` for such a frame), and no frame that fails the fatal read-head check (`OverrunIff`).
- RollbackModes.InstantReplay: no arrival amends a replayed frame, and no snapshot load or time reset comes in between.
- Sending local input to peers, and which frame is declared ready with it (`QueueRollbackInputForSend`).
- RollbackTheorems.BoundedSpeculation: no debug time changes, since an instant replay ticks its last frame without the stall check.
- RollbackTheorems.ClockPairing: an instant replay is requested while developer input is processed, where the developer HUD does it; a loaded snapshot lies before the end of time, which the source asserts.
- FrameDriver.Driver.ProcessFrame: a rollback needs frame-aligned times, which the source asserts after its loop and which the run invariant provides; the failing fatal checks themselves are not modelled as outcomes.
- RollbackSteps.DeliverKeeps: packs that repeat input already received are reduced to their new part before they arrive; `RollbackFilters::CanOverlapOrSuffix` is not part of this model.
- Times are unbounded integers except for the end of time that a time change jumps to; overflow of 64-bit nanoseconds is not modelled.
- The debug-only safe-rewind assertion of `cc3o3.cpp:414-431`, taking snapshots, automatic snapshots, `TrimOldCommittedInputs`, and how a controller limits the number of commands it reports.
- Tasks, the task pool, threads and memory ordering: a flighted task returns at some later step or never.
- FrameBuilder.FrameBuilder.OnTaskComplete: the method has no interference between its two halves; interleavings are covered by the step logs of `Scheduling`.
- The planner's search, `AddTask`, and duplicate or null tasks: a plan is any finite set of actions with any dependencies.
- DialogueText.FirstPassParse: `RawDialogueEntry::FromLine` is a parameter.
- DialogueCaches.ViewsAreStable: storage is modelled as the slot in an append-only list; that a deque does not move its elements is not.
- DialogueCaches.CompiledIsBacked: parameter and condition values may include some that no entry shows, because a shadowed scope or a repeated key still interns its value.
- Location lookup, other executors, and writing dialogue are not modelled.
- Streams' contents, expired weak pointers, `Terminate` on removal, and channel selection, which the source marks as unimplemented; the reader-writer locks are taken as making each method atomic.
- ArgParse.Parser.Parse: a parameter is never empty, which the source asserts; `ArgView` is a list of strings.
- TimeSlots.FramePackEditor.CommandTextureInsertAfter: the editing frame is a live slot and a free slot is left, which the source asserts; resource management and dialogs are reduced to the texture that results.
- `GetEndpoint`, `GetAllEndpoints`, `RemoveAllEndpoints`, `GetArguments`, and the sustain, origin and speed commands would only add easy members.
