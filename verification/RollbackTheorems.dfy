/** What the frame driver promises over whole runs. */
module RollbackTheorems {
  import opened StateStreams
  import opened InputStreams
  import opened FrameDriver
  import opened RollbackSteps
  import opened RollbackStreams
  import opened RollbackRuns

  /** The world at the entry of ProcessFrame, after a run of the main loop. */
  function Run(cfg: Config, w: World, inputs: seq<FrameInput>): World {
    if inputs == [] then w
    else NextEntry(Frame(cfg, Run(cfg, w, inputs[..|inputs| - 1]), inputs[|inputs| - 1]))
  }

  /** Every frame of a run meets honest input and no fatal read-head check. */
  ghost predicate SafeRun(cfg: Config, w: World, inputs: seq<FrameInput>) {
    inputs != [] ==>
      var before, input := Run(cfg, w, inputs[..|inputs| - 1]), inputs[|inputs| - 1];
      SafeRun(cfg, w, inputs[..|inputs| - 1]) && Honest(cfg, before, input) && NoOverrun(cfg, before, input)
  }

  /** A safe run whose first frame commits no prediction that its input belies. No later frame can. */
  ghost predicate RunOk(cfg: Config, w: World, inputs: seq<FrameInput>) {
    SafeRun(cfg, w, inputs) && (inputs != [] ==> Covered(cfg, Arrived(w, inputs[0])))
  }

  /** Where straight simulation starts once a run is over; see NextOrigin. */
  function RunOrigin(cfg: Config, w: World, inputs: seq<FrameInput>, origin: int): int {
    if inputs == [] then origin
    else
      var rest := inputs[..|inputs| - 1];
      NextOrigin(Run(cfg, w, rest), inputs[|inputs| - 1], RunOrigin(cfg, w, rest, origin))
  }

  // ----- Clock pairing, under any debug time change -----

  predicate Paired(w: World) {
    w.headClock == w.clock - FRAME
  }

  predicate LoadsInRange(input: FrameInput) {
    input.debug.load.Some? ==> input.debug.load.value.time < KMAX
  }

  lemma FrameKeepsPairing(cfg: Config, w: World, input: FrameInput)
    requires Paired(w) && LoadsInRange(input)
    ensures Paired(NextEntry(Frame(cfg, w, input)))
  {
    var b := BeginFrame(w, input.debug);
    assert b.headClock == b.clock;
    var c := b.(streams := DeliverAll(b.streams, input.early));
    var plan := ChooseMode(c);
    var r := Rollback(cfg, PreCommit(cfg, c, plan), plan);
    assert r.clock == b.clock && r.headClock == b.headClock;
    var q := PostCommit(cfg, TickFrame(cfg, r, plan, input.typed), plan);
    assert q.clock == b.clock && q.headClock == b.headClock;
  }

  /** Whatever is loaded, reset, replayed or stalled, the entry check of ProcessFrame never fails. */
  lemma {:induction false} ClockPairing(cfg: Config, w: World, inputs: seq<FrameInput>)
    requires Paired(w) && forall input :: input in inputs ==> LoadsInRange(input)
    ensures Paired(Run(cfg, w, inputs))
  {
    if inputs != [] {
      ClockPairing(cfg, w, inputs[..|inputs| - 1]);
      FrameKeepsPairing(cfg, Run(cfg, w, inputs[..|inputs| - 1]), inputs[|inputs| - 1]);
    }
  }

  // ----- Clocks and streams of any safe run -----

  lemma SafeRunStep(cfg: Config, w: World, inputs: seq<FrameInput>)
    requires SafeRun(cfg, w, inputs) && inputs != []
    ensures var rest, input := inputs[..|inputs| - 1], inputs[|inputs| - 1];
      && SafeRun(cfg, w, rest)
      && Honest(cfg, Run(cfg, w, rest), input) && NoOverrun(cfg, Run(cfg, w, rest), input)
  {
  }

  lemma {:induction false} RunKeepsOrder(cfg: Config, w: World, inputs: seq<FrameInput>)
    requires AtEntry(cfg, w) && SafeRun(cfg, w, inputs)
    ensures AtEntry(cfg, Run(cfg, w, inputs))
    ensures var w' := Run(cfg, w, inputs); inputs != [] ==> LocalsCurrent(cfg, w'.streams, w'.clock - FRAME)
  {
    if inputs != [] {
      SafeRunStep(cfg, w, inputs);
      RunKeepsOrder(cfg, w, inputs[..|inputs| - 1]);
      FrameKeepsOrder(cfg, Run(cfg, w, inputs[..|inputs| - 1]), inputs[|inputs| - 1]);
    }
  }

  /** The committed input alone. */
  function CommittedLog(s: Streams): seq<seq<Event>> {
    seq(|s.committed|, i requires 0 <= i < |s.committed| => s.committed[i].events)
  }

  /** No uncommitted input can reach a committed frame. */
  lemma CommittedInputIsAll(cfg: Config, s: Streams, head: int, time: int)
    requires StreamsOk(cfg, s, head) && time <= head
    ensures Inputs(Known(s), time) == Inputs(CommittedLog(s), time)
  {
    forall i | 0 <= i < |s.committed| ensures InputAt(Known(s)[i], time) == InputAt(CommittedLog(s)[i], time) {
      InputAtConcat(s.committed[i].events, s.uncommitted[i].events, time);
      assert UncommittedOk(s.uncommitted[i], head);
      NoInputOutside(s.uncommitted[i].events, time);
    }
  }

  lemma OrderedStreams(cfg: Config, w: World)
    requires AtEntry(cfg, w)
    ensures StreamsOk(cfg, w.streams, MaxCommitHead(w.streams))
  {
  }

  /** Input of a committed frame is final: no later frame corrects it. */
  lemma CommittedInputIsFinal(cfg: Config, w: World, input: FrameInput, time: int)
    requires AtEntry(cfg, w) && Honest(cfg, w, input) && NoOverrun(cfg, w, input)
    requires time <= MaxCommitHead(w.streams)
    ensures var w' := NextEntry(Frame(cfg, w, input));
      && MaxCommitHead(w.streams) <= MaxCommitHead(w'.streams)
      && Inputs(CommittedLog(w'.streams), time) == Inputs(CommittedLog(w.streams), time)
  {
    var s, s' := w.streams, NextEntry(Frame(cfg, w, input)).streams;
    FrameKeepsOrder(cfg, w, input);
    FrameKeepsInput(cfg, w, input);
    OrderedStreams(cfg, NextEntry(Frame(cfg, w, input)));
    CommittedInputIsAll(cfg, s, MaxCommitHead(s), time);
    CommittedInputIsAll(cfg, s', MaxCommitHead(s'), time);
    assert SameInput(s, s', time);
  }

  /** Nor does any run of frames. */
  lemma {:induction false} CommittedInputStaysFinal(cfg: Config, w: World, inputs: seq<FrameInput>, time: int)
    requires AtEntry(cfg, w) && SafeRun(cfg, w, inputs) && time <= MaxCommitHead(w.streams)
    ensures var w' := Run(cfg, w, inputs);
      && MaxCommitHead(w.streams) <= MaxCommitHead(w'.streams)
      && Inputs(CommittedLog(w'.streams), time) == Inputs(CommittedLog(w.streams), time)
  {
    if inputs != [] {
      var rest := inputs[..|inputs| - 1];
      SafeRunStep(cfg, w, inputs);
      RunKeepsOrder(cfg, w, rest);
      CommittedInputStaysFinal(cfg, w, rest, time);
      CommittedInputIsFinal(cfg, Run(cfg, w, rest), inputs[|inputs| - 1], time);
    }
  }

  /** The driver never predicts more than seven frames past the commit head. */
  lemma BoundedSpeculation(cfg: Config, w0: World, inputs: seq<FrameInput>)
    requires AtEntry(cfg, w0) && SafeRun(cfg, w0, inputs)
    ensures var w := Run(cfg, w0, inputs);
      w.clock - FRAME <= MaxCommitHead(w.streams) + MAX_ROLLBACK_FRAMES * FRAME
  {
    RunKeepsOrder(cfg, w0, inputs);
  }

  /** A frame stalls exactly when it is at the limit and nothing new can be committed. */
  lemma StallCondition(cfg: Config, w: World, input: FrameInput)
    requires AtEntry(cfg, w) && Honest(cfg, w, input)
    ensures var plan, head := PlanOf(w, input), MaxCommitHead(w.streams);
      plan.mode.StallSimulation? <==> plan.second == head && head + MAX_ROLLBACK_FRAMES * FRAME <= w.clock - FRAME
  {
    FrameShape(cfg, w, input);
    ArrivedMatches(cfg, w, input);
    PlanFacts(cfg, Arrived(w, input));
  }

  /** A stalled frame is repeated at the same time; any other moves on by one. */
  lemma StallRepeatsTime(cfg: Config, w: World, input: FrameInput)
    requires AtEntry(cfg, w) && input.debug == NO_DEBUG
    ensures NextEntry(Frame(cfg, w, input)).clock ==
      if PlanOf(w, input).mode.StallSimulation? then w.clock else w.clock + FRAME
    ensures NextEntry(Frame(cfg, w, input)).lastMode == PlanOf(w, input).mode
  {
    EntryOf(cfg, w, input);
    PreparedClock(cfg, Arrived(w, input));
  }

  /** And from the same state: its own tick is undone. */
  lemma StallRepeatsState(cfg: Config, w: World, input: FrameInput)
    requires AtEntry(cfg, w) && WindowOk(w.window, w.clock - FRAME)
    requires input.debug == NO_DEBUG && PlanOf(w, input).mode.StallSimulation?
    ensures ReadAll(NextEntry(Frame(cfg, w, input)).window, w.clock - FRAME) == ReadAll(w.window, w.clock - FRAME)
  {
    var r, plan := Prepared(cfg, Arrived(w, input)), PlanOf(w, input);
    StallEntry(cfg, w, input);
    UndoneTickReads(cfg, w.window, Inputs(Known(AtTick(cfg, r, plan, input.typed)), r.clock), w.clock);
  }

  lemma StallEntry(cfg: Config, w: World, input: FrameInput)
    requires AtEntry(cfg, w) && input.debug == NO_DEBUG && PlanOf(w, input).mode.StallSimulation?
    ensures var r, plan := Prepared(cfg, Arrived(w, input)), PlanOf(w, input);
      && r.window == w.window && r.clock == w.clock
      && NextEntry(Frame(cfg, w, input)) == UndoneEntry(cfg, r, plan, input)
  {
    FrameShape(cfg, w, input);
    PreparedClock(cfg, Arrived(w, input));
    EntryOf(cfg, w, input);
  }

  lemma UndoneTickReads(cfg: Config, window: seq<StateStream>, inputs: seq<seq<int>>, clock: int)
    requires Aligned(clock) && 0 <= clock - FRAME && WindowOk(window, clock - FRAME)
    ensures
      ReadAll(RewindAll(Tick(cfg, window, inputs, clock), clock - FRAME), clock - FRAME)
      == ReadAll(window, clock - FRAME)
  {
    AlignedShift(clock);
    assert WindowOk(window, clock);
    TickEffect(cfg, window, inputs, clock);
    RewindAllEffect(Tick(cfg, window, inputs, clock), clock, clock - FRAME, clock - FRAME);
  }

  // ----- Sessions -----

  /** Where a session can start: streams in order, with any markers, ready marks, known input and
      committed history, after a stall or not. The frame at the commit head was simulated from its
      predecessor with the committed input; at commit head zero, frame zero was never ticked. Of frames
      that were predicted since then nothing is asked here; see RunOk. */
  ghost predicate SessionStart(cfg: Config, w: World) {
    var previous, head := w.clock - FRAME, MaxCommitHead(w.streams);
    && AtEntry(cfg, w) && head <= previous && WindowOk(w.window, previous)
    && (0 < head ==>
          ReadAll(w.window, head)
          == Step(cfg, ReadAll(w.window, head - FRAME), Inputs(Known(w.streams), head), head))
  }

  function StartOrigin(w: World): int {
    var head := MaxCommitHead(w.streams);
    if head == 0 then 0 else head - FRAME
  }

  function StartBase(w: World): seq<int> {
    ReadAll(w.window, StartOrigin(w))
  }

  lemma StartIsCaught(cfg: Config, w: World, time: int)
    requires SessionStart(cfg, w) && Aligned(time) && StartOrigin(w) <= time <= MaxCommitHead(w.streams)
    ensures ReadAll(w.window, time) == StateAfter(cfg, StartOrigin(w), StartBase(w), Known(w.streams), time)
  {
    var head, origin, log := MaxCommitHead(w.streams), StartOrigin(w), Known(w.streams);
    AlignedShift(head);
    if origin < time {
      AlignedStep(origin, time);
      assert StateAfter(cfg, origin, StartBase(w), log, head - FRAME) == StartBase(w);
    }
  }

  lemma StartIsAnchored(cfg: Config, w: World)
    requires SessionStart(cfg, w)
    ensures Anchored(cfg, w.window, Known(w.streams), StartOrigin(w), StartBase(w), MaxCommitHead(w.streams))
  {
    var head, origin := MaxCommitHead(w.streams), StartOrigin(w);
    AlignedShift(head);
    forall i | 0 <= i < |w.window| ensures Read(w.window[i], RewindPoint(head)) == Read(w.window[i], origin) {
      ReadOffFrame(w.window[i], w.clock - FRAME, origin, RewindPoint(head));
    }
    assert ReadAll(w.window, RewindPoint(head)) == StartBase(w);
  }

  lemma StartIsFaithful(cfg: Config, w: World)
    requires SessionStart(cfg, w)
    ensures Faithful(cfg, w.window, Known(w.streams), StartOrigin(w), StartBase(w), MaxCommitHead(w.streams))
  {
    var origin, base, log := StartOrigin(w), StartBase(w), Known(w.streams);
    forall i, t | 0 <= i < |w.window| && origin <= t <= MaxCommitHead(w.streams) && Aligned(t)
      ensures Read(w.window[i], t) == StateAfter(cfg, origin, base, log, t)[i]
    {
      StartIsCaught(cfg, w, t);
      assert ReadAll(w.window, t)[i] == Read(w.window[i], t);
    }
  }

  lemma StartIsInv(cfg: Config, w: World)
    requires SessionStart(cfg, w)
    ensures Inv(cfg, w, StartOrigin(w), StartBase(w))
  {
    var head := MaxCommitHead(w.streams);
    StartIsAnchored(cfg, w);
    StartIsFaithful(cfg, w);
    StartIsCaught(cfg, w, head);
    if 0 < head {
      AlignedStep(0, head);
    }
  }

  lemma RunOkStep(cfg: Config, w: World, inputs: seq<FrameInput>)
    requires AtEntry(cfg, w) && RunOk(cfg, w, inputs) && inputs != []
    ensures RunOk(cfg, w, inputs[..|inputs| - 1])
    ensures Covered(cfg, Arrived(Run(cfg, w, inputs[..|inputs| - 1]), inputs[|inputs| - 1]))
  {
    var rest, input := inputs[..|inputs| - 1], inputs[|inputs| - 1];
    SafeRunStep(cfg, w, inputs);
    RunKeepsOrder(cfg, w, rest);
    if rest != [] {
      assert rest[0] == inputs[0];
      LaterIsCovered(cfg, Run(cfg, w, rest), input);
    }
  }

  lemma {:induction false} RunKeepsInv(
    cfg: Config, w: World, inputs: seq<FrameInput>, origin: int, base: seq<int>)
    requires Inv(cfg, w, origin, base) && RunOk(cfg, w, inputs)
    ensures Inv(cfg, Run(cfg, w, inputs), RunOrigin(cfg, w, inputs, origin), base)
  {
    if inputs != [] {
      var rest := inputs[..|inputs| - 1];
      RunOkStep(cfg, w, inputs);
      SafeRunStep(cfg, w, inputs);
      RunKeepsInv(cfg, w, rest, origin, base);
      FrameKeepsInv(cfg, Run(cfg, w, rest), inputs[|inputs| - 1], RunOrigin(cfg, w, rest, origin), base);
    }
  }

  lemma SessionInv(cfg: Config, w0: World, inputs: seq<FrameInput>)
    requires SessionStart(cfg, w0) && RunOk(cfg, w0, inputs)
    ensures Inv(cfg, Run(cfg, w0, inputs), RunOrigin(cfg, w0, inputs, StartOrigin(w0)), StartBase(w0))
  {
    StartIsInv(cfg, w0);
    RunKeepsInv(cfg, w0, inputs, StartOrigin(w0), StartBase(w0));
  }

  /** The state a peer would reach by ticking every frame once, in order, with the committed input. */
  function Straight(cfg: Config, w0: World, inputs: seq<FrameInput>, time: int): (state: seq<int>)
    ensures |state| == |w0.window|
  {
    var origin := RunOrigin(cfg, w0, inputs, StartOrigin(w0));
    StateAfter(cfg, origin, StartBase(w0), CommittedLog(Run(cfg, w0, inputs).streams), time)
  }

  /** The newest frame that is both committed and simulated. */
  function Settled(w: World): int {
    Min(MaxCommitHead(w.streams), w.clock - FRAME)
  }

  lemma CommittedStateAfter(cfg: Config, s: Streams, head: int, origin: int, base: seq<int>, time: int)
    requires StreamsOk(cfg, s, head) && time <= head
    ensures StateAfter(cfg, origin, base, CommittedLog(s), time) == StateAfter(cfg, origin, base, Known(s), time)
  {
    forall t | t <= time ensures Inputs(CommittedLog(s), t) == Inputs(Known(s), t) {
      CommittedInputIsAll(cfg, s, head, t);
    }
    SameLog(cfg, origin, base, Known(s), CommittedLog(s), time);
  }

  lemma SettledIsStraight(cfg: Config, w: World, origin: int, base: seq<int>)
    requires Inv(cfg, w, origin, base)
    ensures ReadAll(w.window, Settled(w)) == StateAfter(cfg, origin, base, CommittedLog(w.streams), Settled(w))
    ensures Faithful(cfg, w.window, CommittedLog(w.streams), origin, base, Settled(w))
  {
    AlignedShift(w.clock);
    CommittedStateAfter(cfg, w.streams, MaxCommitHead(w.streams), origin, base, Settled(w));
    forall i, t | 0 <= i < |w.window| && origin <= t <= Settled(w) && Aligned(t) && Holds(w.window[i], t)
      ensures Read(w.window[i], t) == StateAfter(cfg, origin, base, CommittedLog(w.streams), t)[i]
    {
      CommittedStateAfter(cfg, w.streams, MaxCommitHead(w.streams), origin, base, t);
    }
  }

  /** However late remote input arrives, the stored state of the newest settled frame is the straight
      simulation of the committed input, and so is whatever the window still holds of older frames. */
  lemma RollbackRefinesStraightSimulation(cfg: Config, w0: World, inputs: seq<FrameInput>)
    requires SessionStart(cfg, w0) && RunOk(cfg, w0, inputs)
    ensures var w, origin := Run(cfg, w0, inputs), RunOrigin(cfg, w0, inputs, StartOrigin(w0));
      && ReadAll(w.window, Settled(w)) == Straight(cfg, w0, inputs, Settled(w))
      && Faithful(cfg, w.window, CommittedLog(w.streams), origin, StartBase(w0), Settled(w))
  {
    SessionInv(cfg, w0, inputs);
    SettledIsStraight(cfg, Run(cfg, w0, inputs), RunOrigin(cfg, w0, inputs, StartOrigin(w0)), StartBase(w0));
  }

  /** Whether a rollback could happen, the frame it would resume from, and the state it would find there. */
  predicate CanRollBack(w: World) {
    MaxCommitHead(w.streams) < w.clock
  }

  function ResumeFrame(w: World): int {
    MaxCommitHead(w.streams) - FRAME
  }

  function RewoundState(w: World): seq<int> {
    ReadAll(w.window, RewindPoint(MaxCommitHead(w.streams)))
  }

  /** The ten-change window never loses the state a rollback has to rewind to. */
  lemma RewindPointSurvives(cfg: Config, w0: World, inputs: seq<FrameInput>)
    requires SessionStart(cfg, w0) && RunOk(cfg, w0, inputs) && CanRollBack(Run(cfg, w0, inputs))
    ensures var w := Run(cfg, w0, inputs); RewoundState(w) == Straight(cfg, w0, inputs, ResumeFrame(w))
  {
    SessionInv(cfg, w0, inputs);
    AnchorIsStraight(cfg, Run(cfg, w0, inputs), RunOrigin(cfg, w0, inputs, StartOrigin(w0)), StartBase(w0));
  }

  lemma AnchorIsStraight(cfg: Config, w: World, origin: int, base: seq<int>)
    requires Inv(cfg, w, origin, base) && CanRollBack(w)
    ensures RewoundState(w) == StateAfter(cfg, origin, base, CommittedLog(w.streams), ResumeFrame(w))
  {
    var head := MaxCommitHead(w.streams);
    AlignedStep(head, w.clock);
    assert Anchored(cfg, w.window, Known(w.streams), origin, base, head);
    CommittedStateAfter(cfg, w.streams, head, origin, base, head - FRAME);
  }

  // ----- What a session needs for no fatal check to fire -----

  /** GetFramesReadyToCommit is fatal on stale streams, and on real input at the commit head itself. */
  ghost predicate ReadyCheck(s: Streams) {
    forall i :: 0 <= i < |s.uncommitted| ==>
      var u, head := s.uncommitted[i], MaxCommitHead(s);
      head <= u.head && (u.head == head && u.events != [] && u.events[|u.events| - 1].time == head ==>
        u.events[|u.events| - 1].value == NO_INPUT)
  }

  lemma ReadyCheckPasses(cfg: Config, s: Streams, head: int)
    requires StreamsOk(cfg, s, head)
    ensures ReadyCheck(s)
  {
    forall i | 0 <= i < |s.uncommitted|
      ensures var u := s.uncommitted[i];
        head <= u.head && (u.events != [] && u.events[|u.events| - 1].time == head ==>
          u.events[|u.events| - 1].value == NO_INPUT)
    {
      var u := s.uncommitted[i];
      assert UncommittedOk(u, head);
      if u.events != [] {
        assert u.events[|u.events| - 1] in u.events;
      }
    }
  }

  /** Some local stream is the one that holds the others back, written from the current frame on. */
  ghost predicate LocalIsLeast(cfg: Config, s: Streams, ready: int, clock: int) {
    exists i ::
      && 0 <= i < |cfg.sources| && i < |s.uncommitted| && cfg.sources[i].Local?
      && s.uncommitted[i].head == ready == clock + cfg.sources[i].delay
  }

  /** What a caller could check before a frame: it repeats a stalled one, and everybody's input, with a
      delayed local stream as the least, has come past it meanwhile. */
  ghost predicate CaughtUpAfterStall(cfg: Config, w: World, c: World) {
    var ready := MinHead(c.streams.uncommitted);
    && w.lastMode.StallSimulation? && MaxCommitHead(c.streams) < w.clock < ready
    && LocalIsLeast(cfg, c.streams, ready, w.clock)
  }

  lemma SecondIsReady(c: World)
    requires c.replayEnd == 0 && c.headClock == c.clock && 0 < c.clock && c.streams.uncommitted != []
    ensures var plan, ready := ChooseMode(c), MinHead(c.streams.uncommitted);
      && (plan.mode.OnRailsReplay? <==> c.clock <= MaxCommitHead(c.streams))
      && (!plan.mode.OnRailsReplay? ==> plan.second == if ready == c.clock then c.clock - FRAME else ready)
  {
  }

  lemma Gap(a: int, b: int)
    requires Aligned(a) && Aligned(b)
    ensures a < b <==> a + FRAME <= b
  {
    if a < b {
      AlignedStep(a, b);
    }
  }

  lemma LocalFits(cfg: Config, s: Streams, limit: int, ready: int, clock: int, i: nat)
    requires ConfigOk(cfg) && LocalHeads(cfg, s, limit) && i < |s.uncommitted| && i < |cfg.sources|
    requires cfg.sources[i].Local?
    requires ready <= s.uncommitted[i].head && Aligned(ready) && Aligned(clock) && Aligned(limit) && limit <= clock
    ensures var second, top := if ready == clock then clock - FRAME else ready, clock + cfg.sources[i].delay;
      second + FRAME > top <==> ready != clock && limit == clock && s.uncommitted[i].head == ready == top
  {
    var delay := cfg.sources[i].delay;
    assert s.uncommitted[i].head <= limit + delay && 0 <= delay;
    AlignedSum(clock, delay);
    Gap(limit, clock);
    Gap(ready, clock + delay);
  }

  lemma SomeLocalOverruns(cfg: Config, s: Streams, limit: int, ready: int, clock: int)
    requires ConfigOk(cfg) && |s.uncommitted| == |cfg.sources| && LocalHeads(cfg, s, limit)
    requires Aligned(ready) && Aligned(clock) && Aligned(limit) && limit <= clock
    requires forall i :: 0 <= i < |s.uncommitted| ==> ready <= s.uncommitted[i].head
    ensures var second := if ready == clock then clock - FRAME else ready;
      (forall i :: 0 <= i < |cfg.sources| && cfg.sources[i].Local? ==> second + FRAME <= clock + cfg.sources[i].delay)
      <==> !(ready != clock && limit == clock && LocalIsLeast(cfg, s, ready, clock))
  {
    forall i | 0 <= i < |cfg.sources| && cfg.sources[i].Local?
      ensures var second, top := if ready == clock then clock - FRAME else ready, clock + cfg.sources[i].delay;
        second + FRAME > top <==> ready != clock && limit == clock && s.uncommitted[i].head == ready == top
    {
      LocalFits(cfg, s, limit, ready, clock, i);
    }
  }

  lemma LeastIsAhead(cfg: Config, s: Streams, ready: int, clock: int)
    requires ConfigOk(cfg) && LocalIsLeast(cfg, s, ready, clock)
    ensures clock <= ready
  {
  }

  /** The fatal read-head check fires in exactly those frames. */
  lemma OverrunIff(cfg: Config, w: World, input: FrameInput)
    requires AtEntry(cfg, w) && Honest(cfg, w, input)
    ensures !NoOverrun(cfg, w, input) <==> CaughtUpAfterStall(cfg, w, Arrived(w, input))
  {
    ArrivedLimits(cfg, w, input);
    OverrunPlanIff(cfg, Arrived(w, input), Written(w));
  }

  lemma ArrivedLimits(cfg: Config, w: World, input: FrameInput)
    requires AtEntry(cfg, w) && Honest(cfg, w, input)
    ensures var c := Arrived(w, input);
      && Choosing(cfg, c) && LocalHeads(cfg, c.streams, Written(w)) && c.clock == w.clock
      && PlanOf(w, input) == ChooseMode(c)
    ensures Aligned(Written(w)) && Written(w) == if w.lastMode.StallSimulation? then w.clock else w.clock - FRAME
  {
    FrameShape(cfg, w, input);
    ArrivedStreams(cfg, w, input);
    AlignedShift(w.clock);
  }

  lemma OverrunPlanIff(cfg: Config, c: World, limit: int)
    requires Choosing(cfg, c) && LocalHeads(cfg, c.streams, limit) && Aligned(limit) && limit <= c.clock
    ensures var ready := MinHead(c.streams.uncommitted);
      !Fits(cfg, ChooseMode(c), c.clock) <==>
      limit == c.clock && MaxCommitHead(c.streams) < c.clock < ready && LocalIsLeast(cfg, c.streams, ready, c.clock)
  {
    var s, ready := c.streams, MinHead(c.streams.uncommitted);
    MinHeadFacts(cfg, s, MaxCommitHead(s));
    SecondIsReady(c);
    AlignedShift(c.clock);
    SomeLocalOverruns(cfg, s, limit, ready, c.clock);
    if LocalIsLeast(cfg, s, ready, c.clock) {
      LeastIsAhead(cfg, s, ready, c.clock);
    }
  }

  predicate HasPromptStream(cfg: Config) {
    exists i :: 0 <= i < |cfg.sources| && cfg.sources[i] == Local(0)
  }

  lemma PromptStreamBoundsReady(cfg: Config, w: World, input: FrameInput)
    requires AtEntry(cfg, w) && Honest(cfg, w, input) && HasPromptStream(cfg)
    ensures var c := Arrived(w, input); var ready := MinHead(c.streams.uncommitted);
      && ReadyCheck(c.streams) && ready <= Written(w) && (ready < w.clock ==> ready <= w.clock - FRAME)
  {
    var c := Arrived(w, input);
    var i :| 0 <= i < |cfg.sources| && cfg.sources[i] == Local(0);
    ArrivedStreams(cfg, w, input);
    ReadyCheckPasses(cfg, c.streams, MaxCommitHead(c.streams));
    MinHeadFacts(cfg, c.streams, MaxCommitHead(c.streams));
    var ready := MinHead(c.streams.uncommitted);
    assert ready <= c.streams.uncommitted[i].head;
    if ready < w.clock {
      AlignedStep(ready, w.clock);
    }
  }

  /** One local stream without artificial delay is enough: the pre-frame range ends by the previous
      frame, committing the current frame is only ever considered after a stall, and no read head
      can overrun its write head. */
  lemma PromptStreamNeverOverruns(cfg: Config, w: World, input: FrameInput)
    requires AtEntry(cfg, w) && Honest(cfg, w, input) && HasPromptStream(cfg)
    ensures NoOverrun(cfg, w, input) && ReadyCheck(Arrived(w, input).streams)
    ensures var c := Arrived(w, input); var ready := MinHead(c.streams.uncommitted);
      && ready <= w.clock && (ready == w.clock ==> w.lastMode.StallSimulation?)
      && (!PlanOf(w, input).mode.OnRailsReplay? ==> PlanOf(w, input).second <= w.clock - FRAME)
  {
    FrameShape(cfg, w, input);
    ArrivedMatches(cfg, w, input);
    SecondIsReady(Arrived(w, input));
    PromptStreamBoundsReady(cfg, w, input);
  }

  ghost predicate HonestRun(cfg: Config, w: World, inputs: seq<FrameInput>) {
    inputs != [] ==>
      && HonestRun(cfg, w, inputs[..|inputs| - 1])
      && Honest(cfg, Run(cfg, w, inputs[..|inputs| - 1]), inputs[|inputs| - 1])
  }

  /** With such a stream, honest remote input alone makes every run safe. */
  lemma {:induction false} PromptSessionsAreSafe(cfg: Config, w0: World, inputs: seq<FrameInput>)
    requires AtEntry(cfg, w0) && HonestRun(cfg, w0, inputs) && HasPromptStream(cfg)
    ensures SafeRun(cfg, w0, inputs)
  {
    if inputs != [] {
      var rest := inputs[..|inputs| - 1];
      PromptSessionsAreSafe(cfg, w0, rest);
      RunKeepsOrder(cfg, w0, rest);
      PromptStreamNeverOverruns(cfg, Run(cfg, w0, rest), inputs[|inputs| - 1]);
    }
  }

  // ----- Input exactly at the commit head -----

  /** The two arrivals of a late peer: input for frame `head`, and then a ready mark for `clock`. */
  function LatePair(r: nat, head: int, clock: int, value: int): seq<Arrival> {
    [Arrival(r, head, value), Arrival(r, clock, NO_INPUT)]
  }

  function AfterLatePair(u: InputStream, clock: int, value: int): InputStream {
    InputStream(u.events + [Event(u.head, value)], clock)
  }

  lemma LatePairArrives(cfg: Config, s: Streams, head: int, r: nat, clock: int, value: int)
    requires StreamsOk(cfg, s, head) && r < |s.uncommitted| && s.uncommitted[r].head == head < clock
    requires value != NO_INPUT
    ensures DeliverAll(s, LatePair(r, head, clock, value))
      == s.(uncommitted := s.uncommitted[r := AfterLatePair(s.uncommitted[r], clock, value)])
  {
    var a, b := Arrival(r, head, value), Arrival(r, clock, NO_INPUT);
    assert LatePair(r, head, clock, value)[..1] == [a] && [a][..0] == [];
    assert DeliverAll(s, [a]) == Deliver(DeliverAll(s, []), a);
  }

  lemma LatePairCommits(dest: InputStream, u: InputStream, clock: int, value: int)
    requires UncommittedOk(u, u.head) && value != NO_INPUT
    requires dest.head <= u.head
    ensures InputAt(Receive(dest, AfterLatePair(u, clock, value), u.head, u.head).events, u.head)
      == InputAt(dest.events, u.head) + [value]
  {
    var events := u.events + [Event(u.head, value)];
    forall i | 0 <= i < |u.events| ensures u.events[i].time <= u.head {
      assert u.events[i] in u.events;
    }
    assert Ordered(events);
    SelectEffect(events, u.head, u.head, u.head);
    InputAtConcat(dest.events, Select(events, u.head, u.head), u.head);
    InputAtConcat(u.events, [Event(u.head, value)], u.head);
    NoInputOutside(u.events, u.head);
  }

  lemma LatePairPlan(cfg: Config, c: World, s: Streams, head: int, r: nat, other: nat, value: int)
    requires StreamsOk(cfg, s, head) && head == c.clock - FRAME && r < |s.uncommitted| && other < |s.uncommitted|
    requires r != other
    requires s.uncommitted[r].head == s.uncommitted[other].head == head
    requires c.headClock == c.clock && 0 < c.clock && c.replayEnd == 0
    requires c.streams == s.(uncommitted := s.uncommitted[r := AfterLatePair(s.uncommitted[r], c.clock, value)])
    ensures ReadyCheck(c.streams) && ChooseMode(c) == Plan(SingleFrameSimulate, head, head)
  {
    var u := c.streams.uncommitted;
    MinHeadIsMin(u);
    ReadyCheckPasses(cfg, s, head);
    assert u[other].head == head;
    forall i | 0 <= i < |u| ensures head <= u[i].head {
      assert UncommittedOk(s.uncommitted[i], head);
    }
    assert MinHead(u) == head;
  }

  /** Why remote input has to be later than the commit head: one event exactly there, followed by a
      later ready mark, passes every check, joins the committed input of a frame that is already
      committed, and that frame is not simulated again. */
  lemma LateInputAmendsCommittedFrame(
    cfg: Config, w: World, r: nat, other: nat, value: int, typed: seq<seq<int>>)
    requires AtEntry(cfg, w) && MaxCommitHead(w.streams) == w.clock - FRAME && value != NO_INPUT
    requires r < |cfg.sources| && other < |cfg.sources| && r != other
    requires w.streams.uncommitted[r].head == w.streams.uncommitted[other].head == w.clock - FRAME
    ensures var head := w.clock - FRAME;
      var c := Arrived(w, FrameInput(NO_DEBUG, LatePair(r, head, w.clock, value), typed, []));
      var committed := Commit(c.streams, head, head).committed;
      && ReadyCheck(c.streams) && ChooseMode(c) == Plan(SingleFrameSimulate, head, head)
      && PreCommit(cfg, c, ChooseMode(c)).streams.committed == committed && r < |committed|
      && InputAt(committed[r].events, head) == InputAt(w.streams.committed[r].events, head) + [value]
      && Prepared(cfg, c).window == w.window
  {
    var head, s := w.clock - FRAME, w.streams;
    var c := Arrived(w, FrameInput(NO_DEBUG, LatePair(r, head, w.clock, value), typed, []));
    assert UncommittedOk(s.uncommitted[r], head);
    LatePairArrives(cfg, s, head, r, w.clock, value);
    LatePairPlan(cfg, c, s, head, r, other, value);
    LatePairCommits(s.committed[r], s.uncommitted[r], w.clock, value);
  }

  // ----- Re-simulation coverage -----

  function FramesOf(from: int, until: int): (frames: seq<int>)
    decreases if from < until then until - from else 0
  {
    if from >= until then [] else [from] + FramesOf(from + FRAME, until)
  }

  function TickEach(cfg: Config, window: seq<StateStream>, log: seq<seq<Event>>, frames: seq<int>): seq<StateStream> {
    if frames == [] then window
    else
      var last := frames[|frames| - 1];
      Tick(cfg, TickEach(cfg, window, log, frames[..|frames| - 1]), Inputs(log, last), last)
  }

  lemma {:induction false} TickEachFirst(
    cfg: Config, window: seq<StateStream>, log: seq<seq<Event>>, first: int, rest: seq<int>)
    ensures TickEach(cfg, window, log, [first] + rest)
      == TickEach(cfg, Tick(cfg, window, Inputs(log, first), first), log, rest)
  {
    if rest == [] {
      assert [first] + rest == [first] && [first][..0] == [];
      assert TickEach(cfg, window, log, [first][..0]) == window;
    } else {
      assert ([first] + rest)[..|rest|] == [first] + rest[..|rest| - 1];
      TickEachFirst(cfg, window, log, first, rest[..|rest| - 1]);
    }
  }

  /** The re-simulation loop ticks from, from + FRAME, .. up to but not including `until`: each frame
      once, in ascending order, and a frame-aligned range ends exactly on the true frame. */
  lemma {:induction false} ResimulationCoverage(
    cfg: Config, window: seq<StateStream>, log: seq<seq<Event>>, from: int, until: int)
    requires from <= until && (until - from) % FRAME == 0
    ensures var frames := FramesOf(from, until);
      && Resimulate(cfg, window, log, from, until) == TickEach(cfg, window, log, frames)
      && |frames| * FRAME == until - from
      && (forall k :: 0 <= k < |frames| ==> frames[k] == from + k * FRAME)
    decreases until - from
  {
    if from < until {
      assert from + FRAME <= until && (until - (from + FRAME)) % FRAME == 0;
      var next := Tick(cfg, window, Inputs(log, from), from);
      ResimulationCoverage(cfg, next, log, from + FRAME, until);
      var rest := FramesOf(from + FRAME, until);
      TickEachFirst(cfg, window, log, from, rest);
      forall k | 0 <= k < |rest| + 1 ensures ([from] + rest)[k] == from + k * FRAME {
        if k > 0 {
          assert ([from] + rest)[k] == rest[k - 1];
        }
      }
    }
  }
}
