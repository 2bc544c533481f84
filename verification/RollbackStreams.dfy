/** Clock and streams through a frame: bookkeeping that does not depend on what was simulated. */
module RollbackStreams {
  import opened StateStreams
  import opened InputStreams
  import opened FrameDriver
  import opened RollbackSteps

  function Min(a: int, b: int): int {
    if a < b then a else b
  }

  // ----- At the entry of a frame, and within it -----

  /** Every local stream is written at least up to `time`. */
  ghost predicate LocalsCurrent(cfg: Config, s: Streams, time: int) {
    forall i :: 0 <= i < |s.uncommitted| && i < |cfg.sources| && cfg.sources[i].Local? ==> time <= s.uncommitted[i].head
  }

  /** Streams that are in order for a clock, with local streams written no further than `limit`. */
  ghost predicate InOrder(cfg: Config, s: Streams, clock: int, limit: int) {
    var previous, head := clock - FRAME, MaxCommitHead(s);
    && ConfigOk(cfg) && StreamsOk(cfg, s, head) && LocalHeads(cfg, s, limit)
    && Aligned(clock) && 0 <= previous <= head + MAX_ROLLBACK_FRAMES * FRAME
  }

  /** How far local streams may be written at an entry, artificial delay aside: a frame that repeats a
      stalled one was written already. */
  function Written(w: World): int {
    if w.lastMode.StallSimulation? then w.clock else w.clock - FRAME
  }

  ghost predicate AtEntry(cfg: Config, w: World) {
    && InOrder(cfg, w.streams, w.clock, Written(w)) && w.headClock == w.clock - FRAME
    && w.replayEnd == 0 && !w.replayTriggered
  }

  /** A frame that is about to choose its plan. */
  ghost predicate Choosing(cfg: Config, c: World) {
    InOrder(cfg, c.streams, c.clock, c.clock) && c.headClock == c.clock && c.replayEnd == 0 && !c.replayTriggered
  }

  /** A frame that is about to tick the true frame under its plan. */
  ghost predicate Ticking(cfg: Config, r: World, plan: Plan) {
    && Choosing(cfg, r) && MaxCommitHead(r.streams) == plan.second
    && (plan.mode.OnRailsReplay? || TypesAhead(cfg, plan.second, r.clock))
    && (plan.mode.OnRailsReplay? ==> r.clock <= plan.second)
    && (plan.mode.StallSimulation? ==> plan.second <= r.clock - FRAME)
    && (!plan.mode.StallSimulation? ==> r.clock <= plan.second + MAX_ROLLBACK_FRAMES * FRAME)
  }

  // ----- The stages of a frame without debug requests -----

  /** The frame after early input has arrived and before anything is simulated. */
  function Arrived(w: World, input: FrameInput): World {
    w.(headClock := w.clock, streams := DeliverAll(w.streams, input.early))
  }

  function Prepared(cfg: Config, c: World): World {
    Rollback(cfg, PreCommit(cfg, c, ChooseMode(c)), ChooseMode(c))
  }

  /** The streams as the true frame's tick sees them. */
  function AtTick(cfg: Config, r: World, plan: Plan, typed: seq<seq<int>>): Streams {
    if plan.mode.OnRailsReplay? then r.streams else TickLocal(cfg, r.streams, typed, r.clock)
  }

  function TickedWindow(cfg: Config, r: World, plan: Plan, typed: seq<seq<int>>): seq<StateStream> {
    Tick(cfg, r.window, Inputs(Known(AtTick(cfg, r, plan, typed)), r.clock), r.clock)
  }

  /** The streams after the post-tick commit, before session input. */
  function Committed(cfg: Config, r: World, plan: Plan, typed: seq<seq<int>>): Streams {
    PostCommit(cfg, TickFrame(cfg, r, plan, typed), plan).streams
  }

  /** The streams once session input has arrived. */
  function Received(cfg: Config, r: World, plan: Plan, input: FrameInput): Streams {
    var s := Committed(cfg, r, plan, input.typed);
    if plan.mode.OnRailsReplay? then s else DeliverAll(s, input.late)
  }

  /** The next entry, when the true frame's tick is kept and when a stall undoes it. */
  function KeptEntry(cfg: Config, r: World, plan: Plan, input: FrameInput): World {
    var window := TickedWindow(cfg, r, plan, input.typed);
    World(r.clock + FRAME, r.clock, Received(cfg, r, plan, input), window, plan.mode, r.replayEnd, r.replayTriggered)
  }

  function UndoneEntry(cfg: Config, r: World, plan: Plan, input: FrameInput): World {
    var s, window := Received(cfg, r, plan, input), RewindAll(TickedWindow(cfg, r, plan, input.typed), r.clock - FRAME);
    World(r.clock, r.clock - FRAME, s, window, plan.mode, r.replayEnd, r.replayTriggered)
  }

  lemma NextEntryParts(cfg: Config, r: World, plan: Plan, input: FrameInput)
    requires r.headClock == r.clock
    ensures NextEntry(EndFrame(PostCommit(cfg, TickFrame(cfg, r, plan, input.typed), plan), plan, input.late))
         == if plan.mode.StallSimulation? then UndoneEntry(cfg, r, plan, input) else KeptEntry(cfg, r, plan, input)
  {
  }

  lemma BeginQuiet(cfg: Config, w: World)
    requires AtEntry(cfg, w)
    ensures BeginFrame(w, NO_DEBUG) == w.(headClock := w.clock)
  {
  }

  lemma FrameShape(cfg: Config, w: World, input: FrameInput)
    requires AtEntry(cfg, w) && input.debug == NO_DEBUG
    ensures var c := Arrived(w, input);
      var plan := ChooseMode(c);
      && PlanOf(w, input) == plan
      && Frame(cfg, w, input) ==
          EndFrame(PostCommit(cfg, TickFrame(cfg, Prepared(cfg, c), plan, input.typed), plan), plan, input.late)
  {
    BeginQuiet(cfg, w);
  }

  lemma PreparedClock(cfg: Config, c: World)
    ensures var r := Prepared(cfg, c); r.clock == c.clock && r.headClock == c.headClock && r.replayEnd == c.replayEnd
    ensures Prepared(cfg, c).replayTriggered == c.replayTriggered
    ensures Prepared(cfg, c).streams == PreCommit(cfg, c, ChooseMode(c)).streams
    ensures !ChooseMode(c).mode.RollbackAndSimulate? ==> Prepared(cfg, c).window == c.window
  {
  }

  /** The next entry in terms of the prepared frame. */
  lemma EntryOf(cfg: Config, w: World, input: FrameInput)
    requires AtEntry(cfg, w) && input.debug == NO_DEBUG
    ensures var r, plan := Prepared(cfg, Arrived(w, input)), PlanOf(w, input);
      NextEntry(Frame(cfg, w, input)) ==
        if plan.mode.StallSimulation? then UndoneEntry(cfg, r, plan, input) else KeptEntry(cfg, r, plan, input)
  {
    FrameShape(cfg, w, input);
    PreparedClock(cfg, Arrived(w, input));
    NextEntryParts(cfg, Prepared(cfg, Arrived(w, input)), PlanOf(w, input), input);
  }

  // ----- What the outside has to keep to -----

  /** Session input is not consumed during a replay; otherwise it must leave committed frames alone. */
  ghost predicate LateOk(cfg: Config, plan: Plan, s: Streams, late: seq<Arrival>) {
    plan.mode.OnRailsReplay? || ArrivalsOk(cfg, s, late, MaxCommitHead(s))
  }

  /** The streams that a frame's session input meets. */
  function BeforeLate(cfg: Config, w: World, input: FrameInput): Streams {
    Frame(cfg, w, input.(late := [])).streams
  }

  /** No debug time changes, and no arrival that amends a committed frame. */
  ghost predicate Honest(cfg: Config, w: World, input: FrameInput) {
    && input.debug == NO_DEBUG
    && ArrivalsOk(cfg, w.streams, input.early, MaxCommitHead(w.streams))
    && LateOk(cfg, PlanOf(w, input), BeforeLate(cfg, w, input), input.late)
  }

  /** The fatal read-head check of AdvanceInputStream, which a frame must not run into. */
  predicate NoOverrun(cfg: Config, w: World, input: FrameInput) {
    Fits(cfg, PlanOf(w, input), w.clock)
  }

  predicate Fits(cfg: Config, plan: Plan, clock: int) {
    plan.mode.OnRailsReplay? ||
    forall i :: 0 <= i < |cfg.sources| && cfg.sources[i].Local? ==> plan.second + FRAME <= clock + cfg.sources[i].delay
  }

  lemma BeforeLateIs(cfg: Config, w: World, input: FrameInput)
    requires AtEntry(cfg, w) && input.debug == NO_DEBUG
    ensures BeforeLate(cfg, w, input) == Committed(cfg, Prepared(cfg, Arrived(w, input)), PlanOf(w, input), input.typed)
  {
    FrameShape(cfg, w, input);
    FrameShape(cfg, w, input.(late := []));
  }

  // ----- Up to the tick of the true frame -----

  lemma LocalHeadsLater(cfg: Config, s: Streams, limit: int, later: int)
    requires LocalHeads(cfg, s, limit) && limit <= later
    ensures LocalHeads(cfg, s, later)
  {
  }

  lemma ArrivedStreams(cfg: Config, w: World, input: FrameInput)
    requires AtEntry(cfg, w) && ArrivalsOk(cfg, w.streams, input.early, MaxCommitHead(w.streams))
    ensures var head, c := MaxCommitHead(w.streams), Arrived(w, input);
      && Choosing(cfg, c) && InOrder(cfg, c.streams, c.clock, Written(w)) && MaxCommitHead(c.streams) == head
      && (forall t :: t <= head ==> SameInput(w.streams, c.streams, t))
      && (forall i :: 0 <= i < |cfg.sources| && cfg.sources[i].Local? ==>
            c.streams.uncommitted[i] == w.streams.uncommitted[i])
  {
    var head := MaxCommitHead(w.streams);
    DeliverKeeps(cfg, w.streams, head, input.early, head);
    LocalHeadsLater(cfg, Arrived(w, input).streams, Written(w), w.clock);
  }

  lemma ArrivedMatches(cfg: Config, w: World, input: FrameInput)
    requires AtEntry(cfg, w) && Honest(cfg, w, input)
    ensures ArrivalsOk(cfg, w.streams, input.early, MaxCommitHead(w.streams))
    ensures Choosing(cfg, Arrived(w, input)) && MaxCommitHead(Arrived(w, input).streams) == MaxCommitHead(w.streams)
    ensures Arrived(w, input).clock == w.clock && Arrived(w, input).window == w.window
  {
    ArrivedStreams(cfg, w, input);
  }

  /** Outside debug replays the plan commits [head, second], and the mode says how the two compare. */
  lemma PlanFacts(cfg: Config, c: World)
    requires Choosing(cfg, c)
    ensures var plan, head, previous := ChooseMode(c), MaxCommitHead(c.streams), c.clock - FRAME;
      && plan.first == head <= plan.second && Aligned(plan.second)
      && (forall i :: 0 <= i < |c.streams.uncommitted| ==> plan.second <= c.streams.uncommitted[i].head)
      && (plan.mode.OnRailsReplay? <==> c.clock <= head)
      && (!plan.mode.OnRailsReplay? ==> head <= previous)
      && (plan.mode.RollbackAndSimulate? <==> head < plan.second)
      && (plan.mode.StallSimulation? <==> plan.second == head && MAX_ROLLBACK_FRAMES * FRAME <= previous - head)
      && (plan.mode.SingleFrameSimulate? <==>
            head < c.clock && plan.second == head && previous - head < MAX_ROLLBACK_FRAMES * FRAME)
      && (plan.second == head && head < previous ==>
            exists i :: 0 <= i < |c.streams.uncommitted| && c.streams.uncommitted[i].head == head)
  {
    var streams, head := c.streams.uncommitted, MaxCommitHead(c.streams);
    MinHeadIsMin(streams);
    var i :| 0 <= i < |streams| && MinHead(streams) == streams[i].head;
    assert UncommittedOk(streams[i], head);
    AlignedShift(c.clock);
    if head < c.clock {
      AlignedStep(head, c.clock);
    }
  }

  /** The fatal checks of AdvanceInputStream, on every local stream. */
  ghost predicate CanAdvance(cfg: Config, s: Streams, lockedFrame: int, writeHead: int) {
    forall i :: 0 <= i < |s.uncommitted| && i < |cfg.sources| && cfg.sources[i].Local? ==>
      s.uncommitted[i].head <= writeHead + cfg.sources[i].delay && lockedFrame <= writeHead + cfg.sources[i].delay
  }

  /** Remote streams are written as far in both. */
  ghost predicate SameRemotes(cfg: Config, s: Streams, s': Streams) {
    && |s'.uncommitted| == |s.uncommitted| == |cfg.sources|
    && forall i :: 0 <= i < |s.uncommitted| && cfg.sources[i].Remote? ==>
        s'.uncommitted[i].head == s.uncommitted[i].head
  }

  function CommitAdvance(
    cfg: Config, s: Streams, first: int, second: int, advance: bool, locked: int, now: int): Streams
  {
    if advance then AdvanceLocal(cfg, Commit(s, first, second), locked, now) else Commit(s, first, second)
  }

  lemma AdvanceHeads(cfg: Config, s: Streams, head: int, locked: int, now: int)
    requires ConfigOk(cfg) && StreamsOk(cfg, s, head) && LocalHeads(cfg, s, now)
    requires Aligned(locked) && Aligned(now) && locked <= head + FRAME
    ensures var s' := AdvanceLocal(cfg, s, locked, now);
      && StreamsOk(cfg, s', head) && LocalHeads(cfg, s', now) && s'.committed == s.committed
      && (forall t :: SameInput(s, s', t)) && SameRemotes(cfg, s, s')
      && (CanAdvance(cfg, s, locked, now) ==> LocalsCurrent(cfg, s', now))
  {
    AdvanceKeeps(cfg, s, head, locked, now);
  }

  lemma CommitAdvanceKeeps(
    cfg: Config, s: Streams, head: int, second: int, advance: bool, locked: int, now: int)
    requires ConfigOk(cfg) && StreamsOk(cfg, s, head) && LocalHeads(cfg, s, now)
    requires head <= second && Aligned(second) && Aligned(locked) && Aligned(now) && locked <= second + FRAME
    requires forall i :: 0 <= i < |s.uncommitted| ==> second <= s.uncommitted[i].head
    ensures var s' := CommitAdvance(cfg, s, head, second, advance, locked, now);
      && StreamsOk(cfg, s', second) && MaxCommitHead(s') == second && LocalHeads(cfg, s', now)
      && (forall t :: SameInput(s, s', t)) && SameRemotes(cfg, s, s')
      && (advance && CanAdvance(cfg, s, locked, now) ==> LocalsCurrent(cfg, s', now))
  {
    var m := Commit(s, head, second);
    CommitKeeps(cfg, s, head, second);
    if advance {
      AdvanceHeads(cfg, m, second, locked, now);
      var s' := AdvanceLocal(cfg, m, locked, now);
      forall t ensures SameInput(s, s', t) {
        assert SameInput(s, m, t) && SameInput(m, s', t);
      }
    }
  }

  lemma PreCommitIsAdvance(cfg: Config, c: World, plan: Plan)
    ensures PreCommit(cfg, c, plan).streams ==
      CommitAdvance(cfg, c.streams, plan.first, plan.second, !plan.mode.OnRailsReplay?, plan.second + FRAME, c.clock)
  {
  }

  lemma PreCommitStreams(cfg: Config, c: World)
    requires Choosing(cfg, c)
    ensures var s, s', plan := c.streams, Prepared(cfg, c).streams, ChooseMode(c);
      && StreamsOk(cfg, s', plan.second) && MaxCommitHead(s') == plan.second && LocalHeads(cfg, s', c.clock)
      && (forall t :: SameInput(s, s', t)) && SameRemotes(cfg, s, s')
  {
    var plan := ChooseMode(c);
    PlanFacts(cfg, c);
    AlignedShift(plan.second);
    PreCommitIsAdvance(cfg, c, plan);
    PreparedClock(cfg, c);
    CommitAdvanceKeeps(
      cfg, c.streams, plan.first, plan.second, !plan.mode.OnRailsReplay?, plan.second + FRAME, c.clock);
  }

  lemma FitsTypesAhead(cfg: Config, plan: Plan, clock: int)
    requires Fits(cfg, plan, clock)
    ensures plan.mode.OnRailsReplay? || TypesAhead(cfg, plan.second, clock)
  {
  }

  lemma PreparedIsTicking(cfg: Config, c: World)
    requires Choosing(cfg, c) && Fits(cfg, ChooseMode(c), c.clock)
    ensures Ticking(cfg, Prepared(cfg, c), ChooseMode(c))
  {
    var plan := ChooseMode(c);
    PlanFacts(cfg, c);
    PreCommitStreams(cfg, c);
    PreparedClock(cfg, c);
    FitsTypesAhead(cfg, plan, c.clock);
    if plan.mode.RollbackAndSimulate? {
      AlignedStep(plan.first, plan.second);
    }
  }

  // ----- From the tick to the end of the frame -----

  lemma AtTickKeeps(cfg: Config, r: World, plan: Plan, typed: seq<seq<int>>)
    requires Ticking(cfg, r, plan)
    ensures var s, s' := r.streams, AtTick(cfg, r, plan, typed);
      && StreamsOk(cfg, s', plan.second) && MaxCommitHead(s') == plan.second && LocalHeads(cfg, s', r.clock)
      && (forall t :: t < r.clock ==> SameInput(s, s', t)) && SameRemotes(cfg, s, s')
  {
    if !plan.mode.OnRailsReplay? {
      TypeKeeps(cfg, r.streams, MaxCommitHead(r.streams), typed, r.clock);
    }
  }

  lemma AheadCanAdvance(cfg: Config, s: Streams, head: int, now: int)
    requires ConfigOk(cfg) && LocalHeads(cfg, s, now) && TypesAhead(cfg, head, now) && Aligned(head) && Aligned(now)
    ensures CanAdvance(cfg, s, head + FRAME, now)
  {
    forall i | 0 <= i < |s.uncommitted| && i < |cfg.sources| && cfg.sources[i].Local?
      ensures head + FRAME <= now + cfg.sources[i].delay
    {
      AlignedSum(now, cfg.sources[i].delay);
      AlignedStep(head, now + cfg.sources[i].delay);
    }
  }

  /** The streams that the commit after the tick sees: local ones are written up to this frame. */
  lemma TickedStreams(cfg: Config, r: World, plan: Plan, typed: seq<seq<int>>)
    requires Ticking(cfg, r, plan)
    ensures var s, m := AtTick(cfg, r, plan, typed), TickFrame(cfg, r, plan, typed).streams;
      && StreamsOk(cfg, m, plan.second) && MaxCommitHead(m) == plan.second && LocalHeads(cfg, m, r.clock)
      && (forall t :: SameInput(s, m, t)) && SameRemotes(cfg, r.streams, m)
      && (!plan.mode.OnRailsReplay? ==> LocalsCurrent(cfg, m, r.clock))
  {
    var s := AtTick(cfg, r, plan, typed);
    AtTickKeeps(cfg, r, plan, typed);
    AlignedShift(plan.second);
    if !plan.mode.OnRailsReplay? {
      AheadCanAdvance(cfg, s, plan.second, r.clock);
      AdvanceHeads(cfg, s, plan.second, plan.second + FRAME, r.clock);
      assert TickFrame(cfg, r, plan, typed).streams == AdvanceLocal(cfg, s, plan.second + FRAME, r.clock);
    }
  }

  lemma MinHeadFacts(cfg: Config, s: Streams, head: int)
    requires StreamsOk(cfg, s, head)
    ensures var second := MinHead(s.uncommitted);
      && head <= second && Aligned(second)
      && (forall i :: 0 <= i < |s.uncommitted| ==> second <= s.uncommitted[i].head)
  {
    MinHeadIsMin(s.uncommitted);
    var i :| 0 <= i < |s.uncommitted| && MinHead(s.uncommitted) == s.uncommitted[i].head;
    assert UncommittedOk(s.uncommitted[i], head);
  }

  /** The commit after the tick: known input stays as it is, and the commit head is the least write head. */
  lemma CommittedStreams(cfg: Config, r: World, plan: Plan, typed: seq<seq<int>>)
    requires Ticking(cfg, r, plan)
    ensures var s, s' := AtTick(cfg, r, plan, typed), Committed(cfg, r, plan, typed);
      var head' := MaxCommitHead(s');
      && head' == MinHead(TickFrame(cfg, r, plan, typed).streams.uncommitted)
      && StreamsOk(cfg, s', head') && plan.second <= head' && LocalHeads(cfg, s', r.clock)
      && (forall t :: SameInput(s, s', t))
      && LocalsCurrent(cfg, s', r.clock)
  {
    var m := TickFrame(cfg, r, plan, typed).streams;
    TickedStreams(cfg, r, plan, typed);
    MinHeadFacts(cfg, m, plan.second);
    var second, advance := MinHead(m.uncommitted), !plan.mode.OnRailsReplay?;
    CommitAdvanceKeeps(cfg, m, plan.second, second, advance, second, r.clock);
    var s, s' := AtTick(cfg, r, plan, typed), Committed(cfg, r, plan, typed);
    assert s' == CommitAdvance(cfg, m, plan.second, second, advance, second, r.clock);
    forall t ensures SameInput(s, s', t) {
      assert SameInput(s, m, t) && SameInput(m, s', t);
    }
    MinHeadFacts(cfg, s', second);
    assert forall i :: 0 <= i < |s'.uncommitted| ==> UncommittedOk(s'.uncommitted[i], second);
  }

  lemma ReceivedStreams(cfg: Config, r: World, plan: Plan, input: FrameInput)
    requires Ticking(cfg, r, plan) && LateOk(cfg, plan, Committed(cfg, r, plan, input.typed), input.late)
    ensures var s, s' := Committed(cfg, r, plan, input.typed), Received(cfg, r, plan, input);
      var head := MaxCommitHead(s);
      && StreamsOk(cfg, s', head) && MaxCommitHead(s') == head && plan.second <= head
      && LocalHeads(cfg, s', r.clock) && LocalsCurrent(cfg, s', r.clock)
      && (forall t :: t <= head ==> SameInput(s, s', t))
  {
    var s := Committed(cfg, r, plan, input.typed);
    CommittedStreams(cfg, r, plan, input.typed);
    if !plan.mode.OnRailsReplay? {
      DeliverKeeps(cfg, s, MaxCommitHead(s), input.late, MaxCommitHead(s));
    }
  }

  /** The streams that a frame leaves behind, for the next entry. */
  lemma ReceivedIsInOrder(cfg: Config, r: World, plan: Plan, input: FrameInput)
    requires Ticking(cfg, r, plan) && LateOk(cfg, plan, Committed(cfg, r, plan, input.typed), input.late)
    ensures var s' := Received(cfg, r, plan, input);
      if plan.mode.StallSimulation? then InOrder(cfg, s', r.clock, r.clock)
      else InOrder(cfg, s', r.clock + FRAME, r.clock)
  {
    ReceivedStreams(cfg, r, plan, input);
    AlignedShift(r.clock);
  }

  lemma InputsThroughTick(cfg: Config, r: World, plan: Plan, input: FrameInput)
    requires Ticking(cfg, r, plan) && LateOk(cfg, plan, Committed(cfg, r, plan, input.typed), input.late)
    ensures var s' := Received(cfg, r, plan, input);
      forall t :: t <= plan.second && (t < r.clock || plan.mode.OnRailsReplay?) ==> SameInput(r.streams, s', t)
  {
    var s, m := AtTick(cfg, r, plan, input.typed), Committed(cfg, r, plan, input.typed);
    var s' := Received(cfg, r, plan, input);
    AtTickKeeps(cfg, r, plan, input.typed);
    CommittedStreams(cfg, r, plan, input.typed);
    ReceivedStreams(cfg, r, plan, input);
    forall t | t <= plan.second && (t < r.clock || plan.mode.OnRailsReplay?) ensures SameInput(r.streams, s', t) {
      assert SameInput(r.streams, s, t) && SameInput(s, m, t) && SameInput(m, s', t);
    }
  }

  // ----- A whole frame -----

  /** What a frame that is honest and safe goes through. */
  lemma FrameStages(cfg: Config, w: World, input: FrameInput)
    requires AtEntry(cfg, w) && Honest(cfg, w, input) && NoOverrun(cfg, w, input)
    ensures var c, plan := Arrived(w, input), PlanOf(w, input);
      var r := Prepared(cfg, c);
      && Choosing(cfg, c) && plan == ChooseMode(c) && Ticking(cfg, r, plan) && r.clock == w.clock
      && BeforeLate(cfg, w, input) == Committed(cfg, r, plan, input.typed)
      && LateOk(cfg, plan, Committed(cfg, r, plan, input.typed), input.late)
      && NextEntry(Frame(cfg, w, input)) ==
          if plan.mode.StallSimulation? then UndoneEntry(cfg, r, plan, input) else KeptEntry(cfg, r, plan, input)
  {
    FrameShape(cfg, w, input);
    ArrivedStreams(cfg, w, input);
    PreparedIsTicking(cfg, Arrived(w, input));
    PreparedClock(cfg, Arrived(w, input));
    BeforeLateIs(cfg, w, input);
    EntryOf(cfg, w, input);
  }

  lemma KeptIsEntry(cfg: Config, r: World, plan: Plan, input: FrameInput)
    requires Ticking(cfg, r, plan) && LateOk(cfg, plan, Committed(cfg, r, plan, input.typed), input.late)
    requires !plan.mode.StallSimulation?
    ensures var w' := KeptEntry(cfg, r, plan, input);
      AtEntry(cfg, w') && LocalsCurrent(cfg, w'.streams, w'.clock - FRAME)
  {
    ReceivedIsInOrder(cfg, r, plan, input);
    ReceivedStreams(cfg, r, plan, input);
  }

  lemma UndoneIsEntry(cfg: Config, r: World, plan: Plan, input: FrameInput)
    requires Ticking(cfg, r, plan) && LateOk(cfg, plan, Committed(cfg, r, plan, input.typed), input.late)
    requires plan.mode.StallSimulation?
    ensures var w' := UndoneEntry(cfg, r, plan, input);
      AtEntry(cfg, w') && LocalsCurrent(cfg, w'.streams, w'.clock - FRAME)
  {
    ReceivedIsInOrder(cfg, r, plan, input);
    ReceivedStreams(cfg, r, plan, input);
  }

  /** One frame keeps clock and streams in order, in every mode. */
  lemma FrameKeepsOrder(cfg: Config, w: World, input: FrameInput)
    requires AtEntry(cfg, w) && Honest(cfg, w, input) && NoOverrun(cfg, w, input)
    ensures var w' := NextEntry(Frame(cfg, w, input));
      AtEntry(cfg, w') && LocalsCurrent(cfg, w'.streams, w'.clock - FRAME)
  {
    var r, plan := Prepared(cfg, Arrived(w, input)), PlanOf(w, input);
    FrameStages(cfg, w, input);
    if plan.mode.StallSimulation? {
      UndoneIsEntry(cfg, r, plan, input);
    } else {
      KeptIsEntry(cfg, r, plan, input);
    }
  }

  /** A frame never moves the commit head back, nor changes input up to it. */
  lemma FrameKeepsInput(cfg: Config, w: World, input: FrameInput)
    requires AtEntry(cfg, w) && Honest(cfg, w, input) && NoOverrun(cfg, w, input)
    ensures var s, s' := w.streams, NextEntry(Frame(cfg, w, input)).streams;
      && 0 <= MaxCommitHead(s) <= PlanOf(w, input).second <= MaxCommitHead(s')
      && (forall t :: t <= MaxCommitHead(s) ==> SameInput(s, s', t))
  {
    var c, plan := Arrived(w, input), PlanOf(w, input);
    var r := Prepared(cfg, c);
    var s' := Received(cfg, r, plan, input);
    FrameStages(cfg, w, input);
    ArrivedStreams(cfg, w, input);
    PlanFacts(cfg, c);
    PreCommitStreams(cfg, c);
    ReceivedStreams(cfg, r, plan, input);
    InputsThroughTick(cfg, r, plan, input);
    forall t | t <= MaxCommitHead(w.streams) ensures SameInput(w.streams, s', t) {
      assert SameInput(w.streams, c.streams, t) && SameInput(c.streams, r.streams, t) && SameInput(r.streams, s', t);
    }
  }

  // ----- What a frame commits -----

  /** The least of `limit` and the write heads of all remote streams from the i-th on. */
  function LeastRemote(cfg: Config, s: Streams, limit: int, i: nat := 0): int
    decreases |s.uncommitted| - i
  {
    if i >= |s.uncommitted| || i >= |cfg.sources| then limit
    else
      var rest := LeastRemote(cfg, s, limit, i + 1);
      if cfg.sources[i].Remote? then Min(s.uncommitted[i].head, rest) else rest
  }

  lemma {:induction false} LeastRemoteIsLeast(cfg: Config, s: Streams, limit: int, i: nat)
    requires |s.uncommitted| == |cfg.sources|
    ensures LeastRemote(cfg, s, limit, i) <= limit
    ensures forall j :: i <= j < |s.uncommitted| && cfg.sources[j].Remote? ==>
      LeastRemote(cfg, s, limit, i) <= s.uncommitted[j].head
    ensures LeastRemote(cfg, s, limit, i) == limit ||
      exists j ::
        && i <= j < |s.uncommitted| && cfg.sources[j].Remote?
        && s.uncommitted[j].head == LeastRemote(cfg, s, limit, i)
    decreases |s.uncommitted| - i
  {
    if i < |s.uncommitted| {
      LeastRemoteIsLeast(cfg, s, limit, i + 1);
    }
  }

  lemma {:induction false} LeastRemoteTransfers(cfg: Config, s: Streams, s': Streams, limit: int, i: nat)
    requires SameRemotes(cfg, s, s')
    ensures LeastRemote(cfg, s', limit, i) == LeastRemote(cfg, s, limit, i)
    decreases |s.uncommitted| - i
  {
    if i < |s.uncommitted| {
      LeastRemoteTransfers(cfg, s, s', limit, i + 1);
    }
  }

  /** With local streams written past `limit`, only remote ones hold the commit back before it. */
  lemma LeastIsRemote(cfg: Config, m: Streams, limit: int)
    requires |m.uncommitted| == |cfg.sources| > 0 && LocalsCurrent(cfg, m, limit)
    ensures Min(MinHead(m.uncommitted), limit) == LeastRemote(cfg, m, limit)
  {
    LeastRemoteIsLeast(cfg, m, limit, 0);
    MinHeadIsMin(m.uncommitted);
  }

  /** How far a frame's commits reach into frames that were simulated before it. Before a rollback or in
      a replay that is the commit head; otherwise every remote stream that is not written past the
      previous frame holds the commit after the tick back, and no local stream does. */
  function FloorOf(cfg: Config, c: World): int {
    var plan := ChooseMode(c);
    if plan.mode.RollbackAndSimulate? || plan.mode.OnRailsReplay? then MaxCommitHead(c.streams)
    else LeastRemote(cfg, c.streams, c.clock - FRAME)
  }

  function Floor(cfg: Config, w: World, input: FrameInput): int {
    FloorOf(cfg, Arrived(w, input))
  }

  /** The commit after the tick goes up to the least remote write head, if that is before the true frame. */
  lemma CommitReaches(cfg: Config, r: World, plan: Plan, typed: seq<seq<int>>, limit: int)
    requires Ticking(cfg, r, plan) && !plan.mode.OnRailsReplay? && limit <= r.clock
    ensures Min(MaxCommitHead(Committed(cfg, r, plan, typed)), limit) == LeastRemote(cfg, r.streams, limit)
  {
    var m := TickFrame(cfg, r, plan, typed).streams;
    TickedStreams(cfg, r, plan, typed);
    CommittedStreams(cfg, r, plan, typed);
    LeastRemoteTransfers(cfg, r.streams, m, limit, 0);
    LeastIsRemote(cfg, m, limit);
  }

  lemma LeastRemoteBounds(cfg: Config, s: Streams, head: int, limit: int)
    requires StreamsOk(cfg, s, head) && Aligned(limit)
    ensures Aligned(LeastRemote(cfg, s, limit)) && LeastRemote(cfg, s, limit) <= limit
    ensures head <= limit ==> head <= LeastRemote(cfg, s, limit)
  {
    LeastRemoteIsLeast(cfg, s, limit, 0);
    var least := LeastRemote(cfg, s, limit);
    if least != limit {
      var j :| 0 <= j < |s.uncommitted| && cfg.sources[j].Remote? && s.uncommitted[j].head == least;
      assert UncommittedOk(s.uncommitted[j], head);
    }
  }

  lemma FloorBounds(cfg: Config, c: World)
    requires Choosing(cfg, c)
    ensures var head, floor, plan := MaxCommitHead(c.streams), FloorOf(cfg, c), ChooseMode(c);
      && head <= floor && Aligned(floor)
      && (plan.mode.RollbackAndSimulate? || plan.mode.OnRailsReplay? ==> floor == head)
      && (!plan.mode.OnRailsReplay? ==> floor <= c.clock - FRAME)
  {
    PlanFacts(cfg, c);
    AlignedShift(c.clock);
    LeastRemoteBounds(cfg, c.streams, MaxCommitHead(c.streams), c.clock - FRAME);
  }

  /** Some remote stream is written no further than `head`. */
  ghost predicate WaitsOnRemote(cfg: Config, s: Streams, head: int) {
    exists i ::
      0 <= i < |s.uncommitted| && i < |cfg.sources| && cfg.sources[i].Remote? && s.uncommitted[i].head == head
  }

  lemma LeastRemoteStays(cfg: Config, s: Streams, head: int, limit: int)
    requires StreamsOk(cfg, s, head) && Aligned(limit) && head <= limit
    ensures LeastRemote(cfg, s, limit) == head <==> head == limit || WaitsOnRemote(cfg, s, head)
  {
    LeastRemoteBounds(cfg, s, head, limit);
    LeastRemoteIsLeast(cfg, s, limit, 0);
  }

  /** A frame's end commits none of the frames simulated before it exactly when the plan takes care of them,
      there are none, or a remote stream is still at the commit head. */
  lemma FloorIsHeadIff(cfg: Config, c: World)
    requires Choosing(cfg, c)
    ensures var head, plan := MaxCommitHead(c.streams), ChooseMode(c);
      FloorOf(cfg, c) == head <==>
        plan.mode.RollbackAndSimulate? || plan.mode.OnRailsReplay? || head == c.clock - FRAME
        || WaitsOnRemote(cfg, c.streams, head)
  {
    PlanFacts(cfg, c);
    AlignedShift(c.clock);
    if !ChooseMode(c).mode.OnRailsReplay? {
      LeastRemoteStays(cfg, c.streams, MaxCommitHead(c.streams), c.clock - FRAME);
    }
  }

  /** It commits none while no local stream lags behind the previous frame. */
  lemma FloorIsHead(cfg: Config, c: World)
    requires Choosing(cfg, c) && LocalsCurrent(cfg, c.streams, c.clock - FRAME)
    ensures FloorOf(cfg, c) == MaxCommitHead(c.streams)
  {
    FloorIsHeadIff(cfg, c);
    PlanFacts(cfg, c);
  }

  lemma PreparedReaches(cfg: Config, c: World, typed: seq<seq<int>>)
    requires Choosing(cfg, c) && Ticking(cfg, Prepared(cfg, c), ChooseMode(c))
    requires !ChooseMode(c).mode.OnRailsReplay? && !ChooseMode(c).mode.RollbackAndSimulate?
    ensures var s' := Committed(cfg, Prepared(cfg, c), ChooseMode(c), typed);
      Min(MaxCommitHead(s'), c.clock - FRAME) == FloorOf(cfg, c)
  {
    PreCommitStreams(cfg, c);
    PreparedClock(cfg, c);
    CommitReaches(cfg, Prepared(cfg, c), ChooseMode(c), typed, c.clock - FRAME);
    LeastRemoteTransfers(cfg, c.streams, Prepared(cfg, c).streams, c.clock - FRAME, 0);
  }

  /** The input of the frames that a frame commits without a rollback is the input that was known for them
      at its entry, exactly when no arrival in between amends one of them. */
  lemma CommittedAsKnownIff(cfg: Config, w: World, input: FrameInput)
    requires AtEntry(cfg, w) && Honest(cfg, w, input) && NoOverrun(cfg, w, input)
    requires !PlanOf(w, input).mode.RollbackAndSimulate? && !PlanOf(w, input).mode.OnRailsReplay?
    ensures var s', floor := BeforeLate(cfg, w, input), Floor(cfg, w, input);
      && Min(MaxCommitHead(s'), w.clock - FRAME) == floor
      && ((forall t :: t <= floor ==> SameInput(w.streams, s', t)) <==> !SomeAmends(w.streams, input.early, floor))
  {
    var c, s', floor := Arrived(w, input), BeforeLate(cfg, w, input), Floor(cfg, w, input);
    FrameStages(cfg, w, input);
    FloorBounds(cfg, c);
    PreparedReaches(cfg, c, input.typed);
    DeliverAllAmendsIff(cfg, w.streams, MaxCommitHead(w.streams), input.early, floor);
    PreparedAsCommitted(cfg, c, input.typed);
    assert c.streams == DeliverAll(w.streams, input.early);
    if !SomeAmends(w.streams, input.early, floor) {
      forall t | t <= floor ensures SameInput(w.streams, s', t) {
        assert SameInput(w.streams, c.streams, t) && SameInput(c.streams, s', t);
      }
    }
    if forall t :: t <= floor ==> SameInput(w.streams, s', t) {
      forall t | t <= floor ensures SameInput(w.streams, c.streams, t) {
        assert SameInput(w.streams, s', t) && SameInput(c.streams, s', t);
      }
    }
  }

  lemma PreparedAsCommitted(cfg: Config, c: World, typed: seq<seq<int>>)
    requires Choosing(cfg, c) && Ticking(cfg, Prepared(cfg, c), ChooseMode(c))
    ensures var s' := Committed(cfg, Prepared(cfg, c), ChooseMode(c), typed);
      forall t :: t < c.clock ==> SameInput(c.streams, s', t)
  {
    var r, plan := Prepared(cfg, c), ChooseMode(c);
    var s, s' := AtTick(cfg, r, plan, typed), Committed(cfg, r, plan, typed);
    PreCommitStreams(cfg, c);
    PreparedClock(cfg, c);
    AtTickKeeps(cfg, r, plan, typed);
    CommittedStreams(cfg, r, plan, typed);
    forall t | t < c.clock ensures SameInput(c.streams, s', t) {
      assert SameInput(c.streams, r.streams, t) && SameInput(r.streams, s, t) && SameInput(s, s', t);
    }
  }
}
