/** The run invariant of the frame driver, and that every frame keeps it: what is stored for settled frames
    is what straight simulation gives. */
module RollbackRuns {
  import opened StateStreams
  import opened InputStreams
  import opened FrameDriver
  import opened RollbackSteps
  import opened RollbackStreams

  /** Straight simulation starts after frame `origin`. */
  predicate OriginOk(origin: int, head: int) {
    -FRAME <= origin && (origin <= head - FRAME || origin == head == 0)
  }

  /** The stored state of every frame of [from, upto] is the straight simulation's. */
  ghost predicate Caught(
    cfg: Config, window: seq<StateStream>, log: seq<seq<Event>>, origin: int, base: seq<int>, from: int, upto: int)
  {
    forall t {:trigger ReadAll(window, t)} :: from <= t <= upto && Aligned(t) ==>
      ReadAll(window, t) == StateAfter(cfg, origin, base, log, t)
  }

  /** Whatever an old frame's variable still holds is the straight simulation's value. */
  ghost predicate Faithful(
    cfg: Config, window: seq<StateStream>, log: seq<seq<Event>>, origin: int, base: seq<int>, upto: int)
  {
    forall i, t {:trigger Read(window[i], t)} ::
      0 <= i < |window| && i < |base| && origin <= t <= upto && Aligned(t) && Holds(window[i], t) ==>
      Read(window[i], t) == StateAfter(cfg, origin, base, log, t)[i]
  }

  /** The state that a rollback would resume from. */
  ghost predicate Anchored(
    cfg: Config, window: seq<StateStream>, log: seq<seq<Event>>, origin: int, base: seq<int>, head: int)
  {
    ReadAll(window, RewindPoint(head)) == StateAfter(cfg, origin, base, log, head - FRAME)
  }

  ghost predicate Simulated(
    cfg: Config, window: seq<StateStream>, log: seq<seq<Event>>, origin: int, base: seq<int>, head: int,
    previous: int, upto: int)
  {
    && (head <= previous ==> Anchored(cfg, window, log, origin, base, head))
    && Caught(cfg, window, log, origin, base, Min(head, previous), upto)
    && Faithful(cfg, window, log, origin, base, upto)
  }

  /** A window that is right for these streams, with `last` as the last frame simulated. */
  ghost predicate EndsWell(cfg: Config, window: seq<StateStream>, s: Streams, origin: int, base: seq<int>, last: int) {
    var head := MaxCommitHead(s);
    && |window| == |base| && WindowOk(window, last) && OriginOk(origin, head) && origin <= last
    && Simulated(cfg, window, Known(s), origin, base, head, last, Min(head, last))
  }

  ghost predicate WindowsRight(cfg: Config, w: World, origin: int, base: seq<int>) {
    EndsWell(cfg, w.window, w.streams, origin, base, w.clock - FRAME)
  }

  /** The invariant at every entry to ProcessFrame. */
  ghost predicate Inv(cfg: Config, w: World, origin: int, base: seq<int>) {
    AtEntry(cfg, w) && WindowsRight(cfg, w, origin, base)
  }

  /** In the middle of a frame: all input known through frame `upto` has been simulated. */
  ghost predicate SimulatedTo(cfg: Config, c: World, origin: int, base: seq<int>, upto: int) {
    var previous, head := c.clock - FRAME, MaxCommitHead(c.streams);
    && |c.window| == |base| && WindowOk(c.window, previous) && OriginOk(origin, head) && origin <= previous
    && Min(head, previous) <= upto <= previous && Aligned(upto)
    && Simulated(cfg, c.window, Known(c.streams), origin, base, head, previous, upto)
  }

  /** A rollback from the lowest commit head ticks frame zero on top of the state it started from. */
  function NextOrigin(w: World, input: FrameInput, origin: int): int {
    OriginAfter(PlanOf(w, input), origin)
  }

  function OriginAfter(plan: Plan, origin: int): int {
    if plan.mode.RollbackAndSimulate? && plan.first == 0 then -FRAME else origin
  }

  // ----- Re-simulation -----

  /** Re-simulation disturbs no reading before the frames it ticks. */
  lemma {:induction false} ResimulateKeeps(
    cfg: Config, window: seq<StateStream>, log: seq<seq<Event>>, from: int, until: int)
    requires Aligned(from) && Aligned(until) && 0 <= from < until && WindowOk(window, from)
    ensures var window' := Resimulate(cfg, window, log, from, until);
      && |window'| == |window| && WindowOk(window', until - FRAME)
      && (forall u :: u < from && Near(u, until - 2 * FRAME) ==> ReadAll(window', u) == ReadAll(window, u))
      && (forall i, u :: 0 <= i < |window| && u < from && Holds(window'[i], u) ==>
            Holds(window[i], u) && Read(window'[i], u) == Read(window[i], u))
    decreases until - from
  {
    var next := Tick(cfg, window, Inputs(log, from), from);
    TickEffect(cfg, window, Inputs(log, from), from);
    AlignedStep(from, until);
    AlignedShift(from);
    if from + FRAME < until {
      assert WindowOk(next, from + FRAME);
      ResimulateKeeps(cfg, next, log, from + FRAME, until);
    }
  }

  lemma TickMatchesStep(
    cfg: Config, window: seq<StateStream>, log: seq<seq<Event>>, origin: int, base: seq<int>, time: int, later: int)
    requires Aligned(time) && 0 <= time <= later && origin < time && WindowOk(window, time)
    requires ReadAll(window, time) == StateAfter(cfg, origin, base, log, time - FRAME)
    ensures var window' := Tick(cfg, window, Inputs(log, time), time);
      && WindowOk(window', time) && |window'| == |window|
      && ReadAll(window', later) == StateAfter(cfg, origin, base, log, time)
  {
    TickEffect(cfg, window, Inputs(log, time), time);
  }

  /** The loop ticks each frame of [from, until) once, in order, each from its predecessor's state. */
  lemma {:induction false} ResimulateCatchesUp(
    cfg: Config, window: seq<StateStream>, log: seq<seq<Event>>, origin: int, base: seq<int>, from: int, until: int)
    requires Aligned(from) && Aligned(until) && 0 <= from < until <= from + (MAX_CHANGES - 1) * FRAME
    requires origin <= from - FRAME && WindowOk(window, from)
    requires ReadAll(window, from) == StateAfter(cfg, origin, base, log, from - FRAME)
    ensures Caught(cfg, Resimulate(cfg, window, log, from, until), log, origin, base, from, until - FRAME)
    decreases until - from
  {
    var next := Tick(cfg, window, Inputs(log, from), from);
    var window' := Resimulate(cfg, window, log, from, until);
    assert window' == Resimulate(cfg, next, log, from + FRAME, until);
    AlignedStep(from, until);
    AlignedShift(from);
    TickMatchesStep(cfg, window, log, origin, base, from, from);
    if from + FRAME < until {
      TickMatchesStep(cfg, window, log, origin, base, from, from + FRAME);
      assert WindowOk(next, from + FRAME);
      ResimulateCatchesUp(cfg, next, log, origin, base, from + FRAME, until);
      ResimulateKeeps(cfg, next, log, from + FRAME, until);
      assert Near(from, until - 2 * FRAME);
      assert ReadAll(window', from) == ReadAll(next, from);
    } else {
      assert window' == next;
    }
    CaughtExtends(cfg, window', log, origin, base, from, until - FRAME);
  }

  lemma CaughtExtends(
    cfg: Config, window: seq<StateStream>, log: seq<seq<Event>>, origin: int, base: seq<int>, from: int, upto: int)
    requires Aligned(from) && ReadAll(window, from) == StateAfter(cfg, origin, base, log, from)
    requires Caught(cfg, window, log, origin, base, from + FRAME, upto)
    ensures Caught(cfg, window, log, origin, base, from, upto)
  {
    forall t | from <= t <= upto && Aligned(t)
      ensures ReadAll(window, t) == StateAfter(cfg, origin, base, log, t)
    {
      if from < t {
        AlignedStep(from, t);
      }
    }
  }

  // ----- Frames that were predicted before their input was known -----

  /** Each frame after `from` and up to `upto` was simulated from its predecessor with the logged input. */
  ghost predicate Foreseen(cfg: Config, window: seq<StateStream>, log: seq<seq<Event>>, from: int, upto: int) {
    forall t {:trigger ReadAll(window, t)} :: from < t <= upto && Aligned(t) ==>
      ReadAll(window, t) == Step(cfg, ReadAll(window, t - FRAME), Inputs(log, t), t)
  }

  /** The frames that a frame commits without a rollback, other than the true one, were simulated with
      the input that it commits. */
  ghost predicate Covered(cfg: Config, c: World) {
    Foreseen(cfg, c.window, Known(c.streams), MaxCommitHead(c.streams), FloorOf(cfg, c))
  }

  lemma {:induction false} ForeseenIsCaught(
    cfg: Config, window: seq<StateStream>, log: seq<seq<Event>>, origin: int, base: seq<int>, from: int, upto: int,
    time: int)
    requires Aligned(from) && origin <= from && ReadAll(window, from) == StateAfter(cfg, origin, base, log, from)
    requires Foreseen(cfg, window, log, from, upto) && from <= time <= upto && Aligned(time)
    ensures ReadAll(window, time) == StateAfter(cfg, origin, base, log, time)
    decreases time - from
  {
    if from < time {
      AlignedShift(time);
      AlignedStep(from, time);
      ForeseenIsCaught(cfg, window, log, origin, base, from, upto, time - FRAME);
    }
  }

  /** Step by step is the same as from the start, once the first state is right. */
  lemma CaughtIffForeseen(
    cfg: Config, window: seq<StateStream>, log: seq<seq<Event>>, origin: int, base: seq<int>, from: int, upto: int)
    requires Aligned(from) && origin <= from && ReadAll(window, from) == StateAfter(cfg, origin, base, log, from)
    ensures Caught(cfg, window, log, origin, base, from, upto) <==> Foreseen(cfg, window, log, from, upto)
  {
    if Foreseen(cfg, window, log, from, upto) {
      forall t | from <= t <= upto && Aligned(t) ensures ReadAll(window, t) == StateAfter(cfg, origin, base, log, t) {
        ForeseenIsCaught(cfg, window, log, origin, base, from, upto, t);
      }
    }
    if Caught(cfg, window, log, origin, base, from, upto) {
      forall t | from < t <= upto && Aligned(t)
        ensures ReadAll(window, t) == Step(cfg, ReadAll(window, t - FRAME), Inputs(log, t), t)
      {
        AlignedShift(t);
        AlignedStep(from, t);
        assert ReadAll(window, t - FRAME) == StateAfter(cfg, origin, base, log, t - FRAME);
      }
    }
  }

  lemma FaithfulExtends(
    cfg: Config, window: seq<StateStream>, log: seq<seq<Event>>, origin: int, base: seq<int>, from: int, upto: int)
    requires |window| == |base| && Faithful(cfg, window, log, origin, base, from)
    requires Caught(cfg, window, log, origin, base, from, upto)
    ensures Faithful(cfg, window, log, origin, base, upto)
  {
    forall i, t | 0 <= i < |window| && origin <= t <= upto && Aligned(t) && Holds(window[i], t)
      ensures Read(window[i], t) == StateAfter(cfg, origin, base, log, t)[i]
    {
      if from < t {
        assert ReadAll(window, t)[i] == Read(window[i], t);
      }
    }
  }

  /** A covered frame goes on from states that are right as far as it commits without a rollback. */
  lemma CoveredIsSimulated(cfg: Config, c: World, origin: int, base: seq<int>)
    requires Choosing(cfg, c) && Covered(cfg, c)
    requires SimulatedTo(cfg, c, origin, base, Min(MaxCommitHead(c.streams), c.clock - FRAME))
    ensures SimulatedTo(cfg, c, origin, base, Min(FloorOf(cfg, c), c.clock - FRAME))
  {
    var log, head, floor := Known(c.streams), MaxCommitHead(c.streams), FloorOf(cfg, c);
    FloorBounds(cfg, c);
    AlignedShift(c.clock);
    if head < floor {
      PlanFacts(cfg, c);
      assert ReadAll(c.window, head) == StateAfter(cfg, origin, base, log, head);
      CaughtIffForeseen(cfg, c.window, log, origin, base, head, floor);
      FaithfulExtends(cfg, c.window, log, origin, base, head, floor);
    }
  }

  /** Input that changes only after `upto` changes nothing that was simulated. */
  lemma SimulatedTransfers(
    cfg: Config, window: seq<StateStream>, s: Streams, s': Streams, origin: int, base: seq<int>, head: int,
    previous: int, upto: int)
    requires Simulated(cfg, window, Known(s), origin, base, head, previous, upto)
    requires Min(head, previous) <= upto && forall t :: t <= upto ==> SameInput(s, s', t)
    ensures Simulated(cfg, window, Known(s'), origin, base, head, previous, upto)
  {
    forall t | t <= upto
      ensures StateAfter(cfg, origin, base, Known(s'), t) == StateAfter(cfg, origin, base, Known(s), t)
    {
      forall u | u <= t ensures Inputs(Known(s'), u) == Inputs(Known(s), u) {
        assert SameInput(s, s', u);
      }
      SameLog(cfg, origin, base, Known(s), Known(s'), t);
    }
  }

  lemma ArrivedIsSimulated(cfg: Config, w: World, input: FrameInput, origin: int, base: seq<int>)
    requires Inv(cfg, w, origin, base) && ArrivalsOk(cfg, w.streams, input.early, MaxCommitHead(w.streams))
    ensures SimulatedTo(cfg, Arrived(w, input), origin, base, Min(MaxCommitHead(w.streams), w.clock - FRAME))
  {
    var head, previous := MaxCommitHead(w.streams), w.clock - FRAME;
    ArrivedStreams(cfg, w, input);
    AlignedShift(w.clock);
    SimulatedTransfers(
      cfg, w.window, w.streams, Arrived(w, input).streams, origin, base, head, previous, Min(head, previous));
  }

  // ----- Commit and rollback -----

  lemma RewoundWindow(cfg: Config, window: seq<StateStream>, previous: int, head: int)
    requires WindowOk(window, previous) && Aligned(head) && 0 <= head
    ensures var window' := RewindAll(window, RewindPoint(head));
      && |window'| == |window| && WindowOk(window', head)
      && ReadAll(window', head) == ReadAll(window, RewindPoint(head))
      && ReadAll(window', RewindPoint(head)) == ReadAll(window, RewindPoint(head))
      && (forall i, u :: 0 <= i < |window| && u < head && Holds(window'[i], u) ==>
            Holds(window[i], u) && Read(window'[i], u) == Read(window[i], u))
  {
    AlignedShift(head);
    var floor := if head == 0 then 0 else head - FRAME;
    if 0 < head {
      AlignedStep(0, head);
    }
    RewindAllEffect(window, previous, RewindPoint(head), floor);
  }

  /** A rollback re-creates the state of every frame since the commit head from all known input. */
  lemma RollbackCatchesUp(
    cfg: Config, window: seq<StateStream>, log: seq<seq<Event>>, origin: int, base: seq<int>, head: int, clock: int)
    requires Aligned(head) && Aligned(clock) && 0 <= head < clock <= head + (MAX_ROLLBACK_FRAMES + 1) * FRAME
    requires WindowOk(window, clock - FRAME) && |window| == |base| && OriginOk(origin, head)
    requires Simulated(cfg, window, log, origin, base, head, clock - FRAME, Min(head, clock - FRAME))
    ensures var window' := Resimulate(cfg, RewindAll(window, RewindPoint(head)), log, head, clock);
      var origin' := if head == 0 then -FRAME else origin;
      && |window'| == |base| && WindowOk(window', clock - FRAME)
      && Caught(cfg, window', log, origin', base, head, clock - FRAME)
      && Faithful(cfg, window', log, origin', base, clock - FRAME)
  {
    var rewound := RewindAll(window, RewindPoint(head));
    var window' := Resimulate(cfg, rewound, log, head, clock);
    var origin' := if head == 0 then -FRAME else origin;
    RewoundWindow(cfg, window, clock - FRAME, head);
    AlignedStep(head, clock);
    assert StateAfter(cfg, origin', base, log, head - FRAME) == StateAfter(cfg, origin, base, log, head - FRAME);
    ResimulateKeeps(cfg, rewound, log, head, clock);
    ResimulateCatchesUp(cfg, rewound, log, origin', base, head, clock);
    forall i, t | 0 <= i < |window'| && origin' <= t <= clock - FRAME && Aligned(t) && Holds(window'[i], t)
      ensures Read(window'[i], t) == StateAfter(cfg, origin', base, log, t)[i]
    {
      if head <= t {
        assert ReadAll(window', t)[i] == Read(window'[i], t);
      } else {
        assert Holds(rewound[i], t) && Holds(window[i], t);
        assert 0 <= window[i][0].time;
      }
    }
  }

  lemma AnchorFromCaught(
    cfg: Config, window: seq<StateStream>, log: seq<seq<Event>>, origin: int, base: seq<int>, last: int, from: int,
    upto: int, head: int)
    requires WindowOk(window, last) && Caught(cfg, window, log, origin, base, from, upto)
    requires Aligned(head) && from <= head - FRAME <= upto && 0 < head
    ensures Anchored(cfg, window, log, origin, base, head)
  {
    AlignedShift(head);
    forall i | 0 <= i < |window| ensures Read(window[i], head - 1) == Read(window[i], head - FRAME) {
      ReadOffFrame(window[i], last, head - FRAME, head - 1);
    }
    assert ReadAll(window, head - 1) == ReadAll(window, head - FRAME);
  }

  /** The window after a rollback that moves the commit head from `head` to `second`. */
  lemma RolledBackWindow(
    cfg: Config, window: seq<StateStream>, log: seq<seq<Event>>, origin: int, base: seq<int>, head: int, second: int,
    clock: int)
    requires Aligned(head) && Aligned(clock) && 0 <= head < clock <= head + (MAX_ROLLBACK_FRAMES + 1) * FRAME
    requires Aligned(second) && head < second
    requires WindowOk(window, clock - FRAME) && |window| == |base| && OriginOk(origin, head)
    requires Simulated(cfg, window, log, origin, base, head, clock - FRAME, Min(head, clock - FRAME))
    ensures var window' := Resimulate(cfg, RewindAll(window, RewindPoint(head)), log, head, clock);
      var origin' := if head == 0 then -FRAME else origin;
      && |window'| == |base| && WindowOk(window', clock - FRAME) && OriginOk(origin', second)
      && Simulated(cfg, window', log, origin', base, second, clock - FRAME, clock - FRAME)
  {
    var window' := Resimulate(cfg, RewindAll(window, RewindPoint(head)), log, head, clock);
    var origin', previous := if head == 0 then -FRAME else origin, clock - FRAME;
    RollbackCatchesUp(cfg, window, log, origin, base, head, clock);
    AlignedStep(head, second);
    AlignedStep(head, clock);
    if second <= previous {
      AnchorFromCaught(cfg, window', log, origin', base, previous, head, previous, second);
    }
  }

  /** What a rollback starts from, with the streams as the pre-frame commit left them. */
  lemma RollbackStartsFrom(cfg: Config, c: World, s: Streams, origin: int, base: seq<int>, upto: int)
    requires Choosing(cfg, c) && SimulatedTo(cfg, c, origin, base, upto) && forall t :: SameInput(c.streams, s, t)
    ensures var head, previous := MaxCommitHead(c.streams), c.clock - FRAME;
      && Aligned(head) && Aligned(previous) && c.clock <= head + (MAX_ROLLBACK_FRAMES + 1) * FRAME
      && Simulated(cfg, c.window, Known(s), origin, base, head, previous, Min(head, previous))
  {
    AlignedShift(c.clock);
    SimulatedTransfers(cfg, c.window, c.streams, s, origin, base, MaxCommitHead(c.streams), c.clock - FRAME, upto);
  }

  /** Commit, rewind and re-simulation leave all frames before the true one simulated. */
  lemma RollbackIsSimulated(cfg: Config, c: World, origin: int, base: seq<int>, upto: int)
    requires Choosing(cfg, c) && SimulatedTo(cfg, c, origin, base, upto) && ChooseMode(c).mode.RollbackAndSimulate?
    ensures SimulatedTo(cfg, Prepared(cfg, c), OriginAfter(ChooseMode(c), origin), base, c.clock - FRAME)
  {
    var plan := ChooseMode(c);
    var s, head := Prepared(cfg, c).streams, plan.first;
    PlanFacts(cfg, c);
    PreCommitStreams(cfg, c);
    PreparedClock(cfg, c);
    RollbackStartsFrom(cfg, c, s, origin, base, upto);
    RolledBackWindow(cfg, c.window, Known(s), origin, base, head, plan.second, c.clock);
    assert Prepared(cfg, c).window
        == Resimulate(cfg, RewindAll(c.window, RewindPoint(head)), Known(s), head, c.clock);
  }

  lemma SingleIsSimulated(cfg: Config, c: World, origin: int, base: seq<int>, upto: int)
    requires Choosing(cfg, c) && SimulatedTo(cfg, c, origin, base, upto) && !ChooseMode(c).mode.RollbackAndSimulate?
    ensures SimulatedTo(cfg, Prepared(cfg, c), origin, base, upto)
  {
    var plan, s := ChooseMode(c), Prepared(cfg, c).streams;
    PlanFacts(cfg, c);
    PreCommitStreams(cfg, c);
    PreparedClock(cfg, c);
    SimulatedTransfers(cfg, c.window, c.streams, s, origin, base, plan.second, c.clock - FRAME, upto);
  }

  /** Nothing before the true frame is missing, or a remote stream holds the commit back at `upto`. */
  ghost predicate MissesNothing(cfg: Config, r: World, plan: Plan, upto: int) {
    upto == r.clock - FRAME || (!plan.mode.OnRailsReplay? && upto == LeastRemote(cfg, r.streams, r.clock - FRAME))
  }

  /** Everything before the true frame's tick. */
  lemma PreparedIsSimulated(cfg: Config, c: World, origin: int, base: seq<int>) returns (upto: int)
    requires Choosing(cfg, c) && SimulatedTo(cfg, c, origin, base, Min(FloorOf(cfg, c), c.clock - FRAME))
    ensures SimulatedTo(cfg, Prepared(cfg, c), OriginAfter(ChooseMode(c), origin), base, upto)
    ensures MissesNothing(cfg, Prepared(cfg, c), ChooseMode(c), upto)
  {
    var previous, floor := c.clock - FRAME, FloorOf(cfg, c);
    FloorBounds(cfg, c);
    PlanFacts(cfg, c);
    PreparedClock(cfg, c);
    if ChooseMode(c).mode.RollbackAndSimulate? {
      upto := previous;
      RollbackIsSimulated(cfg, c, origin, base, Min(floor, previous));
    } else {
      upto := Min(floor, previous);
      SingleIsSimulated(cfg, c, origin, base, upto);
      PreCommitStreams(cfg, c);
      LeastRemoteTransfers(cfg, c.streams, Prepared(cfg, c).streams, previous, 0);
    }
  }

  // ----- The true frame -----

  lemma NearCommitHead(head: int, previous: int)
    requires 0 <= head && previous <= head + MAX_ROLLBACK_FRAMES * FRAME
    ensures Near(RewindPoint(head), previous) && Near(Min(head, previous), previous)
  {
  }

  lemma ReadAllLater(window: seq<StateStream>, last: int, u: int)
    requires WindowOk(window, last) && last <= u
    ensures ReadAll(window, u) == ReadAll(window, last)
  {
    forall i | 0 <= i < |window| ensures Read(window[i], u) == Read(window[i], last) {
      ReadLater(window[i], last, u);
    }
  }

  lemma TickKeepsSimulated(
    cfg: Config, window: seq<StateStream>, log: seq<seq<Event>>, origin: int, base: seq<int>, head: int, clock: int,
    upto: int)
    requires Aligned(clock) && 0 <= head && 0 <= clock - FRAME <= head + MAX_ROLLBACK_FRAMES * FRAME
    requires WindowOk(window, clock) && |window| == |base| && Min(head, clock - FRAME) <= upto <= clock - FRAME
    requires Simulated(cfg, window, log, origin, base, head, clock - FRAME, upto)
    ensures var window' := Tick(cfg, window, Inputs(log, clock), clock);
      && |window'| == |base| && WindowOk(window', clock)
      && Simulated(cfg, window', log, origin, base, head, clock - FRAME, upto)
  {
    NearCommitHead(head, clock - FRAME);
    TickEffect(cfg, window, Inputs(log, clock), clock);
  }

  lemma TickReads(cfg: Config, window: seq<StateStream>, log: seq<seq<Event>>, origin: int, base: seq<int>, clock: int)
    requires Aligned(clock) && 0 <= clock - FRAME && origin < clock && WindowOk(window, clock - FRAME)
    requires WindowOk(window, clock)
    requires ReadAll(window, clock - FRAME) == StateAfter(cfg, origin, base, log, clock - FRAME)
    ensures ReadAll(Tick(cfg, window, Inputs(log, clock), clock), clock) == StateAfter(cfg, origin, base, log, clock)
  {
    ReadAllLater(window, clock - FRAME, clock);
    TickEffect(cfg, window, Inputs(log, clock), clock);
  }

  /** Ticking the true frame keeps what was simulated, and adds this frame if nothing was missing. */
  lemma TrueFrameTick(
    cfg: Config, window: seq<StateStream>, s: Streams, s': Streams, origin: int, base: seq<int>, head: int,
    clock: int, upto: int)
    requires Aligned(clock) && 0 <= head && 0 <= clock - FRAME <= head + MAX_ROLLBACK_FRAMES * FRAME && origin < clock
    requires WindowOk(window, clock - FRAME) && |window| == |base| && Min(head, clock - FRAME) <= upto <= clock - FRAME
    requires Simulated(cfg, window, Known(s), origin, base, head, clock - FRAME, upto)
    requires forall t :: t < clock ==> SameInput(s, s', t)
    ensures var window' := Tick(cfg, window, Inputs(Known(s'), clock), clock);
      && |window'| == |base| && WindowOk(window', clock)
      && Simulated(cfg, window', Known(s'), origin, base, head, clock - FRAME, upto)
      && (upto == clock - FRAME ==> ReadAll(window', clock) == StateAfter(cfg, origin, base, Known(s'), clock))
  {
    var previous, log := clock - FRAME, Known(s');
    var window' := Tick(cfg, window, Inputs(log, clock), clock);
    SimulatedTransfers(cfg, window, s, s', origin, base, head, previous, upto);
    AlignedShift(clock);
    assert WindowOk(window, clock);
    TickKeepsSimulated(cfg, window, log, origin, base, head, clock, upto);
    if upto == previous {
      assert Caught(cfg, window, log, origin, base, Min(head, previous), upto);
      assert ReadAll(window, previous) == StateAfter(cfg, origin, base, log, previous);
      TickReads(cfg, window, log, origin, base, clock);
    }
  }

  /** Raising the commit head over frames that are all simulated keeps the rollback anchor. */
  lemma RaiseHead(
    cfg: Config, window: seq<StateStream>, log: seq<seq<Event>>, origin: int, base: seq<int>,
    head: int, head': int, last: int, upto: int)
    requires Aligned(head) && Aligned(head') && 0 <= head <= head' && WindowOk(window, last) && Min(head', last) <= upto
    requires Caught(cfg, window, log, origin, base, Min(head, last), upto)
    requires Faithful(cfg, window, log, origin, base, upto)
    requires head <= last ==> Anchored(cfg, window, log, origin, base, head)
    ensures Simulated(cfg, window, log, origin, base, head', last, Min(head', last))
  {
    if head < head' <= last {
      AlignedStep(head, head');
      AnchorFromCaught(cfg, window, log, origin, base, last, head, upto, head');
    }
  }

  /** The end of an ordinary frame, with the commit head at `head'`. */
  lemma FrameEndWindow(
    cfg: Config, window': seq<StateStream>, log: seq<seq<Event>>, origin: int, base: seq<int>,
    head: int, head': int, clock: int, upto: int)
    requires Aligned(clock) && Aligned(head') && Aligned(head) && 0 <= head <= head' && 0 <= clock - FRAME
    requires Min(head, clock - FRAME) <= upto <= clock - FRAME && (upto == clock - FRAME || head' == upto)
    requires WindowOk(window', clock) && |window'| == |base|
    requires Simulated(cfg, window', log, origin, base, head, clock - FRAME, upto)
    requires upto == clock - FRAME ==> ReadAll(window', clock) == StateAfter(cfg, origin, base, log, clock)
    ensures Simulated(cfg, window', log, origin, base, head', clock, Min(head', clock))
  {
    var previous := clock - FRAME;
    AlignedShift(clock);
    if upto == previous {
      CaughtToClock(cfg, window', log, origin, base, Min(head, previous), clock);
      if previous < head <= clock {
        AlignedStep(previous, head);
        AnchorFromCaught(cfg, window', log, origin, base, clock, previous, clock, head);
      }
      RaiseHead(cfg, window', log, origin, base, head, head', clock, clock);
    } else {
      RaiseHead(cfg, window', log, origin, base, head, head', clock, upto);
    }
  }

  /** The end of a stalled frame: its own tick is undone. */
  lemma StallEndWindow(
    cfg: Config, window': seq<StateStream>, log: seq<seq<Event>>, origin: int, base: seq<int>,
    head: int, head': int, clock: int, upto: int)
    requires Aligned(clock) && Aligned(head') && Aligned(head) && 0 <= head <= head' && 0 <= clock - FRAME
    requires head <= upto <= clock - FRAME && (upto == clock - FRAME || head' == upto)
    requires WindowOk(window', clock) && |window'| == |base|
    requires Simulated(cfg, window', log, origin, base, head, clock - FRAME, upto)
    ensures var undone := RewindAll(window', clock - FRAME);
      && |undone| == |base| && WindowOk(undone, clock - FRAME)
      && Simulated(cfg, undone, log, origin, base, head', clock - FRAME, Min(head', clock - FRAME))
  {
    var previous := clock - FRAME;
    var undone := RewindAll(window', previous);
    AlignedShift(clock);
    RewindAllEffect(window', clock, previous, previous);
    assert RewindPoint(head) <= previous;
    assert Simulated(cfg, undone, log, origin, base, head, previous, upto);
    RaiseHead(cfg, undone, log, origin, base, head, head', previous, upto);
  }

  lemma CaughtToClock(
    cfg: Config, window: seq<StateStream>, log: seq<seq<Event>>, origin: int, base: seq<int>, from: int, clock: int)
    requires Aligned(clock) && Caught(cfg, window, log, origin, base, from, clock - FRAME) && |window| == |base|
    requires Faithful(cfg, window, log, origin, base, clock - FRAME)
    requires ReadAll(window, clock) == StateAfter(cfg, origin, base, log, clock)
    ensures Caught(cfg, window, log, origin, base, from, clock) && Faithful(cfg, window, log, origin, base, clock)
  {
    forall t | clock - FRAME < t <= clock && Aligned(t) ensures t == clock {
      if t < clock {
        AlignedStep(t, clock);
      }
    }
    forall i | 0 <= i < |window| ensures Read(window[i], clock) == StateAfter(cfg, origin, base, log, clock)[i] {
      assert ReadAll(window, clock)[i] == Read(window[i], clock);
    }
  }

  // ----- The end of the frame -----

  /** A window with the true frame still to be ticked, and the commit head that the frame will end with. */
  ghost predicate BeforeTick(
    cfg: Config, window: seq<StateStream>, s: Streams, origin: int, base: seq<int>,
    head: int, head': int, clock: int, upto: int)
  {
    && Aligned(clock) && 0 <= clock - FRAME <= head + MAX_ROLLBACK_FRAMES * FRAME && origin < clock
    && Aligned(head) && Aligned(head') && 0 <= head <= head'
    && WindowOk(window, clock - FRAME) && |window| == |base| && Min(head, clock - FRAME) <= upto <= clock - FRAME
    && (upto == clock - FRAME || head' == upto)
    && Simulated(cfg, window, Known(s), origin, base, head, clock - FRAME, upto)
  }

  /** Ticked, a window is right for the new commit head and the streams with this frame's input. */
  lemma KeptTick(
    cfg: Config, window: seq<StateStream>, s: Streams, s': Streams, origin: int, base: seq<int>,
    head: int, head': int, clock: int, upto: int)
    requires BeforeTick(cfg, window, s, origin, base, head, head', clock, upto)
    requires forall t :: t < clock ==> SameInput(s, s', t)
    ensures var window' := Tick(cfg, window, Inputs(Known(s'), clock), clock);
      && |window'| == |base| && WindowOk(window', clock)
      && Simulated(cfg, window', Known(s'), origin, base, head', clock, Min(head', clock))
  {
    var window' := Tick(cfg, window, Inputs(Known(s'), clock), clock);
    TrueFrameTick(cfg, window, s, s', origin, base, head, clock, upto);
    FrameEndWindow(cfg, window', Known(s'), origin, base, head, head', clock, upto);
  }

  lemma UndoneTick(
    cfg: Config, window: seq<StateStream>, s: Streams, s': Streams, origin: int, base: seq<int>,
    head: int, head': int, clock: int, upto: int)
    requires BeforeTick(cfg, window, s, origin, base, head, head', clock, upto) && head <= clock - FRAME
    requires forall t :: t < clock ==> SameInput(s, s', t)
    ensures var undone := RewindAll(Tick(cfg, window, Inputs(Known(s'), clock), clock), clock - FRAME);
      && |undone| == |base| && WindowOk(undone, clock - FRAME)
      && Simulated(cfg, undone, Known(s'), origin, base, head', clock - FRAME, Min(head', clock - FRAME))
  {
    var window' := Tick(cfg, window, Inputs(Known(s'), clock), clock);
    TrueFrameTick(cfg, window, s, s', origin, base, head, clock, upto);
    StallEndWindow(cfg, window', Known(s'), origin, base, head, head', clock, upto);
  }

  lemma TickingIsBeforeTick(
    cfg: Config, r: World, plan: Plan, typed: seq<seq<int>>, origin: int, base: seq<int>, upto: int)
    requires Ticking(cfg, r, plan) && SimulatedTo(cfg, r, origin, base, upto) && MissesNothing(cfg, r, plan, upto)
    ensures var s, s' := AtTick(cfg, r, plan, typed), Committed(cfg, r, plan, typed);
      && BeforeTick(cfg, r.window, r.streams, origin, base, plan.second, MaxCommitHead(s'), r.clock, upto)
      && (forall t :: t < r.clock ==> SameInput(r.streams, s, t)) && (forall t :: SameInput(s, s', t))
  {
    AtTickKeeps(cfg, r, plan, typed);
    CommittedStreams(cfg, r, plan, typed);
    if upto != r.clock - FRAME {
      CommitReaches(cfg, r, plan, typed, r.clock - FRAME);
    }
  }

  lemma CaughtTransfers(
    cfg: Config, window: seq<StateStream>, s: Streams, s': Streams, origin: int, base: seq<int>, from: int, upto: int)
    requires Caught(cfg, window, Known(s), origin, base, from, upto) && forall t :: SameInput(s, s', t)
    ensures Caught(cfg, window, Known(s'), origin, base, from, upto)
  {
    forall t | from <= t <= upto && Aligned(t)
      ensures ReadAll(window, t) == StateAfter(cfg, origin, base, Known(s'), t)
    {
      forall u | u <= t ensures Inputs(Known(s'), u) == Inputs(Known(s), u) {
        assert SameInput(s, s', u);
      }
      SameLog(cfg, origin, base, Known(s), Known(s'), t);
    }
  }

  /** The commit after the tick only covers frames that were simulated with the input it commits: up to
      the true frame, each of them reads as straight simulation does. */
  lemma PostCommitIsSimulated(
    cfg: Config, r: World, plan: Plan, typed: seq<seq<int>>, origin: int, base: seq<int>, upto: int)
    requires Ticking(cfg, r, plan) && SimulatedTo(cfg, r, origin, base, upto) && MissesNothing(cfg, r, plan, upto)
    ensures var s', window' := Committed(cfg, r, plan, typed), TickedWindow(cfg, r, plan, typed);
      var from, until := Min(plan.second, r.clock - FRAME), Min(MaxCommitHead(s'), r.clock);
      Caught(cfg, window', Known(s'), origin, base, from, until)
  {
    var s, s', window' := AtTick(cfg, r, plan, typed), Committed(cfg, r, plan, typed),
      TickedWindow(cfg, r, plan, typed);
    var from, until := Min(plan.second, r.clock - FRAME), Min(MaxCommitHead(s'), r.clock);
    TickingIsBeforeTick(cfg, r, plan, typed, origin, base, upto);
    TrueFrameTick(cfg, r.window, r.streams, s, origin, base, plan.second, r.clock, upto);
    if upto == r.clock - FRAME {
      CaughtToClock(cfg, window', Known(s), origin, base, from, r.clock);
    }
    CaughtTransfers(cfg, window', s, s', origin, base, from, until);
  }

  /** Streams that report the same up to the commit head have the same windows. */
  lemma EndsWellTransfers(
    cfg: Config, window: seq<StateStream>, s: Streams, s': Streams, origin: int, base: seq<int>, head: int, last: int)
    requires |window| == |base| && WindowOk(window, last) && OriginOk(origin, head) && origin <= last
    requires Simulated(cfg, window, Known(s), origin, base, head, last, Min(head, last))
    requires MaxCommitHead(s') == head && forall t :: t <= head ==> SameInput(s, s', t)
    ensures EndsWell(cfg, window, s', origin, base, last)
  {
    SimulatedTransfers(cfg, window, s, s', origin, base, head, last, Min(head, last));
  }

  lemma OriginLasts(origin: int, head: int, head': int)
    requires OriginOk(origin, head) && Aligned(head) && Aligned(head') && head <= head'
    ensures OriginOk(origin, head')
  {
    if head < head' {
      AlignedStep(head, head');
    }
  }

  /** What the end of a frame needs from the streams: input up to the commit head as the tick saw it. */
  lemma ReceivedInput(cfg: Config, r: World, plan: Plan, input: FrameInput)
    requires Ticking(cfg, r, plan) && LateOk(cfg, plan, Committed(cfg, r, plan, input.typed), input.late)
    ensures var s, s' := AtTick(cfg, r, plan, input.typed), Received(cfg, r, plan, input);
      var head := MaxCommitHead(Committed(cfg, r, plan, input.typed));
      && MaxCommitHead(s') == head && Aligned(head) && Aligned(plan.second) && plan.second <= head
      && forall t :: t <= head ==> SameInput(s, s', t)
  {
    var s, m, s' := AtTick(cfg, r, plan, input.typed), Committed(cfg, r, plan, input.typed),
      Received(cfg, r, plan, input);
    CommittedStreams(cfg, r, plan, input.typed);
    ReceivedStreams(cfg, r, plan, input);
    forall t | t <= MaxCommitHead(m) ensures SameInput(s, s', t) {
      assert SameInput(s, m, t) && SameInput(m, s', t);
    }
  }

  /** All that is left to do once the true frame is ready to be ticked. */
  lemma ReadyToEnd(cfg: Config, r: World, plan: Plan, input: FrameInput, origin: int, base: seq<int>, upto: int)
    requires Ticking(cfg, r, plan) && LateOk(cfg, plan, Committed(cfg, r, plan, input.typed), input.late)
    requires SimulatedTo(cfg, r, origin, base, upto) && MissesNothing(cfg, r, plan, upto)
    ensures var s, s' := AtTick(cfg, r, plan, input.typed), Received(cfg, r, plan, input);
      var head' := MaxCommitHead(s');
      && BeforeTick(cfg, r.window, r.streams, origin, base, plan.second, head', r.clock, upto)
      && (forall t :: t < r.clock ==> SameInput(r.streams, s, t))
      && (forall t :: t <= head' ==> SameInput(s, s', t))
      && OriginOk(origin, head') && origin <= r.clock - FRAME
  {
    ReceivedInput(cfg, r, plan, input);
    TickingIsBeforeTick(cfg, r, plan, input.typed, origin, base, upto);
    OriginLasts(origin, plan.second, MaxCommitHead(Received(cfg, r, plan, input)));
  }

  lemma KeptTickEndsWell(
    cfg: Config, window: seq<StateStream>, s: Streams, m: Streams, s': Streams, origin: int, base: seq<int>,
    head: int, clock: int, upto: int)
    requires BeforeTick(cfg, window, s, origin, base, head, MaxCommitHead(s'), clock, upto)
    requires forall t :: t < clock ==> SameInput(s, m, t)
    requires forall t :: t <= MaxCommitHead(s') ==> SameInput(m, s', t)
    requires OriginOk(origin, MaxCommitHead(s')) && origin <= clock - FRAME
    ensures EndsWell(cfg, Tick(cfg, window, Inputs(Known(m), clock), clock), s', origin, base, clock)
  {
    var head', window' := MaxCommitHead(s'), Tick(cfg, window, Inputs(Known(m), clock), clock);
    KeptTick(cfg, window, s, m, origin, base, head, head', clock, upto);
    EndsWellTransfers(cfg, window', m, s', origin, base, head', clock);
  }

  lemma UndoneTickEndsWell(
    cfg: Config, window: seq<StateStream>, s: Streams, m: Streams, s': Streams, origin: int, base: seq<int>,
    head: int, clock: int, upto: int)
    requires BeforeTick(cfg, window, s, origin, base, head, MaxCommitHead(s'), clock, upto) && head <= clock - FRAME
    requires forall t :: t < clock ==> SameInput(s, m, t)
    requires forall t :: t <= MaxCommitHead(s') ==> SameInput(m, s', t)
    requires OriginOk(origin, MaxCommitHead(s')) && origin <= clock - FRAME
    ensures var undone := RewindAll(Tick(cfg, window, Inputs(Known(m), clock), clock), clock - FRAME);
      EndsWell(cfg, undone, s', origin, base, clock - FRAME)
  {
    var head', window' := MaxCommitHead(s'), Tick(cfg, window, Inputs(Known(m), clock), clock);
    UndoneTick(cfg, window, s, m, origin, base, head, head', clock, upto);
    EndsWellTransfers(cfg, RewindAll(window', clock - FRAME), m, s', origin, base, head', clock - FRAME);
  }

  lemma KeptEndsWell(cfg: Config, r: World, plan: Plan, input: FrameInput, origin: int, base: seq<int>, upto: int)
    requires Ticking(cfg, r, plan) && LateOk(cfg, plan, Committed(cfg, r, plan, input.typed), input.late)
    requires SimulatedTo(cfg, r, origin, base, upto) && MissesNothing(cfg, r, plan, upto)
    ensures WindowsRight(cfg, KeptEntry(cfg, r, plan, input), origin, base)
  {
    var s, s' := AtTick(cfg, r, plan, input.typed), Received(cfg, r, plan, input);
    ReadyToEnd(cfg, r, plan, input, origin, base, upto);
    KeptTickEndsWell(cfg, r.window, r.streams, s, s', origin, base, plan.second, r.clock, upto);
  }

  lemma RightIfEndsWell(
    cfg: Config, w: World, window: seq<StateStream>, s: Streams, origin: int, base: seq<int>)
    requires w.window == window && w.streams == s && EndsWell(cfg, window, s, origin, base, w.clock - FRAME)
    ensures WindowsRight(cfg, w, origin, base)
  {
  }

  lemma UndoneWindowEndsWell(
    cfg: Config, r: World, plan: Plan, input: FrameInput, origin: int, base: seq<int>, upto: int)
    requires Ticking(cfg, r, plan) && LateOk(cfg, plan, Committed(cfg, r, plan, input.typed), input.late)
    requires SimulatedTo(cfg, r, origin, base, upto) && MissesNothing(cfg, r, plan, upto) && plan.mode.StallSimulation?
    ensures var undone := RewindAll(TickedWindow(cfg, r, plan, input.typed), r.clock - FRAME);
      EndsWell(cfg, undone, Received(cfg, r, plan, input), origin, base, r.clock - FRAME)
  {
    var s, s' := AtTick(cfg, r, plan, input.typed), Received(cfg, r, plan, input);
    assert plan.second <= r.clock - FRAME;
    ReadyToEnd(cfg, r, plan, input, origin, base, upto);
    UndoneTickEndsWell(cfg, r.window, r.streams, s, s', origin, base, plan.second, r.clock, upto);
  }

  lemma UndoneEndsWell(cfg: Config, r: World, plan: Plan, input: FrameInput, origin: int, base: seq<int>, upto: int)
    requires Ticking(cfg, r, plan) && LateOk(cfg, plan, Committed(cfg, r, plan, input.typed), input.late)
    requires SimulatedTo(cfg, r, origin, base, upto) && MissesNothing(cfg, r, plan, upto) && plan.mode.StallSimulation?
    ensures WindowsRight(cfg, UndoneEntry(cfg, r, plan, input), origin, base)
  {
    var window := RewindAll(TickedWindow(cfg, r, plan, input.typed), r.clock - FRAME);
    UndoneWindowEndsWell(cfg, r, plan, input, origin, base, upto);
    RightIfEndsWell(
      cfg, UndoneEntry(cfg, r, plan, input), window, Received(cfg, r, plan, input), origin, base);
  }

  // ----- A whole frame -----

  lemma PreparedEndsWell(cfg: Config, c: World, plan: Plan, input: FrameInput, origin: int, base: seq<int>)
    requires Choosing(cfg, c) && plan == ChooseMode(c) && Ticking(cfg, Prepared(cfg, c), plan)
    requires LateOk(cfg, plan, Committed(cfg, Prepared(cfg, c), plan, input.typed), input.late)
    requires SimulatedTo(cfg, c, origin, base, Min(FloorOf(cfg, c), c.clock - FRAME))
    ensures var origin' := OriginAfter(plan, origin);
      if plan.mode.StallSimulation?
      then WindowsRight(cfg, UndoneEntry(cfg, Prepared(cfg, c), plan, input), origin', base)
      else WindowsRight(cfg, KeptEntry(cfg, Prepared(cfg, c), plan, input), origin', base)
  {
    var upto := PreparedIsSimulated(cfg, c, origin, base);
    if plan.mode.StallSimulation? {
      UndoneEndsWell(cfg, Prepared(cfg, c), plan, input, OriginAfter(plan, origin), base, upto);
    } else {
      KeptEndsWell(cfg, Prepared(cfg, c), plan, input, OriginAfter(plan, origin), base, upto);
    }
  }

  lemma ArrivedIsCovered(cfg: Config, w: World, input: FrameInput, origin: int, base: seq<int>)
    requires Inv(cfg, w, origin, base) && ArrivalsOk(cfg, w.streams, input.early, MaxCommitHead(w.streams))
    requires Covered(cfg, Arrived(w, input))
    ensures var c := Arrived(w, input); SimulatedTo(cfg, c, origin, base, Min(FloorOf(cfg, c), c.clock - FRAME))
  {
    ArrivedStreams(cfg, w, input);
    ArrivedIsSimulated(cfg, w, input, origin, base);
    CoveredIsSimulated(cfg, Arrived(w, input), origin, base);
  }

  lemma EntryWindowsRight(cfg: Config, w: World, c: World, input: FrameInput, origin: int, base: seq<int>)
    requires AtEntry(cfg, w) && Honest(cfg, w, input) && NoOverrun(cfg, w, input) && c == Arrived(w, input)
    requires SimulatedTo(cfg, c, origin, base, Min(FloorOf(cfg, c), c.clock - FRAME))
    ensures WindowsRight(cfg, NextEntry(Frame(cfg, w, input)), NextOrigin(w, input, origin), base)
  {
    var plan := PlanOf(w, input);
    FrameStages(cfg, w, input);
    assert plan == ChooseMode(c) && Choosing(cfg, c) && Ticking(cfg, Prepared(cfg, c), plan);
    PreparedEndsWell(cfg, c, plan, input, origin, base);
  }

  /** One frame keeps the invariant, in every mode, if what it commits without a rollback was simulated. */
  lemma FrameKeepsInv(cfg: Config, w: World, input: FrameInput, origin: int, base: seq<int>)
    requires Inv(cfg, w, origin, base) && Honest(cfg, w, input) && NoOverrun(cfg, w, input)
    requires Covered(cfg, Arrived(w, input))
    ensures Inv(cfg, NextEntry(Frame(cfg, w, input)), NextOrigin(w, input, origin), base)
  {
    FrameKeepsOrder(cfg, w, input);
    FrameKeepsWindows(cfg, w, input, origin, base);
  }

  lemma FrameKeepsWindows(cfg: Config, w: World, input: FrameInput, origin: int, base: seq<int>)
    requires Inv(cfg, w, origin, base) && Honest(cfg, w, input) && NoOverrun(cfg, w, input)
    requires Covered(cfg, Arrived(w, input))
    ensures WindowsRight(cfg, NextEntry(Frame(cfg, w, input)), NextOrigin(w, input, origin), base)
  {
    EarlyIsHonest(cfg, w, input);
    ArrivedIsCovered(cfg, w, input, origin, base);
    EntryWindowsRight(cfg, w, Arrived(w, input), input, origin, base);
  }

  lemma EarlyIsHonest(cfg: Config, w: World, input: FrameInput)
    requires Honest(cfg, w, input)
    ensures ArrivalsOk(cfg, w.streams, input.early, MaxCommitHead(w.streams))
  {
  }

  /** After the first frame of a run nothing more has to be asked for: no local stream lags then. */
  lemma LaterIsCovered(cfg: Config, w: World, input: FrameInput)
    requires AtEntry(cfg, w) && Honest(cfg, w, input) && LocalsCurrent(cfg, w.streams, w.clock - FRAME)
    ensures Covered(cfg, Arrived(w, input))
  {
    ArrivedStreams(cfg, w, input);
    FloorIsHead(cfg, Arrived(w, input));
  }

  /** Nor in the first frame, if no arrival amends a frame that it commits: what was predicted with the
      input known at its entry then stands or falls as it is. */
  lemma UnamendedIsCoveredIff(cfg: Config, w: World, input: FrameInput)
    requires AtEntry(cfg, w) && ArrivalsOk(cfg, w.streams, input.early, MaxCommitHead(w.streams))
    requires !SomeAmends(w.streams, input.early, Floor(cfg, w, input))
    ensures Covered(cfg, Arrived(w, input)) <==>
      Foreseen(cfg, w.window, Known(w.streams), MaxCommitHead(w.streams), Floor(cfg, w, input))
  {
    var c, log, floor := Arrived(w, input), Known(w.streams), Floor(cfg, w, input);
    ArrivedStreams(cfg, w, input);
    NoneAmends(cfg, w.streams, MaxCommitHead(w.streams), input.early, floor);
    ForeseenAlike(cfg, w.window, w.streams, c.streams, MaxCommitHead(w.streams), floor);
  }

  lemma ForeseenAlike(cfg: Config, window: seq<StateStream>, s: Streams, s': Streams, from: int, upto: int)
    requires forall t :: t <= upto ==> SameInput(s, s', t)
    ensures Foreseen(cfg, window, Known(s'), from, upto) <==> Foreseen(cfg, window, Known(s), from, upto)
  {
    forall t | t <= upto ensures Inputs(Known(s'), t) == Inputs(Known(s), t) {
      assert SameInput(s, s', t);
    }
  }

  // ----- And not otherwise -----

  lemma TickLeavesPast(cfg: Config, window: seq<StateStream>, inputs: seq<seq<int>>, head: int, clock: int, u: int)
    requires Aligned(clock) && 0 <= head <= u <= clock - FRAME <= head + MAX_ROLLBACK_FRAMES * FRAME
    requires WindowOk(window, clock - FRAME)
    ensures ReadAll(Tick(cfg, window, inputs, clock), u) == ReadAll(window, u)
  {
    assert WindowOk(window, clock);
    TickEffect(cfg, window, inputs, clock);
    NearCommitHead(head, clock - FRAME);
  }

  /** Windows that read the same, with logs that report the same, are caught up alike. */
  lemma CaughtAlike(
    cfg: Config, window: seq<StateStream>, window': seq<StateStream>, s: Streams, s': Streams,
    origin: int, base: seq<int>, from: int, upto: int)
    requires forall u :: from <= u <= upto ==> ReadAll(window', u) == ReadAll(window, u)
    requires forall t :: t <= upto ==> SameInput(s, s', t)
    requires Caught(cfg, window, Known(s), origin, base, from, upto)
    ensures Caught(cfg, window', Known(s'), origin, base, from, upto)
  {
    forall t | from <= t <= upto && Aligned(t)
      ensures ReadAll(window', t) == StateAfter(cfg, origin, base, Known(s'), t)
    {
      assert ReadAll(window, t) == StateAfter(cfg, origin, base, Known(s), t);
      forall u | u <= t ensures Inputs(Known(s'), u) == Inputs(Known(s), u) {
        assert SameInput(s, s', u);
      }
      SameLog(cfg, origin, base, Known(s), Known(s'), t);
    }
  }

  lemma ArrivedCaughtIff(cfg: Config, c: World, origin: int, base: seq<int>)
    requires Choosing(cfg, c) && !ChooseMode(c).mode.OnRailsReplay?
    requires SimulatedTo(cfg, c, origin, base, Min(MaxCommitHead(c.streams), c.clock - FRAME))
    ensures
      Caught(cfg, c.window, Known(c.streams), origin, base, MaxCommitHead(c.streams), FloorOf(cfg, c))
      <==> Covered(cfg, c)
  {
    var head := MaxCommitHead(c.streams);
    PlanFacts(cfg, c);
    assert ReadAll(c.window, head) == StateAfter(cfg, origin, base, Known(c.streams), head);
    CaughtIffForeseen(cfg, c.window, Known(c.streams), origin, base, head, FloorOf(cfg, c));
  }

  lemma TickedPast(cfg: Config, c: World, plan: Plan, typed: seq<seq<int>>)
    requires Choosing(cfg, c) && Ticking(cfg, Prepared(cfg, c), plan) && WindowOk(c.window, c.clock - FRAME)
    requires plan == ChooseMode(c) && !plan.mode.RollbackAndSimulate? && !plan.mode.OnRailsReplay?
    ensures forall u :: MaxCommitHead(c.streams) <= u <= c.clock - FRAME ==>
      ReadAll(TickedWindow(cfg, Prepared(cfg, c), plan, typed), u) == ReadAll(c.window, u)
  {
    var r, head := Prepared(cfg, c), MaxCommitHead(c.streams);
    PlanFacts(cfg, c);
    PreparedClock(cfg, c);
    forall u | head <= u <= c.clock - FRAME
      ensures ReadAll(TickedWindow(cfg, r, plan, typed), u) == ReadAll(c.window, u)
    {
      TickLeavesPast(cfg, c.window, Inputs(Known(AtTick(cfg, r, plan, typed)), r.clock), head, c.clock, u);
    }
  }

  lemma PreparedCommitsRightIff(
    cfg: Config, c: World, plan: Plan, typed: seq<seq<int>>, origin: int, base: seq<int>)
    requires Choosing(cfg, c) && Ticking(cfg, Prepared(cfg, c), plan)
    requires plan == ChooseMode(c) && !plan.mode.RollbackAndSimulate? && !plan.mode.OnRailsReplay?
    requires SimulatedTo(cfg, c, origin, base, Min(MaxCommitHead(c.streams), c.clock - FRAME))
    ensures var s' := Committed(cfg, Prepared(cfg, c), plan, typed);
      var window' := TickedWindow(cfg, Prepared(cfg, c), plan, typed);
      Caught(cfg, window', Known(s'), origin, base, MaxCommitHead(c.streams), FloorOf(cfg, c)) <==> Covered(cfg, c)
  {
    var s', window' := Committed(cfg, Prepared(cfg, c), plan, typed), TickedWindow(cfg, Prepared(cfg, c), plan, typed);
    var head, floor := MaxCommitHead(c.streams), FloorOf(cfg, c);
    TickedPast(cfg, c, plan, typed);
    PreparedAsCommitted(cfg, c, typed);
    ArrivedCaughtIff(cfg, c, origin, base);
    FloorBounds(cfg, c);
    if Covered(cfg, c) {
      CaughtAlike(cfg, c.window, window', c.streams, s', origin, base, head, floor);
    }
    if Caught(cfg, window', Known(s'), origin, base, head, floor) {
      SameInputBack(c.streams, s', floor);
      CaughtAlike(cfg, window', c.window, s', c.streams, origin, base, head, floor);
    }
  }

  lemma ArrivedCommitsRightIff(
    cfg: Config, w: World, c: World, plan: Plan, input: FrameInput, origin: int, base: seq<int>)
    requires Inv(cfg, w, origin, base) && ArrivalsOk(cfg, w.streams, input.early, MaxCommitHead(w.streams))
    requires c == Arrived(w, input) && Choosing(cfg, c) && Ticking(cfg, Prepared(cfg, c), plan)
    requires MaxCommitHead(c.streams) == MaxCommitHead(w.streams)
    requires plan == ChooseMode(c) && !plan.mode.RollbackAndSimulate? && !plan.mode.OnRailsReplay?
    ensures var s' := Committed(cfg, Prepared(cfg, c), plan, input.typed);
      var window' := TickedWindow(cfg, Prepared(cfg, c), plan, input.typed);
      && Min(MaxCommitHead(s'), c.clock - FRAME) == FloorOf(cfg, c)
      && (Caught(cfg, window', Known(s'), origin, base, MaxCommitHead(w.streams), FloorOf(cfg, c)) <==> Covered(cfg, c))
  {
    ArrivedIsSimulated(cfg, w, input, origin, base);
    PreparedReaches(cfg, c, input.typed);
    PreparedCommitsRightIff(cfg, c, plan, input.typed, origin, base);
  }

  /** Being covered is no more than is needed: in a frame that neither rolls back nor replays, the frames
      that its end commits read as straight simulation of the committed input exactly when it is. */
  lemma CommitsRightIff(cfg: Config, w: World, input: FrameInput, origin: int, base: seq<int>)
    requires Inv(cfg, w, origin, base) && Honest(cfg, w, input) && NoOverrun(cfg, w, input)
    requires !PlanOf(w, input).mode.RollbackAndSimulate? && !PlanOf(w, input).mode.OnRailsReplay?
    ensures var c, s', floor := Arrived(w, input), BeforeLate(cfg, w, input), Floor(cfg, w, input);
      var window' := TickedWindow(cfg, Prepared(cfg, c), PlanOf(w, input), input.typed);
      && Min(MaxCommitHead(s'), w.clock - FRAME) == floor
      && (Caught(cfg, window', Known(s'), origin, base, MaxCommitHead(w.streams), floor) <==> Covered(cfg, c))
  {
    var c, plan := Arrived(w, input), PlanOf(w, input);
    FrameStages(cfg, w, input);
    ArrivedMatches(cfg, w, input);
    ArrivedCommitsRightIff(cfg, w, c, plan, input, origin, base);
  }

  lemma SameInputBack(s: Streams, s': Streams, upto: int)
    requires forall t :: t <= upto ==> SameInput(s, s', t)
    ensures forall t :: t <= upto ==> SameInput(s', s, t)
  {
    forall t | t <= upto ensures SameInput(s', s, t) {
      assert SameInput(s, s', t);
    }
  }
}
