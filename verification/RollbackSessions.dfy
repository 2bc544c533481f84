/** Frame zero, and short concrete sessions: that they exist, and what can go wrong in them. */
module RollbackSessions {
  import opened StateStreams
  import opened InputStreams
  import opened FrameDriver
  import opened RollbackSteps
  import opened RollbackStreams
  import opened RollbackRuns
  import opened RollbackTheorems

  // ----- Frame zero -----

  function EndHead(cfg: Config, w: World, inputs: seq<FrameInput>): int {
    MaxCommitHead(Run(cfg, w, inputs).streams)
  }

  /** A frame rolls back from the commit head exactly when its plan raises it. */
  lemma RollsBackIff(cfg: Config, w: World, input: FrameInput)
    requires AtEntry(cfg, w) && Honest(cfg, w, input)
    ensures var plan, head := PlanOf(w, input), MaxCommitHead(w.streams);
      plan.first == head <= plan.second && (plan.mode.RollbackAndSimulate? <==> head < plan.second)
  {
    FrameShape(cfg, w, input);
    ArrivedMatches(cfg, w, input);
    PlanFacts(cfg, Arrived(w, input));
  }

  lemma PreparedStaysIff(cfg: Config, c: World, plan: Plan, typed: seq<seq<int>>)
    requires Choosing(cfg, c) && Ticking(cfg, Prepared(cfg, c), plan) && plan == ChooseMode(c)
    requires MaxCommitHead(c.streams) < c.clock && plan.second == MaxCommitHead(c.streams)
    ensures var s', head := Committed(cfg, Prepared(cfg, c), plan, typed), MaxCommitHead(c.streams);
      MaxCommitHead(s') == head <==> WaitsOnRemote(cfg, c.streams, head)
  {
    var r, head := Prepared(cfg, c), MaxCommitHead(c.streams);
    PlanFacts(cfg, c);
    PreCommitStreams(cfg, c);
    PreparedClock(cfg, c);
    CommitReaches(cfg, r, plan, typed, c.clock);
    LeastRemoteTransfers(cfg, c.streams, r.streams, c.clock, 0);
    LeastRemoteStays(cfg, c.streams, head, c.clock);
  }

  /** The commit after the tick stays at a head that the plan did not raise exactly when a remote stream
      is still there; local streams have moved on. */
  lemma StaysIff(cfg: Config, w: World, input: FrameInput)
    requires AtEntry(cfg, w) && Honest(cfg, w, input) && NoOverrun(cfg, w, input)
    requires MaxCommitHead(w.streams) < w.clock && PlanOf(w, input).second == MaxCommitHead(w.streams)
    ensures var head, head' := MaxCommitHead(w.streams), MaxCommitHead(NextEntry(Frame(cfg, w, input)).streams);
      head' == head <==> WaitsOnRemote(cfg, Arrived(w, input).streams, head)
  {
    var c, plan := Arrived(w, input), PlanOf(w, input);
    FrameStages(cfg, w, input);
    ArrivedMatches(cfg, w, input);
    ReceivedStreams(cfg, Prepared(cfg, c), plan, input);
    PreparedStaysIff(cfg, c, plan, input.typed);
  }

  /** The commit head after a frame is at least what its plan committed, and no more if the plan
      waited on a remote stream. */
  lemma HeadAfterFrame(cfg: Config, w: World, input: FrameInput)
    requires AtEntry(cfg, w) && Honest(cfg, w, input) && NoOverrun(cfg, w, input)
    ensures var head, previous, second := MaxCommitHead(w.streams), w.clock - FRAME, PlanOf(w, input).second;
      var head' := MaxCommitHead(NextEntry(Frame(cfg, w, input)).streams);
      && second <= head'
      && (LocalsCurrent(cfg, w.streams, previous) && head < previous && second == head ==> head' == head)
  {
    var head := MaxCommitHead(w.streams);
    FrameKeepsInput(cfg, w, input);
    if LocalsCurrent(cfg, w.streams, w.clock - FRAME) && head < w.clock - FRAME && PlanOf(w, input).second == head {
      PlanWaits(cfg, w, input);
      StaysIff(cfg, w, input);
    }
  }

  lemma PlanWaits(cfg: Config, w: World, input: FrameInput)
    requires AtEntry(cfg, w) && Honest(cfg, w, input) && LocalsCurrent(cfg, w.streams, w.clock - FRAME)
    requires PlanOf(w, input).second == MaxCommitHead(w.streams) < w.clock - FRAME
    ensures WaitsOnRemote(cfg, Arrived(w, input).streams, MaxCommitHead(w.streams))
  {
    FrameShape(cfg, w, input);
    ArrivedStreams(cfg, w, input);
    PlanFacts(cfg, Arrived(w, input));
  }

  /** What every frame of a run after its first one starts with. */
  ghost predicate UnderWay(cfg: Config, w: World) {
    AtEntry(cfg, w) && 0 < w.clock - FRAME && LocalsCurrent(cfg, w.streams, w.clock - FRAME)
  }

  /** From the second frame on, a commit head of zero is raised only by a rollback from zero. */
  lemma LaterFrameZero(cfg: Config, w: World, input: FrameInput, origin: int)
    requires UnderWay(cfg, w) && Honest(cfg, w, input) && NoOverrun(cfg, w, input) && MaxCommitHead(w.streams) == 0
    ensures NextOrigin(w, input, origin) ==
      if MaxCommitHead(NextEntry(Frame(cfg, w, input)).streams) > 0 then -FRAME else origin
  {
    RollsBackIff(cfg, w, input);
    HeadAfterFrame(cfg, w, input);
  }

  lemma FrameIsUnderWay(cfg: Config, w: World, input: FrameInput)
    requires AtEntry(cfg, w) && Honest(cfg, w, input) && NoOverrun(cfg, w, input)
    ensures UnderWay(cfg, NextEntry(Frame(cfg, w, input)))
  {
    FrameKeepsOrder(cfg, w, input);
    StallRepeatsTime(cfg, w, input);
    StallCondition(cfg, w, input);
    AlignedStep(0, w.clock);
  }

  /** Where straight simulation starts, from what the first frame committed before its tick, and the
      commit head after it and at the end. */
  function OriginFromZero(second: int, first: int, end: int): int {
    if end > 0 && (second > 0 || first == 0) then -FRAME else 0
  }

  /** What holds after the first frame and every later one. */
  ghost predicate ZeroRule(cfg: Config, w: World, origin: int, second: int, first: int) {
    && UnderWay(cfg, w) && second <= first <= MaxCommitHead(w.streams) && 0 <= first
    && origin == OriginFromZero(second, first, MaxCommitHead(w.streams))
  }

  lemma ZeroRuleStep(cfg: Config, w: World, input: FrameInput, origin: int, second: int, first: int)
    requires Honest(cfg, w, input) && NoOverrun(cfg, w, input) && ZeroRule(cfg, w, origin, second, first)
    ensures ZeroRule(cfg, NextEntry(Frame(cfg, w, input)), NextOrigin(w, input, origin), second, first)
  {
    FrameIsUnderWay(cfg, w, input);
    FrameKeepsInput(cfg, w, input);
    RollsBackIff(cfg, w, input);
    if MaxCommitHead(w.streams) == 0 {
      LaterFrameZero(cfg, w, input, origin);
    }
  }

  /** What the first frame of a session commits before it ticks, and where the commit head is after it. */
  function FirstSecond(w0: World, first: FrameInput): int {
    PlanOf(w0, first).second
  }

  function FirstHead(cfg: Config, w0: World, first: FrameInput): int {
    MaxCommitHead(NextEntry(Frame(cfg, w0, first)).streams)
  }

  lemma ZeroRuleStarts(cfg: Config, w: World, first: FrameInput)
    requires AtEntry(cfg, w) && Honest(cfg, w, first) && NoOverrun(cfg, w, first) && MaxCommitHead(w.streams) == 0
    ensures ZeroRule(
      cfg, NextEntry(Frame(cfg, w, first)), NextOrigin(w, first, 0), FirstSecond(w, first), FirstHead(cfg, w, first))
  {
    FrameIsUnderWay(cfg, w, first);
    RollsBackIff(cfg, w, first);
    HeadAfterFrame(cfg, w, first);
    FrameKeepsInput(cfg, w, first);
  }

  /** A run, one frame at a time. */
  lemma RunOneMore(cfg: Config, w0: World, inputs: seq<FrameInput>)
    requires inputs != [] && SafeRun(cfg, w0, inputs)
    ensures var rest, input := inputs[..|inputs| - 1], inputs[|inputs| - 1];
      var w := Run(cfg, w0, rest);
      && SafeRun(cfg, w0, rest) && Honest(cfg, w, input) && NoOverrun(cfg, w, input)
      && Run(cfg, w0, inputs) == NextEntry(Frame(cfg, w, input))
      && RunOrigin(cfg, w0, inputs, 0) == NextOrigin(w, input, RunOrigin(cfg, w0, rest, 0))
  {
  }

  lemma RunOfOne(cfg: Config, w: World, inputs: seq<FrameInput>)
    requires |inputs| == 1
    ensures Run(cfg, w, inputs) == NextEntry(Frame(cfg, w, inputs[0]))
    ensures RunOrigin(cfg, w, inputs, 0) == NextOrigin(w, inputs[0], 0)
  {
    assert inputs[..0] == [];
  }

  lemma {:induction false} FirstIsOk(cfg: Config, w0: World, inputs: seq<FrameInput>)
    requires SafeRun(cfg, w0, inputs) && inputs != []
    ensures Honest(cfg, w0, inputs[0]) && NoOverrun(cfg, w0, inputs[0])
  {
    RunOneMore(cfg, w0, inputs);
    if |inputs| > 1 {
      FirstIsOk(cfg, w0, inputs[..|inputs| - 1]);
    } else {
      assert inputs[..0] == [];
    }
  }

  lemma {:induction false} ZeroRuleHolds(cfg: Config, w0: World, inputs: seq<FrameInput>)
    requires AtEntry(cfg, w0) && SafeRun(cfg, w0, inputs) && MaxCommitHead(w0.streams) == 0 && inputs != []
    ensures ZeroRule(
      cfg, Run(cfg, w0, inputs), RunOrigin(cfg, w0, inputs, 0),
      FirstSecond(w0, inputs[0]), FirstHead(cfg, w0, inputs[0]))
    decreases |inputs|, 1
  {
    RunOneMore(cfg, w0, inputs);
    if |inputs| == 1 {
      FirstIsOk(cfg, w0, inputs);
      RunOfOne(cfg, w0, inputs);
      ZeroRuleStarts(cfg, w0, inputs[0]);
    } else {
      ZeroRuleGoesOn(cfg, w0, inputs);
    }
  }

  lemma {:induction false} ZeroRuleGoesOn(cfg: Config, w0: World, inputs: seq<FrameInput>)
    requires AtEntry(cfg, w0) && SafeRun(cfg, w0, inputs) && MaxCommitHead(w0.streams) == 0 && |inputs| > 1
    ensures ZeroRule(
      cfg, Run(cfg, w0, inputs), RunOrigin(cfg, w0, inputs, 0),
      FirstSecond(w0, inputs[0]), FirstHead(cfg, w0, inputs[0]))
    decreases |inputs|, 0
  {
    var rest, input := inputs[..|inputs| - 1], inputs[|inputs| - 1];
    RunOneMore(cfg, w0, inputs);
    ZeroRuleHolds(cfg, w0, rest);
    ZeroRuleStep(
      cfg, Run(cfg, w0, rest), input, RunOrigin(cfg, w0, rest, 0),
      FirstSecond(w0, inputs[0]), FirstHead(cfg, w0, inputs[0]));
  }

  /** Frame zero is part of the straight simulation exactly when the commit head has left zero, and its
      first step away from zero was not the very first frame's commit after the tick. */
  lemma FrameZeroCondition(cfg: Config, w0: World, inputs: seq<FrameInput>)
    requires AtEntry(cfg, w0) && SafeRun(cfg, w0, inputs) && MaxCommitHead(w0.streams) == 0 && inputs != []
    ensures RunOrigin(cfg, w0, inputs, 0) ==
      if EndHead(cfg, w0, inputs) > 0 && (FirstSecond(w0, inputs[0]) > 0 || FirstHead(cfg, w0, inputs[0]) == 0)
      then -FRAME else 0
  {
    ZeroRuleHolds(cfg, w0, inputs);
  }

  /** Some local stream has just been created. */
  ghost predicate FreshLocal(cfg: Config, w: World) {
    exists i ::
      && 0 <= i < |cfg.sources| && i < |w.streams.uncommitted|
      && cfg.sources[i].Local? && w.streams.uncommitted[i].head == 0
  }

  lemma FreshLocalHolds(cfg: Config, w: World, input: FrameInput)
    requires AtEntry(cfg, w) && Honest(cfg, w, input) && MaxCommitHead(w.streams) == 0 && FreshLocal(cfg, w)
    ensures PlanOf(w, input).second == 0
  {
    var i :|
      && 0 <= i < |cfg.sources| && i < |w.streams.uncommitted|
      && cfg.sources[i].Local? && w.streams.uncommitted[i].head == 0;
    RollsBackIff(cfg, w, input);
    FrameShape(cfg, w, input);
    ArrivedStreams(cfg, w, input);
    PlanFacts(cfg, Arrived(w, input));
    assert Arrived(w, input).streams.uncommitted[i] == w.streams.uncommitted[i];
  }

  /** In a session with a fresh local stream: frame zero becomes part of the straight simulation exactly
      when some remote stream has not been written yet as the first frame begins, and all have at the end. */
  lemma FrameZeroWithLocal(cfg: Config, w0: World, inputs: seq<FrameInput>)
    requires AtEntry(cfg, w0) && SafeRun(cfg, w0, inputs) && MaxCommitHead(w0.streams) == 0 && inputs != []
    requires FreshLocal(cfg, w0)
    ensures RunOrigin(cfg, w0, inputs, 0) ==
      if EndHead(cfg, w0, inputs) > 0 && WaitsOnRemote(cfg, Arrived(w0, inputs[0]).streams, 0) then -FRAME else 0
  {
    FrameZeroCondition(cfg, w0, inputs);
    FirstIsOk(cfg, w0, inputs);
    FirstStays(cfg, w0, inputs[0]);
  }

  /** The same as: the commit head is still at zero after the first frame, and is not at the end. */
  lemma FirstStays(cfg: Config, w: World, first: FrameInput)
    requires AtEntry(cfg, w) && Honest(cfg, w, first) && NoOverrun(cfg, w, first)
    requires MaxCommitHead(w.streams) == 0 && FreshLocal(cfg, w)
    ensures FirstSecond(w, first) == 0
    ensures FirstHead(cfg, w, first) == 0 <==> WaitsOnRemote(cfg, Arrived(w, first).streams, 0)
  {
    FreshLocalHolds(cfg, w, first);
    StaysIff(cfg, w, first);
  }

  // ----- One local and one remote stream -----

  function Two(cl: InputStream, cr: InputStream, ul: InputStream, ur: InputStream): Streams {
    Streams([cl, cr], [ul, ur])
  }

  lemma CommitTwo(cl: InputStream, cr: InputStream, ul: InputStream, ur: InputStream, first: int, second: int)
    requires cl.head <= second && cr.head <= second
    ensures Commit(Two(cl, cr, ul, ur), first, second)
         == Two(
           Receive(cl, ul, first, second), Receive(cr, ur, first, second),
           DiscardOldEvents(ul, second), DiscardOldEvents(ur, second))
  {
  }

  lemma AdvanceTwo(
    cfg: Config, delay: int, cl: InputStream, cr: InputStream, ul: InputStream, ur: InputStream, locked: int,
    write: int)
    requires cfg.sources == [Local(delay), Remote]
    ensures AdvanceLocal(cfg, Two(cl, cr, ul, ur), locked, write)
      == Two(cl, cr, AdvanceInputStream(ul, locked, write + delay), ur)
  {
  }

  lemma MinHeadTwo(ul: InputStream, ur: InputStream)
    ensures MinHead([ul, ur]) == if ul.head < ur.head then ul.head else ur.head
  {
    assert [ul, ur][1..] == [ur];
  }

  /** The local stream after the plan's commit and both advances that follow. */
  function LocalTicked(u: InputStream, second: int, write: int): InputStream {
    AdvanceInputStream(AdvanceInputStream(DiscardOldEvents(u, second), second + FRAME, write), second + FRAME, write)
  }

  lemma PreparedTwo(
    cfg: Config, delay: int, c: World, cl: InputStream, cr: InputStream, ul: InputStream, ur: InputStream)
    requires cfg.sources == [Local(delay), Remote] && c.streams == Two(cl, cr, ul, ur)
    requires var plan := ChooseMode(c); !plan.mode.OnRailsReplay? && cl.head <= plan.second && cr.head <= plan.second
    ensures var plan := ChooseMode(c); var k := plan.second;
      Prepared(cfg, c).streams == Two(Receive(cl, ul, plan.first, k), Receive(cr, ur, plan.first, k),
        AdvanceInputStream(DiscardOldEvents(ul, k), k + FRAME, c.clock + delay), DiscardOldEvents(ur, k))
    ensures Prepared(cfg, c).clock == c.clock
  {
    var plan := ChooseMode(c);
    var k := plan.second;
    CommitTwo(cl, cr, ul, ur, plan.first, k);
    AdvanceTwo(
      cfg, delay, Receive(cl, ul, plan.first, k), Receive(cr, ur, plan.first, k), DiscardOldEvents(ul, k),
      DiscardOldEvents(ur, k), k + FRAME, c.clock);
  }

  lemma TickedTwo(cfg: Config, delay: int, c: World, cl: InputStream, cr: InputStream, ul: InputStream, ur: InputStream)
    requires cfg.sources == [Local(delay), Remote] && c.streams == Two(cl, cr, ul, ur)
    requires var plan := ChooseMode(c); !plan.mode.OnRailsReplay? && cl.head <= plan.second && cr.head <= plan.second
    ensures var plan := ChooseMode(c); var k := plan.second;
      TickFrame(cfg, Prepared(cfg, c), plan, []).streams
      == Two(
        Receive(cl, ul, plan.first, k), Receive(cr, ur, plan.first, k), LocalTicked(ul, k, c.clock + delay),
        DiscardOldEvents(ur, k))
  {
    var plan := ChooseMode(c);
    var k := plan.second;
    PreparedTwo(cfg, delay, c, cl, cr, ul, ur);
    var s := Prepared(cfg, c).streams;
    assert TickLocal(cfg, s, [], c.clock) == s;
    AdvanceTwo(cfg, delay, s.committed[0], s.committed[1], s.uncommitted[0], s.uncommitted[1], k + FRAME, c.clock);
  }

  lemma CommittedTwo(
    cfg: Config, delay: int, c: World, cl: InputStream, cr: InputStream, l: InputStream, r: InputStream)
    requires cfg.sources == [Local(delay), Remote] && cl.head == cr.head <= l.head && cl.head <= r.head
    requires var plan := ChooseMode(c);
      !plan.mode.OnRailsReplay? && TickFrame(cfg, Prepared(cfg, c), plan, []).streams == Two(cl, cr, l, r)
    ensures var plan := ChooseMode(c); var k := if l.head < r.head then l.head else r.head;
      Committed(cfg, Prepared(cfg, c), plan, [])
      == Two(
        Receive(cl, l, cl.head, k), Receive(cr, r, cl.head, k),
        AdvanceInputStream(DiscardOldEvents(l, k), k, c.clock + delay), DiscardOldEvents(r, k))
  {
    var k := if l.head < r.head then l.head else r.head;
    MinHeadTwo(l, r);
    CommitTwo(cl, cr, l, r, cl.head, k);
    AdvanceTwo(
      cfg, delay, Receive(cl, l, cl.head, k), Receive(cr, r, cl.head, k), DiscardOldEvents(l, k),
      DiscardOldEvents(r, k), k, c.clock);
  }

  lemma FromOne(e: Event, time: int)
    ensures From([e], time) == if e.time < time then [] else [e]
  {
    assert [e][1..] == [];
  }

  lemma SelectOne(e: Event, first: int, second: int)
    ensures Select([e], first, second) == if first <= e.time <= second && e.value != NO_INPUT then [e] else []
  {
    assert [e][1..] == [];
  }

  // ----- Two sessions that see the same remote input, one of them too late -----

  /** Game logic that counts the frames it has been ticked for. */
  const FRAME_COUNTER: Logic := (time, state, inputs) => if state == [] then [] else [[state[0] + 1]]

  const PEERS := Config(FRAME_COUNTER, true, [Local(0), Remote])

  /** A stream with nothing in it, and one with only the marker that moving its read head leaves. */
  function Blank(time: int): InputStream {
    InputStream([], time)
  }

  function Marked(time: int): InputStream {
    InputStream([Event(time, NO_INPUT)], time)
  }

  /** Frame one is about to be processed; both streams have just been created. */
  function Fresh(): World {
    World(FRAME, 0, Two(Blank(0), Blank(0), Marked(0), Marked(0)), [[]], Invalid, 0, false)
  }

  const SILENT := FrameInput(NO_DEBUG, [], [], [])

  /** Input for frame one arrives just in time for it, or at its end. */
  function Early(value: int): FrameInput {
    FrameInput(NO_DEBUG, [Arrival(1, FRAME, value)], [], [])
  }

  function Late(value: int): FrameInput {
    FrameInput(NO_DEBUG, [], [], [Arrival(1, FRAME, value)])
  }

  function Given(value: int): InputStream {
    InputStream([Event(FRAME, value)], FRAME)
  }

  lemma DeliverOnlyOne(s: Streams, a: Arrival)
    ensures DeliverAll(s, [a]) == Deliver(s, a)
  {
    assert [a][..0] == [];
  }

  lemma FreshIsStart()
    ensures SessionStart(PEERS, Fresh()) && FreshLocal(PEERS, Fresh()) && HasPromptStream(PEERS)
    ensures StartOrigin(Fresh()) == 0 && StartBase(Fresh()) == [0]
  {
    var w := Fresh();
    assert PEERS.sources[0] == Local(0) && w.streams.uncommitted[0].head == 0;
    assert Aligned(FRAME) && Aligned(0);
    forall i | 0 <= i < 2 ensures UncommittedOk(w.streams.uncommitted[i], 0) {
    }
    assert ReadAll(w.window, 0) == [0];
  }

  lemma FreshIsEntry()
    ensures AtEntry(PEERS, Fresh())
  {
    FreshIsStart();
  }

  lemma LocalTickedMarked(time: int, second: int)
    requires Aligned(time) && Aligned(second) && time <= second
    ensures LocalTicked(Marked(time), second, second + FRAME) == Marked(second + FRAME)
  {
    FromOne(Event(time, NO_INPUT), second + 1);
    assert DiscardOldEvents(Marked(time), second) == Blank(time);
    assert AdvanceInputStream(Blank(time), second + FRAME, second + FRAME) == Marked(second + FRAME);
    FromOne(Event(second + FRAME, NO_INPUT), second + FRAME);
  }

  /** The world when a frame of a session without debug requests chooses its plan. */
  function Chooses(w: World, s: Streams): World {
    w.(headClock := w.clock, streams := s)
  }

  lemma FirstPlan(ur: InputStream)
    requires 0 <= ur.head
    ensures ChooseMode(Chooses(Fresh(), Two(Blank(0), Blank(0), Marked(0), ur))) == Plan(SingleFrameSimulate, 0, 0)
  {
    MinHeadTwo(Marked(0), ur);
  }

  /** Frame one, with whatever remote input there is for it by then. */
  lemma FirstTicked(ur: InputStream, rest: InputStream)
    requires 0 <= ur.head && Select(ur.events, 0, 0) == [] && DiscardOldEvents(ur, 0) == rest
    ensures var c := Chooses(Fresh(), Two(Blank(0), Blank(0), Marked(0), ur));
      TickFrame(PEERS, Prepared(PEERS, c), ChooseMode(c), []).streams == Two(Blank(0), Blank(0), Marked(FRAME), rest)
  {
    var c := Chooses(Fresh(), Two(Blank(0), Blank(0), Marked(0), ur));
    FirstPlan(ur);
    TickedTwo(PEERS, 0, c, Blank(0), Blank(0), Marked(0), ur);
    SelectOne(Event(0, NO_INPUT), 0, 0);
    LocalTickedMarked(0, 0);
  }

  lemma EarlyFirst(value: int)
    requires value != NO_INPUT
    ensures var ur := InputStream([Event(0, NO_INPUT), Event(FRAME, value)], FRAME);
      var c := Chooses(Fresh(), Two(Blank(0), Blank(0), Marked(0), ur));
      Committed(PEERS, Prepared(PEERS, c), ChooseMode(c), [])
      == Two(Blank(FRAME), Given(value), Marked(FRAME), Blank(FRAME))
  {
    var e, m := Event(FRAME, value), Event(0, NO_INPUT);
    var ur := InputStream([m, e], FRAME);
    var c := Chooses(Fresh(), Two(Blank(0), Blank(0), Marked(0), ur));
    assert [m, e][1..] == [e];
    FromOne(e, 1);
    SelectOne(e, 0, 0);
    FirstTicked(ur, Given(value));
    FirstPlan(ur);
    CommittedTwo(PEERS, 0, c, Blank(0), Blank(0), Marked(FRAME), Given(value));
    SelectOne(Event(FRAME, NO_INPUT), 0, FRAME);
    SelectOne(e, 0, FRAME);
    FromOne(Event(FRAME, NO_INPUT), FRAME + 1);
    FromOne(e, FRAME + 1);
    assert Blank(0).events + [e] == [e];
  }

  lemma LateFirst()
    ensures var c := Chooses(Fresh(), Fresh().streams);
      Committed(PEERS, Prepared(PEERS, c), ChooseMode(c), []) == Two(Blank(0), Blank(0), Marked(FRAME), Blank(0))
  {
    var c := Chooses(Fresh(), Fresh().streams);
    FromOne(Event(0, NO_INPUT), 1);
    SelectOne(Event(0, NO_INPUT), 0, 0);
    FirstTicked(Marked(0), Blank(0));
    FirstPlan(Marked(0));
    CommittedTwo(PEERS, 0, c, Blank(0), Blank(0), Marked(FRAME), Blank(0));
    SelectOne(Event(FRAME, NO_INPUT), 0, 0);
    FromOne(Event(FRAME, NO_INPUT), 1);
    FromOne(Event(FRAME, NO_INPUT), 0);
  }

  /** The streams of both sessions once frame two is through. */
  function Ended(value: int): Streams {
    Two(Blank(FRAME), Given(value), Marked(2 * FRAME), Blank(FRAME))
  }

  lemma SecondPlan(c: World, cl: InputStream, cr: InputStream, ur: InputStream)
    requires c.clock == c.headClock == 2 * FRAME && c.replayEnd == 0 && c.streams == Two(cl, cr, Marked(FRAME), ur)
    requires ur.head == FRAME && (cl.head == 0 || cl.head == FRAME)
    ensures ChooseMode(c) == Plan(if cl.head == 0 then RollbackAndSimulate else SingleFrameSimulate, cl.head, FRAME)
  {
    MinHeadTwo(Marked(FRAME), ur);
  }

  /** Frame two when the input of frame one is committed already, and when its commit is up to the plan. */
  lemma SecondTicked(c: World, value: int, late: bool)
    requires c.clock == c.headClock == 2 * FRAME && c.replayEnd == 0 && value != NO_INPUT
    requires c.streams ==
      if late then Two(Blank(0), Blank(0), Marked(FRAME), Given(value))
      else Two(Blank(FRAME), Given(value), Marked(FRAME), Blank(FRAME))
    ensures TickFrame(PEERS, Prepared(PEERS, c), ChooseMode(c), []).streams == Ended(value)
  {
    if late {
      SecondTickedFrom(c, value, Blank(0), Blank(0), Given(value));
    } else {
      SecondTickedFrom(c, value, Blank(FRAME), Given(value), Blank(FRAME));
    }
  }

  lemma SecondTickedFrom(c: World, value: int, cl: InputStream, cr: InputStream, ur: InputStream)
    requires c.clock == c.headClock == 2 * FRAME && c.replayEnd == 0 && value != NO_INPUT
    requires c.streams == Two(cl, cr, Marked(FRAME), ur)
    requires (cl == cr == Blank(0) && ur == Given(value)) || (cl == ur == Blank(FRAME) && cr == Given(value))
    ensures TickFrame(PEERS, Prepared(PEERS, c), ChooseMode(c), []).streams == Ended(value)
  {
    SecondPlan(c, cl, cr, ur);
    TickedTwo(PEERS, 0, c, cl, cr, Marked(FRAME), ur);
    LocalTickedMarked(FRAME, FRAME);
    SecondReceives(cl, cr, ur, value);
  }

  lemma SecondReceives(cl: InputStream, cr: InputStream, ur: InputStream, value: int)
    requires (cl == cr == Blank(0) && ur == Given(value)) || (cl == ur == Blank(FRAME) && cr == Given(value))
    requires value != NO_INPUT
    ensures Receive(cl, Marked(FRAME), cl.head, FRAME) == Blank(FRAME)
    ensures Receive(cr, ur, cl.head, FRAME) == Given(value) && DiscardOldEvents(ur, FRAME) == Blank(FRAME)
  {
    var e := Event(FRAME, value);
    SelectOne(Event(FRAME, NO_INPUT), cl.head, FRAME);
    SelectOne(e, cl.head, FRAME);
    FromOne(e, FRAME + 1);
    assert [] + [e] == [e] && [e] + [] == [e];
  }

  lemma SecondCommitted(c: World, value: int)
    requires !ChooseMode(c).mode.OnRailsReplay? && c.clock == 2 * FRAME
    requires TickFrame(PEERS, Prepared(PEERS, c), ChooseMode(c), []).streams == Ended(value)
    ensures Committed(PEERS, Prepared(PEERS, c), ChooseMode(c), []) == Ended(value)
  {
    CommittedTwo(PEERS, 0, c, Blank(FRAME), Given(value), Marked(2 * FRAME), Blank(FRAME));
    FromOne(Event(2 * FRAME, NO_INPUT), FRAME + 1);
    FromOne(Event(2 * FRAME, NO_INPUT), FRAME);
    SelectOne(Event(2 * FRAME, NO_INPUT), FRAME, FRAME);
    assert Given(value).events + [] == Given(value).events;
    assert Receive(Blank(FRAME), Marked(2 * FRAME), FRAME, FRAME) == Blank(FRAME);
    assert Receive(Given(value), Blank(FRAME), FRAME, FRAME) == Given(value);
    assert DiscardOldEvents(Marked(2 * FRAME), FRAME) == Marked(2 * FRAME);
    assert AdvanceInputStream(Marked(2 * FRAME), FRAME, 2 * FRAME) == Marked(2 * FRAME);
    assert DiscardOldEvents(Blank(FRAME), FRAME) == Blank(FRAME);
  }

  /** How one frame of a session gets from the streams that it meets to those of the next entry. */
  lemma EntryStreams(cfg: Config, w: World, c: World, input: FrameInput)
    requires AtEntry(cfg, w) && input.debug == NO_DEBUG && input.typed == []
    requires c == Arrived(w, input) && !ChooseMode(c).mode.OnRailsReplay?
    ensures var w', plan := NextEntry(Frame(cfg, w, input)), ChooseMode(c);
      && BeforeLate(cfg, w, input) == Committed(cfg, Prepared(cfg, c), plan, [])
      && w'.streams == DeliverAll(BeforeLate(cfg, w, input), input.late)
      && PlanOf(w, input) == plan
      && w'.clock == (if plan.mode.StallSimulation? then w.clock else w.clock + FRAME)
      && w'.lastMode == plan.mode && w'.replayEnd == w.replayEnd
  {
    FrameShape(cfg, w, input);
    BeforeLateIs(cfg, w, input);
    PreparedClock(cfg, c);
    EntryOf(cfg, w, input);
  }

  lemma OneArrivalOk(cfg: Config, s: Streams, a: Arrival, floor: int)
    requires ArrivalOk(cfg, s, a, floor)
    ensures ArrivalsOk(cfg, s, [a], floor) && ArrivalsOk(cfg, s, [], floor)
  {
    assert [a][..0] == [];
  }

  /** Input for the remote stream, when it is accepted. */
  lemma DeliverTwo(cl: InputStream, cr: InputStream, ul: InputStream, ur: InputStream, a: Arrival)
    requires a.stream == 1 && cr.head <= a.time && ur.head <= a.time
    ensures DeliverAll(Two(cl, cr, ul, ur), [a])
         == Two(
           cl, cr, ul,
           InputStream(ur.events + if a.value != NO_INPUT then [Event(a.time, a.value)] else [], a.time))
  {
    DeliverOnlyOne(Two(cl, cr, ul, ur), a);
    assert ur.events + [] == ur.events;
  }

  lemma EarlyArrives(value: int)
    requires value != NO_INPUT
    ensures Arrived(Fresh(), Early(value))
         == Chooses(
           Fresh(), Two(Blank(0), Blank(0), Marked(0),
           InputStream([Event(0, NO_INPUT), Event(FRAME, value)], FRAME)))
    ensures ArrivalsOk(PEERS, Fresh().streams, Early(value).early, 0)
  {
    var w, a := Fresh(), Arrival(1, FRAME, value);
    DeliverTwo(Blank(0), Blank(0), Marked(0), Marked(0), a);
    assert [Event(0, NO_INPUT)] + [Event(FRAME, value)] == [Event(0, NO_INPUT), Event(FRAME, value)];
    OneArrivalOk(PEERS, w.streams, a, 0);
  }

  /** The two sessions after their first frame. */
  lemma EarlyFrame(value: int)
    requires value != NO_INPUT
    ensures Honest(PEERS, Fresh(), Early(value))
    ensures var w := NextEntry(Frame(PEERS, Fresh(), Early(value)));
      w.clock == 2 * FRAME && w.streams == Two(Blank(FRAME), Given(value), Marked(FRAME), Blank(FRAME))
  {
    FreshIsEntry();
    EarlyArrives(value);
    FirstPlan(InputStream([Event(0, NO_INPUT), Event(FRAME, value)], FRAME));
    EarlyFirst(value);
    var c := Arrived(Fresh(), Early(value));
    EntryStreams(PEERS, Fresh(), c, Early(value));
  }

  lemma LateMeets(value: int)
    ensures var c := Arrived(Fresh(), Late(value));
      c == Chooses(Fresh(), Fresh().streams) && ChooseMode(c) == Plan(SingleFrameSimulate, 0, 0)
  {
    FirstPlan(Marked(0));
  }

  lemma LateBegins(value: int)
    ensures var w := NextEntry(Frame(PEERS, Fresh(), Late(value)));
      && BeforeLate(PEERS, Fresh(), Late(value)) == Two(Blank(0), Blank(0), Marked(FRAME), Blank(0))
      && w.clock == 2 * FRAME && w.streams == DeliverAll(BeforeLate(PEERS, Fresh(), Late(value)), Late(value).late)
  {
    var c := Arrived(Fresh(), Late(value));
    FreshIsEntry();
    LateMeets(value);
    LateFirst();
    EntryStreams(PEERS, Fresh(), c, Late(value));
  }

  lemma LateArrives(value: int)
    requires value != NO_INPUT
    ensures var s := Two(Blank(0), Blank(0), Marked(FRAME), Blank(0));
      && DeliverAll(s, Late(value).late) == Two(Blank(0), Blank(0), Marked(FRAME), Given(value))
      && ArrivalsOk(PEERS, s, Late(value).late, 0)
  {
    var s, a := Two(Blank(0), Blank(0), Marked(FRAME), Blank(0)), Arrival(1, FRAME, value);
    DeliverTwo(Blank(0), Blank(0), Marked(FRAME), Blank(0), a);
    OneArrivalOk(PEERS, s, a, 0);
    assert [] + [Event(FRAME, value)] == [Event(FRAME, value)];
  }

  lemma LateFrame(value: int)
    requires value != NO_INPUT
    ensures Honest(PEERS, Fresh(), Late(value))
    ensures var w := NextEntry(Frame(PEERS, Fresh(), Late(value)));
      w.clock == 2 * FRAME && w.streams == Two(Blank(0), Blank(0), Marked(FRAME), Given(value))
  {
    LateBegins(value);
    LateArrives(value);
  }

  /** The second, silent frame of both. */
  lemma SilentSecond(w: World, value: int, late: bool)
    requires AtEntry(PEERS, w) && w.clock == 2 * FRAME && value != NO_INPUT
    requires w.streams ==
      if late then Two(Blank(0), Blank(0), Marked(FRAME), Given(value))
      else Two(Blank(FRAME), Given(value), Marked(FRAME), Blank(FRAME))
    ensures Honest(PEERS, w, SILENT)
    ensures PlanOf(w, SILENT)
      == Plan(if late then RollbackAndSimulate else SingleFrameSimulate, if late then 0 else FRAME, FRAME)
    ensures var w' := NextEntry(Frame(PEERS, w, SILENT)); w'.clock == 3 * FRAME && w'.streams == Ended(value)
  {
    var c := Arrived(w, SILENT);
    SecondPlan(
      c, if late then Blank(0) else Blank(FRAME), if late then Blank(0) else Given(value),
      if late then Given(value) else Blank(FRAME));
    SecondTicked(c, value, late);
    SecondCommitted(c, value);
    EntryStreams(PEERS, w, c, SILENT);
  }

  function Session(first: FrameInput): seq<FrameInput> {
    [first, SILENT]
  }

  lemma RunOfTwo(cfg: Config, w: World, first: FrameInput)
    ensures var w1 := NextEntry(Frame(cfg, w, first));
      && Run(cfg, w, [first]) == w1 && Run(cfg, w, Session(first)) == NextEntry(Frame(cfg, w1, SILENT))
      && (HonestRun(cfg, w, Session(first)) <==> Honest(cfg, w, first) && Honest(cfg, w1, SILENT))
      && (HonestRun(cfg, w, [first]) <==> Honest(cfg, w, first))
  {
    assert [first][..0] == [];
    assert Session(first)[..1] == [first];
    assert HonestRun(cfg, w, []) && Run(cfg, w, []) == w;
  }

  /** Before anything was predicted, there is nothing to be covered. */
  lemma NewSessionIsOk(cfg: Config, w: World, inputs: seq<FrameInput>)
    requires AtEntry(cfg, w) && SafeRun(cfg, w, inputs) && MaxCommitHead(w.streams) == w.clock - FRAME
    ensures RunOk(cfg, w, inputs)
  {
    if inputs != [] {
      FirstIsOk(cfg, w, inputs);
      ArrivedMatches(cfg, w, inputs[0]);
      FloorBounds(cfg, Arrived(w, inputs[0]));
    }
  }

  /** Both sessions are sessions as the theorems mean them, and end with the same streams. */
  lemma SessionRuns(value: int, late: bool)
    requires value != NO_INPUT
    ensures var first := if late then Late(value) else Early(value);
      && RunOk(PEERS, Fresh(), Session(first))
      && Run(PEERS, Fresh(), Session(first)).streams == Ended(value)
      && Run(PEERS, Fresh(), Session(first)).clock == 3 * FRAME
      && PlanOf(Run(PEERS, Fresh(), [first]), SILENT)
          == Plan(if late then RollbackAndSimulate else SingleFrameSimulate, if late then 0 else FRAME, FRAME)
  {
    var w, first := Fresh(), if late then Late(value) else Early(value);
    var w1 := NextEntry(Frame(PEERS, w, first));
    if late {
      LateFrame(value);
    } else {
      EarlyArrives(value);
      EarlyFrame(value);
    }
    FreshIsStart();
    RunOfTwo(PEERS, w, first);
    PromptSessionsAreSafe(PEERS, w, [first]);
    RunKeepsOrder(PEERS, w, [first]);
    SilentSecond(w1, value, late);
    PromptSessionsAreSafe(PEERS, w, Session(first));
    NewSessionIsOk(PEERS, w, Session(first));
  }

  /** Straight simulation of a frame counter, with and without frame zero. */
  lemma {:induction false} CountedFrames(cfg: Config, log: seq<seq<Event>>, frames: nat)
    requires cfg.logic == FRAME_COUNTER
    ensures StateAfter(cfg, 0, [0], log, frames * FRAME) == [frames]
    ensures StateAfter(cfg, -FRAME, [0], log, frames * FRAME) == [frames + 1]
  {
    if frames == 0 {
      assert StateAfter(cfg, -FRAME, [0], log, -FRAME) == [0];
      assert Step(cfg, [0], Inputs(log, 0), 0) == [1];
    } else {
      CountedFrames(cfg, log, frames - 1);
      assert frames * FRAME - FRAME == (frames - 1) * FRAME;
      assert Step(cfg, [frames - 1], Inputs(log, frames * FRAME), frames * FRAME) == [frames];
      assert Step(cfg, [frames], Inputs(log, frames * FRAME), frames * FRAME) == [frames + 1];
    }
  }

  function Ran(value: int, late: bool): seq<FrameInput> {
    Session(if late then Late(value) else Early(value))
  }

  lemma RanOrigin(value: int, late: bool)
    requires value != NO_INPUT
    ensures RunOrigin(PEERS, Fresh(), Ran(value, late), 0) == if late then -FRAME else 0
  {
    SessionRuns(value, late);
    FreshIsStart();
    FrameZeroWithLocal(PEERS, Fresh(), Ran(value, late));
    FirstMeets(value, late);
  }

  lemma StraightFrameOne(value: int, late: bool)
    requires value != NO_INPUT
    ensures Straight(PEERS, Fresh(), Ran(value, late), FRAME) == [if late then 2 else 1]
  {
    RanOrigin(value, late);
    FreshIsStart();
    CountedFrames(PEERS, CommittedLog(Run(PEERS, Fresh(), Ran(value, late)).streams), 1);
    assert 1 * FRAME == FRAME;
  }

  lemma StoredState(value: int, late: bool)
    requires value != NO_INPUT
    ensures var w := Run(PEERS, Fresh(), Ran(value, late));
      Settled(w) == FRAME && ReadAll(w.window, FRAME) == [if late then 2 else 1]
  {
    SessionRuns(value, late);
    FreshIsStart();
    RollbackRefinesStraightSimulation(PEERS, Fresh(), Ran(value, late));
    StraightFrameOne(value, late);
  }

  lemma FirstMeets(value: int, late: bool)
    ensures WaitsOnRemote(PEERS, Arrived(Fresh(), if late then Late(value) else Early(value)).streams, 0) == late
  {
    var w := Fresh();
    if late {
      assert Arrived(w, Late(value)).streams == w.streams;
      assert PEERS.sources[1].Remote? && w.streams.uncommitted[1].head == 0;
    } else {
      DeliverOnlyOne(w.streams, Arrival(1, FRAME, value));
    }
  }

  /** The same start, the same committed input, the same time, and different states: the peer whose remote
      input came one frame late has rolled back from frame zero and ticked it on top of its start. */
  lemma FrameZeroDesync(value: int)
    requires value != NO_INPUT
    ensures SessionStart(PEERS, Fresh()) && RunOk(PEERS, Fresh(), Session(Early(value)))
    ensures RunOk(PEERS, Fresh(), Session(Late(value)))
    ensures Diverged(Run(PEERS, Fresh(), Session(Early(value))), Run(PEERS, Fresh(), Session(Late(value))), value)
  {
    FreshIsStart();
    SessionRuns(value, false);
    SessionRuns(value, true);
    StoredState(value, false);
    StoredState(value, true);
    EndedLog(value);
  }

  predicate Diverged(a: World, b: World, value: int) {
    && CommittedLog(a.streams) == CommittedLog(b.streams) == [[], [Event(FRAME, value)]]
    && a.streams == b.streams && a.clock == b.clock && Settled(a) == Settled(b) == FRAME
    && ReadAll(a.window, FRAME) == [1] && ReadAll(b.window, FRAME) == [2]
  }

  lemma EndedLog(value: int)
    ensures CommittedLog(Ended(value)) == [[], [Event(FRAME, value)]]
  {
  }

  /** And the theorems are about something: a fresh session whose second frame rolls back. */
  lemma SomeSessionRollsBack(value: int)
    requires value != NO_INPUT
    ensures SessionStart(PEERS, Fresh()) && RunOk(PEERS, Fresh(), Session(Late(value)))
    ensures PlanOf(Run(PEERS, Fresh(), [Late(value)]), SILENT) == Plan(RollbackAndSimulate, 0, FRAME)
  {
    FreshIsStart();
    SessionRuns(value, true);
  }

  // ----- A lobby that has stalled at commit head zero -----

  /** Every stream was remote until now: seven frames were predicted from head zero, the eighth has
      stalled, and one stream has just become local. The other has been written meanwhile. */
  function Lobby(window: seq<StateStream>, remote: InputStream): World {
    World(8 * FRAME, 7 * FRAME, Two(Blank(0), Blank(0), Blank(0), remote), window, StallSimulation, 0, false)
  }

  /** A session can start there, whatever the game did, and whatever the other peer has sent. */
  lemma LobbyIsStart(cfg: Config, delay: nat, window: seq<StateStream>, remote: InputStream)
    requires cfg.sources == [Local(delay), Remote] && Aligned(delay)
    requires WindowOk(window, 7 * FRAME) && UncommittedOk(remote, 0)
    ensures SessionStart(cfg, Lobby(window, remote)) && FreshLocal(cfg, Lobby(window, remote))
  {
    var w := Lobby(window, remote);
    assert Aligned(8 * FRAME) && Aligned(0);
    assert cfg.sources[0].Local? && w.streams.uncommitted[0].head == 0;
    forall i | 0 <= i < 2 ensures UncommittedOk(w.streams.uncommitted[i], 0) {
    }
  }

  lemma LobbyPlan(window: seq<StateStream>, remote: InputStream)
    requires 0 <= remote.head
    ensures var c := Arrived(Lobby(window, remote), SILENT);
      && c == Chooses(Lobby(window, remote), Two(Blank(0), Blank(0), Blank(0), remote))
      && ChooseMode(c) == Plan(StallSimulation, 0, 0)
  {
    MinHeadTwo(Blank(0), remote);
  }

  /** The condition of RunOk, if nothing arrives in the first frame: up to where the other peer has come,
      each frame was predicted with what that peer has sent for it. */
  lemma LobbyIsCoveredIff(cfg: Config, delay: nat, window: seq<StateStream>, remote: InputStream)
    requires cfg.sources == [Local(delay), Remote] && 0 <= remote.head
    ensures Covered(cfg, Arrived(Lobby(window, remote), SILENT)) <==>
      Foreseen(cfg, window, [[], remote.events], 0, Min(remote.head, 7 * FRAME))
  {
    var c := Arrived(Lobby(window, remote), SILENT);
    LobbyPlan(window, remote);
    assert [] + remote.events == remote.events;
    assert Known(c.streams) == [[], remote.events];
    LobbyFloor(cfg, delay, c.streams, remote);
  }

  lemma LobbyFloor(cfg: Config, delay: nat, s: Streams, remote: InputStream)
    requires cfg.sources == [Local(delay), Remote] && s.uncommitted == [Blank(0), remote]
    ensures LeastRemote(cfg, s, 7 * FRAME) == Min(remote.head, 7 * FRAME)
  {
    assert LeastRemote(cfg, s, 7 * FRAME, 2) == 7 * FRAME;
    assert LeastRemote(cfg, s, 7 * FRAME, 1) == Min(remote.head, 7 * FRAME);
  }

  /** Game logic that counts the input of the second stream. */
  const INPUT_COUNTER: Logic := (time, state, inputs) =>
    if |state| != 1 || |inputs| != 2 || inputs[1] == [] then [] else [[state[0] + 1]]

  const COUNTING := Config(INPUT_COUNTER, true, [Local(0), Remote])

  /** The other peer has pressed a button in frame one, and then nothing until frame seven. */
  function Pressed(value: int): InputStream {
    InputStream([Event(FRAME, value)], 7 * FRAME)
  }

  /** The seven frames were predicted before that was known. */
  function Waited(value: int): World {
    Lobby([[]], Pressed(value))
  }

  lemma WaitedIsStart(value: int)
    ensures SessionStart(COUNTING, Waited(value)) && StartOrigin(Waited(value)) == 0 && StartBase(Waited(value)) == [0]
  {
    LobbyIsStart(COUNTING, 0, [[]], Pressed(value));
    assert ReadAll([[]], 0) == [0];
  }

  lemma CaughtUpWithLobby()
    ensures LocalTicked(Blank(0), 0, 8 * FRAME) == Ahead(7) && Receive(Blank(0), Blank(0), 0, 0) == Blank(0)
  {
    assert DiscardOldEvents(Blank(0), 0) == Blank(0);
    assert AdvanceInputStream(Blank(0), FRAME, 8 * FRAME) == Ahead(7);
    FromOne(Event(FRAME, NO_INPUT), FRAME);
  }

  lemma PressWaits(value: int)
    requires value != NO_INPUT
    ensures DiscardOldEvents(Pressed(value), 0) == Pressed(value)
    ensures Receive(Blank(0), Pressed(value), 0, 0) == Blank(0)
  {
    FromOne(Event(FRAME, value), 1);
    SelectOne(Event(FRAME, value), 0, 0);
  }

  lemma WaitedTicked(value: int)
    requires value != NO_INPUT
    ensures var c := Arrived(Waited(value), SILENT);
      TickFrame(COUNTING, Prepared(COUNTING, c), ChooseMode(c), []).streams
      == Two(Blank(0), Blank(0), Ahead(7), Pressed(value))
  {
    var c := Arrived(Waited(value), SILENT);
    LobbyPlan([[]], Pressed(value));
    TickedTwo(COUNTING, 0, c, Blank(0), Blank(0), Blank(0), Pressed(value));
    CaughtUpWithLobby();
    PressWaits(value);
  }

  lemma WaitedCommitted(value: int)
    requires value != NO_INPUT
    ensures var c := Arrived(Waited(value), SILENT);
      Committed(COUNTING, Prepared(COUNTING, c), ChooseMode(c), []).committed == [Blank(7 * FRAME), Pressed(value)]
  {
    var c := Arrived(Waited(value), SILENT);
    LobbyPlan([[]], Pressed(value));
    WaitedTicked(value);
    CommittedTwo(COUNTING, 0, c, Blank(0), Blank(0), Ahead(7), Pressed(value));
    SelectOne(Event(FRAME, NO_INPUT), 0, 7 * FRAME);
    SelectOne(Event(FRAME, value), 0, 7 * FRAME);
    assert [] + [Event(FRAME, value)] == [Event(FRAME, value)];
  }

  /** The true frame ticks without input, so that it leaves the window as it was. */
  lemma WaitedWindow(value: int)
    requires value != NO_INPUT
    ensures var c := Arrived(Waited(value), SILENT);
      TickedWindow(COUNTING, Prepared(COUNTING, c), ChooseMode(c), []) == [[]]
  {
    var c := Arrived(Waited(value), SILENT);
    LobbyPlan([[]], Pressed(value));
    PreparedTwo(COUNTING, 0, c, Blank(0), Blank(0), Blank(0), Pressed(value));
    PressWaits(value);
    var s := Prepared(COUNTING, c).streams;
    assert s.committed[1] == Blank(0) && s.uncommitted[1] == Pressed(value);
    assert TickLocal(COUNTING, s, [], 8 * FRAME) == s;
    assert Known(s)[1] == [Event(FRAME, value)];
    NoInputOutside([Event(FRAME, value)], 8 * FRAME);
    assert Inputs(Known(s), 8 * FRAME)[1] == [];
  }

  lemma WaitedEnds(value: int)
    requires value != NO_INPUT
    ensures var c := Arrived(Waited(value), SILENT);
      var w := UndoneEntry(COUNTING, Prepared(COUNTING, c), ChooseMode(c), SILENT);
      && ChooseMode(c).mode.StallSimulation?
      && w.clock == 8 * FRAME && w.window == [[]] && w.streams.committed == [Blank(7 * FRAME), Pressed(value)]
  {
    LobbyPlan([[]], Pressed(value));
    WaitedCommitted(value);
    WaitedWindow(value);
    PreparedClock(COUNTING, Arrived(Waited(value), SILENT));
    assert RewindAll([[]], 7 * FRAME) == [[]];
  }

  lemma WaitedEntry(value: int)
    requires value != NO_INPUT
    ensures var w := NextEntry(Frame(COUNTING, Waited(value), SILENT));
      w.clock == 8 * FRAME && w.window == [[]] && w.streams.committed == [Blank(7 * FRAME), Pressed(value)]
  {
    WaitedIsEntry(value);
    WaitedEnds(value);
    FrameShape(COUNTING, Waited(value), SILENT);
    EntryOf(COUNTING, Waited(value), SILENT);
  }

  lemma WaitedIsEntry(value: int)
    ensures AtEntry(COUNTING, Waited(value))
  {
    WaitedIsStart(value);
  }

  lemma WaitedIsSafe(value: int)
    requires value != NO_INPUT
    ensures Honest(COUNTING, Waited(value), SILENT) && SafeRun(COUNTING, Waited(value), [SILENT])
    ensures Run(COUNTING, Waited(value), [SILENT]) == NextEntry(Frame(COUNTING, Waited(value), SILENT))
  {
    WaitedIsEntry(value);
    LobbyPlan([[]], Pressed(value));
    EntryStreams(COUNTING, Waited(value), Arrived(Waited(value), SILENT), SILENT);
    assert [SILENT][..0] == [] && SafeRun(COUNTING, Waited(value), []);
    assert COUNTING.sources[0] == Local(0);
    PromptStreamNeverOverruns(COUNTING, Waited(value), SILENT);
  }

  lemma CountedPress(value: int)
    requires value != NO_INPUT
    ensures Step(COUNTING, [0], Inputs([[], [Event(FRAME, value)]], FRAME), FRAME) == [1]
  {
    assert [Event(FRAME, value)][1..] == [] && InputAt([], FRAME) == [];
    assert Inputs([[], [Event(FRAME, value)]], FRAME)[1] == [value];
  }

  lemma {:induction false} CountedInput(value: int, frames: nat)
    requires value != NO_INPUT && 0 < frames
    ensures StateAfter(COUNTING, 0, [0], [[], [Event(FRAME, value)]], frames * FRAME) == [1]
  {
    var log := [[], [Event(FRAME, value)]];
    assert frames * FRAME - FRAME == (frames - 1) * FRAME;
    if frames == 1 {
      assert StateAfter(COUNTING, 0, [0], log, 0) == [0];
      CountedPress(value);
    } else {
      CountedInput(value, frames - 1);
      NoInputOutside([Event(FRAME, value)], frames * FRAME);
      assert Inputs(log, frames * FRAME)[1] == [];
      assert Step(COUNTING, [1], Inputs(log, frames * FRAME), frames * FRAME) == [1];
    }
  }

  lemma WaitedIsNotCovered(value: int)
    requires value != NO_INPUT
    ensures !Covered(COUNTING, Arrived(Waited(value), SILENT))
  {
    LobbyIsCoveredIff(COUNTING, 0, [[]], Pressed(value));
    CountedPress(value);
    assert ReadAll([[]], FRAME) == [0] && ReadAll([[]], FRAME - FRAME) == [0] && Aligned(FRAME);
  }

  /** The button press of frame one is committed, and the stored states up to frame seven know nothing of it. */
  ghost predicate CommittedUnsimulated(cfg: Config, w: World, value: int) {
    && CommittedLog(w.streams) == [[], [Event(FRAME, value)]] && Settled(w) == 7 * FRAME
    && ReadAll(w.window, 7 * FRAME) == [0]
    && StateAfter(cfg, 0, [0], CommittedLog(w.streams), 7 * FRAME) == [1]
  }

  lemma PressIsCommitted(w: World, value: int)
    requires w.clock == 8 * FRAME && w.window == [[]] && value != NO_INPUT
    requires w.streams.committed == [Blank(7 * FRAME), Pressed(value)]
    ensures CommittedUnsimulated(COUNTING, w, value)
  {
    assert CommittedLog(w.streams) == [[], [Event(FRAME, value)]];
    assert ReadAll(w.window, 7 * FRAME) == [0];
    CountedInput(value, 7);
  }

  // The lobby comes about like this.

  const WATCHING := Config(INPUT_COUNTER, true, [Remote, Remote])

  /** Nobody has sent anything for so many frames. */
  function Idle(frames: nat): World {
    var u, clock := if frames == 0 then Marked(0) else Blank(0), if frames < 8 then (frames + 1) * FRAME else 8 * FRAME;
    var mode := if frames == 0 then Invalid else if frames < 8 then SingleFrameSimulate else StallSimulation;
    World(clock, clock - FRAME, Two(Blank(0), Blank(0), u, u), [[]], mode, 0, false)
  }

  function Sent(late: seq<Arrival>): FrameInput {
    FrameInput(NO_DEBUG, [], [], late)
  }

  lemma IdleIsStart()
    ensures SessionStart(WATCHING, Fresh()) && Fresh() == Idle(0)
  {
    assert Aligned(FRAME) && Aligned(0);
    forall i | 0 <= i < 2 ensures UncommittedOk(Fresh().streams.uncommitted[i], 0) {
    }
  }

  lemma NoLocals(s: Streams, locked: int, write: int)
    ensures AdvanceLocal(WATCHING, s, locked, write) == s && TickLocal(WATCHING, s, [], write) == s
  {
    assert AdvanceLocal(WATCHING, s, locked, write).uncommitted == s.uncommitted;
    assert TickLocal(WATCHING, s, [], write).uncommitted == s.uncommitted;
  }

  lemma IdlePlan(frames: nat, late: seq<Arrival>)
    requires frames < 8
    ensures var c := Arrived(Idle(frames), Sent(late));
      ChooseMode(c) == Plan(if frames == 7 then StallSimulation else SingleFrameSimulate, 0, 0)
  {
    var u := Idle(frames).streams.uncommitted[0];
    MinHeadTwo(u, u);
  }

  lemma IdleTicks(frames: nat, late: seq<Arrival>)
    requires frames < 8
    ensures var c, blank := Arrived(Idle(frames), Sent(late)), Two(Blank(0), Blank(0), Blank(0), Blank(0));
      && AtTick(WATCHING, Prepared(WATCHING, c), ChooseMode(c), []) == blank
      && TickedWindow(WATCHING, Prepared(WATCHING, c), ChooseMode(c), []) == [[]]
      && Committed(WATCHING, Prepared(WATCHING, c), ChooseMode(c), []) == blank
  {
    var c, s, blank := Arrived(Idle(frames), Sent(late)), Idle(frames).streams,
      Two(Blank(0), Blank(0), Blank(0), Blank(0));
    var u := s.uncommitted[0];
    IdlePlan(frames, late);
    PreparedClock(WATCHING, c);
    NothingRemote(u);
    NothingRemote(Blank(0));
    CommitTwo(Blank(0), Blank(0), u, u, 0, 0);
    CommitTwo(Blank(0), Blank(0), Blank(0), Blank(0), 0, 0);
    MinHeadTwo(Blank(0), Blank(0));
    NoLocals(blank, FRAME, c.clock);
    NoLocals(blank, 0, c.clock);
    assert Inputs(Known(blank), c.clock)[1] == [];
  }

  lemma IdleEnds(frames: nat, late: seq<Arrival>)
    requires frames < 8
    ensures var c, input := Arrived(Idle(frames), Sent(late)), Sent(late);
      var r, plan, s := Prepared(WATCHING, c), ChooseMode(c), DeliverAll(Idle(frames + 1).streams, late);
      && plan.mode.StallSimulation? == (frames == 7)
      && (frames == 7 ==> UndoneEntry(WATCHING, r, plan, input) == Idle(8).(streams := s))
      && (frames < 7 ==> KeptEntry(WATCHING, r, plan, input) == Idle(frames + 1).(streams := s))
  {
    IdlePlan(frames, late);
    IdleTicks(frames, late);
    PreparedClock(WATCHING, Arrived(Idle(frames), Sent(late)));
    assert RewindAll([[]], 7 * FRAME) == [[]];
  }

  lemma IdleFrame(frames: nat, late: seq<Arrival>)
    requires frames < 8 && AtEntry(WATCHING, Idle(frames))
    ensures NextEntry(Frame(WATCHING, Idle(frames), Sent(late)))
         == Idle(frames + 1).(streams := DeliverAll(Idle(frames + 1).streams, late))
  {
    IdleEnds(frames, late);
    FrameShape(WATCHING, Idle(frames), Sent(late));
    EntryOf(WATCHING, Idle(frames), Sent(late));
  }

  lemma IdleBeforeLate(frames: nat, late: seq<Arrival>)
    requires frames < 8 && AtEntry(WATCHING, Idle(frames))
    ensures BeforeLate(WATCHING, Idle(frames), Sent(late)) == Idle(frames + 1).streams
    ensures PlanOf(Idle(frames), Sent(late)).second == 0
  {
    IdlePlan(frames, late);
    IdleTicks(frames, late);
    FrameShape(WATCHING, Idle(frames), Sent(late));
    BeforeLateIs(WATCHING, Idle(frames), Sent(late));
  }

  lemma IdleIsHonest(frames: nat, late: seq<Arrival>)
    requires frames < 8 && AtEntry(WATCHING, Idle(frames)) && ArrivalsOk(WATCHING, Idle(frames + 1).streams, late, 0)
    ensures Honest(WATCHING, Idle(frames), Sent(late)) && NoOverrun(WATCHING, Idle(frames), Sent(late))
  {
    IdleBeforeLate(frames, late);
    assert MaxCommitHead(Idle(frames + 1).streams) == 0;
  }

  /** A run that is as the theorems ask for, and gets there. */
  ghost predicate IdledFor(inputs: seq<FrameInput>, frames: nat) {
    SafeRun(WATCHING, Fresh(), inputs) && Run(WATCHING, Fresh(), inputs) == Idle(frames)
  }

  lemma IdleMore(inputs: seq<FrameInput>, frames: nat, late: seq<Arrival>)
    requires IdledFor(inputs, frames) && frames < 8 && ArrivalsOk(WATCHING, Idle(frames + 1).streams, late, 0)
    ensures SafeRun(WATCHING, Fresh(), inputs + [Sent(late)])
    ensures var s := DeliverAll(Idle(frames + 1).streams, late);
      Run(WATCHING, Fresh(), inputs + [Sent(late)]) == Idle(frames + 1).(streams := s)
  {
    IdleIsStart();
    RunKeepsOrder(WATCHING, Fresh(), inputs);
    IdleFrame(frames, late);
    IdleIsHonest(frames, late);
    RunExtends(WATCHING, Fresh(), inputs, Sent(late));
  }

  lemma {:induction false} IdleRun(frames: nat)
    requires frames <= 8
    ensures IdledFor(Silence(frames), frames)
  {
    if frames == 0 {
      IdleIsStart();
    } else {
      IdleRun(frames - 1);
      IdleMore(Silence(frames - 1), frames - 1, []);
      assert SILENT == Sent([]);
    }
  }

  /** The press, and a ready mark for frame seven. */
  function Press(value: int): seq<Arrival> {
    [Arrival(1, FRAME, value), Arrival(1, 7 * FRAME, NO_INPUT)]
  }

  lemma PressArrives(value: int)
    requires value != NO_INPUT
    ensures DeliverAll(Idle(8).streams, Press(value)) == Waited(value).streams
    ensures ArrivalsOk(WATCHING, Idle(8).streams, Press(value), 0)
  {
    var s, a, b := Idle(8).streams, Arrival(1, FRAME, value), Arrival(1, 7 * FRAME, NO_INPUT);
    DeliverTwo(Blank(0), Blank(0), Blank(0), Blank(0), a);
    assert [] + [Event(FRAME, value)] == [Event(FRAME, value)];
    assert Press(value)[..1] == [a] && Aligned(FRAME) && Aligned(7 * FRAME);
    OneArrivalOk(WATCHING, s, a, 0);
    assert DeliverAll(s, Press(value)) == Deliver(DeliverAll(s, [a]), b);
  }

  /** A peer that only watches gets to the lobby in eight frames: the other one says nothing until the end
      of the last. */
  lemma LobbyIsReached(value: int)
    requires value != NO_INPUT
    ensures SessionStart(WATCHING, Fresh()) && RunOk(WATCHING, Fresh(), Silence(7) + [Sent(Press(value))])
    ensures Run(WATCHING, Fresh(), Silence(7) + [Sent(Press(value))]) == Waited(value)
  {
    IdleIsStart();
    IdleRun(7);
    PressArrives(value);
    IdleMore(Silence(7), 7, Press(value));
    NewSessionIsOk(WATCHING, Fresh(), Silence(7) + [Sent(Press(value))]);
  }

  /** Why a first frame has to be covered. Once the first stream is made local, the plan waits for it, and
      it catches up within the frame, so that the commit after the tick takes in all that the other peer
      has sent for frames that are never simulated with it. */
  lemma LobbyCommitsUnsimulated(value: int)
    requires value != NO_INPUT
    ensures SessionStart(COUNTING, Waited(value)) && SafeRun(COUNTING, Waited(value), [SILENT])
    ensures !Covered(COUNTING, Arrived(Waited(value), SILENT))
    ensures CommittedUnsimulated(COUNTING, Run(COUNTING, Waited(value), [SILENT]), value)
  {
    WaitedIsStart(value);
    WaitedIsSafe(value);
    WaitedEntry(value);
    WaitedIsNotCovered(value);
    PressIsCommitted(NextEntry(Frame(COUNTING, Waited(value), SILENT)), value);
  }

  // ----- A session that runs into the fatal read-head check -----

  const DELAYED := Config(FRAME_COUNTER, true, [Local(FRAME), Remote])

  /** The local stream after `frames` frames in which the remote peer said nothing. */
  function Ahead(frames: nat): InputStream {
    if frames == 0 then Marked(0) else InputStream([Event(FRAME, NO_INPUT)], (frames + 1) * FRAME)
  }

  /** Seven frames are predicted; the eighth stalls. */
  ghost predicate Waiting(w: World, frames: nat) {
    && frames <= 8 && w.replayEnd == 0
    && w.clock == (if frames < 8 then (frames + 1) * FRAME else frames * FRAME)
    && w.lastMode.StallSimulation? == (frames == 8)
    && w.streams == Two(Blank(0), Blank(0), Ahead(frames), if frames == 0 then Marked(0) else Blank(0))
  }

  lemma WaitingPlan(c: World, frames: nat, ur: InputStream)
    requires frames < 8 && c.clock == c.headClock == (frames + 1) * FRAME && c.replayEnd == 0 && ur.head == 0
    requires c.streams == Two(Blank(0), Blank(0), Ahead(frames), ur)
    ensures ChooseMode(c) == Plan(if frames == 7 then StallSimulation else SingleFrameSimulate, 0, 0)
  {
    MinHeadTwo(Ahead(frames), ur);
  }

  lemma AheadTicked(frames: nat)
    ensures LocalTicked(Ahead(frames), 0, (frames + 2) * FRAME) == Ahead(frames + 1)
    ensures Receive(Blank(0), Ahead(frames), 0, 0) == Blank(0)
  {
    var u := DiscardOldEvents(Ahead(frames), 0);
    FromOne(Event(0, NO_INPUT), 1);
    FromOne(Event(FRAME, NO_INPUT), 1);
    assert u == if frames == 0 then Blank(0) else Ahead(frames);
    FromOne(Event(FRAME, NO_INPUT), FRAME);
    assert AdvanceInputStream(u, FRAME, (frames + 2) * FRAME) == Ahead(frames + 1);
    SelectOne(Event(0, NO_INPUT), 0, 0);
    SelectOne(Event(FRAME, NO_INPUT), 0, 0);
  }

  lemma AheadCommitted(frames: nat)
    ensures var u := Ahead(frames + 1);
      && AdvanceInputStream(DiscardOldEvents(u, 0), 0, (frames + 2) * FRAME) == u
      && Receive(Blank(0), u, 0, 0) == Blank(0)
  {
    FromOne(Event(FRAME, NO_INPUT), 1);
    FromOne(Event(FRAME, NO_INPUT), 0);
    SelectOne(Event(FRAME, NO_INPUT), 0, 0);
  }

  lemma WaitingTick(c: World, frames: nat, ur: InputStream)
    requires frames < 8 && c.clock == c.headClock == (frames + 1) * FRAME && c.replayEnd == 0
    requires c.streams == Two(Blank(0), Blank(0), Ahead(frames), ur) && (ur == Marked(0) || ur == Blank(0))
    ensures TickFrame(DELAYED, Prepared(DELAYED, c), ChooseMode(c), []).streams
      == Two(Blank(0), Blank(0), Ahead(frames + 1), Blank(0))
  {
    WaitingPlan(c, frames, ur);
    TickedTwo(DELAYED, FRAME, c, Blank(0), Blank(0), Ahead(frames), ur);
    AheadTicked(frames);
    NothingRemote(ur);
    assert (frames + 1) * FRAME + FRAME == (frames + 2) * FRAME;
  }

  lemma NothingRemote(ur: InputStream)
    requires ur == Marked(0) || ur == Blank(0)
    ensures Receive(Blank(0), ur, 0, 0) == Blank(0) && DiscardOldEvents(ur, 0) == Blank(0)
  {
    SelectOne(Event(0, NO_INPUT), 0, 0);
    FromOne(Event(0, NO_INPUT), 1);
  }

  lemma WaitingCommit(c: World, frames: nat)
    requires c.clock == (frames + 1) * FRAME && !ChooseMode(c).mode.OnRailsReplay?
    requires TickFrame(DELAYED, Prepared(DELAYED, c), ChooseMode(c), []).streams
      == Two(Blank(0), Blank(0), Ahead(frames + 1), Blank(0))
    ensures Committed(DELAYED, Prepared(DELAYED, c), ChooseMode(c), [])
      == Two(Blank(0), Blank(0), Ahead(frames + 1), Blank(0))
  {
    CommittedTwo(DELAYED, FRAME, c, Blank(0), Blank(0), Ahead(frames + 1), Blank(0));
    AheadCommitted(frames);
    assert (frames + 1) * FRAME + FRAME == (frames + 2) * FRAME;
    assert Receive(Blank(0), Blank(0), 0, 0) == Blank(0) && DiscardOldEvents(Blank(0), 0) == Blank(0);
  }

  lemma WaitingChoice(w: World, frames: nat)
    requires Waiting(w, frames) && frames < 8
    ensures var c := Arrived(w, SILENT);
      && ChooseMode(c) == Plan(if frames == 7 then StallSimulation else SingleFrameSimulate, 0, 0)
      && Committed(DELAYED, Prepared(DELAYED, c), ChooseMode(c), [])
          == Two(Blank(0), Blank(0), Ahead(frames + 1), Blank(0))
  {
    var c, ur := Arrived(w, SILENT), if frames == 0 then Marked(0) else Blank(0);
    WaitingPlan(c, frames, ur);
    WaitingTick(c, frames, ur);
    WaitingCommit(c, frames);
  }

  lemma WaitingFrame(w: World, frames: nat)
    requires AtEntry(DELAYED, w) && Waiting(w, frames) && frames < 8
    ensures Waiting(NextEntry(Frame(DELAYED, w, SILENT)), frames + 1)
  {
    WaitingChoice(w, frames);
    EntryStreams(DELAYED, w, Arrived(w, SILENT), SILENT);
  }

  lemma WaitingIsSafe(w: World, frames: nat)
    requires AtEntry(DELAYED, w) && Waiting(w, frames) && frames < 8
    ensures Honest(DELAYED, w, SILENT) && NoOverrun(DELAYED, w, SILENT)
  {
    WaitingChoice(w, frames);
    FrameShape(DELAYED, w, SILENT);
  }

  lemma DelayedIsStart()
    ensures SessionStart(DELAYED, Fresh()) && StartOrigin(Fresh()) == 0
  {
    var w := Fresh();
    assert Aligned(FRAME) && Aligned(0);
    forall i | 0 <= i < 2 ensures UncommittedOk(w.streams.uncommitted[i], 0) {
    }
  }

  lemma RunExtends(cfg: Config, w0: World, inputs: seq<FrameInput>, input: FrameInput)
    requires var w := Run(cfg, w0, inputs);
      SafeRun(cfg, w0, inputs) && Honest(cfg, w, input) && NoOverrun(cfg, w, input)
    ensures SafeRun(cfg, w0, inputs + [input])
    ensures Run(cfg, w0, inputs + [input]) == NextEntry(Frame(cfg, Run(cfg, w0, inputs), input))
  {
    assert (inputs + [input])[..|inputs|] == inputs;
  }

  /** A run that is as the theorems ask for, and gets there. */
  ghost predicate Reached(inputs: seq<FrameInput>, frames: nat) {
    SafeRun(DELAYED, Fresh(), inputs) && Waiting(Run(DELAYED, Fresh(), inputs), frames)
  }

  lemma WaitingMore(inputs: seq<FrameInput>, frames: nat)
    requires Reached(inputs, frames) && frames < 8
    ensures Reached(inputs + [SILENT], frames + 1)
  {
    var w := Run(DELAYED, Fresh(), inputs);
    DelayedIsStart();
    RunKeepsOrder(DELAYED, Fresh(), inputs);
    WaitingFrame(w, frames);
    WaitingIsSafe(w, frames);
    RunExtends(DELAYED, Fresh(), inputs, SILENT);
  }

  lemma WaitingFresh()
    ensures Reached([], 0)
  {
  }

  function Silence(frames: nat): (inputs: seq<FrameInput>)
    ensures |inputs| == frames
  {
    if frames == 0 then [] else Silence(frames - 1) + [SILENT]
  }

  lemma {:induction false} WaitingRun(frames: nat)
    requires frames <= 8
    ensures Reached(Silence(frames), frames)
  {
    if frames == 0 {
      WaitingFresh();
    } else {
      WaitingRun(frames - 1);
      WaitingMore(Silence(frames - 1), frames - 1);
    }
  }

  /** The remote peer catches up, two frames past the stalled one. */
  const CATCH_UP := FrameInput(NO_DEBUG, [Arrival(1, 10 * FRAME, NO_INPUT)], [], [])

  /** An honest session gets there: eight silent frames, of which the last stalls, and then a peer that
      has come further than our delayed input. */
  lemma SomeSessionOverruns()
    ensures SessionStart(DELAYED, Fresh()) && RunOk(DELAYED, Fresh(), Silence(8))
    ensures var w := Run(DELAYED, Fresh(), Silence(8)); Honest(DELAYED, w, CATCH_UP) && !NoOverrun(DELAYED, w, CATCH_UP)
  {
    WaitingRun(8);
    ReachedOverruns(Silence(8));
  }

  lemma ReachedOverruns(inputs: seq<FrameInput>)
    requires Reached(inputs, 8)
    ensures SessionStart(DELAYED, Fresh()) && RunOk(DELAYED, Fresh(), inputs)
    ensures var w := Run(DELAYED, Fresh(), inputs); Honest(DELAYED, w, CATCH_UP) && !NoOverrun(DELAYED, w, CATCH_UP)
  {
    DelayedIsStart();
    RunKeepsOrder(DELAYED, Fresh(), inputs);
    NewSessionIsOk(DELAYED, Fresh(), inputs);
    CatchUpOverruns(Run(DELAYED, Fresh(), inputs));
  }

  lemma CatchUpOverruns(w: World)
    requires AtEntry(DELAYED, w) && Waiting(w, 8)
    ensures Honest(DELAYED, w, CATCH_UP) && !NoOverrun(DELAYED, w, CATCH_UP)
  {
    var a := CATCH_UP.early[0];
    OneArrivalOk(DELAYED, w.streams, a, MaxCommitHead(w.streams));
    DeliverTwo(Blank(0), Blank(0), Ahead(8), Blank(0), a);
    var c := Arrived(w, CATCH_UP);
    assert c.streams == Two(Blank(0), Blank(0), Ahead(8), Blank(10 * FRAME));
    MinHeadTwo(Ahead(8), Blank(10 * FRAME));
    assert DELAYED.sources[0].Local? && c.streams.uncommitted[0].head == w.clock + DELAYED.sources[0].delay;
    OverrunIff(DELAYED, w, CATCH_UP);
  }
}
