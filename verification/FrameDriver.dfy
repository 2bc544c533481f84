/**
 * The rollback frame driver: one call of ProcessFrame picks a simulation mode, commits input,
 * possibly rewinds and re-simulates, ticks the true frame, and commits again.
 */
module FrameDriver {
  import opened Wrappers
  import opened StateStreams
  import opened InputStreams

  const KMAX: int := 0x7FFF_FFFF_FFFF_FFFF

  /** How far ahead of the commit head the driver may predict before it stalls. */
  const MAX_ROLLBACK_FRAMES: nat := MAX_CHANGES - 3

  datatype SimulationMode = Invalid | SingleFrameSimulate | RollbackAndSimulate | OnRailsReplay | StallSimulation

  /** One deterministic frame of game logic: (time, variables, input per stream) to writes per variable. */
  type Logic = (int, seq<int>, seq<seq<int>>) -> seq<seq<int>>

  /** A locally owned stream has an artificial delay; a remote one is filled by arrivals. */
  datatype Source = Local(delay: int) | Remote

  datatype Config = Config(logic: Logic, optimized: bool, sources: seq<Source>)

  datatype Streams = Streams(committed: seq<InputStream>, uncommitted: seq<InputStream>)

  /** Remote input for one frame; without a value it only says the frame is ready to commit. */
  datatype Arrival = Arrival(stream: nat, time: int, value: int)

  datatype Snapshot = Snapshot(time: int, window: seq<StateStream>)

  /** Debug requests: instant replay (asked for while developer input is processed), the snapshot
      that a queued load resolves to, and a queued hard time reset. */
  datatype Debug = Debug(replay: Option<nat>, load: Option<Snapshot>, reset: bool)

  const NO_DEBUG := Debug(None, None, false)

  /** Everything outside the driver that one frame depends on. */
  datatype FrameInput = FrameInput(debug: Debug, early: seq<Arrival>, typed: seq<seq<int>>, late: seq<Arrival>)

  datatype World = World(
    clock: int, headClock: int, streams: Streams, window: seq<StateStream>,
    lastMode: SimulationMode, replayEnd: int, replayTriggered: bool)

  datatype Plan = Plan(mode: SimulationMode, first: int, second: int)

  // ----- RollbackManager and RollbackInputManager, as ProcessFrame uses them -----

  function MaxCommitHead(s: Streams): int {
    if s.committed == [] then 0 else s.committed[0].head
  }

  /** GetFramesReadyToCommit's upper end; heads are 64-bit times, so none exceeds KMAX. */
  function MinHead(streams: seq<InputStream>): int {
    if streams == [] then KMAX
    else if |streams| == 1 then streams[0].head
    else var rest := MinHead(streams[1..]); if streams[0].head < rest then streams[0].head else rest
  }

  function Commit(s: Streams, first: int, second: int): Streams {
    Streams(
      seq(|s.committed|, i requires 0 <= i < |s.committed| =>
        if i < |s.uncommitted| && s.committed[i].head <= second
        then Receive(s.committed[i], s.uncommitted[i], first, second) else s.committed[i]),
      seq(|s.uncommitted|, i requires 0 <= i < |s.uncommitted| => DiscardOldEvents(s.uncommitted[i], second)))
  }

  /** RollbackController::AdvanceInputStream; the guard is the pair of fatal checks inside it. */
  function AdvanceInputStream(s: InputStream, lockedFrame: int, writeHead: int): InputStream {
    if s.head <= writeHead && lockedFrame <= writeHead
    then IncreaseReadHead(IncreaseWriteHead(s, writeHead), lockedFrame) else s
  }

  function AdvanceLocal(cfg: Config, s: Streams, lockedFrame: int, newWriteHead: int): Streams {
    s.(uncommitted := seq(|s.uncommitted|, i requires 0 <= i < |s.uncommitted| =>
      if i < |cfg.sources| && cfg.sources[i].Local?
      then AdvanceInputStream(s.uncommitted[i], lockedFrame, newWriteHead + cfg.sources[i].delay)
      else s.uncommitted[i]))
  }

  function Typed(values: seq<int>, time: int): seq<Event> {
    seq(|values|, i requires 0 <= i < |values| => Event(time, values[i]))
  }

  /** RollbackController::ProcessInput for this frame's commands, on every local stream. */
  function TickLocal(cfg: Config, s: Streams, typed: seq<seq<int>>, now: int): Streams {
    s.(uncommitted := seq(|s.uncommitted|, i requires 0 <= i < |s.uncommitted| =>
      if i < |cfg.sources| && cfg.sources[i].Local? && i < |typed| && typed[i] != []
      then
        var at := now + cfg.sources[i].delay;
        InputStream(s.uncommitted[i].events + Typed(typed[i], at), at)
      else s.uncommitted[i]))
  }

  /** TryPrepareRemoteFrame's checks: not before anything written, nor before anything committed. */
  predicate Accepts(s: Streams, a: Arrival) {
    && a.stream < |s.uncommitted| && a.stream < |s.committed|
    && s.uncommitted[a.stream].head <= a.time && s.committed[a.stream].head <= a.time
  }

  /** TryPrepareRemoteFrame followed by the insertion of a real value. */
  function Deliver(s: Streams, a: Arrival): Streams {
    if !Accepts(s, a) then s
    else
      var ready := IncreaseWriteHead(s.uncommitted[a.stream], a.time);
      var given := if a.value != NO_INPUT then PushBack(ready, Event(a.time, a.value)) else ready;
      s.(uncommitted := s.uncommitted[a.stream := given])
  }

  function DeliverAll(s: Streams, arrivals: seq<Arrival>): Streams {
    if arrivals == [] then s
    else Deliver(DeliverAll(s, arrivals[..|arrivals| - 1]), arrivals[|arrivals| - 1])
  }

  // ----- The state window -----

  function ReadAll(window: seq<StateStream>, time: int): seq<int> {
    seq(|window|, i requires 0 <= i < |window| => Read(window[i], time))
  }

  function RewindAll(window: seq<StateStream>, time: int): seq<StateStream> {
    seq(|window|, i requires 0 <= i < |window| => Rewind(window[i], time))
  }

  /** What a controller reports: the committed events, then the uncommitted ones. */
  function Known(s: Streams): seq<seq<Event>> {
    seq(|s.committed|, i requires 0 <= i < |s.committed| =>
      s.committed[i].events + if i < |s.uncommitted| then s.uncommitted[i].events else [])
  }

  function Inputs(log: seq<seq<Event>>, time: int): seq<seq<int>> {
    seq(|log|, i requires 0 <= i < |log| => InputAt(log[i], time))
  }

  function Nth(writes: seq<seq<int>>, i: nat): seq<int> {
    if i < |writes| then writes[i] else []
  }

  function Tick(cfg: Config, window: seq<StateStream>, inputs: seq<seq<int>>, time: int): seq<StateStream> {
    var writes := cfg.logic(time, ReadAll(window, time), inputs);
    seq(|window|, i requires 0 <= i < |window| => WriteAll(window[i], cfg.optimized, time, Nth(writes, i)))
  }

  function Resimulate(
    cfg: Config, window: seq<StateStream>, log: seq<seq<Event>>, time: int, until: int): seq<StateStream>
    decreases if time < until then until - time else 0
  {
    if time >= until then window
    else Resimulate(cfg, Tick(cfg, window, Inputs(log, time), time), log, time + FRAME, until)
  }

  /** Where a rollback rewinds to: right before the commit head, except at the lowest time there is. */
  function RewindPoint(commitHead: int): int {
    if commitHead == 0 then 0 else commitHead - 1
  }

  // ----- One frame, phase by phase -----

  /** Developer input and queued time changes; afterwards `clock` is the frame being built. */
  function BeginFrame(w: World, debug: Debug): World {
    var a := w.(headClock := w.clock);
    var b := if a.headClock <= a.replayEnd then a else a.(replayEnd := 0);
    var c := if debug.replay.Some? && b.headClock > b.replayEnd
      then b.(replayEnd := b.clock, headClock := b.clock - FRAME * debug.replay.value, replayTriggered := true)
      else b;
    var d := if debug.load.Some?
      then c.(window := debug.load.value.window, clock := KMAX, headClock := debug.load.value.time)
      else c;
    var e := if debug.reset then d.(clock := KMAX, headClock := 0) else d;
    if e.headClock >= e.clock then e
    else
      var now := e.headClock + FRAME;
      if e.replayTriggered then e.(replayTriggered := false, clock := now, headClock := now)
      else e.(streams := RewindStreams(e.streams, e.headClock), clock := now, headClock := now)
  }

  function RewindStreams(s: Streams, time: int): Streams {
    Streams(
      seq(|s.committed|, i requires 0 <= i < |s.committed| => RewindStream(s.committed[i], time)),
      seq(|s.uncommitted|, i requires 0 <= i < |s.uncommitted| => RewindStream(s.uncommitted[i], time)))
  }

  function ChooseMode(w: World): Plan {
    var previous, commitHead := w.clock - FRAME, MaxCommitHead(w.streams);
    if w.headClock <= w.replayEnd || commitHead >= w.clock then Plan(OnRailsReplay, commitHead, commitHead)
    else if w.streams.uncommitted == [] then Plan(SingleFrameSimulate, commitHead, previous)
    else
      var ready := MinHead(w.streams.uncommitted);
      var second := if ready == w.clock then previous else ready;
      if second > commitHead then Plan(RollbackAndSimulate, commitHead, second)
      else if commitHead == previous || previous - commitHead < MAX_ROLLBACK_FRAMES * FRAME
      then Plan(SingleFrameSimulate, commitHead, second)
      else Plan(StallSimulation, commitHead, second)
  }

  /** Commit what is ready, then move the local streams to the start of this frame. */
  function PreCommit(cfg: Config, w: World, plan: Plan): World {
    var s := Commit(w.streams, plan.first, plan.second);
    w.(streams := if plan.mode.OnRailsReplay? then s else AdvanceLocal(cfg, s, plan.second + FRAME, w.clock))
  }

  /** Re-simulate every frame from the start of the commit range up to, not including, this one. */
  function Rollback(cfg: Config, w: World, plan: Plan): World {
    if !plan.mode.RollbackAndSimulate? then w
    else
      var rewound := RewindAll(w.window, RewindPoint(plan.first));
      w.(window := Resimulate(cfg, rewound, Known(w.streams), plan.first, w.clock))
  }

  function TickFrame(cfg: Config, w: World, plan: Plan, typed: seq<seq<int>>): World {
    var s := if plan.mode.OnRailsReplay? then w.streams else TickLocal(cfg, w.streams, typed, w.clock);
    w.(
      streams := if plan.mode.OnRailsReplay? then s else AdvanceLocal(cfg, s, plan.second + FRAME, w.clock),
      window := Tick(cfg, w.window, Inputs(Known(s), w.clock), w.clock))
  }

  function PostCommit(cfg: Config, w: World, plan: Plan): World {
    if w.streams.committed == [] then w
    else
      var first, second := MaxCommitHead(w.streams), MinHead(w.streams.uncommitted);
      var s := Commit(w.streams, first, second);
      w.(streams := if plan.mode.OnRailsReplay? then s else AdvanceLocal(cfg, s, second, w.clock))
  }

  /** Session input for the next frame, and the undoing of a stalled frame. */
  function EndFrame(w: World, plan: Plan, late: seq<Arrival>): World {
    var s := if plan.mode.OnRailsReplay? then w.streams else DeliverAll(w.streams, late);
    var e := w.(streams := s, lastMode := plan.mode);
    if plan.mode.StallSimulation?
    then e.(clock := w.clock - FRAME, headClock := w.clock - FRAME, window := RewindAll(w.window, w.clock - FRAME))
    else e
  }

  function Frame(cfg: Config, w: World, input: FrameInput): World {
    var b := BeginFrame(w, input.debug);
    var c := b.(streams := DeliverAll(b.streams, input.early));
    var plan := ChooseMode(c);
    var r := Rollback(cfg, PreCommit(cfg, c, plan), plan);
    EndFrame(PostCommit(cfg, TickFrame(cfg, r, plan, input.typed), plan), plan, input.late)
  }

  /** The plan that `Frame` follows. */
  function PlanOf(w: World, input: FrameInput): Plan {
    var b := BeginFrame(w, input.debug);
    ChooseMode(b.(streams := DeliverAll(b.streams, input.early)))
  }

  /** The main loop adds one frame to the clock before every ProcessFrame. */
  function NextEntry(w: World): World {
    w.(clock := w.clock + FRAME)
  }

  /** The driver with its static state as fields. */
  class Driver {
    const cfg: Config
    var clock: int
    var headClock: int
    var streams: Streams
    var window: seq<StateStream>
    var lastMode: SimulationMode
    var replayEnd: int
    var replayTriggered: bool

    constructor (cfg: Config, w: World)
      ensures this.cfg == cfg && View() == w
    {
      this.cfg := cfg;
      clock, headClock, streams, window := w.clock, w.headClock, w.streams, w.window;
      lastMode, replayEnd, replayTriggered := w.lastMode, w.replayEnd, w.replayTriggered;
    }

    function View(): World
      reads this
    {
      World(clock, headClock, streams, window, lastMode, replayEnd, replayTriggered)
    }

    method AddTime()
      modifies this
      ensures View() == NextEntry(old(View()))
    {
      clock := clock + FRAME;
    }

    /** Changes to time: replay requests, snapshot loads and hard resets. */
    method HandleTimeChanges(debug: Debug)
      modifies this
      ensures View() == BeginFrame(old(View()), debug)
    {
      headClock := clock;
      if !(headClock <= replayEnd) {
        replayEnd := 0;
      }
      if debug.replay.Some? && headClock > replayEnd {
        replayEnd := clock;
        headClock := clock - FRAME * debug.replay.value;
        replayTriggered := true;
      }
      if debug.load.Some? {
        window := debug.load.value.window;
        clock := KMAX;
        headClock := debug.load.value.time;
      }
      if debug.reset {
        clock := KMAX;
        headClock := 0;
      }
      if headClock < clock {
        if replayTriggered {
          replayTriggered := false;
        } else {
          streams := RewindStreams(streams, headClock);
        }
        clock := headClock + FRAME;
        headClock := clock;
      }
    }

    /** Tick every frame of [from, trueFrame), in order, and come back to the true frame. */
    method ResimulateFrom(from: int, trueFrame: int)
      requires from < trueFrame && (trueFrame - from) % FRAME == 0
      modifies this
      ensures View() == old(View()).(
        clock := trueFrame,
        window := Resimulate(cfg, old(window), Known(old(streams)), from, trueFrame))
    {
      ghost var before := View();
      var log := Known(streams);
      var time := from;
      while time < trueFrame
        invariant time <= trueFrame && (trueFrame - time) % FRAME == 0
        invariant View() == before.(clock := clock, window := window)
        invariant Resimulate(cfg, window, log, time, trueFrame) == Resimulate(cfg, before.window, log, from, trueFrame)
        decreases trueFrame - time
      {
        clock := time;
        window := Tick(cfg, window, Inputs(log, clock), clock);
        assert trueFrame - time >= FRAME;
        time := time + FRAME;
      }
      assert time == trueFrame;
      clock := trueFrame;
    }

    /** Figure out what type of simulation this frame needs, and what it commits first. */
    method SelectMode() returns (plan: Plan)
      ensures plan == ChooseMode(View())
    {
      var previousFrame := clock - FRAME;
      var commitHead := MaxCommitHead(streams);
      var mode, second := Invalid, commitHead;
      if headClock <= replayEnd {
        mode := OnRailsReplay;
      } else if commitHead >= clock {
        mode := OnRailsReplay;
      } else if streams.uncommitted == [] {
        mode := SingleFrameSimulate;
        second := previousFrame;
      } else {
        second := MinHead(streams.uncommitted);
        if second == clock {
          second := previousFrame;
        }
        if second <= commitHead {
          if commitHead == previousFrame {
            mode := SingleFrameSimulate;
          } else if previousFrame - commitHead < MAX_ROLLBACK_FRAMES * FRAME {
            mode := SingleFrameSimulate;
          } else {
            mode := StallSimulation;
          }
        } else {
          mode := RollbackAndSimulate;
        }
      }
      plan := Plan(mode, commitHead, second);
    }

    method CommitAndRollback(plan: Plan)
      requires plan.mode.RollbackAndSimulate? ==> plan.first < clock && (clock - plan.first) % FRAME == 0
      modifies this
      ensures View() == Rollback(cfg, PreCommit(cfg, old(View()), plan), plan)
    {
      streams := Commit(streams, plan.first, plan.second);
      if plan.mode != OnRailsReplay {
        streams := AdvanceLocal(cfg, streams, plan.second + FRAME, clock);
      }
      if plan.mode == RollbackAndSimulate {
        window := RewindAll(window, RewindPoint(plan.first));
        ResimulateFrom(plan.first, clock);
      }
    }

    method TickTrueFrame(plan: Plan, typed: seq<seq<int>>)
      modifies this
      ensures View() == TickFrame(cfg, old(View()), plan, typed)
    {
      if plan.mode != OnRailsReplay {
        streams := TickLocal(cfg, streams, typed, clock);
      }
      window := Tick(cfg, window, Inputs(Known(streams), clock), clock);
      if plan.mode != OnRailsReplay {
        streams := AdvanceLocal(cfg, streams, plan.second + FRAME, clock);
      }
    }

    method CommitAfterTick(plan: Plan)
      modifies this
      ensures View() == PostCommit(cfg, old(View()), plan)
    {
      if streams.committed != [] {
        var first, second := MaxCommitHead(streams), MinHead(streams.uncommitted);
        streams := Commit(streams, first, second);
        if plan.mode != OnRailsReplay {
          streams := AdvanceLocal(cfg, streams, second, clock);
        }
      }
    }

    method FinishFrame(plan: Plan, late: seq<Arrival>)
      modifies this
      ensures View() == EndFrame(old(View()), plan, late)
    {
      if plan.mode != OnRailsReplay {
        streams := DeliverAll(streams, late);
      }
      if plan.mode == StallSimulation {
        var previousFrame := clock - FRAME;
        clock := previousFrame;
        headClock := previousFrame;
        window := RewindAll(window, previousFrame);
      }
      lastMode := plan.mode;
    }

    /** The entry checks are fatal; a rollback relies on frame-aligned times to end on the true frame. */
    method ProcessFrame(input: FrameInput)
      requires headClock == clock - FRAME
      requires var plan := PlanOf(View(), input);
        plan.mode.RollbackAndSimulate? ==> (BeginFrame(View(), input.debug).clock - plan.first) % FRAME == 0
      modifies this
      ensures View() == Frame(cfg, old(View()), input)
    {
      HandleTimeChanges(input.debug);
      streams := DeliverAll(streams, input.early);
      var plan := SelectMode();
      CommitAndRollback(plan);
      TickTrueFrame(plan, input.typed);
      CommitAfterTick(plan);
      FinishFrame(plan, input.late);
    }
  }
}
