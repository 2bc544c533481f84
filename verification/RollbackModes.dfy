/** The driver outside of a session's ordinary frames: before there are input streams, during an instant
    replay, and when a snapshot is loaded or time is reset. */
module RollbackModes {
  import opened Wrappers
  import opened StateStreams
  import opened InputStreams
  import opened FrameDriver
  import opened RollbackSteps
  import opened RollbackStreams
  import opened RollbackTheorems

  /** So many frames from `first` on. */
  function FramesFrom(first: int, count: nat): (frames: seq<int>)
    ensures |frames| == count && forall k :: 0 <= k < count ==> frames[k] == first + k * FRAME
  {
    if count == 0 then [] else FramesFrom(first, count - 1) + [first + (count - 1) * FRAME]
  }

  // ----- Before there are input streams -----

  /** The entry of a frame without any input streams, where nothing else is going on. */
  predicate Inert(w: World) {
    && w.streams == Streams([], []) && w.headClock == w.clock - FRAME && 0 < w.clock
    && w.replayEnd == 0 && !w.replayTriggered
  }

  lemma {:induction false} NothingArrives(arrivals: seq<Arrival>)
    ensures DeliverAll(Streams([], []), arrivals) == Streams([], [])
  {
    if arrivals != [] {
      NothingArrives(arrivals[..|arrivals| - 1]);
    }
  }

  lemma EmptyStays(cfg: Config, first: int, second: int, typed: seq<seq<int>>)
    ensures Commit(Streams([], []), first, second) == Streams([], [])
    ensures AdvanceLocal(cfg, Streams([], []), first, second) == Streams([], [])
    ensures TickLocal(cfg, Streams([], []), typed, second) == Streams([], [])
    ensures Inputs(Known(Streams([], [])), second) == []
  {
  }

  lemma InertPlan(c: World)
    requires c.streams == Streams([], []) && c.headClock == c.clock > 0 && c.replayEnd == 0
    ensures ChooseMode(c) == Plan(SingleFrameSimulate, 0, c.clock - FRAME)
  {
  }

  lemma InertTick(cfg: Config, c: World, typed: seq<seq<int>>)
    requires c.streams == Streams([], []) && c.headClock == c.clock > 0 && c.replayEnd == 0
    ensures var plan := ChooseMode(c);
      PostCommit(cfg, TickFrame(cfg, Prepared(cfg, c), plan, typed), plan)
      == c.(window := Tick(cfg, c.window, [], c.clock))
  {
    InertPlan(c);
    EmptyStays(cfg, 0, c.clock - FRAME, typed);
    EmptyStays(cfg, c.clock, c.clock, typed);
    assert Prepared(cfg, c) == c;
  }

  /** It ticks its one frame, without input, and moves on. */
  lemma InertFrame(cfg: Config, w: World, input: FrameInput)
    requires Inert(w) && input.debug == NO_DEBUG
    ensures var w' := NextEntry(Frame(cfg, w, input));
      && Inert(w') && w'.clock == w.clock + FRAME && w'.lastMode == SingleFrameSimulate
      && w'.window == Tick(cfg, w.window, [], w.clock)
  {
    var c := w.(headClock := w.clock);
    NothingArrives(input.early);
    NothingArrives(input.late);
    assert BeginFrame(w, NO_DEBUG) == c;
    InertPlan(c);
    InertTick(cfg, c, input.typed);
  }

  lemma TickOneMore(cfg: Config, window: seq<StateStream>, log: seq<seq<Event>>, first: int, count: nat)
    requires count > 0
    ensures TickEach(cfg, window, log, FramesFrom(first, count)) ==
      var last := first + (count - 1) * FRAME;
      Tick(cfg, TickEach(cfg, window, log, FramesFrom(first, count - 1)), Inputs(log, last), last)
  {
    var frames := FramesFrom(first, count);
    assert frames[..|frames| - 1] == FramesFrom(first, count - 1);
  }

  /** What has come of so many frames without streams. */
  ghost predicate TickedFreely(cfg: Config, w: World, w': World, frames: nat) {
    && Inert(w') && w'.clock == w.clock + frames * FRAME
    && w'.window == TickEach(cfg, w.window, [], FramesFrom(w.clock, frames))
  }

  lemma FreelyOneMore(cfg: Config, w: World, m: World, frames: nat, input: FrameInput)
    requires TickedFreely(cfg, w, m, frames) && input.debug == NO_DEBUG
    ensures TickedFreely(cfg, w, NextEntry(Frame(cfg, m, input)), frames + 1)
  {
    InertFrame(cfg, m, input);
    NoInputTick(cfg, w.window, w.clock, frames + 1);
  }

  /** So that the application starts up with a tick a frame, until there are streams. */
  lemma {:induction false} InertRun(cfg: Config, w: World, inputs: seq<FrameInput>)
    requires Inert(w) && forall k :: 0 <= k < |inputs| ==> inputs[k].debug == NO_DEBUG
    ensures TickedFreely(cfg, w, Run(cfg, w, inputs), |inputs|)
  {
    if inputs != [] {
      var rest := inputs[..|inputs| - 1];
      InertRun(cfg, w, rest);
      FreelyOneMore(cfg, w, Run(cfg, w, rest), |rest|, inputs[|inputs| - 1]);
    }
  }

  lemma NoInputTick(cfg: Config, window: seq<StateStream>, first: int, count: nat)
    requires count > 0
    ensures TickEach(cfg, window, [], FramesFrom(first, count)) ==
      var last := first + (count - 1) * FRAME;
      Tick(cfg, TickEach(cfg, window, [], FramesFrom(first, count - 1)), [], last)
  {
    TickOneMore(cfg, window, [], first, count);
    assert Inputs([], first + (count - 1) * FRAME) == [];
  }

  // ----- Instant replay -----

  /** The entry of a frame while a replay is on, up to and including the frame that asked for it. */
  ghost predicate OnRails(cfg: Config, w: World) {
    && w.headClock == w.clock - FRAME && w.clock <= w.replayEnd && !w.replayTriggered
    && StreamsOk(cfg, w.streams, MaxCommitHead(w.streams))
  }

  /** No time changes but replay requests, which are ignored, and no arrival that amends a replayed frame. */
  ghost predicate Replays(cfg: Config, w: World, input: FrameInput, end: int) {
    && input.debug.load.None? && !input.debug.reset
    && ArrivalsOk(cfg, w.streams, input.early, Later(MaxCommitHead(w.streams), end))
  }

  function Later(a: int, b: int): int {
    if a < b then b else a
  }

  /** Both commits of a replayed frame leave all input as it is. */
  lemma RailsCommits(cfg: Config, c: World, plan: Plan, typed: seq<seq<int>>)
    requires StreamsOk(cfg, c.streams, MaxCommitHead(c.streams))
    requires plan == Plan(OnRailsReplay, MaxCommitHead(c.streams), MaxCommitHead(c.streams))
    ensures var r := PreCommit(cfg, c, plan);
      var q := PostCommit(cfg, TickFrame(cfg, r, plan, typed), plan);
      && q == c.(streams := q.streams, window := Tick(cfg, c.window, Inputs(Known(r.streams), c.clock), c.clock))
      && StreamsOk(cfg, q.streams, MaxCommitHead(q.streams))
      && (forall t :: SameInput(c.streams, r.streams, t)) && (forall t :: SameInput(c.streams, q.streams, t))
  {
    var head := MaxCommitHead(c.streams);
    forall i | 0 <= i < |c.streams.uncommitted| ensures head <= c.streams.uncommitted[i].head {
      assert UncommittedOk(c.streams.uncommitted[i], head);
    }
    CommitKeeps(cfg, c.streams, head, head);
    var s := Commit(c.streams, head, head);
    MinHeadFacts(cfg, s, head);
    CommitKeeps(cfg, s, head, MinHead(s.uncommitted));
    var s' := Commit(s, head, MinHead(s.uncommitted));
    forall t ensures SameInput(c.streams, s', t) {
      assert SameInput(c.streams, s, t) && SameInput(s, s', t);
    }
  }

  lemma RailsBegin(cfg: Config, w: World, input: FrameInput)
    requires OnRails(cfg, w) && Replays(cfg, w, input, w.replayEnd)
    ensures var c := w.(headClock := w.clock, streams := DeliverAll(w.streams, input.early));
      && BeginFrame(w, input.debug) == w.(headClock := w.clock)
      && StreamsOk(cfg, c.streams, MaxCommitHead(c.streams))
      && ChooseMode(c) == Plan(OnRailsReplay, MaxCommitHead(c.streams), MaxCommitHead(c.streams))
      && (forall t :: t <= w.replayEnd ==> SameInput(w.streams, c.streams, t))
  {
    DeliverKeeps(
      cfg, w.streams, MaxCommitHead(w.streams), input.early, Later(MaxCommitHead(w.streams), w.replayEnd));
  }

  /** A replayed frame ticks with the input that it had; what is typed or comes late is not taken. */
  lemma RailsFrame(cfg: Config, w: World, input: FrameInput)
    requires OnRails(cfg, w) && Replays(cfg, w, input, w.replayEnd)
    ensures var w' := NextEntry(Frame(cfg, w, input));
      && w'.clock == w.clock + FRAME && w'.headClock == w.clock && w'.replayEnd == w.replayEnd
      && !w'.replayTriggered && w'.lastMode == OnRailsReplay
      && StreamsOk(cfg, w'.streams, MaxCommitHead(w'.streams))
      && (forall t :: t <= w.replayEnd ==> SameInput(w.streams, w'.streams, t))
      && w'.window == Tick(cfg, w.window, Inputs(Known(w.streams), w.clock), w.clock)
  {
    var c := w.(headClock := w.clock, streams := DeliverAll(w.streams, input.early));
    var plan := ChooseMode(c);
    RailsBegin(cfg, w, input);
    RailsCommits(cfg, c, plan, input.typed);
    var r := PreCommit(cfg, c, plan);
    var q := PostCommit(cfg, TickFrame(cfg, r, plan, input.typed), plan);
    assert SameInput(w.streams, c.streams, w.clock) && SameInput(c.streams, r.streams, w.clock);
    forall t | t <= w.replayEnd ensures SameInput(w.streams, q.streams, t) {
      assert SameInput(w.streams, c.streams, t) && SameInput(c.streams, q.streams, t);
    }
    assert Frame(cfg, w, input) == q.(lastMode := OnRailsReplay);
  }

  ghost predicate RailsOk(cfg: Config, w: World, inputs: seq<FrameInput>, end: int) {
    inputs != [] ==>
      var rest := inputs[..|inputs| - 1];
      RailsOk(cfg, w, rest, end) && Replays(cfg, Run(cfg, w, rest), inputs[|inputs| - 1], end)
  }

  /** What a replay has come to after so many frames. */
  ghost predicate Replayed(cfg: Config, w: World, w': World, frames: nat) {
    && w'.clock == w.clock + frames * FRAME && w'.headClock == w'.clock - FRAME && w'.replayEnd == w.replayEnd
    && !w'.replayTriggered && StreamsOk(cfg, w'.streams, MaxCommitHead(w'.streams))
    && (forall t :: t <= w.replayEnd ==> SameInput(w.streams, w'.streams, t))
    && w'.window == TickEach(cfg, w.window, Known(w.streams), FramesFrom(w.clock, frames))
  }

  lemma ReplayedOneMore(cfg: Config, w: World, m: World, frames: nat, input: FrameInput)
    requires Replayed(cfg, w, m, frames) && m.clock <= w.replayEnd && Replays(cfg, m, input, w.replayEnd)
    ensures Replayed(cfg, w, NextEntry(Frame(cfg, m, input)), frames + 1)
  {
    var w' := NextEntry(Frame(cfg, m, input));
    RailsFrame(cfg, m, input);
    TickOneMore(cfg, w.window, Known(w.streams), w.clock, frames + 1);
    assert SameInput(w.streams, m.streams, m.clock);
    forall t | t <= w.replayEnd ensures SameInput(w.streams, w'.streams, t) {
      assert SameInput(w.streams, m.streams, t) && SameInput(m.streams, w'.streams, t);
    }
  }

  lemma {:induction false} RailsRun(cfg: Config, w: World, inputs: seq<FrameInput>)
    requires OnRails(cfg, w) && RailsOk(cfg, w, inputs, w.replayEnd)
    requires w.clock + |inputs| * FRAME <= w.replayEnd + FRAME
    ensures Replayed(cfg, w, Run(cfg, w, inputs), |inputs|)
  {
    if inputs != [] {
      var rest := inputs[..|inputs| - 1];
      RailsRun(cfg, w, rest);
      ReplayedOneMore(cfg, w, Run(cfg, w, rest), |rest|, inputs[|inputs| - 1]);
    } else {
      assert TickEach(cfg, w.window, Known(w.streams), FramesFrom(w.clock, 0)) == w.window;
    }
  }

  /** A request takes the clock back by so many frames, and nothing else. */
  function AsReplay(w: World, frames: nat): World {
    w.(clock := w.clock - frames * FRAME + FRAME, headClock := w.clock - frames * FRAME, replayEnd := w.clock)
  }

  lemma ReplayBegins(cfg: Config, w: World, frames: nat, input: FrameInput)
    requires w.replayEnd < w.clock && 0 < w.clock && !w.replayTriggered && frames > 0
    requires input.debug == Debug(Some(frames), None, false)
    ensures Frame(cfg, w, input) == Frame(cfg, AsReplay(w, frames), input.(debug := NO_DEBUG))
  {
    assert BeginFrame(w, input.debug) == BeginFrame(AsReplay(w, frames), NO_DEBUG);
  }

  lemma FirstAndRest(first: FrameInput, inputs: seq<FrameInput>)
    requires inputs != []
    ensures var all := [first] + inputs;
      all[..|all| - 1] == [first] + inputs[..|inputs| - 1] && all[|all| - 1] == inputs[|inputs| - 1]
  {
  }

  lemma {:induction false} RunFirst(cfg: Config, w: World, first: FrameInput, inputs: seq<FrameInput>)
    ensures Run(cfg, w, [first] + inputs) == Run(cfg, NextEntry(Frame(cfg, w, first)), inputs)
  {
    if inputs == [] {
      assert [first] + inputs == [first] && [first][..0] == [];
      assert Run(cfg, w, []) == w;
    } else {
      RunFirst(cfg, w, first, inputs[..|inputs| - 1]);
      FirstAndRest(first, inputs);
    }
  }

  lemma RailsOkOneMore(cfg: Config, w: World, inputs: seq<FrameInput>, rest: seq<FrameInput>, end: int)
    requires inputs != [] && rest == inputs[..|inputs| - 1]
    requires RailsOk(cfg, w, rest, end) && Replays(cfg, Run(cfg, w, rest), inputs[|inputs| - 1], end)
    ensures RailsOk(cfg, w, inputs, end)
  {
  }

  lemma {:induction false} RailsOkFirst(cfg: Config, w: World, first: FrameInput, inputs: seq<FrameInput>, end: int)
    requires Replays(cfg, w, first, end) && RailsOk(cfg, NextEntry(Frame(cfg, w, first)), inputs, end)
    ensures RailsOk(cfg, w, [first] + inputs, end)
  {
    if inputs == [] {
      assert [first] + inputs == [first] && [first][..0] == [];
      assert Run(cfg, w, []) == w;
      RailsOkOneMore(cfg, w, [first], [], end);
    } else {
      var most := inputs[..|inputs| - 1];
      RailsOkFirst(cfg, w, first, most, end);
      RunFirst(cfg, w, first, most);
      FirstAndRest(first, inputs);
      RailsOkOneMore(cfg, w, [first] + inputs, [first] + most, end);
    }
  }

  lemma ReplayRuns(cfg: Config, w: World, first: FrameInput, inputs: seq<FrameInput>)
    requires w.replayEnd < w.clock && 0 < w.clock && !w.replayTriggered
    requires first.debug == Debug(Some(|inputs| + 1), None, false)
    ensures var w0, quiet := AsReplay(w, |inputs| + 1), first.(debug := NO_DEBUG);
      && NextEntry(Frame(cfg, w0, quiet)) == NextEntry(Frame(cfg, w, first))
      && Run(cfg, w0, [quiet] + inputs) == Run(cfg, w, [first] + inputs)
  {
    ReplayBegins(cfg, w, |inputs| + 1, first);
    RunFirst(cfg, w, first, inputs);
    RunFirst(cfg, AsReplay(w, |inputs| + 1), first.(debug := NO_DEBUG), inputs);
  }

  lemma AsReplayIsReplayed(cfg: Config, w: World, quiet: FrameInput, inputs: seq<FrameInput>)
    requires StreamsOk(cfg, w.streams, MaxCommitHead(w.streams)) && !w.replayTriggered && quiet.debug == NO_DEBUG
    requires ArrivalsOk(cfg, w.streams, quiet.early, Later(MaxCommitHead(w.streams), w.clock))
    requires RailsOk(cfg, NextEntry(Frame(cfg, AsReplay(w, |inputs| + 1), quiet)), inputs, w.clock)
    ensures var w0 := AsReplay(w, |inputs| + 1); Replayed(cfg, w0, Run(cfg, w0, [quiet] + inputs), |inputs| + 1)
  {
    var w0 := AsReplay(w, |inputs| + 1);
    RailsOkFirst(cfg, w0, quiet, inputs, w.clock);
    RailsRun(cfg, w0, [quiet] + inputs);
  }

  /** The world after a replay that was asked for in this one. */
  ghost predicate ReplayIsOver(cfg: Config, w: World, w': World, frames: nat) {
    && w'.clock == w.clock + FRAME && w'.headClock == w.clock && w'.replayEnd < w'.clock
    && (forall t :: t <= w.clock ==> SameInput(w.streams, w'.streams, t))
    && w'.window == TickEach(cfg, w.window, Known(w.streams), FramesFrom(w.clock - (frames - 1) * FRAME, frames))
  }

  lemma ReplayedIsOver(cfg: Config, w: World, w': World, frames: nat)
    requires frames > 0 && Replayed(cfg, AsReplay(w, frames), w', frames)
    ensures ReplayIsOver(cfg, w, w', frames)
  {
    assert w.clock - frames * FRAME + FRAME == w.clock - (frames - 1) * FRAME;
  }

  /** An instant replay of n frames ticks the last n frames again, each once, in order, with all the input
      that is known for them, the frame that asked for it last. It loses no input, takes none, and when it
      is over the clock is where it would have been. */
  lemma InstantReplay(cfg: Config, w: World, first: FrameInput, inputs: seq<FrameInput>)
    requires w.headClock == w.clock - FRAME && w.replayEnd < w.clock && 0 < w.clock && !w.replayTriggered
    requires StreamsOk(cfg, w.streams, MaxCommitHead(w.streams))
    requires first.debug == Debug(Some(|inputs| + 1), None, false)
    requires ArrivalsOk(cfg, w.streams, first.early, Later(MaxCommitHead(w.streams), w.clock))
    requires RailsOk(cfg, NextEntry(Frame(cfg, w, first)), inputs, w.clock)
    ensures ReplayIsOver(cfg, w, Run(cfg, w, [first] + inputs), |inputs| + 1)
  {
    var quiet := first.(debug := NO_DEBUG);
    ReplayRuns(cfg, w, first, inputs);
    AsReplayIsReplayed(cfg, w, quiet, inputs);
    ReplayedIsOver(cfg, w, Run(cfg, w, [first] + inputs), |inputs| + 1);
  }

  // ----- Loading a snapshot and resetting time -----

  lemma {:induction false} UntilKeeps(events: seq<Event>, end: int, time: int)
    requires Ordered(events)
    ensures InputAt(Until(events, end), time) == if time < end then InputAt(events, time) else []
  {
    if events != [] && events[0].time < end {
      assert ([events[0]] + Until(events[1..], end))[1..] == Until(events[1..], end);
      UntilKeeps(events[1..], end, time);
    } else {
      forall e | e in events ensures end <= e.time {
        LaterThanFirst(events, e);
      }
      if time < end {
        NoInputOutside(events, time);
      }
    }
  }

  /** A stream is rewound by forgetting its input from that time on, if it was written any further. */
  lemma RewindKeepsPast(s: InputStream, end: int, time: int)
    requires Ordered(s.events)
    ensures var s' := RewindStream(s, end);
      && (s.events != [] ==> s'.events != [])
      && s'.head == (if s.head <= end then s.head else end)
      && InputAt(s'.events, time) == if time < end || s.head <= end then InputAt(s.events, time) else []
  {
    UntilKeeps(s.events, end, time);
    if s.head > end && s.events != [] && end <= s.events[0].time {
      forall e | e in s.events ensures end <= e.time {
        LaterThanFirst(s.events, e);
      }
      if time < end {
        NoInputOutside(s.events, time);
      }
    }
  }

  ghost predicate AllOrdered(s: Streams) {
    && (forall i :: 0 <= i < |s.committed| ==> Ordered(s.committed[i].events))
    && (forall i :: 0 <= i < |s.uncommitted| ==> Ordered(s.uncommitted[i].events))
  }

  /** What is left of a stream's input, frame by frame. */
  ghost predicate ForgetsFrom(before: InputStream, after: InputStream, end: int) {
    && after.head == (if before.head <= end then before.head else end)
    && forall t :: InputAt(after.events, t) == if t < end || before.head <= end then InputAt(before.events, t) else []
  }

  ghost predicate AllForgetFrom(before: Streams, after: Streams, end: int) {
    && |after.committed| == |before.committed| && |after.uncommitted| == |before.uncommitted|
    && (forall i :: 0 <= i < |before.committed| ==> ForgetsFrom(before.committed[i], after.committed[i], end))
    && (forall i :: 0 <= i < |before.uncommitted| ==> ForgetsFrom(before.uncommitted[i], after.uncommitted[i], end))
  }

  lemma RewindForgets(s: Streams, end: int)
    requires AllOrdered(s)
    ensures AllForgetFrom(s, RewindStreams(s, end), end)
  {
    forall i | 0 <= i < |s.committed| ensures ForgetsFrom(s.committed[i], RewindStream(s.committed[i], end), end) {
      forall t {
        RewindKeepsPast(s.committed[i], end, t);
      }
    }
    forall i | 0 <= i < |s.uncommitted|
      ensures ForgetsFrom(s.uncommitted[i], RewindStream(s.uncommitted[i], end), end)
    {
      forall t {
        RewindKeepsPast(s.uncommitted[i], end, t);
      }
    }
  }

  /** Loading a snapshot restores its window, goes on with the frame after it, and forgets the input from
      the snapshot's time on. A replay that is over is not taken up again. */
  lemma LoadRestores(w: World, snapshot: Snapshot)
    requires AllOrdered(w.streams) && !w.replayTriggered && snapshot.time < KMAX
    ensures var b := BeginFrame(w, Debug(None, Some(snapshot), false));
      && b.window == snapshot.window && b.clock == b.headClock == snapshot.time + FRAME
      && AllForgetFrom(w.streams, b.streams, snapshot.time)
      && b.replayEnd == if w.replayEnd < w.clock then 0 else w.replayEnd
  {
    RewindForgets(w.streams, snapshot.time);
  }

  /** A hard reset keeps the window, forgets all input, and goes on with frame one. */
  lemma ResetRestarts(w: World)
    requires AllOrdered(w.streams) && !w.replayTriggered
    ensures var b := BeginFrame(w, Debug(None, None, true));
      && b.window == w.window && b.clock == b.headClock == FRAME && AllForgetFrom(w.streams, b.streams, 0)
      && b.replayEnd == if w.replayEnd < w.clock then 0 else w.replayEnd
  {
    RewindForgets(w.streams, 0);
  }
}
