/** Where input comes from: after any frame the known input is what it was, what has arrived, and what was
    typed, each for its own frame and in order. */
module RollbackInput {
  import opened StateStreams
  import opened InputStreams
  import opened FrameDriver
  import opened RollbackSteps
  import opened RollbackStreams
  import opened RollbackTheorems

  /** What one stream reports for one frame. */
  function Reports(s: Streams, i: nat, time: int): seq<int>
    requires i < |s.committed| == |s.uncommitted|
  {
    InputAt(s.committed[i].events, time) + InputAt(s.uncommitted[i].events, time)
  }

  lemma KnownInput(s: Streams, i: nat, time: int)
    requires i < |s.committed| == |s.uncommitted|
    ensures i < |Inputs(Known(s), time)| && Inputs(Known(s), time)[i] == Reports(s, i, time)
  {
    InputAtConcat(s.committed[i].events, s.uncommitted[i].events, time);
  }

  lemma SameReports(s: Streams, s': Streams, i: nat, time: int)
    requires i < |s.committed| == |s.uncommitted| == |s'.committed| == |s'.uncommitted| && SameInput(s, s', time)
    ensures Reports(s', i, time) == Reports(s, i, time)
  {
    KnownInput(s, i, time);
    KnownInput(s', i, time);
  }

  // ----- Local input -----

  /** Local input for one stream holds real values only, as game commands do. */
  predicate RealInput(typed: seq<seq<int>>) {
    forall i :: 0 <= i < |typed| ==> NO_INPUT !in typed[i]
  }

  /** What is typed now on stream i for frame `time`: everything is for the frame that its delay leads to. */
  function TypedFor(cfg: Config, typed: seq<seq<int>>, now: int, i: nat, time: int): seq<int>
    requires i < |cfg.sources|
  {
    if cfg.sources[i].Local? && i < |typed| && time == now + cfg.sources[i].delay then typed[i] else []
  }

  lemma {:induction false} TypedEvents(values: seq<int>, at: int, time: int)
    requires NO_INPUT !in values
    ensures InputAt(Typed(values, at), time) == if time == at then values else []
  {
    if values != [] {
      assert Typed(values, at)[1..] == Typed(values[1..], at);
      TypedEvents(values[1..], at, time);
    }
  }

  /** Typed input lands on its own stream, for its own frame, behind what is there. */
  lemma TypedInputLands(cfg: Config, s: Streams, typed: seq<seq<int>>, now: int, i: nat, time: int)
    requires i < |s.uncommitted| == |cfg.sources| && RealInput(typed)
    ensures InputAt(TickLocal(cfg, s, typed, now).uncommitted[i].events, time)
         == InputAt(s.uncommitted[i].events, time) + TypedFor(cfg, typed, now, i, time)
  {
    if cfg.sources[i].Local? && i < |typed| && typed[i] != [] {
      var at := now + cfg.sources[i].delay;
      TypedEvents(typed[i], at, time);
      InputAtConcat(s.uncommitted[i].events, Typed(typed[i], at), time);
    }
  }

  // ----- Remote input -----

  /** The stream exists, and neither it nor what is committed of it has gone past this time. */
  predicate InTime(s: Streams, a: Arrival) {
    && a.stream < |s.uncommitted| && a.stream < |s.committed|
    && a.time >= s.uncommitted[a.stream].head && a.time >= s.committed[a.stream].head
  }

  /** An arrival in time is taken: its stream is written up to it, and its value is that frame's input.
      Everything else stays as it is, and an arrival that is late changes nothing. */
  lemma ArrivalLands(s: Streams, a: Arrival, i: nat, time: int)
    requires i < |s.uncommitted|
    ensures var s' := Deliver(s, a);
      && s'.committed == s.committed && |s'.uncommitted| == |s.uncommitted| && (!InTime(s, a) ==> s' == s)
      && s'.uncommitted[i].head == (if InTime(s, a) && i == a.stream then a.time else s.uncommitted[i].head)
      && InputAt(s'.uncommitted[i].events, time) == InputAt(s.uncommitted[i].events, time) +
          if InTime(s, a) && i == a.stream && time == a.time && a.value != NO_INPUT then [a.value] else []
  {
    if InTime(s, a) {
      DeliverAdds(s, a, time);
    }
  }

  /** The values that a row of arrivals adds to one stream for one frame. */
  function Landed(s: Streams, arrivals: seq<Arrival>, i: nat, time: int): seq<int> {
    if arrivals == [] then []
    else
      var most, a := arrivals[..|arrivals| - 1], arrivals[|arrivals| - 1];
      Landed(s, most, i, time) +
      if InTime(DeliverAll(s, most), a) && i == a.stream && time == a.time && a.value != NO_INPUT then [a.value] else []
  }

  lemma {:induction false} ArrivalsLand(s: Streams, arrivals: seq<Arrival>, i: nat, time: int)
    requires i < |s.uncommitted|
    ensures var s' := DeliverAll(s, arrivals);
      && s'.committed == s.committed && |s'.uncommitted| == |s.uncommitted|
      && InputAt(s'.uncommitted[i].events, time)
          == InputAt(s.uncommitted[i].events, time) + Landed(s, arrivals, i, time)
  {
    if arrivals != [] {
      ArrivalsLand(s, arrivals[..|arrivals| - 1], i, time);
      ArrivalLands(DeliverAll(s, arrivals[..|arrivals| - 1]), arrivals[|arrivals| - 1], i, time);
    }
  }

  /** The values for one frame. */
  function ValuesFor(arrivals: seq<Arrival>, time: int): seq<int> {
    if arrivals == [] then []
    else
      var a := arrivals[|arrivals| - 1];
      ValuesFor(arrivals[..|arrivals| - 1], time) + if a.time == time && a.value != NO_INPUT then [a.value] else []
  }

  /** For one stream, in the order of their times, and none before its heads. */
  predicate InOrderFor(s: Streams, arrivals: seq<Arrival>, r: nat)
    requires r < |s.uncommitted| && r < |s.committed|
  {
    && (forall k :: 0 <= k < |arrivals| ==>
          && arrivals[k].stream == r
          && s.uncommitted[r].head <= arrivals[k].time && s.committed[r].head <= arrivals[k].time)
    && (forall j, k :: 0 <= j < k < |arrivals| ==> arrivals[j].time <= arrivals[k].time)
  }

  /** None of them is lost, any number for one frame among them. */
  lemma {:induction false} NoneIsLost(s: Streams, arrivals: seq<Arrival>, r: nat, time: int)
    requires r < |s.uncommitted| && r < |s.committed| && InOrderFor(s, arrivals, r)
    ensures Landed(s, arrivals, r, time) == ValuesFor(arrivals, time)
    ensures |DeliverAll(s, arrivals).uncommitted| == |s.uncommitted| && DeliverAll(s, arrivals).committed == s.committed
    ensures arrivals != [] ==> DeliverAll(s, arrivals).uncommitted[r].head == arrivals[|arrivals| - 1].time
  {
    if arrivals != [] {
      var most, a := arrivals[..|arrivals| - 1], arrivals[|arrivals| - 1];
      NoneIsLost(s, most, r, time);
      assert most == [] || most[|most| - 1] == arrivals[|most| - 1];
      ArrivalLands(DeliverAll(s, most), a, r, time);
    }
  }

  // ----- One frame -----

  /** What a frame adds to the input of stream i for frame `time`: what arrives early, what is typed, and
      what arrives late. A replay takes nothing but what arrives early. */
  function Added(cfg: Config, w: World, input: FrameInput, i: nat, time: int): seq<int>
    requires i < |cfg.sources|
  {
    var early := Landed(w.streams, input.early, i, time);
    if PlanOf(w, input).mode.OnRailsReplay? then early
    else
      early + TypedFor(cfg, input.typed, w.clock, i, time) + Landed(BeforeLate(cfg, w, input), input.late, i, time)
  }

  lemma ArrivalsReported(s: Streams, arrivals: seq<Arrival>, i: nat, time: int)
    requires i < |s.committed| == |s.uncommitted|
    ensures var s' := DeliverAll(s, arrivals);
      && |s'.committed| == |s'.uncommitted| == |s.committed|
      && Reports(s', i, time) == Reports(s, i, time) + Landed(s, arrivals, i, time)
  {
    ArrivalsLand(s, arrivals, i, time);
    Regroup(
      InputAt(s.committed[i].events, time), InputAt(s.uncommitted[i].events, time), Landed(s, arrivals, i, time));
  }

  lemma TypedReported(cfg: Config, s: Streams, typed: seq<seq<int>>, now: int, i: nat, time: int)
    requires i < |s.committed| == |s.uncommitted| == |cfg.sources| && RealInput(typed)
    ensures Reports(TickLocal(cfg, s, typed, now), i, time)
         == Reports(s, i, time) + TypedFor(cfg, typed, now, i, time)
  {
    TypedInputLands(cfg, s, typed, now, i, time);
    Regroup(
      InputAt(s.committed[i].events, time), InputAt(s.uncommitted[i].events, time),
      TypedFor(cfg, typed, now, i, time));
  }

  /** As many streams as there are sources. */
  predicate Complete(cfg: Config, s: Streams) {
    |s.committed| == |s.uncommitted| == |cfg.sources|
  }

  lemma TickReported(cfg: Config, r: World, plan: Plan, typed: seq<seq<int>>, i: nat, time: int)
    requires Ticking(cfg, r, plan) && i < |cfg.sources| && RealInput(typed)
    ensures var s' := Committed(cfg, r, plan, typed);
      && Complete(cfg, s') && Complete(cfg, r.streams)
      && Reports(s', i, time) == Reports(r.streams, i, time) +
          if plan.mode.OnRailsReplay? then [] else TypedFor(cfg, typed, r.clock, i, time)
  {
    AtTickKeeps(cfg, r, plan, typed);
    CommittedStreams(cfg, r, plan, typed);
    SameReports(AtTick(cfg, r, plan, typed), Committed(cfg, r, plan, typed), i, time);
    if !plan.mode.OnRailsReplay? {
      TypedReported(cfg, r.streams, typed, r.clock, i, time);
    }
  }

  lemma PreparedReported(cfg: Config, c: World, typed: seq<seq<int>>, i: nat, time: int)
    requires Choosing(cfg, c) && Ticking(cfg, Prepared(cfg, c), ChooseMode(c))
    requires i < |cfg.sources| && RealInput(typed)
    ensures var s' := Committed(cfg, Prepared(cfg, c), ChooseMode(c), typed);
      && Complete(cfg, s') && Complete(cfg, c.streams)
      && Reports(s', i, time) == Reports(c.streams, i, time) +
          if ChooseMode(c).mode.OnRailsReplay? then [] else TypedFor(cfg, typed, c.clock, i, time)
  {
    PreCommitStreams(cfg, c);
    PreparedClock(cfg, c);
    SameReports(c.streams, Prepared(cfg, c).streams, i, time);
    TickReported(cfg, Prepared(cfg, c), ChooseMode(c), typed, i, time);
  }

  lemma EntryStreamsAre(cfg: Config, w: World, input: FrameInput)
    requires AtEntry(cfg, w) && Honest(cfg, w, input) && NoOverrun(cfg, w, input)
    ensures var s := BeforeLate(cfg, w, input);
      NextEntry(Frame(cfg, w, input)).streams ==
        if PlanOf(w, input).mode.OnRailsReplay? then s else DeliverAll(s, input.late)
  {
    FrameStages(cfg, w, input);
  }

  lemma BeforeLateReported(cfg: Config, w: World, input: FrameInput, i: nat, time: int)
    requires AtEntry(cfg, w) && Honest(cfg, w, input) && NoOverrun(cfg, w, input)
    requires i < |cfg.sources| && RealInput(input.typed)
    ensures var s, s' := Arrived(w, input).streams, BeforeLate(cfg, w, input);
      && Complete(cfg, s) && Complete(cfg, s')
      && Reports(s', i, time) == Reports(s, i, time) +
          if PlanOf(w, input).mode.OnRailsReplay? then [] else TypedFor(cfg, input.typed, w.clock, i, time)
  {
    FrameStages(cfg, w, input);
    PreparedReported(cfg, Arrived(w, input), input.typed, i, time);
  }

  lemma FrameReported(cfg: Config, w: World, input: FrameInput, i: nat, time: int)
    requires AtEntry(cfg, w) && Honest(cfg, w, input) && NoOverrun(cfg, w, input)
    requires i < |cfg.sources| && RealInput(input.typed)
    ensures var s, s' := w.streams, NextEntry(Frame(cfg, w, input)).streams;
      && Complete(cfg, s) && Complete(cfg, s')
      && Reports(s', i, time) == Reports(s, i, time) + Added(cfg, w, input, i, time)
  {
    var s, before := w.streams, BeforeLate(cfg, w, input);
    var early, typed := Landed(s, input.early, i, time), TypedFor(cfg, input.typed, w.clock, i, time);
    EntryStreamsAre(cfg, w, input);
    ArrivalsReported(s, input.early, i, time);
    BeforeLateReported(cfg, w, input, i, time);
    ArrivalsReported(before, input.late, i, time);
    Regroup(Reports(s, i, time), early, typed);
    Regroup(Reports(s, i, time), early + typed, Landed(before, input.late, i, time));
    assert Reports(s, i, time) + early + [] == Reports(s, i, time) + early;
  }

  /** After a frame, every stream reports for every frame what it did before, and what the frame added. */
  lemma FrameAddsInput(cfg: Config, w: World, input: FrameInput, i: nat, time: int)
    requires AtEntry(cfg, w) && Honest(cfg, w, input) && NoOverrun(cfg, w, input)
    requires i < |cfg.sources| && RealInput(input.typed)
    ensures var s, s' := w.streams, NextEntry(Frame(cfg, w, input)).streams;
      && i < |Inputs(Known(s), time)| && i < |Inputs(Known(s'), time)|
      && Inputs(Known(s'), time)[i] == Inputs(Known(s), time)[i] + Added(cfg, w, input, i, time)
  {
    FrameReported(cfg, w, input, i, time);
    KnownInput(w.streams, i, time);
    KnownInput(NextEntry(Frame(cfg, w, input)).streams, i, time);
  }

  lemma {:induction false} NothingLandsLocally(
    cfg: Config, s: Streams, arrivals: seq<Arrival>, floor: int, i: nat, time: int)
    requires ArrivalsOk(cfg, s, arrivals, floor) && i < |cfg.sources| && cfg.sources[i].Local?
    ensures Landed(s, arrivals, i, time) == []
  {
    if arrivals != [] {
      NothingLandsLocally(cfg, s, arrivals[..|arrivals| - 1], floor, i, time);
    }
  }

  lemma AddedLocally(cfg: Config, w: World, input: FrameInput, i: nat, time: int)
    requires Honest(cfg, w, input) && i < |cfg.sources| && cfg.sources[i].Local?
    ensures Added(cfg, w, input, i, time) ==
      if PlanOf(w, input).mode.OnRailsReplay? then [] else TypedFor(cfg, input.typed, w.clock, i, time)
  {
    NothingLandsLocally(cfg, w.streams, input.early, MaxCommitHead(w.streams), i, time);
    if !PlanOf(w, input).mode.OnRailsReplay? {
      var s := BeforeLate(cfg, w, input);
      NothingLandsLocally(cfg, s, input.late, MaxCommitHead(s), i, time);
    }
  }

  /** On a local stream that is what was typed, and nothing else. */
  lemma LocalInputIsTyped(cfg: Config, w: World, input: FrameInput, i: nat, time: int)
    requires AtEntry(cfg, w) && Honest(cfg, w, input) && NoOverrun(cfg, w, input)
    requires i < |cfg.sources| && cfg.sources[i].Local? && RealInput(input.typed)
    ensures var s, s' := w.streams, NextEntry(Frame(cfg, w, input)).streams;
      var replay := PlanOf(w, input).mode.OnRailsReplay?;
      && i < |Inputs(Known(s), time)| && i < |Inputs(Known(s'), time)|
      && Inputs(Known(s'), time)[i] == Inputs(Known(s), time)[i] +
          if !replay && i < |input.typed| && time == w.clock + cfg.sources[i].delay then input.typed[i] else []
  {
    FrameAddsInput(cfg, w, input, i, time);
    AddedLocally(cfg, w, input, i, time);
  }

  // ----- Whole runs -----

  function AddedByRun(cfg: Config, w: World, inputs: seq<FrameInput>, i: nat, time: int): seq<int>
    requires i < |cfg.sources|
  {
    if inputs == [] then []
    else
      var rest := inputs[..|inputs| - 1];
      AddedByRun(cfg, w, rest, i, time) + Added(cfg, Run(cfg, w, rest), inputs[|inputs| - 1], i, time)
  }

  lemma {:induction false} RunReported(cfg: Config, w: World, inputs: seq<FrameInput>, i: nat, time: int)
    requires AtEntry(cfg, w) && SafeRun(cfg, w, inputs) && i < |cfg.sources|
    requires forall input :: input in inputs ==> RealInput(input.typed)
    ensures var s, s' := w.streams, Run(cfg, w, inputs).streams;
      && Complete(cfg, s) && Complete(cfg, s')
      && Reports(s', i, time) == Reports(s, i, time) + AddedByRun(cfg, w, inputs, i, time)
  {
    if inputs != [] {
      var rest, input := inputs[..|inputs| - 1], inputs[|inputs| - 1];
      SafeRunStep(cfg, w, inputs);
      RunKeepsOrder(cfg, w, rest);
      RunReported(cfg, w, rest, i, time);
      FrameReported(cfg, Run(cfg, w, rest), input, i, time);
      Regroup(
        Reports(w.streams, i, time), AddedByRun(cfg, w, rest, i, time),
        Added(cfg, Run(cfg, w, rest), input, i, time));
    } else {
      assert Reports(w.streams, i, time) + [] == Reports(w.streams, i, time);
    }
  }

  /** Over a run, known input is conserved: nothing that arrived or was typed is lost, doubled or moved,
      however often frames are committed, rolled back or stalled. */
  lemma RunAddsInput(cfg: Config, w: World, inputs: seq<FrameInput>, i: nat, time: int)
    requires AtEntry(cfg, w) && SafeRun(cfg, w, inputs) && i < |cfg.sources|
    requires forall input :: input in inputs ==> RealInput(input.typed)
    ensures var s, s' := w.streams, Run(cfg, w, inputs).streams;
      && i < |Inputs(Known(s), time)| && i < |Inputs(Known(s'), time)|
      && Inputs(Known(s'), time)[i] == Inputs(Known(s), time)[i] + AddedByRun(cfg, w, inputs, i, time)
  {
    RunReported(cfg, w, inputs, i, time);
    KnownInput(w.streams, i, time);
    KnownInput(Run(cfg, w, inputs).streams, i, time);
  }

  // ----- Read and write heads of local streams -----

  /** Committing up to `second` and then locking the read head right after it works exactly if the stream may
      be written that far; the source is fatal otherwise. */
  lemma LocksIff(u: InputStream, head: int, second: int, write: int)
    requires UncommittedOk(u, head) && second <= u.head <= write
    ensures var u' := AdvanceInputStream(DiscardOldEvents(u, second), second + FRAME, write);
      (u'.head == write && u'.events != [] && forall e :: e in u'.events ==> second + FRAME <= e.time)
      <==> second + FRAME <= write
  {
    var kept := From(u.events, second + 1);
    FromEffect(u.events, second + 1, 0);
    FromEffect(kept, second + FRAME, 0);
    if write < second + FRAME && kept != [] {
      assert kept[0] in kept;
    }
  }

  /** The read-head check of OverrunIff is the one that the advance before the tick makes. */
  lemma ReadHeadLocksIff(cfg: Config, c: World, i: nat)
    requires Choosing(cfg, c) && i < |cfg.sources| && cfg.sources[i].Local? && !ChooseMode(c).mode.OnRailsReplay?
    ensures var locked, write := ChooseMode(c).second + FRAME, c.clock + cfg.sources[i].delay;
      var u := Prepared(cfg, c).streams.uncommitted[i];
      (u.head == write && u.events != [] && forall e :: e in u.events ==> locked <= e.time) <==> locked <= write
  {
    PlanFacts(cfg, c);
    assert UncommittedOk(c.streams.uncommitted[i], MaxCommitHead(c.streams));
    LocksIff(
      c.streams.uncommitted[i], MaxCommitHead(c.streams), ChooseMode(c).second, c.clock + cfg.sources[i].delay);
  }

  lemma TickedHead(cfg: Config, r: World, plan: Plan, typed: seq<seq<int>>, i: nat)
    requires Ticking(cfg, r, plan) && !plan.mode.OnRailsReplay? && i < |cfg.sources| && cfg.sources[i].Local?
    ensures var s := Committed(cfg, r, plan, typed).uncommitted;
      i < |s| && s[i].head == r.clock + cfg.sources[i].delay
  {
    AtTickKeeps(cfg, r, plan, typed);
    AlignedShift(plan.second);
    AheadCanAdvance(cfg, AtTick(cfg, r, plan, typed), plan.second, r.clock);
    assert TickFrame(cfg, r, plan, typed).streams.uncommitted[i].head == r.clock + cfg.sources[i].delay;
  }

  lemma ArrivalsLeaveLocal(cfg: Config, s: Streams, arrivals: seq<Arrival>, floor: int, i: nat)
    requires ArrivalsOk(cfg, s, arrivals, floor) && i < |s.uncommitted| && i < |cfg.sources| && cfg.sources[i].Local?
    ensures |DeliverAll(s, arrivals).uncommitted| == |s.uncommitted|
    ensures DeliverAll(s, arrivals).uncommitted[i] == s.uncommitted[i]
  {
    if arrivals != [] {
      ArrivalsLeaveLocal(cfg, s, arrivals[..|arrivals| - 1], floor, i);
    }
  }

  /** After every frame but a replayed one, a local stream is written exactly up to this frame and its delay. */
  lemma LocalHeadIs(cfg: Config, w: World, input: FrameInput, i: nat)
    requires AtEntry(cfg, w) && Honest(cfg, w, input) && NoOverrun(cfg, w, input)
    requires i < |cfg.sources| && cfg.sources[i].Local? && !PlanOf(w, input).mode.OnRailsReplay?
    ensures var s := NextEntry(Frame(cfg, w, input)).streams.uncommitted;
      i < |s| && s[i].head == w.clock + cfg.sources[i].delay
  {
    var before := BeforeLate(cfg, w, input);
    FrameStages(cfg, w, input);
    EntryStreamsAre(cfg, w, input);
    TickedHead(cfg, Prepared(cfg, Arrived(w, input)), PlanOf(w, input), input.typed, i);
    ArrivalsLeaveLocal(cfg, before, input.late, MaxCommitHead(before), i);
  }
}
