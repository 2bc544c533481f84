/** What each phase of a frame keeps: stream bookkeeping, known input, and the state window. */
module RollbackSteps {
  import opened StateStreams
  import opened InputStreams
  import opened FrameDriver

  ghost predicate ConfigOk(cfg: Config) {
    forall i :: 0 <= i < |cfg.sources| && cfg.sources[i].Local? ==>
      0 <= cfg.sources[i].delay && Aligned(cfg.sources[i].delay)
  }

  ghost predicate UncommittedOk(s: InputStream, head: int) {
    WellFormed(s, head) && head <= s.head && Aligned(s.head)
  }

  /** All committed streams share the commit head, and no uncommitted input is at or before it. */
  ghost predicate StreamsOk(cfg: Config, s: Streams, head: int) {
    && 0 < |cfg.sources| == |s.committed| == |s.uncommitted|
    && 0 <= head && Aligned(head)
    && (forall i :: 0 <= i < |s.committed| ==> s.committed[i].head == head)
    && (forall i :: 0 <= i < |s.uncommitted| ==> UncommittedOk(s.uncommitted[i], head))
  }

  /** The two stream sets report the same input for one frame. */
  ghost predicate SameInput(s: Streams, s': Streams, time: int) {
    Inputs(Known(s'), time) == Inputs(Known(s), time)
  }

  lemma SameInputByStream(s: Streams, s': Streams, time: int)
    requires |s.committed| == |s.uncommitted| == |s'.committed| == |s'.uncommitted|
    requires forall i :: 0 <= i < |s.committed| ==>
      InputAt(s'.committed[i].events, time) + InputAt(s'.uncommitted[i].events, time)
      == InputAt(s.committed[i].events, time) + InputAt(s.uncommitted[i].events, time)
    ensures SameInput(s, s', time)
  {
    forall i | 0 <= i < |s.committed|
      ensures InputAt(Known(s')[i], time) == InputAt(Known(s)[i], time)
    {
      InputAtConcat(s.committed[i].events, s.uncommitted[i].events, time);
      InputAtConcat(s'.committed[i].events, s'.uncommitted[i].events, time);
    }
    assert |Inputs(Known(s'), time)| == |Inputs(Known(s), time)|;
  }

  lemma {:induction false} MinHeadIsMin(streams: seq<InputStream>)
    requires streams != []
    ensures forall i :: 0 <= i < |streams| ==> MinHead(streams) <= streams[i].head
    ensures exists i :: 0 <= i < |streams| && MinHead(streams) == streams[i].head
  {
    if |streams| > 1 {
      var rest := streams[1..];
      MinHeadIsMin(rest);
      var i :| 0 <= i < |rest| && MinHead(rest) == rest[i].head;
      assert streams[i + 1].head == rest[i].head;
      assert MinHead(streams) == streams[0].head || MinHead(streams) == streams[i + 1].head;
      forall j | 0 <= j < |streams| ensures MinHead(streams) <= streams[j].head {
        assert j == 0 || streams[j] == rest[j - 1];
      }
    } else {
      assert MinHead(streams) == streams[0].head;
    }
  }

  lemma CommitOne(dest: InputStream, source: InputStream, head: int, second: int)
    requires UncommittedOk(source, head) && head <= second <= source.head
    ensures UncommittedOk(DiscardOldEvents(source, second), second)
  {
    FromEffect(source.events, second + 1, 0);
  }

  /** A commit raises the commit head and leaves the input of every frame as it was. */
  lemma CommitKeeps(cfg: Config, s: Streams, head: int, second: int)
    requires StreamsOk(cfg, s, head) && head <= second && Aligned(second)
    requires forall i :: 0 <= i < |s.uncommitted| ==> second <= s.uncommitted[i].head
    ensures var s' := Commit(s, head, second);
      && StreamsOk(cfg, s', second)
      && (forall i :: 0 <= i < |s.uncommitted| ==> s'.uncommitted[i].head == s.uncommitted[i].head)
      && (forall t :: SameInput(s, s', t))
  {
    var s' := Commit(s, head, second);
    forall i | 0 <= i < |s.uncommitted| ensures UncommittedOk(s'.uncommitted[i], second) {
      CommitOne(s.committed[i], s.uncommitted[i], head, second);
    }
    forall t ensures SameInput(s, s', t) {
      forall i | 0 <= i < |s.committed|
        ensures InputAt(s'.committed[i].events, t) + InputAt(s'.uncommitted[i].events, t)
             == InputAt(s.committed[i].events, t) + InputAt(s.uncommitted[i].events, t)
      {
        CommitConserves(s.committed[i], s.uncommitted[i], head, second, t);
      }
      SameInputByStream(s, s', t);
    }
  }

  lemma NothingBefore(events: seq<Event>, head: int, last: int, locked: int, time: int)
    requires Between(events, head, last) && Aligned(head) && locked <= head + FRAME && time < locked
    ensures InputAt(events, time) == []
  {
    forall e | e in events ensures e.time != time || e.value == NO_INPUT {
      if e.value != NO_INPUT {
        AlignedStep(head, e.time);
      }
    }
    NoInputOutside(events, time);
  }

  lemma AdvanceOneOk(s: InputStream, head: int, locked: int, write: int)
    requires UncommittedOk(s, head) && Aligned(locked) && Aligned(write)
    ensures UncommittedOk(AdvanceInputStream(s, locked, write), head)
  {
    FromEffect(s.events, locked, 0);
  }

  lemma AdvanceOne(s: InputStream, head: int, locked: int, write: int, time: int)
    requires UncommittedOk(s, head) && locked <= head + FRAME && Aligned(head)
    ensures InputAt(AdvanceInputStream(s, locked, write).events, time) == InputAt(s.events, time)
  {
    FromEffect(s.events, locked, time);
    if time < locked {
      NothingBefore(s.events, head, s.head, locked, time);
    }
    NoInputOutside([Event(locked, NO_INPUT)], time);
  }

  /** Advancing the local streams never drops input that has not been committed. */
  lemma AdvanceKeeps(cfg: Config, s: Streams, head: int, locked: int, write: int)
    requires ConfigOk(cfg) && StreamsOk(cfg, s, head) && Aligned(locked) && Aligned(write) && locked <= head + FRAME
    ensures var s' := AdvanceLocal(cfg, s, locked, write);
      && StreamsOk(cfg, s', head)
      && s'.committed == s.committed
      && (forall t :: SameInput(s, s', t))
      && (forall i :: 0 <= i < |s.uncommitted| ==>
            if cfg.sources[i].Local?
            then s'.uncommitted[i] == AdvanceInputStream(s.uncommitted[i], locked, write + cfg.sources[i].delay)
            else s'.uncommitted[i] == s.uncommitted[i])
  {
    var s' := AdvanceLocal(cfg, s, locked, write);
    forall i | 0 <= i < |s.uncommitted| ensures UncommittedOk(s'.uncommitted[i], head) {
      if cfg.sources[i].Local? {
        AdvanceOneOk(s.uncommitted[i], head, locked, write + cfg.sources[i].delay);
      }
    }
    forall t ensures SameInput(s, s', t) {
      forall i | 0 <= i < |s.uncommitted|
        ensures InputAt(s'.uncommitted[i].events, t) == InputAt(s.uncommitted[i].events, t)
      {
        if cfg.sources[i].Local? {
          AdvanceOne(s.uncommitted[i], head, locked, write + cfg.sources[i].delay, t);
        }
      }
      SameInputByStream(s, s', t);
    }
  }

  /** No local stream is written past this frame and its own delay. */
  ghost predicate LocalHeads(cfg: Config, s: Streams, limit: int) {
    forall i :: 0 <= i < |s.uncommitted| && i < |cfg.sources| && cfg.sources[i].Local? ==>
      s.uncommitted[i].head <= limit + cfg.sources[i].delay
  }

  lemma AppendOk(s: InputStream, head: int, more: seq<Event>, at: int)
    requires UncommittedOk(s, head) && s.head <= at && Aligned(at)
    requires forall e :: e in more ==> e.time == at && head < at
    ensures UncommittedOk(InputStream(s.events + more, at), head)
  {
    var all := s.events + more;
    forall i, j | 0 <= i < j < |all| ensures all[i].time <= all[j].time {
      if i < |s.events| {
        assert s.events[i] in s.events;
      } else {
        assert all[i] in more;
      }
      if j >= |s.events| {
        assert all[j] in more;
      }
    }
  }

  lemma TypeOne(s: InputStream, head: int, values: seq<int>, at: int, time: int)
    requires UncommittedOk(s, head) && head < at && s.head <= at && Aligned(at)
    ensures UncommittedOk(InputStream(s.events + Typed(values, at), at), head)
    ensures time != at ==> InputAt(s.events + Typed(values, at), time) == InputAt(s.events, time)
  {
    AppendOk(s, head, Typed(values, at), at);
    InputAtConcat(s.events, Typed(values, at), time);
    if time != at {
      NoInputOutside(Typed(values, at), time);
    }
  }

  /** Input typed now lands after the commit head on every local stream. */
  ghost predicate TypesAhead(cfg: Config, head: int, now: int) {
    forall i :: 0 <= i < |cfg.sources| && cfg.sources[i].Local? ==> head < now + cfg.sources[i].delay
  }

  lemma TypeOnStream(cfg: Config, s: Streams, head: int, typed: seq<seq<int>>, now: int, i: nat, time: int)
    requires ConfigOk(cfg) && StreamsOk(cfg, s, head) && TypesAhead(cfg, head, now) && Aligned(now)
    requires LocalHeads(cfg, s, now)
    requires i < |s.uncommitted|
    ensures var u, u' := s.uncommitted[i], TickLocal(cfg, s, typed, now).uncommitted[i];
      && UncommittedOk(u', head)
      && (time < now ==> InputAt(u'.events, time) == InputAt(u.events, time))
      && (if cfg.sources[i].Local? then u'.head <= now + cfg.sources[i].delay else u' == u)
  {
    var u := s.uncommitted[i];
    assert UncommittedOk(u, head);
    TickLocalAt(cfg, s, typed, now, i);
    if cfg.sources[i].Local? && i < |typed| && typed[i] != [] {
      var at := now + cfg.sources[i].delay;
      assert head < at && u.head <= at && Aligned(at) && now <= at;
      TypeOne(u, head, typed[i], at, time);
    }
  }

  lemma TickLocalAt(cfg: Config, s: Streams, typed: seq<seq<int>>, now: int, i: nat)
    requires i < |s.uncommitted| == |cfg.sources|
    ensures TickLocal(cfg, s, typed, now).uncommitted[i] ==
      if cfg.sources[i].Local? && i < |typed| && typed[i] != []
      then
        var at := now + cfg.sources[i].delay;
        InputStream(s.uncommitted[i].events + Typed(typed[i], at), at)
      else s.uncommitted[i]
  {
  }

  lemma TypeKeeps(cfg: Config, s: Streams, head: int, typed: seq<seq<int>>, now: int)
    requires ConfigOk(cfg) && StreamsOk(cfg, s, head) && TypesAhead(cfg, head, now) && Aligned(now)
    requires LocalHeads(cfg, s, now)
    ensures var s' := TickLocal(cfg, s, typed, now);
      && StreamsOk(cfg, s', head) && LocalHeads(cfg, s', now)
      && s'.committed == s.committed
      && (forall t :: t < now ==> SameInput(s, s', t))
      && (forall i :: 0 <= i < |s.uncommitted| && cfg.sources[i].Remote? ==> s'.uncommitted[i] == s.uncommitted[i])
  {
    var s' := TickLocal(cfg, s, typed, now);
    forall i | 0 <= i < |s.uncommitted|
      ensures UncommittedOk(s'.uncommitted[i], head)
      ensures
        if cfg.sources[i].Local? then s'.uncommitted[i].head <= now + cfg.sources[i].delay
        else s'.uncommitted[i] == s.uncommitted[i]
    {
      TypeOnStream(cfg, s, head, typed, now, i, 0);
    }
    forall t | t < now ensures SameInput(s, s', t) {
      forall i | 0 <= i < |s.uncommitted|
        ensures InputAt(s'.uncommitted[i].events, t) == InputAt(s.uncommitted[i].events, t)
      {
        TypeOnStream(cfg, s, head, typed, now, i, t);
      }
      SameInputByStream(s, s', t);
    }
  }

  /** Real input that a stream accepts for a frame that counts as settled. */
  predicate Amends(s: Streams, a: Arrival, floor: int) {
    Accepts(s, a) && a.value != NO_INPUT && a.time <= floor
  }

  /** An arrival that is rejected, or else is for a remote stream, on a frame, and amends nothing
      settled. A mark without input may say that a settled frame is ready, as often as it likes. */
  ghost predicate ArrivalOk(cfg: Config, s: Streams, a: Arrival, floor: int) {
    Accepts(s, a) ==>
      && a.stream < |cfg.sources| && cfg.sources[a.stream].Remote? && Aligned(a.time)
      && !Amends(s, a, floor)
  }

  ghost predicate ArrivalsOk(cfg: Config, s: Streams, arrivals: seq<Arrival>, floor: int) {
    arrivals != [] ==>
      var most := arrivals[..|arrivals| - 1];
      ArrivalsOk(cfg, s, most, floor) && ArrivalOk(cfg, DeliverAll(s, most), arrivals[|arrivals| - 1], floor)
  }

  /** The input that one arrival adds to its stream. */
  lemma DeliverAdds(s: Streams, a: Arrival, time: int)
    requires Accepts(s, a)
    ensures var u, u' := s.uncommitted[a.stream], Deliver(s, a).uncommitted[a.stream];
      InputAt(u'.events, time)
      == InputAt(u.events, time) + if a.value != NO_INPUT && time == a.time then [a.value] else []
  {
    var e := Event(a.time, a.value);
    InputAtConcat(s.uncommitted[a.stream].events, [e], time);
    assert [e][1..] == [] && InputAt([], time) == [];
  }

  /** Exactly the arrivals that amend a frame up to `floor` change any input up to there. */
  lemma DeliverAmendsIff(cfg: Config, s: Streams, head: int, a: Arrival, floor: int)
    requires StreamsOk(cfg, s, head)
    ensures (forall t :: t <= floor ==> SameInput(s, Deliver(s, a), t)) <==> !Amends(s, a, floor)
  {
    if Amends(s, a, floor) {
      DeliverDiffers(cfg, s, head, a);
    } else {
      forall t | t <= floor ensures SameInput(s, Deliver(s, a), t) {
        DeliverSame(cfg, s, head, a, t);
      }
    }
  }

  lemma DeliverSame(cfg: Config, s: Streams, head: int, a: Arrival, time: int)
    requires StreamsOk(cfg, s, head) && (Accepts(s, a) && a.value != NO_INPUT ==> a.time != time)
    ensures SameInput(s, Deliver(s, a), time)
  {
    if Accepts(s, a) {
      DeliverAdds(s, a, time);
      SameInputByStream(s, Deliver(s, a), time);
    }
  }

  lemma DeliverDiffers(cfg: Config, s: Streams, head: int, a: Arrival)
    requires StreamsOk(cfg, s, head) && Accepts(s, a) && a.value != NO_INPUT
    ensures !SameInput(s, Deliver(s, a), a.time)
  {
    var s' := Deliver(s, a);
    DeliverAdds(s, a, a.time);
    InputAtConcat(s.committed[a.stream].events, s.uncommitted[a.stream].events, a.time);
    InputAtConcat(s'.committed[a.stream].events, s'.uncommitted[a.stream].events, a.time);
    assert |Inputs(Known(s'), a.time)[a.stream]| == |Inputs(Known(s), a.time)[a.stream]| + 1;
  }

  /** With the commit head as the floor: real input at the commit head itself, while its stream is not
      written any further. Everything else is later, rejected, or without input. */
  lemma AmendsCommittedIff(cfg: Config, s: Streams, head: int, a: Arrival)
    requires StreamsOk(cfg, s, head)
    ensures (forall t :: t <= head ==> SameInput(s, Deliver(s, a), t)) <==>
      !(a.stream < |s.uncommitted| && a.value != NO_INPUT && a.time == head == s.uncommitted[a.stream].head)
  {
    DeliverAmendsIff(cfg, s, head, a, head);
    if a.stream < |s.uncommitted| {
      assert UncommittedOk(s.uncommitted[a.stream], head);
    }
  }

  lemma DeliverOne(cfg: Config, s: Streams, head: int, a: Arrival, floor: int)
    requires StreamsOk(cfg, s, head) && head <= floor && ArrivalOk(cfg, s, a, floor)
    ensures var s' := Deliver(s, a); StreamsOk(cfg, s', head) && forall t :: t <= floor ==> SameInput(s, s', t)
  {
    DeliverAmendsIff(cfg, s, head, a, floor);
    if Accepts(s, a) {
      var before := s.uncommitted[a.stream];
      AppendOk(before, head, if a.value != NO_INPUT then [Event(a.time, a.value)] else [], a.time);
      assert before.events + [] == before.events;
    }
  }

  lemma {:induction false} DeliverKeeps(cfg: Config, s: Streams, head: int, arrivals: seq<Arrival>, floor: int)
    requires StreamsOk(cfg, s, head) && head <= floor && ArrivalsOk(cfg, s, arrivals, floor)
    ensures var s' := DeliverAll(s, arrivals);
      && StreamsOk(cfg, s', head)
      && s'.committed == s.committed
      && (forall t :: t <= floor ==> SameInput(s, s', t))
      && (forall i :: 0 <= i < |s.uncommitted| && cfg.sources[i].Local? ==> s'.uncommitted[i] == s.uncommitted[i])
  {
    if arrivals != [] {
      var most, a := arrivals[..|arrivals| - 1], arrivals[|arrivals| - 1];
      DeliverKeeps(cfg, s, head, most, floor);
      var m := DeliverAll(s, most);
      DeliverOne(cfg, m, head, a, floor);
      forall t | t <= floor ensures SameInput(s, Deliver(m, a), t) {
        assert SameInput(s, m, t) && SameInput(m, Deliver(m, a), t);
      }
    }
  }

  /** Some arrival, when its turn comes, amends a frame up to `floor`. */
  predicate SomeAmends(s: Streams, arrivals: seq<Arrival>, floor: int) {
    arrivals != [] &&
      var most := arrivals[..|arrivals| - 1];
      SomeAmends(s, most, floor) || Amends(DeliverAll(s, most), arrivals[|arrivals| - 1], floor)
  }

  /** How much input one stream reports for one frame; arrivals only ever add to it. */
  function Amount(s: Streams, i: nat, time: int): nat
    requires i < |s.committed| == |s.uncommitted|
  {
    |InputAt(s.committed[i].events, time)| + |InputAt(s.uncommitted[i].events, time)|
  }

  lemma SameAmount(s: Streams, s': Streams, i: nat, time: int)
    requires i < |s.committed| == |s.uncommitted| == |s'.committed| == |s'.uncommitted| && SameInput(s, s', time)
    ensures Amount(s, i, time) == Amount(s', i, time)
  {
    InputAtConcat(s.committed[i].events, s.uncommitted[i].events, time);
    InputAtConcat(s'.committed[i].events, s'.uncommitted[i].events, time);
    assert Inputs(Known(s'), time)[i] == Inputs(Known(s), time)[i];
  }

  lemma DeliverGrows(cfg: Config, s: Streams, head: int, a: Arrival, i: nat, time: int)
    requires StreamsOk(cfg, s, head) && i < |s.committed|
    ensures Amount(Deliver(s, a), i, time) >= Amount(s, i, time)
    ensures Accepts(s, a) && a.value != NO_INPUT && i == a.stream && time == a.time ==>
      Amount(Deliver(s, a), i, time) > Amount(s, i, time)
  {
    if Accepts(s, a) {
      DeliverAdds(s, a, time);
    }
  }

  lemma {:induction false} AmendedLasts(cfg: Config, s: Streams, head: int, arrivals: seq<Arrival>, floor: int)
    returns (i: nat, time: int)
    requires StreamsOk(cfg, s, head) && ArrivalsOk(cfg, s, arrivals, head) && SomeAmends(s, arrivals, floor)
    ensures time <= floor && i < |s.committed| == |DeliverAll(s, arrivals).committed|
    ensures StreamsOk(cfg, DeliverAll(s, arrivals), head)
    ensures Amount(DeliverAll(s, arrivals), i, time) > Amount(s, i, time)
  {
    var most, a := arrivals[..|arrivals| - 1], arrivals[|arrivals| - 1];
    var m := DeliverAll(s, most);
    DeliverKeeps(cfg, s, head, most, head);
    DeliverKeeps(cfg, s, head, arrivals, head);
    if SomeAmends(s, most, floor) {
      i, time := AmendedLasts(cfg, s, head, most, floor);
    } else {
      i, time := a.stream, a.time;
      NoneAmends(cfg, s, head, most, floor);
      SameAmount(s, m, i, time);
    }
    DeliverGrows(cfg, m, head, a, i, time);
  }

  lemma {:induction false} NoneAmends(cfg: Config, s: Streams, head: int, arrivals: seq<Arrival>, floor: int)
    requires StreamsOk(cfg, s, head) && ArrivalsOk(cfg, s, arrivals, head) && !SomeAmends(s, arrivals, floor)
    ensures StreamsOk(cfg, DeliverAll(s, arrivals), head)
    ensures forall t :: t <= floor ==> SameInput(s, DeliverAll(s, arrivals), t)
  {
    DeliverKeeps(cfg, s, head, arrivals, head);
    if arrivals != [] {
      var most, a := arrivals[..|arrivals| - 1], arrivals[|arrivals| - 1];
      var m := DeliverAll(s, most);
      NoneAmends(cfg, s, head, most, floor);
      DeliverAmendsIff(cfg, m, head, a, floor);
      forall t | t <= floor ensures SameInput(s, Deliver(m, a), t) {
        assert SameInput(s, m, t) && SameInput(m, Deliver(m, a), t);
      }
    }
  }

  /** The same for arrivals in a row: what one of them changes, no later one changes back. */
  lemma DeliverAllAmendsIff(cfg: Config, s: Streams, head: int, arrivals: seq<Arrival>, floor: int)
    requires StreamsOk(cfg, s, head) && ArrivalsOk(cfg, s, arrivals, head)
    ensures (forall t :: t <= floor ==> SameInput(s, DeliverAll(s, arrivals), t)) <==> !SomeAmends(s, arrivals, floor)
  {
    if SomeAmends(s, arrivals, floor) {
      var i, time := AmendedLasts(cfg, s, head, arrivals, floor);
      if SameInput(s, DeliverAll(s, arrivals), time) {
        SameAmount(s, DeliverAll(s, arrivals), i, time);
      }
    } else {
      NoneAmends(cfg, s, head, arrivals, floor);
    }
  }

  // ----- The state window -----

  ghost predicate WindowOk(window: seq<StateStream>, last: int) {
    forall i :: 0 <= i < |window| ==> Tidy(window[i], last)
  }

  /** What one tick does to the game state, with no window and no history involved. */
  function Step(cfg: Config, state: seq<int>, inputs: seq<seq<int>>, time: int): seq<int> {
    var writes := cfg.logic(time, state, inputs);
    seq(|state|, i requires 0 <= i < |state| =>
      if Nth(writes, i) == [] then state[i] else Nth(writes, i)[|Nth(writes, i)| - 1])
  }

  /** Straight simulation: from `base`, tick every frame after `origin` once, with the logged input. */
  function StateAfter(cfg: Config, origin: int, base: seq<int>, log: seq<seq<Event>>, time: int): (state: seq<int>)
    ensures |state| == |base|
    decreases if origin < time then time - origin else 0
  {
    if time <= origin then base
    else Step(cfg, StateAfter(cfg, origin, base, log, time - FRAME), Inputs(log, time), time)
  }

  lemma {:induction false} SameLog(
    cfg: Config, origin: int, base: seq<int>, log: seq<seq<Event>>, log': seq<seq<Event>>, time: int)
    requires forall t :: t <= time ==> Inputs(log', t) == Inputs(log, t)
    ensures StateAfter(cfg, origin, base, log', time) == StateAfter(cfg, origin, base, log, time)
    decreases if origin < time then time - origin else 0
  {
    if origin < time {
      SameLog(cfg, origin, base, log, log', time - FRAME);
    }
  }

  /** A tick through the bounded window computes `Step` and disturbs no reading near the frame. */
  lemma TickEffect(cfg: Config, window: seq<StateStream>, inputs: seq<seq<int>>, time: int)
    requires WindowOk(window, time) && Aligned(time) && 0 <= time
    ensures var window' := Tick(cfg, window, inputs, time);
      && |window'| == |window| && WindowOk(window', time)
      && ReadAll(window', time) == Step(cfg, ReadAll(window, time), inputs, time)
      && (forall u :: time <= u ==> ReadAll(window', u) == ReadAll(window', time))
      && (forall u :: u < time && Near(u, time - FRAME) ==> ReadAll(window', u) == ReadAll(window, u))
      && (forall i, u :: 0 <= i < |window| && u < time && Holds(window'[i], u) ==>
            Holds(window[i], u) && Read(window'[i], u) == Read(window[i], u))
  {
    var writes := cfg.logic(time, ReadAll(window, time), inputs);
    forall i | 0 <= i < |window|
      ensures var s' := WriteAll(window[i], cfg.optimized, time, Nth(writes, i));
        && Tidy(s', time)
        && (forall u :: time <= u ==>
              Read(s', u) == if Nth(writes, i) == [] then Read(window[i], u) else Nth(writes, i)[|Nth(writes, i)| - 1])
        && (forall u :: u < time && Near(u, time - FRAME) ==> Read(s', u) == Read(window[i], u))
        && (forall u :: u < time && Holds(s', u) ==> Holds(window[i], u) && Read(s', u) == Read(window[i], u))
    {
      WriteAllEffect(window[i], cfg.optimized, time, Nth(writes, i));
    }
    forall i, u | 0 <= i < |window| && time <= u ensures Read(window[i], u) == Read(window[i], time) {
      ReadLater(window[i], time, u);
    }
  }

  /** Variable by variable: each takes the last value that the game writes to it in this frame, and one
      that is not written keeps its value. */
  lemma TickWrites(cfg: Config, window: seq<StateStream>, inputs: seq<seq<int>>, time: int, i: nat)
    requires WindowOk(window, time) && Aligned(time) && 0 <= time && i < |window|
    ensures var writes, window' := cfg.logic(time, ReadAll(window, time), inputs), Tick(cfg, window, inputs, time);
      && |window'| == |window|
      && Read(window'[i], time) ==
          if i < |writes| && writes[i] != [] then writes[i][|writes[i]| - 1] else Read(window[i], time)
  {
    var writes := cfg.logic(time, ReadAll(window, time), inputs);
    WriteAllEffect(window[i], cfg.optimized, time, Nth(writes, i));
  }

  lemma ReadLater(s: StateStream, last: int, u: int)
    requires Tidy(s, last) && last <= u
    ensures Read(s, u) == Read(s, last)
  {
    OlderUnique(s, u + 1, |s|);
    OlderUnique(s, last + 1, |s|);
  }

  lemma RewindAllEffect(window: seq<StateStream>, last: int, time: int, floor: int)
    requires WindowOk(window, last) && Aligned(floor) && floor <= time < floor + FRAME
    ensures var window' := RewindAll(window, time);
      && |window'| == |window| && WindowOk(window', floor)
      && (forall u :: u <= time ==> ReadAll(window', u) == ReadAll(window, u))
      && (forall u :: time <= u ==> ReadAll(window', u) == ReadAll(window, time))
      && (forall i, u :: 0 <= i < |window| && Holds(window'[i], u) ==> Holds(window[i], u))
      && (forall i, u :: 0 <= i < |window| && u <= time ==> Read(window'[i], u) == Read(window[i], u))
  {
    forall i | 0 <= i < |window|
      ensures var s' := Rewind(window[i], time);
        && Tidy(s', floor)
        && (forall u :: u <= time ==> Read(s', u) == Read(window[i], u))
        && (forall u :: time <= u ==> Read(s', u) == Read(window[i], time))
        && (forall u :: Holds(s', u) ==> Holds(window[i], u))
    {
      RewindEffect(window[i], last, time, floor);
    }
  }
}
