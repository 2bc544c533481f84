/** Input streams and the commit step that moves input from one peer-amendable stream to a locked one. */
module InputStreams {
  import opened StateStreams

  /** kInvalidInputValue marks a frame without input. */
  const NO_INPUT: int := 0

  datatype Event = Event(time: int, value: int)

  /** rollback::InputStream: time-ordered events, and the frame up to which the stream is written. */
  datatype InputStream = InputStream(events: seq<Event>, head: int)

  /** push_back: fatal when the event would go back in time or carries no value. */
  function PushBack(s: InputStream, e: Event): InputStream
    requires e.value != NO_INPUT && s.head <= e.time
  {
    InputStream(s.events + [e], e.time)
  }

  function IncreaseWriteHead(s: InputStream, time: int): InputStream
    requires s.head <= time
  {
    s.(head := time)
  }

  /** The events from the first one at or after `time` on (the lower bound of an ordered stream). */
  function From(events: seq<Event>, time: int): seq<Event> {
    if events != [] && events[0].time < time then From(events[1..], time) else events
  }

  /** increase_read_head: drop older events, but leave a marker rather than nothing at all. */
  function IncreaseReadHead(s: InputStream, time: int): InputStream
    requires time <= s.head
  {
    var kept := From(s.events, time);
    s.(events := if kept == [] then [Event(time, NO_INPUT)] else kept)
  }

  function DiscardOldEvents(s: InputStream, inclusiveTime: int): InputStream {
    s.(events := From(s.events, inclusiveTime + 1))
  }

  function RewindStream(s: InputStream, time: int): InputStream {
    if s.head <= time then s
    else if s.events == [] then s.(head := time)
    else if time <= s.events[0].time then InputStream([Event(time, NO_INPUT)], time)
    else s.(events := Until(s.events, time), head := time)
  }

  function Until(events: seq<Event>, time: int): seq<Event> {
    if events != [] && events[0].time < time then [events[0]] + Until(events[1..], time) else []
  }

  /** The real events of a commit range, in order: what CommitFrames transfers. */
  function Select(events: seq<Event>, first: int, second: int): seq<Event> {
    if events == [] || events[0].time > second then []
    else if events[0].time < first || events[0].value == NO_INPUT then Select(events[1..], first, second)
    else [events[0]] + Select(events[1..], first, second)
  }

  /** The committed stream after one commit; pushing into it is fatal before its own head. */
  function Receive(dest: InputStream, source: InputStream, first: int, second: int): InputStream
    requires dest.head <= second
  {
    InputStream(dest.events + Select(source.events, first, second), second)
  }

  /** The input a controller reports for exactly one frame. */
  function InputAt(events: seq<Event>, time: int): seq<int> {
    if events == [] then []
    else (if events[0].time == time && events[0].value != NO_INPUT then [events[0].value] else [])
         + InputAt(events[1..], time)
  }

  ghost predicate Ordered(events: seq<Event>) {
    forall i, j :: 0 <= i < j < |events| ==> events[i].time <= events[j].time
  }

  /** Every event is on a frame in (.., last], and every real one is after `floor`. */
  ghost predicate Between(events: seq<Event>, floor: int, last: int) {
    forall e :: e in events ==> e.time <= last && Aligned(e.time) && (e.value != NO_INPUT ==> floor < e.time)
  }

  ghost predicate WellFormed(s: InputStream, floor: int) {
    Ordered(s.events) && Between(s.events, floor, s.head)
  }

  lemma {:induction false} InputAtConcat(a: seq<Event>, b: seq<Event>, time: int)
    ensures InputAt(a + b, time) == InputAt(a, time) + InputAt(b, time)
  {
    if a == [] {
      assert a + b == b;
    } else {
      assert (a + b)[1..] == a[1..] + b;
      InputAtConcat(a[1..], b, time);
    }
  }

  lemma {:induction false} NoInputOutside(events: seq<Event>, time: int)
    requires forall e :: e in events ==> e.time != time || e.value == NO_INPUT
    ensures InputAt(events, time) == []
  {
    if events != [] {
      NoInputOutside(events[1..], time);
    }
  }

  lemma LaterThanFirst(events: seq<Event>, e: Event)
    requires Ordered(events) && e in events
    ensures events[0].time <= e.time
  {
    var i :| 0 <= i < |events| && events[i] == e;
    assert i == 0 || events[0].time <= events[i].time;
  }

  lemma {:induction false} FromEffect(events: seq<Event>, from: int, time: int)
    requires Ordered(events)
    ensures Ordered(From(events, from))
    ensures forall e :: e in From(events, from) ==> e in events && from <= e.time
    ensures InputAt(From(events, from), time) == if time < from then [] else InputAt(events, time)
  {
    if events != [] && events[0].time < from {
      FromEffect(events[1..], from, time);
    } else {
      forall e | e in events ensures from <= e.time {
        LaterThanFirst(events, e);
      }
      if time < from {
        NoInputOutside(events, time);
      }
    }
  }

  lemma {:induction false} SelectEffect(events: seq<Event>, first: int, second: int, time: int)
    requires Ordered(events)
    ensures InputAt(Select(events, first, second), time) ==
      if first <= time <= second then InputAt(events, time) else []
  {
    if events == [] {
    } else if events[0].time > second {
      if time <= second {
        forall e | e in events ensures e.time > second {
          LaterThanFirst(events, e);
        }
        NoInputOutside(events, time);
      }
    } else {
      assert Ordered(events[1..]);
      SelectEffect(events[1..], first, second, time);
    }
  }

  lemma Regroup<T>(a: seq<T>, b: seq<T>, c: seq<T>)
    ensures (a + b) + c == a + (b + c)
  {
  }

  lemma MovedOrKept(events: seq<Event>, first: int, second: int, last: int, time: int)
    requires Ordered(events) && Between(events, first, last)
    ensures InputAt(Select(events, first, second), time) + InputAt(From(events, second + 1), time)
      == InputAt(events, time)
  {
    SelectEffect(events, first, second, time);
    FromEffect(events, second + 1, time);
    if time <= first {
      NoInputOutside(events, time);
    }
  }

  /** A commit loses no input, invents none and moves none to another frame. */
  lemma CommitConserves(dest: InputStream, source: InputStream, first: int, second: int, time: int)
    requires Ordered(source.events) && dest.head <= second
    requires Between(source.events, first, source.head)
    ensures InputAt(Receive(dest, source, first, second).events, time)
      + InputAt(DiscardOldEvents(source, second).events, time)
         == InputAt(dest.events, time) + InputAt(source.events, time)
  {
    var moved, kept := Select(source.events, first, second), From(source.events, second + 1);
    InputAtConcat(dest.events, moved, time);
    MovedOrKept(source.events, first, second, source.head, time);
    assert Receive(dest, source, first, second).events == dest.events + moved;
    assert DiscardOldEvents(source, second).events == kept;
    Regroup(InputAt(dest.events, time), InputAt(moved, time), InputAt(kept, time));
  }
}
