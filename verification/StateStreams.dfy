/** A rollback variable: a bounded, time-ordered history of the values written to it. */
module StateStreams {

  /** rollback::kMaxChangesInWindow: how many changes one variable can remember. */
  const MAX_CHANGES: nat := 10

  /** time::kSimulationFrameDuration, in nanoseconds. */
  const FRAME: int := 16666666

  datatype Change = Change(time: int, value: int)

  type StateStream = seq<Change>

  predicate Aligned(time: int) {
    time % FRAME == 0
  }

  /** How many changes are strictly older than `time` (the lower bound in an ascending history). */
  function Older(s: StateStream, time: int): (n: nat)
    ensures n <= |s|
    ensures n > 0 ==> s[n - 1].time < time
  {
    if s == [] then 0
    else if s[|s| - 1].time < time then |s|
    else Older(s[..|s| - 1], time)
  }

  /** `optimized` is the kRollbackPerfOptimizations build flag. */
  function Write(s: StateStream, optimized: bool, time: int, value: int): StateStream {
    var at := Older(s, time);
    if at == |s| then
      if optimized && s != [] && s[|s| - 1].value == value then s
      else (if |s| == MAX_CHANGES then s[1..] else s) + [Change(time, value)]
    else if at > 0 && s[at - 1].value == value then s[..at]
    else s[..at] + [Change(time, value)]
  }

  function Read(s: StateStream, time: int): int {
    var past := Older(s, time + 1);
    if past == 0 then 0 else s[past - 1].value
  }

  function Discard(s: StateStream, time: int): StateStream {
    s[..Older(s, time)]
  }

  /** StateTree::RewindAllStreams on one stream: forget everything later than `time`. */
  function Rewind(s: StateStream, time: int): StateStream {
    Discard(s, time + 1)
  }

  /** One tick may write the same variable several times. */
  function WriteAll(s: StateStream, optimized: bool, time: int, values: seq<int>): StateStream {
    if values == [] then s
    else Write(WriteAll(s, optimized, time, values[..|values| - 1]), optimized, time, values[|values| - 1])
  }

  /** Histories that arise when every write happens on a frame boundary, none later than `last`. */
  ghost predicate Tidy(s: StateStream, last: int) {
    && |s| <= MAX_CHANGES
    && (forall i :: 0 <= i < |s| ==> 0 <= s[i].time <= last && Aligned(s[i].time))
    && Ascending(s)
  }

  lemma {:induction false} OlderSplits(s: StateStream, time: int)
    requires Ascending(s)
    ensures forall i :: 0 <= i < |s| ==> (i < Older(s, time) <==> s[i].time < time)
  {
    if s != [] && s[|s| - 1].time >= time {
      OlderSplits(s[..|s| - 1], time);
    }
  }

  /** Whatever splits an ascending history the way `Older` does is `Older`. */
  lemma OlderUnique(s: StateStream, time: int, n: nat)
    requires Ascending(s)
    requires n <= |s|
    requires n > 0 ==> s[n - 1].time < time
    requires n < |s| ==> s[n].time >= time
    ensures Older(s, time) == n
  {
    OlderSplits(s, time);
  }

  lemma AlignedStep(a: int, b: int)
    requires Aligned(a) && Aligned(b) && a < b
    ensures a + FRAME <= b
  {
    var i, j := a / FRAME, b / FRAME;
    assert a == i * FRAME && b == j * FRAME;
    assert i < j;
  }

  lemma AlignedSum(a: int, b: int)
    requires Aligned(a) && Aligned(b)
    ensures Aligned(a + b)
  {
  }

  lemma AlignedShift(a: int)
    ensures Aligned(a) <==> Aligned(a + FRAME)
    ensures Aligned(a) <==> Aligned(a - FRAME)
  {
  }

  /** Distinct frames are at least one frame apart, so a history of n changes spans n - 1 frames. */
  lemma {:induction false} Spread(s: StateStream, last: int, i: nat, j: nat)
    requires Tidy(s, last) && i <= j < |s|
    ensures s[j].time >= s[i].time + (j - i) * FRAME
    decreases j - i
  {
    if i < j {
      Spread(s, last, i, j - 1);
      AlignedStep(s[j - 1].time, s[j].time);
    }
  }

  /** The newest change at or before `u` survives one more write, because fewer than a full
      window of frames separates `u` from `last`. */
  predicate Near(u: int, last: int) {
    last <= u + (MAX_CHANGES - 2) * FRAME
  }

  lemma SecondOldestSurvives(s: StateStream, last: int, u: int)
    requires Tidy(s, last) && |s| == MAX_CHANGES && Near(u, last)
    ensures s[1].time <= u
  {
    Spread(s, last, 1, MAX_CHANGES - 1);
  }

  /** The history still reaches back to `time`: nothing at or before it was ever evicted. */
  predicate Holds(s: StateStream, time: int) {
    s != [] && s[0].time <= time
  }

  ghost predicate Ascending(s: StateStream) {
    forall i, j :: 0 <= i < j < |s| ==> s[i].time < s[j].time
  }

  /** A reading is the newest change that is not later, and a default before the first one. */
  lemma ReadIs(s: StateStream, u: int, i: nat)
    requires Ascending(s)
    ensures s == [] || u < s[0].time ==> Read(s, u) == 0
    ensures i < |s| && s[i].time <= u && (i + 1 < |s| ==> u < s[i + 1].time) ==> Read(s, u) == s[i].value
  {
    if s == [] || u < s[0].time {
      OlderUnique(s, u + 1, 0);
    } else if i < |s| && s[i].time <= u && (i + 1 < |s| ==> u < s[i + 1].time) {
      OlderUnique(s, u + 1, i + 1);
    }
  }

  /** What a write leaves stored, where `at` changes are older: those, and itself unless it repeats the last
      of them. An optimized build also leaves a repeated newest value alone; a full history loses its
      oldest change to a new one. */
  lemma WriteStores(s: StateStream, optimized: bool, time: int, value: int, at: nat)
    requires Ascending(s) && at <= |s| <= 10
    requires (at > 0 ==> s[at - 1].time < time) && (at < |s| ==> time <= s[at].time)
    ensures var repeats := at > 0 && s[at - 1].value == value && (at < |s| || optimized);
      Write(s, optimized, time, value) ==
        if repeats then s[..at] else (if at == 10 then s[1..] else s[..at]) + [Change(time, value)]
  {
    OlderUnique(s, time, at);
    assert s[..|s|] == s;
  }

  lemma WriteTidy(s: StateStream, optimized: bool, time: int, value: int)
    requires Tidy(s, time) && Aligned(time) && 0 <= time
    ensures Tidy(Write(s, optimized, time, value), time)
  {
    var at := Older(s, time);
    OlderSplits(s, time);
    if at == |s| == MAX_CHANGES {
      SnocTidy(s[1..], time, value);
    } else {
      assert forall i :: 0 <= i < at ==> s[..at][i] == s[i];
      if at < MAX_CHANGES {
        SnocTidy(s[..at], time, value);
      }
    }
    assert s[..|s|] == s;
  }

  lemma SnocTidy(s: StateStream, time: int, value: int)
    requires Tidy(s, time - 1) && |s| < MAX_CHANGES && Aligned(time) && 0 <= time
    ensures Tidy(s + [Change(time, value)], time)
  {
  }

  lemma ReadNow(s: StateStream, optimized: bool, time: int, value: int, u: int)
    requires Tidy(s, time) && Aligned(time) && 0 <= time && time <= u
    ensures Read(Write(s, optimized, time, value), u) == value
  {
    OlderSplits(s, time);
    WriteTidy(s, optimized, time, value);
    var s' := Write(s, optimized, time, value);
    OlderUnique(s', u + 1, |s'|);
  }

  lemma ReadPast(s: StateStream, optimized: bool, time: int, value: int, u: int)
    requires Tidy(s, time) && Aligned(time) && 0 <= time && u < time
    ensures var s' := Write(s, optimized, time, value);
      && (Near(u, time - FRAME) ==> Read(s', u) == Read(s, u))
      && (Holds(s', u) ==> Holds(s, u) && Read(s', u) == Read(s, u))
  {
    var s', at := Write(s, optimized, time, value), Older(s, time);
    OlderSplits(s, time);
    WriteTidy(s, optimized, time, value);
    if s' == s {
    } else if at == |s| == MAX_CHANGES {
      ReadAfterEviction(s, time, value, u);
    } else {
      assert s'[..at] == s[..at];
      ReadBefore(s, s', at, u);
    }
  }

  /** What one write at the current frame does to every reading of the history. */
  lemma WriteEffect(s: StateStream, optimized: bool, time: int, value: int)
    requires Tidy(s, time) && Aligned(time) && 0 <= time
    ensures var s' := Write(s, optimized, time, value);
      && Tidy(s', time)
      && (forall u :: time <= u ==> Read(s', u) == value)
      && (forall u :: u < time && Near(u, time - FRAME) ==> Read(s', u) == Read(s, u))
      && (forall u :: u < time && Holds(s', u) ==> Holds(s, u) && Read(s', u) == Read(s, u))
  {
    WriteTidy(s, optimized, time, value);
    forall u | time <= u ensures Read(Write(s, optimized, time, value), u) == value {
      ReadNow(s, optimized, time, value, u);
    }
    forall u | u < time
      ensures var s' := Write(s, optimized, time, value);
        && (Near(u, time - FRAME) ==> Read(s', u) == Read(s, u))
        && (Holds(s', u) ==> Holds(s, u) && Read(s', u) == Read(s, u))
    {
      ReadPast(s, optimized, time, value, u);
    }
  }

  lemma ReadBefore(s: StateStream, s': StateStream, at: nat, u: int)
    requires at <= |s| && at <= |s'| && s'[..at] == s[..at] && Ascending(s) && Ascending(s')
    requires at < |s'| ==> u < s'[at].time
    requires at < |s| ==> u < s[at].time
    ensures Read(s', u) == Read(s, u) && (Holds(s', u) ==> Holds(s, u))
  {
    var n := Older(s, u + 1);
    OlderSplits(s, u + 1);
    assert n <= at;
    if n > 0 {
      assert s'[..at][n - 1] == s[..at][n - 1];
    }
    if n < at {
      assert s'[..at][n] == s[..at][n];
    }
    OlderUnique(s', u + 1, n);
    if at > 0 {
      assert s'[..at][0] == s[..at][0];
    }
  }

  lemma ReadAfterEviction(s: StateStream, time: int, value: int, u: int)
    requires Tidy(s, time - 1) && Aligned(time) && u < time && |s| == MAX_CHANGES
    ensures var s' := s[1..] + [Change(time, value)];
      Near(u, time - FRAME) || Holds(s', u) ==> Read(s', u) == Read(s, u) && Holds(s, u)
  {
    var s' := s[1..] + [Change(time, value)];
    if Near(u, time - FRAME) {
      TidyBefore(s, time);
      SecondOldestSurvives(s, time - FRAME, u);
    }
    if s[1].time <= u {
      ReadShifted(s, s', u);
    }
  }

  /** Frames before this one are at least one frame before it. */
  lemma TidyBefore(s: StateStream, time: int)
    requires Tidy(s, time - 1) && Aligned(time)
    ensures Tidy(s, time - FRAME)
  {
    forall i | 0 <= i < |s| ensures s[i].time <= time - FRAME {
      AlignedStep(s[i].time, time);
    }
  }

  lemma ReadShifted(s: StateStream, s': StateStream, u: int)
    requires |s| > 1 && s[1].time <= u && Ascending(s) && Ascending(s')
    requires |s'| == |s| && s'[..|s| - 1] == s[1..] && u < s'[|s| - 1].time
    ensures Read(s', u) == Read(s, u) && Holds(s, u)
  {
    var n := Older(s, u + 1);
    OlderSplits(s, u + 1);
    forall i | 0 <= i < |s| - 1 ensures s'[i] == s[i + 1] {
      assert s'[..|s| - 1][i] == s[1..][i];
    }
    OlderUnique(s', u + 1, n - 1);
  }

  lemma {:induction false} WriteAllEffect(s: StateStream, optimized: bool, time: int, values: seq<int>)
    requires Tidy(s, time) && Aligned(time) && 0 <= time
    ensures var s' := WriteAll(s, optimized, time, values);
      && Tidy(s', time)
      && (forall u :: time <= u ==> Read(s', u) == if values == [] then Read(s, u) else values[|values| - 1])
      && (forall u :: u < time && Near(u, time - FRAME) ==> Read(s', u) == Read(s, u))
      && (forall u :: u < time && Holds(s', u) ==> Holds(s, u) && Read(s', u) == Read(s, u))
  {
    if values != [] {
      var most := values[..|values| - 1];
      WriteAllEffect(s, optimized, time, most);
      WriteEffect(WriteAll(s, optimized, time, most), optimized, time, values[|values| - 1]);
    }
  }

  /** Rewinding changes no reading at or before the rewind point, and freezes every later one. */
  lemma RewindEffect(s: StateStream, last: int, time: int, floor: int)
    requires Tidy(s, last) && Aligned(floor) && floor <= time < floor + FRAME
    ensures var s' := Rewind(s, time);
      && Tidy(s', floor)
      && (forall u :: u <= time ==> Read(s', u) == Read(s, u))
      && (forall u :: time <= u ==> Read(s', u) == Read(s, time))
      && (forall u :: Holds(s', u) ==> Holds(s, u))
  {
    var s' := Rewind(s, time);
    OlderSplits(s, time + 1);
    forall i | 0 <= i < |s'| ensures s'[i].time <= floor {
      if s'[i].time > floor {
        AlignedStep(floor, s'[i].time);
      }
    }
    forall u | u <= time ensures Read(s', u) == Read(s, u) {
      ReadBefore(s, s', Older(s, time + 1), u);
    }
    forall u | time <= u ensures Read(s', u) == Read(s, time) {
      OlderUnique(s', u + 1, |s'|);
    }
  }

  /** Reading between two frame boundaries is reading at the earlier one. */
  lemma ReadOffFrame(s: StateStream, last: int, floor: int, u: int)
    requires Tidy(s, last) && Aligned(floor) && floor <= u < floor + FRAME
    ensures Read(s, u) == Read(s, floor)
  {
    OlderSplits(s, u + 1);
    OlderSplits(s, floor + 1);
    forall i | 0 <= i < |s| && s[i].time <= u ensures s[i].time <= floor {
      if s[i].time > floor {
        AlignedStep(floor, s[i].time);
      }
    }
    OlderUnique(s, u + 1, Older(s, floor + 1));
  }

  /** A history with one change on every frame from the one before `head` on. */
  function Busy(head: int): StateStream {
    seq(MAX_CHANGES, i => Change(head + (i - 1) * FRAME, i + 1))
  }

  /**
   * Stalling one frame later than MAX_CHANGES - 3 frames past the commit head would be too late:
   * the stalled frame's own write evicts the only change older than the commit head, and the
   * rewind to just before the commit head then reads a default value.
   */
  lemma OneMoreFrameIsTooMany(head: int, optimized: bool, value: int)
    requires Aligned(head) && FRAME <= head && value != MAX_CHANGES
    ensures var last := head + (MAX_CHANGES - 2) * FRAME;
      && Tidy(Busy(head), last)
      && Read(Busy(head), head - 1) == 1
      && Read(Rewind(Write(Busy(head), optimized, last + FRAME, value), last), head - 1) == 0
  {
    var s, last := Busy(head), head + (MAX_CHANGES - 2) * FRAME;
    BusyIsTidy(head);
    OlderUnique(s, head, 1);
    var t := s[1..] + [Change(last + FRAME, value)];
    OlderUnique(s, last + FRAME, |s|);
    assert Write(s, optimized, last + FRAME, value) == t;
    OlderUnique(t, last + 1, |t| - 1);
    assert Rewind(t, last) == s[1..];
    OlderUnique(s[1..], head, 0);
  }

  lemma BusyIsTidy(head: int)
    requires Aligned(head) && FRAME <= head
    ensures Tidy(Busy(head), head + (MAX_CHANGES - 2) * FRAME)
  {
    forall i | 0 <= i < MAX_CHANGES ensures Aligned(Busy(head)[i].time) {
      assert (head + (i - 1) * FRAME) % FRAME == 0;
    }
  }
}
