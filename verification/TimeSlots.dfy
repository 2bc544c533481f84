/** The frame-pack editor's time slots: two parallel arrays shifted in place, and the commands that undo. */
module TimeSlots {
  import opened Wrappers

  newtype uint8 = x: int | 0 <= x < 0x100
  newtype int8 = x: int | -0x80 <= x < 0x80

  /** IDs of managed textures and colliders; zero is the invalid one. */
  type ID = nat
  const INVALID: ID := 0

  datatype TimeSlot = TimeSlot(
    texture: ID, collider: ID, textureOriginX: int8, textureOriginY: int8, colliderOriginX: int8, colliderOriginY: int8)

  const DEFAULT_SLOT := TimeSlot(INVALID, INVALID, 0, 0, 0, 0)
  const DEFAULT_SUSTAIN: uint8 := 1

  // ----- Sequences -----

  function Inserted<T>(s: seq<T>, index: nat, x: T): seq<T>
    requires index <= |s|
  {
    s[..index] + [x] + s[index..]
  }

  function Removed<T>(s: seq<T>, index: nat): seq<T>
    requires index < |s|
  {
    s[..index] + s[index + 1..]
  }

  /** A new slot looks like the one before it, with nothing to draw and nothing to collide with yet. */
  function FreshSlot(slots: seq<TimeSlot>, index: nat): TimeSlot
    requires index <= |slots|
  {
    if index == 0 then DEFAULT_SLOT else slots[index - 1].(texture := INVALID, collider := INVALID)
  }

  function FreshSustain(sustains: seq<uint8>, index: nat): uint8
    requires index <= |sustains|
  {
    if index == 0 then DEFAULT_SUSTAIN else sustains[index - 1]
  }

  /** With literal values: nothing to draw or collide with, the origins and the sustain of the slot before,
      and in front of all others no offset and one frame. */
  lemma FreshSlotIs(slots: seq<TimeSlot>, sustains: seq<uint8>, index: nat)
    requires index <= |slots| == |sustains|
    ensures var slot, sustain := FreshSlot(slots, index), FreshSustain(sustains, index);
      && slot.texture == 0 && slot.collider == 0
      && (index == 0 ==>
            && slot.textureOriginX == slot.textureOriginY == slot.colliderOriginX == slot.colliderOriginY == 0
            && sustain == 1)
      && (index > 0 ==>
            && slot.textureOriginX == slots[index - 1].textureOriginX
            && slot.textureOriginY == slots[index - 1].textureOriginY
            && slot.colliderOriginX == slots[index - 1].colliderOriginX
            && slot.colliderOriginY == slots[index - 1].colliderOriginY
            && sustain == sustains[index - 1])
    ensures DEFAULT_SLOT == TimeSlot(0, 0, 0, 0, 0, 0) && DEFAULT_SUSTAIN == 1
  {
  }

  /** Position by position. */
  lemma InsertedAt<T>(s: seq<T>, index: nat, x: T, i: nat)
    requires index <= |s| && i <= |s|
    ensures |Inserted(s, index, x)| == |s| + 1
    ensures Inserted(s, index, x)[i] == if i < index then s[i] else if i == index then x else s[i - 1]
  {
  }

  lemma RemovedAt<T>(s: seq<T>, index: nat, i: nat)
    requires index < |s| && i + 1 < |s|
    ensures |Removed(s, index)| == |s| - 1 && Removed(s, index)[i] == if i < index then s[i] else s[i + 1]
  {
  }

  lemma InsertThenRemove<T>(s: seq<T>, index: nat, x: T)
    requires index <= |s|
    ensures Removed(Inserted(s, index, x), index) == s
  {
    var grown := Inserted(s, index, x);
    assert grown[..index] == s[..index] && grown[index + 1..] == s[index..];
  }

  /** Everything from `index` to before `count` has moved up by one, over what was at `count`. */
  function ShiftedUp<T>(s: seq<T>, index: nat, count: nat): seq<T>
    requires index <= count < |s|
  {
    s[..index + 1] + s[index..count] + s[count + 1..]
  }

  lemma ShiftUpStep<T>(s: seq<T>, index: nat, count: nat)
    requires 0 < index <= count < |s|
    ensures var t := ShiftedUp(s, index, count);
      |t| == |s| && t[index := t[index - 1]] == ShiftedUp(s, index - 1, count)
  {
  }

  lemma ShiftUpInserts<T>(s: seq<T>, index: nat, count: nat, x: T)
    requires index <= count < |s|
    ensures var t := ShiftedUp(s, index, count); |t| == |s|
    ensures ShiftedUp(s, index, count)[index := x][..count + 1] == Inserted(s[..count], index, x)
    ensures ShiftedUp(s, index, count)[index := x][count + 1..] == s[count + 1..]
  {
  }

  /** Everything after `index` and up to `to` has moved down by one, over what was at `index`. */
  function ShiftedDown<T>(s: seq<T>, index: nat, to: nat): seq<T>
    requires index <= to < |s|
  {
    s[..index] + s[index + 1..to + 1] + s[to..]
  }

  lemma ShiftNothing<T>(s: seq<T>, index: nat)
    requires index < |s|
    ensures ShiftedDown(s, index, index) == s
  {
  }

  lemma ShiftDownStep<T>(s: seq<T>, index: nat, to: nat)
    requires index <= to && to + 1 < |s|
    ensures var t := ShiftedDown(s, index, to); |t| == |s| && t[to := t[to + 1]] == ShiftedDown(s, index, to + 1)
  {
  }

  lemma ShiftDownRemoves<T>(s: seq<T>, index: nat, count: nat, x: T)
    requires index < count <= |s|
    ensures |ShiftedDown(s, index, count - 1)| == |s|
    ensures ShiftedDown(s, index, count - 1)[count - 1 := x][..count - 1] == Removed(s[..count], index)
    ensures ShiftedDown(s, index, count - 1)[count - 1 := x][count - 1..] == [x] + s[count..]
  {
  }

  // ----- The assertion before a removal -----

  const SIZE_MAX: nat := 0xFFFF_FFFF_FFFF_FFFF

  /** numSlots - 1 > 0, in unsigned arithmetic that wraps below zero. */
  predicate RemovalAsserts(numSlots: uint8) {
    (numSlots as nat + SIZE_MAX) % (SIZE_MAX + 1) > 0
  }

  lemma RemovalAssertsIff(numSlots: uint8)
    ensures RemovalAsserts(numSlots) <==> numSlots != 1
  {
  }

  // ----- The frame pack -----

  class FramePack {
    const maxTimeSlots: uint8
    const timeSlots: array<TimeSlot>
    const timeSlotSustains: array<uint8>
    var numTimeSlots: uint8

    constructor (maxTimeSlots: uint8)
      ensures Valid() && fresh(timeSlots) && fresh(timeSlotSustains)
      ensures this.maxTimeSlots == maxTimeSlots && numTimeSlots == 0
    {
      this.maxTimeSlots, numTimeSlots := maxTimeSlots, 0;
      timeSlots := new TimeSlot[maxTimeSlots as nat](_ => DEFAULT_SLOT);
      timeSlotSustains := new uint8[maxTimeSlots as nat](_ => DEFAULT_SUSTAIN);
    }

    ghost predicate Valid()
      reads this
    {
      timeSlots.Length == timeSlotSustains.Length == maxTimeSlots as nat && numTimeSlots <= maxTimeSlots
    }

    /** The live slots. */
    function Slots(): (slots: seq<TimeSlot>)
      requires Valid()
      reads this, timeSlots
      ensures |slots| == numTimeSlots as nat
    {
      timeSlots[..numTimeSlots as nat]
    }

    function Sustains(): (sustains: seq<uint8>)
      requires Valid()
      reads this, timeSlotSustains
      ensures |sustains| == numTimeSlots as nat
    {
      timeSlotSustains[..numTimeSlots as nat]
    }

    method CopySlot(from: nat, to: nat)
      requires Valid() && from < maxTimeSlots as nat && to < maxTimeSlots as nat
      modifies timeSlots, timeSlotSustains
      ensures timeSlots[..] == old(timeSlots[..])[to := old(timeSlots[from])]
      ensures timeSlotSustains[..] == old(timeSlotSustains[..])[to := old(timeSlotSustains[from])]
    {
      timeSlots[to] := timeSlots[from];
      timeSlotSustains[to] := timeSlotSustains[from];
    }

    method PushEverythingOver(slotIndex: nat)
      requires Valid() && numTimeSlots < maxTimeSlots && slotIndex <= numTimeSlots as nat
      modifies timeSlots, timeSlotSustains
      ensures timeSlots[..] == ShiftedUp(old(timeSlots[..]), slotIndex, numTimeSlots as nat)
      ensures timeSlotSustains[..] == ShiftedUp(old(timeSlotSustains[..]), slotIndex, numTimeSlots as nat)
    {
      var numSlots := numTimeSlots as nat;
      ghost var slots, sustains := timeSlots[..], timeSlotSustains[..];
      var i := numSlots;
      while i > slotIndex
        invariant slotIndex <= i <= numSlots
        invariant timeSlots[..] == ShiftedUp(slots, i, numSlots)
        invariant timeSlotSustains[..] == ShiftedUp(sustains, i, numSlots)
      {
        ShiftUpStep(slots, i, numSlots);
        ShiftUpStep(sustains, i, numSlots);
        CopySlot(i - 1, i);
        i := i - 1;
      }
    }

    method InsertTimeSlotBefore(slotIndex: nat)
      requires Valid() && numTimeSlots < maxTimeSlots && slotIndex <= numTimeSlots as nat
      modifies this`numTimeSlots, timeSlots, timeSlotSustains
      ensures Valid() && numTimeSlots == old(numTimeSlots) + 1
      ensures Slots() == Inserted(old(Slots()), slotIndex, FreshSlot(old(Slots()), slotIndex))
      ensures Sustains() == Inserted(old(Sustains()), slotIndex, FreshSustain(old(Sustains()), slotIndex))
      ensures timeSlots[numTimeSlots as nat..] == old(timeSlots[numTimeSlots as nat + 1..])
      ensures timeSlotSustains[numTimeSlots as nat..] == old(timeSlotSustains[numTimeSlots as nat + 1..])
      ensures timeSlots[slotIndex].texture == 0 && timeSlots[slotIndex].collider == 0
      ensures timeSlotSustains[slotIndex] == if slotIndex == 0 then 1 else old(timeSlotSustains[slotIndex - 1])
    {
      var numSlots := numTimeSlots as nat;
      ghost var slots, sustains := timeSlots[..], timeSlotSustains[..];
      ghost var freshSlot, freshSustain := FreshSlot(Slots(), slotIndex), FreshSustain(Sustains(), slotIndex);
      PushEverythingOver(slotIndex);
      ShiftUpInserts(slots, slotIndex, numSlots, freshSlot);
      ShiftUpInserts(sustains, slotIndex, numSlots, freshSustain);
      if slotIndex != 0 {
        timeSlots[slotIndex] := timeSlots[slotIndex - 1].(texture := INVALID, collider := INVALID);
        timeSlotSustains[slotIndex] := timeSlotSustains[slotIndex - 1];
      } else {
        timeSlots[slotIndex] := DEFAULT_SLOT;
        timeSlotSustains[slotIndex] := DEFAULT_SUSTAIN;
      }
      assert timeSlots[..] == ShiftedUp(slots, slotIndex, numSlots)[slotIndex := freshSlot];
      assert timeSlotSustains[..] == ShiftedUp(sustains, slotIndex, numSlots)[slotIndex := freshSustain];
      numTimeSlots := numTimeSlots + 1;
      assert Slots() == timeSlots[..][..numSlots + 1] && Sustains() == timeSlotSustains[..][..numSlots + 1];
      assert timeSlots[numSlots + 1..] == timeSlots[..][numSlots + 1..];
      assert timeSlotSustains[numSlots + 1..] == timeSlotSustains[..][numSlots + 1..];
    }

    method PullOneBack(ghost slots: seq<TimeSlot>, ghost sustains: seq<uint8>, ghost index: nat, i: nat)
      requires Valid() && index <= i && i + 1 < |slots| == |sustains| == maxTimeSlots as nat
      requires timeSlots[..] == ShiftedDown(slots, index, i) && timeSlotSustains[..] == ShiftedDown(sustains, index, i)
      modifies timeSlots, timeSlotSustains
      ensures timeSlots[..] == ShiftedDown(slots, index, i + 1)
      ensures timeSlotSustains[..] == ShiftedDown(sustains, index, i + 1)
    {
      ShiftDownStep(slots, index, i);
      ShiftDownStep(sustains, index, i);
      CopySlot(i + 1, i);
    }

    method PullEverythingBack(slotIndex: nat)
      requires Valid() && slotIndex < numTimeSlots as nat
      modifies timeSlots, timeSlotSustains
      ensures timeSlots[..] == ShiftedDown(old(timeSlots[..]), slotIndex, numTimeSlots as nat - 1)
      ensures timeSlotSustains[..] == ShiftedDown(old(timeSlotSustains[..]), slotIndex, numTimeSlots as nat - 1)
    {
      var last := numTimeSlots as nat - 1;
      ghost var slots, sustains := timeSlots[..], timeSlotSustains[..];
      var i := slotIndex;
      while i < last
        invariant slotIndex <= i <= last
        invariant timeSlots[..] == ShiftedDown(slots, slotIndex, i)
        invariant timeSlotSustains[..] == ShiftedDown(sustains, slotIndex, i)
      {
        PullOneBack(slots, sustains, slotIndex, i);
        i := i + 1;
      }
    }

    /** Past the last slot there is nothing to pull back. */
    method CloseGap(slotIndex: nat, ghost index: nat)
      requires Valid() && numTimeSlots > 0 && slotIndex <= numTimeSlots as nat
      requires index == if slotIndex < numTimeSlots as nat then slotIndex else numTimeSlots as nat - 1
      modifies timeSlots, timeSlotSustains
      ensures timeSlots[..] == ShiftedDown(old(timeSlots[..]), index, numTimeSlots as nat - 1)
      ensures timeSlotSustains[..] == ShiftedDown(old(timeSlotSustains[..]), index, numTimeSlots as nat - 1)
    {
      if slotIndex < numTimeSlots as nat {
        PullEverythingBack(slotIndex);
      } else {
        ShiftNothing(timeSlots[..], index);
        ShiftNothing(timeSlotSustains[..], index);
      }
    }

    method DropLastSlot()
      requires Valid() && numTimeSlots > 0
      modifies this`numTimeSlots, timeSlots, timeSlotSustains
      ensures Valid() && numTimeSlots == old(numTimeSlots) - 1
      ensures timeSlots[..] == old(timeSlots[..])[numTimeSlots as nat := DEFAULT_SLOT]
      ensures timeSlotSustains[..] == old(timeSlotSustains[..])[numTimeSlots as nat := DEFAULT_SUSTAIN]
    {
      timeSlots[numTimeSlots as nat - 1] := DEFAULT_SLOT;
      timeSlotSustains[numTimeSlots as nat - 1] := DEFAULT_SUSTAIN;
      numTimeSlots := numTimeSlots - 1;
    }

    /** An index just past the end is allowed, and removes the last slot. `asserted` is the outcome of the
        assertion that a slot stays; a build without assertions goes on in either case. */
    method RemoveTimeSlotAt(slotIndex: nat) returns (asserted: bool)
      requires Valid() && numTimeSlots > 0 && slotIndex <= numTimeSlots as nat
      modifies this`numTimeSlots, timeSlots, timeSlotSustains
      ensures Valid() && numTimeSlots == old(numTimeSlots) - 1 && asserted == RemovalAsserts(old(numTimeSlots))
      ensures var index := if slotIndex <= numTimeSlots as nat then slotIndex else numTimeSlots as nat;
        Slots() == Removed(old(Slots()), index) && Sustains() == Removed(old(Sustains()), index)
      ensures timeSlots[numTimeSlots as nat..] == [DEFAULT_SLOT] + old(timeSlots[numTimeSlots as nat..])
      ensures timeSlotSustains[numTimeSlots as nat..]
        == [DEFAULT_SUSTAIN] + old(timeSlotSustains[numTimeSlots as nat..])
    {
      asserted := RemovalAsserts(numTimeSlots);
      var numSlots := numTimeSlots as nat;
      var last := numSlots - 1;
      ghost var slots, sustains := timeSlots[..], timeSlotSustains[..];
      ghost var index := if slotIndex <= last then slotIndex else last;
      CloseGap(slotIndex, index);
      ShiftDownRemoves(slots, index, numSlots, DEFAULT_SLOT);
      ShiftDownRemoves(sustains, index, numSlots, DEFAULT_SUSTAIN);
      DropLastSlot();
      assert Slots() == timeSlots[..][..last] && Sustains() == timeSlotSustains[..][..last];
      assert timeSlots[last..] == timeSlots[..][last..] && timeSlotSustains[last..] == timeSlotSustains[..][last..];
      assert old(Slots()) == slots[..numSlots] && old(Sustains()) == sustains[..numSlots];
    }
  }

  // ----- The editor -----

  class FramePackEditor {
    /** The frame pack that is locked for modification, or null while its ID is invalid. */
    const framePack: FramePack?
    var editingFrame: uint8

    constructor (framePack: FramePack?)
      ensures this.framePack == framePack && editingFrame == 0
    {
      this.framePack, editingFrame := framePack, 0;
    }

    /** What a command may write to besides the editor itself. */
    function Footprint(): set<object> {
      if framePack == null then {} else {framePack, framePack.timeSlots, framePack.timeSlotSustains}
    }

    /** `chosen` is the texture that the user's file loads as, if they pick one that can be mapped. */
    static method ChangeTexture(fpack: FramePack, slotIndex: nat, chosen: Option<ID>) returns (success: bool)
      requires fpack.Valid() && slotIndex < fpack.numTimeSlots as nat
      modifies fpack.timeSlots
      ensures success == chosen.Some?
      ensures fpack.timeSlots[..] ==
        if success then old(fpack.timeSlots[..])[slotIndex := old(fpack.timeSlots[slotIndex]).(texture := chosen.value)]
        else old(fpack.timeSlots[..])
    {
      if chosen.None? {
        return false;
      }
      fpack.timeSlots[slotIndex] := fpack.timeSlots[slotIndex].(texture := chosen.value);
      success := true;
    }

    /** The last slot cannot be deleted. */
    method CommandMetaDeleteFrame()
      requires framePack != null ==> framePack.Valid() && editingFrame <= framePack.numTimeSlots
      modifies Footprint()
      ensures framePack != null ==> framePack.Valid()
      ensures framePack != null && old(framePack.numTimeSlots) <= 1 ==>
        framePack.Slots() == old(framePack.Slots()) && framePack.Sustains() == old(framePack.Sustains())
      ensures framePack != null && old(framePack.numTimeSlots) > 1 ==>
        var last := old(framePack.numTimeSlots) as nat - 1;
        var index := if editingFrame as nat <= last then editingFrame as nat else last;
        && framePack.Slots() == Removed(old(framePack.Slots()), index)
        && framePack.Sustains() == Removed(old(framePack.Sustains()), index)
    {
      if framePack == null {
        return;
      }
      if framePack.numTimeSlots <= 1 {
        return;
      }
      var asserted := framePack.RemoveTimeSlotAt(editingFrame as nat);
      assert asserted;
    }

    /** What a command that inserts at this index has to leave behind: an undone insertion also resets
        the slot that it used beyond the live ones. */
    twostate predicate InsertedOrUndone(new index: nat, chosen: Option<ID>)
      requires framePack != null && old(framePack.Valid()) && framePack.Valid()
      requires index <= old(framePack.numTimeSlots) as nat < framePack.maxTimeSlots as nat
      reads this, framePack, framePack.timeSlots, framePack.timeSlotSustains
    {
      var slots, sustains := old(framePack.Slots()), old(framePack.Sustains());
      if chosen.Some? then
        && framePack.Slots() == Inserted(slots, index, FreshSlot(slots, index).(texture := chosen.value))
        && framePack.Sustains() == Inserted(sustains, index, FreshSustain(sustains, index))
      else
        && framePack.Slots() == slots && framePack.Sustains() == sustains
        && framePack.timeSlots[|slots|..]
            == [DEFAULT_SLOT] + old(framePack.timeSlots[framePack.numTimeSlots as nat + 1..])
        && framePack.timeSlotSustains[|slots|..]
            == [DEFAULT_SUSTAIN] + old(framePack.timeSlotSustains[framePack.numTimeSlots as nat + 1..])
    }

    /** The part that both commands share; `index` is where they put the editing frame meanwhile. The undo
        always restores, but its assertion fails exactly when there was no slot before. */
    method InsertTexture(index: nat, chosen: Option<ID>) returns (asserted: bool)
      requires framePack != null && framePack.Valid() && framePack.numTimeSlots < framePack.maxTimeSlots
      requires index <= framePack.numTimeSlots as nat
      modifies Footprint()
      ensures editingFrame == old(editingFrame) && framePack.Valid() && InsertedOrUndone(index, chosen)
      ensures asserted == (chosen.Some? || old(framePack.numTimeSlots) > 0)
    {
      asserted := true;
      ghost var slots, sustains := framePack.Slots(), framePack.Sustains();
      framePack.InsertTimeSlotBefore(index);
      ghost var grown := framePack.Slots();
      var success := ChangeTexture(framePack, index, chosen);
      if !success {
        assert framePack.Slots() == grown;
        InsertThenRemove(slots, index, FreshSlot(slots, index));
        InsertThenRemove(sustains, index, FreshSustain(sustains, index));
        RemovalAssertsIff(framePack.numTimeSlots);
        asserted := framePack.RemoveTimeSlotAt(index);
      } else {
        assert framePack.Slots() == grown[index := grown[index].(texture := chosen.value)];
      }
    }

    method CommandTextureInsertBefore(chosen: Option<ID>) returns (asserted: bool)
      requires framePack != null ==>
        framePack.Valid() && framePack.numTimeSlots < framePack.maxTimeSlots && editingFrame <= framePack.numTimeSlots
      modifies Footprint()
      ensures editingFrame == old(editingFrame)
      ensures asserted == (framePack == null || chosen.Some? || old(framePack.numTimeSlots) > 0)
      ensures framePack != null ==> framePack.Valid() && InsertedOrUndone(old(editingFrame) as nat, chosen)
    {
      if framePack == null {
        return true;
      }
      asserted := InsertTexture(editingFrame as nat, chosen);
    }

    method CommandTextureInsertAfter(chosen: Option<ID>)
      requires framePack != null ==>
        framePack.Valid() && framePack.numTimeSlots < framePack.maxTimeSlots && editingFrame < framePack.numTimeSlots
      modifies this`editingFrame, Footprint()
      ensures editingFrame == if framePack != null && chosen.Some? then old(editingFrame) + 1 else old(editingFrame)
      ensures framePack != null ==> framePack.Valid() && InsertedOrUndone(old(editingFrame) as nat + 1, chosen)
    {
      if framePack == null {
        return;
      }
      editingFrame := editingFrame + 1;
      var asserted := InsertTexture(editingFrame as nat, chosen);
      assert asserted;
      if chosen.None? {
        editingFrame := editingFrame - 1;
      }
    }
  }
}
