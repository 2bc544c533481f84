/** The stream registry of an endpoint manager, and the channels of logical endpoints. */
module Endpoints {

  class IncomingStream {
    constructor () {}
  }

  class OutgoingStream {
    constructor () {}
  }

  // ----- Splitting a list by what is referenced -----

  /** The streams that are in the set, or those that are not, in their order. */
  function Split<T(==)>(streams: seq<T>, referenced: set<T>, keep: bool): seq<T> {
    if streams == [] then []
    else
      var most, last := Split(streams[..|streams| - 1], referenced, keep), streams[|streams| - 1];
      if (last in referenced) == keep then most + [last] else most
  }

  ghost predicate Distinct<T>(streams: seq<T>) {
    forall i, j :: 0 <= i < j < |streams| ==> streams[i] != streams[j]
  }

  /** Ascending positions that a part of the list comes from. */
  ghost predicate ComesFrom<T>(part: seq<T>, streams: seq<T>, at: seq<nat>) {
    && |at| == |part|
    && (forall k :: 0 <= k < |at| ==> at[k] < |streams| && part[k] == streams[at[k]])
    && (forall j, k :: 0 <= j < k < |at| ==> at[j] < at[k])
  }

  lemma ComesFromLonger<T>(part: seq<T>, streams: seq<T>, at: seq<nat>)
    requires streams != [] && ComesFrom(part, streams[..|streams| - 1], at)
    ensures ComesFrom(part, streams, at)
    ensures ComesFrom(part + [streams[|streams| - 1]], streams, at + [|streams| - 1])
  {
  }

  /** Where the parts come from: every position goes to one part, and each part keeps the order. */
  lemma {:induction false} SplitPositions<T>(streams: seq<T>, referenced: set<T>, keep: bool) returns (at: seq<nat>)
    ensures ComesFrom(Split(streams, referenced, keep), streams, at)
    ensures forall i :: 0 <= i < |streams| ==> (i in at <==> (streams[i] in referenced) == keep)
  {
    if streams == [] {
      at := [];
    } else {
      var last := |streams| - 1;
      var most := streams[..last];
      at := SplitPositions(most, referenced, keep);
      ComesFromLonger(Split(most, referenced, keep), streams, at);
      assert forall i :: 0 <= i < last ==> most[i] == streams[i];
      if (streams[last] in referenced) == keep {
        at := at + [last];
        assert at[|at| - 1] == last;
      }
    }
  }

  lemma {:induction false} SplitConserves<T>(streams: seq<T>, referenced: set<T>)
    ensures multiset(streams)
      == multiset(Split(streams, referenced, true)) + multiset(Split(streams, referenced, false))
  {
    if streams != [] {
      SplitConserves(streams[..|streams| - 1], referenced);
      assert streams == streams[..|streams| - 1] + [streams[|streams| - 1]];
    }
  }

  lemma SplitKeepsDistinct<T>(streams: seq<T>, referenced: set<T>, keep: bool)
    requires Distinct(streams)
    ensures Distinct(Split(streams, referenced, keep))
  {
    var at := SplitPositions(streams, referenced, keep);
  }

  /** Splitting what was kept hands nothing back. */
  lemma {:induction false} SecondSplitIsEmpty<T>(streams: seq<T>, referenced: set<T>)
    ensures Split(Split(streams, referenced, true), referenced, false) == []
    ensures Split(Split(streams, referenced, true), referenced, true) == Split(streams, referenced, true)
  {
    if streams != [] {
      var most, last := streams[..|streams| - 1], streams[|streams| - 1];
      SecondSplitIsEmpty(most, referenced);
      var kept := Split(most, referenced, true);
      if last in referenced {
        assert (kept + [last])[..|kept|] == kept;
      }
    }
  }

  /** A list with the first occurrence of an element taken out. */
  function Without<T(==)>(streams: seq<T>, stream: T): seq<T> {
    if streams == [] then []
    else if streams[0] == stream then streams[1..]
    else [streams[0]] + Without(streams[1..], stream)
  }

  lemma {:induction false} WithoutAt<T>(streams: seq<T>, stream: T, at: nat)
    requires at < |streams| && streams[at] == stream && stream !in streams[..at]
    ensures Without(streams, stream) == streams[..at] + streams[at + 1..]
  {
    if at > 0 {
      assert streams[0] == streams[..at][0];
      WithoutAt(streams[1..], stream, at - 1);
      assert streams[1..][..at - 1] == streams[1..at];
    }
  }

  lemma {:induction false} WithoutAbsent<T>(streams: seq<T>, stream: T)
    requires stream !in streams
    ensures Without(streams, stream) == streams
  {
    if streams != [] {
      WithoutAbsent(streams[1..], stream);
    }
  }

  method Find<T(==)>(streams: seq<T>, stream: T) returns (iter: nat)
    ensures iter <= |streams| && stream !in streams[..iter] && (iter < |streams| ==> streams[iter] == stream)
  {
    iter := 0;
    while iter < |streams|
      invariant iter <= |streams| && stream !in streams[..iter]
    {
      if streams[iter] == stream {
        break;
      }
      iter := iter + 1;
    }
  }

  lemma {:induction false} WithoutIsMultiset<T>(streams: seq<T>, stream: T)
    ensures multiset(Without(streams, stream)) == multiset(streams) - multiset{stream}
  {
    if streams != [] {
      assert streams == [streams[0]] + streams[1..];
      if streams[0] != stream {
        WithoutIsMultiset(streams[1..], stream);
      }
    }
  }

  /** From a list without duplicates, taking out a stream takes out all there is of it, and only that. */
  lemma {:induction false} WithoutTakesOut<T>(streams: seq<T>, stream: T)
    requires Distinct(streams)
    ensures Distinct(Without(streams, stream))
    ensures forall s :: s in Without(streams, stream) <==> s in streams && s != stream
  {
    if streams != [] && streams[0] != stream {
      WithoutTakesOut(streams[1..], stream);
      var rest := Without(streams[1..], stream);
      assert streams[0] !in streams[1..];
      forall i | 0 <= i < |rest| ensures rest[i] != streams[0] {
        assert rest[i] in rest;
      }
    }
  }

  // ----- Logical endpoints -----

  datatype Viability = Preferred | Fallback

  /** The uses that a channel is listed for. */
  type ChannelSpec = seq<(nat, Viability)>

  class LogicalEndpoint {
    var incomingChannels: seq<(IncomingStream, ChannelSpec)>
    var outgoingChannels: seq<(OutgoingStream, ChannelSpec)>

    constructor ()
      ensures incomingChannels == [] && outgoingChannels == []
    {
      incomingChannels, outgoingChannels := [], [];
    }

    method AddIncomingChannel(stream: IncomingStream, spec: ChannelSpec)
      modifies this`incomingChannels
      ensures incomingChannels == old(incomingChannels) + [(stream, spec)]
    {
      incomingChannels := incomingChannels + [(stream, spec)];
    }

    method AddOutgoingChannel(stream: OutgoingStream, spec: ChannelSpec)
      modifies this`outgoingChannels
      ensures outgoingChannels == old(outgoingChannels) + [(stream, spec)]
    {
      outgoingChannels := outgoingChannels + [(stream, spec)];
    }

    ghost predicate RefersIn(stream: IncomingStream)
      reads this
    {
      exists i :: 0 <= i < |incomingChannels| && incomingChannels[i].0 == stream
    }

    ghost predicate RefersOut(stream: OutgoingStream)
      reads this
    {
      exists i :: 0 <= i < |outgoingChannels| && outgoingChannels[i].0 == stream
    }

    method HasIncomingStream(stream: IncomingStream) returns (has: bool)
      ensures has == RefersIn(stream)
      ensures has <==> exists i :: 0 <= i < |incomingChannels| && incomingChannels[i].0 == stream
    {
      for i := 0 to |incomingChannels|
        invariant forall j :: 0 <= j < i ==> incomingChannels[j].0 != stream
      {
        if incomingChannels[i].0 == stream {
          return true;
        }
      }
      return false;
    }

    method HasOutgoingStream(stream: OutgoingStream) returns (has: bool)
      ensures has == RefersOut(stream)
      ensures has <==> exists i :: 0 <= i < |outgoingChannels| && outgoingChannels[i].0 == stream
    {
      for i := 0 to |outgoingChannels|
        invariant forall j :: 0 <= j < i ==> outgoingChannels[j].0 != stream
      {
        if outgoingChannels[i].0 == stream {
          return true;
        }
      }
      return false;
    }
  }

  // ----- The manager -----

  type EndpointIdentifier = nat

  /** erase_if, for one value that stands for a hole. */
  function Erased<T(==)>(streams: seq<T>, hole: T): seq<T> {
    if streams == [] then []
    else
      var most, last := Erased(streams[..|streams| - 1], hole), streams[|streams| - 1];
      if last == hole then most else most + [last]
  }

  method EraseIf<T(==)>(streams: seq<T>, hole: T) returns (r: seq<T>)
    ensures r == Erased(streams, hole)
  {
    r := [];
    for i := 0 to |streams|
      invariant r == Erased(streams[..i], hole)
    {
      assert streams[..i + 1][..i] == streams[..i];
      if streams[i] != hole {
        r := r + [streams[i]];
      }
    }
    assert streams[..|streams|] == streams;
  }

  /** Every stream that is not referenced has been moved out of its place. */
  ghost predicate Extracted<T>(before: seq<T>, after: seq<T>, referenced: set<T>, hole: T, count: nat) {
    && count <= |before| == |after|
    && (forall i :: 0 <= i < count ==> after[i] == if before[i] in referenced then before[i] else hole)
    && (forall i :: count <= i < |before| ==> after[i] == before[i])
  }

  lemma {:induction false} EraseAfterExtract<T>(before: seq<T>, after: seq<T>, referenced: set<T>, hole: T)
    requires Extracted(before, after, referenced, hole, |before|) && hole !in before
    ensures Erased(after, hole) == Split(before, referenced, true)
  {
    if before != [] {
      var n := |before| - 1;
      EraseAfterExtract(before[..n], after[..n], referenced, hole);
    }
  }

  /** What both passes leave has no holes and no duplicates, and nothing left to extract. */
  lemma SplitLeaves<T>(before: seq<T>, referenced: set<T>, hole: T)
    requires Distinct(before) && hole !in before
    ensures var kept := Split(before, referenced, true);
      Distinct(kept) && hole !in kept && Split(kept, referenced, false) == []
  {
    SplitKeepsDistinct(before, referenced, true);
    var at := SplitPositions(before, referenced, true);
    SecondSplitIsEmpty(before, referenced);
  }

  class EndpointManager {
    var inStreams: seq<IncomingStream?>
    var outStreams: seq<OutgoingStream?>
    var logicalEndpoints: map<EndpointIdentifier, LogicalEndpoint>

    constructor ()
      ensures Valid() && inStreams == [] && outStreams == [] && logicalEndpoints == map[]
    {
      inStreams, outStreams, logicalEndpoints := [], [], map[];
    }

    /** Stored streams are there, and are stored once. */
    ghost predicate Valid()
      reads this
    {
      null !in inStreams && null !in outStreams && Distinct(inStreams) && Distinct(outStreams)
    }

    /** The incoming streams that some endpoint has a channel for. */
    ghost function ReferencedIn(): set<IncomingStream?>
      reads this`logicalEndpoints, logicalEndpoints.Values
    {
      set id, i | id in logicalEndpoints && 0 <= i < |logicalEndpoints[id].incomingChannels| ::
        logicalEndpoints[id].incomingChannels[i].0
    }

    ghost function ReferencedOut(): set<OutgoingStream?>
      reads this`logicalEndpoints, logicalEndpoints.Values
    {
      set id, i | id in logicalEndpoints && 0 <= i < |logicalEndpoints[id].outgoingChannels| ::
        logicalEndpoints[id].outgoingChannels[i].0
    }

    /** A stream that is stored already is refused; a null one is not. */
    method AddIncomingStream(stream: IncomingStream?) returns (added: IncomingStream?)
      requires Valid()
      modifies this`inStreams
      ensures inStreams == if stream in old(inStreams) then old(inStreams) else old(inStreams) + [stream]
      ensures added == if stream in old(inStreams) then null else stream
      ensures Valid() <==> stream != null
    {
      var iter := Find(inStreams, stream);
      if iter != |inStreams| {
        return null;
      }
      assert inStreams[..iter] == inStreams;
      inStreams := inStreams + [stream];
      assert inStreams[|inStreams| - 1] == stream;
      added := stream;
    }

    method AddOutgoingStream(stream: OutgoingStream?) returns (added: OutgoingStream?)
      requires Valid()
      modifies this`outStreams
      ensures outStreams == if stream in old(outStreams) then old(outStreams) else old(outStreams) + [stream]
      ensures added == if stream in old(outStreams) then null else stream
      ensures Valid() <==> stream != null
    {
      var iter := Find(outStreams, stream);
      if iter != |outStreams| {
        return null;
      }
      assert outStreams[..iter] == outStreams;
      outStreams := outStreams + [stream];
      assert outStreams[|outStreams| - 1] == stream;
      added := stream;
    }

    method RemoveIncomingStream(stream: IncomingStream?) returns (removed: IncomingStream?)
      requires Valid()
      modifies this`inStreams
      ensures Valid() && inStreams == Without(old(inStreams), stream) && stream !in inStreams
      ensures multiset(inStreams) == multiset(old(inStreams)) - multiset{stream}
      ensures removed == if stream in old(inStreams) then stream else null
    {
      WithoutTakesOut(inStreams, stream);
      WithoutIsMultiset(inStreams, stream);
      var iter := Find(inStreams, stream);
      removed := null;
      if iter != |inStreams| {
        WithoutAt(inStreams, stream, iter);
        removed := inStreams[iter];
        inStreams := inStreams[..iter] + inStreams[iter + 1..];
      } else {
        assert inStreams[..iter] == inStreams;
        WithoutAbsent(inStreams, stream);
      }
    }

    method RemoveOutgoingStream(stream: OutgoingStream?) returns (removed: OutgoingStream?)
      requires Valid()
      modifies this`outStreams
      ensures Valid() && outStreams == Without(old(outStreams), stream) && stream !in outStreams
      ensures multiset(outStreams) == multiset(old(outStreams)) - multiset{stream}
      ensures removed == if stream in old(outStreams) then stream else null
    {
      WithoutTakesOut(outStreams, stream);
      WithoutIsMultiset(outStreams, stream);
      var iter := Find(outStreams, stream);
      removed := null;
      if iter != |outStreams| {
        WithoutAt(outStreams, stream, iter);
        removed := outStreams[iter];
        outStreams := outStreams[..iter] + outStreams[iter + 1..];
      } else {
        assert outStreams[..iter] == outStreams;
        WithoutAbsent(outStreams, stream);
      }
    }

    method AddEndpoint(identifier: EndpointIdentifier) returns (endpoint: LogicalEndpoint)
      modifies this`logicalEndpoints
      ensures logicalEndpoints == old(logicalEndpoints)[identifier := endpoint]
      ensures if identifier in old(logicalEndpoints) then endpoint == old(logicalEndpoints[identifier])
        else fresh(endpoint) && endpoint.incomingChannels == [] && endpoint.outgoingChannels == []
      ensures ReferencedIn() == old(ReferencedIn()) && ReferencedOut() == old(ReferencedOut())
    {
      ghost var was := logicalEndpoints;
      if identifier !in logicalEndpoints {
        endpoint := new LogicalEndpoint();
        logicalEndpoints := logicalEndpoints[identifier := endpoint];
        assert forall id :: id in was ==> id in logicalEndpoints && logicalEndpoints[id] == was[id];
      } else {
        endpoint := logicalEndpoints[identifier];
      }
    }

    method RemoveEndpoint(identifier: EndpointIdentifier)
      modifies this`logicalEndpoints
      ensures logicalEndpoints == old(logicalEndpoints) - {identifier}
      ensures ReferencedIn() <= old(ReferencedIn()) && ReferencedOut() <= old(ReferencedOut())
    {
      logicalEndpoints := logicalEndpoints - {identifier};
    }

    method AnyHasIncoming(stream: IncomingStream) returns (hasStream: bool)
      ensures hasStream == (stream in ReferencedIn())
      ensures hasStream <==> exists id, i ::
        && id in logicalEndpoints && 0 <= i < |logicalEndpoints[id].incomingChannels|
        && logicalEndpoints[id].incomingChannels[i].0 == stream
    {
      var rest := logicalEndpoints.Keys;
      while rest != {}
        invariant rest <= logicalEndpoints.Keys
        invariant forall id :: id in logicalEndpoints && id !in rest ==> !logicalEndpoints[id].RefersIn(stream)
        decreases |rest|
      {
        var id :| id in rest;
        hasStream := logicalEndpoints[id].HasIncomingStream(stream);
        if hasStream {
          return true;
        }
        rest := rest - {id};
      }
      return false;
    }

    method AnyHasOutgoing(stream: OutgoingStream) returns (hasStream: bool)
      ensures hasStream == (stream in ReferencedOut())
      ensures hasStream <==> exists id, i ::
        && id in logicalEndpoints && 0 <= i < |logicalEndpoints[id].outgoingChannels|
        && logicalEndpoints[id].outgoingChannels[i].0 == stream
    {
      var rest := logicalEndpoints.Keys;
      while rest != {}
        invariant rest <= logicalEndpoints.Keys
        invariant forall id :: id in logicalEndpoints && id !in rest ==> !logicalEndpoints[id].RefersOut(stream)
        decreases |rest|
      {
        var id :| id in rest;
        hasStream := logicalEndpoints[id].HasOutgoingStream(stream);
        if hasStream {
          return true;
        }
        rest := rest - {id};
      }
      return false;
    }

    /** First pass: move each orphan out, leaving a hole where it was. */
    method ExtractIncoming() returns (incoming: seq<IncomingStream?>)
      requires null !in inStreams
      modifies this`inStreams
      ensures Extracted(old(inStreams), inStreams, old(ReferencedIn()), null, |inStreams|)
      ensures incoming == Split(old(inStreams), old(ReferencedIn()), false)
    {
      incoming := [];
      ghost var was := inStreams;
      for i := 0 to |inStreams|
        invariant Extracted(was, inStreams, old(ReferencedIn()), null, i)
        invariant incoming == Split(was[..i], old(ReferencedIn()), false)
      {
        assert was[..i + 1][..i] == was[..i];
        var hasStream := AnyHasIncoming(inStreams[i]);
        if !hasStream {
          incoming := incoming + [inStreams[i]];
          inStreams := inStreams[i := null];
        }
      }
      assert was[..|was|] == was;
    }

    method ExtractOutgoing() returns (outgoing: seq<OutgoingStream?>)
      requires null !in outStreams
      modifies this`outStreams
      ensures Extracted(old(outStreams), outStreams, old(ReferencedOut()), null, |outStreams|)
      ensures outgoing == Split(old(outStreams), old(ReferencedOut()), false)
    {
      outgoing := [];
      ghost var was := outStreams;
      for i := 0 to |outStreams|
        invariant Extracted(was, outStreams, old(ReferencedOut()), null, i)
        invariant outgoing == Split(was[..i], old(ReferencedOut()), false)
      {
        assert was[..i + 1][..i] == was[..i];
        var hasStream := AnyHasOutgoing(outStreams[i]);
        if !hasStream {
          outgoing := outgoing + [outStreams[i]];
          outStreams := outStreams[i := null];
        }
      }
      assert was[..|was|] == was;
    }

    /** First move the orphans out, then drop the holes they leave. */
    method RemoveOrphanedIncoming() returns (incoming: seq<IncomingStream?>)
      requires null !in inStreams && Distinct(inStreams)
      modifies this`inStreams
      ensures incoming == Split(old(inStreams), ReferencedIn(), false)
      ensures inStreams == Split(old(inStreams), ReferencedIn(), true)
      ensures null !in inStreams && Distinct(inStreams) && Split(inStreams, ReferencedIn(), false) == []
    {
      ghost var before := inStreams;
      incoming := ExtractIncoming();
      EraseAfterExtract(before, inStreams, ReferencedIn(), null);
      SplitLeaves(before, ReferencedIn(), null);
      inStreams := EraseIf(inStreams, null);
    }

    method RemoveOrphanedOutgoing() returns (outgoing: seq<OutgoingStream?>)
      requires null !in outStreams && Distinct(outStreams)
      modifies this`outStreams
      ensures outgoing == Split(old(outStreams), ReferencedOut(), false)
      ensures outStreams == Split(old(outStreams), ReferencedOut(), true)
      ensures null !in outStreams && Distinct(outStreams) && Split(outStreams, ReferencedOut(), false) == []
    {
      ghost var before := outStreams;
      outgoing := ExtractOutgoing();
      EraseAfterExtract(before, outStreams, ReferencedOut(), null);
      SplitLeaves(before, ReferencedOut(), null);
      outStreams := EraseIf(outStreams, null);
    }

    /** Orphans are handed back, the rest is kept, both in order; calling it again would hand back nothing.
        One lock covers both directions, so that doing one after the other makes no difference. */
    method RemoveOrphanedStreams() returns (incoming: seq<IncomingStream?>, outgoing: seq<OutgoingStream?>)
      requires Valid()
      modifies this`inStreams, this`outStreams
      ensures Valid()
      ensures incoming == Split(old(inStreams), ReferencedIn(), false)
      ensures inStreams == Split(old(inStreams), ReferencedIn(), true)
      ensures outgoing == Split(old(outStreams), ReferencedOut(), false)
      ensures outStreams == Split(old(outStreams), ReferencedOut(), true)
      ensures Split(inStreams, ReferencedIn(), false) == [] && Split(outStreams, ReferencedOut(), false) == []
    {
      incoming := RemoveOrphanedIncoming();
      outgoing := RemoveOrphanedOutgoing();
    }
  }
}
