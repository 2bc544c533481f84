/** Flattening: what the compiled entries' conditions mean, compared with jumping through the script. */
module DialogueMeaning {
  import opened Wrappers
  import opened Dialogue
  import opened DialogueScopes

  // ----- The executor's filter -----

  predicate Passes(entry: Entry, env: Environment) {
    && (forall key :: key in entry.forbidden ==> !Matches(env, key, entry.forbidden[key]))
    && (forall key :: key in entry.necessary ==> Matches(env, key, entry.necessary[key]))
  }

  /** Whether some condition of the map is met; entries come in whatever order the map yields them. */
  method AnyMatch(conditions: map<Text, Text>, env: Environment) returns (found: bool)
    ensures found <==> exists key :: key in conditions && key in env && env[key] == conditions[key]
  {
    var rest := conditions.Keys;
    while rest != {}
      invariant rest <= conditions.Keys
      invariant forall key :: key in conditions && key !in rest ==> !Matches(env, key, conditions[key])
      decreases |rest|
    {
      var key :| key in rest;
      if Matches(env, key, conditions[key]) {
        return true;
      }
      rest := rest - {key};
    }
    found := false;
  }

  method AnyUnmet(conditions: map<Text, Text>, env: Environment) returns (found: bool)
    ensures found <==> exists key :: key in conditions && (key in env ==> env[key] != conditions[key])
  {
    var rest := conditions.Keys;
    while rest != {}
      invariant rest <= conditions.Keys
      invariant forall key :: key in conditions && key !in rest ==> Matches(env, key, conditions[key])
      decreases |rest|
    {
      var key :| key in rest;
      if !Matches(env, key, conditions[key]) {
        return true;
      }
      rest := rest - {key};
    }
    found := false;
  }

  /** SkipUnmetConditions: on to the first entry that passes, or to the end of the sequence. */
  method SkipUnmetConditions(currentIndex: nat, sequence: Sequence, env: Environment) returns (index: nat)
    ensures currentIndex <= index
    ensures forall i :: currentIndex <= i < index && i < |sequence.entries| ==> !Passes(sequence.entries[i], env)
    ensures index < |sequence.entries| ==> Passes(sequence.entries[index], env)
    ensures index <= if currentIndex <= |sequence.entries| then |sequence.entries| else currentIndex
  {
    index := currentIndex;
    while index < |sequence.entries|
      invariant currentIndex <= index <= if currentIndex <= |sequence.entries| then |sequence.entries| else currentIndex
      invariant forall i :: currentIndex <= i < index && i < |sequence.entries| ==> !Passes(sequence.entries[i], env)
    {
      var entry := sequence.entries[index];
      var forbidden := AnyMatch(entry.forbidden, env);
      if forbidden {
        index := index + 1;
        continue;
      }
      var unmetNecessary := AnyUnmet(entry.necessary, env);
      if unmetNecessary {
        index := index + 1;
        continue;
      }
      return;
    }
  }

  /** An entry passes if every necessary condition is found with its value, and no forbidden one is. */
  lemma PassesIs(entry: Entry, env: Environment)
    ensures Passes(entry, env) <==>
      && (forall key :: key in entry.necessary ==> key in env && env[key] == entry.necessary[key])
      && (forall key :: key in entry.forbidden && key in env ==> env[key] != entry.forbidden[key])
  {
  }

  // ----- Entries and the lines they come from -----

  function ContentFrom(raw: seq<RawEntry>, from: nat): seq<nat>
    decreases |raw| - from
  {
    if from >= |raw| then []
    else (if HasContent(raw[from]) then [from] else []) + ContentFrom(raw, from + 1)
  }

  lemma {:induction false} ContentAppend(raw: seq<RawEntry>, from: nat)
    requires from < |raw|
    ensures var n := |raw| - 1;
      ContentFrom(raw, from) == ContentFrom(raw[..n], from) + if HasContent(raw[n]) then [n] else []
    decreases |raw| - from
  {
    if from + 1 < |raw| {
      ContentAppend(raw, from + 1);
    }
  }

  lemma {:induction false} ContentAscends(raw: seq<RawEntry>, from: nat)
    ensures forall k :: 0 <= k < |ContentFrom(raw, from)| ==>
      from <= ContentFrom(raw, from)[k] < |raw| && HasContent(raw[ContentFrom(raw, from)[k]])
    ensures forall j, k :: 0 <= j < k < |ContentFrom(raw, from)| ==>
      ContentFrom(raw, from)[j] < ContentFrom(raw, from)[k]
    decreases |raw| - from
  {
    if from < |raw| {
      ContentAscends(raw, from + 1);
    }
  }

  /** The entry carries the conditions of these scopes. */
  predicate Carries(entry: Entry, scopes: seq<Scope>) {
    entry.necessary == Conditions(scopes, false) && entry.forbidden == Conditions(scopes, true)
  }

  /** One entry a content line, in order, under the conditions of the scopes open on that line. */
  ghost predicate Flattened(raw: seq<RawEntry>, tr: seq<Control>, lines: seq<nat>, entries: seq<Entry>) {
    && |tr| == |raw| + 1 && |entries| == |lines|
    && forall k :: 0 <= k < |lines| ==> lines[k] < |raw| && Carries(entries[k], tr[lines[k]].scopes)
  }

  /** The second state has one more entry, under these scopes. */
  predicate AddsEntry(before: Sequence, after: Sequence, scopes: seq<Scope>) {
    && |after.entries| == |before.entries| + 1 && after.entries[..|before.entries|] == before.entries
    && Carries(after.entries[|before.entries|], scopes)
  }

  lemma CommandAddsEntry(s: State, r: RawEntry)
    requires IngestCommand(s, r).Some?
    ensures AddsEntry(s.sequence, IngestCommand(s, r).value.sequence, s.scopes)
  {
  }

  lemma SceneAddsEntry(s: State, r: RawEntry)
    requires IngestScene(s, r).Some?
    ensures AddsEntry(s.sequence, IngestScene(s, r).value.sequence, s.scopes)
  {
  }

  lemma SpeechAddsEntry(s: State, r: RawEntry)
    requires IngestSpeech(s, r).Some?
    ensures AddsEntry(s.sequence, IngestSpeech(s, r).value.sequence, s.scopes)
  {
  }

  lemma ContentAddsEntry(s: State, r: RawEntry)
    requires Ingest(s, r).Some? && HasContent(r)
    ensures AddsEntry(s.sequence, Ingest(s, r).value.sequence, s.scopes)
  {
    match r.kind
    case Command => CommandAddsEntry(s, r);
    case Scene => SceneAddsEntry(s, r);
    case Speech => SpeechAddsEntry(s, r);
  }

  lemma ControlAddsNothing(s: State, r: RawEntry)
    requires Ingest(s, r).Some? && !HasContent(r)
    ensures Ingest(s, r).value.sequence.entries == s.sequence.entries
  {
  }

  lemma {:induction false} LoadFlattens(raw: seq<RawEntry>)
    requires Load(raw).Some?
    ensures Flattened(raw, Trace(raw), ContentFrom(raw, 0), Load(raw).value.sequence.entries)
  {
    if raw != [] {
      var n := |raw| - 1;
      var most := raw[..n];
      LoadFlattens(most);
      LoadControl(most);
      ContentAppend(raw, 0);
      IngestEntries(Load(most).value, raw[n]);
      FlattenedOneMore(
        raw, Trace(raw), ContentFrom(most, 0), Load(most).value.sequence.entries,
        Load(raw).value.sequence.entries);
    }
  }

  /** One line's effect on the list of entries, whatever its kind. */
  predicate EntriesAfter(before: seq<Entry>, after: seq<Entry>, r: RawEntry, scopes: seq<Scope>) {
    if HasContent(r)
    then |after| == |before| + 1 && after[..|before|] == before && Carries(after[|before|], scopes)
    else after == before
  }

  lemma IngestEntries(s: State, r: RawEntry)
    requires Ingest(s, r).Some?
    ensures EntriesAfter(s.sequence.entries, Ingest(s, r).value.sequence.entries, r, s.scopes)
  {
    if HasContent(r) {
      ContentAddsEntry(s, r);
    } else {
      ControlAddsNothing(s, r);
    }
  }

  lemma FlattenedOneMore(raw: seq<RawEntry>, tr: seq<Control>, lines: seq<nat>, before: seq<Entry>, after: seq<Entry>)
    requires raw != [] && |tr| == |raw| + 1 && Flattened(raw[..|raw| - 1], tr[..|raw|], lines, before)
    requires EntriesAfter(before, after, raw[|raw| - 1], tr[|raw| - 1].scopes)
    ensures Flattened(raw, tr, lines + if HasContent(raw[|raw| - 1]) then [|raw| - 1] else [], after)
  {
    forall k | 0 <= k < |before| ensures after[k] == before[k] {
      assert after[k] == after[..|before|][k];
    }
  }

  // ----- Choosing lines by a flag each -----

  function Chosen(lines: seq<nat>, flags: seq<bool>): seq<nat>
    requires |lines| == |flags|
  {
    if lines == [] then []
    else (if flags[0] then [lines[0]] else []) + Chosen(lines[1..], flags[1..])
  }

  lemma {:induction false} ChosenAmong(lines: seq<nat>, flags: seq<bool>, line: nat)
    requires |lines| == |flags| && line !in lines
    ensures line !in Chosen(lines, flags)
  {
    if lines != [] {
      ChosenAmong(lines[1..], flags[1..], line);
    }
  }

  lemma {:induction false} ChosenTellsFlags(lines: seq<nat>, f: seq<bool>, g: seq<bool>)
    requires |lines| == |f| == |g| && forall j, k :: 0 <= j < k < |lines| ==> lines[j] < lines[k]
    requires Chosen(lines, f) == Chosen(lines, g)
    ensures f == g
  {
    if lines != [] {
      var f', g' := Chosen(lines[1..], f[1..]), Chosen(lines[1..], g[1..]);
      ChosenAmong(lines[1..], f[1..], lines[0]);
      ChosenAmong(lines[1..], g[1..], lines[0]);
      if f[0] {
        assert Chosen(lines, f)[0] == lines[0] && Chosen(lines, f)[1..] == f';
        assert Chosen(lines, g)[0] == lines[0];
        assert Chosen(lines, g)[1..] == g';
      } else {
        assert Chosen(lines, f) == f';
        assert !g[0] && Chosen(lines, g) == g';
      }
      ChosenTellsFlags(lines[1..], f[1..], g[1..]);
      assert f == [f[0]] + f[1..] && g == [g[0]] + g[1..];
    }
  }

  function PassFlags(entries: seq<Entry>, env: Environment): seq<bool> {
    seq(|entries|, k requires 0 <= k < |entries| => Passes(entries[k], env))
  }

  ghost function ActiveFlags(tr: seq<Control>, lines: seq<nat>, env: Environment): seq<bool>
    requires forall k :: 0 <= k < |lines| ==> lines[k] < |tr|
  {
    seq(|lines|, k requires 0 <= k < |lines| => Active(tr[lines[k]].scopes, env))
  }

  lemma ChosenCons(line: nat, rest: seq<nat>, flag: bool, flags: seq<bool>)
    requires |rest| == |flags|
    ensures Chosen([line] + rest, [flag] + flags) == (if flag then [line] else []) + Chosen(rest, flags)
  {
    assert ([line] + rest)[1..] == rest && ([flag] + flags)[1..] == flags;
  }

  lemma ActiveFlagsCons(tr: seq<Control>, line: nat, rest: seq<nat>, env: Environment)
    requires line < |tr| && forall k :: 0 <= k < |rest| ==> rest[k] < |tr|
    ensures ActiveFlags(tr, [line] + rest, env) == [Active(tr[line].scopes, env)] + ActiveFlags(tr, rest, env)
  {
  }

  lemma {:induction false} ActiveLinesAreChosen(raw: seq<RawEntry>, tr: seq<Control>, from: nat, env: Environment)
    requires |tr| == |raw| + 1 && from <= |raw|
    ensures forall k :: 0 <= k < |ContentFrom(raw, from)| ==> ContentFrom(raw, from)[k] < |tr|
    ensures ActiveLines(raw, tr, from, env)
      == Chosen(ContentFrom(raw, from), ActiveFlags(tr, ContentFrom(raw, from), env))
    decreases |raw| - from
  {
    ContentAscends(raw, from);
    if from < |raw| {
      ActiveLinesAreChosen(raw, tr, from + 1, env);
      var rest := ContentFrom(raw, from + 1);
      if HasContent(raw[from]) {
        ActiveFlagsCons(tr, from, rest, env);
        ChosenCons(from, rest, Active(tr[from].scopes, env), ActiveFlags(tr, rest, env));
        assert ContentFrom(raw, from) == [from] + rest;
      } else {
        assert ContentFrom(raw, from) == rest;
      }
    }
  }

  /** The content lines whose entries the executor shows. */
  ghost function Shown(raw: seq<RawEntry>, env: Environment): seq<nat>
    requires Accepted(raw)
  {
    LoadFlattens(raw);
    Chosen(ContentFrom(raw, 0), PassFlags(Compile(raw).entries, env))
  }

  // ----- Playing a sequence -----

  /** The entries from one index on that pass, by index. */
  function PassingFrom(entries: seq<Entry>, env: Environment, from: nat): (r: seq<nat>)
    ensures forall i :: 0 <= i < |r| ==> r[i] < |entries|
    decreases |entries| - from
  {
    if from >= |entries| then []
    else (if Passes(entries[from], env) then [from] else []) + PassingFrom(entries, env, from + 1)
  }

  lemma {:induction false} NonePass(entries: seq<Entry>, env: Environment, from: nat, to: nat)
    requires from <= to <= |entries| && forall i :: from <= i < to ==> !Passes(entries[i], env)
    ensures PassingFrom(entries, env, from) == PassingFrom(entries, env, to)
    decreases |entries| - from
  {
    if from < to {
      NonePass(entries, env, from + 1, to);
    }
  }

  lemma PlayedOn(played: seq<nat>, entries: seq<Entry>, env: Environment, index: nat)
    requires index < |entries| && Passes(entries[index], env)
    ensures played + PassingFrom(entries, env, index) == played + [index] + PassingFrom(entries, env, index + 1)
  {
  }

  /** Skip unmet conditions, play the entry that is reached, and go on after it. */
  method Play(sequence: Sequence, env: Environment) returns (played: seq<nat>)
    ensures played == PassingFrom(sequence.entries, env, 0)
  {
    played := [];
    var currentIndex, numEntries := 0, |sequence.entries|;
    while currentIndex < numEntries
      invariant currentIndex <= numEntries
      invariant played + PassingFrom(sequence.entries, env, currentIndex) == PassingFrom(sequence.entries, env, 0)
    {
      var index := SkipUnmetConditions(currentIndex, sequence, env);
      NonePass(sequence.entries, env, currentIndex, index);
      currentIndex := index;
      if currentIndex >= numEntries {
        break;
      }
      PlayedOn(played, sequence.entries, env, currentIndex);
      played := played + [currentIndex];
      currentIndex := currentIndex + 1;
    }
  }

  function LinesAt(lines: seq<nat>, indices: seq<nat>): seq<nat>
    requires forall i :: 0 <= i < |indices| ==> indices[i] < |lines|
  {
    seq(|indices|, i requires 0 <= i < |indices| => lines[indices[i]])
  }

  lemma {:induction false} ChosenIsPassing(lines: seq<nat>, entries: seq<Entry>, env: Environment, from: nat)
    requires |lines| == |entries| && from <= |lines|
    ensures Chosen(lines[from..], PassFlags(entries, env)[from..]) == LinesAt(lines, PassingFrom(entries, env, from))
    decreases |lines| - from
  {
    if from < |lines| {
      ChosenIsPassing(lines, entries, env, from + 1);
      var flags := PassFlags(entries, env);
      assert lines[from..][1..] == lines[from + 1..] && flags[from..][1..] == flags[from + 1..];
      assert flags[from..][0] == Passes(entries[from], env);
    }
  }

  /** What is shown is what gets played. */
  lemma ShownIsPlayed(raw: seq<RawEntry>, env: Environment)
    requires Accepted(raw)
    ensures |ContentFrom(raw, 0)| == |Compile(raw).entries|
    ensures Shown(raw, env) == LinesAt(ContentFrom(raw, 0), PassingFrom(Compile(raw).entries, env, 0))
  {
    LoadFlattens(raw);
    var lines, entries := ContentFrom(raw, 0), Compile(raw).entries;
    ChosenIsPassing(lines, entries, env, 0);
    assert lines[0..] == lines && PassFlags(entries, env)[0..] == PassFlags(entries, env);
  }

  // ----- What a flat list of conditions keeps of a scope stack -----

  /** No scope further out has this one's polarity and key. */
  predicate Outermost(scopes: seq<Scope>, i: nat) {
    i < |scopes| &&
    forall j :: 0 <= j < i ==>
      !(scopes[j].negated == scopes[i].negated && scopes[j].key == scopes[i].key)
  }

  predicate Decides(scopes: seq<Scope>, i: nat, negated: bool, key: Text) {
    Outermost(scopes, i) && scopes[i].negated == negated && scopes[i].key == key
  }

  lemma {:induction false} DecidedByOutermost(scopes: seq<Scope>, negated: bool, key: Text)
    ensures key in Conditions(scopes, negated) <==>
      exists i :: 0 <= i < |scopes| && scopes[i].negated == negated && scopes[i].key == key
    ensures forall i: nat :: Decides(scopes, i, negated, key) ==> Conditions(scopes, negated)[key] == scopes[i].val
    ensures key in Conditions(scopes, negated) ==> exists i: nat :: Decides(scopes, i, negated, key)
  {
    if scopes != [] {
      var n := |scopes| - 1;
      var outer := scopes[..n];
      DecidedByOutermost(outer, negated, key);
      assert forall i :: 0 <= i < n ==> outer[i] == scopes[i];
      forall i: nat | Decides(scopes, i, negated, key) ensures Conditions(scopes, negated)[key] == scopes[i].val {
        if i < n {
          assert Decides(outer, i, negated, key);
        }
      }
      if key in Conditions(outer, negated) {
        var i: nat :| Decides(outer, i, negated, key);
        assert Decides(scopes, i, negated, key);
      } else if key in Conditions(scopes, negated) {
        assert Decides(scopes, n, negated, key);
      }
    }
  }

  predicate OutermostHold(scopes: seq<Scope>, env: Environment) {
    forall i :: 0 <= i < |scopes| && Outermost(scopes, i) ==> ScopeHolds(scopes[i], env)
  }

  /** Without any proviso: an entry passes exactly when the outermost scope of each polarity and key holds. */
  lemma PassesIffOutermostHold(entry: Entry, scopes: seq<Scope>, env: Environment)
    requires Carries(entry, scopes)
    ensures Passes(entry, env) <==> OutermostHold(scopes, env)
  {
    forall i | 0 <= i < |scopes| && Outermost(scopes, i) && Passes(entry, env) ensures ScopeHolds(scopes[i], env) {
      DecidedByOutermost(scopes, scopes[i].negated, scopes[i].key);
      assert Decides(scopes, i, scopes[i].negated, scopes[i].key);
    }
    if OutermostHold(scopes, env) {
      forall key | key in entry.forbidden ensures !Matches(env, key, entry.forbidden[key]) {
        DecidedByOutermost(scopes, true, key);
        var i: nat :| Decides(scopes, i, true, key);
        assert ScopeHolds(scopes[i], env);
      }
      forall key | key in entry.necessary ensures Matches(env, key, entry.necessary[key]) {
        DecidedByOutermost(scopes, false, key);
        var i: nat :| Decides(scopes, i, false, key);
        assert ScopeHolds(scopes[i], env);
      }
    }
  }

  ghost function OutermostFlags(tr: seq<Control>, lines: seq<nat>, env: Environment): seq<bool>
    requires forall k :: 0 <= k < |lines| ==> lines[k] < |tr|
  {
    seq(|lines|, k requires 0 <= k < |lines| => OutermostHold(tr[lines[k]].scopes, env))
  }

  /** For every accepted script: shown are, in order, the content lines whose outermost scopes hold. */
  lemma ShownByOutermost(raw: seq<RawEntry>, env: Environment)
    requires Accepted(raw)
    ensures forall k :: 0 <= k < |ContentFrom(raw, 0)| ==> ContentFrom(raw, 0)[k] < |raw|
    ensures Shown(raw, env) == Chosen(ContentFrom(raw, 0), OutermostFlags(Trace(raw), ContentFrom(raw, 0), env))
  {
    LoadFlattens(raw);
    var lines, entries, tr := ContentFrom(raw, 0), Compile(raw).entries, Trace(raw);
    forall k | 0 <= k < |lines| ensures Passes(entries[k], env) <==> OutermostHold(tr[lines[k]].scopes, env) {
      PassesIffOutermostHold(entries[k], tr[lines[k]].scopes, env);
    }
    assert PassFlags(entries, env) == OutermostFlags(tr, lines, env);
  }

  // ----- When nothing is lost -----

  /** This scope follows from the flat conditions: it is one of them, or, being negative, some necessary
      condition wants another value under its key. */
  predicate Implied(scope: Scope, necessary: map<Text, Text>, forbidden: map<Text, Text>) {
    if scope.negated then
      || (scope.key in forbidden && forbidden[scope.key] == scope.val)
      || (scope.key in necessary && necessary[scope.key] != scope.val)
    else scope.key in necessary && necessary[scope.key] == scope.val
  }

  predicate Contradictory(necessary: map<Text, Text>, forbidden: map<Text, Text>) {
    exists key :: key in necessary && key in forbidden && necessary[key] == forbidden[key]
  }

  /** The stack flattens without loss: its conditions cannot be met at all, or they imply every scope. */
  predicate Faithful(scopes: seq<Scope>) {
    var necessary, forbidden := Conditions(scopes, false), Conditions(scopes, true);
    || Contradictory(necessary, forbidden)
    || (forall i :: 0 <= i < |scopes| ==> Implied(scopes[i], necessary, forbidden))
  }

  lemma ActivePasses(entry: Entry, scopes: seq<Scope>, env: Environment)
    requires Carries(entry, scopes) && Active(scopes, env)
    ensures Passes(entry, env)
  {
    PassesIffOutermostHold(entry, scopes, env);
  }

  lemma FaithfulSuffices(entry: Entry, scopes: seq<Scope>, env: Environment)
    requires Carries(entry, scopes) && Faithful(scopes)
    ensures Passes(entry, env) <==> Active(scopes, env)
  {
    if Active(scopes, env) {
      ActivePasses(entry, scopes, env);
    } else {
      var i :| 0 <= i < |scopes| && !ScopeHolds(scopes[i], env);
      if Contradictory(entry.necessary, entry.forbidden) {
        var key :| key in entry.necessary && key in entry.forbidden && entry.necessary[key] == entry.forbidden[key];
        assert Matches(env, key, entry.necessary[key]) ==> Matches(env, key, entry.forbidden[key]);
      } else {
        assert Implied(scopes[i], entry.necessary, entry.forbidden);
      }
    }
  }

  /** An environment that tells an unfaithful stack from its flat conditions. */
  lemma Witness(entry: Entry, scopes: seq<Scope>) returns (env: Environment)
    requires Carries(entry, scopes) && !Faithful(scopes)
    ensures Passes(entry, env) && !Active(scopes, env)
  {
    var i :| 0 <= i < |scopes| && !Implied(scopes[i], entry.necessary, entry.forbidden);
    var scope := scopes[i];
    DecidedByOutermost(scopes, scope.negated, scope.key);
    env := if scope.negated then entry.necessary[scope.key := scope.val] else entry.necessary;
    forall key | key in entry.forbidden ensures !Matches(env, key, entry.forbidden[key]) {
      if key in entry.necessary {
        assert entry.necessary[key] != entry.forbidden[key];
      }
    }
    assert !ScopeHolds(scopes[i], env);
  }

  /** No two open scopes of the same polarity ask for different values of one key. */
  predicate NoClash(scopes: seq<Scope>) {
    forall i, j :: 0 <= i < j < |scopes| && scopes[i].negated == scopes[j].negated && scopes[i].key == scopes[j].key ==>
      scopes[i].val == scopes[j].val
  }

  lemma NoClashIsFaithful(scopes: seq<Scope>)
    requires NoClash(scopes)
    ensures Faithful(scopes)
  {
    forall i | 0 <= i < |scopes| ensures Implied(scopes[i], Conditions(scopes, false), Conditions(scopes, true)) {
      var scope := scopes[i];
      DecidedByOutermost(scopes, scope.negated, scope.key);
      var j: nat :| Decides(scopes, j, scope.negated, scope.key);
    }
  }

  // ----- Flattening preserves meaning -----

  lemma ShownIsExecutedIff(raw: seq<RawEntry>, env: Environment)
    requires Accepted(raw)
    ensures |ContentFrom(raw, 0)| == |Compile(raw).entries|
    ensures forall k :: 0 <= k < |ContentFrom(raw, 0)| ==> ContentFrom(raw, 0)[k] < |raw|
    ensures Shown(raw, env) == Execute(raw, 0, env) <==>
      forall k :: 0 <= k < |ContentFrom(raw, 0)| ==>
        (Passes(Compile(raw).entries[k], env) <==> Active(Trace(raw)[ContentFrom(raw, 0)[k]].scopes, env))
  {
    var lines, entries, tr := ContentFrom(raw, 0), Compile(raw).entries, Trace(raw);
    AcceptedIsControlled(raw);
    TraceStart(raw);
    JumpsFollowScopes(raw, tr, 0, env);
    LoadFlattens(raw);
    ContentAscends(raw, 0);
    ActiveLinesAreChosen(raw, tr, 0, env);
    var f, g := PassFlags(entries, env), ActiveFlags(tr, lines, env);
    if Shown(raw, env) == Execute(raw, 0, env) {
      ChosenTellsFlags(lines, f, g);
      forall k | 0 <= k < |lines| ensures Passes(entries[k], env) <==> Active(tr[lines[k]].scopes, env) {
        assert f[k] == g[k];
      }
    }
    if forall k :: 0 <= k < |lines| ==> (Passes(entries[k], env) <==> Active(tr[lines[k]].scopes, env)) {
      assert f == g;
    }
  }

  /** No content line stands under scopes that flatten with a loss. */
  ghost predicate AllFaithful(raw: seq<RawEntry>) {
    forall line :: 0 <= line < |raw| && HasContent(raw[line]) ==> Faithful(Trace(raw)[line].scopes)
  }

  lemma FlatteningKeepsMeaning(raw: seq<RawEntry>, env: Environment)
    requires Accepted(raw) && AllFaithful(raw)
    ensures Shown(raw, env) == Execute(raw, 0, env)
  {
    ShownIsExecutedIff(raw, env);
    LoadFlattens(raw);
    ContentAscends(raw, 0);
    var lines, entries, tr := ContentFrom(raw, 0), Compile(raw).entries, Trace(raw);
    forall k | 0 <= k < |lines| ensures Passes(entries[k], env) <==> Active(tr[lines[k]].scopes, env) {
      FaithfulSuffices(entries[k], tr[lines[k]].scopes, env);
    }
  }

  lemma {:induction false} ContentIsListed(raw: seq<RawEntry>, from: nat, line: nat) returns (k: nat)
    requires from <= line < |raw| && HasContent(raw[line])
    ensures k < |ContentFrom(raw, from)| && ContentFrom(raw, from)[k] == line
    decreases |raw| - from
  {
    if from == line {
      k := 0;
    } else {
      k := ContentIsListed(raw, from + 1, line);
      k := if HasContent(raw[from]) then k + 1 else k;
    }
  }

  lemma UnfaithfulLineShows(raw: seq<RawEntry>, line: nat) returns (env: Environment)
    requires Accepted(raw) && line < |raw| && HasContent(raw[line]) && !Faithful(Trace(raw)[line].scopes)
    ensures Shown(raw, env) != Execute(raw, 0, env)
  {
    LoadFlattens(raw);
    var k := ContentIsListed(raw, 0, line);
    env := Witness(Compile(raw).entries[k], Trace(raw)[line].scopes);
    ShownIsExecutedIff(raw, env);
  }

  /** The flat entries mean what the script means, whatever the conditions are, exactly when every
      content line's scopes flatten without loss. */
  lemma FlatteningIsExact(raw: seq<RawEntry>)
    requires Accepted(raw)
    ensures (forall env :: Shown(raw, env) == Execute(raw, 0, env)) <==> AllFaithful(raw)
  {
    if AllFaithful(raw) {
      forall env ensures Shown(raw, env) == Execute(raw, 0, env) {
        FlatteningKeepsMeaning(raw, env);
      }
    } else {
      var line :| 0 <= line < |raw| && HasContent(raw[line]) && !Faithful(Trace(raw)[line].scopes);
      var env := UnfaithfulLineShows(raw, line);
      assert Shown(raw, env) != Execute(raw, 0, env);
    }
  }

  /** In particular for scripts in which no two open scopes of one polarity disagree about a key. */
  lemma FlatteningWithoutClash(raw: seq<RawEntry>, env: Environment)
    requires Accepted(raw)
    requires forall line :: 0 <= line < |raw| && HasContent(raw[line]) ==>
      NoClash(Trace(raw)[line].scopes)
    ensures Shown(raw, env) == Execute(raw, 0, env)
  {
    forall line | 0 <= line < |raw| && HasContent(raw[line]) ensures Faithful(Trace(raw)[line].scopes) {
      NoClashIsFaithful(Trace(raw)[line].scopes);
    }
    FlatteningKeepsMeaning(raw, env);
  }

  // ----- A script whose meaning flattening changes -----

  function Line(kind: RawKind, primary: Text, secondary: Text, tertiary: Text): RawEntry {
    RawEntry(1, kind, false, 0, primary, secondary, tertiary, [])
  }

  const OUTER := Scope("out", "mood", "good", false)
  const INNER := Scope("in", "mood", "bad", false)

  /** A command under two conditions that want different values of one key. */
  const CLASH := [
    Line(Layout, "any", "", ""), Line(CondIf, "out", "mood", "good"), Line(CondIf, "in", "mood", "bad"),
    Line(Command, "act", "", ""), Line(Label, "in", "", ""), Line(Label, "out", "", "")]

  lemma LoadUpTo(raw: seq<RawEntry>, n: nat)
    requires n < |raw|
    ensures Load(raw[..n + 1]) == if Load(raw[..n]).None? then None else Ingest(Load(raw[..n]).value, raw[n])
  {
    assert raw[..n + 1][..n] == raw[..n];
  }

  lemma ClashOpens()
    ensures Load(CLASH[..3]).Some?
    ensures var s := Load(CLASH[..3]).value;
      s.scopes == [OUTER, INNER] && s.usedLabels == map[] && s.sequence.layout == "any"
  {
    assert CLASH[..0] == [];
    LoadUpTo(CLASH, 0);
    LoadUpTo(CLASH, 1);
    assert Load(CLASH[..2]).value.scopes == [OUTER];
    LoadUpTo(CLASH, 2);
  }

  lemma ClashActs()
    ensures Load(CLASH[..4]).Some?
    ensures var s := Load(CLASH[..4]).value; s.scopes == [OUTER, INNER] && s.usedLabels == map[]
  {
    ClashOpens();
    LoadUpTo(CLASH, 3);
  }

  lemma ClashCloses()
    ensures Load(CLASH[..5]).Some? && Load(CLASH[..5]).value.scopes == [OUTER]
    ensures Load(CLASH[..5]).value.usedLabels.Keys == {"in"}
  {
    ClashActs();
    LoadUpTo(CLASH, 4);
  }

  lemma ClashIsAccepted()
    ensures Accepted(CLASH)
  {
    ClashCloses();
    LoadUpTo(CLASH, 5);
    assert CLASH[..6] == CLASH;
  }

  lemma ClashIsUnfaithful()
    ensures !Faithful([OUTER, INNER])
  {
    var scopes := [OUTER, INNER];
    assert scopes[..1] == [OUTER] && [OUTER][..0] == [];
    assert Conditions([OUTER], false) == map["mood" := "good"] && Conditions([OUTER], true) == map[];
    assert Conditions(scopes, false) == map["mood" := "good"] && Conditions(scopes, true) == map[];
    assert !Implied(scopes[1], Conditions(scopes, false), Conditions(scopes, true));
  }

  /** The jumps never reach the command, yet there is an environment in which its entry passes. */
  lemma ClashChangesMeaning() returns (env: Environment)
    ensures Accepted(CLASH) && Shown(CLASH, env) != Execute(CLASH, 0, env)
  {
    ClashIsAccepted();
    AcceptedIsControlled(CLASH);
    TraceStart(CLASH);
    var tr := Trace(CLASH);
    assert tr[0 + 1] == ControlStep(tr[0], CLASH[0]);
    assert tr[1 + 1] == ControlStep(tr[1], CLASH[1]);
    assert tr[2 + 1] == ControlStep(tr[2], CLASH[2]);
    assert tr[3].scopes == [OUTER, INNER];
    ClashIsUnfaithful();
    env := UnfaithfulLineShows(CLASH, 3);
  }
}
