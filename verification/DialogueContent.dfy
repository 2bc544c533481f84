/** Which scripts compile, line by line, and what becomes of layout, command and scene lines. */
module DialogueContent {
  import opened Wrappers
  import opened Dialogue
  import opened DialogueScopes
  import opened DialogueMeaning
  import opened DialogueSpeech

  // ----- What an entry holds of its line -----

  /** Exactly the keys of the pairs, each with the value of the last pair that has it. */
  ghost predicate HoldsPairs(params: map<Text, Text>, pairs: seq<(Text, Text)>) {
    && (forall key :: key in params <==> exists i :: 0 <= i < |pairs| && pairs[i].0 == key)
    && (forall i :: 0 <= i < |pairs| && (forall j :: i < j < |pairs| ==> pairs[j].0 != pairs[i].0) ==>
          pairs[i].0 in params && params[pairs[i].0] == pairs[i].1)
  }

  lemma OnePairMore(params: map<Text, Text>, pairs: seq<(Text, Text)>)
    requires pairs != [] && HoldsPairs(params, pairs[..|pairs| - 1])
    ensures var last := pairs[|pairs| - 1]; HoldsPairs(params[last.0 := last.1], pairs)
  {
    var n := |pairs| - 1;
    var params', most := params[pairs[n].0 := pairs[n].1], pairs[..n];
    assert forall i :: 0 <= i < n ==> most[i] == pairs[i];
    forall key ensures key in params' <==> exists i :: 0 <= i < |pairs| && pairs[i].0 == key {
      if key in params {
        var i :| 0 <= i < n && most[i].0 == key;
        assert pairs[i].0 == key;
      }
    }
    forall i | 0 <= i < |pairs| && (forall j :: i < j < |pairs| ==> pairs[j].0 != pairs[i].0)
      ensures pairs[i].0 in params' && params'[pairs[i].0] == pairs[i].1
    {
      if i < n {
        assert pairs[n].0 != pairs[i].0;
        assert most[i].0 in params;
      }
    }
  }

  lemma {:induction false} PairsAreHeld(pairs: seq<(Text, Text)>)
    ensures HoldsPairs(ParamMap(pairs), pairs)
  {
    if pairs != [] {
      var n := |pairs| - 1;
      var most := pairs[..n];
      PairsAreHeld(most);
      OnePairMore(ParamMap(most), pairs);
    }
  }

  /** The entry says what the command or scene line does. */
  ghost predicate Does(entry: Entry, r: RawEntry) {
    && (r.kind.Command? ==> entry.kind == CommandEntry) && (r.kind.Scene? ==> entry.kind == SceneEntry)
    && entry.primary == r.primary && HoldsPairs(entry.params, r.params)
    && entry.locID == 0 && entry.expression == "" && entry.fallbackText == ""
  }

  lemma IngestDoes(s: State, r: RawEntry)
    requires (r.kind.Command? || r.kind.Scene?) && Ingest(s, r).Some?
    ensures var entries := Ingest(s, r).value.sequence.entries;
      |entries| == |s.sequence.entries| + 1 && Does(entries[|s.sequence.entries|], r)
  {
    PairsAreHeld(r.params);
  }

  lemma {:induction false} LoadDoes(raw: seq<RawEntry>, n: nat, k: nat)
    requires n <= |raw| && Load(raw[..n]).Some? && k < |ContentFrom(raw[..n], 0)| && ContentFrom(raw[..n], 0)[k] < n
    requires var r := raw[ContentFrom(raw[..n], 0)[k]]; r.kind.Command? || r.kind.Scene?
    ensures k < |Load(raw[..n]).value.sequence.entries|
    ensures Does(Load(raw[..n]).value.sequence.entries[k], raw[ContentFrom(raw[..n], 0)[k]])
  {
    LoadUpTo(raw, n - 1);
    ContentOneMore(raw, n);
    var s := Load(raw[..n - 1]).value;
    if k < |ContentFrom(raw[..n - 1], 0)| {
      ContentAscends(raw[..n - 1], 0);
      LoadDoes(raw, n - 1, k);
      EntriesStay(s, raw[n - 1]);
    } else {
      LoadFlattens(raw[..n - 1]);
      IngestDoes(s, raw[n - 1]);
    }
  }

  /** In an accepted script, every command and scene line's entry is of that kind, with the line's name and
      parameters. */
  lemma ContentIsStored(raw: seq<RawEntry>, line: nat) returns (k: nat)
    requires Accepted(raw) && line < |raw| && (raw[line].kind.Command? || raw[line].kind.Scene?)
    ensures k < |ContentFrom(raw, 0)| == |Compile(raw).entries| && ContentFrom(raw, 0)[k] == line
    ensures Does(Compile(raw).entries[k], raw[line])
  {
    k := ContentIsListed(raw, 0, line);
    LoadFlattens(raw);
    assert raw[..|raw|] == raw;
    LoadDoes(raw, |raw|, k);
  }

  // ----- What came before a line -----

  predicate HasLayout(raw: seq<RawEntry>, n: nat)
    requires n <= |raw|
  {
    exists j :: 0 <= j < n && raw[j].kind.Layout?
  }

  predicate HasAlias(raw: seq<RawEntry>, n: nat, name: Text)
    requires n <= |raw|
  {
    exists j :: 0 <= j < n && raw[j].kind.Alias? && raw[j].primary == name
  }

  predicate HasLabel(raw: seq<RawEntry>, n: nat, name: Text)
    requires n <= |raw|
  {
    exists j :: 0 <= j < n && LabelFor(raw[j], name)
  }

  /** The scopes open on line n, as the lines before it say. */
  function OpenOn(raw: seq<RawEntry>, n: nat): seq<Scope>
    requires n <= |raw|
  {
    Trace(raw[..n])[n].scopes
  }

  /** What the loader's state has of that. */
  ghost predicate Knows(raw: seq<RawEntry>, n: nat, s: State)
    requires n <= |raw|
  {
    && (s.sequence.layout != "" <==> HasLayout(raw, n))
    && (forall j :: 0 <= j < n && raw[j].kind.Layout? ==> s.sequence.layout == raw[j].primary)
    && (forall name :: name in s.usedLabels <==> HasLabel(raw, n, name))
  }

  lemma IngestKnows(raw: seq<RawEntry>, n: nat, s: State)
    requires n < |raw| && Knows(raw, n, s) && Ingest(s, raw[n]).Some?
    ensures Knows(raw, n + 1, Ingest(s, raw[n]).value)
  {
    var s', r := Ingest(s, raw[n]).value, raw[n];
    IngestNotes(s, r);
    forall name ensures name in s'.usedLabels <==> HasLabel(raw, n + 1, name) {
      assert HasLabel(raw, n + 1, name) <==> HasLabel(raw, n, name) || LabelFor(raw[n], name);
    }
  }

  lemma IngestNotes(s: State, r: RawEntry)
    requires Ingest(s, r).Some?
    ensures var s' := Ingest(s, r).value;
      && s'.sequence.layout == (if r.kind.Layout? then r.primary else s.sequence.layout)
      && (r.kind.Layout? ==> r.primary != "" && s.sequence.layout == "")
      && (forall name :: name in s'.usedLabels <==> name in s.usedLabels || LabelFor(r, name))
  {
  }

  lemma {:induction false} LoadKnows(raw: seq<RawEntry>, n: nat)
    requires n <= |raw| && Load(raw[..n]).Some?
    ensures Knows(raw, n, Load(raw[..n]).value)
  {
    if n > 0 {
      LoadUpTo(raw, n - 1);
      LoadKnows(raw, n - 1);
      IngestKnows(raw, n - 1, Load(raw[..n - 1]).value);
    }
  }

  /** The compiled layout is that of the script's layout line, of which there is one at most. */
  lemma LayoutIsStored(raw: seq<RawEntry>, line: nat)
    requires Accepted(raw) && line < |raw| && raw[line].kind.Layout?
    ensures Compile(raw).layout == raw[line].primary != ""
    ensures forall j :: 0 <= j < |raw| && raw[j].kind.Layout? ==> j == line
  {
    assert raw[..|raw|] == raw;
    LoadKnows(raw, |raw|);
    forall j | 0 <= j < |raw| && raw[j].kind.Layout? ensures j == line {
      OneLayout(raw, if j < line then j else line, if j < line then line else j);
    }
  }

  lemma OneLayout(raw: seq<RawEntry>, i: nat, j: nat)
    requires Accepted(raw) && i <= j < |raw| && raw[i].kind.Layout? && raw[j].kind.Layout?
    ensures i == j
  {
    PrefixLoads(raw, j + 1);
    PrefixLoads(raw, j);
    LoadUpTo(raw, j);
    LoadKnows(raw, j);
  }

  // ----- Which lines are taken -----

  predicate Bare(r: RawEntry) {
    r.primary != "" && r.secondary == "" && r.tertiary == ""
  }

  predicate NoneNamed(scopes: seq<Scope>, name: Text) {
    forall i :: 0 <= i < |scopes| ==> scopes[i].name != name
  }

  predicate FullPairs(pairs: seq<(Text, Text)>) {
    forall i :: 0 <= i < |pairs| ==> pairs[i].0 != "" && pairs[i].1 != ""
  }

  /** Everything that one line needs: its own fields, and what came before it. */
  ghost predicate Fits(raw: seq<RawEntry>, n: nat)
    requires n < |raw|
  {
    var r := raw[n];
    match r.kind
    case Alias =>
      r.primary != "" && r.secondary != "" && r.tertiary == "" && r.isCharAlias && !HasAlias(raw, n, r.primary)
    case Layout => Bare(r) && !HasLayout(raw, n)
    case Command => Bare(r) && HasLayout(raw, n) && FullPairs(r.params)
    case Scene => Bare(r) && HasLayout(raw, n) && FullPairs(r.params)
    case Speech =>
      && r.tertiary != ""
      && (r.primary == "" ==> exists j :: 0 <= j < n && raw[j].kind.Speech?)
      && (r.secondary == "" ==> exists j :: 0 <= j < n && raw[j].kind.Speech? && Speaker(raw, j) == Speaker(raw, n))
    case Label => Bare(r) && !HasLabel(raw, n, r.primary)
    case CondIf => r.primary != "" && r.secondary != "" && r.tertiary != "" && NoneNamed(OpenOn(raw, n), r.primary)
    case CondUnless => r.primary != "" && r.secondary != "" && r.tertiary != "" && NoneNamed(OpenOn(raw, n), r.primary)
    case CondElse =>
      var open := OpenOn(raw, n);
      Bare(r) && open != [] && open[|open| - 1].name == r.primary
    case Whitespace => false
    case Invalid => false
  }

  lemma AliasIsKnown(raw: seq<RawEntry>, n: nat, name: Text)
    requires n <= |raw|
    ensures name in AliasesBefore(raw, n) <==> HasAlias(raw, n, name)
  {
    if name in AliasesBefore(raw, n) {
      var a := AliasComesFrom(raw, n, name);
    }
    if HasAlias(raw, n, name) {
      var j :| 0 <= j < n && raw[j].kind.Alias? && raw[j].primary == name;
      ShorthandIsKnown(raw, j, n);
    }
  }

  lemma LineIsTakenIff(raw: seq<RawEntry>, n: nat)
    requires n < |raw| && Load(raw[..n]).Some?
    ensures Load(raw[..n + 1]).Some? <==> Fits(raw, n)
  {
    LoadUpTo(raw, n);
    var kind := raw[n].kind;
    if kind.Speech? {
      SpeechRefusedIff(raw, n);
    } else if Opens(raw[n]) || kind.CondElse? {
      LoadControl(raw[..n]);
      ScopeIsTakenIff(raw, n, Load(raw[..n]).value);
    } else if kind.Alias? {
      LoadRemembers(raw, n);
      AliasIsKnown(raw, n, raw[n].primary);
      AliasIsTakenIff(raw, n, Load(raw[..n]).value);
    } else {
      LoadKnows(raw, n);
      OtherIsTakenIff(raw, n, Load(raw[..n]).value);
    }
  }

  lemma ScopeIsTakenIff(raw: seq<RawEntry>, n: nat, s: State)
    requires n < |raw| && (Opens(raw[n]) || raw[n].kind.CondElse?) && s.scopes == OpenOn(raw, n)
    ensures Ingest(s, raw[n]).Some? <==> Fits(raw, n)
  {
  }

  lemma AliasIsTakenIff(raw: seq<RawEntry>, n: nat, s: State)
    requires n < |raw| && raw[n].kind.Alias? && (raw[n].primary in s.aliases <==> HasAlias(raw, n, raw[n].primary))
    ensures Ingest(s, raw[n]).Some? <==> Fits(raw, n)
  {
  }

  lemma OtherIsTakenIff(raw: seq<RawEntry>, n: nat, s: State)
    requires n < |raw| && Knows(raw, n, s)
    requires var kind := raw[n].kind;
      kind.Layout? || kind.Command? || kind.Scene? || kind.Label? || kind.Whitespace? || kind.Invalid?
    ensures Ingest(s, raw[n]).Some? <==> Fits(raw, n)
  {
  }

  ghost predicate AllFit(raw: seq<RawEntry>, n: nat)
    requires n <= |raw|
  {
    forall m :: 0 <= m < n ==> Fits(raw, m)
  }

  lemma OneMoreFits(raw: seq<RawEntry>, n: nat)
    requires n < |raw|
    ensures AllFit(raw, n + 1) <==> AllFit(raw, n) && Fits(raw, n)
  {
  }

  lemma {:induction false} LoadsIff(raw: seq<RawEntry>, n: nat)
    requires n <= |raw|
    ensures Load(raw[..n]).Some? <==> AllFit(raw, n)
  {
    if n > 0 {
      LoadsIff(raw, n - 1);
      LoadUpTo(raw, n - 1);
      OneMoreFits(raw, n - 1);
      if Load(raw[..n - 1]).Some? {
        LineIsTakenIff(raw, n - 1);
      }
    }
  }

  /** A script is accepted exactly when each of its lines fits and no scope is left open. */
  lemma AcceptedIff(raw: seq<RawEntry>)
    ensures Accepted(raw) <==> (forall n :: 0 <= n < |raw| ==> Fits(raw, n)) && OpenOn(raw, |raw|) == []
  {
    assert raw[..|raw|] == raw;
    LoadsIff(raw, |raw|);
    if Load(raw).Some? {
      LoadControl(raw);
    }
  }
}
