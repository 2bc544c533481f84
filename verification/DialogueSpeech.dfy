/** Who speaks, and how: the running state of the loader against a definition that looks back. */
module DialogueSpeech {
  import opened Wrappers
  import opened Dialogue
  import opened DialogueScopes
  import opened DialogueMeaning

  // ----- Looking back -----

  /** The alias table made of the alias lines before line n. */
  function AliasesBefore(raw: seq<RawEntry>, n: nat): map<Text, Text>
    requires n <= |raw|
  {
    if n == 0 then map[]
    else if raw[n - 1].kind.Alias? then AliasesBefore(raw, n - 1)[raw[n - 1].primary := raw[n - 1].secondary]
    else AliasesBefore(raw, n - 1)
  }

  /** The last speech line before line n. */
  function PreviousSpeech(raw: seq<RawEntry>, n: nat): (j: Option<nat>)
    requires n <= |raw|
    ensures j.Some? ==> j.value < n && raw[j.value].kind.Speech? && forall k :: j.value < k < n ==> !raw[k].kind.Speech?
    ensures j.None? ==> forall k :: 0 <= k < n ==> !raw[k].kind.Speech?
  {
    if n == 0 then None else if raw[n - 1].kind.Speech? then Some(n - 1) else PreviousSpeech(raw, n - 1)
  }

  /** A named speaker is looked up once; an omitted one is the previous speech's speaker, looked up again. */
  function Speaker(raw: seq<RawEntry>, i: nat): Text
    requires i < |raw|
    decreases i, 1
  {
    ApplyAlias(AliasesBefore(raw, i), if raw[i].primary == "" then SpeakerBefore(raw, i) else raw[i].primary)
  }

  function SpeakerBefore(raw: seq<RawEntry>, n: nat): Text
    requires n <= |raw|
    decreases n, 0
  {
    var j := PreviousSpeech(raw, n);
    if j.Some? then Speaker(raw, j.value) else ""
  }

  /** The last speech line of this speaker before line n. */
  function PreviousSpeechBy(raw: seq<RawEntry>, n: nat, character: Text): (j: Option<nat>)
    requires n <= |raw|
    ensures j.Some? ==> j.value < n && raw[j.value].kind.Speech? && Speaker(raw, j.value) == character
    ensures j.Some? ==> forall k :: j.value < k < n && raw[k].kind.Speech? ==> Speaker(raw, k) != character
    ensures j.None? ==> forall k :: 0 <= k < n && raw[k].kind.Speech? ==> Speaker(raw, k) != character
  {
    if n == 0 then None
    else if raw[n - 1].kind.Speech? && Speaker(raw, n - 1) == character then Some(n - 1)
    else PreviousSpeechBy(raw, n - 1, character)
  }

  /** An omitted expression is the one this speaker had the last time they spoke. */
  function Expression(raw: seq<RawEntry>, i: nat): Text
    requires i < |raw|
    decreases i, 1
  {
    if raw[i].secondary == "" then ExpressionBefore(raw, i, Speaker(raw, i)) else raw[i].secondary
  }

  function ExpressionBefore(raw: seq<RawEntry>, n: nat, character: Text): Text
    requires n <= |raw|
    decreases n, 0
  {
    var j := PreviousSpeechBy(raw, n, character);
    if j.Some? then Expression(raw, j.value) else ""
  }

  // ----- The running state agrees -----

  /** The loader remembers, before line n, what looking back finds. */
  ghost predicate Remembers(raw: seq<RawEntry>, n: nat, s: State)
    requires n <= |raw|
  {
    && s.aliases == AliasesBefore(raw, n)
    && s.lastChar == SpeakerBefore(raw, n)
    && (forall character :: LastExpression(s, character) == ExpressionBefore(raw, n, character))
  }

  lemma SpeechRemembers(raw: seq<RawEntry>, n: nat, s: State)
    requires n < |raw| && raw[n].kind.Speech? && Remembers(raw, n, s) && IngestSpeech(s, raw[n]).Some?
    ensures ResolveSpeaker(s, raw[n]) == Speaker(raw, n) && ResolveExpression(s, raw[n]) == Expression(raw, n)
    ensures Remembers(raw, n + 1, IngestSpeech(s, raw[n]).value)
  {
    var character := Speaker(raw, n);
    assert LastExpression(s, character) == ExpressionBefore(raw, n, character);
    var t := IngestSpeech(s, raw[n]).value;
    forall c ensures LastExpression(t, c) == ExpressionBefore(raw, n + 1, c) {
      assert LastExpression(s, c) == ExpressionBefore(raw, n, c);
    }
  }

  lemma OtherRemembers(raw: seq<RawEntry>, n: nat, s: State)
    requires n < |raw| && !raw[n].kind.Speech? && Remembers(raw, n, s) && Ingest(s, raw[n]).Some?
    ensures Remembers(raw, n + 1, Ingest(s, raw[n]).value)
  {
    var t := Ingest(s, raw[n]).value;
    OtherKeepsMemory(s, raw[n]);
    forall c ensures LastExpression(t, c) == ExpressionBefore(raw, n + 1, c) {
      assert LastExpression(s, c) == ExpressionBefore(raw, n, c);
    }
  }

  lemma OtherKeepsMemory(s: State, r: RawEntry)
    requires !r.kind.Speech? && Ingest(s, r).Some?
    ensures var t := Ingest(s, r).value;
      && t.lastChar == s.lastChar && t.lastExpressions == s.lastExpressions
      && t.aliases == if r.kind.Alias? then s.aliases[r.primary := r.secondary] else s.aliases
  {
  }

  lemma {:induction false} LoadRemembers(raw: seq<RawEntry>, n: nat)
    requires n <= |raw| && Load(raw[..n]).Some?
    ensures Remembers(raw, n, Load(raw[..n]).value)
  {
    if n == 0 {
      assert forall c :: LastExpression(INITIAL, c) == ExpressionBefore(raw, 0, c);
    } else {
      LoadUpTo(raw, n - 1);
      LoadRemembers(raw, n - 1);
      var s := Load(raw[..n - 1]).value;
      if raw[n - 1].kind.Speech? {
        SpeechRemembers(raw, n - 1, s);
      } else {
        OtherRemembers(raw, n - 1, s);
      }
    }
  }

  // ----- What is stored -----

  /** The entry says what the speech line means. */
  predicate Says(entry: Entry, raw: seq<RawEntry>, line: nat)
    requires line < |raw|
  {
    && entry.kind == SpeechEntry && entry.locID == raw[line].locID && entry.fallbackText == raw[line].tertiary
    && entry.primary == Speaker(raw, line) && entry.expression == Expression(raw, line)
  }

  lemma {:induction false} LoadSays(raw: seq<RawEntry>, n: nat, k: nat)
    requires n <= |raw| && Load(raw[..n]).Some? && k < |ContentFrom(raw[..n], 0)| && ContentFrom(raw[..n], 0)[k] < n
    requires raw[ContentFrom(raw[..n], 0)[k]].kind.Speech?
    ensures k < |Load(raw[..n]).value.sequence.entries|
    ensures Says(Load(raw[..n]).value.sequence.entries[k], raw, ContentFrom(raw[..n], 0)[k])
  {
    LoadUpTo(raw, n - 1);
    ContentOneMore(raw, n);
    var s := Load(raw[..n - 1]).value;
    if k < |ContentFrom(raw[..n - 1], 0)| {
      ContentAscends(raw[..n - 1], 0);
      LoadSays(raw, n - 1, k);
      EntriesStay(s, raw[n - 1]);
    } else {
      LoadFlattens(raw[..n - 1]);
      LoadRemembers(raw, n - 1);
      SpeechRemembers(raw, n - 1, s);
    }
  }

  lemma ContentOneMore(raw: seq<RawEntry>, n: nat)
    requires 0 < n <= |raw|
    ensures ContentFrom(raw[..n], 0) == ContentFrom(raw[..n - 1], 0) + if HasContent(raw[n - 1]) then [n - 1] else []
  {
    assert raw[..n][..n - 1] == raw[..n - 1];
    ContentAppend(raw[..n], 0);
  }

  lemma EntriesStay(s: State, r: RawEntry)
    requires Ingest(s, r).Some?
    ensures s.sequence.entries <= Ingest(s, r).value.sequence.entries
  {
    if HasContent(r) {
      ContentAddsEntry(s, r);
    } else {
      ControlAddsNothing(s, r);
    }
  }

  /** In an accepted script, every speech line's entry has its declared speaker, expression and text. */
  lemma SpeechIsStored(raw: seq<RawEntry>, line: nat) returns (k: nat)
    requires Accepted(raw) && line < |raw| && raw[line].kind.Speech?
    ensures k < |ContentFrom(raw, 0)| == |Compile(raw).entries| && ContentFrom(raw, 0)[k] == line
    ensures Says(Compile(raw).entries[k], raw, line)
  {
    k := ContentIsListed(raw, 0, line);
    LoadFlattens(raw);
    assert raw[..|raw|] == raw;
    LoadSays(raw, |raw|, k);
  }

  lemma {:induction false} AliasesNonEmpty(raw: seq<RawEntry>, n: nat)
    requires n <= |raw| && Load(raw[..n]).Some?
    ensures forall name :: name in AliasesBefore(raw, n) ==> AliasesBefore(raw, n)[name] != ""
  {
    if n > 0 {
      LoadUpTo(raw, n - 1);
      AliasesNonEmpty(raw, n - 1);
    }
  }

  lemma {:induction false} SpeakersNonEmpty(raw: seq<RawEntry>, n: nat, i: nat)
    requires i < n <= |raw| && raw[i].kind.Speech? && Load(raw[..n]).Some?
    ensures Speaker(raw, i) != ""
  {
    LoadUpTo(raw, n - 1);
    if i < n - 1 {
      SpeakersNonEmpty(raw, n - 1, i);
    } else {
      LoadRemembers(raw, i);
      AliasesNonEmpty(raw, i);
    }
  }

  /** A speech line is refused exactly when it has no text, nobody to speak it, or no expression to use. */
  lemma SpeechRefusedIff(raw: seq<RawEntry>, n: nat)
    requires n < |raw| && Load(raw[..n]).Some? && raw[n].kind.Speech?
    ensures Load(raw[..n + 1]).None? <==>
      || raw[n].tertiary == ""
      || (raw[n].primary == "" && forall j :: 0 <= j < n ==> !raw[j].kind.Speech?)
      || (raw[n].secondary == "" &&
          forall j :: 0 <= j < n && raw[j].kind.Speech? ==>
            Speaker(raw, j) != Speaker(raw, n))
  {
    LoadUpTo(raw, n);
    LoadRemembers(raw, n);
    var s, character := Load(raw[..n]).value, Speaker(raw, n);
    assert LastExpression(s, character) == ExpressionBefore(raw, n, character);
    var previous, own := PreviousSpeech(raw, n), PreviousSpeechBy(raw, n, character);
    if previous.Some? {
      SpeakersNonEmpty(raw, n, previous.value);
    }
    if own.Some? {
      ExpressionsNonEmpty(raw, n, own.value);
    }
  }

  lemma {:induction false} ExpressionsNonEmpty(raw: seq<RawEntry>, n: nat, i: nat)
    requires i < n <= |raw| && raw[i].kind.Speech? && Load(raw[..n]).Some?
    ensures Expression(raw, i) != ""
  {
    LoadUpTo(raw, n - 1);
    if i < n - 1 {
      ExpressionsNonEmpty(raw, n - 1, i);
    } else {
      LoadRemembers(raw, i);
      SpeechRemembers(raw, i, Load(raw[..i]).value);
    }
  }

  // ----- When an omitted speaker is the previous one -----

  /** Leaving out the speaker repeats the previous one exactly when the alias table, as it stands then,
      does not send that resolved name elsewhere. */
  lemma OmittedSpeakerRepeatsIff(raw: seq<RawEntry>, i: nat, j: nat)
    requires i < |raw| && raw[i].primary == "" && PreviousSpeech(raw, i) == Some(j)
    ensures var aliases := AliasesBefore(raw, i);
      Speaker(raw, i) == Speaker(raw, j) <==>
        (Speaker(raw, j) in aliases ==> aliases[Speaker(raw, j)] == Speaker(raw, j))
  {
  }

  /** Line j is the last alias line before line n for this name. */
  predicate LastAlias(raw: seq<RawEntry>, j: nat, n: nat, name: Text)
    requires j < n <= |raw|
  {
    && raw[j].kind.Alias? && raw[j].primary == name
    && forall k :: j < k < n ==> !(raw[k].kind.Alias? && raw[k].primary == name)
  }

  lemma {:induction false} LastAliasDecides(raw: seq<RawEntry>, j: nat, n: nat, name: Text)
    requires j < n <= |raw| && LastAlias(raw, j, n, name)
    ensures name in AliasesBefore(raw, n) && AliasesBefore(raw, n)[name] == raw[j].secondary
  {
    if j < n - 1 {
      LastAliasDecides(raw, j, n - 1, name);
    }
  }

  /** Who speaks, from the lines: the name on the line, or the previous speaker, replaced by what the last
      alias line for that name says, if there is one. */
  lemma SpeakerIs(raw: seq<RawEntry>, i: nat, token: Text)
    requires i < |raw|
    requires raw[i].primary != "" ==> token == raw[i].primary
    requires raw[i].primary == "" && PreviousSpeech(raw, i).Some? ==>
      token == Speaker(raw, PreviousSpeech(raw, i).value)
    requires raw[i].primary == "" && PreviousSpeech(raw, i).None? ==> token == ""
    ensures forall j: nat :: j < i && LastAlias(raw, j, i, token) ==> Speaker(raw, i) == raw[j].secondary
    ensures (forall j :: 0 <= j < i && raw[j].kind.Alias? ==> raw[j].primary != token) ==> Speaker(raw, i) == token
  {
    forall j: nat | j < i && LastAlias(raw, j, i, token) ensures Speaker(raw, i) == raw[j].secondary {
      LastAliasDecides(raw, j, i, token);
    }
    if token in AliasesBefore(raw, i) {
      var a := AliasComesFrom(raw, i, token);
    }
  }

  /** Read off the script: no replacement is a shorthand, and no shorthand is declared after it spoke. */
  ghost predicate FlatAliases(raw: seq<RawEntry>) {
    && (forall i, j :: 0 <= i < |raw| && 0 <= j < |raw| && raw[i].kind.Alias? && raw[j].kind.Alias? ==>
          raw[i].secondary != raw[j].primary)
    && (forall i, j :: 0 <= i < j < |raw| && raw[i].kind.Speech? && raw[j].kind.Alias? ==>
          raw[i].primary != raw[j].primary)
  }

  lemma {:induction false} AliasComesFrom(raw: seq<RawEntry>, n: nat, name: Text) returns (a: nat)
    requires n <= |raw| && name in AliasesBefore(raw, n)
    ensures a < n && raw[a].kind.Alias? && raw[a].primary == name && raw[a].secondary == AliasesBefore(raw, n)[name]
  {
    if raw[n - 1].kind.Alias? && raw[n - 1].primary == name {
      a := n - 1;
    } else {
      a := AliasComesFrom(raw, n - 1, name);
    }
  }

  /** With flat aliases no resolved speaker is ever a shorthand. */
  lemma {:induction false} SpeakerIsNoShorthand(raw: seq<RawEntry>, i: nat, n: nat)
    requires FlatAliases(raw) && i < n <= |raw| && raw[i].kind.Speech?
    requires forall a :: 0 <= a < |raw| && raw[a].kind.Alias? ==> raw[a].primary != ""
    ensures Speaker(raw, i) !in AliasesBefore(raw, n)
    decreases i
  {
    var aliases, speaker := AliasesBefore(raw, i), Speaker(raw, i);
    var previous := PreviousSpeech(raw, i);
    if speaker in AliasesBefore(raw, n) {
      var a := AliasComesFrom(raw, n, speaker);
      var named := if raw[i].primary == "" then SpeakerBefore(raw, i) else raw[i].primary;
      if named in aliases {
        var b := AliasComesFrom(raw, i, named);
        assert false;
      }
      if raw[i].primary == "" && previous.Some? {
        SpeakerIsNoShorthand(raw, previous.value, n);
        assert false;
      }
      if a < i {
        ShorthandIsKnown(raw, a, i);
        assert false;
      }
    }
  }

  lemma {:induction false} ShorthandIsKnown(raw: seq<RawEntry>, a: nat, n: nat)
    requires a < n <= |raw| && raw[a].kind.Alias?
    ensures raw[a].primary in AliasesBefore(raw, n)
  {
    if a < n - 1 {
      ShorthandIsKnown(raw, a, n - 1);
    }
  }

  /** Then every omitted speaker is the previous speech's resolved speaker. */
  lemma FlatAliasesCarrySpeakers(raw: seq<RawEntry>, i: nat)
    requires Accepted(raw) && FlatAliases(raw) && i < |raw| && raw[i].kind.Speech? && raw[i].primary == ""
    ensures Speaker(raw, i) == SpeakerBefore(raw, i)
  {
    forall a | 0 <= a < |raw| && raw[a].kind.Alias? ensures raw[a].primary != "" {
      PrefixLoads(raw, a + 1);
      LoadUpTo(raw, a);
    }
    var j := PreviousSpeech(raw, i);
    if j.Some? {
      SpeakerIsNoShorthand(raw, j.value, i);
    } else if "" in AliasesBefore(raw, i) {
      var a := AliasComesFrom(raw, i, "");
      assert false;
    }
  }

  lemma {:induction false} PrefixLoads(raw: seq<RawEntry>, n: nat)
    requires n <= |raw| && Load(raw).Some?
    ensures Load(raw[..n]).Some?
    decreases |raw| - n
  {
    if n < |raw| {
      PrefixLoads(raw, n + 1);
      LoadUpTo(raw, n);
    } else {
      assert raw[..n] == raw;
    }
  }

  /** A chain of two aliases: the second line was meant for the same speaker. */
  const CHAIN := [
    Line(Alias, "a", "b", "").(isCharAlias := true), Line(Alias, "b", "c", "").(isCharAlias := true),
    Line(Speech, "a", "calm", "One."), Line(Speech, "", "calm", "Two.")]

  lemma ChainChangesSpeaker()
    ensures Accepted(CHAIN) && Speaker(CHAIN, 2) == "b" && Speaker(CHAIN, 3) == "c"
  {
    assert CHAIN[..0] == [];
    LoadUpTo(CHAIN, 0);
    LoadUpTo(CHAIN, 1);
    LoadUpTo(CHAIN, 2);
    LoadUpTo(CHAIN, 3);
    assert CHAIN[..4] == CHAIN;
    assert AliasesBefore(CHAIN, 1) == map["a" := "b"];
    assert AliasesBefore(CHAIN, 2) == map["a" := "b", "b" := "c"];
  }
}
