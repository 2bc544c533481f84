/** The second parsing pass as it runs: one shared state, mutated line by line. */
module DialogueLoader {
  import opened Wrappers
  import opened Dialogue

  /** MakeStorage: the slot of an equal stored string, or of a new one at the end of the cache. */
  method MakeStorage(cache: seq<Text>, fromBuffer: Text) returns (grown: seq<Text>, slot: nat)
    ensures grown == Cache(cache, fromBuffer)
    ensures slot < |grown| && grown[slot] == fromBuffer && fromBuffer !in grown[..slot]
  {
    var i := 0;
    while i < |cache|
      invariant i <= |cache| && fromBuffer !in cache[..i]
    {
      if cache[i] == fromBuffer {
        return cache, i;
      }
      i := i + 1;
    }
    assert cache[..i] == cache;
    grown := cache + [fromBuffer];
    assert grown[..|cache|] == cache;
    slot := |cache|;
  }

  /** What one more open scope adds to the condition caches and to an entry's conditions. */
  lemma OneMoreScope(scopes: seq<Scope>, i: nat, keys: seq<Text>, vals: seq<Text>)
    requires i < |scopes|
    ensures CacheAll(keys, ScopeKeys(scopes[..i + 1])) == Cache(CacheAll(keys, ScopeKeys(scopes[..i])), scopes[i].key)
    ensures CacheAll(vals, ScopeVals(scopes[..i + 1])) == Cache(CacheAll(vals, ScopeVals(scopes[..i])), scopes[i].val)
  {
    var done := scopes[..i + 1];
    assert ScopeKeys(done)[..i] == ScopeKeys(scopes[..i]) && ScopeVals(done)[..i] == ScopeVals(scopes[..i]);
  }

  lemma OneMoreCondition(scopes: seq<Scope>, i: nat, negated: bool)
    requires i < |scopes|
    ensures Conditions(scopes[..i + 1], negated) ==
      var outer, last := Conditions(scopes[..i], negated), scopes[i];
      if last.negated == negated && last.key !in outer then outer[last.key := last.val] else outer
  {
    assert scopes[..i + 1][..i] == scopes[..i];
  }

  lemma OneMoreParam(params: seq<(Text, Text)>, i: nat, keys: seq<Text>, vals: seq<Text>)
    requires i < |params|
    ensures CacheAll(keys, Keys(params[..i + 1])) == Cache(CacheAll(keys, Keys(params[..i])), params[i].0)
    ensures CacheAll(vals, Vals(params[..i + 1])) == Cache(CacheAll(vals, Vals(params[..i])), params[i].1)
    ensures ParamMap(params[..i + 1]) == ParamMap(params[..i])[params[i].0 := params[i].1]
  {
    var done := params[..i + 1];
    assert done[..i] == params[..i];
    assert Keys(done)[..i] == Keys(params[..i]) && Vals(done)[..i] == Vals(params[..i]);
  }

  class Loader {
    var charAliases: map<Text, Text>
    var lastChar: Text
    var lastExpressionPerChar: map<Text, Text>
    var scopeStack: seq<Scope>
    var alreadyUsedLabels: map<Text, nat>
    var sequence: Sequence

    constructor ()
      ensures View() == INITIAL
    {
      charAliases, lastChar, lastExpressionPerChar := map[], "", map[];
      scopeStack, alreadyUsedLabels, sequence := [], map[], EMPTY_SEQUENCE;
    }

    function View(): State
      reads this
    {
      State(charAliases, lastChar, lastExpressionPerChar, scopeStack, alreadyUsedLabels, sequence)
    }

    /** Conditions of all open scopes, outermost first, onto the entry about to be stored. */
    method PushConditionsOntoEntry(entry: Entry) returns (result: Entry)
      requires entry.necessary == map[] && entry.forbidden == map[]
      modifies this`sequence
      ensures result == entry.(necessary := Conditions(scopeStack, false), forbidden := Conditions(scopeStack, true))
      ensures sequence == old(sequence).(
        conditionKeys := CacheAll(old(sequence.conditionKeys), ScopeKeys(scopeStack)),
        conditionVals := CacheAll(old(sequence.conditionVals), ScopeVals(scopeStack)))
    {
      result := entry;
      var keys, vals := sequence.conditionKeys, sequence.conditionVals;
      var i := 0;
      while i < |scopeStack|
        invariant i <= |scopeStack| && sequence == old(sequence)
        invariant keys == CacheAll(sequence.conditionKeys, ScopeKeys(scopeStack[..i]))
        invariant vals == CacheAll(sequence.conditionVals, ScopeVals(scopeStack[..i]))
        invariant result == entry.(
          necessary := Conditions(scopeStack[..i], false),
          forbidden := Conditions(scopeStack[..i], true))
      {
        var scope := scopeStack[i];
        OneMoreScope(scopeStack, i, sequence.conditionKeys, sequence.conditionVals);
        OneMoreCondition(scopeStack, i, false);
        OneMoreCondition(scopeStack, i, true);
        var slot;
        keys, slot := MakeStorage(keys, scope.key);
        vals, slot := MakeStorage(vals, scope.val);
        if scope.negated {
          if scope.key !in result.forbidden {
            result := result.(forbidden := result.forbidden[scope.key := scope.val]);
          }
        } else {
          if scope.key !in result.necessary {
            result := result.(necessary := result.necessary[scope.key := scope.val]);
          }
        }
        i := i + 1;
      }
      assert scopeStack[..i] == scopeStack;
      assert keys == CacheAll(sequence.conditionKeys, ScopeKeys(scopeStack)) &&
        vals == CacheAll(sequence.conditionVals, ScopeVals(scopeStack));
      sequence := sequence.(conditionKeys := keys, conditionVals := vals);
    }

    /** The parameters of a command or a scene, interned one by one. */
    static method StoreParams(params: seq<(Text, Text)>, keys: seq<Text>, vals: seq<Text>)
      returns (ok: bool, keys': seq<Text>, vals': seq<Text>, stored: map<Text, Text>)
      ensures ok == ValidParams(params)
      ensures ok ==>
        && keys' == CacheAll(keys, Keys(params)) && vals' == CacheAll(vals, Vals(params))
        && stored == ParamMap(params)
    {
      keys', vals', stored := keys, vals, map[];
      var i := 0;
      while i < |params|
        invariant i <= |params| && forall j :: 0 <= j < i ==> params[j].0 != "" && params[j].1 != ""
        invariant keys' == CacheAll(keys, Keys(params[..i])) && vals' == CacheAll(vals, Vals(params[..i]))
        invariant stored == ParamMap(params[..i])
      {
        var pair := params[i];
        OneMoreParam(params, i, keys, vals);
        if pair.0 == "" || pair.1 == "" {
          ok := false;
          return;
        }
        var slot;
        keys', slot := MakeStorage(keys', pair.0);
        vals', slot := MakeStorage(vals', pair.1);
        stored := stored[pair.0 := pair.1];
        i := i + 1;
      }
      assert params[..i] == params;
      ok := true;
    }

    method IngestLine(raw: RawEntry) returns (success: bool)
      modifies this
      ensures success == Ingest(old(View()), raw).Some?
      ensures success ==> View() == Ingest(old(View()), raw).value
    {
      match raw.kind {
        case Alias =>
          if raw.primary == "" || raw.secondary == "" || raw.tertiary != ""
            || !raw.isCharAlias || raw.primary in charAliases
          {
            return false;
          }
          charAliases := charAliases[raw.primary := raw.secondary];
          success := true;
        case Layout =>
          if raw.primary == "" || raw.secondary != "" || raw.tertiary != "" || sequence.layout != "" {
            return false;
          }
          sequence := sequence.(layout := raw.primary);
          success := true;
        case Command => success := IngestCommandLine(raw);
        case Scene => success := IngestSceneLine(raw);
        case Speech => success := IngestSpeechLine(raw);
        case Label => success := IngestLabelLine(raw);
        case CondIf => success := IngestCondLine(raw, false);
        case CondUnless => success := IngestCondLine(raw, true);
        case CondElse => success := IngestElseLine(raw);
        case Whitespace => success := false;
        case Invalid => success := false;
      }
    }

    method IngestCommandLine(raw: RawEntry) returns (success: bool)
      modifies this`sequence
      ensures success == IngestCommand(old(View()), raw).Some?
      ensures success ==> View() == IngestCommand(old(View()), raw).value
    {
      if raw.primary == "" || raw.secondary != "" || raw.tertiary != "" || sequence.layout == "" {
        return false;
      }
      var cache, slot := MakeStorage(sequence.commands, raw.primary);
      var ok, keys, vals, params := StoreParams(raw.params, sequence.commandKeys, sequence.commandVals);
      if !ok {
        return false;
      }
      sequence := sequence.(commands := cache, commandKeys := keys, commandVals := vals);
      var entry := PushConditionsOntoEntry(Entry(CommandEntry, 0, raw.primary, "", "", params, map[], map[]));
      sequence := sequence.(entries := sequence.entries + [entry]);
      success := true;
    }

    method IngestSceneLine(raw: RawEntry) returns (success: bool)
      modifies this`sequence
      ensures success == IngestScene(old(View()), raw).Some?
      ensures success ==> View() == IngestScene(old(View()), raw).value
    {
      if raw.primary == "" || raw.secondary != "" || raw.tertiary != "" || sequence.layout == "" {
        return false;
      }
      var cache, slot := MakeStorage(sequence.scenes, raw.primary);
      var ok, keys, vals, params := StoreParams(raw.params, sequence.sceneKeys, sequence.sceneVals);
      if !ok {
        return false;
      }
      sequence := sequence.(scenes := cache, sceneKeys := keys, sceneVals := vals);
      var entry := PushConditionsOntoEntry(Entry(SceneEntry, 0, raw.primary, "", "", params, map[], map[]));
      sequence := sequence.(entries := sequence.entries + [entry]);
      success := true;
    }

    method IngestSpeechLine(raw: RawEntry) returns (success: bool)
      modifies this
      ensures success == IngestSpeech(old(View()), raw).Some?
      ensures success ==> View() == IngestSpeech(old(View()), raw).value
    {
      var character, expression := raw.primary, raw.secondary;
      if raw.tertiary == "" {
        return false;
      }
      if character == "" {
        character := lastChar;
      }
      if character == "" {
        return false;
      }
      character := ApplyAlias(charAliases, character);
      lastChar := character;
      if expression == "" && character in lastExpressionPerChar {
        expression := lastExpressionPerChar[character];
      }
      if expression == "" {
        return false;
      }
      lastExpressionPerChar := lastExpressionPerChar[character := expression];
      StoreSpeech(raw, character, expression);
      success := true;
    }

    method StoreSpeech(raw: RawEntry, character: Text, expression: Text)
      modifies this`sequence
      ensures View() == PushEntry(old(View()),
        old(sequence).(
          characters := Cache(old(sequence.characters), character),
          expressions := Cache(old(sequence.expressions), expression),
          speech := Cache(old(sequence.speech), raw.tertiary),
          expressionsPerCharacter := NoteExpression(old(sequence.expressionsPerCharacter), character, expression)),
        Entry(SpeechEntry, raw.locID, character, expression, raw.tertiary, map[], map[], map[]))
    {
      var characters, slot := MakeStorage(sequence.characters, character);
      var expressions, speech;
      expressions, slot := MakeStorage(sequence.expressions, expression);
      speech, slot := MakeStorage(sequence.speech, raw.tertiary);
      sequence := sequence.(
        characters := characters, expressions := expressions, speech := speech,
        expressionsPerCharacter := NoteExpression(sequence.expressionsPerCharacter, character, expression));
      var entry := PushConditionsOntoEntry(
        Entry(SpeechEntry, raw.locID, character, expression, raw.tertiary, map[], map[], map[]));
      sequence := sequence.(entries := sequence.entries + [entry]);
    }

    method IngestLabelLine(raw: RawEntry) returns (success: bool)
      modifies this`alreadyUsedLabels, this`scopeStack
      ensures success == IngestLabel(old(View()), raw).Some?
      ensures success ==> View() == IngestLabel(old(View()), raw).value
    {
      if raw.primary == "" || raw.secondary != "" || raw.tertiary != "" || raw.primary in alreadyUsedLabels {
        return false;
      }
      alreadyUsedLabels := alreadyUsedLabels[raw.primary := raw.lineNumber];
      if scopeStack == [] {
        return true;
      }
      if scopeStack[|scopeStack| - 1].name != raw.primary {
        return true;
      }
      scopeStack := scopeStack[..|scopeStack| - 1];
      success := true;
    }

    method IngestCondLine(raw: RawEntry, negated: bool) returns (success: bool)
      modifies this`scopeStack
      ensures success == IngestCond(old(View()), raw, negated).Some?
      ensures success ==> View() == IngestCond(old(View()), raw, negated).value
    {
      if raw.primary == "" || raw.secondary == "" || raw.tertiary == "" {
        return false;
      }
      var i := 0;
      while i < |scopeStack|
        invariant i <= |scopeStack| && forall j :: 0 <= j < i ==> scopeStack[j].name != raw.primary
      {
        if scopeStack[i].name == raw.primary {
          return false;
        }
        i := i + 1;
      }
      scopeStack := scopeStack + [Scope(raw.primary, raw.secondary, raw.tertiary, negated)];
      success := true;
    }

    method IngestElseLine(raw: RawEntry) returns (success: bool)
      modifies this`scopeStack
      ensures success == IngestCondElse(old(View()), raw).Some?
      ensures success ==> View() == IngestCondElse(old(View()), raw).value
    {
      if raw.primary == "" || raw.secondary != "" || raw.tertiary != "" || scopeStack == [] {
        return false;
      }
      var top := |scopeStack| - 1;
      if scopeStack[top].name != raw.primary {
        return false;
      }
      scopeStack := scopeStack[..top] + [Invert(scopeStack[top])];
      success := true;
    }
  }

  /** Ingest every line, stop at the first failure, and refuse scopes that were never closed. */
  method SecondPassParse(rawEntries: seq<RawEntry>) returns (result: Sequence)
    ensures result == Compile(rawEntries)
  {
    var state := new Loader();
    var i := 0;
    while i < |rawEntries|
      invariant i <= |rawEntries| && fresh(state)
      invariant Load(rawEntries[..i]) == Some(state.View())
    {
      assert rawEntries[..i + 1][..i] == rawEntries[..i];
      var success := state.IngestLine(rawEntries[i]);
      if !success {
        RejectionLasts(rawEntries, i + 1);
        return EMPTY_SEQUENCE;
      }
      i := i + 1;
    }
    assert rawEntries[..i] == rawEntries;
    if state.scopeStack != [] {
      return EMPTY_SEQUENCE;
    }
    result := state.sequence;
  }

  lemma {:induction false} RejectionLasts(raw: seq<RawEntry>, i: nat)
    requires i <= |raw| && Load(raw[..i]).None?
    ensures Load(raw).None?
    decreases |raw| - i
  {
    if i == |raw| {
      assert raw[..i] == raw;
    } else {
      assert raw[..i + 1][..i] == raw[..i];
      RejectionLasts(raw, i + 1);
    }
  }
}
