/** Interning: caches without duplicates whose elements never move, and exactly what an entry needs. */
module DialogueCaches {
  import opened Dialogue
  import opened DialogueScopes
  import opened DialogueMeaning
  import opened DialogueSpeech

  // ----- One cache -----

  predicate Distinct(cache: seq<Text>) {
    forall i, j :: 0 <= i < j < |cache| ==> cache[i] != cache[j]
  }

  function Stored(cache: seq<Text>): set<Text> {
    set t | t in cache
  }

  /** The later cache extends the earlier one and still has no duplicates. */
  predicate Grows(before: seq<Text>, after: seq<Text>) {
    before <= after && (Distinct(before) ==> Distinct(after))
  }

  lemma CacheGrows(cache: seq<Text>, text: Text)
    ensures Grows(cache, Cache(cache, text)) && Stored(Cache(cache, text)) == Stored(cache) + {text}
  {
    if text !in cache {
      var after := cache + [text];
      forall t ensures t in after <==> t in cache || t == text {
      }
    }
  }

  lemma {:induction false} CacheAllGrows(cache: seq<Text>, texts: seq<Text>)
    ensures Grows(cache, CacheAll(cache, texts)) && Stored(CacheAll(cache, texts)) == Stored(cache) + Stored(texts)
  {
    if texts != [] {
      var n := |texts| - 1;
      CacheAllGrows(cache, texts[..n]);
      CacheGrows(CacheAll(cache, texts[..n]), texts[n]);
      assert forall t :: t in texts <==> t in texts[..n] || t == texts[n];
    }
  }

  /** The storage that a view of this text points at: its first, and in a distinct cache only, slot. */
  function Slot(cache: seq<Text>, text: Text): (slot: nat)
    requires text in cache
    ensures slot < |cache| && cache[slot] == text && text !in cache[..slot]
  {
    if cache[0] == text then 0 else 1 + Slot(cache[1..], text)
  }

  /** Views stay put as the cache grows, and share storage exactly when their texts are equal. */
  lemma ViewsAreStable(before: seq<Text>, after: seq<Text>, t: Text, u: Text)
    requires Grows(before, after) && t in before && u in after
    ensures t in after && Slot(after, t) == Slot(before, t)
    ensures Slot(after, t) == Slot(after, u) <==> t == u
  {
    var slot := Slot(before, t);
    assert after[slot] == t && t !in after[..slot] by {
      assert after[..slot] == before[..slot];
    }
    if Slot(after, t) < slot {
      assert false;
    }
  }

  // ----- What entries need -----

  function Gather<T(!new)>(entries: seq<Entry>, need: Entry -> set<T>): set<T> {
    if entries == [] then {} else Gather(entries[..|entries| - 1], need) + need(entries[|entries| - 1])
  }

  lemma {:induction false} GatheredFromSome<T(!new)>(entries: seq<Entry>, need: Entry -> set<T>, t: T)
    ensures t in Gather(entries, need) <==> exists i :: 0 <= i < |entries| && t in need(entries[i])
  {
    if entries != [] {
      var most := entries[..|entries| - 1];
      GatheredFromSome(most, need, t);
      assert forall i :: 0 <= i < |most| ==> most[i] == entries[i];
    }
  }

  function NameOf(kind: EntryKind): Entry -> set<Text> {
    (e: Entry) => if e.kind == kind then {e.primary} else {}
  }

  function ParamKeysOf(kind: EntryKind): Entry -> set<Text> {
    (e: Entry) => if e.kind == kind then e.params.Keys else {}
  }

  function ParamValsOf(kind: EntryKind): Entry -> set<Text> {
    (e: Entry) => if e.kind == kind then e.params.Values else {}
  }

  const EXPRESSION := (e: Entry) => if e.kind.SpeechEntry? then {e.expression} else {}
  const TEXT := (e: Entry) => if e.kind.SpeechEntry? then {e.fallbackText} else {}
  const CHARACTER_AND_EXPRESSION := (e: Entry) => if e.kind.SpeechEntry? then {(e.primary, e.expression)} else {}
  const CONDITION_KEYS := (e: Entry) => e.necessary.Keys + e.forbidden.Keys
  const CONDITION_VALS := (e: Entry) => e.necessary.Values + e.forbidden.Values

  /** The pairs in a map from characters to their expressions. */
  function PairsIn(m: map<Text, set<Text>>): set<(Text, Text)> {
    set c, x | c in m && x in m[c] :: (c, x)
  }

  predicate CommandsBacked(q: Sequence) {
    && Stored(q.commands) == Gather(q.entries, NameOf(CommandEntry))
    && Stored(q.commandKeys) == Gather(q.entries, ParamKeysOf(CommandEntry))
    && Stored(q.commandVals) >= Gather(q.entries, ParamValsOf(CommandEntry))
  }

  predicate ScenesBacked(q: Sequence) {
    && Stored(q.scenes) == Gather(q.entries, NameOf(SceneEntry))
    && Stored(q.sceneKeys) == Gather(q.entries, ParamKeysOf(SceneEntry))
    && Stored(q.sceneVals) >= Gather(q.entries, ParamValsOf(SceneEntry))
  }

  predicate SpeechBacked(q: Sequence) {
    && Stored(q.characters) == Gather(q.entries, NameOf(SpeechEntry))
    && Stored(q.expressions) == Gather(q.entries, EXPRESSION)
    && Stored(q.speech) == Gather(q.entries, TEXT)
  }

  /** The table lists a character under their expressions, all of them, and lists nobody without one. */
  predicate PairsListed(q: Sequence) {
    && PairsIn(q.expressionsPerCharacter) == Gather(q.entries, CHARACTER_AND_EXPRESSION)
    && forall c :: c in q.expressionsPerCharacter ==> q.expressionsPerCharacter[c] != {}
  }

  /** Every condition key is needed; a value may belong to a scope that an outer one shadows. */
  predicate ConditionsBacked(q: Sequence) {
    && Stored(q.conditionKeys) == Gather(q.entries, CONDITION_KEYS)
    && Stored(q.conditionVals) >= Gather(q.entries, CONDITION_VALS)
  }

  predicate Backed(q: Sequence) {
    CommandsBacked(q) && ScenesBacked(q) && SpeechBacked(q) && PairsListed(q) && ConditionsBacked(q)
  }

  predicate AllGrow(q: Sequence, q': Sequence) {
    && Grows(q.commands, q'.commands) && Grows(q.commandKeys, q'.commandKeys) && Grows(q.commandVals, q'.commandVals)
    && Grows(q.scenes, q'.scenes) && Grows(q.sceneKeys, q'.sceneKeys) && Grows(q.sceneVals, q'.sceneVals)
    && Grows(q.conditionKeys, q'.conditionKeys) && Grows(q.conditionVals, q'.conditionVals)
    && Grows(q.characters, q'.characters) && Grows(q.expressions, q'.expressions) && Grows(q.speech, q'.speech)
  }

  predicate AllDistinct(q: Sequence) {
    && Distinct(q.commands) && Distinct(q.commandKeys) && Distinct(q.commandVals)
    && Distinct(q.scenes) && Distinct(q.sceneKeys) && Distinct(q.sceneVals)
    && Distinct(q.conditionKeys) && Distinct(q.conditionVals)
    && Distinct(q.characters) && Distinct(q.expressions) && Distinct(q.speech)
  }

  // ----- Parameters and conditions -----

  lemma {:induction false} ParamsStored(params: seq<(Text, Text)>)
    ensures ParamMap(params).Keys == Stored(Keys(params)) && ParamMap(params).Values <= Stored(Vals(params))
  {
    if params != [] {
      var n := |params| - 1;
      var most, last := params[..n], params[n];
      ParamsStored(most);
      assert Keys(params) == Keys(most) + [last.0] && Vals(params) == Vals(most) + [last.1];
      assert ParamMap(params) == ParamMap(most)[last.0 := last.1];
      forall val | val in ParamMap(params).Values ensures val in Vals(params) {
        assert val in ParamMap(most).Values || val == last.1;
      }
    }
  }

  lemma ScopesStored(scopes: seq<Scope>)
    ensures Conditions(scopes, false).Keys + Conditions(scopes, true).Keys == Stored(ScopeKeys(scopes))
    ensures Conditions(scopes, false).Values + Conditions(scopes, true).Values <= Stored(ScopeVals(scopes))
  {
    forall key
      ensures key in Conditions(scopes, false).Keys + Conditions(scopes, true).Keys <==> key in ScopeKeys(scopes)
    {
      DecidedByOutermost(scopes, false, key);
      DecidedByOutermost(scopes, true, key);
      if key in ScopeKeys(scopes) {
        var i :| 0 <= i < |scopes| && ScopeKeys(scopes)[i] == key;
        assert scopes[i].key == key;
      }
      if i :| 0 <= i < |scopes| && scopes[i].key == key {
        assert ScopeKeys(scopes)[i] == key;
      }
    }
    ValuesAreScopeVals(scopes, false);
    ValuesAreScopeVals(scopes, true);
  }

  lemma ValuesAreScopeVals(scopes: seq<Scope>, negated: bool)
    ensures Conditions(scopes, negated).Values <= Stored(ScopeVals(scopes))
  {
    forall val | val in Conditions(scopes, negated).Values ensures val in ScopeVals(scopes) {
      var key :| key in Conditions(scopes, negated) && Conditions(scopes, negated)[key] == val;
      DecidedByOutermost(scopes, negated, key);
      var i: nat :| Decides(scopes, i, negated, key);
      assert ScopeVals(scopes)[i] == val;
    }
  }

  lemma PairNoted(m: map<Text, set<Text>>, character: Text, expression: Text)
    ensures PairsIn(NoteExpression(m, character, expression)) == PairsIn(m) + {(character, expression)}
  {
    var after := NoteExpression(m, character, expression);
    forall c, x ensures (c, x) in PairsIn(after) <==> (c, x) in PairsIn(m) + {(character, expression)} {
    }
  }

  // ----- One line -----

  /** What storing an entry means for the condition caches, whatever its kind. */
  lemma PushBacksConditions(s: State, q: Sequence, e: Entry)
    requires ConditionsBacked(q)
    ensures var q' := PushEntry(s, q, e).sequence;
      ConditionsBacked(q') && Grows(q.conditionKeys, q'.conditionKeys) && Grows(q.conditionVals, q'.conditionVals)
  {
    CacheAllGrows(q.conditionKeys, ScopeKeys(s.scopes));
    CacheAllGrows(q.conditionVals, ScopeVals(s.scopes));
    ScopesStored(s.scopes);
  }

  /** The three kinds of entries keep out of each other's caches. */
  lemma CommandsUntouched(q: Sequence, q': Sequence, e: Entry)
    requires CommandsBacked(q) && !e.kind.CommandEntry? && q'.entries == q.entries + [e]
    requires q'.commands == q.commands && q'.commandKeys == q.commandKeys && q'.commandVals == q.commandVals
    ensures CommandsBacked(q')
  {
  }

  lemma ScenesUntouched(q: Sequence, q': Sequence, e: Entry)
    requires ScenesBacked(q) && !e.kind.SceneEntry? && q'.entries == q.entries + [e]
    requires q'.scenes == q.scenes && q'.sceneKeys == q.sceneKeys && q'.sceneVals == q.sceneVals
    ensures ScenesBacked(q')
  {
  }

  lemma SpeechUntouched(q: Sequence, q': Sequence, e: Entry)
    requires SpeechBacked(q) && PairsListed(q) && !e.kind.SpeechEntry? && q'.entries == q.entries + [e]
    requires q'.characters == q.characters && q'.expressions == q.expressions && q'.speech == q.speech
    requires q'.expressionsPerCharacter == q.expressionsPerCharacter
    ensures SpeechBacked(q') && PairsListed(q')
  {
  }

  lemma CommandBacks(s: State, r: RawEntry)
    requires Backed(s.sequence) && IngestCommand(s, r).Some?
    ensures var q' := IngestCommand(s, r).value.sequence; Backed(q') && AllGrow(s.sequence, q')
  {
    var q, q' := s.sequence, IngestCommand(s, r).value.sequence;
    var e := q'.entries[|q.entries|];
    assert q'.entries == q.entries + [e] && e.kind == CommandEntry && e.primary == r.primary &&
      e.params == ParamMap(r.params);
    CommandStored(q, q', e, r);
    ScenesUntouched(q, q', e);
    SpeechUntouched(q, q', e);
    PushBacksConditions(s, q.(commands := q'.commands, commandKeys := q'.commandKeys, commandVals := q'.commandVals),
      Entry(CommandEntry, 0, r.primary, "", "", ParamMap(r.params), map[], map[]));
  }

  lemma CommandStored(q: Sequence, q': Sequence, e: Entry, r: RawEntry)
    requires CommandsBacked(q) && q'.entries == q.entries + [e] && e.kind == CommandEntry && e.primary == r.primary
    requires e.params == ParamMap(r.params)
    requires q'.commands == Cache(q.commands, r.primary)
    requires q'.commandKeys == CacheAll(q.commandKeys, Keys(r.params))
    requires q'.commandVals == CacheAll(q.commandVals, Vals(r.params))
    ensures CommandsBacked(q') && Grows(q.commands, q'.commands) && Grows(q.commandKeys, q'.commandKeys)
    ensures Grows(q.commandVals, q'.commandVals)
  {
    CacheGrows(q.commands, r.primary);
    CacheAllGrows(q.commandKeys, Keys(r.params));
    CacheAllGrows(q.commandVals, Vals(r.params));
    ParamsStored(r.params);
  }

  lemma SceneBacks(s: State, r: RawEntry)
    requires Backed(s.sequence) && IngestScene(s, r).Some?
    ensures var q' := IngestScene(s, r).value.sequence; Backed(q') && AllGrow(s.sequence, q')
  {
    var q, q' := s.sequence, IngestScene(s, r).value.sequence;
    var e := q'.entries[|q.entries|];
    assert q'.entries == q.entries + [e] && e.kind == SceneEntry && e.primary == r.primary &&
      e.params == ParamMap(r.params);
    SceneStored(q, q', e, r);
    CommandsUntouched(q, q', e);
    SpeechUntouched(q, q', e);
    PushBacksConditions(s, q.(scenes := q'.scenes, sceneKeys := q'.sceneKeys, sceneVals := q'.sceneVals),
      Entry(SceneEntry, 0, r.primary, "", "", ParamMap(r.params), map[], map[]));
  }

  lemma SceneStored(q: Sequence, q': Sequence, e: Entry, r: RawEntry)
    requires ScenesBacked(q) && q'.entries == q.entries + [e] && e.kind == SceneEntry && e.primary == r.primary
    requires e.params == ParamMap(r.params)
    requires q'.scenes == Cache(q.scenes, r.primary)
    requires q'.sceneKeys == CacheAll(q.sceneKeys, Keys(r.params))
    requires q'.sceneVals == CacheAll(q.sceneVals, Vals(r.params))
    ensures ScenesBacked(q') && Grows(q.scenes, q'.scenes) && Grows(q.sceneKeys, q'.sceneKeys)
    ensures Grows(q.sceneVals, q'.sceneVals)
  {
    CacheGrows(q.scenes, r.primary);
    CacheAllGrows(q.sceneKeys, Keys(r.params));
    CacheAllGrows(q.sceneVals, Vals(r.params));
    ParamsStored(r.params);
  }

  lemma SpeechBacks(s: State, r: RawEntry)
    requires Backed(s.sequence) && IngestSpeech(s, r).Some?
    ensures var q' := IngestSpeech(s, r).value.sequence; Backed(q') && AllGrow(s.sequence, q')
  {
    var q, q', character, expression := s.sequence, IngestSpeech(s, r).value.sequence, ResolveSpeaker(s, r),
      ResolveExpression(s, r);
    var e := q'.entries[|q.entries|];
    assert q'.entries == q.entries + [e] && e.kind == SpeechEntry;
    SpeechStored(q, q', e);
    CommandsUntouched(q, q', e);
    ScenesUntouched(q, q', e);
    PushBacksConditions(s,
      q.(
        characters := q'.characters, expressions := q'.expressions, speech := q'.speech,
        expressionsPerCharacter := q'.expressionsPerCharacter),
      Entry(SpeechEntry, r.locID, character, expression, r.tertiary, map[], map[], map[]));
  }

  lemma SpeechStored(q: Sequence, q': Sequence, e: Entry)
    requires SpeechBacked(q) && PairsListed(q) && q'.entries == q.entries + [e] && e.kind == SpeechEntry
    requires q'.characters == Cache(q.characters, e.primary) && q'.expressions == Cache(q.expressions, e.expression)
    requires q'.speech == Cache(q.speech, e.fallbackText)
    requires q'.expressionsPerCharacter == NoteExpression(q.expressionsPerCharacter, e.primary, e.expression)
    ensures SpeechBacked(q') && PairsListed(q')
    ensures Grows(q.characters, q'.characters) && Grows(q.expressions, q'.expressions) && Grows(q.speech, q'.speech)
  {
    CacheGrows(q.characters, e.primary);
    CacheGrows(q.expressions, e.expression);
    CacheGrows(q.speech, e.fallbackText);
    PairNoted(q.expressionsPerCharacter, e.primary, e.expression);
  }

  /** The other lines touch nothing of the sequence but its layout. */
  lemma ControlOnlySetsLayout(s: State, r: RawEntry)
    requires Ingest(s, r).Some? && !HasContent(r)
    ensures var q' := Ingest(s, r).value.sequence; q' == s.sequence.(layout := q'.layout)
  {
  }

  lemma ControlBacks(s: State, r: RawEntry)
    requires Backed(s.sequence) && Ingest(s, r).Some? && !HasContent(r)
    ensures var q' := Ingest(s, r).value.sequence; Backed(q') && AllGrow(s.sequence, q')
  {
    ControlOnlySetsLayout(s, r);
    LayoutIsNoCache(s.sequence, Ingest(s, r).value.sequence.layout);
  }

  lemma LayoutIsNoCache(q: Sequence, layout: Text)
    requires Backed(q)
    ensures Backed(q.(layout := layout)) && AllGrow(q, q.(layout := layout))
  {
  }

  /** Every line keeps all caches distinct, moves no element, and keeps them exact. */
  lemma IngestBacks(s: State, r: RawEntry)
    requires Backed(s.sequence) && Ingest(s, r).Some?
    ensures var q' := Ingest(s, r).value.sequence; Backed(q') && AllGrow(s.sequence, q')
  {
    match r.kind
    case Command => CommandBacks(s, r);
    case Scene => SceneBacks(s, r);
    case Speech => SpeechBacks(s, r);
    case _ => ControlBacks(s, r);
  }

  // ----- Whole scripts -----

  lemma {:induction false} LoadBacks(raw: seq<RawEntry>, n: nat)
    requires n <= |raw| && Load(raw[..n]).Some?
    ensures Backed(Load(raw[..n]).value.sequence) && AllDistinct(Load(raw[..n]).value.sequence)
  {
    if n > 0 {
      LoadUpTo(raw, n - 1);
      LoadBacks(raw, n - 1);
      IngestBacks(Load(raw[..n - 1]).value, raw[n - 1]);
    }
  }

  /** From any line of an accepted script to its end, what was interned stays where it was. */
  lemma {:induction false} CachesOnlyGrow(raw: seq<RawEntry>, m: nat, n: nat)
    requires m <= n <= |raw| && Load(raw[..n]).Some? && Load(raw[..m]).Some?
    ensures AllGrow(Load(raw[..m]).value.sequence, Load(raw[..n]).value.sequence)
    decreases n
  {
    if m < n {
      LoadUpTo(raw, n - 1);
      CachesOnlyGrow(raw, m, n - 1);
      LoadBacks(raw, n - 1);
      IngestBacks(Load(raw[..n - 1]).value, raw[n - 1]);
      GrowthAddsUp(Load(raw[..m]).value.sequence, Load(raw[..n - 1]).value.sequence, Load(raw[..n]).value.sequence);
    }
  }

  lemma GrowthAddsUp(q: Sequence, q': Sequence, q'': Sequence)
    requires AllGrow(q, q') && AllGrow(q', q'')
    ensures AllGrow(q, q'')
  {
  }

  /** What a caller gets: distinct caches that hold what the entries need. */
  lemma CompiledIsBacked(raw: seq<RawEntry>)
    ensures Backed(Compile(raw)) && AllDistinct(Compile(raw))
  {
    if Accepted(raw) {
      assert raw[..|raw|] == raw;
      LoadBacks(raw, |raw|);
    }
  }

  /** The required expressions are exactly those that occur in speech entries. */
  lemma ExpressionsPerCharacterAreExact(raw: seq<RawEntry>, character: Text, expression: Text)
    ensures var q := Compile(raw);
      (character in q.expressionsPerCharacter && expression in q.expressionsPerCharacter[character]) <==>
        exists i ::
          && 0 <= i < |q.entries| && q.entries[i].kind.SpeechEntry?
          && q.entries[i].primary == character && q.entries[i].expression == expression
  {
    var q := Compile(raw);
    CompiledIsBacked(raw);
    GatheredFromSome(q.entries, CHARACTER_AND_EXPRESSION, (character, expression));
    assert (character, expression) in PairsIn(q.expressionsPerCharacter) <==>
      (character in q.expressionsPerCharacter && expression in q.expressionsPerCharacter[character]);
    if i :| 0 <= i < |q.entries| && (character, expression) in CHARACTER_AND_EXPRESSION(q.entries[i]) {
      assert q.entries[i].kind.SpeechEntry?;
    }
    if i :|
      && 0 <= i < |q.entries| && q.entries[i].kind.SpeechEntry?
      && q.entries[i].primary == character && q.entries[i].expression == expression
    {
      assert (character, expression) in CHARACTER_AND_EXPRESSION(q.entries[i]);
    }
  }
}
