/** Dialogue scripts: raw lines, compiled entries, and what ingesting one line does to the loader's state. */
module Dialogue {
  import opened Wrappers

  type Text = string

  datatype RawKind =
    Alias | Layout | Command | Scene | Speech | Label | CondIf | CondUnless | CondElse | Whitespace | Invalid

  /** One tokenized line; `params` lists the key-value pairs in the order the map yields them. */
  datatype RawEntry = RawEntry(
    lineNumber: nat, kind: RawKind, isCharAlias: bool, locID: nat,
    primary: Text, secondary: Text, tertiary: Text, params: seq<(Text, Text)>)

  datatype EntryKind = CommandEntry | SceneEntry | SpeechEntry

  datatype Entry = Entry(
    kind: EntryKind, locID: nat, primary: Text, expression: Text, fallbackText: Text, params: map<Text, Text>,
    necessary: map<Text, Text>, forbidden: map<Text, Text>)

  /** The compiled sequence. A cache is an append-only list of stored strings; the storage that a view
      points at is its text's slot in the matching cache. */
  datatype Sequence = Sequence(
    layout: Text,
    commands: seq<Text>, commandKeys: seq<Text>, commandVals: seq<Text>,
    scenes: seq<Text>, sceneKeys: seq<Text>, sceneVals: seq<Text>,
    conditionKeys: seq<Text>, conditionVals: seq<Text>,
    characters: seq<Text>, expressions: seq<Text>, speech: seq<Text>,
    expressionsPerCharacter: map<Text, set<Text>>,
    entries: seq<Entry>)

  const EMPTY_SEQUENCE := Sequence("", [], [], [], [], [], [], [], [], [], [], [], map[], [])

  datatype Scope = Scope(name: Text, key: Text, val: Text, negated: bool)

  datatype State = State(
    aliases: map<Text, Text>, lastChar: Text, lastExpressions: map<Text, Text>,
    scopes: seq<Scope>, usedLabels: map<Text, nat>, sequence: Sequence)

  const INITIAL := State(map[], "", map[], [], map[], EMPTY_SEQUENCE)

  function ApplyAlias(aliases: map<Text, Text>, token: Text): Text {
    if token in aliases then aliases[token] else token
  }

  /** MakeStorage, as seen from the cache: re-use an equal string or append a new one. */
  function Cache(cache: seq<Text>, text: Text): seq<Text> {
    if text in cache then cache else cache + [text]
  }

  function CacheAll(cache: seq<Text>, texts: seq<Text>): seq<Text> {
    if texts == [] then cache else Cache(CacheAll(cache, texts[..|texts| - 1]), texts[|texts| - 1])
  }

  function Keys(params: seq<(Text, Text)>): seq<Text> {
    seq(|params|, i requires 0 <= i < |params| => params[i].0)
  }

  function Vals(params: seq<(Text, Text)>): seq<Text> {
    seq(|params|, i requires 0 <= i < |params| => params[i].1)
  }

  function ParamMap(params: seq<(Text, Text)>): map<Text, Text> {
    if params == [] then map[]
    else var last := params[|params| - 1]; ParamMap(params[..|params| - 1])[last.0 := last.1]
  }

  function ScopeKeys(scopes: seq<Scope>): seq<Text> {
    seq(|scopes|, i requires 0 <= i < |scopes| => scopes[i].key)
  }

  function ScopeVals(scopes: seq<Scope>): seq<Text> {
    seq(|scopes|, i requires 0 <= i < |scopes| => scopes[i].val)
  }

  /** The conditions of one polarity that an entry under these scopes carries. Insertion never
      replaces, so the outermost scope decides each key. */
  function Conditions(scopes: seq<Scope>, negated: bool): map<Text, Text> {
    if scopes == [] then map[]
    else
      var outer, last := Conditions(scopes[..|scopes| - 1], negated), scopes[|scopes| - 1];
      if last.negated == negated && last.key !in outer then outer[last.key := last.val] else outer
  }

  /** PushConditionsOntoEntry: intern every scope's condition and hang them onto the newest entry. */
  function PushEntry(s: State, sequence: Sequence, entry: Entry): State {
    s.(sequence := sequence.(
      conditionKeys := CacheAll(sequence.conditionKeys, ScopeKeys(s.scopes)),
      conditionVals := CacheAll(sequence.conditionVals, ScopeVals(s.scopes)),
      entries := sequence.entries
        + [entry.(necessary := Conditions(s.scopes, false), forbidden := Conditions(s.scopes, true))]))
  }

  predicate ValidParams(params: seq<(Text, Text)>) {
    forall i :: 0 <= i < |params| ==> params[i].0 != "" && params[i].1 != ""
  }

  function IngestAlias(s: State, r: RawEntry): Option<State> {
    if r.primary == "" || r.secondary == "" || r.tertiary != "" || !r.isCharAlias || r.primary in s.aliases then None
    else Some(s.(aliases := s.aliases[r.primary := r.secondary]))
  }

  function IngestLayout(s: State, r: RawEntry): Option<State> {
    if r.primary == "" || r.secondary != "" || r.tertiary != "" || s.sequence.layout != "" then None
    else Some(s.(sequence := s.sequence.(layout := r.primary)))
  }

  function IngestCommand(s: State, r: RawEntry): Option<State> {
    if r.primary == "" || r.secondary != "" || r.tertiary != "" || s.sequence.layout == "" || !ValidParams(r.params)
    then None
    else
      var q := s.sequence.(
        commands := Cache(s.sequence.commands, r.primary),
        commandKeys := CacheAll(s.sequence.commandKeys, Keys(r.params)),
        commandVals := CacheAll(s.sequence.commandVals, Vals(r.params)));
      Some(PushEntry(s, q, Entry(CommandEntry, 0, r.primary, "", "", ParamMap(r.params), map[], map[])))
  }

  function IngestScene(s: State, r: RawEntry): Option<State> {
    if r.primary == "" || r.secondary != "" || r.tertiary != "" || s.sequence.layout == "" || !ValidParams(r.params)
    then None
    else
      var q := s.sequence.(
        scenes := Cache(s.sequence.scenes, r.primary),
        sceneKeys := CacheAll(s.sequence.sceneKeys, Keys(r.params)),
        sceneVals := CacheAll(s.sequence.sceneVals, Vals(r.params)));
      Some(PushEntry(s, q, Entry(SceneEntry, 0, r.primary, "", "", ParamMap(r.params), map[], map[])))
  }

  /** The resolved speaker: an omitted one is the last speaker, and the alias table applies to both. */
  function ResolveSpeaker(s: State, r: RawEntry): Text {
    ApplyAlias(s.aliases, if r.primary == "" then s.lastChar else r.primary)
  }

  function LastExpression(s: State, character: Text): Text {
    if character in s.lastExpressions then s.lastExpressions[character] else ""
  }

  function ResolveExpression(s: State, r: RawEntry): Text {
    if r.secondary == "" then LastExpression(s, ResolveSpeaker(s, r)) else r.secondary
  }

  function NoteExpression(m: map<Text, set<Text>>, character: Text, expression: Text): map<Text, set<Text>> {
    m[character := (if character in m then m[character] else {}) + {expression}]
  }

  function IngestSpeech(s: State, r: RawEntry): Option<State> {
    if r.tertiary == "" || (r.primary == "" && s.lastChar == "") || ResolveExpression(s, r) == "" then None
    else
      var character, expression := ResolveSpeaker(s, r), ResolveExpression(s, r);
      var q := s.sequence.(
        characters := Cache(s.sequence.characters, character),
        expressions := Cache(s.sequence.expressions, expression),
        speech := Cache(s.sequence.speech, r.tertiary),
        expressionsPerCharacter := NoteExpression(s.sequence.expressionsPerCharacter, character, expression));
      var t := s.(lastChar := character, lastExpressions := s.lastExpressions[character := expression]);
      Some(PushEntry(t, q, Entry(SpeechEntry, r.locID, character, expression, r.tertiary, map[], map[], map[])))
  }

  function IngestLabel(s: State, r: RawEntry): Option<State> {
    if r.primary == "" || r.secondary != "" || r.tertiary != "" || r.primary in s.usedLabels then None
    else
      var t := s.(usedLabels := s.usedLabels[r.primary := r.lineNumber]);
      if s.scopes != [] && s.scopes[|s.scopes| - 1].name == r.primary
      then Some(t.(scopes := s.scopes[..|s.scopes| - 1]))
      else Some(t)
  }

  predicate IsOpen(scopes: seq<Scope>, name: Text) {
    exists i :: 0 <= i < |scopes| && scopes[i].name == name
  }

  /** cond_if and cond_unless differ only in polarity. */
  function IngestCond(s: State, r: RawEntry, negated: bool): Option<State> {
    if r.primary == "" || r.secondary == "" || r.tertiary == "" || IsOpen(s.scopes, r.primary) then None
    else Some(s.(scopes := s.scopes + [Scope(r.primary, r.secondary, r.tertiary, negated)]))
  }

  function Invert(scope: Scope): Scope {
    scope.(negated := !scope.negated)
  }

  function IngestCondElse(s: State, r: RawEntry): Option<State> {
    if r.primary == "" || r.secondary != "" || r.tertiary != "" || s.scopes == [] then None
    else
      var current := s.scopes[|s.scopes| - 1];
      if current.name != r.primary then None
      else Some(s.(scopes := s.scopes[..|s.scopes| - 1] + [Invert(current)]))
  }

  function Ingest(s: State, r: RawEntry): Option<State> {
    match r.kind
    case Alias => IngestAlias(s, r)
    case Label => IngestLabel(s, r)
    case Layout => IngestLayout(s, r)
    case Command => IngestCommand(s, r)
    case Scene => IngestScene(s, r)
    case Speech => IngestSpeech(s, r)
    case CondIf => IngestCond(s, r, false)
    case CondUnless => IngestCond(s, r, true)
    case CondElse => IngestCondElse(s, r)
    case Whitespace => None
    case Invalid => None
  }

  /** The loader's state after a list of lines, if none of them was rejected. */
  function Load(raw: seq<RawEntry>): Option<State> {
    if raw == [] then Some(INITIAL)
    else
      var before := Load(raw[..|raw| - 1]);
      if before.None? then None else Ingest(before.value, raw[|raw| - 1])
  }

  /** Every line was ingested and no scope is left open. */
  predicate Accepted(raw: seq<RawEntry>) {
    Load(raw).Some? && Load(raw).value.scopes == []
  }

  /** What SecondPassParse returns: an empty sequence stands for any failure. */
  function Compile(raw: seq<RawEntry>): Sequence {
    if Accepted(raw) then Load(raw).value.sequence else EMPTY_SEQUENCE
  }
}
