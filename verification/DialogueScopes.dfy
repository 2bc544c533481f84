/** Scopes: accepted scripts are well bracketed, and jumping through one runs what its scopes say. */
module DialogueScopes {
  import opened Dialogue

  // ----- The control part of the loader's state -----

  /** Open scopes, outermost first, and the labels used so far. */
  datatype Control = Control(scopes: seq<Scope>, used: set<Text>)

  function ScopeStep(scopes: seq<Scope>, r: RawEntry): seq<Scope> {
    match r.kind
    case Label => if scopes != [] && scopes[|scopes| - 1].name == r.primary then scopes[..|scopes| - 1] else scopes
    case CondIf => scopes + [Scope(r.primary, r.secondary, r.tertiary, false)]
    case CondUnless => scopes + [Scope(r.primary, r.secondary, r.tertiary, true)]
    case CondElse => if scopes != [] then scopes[..|scopes| - 1] + [Invert(scopes[|scopes| - 1])] else scopes
    case _ => scopes
  }

  function ControlStep(c: Control, r: RawEntry): Control {
    Control(ScopeStep(c.scopes, r), if r.kind.Label? then c.used + {r.primary} else c.used)
  }

  predicate ControlOk(c: Control, r: RawEntry) {
    match r.kind
    case Label => r.primary !in c.used
    case CondIf => !IsOpen(c.scopes, r.primary)
    case CondUnless => !IsOpen(c.scopes, r.primary)
    case CondElse => c.scopes != [] && c.scopes[|c.scopes| - 1].name == r.primary
    case _ => true
  }

  /** The control states before each line of a script, and after the last. */
  function Trace(raw: seq<RawEntry>): (tr: seq<Control>)
    ensures |tr| == |raw| + 1
  {
    if raw == [] then [Control([], {})]
    else var before := Trace(raw[..|raw| - 1]); before + [ControlStep(before[|raw| - 1], raw[|raw| - 1])]
  }

  /** Control states that follow from each other, line by line. */
  ghost predicate Steps(raw: seq<RawEntry>, tr: seq<Control>) {
    && |tr| == |raw| + 1
    && (forall i :: 0 <= i < |raw| ==> ControlOk(tr[i], raw[i]) && tr[i + 1] == ControlStep(tr[i], raw[i]))
  }

  /** A script that is well formed as far as scopes and labels go, with its control states. */
  ghost predicate Controlled(raw: seq<RawEntry>, tr: seq<Control>) {
    Steps(raw, tr) && tr[|raw|].scopes == []
  }

  lemma IngestControl(s: State, r: RawEntry)
    requires Ingest(s, r).Some?
    ensures var c := Control(s.scopes, s.usedLabels.Keys); var s' := Ingest(s, r).value;
      ControlOk(c, r) && ControlStep(c, r) == Control(s'.scopes, s'.usedLabels.Keys)
  {
  }

  lemma StepsOneMore(raw: seq<RawEntry>, tr: seq<Control>)
    requires raw != [] && |tr| == |raw| + 1 && Steps(raw[..|raw| - 1], tr[..|raw|])
    requires var n := |raw| - 1; ControlOk(tr[n], raw[n]) && tr[n + 1] == ControlStep(tr[n], raw[n])
    ensures Steps(raw, tr)
  {
  }

  lemma {:induction false} LoadControl(raw: seq<RawEntry>)
    requires Load(raw).Some?
    ensures Steps(raw, Trace(raw))
    ensures Trace(raw)[|raw|] == Control(Load(raw).value.scopes, Load(raw).value.usedLabels.Keys)
  {
    if raw != [] {
      var most := raw[..|raw| - 1];
      LoadControl(most);
      IngestControl(Load(most).value, raw[|raw| - 1]);
      assert Trace(raw)[..|raw|] == Trace(most);
      StepsOneMore(raw, Trace(raw));
    }
  }

  lemma AcceptedIsControlled(raw: seq<RawEntry>)
    requires Accepted(raw)
    ensures Controlled(raw, Trace(raw))
  {
    LoadControl(raw);
  }

  // ----- Labels -----

  predicate LabelFor(r: RawEntry, name: Text) {
    r.kind.Label? && r.primary == name
  }

  predicate Opens(r: RawEntry) {
    r.kind.CondIf? || r.kind.CondUnless?
  }

  lemma {:induction false} LabelStaysUsed(raw: seq<RawEntry>, tr: seq<Control>, at: nat, i: nat)
    requires Controlled(raw, tr) && at < i <= |raw| && raw[at].kind.Label?
    ensures raw[at].primary in tr[i].used
    decreases i
  {
    assert tr[i - 1 + 1] == ControlStep(tr[i - 1], raw[i - 1]);
    if at < i - 1 {
      LabelStaysUsed(raw, tr, at, i - 1);
    }
  }

  lemma LabelsAreUnique(raw: seq<RawEntry>, tr: seq<Control>, a: nat, b: nat)
    requires Controlled(raw, tr) && a < b < |raw| && raw[a].kind.Label? && raw[b].kind.Label?
    ensures raw[a].primary != raw[b].primary
  {
    LabelStaysUsed(raw, tr, a, b);
    assert ControlOk(tr[b], raw[b]);
  }

  lemma OpenStaysOpen(scopes: seq<Scope>, r: RawEntry, name: Text)
    requires IsOpen(scopes, name) && !LabelFor(r, name)
    ensures IsOpen(ScopeStep(scopes, r), name)
  {
    var k :| 0 <= k < |scopes| && scopes[k].name == name;
    assert ScopeStep(scopes, r)[k].name == name;
  }

  /** A scope whose label is already used up can never be closed. */
  lemma {:induction false} DeadScopeStays(raw: seq<RawEntry>, tr: seq<Control>, at: nat, i: nat, j: nat, name: Text)
    requires Controlled(raw, tr) && at < i <= j <= |raw| && LabelFor(raw[at], name) && IsOpen(tr[i].scopes, name)
    ensures IsOpen(tr[j].scopes, name)
    decreases j
  {
    if i < j {
      DeadScopeStays(raw, tr, at, i, j - 1, name);
      LabelStaysUsed(raw, tr, at, j - 1);
      assert ControlOk(tr[j - 1], raw[j - 1]) && tr[j - 1 + 1] == ControlStep(tr[j - 1], raw[j - 1]);
      OpenStaysOpen(tr[j - 1].scopes, raw[j - 1], name);
    }
  }

  ghost predicate DistinctNames(scopes: seq<Scope>) {
    forall i, j :: 0 <= i < j < |scopes| ==> scopes[i].name != scopes[j].name
  }

  // ----- From an open scope to the line that next names it -----

  /** An else or a label of this scope. */
  predicate Marks(r: RawEntry, name: Text) {
    (r.kind.CondElse? || r.kind.Label?) && r.primary == name
  }

  /** The first line at or after `from` that marks the scope. */
  function NextMark(raw: seq<RawEntry>, from: nat, name: Text): (mark: nat)
    ensures from <= mark && (mark < |raw| ==> Marks(raw[mark], name))
    ensures forall j :: from <= j < mark && j < |raw| ==> !Marks(raw[j], name)
    decreases |raw| - from
  {
    if from >= |raw| || Marks(raw[from], name) then from else NextMark(raw, from + 1, name)
  }

  lemma PrefixSurvives(c: Control, r: RawEntry, open: seq<Scope>)
    requires open != [] && open <= c.scopes && ControlOk(c, r) && !Marks(r, open[|open| - 1].name)
    ensures open <= ScopeStep(c.scopes, r)
  {
    if |c.scopes| == |open| {
      assert c.scopes == open;
    } else {
      assert open <= c.scopes[..|c.scopes| - 1];
    }
  }

  lemma {:induction false} OpenUntilMarked(raw: seq<RawEntry>, tr: seq<Control>, i: nat, j: nat, open: seq<Scope>)
    requires Controlled(raw, tr) && open != [] && i <= |raw| && tr[i].scopes == open
    requires i <= j <= NextMark(raw, i, open[|open| - 1].name) && j <= |raw|
    ensures open <= tr[j].scopes
    decreases j
  {
    if i < j {
      OpenUntilMarked(raw, tr, i, j - 1, open);
      assert ControlOk(tr[j - 1], raw[j - 1]) && tr[j - 1 + 1] == ControlStep(tr[j - 1], raw[j - 1]);
      PrefixSurvives(tr[j - 1], raw[j - 1], open);
    }
  }

  lemma {:induction false} NamesAreDistinct(raw: seq<RawEntry>, tr: seq<Control>, i: nat)
    requires Controlled(raw, tr) && i <= |raw| && DistinctNames(tr[0].scopes)
    ensures DistinctNames(tr[i].scopes)
  {
    if i > 0 {
      NamesAreDistinct(raw, tr, i - 1);
      assert ControlOk(tr[i - 1], raw[i - 1]) && tr[i - 1 + 1] == ControlStep(tr[i - 1], raw[i - 1]);
      StepKeepsDistinct(tr[i - 1], raw[i - 1]);
    }
  }

  lemma StepKeepsDistinct(c: Control, r: RawEntry)
    requires DistinctNames(c.scopes) && ControlOk(c, r)
    ensures DistinctNames(ScopeStep(c.scopes, r))
  {
  }

  /** An open scope is marked later, and it is innermost when that happens. */
  lemma MarkIsInnermost(raw: seq<RawEntry>, tr: seq<Control>, i: nat, open: seq<Scope>)
    requires Controlled(raw, tr) && open != [] && i <= |raw| && tr[i].scopes == open && DistinctNames(tr[0].scopes)
    ensures var mark := NextMark(raw, i, open[|open| - 1].name); mark < |raw| && tr[mark].scopes == open
  {
    var name := open[|open| - 1].name;
    var mark := NextMark(raw, i, name);
    if mark >= |raw| {
      OpenUntilMarked(raw, tr, i, |raw|, open);
      assert false;
    }
    OpenUntilMarked(raw, tr, i, mark, open);
    NamesAreDistinct(raw, tr, mark);
    var scopes := tr[mark].scopes;
    assert ControlOk(tr[mark], raw[mark]) && tr[mark + 1] == ControlStep(tr[mark], raw[mark]);
    if scopes[|scopes| - 1].name != name {
      assert tr[mark + 1].scopes[|open| - 1].name == name;
      DeadScopeStays(raw, tr, mark, mark + 1, |raw|, name);
      assert false;
    }
    assert |scopes| == |open|;
  }

  /** What the mark does: an else inverts the innermost scope, a label removes it. */
  lemma AtMark(raw: seq<RawEntry>, tr: seq<Control>, i: nat, open: seq<Scope>)
    requires Controlled(raw, tr) && open != [] && i <= |raw| && tr[i].scopes == open && DistinctNames(tr[0].scopes)
    ensures var mark := NextMark(raw, i, open[|open| - 1].name);
      mark < |raw| && tr[mark + 1].scopes ==
        if raw[mark].kind.Label? then open[..|open| - 1] else open[..|open| - 1] + [Invert(open[|open| - 1])]
  {
    var mark := NextMark(raw, i, open[|open| - 1].name);
    MarkIsInnermost(raw, tr, i, open);
    assert ControlOk(tr[mark], raw[mark]) && tr[mark + 1] == ControlStep(tr[mark], raw[mark]);
  }

  // ----- Well bracketed -----

  /** The scope opened on line i is innermost-but-inner-ones on every line up to its label on line j. */
  ghost predicate Brackets(raw: seq<RawEntry>, tr: seq<Control>, i: nat, j: nat) {
    && i < j < |raw| < |tr| && Opens(raw[i]) && LabelFor(raw[j], raw[i].primary)
    && tr[j + 1].scopes == tr[i].scopes
    && (forall k :: i < k <= j ==>
          && |tr[i].scopes| < |tr[k].scopes| && tr[i].scopes <= tr[k].scopes
          && tr[k].scopes[|tr[i].scopes|].name == raw[i].primary)
  }

  lemma {:induction false} ClosingLabel(raw: seq<RawEntry>, tr: seq<Control>, i: nat, open: seq<Scope>) returns (j: nat)
    requires Controlled(raw, tr) && open != [] && i <= |raw| && tr[i].scopes == open && DistinctNames(tr[0].scopes)
    ensures i <= j < |raw| && LabelFor(raw[j], open[|open| - 1].name) && tr[j + 1].scopes == open[..|open| - 1]
    ensures forall k :: i <= k <= j ==>
      && |open| <= |tr[k].scopes| && open[..|open| - 1] <= tr[k].scopes
      && tr[k].scopes[|open| - 1].name == open[|open| - 1].name
    decreases |raw| - i
  {
    var outer, last := open[..|open| - 1], open[|open| - 1];
    var mark := NextMark(raw, i, last.name);
    AtMark(raw, tr, i, open);
    forall k | i <= k <= mark
      ensures |open| <= |tr[k].scopes| && outer <= tr[k].scopes && tr[k].scopes[|open| - 1].name == last.name
    {
      OpenUntilMarked(raw, tr, i, k, open);
    }
    if raw[mark].kind.Label? {
      j := mark;
    } else {
      var flipped := outer + [Invert(last)];
      j := ClosingLabel(raw, tr, mark + 1, flipped);
      assert flipped[..|flipped| - 1] == outer;
    }
  }

  lemma BracketOf(raw: seq<RawEntry>, tr: seq<Control>, i: nat) returns (j: nat)
    requires Controlled(raw, tr) && i < |raw| && Opens(raw[i]) && DistinctNames(tr[0].scopes)
    ensures Brackets(raw, tr, i, j)
  {
    assert tr[i + 1] == ControlStep(tr[i], raw[i]);
    j := ClosingLabel(raw, tr, i + 1, tr[i + 1].scopes);
    assert tr[i + 1].scopes[..|tr[i + 1].scopes| - 1] == tr[i].scopes;
  }

  lemma OpenedOnce(raw: seq<RawEntry>, tr: seq<Control>, i: nat, j: nat, k: nat, l: nat)
    requires Controlled(raw, tr) && Brackets(raw, tr, i, j) && Brackets(raw, tr, k, l) && i < k
    ensures raw[k].primary != raw[i].primary
  {
    assert ControlOk(tr[k], raw[k]);
    if raw[k].primary == raw[i].primary {
      if j < l {
        LabelsAreUnique(raw, tr, j, l);
      } else if l < j {
        LabelsAreUnique(raw, tr, l, j);
      }
    }
  }

  /** Line j holds the only label of the scope opened on line i, which is opened nowhere else. */
  ghost predicate Closes(raw: seq<RawEntry>, i: nat, j: nat) {
    && i < j < |raw| && Opens(raw[i]) && LabelFor(raw[j], raw[i].primary)
    && (forall k :: 0 <= k < |raw| && LabelFor(raw[k], raw[i].primary) ==> k == j)
    && (forall k :: 0 <= k < |raw| && Opens(raw[k]) && raw[k].primary == raw[i].primary ==> k == i)
  }

  /** Accepted scripts are well bracketed: each scope is opened once and closed by exactly one label,
      which comes later; a label that is early or used twice means the script was refused. */
  lemma ScopeCloses(raw: seq<RawEntry>, i: nat) returns (j: nat)
    requires Accepted(raw) && i < |raw| && Opens(raw[i])
    ensures Closes(raw, i, j) && Brackets(raw, Trace(raw), i, j)
  {
    var tr := Trace(raw);
    AcceptedIsControlled(raw);
    TraceStart(raw);
    j := BracketOf(raw, tr, i);
    forall k | 0 <= k < |raw| && LabelFor(raw[k], raw[i].primary) ensures k == j {
      if k < j {
        LabelsAreUnique(raw, tr, k, j);
      } else if j < k {
        LabelsAreUnique(raw, tr, j, k);
      }
    }
    forall k | 0 <= k < |raw| && Opens(raw[k]) && raw[k].primary == raw[i].primary ensures k == i {
      var l := BracketOf(raw, tr, k);
      if i < k {
        OpenedOnce(raw, tr, i, j, k, l);
      } else if k < i {
        OpenedOnce(raw, tr, k, l, i, j);
      }
    }
  }

  lemma {:induction false} TraceStart(raw: seq<RawEntry>)
    ensures Trace(raw)[0] == Control([], {})
  {
    if raw != [] {
      TraceStart(raw[..|raw| - 1]);
    }
  }

  /** And scopes nest: one that opens inside another closes inside it. */
  lemma ScopesNest(raw: seq<RawEntry>, i: nat, j: nat, i': nat, j': nat)
    requires Accepted(raw) && Closes(raw, i, j) && Closes(raw, i', j') && i < i' < j
    ensures j' < j
  {
    var tr := Trace(raw);
    var l := ScopeCloses(raw, i);
    var l' := ScopeCloses(raw, i');
    assert l == j && l' == j';
    assert |tr[i].scopes| < |tr[i'].scopes|;
  }

  // ----- Jump semantics -----

  /** What the executor looks conditions up in. */
  type Environment = map<Text, Text>

  predicate Matches(env: Environment, key: Text, val: Text) {
    key in env && env[key] == val
  }

  predicate HasContent(r: RawEntry) {
    r.kind.Command? || r.kind.Scene? || r.kind.Speech?
  }

  /** Running the raw script with jumps: a condition that fails jumps past the next else or label of
      its target, and an else that is reached from above jumps the same way. Yields executed lines. */
  function Execute(raw: seq<RawEntry>, pc: nat, env: Environment): seq<nat>
    decreases |raw| - pc
  {
    if pc >= |raw| then []
    else
      var r := raw[pc];
      match r.kind
      case CondIf =>
        var next := if Matches(env, r.secondary, r.tertiary) then pc + 1 else NextMark(raw, pc + 1, r.primary) + 1;
        Execute(raw, next, env)
      case CondUnless =>
        var next := if Matches(env, r.secondary, r.tertiary) then NextMark(raw, pc + 1, r.primary) + 1 else pc + 1;
        Execute(raw, next, env)
      case CondElse => Execute(raw, NextMark(raw, pc + 1, r.primary) + 1, env)
      case _ => (if HasContent(r) then [pc] else []) + Execute(raw, pc + 1, env)
  }

  predicate ScopeHolds(scope: Scope, env: Environment) {
    Matches(env, scope.key, scope.val) != scope.negated
  }

  predicate Active(scopes: seq<Scope>, env: Environment) {
    forall i :: 0 <= i < |scopes| ==> ScopeHolds(scopes[i], env)
  }

  /** The content lines from `from` on whose open scopes all hold. */
  function ActiveLines(raw: seq<RawEntry>, tr: seq<Control>, from: nat, env: Environment): seq<nat>
    requires |tr| == |raw| + 1
    decreases |raw| - from
  {
    if from >= |raw| then []
    else
      (if HasContent(raw[from]) && Active(tr[from].scopes, env) then [from] else [])
      + ActiveLines(raw, tr, from + 1, env)
  }

  lemma {:induction false} SkippedLines(
    raw: seq<RawEntry>, tr: seq<Control>, i: nat, j: nat, open: seq<Scope>, env: Environment)
    requires Controlled(raw, tr) && open != [] && i <= |raw| && tr[i].scopes == open
    requires !ScopeHolds(open[|open| - 1], env)
    requires i <= j <= NextMark(raw, i, open[|open| - 1].name) < |raw|
    ensures ActiveLines(raw, tr, j, env) == ActiveLines(raw, tr, NextMark(raw, i, open[|open| - 1].name) + 1, env)
    decreases |raw| - j
  {
    var mark := NextMark(raw, i, open[|open| - 1].name);
    if j < mark {
      OpenUntilMarked(raw, tr, i, j, open);
      assert !ScopeHolds(tr[j].scopes[|open| - 1], env);
      SkippedLines(raw, tr, i, j + 1, open, env);
    }
  }

  lemma JumpOverInactive(raw: seq<RawEntry>, tr: seq<Control>, i: nat, open: seq<Scope>, env: Environment)
    requires Controlled(raw, tr) && DistinctNames(tr[0].scopes) && open != [] && i <= |raw| && tr[i].scopes == open
    requires Active(open[..|open| - 1], env) && !ScopeHolds(open[|open| - 1], env)
    ensures var mark := NextMark(raw, i, open[|open| - 1].name);
      && mark < |raw| && Active(tr[mark + 1].scopes, env)
      && ActiveLines(raw, tr, i, env) == ActiveLines(raw, tr, mark + 1, env)
  {
    AtMark(raw, tr, i, open);
    SkippedLines(raw, tr, i, i, open, env);
  }

  /** After an opening line or an else, everything but the innermost scope still holds; an else that is
      reached by falling through has an innermost scope that no longer does. */
  lemma OuterStaysActive(c: Control, r: RawEntry, env: Environment)
    requires Active(c.scopes, env) && ControlOk(c, r) && (Opens(r) || r.kind.CondElse?)
    ensures var next := ScopeStep(c.scopes, r);
      && next != [] && next[|next| - 1].name == r.primary && Active(next[..|next| - 1], env)
      && (ScopeHolds(next[|next| - 1], env) ==> Active(next, env))
      && (r.kind.CondElse? ==> !ScopeHolds(next[|next| - 1], env))
  {
    var next := ScopeStep(c.scopes, r);
    forall i | 0 <= i < |next| - 1 ensures ScopeHolds(next[i], env) {
      assert next[i] == c.scopes[i];
    }
    if r.kind.CondElse? {
      assert ScopeHolds(c.scopes[|c.scopes| - 1], env);
    }
  }

  /** Where control goes from an opening line or an else: on, if its scope now holds, or past its mark. */
  function Landing(raw: seq<RawEntry>, c: Control, pc: nat, env: Environment): (landing: nat)
    requires pc < |raw|
    ensures pc < landing
  {
    var next := ScopeStep(c.scopes, raw[pc]);
    if next != [] && ScopeHolds(next[|next| - 1], env) then pc + 1 else NextMark(raw, pc + 1, raw[pc].primary) + 1
  }

  lemma ExecuteControl(raw: seq<RawEntry>, c: Control, pc: nat, env: Environment)
    requires pc < |raw| && ControlOk(c, raw[pc]) && Active(c.scopes, env) && (Opens(raw[pc]) || raw[pc].kind.CondElse?)
    ensures Execute(raw, pc, env) == Execute(raw, Landing(raw, c, pc, env), env)
  {
    OuterStaysActive(c, raw[pc], env);
  }

  lemma ControlLineIsSilent(raw: seq<RawEntry>, tr: seq<Control>, pc: nat, env: Environment)
    requires |tr| == |raw| + 1 && pc < |raw| && (Opens(raw[pc]) || raw[pc].kind.CondElse?)
    ensures ActiveLines(raw, tr, pc, env) == ActiveLines(raw, tr, pc + 1, env)
  {
  }

  /** Control lands where all open scopes hold, having passed over no active content. */
  lemma ControlLineLands(raw: seq<RawEntry>, tr: seq<Control>, pc: nat, env: Environment)
    requires Controlled(raw, tr) && DistinctNames(tr[0].scopes) && pc < |raw| && Active(tr[pc].scopes, env)
    requires Opens(raw[pc]) || raw[pc].kind.CondElse?
    ensures var landing := Landing(raw, tr[pc], pc, env);
      && landing <= |raw| && Active(tr[landing].scopes, env)
      && ActiveLines(raw, tr, pc, env) == ActiveLines(raw, tr, landing, env)
  {
    var c, next := tr[pc], tr[pc + 1].scopes;
    assert ControlOk(c, raw[pc]) && tr[pc + 1] == ControlStep(c, raw[pc]);
    ControlLineIsSilent(raw, tr, pc, env);
    OuterStaysActive(c, raw[pc], env);
    if !ScopeHolds(next[|next| - 1], env) {
      JumpOverInactive(raw, tr, pc + 1, next, env);
    }
  }

  /** The jumps run exactly the lines whose open scopes all hold. */
  lemma {:induction false} JumpsFollowScopes(raw: seq<RawEntry>, tr: seq<Control>, pc: nat, env: Environment)
    requires Controlled(raw, tr) && DistinctNames(tr[0].scopes) && pc <= |raw| && Active(tr[pc].scopes, env)
    ensures Execute(raw, pc, env) == ActiveLines(raw, tr, pc, env)
    decreases |raw| - pc
  {
    if pc < |raw| {
      assert ControlOk(tr[pc], raw[pc]) && tr[pc + 1] == ControlStep(tr[pc], raw[pc]);
      if Opens(raw[pc]) || raw[pc].kind.CondElse? {
        ExecuteControl(raw, tr[pc], pc, env);
        ControlLineLands(raw, tr, pc, env);
        JumpsFollowScopes(raw, tr, Landing(raw, tr[pc], pc, env), env);
      } else {
        JumpsFollowScopes(raw, tr, pc + 1, env);
      }
    }
  }
}
