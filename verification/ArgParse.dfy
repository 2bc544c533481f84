/** The command-line parser: options with their values, arguments, and the "--" that ends options. */
module ArgParse {
  import opened Wrappers

  const OPTION_PREFIX := '-'
  const OPTION_TERMINATOR := "--"

  predicate StartsOption(param: string) {
    param != OPTION_TERMINATOR && |param| > 1 && param[0] == OPTION_PREFIX
  }

  type Options = map<string, seq<string>>

  /** The parser's state between two parameters. */
  datatype Progress = Progress(options: Options, arguments: seq<string>, curOption: Option<string>, onlyArguments: bool)

  const START := Progress(map[], [], None, false)

  /** try_emplace: an option that is already there keeps its values. */
  function OpenOption(options: Options, name: string): Options {
    if name in options then options else options[name := []]
  }

  function AppendValue(options: Options, name: string, val: string): Options {
    options[name := (if name in options then options[name] else []) + [val]]
  }

  function Step(p: Progress, param: string): Progress {
    if p.onlyArguments then p.(arguments := p.arguments + [param])
    else if param == OPTION_TERMINATOR then p.(onlyArguments := true)
    else if StartsOption(param) then p.(options := OpenOption(p.options, param), curOption := Some(param))
    else if p.curOption.Some? then p.(options := AppendValue(p.options, p.curOption.value, param))
    else p.(arguments := p.arguments + [param])
  }

  function Run(p: Progress, params: seq<string>): Progress
    decreases |params|
  {
    if params == [] then p else Run(Step(p, params[0]), params[1..])
  }

  lemma {:induction false} RunConcat(p: Progress, first: seq<string>, second: seq<string>)
    ensures Run(p, first + second) == Run(Run(p, first), second)
    decreases |first|
  {
    if first == [] {
      assert first + second == second;
    } else {
      assert (first + second)[1..] == first[1..] + second;
      RunConcat(Step(p, first[0]), first[1..], second);
    }
  }

  lemma RunOneMore(params: seq<string>, n: nat)
    requires n < |params|
    ensures Run(START, params[..n + 1]) == Step(Run(START, params[..n]), params[n])
  {
    assert params[..n + 1] == params[..n] + [params[n]];
    RunConcat(START, params[..n], [params[n]]);
    assert Run(Run(START, params[..n]), [params[n]]) == Step(Run(START, params[..n]), params[n]);
  }

  // ----- The parser -----

  class Parser {
    var mArguments: seq<string>
    var mOptions: Options

    constructor (args: seq<string>)
      requires forall i :: 0 <= i < |args| ==> args[i] != ""
      ensures mOptions == Run(START, args).options && mArguments == Run(START, args).arguments
      ensures forall name :: name in mOptions <==> exists i: nat :: i < |args| && Opens(args, i) && args[i] == name
    {
      mArguments, mOptions := [], map[];
      new;
      Parse(args);
    }

    method Parse(args: seq<string>)
      requires mArguments == [] && mOptions == map[] && forall i :: 0 <= i < |args| ==> args[i] != ""
      modifies this
      ensures mOptions == Run(START, args).options && mArguments == Run(START, args).arguments
      ensures forall name :: name in mOptions <==> exists i: nat :: i < |args| && Opens(args, i) && args[i] == name
    {
      var curOption: Option<string> := None;
      var onlyArguments := false;
      for i := 0 to |args|
        invariant curOption.Some? ==> curOption.value in mOptions
        invariant Run(Progress(mOptions, mArguments, curOption, onlyArguments), args[i..]) == Run(START, args)
      {
        var param := args[i];
        assert args[i..][0] == param && args[i..][1..] == args[i + 1..];
        if onlyArguments {
          mArguments := mArguments + [param];
          continue;
        }
        if param == OPTION_TERMINATOR {
          onlyArguments := true;
          continue;
        }
        if |param| > 1 && param[0] == OPTION_PREFIX {
          if param !in mOptions {
            mOptions := mOptions[param := []];
          }
          curOption := Some(param);
          continue;
        }
        if curOption.Some? {
          mOptions := mOptions[curOption.value := mOptions[curOption.value] + [param]];
          continue;
        }
        mArguments := mArguments + [param];
      }
      NamesAreOpened(args);
    }

    method GetOptionNames() returns (names: set<string>)
      ensures names == mOptions.Keys
    {
      names := {};
      var rest := mOptions.Keys;
      while rest != {}
        invariant rest <= mOptions.Keys && names == mOptions.Keys - rest
        decreases |rest|
      {
        var name :| name in rest;
        names := names + {name};
        rest := rest - {name};
      }
    }

    predicate HasOption(name: string)
      reads this
    {
      name in mOptions
    }

    method HasAnyOption(names: seq<string>) returns (has: bool)
      ensures has <==> exists i :: 0 <= i < |names| && HasOption(names[i])
    {
      for i := 0 to |names|
        invariant forall j :: 0 <= j < i ==> !HasOption(names[j])
      {
        if names[i] in mOptions {
          return true;
        }
      }
      return false;
    }

    function GetOptionVals(name: string): seq<string>
      reads this
    {
      if name in mOptions then mOptions[name] else []
    }
  }

  // ----- Every parameter has one role -----

  datatype Role = Terminator | Name(name: string) | Value(option: string) | Argument

  /** The position of the first terminator, or the end. */
  function Cut(params: seq<string>): (cut: nat)
    ensures cut <= |params| && (cut < |params| ==> params[cut] == OPTION_TERMINATOR)
    ensures forall i :: 0 <= i < cut ==> params[i] != OPTION_TERMINATOR
  {
    if params == [] || params[0] == OPTION_TERMINATOR then 0 else 1 + Cut(params[1..])
  }

  /** The option that is current before parameter n, were there no terminator. */
  function LatestOption(params: seq<string>, n: nat): (j: Option<nat>)
    requires n <= |params|
    ensures j.Some? ==>
      && j.value < n && StartsOption(params[j.value])
      && forall k :: j.value < k < n ==> !StartsOption(params[k])
    ensures j.None? ==> forall k :: 0 <= k < n ==> !StartsOption(params[k])
  {
    if n == 0 then None else if StartsOption(params[n - 1]) then Some(n - 1) else LatestOption(params, n - 1)
  }

  function RoleOf(params: seq<string>, i: nat): Role
    requires i < |params|
  {
    if i > Cut(params) then Argument
    else if i == Cut(params) then Terminator
    else if StartsOption(params[i]) then Name(params[i])
    else
      var j := LatestOption(params, i);
      if j.Some? then Value(params[j.value]) else Argument
  }

  /** The parameters before position n that have this role, in order. */
  function WithRole(params: seq<string>, n: nat, role: Role): seq<string>
    requires n <= |params|
  {
    if n == 0 then []
    else WithRole(params, n - 1, role) + if RoleOf(params, n - 1) == role then [params[n - 1]] else []
  }

  /** Some parameter before position n opens this option. */
  predicate Named(params: seq<string>, n: nat, name: string)
    requires n <= |params|
  {
    n > 0 && (Named(params, n - 1, name) || RoleOf(params, n - 1) == Name(name))
  }

  lemma {:induction false} NamedBySome(params: seq<string>, n: nat, name: string)
    requires n <= |params|
    ensures Named(params, n, name) <==> exists i :: 0 <= i < n && RoleOf(params, i) == Name(name)
  {
    if n > 0 {
      NamedBySome(params, n - 1, name);
    }
  }

  /** What is stored for one option agrees with the roles of the parameters before position n. */
  predicate StoredByRole(params: seq<string>, n: nat, options: Options, name: string)
    requires n <= |params|
  {
    && (name in options) == Named(params, n, name)
    && (name in options ==> options[name] == WithRole(params, n, Value(name)))
  }

  ghost predicate CurrentIs(params: seq<string>, n: nat, p: Progress)
    requires n <= |params|
  {
    && p.onlyArguments == (Cut(params) < n)
    && (!p.onlyArguments ==>
          var j := LatestOption(params, n);
          p.curOption == if j.Some? then Some(params[j.value]) else None)
  }

  lemma {:induction false} NoValuesYet(params: seq<string>, n: nat, name: string)
    requires n <= |params| && !Named(params, n, name)
    ensures WithRole(params, n, Value(name)) == []
  {
    if n > 0 {
      NoValuesYet(params, n - 1, name);
      if RoleOf(params, n - 1) == Value(name) {
        ValueIsNamed(params, n - 1);
        assert false;
      }
    }
  }

  lemma ValueIsNamed(params: seq<string>, n: nat)
    requires n < |params| && RoleOf(params, n).Value?
    ensures Named(params, n, RoleOf(params, n).option)
  {
    NamedBySome(params, n, RoleOf(params, n).option);
    assert RoleOf(params, LatestOption(params, n).value) == Name(RoleOf(params, n).option);
  }

  lemma {:induction false} ParseFollowsRoles(params: seq<string>, n: nat, name: string)
    requires n <= |params|
    ensures var p := Run(START, params[..n]);
      && StoredByRole(params, n, p.options, name) && p.arguments == WithRole(params, n, Argument)
      && CurrentIs(params, n, p)
  {
    if n > 0 {
      ParseFollowsRoles(params, n - 1, name);
      RunOneMore(params, n - 1);
      var p := Run(START, params[..n - 1]);
      StepKeepsCurrent(params, n - 1, p);
      StepFollowsRole(params, n - 1, p, name);
    }
  }

  lemma StepKeepsCurrent(params: seq<string>, n: nat, p: Progress)
    requires n < |params| && CurrentIs(params, n, p)
    ensures CurrentIs(params, n + 1, Step(p, params[n]))
  {
  }

  lemma StepFollowsRole(params: seq<string>, n: nat, p: Progress, name: string)
    requires n < |params| && StoredByRole(params, n, p.options, name) && CurrentIs(params, n, p)
    requires p.arguments == WithRole(params, n, Argument)
    ensures var p' := Step(p, params[n]);
      StoredByRole(params, n + 1, p'.options, name) && p'.arguments == WithRole(params, n + 1, Argument)
  {
    var role := RoleOf(params, n);
    if !Named(params, n, name) {
      NoValuesYet(params, n, name);
    }
    if role.Value? {
      ValueIsNamed(params, n);
    }
  }

  /** Arguments are the parameters of that role in their order. An option is there if some parameter is
      its name, with the parameters that are its values in their order. */
  lemma ParseByRoles(params: seq<string>, name: string)
    ensures var p := Run(START, params); var n := |params|;
      && p.arguments == WithRole(params, n, Argument)
      && (name in p.options <==> exists i :: 0 <= i < n && RoleOf(params, i) == Name(name))
      && (name in p.options ==> p.options[name] == WithRole(params, n, Value(name)))
  {
    assert params[..|params|] == params;
    ParseFollowsRoles(params, |params|, name);
    NamedBySome(params, |params|, name);
  }

  // ----- The roles, without the parser's own terms -----

  /** Options have not been terminated before parameter i. */
  predicate StillOptions(params: seq<string>, i: nat)
    requires i <= |params|
  {
    forall k :: 0 <= k < i ==> params[k] != "--"
  }

  /** At least a dash and something after it, but not the terminator, and before any terminator. */
  predicate Opens(params: seq<string>, i: nat)
    requires i < |params|
  {
    StillOptions(params, i) && |params[i]| >= 2 && params[i][0] == '-' && params[i] != "--"
  }

  /** Parameter j opens an option, and no parameter between j and i does. */
  predicate OpensFor(params: seq<string>, j: nat, i: nat)
    requires j < i < |params|
  {
    Opens(params, j) && forall k :: j < k < i ==> !Opens(params, k)
  }

  lemma CutIsTerminated(params: seq<string>, i: nat)
    requires i <= |params|
    ensures i <= Cut(params) <==> StillOptions(params, i)
  {
  }

  /** The role of every parameter. */
  lemma RoleIs(params: seq<string>, i: nat)
    requires i < |params|
    ensures RoleOf(params, i).Terminator? <==> StillOptions(params, i) && params[i] == "--"
    ensures forall name :: RoleOf(params, i) == Name(name) <==> Opens(params, i) && params[i] == name
    ensures forall name :: RoleOf(params, i) == Value(name) <==>
      && StillOptions(params, i + 1) && !Opens(params, i)
      && exists j: nat :: j < i && OpensFor(params, j, i) && params[j] == name
    ensures RoleOf(params, i).Argument? <==>
      || !StillOptions(params, i)
      || (params[i] != "--" && forall j :: 0 <= j <= i ==> !Opens(params, j))
  {
    CutIsTerminated(params, i);
    CutIsTerminated(params, i + 1);
    var latest := LatestOption(params, i);
    if StillOptions(params, i) && latest.Some? {
      assert OpensFor(params, latest.value, i);
    }
  }

  /** A dash alone never opens an option, and nor does anything after a terminator. */
  lemma LoneDash(params: seq<string>, i: nat)
    requires i < |params| && (params[i] == "-" || !StillOptions(params, i))
    ensures RoleOf(params, i).Value? || RoleOf(params, i).Argument?
  {
    RoleIs(params, i);
  }

  /** The parameters of a role, in the order of their positions, and none left out. */
  lemma {:induction false} RolePositions(params: seq<string>, n: nat, role: Role) returns (at: seq<nat>)
    requires n <= |params|
    ensures |at| == |WithRole(params, n, role)|
    ensures forall k :: 0 <= k < |at| ==>
      at[k] < n && RoleOf(params, at[k]) == role && WithRole(params, n, role)[k] == params[at[k]]
    ensures forall j, k :: 0 <= j < k < |at| ==> at[j] < at[k]
    ensures forall i :: 0 <= i < n && RoleOf(params, i) == role ==> i in at
  {
    if n == 0 {
      at := [];
    } else {
      at := RolePositions(params, n - 1, role);
      if RoleOf(params, n - 1) == role {
        at := at + [n - 1];
        assert at[|at| - 1] == n - 1;
      }
    }
  }

  /** What is stored: the options opened somewhere, and no others. */
  lemma NamesAreOpened(params: seq<string>)
    ensures forall name :: name in Run(START, params).options <==>
      exists i: nat :: i < |params| && Opens(params, i) && params[i] == name
  {
    forall name
      ensures name in Run(START, params).options <==>
        exists i: nat :: i < |params| && Opens(params, i) && params[i] == name
    {
      ParseByRoles(params, name);
      forall i | 0 <= i < |params| ensures RoleOf(params, i) == Name(name) <==> Opens(params, i) && params[i] == name {
        RoleIs(params, i);
      }
    }
  }

  lemma OneOption(name: string, val: string)
    ensures AppendValue(OpenOption(map[], name), name, val) == map[name := [val]]
  {
    assert OpenOption(map[], name)[name] == [] && [] + [val] == [val];
  }

  /** A short option takes a value, and so does a long one a dash; see the parser's own tests. */
  lemma ShortOptions()
    ensures Run(START, ["-a", "3"]).options == map["-a" := ["3"]] && Run(START, ["-a", "3"]).arguments == []
    ensures Run(START, ["x", "--ab", "-", "--", "-c"]).options == map["--ab" := ["-"]]
    ensures Run(START, ["x", "--ab", "-", "--", "-c"]).arguments == ["x", "-c"]
  {
    assert ["-a", "3"][1..] == ["3"] && ["3"][1..] == [];
    OneOption("-a", "3");
    assert ["x", "--ab", "-", "--", "-c"][1..] == ["--ab", "-", "--", "-c"];
    assert ["--ab", "-", "--", "-c"][1..] == ["-", "--", "-c"] && ["-", "--", "-c"][1..] == ["--", "-c"];
    assert ["--", "-c"][1..] == ["-c"] && ["-c"][1..] == [];
    OneOption("--ab", "-");
  }

  // ----- Normal form -----

  /** Names start options, values do not, and there is no empty string. */
  ghost predicate Normal(options: Options, arguments: seq<string>) {
    && (forall name :: name in options ==> StartsOption(name))
    && (forall name, i :: name in options && 0 <= i < |options[name]| ==> PlainValue(options[name][i]))
    && (forall i :: 0 <= i < |arguments| ==> arguments[i] != "")
  }

  predicate PlainValue(val: string) {
    val != "" && val != OPTION_TERMINATOR && !StartsOption(val)
  }

  ghost predicate NormalProgress(p: Progress) {
    Normal(p.options, p.arguments) && (p.curOption.Some? ==> StartsOption(p.curOption.value))
  }

  lemma {:induction false} RunIsNormal(p: Progress, params: seq<string>)
    requires NormalProgress(p) && forall i :: 0 <= i < |params| ==> params[i] != ""
    ensures NormalProgress(Run(p, params))
    decreases |params|
  {
    if params != [] {
      RunIsNormal(Step(p, params[0]), params[1..]);
    }
  }

  /** A list of names that has each option once, in whatever order. */
  ghost predicate Enumerates(names: seq<string>, options: Options) {
    && (forall i :: 0 <= i < |names| ==> names[i] in options)
    && (forall name :: name in options ==> name in names)
    && (forall i, j :: 0 <= i < j < |names| ==> names[i] != names[j])
  }

  function PrintOptions(names: seq<string>, options: Options): seq<string>
    requires forall i :: 0 <= i < |names| ==> names[i] in options
  {
    if names == [] then [] else [names[0]] + options[names[0]] + PrintOptions(names[1..], options)
  }

  function Print(names: seq<string>, options: Options, arguments: seq<string>): seq<string>
    requires forall i :: 0 <= i < |names| ==> names[i] in options
  {
    PrintOptions(names, options) + [OPTION_TERMINATOR] + arguments
  }

  lemma {:induction false} ReparseValues(p: Progress, name: string, vals: seq<string>)
    requires !p.onlyArguments && p.curOption == Some(name) && name in p.options
    requires forall i :: 0 <= i < |vals| ==> PlainValue(vals[i])
    ensures Run(p, vals) == p.(options := p.options[name := p.options[name] + vals])
    decreases |vals|
  {
    if vals == [] {
      assert p.options[name] + vals == p.options[name];
    } else {
      var p' := Step(p, vals[0]);
      ReparseValues(p', name, vals[1..]);
      assert p.options[name] + [vals[0]] + vals[1..] == p.options[name] + vals;
    }
  }

  function Listed(names: seq<string>): set<string> {
    if names == [] then {} else {names[0]} + Listed(names[1..])
  }

  lemma {:induction false} ListedAre(names: seq<string>, name: string)
    ensures name in Listed(names) <==> name in names
  {
    if names != [] {
      ListedAre(names[1..], name);
    }
  }

  /** These options of the whole, and no others. */
  function Only(options: Options, names: set<string>): Options {
    map name | name in options && name in names :: options[name]
  }

  lemma ReparseOption(p: Progress, name: string, options: Options, done: set<string>)
    requires Normal(options, []) && !p.onlyArguments && p.options == Only(options, done)
    requires name in options && name !in done
    ensures var p' := Run(p, [name] + options[name]);
      && !p'.onlyArguments && p'.arguments == p.arguments && p'.options == Only(options, done + {name})
  {
    var vals, started := options[name], Step(p, name);
    ReparseValues(started, name, vals);
    RunConcat(p, [name], vals);
    assert Run(p, [name]) == started;
    assert name !in p.options && [] + vals == vals;
    assert p.options[name := vals] == Only(options, done + {name});
  }

  lemma {:induction false} ReparseOptions(p: Progress, names: seq<string>, options: Options, done: set<string>)
    requires Normal(options, []) && !p.onlyArguments && p.options == Only(options, done)
    requires forall i :: 0 <= i < |names| ==> names[i] in options && names[i] !in done
    requires forall i, j :: 0 <= i < j < |names| ==> names[i] != names[j]
    ensures var p' := Run(p, PrintOptions(names, options));
      && !p'.onlyArguments && p'.arguments == p.arguments
      && p'.options == Only(options, done + Listed(names))
    decreases |names|
  {
    if names == [] {
      assert done + Listed(names) == done;
    } else {
      var name, rest := names[0], PrintOptions(names[1..], options);
      var first := [name] + options[name];
      ReparseOption(p, name, options, done);
      RunConcat(p, first, rest);
      assert PrintOptions(names, options) == first + rest;
      ReparseOptions(Run(p, first), names[1..], options, done + {name});
      assert done + {name} + Listed(names[1..]) == done + Listed(names);
    }
  }

  lemma {:induction false} ReparseArguments(p: Progress, arguments: seq<string>)
    requires p.onlyArguments
    ensures Run(p, arguments) == p.(arguments := p.arguments + arguments)
    decreases |arguments|
  {
    if arguments != [] {
      ReparseArguments(Step(p, arguments[0]), arguments[1..]);
      assert p.arguments + [arguments[0]] + arguments[1..] == p.arguments + arguments;
    } else {
      assert p.arguments + arguments == p.arguments;
    }
  }

  lemma ReparseNormal(names: seq<string>, options: Options, arguments: seq<string>)
    requires Normal(options, arguments) && Enumerates(names, options)
    ensures var p := Run(START, Print(names, options, arguments)); p.options == options && p.arguments == arguments
  {
    var head := PrintOptions(names, options);
    assert Only(options, {}) == map[];
    ReparseOptions(START, names, options, {});
    assert Only(options, {} + Listed(names)) == options by {
      forall name ensures name in Listed(names) <==> name in names {
        ListedAre(names, name);
      }
    }
    var p := Run(START, head);
    RunConcat(START, head, [OPTION_TERMINATOR]);
    assert Run(p, [OPTION_TERMINATOR]) == p.(onlyArguments := true);
    RunConcat(START, head + [OPTION_TERMINATOR], arguments);
    ReparseArguments(p.(onlyArguments := true), arguments);
  }

  /** Print what was parsed, in any order of the options, and parse that: nothing changes. */
  lemma ParsePrintParse(params: seq<string>, names: seq<string>)
    requires forall i :: 0 <= i < |params| ==> params[i] != ""
    requires Enumerates(names, Run(START, params).options)
    ensures var p := Run(START, params);
      var again := Run(START, Print(names, p.options, p.arguments));
      again.options == p.options && again.arguments == p.arguments
  {
    RunIsNormal(START, params);
    ReparseNormal(names, Run(START, params).options, Run(START, params).arguments);
  }

  lemma {:induction false} SomeEnumeration(options: Options, left: set<string>) returns (names: seq<string>)
    requires left <= options.Keys
    ensures Enumerates(names, Only(options, left))
    decreases |left|
  {
    if left == {} {
      names := [];
    } else {
      var name :| name in left;
      names := SomeEnumeration(options, left - {name});
      names := names + [name];
    }
  }

  lemma {:induction false} PrintedNonEmpty(names: seq<string>, options: Options)
    requires Normal(options, []) && forall i :: 0 <= i < |names| ==> names[i] in options
    ensures forall i :: 0 <= i < |PrintOptions(names, options)| ==> PrintOptions(names, options)[i] != ""
  {
    if names != [] {
      PrintedNonEmpty(names[1..], options);
    }
  }

  ghost predicate ParsesTo(params: seq<string>, options: Options, arguments: seq<string>) {
    && (forall i :: 0 <= i < |params| ==> params[i] != "")
    && Run(START, params).options == options && Run(START, params).arguments == arguments
  }

  lemma NormalIsParsed(options: Options, arguments: seq<string>) returns (params: seq<string>)
    requires Normal(options, arguments)
    ensures ParsesTo(params, options, arguments)
  {
    assert Only(options, options.Keys) == options;
    var names := SomeEnumeration(options, options.Keys);
    ReparseNormal(names, options, arguments);
    PrintedNonEmpty(names, options);
    params := Print(names, options, arguments);
  }

  /** The normal pairs are exactly what the parser can come up with. */
  lemma NormalIffParsed(options: Options, arguments: seq<string>)
    ensures Normal(options, arguments) <==> exists params :: ParsesTo(params, options, arguments)
  {
    if Normal(options, arguments) {
      var params := NormalIsParsed(options, arguments);
    }
    if params :| ParsesTo(params, options, arguments) {
      RunIsNormal(START, params);
    }
  }
}
