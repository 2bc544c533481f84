/**
 * The frame builder's flight lists as a state machine of atomic steps. Every step happens under one
 * lock (or, for starting a plan, while nobody else can change the plan), in any order the workers choose.
 */
module Scheduling {

  type ActionID = nat
  type TaskID = nat

  /** A planned action either has a task to clone, or executes immediately when it is reached. */
  datatype TaskRef = NoTask | Task(handle: nat)

  datatype PartialPlan = PartialPlan(actions: map<ActionID, TaskRef>, deps: map<ActionID, set<ActionID>>)

  const EMPTY_PLAN := PartialPlan(map[], map[])

  /** `started`, `retired` and `launched` are the history of the current plan instance; `owed` counts
      ScheduleNextTasks calls that somebody still has to make or finish. */
  datatype State = State(
    plan: PartialPlan, inFlight: map<TaskID, ActionID>, flighted: set<ActionID>, nextTask: TaskID,
    started: set<ActionID>, retired: seq<ActionID>, launched: seq<ActionID>, completions: nat, owed: nat)

  const IDLE := State(EMPTY_PLAN, map[], {}, 0, {}, [], [], 0, 0)

  datatype Event =
    | Start(plan: PartialPlan)   // StartPlan replaces the current plan; it owes a scheduling pass
    | Return(task: TaskID)       // a worker's first half of OnTaskComplete; it owes one too
    | Retire(action: ActionID)   // within a pass: an empty action executes immediately
    | Launch(action: ActionID)   // within a pass: a task is cloned and flighted
    | PassDone                   // the pass ends

  function Deps(p: PartialPlan, action: ActionID): set<ActionID> {
    if action in p.deps then p.deps[action] else {}
  }

  predicate DepsMet(p: PartialPlan, action: ActionID) {
    forall d :: d in Deps(p, action) ==> d !in p.actions
  }

  /** What a pass may pick: still planned, not in flight, waiting for nothing. */
  predicate Ready(s: State, action: ActionID) {
    action in s.plan.actions && action !in s.flighted && DepsMet(s.plan, action)
  }

  /** Nothing is left for a pass to do. */
  predicate Settled(s: State) {
    forall a :: a in s.plan.actions ==> a in s.flighted || !DepsMet(s.plan, a)
  }

  predicate Enabled(s: State, e: Event) {
    match e
    case Start(plan) => s.plan.actions == map[] && plan.actions != map[]
    case Return(task) => task in s.inFlight
    case Retire(action) => Ready(s, action) && s.plan.actions[action].NoTask? && s.owed > 0
    case Launch(action) => Ready(s, action) && s.plan.actions[action].Task? && s.owed > 0
    case PassDone => Settled(s) && s.owed > 0
  }

  function Without(p: PartialPlan, action: ActionID): PartialPlan {
    p.(actions := p.actions - {action})
  }

  function Apply(s: State, e: Event): State
    requires Enabled(s, e)
  {
    match e
    case Start(plan) => s.(
      plan := plan, started := plan.actions.Keys, retired := [], launched := [], completions := 0,
      owed := s.owed + 1)
    case Return(task) =>
      var action := s.inFlight[task];
      s.(plan := Without(s.plan, action), inFlight := s.inFlight - {task}, flighted := s.flighted - {action},
         retired := s.retired + [action], completions := s.completions + 1, owed := s.owed + 1)
    case Retire(action) => s.(plan := Without(s.plan, action), retired := s.retired + [action])
    case Launch(action) =>
      s.(inFlight := s.inFlight[s.nextTask := action], flighted := s.flighted + {action}, nextTask := s.nextTask + 1,
         launched := s.launched + [action])
    case PassDone => s.(owed := s.owed - 1)
  }

  /** A log of steps that can happen, one after the other, from a state. */
  predicate Legal(s: State, log: seq<Event>)
    decreases |log|, 0
  {
    log != [] ==> Legal(s, log[..|log| - 1]) && Enabled(After(s, log[..|log| - 1]), log[|log| - 1])
  }

  function After(s: State, log: seq<Event>): State
    requires Legal(s, log)
    decreases |log|, 1
  {
    if log == [] then s else Apply(After(s, log[..|log| - 1]), log[|log| - 1])
  }

  lemma LogOne(s: State, log: seq<Event>, e: Event)
    requires Legal(s, log) && Enabled(After(s, log), e)
    ensures Legal(s, log + [e]) && After(s, log + [e]) == Apply(After(s, log), e)
  {
    assert (log + [e])[..|log|] == log;
  }

  /** The steps of a pass, in progress or complete, on top of an earlier log. */
  predicate PassFrom(log: seq<Event>, log': seq<Event>) {
    log <= log' && forall i :: |log| <= i < |log'| ==> log'[i].Retire? || log'[i].Launch?
  }

  /** Only starting a plan begins a new plan instance. */
  lemma {:induction false} SameInstance(s: State, log: seq<Event>, log': seq<Event>)
    requires Legal(s, log) && Legal(s, log') && log <= log'
    requires forall i :: |log| <= i < |log'| ==> !log'[i].Start?
    ensures After(s, log').started == After(s, log).started && After(s, log').plan.deps == After(s, log).plan.deps
  {
    if |log| < |log'| {
      SameInstance(s, log, log'[..|log'| - 1]);
    } else {
      assert log == log';
    }
  }

  // ----- What every step keeps -----

  predicate Distinct(s: seq<ActionID>) {
    forall i, j :: 0 <= i < j < |s| ==> s[i] != s[j]
  }

  /** The task table is a bijection onto the flighted actions. */
  ghost predicate FlightsMatch(s: State) {
    && (forall t :: t in s.inFlight ==> t < s.nextTask && s.inFlight[t] in s.flighted)
    && (forall t, t' :: t in s.inFlight && t' in s.inFlight && t != t' ==> s.inFlight[t] != s.inFlight[t'])
    && (forall a :: a in s.flighted ==> exists t :: t in s.inFlight && s.inFlight[t] == a)
  }

  /** Retired and remaining actions partition the plan that was started. */
  ghost predicate Conserved(s: State) {
    && Distinct(s.retired) && s.flighted <= s.plan.actions.Keys <= s.started
    && (forall a :: a in s.started <==> a in s.plan.actions || a in s.retired)
    && (forall a :: a in s.retired ==> a !in s.plan.actions)
  }

  /** Every action retires after all the dependencies it has in the plan, and flies only then. */
  ghost predicate InOrder(s: State) {
    && (forall k, d :: 0 <= k < |s.retired| && d in Deps(s.plan, s.retired[k]) && d in s.started ==>
          d in s.retired[..k])
    && (forall a :: a in s.flighted ==> DepsMet(s.plan, a))
  }

  /** No action is flighted twice within one plan instance. */
  ghost predicate LaunchedOnce(s: State) {
    && Distinct(s.launched)
    && (forall a :: a in s.launched ==> a in s.flighted || a in s.retired)
    && (forall a :: a in s.flighted ==> a in s.launched)
  }

  /** No lost wakeup: unless somebody still owes a pass, nothing that could fly is left on the ground. */
  ghost predicate NoLostWakeup(s: State) {
    s.owed == 0 ==> Settled(s)
  }

  ghost predicate Inv(s: State) {
    FlightsMatch(s) && Conserved(s) && InOrder(s) && LaunchedOnce(s) && NoLostWakeup(s) && s.completions <= |s.retired|
  }

  lemma ReturnKeepsFlights(s: State, task: TaskID)
    requires FlightsMatch(s) && task in s.inFlight
    ensures FlightsMatch(Apply(s, Return(task)))
  {
    var s' := Apply(s, Return(task));
    forall a | a in s'.flighted ensures exists t :: t in s'.inFlight && s'.inFlight[t] == a {
      var t :| t in s.inFlight && s.inFlight[t] == a;
      assert t in s'.inFlight;
    }
  }

  lemma LaunchKeepsFlights(s: State, action: ActionID)
    requires FlightsMatch(s) && Enabled(s, Launch(action))
    ensures FlightsMatch(Apply(s, Launch(action)))
  {
    var s' := Apply(s, Launch(action));
    forall a | a in s'.flighted ensures exists t :: t in s'.inFlight && s'.inFlight[t] == a {
      if a == action {
        assert s'.inFlight[s.nextTask] == a;
      } else {
        var t :| t in s.inFlight && s.inFlight[t] == a;
        assert t in s'.inFlight && s'.inFlight[t] == a;
      }
    }
  }

  /** Taking a ready action out of the plan, whether it returned or was empty. */
  lemma RemovalKeepsOrder(s: State, s': State, action: ActionID)
    requires Conserved(s) && InOrder(s) && action in s.plan.actions && DepsMet(s.plan, action)
    requires s'.plan == Without(s.plan, action) && s'.started == s.started && s'.retired == s.retired + [action]
    requires s'.flighted == s.flighted - {action}
    ensures Conserved(s') && InOrder(s')
  {
    forall k, d | 0 <= k < |s'.retired| && d in Deps(s'.plan, s'.retired[k]) && d in s'.started
      ensures d in s'.retired[..k]
    {
      if k < |s.retired| {
        assert s'.retired[..k] == s.retired[..k];
      } else {
        assert s'.retired[..k] == s.retired;
      }
    }
  }

  lemma StepKeepsInv(s: State, e: Event)
    requires Inv(s) && Enabled(s, e)
    ensures Inv(Apply(s, e))
  {
    var s' := Apply(s, e);
    match e
    case Start(plan) =>
      assert s.flighted == {};
      assert s.inFlight == map[];
    case Return(task) =>
      ReturnKeepsFlights(s, task);
      RemovalKeepsOrder(s, s', s.inFlight[task]);
    case Retire(action) =>
      assert s.flighted - {action} == s.flighted;
      RemovalKeepsOrder(s, s', action);
    case Launch(action) =>
      LaunchKeepsFlights(s, action);
    case PassDone =>
  }

  /** Dependency safety, bookkeeping and wakeups, over every interleaving from an idle builder. */
  lemma {:induction false} EveryRunKeepsInv(log: seq<Event>)
    requires Legal(IDLE, log)
    ensures Inv(After(IDLE, log))
  {
    if log != [] {
      EveryRunKeepsInv(log[..|log| - 1]);
      StepKeepsInv(After(IDLE, log[..|log| - 1]), log[|log| - 1]);
    }
  }

  // ----- The same for the plan as it was started -----

  /** The plan of the last start. */
  function Current(log: seq<Event>): PartialPlan {
    if log == [] then EMPTY_PLAN
    else if log[|log| - 1].Start? then log[|log| - 1].plan
    else Current(log[..|log| - 1])
  }

  /** What is planned, in flight or retired belongs to that plan; what has a task flies, and what has
      none never does. */
  ghost predicate InstanceOf(s: State, p: PartialPlan) {
    && s.plan.deps == p.deps && s.started == p.actions.Keys && s.plan.actions.Keys <= s.started
    && (forall a :: a in s.plan.actions ==> s.plan.actions[a] == p.actions[a])
    && (forall a :: a in s.launched ==> a in p.actions && p.actions[a].Task?)
    && (forall a :: a in s.retired ==> a in p.actions && (p.actions[a].Task? ==> a in s.launched))
  }

  lemma StepKeepsInstance(s: State, e: Event, p: PartialPlan)
    requires Inv(s) && InstanceOf(s, p) && Enabled(s, e)
    ensures InstanceOf(Apply(s, e), if e.Start? then e.plan else p)
  {
    if e.Return? {
      assert s.inFlight[e.task] in s.flighted;
    }
  }

  lemma {:induction false} FollowsPlan(log: seq<Event>)
    requires Legal(IDLE, log)
    ensures InstanceOf(After(IDLE, log), Current(log))
  {
    if log != [] {
      var most := log[..|log| - 1];
      FollowsPlan(most);
      EveryRunKeepsInv(most);
      StepKeepsInstance(After(IDLE, most), log[|log| - 1], Current(most));
    }
  }

  /** An action waits for everything that the plan makes it wait for: whatever has retired did so after
      each of its dependencies in the plan, and whatever flies has none that has not retired. */
  lemma DependenciesFirst(log: seq<Event>)
    requires Legal(IDLE, log)
    ensures var s, p := After(IDLE, log), Current(log);
      && (forall k, d ::
            0 <= k < |s.retired| && s.retired[k] in p.deps && d in p.deps[s.retired[k]] && d in p.actions ==>
              d in s.retired[..k])
      && (forall a, d :: a in s.flighted && a in p.deps && d in p.deps[a] && d in p.actions ==> d in s.retired)
  {
    var s, p := After(IDLE, log), Current(log);
    EveryRunKeepsInv(log);
    FollowsPlan(log);
    forall k, d | 0 <= k < |s.retired| && s.retired[k] in p.deps && d in p.deps[s.retired[k]] && d in p.actions
      ensures d in s.retired[..k]
    {
      assert d in Deps(s.plan, s.retired[k]);
    }
    forall a, d | a in s.flighted && a in p.deps && d in p.deps[a] && d in p.actions ensures d in s.retired {
      assert d in Deps(s.plan, a);
    }
  }

  /** How many tasks have come back since the last start. */
  function Returns(log: seq<Event>): nat {
    if log == [] || log[|log| - 1].Start? then 0
    else Returns(log[..|log| - 1]) + if log[|log| - 1].Return? then 1 else 0
  }

  /** How many passes have become due, and how many were made. */
  function Due(log: seq<Event>): nat {
    if log == [] then 0
    else Due(log[..|log| - 1]) + if log[|log| - 1].Start? || log[|log| - 1].Return? then 1 else 0
  }

  function Done(log: seq<Event>): nat {
    if log == [] then 0
    else Done(log[..|log| - 1]) + if log[|log| - 1].PassDone? then 1 else 0
  }

  lemma {:induction false} CountsAreExact(log: seq<Event>)
    requires Legal(IDLE, log)
    ensures var s := After(IDLE, log); s.completions == Returns(log) && s.owed == Due(log) - Done(log)
  {
    if log != [] {
      CountsAreExact(log[..|log| - 1]);
    }
  }

  /** And for nothing else: with no pass owed, what is still planned flies or waits for something planned. */
  lemma WaitsForSomething(log: seq<Event>, a: ActionID)
    requires Legal(IDLE, log) && After(IDLE, log).owed == 0 && a in After(IDLE, log).plan.actions
    ensures var s, p := After(IDLE, log), Current(log);
      a in s.flighted || (a in p.deps && exists d :: d in p.deps[a] && d in s.plan.actions)
  {
    var s := After(IDLE, log);
    EveryRunKeepsInv(log);
    FollowsPlan(log);
    if a !in s.flighted {
      var d := UnmetDependency(s.plan, a);
    }
  }

  // ----- Progress -----

  /** A dependency cycle: each action on the path depends on the next, and it ends where it began. */
  ghost predicate IsCycle(p: PartialPlan, path: seq<ActionID>) {
    && |path| >= 2 && path[0] == path[|path| - 1]
    && forall i :: 0 <= i < |path| - 1 ==> path[i] in p.deps && path[i + 1] in p.deps[path[i]]
  }

  ghost predicate Acyclic(p: PartialPlan) {
    forall path :: !IsCycle(p, path)
  }

  lemma {:induction false} DistinctFits(path: seq<ActionID>, s: set<ActionID>)
    requires Distinct(path) && forall a :: a in path ==> a in s
    ensures |path| <= |s|
  {
    if path != [] {
      var last := path[|path| - 1];
      DistinctFits(path[..|path| - 1], s - {last});
    }
  }

  lemma UnmetDependency(p: PartialPlan, a: ActionID) returns (d: ActionID)
    requires !DepsMet(p, a)
    ensures d in Deps(p, a) && d in p.actions
  {
    d :| d in Deps(p, a) && d in p.actions;
  }

  /** Each action on the path depends on the next, and all of them are still in the plan. */
  ghost predicate IsPath(p: PartialPlan, path: seq<ActionID>) {
    && (forall a :: a in path ==> a in p.actions)
    && forall i :: 0 <= i < |path| - 1 ==> path[i + 1] in Deps(p, path[i])
  }

  lemma LongerPath(p: PartialPlan, path: seq<ActionID>, d: ActionID)
    requires path != [] && IsPath(p, path) && d in Deps(p, path[|path| - 1]) && d in p.actions
    ensures IsPath(p, path + [d])
  {
    var longer := path + [d];
    forall i | 0 <= i < |longer| - 1 ensures longer[i + 1] in Deps(p, longer[i]) {
      assert longer[i] == path[i];
    }
  }

  lemma StepOn(p: PartialPlan, path: seq<ActionID>) returns (longer: seq<ActionID>)
    requires path != [] && IsPath(p, path) && forall a :: a in p.actions ==> !DepsMet(p, a)
    ensures |longer| == |path| + 1 && IsPath(p, longer)
  {
    var last := path[|path| - 1];
    assert last in path;
    var d := UnmetDependency(p, last);
    LongerPath(p, path, d);
    longer := path + [d];
  }

  /** Follow unmet dependencies: always possible while every remaining action waits on a remaining one. */
  lemma {:induction false} Walk(p: PartialPlan, steps: nat) returns (path: seq<ActionID>)
    requires p.actions != map[] && forall a :: a in p.actions ==> !DepsMet(p, a)
    ensures |path| == steps + 1 && IsPath(p, path)
  {
    if steps == 0 {
      var a :| a in p.actions;
      path := [a];
    } else {
      var before := Walk(p, steps - 1);
      path := StepOn(p, before);
    }
  }

  lemma WaitingPlanHasCycle(p: PartialPlan) returns (cycle: seq<ActionID>)
    requires p.actions != map[] && forall a :: a in p.actions ==> !DepsMet(p, a)
    ensures IsCycle(p, cycle)
  {
    var path := Walk(p, |p.actions.Keys|);
    assert !Distinct(path) by {
      if Distinct(path) {
        DistinctFits(path, p.actions.Keys);
      }
    }
    var i, j :| 0 <= i < j < |path| && path[i] == path[j];
    cycle := path[i..j + 1];
    CycleFromPath(p, path, i, j);
  }

  lemma CycleFromPath(p: PartialPlan, path: seq<ActionID>, i: nat, j: nat)
    requires i < j < |path| && path[i] == path[j]
    requires forall k :: 0 <= k < |path| - 1 ==> path[k + 1] in Deps(p, path[k])
    ensures IsCycle(p, path[i..j + 1])
  {
    var cycle := path[i..j + 1];
    forall k | 0 <= k < |cycle| - 1 ensures cycle[k] in p.deps && cycle[k + 1] in p.deps[cycle[k]] {
      assert cycle[k] == path[i + k] && cycle[k + 1] == path[i + k + 1];
      assert cycle[k + 1] in Deps(p, cycle[k]);
    }
  }

  /** A plan can only get stuck, with no task in flight and no pass owed, on a dependency cycle. */
  lemma StuckMeansCycle(s: State) returns (cycle: seq<ActionID>)
    requires Inv(s) && s.plan.actions != map[] && s.inFlight == map[] && s.owed == 0
    ensures IsCycle(s.plan, cycle)
  {
    cycle := WaitingPlanHasCycle(s.plan);
  }

  /** No deadlock: an unfinished acyclic plan always has a task in flight or a pass still to come, and
      a finished one has neither flights nor unretired actions, each action retired once. */
  lemma NoDeadlock(log: seq<Event>)
    requires Legal(IDLE, log)
    ensures var s := After(IDLE, log);
      && (s.plan.actions != map[] && Acyclic(s.plan) ==> s.inFlight != map[] || s.owed > 0)
      && (s.plan.actions == map[] ==>
            s.inFlight == map[] && (forall a :: a in s.started <==> a in s.retired) && Distinct(s.retired))
  {
    var s := After(IDLE, log);
    EveryRunKeepsInv(log);
    if s.plan.actions != map[] && s.inFlight == map[] && s.owed == 0 {
      var cycle := StuckMeansCycle(s);
    }
  }

  /** A plan instance ends after at most as many task completions as it has actions. */
  lemma CompletionsBounded(log: seq<Event>)
    requires Legal(IDLE, log)
    ensures var s := After(IDLE, log); s.completions + |s.plan.actions.Keys| <= |s.started|
  {
    var s := After(IDLE, log);
    EveryRunKeepsInv(log);
    DistinctFits(s.retired, s.started - s.plan.actions.Keys);
    assert |s.started - s.plan.actions.Keys| == |s.started| - |s.plan.actions.Keys|;
  }

  /** What is still to come in a plan instance: three steps for an action on the ground (a launch, a
      return and the pass that owes), two for a flighted one, and the passes owed already. */
  function StepsLeft(s: State): int {
    3 * |s.plan.actions.Keys| - |s.flighted| + s.owed
  }

  lemma FewerStepsLeft(s: State, e: Event)
    requires Inv(s) && Enabled(s, e) && !e.Start?
    ensures StepsLeft(Apply(s, e)) < StepsLeft(s)
  {
    var s' := Apply(s, e);
    match e
    case Return(task) =>
      var action := s.inFlight[task];
      assert action in s.flighted && action in s.plan.actions;
      assert s'.plan.actions.Keys == s.plan.actions.Keys - {action};
    case Retire(action) => assert s'.plan.actions.Keys == s.plan.actions.Keys - {action};
    case Launch(action) =>
    case PassDone =>
  }

  lemma SomeStepsLeft(s: State)
    requires Inv(s)
    ensures StepsLeft(s) >= 2 * |s.plan.actions.Keys|
  {
    SubsetSize(s.flighted, s.plan.actions.Keys);
  }

  lemma SubsetSize(a: set<ActionID>, b: set<ActionID>)
    requires a <= b
    ensures |a| <= |b|
  {
    if a != {} {
      var x :| x in a;
      SubsetSize(a - {x}, b - {x});
    }
  }

  /** Between two starts there are only so many steps of any kind, however they interleave. */
  lemma {:induction false} InstanceIsBounded(log: seq<Event>, log': seq<Event>)
    requires Legal(IDLE, log) && Legal(IDLE, log') && log <= log' && forall i :: |log| <= i < |log'| ==> !log'[i].Start?
    ensures |log'| - |log| <= StepsLeft(After(IDLE, log)) - StepsLeft(After(IDLE, log'))
    ensures 0 <= StepsLeft(After(IDLE, log'))
    decreases |log'|
  {
    EveryRunKeepsInv(log');
    SomeStepsLeft(After(IDLE, log'));
    if |log| < |log'| {
      var most := log'[..|log'| - 1];
      InstanceIsBounded(log, most);
      EveryRunKeepsInv(most);
      FewerStepsLeft(After(IDLE, most), log'[|log'| - 1]);
    } else {
      assert log == log';
    }
  }

  /** And an instance that can take no further step is complete: everything it started has retired. */
  lemma EndedMeansComplete(log: seq<Event>)
    requires Legal(IDLE, log) && forall e :: Enabled(After(IDLE, log), e) ==> e.Start?
    ensures var s := After(IDLE, log);
      Acyclic(s.plan) ==>
        s.plan.actions == map[] && s.inFlight == map[] && s.owed == 0 && forall a :: a in s.started <==> a in s.retired
  {
    var s := After(IDLE, log);
    NoDeadlock(log);
    if task :| task in s.inFlight {
      assert Enabled(s, Return(task));
    }
    if s.owed > 0 {
      SomethingToDo(s);
    }
  }

  lemma SomethingToDo(s: State)
    requires s.owed > 0
    ensures exists e :: Enabled(s, e) && !e.Start?
  {
    if a :| a in s.plan.actions && a !in s.flighted && DepsMet(s.plan, a) {
      var e := if s.plan.actions[a].NoTask? then Retire(a) else Launch(a);
      assert Enabled(s, e);
    } else {
      assert Enabled(s, PassDone);
    }
  }

  // ----- A pass has one outcome, whatever order it visits the actions in -----

  predicate PassSteps(log: seq<Event>) {
    forall e :: e in log ==> e.Retire? || e.Launch?
  }

  lemma {:induction false} PassFacts(s: State, log: seq<Event>)
    requires Legal(s, log) && PassSteps(log)
    ensures var s' := After(s, log);
      && s'.plan.deps == s.plan.deps && s'.plan.actions.Keys <= s.plan.actions.Keys && s.flighted <= s'.flighted
      && (forall a :: a in s'.plan.actions ==> s'.plan.actions[a] == s.plan.actions[a])
      && (forall a :: a in s'.flighted && a !in s.flighted ==>
            a in s.plan.actions && s.plan.actions[a].Task? && DepsMet(s'.plan, a))
      && (forall a :: a in s.plan.actions && s.plan.actions[a].Task? ==> a in s'.plan.actions)
  {
    if log != [] {
      assert log[|log| - 1] in log;
      assert PassSteps(log[..|log| - 1]);
      PassFacts(s, log[..|log| - 1]);
    }
  }

  lemma {:induction false} RetiredBySettled(s: State, log: seq<Event>, settled: seq<Event>)
    requires Legal(s, log) && PassSteps(log) && Legal(s, settled) && PassSteps(settled) && Settled(After(s, settled))
    ensures After(s, settled).plan.actions.Keys <= After(s, log).plan.actions.Keys
  {
    PassFacts(s, settled);
    if log != [] {
      var most, last := log[..|log| - 1], log[|log| - 1];
      assert last in log;
      assert PassSteps(most);
      RetiredBySettled(s, most, settled);
      PassFacts(s, most);
      if last.Retire? {
        assert DepsMet(After(s, most).plan, last.action);
        assert last.action !in After(s, settled).flighted;
        assert last.action !in After(s, settled).plan.actions;
      }
    }
  }

  /** Confluence: two passes from the same state that both run to completion retire the same empty
      actions and fly the same tasks. */
  lemma PassIsDeterministic(s: State, log: seq<Event>, log': seq<Event>)
    requires Legal(s, log) && PassSteps(log) && Settled(After(s, log))
    requires Legal(s, log') && PassSteps(log') && Settled(After(s, log'))
    ensures After(s, log).plan == After(s, log').plan && After(s, log).flighted == After(s, log').flighted
  {
    RetiredBySettled(s, log, log');
    RetiredBySettled(s, log', log);
    PassFacts(s, log);
    PassFacts(s, log');
    var p, p' := After(s, log).plan, After(s, log').plan;
    assert p.actions.Keys == p'.actions.Keys;
    assert p.actions == p'.actions;
    SameFlights(s, log, log');
    SameFlights(s, log', log);
  }

  lemma SameFlights(s: State, log: seq<Event>, log': seq<Event>)
    requires Legal(s, log) && PassSteps(log) && Legal(s, log') && PassSteps(log') && Settled(After(s, log'))
    requires After(s, log).plan == After(s, log').plan
    ensures After(s, log).flighted <= After(s, log').flighted
  {
    PassFacts(s, log);
    PassFacts(s, log');
    forall a | a in After(s, log).flighted ensures a in After(s, log').flighted {
      if a !in s.flighted {
        assert a in After(s, log).plan.actions;
      }
    }
  }
}
