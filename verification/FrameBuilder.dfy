/** The frame builder: a cached plan, its conditions, and the scheduling pass with its nested loops. */
module FrameBuilder {
  import opened Wrappers
  import opened Scheduling

  type Conditions = map<string, string>

  /** PartialPlanner::Run followed by FetchPlan. Its result may depend on how often it ran before,
      since every run adds actions to its database and never reuses a planned action ID. */
  type Planner = (nat, Conditions, Conditions) -> Option<PartialPlan>

  /** A plan always contains the reserved initial and final actions. */
  ghost predicate NeverEmpty(planner: Planner) {
    forall n, pre, post :: planner(n, pre, post).Some? ==> planner(n, pre, post).value.actions != map[]
  }

  class FrameBuilder {
    const planner: Planner
    var finalized: bool
    var preconditions: Conditions
    var postconditions: Conditions
    var lastValidPlan: PartialPlan
    var plannerRuns: nat
    var currentPlan: PartialPlan
    var tasksInFlight: map<TaskID, ActionID>
    var plannedActionsInFlight: set<ActionID>
    var nextTask: TaskID
    /** Every step taken so far. */
    ghost var log: seq<Event>

    /** The flight lists are what the logged steps lead to. */
    ghost predicate Valid()
      reads this
    {
      && NeverEmpty(planner) && Legal(IDLE, log)
      && var s := After(IDLE, log);
        && s.plan == currentPlan && s.inFlight == tasksInFlight && s.flighted == plannedActionsInFlight
        && s.nextTask == nextTask
    }

    /** A cached plan is what the planner last answered, for the conditions that still hold. */
    ghost predicate Coherent()
      reads this
    {
      lastValidPlan.actions != map[] ==>
        plannerRuns > 0 && planner(plannerRuns - 1, preconditions, postconditions) == Some(lastValidPlan)
    }

    ghost function Flights(): State
      requires Valid()
      reads this
    {
      After(IDLE, log)
    }

    constructor (planner: Planner)
      requires NeverEmpty(planner)
      ensures Valid() && Coherent() && Flights() == IDLE && !finalized && this.planner == planner
      ensures preconditions == map[] == postconditions && lastValidPlan == EMPTY_PLAN
    {
      this.planner := planner;
      finalized := false;
      preconditions, postconditions := map[], map[];
      lastValidPlan, plannerRuns, currentPlan := EMPTY_PLAN, 0, EMPTY_PLAN;
      tasksInFlight, plannedActionsInFlight, nextTask := map[], {}, 0;
      log := [];
    }

    method FinalizePlan() returns (success: bool)
      modifies this`finalized
      ensures success == !old(finalized) && finalized
    {
      success := !finalized;
      finalized := true;
    }

    /** An empty plan has no task in flight, as the source asserts. */
    method IsPlanComplete() returns (complete: bool)
      requires Valid()
      ensures complete <==> currentPlan.actions == map[]
      ensures complete ==> tasksInFlight == map[] && forall a :: a in Flights().started <==> a in Flights().retired
    {
      complete := currentPlan.actions == map[];
      if complete {
        NoDeadlock(log);
      }
    }

    method TestCanChangeConditions() returns (can: bool)
      requires Valid()
      ensures can <==> finalized && currentPlan.actions == map[]
    {
      if !finalized {
        return false;
      }
      can := IsPlanComplete();
    }

    method OnConditionsChanged()
      modifies this`lastValidPlan
      ensures lastValidPlan.actions == map[]
    {
      if lastValidPlan.actions != map[] {
        lastValidPlan := EMPTY_PLAN;
      }
    }

    /** Setting a condition never replaces an existing value: the insertion keeps the old one. */
    method SetStartingCondition(id: string, value: string) returns (success: bool)
      requires Valid() && Coherent()
      modifies this`preconditions, this`lastValidPlan
      ensures Valid() && Coherent() && (success <==> finalized && currentPlan.actions == map[])
      ensures preconditions ==
        if success && id !in old(preconditions) then old(preconditions)[id := value] else old(preconditions)
      ensures if success then lastValidPlan.actions == map[] else lastValidPlan == old(lastValidPlan)
    {
      success := TestCanChangeConditions();
      if success {
        if id !in preconditions {
          preconditions := preconditions[id := value];
        }
        OnConditionsChanged();
      }
    }

    method RemoveStartingCondition(id: string) returns (success: bool)
      requires Valid() && Coherent()
      modifies this`preconditions, this`lastValidPlan
      ensures Valid() && Coherent() && (success <==> finalized && currentPlan.actions == map[])
      ensures preconditions == if success then old(preconditions) - {id} else old(preconditions)
      ensures if success then lastValidPlan.actions == map[] else lastValidPlan == old(lastValidPlan)
    {
      success := TestCanChangeConditions();
      if success {
        preconditions := preconditions - {id};
        OnConditionsChanged();
      }
    }

    method SetDesiredCondition(id: string, value: string) returns (success: bool)
      requires Valid() && Coherent()
      modifies this`postconditions, this`lastValidPlan
      ensures Valid() && Coherent() && (success <==> finalized && currentPlan.actions == map[])
      ensures postconditions ==
        if success && id !in old(postconditions) then old(postconditions)[id := value] else old(postconditions)
      ensures if success then lastValidPlan.actions == map[] else lastValidPlan == old(lastValidPlan)
    {
      success := TestCanChangeConditions();
      if success {
        if id !in postconditions {
          postconditions := postconditions[id := value];
        }
        OnConditionsChanged();
      }
    }

    method RemoveDesiredCondition(id: string) returns (success: bool)
      requires Valid() && Coherent()
      modifies this`postconditions, this`lastValidPlan
      ensures Valid() && Coherent() && (success <==> finalized && currentPlan.actions == map[])
      ensures postconditions == if success then old(postconditions) - {id} else old(postconditions)
      ensures if success then lastValidPlan.actions == map[] else lastValidPlan == old(lastValidPlan)
    {
      success := TestCanChangeConditions();
      if success {
        postconditions := postconditions - {id};
        OnConditionsChanged();
      }
    }

    /** Everything StartPlan does before its first scheduling pass; the assignment of the current
        plan, which the source makes without the lock, is one atomic step. */
    method BeginPlan() returns (success: bool)
      requires Valid() && Coherent()
      modifies this`lastValidPlan, this`plannerRuns, this`currentPlan, this`log
      ensures Valid() && Coherent()
      ensures success == (old(finalized && currentPlan.actions == map[]) &&
        (old(lastValidPlan.actions) != map[] || planner(old(plannerRuns), preconditions, postconditions).Some?))
      ensures log == if success then old(log) + [Start(lastValidPlan)] else old(log)
      ensures old(lastValidPlan.actions) != map[] ==>
        lastValidPlan == old(lastValidPlan) && plannerRuns == old(plannerRuns)
      ensures success ==>
        plannerRuns > 0 && planner(plannerRuns - 1, preconditions, postconditions) == Some(lastValidPlan)
    {
      if !finalized {
        return false;
      }
      var complete := IsPlanComplete();
      if !complete {
        return false;
      }
      if lastValidPlan.actions == map[] {
        var plan := planner(plannerRuns, preconditions, postconditions);
        plannerRuns := plannerRuns + 1;
        if plan.None? {
          return false;
        }
        lastValidPlan := plan.value;
      }
      currentPlan := lastValidPlan;
      LogOne(IDLE, log, Start(lastValidPlan));
      log := log + [Start(lastValidPlan)];
      success := true;
    }

    method StartPlan() returns (success: bool)
      requires Valid() && Coherent()
      modifies this`lastValidPlan, this`plannerRuns, this`currentPlan, this`tasksInFlight
      modifies this`plannedActionsInFlight, this`nextTask, this`log
      ensures Valid() && Coherent()
      ensures success ==> Settled(Flights()) && Flights().started == lastValidPlan.actions.Keys
      ensures success ==>
        plannerRuns > 0 && planner(plannerRuns - 1, preconditions, postconditions) == Some(lastValidPlan)
      ensures if success then old(log) + [Start(lastValidPlan)] <= log else log == old(log)
    {
      success := BeginPlan();
      if success {
        ghost var begun := log;
        assert begun[..|begun| - 1] == old(log);
        ScheduleNextTasks();
        forall i | |begun| <= i < |log| ensures !log[i].Start? {
          assert i < |log| - 1 ==> log[i] == log[..|log| - 1][i];
        }
        SameInstance(IDLE, begun, log);
      }
    }

    /** The first, locked half of OnTaskComplete. */
    method RemoveTask(taskID: TaskID)
      requires Valid() && taskID in tasksInFlight
      modifies this`currentPlan, this`tasksInFlight, this`plannedActionsInFlight, this`log
      ensures Valid() && log == old(log) + [Return(taskID)]
    {
      EveryRunKeepsInv(log);
      var plannedID := tasksInFlight[taskID];
      tasksInFlight := tasksInFlight - {taskID};
      assert plannedID in currentPlan.actions;
      currentPlan := Without(currentPlan, plannedID);
      assert plannedID in plannedActionsInFlight;
      plannedActionsInFlight := plannedActionsInFlight - {plannedID};
      LogOne(IDLE, log, Return(taskID));
      log := log + [Return(taskID)];
    }

    /** Without interference between its two halves; every interleaving is covered by the step logs. */
    method OnTaskComplete(taskID: TaskID)
      requires Valid() && taskID in tasksInFlight
      modifies this`currentPlan, this`tasksInFlight, this`plannedActionsInFlight, this`nextTask, this`log
      ensures Valid() && Settled(Flights()) && old(log) + [Return(taskID)] <= log
    {
      RemoveTask(taskID);
      ScheduleNextTasks();
    }

    /** Are all dependencies of an action out of the plan? */
    method DependenciesMet(action: ActionID) returns (met: bool)
      ensures met == DepsMet(currentPlan, action)
      ensures met <==>
        (action in currentPlan.deps ==> forall d :: d in currentPlan.deps[action] ==> d !in currentPlan.actions)
    {
      met := true;
      if action in currentPlan.deps {
        var rest := currentPlan.deps[action];
        while rest != {}
          invariant rest <= currentPlan.deps[action]
          invariant forall d :: d in currentPlan.deps[action] - rest ==> d !in currentPlan.actions
          decreases rest
        {
          var dep :| dep in rest;
          if dep in currentPlan.actions {
            return false;
          }
          rest := rest - {dep};
        }
      }
    }

    /** One pass under the lock: fly everything that is ready, executing empty actions on the way and
        starting over whenever that may have freed others. Which action comes first is up to the map. */
    method ScheduleNextTasks()
      requires Valid() && Flights().owed > 0
      modifies this`currentPlan, this`tasksInFlight, this`plannedActionsInFlight, this`nextTask, this`log
      ensures Valid() && Settled(Flights()) && Flights().owed == old(Flights()).owed - 1
      ensures |log| > |old(log)| && PassFrom(old(log), log[..|log| - 1]) && log[|log| - 1] == PassDone
    {
      var hasExecutedEmptyTasks := true;
      while hasExecutedEmptyTasks
        invariant Valid() && Flights().owed == old(Flights()).owed && PassFrom(old(log), log)
        invariant !hasExecutedEmptyTasks ==> Settled(Flights())
        decreases |currentPlan.actions|, hasExecutedEmptyTasks
      {
        hasExecutedEmptyTasks := Sweep();
      }
      LogOne(IDLE, log, PassDone);
      assert (log + [PassDone])[..|log|] == log;
      log := log + [PassDone];
    }

    /** Look at every planned action once; true if an empty one was executed. */
    method Sweep() returns (hasExecutedEmptyTasks: bool)
      requires Valid() && Flights().owed > 0
      modifies this`currentPlan, this`tasksInFlight, this`plannedActionsInFlight, this`nextTask, this`log
      ensures Valid() && Flights().owed == old(Flights()).owed && PassFrom(old(log), log)
      ensures
        if hasExecutedEmptyTasks then |currentPlan.actions| < |old(currentPlan.actions)|
        else currentPlan == old(currentPlan)
      ensures !hasExecutedEmptyTasks ==> Settled(Flights())
    {
      hasExecutedEmptyTasks := false;
      var pending := currentPlan.actions.Keys;
      while pending != {}
        invariant Valid() && Flights().owed == old(Flights()).owed && PassFrom(old(log), log)
        invariant pending <= currentPlan.actions.Keys
        invariant
          if hasExecutedEmptyTasks then |currentPlan.actions| < |old(currentPlan.actions)|
          else currentPlan == old(currentPlan)
        invariant !hasExecutedEmptyTasks ==>
          forall a :: a in currentPlan.actions && a !in pending ==>
            a in plannedActionsInFlight || !DepsMet(currentPlan, a)
        decreases pending
      {
        var action :| action in pending;
        pending := pending - {action};
        var executed := Visit(action);
        hasExecutedEmptyTasks := hasExecutedEmptyTasks || executed;
      }
    }

    /** One iteration over the plan: skip, execute or fly the action. */
    method Visit(action: ActionID) returns (executed: bool)
      requires Valid() && Flights().owed > 0 && action in currentPlan.actions
      modifies this`currentPlan, this`tasksInFlight, this`plannedActionsInFlight, this`nextTask, this`log
      ensures Valid() && Flights().owed == old(Flights()).owed && PassFrom(old(log), log)
      ensures executed <==> old(Ready(Flights(), action)) && old(currentPlan.actions[action]).NoTask?
      ensures currentPlan == if executed then Without(old(currentPlan), action) else old(currentPlan)
      ensures plannedActionsInFlight ==
        old(plannedActionsInFlight) + if old(Ready(Flights(), action)) && !executed then {action} else {}
    {
      executed := false;
      if action in plannedActionsInFlight {
        return;
      }
      var met := DependenciesMet(action);
      if !met {
        return;
      }
      if currentPlan.actions[action].NoTask? {
        executed := true;
        LogOne(IDLE, log, Retire(action));
        log := log + [Retire(action)];
        currentPlan := Without(currentPlan, action);
        return;
      }
      LogOne(IDLE, log, Launch(action));
      log := log + [Launch(action)];
      tasksInFlight := tasksInFlight[nextTask := action];
      plannedActionsInFlight := plannedActionsInFlight + {action};
      nextTask := nextTask + 1;
    }
  }
}
