/** The engine in the heap: every method takes the abstract state where the specification says. */
module Engines {
  import opened Common
  import opened Payloads
  import opened Dispatch
  import opened Observations
  import opened Evaluation
  import opened EngineSpec
  import T = Trigger
  import SW = StateWindows
  import EW = EventWindows
  import WM = WindowManagers

  class Engine {
    const lang: Language
    var rules: map<string, ActiveRule>
    const depIndex: DepIndex
    const stateWindows: WM.StateWindowMap
    const eventWindows: WM.EventWindowMap
    const observations: Store
    const triggers: T.TriggerManager
    /** The executions of actions, in order; the program hands each one to a background task. */
    ghost var log: seq<Firing>

    ghost function Repr(): set<object>
      reads this, stateWindows, eventWindows, triggers
    {
      {this, depIndex, observations} + stateWindows.Repr + eventWindows.Repr + triggers.Repr
    }

    ghost predicate Valid()
      reads this, stateWindows, eventWindows, triggers, Repr()
    {
      && Separate()
      && stateWindows.Valid() && eventWindows.Valid() && triggers.Valid()
      && observations.defaultTTL == TTL
      && forall id :: id in rules ==> rules[id].rule.id == id
    }

    /** The parts share no object. */
    ghost predicate Separate()
      reads this, stateWindows, eventWindows, triggers
    {
      && {this, depIndex, observations} !! stateWindows.Repr !! eventWindows.Repr !! triggers.Repr
    }

    /** The parts keep their objects and gain newly allocated ones only. */
    twostate predicate Grows()
      reads this, stateWindows, eventWindows, triggers
    {
      && old(stateWindows.Repr) <= stateWindows.Repr && fresh(stateWindows.Repr - old(stateWindows.Repr))
      && old(eventWindows.Repr) <= eventWindows.Repr && fresh(eventWindows.Repr - old(eventWindows.Repr))
      && old(triggers.Repr) <= triggers.Repr && fresh(triggers.Repr - old(triggers.Repr))
    }

    ghost function Abs(): State
      reads this, depIndex, stateWindows, eventWindows, observations, triggers
    {
      State(rules, depIndex.index, stateWindows.View, eventWindows.View, triggers.View,
            observations.observations, log)
    }

    constructor (lang: Language)
      ensures Valid() && fresh(Repr()) && this.lang == lang && Abs() == EMPTY
    {
      this.lang := lang;
      rules := map[];
      depIndex := new DepIndex();
      stateWindows := new WM.StateWindowMap();
      eventWindows := new WM.EventWindowMap();
      observations := new Store(TTL);
      triggers := new T.TriggerManager();
      log := [];
    }

    // -------------------------------------------------------------------------------------------
    // Rule lifecycle
    // -------------------------------------------------------------------------------------------

    /** `ok` is false when the expression does not compile; a disabled rule is silently accepted. */
    method RegisterRule(rule: Rule) returns (ok: bool)
      requires Valid()
      modifies this`rules, depIndex
      ensures Valid()
      ensures ok == (!rule.enabled || lang.compile(rule.expression).Some?)
      ensures Abs() == Register(lang, old(Abs()), rule)
    {
      if !rule.enabled {
        return true;
      }
      var converted := rule.Converted();
      var program := lang.compile(converted.expression);
      if program.None? {
        return false;
      }
      rules := rules[rule.id := ActiveRule(converted, program.value)];
      depIndex.Register(rule.id, converted.dependencies);
      return true;
    }

    method DropRule(ruleId: string)
      requires Valid()
      modifies this`rules, depIndex
      ensures Valid() && Repr() == old(Repr())
      ensures Abs() == old(Abs()).(rules := old(rules) - {ruleId}, index := Unregistered(old(depIndex.index), ruleId))
    {
      rules := rules - {ruleId};
      depIndex.Unregister(ruleId);
    }

    method RemoveWindows(ruleId: string)
      requires Valid()
      modifies stateWindows, eventWindows
      ensures Valid() && Repr() == old(Repr())
      ensures Abs() == old(Abs()).(stateWindows := old(stateWindows.View) - {ruleId},
                                   eventWindows := old(eventWindows.View) - {ruleId})
    {
      stateWindows.Remove(ruleId);
      eventWindows.Remove(ruleId);
    }

    method UnregisterRule(ruleId: string)
      requires Valid()
      modifies this`rules, depIndex, stateWindows, eventWindows, triggers
      ensures Valid() && Repr() == old(Repr())
      ensures Abs() == Unregister(old(Abs()), ruleId)
    {
      DropRule(ruleId);
      RemoveWindows(ruleId);
      triggers.Remove(ruleId);
    }

    method UpdateRule(rule: Rule) returns (ok: bool)
      requires Valid()
      modifies this`rules, depIndex, stateWindows, eventWindows, triggers
      ensures Valid() && Repr() == old(Repr())
      ensures ok == (!rule.enabled || lang.compile(rule.expression).Some?)
      ensures Abs() == Update(lang, old(Abs()), rule)
    {
      UnregisterRule(rule.id);
      ok := RegisterRule(rule);
    }

    method Cleanup(now: int)
      requires Valid()
      modifies observations
      ensures Valid()
      ensures Abs() == old(Abs()).(cache := Cleaned(old(Abs()).cache, now))
    {
      observations.Cleanup(now);
    }

    // -------------------------------------------------------------------------------------------
    // One rule
    // -------------------------------------------------------------------------------------------

    /** The window aggregates of a rule, added to its environment. */
    method BindWindow(active: ActiveRule, env: Env) returns (full: Env)
      requires Valid()
      modifies stateWindows, eventWindows
      ensures Valid() && Grows()
      ensures var id := active.rule.id;
              var (l, e) := WindowBound(LocalOf(old(Abs()), id), active, env);
              && stateWindows.View == Put(old(stateWindows.View), id, l.stateWindow)
              && eventWindows.View == Put(old(eventWindows.View), id, l.eventWindow)
              && full == e
    {
      full := env;
      PutBack(stateWindows.View, active.rule.id);
      PutBack(eventWindows.View, active.rule.id);
      if active.rule.window.None? {
        return;
      }
      if active.rule.source == SOURCE_EVENT {
        var counts := BindEvents(active.rule.id, active.rule.window.value);
        full := env["window" := counts];
      } else {
        var counts := BindStates(active.rule.id, active.rule.window.value);
        if "default" in env && env["default"] != Nil {
          full := env["window" := counts];
        }
      }
    }

    method BindEvents(ruleId: string, durationSeconds: int) returns (counts: Value)
      requires Valid()
      modifies eventWindows
      ensures Valid() && Grows()
      ensures var w := Lookup(old(eventWindows.View), ruleId).GetOr(EW.Created(durationSeconds));
              eventWindows.View == old(eventWindows.View)[ruleId := w] && counts == EventCounts(w)
    {
      var w := eventWindows.GetOrCreate(ruleId, durationSeconds);
      counts := CountEvents(w);
    }

    method CountEvents(w: EW.EventWindow) returns (counts: Value)
      ensures counts == EventCounts(w.Value())
    {
      var count := w.CountAll();
      var entrances := w.CountKind("line_crossed");
      var exits := w.CountKind("exit");
      counts := Table(map["count" := Number(count), "entranceCount" := Number(entrances),
                          "exitCount" := Number(exits)]);
    }

    method BindStates(ruleId: string, durationSeconds: int) returns (counts: Value)
      requires Valid()
      modifies stateWindows
      ensures Valid() && Grows()
      ensures var w := Lookup(old(stateWindows.View), ruleId).GetOr(SW.Created(durationSeconds));
              stateWindows.View == old(stateWindows.View)[ruleId := w] && counts == TrackCounts(w)
    {
      var w := stateWindows.GetOrCreate(ruleId, durationSeconds);
      var persons := w.UniqueTrackIds("person");
      var vehicles := w.UniqueTrackIds("vehicle");
      counts := Table(map["uniquePersons" := Number(|persons|), "uniqueVehicles" := Number(|vehicles|)]);
    }

    /** The verdict of a rule's expression: anything but true on all-fresh dependencies is false. */
    method CheckCondition(active: ActiveRule, now: int) returns (holds: bool)
      requires Valid()
      modifies stateWindows, eventWindows
      ensures Valid() && Grows()
      ensures var id := active.rule.id;
              var (env, allFresh) := Context(active.rule.dependencies, observations.observations, now);
              var (l, full) := WindowBound(LocalOf(old(Abs()), id), active, env);
              && stateWindows.View == Put(old(stateWindows.View), id, l.stateWindow)
              && eventWindows.View == Put(old(eventWindows.View), id, l.eventWindow)
              && holds == (allFresh && lang.run(active.program, full) == True)
    {
      var env, allFresh := BuildRuleContext(active.rule.dependencies, observations, now);
      env := BindWindow(active, env);
      holds := allFresh && lang.run(active.program, env) == True;
    }

    method EvaluateRule(active: ActiveRule, emittedAt: int, cameraId: string, roiId: string, now: int)
      requires Valid()
      modifies this`log, stateWindows, eventWindows, triggers.Repr
      ensures Valid() && Grows()
      ensures var s := old(Abs());
              Abs() == Evaluate(lang, s, LocalOf(s, active.rule.id), active, emittedAt, cameraId, roiId, now)
    {
      ghost var s := Abs();
      var conditionResult := CheckCondition(active, now);
      var fired := Trip(active, conditionResult, emittedAt, cameraId, roiId);
      EvaluateInSteps(lang, s, active, emittedAt, cameraId, roiId, now, Abs());
    }

    method EvaluateFed(active: ActiveRule, emittedAt: int, cameraId: string, roiId: string, now: int,
                       ghost s: State, ghost fed: Local)
      requires Valid() && Abs() == Fed(s, active.rule.id, fed) && fed.timers == Lookup(s.timers, active.rule.id)
      modifies this`log, stateWindows, eventWindows, triggers.Repr
      ensures Valid() && Grows()
      ensures Abs() == Evaluate(lang, s, fed, active, emittedAt, cameraId, roiId, now)
    {
      FedThenEvaluated(lang, s, fed, active, emittedAt, cameraId, roiId, now);
      EvaluateRule(active, emittedAt, cameraId, roiId, now);
    }

    /** Steps the rule's trigger and executes its action if it fires. */
    method Trip(active: ActiveRule, conditionResult: bool, emittedAt: int, cameraId: string, roiId: string)
      returns (fired: bool)
      requires Valid()
      modifies this`log, triggers.Repr
      ensures Valid() && Grows()
      ensures var r := T.Step(Lookup(old(triggers.View), active.rule.id).GetOr(T.INITIAL),
                              T.Evaluation(conditionResult, emittedAt, active.rule.TriggerConfig()));
              && triggers.View == old(triggers.View)[active.rule.id := r.0] && fired == r.1
              && log == if fired then old(log) + [FiringOf(active, emittedAt, cameraId, roiId)] else old(log)
    {
      fired := triggers.ShouldTrigger(active.rule.id, conditionResult, emittedAt, active.rule.TriggerConfig());
      if fired {
        log := log + [FiringOf(active, emittedAt, cameraId, roiId)];
      }
    }

    method FeedStateWindow(active: ActiveRule, entry: SW.StateEntry)
      requires Valid()
      modifies stateWindows.Repr
      ensures Valid() && Grows()
      ensures var s := old(Abs());
              Abs() == Fed(s, active.rule.id, FedState(LocalOf(s, active.rule.id), active, entry))
    {
      PutBack(stateWindows.View, active.rule.id);
      PutBack(eventWindows.View, active.rule.id);
      if active.rule.window.Some? {
        stateWindows.Add(active.rule.id, active.rule.window.value, entry);
      }
    }

    method FeedEventWindow(active: ActiveRule, entry: EW.EventEntry)
      requires Valid()
      modifies eventWindows.Repr
      ensures Valid() && Grows()
      ensures var s := old(Abs());
              Abs() == Fed(s, active.rule.id, FedEvent(LocalOf(s, active.rule.id), active, entry))
    {
      PutBack(stateWindows.View, active.rule.id);
      PutBack(eventWindows.View, active.rule.id);
      if active.rule.window.Some? {
        var _ := eventWindows.Add(active.rule.id, active.rule.window.value, entry);
      }
    }

    method HandleState(active: ActiveRule, cameraId: string, region: Region, emittedAt: int, now: int)
      requires Valid()
      modifies this`log, stateWindows.Repr, eventWindows, triggers.Repr
      ensures Valid() && Grows()
      ensures Abs() == OnState(lang, old(Abs()), active, cameraId, region, emittedAt, now)
    {
      ghost var s := Abs();
      FeedStateWindow(active, SnapshotOf(cameraId, region, emittedAt));
      ghost var fed := FedState(LocalOf(s, active.rule.id), active, SnapshotOf(cameraId, region, emittedAt));
      EvaluateFed(active, emittedAt, cameraId, region.roiId, now, s, fed);
    }

    method HandleEvent(active: ActiveRule, event: EventPayload, now: int)
      requires Valid()
      modifies this`log, stateWindows, eventWindows.Repr, triggers.Repr
      ensures Valid() && Grows()
      ensures Abs() == OnEvent(lang, old(Abs()), active, event, now)
    {
      ghost var s := Abs();
      FeedEventWindow(active, EntryOf(event));
      ghost var fed := FedEvent(LocalOf(s, active.rule.id), active, EntryOf(event));
      EvaluateFed(active, event.emittedAt, event.camera, event.roiId, now, s, fed);
    }

    // -------------------------------------------------------------------------------------------
    // Messages
    // -------------------------------------------------------------------------------------------

    /** Lists the targets in an arbitrary order. */
    method ListRules(targets: set<string>) returns (order: seq<string>)
      ensures IsOrderOf(order, targets)
    {
      order := [];
      var todo := targets;
      while todo != {}
        invariant todo <= targets && IsOrderOf(order, targets - todo)
        decreases todo
      {
        var id :| id in todo;
        OrderExtends(order, targets, todo, id);
        todo := todo - {id};
        order := order + [id];
      }
    }

    /** Visits the listed rules one after the other. */
    method HandleStateRules(order: seq<string>, cameraId: string, region: Region, emittedAt: int, now: int)
      requires Valid() && forall id :: id in order ==> id in rules
      modifies this`log, stateWindows.Repr, eventWindows.Repr, triggers.Repr
      ensures Valid() && Grows()
      ensures Abs() == DispatchState(lang, old(Abs()), order, |order|, cameraId, region, emittedAt, now)
    {
      ghost var s := Abs();
      ghost var chain := [s];
      for n := 0 to |order|
        invariant Valid() && Grows() && rules == s.rules
        invariant IsStateChain(lang, s, order, n, cameraId, region, emittedAt, now, chain) && chain[n] == Abs()
      {
        chain := VisitState(order[n], cameraId, region, emittedAt, now, s, order, n, chain);
      }
      StateChainIsDispatch(lang, s, order, |order|, cameraId, region, emittedAt, now, chain);
    }

    method VisitState(id: string, cameraId: string, region: Region, emittedAt: int, now: int, ghost s: State,
                      ghost order: seq<string>, ghost n: nat, ghost chain: seq<State>)
      returns (ghost longer: seq<State>)
      requires Valid() && n < |order| && id == order[n] && id in rules && rules == s.rules
      requires IsStateChain(lang, s, order, n, cameraId, region, emittedAt, now, chain) && chain[n] == Abs()
      modifies this`log, stateWindows.Repr, eventWindows.Repr, triggers.Repr
      ensures Valid() && Grows() && rules == s.rules
      ensures IsStateChain(lang, s, order, n + 1, cameraId, region, emittedAt, now, longer) && longer[n + 1] == Abs()
    {
      HandleState(rules[id], cameraId, region, emittedAt, now);
      StateChainExtends(lang, s, order, n, cameraId, region, emittedAt, now, chain, Abs());
      longer := chain + [Abs()];
    }

    method HandleEventRules(order: seq<string>, event: EventPayload, now: int)
      requires Valid() && forall id :: id in order ==> id in rules
      modifies this`log, stateWindows.Repr, eventWindows.Repr, triggers.Repr
      ensures Valid() && Grows()
      ensures Abs() == DispatchEvent(lang, old(Abs()), order, |order|, event, now)
    {
      ghost var s := Abs();
      ghost var chain := [s];
      for n := 0 to |order|
        invariant Valid() && Grows() && rules == s.rules
        invariant IsEventChain(lang, s, order, n, event, now, chain) && chain[n] == Abs()
      {
        chain := VisitEvent(order[n], event, now, s, order, n, chain);
      }
      EventChainIsDispatch(lang, s, order, |order|, event, now, chain);
    }

    method VisitEvent(id: string, event: EventPayload, now: int, ghost s: State, ghost order: seq<string>, ghost n: nat,
                      ghost chain: seq<State>) returns (ghost longer: seq<State>)
      requires Valid() && n < |order| && id == order[n] && id in rules && rules == s.rules
      requires IsEventChain(lang, s, order, n, event, now, chain) && chain[n] == Abs()
      modifies this`log, stateWindows.Repr, eventWindows.Repr, triggers.Repr
      ensures Valid() && Grows() && rules == s.rules
      ensures IsEventChain(lang, s, order, n + 1, event, now, longer) && longer[n + 1] == Abs()
    {
      HandleEvent(rules[id], event, now);
      EventChainExtends(lang, s, order, n, event, now, chain, Abs());
      longer := chain + [Abs()];
    }

    /** The active rules at the region or at the camera's wildcard, in an arbitrary order. */
    method StateRules(cameraId: string, roiId: string) returns (listed: seq<string>)
      requires Valid()
      ensures IsOrderOf(listed, StateTargets(Abs(), cameraId, roiId))
    {
      var ruleIds := depIndex.LookupState(cameraId, roiId);
      var wildcardIds := depIndex.LookupState(cameraId, "");
      var targets := set id | id in ruleIds + wildcardIds && id in rules;
      assert targets == StateTargets(Abs(), cameraId, roiId);
      listed := ListRules(targets);
    }

    /** One region of a payload: look the rules up, store the observation, visit the rules. */
    method ProcessRegion(cameraId: string, region: Region, emittedAt: int, now: int)
      returns (ghost order: seq<string>)
      requires Valid()
      modifies this`log, stateWindows.Repr, eventWindows.Repr, triggers.Repr, observations
      ensures Valid() && Grows()
      ensures IsOrderOf(order, StateTargets(old(Abs()), cameraId, region.roiId))
      ensures Abs() == DispatchState(lang, Observe(old(Abs()), cameraId, region, emittedAt, now), order, |order|,
                                     cameraId, region, emittedAt, now)
    {
      var listed := StateRules(cameraId, region.roiId);
      observations.Update(cameraId, region, emittedAt, now);
      HandleStateRules(listed, cameraId, region, emittedAt, now);
      order := listed;
    }

    method ProcessEvent(event: EventPayload, now: int) returns (ghost order: seq<string>)
      requires Valid()
      modifies this`log, stateWindows.Repr, eventWindows.Repr, triggers.Repr
      ensures Valid() && Grows()
      ensures IsOrderOf(order, EventTargets(old(Abs()), event.camera, event.kind))
      ensures Abs() == DispatchEvent(lang, old(Abs()), order, |order|, event, now)
    {
      var ruleIds := depIndex.LookupEvent(event.camera, event.kind);
      var targets := set id | id in ruleIds && id in rules;
      assert targets == EventTargets(Abs(), event.camera, event.kind);
      var listed := ListRules(targets);
      HandleEventRules(listed, event, now);
      order := listed;
    }

    /** All regions of a payload, in order. The reported orders of visits are a witness that the step
        is one the specification allows. */
    method ProcessState(state: StatePayload, now: int) returns (ghost orders: seq<seq<string>>)
      requires Valid()
      modifies this`log, stateWindows.Repr, eventWindows.Repr, triggers.Repr, observations
      ensures Valid() && Grows()
      ensures AreOrdersOf(orders, old(Abs()), state)
      ensures Abs() == EngineSpec.ProcessState(lang, old(Abs()), state, orders, |orders|, now)
    {
      ghost var s := Abs();
      ghost var chain := [s];
      orders := [];
      for i := 0 to |state.regions|
        invariant Valid() && Grows()
        invariant IsRegionChain(lang, s, state, orders, i, now, chain) && chain[i] == Abs()
      {
        ghost var order := ProcessRegion(state.camera, state.regions[i], state.emittedAt, now);
        RegionChainExtends(lang, s, state, orders, i, now, chain, order, Abs());
        orders, chain := orders + [order], chain + [Abs()];
      }
      RegionChainHasOrders(lang, s, state, orders, now, chain);
      RegionChainIsProcessState(lang, s, state, orders, |orders|, now, chain);
    }
  }

  /** Writing back what is there changes nothing. */
  lemma PutBack<V>(m: map<string, V>, id: string)
    ensures Put(m, id, Lookup(m, id)) == m
  {
  }

  /** An evaluation is binding the window, then stepping the trigger, then logging. */
  lemma EvaluateInSteps(lang: Language, s: State, active: ActiveRule, at: int, cameraId: string,
                        roiId: string, now: int, t: State)
    requires var id := active.rule.id;
             var (env, allFresh) := Context(active.rule.dependencies, s.cache, now);
             var (l, full) := WindowBound(LocalOf(s, id), active, env);
             var holds := allFresh && lang.run(active.program, full) == True;
             var (timers, fired) := T.Step(Lookup(s.timers, id).GetOr(T.INITIAL),
                                           T.Evaluation(holds, at, active.rule.TriggerConfig()));
             t == s.(stateWindows := Put(s.stateWindows, id, l.stateWindow),
                     eventWindows := Put(s.eventWindows, id, l.eventWindow),
                     timers := s.timers[id := timers],
                     log := if fired then s.log + [FiringOf(active, at, cameraId, roiId)] else s.log)
    ensures t == Evaluate(lang, s, LocalOf(s, active.rule.id), active, at, cameraId, roiId, now)
  {
  }

  /** Feeding the window first and evaluating what is then there is evaluating the fed rule. */
  lemma FedThenEvaluated(lang: Language, s: State, fed: Local, active: ActiveRule, at: int, cameraId: string,
                         roiId: string, now: int)
    requires fed.timers == Lookup(s.timers, active.rule.id)
    ensures var m := Fed(s, active.rule.id, fed);
            Evaluate(lang, m, LocalOf(m, active.rule.id), active, at, cameraId, roiId, now) ==
            Evaluate(lang, s, fed, active, at, cameraId, roiId, now)
  {
    FedLocal(s, active.rule.id, fed);
    WithLocalFed(s, active.rule.id, fed, Evaluated(lang, s.cache, fed, active, at, now).0);
  }

  lemma FedLocal(s: State, id: string, fed: Local)
    requires fed.timers == Lookup(s.timers, id)
    ensures LocalOf(Fed(s, id, fed), id) == fed
  {
  }

  lemma WithLocalFed(s: State, id: string, fed: Local, l: Local)
    ensures WithLocal(Fed(s, id, fed), id, l) == WithLocal(s, id, l)
  {
    PutPut(s.stateWindows, id, fed.stateWindow, l.stateWindow);
    PutPut(s.eventWindows, id, fed.eventWindow, l.eventWindow);
  }

  lemma PutPut<V>(m: map<string, V>, id: string, v: Option<V>, w: Option<V>)
    ensures Put(Put(m, id, v), id, w) == Put(m, id, w)
  {
  }

  /** The engine after a rule's windows were fed. */
  ghost function Fed(s: State, id: string, fed: Local): State {
    s.(stateWindows := Put(s.stateWindows, id, fed.stateWindow),
       eventWindows := Put(s.eventWindows, id, fed.eventWindow))
  }

  // The states between the visits of a dispatch.

  ghost predicate IsStateVisit(lang: Language, m: State, s: State, id: string, cameraId: string, region: Region,
                               at: int, now: int, t: State)
  {
    id in s.rules && t == OnState(lang, m, s.rules[id], cameraId, region, at, now)
  }

  ghost predicate IsStateChain(lang: Language, s: State, order: seq<string>, n: nat, cameraId: string, region: Region,
                               at: int, now: int, chain: seq<State>)
  {
    && n <= |order| && |chain| == n + 1 && chain[0] == s
    && forall i :: 0 <= i < n ==> IsStateVisit(lang, chain[i], s, order[i], cameraId, region, at, now, chain[i + 1])
  }

  lemma StateChainExtends(lang: Language, s: State, order: seq<string>, n: nat, cameraId: string, region: Region,
                          at: int, now: int, chain: seq<State>, t: State)
    requires IsStateChain(lang, s, order, n, cameraId, region, at, now, chain) && n < |order|
    requires IsStateVisit(lang, chain[n], s, order[n], cameraId, region, at, now, t)
    ensures IsStateChain(lang, s, order, n + 1, cameraId, region, at, now, chain + [t])
  {
    var longer := chain + [t];
    forall i | 0 <= i < n + 1
      ensures IsStateVisit(lang, longer[i], s, order[i], cameraId, region, at, now, longer[i + 1])
    {
      assert i < n ==> IsStateVisit(lang, chain[i], s, order[i], cameraId, region, at, now, chain[i + 1]);
    }
  }

  lemma StateChainIsDispatch(lang: Language, s: State, order: seq<string>, n: nat, cameraId: string, region: Region,
                             at: int, now: int, chain: seq<State>)
    requires IsStateChain(lang, s, order, |order|, cameraId, region, at, now, chain) && n <= |order|
    requires forall id :: id in order ==> id in s.rules
    ensures chain[n] == DispatchState(lang, s, order, n, cameraId, region, at, now)
  {
    for k := 0 to n
      invariant chain[k] == DispatchState(lang, s, order, k, cameraId, region, at, now)
    {
      assert IsStateVisit(lang, chain[k], s, order[k], cameraId, region, at, now, chain[k + 1]);
    }
  }

  ghost predicate IsEventVisit(lang: Language, m: State, s: State, id: string, event: EventPayload, now: int,
                               t: State)
  {
    id in s.rules && t == OnEvent(lang, m, s.rules[id], event, now)
  }

  ghost predicate IsEventChain(lang: Language, s: State, order: seq<string>, n: nat, event: EventPayload, now: int,
                               chain: seq<State>)
  {
    && n <= |order| && |chain| == n + 1 && chain[0] == s
    && forall i :: 0 <= i < n ==> IsEventVisit(lang, chain[i], s, order[i], event, now, chain[i + 1])
  }

  lemma EventChainExtends(lang: Language, s: State, order: seq<string>, n: nat, event: EventPayload, now: int,
                          chain: seq<State>, t: State)
    requires IsEventChain(lang, s, order, n, event, now, chain) && n < |order|
    requires IsEventVisit(lang, chain[n], s, order[n], event, now, t)
    ensures IsEventChain(lang, s, order, n + 1, event, now, chain + [t])
  {
    var longer := chain + [t];
    forall i | 0 <= i < n + 1
      ensures IsEventVisit(lang, longer[i], s, order[i], event, now, longer[i + 1])
    {
      assert i < n ==> IsEventVisit(lang, chain[i], s, order[i], event, now, chain[i + 1]);
    }
  }

  lemma EventChainIsDispatch(lang: Language, s: State, order: seq<string>, n: nat, event: EventPayload, now: int,
                             chain: seq<State>)
    requires IsEventChain(lang, s, order, |order|, event, now, chain) && n <= |order|
    requires forall id :: id in order ==> id in s.rules
    ensures chain[n] == DispatchEvent(lang, s, order, n, event, now)
  {
    for k := 0 to n
      invariant chain[k] == DispatchEvent(lang, s, order, k, event, now)
    {
      assert IsEventVisit(lang, chain[k], s, order[k], event, now, chain[k + 1]);
    }
  }

  lemma OrderExtends(order: seq<string>, targets: set<string>, todo: set<string>, id: string)
    requires IsOrderOf(order, targets - todo) && todo <= targets && id in todo
    ensures IsOrderOf(order + [id], targets - (todo - {id}))
    ensures forall r :: r in order + [id] ==> r in targets
  {
    assert forall r :: r in order + [id] <==> r in order || r == id;
  }

  /** The states between the first `n` regions of a payload. */
  ghost predicate IsRegionChain(lang: Language, s: State, p: StatePayload, orders: seq<seq<string>>, n: nat,
                                now: int, chain: seq<State>)
  {
    && n <= |p.regions| && |orders| == n && |chain| == n + 1 && chain[0] == s
    && forall i :: 0 <= i < n ==> IsRegionStep(lang, chain[i], p, i, orders[i], now, chain[i + 1], s)
  }

  ghost predicate IsRegionStep(lang: Language, m: State, p: StatePayload, i: nat, order: seq<string>, now: int,
                               t: State, s: State)
    requires i < |p.regions|
  {
    && m.rules == s.rules && m.index == s.index
    && IsOrderOf(order, StateTargets(s, p.camera, p.regions[i].roiId))
    && t == DispatchState(lang, Observe(m, p.camera, p.regions[i], p.emittedAt, now), order, |order|,
                          p.camera, p.regions[i], p.emittedAt, now)
  }

  lemma {:induction false} RegionChainKeepsRules(lang: Language, s: State, p: StatePayload, orders: seq<seq<string>>,
                                                 n: nat, now: int, chain: seq<State>)
    requires IsRegionChain(lang, s, p, orders, n, now, chain)
    ensures chain[n].rules == s.rules && chain[n].index == s.index
  {
    if n > 0 {
      assert IsRegionStep(lang, chain[n - 1], p, n - 1, orders[n - 1], now, chain[n - 1 + 1], s);
    }
  }

  lemma RegionChainExtends(lang: Language, s: State, p: StatePayload, orders: seq<seq<string>>, n: nat, now: int,
                           chain: seq<State>, order: seq<string>, t: State)
    requires IsRegionChain(lang, s, p, orders, n, now, chain) && n < |p.regions|
    requires IsOrderOf(order, StateTargets(chain[n], p.camera, p.regions[n].roiId))
    requires t == DispatchState(lang, Observe(chain[n], p.camera, p.regions[n], p.emittedAt, now), order, |order|,
                                p.camera, p.regions[n], p.emittedAt, now)
    ensures IsRegionChain(lang, s, p, orders + [order], n + 1, now, chain + [t])
  {
    RegionChainKeepsRules(lang, s, p, orders, n, now, chain);
    var os, cs := orders + [order], chain + [t];
    assert IsRegionStep(lang, cs[n], p, n, os[n], now, cs[n + 1], s);
    forall i | 0 <= i < n
      ensures IsRegionStep(lang, cs[i], p, i, os[i], now, cs[i + 1], s)
    {
      assert IsRegionStep(lang, chain[i], p, i, orders[i], now, chain[i + 1], s);
    }
  }

  lemma RegionChainHasOrders(lang: Language, s: State, p: StatePayload, orders: seq<seq<string>>, now: int,
                             chain: seq<State>)
    requires IsRegionChain(lang, s, p, orders, |p.regions|, now, chain)
    ensures AreOrdersOf(orders, s, p)
  {
    forall i | 0 <= i < |orders|
      ensures IsOrderOf(orders[i], StateTargets(s, p.camera, p.regions[i].roiId))
    {
      assert IsRegionStep(lang, chain[i], p, i, orders[i], now, chain[i + 1], s);
    }
  }

  lemma RegionStepIsProcessState(lang: Language, s: State, p: StatePayload, orders: seq<seq<string>>, n: nat,
                                 now: int, chain: seq<State>)
    requires IsRegionChain(lang, s, p, orders, |p.regions|, now, chain) && n < |orders|
    requires AreOrdersOf(orders, s, p)
    requires chain[n] == EngineSpec.ProcessState(lang, s, p, orders, n, now)
    ensures chain[n + 1] == EngineSpec.ProcessState(lang, s, p, orders, n + 1, now)
  {
    assert IsRegionStep(lang, chain[n], p, n, orders[n], now, chain[n + 1], s);
  }

  lemma RegionChainIsProcessState(lang: Language, s: State, p: StatePayload, orders: seq<seq<string>>, n: nat,
                                  now: int, chain: seq<State>)
    requires IsRegionChain(lang, s, p, orders, |p.regions|, now, chain) && n <= |orders|
    requires AreOrdersOf(orders, s, p)
    ensures chain[n] == EngineSpec.ProcessState(lang, s, p, orders, n, now)
  {
    for k := 0 to n
      invariant chain[k] == EngineSpec.ProcessState(lang, s, p, orders, k, now)
    {
      RegionStepIsProcessState(lang, s, p, orders, k, now, chain);
    }
  }
}
