/** The engine as a value: what registration, updates, states, events and clean-ups do to it. */
module EngineSpec {
  import opened Common
  import opened Payloads
  import opened Dispatch
  import opened Observations
  import opened Evaluation
  import Rolling
  import Trigger
  import SW = StateWindows
  import EW = EventWindows

  /** Observations live for thirty seconds. */
  const TTL := 30 * NANOS

  datatype ActiveRule = ActiveRule(rule: Rule, program: Program)

  datatype State = State(
    rules: map<string, ActiveRule>,
    index: Index,
    stateWindows: map<string, SW.Window>,
    eventWindows: map<string, EW.Window>,
    timers: map<string, Trigger.Timers>,
    cache: Cache,
    log: seq<Firing>)

  const EMPTY := State(map[], map[], map[], map[], map[], map[], [])

  /** What the engine remembers on behalf of one rule. */
  datatype Local = Local(stateWindow: Option<SW.Window>, eventWindow: Option<EW.Window>,
                         timers: Option<Trigger.Timers>)

  function LocalOf(s: State, id: string): Local {
    Local(Lookup(s.stateWindows, id), Lookup(s.eventWindows, id), Lookup(s.timers, id))
  }

  function WithLocal(s: State, id: string, l: Local): State {
    s.(stateWindows := Put(s.stateWindows, id, l.stateWindow),
       eventWindows := Put(s.eventWindows, id, l.eventWindow),
       timers := Put(s.timers, id, l.timers))
  }

  // ---------------------------------------------------------------------------------------------
  // Rule lifecycle
  // ---------------------------------------------------------------------------------------------

  predicate Accepted(lang: Language, rule: Rule) {
    rule.enabled && lang.compile(rule.expression).Some?
  }

  /** A disabled rule and one that does not compile change nothing. */
  function Register(lang: Language, s: State, rule: Rule): State {
    var program := lang.compile(rule.expression);
    if !rule.enabled || program.None? then s
    else s.(rules := s.rules[rule.id := ActiveRule(rule.Converted(), program.value)],
            index := Registered(s.index, rule.id, rule.Converted().dependencies))
  }

  function Unregister(s: State, id: string): State {
    s.(rules := s.rules - {id}, index := Unregistered(s.index, id),
       stateWindows := s.stateWindows - {id}, eventWindows := s.eventWindows - {id},
       timers := s.timers - {id})
  }

  function Update(lang: Language, s: State, rule: Rule): State {
    Register(lang, Unregister(s, rule.id), rule)
  }

  // ---------------------------------------------------------------------------------------------
  // Evaluating one rule
  // ---------------------------------------------------------------------------------------------

  function FedState(l: Local, active: ActiveRule, entry: SW.StateEntry): Local {
    if active.rule.window.None? then l
    else l.(stateWindow := Some(SW.Added(l.stateWindow.GetOr(SW.Created(active.rule.window.value)), entry)))
  }

  function FedEvent(l: Local, active: ActiveRule, entry: EW.EventEntry): Local {
    if active.rule.window.None? then l
    else l.(eventWindow := Some(EW.Added(l.eventWindow.GetOr(EW.Created(active.rule.window.value)), entry).0))
  }

  function EventCounts(w: EW.Window): Value {
    Table(map["count" := Number(EW.Count(w)),
              "entranceCount" := Number(EW.CountByKind(w, "line_crossed")),
              "exitCount" := Number(EW.CountByKind(w, "exit"))])
  }

  function TrackCounts(w: SW.Window): Value {
    Table(map["uniquePersons" := Number(|SW.Tracks(w.entries, "person")|),
              "uniqueVehicles" := Number(|SW.Tracks(w.entries, "vehicle")|)])
  }

  predicate HasDefault(env: Env) {
    "default" in env && env["default"] != Nil
  }

  /** The rule's window, created if need be, and the environment with its aggregates. */
  function WindowBound(l: Local, active: ActiveRule, env: Env): (Local, Env) {
    if active.rule.window.None? then (l, env)
    else if active.rule.source == SOURCE_EVENT then
      var w := l.eventWindow.GetOr(EW.Created(active.rule.window.value));
      (l.(eventWindow := Some(w)), env["window" := EventCounts(w)])
    else
      var w := l.stateWindow.GetOr(SW.Created(active.rule.window.value));
      (l.(stateWindow := Some(w)), if HasDefault(env) then env["window" := TrackCounts(w)] else env)
  }

  /** One evaluation: what the rule remembers afterwards, and whether it fires. */
  function Evaluated(lang: Language, cache: Cache, l: Local, active: ActiveRule, at: int, now: int): (Local, bool) {
    var (env, allFresh) := Context(active.rule.dependencies, cache, now);
    var (bound, full) := WindowBound(l, active, env);
    var holds := allFresh && lang.run(active.program, full) == True;
    var (timers, fired) := Trigger.Step(l.timers.GetOr(Trigger.INITIAL),
                                        Trigger.Evaluation(holds, at, active.rule.TriggerConfig()));
    (bound.(timers := Some(timers)), fired)
  }

  function FiringOf(active: ActiveRule, at: int, cameraId: string, roiId: string): Firing {
    Firing(active.rule.id, active.rule.name, at, active.rule.actionType, cameraId, roiId, active.rule.source)
  }

  /** The engine after one of its rules was fed and evaluated. */
  function Evaluate(lang: Language, s: State, fed: Local, active: ActiveRule, at: int,
                    cameraId: string, roiId: string, now: int): State {
    var (l, fired) := Evaluated(lang, s.cache, fed, active, at, now);
    var after := WithLocal(s, active.rule.id, l);
    if fired then after.(log := s.log + [FiringOf(active, at, cameraId, roiId)]) else after
  }

  // ---------------------------------------------------------------------------------------------
  // Messages
  // ---------------------------------------------------------------------------------------------

  function SnapshotOf(cameraId: string, region: Region, emittedAt: int): SW.StateEntry {
    Rolling.Stamped(emittedAt, SW.Snapshot(
      cameraId, region.roiId, region.occupancy, region.staffCount, region.dwell,
      seq(|region.entities|, i requires 0 <= i < |region.entities| =>
        SW.TrackedEntity(region.entities[i].entityType, region.entities[i].trackId,
                         region.entities[i].dwellTime.GetOr(0.0)))))
  }

  function EntryOf(event: EventPayload): EW.EventEntry {
    Rolling.Stamped(event.emittedAt, EW.Event(
      event.eventId, event.kind, event.camera, event.roiId,
      if event.entity.Some? then event.entity.value.trackId else "",
      if event.entity.Some? then event.entity.value.entityType else ""))
  }

  function OnState(lang: Language, s: State, active: ActiveRule, cameraId: string, region: Region,
                   at: int, now: int): State {
    Evaluate(lang, s, FedState(LocalOf(s, active.rule.id), active, SnapshotOf(cameraId, region, at)),
             active, at, cameraId, region.roiId, now)
  }

  function OnEvent(lang: Language, s: State, active: ActiveRule, event: EventPayload, now: int): State {
    Evaluate(lang, s, FedEvent(LocalOf(s, active.rule.id), active, EntryOf(event)),
             active, event.emittedAt, event.camera, event.roiId, now)
  }

  /** The active rules a region's snapshot is dispatched to: those indexed at the region and those
      indexed at the empty region. */
  function StateTargets(s: State, cameraId: string, roiId: string): set<string> {
    set id | id in s.rules && id in At(s.index, StateKey(cameraId, roiId)) + At(s.index, StateKey(cameraId, ""))
  }

  function EventTargets(s: State, cameraId: string, eventKind: string): set<string> {
    set id | id in s.rules && id in EventRules(s.index, cameraId, eventKind)
  }

  /** Rules are visited in the iteration order of a map: any order, each target once. */
  ghost predicate IsOrderOf(order: seq<string>, targets: set<string>) {
    Distinct(order) && forall id :: id in order <==> id in targets
  }

  function DispatchState(lang: Language, s: State, order: seq<string>, n: nat, cameraId: string,
                         region: Region, at: int, now: int): (r: State)
    requires n <= |order| && forall id :: id in order ==> id in s.rules
    ensures r.rules == s.rules && r.index == s.index && r.cache == s.cache
  {
    if n == 0 then s
    else OnState(lang, DispatchState(lang, s, order, n - 1, cameraId, region, at, now),
                 s.rules[order[n - 1]], cameraId, region, at, now)
  }

  function DispatchEvent(lang: Language, s: State, order: seq<string>, n: nat, event: EventPayload,
                         now: int): (r: State)
    requires n <= |order| && forall id :: id in order ==> id in s.rules
    ensures r.rules == s.rules && r.index == s.index && r.cache == s.cache
  {
    if n == 0 then s
    else OnEvent(lang, DispatchEvent(lang, s, order, n - 1, event, now), s.rules[order[n - 1]], event, now)
  }

  function Observe(s: State, cameraId: string, region: Region, at: int, now: int): State {
    s.(cache := Updated(s.cache, cameraId, region, at, TTL, now))
  }

  /** One order of visits per region. */
  ghost predicate AreOrdersOf(orders: seq<seq<string>>, s: State, p: StatePayload) {
    && |orders| == |p.regions|
    && forall i :: 0 <= i < |orders| ==> IsOrderOf(orders[i], StateTargets(s, p.camera, p.regions[i].roiId))
  }

  ghost function ProcessState(lang: Language, s: State, p: StatePayload, orders: seq<seq<string>>, n: nat,
                              now: int): (r: State)
    requires AreOrdersOf(orders, s, p) && n <= |orders|
    ensures r.rules == s.rules && r.index == s.index
  {
    if n == 0 then s
    else
      var before := ProcessState(lang, s, p, orders, n - 1, now);
      assert IsOrderOf(orders[n - 1], StateTargets(s, p.camera, p.regions[n - 1].roiId));
      DispatchState(lang, Observe(before, p.camera, p.regions[n - 1], p.emittedAt, now),
                    orders[n - 1], |orders[n - 1]|, p.camera, p.regions[n - 1], p.emittedAt, now)
  }

  // ---------------------------------------------------------------------------------------------
  // Steps and runs
  // ---------------------------------------------------------------------------------------------

  datatype Action =
    | RegisterRule(rule: Rule)
    | UnregisterRule(id: string)
    | UpdateRule(updated: Rule)
    | PostState(state: StatePayload)
    | PostEvent(event: EventPayload)
    | CleanUp

  /** An action at a clock reading, in nanoseconds. */
  datatype Step = Step(action: Action, now: int)

  /** `t` can follow `s`, for some order of visits. */
  ghost predicate Next(lang: Language, s: State, step: Step, t: State) {
    match step.action
    case RegisterRule(rule) => t == Register(lang, s, rule)
    case UnregisterRule(id) => t == Unregister(s, id)
    case UpdateRule(rule) => t == Update(lang, s, rule)
    case PostState(p) =>
      exists orders :: AreOrdersOf(orders, s, p) && t == ProcessState(lang, s, p, orders, |orders|, step.now)
    case PostEvent(event) =>
      exists order :: IsOrderOf(order, EventTargets(s, event.camera, event.kind))
                      && t == DispatchEvent(lang, s, order, |order|, event, step.now)
    case CleanUp => t == s.(cache := Cleaned(s.cache, step.now))
  }

  /** The states an engine can go through during a run. */
  ghost predicate Execution(lang: Language, run: seq<Step>, trace: seq<State>) {
    && |trace| == |run| + 1
    && forall i :: 0 <= i < |run| ==> Next(lang, trace[i], run[i], trace[i + 1])
  }

  /** Every active rule is filed under its own id. */
  ghost predicate Filed(s: State) {
    forall id :: id in s.rules ==> s.rules[id].rule.id == id
  }

  lemma NextKeepsFiled(lang: Language, s: State, step: Step, t: State)
    requires Filed(s) && Next(lang, s, step, t)
    ensures Filed(t)
  {
    if step.action.PostState? || step.action.PostEvent? || step.action.CleanUp? {
      MessagesKeepRules(lang, s, step, t);
      return;
    }
    LifecycleKeepsFiled(lang, s, step.action, t);
  }

  lemma MessagesKeepRules(lang: Language, s: State, step: Step, t: State)
    requires step.action.PostState? || step.action.PostEvent? || step.action.CleanUp?
    requires Next(lang, s, step, t)
    ensures t.rules == s.rules && t.index == s.index
  {
  }

  lemma LifecycleKeepsFiled(lang: Language, s: State, action: Action, t: State)
    requires Filed(s)
    requires match action
             case RegisterRule(rule) => t == Register(lang, s, rule)
             case UnregisterRule(id) => t == Unregister(s, id)
             case UpdateRule(rule) => t == Update(lang, s, rule)
             case _ => false
    ensures Filed(t)
  {
  }

  lemma {:induction false} ExecutionIsFiled(lang: Language, run: seq<Step>, trace: seq<State>, n: nat)
    requires Execution(lang, run, trace) && Filed(trace[0]) && n <= |run|
    ensures Filed(trace[n])
  {
    if n > 0 {
      ExecutionIsFiled(lang, run, trace, n - 1);
      NextKeepsFiled(lang, trace[n - 1], run[n - 1], trace[n]);
    }
  }
}
