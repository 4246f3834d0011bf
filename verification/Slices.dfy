/** The engine as one rule sees it. The slice of a rule evolves by itself: this is what makes rules
    independent of each other and of the order they are visited in. */
module Slices {
  import opened Common
  import opened Payloads
  import opened Dispatch
  import opened Observations
  import opened Evaluation
  import opened EngineSpec

  datatype Slice = Slice(rule: Option<ActiveRule>, keys: set<DepKey>, local: Local, cache: Cache)

  ghost function SliceOf(s: State, id: string): Slice {
    Slice(Lookup(s.rules, id), KeysOf(s.index, id), LocalOf(s, id), s.cache)
  }

  /** The firings of one rule. */
  function LogOf(log: seq<Firing>, id: string): seq<Firing> {
    if log == [] then []
    else if log[|log| - 1].ruleId == id then LogOf(log[..|log| - 1], id) + [log[|log| - 1]]
    else LogOf(log[..|log| - 1], id)
  }

  // ---------------------------------------------------------------------------------------------
  // How a slice evolves
  // ---------------------------------------------------------------------------------------------

  ghost function SliceRegister(lang: Language, sl: Slice, rule: Rule): Slice {
    var program := lang.compile(rule.expression);
    if !rule.enabled || program.None? then sl
    else sl.(rule := Some(ActiveRule(rule.Converted(), program.value)),
             keys := sl.keys + DepKeys(rule.Converted().dependencies))
  }

  ghost function SliceUnregister(sl: Slice): Slice {
    Slice(None, {}, Local(None, None, None), sl.cache)
  }

  ghost function SliceEvaluate(lang: Language, sl: Slice, fed: Local, at: int, cameraId: string,
                               roiId: string, now: int): (Slice, seq<Firing>)
    requires sl.rule.Some?
  {
    var (l, fired) := Evaluated(lang, sl.cache, fed, sl.rule.value, at, now);
    (sl.(local := l), if fired then [FiringOf(sl.rule.value, at, cameraId, roiId)] else [])
  }

  /** What one region's snapshot does to the slice of a rule it is dispatched to. */
  ghost function SliceOnState(lang: Language, sl: Slice, cameraId: string, region: Region, at: int,
                              now: int): (Slice, seq<Firing>)
    requires sl.rule.Some?
  {
    SliceEvaluate(lang, sl, FedState(sl.local, sl.rule.value, SnapshotOf(cameraId, region, at)),
                  at, cameraId, region.roiId, now)
  }

  ghost function SliceOnEvent(lang: Language, sl: Slice, event: EventPayload, now: int): (Slice, seq<Firing>)
    requires sl.rule.Some?
  {
    SliceEvaluate(lang, sl, FedEvent(sl.local, sl.rule.value, EntryOf(event)), event.emittedAt,
                  event.camera, event.roiId, now)
  }

  ghost predicate WantsState(sl: Slice, cameraId: string, roiId: string) {
    sl.rule.Some? && (StateKey(cameraId, roiId) in sl.keys || StateKey(cameraId, "") in sl.keys)
  }

  ghost predicate WantsEvent(sl: Slice, cameraId: string, eventKind: string) {
    && sl.rule.Some?
    && (|| EventKey(cameraId, eventKind) in sl.keys || EventKey(cameraId, "") in sl.keys
        || EventKey(cameraId, "*") in sl.keys)
  }

  ghost function SliceObserve(sl: Slice, cameraId: string, region: Region, at: int, now: int): Slice {
    sl.(cache := Updated(sl.cache, cameraId, region, at, TTL, now))
  }

  ghost function SliceRegion(lang: Language, sl: Slice, cameraId: string, region: Region, at: int,
                             now: int): (Slice, seq<Firing>)
  {
    var seen := SliceObserve(sl, cameraId, region, at, now);
    if !WantsState(sl, cameraId, region.roiId) then (seen, [])
    else SliceOnState(lang, seen, cameraId, region, at, now)
  }

  /** `n` rounds of `f`, collecting the firings. */
  ghost function Fold(f: (Slice, nat) -> (Slice, seq<Firing>), sl: Slice, n: nat): (Slice, seq<Firing>) {
    if n == 0 then (sl, [])
    else
      var (before, earlier) := Fold(f, sl, n - 1);
      var (after, out) := f(before, n - 1);
      (after, earlier + out)
  }

  ghost function OneRegion(lang: Language, p: StatePayload, now: int): (Slice, nat) -> (Slice, seq<Firing>) {
    (sl: Slice, i: nat) =>
      if i < |p.regions| then SliceRegion(lang, sl, p.camera, p.regions[i], p.emittedAt, now) else (sl, [])
  }

  /** All regions of a payload, in order. */
  ghost function SliceRegions(lang: Language, sl: Slice, p: StatePayload, now: int): (Slice, seq<Firing>) {
    Fold(OneRegion(lang, p, now), sl, |p.regions|)
  }

  ghost function SliceEvent(lang: Language, sl: Slice, event: EventPayload, now: int): (Slice, seq<Firing>) {
    if !WantsEvent(sl, event.camera, event.kind) then (sl, [])
    else SliceOnEvent(lang, sl, event, now)
  }

  /** The slice of rule `id` after one action, and the firings of that rule the action causes. */
  ghost function SliceStep(lang: Language, id: string, sl: Slice, step: Step): (Slice, seq<Firing>) {
    match step.action
    case RegisterRule(rule) => (if rule.id == id then SliceRegister(lang, sl, rule) else sl, [])
    case UnregisterRule(r) => (if r == id then SliceUnregister(sl) else sl, [])
    case UpdateRule(rule) =>
      (if rule.id == id then SliceRegister(lang, SliceUnregister(sl), rule) else sl, [])
    case PostState(p) => SliceRegions(lang, sl, p, step.now)
    case PostEvent(event) => SliceEvent(lang, sl, event, step.now)
    case CleanUp => (sl.(cache := Cleaned(sl.cache, step.now)), [])
  }

  ghost function SliceRun(lang: Language, id: string, sl: Slice, run: seq<Step>): (Slice, seq<Firing>) {
    if run == [] then (sl, [])
    else
      var (before, earlier) := SliceRun(lang, id, sl, run[..|run| - 1]);
      var (after, out) := SliceStep(lang, id, before, run[|run| - 1]);
      (after, earlier + out)
  }

  // ---------------------------------------------------------------------------------------------
  // The engine's steps, seen by one rule
  // ---------------------------------------------------------------------------------------------

  lemma RegisterSlice(lang: Language, s: State, rule: Rule, id: string)
    ensures SliceOf(Register(lang, s, rule), id) ==
            if rule.id == id then SliceRegister(lang, SliceOf(s, id), rule) else SliceOf(s, id)
    ensures Register(lang, s, rule).log == s.log
  {
    RegisterAddsKeys(s.index, rule.id, rule.Converted().dependencies, id);
  }

  lemma UnregisterSlice(s: State, r: string, id: string)
    ensures SliceOf(Unregister(s, r), id) == if r == id then SliceUnregister(SliceOf(s, id)) else SliceOf(s, id)
    ensures Unregister(s, r).log == s.log
  {
    UnregisterRemovesKeys(s.index, r, id);
  }

  /** What an outside observer interested in one rule only can see. */
  datatype View = View(slice: Slice, log: seq<Firing>)

  ghost function ViewOf(s: State, id: string): View {
    View(SliceOf(s, id), LogOf(s.log, id))
  }

  /** The view after the slice became `r.0` and the firings `r.1` happened. */
  ghost function Then(v: View, r: (Slice, seq<Firing>)): View {
    View(r.0, v.log + r.1)
  }

  lemma ThenThen(v: View, sl: Slice, earlier: seq<Firing>, m: View, r: (Slice, seq<Firing>), t: View)
    requires m == Then(v, (sl, earlier)) && t == Then(m, r)
    ensures t == Then(v, (r.0, earlier + r.1))
  {
    assert v.log + earlier + r.1 == v.log + (earlier + r.1);
  }

  lemma ThenNothing(v: View)
    ensures Then(v, (v.slice, [])) == v
  {
    assert v.log + [] == v.log;
  }

  lemma LogOfStep(log: seq<Firing>, f: Firing, id: string)
    ensures LogOf(log + [f], id) == if f.ruleId == id then LogOf(log, id) + [f] else LogOf(log, id)
  {
    assert (log + [f])[..|log + [f]| - 1] == log;
  }

  lemma WithLocalSlice(s: State, r: string, l: Local, id: string)
    ensures SliceOf(WithLocal(s, r, l), id) == if r == id then SliceOf(s, id).(local := l) else SliceOf(s, id)
  {
  }

  /** Evaluating another rule is invisible. */
  lemma EvaluateElsewhere(lang: Language, s: State, fed: Local, active: ActiveRule, at: int,
                          cameraId: string, roiId: string, now: int, id: string)
    requires active.rule.id != id
    ensures ViewOf(Evaluate(lang, s, fed, active, at, cameraId, roiId, now), id) == ViewOf(s, id)
  {
    WithLocalSlice(s, active.rule.id, Evaluated(lang, s.cache, fed, active, at, now).0, id);
    LogOfStep(s.log, FiringOf(active, at, cameraId, roiId), id);
  }

  /** Evaluating the rule itself is what its slice says. */
  lemma EvaluateHere(lang: Language, s: State, fed: Local, active: ActiveRule, at: int,
                     cameraId: string, roiId: string, now: int, id: string)
    requires active.rule.id == id && Lookup(s.rules, id) == Some(active)
    ensures ViewOf(Evaluate(lang, s, fed, active, at, cameraId, roiId, now), id) ==
            Then(ViewOf(s, id), SliceEvaluate(lang, SliceOf(s, id), fed, at, cameraId, roiId, now))
  {
    WithLocalSlice(s, id, Evaluated(lang, s.cache, fed, active, at, now).0, id);
    LogOfStep(s.log, FiringOf(active, at, cameraId, roiId), id);
  }

  lemma OnStateElsewhere(lang: Language, s: State, active: ActiveRule, cameraId: string, region: Region,
                         at: int, now: int, id: string)
    requires active.rule.id != id
    ensures ViewOf(OnState(lang, s, active, cameraId, region, at, now), id) == ViewOf(s, id)
  {
    EvaluateElsewhere(lang, s, FedState(LocalOf(s, active.rule.id), active, SnapshotOf(cameraId, region, at)),
                      active, at, cameraId, region.roiId, now, id);
  }

  lemma OnStateHere(lang: Language, s: State, active: ActiveRule, cameraId: string, region: Region,
                    at: int, now: int, id: string)
    requires active.rule.id == id && Lookup(s.rules, id) == Some(active)
    ensures ViewOf(OnState(lang, s, active, cameraId, region, at, now), id) ==
            Then(ViewOf(s, id), SliceOnState(lang, SliceOf(s, id), cameraId, region, at, now))
  {
    EvaluateHere(lang, s, FedState(LocalOf(s, id), active, SnapshotOf(cameraId, region, at)),
                 active, at, cameraId, region.roiId, now, id);
  }

  lemma OnEventElsewhere(lang: Language, s: State, active: ActiveRule, event: EventPayload, now: int, id: string)
    requires active.rule.id != id
    ensures ViewOf(OnEvent(lang, s, active, event, now), id) == ViewOf(s, id)
  {
    EvaluateElsewhere(lang, s, FedEvent(LocalOf(s, active.rule.id), active, EntryOf(event)),
                      active, event.emittedAt, event.camera, event.roiId, now, id);
  }

  lemma OnEventHere(lang: Language, s: State, active: ActiveRule, event: EventPayload, now: int, id: string)
    requires active.rule.id == id && Lookup(s.rules, id) == Some(active)
    ensures ViewOf(OnEvent(lang, s, active, event, now), id) ==
            Then(ViewOf(s, id), SliceOnEvent(lang, SliceOf(s, id), event, now))
  {
    EvaluateHere(lang, s, FedEvent(LocalOf(s, id), active, EntryOf(event)),
                 active, event.emittedAt, event.camera, event.roiId, now, id);
  }

  // A dispatch is a sequence of visits; one of them at most is of the rule.

  lemma VisitedSoFar(order: seq<string>, n: nat, id: string)
    requires n < |order| && Distinct(order)
    ensures id in order[..n + 1] <==> id in order[..n] || order[n] == id
    ensures order[n] == id ==> id !in order[..n]
  {
    assert order[..n + 1] == order[..n] + [order[n]];
  }

  /** The view after a visit to `visited`, given the one before. */
  ghost predicate Visited(before: View, visited: string, id: string, act: Slice -> (Slice, seq<Firing>), after: View) {
    after == if visited == id then Then(before, act(before.slice)) else before
  }

  /** Visits in an order reach a rule once, wherever in the order it stands, and are invisible to a rule
      that is not in it. */
  lemma {:induction false} VisitedOnce(views: seq<View>, order: seq<string>, n: nat, id: string,
                                       act: Slice -> (Slice, seq<Firing>))
    requires |views| == |order| + 1 && Distinct(order) && n <= |order|
    requires forall i :: 0 <= i < |order| ==> Visited(views[i], order[i], id, act, views[i + 1])
    ensures views[n] == if id in order[..n] then Then(views[0], act(views[0].slice)) else views[0]
  {
    if n > 0 {
      VisitedOnce(views, order, n - 1, id, act);
      VisitedSoFar(order, n - 1, id);
      assert Visited(views[n - 1], order[n - 1], id, act, views[n - 1 + 1]);
    }
  }

  ghost function StateAct(lang: Language, cameraId: string, region: Region, at: int, now: int)
    : Slice -> (Slice, seq<Firing>)
  {
    (sl: Slice) => if sl.rule.Some? then SliceOnState(lang, sl, cameraId, region, at, now) else (sl, [])
  }

  ghost function StateViews(lang: Language, s: State, order: seq<string>, cameraId: string, region: Region, at: int,
                            now: int, id: string): seq<View>
    requires forall r :: r in order ==> r in s.rules
  {
    seq(|order| + 1, i requires 0 <= i <= |order| =>
      ViewOf(DispatchState(lang, s, order, i, cameraId, region, at, now), id))
  }

  lemma StateVisit(lang: Language, s: State, order: seq<string>, n: nat, cameraId: string, region: Region, at: int,
                   now: int, id: string)
    requires Filed(s) && (forall r :: r in order ==> r in s.rules) && n < |order|
    ensures var views := StateViews(lang, s, order, cameraId, region, at, now, id);
            Visited(views[n], order[n], id, StateAct(lang, cameraId, region, at, now), views[n + 1])
  {
    var before := DispatchState(lang, s, order, n, cameraId, region, at, now);
    if order[n] == id {
      OnStateHere(lang, before, s.rules[id], cameraId, region, at, now, id);
    } else {
      OnStateElsewhere(lang, before, s.rules[order[n]], cameraId, region, at, now, id);
    }
  }

  lemma {:induction false} DispatchStateView(lang: Language, s: State, order: seq<string>, cameraId: string,
                                             region: Region, at: int, now: int, id: string)
    requires Filed(s) && (forall r :: r in order ==> r in s.rules) && Distinct(order)
    ensures ViewOf(DispatchState(lang, s, order, |order|, cameraId, region, at, now), id) ==
            if id in order then Then(ViewOf(s, id), StateAct(lang, cameraId, region, at, now)(SliceOf(s, id)))
            else ViewOf(s, id)
  {
    var views := StateViews(lang, s, order, cameraId, region, at, now, id);
    forall i | 0 <= i < |order|
      ensures Visited(views[i], order[i], id, StateAct(lang, cameraId, region, at, now), views[i + 1])
    {
      StateVisit(lang, s, order, i, cameraId, region, at, now, id);
    }
    VisitedOnce(views, order, |order|, id, StateAct(lang, cameraId, region, at, now));
    assert order[..|order|] == order;
  }

  ghost function EventAct(lang: Language, event: EventPayload, now: int): Slice -> (Slice, seq<Firing>) {
    (sl: Slice) => if sl.rule.Some? then SliceOnEvent(lang, sl, event, now) else (sl, [])
  }

  ghost function EventViews(lang: Language, s: State, order: seq<string>, event: EventPayload, now: int, id: string)
    : seq<View>
    requires forall r :: r in order ==> r in s.rules
  {
    seq(|order| + 1, i requires 0 <= i <= |order| => ViewOf(DispatchEvent(lang, s, order, i, event, now), id))
  }

  lemma EventVisit(lang: Language, s: State, order: seq<string>, n: nat, event: EventPayload, now: int, id: string)
    requires Filed(s) && (forall r :: r in order ==> r in s.rules) && n < |order|
    ensures var views := EventViews(lang, s, order, event, now, id);
            Visited(views[n], order[n], id, EventAct(lang, event, now), views[n + 1])
  {
    var before := DispatchEvent(lang, s, order, n, event, now);
    if order[n] == id {
      OnEventHere(lang, before, s.rules[id], event, now, id);
    } else {
      OnEventElsewhere(lang, before, s.rules[order[n]], event, now, id);
    }
  }

  lemma {:induction false} DispatchEventView(lang: Language, s: State, order: seq<string>, event: EventPayload,
                                             now: int, id: string)
    requires Filed(s) && (forall r :: r in order ==> r in s.rules) && Distinct(order)
    ensures ViewOf(DispatchEvent(lang, s, order, |order|, event, now), id) ==
            if id in order then Then(ViewOf(s, id), EventAct(lang, event, now)(SliceOf(s, id))) else ViewOf(s, id)
  {
    var views := EventViews(lang, s, order, event, now, id);
    forall i | 0 <= i < |order|
      ensures Visited(views[i], order[i], id, EventAct(lang, event, now), views[i + 1])
    {
      EventVisit(lang, s, order, i, event, now, id);
    }
    VisitedOnce(views, order, |order|, id, EventAct(lang, event, now));
    assert order[..|order|] == order;
  }

  lemma WantedState(s: State, order: seq<string>, cameraId: string, roiId: string, id: string)
    requires IsOrderOf(order, StateTargets(s, cameraId, roiId))
    ensures id in order <==> WantsState(SliceOf(s, id), cameraId, roiId)
  {
  }

  lemma WantedEvent(s: State, order: seq<string>, cameraId: string, eventKind: string, id: string)
    requires IsOrderOf(order, EventTargets(s, cameraId, eventKind))
    ensures id in order <==> WantsEvent(SliceOf(s, id), cameraId, eventKind)
  {
  }

  lemma RegionSlice(lang: Language, s: State, cameraId: string, region: Region, at: int, order: seq<string>,
                    now: int, id: string)
    requires Filed(s) && IsOrderOf(order, StateTargets(s, cameraId, region.roiId))
    ensures ViewOf(DispatchState(lang, Observe(s, cameraId, region, at, now), order, |order|,
                                 cameraId, region, at, now), id) ==
            Then(ViewOf(s, id), SliceRegion(lang, SliceOf(s, id), cameraId, region, at, now))
  {
    var seen := Observe(s, cameraId, region, at, now);
    WantedState(s, order, cameraId, region.roiId, id);
    DispatchStateView(lang, seen, order, cameraId, region, at, now, id);
    ThenNothing(ViewOf(seen, id));
  }

  lemma EventSlice(lang: Language, s: State, event: EventPayload, order: seq<string>, now: int, id: string)
    requires Filed(s) && IsOrderOf(order, EventTargets(s, event.camera, event.kind))
    ensures ViewOf(DispatchEvent(lang, s, order, |order|, event, now), id) ==
            Then(ViewOf(s, id), SliceEvent(lang, SliceOf(s, id), event, now))
  {
    WantedEvent(s, order, event.camera, event.kind, id);
    DispatchEventView(lang, s, order, event, now, id);
    ThenNothing(ViewOf(s, id));
  }

  lemma NthRegionSlice(lang: Language, s: State, p: StatePayload, orders: seq<seq<string>>, n: nat, now: int,
                       id: string)
    requires Filed(s) && AreOrdersOf(orders, s, p) && 0 < n <= |orders|
    ensures var before := ProcessState(lang, s, p, orders, n - 1, now);
            ViewOf(ProcessState(lang, s, p, orders, n, now), id) ==
            Then(ViewOf(before, id),
                 SliceRegion(lang, SliceOf(before, id), p.camera, p.regions[n - 1], p.emittedAt, now))
  {
    assert IsOrderOf(orders[n - 1], StateTargets(s, p.camera, p.regions[n - 1].roiId));
    RegionSlice(lang, ProcessState(lang, s, p, orders, n - 1, now), p.camera, p.regions[n - 1], p.emittedAt,
                orders[n - 1], now, id);
  }

  lemma RoundsSlice(lang: Language, s: State, p: StatePayload, orders: seq<seq<string>>, n: nat, now: int, id: string)
    requires Filed(s) && AreOrdersOf(orders, s, p) && n < |orders|
    requires ViewOf(ProcessState(lang, s, p, orders, n, now), id) ==
             Then(ViewOf(s, id), Fold(OneRegion(lang, p, now), SliceOf(s, id), n))
    ensures ViewOf(ProcessState(lang, s, p, orders, n + 1, now), id) ==
            Then(ViewOf(s, id), Fold(OneRegion(lang, p, now), SliceOf(s, id), n + 1))
  {
    var m, t := ProcessState(lang, s, p, orders, n, now), ProcessState(lang, s, p, orders, n + 1, now);
    NthRegionSlice(lang, s, p, orders, n + 1, now, id);
    NextRound(OneRegion(lang, p, now), SliceOf(s, id), n, ViewOf(s, id), ViewOf(m, id), ViewOf(t, id));
  }

  lemma NextRound(f: (Slice, nat) -> (Slice, seq<Firing>), sl: Slice, n: nat, v: View, m: View, t: View)
    requires m == Then(v, Fold(f, sl, n)) && t == Then(m, f(m.slice, n))
    ensures t == Then(v, Fold(f, sl, n + 1))
  {
    var (before, earlier) := Fold(f, sl, n);
    ThenThen(v, before, earlier, m, f(before, n), t);
  }

  lemma RegionsSlice(lang: Language, s: State, p: StatePayload, orders: seq<seq<string>>, now: int, id: string)
    requires Filed(s) && AreOrdersOf(orders, s, p)
    ensures ViewOf(ProcessState(lang, s, p, orders, |orders|, now), id) ==
            Then(ViewOf(s, id), SliceRegions(lang, SliceOf(s, id), p, now))
  {
    ThenNothing(ViewOf(s, id));
    for n := 0 to |orders|
      invariant ViewOf(ProcessState(lang, s, p, orders, n, now), id) ==
                Then(ViewOf(s, id), Fold(OneRegion(lang, p, now), SliceOf(s, id), n))
    {
      RoundsSlice(lang, s, p, orders, n, now, id);
    }
  }

  /** Every step of the engine acts on the slice of a rule as a function of that slice alone. */
  lemma NextSlice(lang: Language, s: State, step: Step, t: State, id: string)
    requires Filed(s) && Next(lang, s, step, t)
    ensures ViewOf(t, id) == Then(ViewOf(s, id), SliceStep(lang, id, SliceOf(s, id), step))
  {
    match step.action
    case RegisterRule(rule) =>
      RegisterSlice(lang, s, rule, id);
      ThenNothing(ViewOf(t, id));
    case UnregisterRule(r) =>
      UnregisterSlice(s, r, id);
      ThenNothing(ViewOf(t, id));
    case UpdateRule(rule) =>
      UnregisterSlice(s, rule.id, id);
      RegisterSlice(lang, Unregister(s, rule.id), rule, id);
      ThenNothing(ViewOf(t, id));
    case PostState(p) =>
      var orders :| AreOrdersOf(orders, s, p) && t == ProcessState(lang, s, p, orders, |orders|, step.now);
      RegionsSlice(lang, s, p, orders, step.now, id);
    case PostEvent(event) =>
      var order :| IsOrderOf(order, EventTargets(s, event.camera, event.kind))
                   && t == DispatchEvent(lang, s, order, |order|, event, step.now);
      EventSlice(lang, s, event, order, step.now, id);
    case CleanUp =>
      ThenNothing(ViewOf(t, id));
  }

  /** Simulation: whatever orders the engine visits rules in, a run takes the slice of a rule, and
      the firings of that rule, where the slice's own run takes them. */
  lemma {:induction false} ExecutionSlice(lang: Language, run: seq<Step>, trace: seq<State>, id: string)
    requires Execution(lang, run, trace) && Filed(trace[0])
    ensures ViewOf(trace[|run|], id) ==
            Then(ViewOf(trace[0], id), SliceRun(lang, id, SliceOf(trace[0], id), run))
    decreases |run|
  {
    if run == [] {
      ThenNothing(ViewOf(trace[0], id));
    } else {
      var n := |run| - 1;
      var (sl, earlier) := SliceRun(lang, id, SliceOf(trace[0], id), run[..n]);
      ExecutionSlice(lang, run[..n], trace[..n + 1], id);
      ExecutionIsFiled(lang, run, trace, n);
      NextSlice(lang, trace[n], run[n], trace[n + 1], id);
      ThenThen(ViewOf(trace[0], id), sl, earlier, ViewOf(trace[n], id), SliceStep(lang, id, sl, run[n]),
               ViewOf(trace[n + 1], id));
    }
  }
}
