/** The dispatch index against a full scan of the active rules. */
module Coverage {
  import opened Common
  import opened Payloads
  import opened Dispatch
  import opened Evaluation
  import opened EngineSpec

  /** The dependency asks for snapshots of this region, or of any region of the camera. */
  predicate AsksForState(d: Dependency, cameraId: string, roiId: string) {
    && d.cameraId == cameraId && d.source == "state" && d.eventKind == ""
    && (d.roiId == roiId || d.roiId == "")
  }

  /** The dependency asks for events of this kind, or of any kind; only with an empty region. */
  predicate AsksForEvent(d: Dependency, cameraId: string, eventKind: string) {
    && d.cameraId == cameraId && d.source == "event" && d.roiId == ""
    && (d.eventKind == eventKind || d.eventKind == "" || d.eventKind == "*")
  }

  ghost predicate ScannedForState(s: State, id: string, cameraId: string, roiId: string) {
    id in s.rules && exists d :: d in s.rules[id].rule.dependencies && AsksForState(d, cameraId, roiId)
  }

  ghost predicate ScannedForEvent(s: State, id: string, cameraId: string, eventKind: string) {
    id in s.rules && exists d :: d in s.rules[id].rule.dependencies && AsksForEvent(d, cameraId, eventKind)
  }

  ghost function RuleKeys(rule: Rule): set<DepKey> {
    DepKeys(rule.Converted().dependencies)
  }

  ghost function Wanted(rule: Option<ActiveRule>): set<DepKey> {
    if rule.Some? then DepKeys(rule.value.rule.dependencies) else {}
  }

  /** No dependency of an active rule is missing from the index. */
  ghost predicate Covered(s: State) {
    forall id :: Wanted(Lookup(s.rules, id)) <= KeysOf(s.index, id)
  }

  /** The index holds the dependencies of this rule, if it is active, and nothing else for it. */
  ghost predicate ExactFor(s: State, id: string) {
    Wanted(Lookup(s.rules, id)) == KeysOf(s.index, id)
  }

  ghost predicate Exact(s: State) {
    forall id :: ExactFor(s, id)
  }

  /** The action registers an active rule again, in place, and drops a dependency on the way. */
  ghost predicate Shrinks(lang: Language, s: State, action: Action) {
    && action.RegisterRule?
    && Accepted(lang, action.rule)
    && !(Wanted(Lookup(s.rules, action.rule.id)) <= RuleKeys(action.rule))
  }

  lemma RegisterKeys(lang: Language, s: State, rule: Rule, id: string)
    ensures KeysOf(Register(lang, s, rule).index, id) ==
            KeysOf(s.index, id) + if rule.id == id && Accepted(lang, rule) then RuleKeys(rule) else {}
  {
    RegisterAddsKeys(s.index, rule.id, rule.Converted().dependencies, id);
  }

  /** What a registration does to the index entries and the version of one rule. */
  lemma RegisterFor(lang: Language, s: State, rule: Rule, id: string)
    requires Wanted(Lookup(s.rules, id)) <= KeysOf(s.index, id)
    ensures var t := Register(lang, s, rule);
            && Wanted(Lookup(t.rules, id)) <= KeysOf(t.index, id)
            && (ExactFor(s, id) ==>
                  (ExactFor(t, id) <==> !(rule.id == id && Shrinks(lang, s, RegisterRule(rule)))))
  {
    RegisterKeys(lang, s, rule, id);
    if rule.id == id && Accepted(lang, rule) {
      assert Wanted(Lookup(Register(lang, s, rule).rules, id)) == RuleKeys(rule);
    }
  }

  lemma RegisterCovers(lang: Language, s: State, rule: Rule)
    requires Covered(s)
    ensures Covered(Register(lang, s, rule))
    ensures Exact(s) ==> (Exact(Register(lang, s, rule)) <==> !Shrinks(lang, s, RegisterRule(rule)))
  {
    var t := Register(lang, s, rule);
    forall id
      ensures Wanted(Lookup(t.rules, id)) <= KeysOf(t.index, id)
      ensures ExactFor(s, id) ==>
                (ExactFor(t, id) <==> !(rule.id == id && Shrinks(lang, s, RegisterRule(rule))))
    {
      RegisterFor(lang, s, rule, id);
    }
    if Exact(s) {
      assert ExactFor(s, rule.id);
    }
  }

  lemma UnregisterCovers(s: State, r: string)
    requires Covered(s)
    ensures Covered(Unregister(s, r)) && (Exact(s) ==> Exact(Unregister(s, r)))
  {
    var t := Unregister(s, r);
    forall id
      ensures Wanted(Lookup(t.rules, id)) <= KeysOf(t.index, id) && (ExactFor(s, id) ==> ExactFor(t, id))
    {
      UnregisterRemovesKeys(s.index, r, id);
    }
  }

  lemma UpdateCovers(lang: Language, s: State, rule: Rule)
    requires Covered(s)
    ensures Covered(Update(lang, s, rule)) && (Exact(s) ==> Exact(Update(lang, s, rule)))
  {
    UnregisterCovers(s, rule.id);
    RegisterCovers(lang, Unregister(s, rule.id), rule);
  }

  lemma MessageCovers(s: State, t: State)
    requires t.rules == s.rules && t.index == s.index
    ensures (Covered(s) ==> Covered(t)) && (Exact(s) <==> Exact(t))
  {
    assert forall id :: ExactFor(s, id) == ExactFor(t, id);
  }

  /** Every step keeps the index covering, and an exact index stays exact precisely when the step is
      not an in-place registration that drops a dependency. Updating goes through removal, so it
      never is. */
  lemma NextCovers(lang: Language, s: State, step: Step, t: State)
    requires Covered(s) && Next(lang, s, step, t)
    ensures Covered(t)
    ensures Exact(s) ==> (Exact(t) <==> !Shrinks(lang, s, step.action))
  {
    match step.action
    case RegisterRule(rule) => RegisterCovers(lang, s, rule);
    case UnregisterRule(r) => UnregisterCovers(s, r);
    case UpdateRule(rule) => UpdateCovers(lang, s, rule);
    case _ =>
      MessagesKeepRules(lang, s, step, t);
      MessageCovers(s, t);
  }

  lemma {:induction false} ExecutionCovers(lang: Language, run: seq<Step>, trace: seq<State>, n: nat)
    requires Execution(lang, run, trace) && trace[0] == EMPTY && n <= |run|
    ensures Covered(trace[n])
  {
    if n > 0 {
      ExecutionCovers(lang, run, trace, n - 1);
      NextCovers(lang, trace[n - 1], run[n - 1], trace[n]);
    }
  }

  // ---------------------------------------------------------------------------------------------
  // What the index holds after a run
  // ---------------------------------------------------------------------------------------------

  /** The keys held for rule `id` after an action, given those before it. */
  ghost function StepKeys(lang: Language, before: set<DepKey>, action: Action, id: string): set<DepKey> {
    match action
    case RegisterRule(rule) => if rule.id == id && Accepted(lang, rule) then before + RuleKeys(rule) else before
    case UnregisterRule(r) => if r == id then {} else before
    case UpdateRule(rule) => if rule.id != id then before else if Accepted(lang, rule) then RuleKeys(rule) else {}
    case _ => before
  }

  /** The dependency keys of all versions of a rule accepted since its last removal in the first `n` steps. */
  ghost function RegisteredSince(lang: Language, run: seq<Step>, n: nat, id: string): set<DepKey>
    requires n <= |run|
  {
    if n == 0 then {} else StepKeys(lang, RegisteredSince(lang, run, n - 1, id), run[n - 1].action, id)
  }

  lemma NextKeys(lang: Language, s: State, step: Step, t: State, id: string)
    requires Next(lang, s, step, t)
    ensures KeysOf(t.index, id) == StepKeys(lang, KeysOf(s.index, id), step.action, id)
  {
    match step.action
    case RegisterRule(rule) => RegisterKeys(lang, s, rule, id);
    case UnregisterRule(r) => UnregisterRemovesKeys(s.index, r, id);
    case UpdateRule(rule) =>
      UnregisterRemovesKeys(s.index, rule.id, id);
      RegisterKeys(lang, Unregister(s, rule.id), rule, id);
    case _ => MessagesKeepRules(lang, s, step, t);
  }

  lemma KeysAreRegistered(lang: Language, run: seq<Step>, trace: seq<State>, n: nat, id: string)
    requires Execution(lang, run, trace) && trace[0] == EMPTY && n <= |run|
    ensures KeysOf(trace[n].index, id) == RegisteredSince(lang, run, n, id)
  {
    for k := 0 to n
      invariant KeysOf(trace[k].index, id) == RegisteredSince(lang, run, k, id)
    {
      NextKeys(lang, trace[k], run[k], trace[k + 1], id);
    }
  }

  // ---------------------------------------------------------------------------------------------
  // Dispatch
  // ---------------------------------------------------------------------------------------------

  /** No active rule that a scan selects for a snapshot is missed, and no other is selected when the
      index is exact for it. */
  lemma StateDispatchAgreesWithScan(s: State, id: string, cameraId: string, roiId: string)
    ensures Covered(s) && ScannedForState(s, id, cameraId, roiId) ==> id in StateTargets(s, cameraId, roiId)
    ensures ExactFor(s, id) ==>
              (id in StateTargets(s, cameraId, roiId) <==> ScannedForState(s, id, cameraId, roiId))
  {
    assert id in s.rules ==>
      (id in StateTargets(s, cameraId, roiId) <==>
         StateKey(cameraId, roiId) in KeysOf(s.index, id) || StateKey(cameraId, "") in KeysOf(s.index, id));
    assert ScannedForState(s, id, cameraId, roiId) <==>
      id in s.rules && (StateKey(cameraId, roiId) in Wanted(Lookup(s.rules, id))
                        || StateKey(cameraId, "") in Wanted(Lookup(s.rules, id)));
  }

  /** The same for events. In particular an event dependency with a region is never dispatched to. */
  lemma EventDispatchAgreesWithScan(s: State, id: string, cameraId: string, eventKind: string)
    ensures Covered(s) && ScannedForEvent(s, id, cameraId, eventKind) ==> id in EventTargets(s, cameraId, eventKind)
    ensures ExactFor(s, id) ==>
              (id in EventTargets(s, cameraId, eventKind) <==> ScannedForEvent(s, id, cameraId, eventKind))
  {
    assert id in s.rules ==>
      (id in EventTargets(s, cameraId, eventKind) <==>
         || EventKey(cameraId, eventKind) in KeysOf(s.index, id) || EventKey(cameraId, "") in KeysOf(s.index, id)
         || EventKey(cameraId, "*") in KeysOf(s.index, id));
    assert ScannedForEvent(s, id, cameraId, eventKind) <==>
      && id in s.rules
      && var w := Wanted(Lookup(s.rules, id));
         EventKey(cameraId, eventKind) in w || EventKey(cameraId, "") in w || EventKey(cameraId, "*") in w;
  }

  /** After any run from the empty engine, for any rule: dispatch misses nothing that a scan of the
      active rules selects. The index is exact for the rule if and only if the versions accepted since
      its last removal ask for nothing that the current one does not, and then dispatch selects it for
      precisely the snapshots and events that the scan does. */
  lemma DispatchAfterAnyRun(lang: Language, run: seq<Step>, trace: seq<State>, n: nat, id: string, cameraId: string,
                            roiId: string, eventKind: string)
    requires Execution(lang, run, trace) && trace[0] == EMPTY && n <= |run|
    ensures var s, keys := trace[n], RegisteredSince(lang, run, n, id);
            var current := Wanted(Lookup(s.rules, id));
            && (ScannedForState(s, id, cameraId, roiId) ==> id in StateTargets(s, cameraId, roiId))
            && (ScannedForEvent(s, id, cameraId, eventKind) ==> id in EventTargets(s, cameraId, eventKind))
            && current <= keys
            && (ExactFor(s, id) <==> keys == current)
            && (keys == current ==>
                  && (id in StateTargets(s, cameraId, roiId) <==> ScannedForState(s, id, cameraId, roiId))
                  && (id in EventTargets(s, cameraId, eventKind) <==> ScannedForEvent(s, id, cameraId, eventKind)))
  {
    ExecutionCovers(lang, run, trace, n);
    KeysAreRegistered(lang, run, trace, n, id);
    StateDispatchAgreesWithScan(trace[n], id, cameraId, roiId);
    EventDispatchAgreesWithScan(trace[n], id, cameraId, eventKind);
  }

  // ---------------------------------------------------------------------------------------------
  // Departures
  // ---------------------------------------------------------------------------------------------

  /** What an event dependency says, read like a state dependency: this camera, this region or any, this
      kind or any. */
  predicate Promises(d: Dependency, cameraId: string, roiId: string, eventKind: string) {
    && d.cameraId == cameraId && d.source == "event"
    && (d.roiId == roiId || d.roiId == "")
    && (d.eventKind == eventKind || d.eventKind == "" || d.eventKind == "*")
  }

  ghost predicate PromisedEvent(s: State, id: string, cameraId: string, roiId: string, eventKind: string) {
    id in s.rules && exists d :: d in s.rules[id].rule.dependencies && Promises(d, cameraId, roiId, eventKind)
  }

  /** Exactly when dispatch keeps less than a dependency says: an event is kept from a rule that names
      it if and only if every dependency that names it does so with a region. */
  lemma EventIsMissedIff(s: State, id: string, cameraId: string, roiId: string, eventKind: string)
    requires ExactFor(s, id) && PromisedEvent(s, id, cameraId, roiId, eventKind)
    ensures id !in EventTargets(s, cameraId, eventKind) <==>
            forall d :: d in s.rules[id].rule.dependencies && Promises(d, cameraId, roiId, eventKind) ==> d.roiId != ""
  {
    EventDispatchAgreesWithScan(s, id, cameraId, eventKind);
    if d :| d in s.rules[id].rule.dependencies && AsksForEvent(d, cameraId, eventKind) {
      assert Promises(d, cameraId, roiId, eventKind);
    }
  }

  lemma RegisteredAlone(lang: Language, s: State, rule: Rule, d: Dependency)
    requires Accepted(lang, rule) && rule.Converted().dependencies == [d] && KeysOf(s.index, rule.id) == {}
    ensures var t := Register(lang, s, rule);
            && rule.id in t.rules && t.rules[rule.id].rule.dependencies == [d]
            && KeysOf(t.index, rule.id) == Wanted(Lookup(t.rules, rule.id)) == {KeyOf(d)}
  {
    RegisterKeys(lang, s, rule, rule.id);
    assert DepKeys([d]) == {KeyOf(d)} by {
      assert d in [d];
    }
  }

  /** An input: a rule whose one dependency is on the events of a region is evaluated on no event. */
  lemma RegionalEventRuleIsDeaf(lang: Language, rule: Rule, d: Dependency, cameraId: string, eventKind: string)
    requires Accepted(lang, rule) && rule.Converted().dependencies == [d]
    requires d.source == "event" && d.roiId != ""
    ensures var s := Register(lang, EMPTY, rule);
            && PromisedEvent(s, rule.id, d.cameraId, d.roiId, d.eventKind)
            && rule.id !in EventTargets(s, cameraId, eventKind)
  {
    var s := Register(lang, EMPTY, rule);
    assert KeysOf(EMPTY.index, rule.id) == {};
    RegisteredAlone(lang, EMPTY, rule, d);
    EventDispatchAgreesWithScan(s, rule.id, cameraId, eventKind);
    assert d in s.rules[rule.id].rule.dependencies && Promises(d, d.cameraId, d.roiId, d.eventKind);
  }

  /** An input: after a rule on one region is registered again for another camera, snapshots of the
      region it no longer asks for still reach it. */
  lemma DroppedRegionStillReaches(lang: Language, first: Rule, second: Rule, d: Dependency, e: Dependency)
    requires Accepted(lang, first) && first.Converted().dependencies == [d]
    requires Accepted(lang, second) && second.Converted().dependencies == [e] && second.id == first.id
    requires KeyOf(d) == StateKey(d.cameraId, d.roiId) && e.cameraId != d.cameraId
    ensures var s := Register(lang, Register(lang, EMPTY, first), second);
            && first.id in StateTargets(s, d.cameraId, d.roiId)
            && !ScannedForState(s, first.id, d.cameraId, d.roiId)
  {
    var s := Register(lang, EMPTY, first);
    assert KeysOf(EMPTY.index, first.id) == {};
    RegisteredAlone(lang, EMPTY, first, d);
    RegisterKeys(lang, s, second, first.id);
    var t := Register(lang, s, second);
    assert StateKey(d.cameraId, d.roiId) in KeysOf(t.index, first.id);
    assert t.rules[first.id].rule.dependencies == [e];
  }
}
