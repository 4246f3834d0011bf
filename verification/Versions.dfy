/** The version of a rule that the engine runs, against the rule as it was submitted: what is kept of it,
    and which messages a scope or a list of dependencies asks for. */
module Versions {
  import opened Common
  import opened Payloads
  import opened Dispatch
  import opened Evaluation
  import opened EngineSpec
  import opened Coverage

  /** The rule is written for one stream, without dependencies. */
  predicate Scoped(rule: Rule) {
    rule.scope.Some? && rule.dependencies == []
  }

  /** `d` is the dependency that the scope of the rule stands for. */
  predicate StandsForScope(d: Dependency, rule: Rule)
    requires Scoped(rule)
  {
    var scope := rule.scope.value;
    && d.alias == "default" && d.window.None? && d.source == rule.source
    && d.cameraId == scope.cameraId && d.roiId == scope.roiId && d.eventKind == scope.eventKind
  }

  /** `active` runs the submitted rule: everything but the dependencies is as submitted, the program is
      its expression's, and the dependencies are those declared or the one its scope stands for. */
  predicate Runs(lang: Language, active: ActiveRule, rule: Rule) {
    && active.rule.(dependencies := rule.dependencies) == rule
    && Some(active.program) == lang.compile(rule.expression)
    && if Scoped(rule)
       then |active.rule.dependencies| == 1 && StandsForScope(active.rule.dependencies[0], rule)
       else active.rule.dependencies == rule.dependencies
  }

  lemma RegisteredRuns(lang: Language, s: State, rule: Rule)
    requires Accepted(lang, rule)
    ensures var t := Register(lang, s, rule); rule.id in t.rules && Runs(lang, t.rules[rule.id], rule)
  {
  }

  /** The last version of rule `id` accepted in the first `n` steps, if it was not removed since. */
  function LastAccepted(lang: Language, run: seq<Step>, n: nat, id: string): Option<Rule>
    requires n <= |run|
  {
    if n == 0 then None
    else
      var before := LastAccepted(lang, run, n - 1, id);
      match run[n - 1].action
      case RegisterRule(rule) => if rule.id == id && Accepted(lang, rule) then Some(rule) else before
      case UnregisterRule(r) => if r == id then None else before
      case UpdateRule(rule) =>
        if rule.id != id then before else if Accepted(lang, rule) then Some(rule) else None
      case _ => before
  }

  /** The engine runs this version of rule `id`, or none. */
  ghost predicate RunsVersion(lang: Language, s: State, id: string, version: Option<Rule>) {
    if version.None? then id !in s.rules else id in s.rules && Runs(lang, s.rules[id], version.value)
  }

  lemma RegisterRunsVersion(lang: Language, s: State, rule: Rule, id: string, before: Option<Rule>)
    requires RunsVersion(lang, s, id, before)
    ensures RunsVersion(lang, Register(lang, s, rule), id,
                        if rule.id == id && Accepted(lang, rule) then Some(rule) else before)
  {
    if Accepted(lang, rule) {
      RegisteredRuns(lang, s, rule);
    }
  }

  lemma NextRunsVersion(lang: Language, run: seq<Step>, trace: seq<State>, n: nat, id: string)
    requires Execution(lang, run, trace) && n < |run|
    requires RunsVersion(lang, trace[n], id, LastAccepted(lang, run, n, id))
    ensures RunsVersion(lang, trace[n + 1], id, LastAccepted(lang, run, n + 1, id))
  {
    var s, before := trace[n], LastAccepted(lang, run, n, id);
    match run[n].action
    case RegisterRule(rule) => RegisterRunsVersion(lang, s, rule, id, before);
    case UnregisterRule(r) =>
    case UpdateRule(rule) =>
      RegisterRunsVersion(lang, Unregister(s, rule.id), rule, id, if rule.id == id then None else before);
    case _ => MessagesKeepRules(lang, s, run[n], trace[n + 1]);
  }

  /** After any run from the empty engine a rule is active if and only if a version of it was accepted
      since its last removal, and the last of these is what runs. */
  lemma EngineRunsLastAccepted(lang: Language, run: seq<Step>, trace: seq<State>, n: nat, id: string)
    requires Execution(lang, run, trace) && trace[0] == EMPTY && n <= |run|
    ensures RunsVersion(lang, trace[n], id, LastAccepted(lang, run, n, id))
  {
    for k := 0 to n
      invariant RunsVersion(lang, trace[k], id, LastAccepted(lang, run, k, id))
    {
      NextRunsVersion(lang, run, trace, k, id);
    }
  }

  // ---------------------------------------------------------------------------------------------
  // What a submitted rule asks for
  // ---------------------------------------------------------------------------------------------

  /** The rule as submitted asks for the snapshots of this region. */
  ghost predicate SubmittedForState(rule: Rule, cameraId: string, roiId: string) {
    if Scoped(rule) then
      && rule.source == "state" && rule.scope.value.eventKind == "" && rule.scope.value.cameraId == cameraId
      && (rule.scope.value.roiId == roiId || rule.scope.value.roiId == "")
    else exists d :: d in rule.dependencies && AsksForState(d, cameraId, roiId)
  }

  /** The rule as submitted asks for the events of this kind. */
  ghost predicate SubmittedForEvent(rule: Rule, cameraId: string, eventKind: string) {
    if Scoped(rule) then
      && rule.source == "event" && rule.scope.value.roiId == "" && rule.scope.value.cameraId == cameraId
      && (rule.scope.value.eventKind in {eventKind, "", "*"})
    else exists d :: d in rule.dependencies && AsksForEvent(d, cameraId, eventKind)
  }

  lemma ScanIsSubmitted(lang: Language, s: State, id: string, rule: Rule, cameraId: string, roiId: string,
                        eventKind: string)
    requires id in s.rules && Runs(lang, s.rules[id], rule)
    ensures ScannedForState(s, id, cameraId, roiId) <==> SubmittedForState(rule, cameraId, roiId)
    ensures ScannedForEvent(s, id, cameraId, eventKind) <==> SubmittedForEvent(rule, cameraId, eventKind)
  {
    var deps := s.rules[id].rule.dependencies;
    if Scoped(rule) {
      assert deps[0] in deps && forall d :: d in deps ==> d == deps[0];
    }
  }

  /** A rule registered for the first time, scoped or with dependencies, is dispatched to exactly the
      snapshots and the events that it asks for as submitted. */
  lemma RegisteredIsDispatchedIff(lang: Language, s: State, rule: Rule, cameraId: string, roiId: string,
                                  eventKind: string)
    requires Accepted(lang, rule) && KeysOf(s.index, rule.id) == {}
    ensures var t := Register(lang, s, rule);
            && (rule.id in StateTargets(t, cameraId, roiId) <==> SubmittedForState(rule, cameraId, roiId))
            && (rule.id in EventTargets(t, cameraId, eventKind) <==> SubmittedForEvent(rule, cameraId, eventKind))
  {
    var t := Register(lang, s, rule);
    RegisteredRuns(lang, s, rule);
    RegisterKeys(lang, s, rule, rule.id);
    assert ExactFor(t, rule.id);
    StateDispatchAgreesWithScan(t, rule.id, cameraId, roiId);
    EventDispatchAgreesWithScan(t, rule.id, cameraId, eventKind);
    ScanIsSubmitted(lang, t, rule.id, rule, cameraId, roiId, eventKind);
  }

  /** After any run dispatch misses nothing that the last accepted version asks for as submitted, and it
      selects nothing else when the index is exact for the rule. */
  lemma {:induction false} DispatchFollowsSubmission(lang: Language, run: seq<Step>, trace: seq<State>, n: nat,
                                                    id: string, rule: Rule, cameraId: string, roiId: string,
                                                    eventKind: string)
    requires Execution(lang, run, trace) && trace[0] == EMPTY && n <= |run|
    requires LastAccepted(lang, run, n, id) == Some(rule)
    ensures SubmittedForState(rule, cameraId, roiId) ==> id in StateTargets(trace[n], cameraId, roiId)
    ensures SubmittedForEvent(rule, cameraId, eventKind) ==> id in EventTargets(trace[n], cameraId, eventKind)
    ensures ExactFor(trace[n], id) ==>
              && (id in StateTargets(trace[n], cameraId, roiId) <==> SubmittedForState(rule, cameraId, roiId))
              && (id in EventTargets(trace[n], cameraId, eventKind) <==> SubmittedForEvent(rule, cameraId, eventKind))
  {
    EngineRunsLastAccepted(lang, run, trace, n, id);
    ExecutionCovers(lang, run, trace, n);
    StateDispatchAgreesWithScan(trace[n], id, cameraId, roiId);
    EventDispatchAgreesWithScan(trace[n], id, cameraId, eventKind);
    ScanIsSubmitted(lang, trace[n], id, rule, cameraId, roiId, eventKind);
  }
}
