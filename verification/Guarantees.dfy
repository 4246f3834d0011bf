/** The guarantees of the trigger machine, carried over to the engine's log: what fires, what is kept
    apart, and which alarms are missed. A rule may be registered again in place at any time. */
module Guarantees {
  import opened Common
  import opened Payloads
  import opened Evaluation
  import opened EngineSpec
  import opened Slices
  import opened Hearings
  import T = Trigger
  import TriggerRuns

  // ---------------------------------------------------------------------------------------------
  // Times and configurations of what is heard
  // ---------------------------------------------------------------------------------------------

  /** The emission time of a message. */
  function MessageTime(step: Step): Option<int> {
    match step.action
    case PostState(p) => Some(p.emittedAt)
    case PostEvent(event) => Some(event.emittedAt)
    case _ => None
  }

  ghost predicate NonZeroMessages(run: seq<Step>, m: nat, n: nat) {
    forall k :: m <= k < n && k < |run| ==> MessageTime(run[k]) != Some(0)
  }

  ghost predicate PositiveMessages(run: seq<Step>, m: nat, n: nat) {
    forall k :: m <= k < n && k < |run| && MessageTime(run[k]).Some? ==> MessageTime(run[k]).value > 0
  }

  ghost predicate OrderedMessages(run: seq<Step>, m: nat, n: nat) {
    forall i, j :: m <= i <= j < n && j < |run| && MessageTime(run[i]).Some? && MessageTime(run[j]).Some? ==>
      MessageTime(run[i]).value <= MessageTime(run[j]).value
  }

  /** The message comes from this place. */
  ghost predicate MessageFrom(step: Step, cameraId: string, roiId: string) {
    match step.action
    case PostState(p) => p.camera == cameraId && exists region :: region in p.regions && region.roiId == roiId
    case PostEvent(event) => event.camera == cameraId && event.roiId == roiId
    case _ => false
  }

  /** The record says which rule fired, and on what message. */
  ghost predicate Records(f: Firing, r: Rule, step: Step) {
    && f.ruleId == r.id && f.ruleName == r.name && f.actionType == r.actionType && f.source == r.source
    && MessageTime(step) == Some(f.triggeredAt) && MessageFrom(step, f.cameraId, f.roiId)
  }

  /** The trigger machine is run with what the rule asks for. */
  predicate Configures(c: T.Config, r: Rule) {
    c.mode == r.mode && c.cooldown == r.cooldownSeconds && c.sustain == r.sustain
  }

  /** The hearing is one of this rule on this message. */
  ghost predicate IsFrom(x: Hearing, r: Rule, step: Step) {
    && Configures(x.evaluation.config, r) && MessageTime(step) == Some(x.evaluation.at)
    && Records(x.firing, r, step)
  }

  ghost predicate AllFrom(hs: seq<Hearing>, r: Rule, step: Step) {
    forall i :: 0 <= i < |hs| ==> IsFrom(hs[i], r, step)
  }

  lemma HearingIsFrom(lang: Language, sl: Slice, fed: Local, at: int, cameraId: string, roiId: string, now: int,
                      step: Step)
    requires sl.rule.Some? && MessageTime(step) == Some(at) && MessageFrom(step, cameraId, roiId)
    ensures IsFrom(HearingOf(lang, sl, fed, at, cameraId, roiId, now), sl.rule.value.rule, step)
  {
  }

  lemma RegionIsFrom(lang: Language, sl: Slice, p: StatePayload, i: nat, now: int, step: Step)
    requires i < |p.regions| && sl.rule.Some? && step.action == PostState(p)
    ensures AllFrom(HeardRegion(lang, sl, p.camera, p.regions[i], p.emittedAt, now), sl.rule.value.rule, step)
  {
    var region := p.regions[i];
    assert region in p.regions && MessageFrom(step, p.camera, region.roiId);
    HearingIsFrom(lang, SliceObserve(sl, p.camera, region, p.emittedAt, now),
                  FedState(sl.local, sl.rule.value, SnapshotOf(p.camera, region, p.emittedAt)), p.emittedAt, p.camera,
                  region.roiId, now, step);
  }

  lemma AllFromJoin(hs: seq<Hearing>, more: seq<Hearing>, r: Rule, step: Step)
    requires AllFrom(hs, r, step) && AllFrom(more, r, step)
    ensures AllFrom(hs + more, r, step)
  {
  }

  lemma {:induction false} RegionsAreFrom(lang: Language, sl: Slice, p: StatePayload, n: nat, now: int, step: Step)
    requires n <= |p.regions| && step.action == PostState(p)
    ensures HeardRegions(lang, sl, p, n, now) != [] ==> sl.rule.Some?
    ensures sl.rule.Some? ==> AllFrom(HeardRegions(lang, sl, p, n, now), sl.rule.value.rule, step)
  {
    if n > 0 {
      RegionsAreFrom(lang, sl, p, n - 1, now, step);
      RoundsKeepRule(lang, sl, p, n - 1, now);
      if sl.rule.Some? {
        var before := Fold(OneRegion(lang, p, now), sl, n - 1).0;
        RegionIsFrom(lang, before, p, n - 1, now, step);
        AllFromJoin(HeardRegions(lang, sl, p, n - 1, now), HeardOne(lang, p, now)(before, n - 1), sl.rule.value.rule,
                    step);
      }
    }
  }

  lemma StepIsFrom(lang: Language, sl: Slice, step: Step)
    ensures HeardStep(lang, sl, step) != [] ==> sl.rule.Some? && MessageTime(step).Some?
    ensures sl.rule.Some? ==> AllFrom(HeardStep(lang, sl, step), sl.rule.value.rule, step)
  {
    match step.action
    case PostState(p) => RegionsAreFrom(lang, sl, p, |p.regions|, step.now, step);
    case PostEvent(event) =>
      if WantsEvent(sl, event.camera, event.kind) {
        HearingIsFrom(lang, sl, FedEvent(sl.local, sl.rule.value, EntryOf(event)), event.emittedAt, event.camera,
                      event.roiId, step.now, step);
      }
    case _ =>
  }

  /** What a step of a run heard satisfies `ok`. */
  ghost predicate AllOk(hs: seq<Hearing>, ok: Hearing -> bool) {
    forall i :: 0 <= i < |hs| ==> ok(hs[i])
  }

  lemma {:induction false} JoinedOk(parts: seq<seq<Hearing>>, m: nat, n: nat, ok: Hearing -> bool)
    requires m <= n <= |parts| && forall k :: m <= k < n ==> AllOk(parts[k], ok)
    ensures AllOk(Joined(parts, m, n), ok)
  {
    if n > m {
      JoinedOk(parts, m, n - 1, ok);
    }
  }

  /** `times` bounds what each part says from below and from above; then the whole is in order. */
  ghost predicate PartAt(part: seq<Hearing>, at: Option<int>) {
    forall i :: 0 <= i < |part| ==> at == Some(part[i].evaluation.at)
  }

  ghost predicate Before(hs: seq<Hearing>, at: int) {
    forall i :: 0 <= i < |hs| ==> hs[i].evaluation.at <= at
  }

  lemma {:induction false} JoinedBefore(parts: seq<seq<Hearing>>, times: seq<Option<int>>, m: nat, n: nat, at: int)
    requires m <= n <= |parts| && |times| == |parts| && forall k :: m <= k < n ==> PartAt(parts[k], times[k])
    requires forall k :: m <= k < n && times[k].Some? ==> times[k].value <= at
    ensures Before(Joined(parts, m, n), at)
  {
    if n > m {
      JoinedBefore(parts, times, m, n - 1, at);
      assert PartAt(parts[n - 1], times[n - 1]);
    }
  }

  lemma {:induction false} JoinedOrdered(parts: seq<seq<Hearing>>, times: seq<Option<int>>, m: nat, n: nat)
    requires m <= n <= |parts| && |times| == |parts| && forall k :: m <= k < n ==> PartAt(parts[k], times[k])
    requires forall i, j :: m <= i <= j < n && times[i].Some? && times[j].Some? ==> times[i].value <= times[j].value
    ensures T.OrderedTimes(Evaluations(Joined(parts, m, n)))
  {
    if n > m {
      JoinedOrdered(parts, times, m, n - 1);
      var hs, part := Joined(parts, m, n - 1), parts[n - 1];
      assert PartAt(part, times[n - 1]);
      if part != [] {
        JoinedBefore(parts, times, m, n - 1, part[0].evaluation.at);
        OrderedAppend(hs, part, part[0].evaluation.at);
      } else {
        assert hs + part == hs;
      }
    }
  }

  lemma OrderedAppend(hs: seq<Hearing>, part: seq<Hearing>, at: int)
    requires T.OrderedTimes(Evaluations(hs)) && Before(hs, at) && PartAt(part, Some(at))
    ensures T.OrderedTimes(Evaluations(hs + part))
  {
    var h, g := Evaluations(hs), Evaluations(hs + part);
    assert forall i :: 0 <= i < |hs| ==> g[i] == h[i] && h[i].at <= at;
    assert forall i :: |hs| <= i < |g| ==> g[i].at == at;
  }

  /** The version of the rule that a stretch begins with, and every version accepted in its course
      satisfies `ok`. */
  ghost predicate Configured(lang: Language, id: string, run: seq<Step>, trace: seq<State>, m: nat, n: nat,
                             ok: Rule -> bool)
    requires m <= n <= |run| && |trace| == |run| + 1
  {
    RuleOk(trace[m], id, ok) && forall k :: m <= k < n ==> ActionOk(lang, run[k].action, id, ok)
  }

  predicate ActionOk(lang: Language, action: Action, id: string, ok: Rule -> bool) {
    action.RegisterRule? && action.rule.id == id && Accepted(lang, action.rule) ==> ok(action.rule.Converted())
  }

  ghost predicate RuleOk(s: State, id: string, ok: Rule -> bool) {
    id in s.rules ==> ok(s.rules[id].rule)
  }

  /** The version of rule `id` after an action, given the one before. */
  function StepRule(lang: Language, rule: Option<ActiveRule>, action: Action, id: string): Option<ActiveRule> {
    match action
    case RegisterRule(r) =>
      if r.id == id && Accepted(lang, r)
      then Some(ActiveRule(r.Converted(), lang.compile(r.expression).value)) else rule
    case _ => rule
  }

  lemma RegisterVersion(lang: Language, s: State, rule: Rule, id: string)
    ensures Lookup(Register(lang, s, rule).rules, id) ==
            StepRule(lang, Lookup(s.rules, id), RegisterRule(rule), id)
  {
  }

  lemma OthersStay(lang: Language, s: State, rule: Rule, r: string, id: string)
    requires r != id
    ensures Lookup(Unregister(s, r).rules, id) == Lookup(s.rules, id)
    ensures rule.id == r ==> Lookup(Update(lang, s, rule).rules, id) == Lookup(s.rules, id)
  {
    RegisterVersion(lang, Unregister(s, r), rule, id);
  }

  lemma NextRule(lang: Language, s: State, step: Step, t: State, id: string)
    requires Next(lang, s, step, t) && !Removes(step.action, id)
    ensures Lookup(t.rules, id) == StepRule(lang, Lookup(s.rules, id), step.action, id)
  {
    match step.action
    case RegisterRule(rule) => RegisterVersion(lang, s, rule, id);
    case UnregisterRule(r) => assert Lookup(t.rules, id) == Lookup(s.rules, id);
    case UpdateRule(rule) => OthersStay(lang, s, rule, rule.id, id);
    case _ => MessagesKeepRules(lang, s, step, t);
  }

  lemma NextRuleOk(lang: Language, s: State, step: Step, t: State, id: string, ok: Rule -> bool)
    requires Next(lang, s, step, t) && !Removes(step.action, id) && RuleOk(s, id, ok)
    requires ActionOk(lang, step.action, id, ok)
    ensures RuleOk(t, id, ok)
  {
    NextRule(lang, s, step, t, id);
    RuleOkAfter(lang, Lookup(s.rules, id), step.action, id, ok, t);
  }

  lemma RuleOkAfter(lang: Language, rule: Option<ActiveRule>, action: Action, id: string, ok: Rule -> bool,
                    t: State)
    requires rule.Some? ==> ok(rule.value.rule)
    requires ActionOk(lang, action, id, ok) && Lookup(t.rules, id) == StepRule(lang, rule, action, id)
    ensures RuleOk(t, id, ok)
  {
  }

  lemma ConfiguredAt(lang: Language, id: string, run: seq<Step>, trace: seq<State>, m: nat, n: nat, k: nat,
                     ok: Rule -> bool)
    requires Stretch(lang, id, run, trace, m, n) && m <= k <= n && Configured(lang, id, run, trace, m, n, ok)
    ensures RuleOk(trace[k], id, ok)
  {
    for j := m to k
      invariant RuleOk(trace[j], id, ok)
    {
      NextRuleOk(lang, trace[j], run[j], trace[j + 1], id, ok);
    }
  }

  // ---------------------------------------------------------------------------------------------
  // Facts about everything heard in a stretch
  // ---------------------------------------------------------------------------------------------

  lemma StretchOk(lang: Language, id: string, run: seq<Step>, trace: seq<State>, m: nat, n: nat, ok: Hearing -> bool)
    requires Stretch(lang, id, run, trace, m, n)
    requires forall k :: m <= k < n ==> AllOk(HeardStep(lang, SliceOf(trace[k], id), run[k]), ok)
    ensures AllOk(Heard(lang, id, run, trace, m, n), ok)
  {
    JoinedOk(HeardAt(lang, id, run, trace), m, n, ok);
  }

  lemma HeardIsPositive(lang: Language, id: string, run: seq<Step>, trace: seq<State>, m: nat, n: nat)
    requires Stretch(lang, id, run, trace, m, n) && PositiveMessages(run, m, n)
    ensures T.PositiveTimes(Evaluations(Heard(lang, id, run, trace, m, n)))
  {
    var ok := (x: Hearing) => x.evaluation.at > 0;
    forall k | m <= k < n
      ensures AllOk(HeardStep(lang, SliceOf(trace[k], id), run[k]), ok)
    {
      StepIsFrom(lang, SliceOf(trace[k], id), run[k]);
    }
    StretchOk(lang, id, run, trace, m, n, ok);
  }

  lemma HeardIsNonZero(lang: Language, id: string, run: seq<Step>, trace: seq<State>, m: nat, n: nat)
    requires Stretch(lang, id, run, trace, m, n) && NonZeroMessages(run, m, n)
    ensures T.NonZeroTimes(Evaluations(Heard(lang, id, run, trace, m, n)))
  {
    var ok := (x: Hearing) => x.evaluation.at != 0;
    forall k | m <= k < n
      ensures AllOk(HeardStep(lang, SliceOf(trace[k], id), run[k]), ok)
    {
      StepIsFrom(lang, SliceOf(trace[k], id), run[k]);
    }
    StretchOk(lang, id, run, trace, m, n, ok);
  }

  lemma HeardIsOrdered(lang: Language, id: string, run: seq<Step>, trace: seq<State>, m: nat, n: nat)
    requires Stretch(lang, id, run, trace, m, n) && OrderedMessages(run, m, n)
    ensures T.OrderedTimes(Evaluations(Heard(lang, id, run, trace, m, n)))
  {
    var parts := HeardAt(lang, id, run, trace);
    var times := seq(|run|, k requires 0 <= k < |run| => MessageTime(run[k]));
    forall k | m <= k < n
      ensures PartAt(parts[k], times[k])
    {
      StepIsFrom(lang, SliceOf(trace[k], id), run[k]);
    }
    JoinedOrdered(parts, times, m, n);
  }

  lemma HeardIsConfigured(lang: Language, id: string, run: seq<Step>, trace: seq<State>, m: nat, n: nat,
                          ok: Rule -> bool, okHeard: T.Config -> bool)
    requires Stretch(lang, id, run, trace, m, n) && Configured(lang, id, run, trace, m, n, ok)
    requires forall c, r: Rule :: Configures(c, r) && ok(r) ==> okHeard(c)
    ensures var h := Evaluations(Heard(lang, id, run, trace, m, n));
            forall i :: 0 <= i < |h| ==> okHeard(h[i].config)
  {
    var fine := (x: Hearing) => okHeard(x.evaluation.config);
    forall k | m <= k < n
      ensures AllOk(HeardStep(lang, SliceOf(trace[k], id), run[k]), fine)
    {
      ConfiguredAt(lang, id, run, trace, m, n, k, ok);
      StepIsFrom(lang, SliceOf(trace[k], id), run[k]);
    }
    StretchOk(lang, id, run, trace, m, n, fine);
  }

  ghost predicate Timed(hs: seq<Hearing>) {
    forall i :: 0 <= i < |hs| ==> hs[i].firing.triggeredAt == hs[i].evaluation.at
  }

  lemma HeardIsTimed(lang: Language, id: string, run: seq<Step>, trace: seq<State>, m: nat, n: nat)
    requires Stretch(lang, id, run, trace, m, n)
    ensures Timed(Heard(lang, id, run, trace, m, n))
  {
    var ok := (x: Hearing) => x.firing.triggeredAt == x.evaluation.at;
    forall k | m <= k < n
      ensures AllOk(HeardStep(lang, SliceOf(trace[k], id), run[k]), ok)
    {
      StepIsFrom(lang, SliceOf(trace[k], id), run[k]);
    }
    StretchOk(lang, id, run, trace, m, n, ok);
  }

  // ---------------------------------------------------------------------------------------------
  // The records and their times
  // ---------------------------------------------------------------------------------------------

  function Times(out: seq<Firing>): seq<int> {
    seq(|out|, i requires 0 <= i < |out| => out[i].triggeredAt)
  }

  lemma TimesExtend(out: seq<Firing>, f: Firing)
    ensures Times(out + [f]) == Times(out) + [f.triggeredAt]
  {
  }

  lemma {:induction false} FiringTimesExtend(h: T.History, e: T.Evaluation, n: nat)
    requires n <= |h|
    ensures T.FiringTimes(h + [e], n) == T.FiringTimes(h, n)
  {
    if n > 0 {
      FiringTimesExtend(h, e, n - 1);
      FiresExtends(h, e, n - 1);
      assert (h + [e])[n - 1] == h[n - 1];
    }
  }

  lemma {:induction false} FiredTimes(hs: seq<Hearing>)
    requires Timed(hs)
    ensures Times(Machine(hs).1) == T.FiringTimes(Evaluations(hs), |hs|)
  {
    if hs != [] {
      var past, x := hs[..|hs| - 1], hs[|hs| - 1];
      FiredTimes(past);
      MachineIsTrigger(past);
      FiredTimesStep(past, x, Evaluations(past));
      assert hs == past + [x];
    }
  }

  lemma {:induction false} FiredTimesStep(past: seq<Hearing>, x: Hearing, h: T.History)
    requires h == Evaluations(past) && Machine(past).0 == T.StateBefore(h, |h|)
    requires Times(Machine(past).1) == T.FiringTimes(h, |h|) && x.firing.triggeredAt == x.evaluation.at
    ensures Times(Machine(past + [x]).1) == T.FiringTimes(Evaluations(past + [x]), |past| + 1)
  {
    assert Evaluations(past + [x]) == h + [x.evaluation];
    MachineStep(past, x);
    StateBeforeExtends(h, x.evaluation, |h|);
    FiringTimesExtend(h, x.evaluation, |h|);
    assert (h + [x.evaluation])[|h|] == x.evaluation;
    TimesExtend(Machine(past).1, x.firing);
  }

  // ---------------------------------------------------------------------------------------------
  // Main results
  // ---------------------------------------------------------------------------------------------

  /** Removing a rule, alone or on the way of an update, begins a stretch, and its windows are gone. */
  lemma RemovalStartsStretch(lang: Language, id: string, run: seq<Step>, trace: seq<State>, k: nat)
    requires Execution(lang, run, trace) && Filed(trace[0]) && k < |run| && Removes(run[k].action, id)
    ensures Stretch(lang, id, run, trace, k + 1, k + 1)
    ensures id !in trace[k + 1].stateWindows && id !in trace[k + 1].eventWindows
  {
    assert Next(lang, trace[k], run[k], trace[k + 1]);
  }

  /** The number of steps up to and including the last of the first `n` that removes rule `id`. */
  function LastRemoval(run: seq<Step>, id: string, n: nat): (m: nat)
    requires n <= |run|
    ensures m <= n && forall k :: m <= k < n ==> !Removes(run[k].action, id)
    ensures m > 0 ==> Removes(run[m - 1].action, id)
  {
    if n == 0 || Removes(run[n - 1].action, id) then n else LastRemoval(run, id, n - 1)
  }

  /** In every run of the engine, what follows the last removal of a rule is a stretch, whatever
      versions of it are registered there. */
  lemma SinceLastRemoval(lang: Language, id: string, run: seq<Step>, trace: seq<State>, n: nat)
    requires Execution(lang, run, trace) && trace[0] == EMPTY && n <= |run|
    ensures Stretch(lang, id, run, trace, LastRemoval(run, id, n), n)
    ensures var s := trace[LastRemoval(run, id, n)]; id !in s.stateWindows && id !in s.eventWindows
  {
    var m := LastRemoval(run, id, n);
    if m > 0 {
      RemovalStartsStretch(lang, id, run, trace, m - 1);
    }
  }

  /** Over a stretch the rule's part of the engine's log grows by the records of exactly those
      evaluations that are due, in the sense of the history alone. Every dispatched message is in that
      history, with the verdict of the rule's dependencies and expression. */
  lemma EngineFiresWhatIsDue(lang: Language, id: string, run: seq<Step>, trace: seq<State>, m: nat, n: nat,
                             hs: seq<Hearing>, due: seq<bool>)
    requires Stretch(lang, id, run, trace, m, n) && NonZeroMessages(run, m, n)
    requires hs == Heard(lang, id, run, trace, m, n) && T.Explains(Evaluations(hs), due)
    ensures LogOf(trace[n].log, id) == LogOf(trace[m].log, id) + Marked(hs, due)
  {
    HeardIsNonZero(lang, id, run, trace, m, n);
    T.ExactRefinement(Evaluations(hs), due);
    LogIsFired(lang, id, run, trace, m, n);
  }

  /** There is one such reading of the history. */
  lemma DueIsExplained(lang: Language, id: string, run: seq<Step>, trace: seq<State>, m: nat, n: nat)
    requires Stretch(lang, id, run, trace, m, n) && NonZeroMessages(run, m, n)
    ensures var h := Evaluations(Heard(lang, id, run, trace, m, n));
            forall due :: T.Explains(h, due) <==> due == T.Firings(h)
  {
    var h := Evaluations(Heard(lang, id, run, trace, m, n));
    HeardIsNonZero(lang, id, run, trace, m, n);
    forall due
      ensures T.Explains(h, due) <==> due == T.Firings(h)
    {
      T.ExactRefinement(h, due);
    }
  }

  lemma {:induction false} LastFires(past: T.History, e: T.Evaluation)
    ensures T.Fires(past + [e], |past|) == T.Step(T.StateBefore(past, |past|), e).1
  {
    StateBeforeExtends(past, e, |past|);
    assert (past + [e])[|past|] == e;
  }

  lemma {:induction false} MachineLast(hs: seq<Hearing>, x: Hearing, h: T.History)
    requires h == Evaluations(hs + [x])
    ensures Machine(hs + [x]).1 == if T.Fires(h, |hs|) then Machine(hs).1 + [x.firing] else Machine(hs).1
  {
    var past := Evaluations(hs);
    assert h == past + [x.evaluation];
    MachineIsTrigger(hs);
    MachineStep(hs, x);
    LastFires(past, x.evaluation);
  }

  lemma LastRecord(past: seq<Hearing>, x: Hearing, h: T.History, base: seq<Firing>, before: seq<Firing>,
                   after: seq<Firing>, fires: bool)
    requires h == Evaluations(past + [x]) && fires == T.Fires(h, |past|)
    requires before == base + Machine(past).1 && after == base + Machine(past + [x]).1
    ensures after == if fires then before + [x.firing] else before
  {
    MachineLast(past, x, h);
    assert base + (Machine(past).1 + [x.firing]) == base + Machine(past).1 + [x.firing];
  }

  lemma HeardNext(lang: Language, id: string, run: seq<Step>, trace: seq<State>, m: nat, k: nat, part: seq<Hearing>)
    requires m <= k < |run| && |trace| == |run| + 1 && HeardStep(lang, SliceOf(trace[k], id), run[k]) == part
    ensures Heard(lang, id, run, trace, m, k + 1) == Heard(lang, id, run, trace, m, k) + part
  {
  }

  lemma StretchShorter(lang: Language, id: string, run: seq<Step>, trace: seq<State>, m: nat, k: nat, n: nat)
    requires Stretch(lang, id, run, trace, m, n) && m <= k <= n
    ensures Stretch(lang, id, run, trace, m, k)
  {
  }

  lemma {:induction false} MessageLog(lang: Language, id: string, run: seq<Step>, trace: seq<State>, m: nat, k: nat,
                                     past: seq<Hearing>, x: Hearing)
    requires m <= k < |run| && Stretch(lang, id, run, trace, m, k + 1)
    requires past == Heard(lang, id, run, trace, m, k) && past + [x] == Heard(lang, id, run, trace, m, k + 1)
    ensures LogOf(trace[k].log, id) == LogOf(trace[m].log, id) + Machine(past).1
    ensures LogOf(trace[k + 1].log, id) == LogOf(trace[m].log, id) + Machine(past + [x]).1
  {
    StretchShorter(lang, id, run, trace, m, k, k + 1);
    MachineRuns(lang, id, run, trace, m, k);
    MachineRuns(lang, id, run, trace, m, k + 1);
  }

  /** A message that a rule hears once is logged if and only if the evaluation it causes is due. */
  lemma MessageFiresIffDue(lang: Language, id: string, run: seq<Step>, trace: seq<State>, m: nat, k: nat,
                           past: seq<Hearing>, x: Hearing)
    requires m <= k < |run| && Stretch(lang, id, run, trace, m, k + 1) && NonZeroMessages(run, m, k + 1)
    requires past == Heard(lang, id, run, trace, m, k) && HeardStep(lang, SliceOf(trace[k], id), run[k]) == [x]
    ensures var h, log := Evaluations(past + [x]), LogOf(trace[k].log, id);
            LogOf(trace[k + 1].log, id) == if T.Due(h, T.Firings(h), |past|) then log + [x.firing] else log
  {
    HeardNext(lang, id, run, trace, m, k, [x]);
    HeardIsNonZero(lang, id, run, trace, m, k + 1);
    MessageLog(lang, id, run, trace, m, k, past, x);
    var h := Evaluations(past + [x]);
    LastRecord(past, x, h, LogOf(trace[m].log, id), LogOf(trace[k].log, id), LogOf(trace[k + 1].log, id),
               T.Fires(h, |past|));
    T.FiresWhenDue(h, T.Firings(h), |past|);
  }

  /** With positive emission times in any order, and whatever versions of the rule are registered on the
      way, its firings in the engine's log are cumulatively at least the smallest cooldown apart. */
  lemma EngineRespectsCooldown(lang: Language, id: string, run: seq<Step>, trace: seq<State>, m: nat, n: nat,
                               cooldown: nat) returns (out: seq<Firing>)
    requires Stretch(lang, id, run, trace, m, n) && PositiveMessages(run, m, n)
    requires Configured(lang, id, run, trace, m, n, (r: Rule) => r.cooldownSeconds >= cooldown)
    ensures LogOf(trace[n].log, id) == LogOf(trace[m].log, id) + out
    ensures TriggerRuns.Separated(Times(out), cooldown)
  {
    var hs := Heard(lang, id, run, trace, m, n);
    MachineRuns(lang, id, run, trace, m, n);
    out := Machine(hs).1;
    HeardIsTimed(lang, id, run, trace, m, n);
    HeardIsPositive(lang, id, run, trace, m, n);
    HeardIsConfigured(lang, id, run, trace, m, n, (r: Rule) => r.cooldownSeconds >= cooldown,
                      (c: T.Config) => c.cooldown >= cooldown);
    FiredTimes(hs);
    TriggerRuns.CooldownSeparates(Evaluations(hs), |hs|, cooldown);
  }

  /** With positive emission times and no version of the rule without a cooldown, the rule fires at most
      once for each emission time: an event that is processed again does not fire again. */
  lemma EngineFiresOncePerTime(lang: Language, id: string, run: seq<Step>, trace: seq<State>, m: nat, n: nat)
    returns (out: seq<Firing>)
    requires Stretch(lang, id, run, trace, m, n) && PositiveMessages(run, m, n)
    requires Configured(lang, id, run, trace, m, n, (r: Rule) => r.cooldownSeconds >= 1)
    ensures LogOf(trace[n].log, id) == LogOf(trace[m].log, id) + out
    ensures Distinct(Times(out))
  {
    out := EngineRespectsCooldown(lang, id, run, trace, m, n, 1);
    TriggerRuns.SeparatedIsDistinct(Times(out), 1);
  }

  /** The rule asks for its condition to hold for this long at least. */
  predicate AsksSustain(r: Rule, duration: nat) {
    r.sustain.Some? && r.sustain.value > 0 && r.sustain.value >= duration
  }

  /** With ordered emission times, n firings take n of the shortest sustain duration, measured
      between the first and the last evaluation of the rule. */
  lemma EngineRespectsSustain(lang: Language, id: string, run: seq<Step>, trace: seq<State>, m: nat, n: nat,
                              hs: seq<Hearing>, duration: nat) returns (out: seq<Firing>)
    requires Stretch(lang, id, run, trace, m, n) && NonZeroMessages(run, m, n) && OrderedMessages(run, m, n)
    requires Configured(lang, id, run, trace, m, n, (r: Rule) => AsksSustain(r, duration))
    requires hs == Heard(lang, id, run, trace, m, n) && hs != []
    ensures LogOf(trace[n].log, id) == LogOf(trace[m].log, id) + out
    ensures |out| * duration <= hs[|hs| - 1].evaluation.at - hs[0].evaluation.at
  {
    MachineRuns(lang, id, run, trace, m, n);
    out := Machine(hs).1;
    HeardIsTimed(lang, id, run, trace, m, n);
    HeardIsNonZero(lang, id, run, trace, m, n);
    HeardIsOrdered(lang, id, run, trace, m, n);
    HeardIsConfigured(lang, id, run, trace, m, n, (r: Rule) => AsksSustain(r, duration),
                      (c: T.Config) => c.Sustained() && c.sustain.value >= duration);
    FiredTimes(hs);
    assert |Times(out)| == |out|;
    TriggerRuns.SustainIsBounded(Evaluations(hs), |hs|, duration);
  }

  // No missed alarm.

  /** What one more hearing does to the records of a machine, seen from those of an earlier one. */
  lemma PrefixStep(early: seq<Firing>, past: seq<Firing>, now: seq<Firing>, f: Firing, h: T.History, g: T.History,
                   s: nat)
    requires |g| == |h| + 1 && s <= |h| && early <= past
    requires now == if T.Fires(g, |h|) then past + [f] else past
    requires forall k :: 0 <= k < |h| ==> T.Fires(g, k) == T.Fires(h, k)
    requires early == past <==> forall k :: s <= k < |h| ==> !T.Fires(h, k)
    ensures early <= now
    ensures early == now <==> forall k :: s <= k < |g| ==> !T.Fires(g, k)
  {
  }

  lemma {:induction false} MachinePrefix(hs: seq<Hearing>, s: nat)
    requires s <= |hs|
    ensures Machine(hs[..s]).1 <= Machine(hs).1
    ensures Machine(hs[..s]).1 == Machine(hs).1 <==>
            forall k :: s <= k < |hs| ==> !T.Fires(Evaluations(hs), k)
    decreases |hs|
  {
    if s == |hs| {
      assert hs[..s] == hs;
      return;
    }
    var past, x := hs[..|hs| - 1], hs[|hs| - 1];
    MachinePrefix(past, s);
    assert past[..s] == hs[..s] && past + [x] == hs;
    LastStep(past, x, s, Machine(hs[..s]).1);
  }

  lemma {:induction false} LastStep(past: seq<Hearing>, x: Hearing, s: nat, early: seq<Firing>)
    requires s <= |past| && early <= Machine(past).1
    requires early == Machine(past).1 <==> forall k :: s <= k < |past| ==> !T.Fires(Evaluations(past), k)
    ensures early <= Machine(past + [x]).1
    ensures early == Machine(past + [x]).1 <==>
            forall k :: s <= k < |past| + 1 ==> !T.Fires(Evaluations(past + [x]), k)
  {
    MachineLast(past, x, Evaluations(past + [x]));
    PrefixFires(past, x);
    PrefixStep(early, Machine(past).1, Machine(past + [x]).1, x.firing, Evaluations(past), Evaluations(past + [x]), s);
  }

  lemma PrefixFires(past: seq<Hearing>, x: Hearing)
    ensures forall k :: 0 <= k < |past| ==> T.Fires(Evaluations(past + [x]), k) == T.Fires(Evaluations(past), k)
  {
    assert Evaluations(past + [x]) == Evaluations(past) + [x.evaluation];
    forall k | 0 <= k < |past|
      ensures T.Fires(Evaluations(past + [x]), k) == T.Fires(Evaluations(past), k)
    {
      FiresExtends(Evaluations(past), x.evaluation, k);
    }
  }

  lemma {:induction false} JoinedPrefix(parts: seq<seq<Hearing>>, m: nat, a: nat, b: nat)
    requires m <= a <= b <= |parts|
    ensures |Joined(parts, m, a)| <= |Joined(parts, m, b)|
    ensures Joined(parts, m, b)[..|Joined(parts, m, a)|] == Joined(parts, m, a)
  {
    if a < b {
      JoinedPrefix(parts, m, a, b - 1);
    }
  }

  /** Rising mode, which the empty mode stands for as well, without sustain. */
  predicate AsksEdges(c: T.Config) {
    c.mode in {"", "rising"} && (c.sustain.None? || c.sustain.value <= 0)
  }

  /** The evaluations from index `s` on begin with an edge, all hold, and ask for edges only. */
  ghost predicate TrueStretchFrom(h: T.History, s: nat) {
    && s < |h| && TriggerRuns.Edge(h, s)
    && forall k :: s <= k < |h| ==> h[k].holds && AsksEdges(h[k].config)
  }

  /** Exactly when the engine misses an alarm: if what a rising rule hears in the steps `a..b` is a true
      stretch, however long, its log grows in these steps if and only if the first evaluation of the
      stretch is out of cooldown. */
  lemma EngineRaisesAlarmIff(lang: Language, id: string, run: seq<Step>, trace: seq<State>, m: nat, a: nat, b: nat,
                             h: T.History, s: nat)
    requires m <= a <= b && Stretch(lang, id, run, trace, m, b)
    requires h == Evaluations(Heard(lang, id, run, trace, m, b)) && s == |Heard(lang, id, run, trace, m, a)|
    requires TrueStretchFrom(h, s)
    ensures LogOf(trace[b].log, id) != LogOf(trace[a].log, id) <==> TriggerRuns.CooledDown(h, s)
  {
    var hs := Heard(lang, id, run, trace, m, b);
    JoinedPrefix(HeardAt(lang, id, run, trace), m, a, b);
    MachineRuns(lang, id, run, trace, m, a);
    MachineRuns(lang, id, run, trace, m, b);
    MachinePrefix(hs, s);
    TriggerRuns.RisingStretchFiresIff(h, s, |h| - 1);
    SameTail(LogOf(trace[m].log, id), Machine(hs[..s]).1, Machine(hs).1);
  }

  lemma SameTail(base: seq<Firing>, x: seq<Firing>, y: seq<Firing>)
    ensures base + x == base + y <==> x == y
  {
    assert (base + x)[|base|..] == x && (base + y)[|base|..] == y;
  }

  // Every record names its message.

  ghost predicate AllRecord(out: seq<Firing>, r: Rule, step: Step) {
    forall i :: 0 <= i < |out| ==> Records(out[i], r, step)
  }

  lemma RegionRecords(lang: Language, sl: Slice, p: StatePayload, i: nat, now: int, step: Step)
    requires i < |p.regions| && step.action == PostState(p)
    ensures RecordsOf(SliceRegion(lang, sl, p.camera, p.regions[i], p.emittedAt, now).1, sl.rule, step)
  {
    assert p.regions[i] in p.regions && MessageFrom(step, p.camera, p.regions[i].roiId);
  }

  /** Nothing fires without a rule, and with one every record is one of it on the message. */
  ghost predicate RecordsOf(out: seq<Firing>, rule: Option<ActiveRule>, step: Step) {
    if rule.None? then out == [] else AllRecord(out, rule.value.rule, step)
  }

  lemma {:induction false} RoundRecords(f: (Slice, nat) -> (Slice, seq<Firing>), sl: Slice, n: nat,
                                       rule: Option<ActiveRule>, step: Step)
    requires RecordsOf(Fold(f, sl, n).1, rule, step) && RecordsOf(f(Fold(f, sl, n).0, n).1, rule, step)
    ensures RecordsOf(Fold(f, sl, n + 1).1, rule, step)
  {
  }

  lemma {:induction false} RegionsRecord(lang: Language, sl: Slice, p: StatePayload, n: nat, now: int, step: Step)
    requires n <= |p.regions| && step.action == PostState(p)
    ensures RecordsOf(Fold(OneRegion(lang, p, now), sl, n).1, sl.rule, step)
  {
    if n > 0 {
      RegionsRecord(lang, sl, p, n - 1, now, step);
      RoundsKeepRule(lang, sl, p, n - 1, now);
      RegionRecords(lang, Fold(OneRegion(lang, p, now), sl, n - 1).0, p, n - 1, now, step);
      RoundRecords(OneRegion(lang, p, now), sl, n - 1, sl.rule, step);
    }
  }

  lemma StepRecords(lang: Language, id: string, sl: Slice, step: Step)
    ensures RecordsOf(SliceStep(lang, id, sl, step).1, sl.rule, step)
  {
    match step.action
    case PostState(p) => RegionsRecord(lang, sl, p, |p.regions|, step.now, step);
    case PostEvent(event) => assert MessageFrom(step, event.camera, event.roiId);
    case _ =>
  }

  lemma {:induction false} InLogOf(log: seq<Firing>, f: Firing)
    requires f in log
    ensures f in LogOf(log, f.ruleId)
  {
    if log[|log| - 1] != f {
      InLogOf(log[..|log| - 1], f);
    }
  }

  lemma {:induction false} RecordIsOfStep(lang: Language, run: seq<Step>, trace: seq<State>, n: nat, f: Firing)
    returns (k: nat)
    requires Execution(lang, run, trace) && trace[0] == EMPTY && n <= |run| && f in LogOf(trace[n].log, f.ruleId)
    ensures k < n && f.ruleId in trace[k].rules && Records(f, trace[k].rules[f.ruleId].rule, run[k])
    decreases n
  {
    var id := f.ruleId;
    if n == 0 {
      assert false;
    }
    ExecutionIsFiled(lang, run, trace, n - 1);
    NextSlice(lang, trace[n - 1], run[n - 1], trace[n], id);
    var out := SliceStep(lang, id, SliceOf(trace[n - 1], id), run[n - 1]).1;
    assert LogOf(trace[n].log, id) == LogOf(trace[n - 1].log, id) + out;
    if f in LogOf(trace[n - 1].log, id) {
      k := RecordIsOfStep(lang, run, trace, n - 1, f);
    } else {
      StepRecords(lang, id, SliceOf(trace[n - 1], id), run[n - 1]);
      k := n - 1;
    }
  }

  /** In any run, every record in the log is of a rule that was active when some earlier message was
      posted, and names this rule and this message: its time, its camera and its region. */
  lemma RecordsNameTheirMessage(lang: Language, run: seq<Step>, trace: seq<State>, n: nat, f: Firing)
    requires Execution(lang, run, trace) && trace[0] == EMPTY && n <= |run| && f in trace[n].log
    ensures exists k: nat :: k < n && f.ruleId in trace[k].rules && Records(f, trace[k].rules[f.ruleId].rule, run[k])
  {
    InLogOf(trace[n].log, f);
    var k := RecordIsOfStep(lang, run, trace, n, f);
  }
}
