/** What one rule's part of the engine does not depend on: steps about other rules, clean-ups of the
    observation store, and anything before its last update. */
module Isolation {
  import opened Common
  import opened Payloads
  import opened Dispatch
  import opened Observations
  import opened Evaluation
  import opened EngineSpec
  import opened Slices

  // ---------------------------------------------------------------------------------------------
  // Non-interference
  // ---------------------------------------------------------------------------------------------

  /** The action registers, updates or removes a rule other than `id`. */
  predicate AboutAnother(action: Action, id: string) {
    match action
    case RegisterRule(rule) => rule.id != id
    case UnregisterRule(r) => r != id
    case UpdateRule(rule) => rule.id != id
    case _ => false
  }

  /** The run with every step about other rules erased. */
  function Erased(run: seq<Step>, id: string): seq<Step> {
    if run == [] then []
    else if AboutAnother(run[|run| - 1].action, id) then Erased(run[..|run| - 1], id)
    else Erased(run[..|run| - 1], id) + [run[|run| - 1]]
  }

  lemma SliceRunStep(lang: Language, id: string, sl: Slice, run: seq<Step>, step: Step)
    ensures var (before, earlier) := SliceRun(lang, id, sl, run);
            var (after, out) := SliceStep(lang, id, before, step);
            SliceRun(lang, id, sl, run + [step]) == (after, earlier + out)
  {
    assert (run + [step])[..|run + [step]| - 1] == run;
  }

  lemma {:induction false} ErasureIsInvisible(lang: Language, id: string, sl: Slice, run: seq<Step>)
    ensures SliceRun(lang, id, sl, Erased(run, id)) == SliceRun(lang, id, sl, run)
  {
    if run != [] {
      var past, step := run[..|run| - 1], run[|run| - 1];
      ErasureIsInvisible(lang, id, sl, past);
      if AboutAnother(step.action, id) {
        var (before, earlier) := SliceRun(lang, id, sl, past);
        assert SliceStep(lang, id, before, step) == (before, []);
        assert earlier + [] == earlier;
      } else {
        SliceRunStep(lang, id, sl, Erased(past, id), step);
      }
    }
  }

  /** Non-interference: in any run, with any orders of visits, a rule fires exactly as in any run from
      the same engine in which every step about other rules is erased. */
  lemma NonInterference(lang: Language, id: string, run: seq<Step>, trace: seq<State>, alone: seq<State>)
    requires Execution(lang, run, trace) && Filed(trace[0])
    requires Execution(lang, Erased(run, id), alone) && alone[0] == trace[0]
    ensures LogOf(trace[|trace| - 1].log, id) == LogOf(alone[|alone| - 1].log, id)
  {
    var sl := SliceOf(trace[0], id);
    ExecutionSlice(lang, run, trace, id);
    ExecutionSlice(lang, Erased(run, id), alone, id);
    ErasureIsInvisible(lang, id, sl, run);
  }

  // ---------------------------------------------------------------------------------------------
  // Updating forgets
  // ---------------------------------------------------------------------------------------------

  /** After an update to an enabled rule that compiles, the rule goes on exactly as in an engine that
      has the same observations and never held the rule before. */
  lemma UpdateForgets(lang: Language, s: State, rule: Rule, run: seq<Step>, trace: seq<State>, anew: seq<State>)
    requires Filed(s) && rule.enabled && lang.compile(rule.expression).Some?
    requires Execution(lang, run, trace) && trace[0] == Update(lang, s, rule)
    requires Execution(lang, run, anew) && anew[0] == Register(lang, EMPTY.(cache := s.cache), rule)
    ensures LogOf(trace[|run|].log, rule.id) == LogOf(s.log, rule.id) + LogOf(anew[|run|].log, rule.id)
    ensures SliceOf(trace[|run|], rule.id) == SliceOf(anew[|run|], rule.id)
  {
    var never := EMPTY.(cache := s.cache);
    UnregisterSlice(s, rule.id, rule.id);
    RegisterSlice(lang, Unregister(s, rule.id), rule, rule.id);
    RegisterSlice(lang, never, rule, rule.id);
    assert SliceOf(never, rule.id) == SliceUnregister(SliceOf(s, rule.id));
    ExecutionSlice(lang, run, trace, rule.id);
    ExecutionSlice(lang, run, anew, rule.id);
    var out := SliceRun(lang, rule.id, SliceOf(trace[0], rule.id), run).1;
    assert LogOf(anew[|run|].log, rule.id) == [] + out == out;
  }

  // ---------------------------------------------------------------------------------------------
  // Clean-ups are invisible
  // ---------------------------------------------------------------------------------------------

  /** `c` is `d` without some observations that are stale at `now`. */
  ghost predicate Swept(c: Cache, d: Cache, now: int) {
    && (forall k :: k in c ==> k in d && c[k] == d[k])
    && (forall k :: k in d && k !in c ==> d[k].IsStale(now))
  }

  /** Freshness verdicts agree, and so do environments whenever they are used. */
  lemma {:induction false} SweptContext(deps: seq<Dependency>, c: Cache, d: Cache, now: int)
    requires Swept(c, d, now)
    ensures Context(deps, c, now).1 == Context(deps, d, now).1
    ensures Context(deps, c, now).1 ==> Context(deps, c, now) == Context(deps, d, now)
  {
    if deps != [] {
      SweptContext(deps[..|deps| - 1], c, d, now);
      SweptGet(c, d, deps[|deps| - 1].cameraId, deps[|deps| - 1].roiId, now);
    }
  }

  lemma SweptGet(c: Cache, d: Cache, cameraId: string, roiId: string, now: int)
    requires Swept(c, d, now)
    ensures Get(c, cameraId, roiId, now).1 == Fresh <==> Get(d, cameraId, roiId, now).1 == Fresh
    ensures Get(c, cameraId, roiId, now).1 == Fresh ==> Get(c, cameraId, roiId, now) == Get(d, cameraId, roiId, now)
  {
  }

  lemma WindowIgnoresEnv(l: Local, active: ActiveRule, env: Env, other: Env)
    ensures WindowBound(l, active, env).0 == WindowBound(l, active, other).0
  {
  }

  lemma SweptEvaluated(lang: Language, c: Cache, d: Cache, l: Local, active: ActiveRule, at: int, now: int)
    requires Swept(c, d, now)
    ensures Evaluated(lang, c, l, active, at, now) == Evaluated(lang, d, l, active, at, now)
  {
    SweptContext(active.rule.dependencies, c, d, now);
    WindowIgnoresEnv(l, active, Context(active.rule.dependencies, c, now).0,
                     Context(active.rule.dependencies, d, now).0);
  }

  /** Two slices that differ only by swept observations. */
  ghost predicate Alike(a: Slice, b: Slice, now: int) {
    a == b.(cache := a.cache) && Swept(a.cache, b.cache, now)
  }

  lemma SweptLater(c: Cache, d: Cache, now: int, later: int)
    requires Swept(c, d, now) && now <= later
    ensures Swept(c, d, later) && Swept(Cleaned(c, later), d, later)
  {
  }

  lemma AlikeEvaluate(lang: Language, a: Slice, b: Slice, fed: Local, at: int, cameraId: string, roiId: string,
                      now: int)
    requires Alike(a, b, now) && a.rule.Some?
    ensures var (x, out) := SliceEvaluate(lang, a, fed, at, cameraId, roiId, now);
            var (y, out') := SliceEvaluate(lang, b, fed, at, cameraId, roiId, now);
            Alike(x, y, now) && out == out'
  {
    SweptEvaluated(lang, a.cache, b.cache, fed, a.rule.value, at, now);
  }

  lemma AlikeRegion(lang: Language, a: Slice, b: Slice, cameraId: string, region: Region, at: int, now: int)
    requires Alike(a, b, now)
    ensures var (x, out) := SliceRegion(lang, a, cameraId, region, at, now);
            var (y, out') := SliceRegion(lang, b, cameraId, region, at, now);
            Alike(x, y, now) && out == out'
  {
    var a' := SliceObserve(a, cameraId, region, at, now);
    var b' := SliceObserve(b, cameraId, region, at, now);
    assert Alike(a', b', now);
    if WantsState(a, cameraId, region.roiId) {
      AlikeEvaluate(lang, a', b', FedState(a.local, a.rule.value, SnapshotOf(cameraId, region, at)),
                    at, cameraId, region.roiId, now);
    }
  }

  lemma {:induction false} AlikeFold(f: (Slice, nat) -> (Slice, seq<Firing>), a: Slice, b: Slice, n: nat, now: int)
    requires Alike(a, b, now)
    requires forall x, y, i: nat {:trigger f(x, i), f(y, i)} :: i < n && Alike(x, y, now) ==>
               Alike(f(x, i).0, f(y, i).0, now) && f(x, i).1 == f(y, i).1
    ensures Alike(Fold(f, a, n).0, Fold(f, b, n).0, now) && Fold(f, a, n).1 == Fold(f, b, n).1
  {
    if n > 0 {
      AlikeFold(f, a, b, n - 1, now);
      var x, y := Fold(f, a, n - 1).0, Fold(f, b, n - 1).0;
      assert Alike(f(x, n - 1).0, f(y, n - 1).0, now);
    }
  }

  lemma AlikeRegions(lang: Language, a: Slice, b: Slice, p: StatePayload, now: int)
    requires Alike(a, b, now)
    ensures var (x, out) := SliceRegions(lang, a, p, now);
            var (y, out') := SliceRegions(lang, b, p, now);
            Alike(x, y, now) && out == out'
  {
    var f := OneRegion(lang, p, now);
    forall x, y, i: nat | i < |p.regions| && Alike(x, y, now)
      ensures Alike(f(x, i).0, f(y, i).0, now) && f(x, i).1 == f(y, i).1
    {
      AlikeRegion(lang, x, y, p.camera, p.regions[i], p.emittedAt, now);
    }
    AlikeFold(f, a, b, |p.regions|, now);
  }

  lemma AlikeStep(lang: Language, id: string, a: Slice, b: Slice, step: Step)
    requires Alike(a, b, step.now) && step.action != CleanUp
    ensures var (x, out) := SliceStep(lang, id, a, step);
            var (y, out') := SliceStep(lang, id, b, step);
            Alike(x, y, step.now) && out == out'
  {
    match step.action
    case PostState(p) => AlikeRegions(lang, a, b, p, step.now);
    case PostEvent(event) =>
      if WantsEvent(a, event.camera, event.kind) {
        AlikeEvaluate(lang, a, b, FedEvent(a.local, a.rule.value, EntryOf(event)), event.emittedAt,
                      event.camera, event.roiId, step.now);
      }
    case _ =>
  }

  ghost predicate MonotoneClock(run: seq<Step>) {
    forall i, j :: 0 <= i <= j < |run| ==> run[i].now <= run[j].now
  }

  /** The run without its clean-ups. */
  function Uncleaned(run: seq<Step>): seq<Step> {
    if run == [] then []
    else if run[|run| - 1].action == CleanUp then Uncleaned(run[..|run| - 1])
    else Uncleaned(run[..|run| - 1]) + [run[|run| - 1]]
  }

  lemma {:induction false} AlikeRuns(lang: Language, id: string, sl: Slice, run: seq<Step>, now: int)
    requires MonotoneClock(run) && forall i :: 0 <= i < |run| ==> run[i].now <= now
    ensures var (x, out) := SliceRun(lang, id, sl, run);
            var (y, out') := SliceRun(lang, id, sl, Uncleaned(run));
            Alike(x, y, now) && out == out'
  {
    if run != [] {
      var past, step := run[..|run| - 1], run[|run| - 1];
      var (x, out) := SliceRun(lang, id, sl, past);
      var (y, out') := SliceRun(lang, id, sl, Uncleaned(past));
      AlikeRuns(lang, id, sl, past, step.now);
      if step.action == CleanUp {
        SweptLater(x.cache, y.cache, step.now, step.now);
        assert out + [] == out;
      } else {
        AlikeStep(lang, id, x, y, step);
        SliceRunStep(lang, id, sl, Uncleaned(past), step);
      }
      var x', y' := SliceRun(lang, id, sl, run).0, SliceRun(lang, id, sl, Uncleaned(run)).0;
      SweptLater(x'.cache, y'.cache, step.now, now);
    }
  }

  /** Under a monotone clock, clean-ups of the observation store anywhere in a run change no firing of
      any rule. */
  lemma CleanupIsInvisible(lang: Language, id: string, run: seq<Step>, trace: seq<State>, uncleaned: seq<State>)
    requires MonotoneClock(run)
    requires Execution(lang, run, trace) && Filed(trace[0])
    requires Execution(lang, Uncleaned(run), uncleaned) && uncleaned[0] == trace[0]
    ensures LogOf(trace[|trace| - 1].log, id) == LogOf(uncleaned[|uncleaned| - 1].log, id)
  {
    ExecutionSlice(lang, run, trace, id);
    ExecutionSlice(lang, Uncleaned(run), uncleaned, id);
    AlikeRuns(lang, id, SliceOf(trace[0], id), run, if run == [] then 0 else run[|run| - 1].now);
  }
}
