/** Saving a rule as disabled. The endpoint registers the new version, and registering a disabled rule
    does nothing: an active rule goes on. */
module Disabling {
  import opened Common
  import opened Payloads
  import opened Dispatch
  import opened Observations
  import opened Evaluation
  import opened EngineSpec
  import opened Slices
  import opened Hearings

  /** The rule is evaluated on no message that could come next. */
  ghost predicate Silent(lang: Language, s: State, id: string) {
    forall step :: HeardStep(lang, SliceOf(s, id), step) == []
  }

  /** A key that some snapshot or event is looked up by. */
  ghost predicate Reachable(k: DepKey) {
    k == StateKey(k.cameraId, k.roiId) || k == EventKey(k.cameraId, k.eventKind)
  }

  lemma {:induction false} UnwantedRegions(lang: Language, sl: Slice, p: StatePayload, n: nat, now: int)
    requires n <= |p.regions| && forall r: Region :: !WantsState(sl, p.camera, r.roiId)
    ensures HeardRegions(lang, sl, p, n, now) == []
  {
    if n > 0 {
      UnwantedRegions(lang, sl, p, n - 1, now);
      RoundsKeepRule(lang, sl, p, n - 1, now);
    }
  }

  lemma UnreachableIsSilent(lang: Language, s: State, id: string, step: Step)
    requires id !in s.rules || forall k :: k in KeysOf(s.index, id) ==> !Reachable(k)
    ensures HeardStep(lang, SliceOf(s, id), step) == []
  {
    var sl := SliceOf(s, id);
    match step.action
    case PostState(p) =>
      forall r: Region
        ensures !WantsState(sl, p.camera, r.roiId)
      {
        assert Reachable(StateKey(p.camera, r.roiId)) && Reachable(StateKey(p.camera, ""));
      }
      UnwantedRegions(lang, sl, p, |p.regions|, step.now);
    case PostEvent(event) =>
      assert Reachable(EventKey(event.camera, event.kind)) && Reachable(EventKey(event.camera, ""))
             && Reachable(EventKey(event.camera, "*"));
    case _ =>
  }

  lemma ReachableIsHeard(lang: Language, s: State, id: string, k: DepKey) returns (step: Step)
    requires id in s.rules && k in KeysOf(s.index, id) && Reachable(k)
    ensures HeardStep(lang, SliceOf(s, id), step) != []
  {
    var sl := SliceOf(s, id);
    if k == StateKey(k.cameraId, k.roiId) {
      var region := Region(k.roiId, Occupancy(0, 0, 0), map[], [], 0);
      var p := StatePayload(k.cameraId, 1, [region]);
      step := Step(PostState(p), 0);
      assert Fold(OneRegion(lang, p, 0), sl, 0).0 == sl && HeardRegions(lang, sl, p, 0, 0) == [];
      assert HeardRegions(lang, sl, p, 1, 0) == [] + HeardRegion(lang, sl, k.cameraId, region, 1, 0);
    } else {
      step := Step(PostEvent(EventPayload("e", k.eventKind, 1, k.cameraId, "", None)), 0);
    }
  }

  /** Exactly when a rule is silent: if and only if it is not active or indexed under no reachable key. */
  lemma SilentIff(lang: Language, s: State, id: string)
    ensures Silent(lang, s, id) <==> id !in s.rules || forall k :: k in KeysOf(s.index, id) ==> !Reachable(k)
  {
    if id !in s.rules || forall k :: k in KeysOf(s.index, id) ==> !Reachable(k) {
      forall step
        ensures HeardStep(lang, SliceOf(s, id), step) == []
      {
        UnreachableIsSilent(lang, s, id, step);
      }
    } else {
      var k :| k in KeysOf(s.index, id) && Reachable(k);
      var step := ReachableIsHeard(lang, s, id, k);
    }
  }

  /** Exactly when saving a rule as disabled stops it: if and only if it was not active, given that an
      active rule is indexed under some reachable key. */
  lemma DisabledVersionStopsIff(lang: Language, s: State, rule: Rule)
    requires !rule.enabled
    requires rule.id in s.rules ==> exists k :: k in KeysOf(s.index, rule.id) && Reachable(k)
    ensures Silent(lang, Register(lang, s, rule), rule.id) <==> rule.id !in s.rules
  {
    SilentIff(lang, s, rule.id);
  }

  /** The run without the registrations of disabled versions. */
  function Enabled(run: seq<Step>): seq<Step> {
    if run == [] then []
    else if run[|run| - 1].action.RegisterRule? && !run[|run| - 1].action.rule.enabled then Enabled(run[..|run| - 1])
    else Enabled(run[..|run| - 1]) + [run[|run| - 1]]
  }

  /** In any run, saving rules as disabled is as if it had not happened. */
  lemma {:induction false} DisabledVersionsAreInvisible(lang: Language, run: seq<Step>, trace: seq<State>)
    returns (short: seq<State>)
    requires Execution(lang, run, trace)
    ensures Execution(lang, Enabled(run), short) && short[0] == trace[0]
    ensures short[|Enabled(run)|] == trace[|run|]
    decreases |run|
  {
    if run == [] {
      return trace;
    }
    var n := |run| - 1;
    short := DisabledVersionsAreInvisible(lang, run[..n], trace[..n + 1]);
    assert Next(lang, trace[n], run[n], trace[n + 1]);
    if !(run[n].action.RegisterRule? && !run[n].action.rule.enabled) {
      Longer(lang, Enabled(run[..n]), short, run[n], trace[n + 1]);
      short := short + [trace[n + 1]];
    }
  }

  lemma Longer(lang: Language, run: seq<Step>, trace: seq<State>, step: Step, t: State)
    requires Execution(lang, run, trace) && Next(lang, trace[|run|], step, t)
    ensures Execution(lang, run + [step], trace + [t])
  {
    var steps, states := run + [step], trace + [t];
    forall i | 0 <= i < |steps|
      ensures Next(lang, states[i], steps[i], states[i + 1])
    {
      assert i < |run| ==> states[i] == trace[i] && states[i + 1] == trace[i + 1] && steps[i] == run[i];
    }
  }

  /** An input: a rule is registered, saved as disabled, and fires on the next snapshot of its region. */
  lemma DisabledRuleFires(lang: Language, rule: Rule, d: Dependency, region: Region, at: int, now: int,
                          trace: seq<State>)
    requires Accepted(lang, rule) && rule.Converted().dependencies == [d] && rule.window.None?
    requires KeyOf(d) == StateKey(d.cameraId, d.roiId) && region.roiId == d.roiId
    requires (rule.TriggerConfig().Rising() || rule.TriggerConfig().Every()) && !rule.TriggerConfig().Sustained()
    requires forall env :: lang.run(lang.compile(rule.expression).value, env) == True
    requires Execution(lang, [Step(RegisterRule(rule), now), Step(RegisterRule(rule.(enabled := false)), now),
                              Step(PostState(StatePayload(d.cameraId, at, [region])), now)], trace)
    requires trace[0] == EMPTY
    ensures exists f :: LogOf(trace[3].log, rule.id) == [f] && f.triggeredAt == at
  {
    var off, p := rule.(enabled := false), StatePayload(d.cameraId, at, [region]);
    var run := [Step(RegisterRule(rule), now), Step(RegisterRule(off), now), Step(PostState(p), now)];
    assert Next(lang, trace[0], run[0], trace[1]) && Next(lang, trace[1], run[1], trace[2]);
    assert trace[2] == Register(lang, EMPTY, rule);
    assert Next(lang, trace[2], run[2], trace[3]);
    RegisteredSlice(lang, rule, d);
    NextSlice(lang, trace[2], run[2], trace[3], rule.id);
    SnapshotFires(lang, SliceOf(trace[2], rule.id), d, region, p, now);
  }

  lemma RegisteredSlice(lang: Language, rule: Rule, d: Dependency)
    requires Accepted(lang, rule) && rule.Converted().dependencies == [d]
    ensures SliceOf(Register(lang, EMPTY, rule), rule.id) ==
            Slice(Some(ActiveRule(rule.Converted(), lang.compile(rule.expression).value)), {KeyOf(d)},
                  Local(None, None, None), map[])
  {
    RegisterSlice(lang, EMPTY, rule, rule.id);
    assert KeysOf(EMPTY.index, rule.id) == {};
    assert DepKeys([d]) == {KeyOf(d)} by {
      assert d in [d];
    }
  }

  lemma SnapshotFires(lang: Language, sl: Slice, d: Dependency, region: Region, p: StatePayload, now: int)
    requires p.camera == d.cameraId && p.regions == [region] && region.roiId == d.roiId
    requires sl.rule.Some? && sl.rule.value.rule.dependencies == [d] && sl.rule.value.rule.window.None?
    requires StateKey(d.cameraId, d.roiId) in sl.keys && sl.local == Local(None, None, None)
    requires var c := sl.rule.value.rule.TriggerConfig(); (c.Rising() || c.Every()) && !c.Sustained()
    requires forall env :: lang.run(sl.rule.value.program, env) == True
    ensures exists f :: SliceRegions(lang, sl, p, now).1 == [f] && f.triggeredAt == p.emittedAt
  {
    var seen := SliceObserve(sl, p.camera, region, p.emittedAt, now);
    FreshDependency(d, sl.cache, region, p.emittedAt, now);
    var f := FiringOf(sl.rule.value, p.emittedAt, p.camera, region.roiId);
    assert SliceRegion(lang, sl, p.camera, region, p.emittedAt, now).1 == [f];
    assert Fold(OneRegion(lang, p, now), sl, 0) == (sl, []);
    assert SliceRegions(lang, sl, p, now).1 == [] + [f];
  }

  lemma FreshDependency(d: Dependency, cache: Cache, region: Region, at: int, now: int)
    requires region.roiId == d.roiId
    ensures Context([d], Updated(cache, d.cameraId, region, at, TTL, now), now).1
  {
    assert [d][..0] == [];
  }
}
