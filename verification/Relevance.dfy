/** Non-interference of messages: what a rule is neither sent nor reads does not exist for it. */
module Relevance {
  import opened Common
  import opened Payloads
  import opened Observations
  import opened Evaluation
  import opened EngineSpec
  import opened Slices
  import Isolation

  // ---------------------------------------------------------------------------------------------
  // Erasing what is neither sent nor read
  // ---------------------------------------------------------------------------------------------

  /** The dependencies of the rule are read from these cache entries only. */
  ghost predicate ReadsOnly(rule: Rule, streams: set<string>) {
    forall d :: d in rule.dependencies ==> Key(d.cameraId, d.roiId) in streams
  }

  /** The snapshot is dispatched to the rule or filed in an entry that some version of it reads. */
  ghost predicate Matters(sl: Slice, cameraId: string, region: Region, streams: set<string>) {
    WantsState(sl, cameraId, region.roiId) || Key(cameraId, region.roiId) in streams
  }

  ghost function Mattering(sl: Slice, cameraId: string, regions: seq<Region>, streams: set<string>): seq<Region> {
    if regions == [] then []
    else
      var n := |regions| - 1;
      var before := Mattering(sl, cameraId, regions[..n], streams);
      if Matters(sl, cameraId, regions[n], streams) then before + [regions[n]] else before
  }

  /** What is left of a step for rule `id`: nothing of steps about other rules and of events that are not
      dispatched to it, and of a payload the regions that matter. */
  ghost function LeftOf(sl: Slice, id: string, step: Step, streams: set<string>): seq<Step> {
    if Isolation.AboutAnother(step.action, id) then []
    else
      match step.action
      case PostEvent(event) => if WantsEvent(sl, event.camera, event.kind) then [step] else []
      case PostState(p) =>
        var regions := Mattering(sl, p.camera, p.regions, streams);
        if regions == [] then [] else [Step(PostState(p.(regions := regions)), step.now)]
      case _ => [step]
  }

  /** The run with everything erased that rule `id` is neither sent nor reads. */
  ghost function Relevant(lang: Language, id: string, sl: Slice, run: seq<Step>, streams: set<string>): seq<Step> {
    if run == [] then []
    else
      var past := run[..|run| - 1];
      Relevant(lang, id, sl, past, streams)
      + LeftOf(SliceRun(lang, id, sl, past).0, id, run[|run| - 1], streams)
  }

  /** Every version of the rule that the action registers reads these entries only. */
  ghost predicate RegistersWithin(lang: Language, action: Action, id: string, streams: set<string>) {
    match action
    case RegisterRule(rule) => rule.id == id && Accepted(lang, rule) ==> ReadsOnly(rule.Converted(), streams)
    case UpdateRule(rule) => rule.id == id && Accepted(lang, rule) ==> ReadsOnly(rule.Converted(), streams)
    case _ => true
  }

  // ---------------------------------------------------------------------------------------------
  // Slices that differ in other cache entries
  // ---------------------------------------------------------------------------------------------

  ghost predicate SameOn(c: Cache, d: Cache, streams: set<string>) {
    forall k :: k in streams ==> Lookup(c, k) == Lookup(d, k)
  }

  ghost predicate AlikeOn(a: Slice, b: Slice, streams: set<string>) {
    && a == b.(cache := a.cache)
    && SameOn(a.cache, b.cache, streams)
    && (a.rule.Some? ==> ReadsOnly(a.rule.value.rule, streams))
  }

  lemma {:induction false} ContextOn(deps: seq<Dependency>, c: Cache, d: Cache, streams: set<string>, now: int)
    requires SameOn(c, d, streams) && forall x :: x in deps ==> Key(x.cameraId, x.roiId) in streams
    ensures Context(deps, c, now) == Context(deps, d, now)
  {
    if deps != [] {
      var past, x := deps[..|deps| - 1], deps[|deps| - 1];
      assert x in deps && forall y :: y in past ==> y in deps;
      ContextOn(past, c, d, streams, now);
      assert Lookup(c, Key(x.cameraId, x.roiId)) == Lookup(d, Key(x.cameraId, x.roiId));
    }
  }

  lemma EvaluateOn(lang: Language, a: Slice, b: Slice, fed: Local, at: int, cameraId: string, roiId: string, now: int,
                   streams: set<string>)
    requires AlikeOn(a, b, streams) && a.rule.Some?
    ensures var (x, out) := SliceEvaluate(lang, a, fed, at, cameraId, roiId, now);
            var (y, out') := SliceEvaluate(lang, b, fed, at, cameraId, roiId, now);
            AlikeOn(x, y, streams) && out == out'
  {
    ContextOn(a.rule.value.rule.dependencies, a.cache, b.cache, streams, now);
  }

  lemma RegionOn(lang: Language, a: Slice, b: Slice, cameraId: string, region: Region, at: int, now: int,
                 streams: set<string>)
    requires AlikeOn(a, b, streams)
    ensures var (x, out) := SliceRegion(lang, a, cameraId, region, at, now);
            var (y, out') := SliceRegion(lang, b, cameraId, region, at, now);
            AlikeOn(x, y, streams) && out == out'
  {
    var a', b' := SliceObserve(a, cameraId, region, at, now), SliceObserve(b, cameraId, region, at, now);
    assert AlikeOn(a', b', streams);
    if WantsState(a, cameraId, region.roiId) {
      EvaluateOn(lang, a', b', FedState(a.local, a.rule.value, SnapshotOf(cameraId, region, at)), at, cameraId,
                 region.roiId, now, streams);
    }
  }

  lemma RegionOff(lang: Language, a: Slice, b: Slice, cameraId: string, region: Region, at: int, now: int,
                  streams: set<string>)
    requires AlikeOn(a, b, streams) && !Matters(a, cameraId, region, streams)
    ensures var (x, out) := SliceRegion(lang, a, cameraId, region, at, now); AlikeOn(x, b, streams) && out == []
  {
  }

  // ---------------------------------------------------------------------------------------------
  // Payloads
  // ---------------------------------------------------------------------------------------------

  ghost function RegionSeq(lang: Language, sl: Slice, cameraId: string, regions: seq<Region>, at: int,
                           now: int): (Slice, seq<Firing>)
  {
    if regions == [] then (sl, [])
    else
      var (before, earlier) := RegionSeq(lang, sl, cameraId, regions[..|regions| - 1], at, now);
      var (after, out) := SliceRegion(lang, before, cameraId, regions[|regions| - 1], at, now);
      (after, earlier + out)
  }

  lemma {:induction false} FoldIsSeq(lang: Language, sl: Slice, p: StatePayload, n: nat, now: int)
    requires n <= |p.regions|
    ensures Fold(OneRegion(lang, p, now), sl, n) == RegionSeq(lang, sl, p.camera, p.regions[..n], p.emittedAt, now)
  {
    if n > 0 {
      FoldIsSeq(lang, sl, p, n - 1, now);
      assert p.regions[..n][..n - 1] == p.regions[..n - 1];
    }
  }

  lemma {:induction false} SeqKeepsRule(lang: Language, sl: Slice, cameraId: string, regions: seq<Region>, at: int,
                                        now: int)
    ensures var x := RegionSeq(lang, sl, cameraId, regions, at, now).0; x.rule == sl.rule && x.keys == sl.keys
  {
    if regions != [] {
      SeqKeepsRule(lang, sl, cameraId, regions[..|regions| - 1], at, now);
    }
  }

  lemma SeqStep(lang: Language, sl: Slice, cameraId: string, regions: seq<Region>, r: Region, at: int, now: int)
    ensures var (before, earlier) := RegionSeq(lang, sl, cameraId, regions, at, now);
            var (after, out) := SliceRegion(lang, before, cameraId, r, at, now);
            RegionSeq(lang, sl, cameraId, regions + [r], at, now) == (after, earlier + out)
  {
    assert (regions + [r])[..|regions + [r]| - 1] == regions;
  }

  /** The outcomes agree: alike slices and the same firings. */
  ghost predicate Agree(x: (Slice, seq<Firing>), y: (Slice, seq<Firing>), streams: set<string>) {
    AlikeOn(x.0, y.0, streams) && x.1 == y.1
  }

  lemma {:induction false} SeqOn(lang: Language, a: Slice, b: Slice, cameraId: string, regions: seq<Region>, at: int,
                                 now: int, streams: set<string>)
    requires AlikeOn(a, b, streams)
    ensures Agree(RegionSeq(lang, a, cameraId, regions, at, now),
                  RegionSeq(lang, b, cameraId, Mattering(a, cameraId, regions, streams), at, now), streams)
  {
    if regions == [] {
      return;
    }
    var n := |regions| - 1;
    var before := Mattering(a, cameraId, regions[..n], streams);
    SeqOn(lang, a, b, cameraId, regions[..n], at, now, streams);
    SeqKeepsRule(lang, a, cameraId, regions[..n], at, now);
    SeqOnStep(lang, RegionSeq(lang, a, cameraId, regions[..n], at, now),
              RegionSeq(lang, b, cameraId, before, at, now), cameraId, regions[n], at, now, streams);
    SeqStep(lang, b, cameraId, before, regions[n], at, now);
  }

  /** One region more: on the right only if it matters. */
  lemma SeqOnStep(lang: Language, x: (Slice, seq<Firing>), y: (Slice, seq<Firing>), cameraId: string, r: Region,
                  at: int, now: int, streams: set<string>)
    requires Agree(x, y, streams)
    ensures var (x', out) := SliceRegion(lang, x.0, cameraId, r, at, now);
            var (y', out') := SliceRegion(lang, y.0, cameraId, r, at, now);
            && (Matters(x.0, cameraId, r, streams) ==> Agree((x', x.1 + out), (y', y.1 + out'), streams))
            && (!Matters(x.0, cameraId, r, streams) ==> Agree((x', x.1 + out), y, streams))
  {
    RegionOn(lang, x.0, y.0, cameraId, r, at, now, streams);
    if !Matters(x.0, cameraId, r, streams) {
      RegionOff(lang, x.0, y.0, cameraId, r, at, now, streams);
      assert x.1 + [] == x.1;
    }
  }

  // ---------------------------------------------------------------------------------------------
  // Runs
  // ---------------------------------------------------------------------------------------------

  lemma StateOn(lang: Language, a: Slice, b: Slice, p: StatePayload, q: StatePayload, now: int, streams: set<string>)
    requires AlikeOn(a, b, streams) && q == p.(regions := Mattering(a, p.camera, p.regions, streams))
    ensures Agree(SliceRegions(lang, a, p, now), SliceRegions(lang, b, q, now), streams)
  {
    FoldIsSeq(lang, a, p, |p.regions|, now);
    FoldIsSeq(lang, b, q, |q.regions|, now);
    assert p.regions[..|p.regions|] == p.regions && q.regions[..|q.regions|] == q.regions;
    SeqOn(lang, a, b, p.camera, p.regions, p.emittedAt, now, streams);
  }

  lemma EventOn(lang: Language, a: Slice, b: Slice, event: EventPayload, now: int, streams: set<string>)
    requires AlikeOn(a, b, streams)
    ensures Agree(SliceEvent(lang, a, event, now), SliceEvent(lang, b, event, now), streams)
  {
    if WantsEvent(a, event.camera, event.kind) {
      EvaluateOn(lang, a, b, FedEvent(a.local, a.rule.value, EntryOf(event)), event.emittedAt, event.camera,
                 event.roiId, now, streams);
    }
  }

  lemma LifecycleOn(lang: Language, id: string, a: Slice, b: Slice, step: Step, streams: set<string>)
    requires AlikeOn(a, b, streams) && RegistersWithin(lang, step.action, id, streams)
    requires !step.action.PostState? && !step.action.PostEvent?
    ensures Agree(SliceStep(lang, id, a, step), SliceStep(lang, id, b, step), streams)
  {
  }

  lemma NothingLeft(lang: Language, id: string, a: Slice, b: Slice, step: Step, streams: set<string>)
    requires AlikeOn(a, b, streams) && LeftOf(a, id, step, streams) == []
    ensures Agree(SliceStep(lang, id, a, step), (b, []), streams)
  {
    match step.action
    case PostState(p) =>
      StateOn(lang, a, b, p, p.(regions := []), step.now, streams);
    case _ =>
  }

  lemma StepOn(lang: Language, id: string, a: Slice, b: Slice, step: Step, left: Step, streams: set<string>)
    requires AlikeOn(a, b, streams) && RegistersWithin(lang, step.action, id, streams)
    requires LeftOf(a, id, step, streams) == [left]
    ensures Agree(SliceStep(lang, id, a, step), SliceStep(lang, id, b, left), streams)
  {
    match step.action
    case PostState(p) => StateOn(lang, a, b, p, left.action.state, step.now, streams);
    case PostEvent(event) => EventOn(lang, a, b, event, step.now, streams);
    case _ => LifecycleOn(lang, id, a, b, step, streams);
  }

  lemma AgreeFurther(before: (Slice, seq<Firing>), before': (Slice, seq<Firing>), after: (Slice, seq<Firing>),
                     after': (Slice, seq<Firing>), streams: set<string>)
    requires Agree(before, before', streams) && Agree(after, after', streams)
    ensures Agree((after.0, before.1 + after.1), (after'.0, before'.1 + after'.1), streams)
  {
  }

  lemma {:induction false} RunOn(lang: Language, id: string, sl: Slice, run: seq<Step>, streams: set<string>)
    requires sl.rule.Some? ==> ReadsOnly(sl.rule.value.rule, streams)
    requires forall i :: 0 <= i < |run| ==> RegistersWithin(lang, run[i].action, id, streams)
    ensures Agree(SliceRun(lang, id, sl, run), SliceRun(lang, id, sl, Relevant(lang, id, sl, run, streams)), streams)
  {
    if run == [] {
      return;
    }
    var past, step := run[..|run| - 1], run[|run| - 1];
    var few := Relevant(lang, id, sl, past, streams);
    RunOn(lang, id, sl, past, streams);
    var x, y := SliceRun(lang, id, sl, past), SliceRun(lang, id, sl, few);
    var left := LeftOf(x.0, id, step, streams);
    if left == [] {
      NothingLeft(lang, id, x.0, y.0, step, streams);
      AgreeFurther(x, y, SliceStep(lang, id, x.0, step), (y.0, []), streams);
      assert few + [] == few && y.1 + [] == y.1;
    } else {
      assert left == [left[0]];
      StepOn(lang, id, x.0, y.0, step, left[0], streams);
      AgreeFurther(x, y, SliceStep(lang, id, x.0, step), SliceStep(lang, id, y.0, left[0]), streams);
      Isolation.SliceRunStep(lang, id, sl, few, left[0]);
    }
  }

  /** Non-interference of messages: in any run, with any orders of visits, a rule fires exactly as in any
      run from the same engine in which, besides every step about other rules, every event that is not
      dispatched to it and every snapshot that is neither dispatched to it nor filed where some version
      of it reads are erased. */
  lemma MessagesDoNotInterfere(lang: Language, id: string, run: seq<Step>, trace: seq<State>, alone: seq<State>,
                               streams: set<string>)
    requires Execution(lang, run, trace) && Filed(trace[0])
    requires id in trace[0].rules ==> ReadsOnly(trace[0].rules[id].rule, streams)
    requires forall i :: 0 <= i < |run| ==> RegistersWithin(lang, run[i].action, id, streams)
    requires Execution(lang, Relevant(lang, id, SliceOf(trace[0], id), run, streams), alone) && alone[0] == trace[0]
    ensures LogOf(trace[|trace| - 1].log, id) == LogOf(alone[|alone| - 1].log, id)
  {
    var sl := SliceOf(trace[0], id);
    ExecutionSlice(lang, run, trace, id);
    ExecutionSlice(lang, Relevant(lang, id, sl, run, streams), alone, id);
    RunOn(lang, id, sl, run, streams);
  }
}
