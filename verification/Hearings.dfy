/** What a rule hears: the evaluations that a run of the engine makes of it, message by message, and
    the log that they leave behind. */
module Hearings {
  import opened Common
  import opened Payloads
  import opened Evaluation
  import opened EngineSpec
  import opened Slices
  import T = Trigger

  /** One evaluation of a rule, and the record that the log gets if it fires. */
  datatype Hearing = Hearing(evaluation: T.Evaluation, firing: Firing)

  // ---------------------------------------------------------------------------------------------
  // The evaluations a message causes
  // ---------------------------------------------------------------------------------------------

  /** The condition holds when every dependency is fresh and the expression is true of the
      environment with the window's aggregates. */
  ghost function HearingOf(lang: Language, sl: Slice, fed: Local, at: int, cameraId: string, roiId: string,
                           now: int): Hearing
    requires sl.rule.Some?
  {
    var r := sl.rule.value;
    var (env, allFresh) := Context(r.rule.dependencies, sl.cache, now);
    var holds := allFresh && lang.run(r.program, WindowBound(fed, r, env).1) == True;
    Hearing(T.Evaluation(holds, at, r.rule.TriggerConfig()), FiringOf(r, at, cameraId, roiId))
  }

  /** A region's snapshot is heard by the rules that want it, after the cache has taken it in. */
  ghost function HeardRegion(lang: Language, sl: Slice, cameraId: string, region: Region, at: int,
                             now: int): seq<Hearing>
  {
    if !WantsState(sl, cameraId, region.roiId) then []
    else
      var seen := SliceObserve(sl, cameraId, region, at, now);
      [HearingOf(lang, seen, FedState(sl.local, sl.rule.value, SnapshotOf(cameraId, region, at)), at, cameraId,
                 region.roiId, now)]
  }

  ghost function HeardOne(lang: Language, p: StatePayload, now: int): (Slice, nat) -> seq<Hearing> {
    (sl: Slice, i: nat) =>
      if i < |p.regions| then HeardRegion(lang, sl, p.camera, p.regions[i], p.emittedAt, now) else []
  }

  /** What `g` collects from the slices before each of `n` rounds of `f`. */
  ghost function Rounds(f: (Slice, nat) -> (Slice, seq<Firing>), g: (Slice, nat) -> seq<Hearing>, sl: Slice,
                        n: nat): seq<Hearing>
  {
    if n == 0 then [] else Rounds(f, g, sl, n - 1) + g(Fold(f, sl, n - 1).0, n - 1)
  }

  /** The first `n` regions of a payload, each heard after the ones before it. */
  ghost function HeardRegions(lang: Language, sl: Slice, p: StatePayload, n: nat, now: int): seq<Hearing> {
    Rounds(OneRegion(lang, p, now), HeardOne(lang, p, now), sl, n)
  }

  ghost function HeardEvent(lang: Language, sl: Slice, event: EventPayload, now: int): seq<Hearing> {
    if !WantsEvent(sl, event.camera, event.kind) then []
    else [HearingOf(lang, sl, FedEvent(sl.local, sl.rule.value, EntryOf(event)), event.emittedAt, event.camera,
                    event.roiId, now)]
  }

  ghost function HeardStep(lang: Language, sl: Slice, step: Step): seq<Hearing> {
    match step.action
    case PostState(p) => HeardRegions(lang, sl, p, |p.regions|, step.now)
    case PostEvent(event) => HeardEvent(lang, sl, event, step.now)
    case _ => []
  }

  /** What rule `id` hears at each step of a run. */
  ghost function HeardAt(lang: Language, id: string, run: seq<Step>, trace: seq<State>): seq<seq<Hearing>>
    requires |trace| == |run| + 1
  {
    seq(|run|, k requires 0 <= k < |run| => HeardStep(lang, SliceOf(trace[k], id), run[k]))
  }

  function Joined(parts: seq<seq<Hearing>>, m: nat, n: nat): seq<Hearing>
    requires m <= n <= |parts|
  {
    if n == m then [] else Joined(parts, m, n - 1) + parts[n - 1]
  }

  /** Everything rule `id` hears in the steps `m..n` of a run, in order. */
  ghost function Heard(lang: Language, id: string, run: seq<Step>, trace: seq<State>, m: nat, n: nat): seq<Hearing>
    requires m <= n <= |run| && |trace| == |run| + 1
  {
    Joined(HeardAt(lang, id, run, trace), m, n)
  }

  // Who hears what is decided by dispatch.

  lemma EventIsHeardIff(lang: Language, s: State, event: EventPayload, now: int, id: string)
    ensures |HeardEvent(lang, SliceOf(s, id), event, now)| ==
            if id in EventTargets(s, event.camera, event.kind) then 1 else 0
  {
  }

  lemma RegionIsHeardIff(lang: Language, s: State, sl: Slice, cameraId: string, region: Region, at: int, now: int,
                         id: string)
    requires sl.rule == SliceOf(s, id).rule && sl.keys == SliceOf(s, id).keys
    ensures |HeardRegion(lang, sl, cameraId, region, at, now)| ==
            if id in StateTargets(s, cameraId, region.roiId) then 1 else 0
  {
  }

  lemma {:induction false} RoundsKeepRule(lang: Language, sl: Slice, p: StatePayload, n: nat, now: int)
    requires n <= |p.regions|
    ensures var after := Fold(OneRegion(lang, p, now), sl, n).0; after.rule == sl.rule && after.keys == sl.keys
  {
    if n > 0 {
      RoundsKeepRule(lang, sl, p, n - 1, now);
    }
  }

  /** How many of the first `n` regions are dispatched to a rule. */
  ghost function Dispatched(s: State, p: StatePayload, n: nat, id: string): nat
    requires n <= |p.regions|
  {
    if n == 0 then 0
    else Dispatched(s, p, n - 1, id) + if id in StateTargets(s, p.camera, p.regions[n - 1].roiId) then 1 else 0
  }

  /** A rule hears a payload once per region dispatched to it. */
  lemma {:induction false} RegionsAreHeard(lang: Language, s: State, p: StatePayload, n: nat, now: int, id: string)
    requires n <= |p.regions|
    ensures |HeardRegions(lang, SliceOf(s, id), p, n, now)| == Dispatched(s, p, n, id)
  {
    if n > 0 {
      RegionsAreHeard(lang, s, p, n - 1, now, id);
      RoundsKeepRule(lang, SliceOf(s, id), p, n - 1, now);
      RegionIsHeardIff(lang, s, Fold(OneRegion(lang, p, now), SliceOf(s, id), n - 1).0, p.camera, p.regions[n - 1],
                       p.emittedAt, now, id);
    }
  }

  // ---------------------------------------------------------------------------------------------
  // The log that hearings leave
  // ---------------------------------------------------------------------------------------------

  function Evaluations(hs: seq<Hearing>): T.History {
    seq(|hs|, i requires 0 <= i < |hs| => hs[i].evaluation)
  }

  /** The records of the marked hearings, in order. */
  function Marked(hs: seq<Hearing>, marks: seq<bool>): seq<Firing>
    requires |marks| == |hs|
  {
    if hs == [] then []
    else
      var n := |hs| - 1;
      if marks[n] then Marked(hs[..n], marks[..n]) + [hs[n].firing] else Marked(hs[..n], marks[..n])
  }

  /** The records of the hearings that the trigger machine, started afresh, fires on. */
  function Fired(hs: seq<Hearing>): seq<Firing> {
    Marked(hs, T.Firings(Evaluations(hs)))
  }

  /** The machine driven by the hearings: its fields and the records it leaves. */
  function Machine(hs: seq<Hearing>): (T.Timers, seq<Firing>) {
    if hs == [] then (T.INITIAL, [])
    else
      var (before, out) := Machine(hs[..|hs| - 1]);
      var (after, fired) := T.Step(before, hs[|hs| - 1].evaluation);
      (after, if fired then out + [hs[|hs| - 1].firing] else out)
  }

  lemma {:induction false} StateBeforeExtends(h: T.History, e: T.Evaluation, i: nat)
    requires i <= |h|
    ensures T.StateBefore(h + [e], i) == T.StateBefore(h, i)
  {
    if i > 0 {
      StateBeforeExtends(h, e, i - 1);
      assert (h + [e])[i - 1] == h[i - 1];
    }
  }

  lemma FiresExtends(h: T.History, e: T.Evaluation, i: nat)
    requires i < |h|
    ensures T.Fires(h + [e], i) == T.Fires(h, i)
  {
    StateBeforeExtends(h, e, i);
    assert (h + [e])[i] == h[i];
  }

  lemma FiringsPrefix(h: T.History, e: T.Evaluation)
    ensures T.Firings(h + [e])[..|h|] == T.Firings(h)
  {
    forall i | 0 <= i < |h|
      ensures T.Firings(h + [e])[i] == T.Firings(h)[i]
    {
      FiresExtends(h, e, i);
    }
  }

  lemma Snoc(s: seq<bool>)
    requires s != []
    ensures s == s[..|s| - 1] + [s[|s| - 1]]
  {
  }

  lemma FiringsExtend(h: T.History, e: T.Evaluation)
    ensures T.Firings(h + [e]) == T.Firings(h) + [T.Step(T.StateBefore(h, |h|), e).1]
  {
    FiringsPrefix(h, e);
    StateBeforeExtends(h, e, |h|);
    assert (h + [e])[|h|] == e;
    Snoc(T.Firings(h + [e]));
  }

  lemma StateExtends(h: T.History, e: T.Evaluation)
    ensures T.StateBefore(h + [e], |h| + 1) == T.Step(T.StateBefore(h, |h|), e).0
  {
    StateBeforeExtends(h, e, |h|);
    assert (h + [e])[|h|] == e;
  }

  lemma MarkedStep(hs: seq<Hearing>, marks: seq<bool>, x: Hearing, mark: bool)
    requires |marks| == |hs|
    ensures Marked(hs + [x], marks + [mark]) ==
            if mark then Marked(hs, marks) + [x.firing] else Marked(hs, marks)
  {
    assert (hs + [x])[..|hs|] == hs && (marks + [mark])[..|marks|] == marks;
  }

  lemma {:induction false} MachineIsTrigger(hs: seq<Hearing>)
    ensures Machine(hs) == (T.StateBefore(Evaluations(hs), |hs|), Fired(hs))
  {
    if hs != [] {
      var past, x := hs[..|hs| - 1], hs[|hs| - 1];
      var h := Evaluations(past);
      MachineIsTrigger(past);
      assert hs == past + [x] && Evaluations(hs) == h + [x.evaluation];
      StateExtends(h, x.evaluation);
      FiringsExtend(h, x.evaluation);
      MarkedStep(past, T.Firings(h), x, T.Step(T.StateBefore(h, |h|), x.evaluation).1);
    }
  }

  lemma MachineStep(hs: seq<Hearing>, x: Hearing)
    ensures var (after, fired) := T.Step(Machine(hs).0, x.evaluation);
            Machine(hs + [x]) == (after, if fired then Machine(hs).1 + [x.firing] else Machine(hs).1)
  {
    assert (hs + [x])[..|hs|] == hs;
  }

  // ---------------------------------------------------------------------------------------------
  // The engine's log is the log of what was heard
  // ---------------------------------------------------------------------------------------------

  /** The trigger state is where the machine is after the hearings. */
  ghost predicate Tracks(sl: Slice, hs: seq<Hearing>) {
    Machine(hs).0 == sl.local.timers.GetOr(T.INITIAL)
  }

  /** The slice after some firings, given that the hearings were `hs` before and are `gs` now. */
  ghost predicate TracksOn(r: (Slice, seq<Firing>), hs: seq<Hearing>, gs: seq<Hearing>) {
    Machine(gs) == (r.0.local.timers.GetOr(T.INITIAL), Machine(hs).1 + r.1)
  }

  lemma EvaluateTracks(lang: Language, sl: Slice, hs: seq<Hearing>, fed: Local, at: int, cameraId: string,
                       roiId: string, now: int)
    requires sl.rule.Some? && Tracks(sl, hs) && fed.timers == sl.local.timers
    ensures TracksOn(SliceEvaluate(lang, sl, fed, at, cameraId, roiId, now), hs,
                     hs + [HearingOf(lang, sl, fed, at, cameraId, roiId, now)])
  {
    MachineStep(hs, HearingOf(lang, sl, fed, at, cameraId, roiId, now));
    assert Machine(hs).1 + [] == Machine(hs).1;
  }

  lemma NothingHeard(sl: Slice, hs: seq<Hearing>)
    requires Tracks(sl, hs)
    ensures TracksOn((sl, []), hs, hs + [])
  {
    assert hs + [] == hs && Machine(hs).1 + [] == Machine(hs).1;
  }

  lemma RegionTracks(lang: Language, sl: Slice, hs: seq<Hearing>, cameraId: string, region: Region, at: int, now: int)
    requires Tracks(sl, hs)
    ensures TracksOn(SliceRegion(lang, sl, cameraId, region, at, now), hs,
                     hs + HeardRegion(lang, sl, cameraId, region, at, now))
  {
    var seen := SliceObserve(sl, cameraId, region, at, now);
    if !WantsState(sl, cameraId, region.roiId) {
      NothingHeard(seen, hs);
      return;
    }
    EvaluateTracks(lang, seen, hs, FedState(sl.local, sl.rule.value, SnapshotOf(cameraId, region, at)), at, cameraId,
                   region.roiId, now);
  }

  lemma EventTracks(lang: Language, sl: Slice, hs: seq<Hearing>, event: EventPayload, now: int)
    requires Tracks(sl, hs)
    ensures TracksOn(SliceEvent(lang, sl, event, now), hs, hs + HeardEvent(lang, sl, event, now))
  {
    if !WantsEvent(sl, event.camera, event.kind) {
      NothingHeard(sl, hs);
      return;
    }
    EvaluateTracks(lang, sl, hs, FedEvent(sl.local, sl.rule.value, EntryOf(event)), event.emittedAt, event.camera,
                   event.roiId, now);
  }

  lemma TracksFurther(before: (Slice, seq<Firing>), after: (Slice, seq<Firing>), hs: seq<Hearing>,
                      earlier: seq<Hearing>, more: seq<Hearing>)
    requires TracksOn(before, hs, hs + earlier) && TracksOn(after, hs + earlier, hs + earlier + more)
    ensures TracksOn((after.0, before.1 + after.1), hs, hs + (earlier + more))
  {
    assert Machine(hs).1 + before.1 + after.1 == Machine(hs).1 + (before.1 + after.1);
    assert hs + earlier + more == hs + (earlier + more);
  }

  lemma {:induction false} RoundsTrack(f: (Slice, nat) -> (Slice, seq<Firing>), g: (Slice, nat) -> seq<Hearing>,
                                       sl: Slice, hs: seq<Hearing>, n: nat)
    requires Tracks(sl, hs)
    requires forall x, ks, i: nat {:trigger Tracks(x, ks), f(x, i)} :: i < n && Tracks(x, ks) ==>
               TracksOn(f(x, i), ks, ks + g(x, i))
    ensures TracksOn(Fold(f, sl, n), hs, hs + Rounds(f, g, sl, n))
  {
    if n == 0 {
      NothingHeard(sl, hs);
      return;
    }
    RoundsTrack(f, g, sl, hs, n - 1);
    var before, earlier := Fold(f, sl, n - 1), Rounds(f, g, sl, n - 1);
    assert Tracks(before.0, hs + earlier);
    TracksFurther(before, f(before.0, n - 1), hs, earlier, g(before.0, n - 1));
  }

  lemma RegionsTrack(lang: Language, sl: Slice, hs: seq<Hearing>, p: StatePayload, now: int)
    requires Tracks(sl, hs)
    ensures TracksOn(SliceRegions(lang, sl, p, now), hs, hs + HeardRegions(lang, sl, p, |p.regions|, now))
  {
    forall x, ks, i: nat | i < |p.regions| && Tracks(x, ks)
      ensures TracksOn(OneRegion(lang, p, now)(x, i), ks, ks + HeardOne(lang, p, now)(x, i))
    {
      RegionTracks(lang, x, ks, p.camera, p.regions[i], p.emittedAt, now);
    }
    RoundsTrack(OneRegion(lang, p, now), HeardOne(lang, p, now), sl, hs, |p.regions|);
  }

  /** The action forgets rule `id`, its trigger state included. */
  predicate Removes(action: Action, id: string) {
    match action
    case UnregisterRule(r) => r == id
    case UpdateRule(rule) => rule.id == id
    case _ => false
  }

  lemma StepTracks(lang: Language, id: string, sl: Slice, hs: seq<Hearing>, step: Step)
    requires Tracks(sl, hs) && !Removes(step.action, id)
    ensures TracksOn(SliceStep(lang, id, sl, step), hs, hs + HeardStep(lang, sl, step))
  {
    match step.action
    case PostState(p) => RegionsTrack(lang, sl, hs, p, step.now);
    case PostEvent(event) => EventTracks(lang, sl, hs, event, step.now);
    case _ => NothingHeard(SliceStep(lang, id, sl, step).0, hs);
  }

  /** The steps `m..n` of a run never remove rule `id`. It may be registered any number of times. */
  ghost predicate Unremoved(lang: Language, id: string, run: seq<Step>, trace: seq<State>, m: nat, n: nat) {
    && m <= n <= |run|
    && Execution(lang, run, trace) && Filed(trace[0])
    && forall k :: m <= k < n ==> !Removes(run[k].action, id)
  }

  /** They also begin without a trigger state for it. */
  ghost predicate Stretch(lang: Language, id: string, run: seq<Step>, trace: seq<State>, m: nat, n: nat) {
    Unremoved(lang, id, run, trace, m, n) && id !in trace[m].timers
  }

  /** From view `v` to view `w` the rule hears `part`, and the log grows by what the machine makes of it. */
  ghost predicate Advances(v: View, part: seq<Hearing>, w: View) {
    && v.log <= w.log
    && forall hs :: Tracks(v.slice, hs) ==> TracksOn((w.slice, w.log[|v.log|..]), hs, hs + part)
  }

  lemma StepAdvances(lang: Language, id: string, s: State, step: Step, t: State)
    requires Filed(s) && Next(lang, s, step, t) && !Removes(step.action, id)
    ensures Advances(ViewOf(s, id), HeardStep(lang, SliceOf(s, id), step), ViewOf(t, id))
  {
    var sl, v, w := SliceOf(s, id), ViewOf(s, id), ViewOf(t, id);
    NextSlice(lang, s, step, t, id);
    var (after, out) := SliceStep(lang, id, sl, step);
    assert w == View(after, v.log + out) && w.log[|v.log|..] == out;
    forall hs | Tracks(v.slice, hs)
      ensures TracksOn((w.slice, w.log[|v.log|..]), hs, hs + HeardStep(lang, sl, step))
    {
      StepTracks(lang, id, sl, hs, step);
    }
  }

  lemma AdvanceOn(base: seq<Firing>, v: View, hs: seq<Hearing>, part: seq<Hearing>, w: View)
    requires Advances(v, part, w) && Tracks(v.slice, hs) && v.log == base + Machine(hs).1
    ensures Tracks(w.slice, hs + part) && w.log == base + Machine(hs + part).1
  {
    assert w.log == v.log + w.log[|v.log|..];
    assert base + Machine(hs).1 + w.log[|v.log|..] == base + (Machine(hs).1 + w.log[|v.log|..]);
  }

  /** A chain of views, each advancing from the one before it. */
  lemma {:induction false} ChainAdvances(views: seq<View>, parts: seq<seq<Hearing>>, m: nat, n: nat)
    requires m <= n <= |parts| && |views| == |parts| + 1
    requires views[m].slice.local.timers.None?
    requires forall k :: m <= k < n ==> Advances(views[k], parts[k], views[k + 1])
    ensures Tracks(views[n].slice, Joined(parts, m, n))
    ensures views[n].log == views[m].log + Machine(Joined(parts, m, n)).1
  {
    if n == m {
      assert views[m].log + [] == views[m].log;
      return;
    }
    ChainAdvances(views, parts, m, n - 1);
    assert Advances(views[n - 1], parts[n - 1], views[n - 1 + 1]);
    AdvanceOn(views[m].log, views[n - 1], Joined(parts, m, n - 1), parts[n - 1], views[n]);
  }

  ghost function Views(trace: seq<State>, id: string): seq<View> {
    seq(|trace|, k requires 0 <= k < |trace| => ViewOf(trace[k], id))
  }

  lemma RunAdvances(lang: Language, id: string, run: seq<Step>, trace: seq<State>, k: nat)
    requires Execution(lang, run, trace) && Filed(trace[0]) && k < |run| && !Removes(run[k].action, id)
    ensures Advances(Views(trace, id)[k], HeardAt(lang, id, run, trace)[k], Views(trace, id)[k + 1])
  {
    ExecutionIsFiled(lang, run, trace, k);
    StepAdvances(lang, id, trace[k], run[k], trace[k + 1]);
  }

  lemma MachineRuns(lang: Language, id: string, run: seq<Step>, trace: seq<State>, m: nat, n: nat)
    requires Stretch(lang, id, run, trace, m, n)
    ensures LogOf(trace[n].log, id) ==
            LogOf(trace[m].log, id) + Machine(Heard(lang, id, run, trace, m, n)).1
  {
    var views, parts := Views(trace, id), HeardAt(lang, id, run, trace);
    forall k | m <= k < n
      ensures Advances(views[k], parts[k], views[k + 1])
    {
      RunAdvances(lang, id, run, trace, k);
    }
    ChainAdvances(views, parts, m, n);
  }

  /** Over a stretch the engine's log of a rule grows by the records of exactly those hearings that
      the trigger machine fires on. */
  lemma LogIsFired(lang: Language, id: string, run: seq<Step>, trace: seq<State>, m: nat, n: nat)
    requires Stretch(lang, id, run, trace, m, n)
    ensures LogOf(trace[n].log, id) == LogOf(trace[m].log, id) + Fired(Heard(lang, id, run, trace, m, n))
  {
    MachineRuns(lang, id, run, trace, m, n);
    MachineIsTrigger(Heard(lang, id, run, trace, m, n));
  }
}
