/** The observation cache in a running engine: what reads as fresh is what was posted in the last thirty
    seconds, and no event makes a rule true without it. */
module Recency {
  import opened Common
  import opened Payloads
  import opened Evaluation
  import opened EngineSpec
  import opened Slices
  import opened Hearings
  import O = Observations
  import Coverage
  import Isolation

  /** What a step does to the cache. */
  function CacheOps(step: Step): seq<O.Op> {
    match step.action
    case PostState(p) => Refreshes(p, |p.regions|, step.now)
    case CleanUp => [O.Sweep(step.now)]
    case _ => []
  }

  function Refreshes(p: StatePayload, n: nat, now: int): seq<O.Op>
    requires n <= |p.regions|
  {
    if n == 0 then [] else Refreshes(p, n - 1, now) + [O.Refresh(p.camera, p.regions[n - 1], p.emittedAt, now)]
  }

  function RunOps(run: seq<Step>, n: nat): seq<O.Op>
    requires n <= |run|
  {
    if n == 0 then [] else RunOps(run, n - 1) + CacheOps(run[n - 1])
  }

  // ---------------------------------------------------------------------------------------------
  // The engine's cache is the cache after these operations
  // ---------------------------------------------------------------------------------------------

  lemma AfterOne(ops: seq<O.Op>, op: O.Op)
    ensures O.After(ops + [op], TTL) == O.Apply(O.After(ops, TTL), op, TTL)
  {
    assert (ops + [op])[..|ops + [op]| - 1] == ops;
  }

  lemma RegionCache(lang: Language, s: State, p: StatePayload, orders: seq<seq<string>>, n: nat, now: int)
    requires AreOrdersOf(orders, s, p) && 0 < n <= |orders|
    ensures ProcessState(lang, s, p, orders, n, now).cache ==
            O.Updated(ProcessState(lang, s, p, orders, n - 1, now).cache, p.camera, p.regions[n - 1], p.emittedAt, TTL,
                      now)
  {
  }

  /** The caches between the regions of a payload. */
  ghost function Caches(lang: Language, s: State, p: StatePayload, orders: seq<seq<string>>, now: int): seq<O.Cache>
    requires AreOrdersOf(orders, s, p)
  {
    seq(|orders| + 1, k requires 0 <= k <= |orders| => ProcessState(lang, s, p, orders, k, now).cache)
  }

  lemma CachesStep(lang: Language, s: State, p: StatePayload, orders: seq<seq<string>>, now: int, k: nat)
    requires AreOrdersOf(orders, s, p) && k < |orders|
    ensures Caches(lang, s, p, orders, now)[k + 1] ==
            O.Updated(Caches(lang, s, p, orders, now)[k], p.camera, p.regions[k], p.emittedAt, TTL, now)
  {
    RegionCache(lang, s, p, orders, k + 1, now);
  }

  lemma {:induction false} CachesAreRefreshed(caches: seq<O.Cache>, p: StatePayload, n: nat, now: int, ops: seq<O.Op>)
    requires n <= |p.regions| && |caches| == |p.regions| + 1 && caches[0] == O.After(ops, TTL)
    requires forall k :: 0 <= k < n ==>
               caches[k + 1] == O.Updated(caches[k], p.camera, p.regions[k], p.emittedAt, TTL, now)
    ensures caches[n] == O.After(ops + Refreshes(p, n, now), TTL)
  {
    if n == 0 {
      assert ops + [] == ops;
    } else {
      var op := O.Refresh(p.camera, p.regions[n - 1], p.emittedAt, now);
      CachesAreRefreshed(caches, p, n - 1, now, ops);
      AfterOne(ops + Refreshes(p, n - 1, now), op);
      assert caches[n - 1 + 1] == O.Updated(caches[n - 1], p.camera, p.regions[n - 1], p.emittedAt, TTL, now);
      assert ops + Refreshes(p, n - 1, now) + [op] == ops + Refreshes(p, n, now);
    }
  }

  lemma PayloadCache(lang: Language, s: State, p: StatePayload, orders: seq<seq<string>>, now: int, ops: seq<O.Op>)
    requires AreOrdersOf(orders, s, p) && s.cache == O.After(ops, TTL)
    ensures ProcessState(lang, s, p, orders, |orders|, now).cache == O.After(ops + Refreshes(p, |orders|, now), TTL)
  {
    var caches := Caches(lang, s, p, orders, now);
    forall k | 0 <= k < |orders|
      ensures caches[k + 1] == O.Updated(caches[k], p.camera, p.regions[k], p.emittedAt, TTL, now)
    {
      CachesStep(lang, s, p, orders, now, k);
    }
    CachesAreRefreshed(caches, p, |orders|, now, ops);
  }

  lemma NextCache(lang: Language, s: State, step: Step, t: State, ops: seq<O.Op>)
    requires Next(lang, s, step, t) && s.cache == O.After(ops, TTL)
    ensures t.cache == O.After(ops + CacheOps(step), TTL)
  {
    match step.action
    case PostState(p) =>
      var orders :| AreOrdersOf(orders, s, p) && t == ProcessState(lang, s, p, orders, |orders|, step.now);
      PayloadCache(lang, s, p, orders, step.now, ops);
    case CleanUp => AfterOne(ops, O.Sweep(step.now));
    case _ => assert ops + [] == ops;
  }

  ghost predicate Refreshed(run: seq<Step>, trace: seq<State>, k: nat) {
    k <= |run| && k < |trace| && trace[k].cache == O.After(RunOps(run, k), TTL)
  }

  lemma RefreshedNext(lang: Language, run: seq<Step>, trace: seq<State>, k: nat)
    requires Execution(lang, run, trace) && k < |run| && Refreshed(run, trace, k)
    ensures Refreshed(run, trace, k + 1)
  {
    NextCache(lang, trace[k], run[k], trace[k + 1], RunOps(run, k));
  }

  lemma AllRefreshedNext(lang: Language, run: seq<Step>, trace: seq<State>)
    requires Execution(lang, run, trace)
    ensures forall k: nat :: k < |run| && Refreshed(run, trace, k) ==> Refreshed(run, trace, k + 1)
  {
    forall k: nat | k < |run| && Refreshed(run, trace, k)
      ensures Refreshed(run, trace, k + 1)
    {
      RefreshedNext(lang, run, trace, k);
    }
  }

  lemma {:induction false} RefreshedUpTo(run: seq<Step>, trace: seq<State>, n: nat)
    requires Refreshed(run, trace, 0) && n <= |run|
    requires forall k: nat :: k < |run| && Refreshed(run, trace, k) ==> Refreshed(run, trace, k + 1)
    ensures Refreshed(run, trace, n)
  {
    if n > 0 {
      RefreshedUpTo(run, trace, n - 1);
      assert Refreshed(run, trace, n - 1 + 1);
    }
  }

  lemma CacheIsRefreshed(lang: Language, run: seq<Step>, trace: seq<State>, n: nat)
    requires Execution(lang, run, trace) && trace[0] == EMPTY && n <= |run|
    ensures Refreshed(run, trace, n)
  {
    AllRefreshedNext(lang, run, trace);
    RefreshedUpTo(run, trace, n);
  }

  // ---------------------------------------------------------------------------------------------
  // The operations are in order of the clock
  // ---------------------------------------------------------------------------------------------

  ghost predicate AllAt(ops: seq<O.Op>, now: int) {
    forall i :: 0 <= i < |ops| ==> ops[i].now == now
  }

  lemma {:induction false} RefreshesAt(p: StatePayload, n: nat, now: int, cameras: iset<string>)
    requires n <= |p.regions| && p.camera in cameras
    ensures AllAt(Refreshes(p, n, now), now) && O.CamerasIn(Refreshes(p, n, now), cameras)
  {
    if n > 0 {
      RefreshesAt(p, n - 1, now, cameras);
    }
  }

  lemma MonotoneAppend(ops: seq<O.Op>, more: seq<O.Op>, early: int, late: int)
    requires O.Monotone(ops, early) && early <= late && AllAt(more, late)
    ensures O.Monotone(ops + more, late)
  {
  }

  /** The cameras that states are posted for. */
  ghost predicate PostedFrom(run: seq<Step>, cameras: iset<string>) {
    forall i :: 0 <= i < |run| && run[i].action.PostState? ==> run[i].action.state.camera in cameras
  }

  lemma {:induction false} OpsInOrder(run: seq<Step>, n: nat, now: int, cameras: iset<string>)
    requires Isolation.MonotoneClock(run) && PostedFrom(run, cameras) && n <= |run|
    requires forall i :: 0 <= i < n ==> run[i].now <= now
    ensures O.Monotone(RunOps(run, n), now) && O.CamerasIn(RunOps(run, n), cameras)
  {
    if n > 0 {
      var step := run[n - 1];
      OpsInOrder(run, n - 1, step.now, cameras);
      if step.action.PostState? {
        RefreshesAt(step.action.state, |step.action.state.regions|, step.now, cameras);
      }
      MonotoneAppend(RunOps(run, n - 1), CacheOps(step), step.now, step.now);
    }
  }

  // ---------------------------------------------------------------------------------------------
  // The last region posted
  // ---------------------------------------------------------------------------------------------

  /** A region of a payload, and when it arrived. */
  datatype Posted = Posted(region: Region, emittedAt: int, now: int)

  function LastRegion(p: StatePayload, n: nat, roiId: string): Option<Region>
    requires n <= |p.regions|
  {
    if n == 0 then None
    else if p.regions[n - 1].roiId == roiId then Some(p.regions[n - 1])
    else LastRegion(p, n - 1, roiId)
  }

  /** What the step posts for a camera and a region. */
  function PostedAt(step: Step, cameraId: string, roiId: string): Option<Posted> {
    match step.action
    case PostState(p) =>
      if p.camera != cameraId then None
      else
        (match LastRegion(p, |p.regions|, roiId)
         case None => None
         case Some(region) => Some(Posted(region, p.emittedAt, step.now)))
    case _ => None
  }

  /** The last region posted for a camera and an ROI in the first `n` steps. */
  function LastPosted(run: seq<Step>, n: nat, cameraId: string, roiId: string): Option<Posted>
    requires n <= |run|
  {
    if n == 0 then None
    else if PostedAt(run[n - 1], cameraId, roiId).Some? then PostedAt(run[n - 1], cameraId, roiId)
    else LastPosted(run, n - 1, cameraId, roiId)
  }

  function Observed(cameraId: string, posted: Option<Posted>): Option<O.Observation> {
    match posted
    case None => None
    case Some(x) => Some(O.Observed(cameraId, x.region, x.emittedAt, TTL, x.now))
  }

  lemma LastUpdateStep(ops: seq<O.Op>, op: O.Op, cameraId: string, roiId: string)
    ensures O.LastUpdate(ops + [op], cameraId, roiId, TTL) ==
            if op.Refresh? && op.cameraId == cameraId && op.region.roiId == roiId
            then Some(O.Observed(cameraId, op.region, op.emittedAt, TTL, op.now))
            else O.LastUpdate(ops, cameraId, roiId, TTL)
  {
    assert (ops + [op])[..|ops + [op]| - 1] == ops;
  }

  lemma {:induction false} LastRefresh(ops: seq<O.Op>, p: StatePayload, n: nat, now: int, cameraId: string,
                                       roiId: string)
    requires n <= |p.regions|
    ensures O.LastUpdate(ops + Refreshes(p, n, now), cameraId, roiId, TTL) ==
            if p.camera == cameraId && LastRegion(p, n, roiId).Some?
            then Some(O.Observed(cameraId, LastRegion(p, n, roiId).value, p.emittedAt, TTL, now))
            else O.LastUpdate(ops, cameraId, roiId, TTL)
  {
    if n == 0 {
      assert ops + [] == ops;
    } else {
      var op := O.Refresh(p.camera, p.regions[n - 1], p.emittedAt, now);
      LastRefresh(ops, p, n - 1, now, cameraId, roiId);
      LastUpdateStep(ops + Refreshes(p, n - 1, now), op, cameraId, roiId);
      assert ops + Refreshes(p, n - 1, now) + [op] == ops + Refreshes(p, n, now);
    }
  }

  lemma {:induction false} LastUpdateIsLastPosted(run: seq<Step>, n: nat, cameraId: string, roiId: string)
    requires n <= |run|
    ensures O.LastUpdate(RunOps(run, n), cameraId, roiId, TTL) ==
            Observed(cameraId, LastPosted(run, n, cameraId, roiId))
  {
    if n > 0 {
      var ops, step := RunOps(run, n - 1), run[n - 1];
      LastUpdateIsLastPosted(run, n - 1, cameraId, roiId);
      match step.action
      case PostState(p) => LastRefresh(ops, p, |p.regions|, step.now, cameraId, roiId);
      case CleanUp => LastUpdateStep(ops, O.Sweep(step.now), cameraId, roiId);
      case _ => assert ops + [] == ops;
    }
  }

  // ---------------------------------------------------------------------------------------------
  // Main results
  // ---------------------------------------------------------------------------------------------

  /** Posted no more than thirty seconds before `now`; arrivals are recorded in whole seconds. */
  predicate Recent(posted: Option<Posted>, now: int) {
    posted.Some? && now - (posted.value.now / 1_000_000_000) * 1_000_000_000 <= 30_000_000_000
  }

  /** The stream reads as fresh if and only if the last region posted for it is recent, and then what it
      reads is that region. */
  predicate ShowsPost(cache: O.Cache, cameraId: string, roiId: string, last: Option<Posted>, now: int) {
    var (obs, freshness) := O.Get(cache, cameraId, roiId, now);
    && (freshness == O.Fresh <==> Recent(last, now))
    && (freshness == O.Fresh ==>
          && obs.Some? && obs.value.region == last.value.region && obs.value.emittedAt == last.value.emittedAt
          && obs.value.cameraId == cameraId && obs.value.roiId == last.value.region.roiId)
  }

  /** A run from the empty engine, under a monotone clock that has reached `now` after `n` steps, for
      cameras none of whose ids continues another one after a colon. */
  ghost predicate Clocked(lang: Language, run: seq<Step>, trace: seq<State>, n: nat, now: int, cameras: iset<string>) {
    && Execution(lang, run, trace) && trace[0] == EMPTY && n <= |run|
    && Isolation.MonotoneClock(run) && (forall i :: 0 <= i < n ==> run[i].now <= now)
    && O.NoColonExtension(cameras) && PostedFrom(run, cameras)
  }

  lemma ShowsLast(ops: seq<O.Op>, cameras: iset<string>, cameraId: string, roiId: string, last: Option<Posted>,
                  now: int)
    requires O.Monotone(ops, now) && O.CamerasIn(ops, cameras) && O.NoColonExtension(cameras) && cameraId in cameras
    requires O.LastUpdate(ops, cameraId, roiId, TTL) == Observed(cameraId, last)
    ensures ShowsPost(O.After(ops, TTL), cameraId, roiId, last, now)
  {
    O.FreshIsLastUpdate(ops, cameras, cameraId, roiId, TTL, now);
  }

  /** In any such run a dependency reads as fresh if and only if the last region posted for it is recent,
      wherever clean-ups ran, and then it reads that region. */
  lemma {:induction false} EngineFreshIff(lang: Language, run: seq<Step>, trace: seq<State>, n: nat, now: int,
                                         cameras: iset<string>, cameraId: string, roiId: string)
    requires Clocked(lang, run, trace, n, now, cameras) && cameraId in cameras
    ensures ShowsPost(trace[n].cache, cameraId, roiId, LastPosted(run, n, cameraId, roiId), now)
  {
    CacheIsRefreshed(lang, run, trace, n);
    OpsInOrder(run, n, now, cameras);
    LastUpdateIsLastPosted(run, n, cameraId, roiId);
    ShowsLast(RunOps(run, n), cameras, cameraId, roiId, LastPosted(run, n, cameraId, roiId), now);
  }

  // In the middle of a payload.

  /** The last region posted in the first `k` steps and the first `i` regions of the payload after them. */
  function LastPostedUpTo(run: seq<Step>, k: nat, p: StatePayload, i: nat, cameraId: string, roiId: string)
    : Option<Posted>
    requires k < |run| && i <= |p.regions|
  {
    if p.camera == cameraId && LastRegion(p, i, roiId).Some?
    then Some(Posted(LastRegion(p, i, roiId).value, p.emittedAt, run[k].now))
    else LastPosted(run, k, cameraId, roiId)
  }

  lemma {:induction false} RegionsRefresh(lang: Language, sl: Slice, p: StatePayload, i: nat, now: int, ops: seq<O.Op>)
    requires i <= |p.regions| && sl.cache == O.After(ops, TTL)
    ensures Fold(OneRegion(lang, p, now), sl, i).0.cache == O.After(ops + Refreshes(p, i, now), TTL)
  {
    if i == 0 {
      assert ops + [] == ops;
    } else {
      RegionsRefresh(lang, sl, p, i - 1, now, ops);
      var op := O.Refresh(p.camera, p.regions[i - 1], p.emittedAt, now);
      AfterOne(ops + Refreshes(p, i - 1, now), op);
      assert ops + Refreshes(p, i - 1, now) + [op] == ops + Refreshes(p, i, now);
    }
  }

  /** The cache that the rule is evaluated with on the region before the `i`-th, that region included. */
  lemma {:induction false} RegionFreshIff(lang: Language, run: seq<Step>, trace: seq<State>, k: nat, p: StatePayload,
                                         i: nat, cameras: iset<string>, id: string, cameraId: string, roiId: string)
    requires k < |run| && Clocked(lang, run, trace, k, run[k].now, cameras) && cameraId in cameras
    requires run[k].action == PostState(p) && i <= |p.regions|
    ensures ShowsPost(Fold(OneRegion(lang, p, run[k].now), SliceOf(trace[k], id), i).0.cache, cameraId, roiId,
                      LastPostedUpTo(run, k, p, i, cameraId, roiId), run[k].now)
  {
    var now, ops := run[k].now, RunOps(run, k);
    CacheIsRefreshed(lang, run, trace, k);
    RegionsRefresh(lang, SliceOf(trace[k], id), p, i, now, ops);
    OpsInOrder(run, k, now, cameras);
    RefreshesAt(p, i, now, cameras);
    MonotoneAppend(ops, Refreshes(p, i, now), now, now);
    LastUpdateIsLastPosted(run, k, cameraId, roiId);
    LastRefresh(ops, p, i, now, cameraId, roiId);
    ShowsLast(ops + Refreshes(p, i, now), cameras, cameraId, roiId, LastPostedUpTo(run, k, p, i, cameraId, roiId), now);
  }

  /** So the verdict of a rule on an event is true only if a region was posted recently for each of its
      dependencies. */
  lemma {:induction false} TrueNeedsRecentRegions(lang: Language, id: string, run: seq<Step>, trace: seq<State>, k: nat,
                                                 cameras: iset<string>, event: EventPayload, x: Hearing, d: Dependency)
    requires k < |run| && Clocked(lang, run, trace, k, run[k].now, cameras) && run[k].action == PostEvent(event)
    requires HeardStep(lang, SliceOf(trace[k], id), run[k]) == [x] && x.evaluation.holds
    requires d in trace[k].rules[id].rule.dependencies && d.cameraId in cameras
    ensures Recent(LastPosted(run, k, d.cameraId, d.roiId), run[k].now)
  {
    AllFreshIff(trace[k].rules[id].rule.dependencies, trace[k].cache, run[k].now);
    EngineFreshIff(lang, run, trace, k, run[k].now, cameras, d.cameraId, d.roiId);
  }

  /** And an event can make a rule true only if the camera posted a region with an EMPTY id recently:
      events are dispatched by dependencies without an ROI, and these read that region. */
  lemma {:induction false} EventNeedsWholeCamera(lang: Language, id: string, run: seq<Step>, trace: seq<State>, k: nat,
                                                cameras: iset<string>, event: EventPayload, x: Hearing)
    requires k < |run| && Clocked(lang, run, trace, k, run[k].now, cameras) && run[k].action == PostEvent(event)
    requires HeardStep(lang, SliceOf(trace[k], id), run[k]) == [x] && x.evaluation.holds
    requires Coverage.ExactFor(trace[k], id) && event.camera in cameras
    ensures Recent(LastPosted(run, k, event.camera, ""), run[k].now)
  {
    EventIsHeardIff(lang, trace[k], event, run[k].now, id);
    Coverage.EventDispatchAgreesWithScan(trace[k], id, event.camera, event.kind);
    var d :| d in trace[k].rules[id].rule.dependencies && Coverage.AsksForEvent(d, event.camera, event.kind);
    TrueNeedsRecentRegions(lang, id, run, trace, k, cameras, event, x, d);
  }
}
