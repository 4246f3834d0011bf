/** The verdict of a rule, over nothing but the messages posted and the rule as it was submitted. */
module Verdicts {
  import opened Common
  import opened Payloads
  import opened Evaluation
  import opened EngineSpec
  import opened Slices
  import opened Hearings
  import opened WindowGuarantees
  import opened Recency
  import opened Versions
  import Observations
  import Guarantees

  /** The last region posted for a camera and an ROI. */
  type Posts = (string, string) -> Option<Posted>

  /** A recent dependency gives a value to its alias and, when that is "default", to the field names. */
  predicate GivesName(d: Dependency, name: string) {
    d.alias == name || (d.alias == "default" && name in {"occupancy", "staffCount", "dwell", "entities"})
  }

  /** Dependency `i` is the last one that gives a value to `name`. */
  ghost predicate GivesLast(deps: seq<Dependency>, i: nat, name: string) {
    i < |deps| && GivesName(deps[i], name) && forall j :: i < j < |deps| ==> !GivesName(deps[j], name)
  }

  /** What `name` reads is the region posted for the dependency, or the field of it that is called so. */
  ghost predicate ReadsPost(env: Env, d: Dependency, post: Option<Posted>, name: string) {
    && post.Some?
    && if d.alias == name then ReadsRegion(Lookup(env, name), post.value.region)
       else ReadsField(Lookup(env, name), name, post.value.region)
  }

  /** Every name of the environment reads what was posted for the last dependency that gives it. */
  ghost predicate ReadsPosts(env: Env, deps: seq<Dependency>, posts: Posts) {
    && (forall i: nat, name :: GivesLast(deps, i, name) ==>
          ReadsPost(env, deps[i], posts(deps[i].cameraId, deps[i].roiId), name))
    && forall name :: name in env ==> exists d :: d in deps && GivesName(d, name)
  }

  ghost predicate AllRecent(deps: seq<Dependency>, posts: Posts, now: int) {
    forall d :: d in deps ==> Recent(posts(d.cameraId, d.roiId), now)
  }

  ghost predicate ShowsPosts(cache: Observations.Cache, deps: seq<Dependency>, posts: Posts, now: int) {
    forall d :: d in deps ==> ShowsPost(cache, d.cameraId, d.roiId, posts(d.cameraId, d.roiId), now)
  }

  ghost predicate NamesDefault(deps: seq<Dependency>) {
    exists d :: d in deps && d.alias == "default"
  }

  lemma NameReadsPost(deps: seq<Dependency>, cache: Observations.Cache, posts: Posts, now: int, i: nat, name: string)
    requires ShowsPosts(cache, deps, posts, now) && AllRecent(deps, posts, now) && GivesLast(deps, i, name)
    ensures ReadsPost(Context(deps, cache, now).0, deps[i], posts(deps[i].cameraId, deps[i].roiId), name)
  {
    assert forall j :: i <= j < |deps| ==> deps[j] in deps && Seen(deps[j], cache, now).Some?;
    NameReads(deps, cache, now, i, name);
  }

  lemma ContextReadsPosts(deps: seq<Dependency>, cache: Observations.Cache, posts: Posts, now: int)
    requires ShowsPosts(cache, deps, posts, now)
    ensures Context(deps, cache, now).1 <==> AllRecent(deps, posts, now)
    ensures AllRecent(deps, posts, now) ==> ReadsPosts(Context(deps, cache, now).0, deps, posts)
    ensures AllRecent(deps, posts, now) ==> (SeesDefault(deps, cache, now) <==> NamesDefault(deps))
  {
    AllFreshIff(deps, cache, now);
    if AllRecent(deps, posts, now) {
      forall i: nat, name | GivesLast(deps, i, name)
        ensures ReadsPost(Context(deps, cache, now).0, deps[i], posts(deps[i].cameraId, deps[i].roiId), name)
      {
        NameReadsPost(deps, cache, posts, now, i, name);
      }
      forall name | forall d :: d in deps ==> !GivesName(d, name)
        ensures name !in Context(deps, cache, now).0
      {
        NoOtherName(deps, cache, now, name);
      }
      DefaultIsNamed(deps, cache, posts, now);
    }
  }

  lemma DefaultIsNamed(deps: seq<Dependency>, cache: Observations.Cache, posts: Posts, now: int)
    requires ShowsPosts(cache, deps, posts, now) && AllRecent(deps, posts, now)
    ensures SeesDefault(deps, cache, now) <==> NamesDefault(deps)
  {
    if NamesDefault(deps) {
      var i := LastDefault(deps);
      assert deps[i] in deps;
    }
  }

  /** The verdict holds when all dependencies are recent and the expression is true of what was posted. */
  ghost predicate HoldsOnPosts(lang: Language, rule: Rule, env: Env, f: Fed, r: ActiveRule, posts: Posts, now: int)
    requires Windowed(f, r)
  {
    var deps := r.rule.dependencies;
    && AllRecent(deps, posts, now)
    && lang.compile(rule.expression).Some?
    && lang.run(lang.compile(rule.expression).value, FullEnv(env, f, r, NamesDefault(deps))) == True
  }

  lemma HearingOnPosts(lang: Language, rule: Rule, cache: Observations.Cache, posts: Posts, f: Fed, r: ActiveRule,
                       at: int, cameraId: string, roiId: string, now: int) returns (env: Env)
    requires Windowed(f, r) && Runs(lang, r, rule) && ShowsPosts(cache, r.rule.dependencies, posts, now)
    ensures AllRecent(r.rule.dependencies, posts, now) ==> ReadsPosts(env, r.rule.dependencies, posts)
    ensures HearingOn(lang, cache, f, r, at, cameraId, roiId, now).evaluation.holds <==>
            HoldsOnPosts(lang, rule, env, f, r, posts, now)
  {
    ContextReadsPosts(r.rule.dependencies, cache, posts, now);
    env := Context(r.rule.dependencies, cache, now).0;
  }

  lemma VersionRuns(lang: Language, run: seq<Step>, trace: seq<State>, k: nat, id: string, rule: Rule, r: ActiveRule)
    requires Execution(lang, run, trace) && trace[0] == EMPTY && k <= |run|
    requires LastAccepted(lang, run, k, id) == Some(rule) && Lookup(trace[k].rules, id) == Some(r)
    ensures Runs(lang, r, rule)
  {
    EngineRunsLastAccepted(lang, run, trace, k, id);
  }

  /** In any clocked run, a rule that an event is dispatched to is evaluated on it once. The verdict holds
      if and only if the last region posted for each dependency is recent and the expression submitted
      last is true of an environment whose names read those regions, the window's aggregates, if the rule
      has a window, being those of the messages dispatched to it since its last removal. */
  lemma {:induction false} EventVerdictOnPosts(lang: Language, id: string, run: seq<Step>, trace: seq<State>, k: nat,
                                              cameras: iset<string>, event: EventPayload, rule: Rule, r: ActiveRule,
                                              f: Fed) returns (x: Hearing, env: Env)
    requires k < |run| && Clocked(lang, run, trace, k, run[k].now, cameras) && run[k].action == PostEvent(event)
    requires LastAccepted(lang, run, k, id) == Some(rule) && Lookup(trace[k].rules, id) == Some(r)
    requires forall d :: d in r.rule.dependencies ==> d.cameraId in cameras
    requires id in EventTargets(trace[k], event.camera, event.kind)
    requires f == FedEntry(FedIn(id, run, trace, Guarantees.LastRemoval(run, id, k), k), r, event) && Countable(f, r)
    ensures HeardStep(lang, SliceOf(trace[k], id), run[k]) == [x]
    ensures var posts: Posts := (c, o) => LastPosted(run, k, c, o);
            && x.evaluation.holds == HoldsOnPosts(lang, rule, env, f, r, posts, run[k].now)
            && (AllRecent(r.rule.dependencies, posts, run[k].now) ==> ReadsPosts(env, r.rule.dependencies, posts))
  {
    var posts: Posts := (c, o) => LastPosted(run, k, c, o);
    Guarantees.SinceLastRemoval(lang, id, run, trace, k);
    EventVerdict(lang, id, run, trace, Guarantees.LastRemoval(run, id, k), k, event, r, f);
    VersionRuns(lang, run, trace, k, id, rule, r);
    forall d | d in r.rule.dependencies
      ensures ShowsPost(trace[k].cache, d.cameraId, d.roiId, posts(d.cameraId, d.roiId), run[k].now)
    {
      EngineFreshIff(lang, run, trace, k, run[k].now, cameras, d.cameraId, d.roiId);
    }
    x := HearingOn(lang, trace[k].cache, f, r, event.emittedAt, event.camera, event.roiId, run[k].now);
    env := HearingOnPosts(lang, rule, trace[k].cache, posts, f, r, event.emittedAt, event.camera, event.roiId,
                          run[k].now);
  }

  lemma {:induction false} RegionShowsPosts(lang: Language, id: string, run: seq<Step>, trace: seq<State>, k: nat,
                                           cameras: iset<string>, p: StatePayload, i: nat, deps: seq<Dependency>)
    requires k < |run| && Clocked(lang, run, trace, k, run[k].now, cameras) && run[k].action == PostState(p)
    requires i < |p.regions| && forall d :: d in deps ==> d.cameraId in cameras
    ensures var sl := Fold(OneRegion(lang, p, run[k].now), SliceOf(trace[k], id), i).0;
            ShowsPosts(Observations.Updated(sl.cache, p.camera, p.regions[i], p.emittedAt, TTL, run[k].now), deps,
                       (c, o) => LastPostedUpTo(run, k, p, i + 1, c, o), run[k].now)
  {
    var sl := Fold(OneRegion(lang, p, run[k].now), SliceOf(trace[k], id), i).0;
    var seen := Observations.Updated(sl.cache, p.camera, p.regions[i], p.emittedAt, TTL, run[k].now);
    assert seen == Fold(OneRegion(lang, p, run[k].now), SliceOf(trace[k], id), i + 1).0.cache;
    forall d | d in deps
      ensures ShowsPost(seen, d.cameraId, d.roiId, LastPostedUpTo(run, k, p, i + 1, d.cameraId, d.roiId), run[k].now)
    {
      RegionFreshIff(lang, run, trace, k, p, i + 1, cameras, id, d.cameraId, d.roiId);
    }
  }

  /** The same on the `i`-th region of a payload, which counts as posted, as do the regions before it. */
  lemma {:induction false} StateVerdictOnPosts(lang: Language, id: string, run: seq<Step>, trace: seq<State>, k: nat,
                                              cameras: iset<string>, p: StatePayload, i: nat, rule: Rule,
                                              r: ActiveRule, f: Fed, m: nat, sl: Slice)
    returns (x: Hearing, env: Env)
    requires k < |run| && Clocked(lang, run, trace, k, run[k].now, cameras) && run[k].action == PostState(p)
    requires LastAccepted(lang, run, k, id) == Some(rule) && Lookup(trace[k].rules, id) == Some(r)
    requires forall d :: d in r.rule.dependencies ==> d.cameraId in cameras
    requires i < |p.regions| && id in StateTargets(trace[k], p.camera, p.regions[i].roiId)
    requires m == Guarantees.LastRemoval(run, id, k)
    requires sl == Fold(OneRegion(lang, p, run[k].now), SliceOf(trace[k], id), i).0
    requires f == FedSnapshot(FedRegions(FedIn(id, run, trace, m, k), SliceOf(trace[k], id), p, i), r,
                              Sighting(p.camera, p.regions[i], p.emittedAt)) && Countable(f, r)
    ensures HeardRegion(lang, sl, p.camera, p.regions[i], p.emittedAt, run[k].now) == [x]
    ensures var posts: Posts := (c, o) => LastPostedUpTo(run, k, p, i + 1, c, o);
            && x.evaluation.holds == HoldsOnPosts(lang, rule, env, f, r, posts, run[k].now)
            && (AllRecent(r.rule.dependencies, posts, run[k].now) ==> ReadsPosts(env, r.rule.dependencies, posts))
  {
    var posts: Posts := (c, o) => LastPostedUpTo(run, k, p, i + 1, c, o);
    var seen := Observations.Updated(sl.cache, p.camera, p.regions[i], p.emittedAt, TTL, run[k].now);
    Guarantees.SinceLastRemoval(lang, id, run, trace, k);
    StateVerdict(lang, id, run, trace, m, k, p, i, r, f, sl);
    VersionRuns(lang, run, trace, k, id, rule, r);
    RegionShowsPosts(lang, id, run, trace, k, cameras, p, i, r.rule.dependencies);
    x := HearingOn(lang, seen, f, r, p.emittedAt, p.camera, p.regions[i].roiId, run[k].now);
    env := HearingOnPosts(lang, rule, seen, posts, f, r, p.emittedAt, p.camera, p.regions[i].roiId, run[k].now);
  }
}
