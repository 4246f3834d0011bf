/** What the windows of a rule hold in a running engine, and what its expression reads of them. The
    duration of a window is fixed when it is created; later versions of the rule do not change it. */
module WindowGuarantees {
  import opened Common
  import opened Payloads
  import opened Evaluation
  import opened EngineSpec
  import opened Slices
  import opened Hearings
  import opened Rolling
  import Observations
  import Trigger
  import SW = StateWindows
  import EW = EventWindows

  /** What was fed to a window since it was created, with the duration it was created with. */
  datatype Held<E> = Never | Since(duration: int, items: seq<E>) {
    /** The window is looked at, and created if need be. */
    function Opened(d: int): Held<E> {
      if Never? then Since(d, []) else this
    }

    function With(d: int, e: E): Held<E> {
      if Never? then Since(d, [] + [e]) else Since(duration, items + [e])
    }
  }

  /** A region as it was posted. */
  datatype Sighting = Sighting(cameraId: string, region: Region, emittedAt: int)

  /** What was fed to a rule's two windows, as it was posted. */
  datatype Fed = Fed(states: Held<Sighting>, events: Held<EventPayload>)

  const NOTHING_FED := Fed(Never, Never)

  /** A visit with a snapshot feeds the state window. An event rule looks at its event window too. */
  function FedSnapshot(f: Fed, r: ActiveRule, e: Sighting): Fed {
    if r.rule.window.None? then f
    else
      var d := r.rule.window.value;
      Fed(f.states.With(d, e), if r.rule.source == SOURCE_EVENT then f.events.Opened(d) else f.events)
  }

  /** A visit with an event feeds the event window. A rule of another source looks at its state window. */
  function FedEntry(f: Fed, r: ActiveRule, e: EventPayload): Fed {
    if r.rule.window.None? then f
    else
      var d := r.rule.window.value;
      Fed(if r.rule.source == SOURCE_EVENT then f.states else f.states.Opened(d), f.events.With(d, e))
  }

  ghost function FedRegion(f: Fed, sl: Slice, cameraId: string, region: Region, at: int): Fed {
    if WantsState(sl, cameraId, region.roiId) then FedSnapshot(f, sl.rule.value, Sighting(cameraId, region, at))
    else f
  }

  ghost function FedRegions(f: Fed, sl: Slice, p: StatePayload, n: nat): Fed
    requires n <= |p.regions|
  {
    if n == 0 then f
    else FedRegion(FedRegions(f, sl, p, n - 1), sl, p.camera, p.regions[n - 1], p.emittedAt)
  }

  ghost function FedStep(f: Fed, sl: Slice, step: Step): Fed {
    match step.action
    case PostState(p) => FedRegions(f, sl, p, |p.regions|)
    case PostEvent(event) =>
      if WantsEvent(sl, event.camera, event.kind) then FedEntry(f, sl.rule.value, event) else f
    case _ => f
  }

  /** What the steps `m..n` of a run feed to the windows of rule `id`. */
  ghost function FedIn(id: string, run: seq<Step>, trace: seq<State>, m: nat, n: nat): Fed
    requires m <= n <= |run| && |trace| == |run| + 1
  {
    if n == m then NOTHING_FED
    else FedStep(FedIn(id, run, trace, m, n - 1), SliceOf(trace[n - 1], id), run[n - 1])
  }

  // ---------------------------------------------------------------------------------------------
  // The windows hold what was fed
  // ---------------------------------------------------------------------------------------------

  function Snapshots(items: seq<Sighting>): seq<SW.StateEntry> {
    seq(|items|, i requires 0 <= i < |items| =>
      SnapshotOf(items[i].cameraId, items[i].region, items[i].emittedAt))
  }

  function Entries(items: seq<EventPayload>): seq<EW.EventEntry> {
    seq(|items|, i requires 0 <= i < |items| => EntryOf(items[i]))
  }

  function StateHeld(held: Held<Sighting>): Option<SW.Window> {
    if held.Never? then None else Some(SW.After(held.duration, Snapshots(held.items)))
  }

  function EventHeld(held: Held<EventPayload>): Option<EW.Window> {
    if held.Never? then None else Some(EW.After(held.duration, Entries(held.items)))
  }

  ghost predicate Holds(l: Local, f: Fed) {
    (l.stateWindow, l.eventWindow) == (StateHeld(f.states), EventHeld(f.events))
  }

  lemma SnapshotHeld(held: Held<Sighting>, d: int, e: Sighting)
    ensures StateHeld(held.With(d, e)) ==
            Some(SW.Added(StateHeld(held).GetOr(SW.Created(d)), SnapshotOf(e.cameraId, e.region, e.emittedAt)))
  {
    var before := held.Opened(d);
    assert Snapshots(before.items + [e]) ==
           Snapshots(before.items) + [SnapshotOf(e.cameraId, e.region, e.emittedAt)];
    SW.AfterStep(before.duration, Snapshots(before.items), SnapshotOf(e.cameraId, e.region, e.emittedAt));
  }

  lemma EntryHeld(held: Held<EventPayload>, d: int, e: EventPayload)
    ensures EventHeld(held.With(d, e)) == Some(EW.Added(EventHeld(held).GetOr(EW.Created(d)), EntryOf(e)).0)
  {
    var before := held.Opened(d);
    assert Entries(before.items + [e]) == Entries(before.items) + [EntryOf(e)];
    EW.AfterStep(before.duration, Entries(before.items), EntryOf(e));
  }

  /** The windows of a rule just before its condition is evaluated. */
  lemma FeedHolds(l: Local, f: Fed, r: ActiveRule, e: Sighting, env: Env)
    requires Holds(l, f)
    ensures Holds(WindowBound(FedState(l, r, SnapshotOf(e.cameraId, e.region, e.emittedAt)), r, env).0,
                  FedSnapshot(f, r, e))
  {
    if r.rule.window.Some? {
      SnapshotHeld(f.states, r.rule.window.value, e);
    }
  }

  lemma FeedEventHolds(l: Local, f: Fed, r: ActiveRule, e: EventPayload, env: Env)
    requires Holds(l, f)
    ensures Holds(WindowBound(FedEvent(l, r, EntryOf(e)), r, env).0, FedEntry(f, r, e))
  {
    if r.rule.window.Some? {
      EntryHeld(f.events, r.rule.window.value, e);
    }
  }

  lemma EvaluateHolds(lang: Language, sl: Slice, fed: Local, f: Fed, at: int, cameraId: string, roiId: string, now: int)
    requires sl.rule.Some?
    requires forall env :: Holds(WindowBound(fed, sl.rule.value, env).0, f)
    ensures Holds(SliceEvaluate(lang, sl, fed, at, cameraId, roiId, now).0.local, f)
  {
    var env := Context(sl.rule.value.rule.dependencies, sl.cache, now).0;
    assert Holds(WindowBound(fed, sl.rule.value, env).0, f);
  }

  lemma RegionHolds(lang: Language, sl: Slice, f: Fed, cameraId: string, region: Region, at: int, now: int)
    requires Holds(sl.local, f)
    ensures Holds(SliceRegion(lang, sl, cameraId, region, at, now).0.local, FedRegion(f, sl, cameraId, region, at))
  {
    if WantsState(sl, cameraId, region.roiId) {
      var r, e, entry := sl.rule.value, Sighting(cameraId, region, at), SnapshotOf(cameraId, region, at);
      forall env
        ensures Holds(WindowBound(FedState(sl.local, r, entry), r, env).0, FedSnapshot(f, r, e))
      {
        FeedHolds(sl.local, f, r, e, env);
      }
      EvaluateHolds(lang, SliceObserve(sl, cameraId, region, at, now), FedState(sl.local, r, entry),
                    FedSnapshot(f, r, e), at, cameraId, region.roiId, now);
    }
  }

  lemma {:induction false} RegionsHold(lang: Language, sl: Slice, f: Fed, p: StatePayload, n: nat, now: int)
    requires Holds(sl.local, f) && n <= |p.regions|
    ensures Holds(Fold(OneRegion(lang, p, now), sl, n).0.local, FedRegions(f, sl, p, n))
  {
    if n > 0 {
      RegionsHold(lang, sl, f, p, n - 1, now);
      NextRegionHolds(lang, sl, f, p, n - 1, now);
    }
  }

  lemma NextRegionHolds(lang: Language, sl: Slice, f: Fed, p: StatePayload, i: nat, now: int)
    requires i < |p.regions| && Holds(Fold(OneRegion(lang, p, now), sl, i).0.local, FedRegions(f, sl, p, i))
    ensures Holds(Fold(OneRegion(lang, p, now), sl, i + 1).0.local, FedRegions(f, sl, p, i + 1))
  {
    RoundsKeepRule(lang, sl, p, i, now);
    RegionHolds(lang, Fold(OneRegion(lang, p, now), sl, i).0, FedRegions(f, sl, p, i), p.camera, p.regions[i],
                p.emittedAt, now);
  }

  lemma EventHolds(lang: Language, sl: Slice, f: Fed, event: EventPayload, now: int)
    requires Holds(sl.local, f) && WantsEvent(sl, event.camera, event.kind)
    ensures Holds(SliceEvent(lang, sl, event, now).0.local, FedEntry(f, sl.rule.value, event))
  {
    var r := sl.rule.value;
    forall env
      ensures Holds(WindowBound(FedEvent(sl.local, r, EntryOf(event)), r, env).0, FedEntry(f, r, event))
    {
      FeedEventHolds(sl.local, f, r, event, env);
    }
    EvaluateHolds(lang, sl, FedEvent(sl.local, r, EntryOf(event)), FedEntry(f, r, event), event.emittedAt,
                  event.camera, event.roiId, now);
  }

  lemma StepHolds(lang: Language, id: string, sl: Slice, f: Fed, step: Step)
    requires Holds(sl.local, f) && !Removes(step.action, id)
    ensures Holds(SliceStep(lang, id, sl, step).0.local, FedStep(f, sl, step))
  {
    match step.action
    case PostState(p) => RegionsHold(lang, sl, f, p, |p.regions|, step.now);
    case PostEvent(event) =>
      if WantsEvent(sl, event.camera, event.kind) {
        EventHolds(lang, sl, f, event, step.now);
      }
    case _ =>
  }

  lemma RunHolds(lang: Language, id: string, run: seq<Step>, trace: seq<State>, m: nat, k: nat)
    requires Execution(lang, run, trace) && Filed(trace[0]) && m <= k < |run| && !Removes(run[k].action, id)
    requires Holds(LocalOf(trace[k], id), FedIn(id, run, trace, m, k))
    ensures Holds(LocalOf(trace[k + 1], id), FedIn(id, run, trace, m, k + 1))
  {
    ExecutionIsFiled(lang, run, trace, k);
    NextHolds(lang, id, trace[k], run[k], trace[k + 1], FedIn(id, run, trace, m, k));
  }

  /** The windows at step `k` hold what the steps from `m` on fed to them. */
  ghost predicate HoldsAt(id: string, run: seq<Step>, trace: seq<State>, m: nat, k: nat) {
    m <= k <= |run| && |trace| == |run| + 1 && Holds(LocalOf(trace[k], id), FedIn(id, run, trace, m, k))
  }

  /** In any run, from a point where rule `id` has no windows and until it is removed, its windows hold
      what was fed to them, under the durations of the versions that created them. */
  lemma EngineHoldsWhatIsFed(lang: Language, id: string, run: seq<Step>, trace: seq<State>, m: nat, n: nat)
    requires Unremoved(lang, id, run, trace, m, n)
    requires id !in trace[m].stateWindows && id !in trace[m].eventWindows
    ensures HoldsAt(id, run, trace, m, n)
  {
    var holds := (k: nat) => HoldsAt(id, run, trace, m, k);
    forall k: nat | m <= k < n && holds(k)
      ensures holds(k + 1)
    {
      RunHolds(lang, id, run, trace, m, k);
    }
    assert holds(m);
    UpTo(holds, m, n);
  }

  lemma NextHolds(lang: Language, id: string, s: State, step: Step, t: State, f: Fed)
    requires Filed(s) && Next(lang, s, step, t) && !Removes(step.action, id) && Holds(LocalOf(s, id), f)
    ensures Holds(LocalOf(t, id), FedStep(f, SliceOf(s, id), step))
  {
    NextSlice(lang, s, step, t, id);
    StepHolds(lang, id, SliceOf(s, id), f, step);
    assert ViewOf(t, id).slice == SliceStep(lang, id, SliceOf(s, id), step).0;
  }

  // ---------------------------------------------------------------------------------------------
  // What the expression reads
  // ---------------------------------------------------------------------------------------------

  /** No time is more than the duration ahead of `at`, nor is zero, where a window starts. */
  ghost predicate InReach(at: int, duration: int, times: iset<int>) {
    at >= -duration && forall t :: t in times ==> at >= t - duration
  }

  lemma ReachIsNewest<T>(at: int, duration: int, times: iset<int>, s: seq<Stamped<T>>)
    requires forall t :: t in times <==> exists e :: e in s && e.emittedAt == t
    ensures InReach(at, duration, times) <==> at >= Newest(s) - duration
  {
    NewestBounds(s);
    if e :| e in s && e.emittedAt == Newest(s) {
      assert e.emittedAt in times;
    }
  }

  ghost function SightingTimes(items: seq<Sighting>): iset<int> {
    iset e | e in items :: e.emittedAt
  }

  ghost function EventTimes(items: seq<EventPayload>): iset<int> {
    iset e | e in items :: e.emittedAt
  }

  /** The track ids of the entities of one type in the sightings within the duration of the newest. */
  ghost function RecentTracks(duration: int, items: seq<Sighting>, entityType: string): set<string> {
    set e, x | e in items && InReach(e.emittedAt, duration, SightingTimes(items))
               && x in e.region.entities && x.entityType == entityType :: x.trackId
  }

  /** The ids of the events within the duration of the newest. */
  ghost function RecentIds(duration: int, items: seq<EventPayload>): set<string> {
    set e | e in items && InReach(e.emittedAt, duration, EventTimes(items)) :: e.eventId
  }

  ghost function RecentIdsOfKind(duration: int, items: seq<EventPayload>, kind: string): set<string> {
    set e | e in items && InReach(e.emittedAt, duration, EventTimes(items)) && e.kind == kind :: e.eventId
  }

  lemma SnapshotsOfSightings(items: seq<Sighting>)
    ensures forall e :: e in items ==> SnapshotOf(e.cameraId, e.region, e.emittedAt) in Snapshots(items)
    ensures forall s :: s in Snapshots(items) ==>
              exists e :: e in items && s == SnapshotOf(e.cameraId, e.region, e.emittedAt)
    ensures forall t :: t in SightingTimes(items) <==> exists s :: s in Snapshots(items) && s.emittedAt == t
  {
    var es := Snapshots(items);
    assert forall i :: 0 <= i < |items| ==>
        es[i] == SnapshotOf(items[i].cameraId, items[i].region, items[i].emittedAt) && es[i] in es;
    assert forall i :: 0 <= i < |items| ==> items[i] in items && items[i].emittedAt == es[i].emittedAt;
  }

  lemma EntriesOfEvents(items: seq<EventPayload>)
    ensures forall e :: e in items ==> EntryOf(e) in Entries(items)
    ensures forall s :: s in Entries(items) ==> exists e :: e in items && s == EntryOf(e)
    ensures forall t :: t in EventTimes(items) <==> exists s :: s in Entries(items) && s.emittedAt == t
  {
    var es := Entries(items);
    assert forall i :: 0 <= i < |items| ==> es[i] == EntryOf(items[i]) && es[i] in es;
    assert forall i :: 0 <= i < |items| ==> items[i] in items && items[i].emittedAt == es[i].emittedAt;
  }

  lemma SnapshotShows(e: Sighting, entityType: string, trackId: string)
    ensures SW.Shows(SnapshotOf(e.cameraId, e.region, e.emittedAt), entityType, trackId) <==>
            exists x :: x in e.region.entities && x.entityType == entityType && x.trackId == trackId
  {
    var xs := SnapshotOf(e.cameraId, e.region, e.emittedAt).item.entities;
    assert forall i :: 0 <= i < |xs| ==> xs[i].entityType == e.region.entities[i].entityType
                                         && xs[i].trackId == e.region.entities[i].trackId && xs[i] in xs;
  }

  lemma TracksAreRecent(duration: int, items: seq<Sighting>, entityType: string)
    ensures SW.Tracks(SW.After(duration, Snapshots(items)).entries, entityType) ==
            RecentTracks(duration, items, entityType)
  {
    var es := Snapshots(items);
    SnapshotsOfSightings(items);
    SW.UniqueTracksAreRecentTracks(duration, es, entityType);
    forall t
      ensures t in SW.Tracks(SW.After(duration, es).entries, entityType) <==>
              t in RecentTracks(duration, items, entityType)
    {
      TrackIsRecent(duration, items, entityType, t);
    }
  }

  lemma TrackIsRecent(duration: int, items: seq<Sighting>, entityType: string, t: string)
    ensures (exists s :: s in Snapshots(items) && s.emittedAt >= Newest(Snapshots(items)) - duration
                         && SW.Shows(s, entityType, t)) <==>
            t in RecentTracks(duration, items, entityType)
  {
    var es := Snapshots(items);
    SnapshotsOfSightings(items);
    forall e | e in items
      ensures InReach(e.emittedAt, duration, SightingTimes(items)) <==> e.emittedAt >= Newest(es) - duration
      ensures SW.Shows(SnapshotOf(e.cameraId, e.region, e.emittedAt), entityType, t) <==>
              exists x :: x in e.region.entities && x.entityType == entityType && x.trackId == t
    {
      ReachIsNewest(e.emittedAt, duration, SightingTimes(items), es);
      SnapshotShows(e, entityType, t);
    }
    if s :| s in es && s.emittedAt >= Newest(es) - duration && SW.Shows(s, entityType, t) {
      var e :| e in items && s == SnapshotOf(e.cameraId, e.region, e.emittedAt);
      assert e.emittedAt == s.emittedAt;
    }
    if t in RecentTracks(duration, items, entityType) {
      var e :| e in items && InReach(e.emittedAt, duration, SightingTimes(items))
               && exists x :: x in e.region.entities && x.entityType == entityType && x.trackId == t;
      var s := SnapshotOf(e.cameraId, e.region, e.emittedAt);
      assert s in es && s.emittedAt == e.emittedAt && SW.Shows(s, entityType, t);
    }
  }

  // Events are counted by their ids.

  function EventIds(es: seq<EW.EventEntry>): seq<string> {
    seq(|es|, i requires 0 <= i < |es| => es[i].item.eventId)
  }

  lemma IdsCount(es: seq<EW.EventEntry>, ids: set<string>)
    requires EW.DistinctIds(es) && forall x :: x in ids <==> exists e :: e in es && e.item.eventId == x
    ensures |es| == |ids|
  {
    var s := EventIds(es);
    DistinctLength(s);
    assert forall i :: 0 <= i < |es| ==> s[i] == es[i].item.eventId && es[i] in es;
    forall x
      ensures x in s <==> x in ids
    {
    }
    assert (set x | x in s) == ids;
  }

  /** An entry of the window is one of a recent event. */
  lemma EntryIsRecent(duration: int, items: seq<EventPayload>, x: string, kind: Option<string>)
    ensures (exists s :: s in Entries(items) && s.emittedAt >= Newest(Entries(items)) - duration
                         && s.item.eventId == x && (kind.Some? ==> s.item.kind == kind.value)) <==>
            x in if kind.Some? then RecentIdsOfKind(duration, items, kind.value) else RecentIds(duration, items)
  {
    var es := Entries(items);
    EntriesOfEvents(items);
    forall e | e in items
      ensures InReach(e.emittedAt, duration, EventTimes(items)) <==> e.emittedAt >= Newest(es) - duration
    {
      ReachIsNewest(e.emittedAt, duration, EventTimes(items), es);
    }
    if s :| s in es && s.emittedAt >= Newest(es) - duration && s.item.eventId == x
            && (kind.Some? ==> s.item.kind == kind.value) {
      var e :| e in items && s == EntryOf(e);
      assert e.emittedAt == s.emittedAt && e.eventId == x && e.kind == s.item.kind;
    }
    if e :| e in items && InReach(e.emittedAt, duration, EventTimes(items)) && e.eventId == x
            && (kind.Some? ==> e.kind == kind.value) {
      assert EntryOf(e) in es && EntryOf(e).emittedAt == e.emittedAt;
    }
  }

  lemma CountsAreRecent(duration: int, items: seq<EventPayload>, kind: string)
    requires EW.Consistent(Entries(items))
    ensures EW.Count(EW.After(duration, Entries(items))) == |RecentIds(duration, items)|
    ensures EW.CountByKind(EW.After(duration, Entries(items)), kind) == |RecentIdsOfKind(duration, items, kind)|
  {
    var es := EW.After(duration, Entries(items)).entries;
    EW.WindowIsFilter(duration, Entries(items));
    EW.EntriesAreRecentDeliveries(duration, Entries(items));
    EW.OfKindMembers(es, kind);
    EW.OfKindKeepsIdsApart(es, kind);
    forall x
      ensures x in RecentIds(duration, items) <==> exists e :: e in es && e.item.eventId == x
      ensures x in RecentIdsOfKind(duration, items, kind) <==>
              exists e :: e in EW.OfKind(es, kind) && e.item.eventId == x
    {
      EntryIsRecent(duration, items, x, None);
      EntryIsRecent(duration, items, x, Some(kind));
    }
    IdsCount(es, RecentIds(duration, items));
    IdsCount(EW.OfKind(es, kind), RecentIdsOfKind(duration, items, kind));
  }

  /** How many different persons and vehicles were in the recent sightings. */
  ghost function TrackTable(duration: int, items: seq<Sighting>): Value {
    Table(map["uniquePersons" := Number(|RecentTracks(duration, items, "person")|),
              "uniqueVehicles" := Number(|RecentTracks(duration, items, "vehicle")|)])
  }

  /** How many events, entrances and exits there were recently, each event counted once. */
  ghost function EventTable(duration: int, items: seq<EventPayload>): Value {
    Table(map["count" := Number(|RecentIds(duration, items)|),
              "entranceCount" := Number(|RecentIdsOfKind(duration, items, "line_crossed")|),
              "exitCount" := Number(|RecentIdsOfKind(duration, items, "exit")|)])
  }

  lemma CountsAreTable(held: Held<EventPayload>)
    requires held.Since? && EW.Consistent(Entries(held.items))
    ensures EventCounts(EW.After(held.duration, Entries(held.items))) == EventTable(held.duration, held.items)
  {
    CountsAreRecent(held.duration, held.items, "line_crossed");
    CountsAreRecent(held.duration, held.items, "exit");
  }

  /** A windowed rule has something in the window its expression reads. */
  ghost predicate Windowed(f: Fed, r: ActiveRule) {
    r.rule.window.Some? ==> if r.rule.source == "event" then f.events.Since? else f.states.Since?
  }

  /** Some dependency is called "default" and the last of these has an observation. */
  ghost predicate SeesDefault(deps: seq<Dependency>, cache: Observations.Cache, now: int) {
    exists i :: && 0 <= i < |deps| && deps[i].alias == "default" && Seen(deps[i], cache, now).Some?
                && forall j :: i < j < |deps| ==> deps[j].alias != "default"
  }

  /** The environment that a rule's expression reads: that of the dependencies for a rule without a
      window, and with the recent events for an event rule, with the recent tracks for a rule of another
      source that sees a default. */
  ghost function FullEnv(env: Env, f: Fed, r: ActiveRule, default: bool): Env
    requires Windowed(f, r)
  {
    if r.rule.window.None? then env
    else if r.rule.source == "event" then env["window" := EventTable(f.events.duration, f.events.items)]
    else if default then env["window" := TrackTable(f.states.duration, f.states.items)]
    else env
  }

  lemma {:induction false} DefaultIsSeen(deps: seq<Dependency>, cache: Observations.Cache, now: int)
    ensures HasDefault(Context(deps, cache, now).0) <==> SeesDefault(deps, cache, now)
  {
    if exists i :: 0 <= i < |deps| && deps[i].alias == "default" {
      var i := LastDefault(deps);
      NameReads(deps, cache, now, i, "default");
      var v := Lookup(Context(deps, cache, now).0, "default");
      assert Seen(deps[i], cache, now).Some? ==> Field(v, "staffCount").Some?;
    } else {
      NoOtherName(deps, cache, now, "default");
    }
  }

  lemma {:induction false} LastDefault(deps: seq<Dependency>) returns (i: nat)
    requires exists i :: 0 <= i < |deps| && deps[i].alias == "default"
    ensures i < |deps| && deps[i].alias == "default" && forall j :: i < j < |deps| ==> deps[j].alias != "default"
  {
    i := |deps| - 1;
    while deps[i].alias != "default"
      invariant i < |deps| && forall j :: i < j < |deps| ==> deps[j].alias != "default"
      decreases i
    {
      i := i - 1;
    }
  }

  /** Ids identify the events that an event rule counts. */
  ghost predicate Countable(f: Fed, r: ActiveRule) {
    r.rule.window.Some? && r.rule.source == "event" && f.events.Since? ==> EW.Consistent(Entries(f.events.items))
  }

  lemma ReadsWhatIsHeld(fed: Local, r: ActiveRule, env: Env, f: Fed)
    requires Holds(WindowBound(fed, r, env).0, f) && Countable(f, r) && Windowed(f, r)
    ensures WindowBound(fed, r, env).1 == FullEnv(env, f, r, HasDefault(env))
  {
    if r.rule.window.Some? {
      if r.rule.source == SOURCE_EVENT {
        CountsAreTable(f.events);
      } else {
        TracksAreRecent(f.states.duration, f.states.items, "person");
        TracksAreRecent(f.states.duration, f.states.items, "vehicle");
      }
    }
  }

  /** One evaluation of a rule whose windows hold `f`: every dependency is fresh, and the expression is
      true of the environment with what was recent. If it fires, the record names the rule and the
      message. */
  ghost function HearingOn(lang: Language, cache: Observations.Cache, f: Fed, r: ActiveRule, at: int, cameraId: string,
                           roiId: string, now: int): Hearing
    requires Windowed(f, r)
  {
    var rule := r.rule;
    var (env, allFresh) := Context(rule.dependencies, cache, now);
    var full := FullEnv(env, f, r, SeesDefault(rule.dependencies, cache, now));
    Hearing(Trigger.Evaluation(allFresh && lang.run(r.program, full) == True, at,
                               Trigger.Config(rule.mode, rule.cooldownSeconds, rule.sustain)),
            Firing(rule.id, rule.name, at, rule.actionType, cameraId, roiId, rule.source))
  }

  lemma HeardIsOn(lang: Language, sl: Slice, fed: Local, f: Fed, at: int, cameraId: string, roiId: string, now: int)
    requires sl.rule.Some? && Countable(f, sl.rule.value) && Windowed(f, sl.rule.value)
    requires forall env :: Holds(WindowBound(fed, sl.rule.value, env).0, f)
    ensures HearingOf(lang, sl, fed, at, cameraId, roiId, now) ==
            HearingOn(lang, sl.cache, f, sl.rule.value, at, cameraId, roiId, now)
  {
    var r := sl.rule.value;
    var env := Context(r.rule.dependencies, sl.cache, now).0;
    ReadsWhatIsHeld(fed, r, env, f);
    DefaultIsSeen(r.rule.dependencies, sl.cache, now);
  }

  lemma HeardEventVerdict(lang: Language, sl: Slice, f: Fed, event: EventPayload, now: int, r: ActiveRule)
    requires Holds(sl.local, f) && sl.rule == Some(r) && WantsEvent(sl, event.camera, event.kind)
    requires Countable(FedEntry(f, r, event), r)
    ensures HeardEvent(lang, sl, event, now) ==
            [HearingOn(lang, sl.cache, FedEntry(f, r, event), r, event.emittedAt, event.camera, event.roiId, now)]
  {
    forall env
      ensures Holds(WindowBound(FedEvent(sl.local, r, EntryOf(event)), r, env).0, FedEntry(f, r, event))
    {
      FeedEventHolds(sl.local, f, r, event, env);
    }
    HeardIsOn(lang, sl, FedEvent(sl.local, r, EntryOf(event)), FedEntry(f, r, event), event.emittedAt, event.camera,
              event.roiId, now);
  }

  /** In any run, the verdict of any rule on an event it hears is that of its expression: without a window
      over its dependencies alone; for an event rule over the events within its window's duration of the
      newest as well, this one included and each counted once, if ids identify events; for a rule of
      another source over the tracks in its recent snapshots. */
  lemma {:induction false} EventVerdict(lang: Language, id: string, run: seq<Step>, trace: seq<State>, m: nat, k: nat,
                                       event: EventPayload, r: ActiveRule, f: Fed)
    requires m <= k < |run| && Unremoved(lang, id, run, trace, m, k)
    requires id !in trace[m].stateWindows && id !in trace[m].eventWindows
    requires run[k].action == PostEvent(event) && Lookup(trace[k].rules, id) == Some(r)
    requires id in EventTargets(trace[k], event.camera, event.kind)
    requires f == FedEntry(FedIn(id, run, trace, m, k), r, event) && Countable(f, r)
    ensures HeardStep(lang, SliceOf(trace[k], id), run[k]) ==
            [HearingOn(lang, trace[k].cache, f, r, event.emittedAt, event.camera, event.roiId, run[k].now)]
  {
    EngineHoldsWhatIsFed(lang, id, run, trace, m, k);
    HeardEventVerdict(lang, SliceOf(trace[k], id), FedIn(id, run, trace, m, k), event, run[k].now, r);
  }

  /** The same on the `i`-th region of a payload, the earlier regions of the payload included. */
  lemma {:induction false} StateVerdict(lang: Language, id: string, run: seq<Step>, trace: seq<State>, m: nat, k: nat,
                                       p: StatePayload, i: nat, r: ActiveRule, f: Fed, sl: Slice)
    requires m <= k < |run| && Unremoved(lang, id, run, trace, m, k)
    requires id !in trace[m].stateWindows && id !in trace[m].eventWindows
    requires run[k].action == PostState(p) && i < |p.regions| && Lookup(trace[k].rules, id) == Some(r)
    requires id in StateTargets(trace[k], p.camera, p.regions[i].roiId)
    requires sl == Fold(OneRegion(lang, p, run[k].now), SliceOf(trace[k], id), i).0
    requires f == FedSnapshot(FedRegions(FedIn(id, run, trace, m, k), SliceOf(trace[k], id), p, i), r,
                              Sighting(p.camera, p.regions[i], p.emittedAt)) && Countable(f, r)
    ensures var seen := Observations.Updated(sl.cache, p.camera, p.regions[i], p.emittedAt, TTL, run[k].now);
            HeardRegion(lang, sl, p.camera, p.regions[i], p.emittedAt, run[k].now) ==
            [HearingOn(lang, seen, f, r, p.emittedAt, p.camera, p.regions[i].roiId, run[k].now)]
  {
    EngineHoldsWhatIsFed(lang, id, run, trace, m, k);
    RegionsHold(lang, SliceOf(trace[k], id), FedIn(id, run, trace, m, k), p, i, run[k].now);
    RoundsKeepRule(lang, SliceOf(trace[k], id), p, i, run[k].now);
    RegionVerdict(lang, sl, FedRegions(FedIn(id, run, trace, m, k), SliceOf(trace[k], id), p, i), p.camera,
                  p.regions[i], p.emittedAt, run[k].now, r);
  }

  lemma RegionVerdict(lang: Language, sl: Slice, f: Fed, cameraId: string, region: Region, at: int, now: int,
                      r: ActiveRule)
    requires Holds(sl.local, f) && sl.rule == Some(r) && WantsState(sl, cameraId, region.roiId)
    requires Countable(FedSnapshot(f, r, Sighting(cameraId, region, at)), r)
    ensures HeardRegion(lang, sl, cameraId, region, at, now) ==
            [HearingOn(lang, Observations.Updated(sl.cache, cameraId, region, at, TTL, now),
                       FedSnapshot(f, r, Sighting(cameraId, region, at)), r, at, cameraId, region.roiId, now)]
  {
    var e, entry := Sighting(cameraId, region, at), SnapshotOf(cameraId, region, at);
    forall env
      ensures Holds(WindowBound(FedState(sl.local, r, entry), r, env).0, FedSnapshot(f, r, e))
    {
      FeedHolds(sl.local, f, r, e, env);
    }
    HeardIsOn(lang, SliceObserve(sl, cameraId, region, at, now), FedState(sl.local, r, entry), FedSnapshot(f, r, e), at,
              cameraId, region.roiId, now);
  }
}
