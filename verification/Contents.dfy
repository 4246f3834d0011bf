/** What the windows of a running engine contain, against the messages that were posted. */
module Contents {
  import opened Payloads
  import opened Evaluation
  import opened EngineSpec
  import opened Slices
  import opened Hearings
  import opened WindowGuarantees
  import Rolling
  import SW = StateWindows
  import EW = EventWindows

  function Items<E>(held: Held<E>): seq<E> {
    if held.Never? then [] else held.items
  }

  // ---------------------------------------------------------------------------------------------
  // What is fed to the windows is what was dispatched to the rule while it had a window
  // ---------------------------------------------------------------------------------------------

  /** Region `i` of the payload of step `j` is dispatched to rule `id`, whose version then has a window. */
  ghost predicate RegionFed(id: string, run: seq<Step>, trace: seq<State>, m: nat, n: nat, j: nat, i: nat) {
    && m <= j < n <= |run| && |trace| == |run| + 1 && run[j].action.PostState? && i < |run[j].action.state.regions|
    && var p := run[j].action.state;
       id in StateTargets(trace[j], p.camera, p.regions[i].roiId) && trace[j].rules[id].rule.window.Some?
  }

  function SightingAt(run: seq<Step>, j: nat, i: nat): Sighting
    requires j < |run| && run[j].action.PostState? && i < |run[j].action.state.regions|
  {
    var p := run[j].action.state;
    Sighting(p.camera, p.regions[i], p.emittedAt)
  }

  /** The event of step `j` is dispatched to rule `id`, whose version then has a window. */
  ghost predicate EventFed(id: string, run: seq<Step>, trace: seq<State>, m: nat, n: nat, j: nat) {
    && m <= j < n <= |run| && |trace| == |run| + 1 && run[j].action.PostEvent?
    && var event := run[j].action.event;
       id in EventTargets(trace[j], event.camera, event.kind) && trace[j].rules[id].rule.window.Some?
  }

  /** The sighting is one of the first `n` regions, and the rule wants it. */
  ghost predicate Among(e: Sighting, sl: Slice, p: StatePayload, n: nat)
    requires n <= |p.regions|
  {
    exists i: nat :: && i < n && WantsState(sl, p.camera, p.regions[i].roiId) && sl.rule.value.rule.window.Some?
                && e == Sighting(p.camera, p.regions[i], p.emittedAt)
  }

  lemma {:induction false} RegionsFeed(f: Fed, sl: Slice, p: StatePayload, n: nat)
    requires n <= |p.regions|
    ensures Items(FedRegions(f, sl, p, n).events) == Items(f.events)
    ensures forall e :: e in Items(FedRegions(f, sl, p, n).states) <==> e in Items(f.states) || Among(e, sl, p, n)
  {
    if n > 0 {
      RegionsFeed(f, sl, p, n - 1);
      forall e
        ensures e in Items(FedRegions(f, sl, p, n).states) <==> e in Items(f.states) || Among(e, sl, p, n)
      {
        RegionFeeds(f, sl, p, n - 1, e);
      }
    }
  }

  lemma RegionFeeds(f: Fed, sl: Slice, p: StatePayload, i: nat, e: Sighting)
    requires i < |p.regions|
    requires e in Items(FedRegions(f, sl, p, i).states) <==> e in Items(f.states) || Among(e, sl, p, i)
    ensures e in Items(FedRegions(f, sl, p, i + 1).states) <==> e in Items(f.states) || Among(e, sl, p, i + 1)
  {
    assert Among(e, sl, p, i + 1) <==> Among(e, sl, p, i)
                                       || (WantsState(sl, p.camera, p.regions[i].roiId)
                                           && sl.rule.value.rule.window.Some?
                                           && e == Sighting(p.camera, p.regions[i], p.emittedAt));
  }

  ghost predicate SightingFed(id: string, run: seq<Step>, trace: seq<State>, m: nat, n: nat, e: Sighting) {
    exists j: nat, i: nat :: RegionFed(id, run, trace, m, n, j, i) && e == SightingAt(run, j, i)
  }

  lemma SightingFedNext(id: string, run: seq<Step>, trace: seq<State>, m: nat, n: nat, e: Sighting)
    requires m <= n < |run| && |trace| == |run| + 1
    ensures SightingFed(id, run, trace, m, n + 1, e) <==>
            SightingFed(id, run, trace, m, n, e)
            || exists i: nat :: RegionFed(id, run, trace, m, n + 1, n, i) && e == SightingAt(run, n, i)
  {
    forall j: nat, i: nat
      ensures RegionFed(id, run, trace, m, n + 1, j, i) <==>
              RegionFed(id, run, trace, m, n, j, i) || (j == n && RegionFed(id, run, trace, m, n + 1, n, i))
    {
    }
  }

  lemma PayloadFeeds(id: string, run: seq<Step>, trace: seq<State>, m: nat, n: nat, e: Sighting)
    requires m <= n < |run| && |trace| == |run| + 1 && run[n].action.PostState?
    ensures Among(e, SliceOf(trace[n], id), run[n].action.state, |run[n].action.state.regions|) <==>
            exists i: nat :: RegionFed(id, run, trace, m, n + 1, n, i) && e == SightingAt(run, n, i)
  {
    var sl, p := SliceOf(trace[n], id), run[n].action.state;
    if i: nat :| && i < |p.regions| && WantsState(sl, p.camera, p.regions[i].roiId)
                 && sl.rule.value.rule.window.Some? && e == Sighting(p.camera, p.regions[i], p.emittedAt) {
      assert RegionFed(id, run, trace, m, n + 1, n, i) && e == SightingAt(run, n, i);
    }
    if i: nat :| RegionFed(id, run, trace, m, n + 1, n, i) && e == SightingAt(run, n, i) {
      assert WantsState(sl, p.camera, p.regions[i].roiId) && e == Sighting(p.camera, p.regions[i], p.emittedAt);
    }
  }

  lemma StepFeedsSighting(id: string, run: seq<Step>, trace: seq<State>, m: nat, n: nat, e: Sighting)
    requires m <= n < |run| && |trace| == |run| + 1
    requires e in Items(FedIn(id, run, trace, m, n).states) <==> SightingFed(id, run, trace, m, n, e)
    ensures e in Items(FedIn(id, run, trace, m, n + 1).states) <==> SightingFed(id, run, trace, m, n + 1, e)
  {
    SightingFedNext(id, run, trace, m, n, e);
    if run[n].action.PostState? {
      var p := run[n].action.state;
      RegionsFeed(FedIn(id, run, trace, m, n), SliceOf(trace[n], id), p, |p.regions|);
      PayloadFeeds(id, run, trace, m, n, e);
    }
  }

  /** A sighting was fed to the state window of a rule if and only if it is a region that was dispatched to
      the rule while it had a window. */
  lemma {:induction false} SightingsAreFed(id: string, run: seq<Step>, trace: seq<State>, m: nat, n: nat)
    requires m <= n <= |run| && |trace| == |run| + 1
    ensures forall e :: e in Items(FedIn(id, run, trace, m, n).states) <==> SightingFed(id, run, trace, m, n, e)
    decreases n
  {
    if n > m {
      SightingsAreFed(id, run, trace, m, n - 1);
      forall e
        ensures e in Items(FedIn(id, run, trace, m, n).states) <==> SightingFed(id, run, trace, m, n, e)
      {
        StepFeedsSighting(id, run, trace, m, n - 1, e);
      }
    }
  }

  ghost predicate PostedFed(id: string, run: seq<Step>, trace: seq<State>, m: nat, n: nat, event: EventPayload) {
    exists j: nat :: EventFed(id, run, trace, m, n, j) && event == run[j].action.event
  }

  lemma StepFeedsEvent(id: string, run: seq<Step>, trace: seq<State>, m: nat, n: nat, event: EventPayload)
    requires m <= n < |run| && |trace| == |run| + 1
    requires event in Items(FedIn(id, run, trace, m, n).events) <==> PostedFed(id, run, trace, m, n, event)
    ensures event in Items(FedIn(id, run, trace, m, n + 1).events) <==> PostedFed(id, run, trace, m, n + 1, event)
  {
    forall j: nat
      ensures EventFed(id, run, trace, m, n + 1, j) <==>
              EventFed(id, run, trace, m, n, j) || (j == n && EventFed(id, run, trace, m, n + 1, n))
    {
    }
    if run[n].action.PostState? {
      var p := run[n].action.state;
      RegionsFeed(FedIn(id, run, trace, m, n), SliceOf(trace[n], id), p, |p.regions|);
    } else if run[n].action.PostEvent? {
      var posted := run[n].action.event;
      assert WantsEvent(SliceOf(trace[n], id), posted.camera, posted.kind) <==>
             id in EventTargets(trace[n], posted.camera, posted.kind);
    }
  }

  /** An event was fed to the event window of a rule if and only if it was dispatched to the rule while it
      had a window. */
  lemma {:induction false} EventsAreFed(id: string, run: seq<Step>, trace: seq<State>, m: nat, n: nat)
    requires m <= n <= |run| && |trace| == |run| + 1
    ensures forall e :: e in Items(FedIn(id, run, trace, m, n).events) <==> PostedFed(id, run, trace, m, n, e)
    decreases n
  {
    if n > m {
      EventsAreFed(id, run, trace, m, n - 1);
      forall e
        ensures e in Items(FedIn(id, run, trace, m, n).events) <==> PostedFed(id, run, trace, m, n, e)
      {
        StepFeedsEvent(id, run, trace, m, n - 1, e);
      }
    }
  }

  // ---------------------------------------------------------------------------------------------
  // The contents of the windows
  // ---------------------------------------------------------------------------------------------

  /** The entry is the copy of what the region says. */
  ghost predicate CopiesRegion(e: SW.StateEntry, s: Sighting) {
    && e.emittedAt == s.emittedAt && e.item.cameraId == s.cameraId && e.item.roiId == s.region.roiId
    && e.item.occupancy == s.region.occupancy && e.item.staffCount == s.region.staffCount
    && e.item.dwell == s.region.dwell && |e.item.entities| == |s.region.entities|
    && forall i :: 0 <= i < |s.region.entities| ==>
         && e.item.entities[i].entityType == s.region.entities[i].entityType
         && e.item.entities[i].trackId == s.region.entities[i].trackId
         && match s.region.entities[i].dwellTime
            case Some(time) => e.item.entities[i].dwellTime == time
            case None => e.item.entities[i].dwellTime == 0.0
  }

  /** The entry is the copy of what the event says. */
  predicate CopiesEvent(e: EW.EventEntry, event: EventPayload) {
    && e.emittedAt == event.emittedAt && e.item.eventId == event.eventId && e.item.kind == event.kind
    && e.item.cameraId == event.camera && e.item.roiId == event.roiId
    && match event.entity
       case Some(entity) => e.item.trackId == entity.trackId && e.item.entityType == entity.entityType
       case None => e.item.trackId == "" && e.item.entityType == ""
  }

  lemma SnapshotIsTheCopy(e: SW.StateEntry, s: Sighting)
    ensures CopiesRegion(e, s) <==> e == SnapshotOf(s.cameraId, s.region, s.emittedAt)
  {
    var copy := SnapshotOf(s.cameraId, s.region, s.emittedAt);
    if CopiesRegion(e, s) {
      assert forall i :: 0 <= i < |s.region.entities| ==> e.item.entities[i] == copy.item.entities[i];
      assert e.item.entities == copy.item.entities;
    }
  }

  /** The times of the snapshots that were fed. */
  ghost function FedTimes(id: string, run: seq<Step>, trace: seq<State>, m: nat, n: nat): iset<int> {
    iset j: nat, i: nat | RegionFed(id, run, trace, m, n, j, i) :: run[j].action.state.emittedAt
  }

  ghost function FedEventTimes(id: string, run: seq<Step>, trace: seq<State>, m: nat, n: nat): iset<int> {
    iset j: nat | EventFed(id, run, trace, m, n, j) :: run[j].action.event.emittedAt
  }

  lemma TimesAreFed(id: string, run: seq<Step>, trace: seq<State>, m: nat, n: nat)
    requires m <= n <= |run| && |trace| == |run| + 1
    ensures SightingTimes(Items(FedIn(id, run, trace, m, n).states)) == FedTimes(id, run, trace, m, n)
    ensures EventTimes(Items(FedIn(id, run, trace, m, n).events)) == FedEventTimes(id, run, trace, m, n)
  {
    var f := FedIn(id, run, trace, m, n);
    SightingsAreFed(id, run, trace, m, n);
    EventsAreFed(id, run, trace, m, n);
    forall t
      ensures t in SightingTimes(Items(f.states)) <==> t in FedTimes(id, run, trace, m, n)
    {
      if t in SightingTimes(Items(f.states)) {
        var e :| e in Items(f.states) && e.emittedAt == t;
        assert SightingFed(id, run, trace, m, n, e);
      }
      if j: nat, i: nat :| RegionFed(id, run, trace, m, n, j, i) && run[j].action.state.emittedAt == t {
        assert SightingFed(id, run, trace, m, n, SightingAt(run, j, i));
      }
    }
    forall t
      ensures t in EventTimes(Items(f.events)) <==> t in FedEventTimes(id, run, trace, m, n)
    {
      if t in EventTimes(Items(f.events)) {
        var e :| e in Items(f.events) && e.emittedAt == t;
        assert PostedFed(id, run, trace, m, n, e);
      }
      if j: nat :| EventFed(id, run, trace, m, n, j) && run[j].action.event.emittedAt == t {
        assert PostedFed(id, run, trace, m, n, run[j].action.event);
      }
    }
  }

  /** What a state window holds of the sightings fed to it: the copies of those in reach. */
  lemma EntriesCopySightings(duration: int, items: seq<Sighting>, e: SW.StateEntry)
    ensures e in SW.After(duration, Snapshots(items)).entries <==>
            exists s :: s in items && InReach(s.emittedAt, duration, SightingTimes(items)) && CopiesRegion(e, s)
  {
    var es := Snapshots(items);
    SnapshotsOfSightings(items);
    SW.WindowIsFilter(duration, es);
    Rolling.RecentMembers(es, Rolling.Newest(es) - duration);
    ReachIsNewest(e.emittedAt, duration, SightingTimes(items), es);
    forall s
      ensures CopiesRegion(e, s) <==> e == SnapshotOf(s.cameraId, s.region, s.emittedAt)
    {
      SnapshotIsTheCopy(e, s);
    }
  }

  /** What an event window holds of the events fed to it, if ids identify them. */
  lemma EntriesCopyEvents(duration: int, items: seq<EventPayload>, e: EW.EventEntry)
    requires EW.Consistent(Entries(items))
    ensures e in EW.After(duration, Entries(items)).entries <==>
            exists s :: s in items && InReach(s.emittedAt, duration, EventTimes(items)) && CopiesEvent(e, s)
  {
    var es := Entries(items);
    EntriesOfEvents(items);
    EW.EntriesAreRecentDeliveries(duration, es);
    ReachIsNewest(e.emittedAt, duration, EventTimes(items), es);
    assert forall s :: CopiesEvent(e, s) <==> e == EntryOf(s);
  }

  /** In any run, from a point where rule `id` has no windows and until it is removed, the entries of its
      state window are exactly the copies of the regions dispatched to it, while it had a window, within
      the duration of the newest of these. */
  lemma StateWindowHoldsPosts(lang: Language, id: string, run: seq<Step>, trace: seq<State>, m: nat, n: nat,
                              e: SW.StateEntry)
    requires Unremoved(lang, id, run, trace, m, n)
    requires id !in trace[m].stateWindows && id !in trace[m].eventWindows && id in trace[n].stateWindows
    ensures e in trace[n].stateWindows[id].entries <==>
            exists j: nat, i: nat ::
              && RegionFed(id, run, trace, m, n, j, i)
              && InReach(run[j].action.state.emittedAt, trace[n].stateWindows[id].duration,
                         FedTimes(id, run, trace, m, n))
              && CopiesRegion(e, SightingAt(run, j, i))
  {
    var held := FedIn(id, run, trace, m, n).states;
    EngineHoldsWhatIsFed(lang, id, run, trace, m, n);
    SightingsAreFed(id, run, trace, m, n);
    TimesAreFed(id, run, trace, m, n);
    EntriesCopySightings(held.duration, held.items, e);
    SW.WindowIsFilter(held.duration, Snapshots(held.items));
    if s :| s in held.items && InReach(s.emittedAt, held.duration, SightingTimes(held.items)) && CopiesRegion(e, s) {
      assert SightingFed(id, run, trace, m, n, s);
    }
    if j: nat, i: nat :| RegionFed(id, run, trace, m, n, j, i) && CopiesRegion(e, SightingAt(run, j, i))
                         && InReach(run[j].action.state.emittedAt, held.duration, FedTimes(id, run, trace, m, n)) {
      assert SightingFed(id, run, trace, m, n, SightingAt(run, j, i));
    }
  }

  /** So the tracks of one type that the window counts are exactly the track ids of the entities of this
      type that those regions list. */
  lemma StateWindowTracks(lang: Language, id: string, run: seq<Step>, trace: seq<State>, m: nat, n: nat,
                          entityType: string, t: string)
    requires Unremoved(lang, id, run, trace, m, n)
    requires id !in trace[m].stateWindows && id !in trace[m].eventWindows && id in trace[n].stateWindows
    ensures t in SW.Tracks(trace[n].stateWindows[id].entries, entityType) <==>
            exists j: nat, i: nat, x: Entity ::
              && RegionFed(id, run, trace, m, n, j, i)
              && InReach(run[j].action.state.emittedAt, trace[n].stateWindows[id].duration,
                         FedTimes(id, run, trace, m, n))
              && x in run[j].action.state.regions[i].entities && x.entityType == entityType && x.trackId == t
  {
    var held := FedIn(id, run, trace, m, n).states;
    EngineHoldsWhatIsFed(lang, id, run, trace, m, n);
    SightingsAreFed(id, run, trace, m, n);
    TimesAreFed(id, run, trace, m, n);
    TracksAreRecent(held.duration, held.items, entityType);
    SW.WindowIsFilter(held.duration, Snapshots(held.items));
    if t in RecentTracks(held.duration, held.items, entityType) {
      var s, x :| s in held.items && InReach(s.emittedAt, held.duration, SightingTimes(held.items))
                  && x in s.region.entities && x.entityType == entityType && x.trackId == t;
      assert SightingFed(id, run, trace, m, n, s);
    }
    if j: nat, i: nat, x: Entity :|
      && RegionFed(id, run, trace, m, n, j, i)
      && InReach(run[j].action.state.emittedAt, held.duration, FedTimes(id, run, trace, m, n))
      && x in run[j].action.state.regions[i].entities && x.entityType == entityType && x.trackId == t
    {
      assert SightingFed(id, run, trace, m, n, SightingAt(run, j, i));
      assert SightingAt(run, j, i) in held.items;
    }
  }

  /** Likewise for the event window, if ids identify the events. */
  lemma EventWindowHoldsPosts(lang: Language, id: string, run: seq<Step>, trace: seq<State>, m: nat, n: nat,
                              e: EW.EventEntry)
    requires Unremoved(lang, id, run, trace, m, n)
    requires id !in trace[m].stateWindows && id !in trace[m].eventWindows && id in trace[n].eventWindows
    requires EW.Consistent(Entries(Items(FedIn(id, run, trace, m, n).events)))
    ensures e in trace[n].eventWindows[id].entries <==>
            exists j: nat ::
              && EventFed(id, run, trace, m, n, j)
              && InReach(run[j].action.event.emittedAt, trace[n].eventWindows[id].duration,
                         FedEventTimes(id, run, trace, m, n))
              && CopiesEvent(e, run[j].action.event)
  {
    var held := FedIn(id, run, trace, m, n).events;
    EngineHoldsWhatIsFed(lang, id, run, trace, m, n);
    EventsAreFed(id, run, trace, m, n);
    TimesAreFed(id, run, trace, m, n);
    EntriesCopyEvents(held.duration, held.items, e);
    EW.WindowIsFilter(held.duration, Entries(held.items));
    if s :| s in held.items && InReach(s.emittedAt, held.duration, EventTimes(held.items)) && CopiesEvent(e, s) {
      assert PostedFed(id, run, trace, m, n, s);
    }
    if j: nat :| EventFed(id, run, trace, m, n, j) && CopiesEvent(e, run[j].action.event)
                 && InReach(run[j].action.event.emittedAt, held.duration, FedEventTimes(id, run, trace, m, n)) {
      assert PostedFed(id, run, trace, m, n, run[j].action.event);
    }
  }
}
