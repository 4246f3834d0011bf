/** Whole runs of the entity store: a record says what was reported of the entity since it was last
    evicted, whatever else the store was told. */
module EntityRuns {
  import opened Common
  import opened Payloads
  import opened Entities

  datatype Op =
    | State(cameraId: string, roiId: string, entities: seq<Entity>, at: int)
    | Event(event: EventPayload)
    | Sweep(now: int)

  function Apply(records: Records, op: Op, ttlSeconds: int): Records {
    match op
    case State(cameraId, roiId, entities, at) => WithState(records, cameraId, roiId, entities, at)
    case Event(event) => WithEvent(records, event)
    case Sweep(now) => Evicted(records, now, ttlSeconds)
  }

  function After(ops: seq<Op>, ttlSeconds: int): Records {
    if ops == [] then map[] else Apply(After(ops[..|ops| - 1], ttlSeconds), ops[|ops| - 1], ttlSeconds)
  }

  // ---------------------------------------------------------------------------------------------
  // The history of one entity
  // ---------------------------------------------------------------------------------------------

  /** What a state message reports of one entity. */
  function SightingsOf(key: EntityKey, cameraId: string, roiId: string, entities: seq<Entity>, at: int)
    : seq<Contribution>
  {
    if entities == [] then []
    else
      var n := |entities| - 1;
      var before := SightingsOf(key, cameraId, roiId, entities[..n], at);
      if EntityKey(entities[n].trackId, entities[n].entityType) == key
      then before + [Sighting(at, cameraId, roiId, entities[n])] else before
  }

  /** What was reported of an entity since its last eviction, which comes when a sweep finds its last
      report too old. */
  function Log(ops: seq<Op>, key: EntityKey, ttlSeconds: int): seq<Contribution> {
    if ops == [] then []
    else
      var past := Log(ops[..|ops| - 1], key, ttlSeconds);
      match ops[|ops| - 1]
      case State(cameraId, roiId, entities, at) =>
        var more := SightingsOf(key, cameraId, roiId, entities, at);
        if more == [] then past else past + more
      case Event(event) =>
        if event.entity.Some? && EntityKey(event.entity.value.trackId, event.entity.value.entityType) == key
        then past + [Note(event.emittedAt, EntityEvent(event.emittedAt, event.camera, event.roiId, event.kind))]
        else past
      case Sweep(now) =>
        if past != [] && now - past[|past| - 1].at > ttlSeconds then [] else past
  }

  /** The record that a history amounts to. */
  function RecordOf(log: seq<Contribution>): Option<Record> {
    if log == [] then None else Some(Extended(RecordOf(log[..|log| - 1]), log[|log| - 1]))
  }

  lemma RecordStep(log: seq<Contribution>, c: Contribution)
    ensures RecordOf(log + [c]) == Some(Extended(RecordOf(log), c))
  {
    assert (log + [c])[..|log + [c]| - 1] == log;
  }

  lemma {:induction false} StateTells(records: Records, key: EntityKey, log: seq<Contribution>, cameraId: string,
                                      roiId: string, entities: seq<Entity>, at: int)
    requires Lookup(records, key) == RecordOf(log)
    ensures Lookup(WithState(records, cameraId, roiId, entities, at), key) ==
            RecordOf(log + SightingsOf(key, cameraId, roiId, entities, at))
  {
    if entities == [] {
      assert log + [] == log;
    } else {
      var n := |entities| - 1;
      var before := SightingsOf(key, cameraId, roiId, entities[..n], at);
      StateTells(records, key, log, cameraId, roiId, entities[..n], at);
      if KeyOf(entities[n]) == key {
        RecordStep(log + before, Sighting(at, cameraId, roiId, entities[n]));
        assert log + (before + [Sighting(at, cameraId, roiId, entities[n])])
            == log + before + [Sighting(at, cameraId, roiId, entities[n])];
      }
    }
  }

  lemma LastSeen(log: seq<Contribution>)
    requires log != []
    ensures RecordOf(log).value.lastSeen == log[|log| - 1].at
  {
  }

  /** The store holds a record of an entity exactly when something was reported of it since its last
      eviction, and then the record those reports amount to. */
  lemma {:induction false} RecordIsItsLog(ops: seq<Op>, key: EntityKey, ttlSeconds: int)
    ensures Lookup(After(ops, ttlSeconds), key) == RecordOf(Log(ops, key, ttlSeconds))
  {
    if ops != [] {
      var past := ops[..|ops| - 1];
      RecordIsItsLog(past, key, ttlSeconds);
      OpTells(After(past, ttlSeconds), key, past, ops[|ops| - 1], ops, ttlSeconds);
    }
  }

  lemma StateOpTells(records: Records, key: EntityKey, log: seq<Contribution>, cameraId: string, roiId: string,
                     entities: seq<Entity>, at: int)
    requires Lookup(records, key) == RecordOf(log)
    ensures var more := SightingsOf(key, cameraId, roiId, entities, at);
            Lookup(WithState(records, cameraId, roiId, entities, at), key) ==
            RecordOf(if more == [] then log else log + more)
  {
    StateTells(records, key, log, cameraId, roiId, entities, at);
    assert log + [] == log;
  }

  lemma EventTells(records: Records, key: EntityKey, log: seq<Contribution>, event: EventPayload)
    requires Lookup(records, key) == RecordOf(log)
    ensures Lookup(WithEvent(records, event), key) ==
            if event.entity.Some? && KeyOf(event.entity.value) == key then RecordOf(log + [NoteOf(event)])
            else RecordOf(log)
  {
    RecordStep(log, NoteOf(event));
  }

  lemma SweepTells(records: Records, key: EntityKey, log: seq<Contribution>, now: int, ttlSeconds: int)
    requires Lookup(records, key) == RecordOf(log)
    ensures Lookup(Evicted(records, now, ttlSeconds), key) ==
            if log != [] && now - log[|log| - 1].at > ttlSeconds then None else RecordOf(log)
  {
    if log != [] {
      LastSeen(log);
    }
  }

  lemma OpTells(records: Records, key: EntityKey, past: seq<Op>, op: Op, ops: seq<Op>, ttlSeconds: int)
    requires ops != [] && past == ops[..|ops| - 1] && op == ops[|ops| - 1]
    requires Lookup(records, key) == RecordOf(Log(past, key, ttlSeconds))
    ensures Lookup(Apply(records, op, ttlSeconds), key) == RecordOf(Log(ops, key, ttlSeconds))
  {
    var log := Log(past, key, ttlSeconds);
    match op
    case State(cameraId, roiId, entities, at) => StateOpTells(records, key, log, cameraId, roiId, entities, at);
    case Event(event) => EventTells(records, key, log, event);
    case Sweep(now) => SweepTells(records, key, log, now, ttlSeconds);
  }

  // ---------------------------------------------------------------------------------------------
  // The event history and the two times
  // ---------------------------------------------------------------------------------------------

  function EventsIn(log: seq<Contribution>): seq<EntityEvent> {
    if log == [] then []
    else
      var before := EventsIn(log[..|log| - 1]);
      if log[|log| - 1].Note? then before + [log[|log| - 1].event] else before
  }

  function Latest<T>(s: seq<T>, n: nat): seq<T> {
    if |s| <= n then s else s[|s| - n..]
  }

  lemma TrimmedLatest(s: seq<EntityEvent>, e: EntityEvent)
    ensures Trimmed(Latest(s, HISTORY) + [e]) == Latest(s + [e], HISTORY)
  {
  }

  /** A record's history is the last fifty of the entity's events, or all of them. */
  lemma {:induction false} HistoryIsLatestEvents(log: seq<Contribution>)
    requires log != []
    ensures RecordOf(log).value.history == Latest(EventsIn(log), 50)
  {
    var past, c := log[..|log| - 1], log[|log| - 1];
    if past != [] {
      HistoryIsLatestEvents(past);
    }
    if c.Note? {
      TrimmedLatest(EventsIn(past), c.event);
    }
  }

  lemma {:induction false} FirstSeenIsFirstReport(log: seq<Contribution>)
    requires log != []
    ensures RecordOf(log).value.firstSeen == log[0].at
  {
    if |log| > 1 {
      FirstSeenIsFirstReport(log[..|log| - 1]);
    }
  }

  // ---------------------------------------------------------------------------------------------
  // The latest report wins
  // ---------------------------------------------------------------------------------------------

  /** Nothing like `p` is reported after report `i`. */
  ghost predicate NoLater(log: seq<Contribution>, i: nat, p: Contribution -> bool) {
    forall j :: i < j < |log| ==> !p(log[j])
  }

  /** What a sighting says stands until a later one says something of the same kind: its camera, its times
      at its camera and its ROI, its dwell time if it carries one, and each of its attributes. */
  lemma {:induction false} LatestSightingWins(log: seq<Contribution>, i: nat, name: string)
    requires i < |log| && log[i].Sighting?
    ensures var r, s := RecordOf(log).value, log[i];
            && (NoLater(log, i, (c: Contribution) => c.Sighting?) ==> r.places.currentCamera == s.cameraId)
            && (NoLater(log, i, (c: Contribution) => c.Sighting? && c.cameraId == s.cameraId) ==>
                  Lookup(r.places.cameras, s.cameraId) == Some(s.at))
            && (NoLater(log, i, (c: Contribution) => c.Sighting? && c.roiId == s.roiId) ==>
                  Lookup(r.places.rois, s.roiId) == Some(s.at))
            && (s.entity.dwellTime.Some?
                && NoLater(log, i, (c: Contribution) => c.Sighting? && c.entity.dwellTime.Some?) ==>
                  r.dwellTime == s.entity.dwellTime.value)
            && (name in s.entity.attributes
                && NoLater(log, i, (c: Contribution) => c.Sighting? && name in c.entity.attributes) ==>
                  Lookup(r.attributes, name) == Some(s.entity.attributes[name]))
    decreases |log|
  {
    if i < |log| - 1 {
      LatestSightingWins(log[..|log| - 1], i, name);
    }
  }

  /** A record has no attribute that no sighting carried. */
  lemma {:induction false} AttributesAreReported(log: seq<Contribution>, name: string)
    requires log != [] && name in RecordOf(log).value.attributes
    ensures exists i :: 0 <= i < |log| && log[i].Sighting? && name in log[i].entity.attributes
  {
    var past, c := log[..|log| - 1], log[|log| - 1];
    if !(c.Sighting? && name in c.entity.attributes) {
      AttributesAreReported(past, name);
      var i :| 0 <= i < |past| && past[i].Sighting? && name in past[i].entity.attributes;
      assert log[i] == past[i];
    }
  }

  // ---------------------------------------------------------------------------------------------
  // The visit sequence
  // ---------------------------------------------------------------------------------------------

  function RoisIn(log: seq<Contribution>): seq<string> {
    if log == [] then []
    else
      var before := RoisIn(log[..|log| - 1]);
      if log[|log| - 1].Sighting? then before + [log[|log| - 1].roiId] else before
  }

  /** `s` with every run of equal neighbours cut down to one. */
  function StutterFree(s: seq<string>): seq<string> {
    if s == [] then []
    else
      var before := StutterFree(s[..|s| - 1]);
      if before != [] && before[|before| - 1] == s[|s| - 1] then before else before + [s[|s| - 1]]
  }

  function LastNamed(visits: seq<string>): string {
    if visits == [] then ""
    else if visits[|visits| - 1] != "" then visits[|visits| - 1]
    else LastNamed(visits[..|visits| - 1])
  }

  /** The current ROI is where the last visit is, the previous one the last named place before it. */
  predicate Traced(p: Places, visits: seq<string>) {
    if visits == [] then p.currentRoi == "" && p.previousRoi == ""
    else p.currentRoi == visits[|visits| - 1] && p.previousRoi == LastNamed(visits[..|visits| - 1])
  }

  lemma StutterFreeStep(s: seq<string>, x: string)
    ensures var visits := StutterFree(s);
            StutterFree(s + [x]) == if visits != [] && visits[|visits| - 1] == x then visits else visits + [x]
  {
    assert (s + [x])[..|s + [x]| - 1] == s;
  }

  lemma MoveTraces(p: Places, s: seq<string>, cameraId: string, roiId: string, at: int)
    requires Traced(p, StutterFree(s))
    ensures Traced(Moved(p, cameraId, roiId, at), StutterFree(s + [roiId]))
  {
    var visits := StutterFree(s);
    StutterFreeStep(s, roiId);
    assert (visits + [roiId])[..|visits + [roiId]| - 1] == visits;
  }

  /** `currentRoi` and `previousRoi` follow the stutter-free visit sequence, for every run. */
  lemma {:induction false} RoisAreLastVisits(log: seq<Contribution>)
    requires log != []
    ensures Traced(RecordOf(log).value.places, StutterFree(RoisIn(log)))
  {
    var past, c := log[..|log| - 1], log[|log| - 1];
    if past != [] {
      RoisAreLastVisits(past);
    }
    if c.Sighting? {
      MoveTraces(RecordOf(past).GetOr(Unseen(c.at)).places, RoisIn(past), c.cameraId, c.roiId, c.at);
    }
  }

  lemma {:induction false} VisitsAreNamed(s: seq<string>)
    requires "" !in s
    ensures "" !in StutterFree(s)
  {
    if s != [] {
      assert s == s[..|s| - 1] + [s[|s| - 1]];
      VisitsAreNamed(s[..|s| - 1]);
    }
  }

  /** When every ROI has a name, they are simply the last two visits. */
  lemma NamedRoisAreLastTwoVisits(log: seq<Contribution>)
    requires log != [] && "" !in RoisIn(log)
    ensures var visits, p := StutterFree(RoisIn(log)), RecordOf(log).value.places;
            && p.currentRoi == (if |visits| > 0 then visits[|visits| - 1] else "")
            && p.previousRoi == (if |visits| > 1 then visits[|visits| - 2] else "")
  {
    RoisAreLastVisits(log);
    VisitsAreNamed(RoisIn(log));
    var visits := StutterFree(RoisIn(log));
    if |visits| > 1 {
      assert visits[|visits| - 2] in visits;
    }
  }

  // ---------------------------------------------------------------------------------------------
  // Correlation
  // ---------------------------------------------------------------------------------------------

  ghost predicate SeenOn(log: seq<Contribution>, cameraId: string) {
    exists i :: 0 <= i < |log| && log[i].Sighting? && log[i].cameraId == cameraId
  }

  ghost predicate SeenIn(log: seq<Contribution>, roiId: string) {
    exists i :: 0 <= i < |log| && log[i].Sighting? && log[i].roiId == roiId
  }

  lemma {:induction false} PlacesAreSightings(log: seq<Contribution>, cameraId: string, roiId: string)
    requires log != []
    ensures cameraId in RecordOf(log).value.places.cameras <==> SeenOn(log, cameraId)
    ensures roiId in RecordOf(log).value.places.rois <==> SeenIn(log, roiId)
  {
    var past := log[..|log| - 1];
    SeenStep(log, cameraId, roiId);
    if past != [] {
      PlacesAreSightings(past, cameraId, roiId);
    }
  }

  lemma SeenStep(log: seq<Contribution>, cameraId: string, roiId: string)
    requires log != []
    ensures var past, c := log[..|log| - 1], log[|log| - 1];
            && (SeenOn(log, cameraId) <==> SeenOn(past, cameraId) || (c.Sighting? && c.cameraId == cameraId))
            && (SeenIn(log, roiId) <==> SeenIn(past, roiId) || (c.Sighting? && c.roiId == roiId))
  {
    var past, c := log[..|log| - 1], log[|log| - 1];
    if SeenOn(past, cameraId) {
      var i :| 0 <= i < |past| && past[i].Sighting? && past[i].cameraId == cameraId;
      assert log[i] == past[i];
    }
    if SeenIn(past, roiId) {
      var i :| 0 <= i < |past| && past[i].Sighting? && past[i].roiId == roiId;
      assert log[i] == past[i];
    }
    if SeenOn(log, cameraId) {
      var i :| 0 <= i < |log| && log[i].Sighting? && log[i].cameraId == cameraId;
      assert i < |past| ==> past[i] == log[i];
    }
    if SeenIn(log, roiId) {
      var i :| 0 <= i < |log| && log[i].Sighting? && log[i].roiId == roiId;
      assert i < |past| ==> past[i] == log[i];
    }
  }

  lemma MoreThanOne<T>(s: set<T>)
    ensures |s| > 1 <==> exists a, b :: a in s && b in s && a != b
  {
    if s != {} {
      var a :| a in s;
      var rest := s - {a};
      assert |s| == 1 + |rest|;
      if rest != {} {
        var b :| b in rest;
      }
    }
  }

  lemma CamerasCount(log: seq<Contribution>)
    requires log != []
    ensures |RecordOf(log).value.places.cameras| > 1 <==>
            exists a, b :: SeenOn(log, a) && SeenOn(log, b) && a != b
  {
    var cameras := RecordOf(log).value.places.cameras;
    MoreThanOne(cameras.Keys);
    assert |cameras| == |cameras.Keys|;
    forall a
      ensures a in cameras.Keys <==> SeenOn(log, a)
    {
      PlacesAreSightings(log, a, "");
    }
  }

  lemma RoisCount(log: seq<Contribution>)
    requires log != []
    ensures |RecordOf(log).value.places.rois| > 1 <==>
            exists a, b :: SeenIn(log, a) && SeenIn(log, b) && a != b
  {
    var rois := RecordOf(log).value.places.rois;
    MoreThanOne(rois.Keys);
    assert |rois| == |rois.Keys|;
    forall a
      ensures a in rois.Keys <==> SeenIn(log, a)
    {
      PlacesAreSightings(log, "", a);
    }
  }

  /** Over any run, an entity correlates across cameras (across ROIs) exactly when state messages saw
      it on two different cameras (in two different ROIs) since its last eviction, and across
      anything else never. */
  lemma CorrelatedIff(ops: seq<Op>, key: EntityKey, ttlSeconds: int, across: string)
    ensures var log := Log(ops, key, ttlSeconds);
            Verdict(After(ops, ttlSeconds), Some(across), key) <==>
            || (across == "cameras" && exists a, b :: SeenOn(log, a) && SeenOn(log, b) && a != b)
            || (across == "rois" && exists a, b :: SeenIn(log, a) && SeenIn(log, b) && a != b)
  {
    var log := Log(ops, key, ttlSeconds);
    RecordIsItsLog(ops, key, ttlSeconds);
    if log != [] {
      CamerasCount(log);
      RoisCount(log);
    }
  }
}
