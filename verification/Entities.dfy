/** The entity store: one record per tracked entity, written by state messages and events and evicted
    when it has not been seen for long; and the correlator that reads it. */
module Entities {
  import opened Common
  import opened Payloads

  const HISTORY := 50

  datatype EntityKey = EntityKey(trackId: string, entityType: string)

  datatype EntityEvent = EntityEvent(timestamp: int, cameraId: string, roiId: string, eventType: string)

  /** Where an entity has been: `cameras` and `rois` map each place to its latest time there. */
  datatype Places = Places(currentRoi: string, previousRoi: string, currentCamera: string,
                           cameras: map<string, int>, rois: map<string, int>)

  datatype Record = Record(firstSeen: int, lastSeen: int, places: Places, attributes: map<string, string>,
                           dwellTime: real, history: seq<EntityEvent>)

  type Records = map<EntityKey, Record>

  const NOWHERE := Places("", "", "", map[], map[])

  function Unseen(at: int): Record {
    Record(at, 0, NOWHERE, map[], 0.0, [])
  }

  function KeyOf(entity: Entity): EntityKey {
    EntityKey(entity.trackId, entity.entityType)
  }

  // ---------------------------------------------------------------------------------------------
  // What one message contributes to one entity
  // ---------------------------------------------------------------------------------------------

  datatype Contribution =
    | Sighting(at: int, cameraId: string, roiId: string, entity: Entity)
    | Note(at: int, event: EntityEvent)

  function Moved(p: Places, cameraId: string, roiId: string, at: int): Places {
    Places(roiId, if p.currentRoi != roiId && p.currentRoi != "" then p.currentRoi else p.previousRoi, cameraId,
           p.cameras[cameraId := at], p.rois[roiId := at])
  }

  function Trimmed(history: seq<EntityEvent>): seq<EntityEvent> {
    if |history| > HISTORY then history[1..] else history
  }

  function Told(r: Record, c: Contribution): Record {
    match c
    case Sighting(at, cameraId, roiId, entity) =>
      r.(lastSeen := at, places := Moved(r.places, cameraId, roiId, at),
         dwellTime := entity.dwellTime.GetOr(r.dwellTime), attributes := r.attributes + entity.attributes)
    case Note(at, event) => r.(lastSeen := at, history := Trimmed(r.history + [event]))
  }

  function Extended(r: Option<Record>, c: Contribution): Record {
    Told(r.GetOr(Unseen(c.at)), c)
  }

  function WithContribution(records: Records, key: EntityKey, c: Contribution): Records {
    records[key := Extended(Lookup(records, key), c)]
  }

  function WithState(records: Records, cameraId: string, roiId: string, entities: seq<Entity>, at: int): Records {
    if entities == [] then records
    else
      var n := |entities| - 1;
      WithContribution(WithState(records, cameraId, roiId, entities[..n], at), KeyOf(entities[n]),
                       Sighting(at, cameraId, roiId, entities[n]))
  }

  function NoteOf(event: EventPayload): Contribution {
    Note(event.emittedAt, EntityEvent(event.emittedAt, event.camera, event.roiId, event.kind))
  }

  function WithEvent(records: Records, event: EventPayload): Records {
    match event.entity
    case None => records
    case Some(entity) => WithContribution(records, KeyOf(entity), NoteOf(event))
  }

  function Evicted(records: Records, now: int, ttlSeconds: int): Records {
    map k | k in records && now - records[k].lastSeen <= ttlSeconds :: records[k]
  }

  /** The same while the entities in `todo` have still to be looked at. */
  function Swept(records: Records, todo: set<EntityKey>, now: int, ttlSeconds: int): Records {
    map k | k in records && (k in todo || now - records[k].lastSeen <= ttlSeconds) :: records[k]
  }

  lemma SweptStep(records: Records, todo: set<EntityKey>, k: EntityKey, now: int, ttlSeconds: int)
    requires k in todo && k in records
    ensures Swept(records, todo - {k}, now, ttlSeconds) ==
            if now - records[k].lastSeen > ttlSeconds then Swept(records, todo, now, ttlSeconds) - {k}
            else Swept(records, todo, now, ttlSeconds)
  {
  }

  lemma SweptEnds(records: Records, now: int, ttlSeconds: int)
    ensures Swept(records, records.Keys, now, ttlSeconds) == records
    ensures Swept(records, {}, now, ttlSeconds) == Evicted(records, now, ttlSeconds)
  {
  }

  // ---------------------------------------------------------------------------------------------
  // The store
  // ---------------------------------------------------------------------------------------------

  class EntityState {
    const key: EntityKey
    var firstSeen: int
    var lastSeen: int
    var currentRoi: string
    var previousRoi: string
    var currentCamera: string
    var cameras: map<string, int>
    var rois: map<string, int>
    var attributes: map<string, string>
    var dwellTime: real
    var history: seq<EntityEvent>

    ghost function Value(): Record
      reads this
    {
      Record(firstSeen, lastSeen, Places(currentRoi, previousRoi, currentCamera, cameras, rois), attributes,
             dwellTime, history)
    }

    constructor (key: EntityKey, at: int)
      ensures this.key == key && Value() == Unseen(at)
    {
      this.key := key;
      firstSeen, lastSeen := at, 0;
      currentRoi, previousRoi, currentCamera := "", "", "";
      cameras, rois, attributes := map[], map[], map[];
      dwellTime, history := 0.0, [];
    }

    method See(cameraId: string, roiId: string, entity: Entity, at: int)
      modifies this
      ensures Value() == Told(old(Value()), Sighting(at, cameraId, roiId, entity))
    {
      if currentRoi != roiId && currentRoi != "" {
        previousRoi := currentRoi;
      }
      lastSeen := at;
      currentCamera := cameraId;
      currentRoi := roiId;
      cameras := cameras[cameraId := at];
      rois := rois[roiId := at];
      if entity.dwellTime.Some? {
        dwellTime := entity.dwellTime.value;
      }
      attributes := attributes + entity.attributes;
    }

    method Note(event: EventPayload)
      modifies this
      ensures Value() == Told(old(Value()), NoteOf(event))
    {
      lastSeen := event.emittedAt;
      history := history + [EntityEvent(event.emittedAt, event.camera, event.roiId, event.kind)];
      if |history| > HISTORY {
        history := history[1..];
      }
    }
  }

  datatype CorrelatedMatch = CorrelatedMatch(key: EntityKey, isMatch: bool)

  const ACROSS_CAMERAS := "cameras"
  const ACROSS_ROIS := "rois"

  /** The verdict for one entity; without a correlation everything matches. */
  function Verdict(records: Records, across: Option<string>, key: EntityKey): bool {
    across.None? ||
    (key in records &&
     if across.value == ACROSS_CAMERAS then |records[key].places.cameras| > 1
     else across.value == ACROSS_ROIS && |records[key].places.rois| > 1)
  }

  class EntityStore {
    var entities: map<EntityKey, EntityState>
    const ttlSeconds: int
    ghost var View: Records
    ghost var Repr: set<object>

    /** Every entity has an object of its own, which holds what the view says. */
    ghost predicate Valid()
      reads this, Repr
    {
      && this in Repr
      && entities.Keys == View.Keys
      && (forall k :: k in entities ==> entities[k] in Repr && entities[k].Value() == View[k])
      && (forall a, b :: a in entities && b in entities && a != b ==> entities[a] != entities[b])
    }

    constructor (ttlSeconds: int)
      ensures Valid() && fresh(Repr) && View == map[] && this.ttlSeconds == ttlSeconds
    {
      entities, View, Repr := map[], map[], {this};
      this.ttlSeconds := ttlSeconds;
    }

    method GetOrCreate(key: EntityKey, at: int) returns (state: EntityState)
      requires Valid()
      modifies this
      ensures Valid() && fresh(Repr - old(Repr)) && old(Repr) <= Repr
      ensures key in entities && entities[key] == state
      ensures View == old(View)[key := Lookup(old(View), key).GetOr(Unseen(at))]
    {
      if key in entities {
        return entities[key];
      }
      state := new EntityState(key, at);
      entities := entities[key := state];
      View, Repr := View[key := Unseen(at)], Repr + {state};
    }

    method SeeAt(state: EntityState, ghost key: EntityKey, cameraId: string, roiId: string, entity: Entity, at: int)
      requires Valid() && key in entities && entities[key] == state
      modifies state, this`View
      ensures Valid() && View == old(View)[key := Told(old(View)[key], Sighting(at, cameraId, roiId, entity))]
    {
      state.See(cameraId, roiId, entity, at);
      View := View[key := state.Value()];
    }

    method NoteAt(state: EntityState, ghost key: EntityKey, event: EventPayload)
      requires Valid() && key in entities && entities[key] == state
      modifies state, this`View
      ensures Valid() && View == old(View)[key := Told(old(View)[key], NoteOf(event))]
    {
      state.Note(event);
      View := View[key := state.Value()];
    }

    method See(cameraId: string, roiId: string, entity: Entity, at: int)
      requires Valid()
      modifies Repr
      ensures Valid() && fresh(Repr - old(Repr)) && old(Repr) <= Repr
      ensures View == WithContribution(old(View), KeyOf(entity), Sighting(at, cameraId, roiId, entity))
    {
      ghost var was := View;
      var key := EntityKey(entity.trackId, entity.entityType);
      var state := GetOrCreate(key, at);
      ghost var before := View[key];
      SeeAt(state, key, cameraId, roiId, entity, at);
      Overwrite(was, key, before, Told(before, Sighting(at, cameraId, roiId, entity)));
    }

    method UpdateFromState(cameraId: string, roiId: string, seen: seq<Entity>, emittedAt: int)
      requires Valid()
      modifies Repr
      ensures Valid() && fresh(Repr - old(Repr)) && old(Repr) <= Repr
      ensures View == WithState(old(View), cameraId, roiId, seen, emittedAt)
    {
      for n := 0 to |seen|
        invariant Valid() && fresh(Repr - old(Repr)) && old(Repr) <= Repr
        invariant View == WithState(old(View), cameraId, roiId, seen[..n], emittedAt)
      {
        See(cameraId, roiId, seen[n], emittedAt);
        assert seen[..n + 1][..n] == seen[..n];
      }
      assert seen[..|seen|] == seen;
    }

    method UpdateFromEvent(event: EventPayload)
      requires Valid()
      modifies Repr
      ensures Valid() && fresh(Repr - old(Repr)) && old(Repr) <= Repr
      ensures View == WithEvent(old(View), event)
    {
      if event.entity.None? {
        return;
      }
      ghost var was := View;
      var key := EntityKey(event.entity.value.trackId, event.entity.value.entityType);
      var state := GetOrCreate(key, event.emittedAt);
      ghost var before := View[key];
      NoteAt(state, key, event);
      Overwrite(was, key, before, Told(before, NoteOf(event)));
    }

    method Forget(key: EntityKey)
      requires Valid()
      modifies this`entities, this`View
      ensures Valid() && View == old(View) - {key} && entities == old(entities) - {key}
    {
      entities := entities - {key};
      View := View - {key};
    }

    method Cleanup(now: int)
      requires Valid()
      modifies this`entities, this`View
      ensures Valid() && View == Evicted(old(View), now, ttlSeconds)
    {
      ghost var was := View;
      var todo := entities.Keys;
      SweptEnds(was, now, ttlSeconds);
      while todo != {}
        invariant Valid() && todo <= View.Keys
        invariant View == Swept(was, todo, now, ttlSeconds)
        decreases todo
      {
        var k :| k in todo;
        SweptStep(was, todo, k, now, ttlSeconds);
        assert entities[k].Value() == View[k];
        todo := todo - {k};
        if now - entities[k].lastSeen > ttlSeconds {
          Forget(k);
        }
      }
    }

    method FindCorrelated(across: Option<string>, current: seq<EntityKey>) returns (matches: seq<CorrelatedMatch>)
      requires Valid()
      ensures |matches| == |current|
      ensures forall i :: 0 <= i < |current| ==>
                matches[i] == CorrelatedMatch(current[i], Verdict(View, across, current[i]))
    {
      if across.None? {
        return seq(|current|, i requires 0 <= i < |current| => CorrelatedMatch(current[i], true));
      }
      matches := [];
      for n := 0 to |current|
        invariant |matches| == n
        invariant forall i :: 0 <= i < n ==>
                    matches[i] == CorrelatedMatch(current[i], Verdict(View, across, current[i]))
      {
        var key := current[n];
        var isMatch := false;
        if key in entities {
          var state := entities[key];
          assert state.Value() == View[key];
          if across.value == ACROSS_CAMERAS {
            if |state.cameras| > 1 {
              isMatch := true;
            }
          } else if across.value == ACROSS_ROIS {
            if |state.rois| > 1 {
              isMatch := true;
            }
          }
        }
        matches := matches + [CorrelatedMatch(key, isMatch)];
      }
    }
  }
}
