/** The sliding window of state snapshots: unique tracks and the latest snapshot. */
module StateWindows {
  import opened Common
  import opened Rolling
  import opened Payloads

  datatype TrackedEntity = TrackedEntity(entityType: string, trackId: string, dwellTime: real)

  datatype Snapshot = Snapshot(cameraId: string, roiId: string, occupancy: Occupancy, staffCount: int,
                               dwell: map<string, Dwell>, entities: seq<TrackedEntity>)

  type StateEntry = Stamped<Snapshot>

  const EMPTY_ENTRY := Stamped(0, Snapshot("", "", Occupancy(0, 0, 0), 0, map[], []))

  /** The value of a window's fields. */
  datatype Window = Window(entries: seq<StateEntry>, duration: int, latest: int)

  function Created(duration: int): Window {
    Window([], duration, 0)
  }

  function Added(w: Window, e: StateEntry): Window {
    var latest := Max(w.latest, e.emittedAt);
    Window(Recent(w.entries + [e], latest - w.duration), w.duration, latest)
  }

  /** The snapshot lists an entity of this type with this track id. */
  ghost predicate Shows(e: StateEntry, entityType: string, trackId: string) {
    exists x :: x in e.item.entities && x.entityType == entityType && x.trackId == trackId
  }

  /** The track ids of one entity type in one snapshot. */
  function SnapshotTracks(entities: seq<TrackedEntity>, entityType: string): set<string> {
    set x | x in entities && x.entityType == entityType :: x.trackId
  }

  /** The track ids of one entity type in any of the snapshots. */
  function Tracks(es: seq<StateEntry>, entityType: string): set<string> {
    if es == [] then {}
    else Tracks(es[..|es| - 1], entityType) + SnapshotTracks(es[|es| - 1].item.entities, entityType)
  }

  // ---------------------------------------------------------------------------------------------
  // The window in the heap
  // ---------------------------------------------------------------------------------------------

  class StateWindow {
    var entries: seq<StateEntry>
    var durationSeconds: int
    var latest: int

    ghost function Value(): Window
      reads this
    {
      Window(entries, durationSeconds, latest)
    }

    constructor (durationSeconds: int)
      ensures Value() == Created(durationSeconds)
    {
      entries, latest := [], 0;
      this.durationSeconds := durationSeconds;
    }

    method Add(entry: StateEntry)
      modifies this
      ensures Value() == Added(old(Value()), entry)
    {
      entries := entries + [entry];
      if entry.emittedAt > latest {
        latest := entry.emittedAt;
      }
      var cutoff := latest - durationSeconds;
      Prune(cutoff);
    }

    /** Compacts `entries` in place behind a write index, blanks the tail and truncates. */
    method Prune(cutoff: int)
      modifies this`entries
      ensures entries == Recent(old(entries), cutoff)
    {
      var n := 0;
      ghost var was, kept := entries, [];
      for i := 0 to |entries|
        invariant n <= i && |entries| == |was|
        invariant entries[..n] == kept && entries[i..] == was[i..]
        invariant kept == Recent(was[..i], cutoff)
      {
        var e := entries[i];
        assert was[..i + 1] == was[..i] + [e];
        RecentStep(was[..i], e, cutoff);
        WriteBehind(entries, n, i, e);
        WriteBehind(was, n, i, e);
        if e.emittedAt >= cutoff {
          entries := entries[n := e];
          n, kept := n + 1, kept + [e];
        }
      }
      assert was[..|was|] == was;
      for i := n to |entries|
        invariant |entries| == |was| && entries[..n] == kept
      {
        entries := entries[i := EMPTY_ENTRY];
      }
      entries := entries[..n];
    }

    method UniqueTrackIds(entityType: string) returns (unique: set<string>)
      ensures unique == Tracks(Value().entries, entityType)
      ensures forall t :: t in unique <==> exists e :: e in Value().entries && Shows(e, entityType, t)
    {
      unique := {};
      for i := 0 to |entries|
        invariant unique == Tracks(entries[..i], entityType)
      {
        var entities := entries[i].item.entities;
        for j := 0 to |entities|
          invariant unique == Tracks(entries[..i], entityType) + SnapshotTracks(entities[..j], entityType)
        {
          assert entities[..j + 1] == entities[..j] + [entities[j]];
          if entities[j].entityType == entityType {
            unique := unique + {entities[j].trackId};
          }
        }
        assert entities[..|entities|] == entities;
        assert entries[..i + 1][..i] == entries[..i];
      }
      assert entries[..|entries|] == entries;
      TracksMembers(entries, entityType);
    }

    /** The first of the newest entries, if there is an entry at all. */
    method LatestEntry() returns (entry: Option<StateEntry>)
      ensures entry.None? <==> Value().entries == []
      ensures entry.Some? ==> IsNewest(Value().entries, entry.value)
    {
      if |entries| == 0 {
        return None;
      }
      var k := 0;
      for i := 1 to |entries|
        invariant 0 <= k < |entries|
        invariant forall j :: 0 <= j < i ==> entries[j].emittedAt <= entries[k].emittedAt
        invariant forall j :: 0 <= j < k ==> entries[j].emittedAt < entries[k].emittedAt
      {
        if entries[i].emittedAt > entries[k].emittedAt {
          k := i;
        }
      }
      return Some(entries[k]);
    }
  }

  /** `e` is the first element of `es` that no element is newer than. */
  ghost predicate IsNewest(es: seq<StateEntry>, e: StateEntry) {
    exists k :: && 0 <= k < |es| && es[k] == e
                && (forall j :: 0 <= j < |es| ==> es[j].emittedAt <= e.emittedAt)
                && (forall j :: 0 <= j < k ==> es[j].emittedAt < e.emittedAt)
  }

  // ---------------------------------------------------------------------------------------------
  // Whole runs of snapshots
  // ---------------------------------------------------------------------------------------------

  function After(duration: int, h: seq<StateEntry>): Window {
    if h == [] then Created(duration) else Added(After(duration, h[..|h| - 1]), h[|h| - 1])
  }

  lemma AfterStep(duration: int, h: seq<StateEntry>, e: StateEntry)
    ensures After(duration, h + [e]) == Added(After(duration, h), e)
  {
    assert (h + [e])[..|h + [e]| - 1] == h;
  }

  /** The compacting window equals the simple filter over every snapshot ever added. */
  lemma {:induction false} WindowIsFilter(duration: int, h: seq<StateEntry>)
    ensures After(duration, h) == Window(Recent(h, Newest(h) - duration), duration, Newest(h))
  {
    if h != [] {
      var past, e := h[..|h| - 1], h[|h| - 1];
      WindowIsFilter(duration, past);
      RecentAppend(past, e, Newest(past) - duration, Newest(h) - duration);
      assert past + [e] == h;
    }
  }

  lemma SnapshotShows(e: StateEntry, entityType: string)
    ensures forall t :: t in SnapshotTracks(e.item.entities, entityType) <==> Shows(e, entityType, t)
  {
  }

  lemma {:induction false} TracksMembers(es: seq<StateEntry>, entityType: string)
    ensures forall t :: t in Tracks(es, entityType) <==>
              exists e :: e in es && Shows(e, entityType, t)
  {
    if es != [] {
      TracksMembers(es[..|es| - 1], entityType);
      SnapshotShows(es[|es| - 1], entityType);
      assert es == es[..|es| - 1] + [es[|es| - 1]];
    }
  }

  /** The unique tracks are exactly those seen within the duration of the newest snapshot. */
  lemma UniqueTracksAreRecentTracks(duration: int, h: seq<StateEntry>, entityType: string)
    ensures forall t :: t in Tracks(After(duration, h).entries, entityType) <==>
              exists e :: e in h && e.emittedAt >= Newest(h) - duration && Shows(e, entityType, t)
  {
    WindowIsFilter(duration, h);
    RecentMembers(h, Newest(h) - duration);
    TracksMembers(After(duration, h).entries, entityType);
  }

  /** Repeating or permuting snapshots changes no unique-track count. */
  lemma UniqueTracksIgnoreOrderAndRepetition(duration: int, h: seq<StateEntry>, g: seq<StateEntry>,
                                             entityType: string)
    requires forall e :: e in h <==> e in g
    ensures Tracks(After(duration, h).entries, entityType) == Tracks(After(duration, g).entries, entityType)
  {
    NewestOfSameElements(h, g);
    UniqueTracksAreRecentTracks(duration, h, entityType);
    UniqueTracksAreRecentTracks(duration, g, entityType);
  }

  // ---------------------------------------------------------------------------------------------
  // Identity of tracks
  // ---------------------------------------------------------------------------------------------

  /** The tracks of one entity type told apart by camera as well. */
  ghost function CameraTracks(es: seq<StateEntry>, entityType: string): set<(string, string)> {
    set e, x | e in es && x in e.item.entities && x.entityType == entityType :: (e.item.cameraId, x.trackId)
  }

  /** No track id of the type occurs under two cameras. */
  ghost predicate OneCameraPerTrack(es: seq<StateEntry>, entityType: string) {
    forall x, y :: x in CameraTracks(es, entityType) && y in CameraTracks(es, entityType) && x.1 == y.1 ==> x == y
  }

  /** Counting tracks without their cameras, as the window does, never counts too many, and gives the
      count per camera exactly when no track id of the type occurs under two cameras in the window. */
  lemma CamerasDoNotMatterIff(es: seq<StateEntry>, entityType: string)
    ensures |Tracks(es, entityType)| <= |CameraTracks(es, entityType)|
    ensures |Tracks(es, entityType)| == |CameraTracks(es, entityType)| <==> OneCameraPerTrack(es, entityType)
  {
    var q := CameraTracks(es, entityType);
    TracksMembers(es, entityType);
    TracksAreSeconds(es, entityType, q);
    SecondsCount(q);
  }

  function Seconds(q: set<(string, string)>): set<string> {
    set x | x in q :: x.1
  }

  lemma TracksAreSeconds(es: seq<StateEntry>, entityType: string, q: set<(string, string)>)
    requires q == CameraTracks(es, entityType)
    ensures Tracks(es, entityType) == Seconds(q)
  {
    TracksMembers(es, entityType);
    forall t | t in Tracks(es, entityType)
      ensures t in Seconds(q)
    {
      var e :| e in es && Shows(e, entityType, t);
      assert (e.item.cameraId, t) in q;
    }
  }

  lemma {:induction false} SecondsCount(q: set<(string, string)>)
    ensures |Seconds(q)| <= |q|
    ensures |Seconds(q)| == |q| <==> forall x, y :: x in q && y in q && x.1 == y.1 ==> x == y
    decreases |q|
  {
    if q == {} {
      assert Seconds(q) == {};
      return;
    }
    var x :| x in q;
    var rest := q - {x};
    SecondsCount(rest);
    assert Seconds(q) == Seconds(rest) + {x.1};
    assert q == rest + {x};
    if x.1 in Seconds(rest) {
      var y :| y in rest && y.1 == x.1;
      assert x in q && y in q && x != y;
    }
  }

  /** An input where they differ: one person's track id on two cameras. */
  lemma TwoCamerasOneTrack(duration: nat, track: string, at: int)
    requires at > 0
    ensures var seen := (camera: string) =>
              Stamped(at, Snapshot(camera, "", Occupancy(1, 1, 0), 0, map[], [TrackedEntity("person", track, 0.0)]));
            var es := After(duration, [seen("a"), seen("b")]).entries;
            |Tracks(es, "person")| == 1 && |CameraTracks(es, "person")| == 2
  {
    var person := TrackedEntity("person", track, 0.0);
    var a := Stamped(at, Snapshot("a", "", Occupancy(1, 1, 0), 0, map[], [person]));
    var b := Stamped(at, Snapshot("b", "", Occupancy(1, 1, 0), 0, map[], [person]));
    TwoRecent(duration, a, b);
    assert SnapshotTracks([person], "person") == {track} by {
      assert person in [person];
    }
    var es := [a, b];
    assert a in es && b in es && a.item.cameraId != b.item.cameraId;
    assert es[..1] == [a];
    assert Tracks([a], "person") == {} + {track};
    assert Tracks(es, "person") == {track};
    assert CameraTracks(es, "person") == {("a", track), ("b", track)};
  }

  lemma TwoRecent(duration: nat, a: StateEntry, b: StateEntry)
    requires a.emittedAt == b.emittedAt > 0
    ensures After(duration, [a, b]).entries == [a, b]
  {
    var h := [a, b];
    assert h == [a] + [b] && [a] == [] + [a];
    WindowIsFilter(duration, h);
    assert h[..1] == [a];
    assert Newest(h) == a.emittedAt by {
      assert Newest([a]) == Max(0, a.emittedAt);
    }
    RecentStep([], a, a.emittedAt - duration);
    RecentStep([a], b, a.emittedAt - duration);
  }

  /** When there is a latest entry it carries the greatest timestamp of the whole history, and there
      is one exactly when some snapshot is within the duration of the newest. */
  lemma LatestIsGreatest(duration: int, h: seq<StateEntry>)
    ensures var es := After(duration, h).entries;
            && (es != [] <==> exists e :: e in h && e.emittedAt >= Newest(h) - duration)
            && (forall e :: IsNewest(es, e) ==> forall x :: x in h ==> x.emittedAt <= e.emittedAt)
  {
    var es, cutoff := After(duration, h).entries, Newest(h) - duration;
    WindowIsFilter(duration, h);
    RecentIsNotEmpty(es, h, cutoff);
    forall e | IsNewest(es, e)
      ensures forall x :: x in h ==> x.emittedAt <= e.emittedAt
    {
      NewestOfRecent(es, h, cutoff, e);
    }
  }

  lemma RecentIsNotEmpty(es: seq<StateEntry>, h: seq<StateEntry>, cutoff: int)
    requires es == Recent(h, cutoff)
    ensures es != [] <==> exists e :: e in h && e.emittedAt >= cutoff
  {
    RecentMembers(h, cutoff);
    if es != [] {
      assert es[0] in es;
    }
  }

  lemma NewestOfRecent(es: seq<StateEntry>, h: seq<StateEntry>, cutoff: int, e: StateEntry)
    requires es == Recent(h, cutoff) && IsNewest(es, e)
    ensures forall x :: x in h ==> x.emittedAt <= e.emittedAt
  {
    RecentMembers(h, cutoff);
    assert e in es;
    forall x | x in h
      ensures x.emittedAt <= e.emittedAt
    {
      if x.emittedAt >= cutoff {
        assert x in es;
      }
    }
  }

  /** With positive times and a non-negative duration there always is one. */
  lemma LatestExists(duration: nat, h: seq<StateEntry>)
    requires h != [] && forall e :: e in h ==> e.emittedAt > 0
    ensures After(duration, h).entries != []
  {
    WindowIsFilter(duration, h);
    RecentMembers(h, Newest(h) - duration);
    NewestBounds(h);
    assert h[0] in h;
    var e :| e in h && e.emittedAt == Newest(h);
    assert e in After(duration, h).entries;
  }
}
