/** The deduplicated sliding window of events, and the simple filter it agrees with. */
module EventWindows {
  import opened Common
  import opened Rolling

  datatype Event = Event(eventId: string, kind: string, cameraId: string, roiId: string,
                         trackId: string, entityType: string)

  type EventEntry = Stamped<Event>

  const EMPTY_ENTRY := Stamped(0, Event("", "", "", "", "", ""))

  /** The value of a window's fields. */
  datatype Window = Window(entries: seq<EventEntry>, seen: set<string>, duration: int, latest: int)

  function Created(duration: int): Window {
    Window([], {}, duration, 0)
  }

  function Ids(entries: seq<EventEntry>): set<string> {
    set e | e in entries :: e.item.eventId
  }

  /** The ids of the entries older than `cutoff`. */
  function OldIds(es: seq<EventEntry>, cutoff: int): set<string> {
    if es == [] then {}
    else if es[|es| - 1].emittedAt >= cutoff then OldIds(es[..|es| - 1], cutoff)
    else OldIds(es[..|es| - 1], cutoff) + {es[|es| - 1].item.eventId}
  }

  function Pruned(w: Window, cutoff: int): Window {
    w.(entries := Recent(w.entries, cutoff), seen := w.seen - OldIds(w.entries, cutoff))
  }

  /** One delivery: the window afterwards, and whether the event was new to it. */
  function Added(w: Window, e: EventEntry): (Window, bool) {
    if e.item.eventId in w.seen then (w, false)
    else
      var latest := Max(w.latest, e.emittedAt);
      (Pruned(w.(entries := w.entries + [e], seen := w.seen + {e.item.eventId}, latest := latest),
              latest - w.duration), true)
  }

  function OfKind(es: seq<EventEntry>, kind: string): seq<EventEntry> {
    if es == [] then []
    else if es[|es| - 1].item.kind == kind then OfKind(es[..|es| - 1], kind) + [es[|es| - 1]]
    else OfKind(es[..|es| - 1], kind)
  }

  function Count(w: Window): nat {
    |w.entries|
  }

  function CountByKind(w: Window, kind: string): nat {
    |OfKind(w.entries, kind)|
  }

  lemma PruneStep(es: seq<EventEntry>, e: EventEntry, cutoff: int)
    ensures Recent(es + [e], cutoff) ==
            if e.emittedAt >= cutoff then Recent(es, cutoff) + [e] else Recent(es, cutoff)
    ensures OldIds(es + [e], cutoff) ==
            if e.emittedAt >= cutoff then OldIds(es, cutoff) else OldIds(es, cutoff) + {e.item.eventId}
  {
    assert (es + [e])[..|es + [e]| - 1] == es;
  }

  // ---------------------------------------------------------------------------------------------
  // The window in the heap
  // ---------------------------------------------------------------------------------------------

  class EventWindow {
    var entries: seq<EventEntry>
    var seenEventIds: set<string>
    var durationSeconds: int
    var latest: int

    ghost function Value(): Window
      reads this
    {
      Window(entries, seenEventIds, durationSeconds, latest)
    }

    constructor (durationSeconds: int)
      ensures Value() == Created(durationSeconds)
    {
      entries, seenEventIds, latest := [], {}, 0;
      this.durationSeconds := durationSeconds;
    }

    method Add(entry: EventEntry) returns (isNew: bool)
      modifies this
      ensures (Value(), isNew) == Added(old(Value()), entry)
    {
      if entry.item.eventId in seenEventIds {
        return false;
      }
      entries := entries + [entry];
      seenEventIds := seenEventIds + {entry.item.eventId};
      if entry.emittedAt > latest {
        latest := entry.emittedAt;
      }
      var cutoff := latest - durationSeconds;
      Prune(cutoff);
      return true;
    }

    /** Compacts `entries` in place behind a write index, forgets the ids of dropped entries, blanks
        the tail and truncates. */
    method Prune(cutoff: int)
      modifies this`entries, this`seenEventIds
      ensures Value() == Pruned(old(Value()), cutoff)
    {
      var n := 0;
      ghost var was, seen, kept := entries, seenEventIds, [];
      for i := 0 to |entries|
        invariant n <= i && |entries| == |was|
        invariant entries[..n] == kept && entries[i..] == was[i..]
        invariant kept == Recent(was[..i], cutoff)
        invariant seenEventIds == seen - OldIds(was[..i], cutoff)
      {
        var e := entries[i];
        assert was[..i + 1] == was[..i] + [e];
        PruneStep(was[..i], e, cutoff);
        WriteBehind(entries, n, i, e);
        WriteBehind(was, n, i, e);
        if e.emittedAt >= cutoff {
          entries := entries[n := e];
          n, kept := n + 1, kept + [e];
        } else {
          seenEventIds := seenEventIds - {e.item.eventId};
        }
      }
      assert was[..|was|] == was;
      Truncate(n);
    }

    method Truncate(n: nat)
      requires n <= |entries|
      modifies this`entries
      ensures entries == old(entries)[..n]
    {
      for i := n to |entries|
        invariant |entries| == |old(entries)| && entries[..n] == old(entries)[..n]
      {
        entries := entries[i := EMPTY_ENTRY];
      }
      entries := entries[..n];
    }

    method CountAll() returns (count: nat)
      ensures count == Count(Value())
    {
      count := |entries|;
    }

    method CountKind(kind: string) returns (count: nat)
      ensures count == CountByKind(Value(), kind)
    {
      count := 0;
      for i := 0 to |entries|
        invariant count == |OfKind(entries[..i], kind)|
      {
        assert entries[..i + 1] == entries[..i] + [entries[i]];
        OfKindStep(entries[..i], entries[i], kind);
        if entries[i].item.kind == kind {
          count := count + 1;
        }
      }
      assert entries[..|entries|] == entries;
    }
  }

  // ---------------------------------------------------------------------------------------------
  // Whole runs of deliveries
  // ---------------------------------------------------------------------------------------------

  /** The window after the deliveries `h`. */
  function After(duration: int, h: seq<EventEntry>): Window {
    if h == [] then Created(duration) else Added(After(duration, h[..|h| - 1]), h[|h| - 1]).0
  }

  lemma AfterStep(duration: int, h: seq<EventEntry>, e: EventEntry)
    ensures After(duration, h + [e]) == Added(After(duration, h), e).0
  {
    assert (h + [e])[..|h + [e]| - 1] == h;
  }

  /** An id always carries the same record. */
  ghost predicate Consistent(h: seq<EventEntry>) {
    forall i, j :: 0 <= i < |h| && 0 <= j < |h| && h[i].item.eventId == h[j].item.eventId ==> h[i] == h[j]
  }

  ghost predicate DistinctIds(entries: seq<EventEntry>) {
    forall i, j :: 0 <= i < j < |entries| ==> entries[i].item.eventId != entries[j].item.eventId
  }

  /** The dedup set is in step with the slice, which holds no id twice. */
  ghost predicate InStep(w: Window) {
    w.seen == Ids(w.entries) && DistinctIds(w.entries)
  }

  /** Every delivery keeps the dedup set in step, whatever the records carry. */
  lemma AddKeepsInStep(w: Window, e: EventEntry)
    requires InStep(w)
    ensures InStep(Added(w, e).0)
  {
    if e.item.eventId !in w.seen {
      var es := w.entries + [e];
      var latest := Max(w.latest, e.emittedAt);
      assert DistinctIds(es) && w.seen + {e.item.eventId} == Ids(es);
      PruneKeepsInStep(Window(es, Ids(es), w.duration, latest), latest - w.duration);
    }
  }

  lemma {:induction false} RecentDistinctIds(es: seq<EventEntry>, cutoff: int)
    requires DistinctIds(es)
    ensures DistinctIds(Recent(es, cutoff))
  {
    if es != [] {
      RecentDistinctIds(es[..|es| - 1], cutoff);
      RecentMembers(es[..|es| - 1], cutoff);
      assert forall e :: e in es[..|es| - 1] ==> e.item.eventId != es[|es| - 1].item.eventId;
    }
  }

  lemma {:induction false} OldIdsMembers(es: seq<EventEntry>, cutoff: int)
    ensures forall id :: id in OldIds(es, cutoff) <==>
              exists e :: e in es && e.emittedAt < cutoff && e.item.eventId == id
  {
    if es != [] {
      OldIdsMembers(es[..|es| - 1], cutoff);
      assert es == es[..|es| - 1] + [es[|es| - 1]];
    }
  }

  lemma PruneKeepsInStep(w: Window, cutoff: int)
    requires InStep(w)
    ensures InStep(Pruned(w, cutoff))
  {
    RecentDistinctIds(w.entries, cutoff);
    RecentMembers(w.entries, cutoff);
    OldIdsMembers(w.entries, cutoff);
    assert forall d, e :: d in w.entries && e in w.entries && d.item.eventId == e.item.eventId ==> d == e;
    assert w.seen - OldIds(w.entries, cutoff) == Ids(Recent(w.entries, cutoff));
  }

  function AddOnce(firsts: seq<EventEntry>, e: EventEntry): seq<EventEntry> {
    if e in firsts then firsts else firsts + [e]
  }

  function FirstOccurrences(h: seq<EventEntry>): seq<EventEntry> {
    if h == [] then [] else AddOnce(FirstOccurrences(h[..|h| - 1]), h[|h| - 1])
  }

  /** What a simple window would hold: first occurrences no older than the duration. */
  function Simple(duration: int, h: seq<EventEntry>): seq<EventEntry> {
    Recent(FirstOccurrences(h), Newest(h) - duration)
  }

  lemma {:induction false} FirstOccurrencesMembers(h: seq<EventEntry>)
    ensures forall e :: e in FirstOccurrences(h) <==> e in h
    ensures Distinct(FirstOccurrences(h))
  {
    if h != [] {
      FirstOccurrencesMembers(h[..|h| - 1]);
      assert h == h[..|h| - 1] + [h[|h| - 1]];
    }
  }

  /** The window's fields are what the simple filter of `h` says. */
  ghost predicate Faithful(w: Window, duration: int, h: seq<EventEntry>) {
    && InStep(w) && w.duration == duration && w.latest == Newest(h)
    && w.entries == Simple(duration, h)
  }

  /** The compacting, forgetting window equals the simple filter over the whole delivery history. */
  lemma {:induction false} WindowIsFilter(duration: int, h: seq<EventEntry>)
    requires Consistent(h)
    ensures Faithful(After(duration, h), duration, h)
  {
    if h != [] {
      WindowIsFilter(duration, h[..|h| - 1]);
      DeliveryIsFilter(After(duration, h[..|h| - 1]), duration, h);
    }
  }

  lemma DeliveryIsFilter(w: Window, duration: int, h: seq<EventEntry>)
    requires h != [] && Consistent(h) && Faithful(w, duration, h[..|h| - 1])
    ensures Faithful(Added(w, h[|h| - 1]).0, duration, h)
  {
    AddKeepsInStep(w, h[|h| - 1]);
    if h[|h| - 1].item.eventId in w.seen {
      KnownDelivery(w, duration, h);
    } else {
      if h[|h| - 1] in FirstOccurrences(h[..|h| - 1]) {
        ForgottenIsOld(w, duration, h[..|h| - 1], h[|h| - 1]);
      }
      NewDelivery(w, duration, h);
    }
  }

  lemma KnownDelivery(w: Window, duration: int, h: seq<EventEntry>)
    requires h != [] && Consistent(h) && Faithful(w, duration, h[..|h| - 1])
    requires h[|h| - 1].item.eventId in w.seen
    ensures w.latest == Newest(h) && w.entries == Simple(duration, h)
  {
    WindowRemembers(w, duration, h);
    RepeatChangesNothing(duration, h);
  }

  lemma RepeatChangesNothing(duration: int, h: seq<EventEntry>)
    requires h != [] && h[|h| - 1] in h[..|h| - 1]
    ensures Newest(h) == Newest(h[..|h| - 1])
    ensures Simple(duration, h) == Simple(duration, h[..|h| - 1])
  {
    NewestBounds(h[..|h| - 1]);
    RepeatIsNoFirst(h);
    SimpleDependsOn(duration, h, h[..|h| - 1]);
  }

  lemma RepeatIsNoFirst(h: seq<EventEntry>)
    requires h != [] && h[|h| - 1] in h[..|h| - 1]
    ensures FirstOccurrences(h) == FirstOccurrences(h[..|h| - 1])
  {
    FirstOccurrencesMembers(h[..|h| - 1]);
  }

  lemma SimpleDependsOn(duration: int, h: seq<EventEntry>, g: seq<EventEntry>)
    requires Newest(h) == Newest(g) && FirstOccurrences(h) == FirstOccurrences(g)
    ensures Simple(duration, h) == Simple(duration, g)
  {
  }

  /** An id the window knows belongs to an earlier delivery, so by consistency of this very record. */
  lemma WindowRemembers(w: Window, duration: int, h: seq<EventEntry>)
    requires h != [] && Consistent(h) && Faithful(w, duration, h[..|h| - 1])
    requires h[|h| - 1].item.eventId in w.seen
    ensures h[|h| - 1] in h[..|h| - 1]
  {
    var past, e := h[..|h| - 1], h[|h| - 1];
    var d :| d in w.entries && d.item.eventId == e.item.eventId;
    FirstOccurrencesMembers(past);
    RecentMembers(FirstOccurrences(past), w.latest - duration);
    var i :| 0 <= i < |past| && past[i] == d;
    assert h[i] == e;
  }

  lemma NewDelivery(w: Window, duration: int, h: seq<EventEntry>)
    requires h != [] && h[|h| - 1].item.eventId !in w.seen && w.duration == duration
    requires w.latest == Newest(h[..|h| - 1]) && w.entries == Simple(duration, h[..|h| - 1])
    requires h[|h| - 1] in FirstOccurrences(h[..|h| - 1]) ==> h[|h| - 1].emittedAt < w.latest - duration
    ensures Added(w, h[|h| - 1]).0.entries == Simple(duration, h)
  {
    AddedEntries(w, h[|h| - 1]);
    FirstsAppend(FirstOccurrences(h[..|h| - 1]), h[|h| - 1], w.latest - duration,
                 Max(w.latest, h[|h| - 1].emittedAt) - duration);
  }

  lemma AddedEntries(w: Window, e: EventEntry)
    requires e.item.eventId !in w.seen
    ensures Added(w, e).0.entries == Recent(w.entries + [e], Max(w.latest, e.emittedAt) - w.duration)
  {
  }

  lemma FirstsAppend(firsts: seq<EventEntry>, e: EventEntry, early: int, late: int)
    requires early <= late && (e in firsts ==> e.emittedAt < early)
    ensures Recent(Recent(firsts, early) + [e], late) == Recent(AddOnce(firsts, e), late)
  {
    RecentAppend(firsts, e, early, late);
    RecentStep(firsts, e, late);
  }

  /** A delivered event whose id the window no longer knows is too old to come back. */
  lemma ForgottenIsOld(w: Window, duration: int, past: seq<EventEntry>, e: EventEntry)
    requires Faithful(w, duration, past) && e in FirstOccurrences(past) && e.item.eventId !in w.seen
    ensures e.emittedAt < w.latest - duration
  {
    RecentMembers(FirstOccurrences(past), w.latest - duration);
  }

  /** The counts depend on which events were delivered, not on the order or on how often. */
  lemma CountsIgnoreOrderAndRedelivery(duration: int, h: seq<EventEntry>, g: seq<EventEntry>, kind: string)
    requires Consistent(h) && forall e :: e in h <==> e in g
    ensures Count(After(duration, h)) == Count(After(duration, g))
    ensures CountByKind(After(duration, h), kind) == CountByKind(After(duration, g), kind)
    ensures forall e :: e in After(duration, h).entries <==> e in After(duration, g).entries
  {
    assert Consistent(g) by {
      forall i, j | 0 <= i < |g| && 0 <= j < |g| && g[i].item.eventId == g[j].item.eventId
        ensures g[i] == g[j]
      {
        assert g[i] in h && g[j] in h;
      }
    }
    EntriesAreRecentDeliveries(duration, h);
    EntriesAreRecentDeliveries(duration, g);
    NewestOfSameElements(h, g);
    SameSetSameCounts(After(duration, h).entries, After(duration, g).entries, kind);
  }

  /** As a set, the window holds the delivered events within the duration of the newest. */
  lemma EntriesAreRecentDeliveries(duration: int, h: seq<EventEntry>)
    requires Consistent(h)
    ensures AreRecent(After(duration, h).entries, h, Newest(h) - duration)
  {
    var es := After(duration, h).entries;
    EntriesAreSimple(duration, h);
    SimpleMembers(es, h, Newest(h) - duration);
  }

  /** `es` lists the elements of `h` no older than `cutoff`, each once. */
  ghost predicate AreRecent(es: seq<EventEntry>, h: seq<EventEntry>, cutoff: int) {
    Distinct(es) && forall e :: e in es <==> e in h && e.emittedAt >= cutoff
  }

  lemma EntriesAreSimple(duration: int, h: seq<EventEntry>)
    requires Consistent(h)
    ensures After(duration, h).entries == Recent(FirstOccurrences(h), Newest(h) - duration)
  {
    WindowIsFilter(duration, h);
  }

  lemma SimpleMembers(es: seq<EventEntry>, h: seq<EventEntry>, cutoff: int)
    requires es == Recent(FirstOccurrences(h), cutoff)
    ensures AreRecent(es, h, cutoff)
  {
    FirstOccurrencesMembers(h);
    RecentMembers(FirstOccurrences(h), cutoff);
    RecentDistinct(FirstOccurrences(h), cutoff);
  }

  lemma SameSetSameCounts(s: seq<EventEntry>, t: seq<EventEntry>, kind: string)
    requires Distinct(s) && Distinct(t) && forall e :: e in s <==> e in t
    ensures |s| == |t| && |OfKind(s, kind)| == |OfKind(t, kind)|
  {
    SameSetSameLength(s, t);
    OfKindMembers(s, kind);
    OfKindMembers(t, kind);
    SameSetSameLength(OfKind(s, kind), OfKind(t, kind));
  }

  lemma {:induction false} OfKindMembers(s: seq<EventEntry>, kind: string)
    ensures forall e :: e in OfKind(s, kind) <==> e in s && e.item.kind == kind
    ensures Distinct(s) ==> Distinct(OfKind(s, kind))
  {
    if s != [] {
      OfKindMembers(s[..|s| - 1], kind);
      assert s == s[..|s| - 1] + [s[|s| - 1]];
    }
  }

  lemma {:induction false} OfKindKeepsIdsApart(s: seq<EventEntry>, kind: string)
    requires DistinctIds(s)
    ensures DistinctIds(OfKind(s, kind))
  {
    if s != [] {
      OfKindKeepsIdsApart(s[..|s| - 1], kind);
      OfKindMembers(s[..|s| - 1], kind);
      assert forall e :: e in s[..|s| - 1] ==> e.item.eventId != s[|s| - 1].item.eventId;
    }
  }

  lemma OfKindStep(s: seq<EventEntry>, e: EventEntry, kind: string)
    ensures OfKind(s + [e], kind) ==
            if e.item.kind == kind then OfKind(s, kind) + [e] else OfKind(s, kind)
  {
    assert (s + [e])[..|s + [e]| - 1] == s;
  }

  lemma SameSetSameLength(s: seq<EventEntry>, t: seq<EventEntry>)
    requires Distinct(s) && Distinct(t) && forall e :: e in s <==> e in t
    ensures |s| == |t|
  {
    DistinctLength(s);
    DistinctLength(t);
    assert (set e | e in s) == (set e | e in t);
  }

  /** `Add` can say "new" and yet hold nothing: exactly for an unseen event older than the duration
      before the newest. Its id is then forgotten again. */
  lemma AcceptedButDropped(w: Window, e: EventEntry)
    requires InStep(w)
    ensures var (after, isNew) := Added(w, e);
            && (isNew <==> e.item.eventId !in w.seen)
            && (isNew && e !in after.entries <==>
                  e.item.eventId !in w.seen && e.emittedAt < Max(w.latest, e.emittedAt) - w.duration)
            && (isNew && e !in after.entries ==> e.item.eventId !in after.seen)
  {
    if e.item.eventId !in w.seen {
      var latest := Max(w.latest, e.emittedAt);
      RecentMembers(w.entries + [e], latest - w.duration);
      AddKeepsInStep(w, e);
    }
  }

  /** An input: the older of two events further apart than the duration is reported as new, is not in
      the window, and is reported as new again when it is delivered again. */
  lemma LateIsNewTwice(duration: int, a: EventEntry, b: EventEntry)
    requires a.item.eventId != b.item.eventId && b.emittedAt < a.emittedAt - duration
    ensures var w := After(duration, [a]);
            var (late, isNew) := Added(w, b);
            isNew && b !in late.entries && Added(late, b).1
  {
  }
}
