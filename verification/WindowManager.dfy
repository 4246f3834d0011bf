/** The per-rule windows, created on first use: one map for state windows and one for event windows. */
module WindowManagers {
  import opened Common
  import SW = StateWindows
  import EW = EventWindows

  class StateWindowMap {
    var windows: map<string, SW.StateWindow>
    ghost var View: map<string, SW.Window>
    ghost var Repr: set<object>

    /** Every rule has a window of its own, which holds what the view says. */
    ghost predicate Valid()
      reads this, Repr
    {
      && this in Repr
      && windows.Keys == View.Keys
      && (forall id :: id in windows ==> windows[id] in Repr && windows[id].Value() == View[id])
      && (forall a, b :: a in windows && b in windows && a != b ==> windows[a] != windows[b])
    }

    constructor ()
      ensures Valid() && fresh(Repr) && View == map[]
    {
      windows, View, Repr := map[], map[], {this};
    }

    /** The first call for a rule fixes its window's duration. */
    method GetOrCreate(ruleId: string, durationSeconds: int) returns (w: SW.StateWindow)
      requires Valid()
      modifies this
      ensures Valid() && fresh(Repr - old(Repr)) && old(Repr) <= Repr
      ensures ruleId in windows && windows[ruleId] == w
      ensures View == old(View)[ruleId := Lookup(old(View), ruleId).GetOr(SW.Created(durationSeconds))]
    {
      if ruleId in windows {
        return windows[ruleId];
      }
      w := new SW.StateWindow(durationSeconds);
      windows := windows[ruleId := w];
      View, Repr := View[ruleId := SW.Created(durationSeconds)], Repr + {w};
    }

    method Add(ruleId: string, durationSeconds: int, entry: SW.StateEntry)
      requires Valid()
      modifies Repr
      ensures Valid() && fresh(Repr - old(Repr)) && old(Repr) <= Repr
      ensures View ==
              old(View)[ruleId := SW.Added(Lookup(old(View), ruleId).GetOr(SW.Created(durationSeconds)), entry)]
    {
      ghost var was := View;
      var w := GetOrCreate(ruleId, durationSeconds);
      ghost var before := View[ruleId];
      AddTo(ruleId, w, entry);
      Overwrite(was, ruleId, before, SW.Added(before, entry));
    }

    method AddTo(ghost ruleId: string, w: SW.StateWindow, entry: SW.StateEntry)
      requires Valid() && ruleId in windows && windows[ruleId] == w
      modifies w, this`View
      ensures Valid() && View == old(View)[ruleId := SW.Added(old(View)[ruleId], entry)]
    {
      w.Add(entry);
      View := View[ruleId := w.Value()];
    }

    method Remove(ruleId: string)
      requires Valid()
      modifies this
      ensures Valid() && Repr == old(Repr) && View == old(View) - {ruleId}
    {
      windows := windows - {ruleId};
      View := View - {ruleId};
    }
  }

  class EventWindowMap {
    var windows: map<string, EW.EventWindow>
    ghost var View: map<string, EW.Window>
    ghost var Repr: set<object>

    /** Every rule has a window of its own, which holds what the view says. */
    ghost predicate Valid()
      reads this, Repr
    {
      && this in Repr
      && windows.Keys == View.Keys
      && (forall id :: id in windows ==> windows[id] in Repr && windows[id].Value() == View[id])
      && (forall a, b :: a in windows && b in windows && a != b ==> windows[a] != windows[b])
    }

    constructor ()
      ensures Valid() && fresh(Repr) && View == map[]
    {
      windows, View, Repr := map[], map[], {this};
    }

    /** The first call for a rule fixes its window's duration. */
    method GetOrCreate(ruleId: string, durationSeconds: int) returns (w: EW.EventWindow)
      requires Valid()
      modifies this
      ensures Valid() && fresh(Repr - old(Repr)) && old(Repr) <= Repr
      ensures ruleId in windows && windows[ruleId] == w
      ensures View == old(View)[ruleId := Lookup(old(View), ruleId).GetOr(EW.Created(durationSeconds))]
    {
      if ruleId in windows {
        return windows[ruleId];
      }
      w := new EW.EventWindow(durationSeconds);
      windows := windows[ruleId := w];
      View, Repr := View[ruleId := EW.Created(durationSeconds)], Repr + {w};
    }

    method Add(ruleId: string, durationSeconds: int, entry: EW.EventEntry) returns (isNew: bool)
      requires Valid()
      modifies Repr
      ensures Valid() && fresh(Repr - old(Repr)) && old(Repr) <= Repr
      ensures var r := EW.Added(Lookup(old(View), ruleId).GetOr(EW.Created(durationSeconds)), entry);
              View == old(View)[ruleId := r.0] && isNew == r.1
    {
      ghost var was := View;
      var w := GetOrCreate(ruleId, durationSeconds);
      ghost var before := View[ruleId];
      isNew := AddTo(ruleId, w, entry);
      Overwrite(was, ruleId, before, EW.Added(before, entry).0);
    }

    method AddTo(ghost ruleId: string, w: EW.EventWindow, entry: EW.EventEntry) returns (isNew: bool)
      requires Valid() && ruleId in windows && windows[ruleId] == w
      modifies w, this`View
      ensures Valid() && (View, isNew) == (old(View)[ruleId := EW.Added(old(View)[ruleId], entry).0],
                                           EW.Added(old(View)[ruleId], entry).1)
    {
      isNew := w.Add(entry);
      View := View[ruleId := w.Value()];
    }

    method Remove(ruleId: string)
      requires Valid()
      modifies this
      ensures Valid() && Repr == old(Repr) && View == old(View) - {ruleId}
    {
      windows := windows - {ruleId};
      View := View - {ruleId};
    }
  }
}
