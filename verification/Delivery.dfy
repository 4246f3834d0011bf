/** The event endpoint under at-least-once delivery: any number of handlers interleave their steps
    "does the id exist", "save it", "process it", with clean-ups of the event store in between. */
module Delivery {
  import opened Common
  import opened Payloads
  import opened EngineSpec
  import EW = EventWindows
  import Rolling

  datatype Stage = Received | Checked | Saved | Accepted | Duplicate | Rejected | Failed

  datatype Handler = Handler(event: EventPayload, stage: Stage)

  /** The store's rows (id and emission time), one rule's event window, the handlers in order of
      arrival, and the events processed so far. */
  datatype World = World(rows: map<string, int>, window: EW.Window, handlers: seq<Handler>,
                         processed: seq<EW.EventEntry>)

  datatype Step =
    | Receive(event: EventPayload, urlCamera: string)
    | Check(h: nat, error: bool)
    | Save(h: nat, error: bool)
    | Process(h: nat)
    | CleanStore(olderThan: int)

  /** The checks made before the store is asked. */
  predicate WellFormed(event: EventPayload, urlCamera: string) {
    event.eventId != "" && event.emittedAt != 0 && event.kind != "" && event.camera == urlCamera
  }

  predicate Enabled(w: World, step: Step) {
    match step
    case Receive(_, _) => true
    case Check(h, _) => h < |w.handlers| && w.handlers[h].stage == Received
    case Save(h, _) => h < |w.handlers| && w.handlers[h].stage == Checked
    case Process(h) => h < |w.handlers| && w.handlers[h].stage == Saved
    case CleanStore(_) => true
  }

  function Moved(w: World, h: nat, stage: Stage): World
    requires h < |w.handlers|
  {
    w.(handlers := w.handlers[h := w.handlers[h].(stage := stage)])
  }

  /** `wants` says which events are dispatched to the rule whose window is watched. Saving inserts or
      ignores; a store error ends the handler. */
  function Apply(wants: EventPayload -> bool, w: World, step: Step): World
    requires Enabled(w, step)
  {
    match step
    case Receive(event, urlCamera) =>
      w.(handlers := w.handlers + [Handler(event, if WellFormed(event, urlCamera) then Received else Rejected)])
    case Check(h, error) =>
      Moved(w, h, if error then Failed
                  else if w.handlers[h].event.eventId in w.rows then Duplicate else Checked)
    case Save(h, error) =>
      var event := w.handlers[h].event;
      if error then Moved(w, h, Failed)
      else Moved(w, h, Saved).(rows := if event.eventId in w.rows then w.rows
                                       else w.rows[event.eventId := event.emittedAt])
    case Process(h) =>
      var event := w.handlers[h].event;
      if wants(event) then
        Moved(w, h, Accepted).(window := EW.Added(w.window, EntryOf(event)).0,
                               processed := w.processed + [EntryOf(event)])
      else Moved(w, h, Accepted)
    case CleanStore(olderThan) => w.(rows := map id | id in w.rows && w.rows[id] >= olderThan :: w.rows[id])
  }

  function Started(rows: map<string, int>, duration: int): World {
    World(rows, EW.Created(duration), [], [])
  }

  ghost predicate Execution(wants: EventPayload -> bool, run: seq<Step>, trace: seq<World>) {
    && |trace| == |run| + 1
    && forall i :: 0 <= i < |run| ==> Enabled(trace[i], run[i]) && trace[i + 1] == Apply(wants, trace[i], run[i])
  }

  /** No handler is under way. */
  ghost predicate Quiescent(w: World) {
    forall h :: 0 <= h < |w.handlers| ==> w.handlers[h].stage !in {Received, Checked, Saved}
  }

  /** The sender was told "accepted" or "duplicate". */
  predicate Acknowledged(h: Handler) {
    h.stage == Accepted || h.stage == Duplicate
  }

  /** Some handler has saved this id, and has processed the event or is about to. */
  ghost predicate InHand(w: World, id: string) {
    exists h :: 0 <= h < |w.handlers| && w.handlers[h].event.eventId == id && w.handlers[h].stage in {Saved, Accepted}
  }

  // ---------------------------------------------------------------------------------------------
  // What every step keeps
  // ---------------------------------------------------------------------------------------------

  /** A row, and a verdict of "duplicate", only come from an id that is in hand or was there from the
      start. */
  ghost predicate Justified(w: World, leftover: set<string>) {
    && (forall id :: id in w.rows ==> InHand(w, id) || id in leftover)
    && (forall h :: 0 <= h < |w.handlers| && w.handlers[h].stage == Duplicate ==>
          InHand(w, w.handlers[h].event.eventId) || w.handlers[h].event.eventId in leftover)
  }

  /** Exactly the wanted events of accepted handlers were processed. */
  ghost predicate Processed(wants: EventPayload -> bool, w: World) {
    && (forall h :: 0 <= h < |w.handlers| && w.handlers[h].stage == Accepted && wants(w.handlers[h].event) ==>
          EntryOf(w.handlers[h].event) in w.processed)
    && (forall e :: e in w.processed ==> FromAccepted(wants, w, e))
  }

  ghost predicate FromAccepted(wants: EventPayload -> bool, w: World, e: EW.EventEntry) {
    exists h :: 0 <= h < |w.handlers| && w.handlers[h].stage == Accepted && wants(w.handlers[h].event)
                && EntryOf(w.handlers[h].event) == e
  }

  /** What is in hand stays in hand: handlers keep their event and never leave these stages. */
  lemma InHandStays(wants: EventPayload -> bool, w: World, step: Step, id: string)
    requires Enabled(w, step) && InHand(w, id)
    ensures InHand(Apply(wants, w, step), id)
  {
    var h :| 0 <= h < |w.handlers| && w.handlers[h].event.eventId == id && w.handlers[h].stage in {Saved, Accepted};
    var t := Apply(wants, w, step);
    assert t.handlers[h].event.eventId == id && t.handlers[h].stage in {Saved, Accepted};
  }

  lemma FromAcceptedStays(wants: EventPayload -> bool, w: World, step: Step, e: EW.EventEntry)
    requires Enabled(w, step) && FromAccepted(wants, w, e)
    ensures FromAccepted(wants, Apply(wants, w, step), e)
  {
    var h :| 0 <= h < |w.handlers| && w.handlers[h].stage == Accepted && wants(w.handlers[h].event)
             && EntryOf(w.handlers[h].event) == e;
    assert Apply(wants, w, step).handlers[h] == w.handlers[h];
  }

  lemma StepKeepsJustified(wants: EventPayload -> bool, w: World, step: Step, leftover: set<string>)
    requires Enabled(w, step) && Justified(w, leftover)
    ensures Justified(Apply(wants, w, step), leftover)
  {
    var t := Apply(wants, w, step);
    forall id | InHand(w, id)
      ensures InHand(t, id)
    {
      InHandStays(wants, w, step, id);
    }
    if step.Save? && !step.error {
      assert t.handlers[step.h].stage == Saved;
      assert InHand(t, t.handlers[step.h].event.eventId);
    }
  }

  lemma StepKeepsProcessed(wants: EventPayload -> bool, w: World, step: Step)
    requires Enabled(w, step) && Processed(wants, w)
    ensures Processed(wants, Apply(wants, w, step))
  {
    var t := Apply(wants, w, step);
    forall e | e in t.processed
      ensures FromAccepted(wants, t, e)
    {
      if e in w.processed {
        FromAcceptedStays(wants, w, step, e);
      } else {
        assert t.handlers[step.h].stage == Accepted;
      }
    }
  }

  lemma StepKeepsWindow(wants: EventPayload -> bool, w: World, step: Step, duration: int)
    requires Enabled(w, step) && w.window == EW.After(duration, w.processed)
    ensures var t := Apply(wants, w, step); t.window == EW.After(duration, t.processed)
  {
    if step.Process? {
      EW.AfterStep(duration, w.processed, EntryOf(w.handlers[step.h].event));
    }
  }

  lemma {:induction false} ExecutionKeeps(wants: EventPayload -> bool, run: seq<Step>, trace: seq<World>, n: nat,
                                          rows: map<string, int>, duration: int)
    requires Execution(wants, run, trace) && trace[0] == Started(rows, duration) && n <= |run|
    ensures Justified(trace[n], rows.Keys) && Processed(wants, trace[n])
    ensures trace[n].window == EW.After(duration, trace[n].processed)
  {
    if n > 0 {
      ExecutionKeeps(wants, run, trace, n - 1, rows, duration);
      StepKeepsJustified(wants, trace[n - 1], run[n - 1], rows.Keys);
      StepKeepsProcessed(wants, trace[n - 1], run[n - 1]);
      StepKeepsWindow(wants, trace[n - 1], run[n - 1], duration);
    }
  }

  // ---------------------------------------------------------------------------------------------
  // Main results
  // ---------------------------------------------------------------------------------------------

  /** Deliveries with this id are redeliveries of one event. */
  ghost predicate OneEvent(w: World, id: string) {
    forall g, h :: 0 <= g < |w.handlers| && 0 <= h < |w.handlers|
                   && w.handlers[g].event.eventId == w.handlers[h].event.eventId == id ==>
                   w.handlers[g].event == w.handlers[h].event
  }

  ghost predicate SameIdSameEvent(w: World) {
    forall id :: OneEvent(w, id)
  }

  /** No row was left in the store by an earlier process for an event that is delivered now. */
  ghost predicate NoLeftover(w: World, rows: map<string, int>) {
    forall h :: 0 <= h < |w.handlers| ==> w.handlers[h].event.eventId !in rows
  }

  /** Some delivery of the wanted event was acknowledged. */
  ghost predicate Confirmed(wants: EventPayload -> bool, w: World, e: EW.EventEntry) {
    exists h :: 0 <= h < |w.handlers| && Acknowledged(w.handlers[h]) && wants(w.handlers[h].event)
                && EntryOf(w.handlers[h].event) == e
  }

  /** At quiescence an event without a leftover row was processed if and only if some delivery of it was
      acknowledged, whatever happened to other ids. */
  lemma AcknowledgedIffProcessed(wants: EventPayload -> bool, run: seq<Step>, trace: seq<World>,
                                 rows: map<string, int>, duration: int, e: EW.EventEntry)
    requires Execution(wants, run, trace) && trace[0] == Started(rows, duration)
    requires Quiescent(trace[|run|]) && OneEvent(trace[|run|], e.item.eventId) && e.item.eventId !in rows
    ensures e in trace[|run|].processed <==> Confirmed(wants, trace[|run|], e)
  {
    var w := trace[|run|];
    ExecutionKeeps(wants, run, trace, |run|, rows, duration);
    if e in w.processed {
      assert FromAccepted(wants, w, e);
    }
    if h :| 0 <= h < |w.handlers| && Acknowledged(w.handlers[h]) && wants(w.handlers[h].event)
            && EntryOf(w.handlers[h].event) == e {
      if w.handlers[h].stage == Duplicate {
        var id := w.handlers[h].event.eventId;
        assert InHand(w, id);
        var g :| 0 <= g < |w.handlers| && w.handlers[g].event.eventId == id && w.handlers[g].stage in {Saved, Accepted};
        assert w.handlers[g].event == w.handlers[h].event;
      }
    }
  }

  /** A whole run over this store in which the event is acknowledged. */
  ghost predicate ConfirmingRun(wants: EventPayload -> bool, rows: map<string, int>, duration: int,
                                e: EW.EventEntry, run: seq<Step>, trace: seq<World>)
  {
    && Execution(wants, run, trace) && trace[0] == Started(rows, duration)
    && Quiescent(trace[|run|]) && OneEvent(trace[|run|], e.item.eventId)
    && Confirmed(wants, trace[|run|], e)
  }

  /** In every such run it was processed. */
  ghost predicate Reliable(wants: EventPayload -> bool, rows: map<string, int>, duration: int, e: EW.EventEntry) {
    forall run: seq<Step>, trace: seq<World> ::
      ConfirmingRun(wants, rows, duration, e, run, trace) ==> e in trace[|run|].processed
  }

  /** Exactly when an acknowledgement can be relied on: if and only if no row for the event is in the
      store at the start. */
  lemma ReliableIff(wants: EventPayload -> bool, rows: map<string, int>, duration: int, event: EventPayload)
    requires WellFormed(event, event.camera) && wants(event)
    ensures Reliable(wants, rows, duration, EntryOf(event)) <==> event.eventId !in rows
  {
    var e := EntryOf(event);
    if event.eventId !in rows {
      forall run: seq<Step>, trace: seq<World> | ConfirmingRun(wants, rows, duration, e, run, trace)
        ensures e in trace[|run|].processed
      {
        AcknowledgedIffProcessed(wants, run, trace, rows, duration, e);
      }
    } else {
      LeftoverRowLosesEvent(wants, rows, duration, event);
      var run := [Receive(event, event.camera), Check(0, false)];
      var trace: seq<World> :| Execution(wants, run, trace) && trace[0] == Started(rows, duration)
                               && Quiescent(trace[2]) && trace[2].handlers == [Handler(event, Duplicate)]
                               && trace[2].processed == [] && trace[2].window.entries == [];
      assert trace[2].handlers[0] == Handler(event, Duplicate);
      assert ConfirmingRun(wants, rows, duration, e, run, trace);
    }
  }

  /** A list of the wanted acknowledged events, each exactly once. */
  ghost predicate ExactlyOnce(wants: EventPayload -> bool, w: World, once: seq<EW.EventEntry>) {
    Distinct(once) && forall e :: e in once <==> Confirmed(wants, w, e)
  }

  lemma ProcessedIsConsistent(wants: EventPayload -> bool, w: World)
    requires Processed(wants, w) && SameIdSameEvent(w)
    ensures EW.Consistent(w.processed)
  {
    forall i, j | 0 <= i < |w.processed| && 0 <= j < |w.processed|
                  && w.processed[i].item.eventId == w.processed[j].item.eventId
      ensures w.processed[i] == w.processed[j]
    {
      assert FromAccepted(wants, w, w.processed[i]) && FromAccepted(wants, w, w.processed[j]);
      assert OneEvent(w, w.processed[i].item.eventId);
    }
  }

  /** For any number of interleaved handlers, duplicates, store errors and store clean-ups: at
      quiescence the window holds the same events, with the same counts, as if every acknowledged
      event had been delivered exactly once, and no event id is in it twice. */
  lemma AtLeastOnceIsExactlyOnce(wants: EventPayload -> bool, run: seq<Step>, trace: seq<World>,
                                 rows: map<string, int>, duration: int, once: seq<EW.EventEntry>, kind: string)
    requires Execution(wants, run, trace) && trace[0] == Started(rows, duration)
    requires var w := trace[|run|]; Quiescent(w) && SameIdSameEvent(w) && NoLeftover(w, rows)
    requires ExactlyOnce(wants, trace[|run|], once)
    ensures var w, ideal := trace[|run|].window, EW.After(duration, once);
            && (forall e :: e in w.entries <==> e in ideal.entries)
            && EW.Count(w) == EW.Count(ideal) && EW.CountByKind(w, kind) == EW.CountByKind(ideal, kind)
            && EW.DistinctIds(w.entries)
  {
    var w := trace[|run|];
    ExecutionKeeps(wants, run, trace, |run|, rows, duration);
    ProcessedIsConsistent(wants, w);
    forall e
      ensures e in w.processed <==> e in once
    {
      assert OneEvent(w, e.item.eventId);
      if e.item.eventId !in rows {
        AcknowledgedIffProcessed(wants, run, trace, rows, duration, e);
      } else {
        assert !Confirmed(wants, w, e) && !FromAccepted(wants, w, e);
      }
    }
    EW.CountsIgnoreOrderAndRedelivery(duration, w.processed, once, kind);
    EW.WindowIsFilter(duration, w.processed);
  }

  /** The condition on leftover rows is needed: with one, the first delivery of its event to a new
      process is acknowledged as a duplicate and never reaches the window. */
  lemma LeftoverRowLosesEvent(wants: EventPayload -> bool, rows: map<string, int>, duration: int, event: EventPayload)
    requires WellFormed(event, event.camera) && event.eventId in rows
    ensures var run := [Receive(event, event.camera), Check(0, false)];
            exists trace: seq<World> :: && Execution(wants, run, trace) && trace[0] == Started(rows, duration)
                            && Quiescent(trace[2]) && trace[2].handlers == [Handler(event, Duplicate)]
                            && trace[2].processed == [] && trace[2].window.entries == []
  {
    var run := [Receive(event, event.camera), Check(0, false)];
    var s := Started(rows, duration);
    var m := Apply(wants, s, run[0]);
    assert m.handlers == [Handler(event, Received)];
    var t := Apply(wants, m, run[1]);
    assert t.handlers == [Handler(event, Duplicate)];
    assert Execution(wants, run, [s, m, t]);
    assert [s, m, t][2] == t;
  }

  /** The second layer is needed: two handlers that race through the check process one event twice, so a
      rule is evaluated on it twice; the window has it once. */
  lemma RaceProcessesTwice(wants: EventPayload -> bool, duration: nat, event: EventPayload)
    requires WellFormed(event, event.camera) && wants(event) && event.emittedAt > 0
    ensures var e := EntryOf(event);
            exists run: seq<Step>, trace: seq<World> ::
              && Execution(wants, run, trace) && trace[0] == Started(map[], duration)
              && trace[|run|].processed == [e, e] && EW.Count(trace[|run|].window) == 1
  {
    var ready, first := BothSaved(wants, duration, event);
    var last := BothProcessed(wants, duration, event, first[6]);
    var more := [Process(0), Process(1)];
    Joined(wants, ready, first, more, last);
    assert (first + last[1..])[|ready + more|] == last[2];
  }

  lemma BothProcessed(wants: EventPayload -> bool, duration: nat, event: EventPayload, w: World)
    returns (trace: seq<World>)
    requires wants(event) && event.emittedAt > 0 && w.handlers == [Handler(event, Saved), Handler(event, Saved)]
    requires w.processed == [] && w.window == EW.Created(duration)
    ensures Execution(wants, [Process(0), Process(1)], trace) && trace[0] == w
    ensures trace[2].processed == [EntryOf(event), EntryOf(event)] && EW.Count(trace[2].window) == 1
  {
    var e := EntryOf(event);
    OneEntry(duration, e);
    var one := Apply(wants, w, Process(0));
    assert one.handlers == [Handler(event, Accepted), Handler(event, Saved)];
    trace := [w, one, Apply(wants, one, Process(1))];
  }

  lemma Joined(wants: EventPayload -> bool, run: seq<Step>, trace: seq<World>, more: seq<Step>, rest: seq<World>)
    requires Execution(wants, run, trace) && Execution(wants, more, rest) && trace[|run|] == rest[0]
    ensures Execution(wants, run + more, trace + rest[1..])
  {
    var steps, worlds := run + more, trace + rest[1..];
    forall i | 0 <= i < |steps|
      ensures Enabled(worlds[i], steps[i]) && worlds[i + 1] == Apply(wants, worlds[i], steps[i])
    {
      if i < |run| {
        assert worlds[i] == trace[i] && worlds[i + 1] == trace[i + 1];
      } else {
        assert worlds[i] == rest[i - |run|] && worlds[i + 1] == rest[i - |run| + 1];
      }
    }
  }

  lemma BothSaved(wants: EventPayload -> bool, duration: nat, event: EventPayload)
    returns (run: seq<Step>, trace: seq<World>)
    requires WellFormed(event, event.camera)
    ensures |run| == 6 && Execution(wants, run, trace) && trace[0] == Started(map[], duration)
    ensures trace[6].handlers == [Handler(event, Saved), Handler(event, Saved)]
    ensures trace[6].processed == [] && trace[6].window == EW.Created(duration)
  {
    run := [Receive(event, event.camera), Receive(event, event.camera), Check(0, false), Check(1, false),
            Save(0, false), Save(1, false)];
    var one := Apply(wants, Started(map[], duration), run[0]);
    var two := Apply(wants, one, run[1]);
    assert two.handlers == [Handler(event, Received), Handler(event, Received)];
    var three := Apply(wants, two, run[2]);
    assert three.handlers == [Handler(event, Checked), Handler(event, Received)];
    var four := Apply(wants, three, run[3]);
    assert four.handlers == [Handler(event, Checked), Handler(event, Checked)];
    var five := Apply(wants, four, run[4]);
    assert five.handlers == [Handler(event, Saved), Handler(event, Checked)];
    trace := [Started(map[], duration), one, two, three, four, five, Apply(wants, five, run[5])];
  }

  lemma OneEntry(duration: nat, e: EW.EventEntry)
    requires e.emittedAt > 0
    ensures var once := EW.Added(EW.Created(duration), e).0;
            EW.Count(once) == 1 && EW.Added(once, e).0 == once
  {
    EW.AfterStep(duration, [], e);
    EW.AddedEntries(EW.Created(duration), e);
    EW.AddKeepsInStep(EW.Created(duration), e);
    Rolling.RecentStep([], e, e.emittedAt - duration);
  }

  // ---------------------------------------------------------------------------------------------
  // Which deliveries are turned away
  // ---------------------------------------------------------------------------------------------

  lemma {:induction false} HandlersStay(wants: EventPayload -> bool, run: seq<Step>, trace: seq<World>, k: nat, n: nat,
                                        h: nat)
    requires Execution(wants, run, trace) && k <= n <= |run| && h < |trace[k].handlers|
    ensures h < |trace[n].handlers| && trace[n].handlers[h].event == trace[k].handlers[h].event
    ensures trace[n].handlers[h].stage == Rejected <==> trace[k].handlers[h].stage == Rejected
    decreases n
  {
    if k < n {
      HandlersStay(wants, run, trace, k, n - 1, h);
      assert trace[n] == Apply(wants, trace[n - 1], run[n - 1]);
    }
  }

  /** In any run, a delivery is rejected if and only if its event lacks an id, a time or a kind, or is not
      of the camera it was sent to; no other is, and a rejected one never becomes anything else. */
  lemma RejectedIff(wants: EventPayload -> bool, run: seq<Step>, trace: seq<World>, k: nat, n: nat, event: EventPayload,
                    urlCamera: string)
    requires Execution(wants, run, trace) && k < n <= |run| && run[k] == Receive(event, urlCamera)
    ensures var h := |trace[k].handlers|;
            && h < |trace[n].handlers| && trace[n].handlers[h].event == event
            && (trace[n].handlers[h].stage == Rejected <==>
                  event.eventId == "" || event.emittedAt == 0 || event.kind == "" || event.camera != urlCamera)
  {
    assert trace[k + 1] == Apply(wants, trace[k], run[k]);
    HandlersStay(wants, run, trace, k + 1, n, |trace[k].handlers|);
  }

  /** No clean-up in the steps `j..n` drops what was emitted at this time. */
  ghost predicate Kept(run: seq<Step>, j: nat, n: nat, at: int)
    requires n <= |run|
  {
    forall k :: j <= k < n && run[k].CleanStore? ==> run[k].olderThan <= at
  }

  /** There is a row for this id after `j` steps, new or from the start, and no clean-up since drops it. */
  ghost predicate RowStands(run: seq<Step>, trace: seq<World>, j: nat, n: nat, id: string)
    requires |trace| == |run| + 1 && n <= |run|
  {
    && j <= n && id in trace[j].rows && (j == 0 || id !in trace[j - 1].rows)
    && Kept(run, j, n, trace[j].rows[id])
  }

  lemma RowStandsNext(run: seq<Step>, trace: seq<World>, j: nat, n: nat, id: string)
    requires |trace| == |run| + 1 && j <= n < |run|
    ensures RowStands(run, trace, j, n + 1, id) <==>
            && RowStands(run, trace, j, n, id)
            && (run[n].CleanStore? ==> run[n].olderThan <= trace[j].rows[id])
  {
  }

  lemma NextRow(wants: EventPayload -> bool, run: seq<Step>, trace: seq<World>, n: nat, id: string)
    requires Execution(wants, run, trace) && n < |run| && id in trace[n].rows
    ensures id in trace[n + 1].rows <==> (run[n].CleanStore? ==> run[n].olderThan <= trace[n].rows[id])
    ensures id in trace[n + 1].rows ==> trace[n + 1].rows[id] == trace[n].rows[id]
  {
    assert trace[n + 1] == Apply(wants, trace[n], run[n]);
  }

  lemma NewRowStands(run: seq<Step>, trace: seq<World>, n: nat, id: string)
    requires |trace| == |run| + 1 && 0 < n <= |run|
    ensures RowStands(run, trace, n, n, id) <==> id in trace[n].rows && id !in trace[n - 1].rows
  {
  }

  /** The store has a row exactly if one stands, and it is this one. */
  ghost predicate RowsStand(run: seq<Step>, trace: seq<World>, n: nat, id: string)
    requires |trace| == |run| + 1 && n <= |run|
  {
    && (id in trace[n].rows ==> exists j: nat :: RowStands(run, trace, j, n, id))
    && (forall j: nat :: RowStands(run, trace, j, n, id) ==>
          id in trace[n].rows && trace[n].rows[id] == trace[j].rows[id])
  }

  lemma StandingRowIsThere(wants: EventPayload -> bool, run: seq<Step>, trace: seq<World>, n: nat, id: string, j: nat)
    requires Execution(wants, run, trace) && n < |run| && RowsStand(run, trace, n, id)
    requires RowStands(run, trace, j, n + 1, id)
    ensures id in trace[n + 1].rows && trace[n + 1].rows[id] == trace[j].rows[id]
  {
    if j <= n {
      RowStandsNext(run, trace, j, n, id);
      NextRow(wants, run, trace, n, id);
    }
  }

  lemma RowThereStands(wants: EventPayload -> bool, run: seq<Step>, trace: seq<World>, n: nat, id: string)
    requires Execution(wants, run, trace) && 0 < n <= |run| && RowsStand(run, trace, n - 1, id) && id in trace[n].rows
    ensures exists j: nat :: RowStands(run, trace, j, n, id)
  {
    if id in trace[n - 1].rows {
      NextRow(wants, run, trace, n - 1, id);
      var j: nat :| RowStands(run, trace, j, n - 1, id);
      RowStandsNext(run, trace, j, n - 1, id);
    } else {
      NewRowStands(run, trace, n, id);
    }
  }

  /** The store has a row for an id if and only if it began with one or wrote one, and no clean-up since
      was for a time after that of the row. Until then a second delivery is told "duplicate". */
  lemma RowIffKept(wants: EventPayload -> bool, run: seq<Step>, trace: seq<World>, n: nat, id: string)
    requires Execution(wants, run, trace) && n <= |run|
    ensures id in trace[n].rows <==> exists j: nat :: RowStands(run, trace, j, n, id)
    ensures RowsStand(run, trace, n, id)
  {
    assert id in trace[0].rows ==> RowStands(run, trace, 0, 0, id);
    for k := 0 to n
      invariant RowsStand(run, trace, k, id)
    {
      RowsStandNext(wants, run, trace, k, id);
    }
  }

  lemma RowsStandNext(wants: EventPayload -> bool, run: seq<Step>, trace: seq<World>, n: nat, id: string)
    requires Execution(wants, run, trace) && n < |run| && RowsStand(run, trace, n, id)
    ensures RowsStand(run, trace, n + 1, id)
  {
    if id in trace[n + 1].rows {
      RowThereStands(wants, run, trace, n + 1, id);
    }
    forall j: nat | RowStands(run, trace, j, n + 1, id)
      ensures id in trace[n + 1].rows && trace[n + 1].rows[id] == trace[j].rows[id]
    {
      StandingRowIsThere(wants, run, trace, n, id, j);
    }
  }

  /** In any run, a delivery whose check succeeds is told "duplicate" if and only if a row for its id
      stands. */
  lemma DuplicateIff(wants: EventPayload -> bool, run: seq<Step>, trace: seq<World>, k: nat, h: nat)
    requires Execution(wants, run, trace) && k < |run| && run[k] == Check(h, false)
    ensures h < |trace[k].handlers| && h < |trace[k + 1].handlers|
    ensures trace[k + 1].handlers[h].stage == Duplicate <==>
            exists j: nat :: RowStands(run, trace, j, k, trace[k].handlers[h].event.eventId)
  {
    assert Enabled(trace[k], run[k]) && trace[k + 1] == Apply(wants, trace[k], run[k]);
    RowIffKept(wants, run, trace, k, trace[k].handlers[h].event.eventId);
  }
}
