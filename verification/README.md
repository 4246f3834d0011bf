# A verified model of the edge rule engine

The edge rule engine takes an unbounded stream of camera snapshots ("states") and events and turns it
into a log of rule firings. This project models the in-memory temporal engine in Dafny and proves what
it guarantees over whole runs:

- **Trigger machine** (`Trigger`, `TriggerRuns`): three mutable fields encode rising-edge and "every"
  mode, sustain and cooldown. They are shown to be equivalent to a declarative reading of the whole
  evaluation history, and the rate, optimality and no-missed-alarm results are derived from that.
- **Rolling windows** (`Rolling`, `EventWindow`, `StateWindow`, `WindowManager`): in-place compaction on
  arrays with a set of seen ids, shown equal to a filter over the delivery history.
- **Engine** (`Payloads`, `Observations`, `DepIndex`, `Evaluator`, `EngineSpec`, `Engine`): a class that
  composes the index, the windows, the observation cache, the evaluator and the triggers, refining an
  engine state with a firing log. `Slices` proves a simulation: whatever order rules are visited in, a
  run acts on one rule's share of the state as a function of that share. `Isolation` and `Coverage` draw
  the results about pairs of runs and about the index from it. `Hearings` defines what a rule hears, the
  evaluations that the messages of a run cause, and shows the engine's log to be the trigger machine's
  firings on it; `Guarantees` and `WindowGuarantees` carry the results of the trigger machine and of the
  windows over to the engine, in runs that register new versions of a rule in place, and `Recency` those
  of the observation cache; `Contents` says what the windows contain of the messages that were posted,
  `Versions` what runs of the rule that was submitted, and `Verdicts` puts these together: the verdict of a
  rule over nothing but messages and rules as they came in. `Relevance` shows that messages a rule is
  neither sent nor reads do not exist for it, and `Disabling` what saving a rule as disabled does.
- **Concurrent protocols as step machines**: double-checked creation (`GetOrCreate`), the event
  handler's check / save / process sequence (`Delivery`) and the SSE broker (`Broker`).
- **Condition builder** (`ConditionText`, `Conditions`): the parser and the printer of the rule editor.
- **Entities** (`Entities`, `EntityRuns`) and **aggregators** (`Aggregators`).

`dafny verify dfyconfig.toml` checks everything.

## Reading the model

Code that updates objects is modelled by classes; each method's postcondition equates the new abstract
value (`Value()`, `View`, `Abs()`) with a specification function of the old one, and the theorems are
about these functions over all runs. Times are integers in the source's own units and may arrive in any
order unless a theorem says otherwise. A reading of the wall clock is the parameter `now` of a step; it
is monotone only where a theorem asks for it. The expression library is the parameter `Language`: an
arbitrary compile function and an arbitrary total function from program and environment to true, false or
error. A firing is an append to the log of the engine. The order in which a Go map is iterated is
arbitrary: the methods report the order they happened to take, and no theorem depends on it.

## Where the code and its documents differ

The model follows the code.

- Section 19 of the PRD says rising-edge triggering keeps an action from being repeated while the
  condition remains true. With a sustain duration set the code does repeat it, once per further duration:
  `TriggerRuns.RisingFiresOncePerStretchIff`.
- Section 20 of the PRD calls cooldown independent of condition evaluation. In rising mode without
  sustain, an edge that falls into a cooldown is used up, and the whole stretch it begins is silent:
  `TriggerRuns.RisingStretchFiresIff`, with such a history in `TriggerRuns.EdgeIsSwallowed`.
- The handlers only refuse emission time zero. Cooldown keeps its promise exactly when no firing is
  possible at time zero or before: `TriggerRuns.CooldownProtectsExactlyIf`, with the failing runs in
  `TriggerRuns.EarlyTimeBreaksCooldown` and `TriggerRuns.SustainedBreaksCooldown`.
- The PRD suggests unique entities be told apart by camera, type and track. The code uses type and track;
  the counts agree exactly when no track id of the type occurs under two cameras in the window:
  `StateWindows.CamerasDoNotMatterIff`, with an input where they differ in `StateWindows.TwoCamerasOneTrack`.
- The event window reports a late event as new although it does not keep it:
  `EventWindows.AcceptedButDropped`, with an input in `EventWindows.LateIsNewTwice`.
- An event dependency that names an ROI is registered but never dispatched to:
  `Coverage.EventIsMissedIff`, with a rule that hears no event at all in `Coverage.RegionalEventRuleIsDeaf`.
- An event reaches a rule by a dependency without an ROI, and that dependency must read as fresh. So,
  when no dropped key is left in the index and no camera id continues another after a colon, no event makes
  a rule true unless its camera posted a region with an empty id in the last thirty seconds:
  `Recency.EventNeedsWholeCamera`.
- The endpoint that replaces a rule calls `RegisterRule` (`internal/api/rule_handler.go:91`), not
  `UpdateRule`; the index then stays exact precisely when no dependency key is dropped:
  `Coverage.NextCovers`, `Coverage.DispatchAfterAnyRun`, with two versions that leave such a key behind in
  `Coverage.DroppedRegionStillReaches`.
- The PRD says a disabled rule should not be evaluated. Saving an active rule as disabled changes nothing in
  the engine, which goes on firing it: `Disabling.DisabledVersionStopsIff`, `Disabling.DisabledRuleFires`.
- The event handler's duplicate check does not keep two racing deliveries of one event from both being
  processed, `Delivery.RaceProcessesTwice`. The window counts the event once, but the rule is evaluated on
  it twice; a second evaluation like the first fires again exactly in the configurations of
  `TriggerRuns.RepeatFiresIff`.
- Removing a rule does not always remove its trigger state and windows: a call in flight puts a new object
  back, `GetOrCreate.BackIffLateWriter`, with such a run in `GetOrCreate.RemovedComesBack`.
- An event whose row survives a restart of the process is acknowledged as a duplicate and never counted:
  `Delivery.ReliableIff`.
- Two cameras whose ids differ by a colon suffix can share a cache entry:
  `Observations.KeysSeparateIff`.
- Text typed in the raw mode of the rule editor does not reach the visual builder, which goes on showing
  the list it had: `Conditions.InStepIff`, `Conditions.TypedExample`.

## Model

| member | source | states |
|---|---|---|
| Trigger.TriggerState.Evaluate | internal/engine/trigger.go:47-101 | the three fields and the verdict after one evaluation are those of the step function that the history theorems are about |
| Trigger.TriggerManager.GetOrCreateState | internal/engine/trigger.go:29-45 | returns the object kept for the rule, made in the initial state on first use; no other rule's state changes |
| Trigger.TriggerManager.ShouldTrigger | internal/engine/trigger.go:47-101 | steps the state of this rule only, each rule having an object of its own |
| Trigger.TriggerManager.Remove | internal/engine/trigger.go:107-111 | forgets this rule's state and no other |
| Trigger.ExactRefinement | internal/engine/trigger.go:47-101 | for every history with non-zero times and configurations that may change in the middle, a list of verdicts satisfies the history-only specification (last condition, start of the current unfired true stretch, last firing time) if and only if it is the list the three-field machine produces |
| Trigger.PreviousIsLastVerdict | internal/engine/trigger.go:75-95 | the previous-result field is the last evaluation's condition, fired or not |
| Trigger.TimerIsAnchorTime | internal/engine/trigger.go:53-69 | the sustain timer runs exactly while an unfired true stretch with a sustained evaluation in it is under way, and holds the time of the first such evaluation |
| Trigger.CooldownIsLastFiringTime | internal/engine/trigger.go:83-95 | the cooldown field is the time of the last firing |
| TriggerRuns.CooldownSeparates | internal/engine/trigger.go:71-100 | with positive times in any order, the i-th and j-th firing are at least (j - i) cooldowns apart, so firing times never decrease |
| TriggerRuns.CooldownProtectsExactlyIf | internal/engine/trigger.go:53-100 | for a positive cooldown and any set of emission times, every history over these times keeps its firings a cooldown apart if and only if no firing is possible at a time of zero or less, where without sustain every time is possible and with it only one a duration after another |
| TriggerRuns.EarlyTimeBreaksCooldown | internal/engine/trigger.go:83-100 | the failing run: true, false, true at one time that is not positive fires twice at that time |
| TriggerRuns.SustainedBreaksCooldown | internal/engine/trigger.go:53-100 | the failing run with sustain: two stretches that end at one time that is not positive |
| TriggerRuns.RepeatFiresIff | internal/engine/trigger.go:53-100 | at a positive time, the evaluation that has just fired fires again when repeated at once if and only if the mode is "every" and there is neither sustain nor a positive cooldown |
| TriggerRuns.OncePerTimeIff | internal/engine/trigger.go:53-100 | with positive times, every history over them fires at most once per time if and only if the cooldown is positive or no firing is possible |
| TriggerRuns.GreedyIsOptimal | internal/engine/trigger.go:83-100 | in "every" mode without sustain on ordered positive times, the firings of any prefix are a choice of true evaluations a cooldown apart, and no such choice is larger |
| TriggerRuns.RisingFiresAtMostEdges | internal/engine/trigger.go:75-82 | rising mode without sustain fires at most once per false-to-true edge |
| TriggerRuns.RisingStretchFiresIff | internal/engine/trigger.go:75-100 | a maximal true stretch raises an alarm if and only if its first evaluation is out of cooldown |
| TriggerRuns.EdgeIsSwallowed | internal/engine/trigger.go:75-100 | a history whose second edge falls into the cooldown of the first and whose stretch stays silent after the cooldown is over |
| TriggerRuns.RisingFiresOncePerStretchIff | internal/engine/trigger.go:53-100 | two firings in rising mode always have a false evaluation between them if and only if no sustain duration is set |
| TriggerRuns.SustainIsSound | internal/engine/trigger.go:53-69 | a sustained firing ends an unbroken, unfired stretch of true evaluations at least the duration long |
| TriggerRuns.SustainIsComplete | internal/engine/trigger.go:53-100 | a true stretch that is long enough and whose end is out of cooldown contains a firing |
| TriggerRuns.SustainIsBounded | internal/engine/trigger.go:53-100 | on ordered non-zero times n sustained firings take at least n durations |
| TriggerRuns.DifferencesFitInt64 | internal/engine/trigger.go:64-92 | with positive 64-bit times neither subtraction of an evaluation can wrap around, in any run |
| EventWindows.EventWindow.Add | internal/window/event_window.go:31-49 | the whole new window and the verdict, for a fresh, a known and a late event |
| EventWindows.EventWindow.Prune | internal/window/event_window.go:57-73 | in-place compaction leaves the recent entries in order and exactly the ids of dropped entries are forgotten |
| EventWindows.EventWindow.CountAll | internal/window/event_window.go:75-79 | the number of entries |
| EventWindows.EventWindow.CountKind | internal/window/event_window.go:81-92 | the number of entries of that kind |
| EventWindows.AddKeepsInStep | internal/window/event_window.go:31-73 | whatever records carry, seen ids are the ids of the entries and no id is there twice |
| EventWindows.WindowIsFilter | internal/window/event_window.go:31-73 | when an id always carries the same record, the entries are the first occurrences no older than the duration before the newest time, in order of arrival |
| EventWindows.CountsIgnoreOrderAndRedelivery | internal/window/event_window.go:75-92 | two delivery histories of the same events, in any order and multiplicity, give the same counts |
| EventWindows.EntriesAreRecentDeliveries | internal/window/event_window.go:31-73 | as a set the window is the delivered events within the duration of the newest |
| EventWindows.AcceptedButDropped | internal/window/event_window.go:39-48 | Add answers "new" and keeps nothing if and only if the event is unseen and older than the duration before the newer of itself and the newest so far, and then its id is not remembered |
| EventWindows.LateIsNewTwice | internal/window/event_window.go:31-73 | an input: the older of two events further apart than the duration is new, not kept, and new again when delivered again |
| StateWindows.StateWindow.Add | internal/window/state_window.go:48-60 | the whole new window |
| StateWindows.StateWindow.Prune | internal/window/state_window.go:68-83 | in-place compaction leaves the recent entries in order |
| StateWindows.StateWindow.UniqueTrackIds | internal/window/state_window.go:100-113 | a track id is in the result if and only if some entity of that type in some entry carries it |
| StateWindows.StateWindow.LatestEntry | internal/window/state_window.go:115-131 | an entry with no newer one before or after it, none as new before it, or nothing on an empty window |
| StateWindows.WindowIsFilter | internal/window/state_window.go:48-83 | the entries are the snapshots of the whole history no older than the duration before the newest time |
| StateWindows.UniqueTracksAreRecentTracks | internal/window/state_window.go:100-113 | a track id is counted for a type if and only if a snapshot within the duration of the newest lists an entity of that type with it |
| StateWindows.UniqueTracksIgnoreOrderAndRepetition | internal/window/state_window.go:100-113 | repeating or permuting snapshots does not change them |
| StateWindows.CamerasDoNotMatterIff | internal/window/state_window.go:100-113 | the count of unique tracks is never above the count of tracks told apart by camera, and equals it if and only if no track id of the type occurs under two cameras in the window |
| StateWindows.TwoCamerasOneTrack | internal/window/state_window.go:100-113 | an input where they differ: one track id on two cameras counts once |
| StateWindows.LatestIsGreatest | internal/window/state_window.go:115-131 | a latest entry carries the greatest time of the whole history, and there is one exactly when some snapshot is within the duration of it |
| StateWindows.LatestExists | internal/window/state_window.go:48-131 | with positive times, a non-negative duration and at least one snapshot there is one |
| WindowManagers.StateWindowMap.GetOrCreate | internal/window/manager.go:18-37 | the rule's window as it stands, or a new one whose duration is then fixed; other rules' windows unchanged |
| WindowManagers.StateWindowMap.Remove | internal/window/manager.go:60-66 | drops this rule's state window and no other |
| WindowManagers.EventWindowMap.GetOrCreate | internal/window/manager.go:39-58 | the rule's window as it stands, or a new one whose duration is then fixed; other rules' windows unchanged |
| WindowManagers.EventWindowMap.Remove | internal/window/manager.go:60-66 | drops this rule's event window and no other |
| Observations.Store.Update | internal/observation/store.go:102-119 | the cache after an update, keyed by camera, colon and ROI |
| Observations.Store.Read | internal/observation/store.go:121-135 | missing, stale or fresh, with the observation |
| Observations.Store.Cleanup | internal/observation/store.go:87-96 | exactly the stale entries go |
| Observations.KeysSeparateIff | internal/observation/store.go:98-100 | streams never share a cache entry if and only if no camera id continues another one after a colon |
| Observations.Collision | internal/observation/store.go:98-100 | one that does shares an entry |
| Observations.FreshIsLastUpdate | internal/observation/store.go:87-135 | under a monotone clock a stream reads as fresh exactly when its last update is, and then reads that update, wherever clean-ups ran |
| Evaluation.BuildRuleContext | internal/engine/evaluator.go:23-51 | the environment and the freshness verdict of a rule's dependencies |
| Evaluation.AllFreshIff | internal/engine/evaluator.go:23-51 | the verdict is true if and only if every dependency reads as fresh |
| Evaluation.NameReads | internal/engine/evaluator.go:39-46 | a name of the environment reads what the last dependency that gives a value to it observed, field by field (person, vehicle and total counts, staff count, each dwell statistic, entities): under its alias the region, under a root name that field when the alias is "default", nil without an observation |
| Evaluation.NoOtherName | internal/engine/evaluator.go:23-51 | no name is bound that no dependency gives a value to |
| Dispatch.DepIndex.Register | internal/graph/dep_index.go:28-45 | the index after registering a dependency list |
| Dispatch.DepIndex.Unregister | internal/graph/dep_index.go:47-57 | the rule is gone from every key and emptied keys are deleted |
| Dispatch.DepIndex.Find | internal/graph/dep_index.go:59-70 | the rules at a key, none for a missing one |
| Dispatch.DepIndex.LookupState | internal/graph/dep_index.go:72-78 | the rules at the state key of a camera and ROI |
| Dispatch.DepIndex.LookupEvent | internal/graph/dep_index.go:80-107 | the union over the kind, the empty kind and the wildcard, at the empty ROI |
| Dispatch.RegisterAddsKeys | internal/graph/dep_index.go:28-45 | the rule's keys grow by its dependencies' keys; every other rule's keys stay |
| Dispatch.UnregisterRemovesKeys | internal/graph/dep_index.go:47-57 | no key of the rule survives and every key of every other rule does |
| Dispatch.RegisterThenUnregister | internal/graph/dep_index.go:28-57 | registering a new rule and removing it restores the index |
| Engines.Engine.RegisterRule | internal/engine/engine.go:57-80 | the whole engine state after registration, unchanged for a disabled rule and, with an error, for one that does not compile |
| Engines.Engine.UnregisterRule | internal/engine/engine.go:82-93 | the whole engine state after removal |
| Engines.Engine.UpdateRule | internal/engine/engine.go:95-98 | removal followed by registration |
| Engines.Engine.EvaluateRule | internal/engine/engine.go:273-318 | the whole engine state after evaluating one rule, its window aggregates bound, with the trigger stepped and a firing logged when it fires |
| Engines.Engine.ProcessState | internal/engine/engine.go:112-189 | the engine state is one the specification allows: every region in order, every target rule visited once in the reported order |
| Engines.Engine.ProcessEvent | internal/engine/engine.go:191-227 | likewise for an event |
| Versions.EngineRunsLastAccepted | internal/engine/engine.go:57-98 | after any run a rule is active if and only if a version of it was accepted since its last removal; it runs the last of these, every field as submitted, the program of its expression, and its own dependencies or the one its scope stands for |
| Versions.RegisteredIsDispatchedIff | internal/model/rule.go:103-113 | a rule new to the index is dispatched to exactly the snapshots and events that it asks for as submitted, by the fields of its scope or by its dependencies |
| Versions.DispatchFollowsSubmission | internal/engine/engine.go:117-202 | after any run dispatch misses nothing that the last accepted version asks for as submitted, and selects nothing else when the index is exact for the rule |
| Slices.ExecutionSlice | internal/engine/engine.go:57-318 | simulation: whatever the orders of visits, a run takes one rule's share of the state, and its firings, where the share's own deterministic run takes them |
| Isolation.NonInterference | internal/engine/engine.go:57-227 | a rule fires exactly as in any run in which every step about other rules is erased, whatever the orders of visits in either |
| Relevance.MessagesDoNotInterfere | internal/engine/engine.go:57-227 | a rule fires exactly as in any run from the same engine in which events not dispatched to it, and snapshots neither dispatched to it nor filed where some version of it reads, are erased as well |
| Isolation.UpdateForgets | internal/engine/engine.go:82-98 | after an update to an enabled rule that compiles, its later firings and its share of the state are those of an engine with the same observations that never held it |
| Isolation.CleanupIsInvisible | internal/observation/store.go:87-96 | under a monotone clock, observation clean-ups anywhere in an engine run change no firing of any rule |
| Disabling.SilentIff | internal/engine/engine.go:112-227 | no message makes a rule be evaluated if and only if it is not active or has no key that a message can reach |
| Disabling.DisabledVersionStopsIff | internal/api/rule_handler.go:91 | saving a rule as disabled leaves it silent if and only if it was not active, given that an active rule has a key that a message can reach |
| Disabling.DisabledVersionsAreInvisible | internal/engine/engine.go:57-60 | erasing every registration of a disabled version from a run gives a run with the same final engine, log included |
| Disabling.DisabledRuleFires | internal/engine/engine.go:57-60 | an input: a rule is registered, saved as disabled, and fires on the next snapshot of its region |
| Coverage.NextCovers | internal/engine/engine.go:57-98 | every step keeps all dependencies of active rules in the index, and keeps the index exact if and only if it is no in-place registration that drops a key |
| Coverage.DispatchAfterAnyRun | internal/engine/engine.go:57-202 | after any run from the empty engine, dispatch of states and events misses nothing a full scan of active rules selects; the index is exact for a rule if and only if the versions accepted since its last removal ask for nothing the current one does not, and then dispatch selects precisely what the scan does |
| Coverage.StateDispatchAgreesWithScan | internal/engine/engine.go:117-136 | state dispatch selects every active rule a full scan selects, and only those when the index is exact for the rule |
| Coverage.EventDispatchAgreesWithScan | internal/engine/engine.go:191-202 | the same for events; a dependency with an ROI is never selected |
| Coverage.EventIsMissedIff | internal/graph/dep_index.go:80-107 | when the index is exact for a rule, an event that some dependency of it names is not dispatched to it if and only if every such dependency names an ROI |
| Coverage.RegionalEventRuleIsDeaf | internal/graph/dep_index.go:80-107 | an input: a rule whose one dependency is on the events of a region is selected for no event |
| Coverage.DroppedRegionStillReaches | internal/engine/engine.go:57-80 | an input: after a rule is registered again for another camera, snapshots of the region it no longer asks for are still dispatched to it |
| Hearings.EventIsHeardIff | internal/engine/engine.go:191-226 | a rule is evaluated once on an event dispatched to it and not at all on any other |
| Hearings.RegionsAreHeard | internal/engine/engine.go:112-188 | a rule is evaluated on a payload once per region dispatched to it |
| Hearings.LogIsFired | internal/engine/engine.go:112-318 | over any stretch of a run without a removal of the rule, its part of the log grows by the records of exactly those evaluations, with the verdicts of its dependencies and expression at the time, that the trigger machine fires on |
| Guarantees.SinceLastRemoval | internal/engine/engine.go:57-98 | in every run, what follows the last removal of a rule is such a stretch, whatever versions of it are registered there |
| Guarantees.EngineFiresWhatIsDue | internal/engine/engine.go:273-318 | with non-zero times the records are those of exactly the evaluations that are due in the sense of the history alone |
| Guarantees.DueIsExplained | internal/engine/engine.go:273-318 | exactly one list of verdicts satisfies that history-only specification, so the records above are determined |
| Guarantees.MessageFiresIffDue | internal/engine/engine.go:273-318 | a message the rule is evaluated on once is logged if and only if that evaluation is due |
| Guarantees.EngineRaisesAlarmIff | internal/engine/engine.go:112-318 | when what a rising rule hears in some steps is a true stretch from its edge on, its log grows in these steps if and only if the edge is out of cooldown |
| Guarantees.EngineRespectsCooldown | internal/engine/engine.go:57-318 | with positive times in any order and any versions registered in place, the firings in the engine's log are cumulatively the smallest `cooldownSeconds` of these versions apart |
| Guarantees.EngineFiresOncePerTime | internal/engine/engine.go:191-318 | with positive times and a cooldown in every version, the log of a rule has at most one record per emission time, however often a message is processed |
| Guarantees.EngineRespectsSustain | internal/engine/engine.go:57-318 | with ordered non-zero times, n firings take n of the shortest `sustain` of the versions registered |
| Guarantees.RecordsNameTheirMessage | internal/engine/engine.go:229-240 | in any run every record in the log is of a rule that was active when an earlier message was posted, and names this rule and the time, camera and region of this message |
| WindowGuarantees.EngineHoldsWhatIsFed | internal/engine/engine.go:145-222 | in any run, from a point without windows and until the rule is removed, its state and event windows hold what was dispatched to it, in order, under the durations of the versions that created them |
| Contents.StateWindowHoldsPosts | internal/engine/engine.go:145-184 | the entries of the state window are, field by field, the copies of the posted regions that were dispatched to the rule while it had a window, within the duration of the newest of these |
| Contents.StateWindowTracks | internal/engine/engine.go:174-184 | a track id is counted for a type if and only if one of those posted regions lists an entity of that type with it |
| Contents.EventWindowHoldsPosts | internal/engine/engine.go:208-222 | when ids identify events, the entries of the event window are, field by field, the copies of the posted events that were dispatched to the rule while it had a window, within the duration of the newest |
| WindowGuarantees.EventVerdict | internal/engine/engine.go:191-318 | the verdict of any rule on an event is that of its expression in the environment of its dependencies: as it is without a window; for an event rule with the number of posted event ids, of entrances and of exits within the duration of the newest; for another one, if a "default" dependency has an observation, with the track ids in its recent snapshots. The trigger is configured with, and the record names, what the rule says |
| WindowGuarantees.StateVerdict | internal/engine/engine.go:112-318 | the same on each region of a payload, over the cache that has taken the region in, earlier regions of the payload included |
| Recency.EngineFreshIff | internal/observation/store.go:87-135 | in any engine run under a monotone clock, for cameras without a colon extension, a dependency reads as fresh if and only if the last region posted for it is at most thirty seconds old, arrivals counted in whole seconds, and then reads that region |
| Recency.RegionFreshIff | internal/observation/store.go:102-135 | the same in the middle of a payload, whose regions so far count as posted |
| Recency.TrueNeedsRecentRegions | internal/engine/evaluator.go:23-51 | the verdict of a rule on an event is true only if a region was posted in that time for each of its dependencies |
| Recency.EventNeedsWholeCamera | internal/engine/engine.go:191-317 | and, when the index is exact for the rule, only if the camera of the event posted a region with an empty id in that time |
| Verdicts.EventVerdictOnPosts | internal/engine/engine.go:191-318 | over messages and submitted rules alone: a rule that an event is dispatched to is evaluated once, and its verdict holds if and only if the last region posted for each dependency is recent and the last accepted expression is true of an environment whose names read those regions, with the aggregates of what was dispatched since the last removal if the rule has a window |
| Verdicts.StateVerdictOnPosts | internal/engine/engine.go:112-318 | the same for each region of a payload that is dispatched to the rule |
| GetOrCreate.SameObject | internal/window/manager.go:18-66 | in every interleaving, any two calls for an id with no removal of it in between return one and the same object |
| GetOrCreate.PublishedStays | internal/engine/trigger.go:29-45 | a published object is never replaced until it is removed |
| GetOrCreate.DifferentObjects | internal/window/manager.go:18-58 | calls for different ids never share an object |
| GetOrCreate.BackIffWritten | internal/window/manager.go:18-66 | a removed id is published after its last removal if and only if a call for it has written since |
| GetOrCreate.BackIffLateWriter | internal/engine/trigger.go:29-45 | without new calls after the last removal, if and only if a call that had not returned at the removal writes afterwards |
| GetOrCreate.RemovedComesBack | internal/engine/trigger.go:107-111 | an input: a call misses, the id is removed, the call publishes an object for it |
| Delivery.AcknowledgedIffProcessed | internal/api/event_handler.go:38-62 | for any number of interleaved handlers, at quiescence an event that had no row at the start was processed if and only if some delivery of it was acknowledged, whatever happens to other ids |
| Delivery.ReliableIff | internal/api/event_handler.go:38-62 | in every run over a store an acknowledged event was processed, if and only if the store has no row for its id at the start |
| Delivery.AtLeastOnceIsExactlyOnce | internal/api/event_handler.go:38-62 | with duplicates, store errors and store clean-ups in between, the window ends up with the events and counts of exactly-once delivery and no id twice |
| Delivery.RaceProcessesTwice | internal/api/event_handler.go:38-62 | two racing handlers process one event twice, while the window has it once |
| Delivery.RejectedIff | internal/api/event_handler.go:29-36 | in any run a delivery is rejected, for good, if and only if its event lacks an id, a time or a kind, or is of another camera |
| Delivery.DuplicateIff | internal/api/event_handler.go:38-49 | in any run a delivery whose check succeeds is told "duplicate" if and only if a row for its id was there at the start or was written, and every clean-up since was for a time no later than that of the row |
| Broker.ClientStream | internal/api/stream.go:28-81 | in every interleaving no send reaches a closed channel, queues stay within 100, and received plus queued messages are the ones offered in order minus exactly those that met a full queue; what was offered is what began while subscribed, once each |
| Broker.OutOfOrderOnlyIfOverlapping | internal/api/stream.go:62-81 | two broadcasts are offered to a client out of order only if the one offered second was under way when the one offered first began |
| Broker.SerialBroadcastsKeepOrder | internal/api/stream.go:70-81 | broadcasts that never overlap reach every client in the order they began |
| Broker.OverlappingBroadcastsMayDisagree | internal/api/stream.go:70-81 | overlapping ones can reach two clients in opposite orders |
| ConditionText.ParsePartIff | ui/src/App.tsx:88-100 | the scanner accepts a part with a result if and only if the aliased pattern, or failing that the plain one, matches it with these captures |
| Conditions.ParseExpression | ui/src/App.tsx:83-102 | the parsing loop computes the parse that the theorems below are about, giving up at the first unreadable part |
| Conditions.ParseIff | ui/src/App.tsx:83-102 | a non-empty expression is accepted with a list if and only if it is readings of that list, between white space, joined by &&; the empty one is the one condition "default", occupancy.person > 3 |
| Conditions.RoundTripIff | ui/src/App.tsx:157-182 | what the printer writes is parsed back to the same list if and only if the list is not empty and all fields are well formed |
| Conditions.ParsePrintParse | ui/src/App.tsx:83-164 | for every accepted expression, un-aliased and empty ones included, parsing the printed parse gives the parse |
| Conditions.InStepIff | ui/src/App.tsx:123-182 | after any session of builder edits and raw typing, the saved expression reopens as the list on display if and only if, when typed text still stands, it parses to that list, and otherwise the builder has no list or all its fields are well formed |
| Conditions.PrintingRestoresStep | ui/src/App.tsx:157-182 | right after an edit of the builder that prints, the two agree if and only if all fields are well formed, whatever was typed before |
| Conditions.TypingBreaksStep | ui/src/App.tsx:447 | typing the text of another well-formed list leaves the builder showing the first while the second is saved |
| Conditions.TypedExample | ui/src/App.tsx:410-447 | the input "a.b > 3" with "a.b > 4" typed over it |
| Conditions.VocabularyExample | ui/src/App.tsx:88-100 | an input with a digit and an underscore in the alias, a dot and a capital in the variable, and a decimal number, which is read as it is written |
| Conditions.SavedEditReopens | ui/src/App.tsx:157-182 | an edit that leaves all fields well formed saves an expression that reopens as the rows before it with exactly this field changed, this row added or this row removed |
| Entities.EntityStore.UpdateFromState | internal/entity/store.go:79-116 | the records after a state message, entity by entity, repeated entities included |
| Entities.EntityStore.UpdateFromEvent | internal/entity/store.go:118-154 | the records after an event, unchanged when it names no entity |
| Entities.EntityStore.Cleanup | internal/entity/store.go:65-77 | exactly the entities not seen for longer than the limit go |
| Entities.EntityStore.FindCorrelated | internal/entity/correlator.go:25-61 | one match per asked key, in order, with the verdict that CorrelatedIff characterises; without a correlation everything matches |
| EntityRuns.RecordIsItsLog | internal/entity/store.go:65-154 | over any run an entity has a record if and only if something was reported of it since its last eviction, and the record is what those reports amount to |
| EntityRuns.HistoryIsLatestEvents | internal/entity/store.go:142-153 | the history is the last fifty of the entity's events, or all of them |
| EntityRuns.FirstSeenIsFirstReport | internal/entity/store.go:87-137 | the first-seen time is that of the first report since the last eviction |
| EntityRuns.LatestSightingWins | internal/entity/store.go:87-115 | camera, times at a camera and at an ROI, dwell time and each attribute are those of the latest sighting that says something of the kind |
| EntityRuns.AttributesAreReported | internal/entity/store.go:109-115 | a record has no attribute that no sighting carried |
| EntityRuns.RoisAreLastVisits | internal/entity/store.go:98-104 | current ROI and previous ROI follow the stutter-free visit sequence, empty ROI ids included |
| EntityRuns.NamedRoisAreLastTwoVisits | internal/entity/store.go:98-104 | with named ROIs they are its last two elements |
| EntityRuns.CorrelatedIff | internal/entity/correlator.go:37-56 | over any run an entity correlates across "cameras" ("rois") if and only if state messages saw it on two different ones since its last eviction, and across anything else never |
| Aggregators.Registry.Register | internal/fact/aggregator.go:34-63 | the registry after registering a dependency list |
| Aggregators.Registry.Unregister | internal/fact/aggregator.go:65-84 | the registry after giving it back |
| Aggregators.RegisterThenUnregister | internal/fact/aggregator.go:34-84 | registering a list and unregistering it restores the registry, definitions included |
| Aggregators.CountIsMultiplicity | internal/fact/aggregator.go:34-84 | over any run a key's count is its multiplicity among the outstanding dependencies, and its aggregator exists if and only if that is positive |
| Aggregators.CountIsDifferenceIff | internal/fact/aggregator.go:34-84 | the count is registrations minus unregistrations if and only if the run never unregisters more than it registered |
| Aggregators.FirstAskerDefines | internal/fact/aggregator.go:34-63 | a registration defines an aggregator that was not there by the fields of the first dependency that asks for its key |
| Aggregators.DefinitionIsAskedFor | internal/fact/aggregator.go:34-84 | over any run every aggregator there is was defined by a registered dependency of its own camera, ROI and metric |

## Left out

- Concurrency between engine calls: `ProcessState`, `ProcessEvent` and the lifecycle methods are single steps of an engine run, each with one reading of the clock. The source holds its lock only around the rule map, so overlapping calls can interleave more finely. The parts where the locking protocol itself matters (get-or-create, the event handler, the broker) are modelled step by step.
- The manager of the windows is two objects here, one per kind of window, since its two maps are independent of each other.
- The asynchronous part of executing an action (executor, execution record, broadcast): a firing is the log entry with the record's data.
- The entity store and the fact store inside the engine: no rule evaluation reads either, so `Engine` does not hold them; `Entities` models the former on its own, and the latter stays empty.
- Machine integers: times and counts are unbounded. `TriggerRuns.DifferencesFitInt64` shows that the trigger's subtractions cannot wrap; the window cutoff (newest time minus duration) is not covered by it.
- Entities.EntityStore.FindCorrelated: reads a record as one step, whereas the source reads it after giving up the store's lock.
- Conditions.InStepIff: rows are changed by the index they are displayed at; a change at an index that is not on display is not modelled. The mode switch is not a step, since it changes neither list nor text: builder edits and typing are allowed in any order. Text is a sequence of Unicode characters, not of UTF-16 units.
- Conditions.Collect: the parsing loop is written once for an arbitrary reader of parts and applied to the reader of conditions.
- Aggregators.Registry.Register: parsing a duration is an arbitrary function; recomputing aggregators is a stub in the source and is left out.
- SQLite stores: the event store is its rows of id and time with insert-or-ignore, membership and deletion by age; rule and execution stores are left out.
- HTTP routing, JSON decoding, authentication, health and execution endpoints, SSE framing, logging, configuration, the file executor and the simulator.
- The window aggregates reached only through the generic `Aggregate` methods, filters and entry copies of the windows: small loops of the kinds already modelled.
- Dwell statistics are carried as data and never computed with.
- The three-valued truth tables, the timer, rule instances, derived facts, the expression tree package and replay: finite tables, small map wrappers and stubs.
- Rendering and fetching in the user interface.
