/** The per-rule temporal state machine: three mutable fields that decide which evaluations of a
    rule become firings. */
module Trigger {
  import opened Common

  const MODE_RISING := "rising"
  const MODE_EVERY := "every"

  /** What one call is configured with: trigger mode, cooldown, optional sustain duration. */
  datatype Config = Config(mode: string, cooldown: int, sustain: Option<int>) {
    predicate Sustained() {
      sustain.Some? && sustain.value > 0
    }

    /** The empty mode means rising. */
    predicate Rising() {
      mode == "" || mode == MODE_RISING
    }

    predicate Every() {
      mode == MODE_EVERY
    }
  }

  /** One evaluation of a rule: the condition's verdict, its emission time, its configuration. */
  datatype Evaluation = Evaluation(holds: bool, at: int, config: Config)

  /** The value of the three fields of a trigger state. */
  datatype Timers = Timers(previousResult: bool, sustainStartTime: int, lastTriggeredAt: int)

  const INITIAL := Timers(false, 0, 0)

  /** What one evaluation does to the timers, and whether it fires. */
  function Step(st: Timers, e: Evaluation): (Timers, bool) {
    var waiting := e.config.Sustained() && st.sustainStartTime == 0;
    var tooShort := e.config.Sustained() && e.at - st.sustainStartTime < e.config.sustain.value;
    var wanted := e.config.Every() || (e.config.Rising() && (e.config.Sustained() || !st.previousResult));
    var coolingDown := st.lastTriggeredAt > 0 && e.at - st.lastTriggeredAt < e.config.cooldown;
    if !e.holds then (Timers(false, 0, st.lastTriggeredAt), false)
    else if waiting then (Timers(true, e.at, st.lastTriggeredAt), false)
    else if tooShort || !wanted || coolingDown then (st.(previousResult := true), false)
    else (Timers(true, 0, e.at), true)
  }

  // ---------------------------------------------------------------------------------------------
  // The machine in the heap
  // ---------------------------------------------------------------------------------------------

  class TriggerState {
    var previousResult: bool
    var sustainStartTime: int
    var lastTriggeredAt: int

    constructor ()
      ensures Value() == INITIAL
    {
      previousResult, sustainStartTime, lastTriggeredAt := false, 0, 0;
    }

    ghost function Value(): Timers
      reads this
    {
      Timers(previousResult, sustainStartTime, lastTriggeredAt)
    }

    method Evaluate(conditionResult: bool, emittedAt: int, trigger: Config) returns (fired: bool)
      modifies this
      ensures (Value(), fired) == Step(old(Value()), Evaluation(conditionResult, emittedAt, trigger))
    {
      if !conditionResult {
        sustainStartTime := 0;
        previousResult := false;
        return false;
      }
      if trigger.sustain.Some? && trigger.sustain.value > 0 {
        if sustainStartTime == 0 {
          sustainStartTime := emittedAt;
          previousResult := true;
          return false;
        }
        if emittedAt - sustainStartTime < trigger.sustain.value {
          previousResult := true;
          return false;
        }
      }
      var mode := trigger.mode;
      if mode == "" {
        mode := MODE_RISING;
      }
      var shouldTrigger := false;
      if mode == MODE_RISING {
        if trigger.sustain.Some? && trigger.sustain.value > 0 {
          shouldTrigger := true;
        } else {
          shouldTrigger := !previousResult;
        }
      } else if mode == MODE_EVERY {
        shouldTrigger := true;
      }
      if !shouldTrigger {
        previousResult := true;
        return false;
      }
      if lastTriggeredAt > 0 && emittedAt - lastTriggeredAt < trigger.cooldown {
        previousResult := true;
        return false;
      }
      lastTriggeredAt := emittedAt;
      previousResult := true;
      sustainStartTime := 0;
      return true;
    }
  }

  class TriggerManager {
    var states: map<string, TriggerState>
    ghost var View: map<string, Timers>
    ghost var Repr: set<object>

    /** Every rule has an object of its own, which holds what the view says. */
    ghost predicate Valid()
      reads this, Repr
    {
      && this in Repr
      && states.Keys == View.Keys
      && (forall id :: id in states ==> states[id] in Repr && states[id].Value() == View[id])
      && (forall a, b :: a in states && b in states && a != b ==> states[a] != states[b])
    }

    constructor ()
      ensures Valid() && fresh(Repr) && View == map[]
    {
      states, View, Repr := map[], map[], {this};
    }

    method GetOrCreateState(ruleId: string) returns (state: TriggerState)
      requires Valid()
      modifies this
      ensures Valid() && fresh(Repr - old(Repr)) && old(Repr) <= Repr
      ensures ruleId in states && states[ruleId] == state
      ensures View == old(View)[ruleId := Lookup(old(View), ruleId).GetOr(INITIAL)]
    {
      if ruleId in states {
        return states[ruleId];
      }
      state := new TriggerState();
      states := states[ruleId := state];
      View, Repr := View[ruleId := INITIAL], Repr + {state};
    }

    method ShouldTrigger(ruleId: string, conditionResult: bool, emittedAt: int, trigger: Config)
      returns (fired: bool)
      requires Valid()
      modifies Repr
      ensures Valid() && fresh(Repr - old(Repr)) && old(Repr) <= Repr
      ensures var r := Step(Lookup(old(View), ruleId).GetOr(INITIAL),
                            Evaluation(conditionResult, emittedAt, trigger));
              View == old(View)[ruleId := r.0] && fired == r.1
    {
      ghost var was := View;
      var state := GetOrCreateState(ruleId);
      ghost var before := View[ruleId];
      fired := Evaluate(ruleId, state, conditionResult, emittedAt, trigger);
      Overwrite(was, ruleId, before, Step(before, Evaluation(conditionResult, emittedAt, trigger)).0);
    }

    method Evaluate(ghost ruleId: string, state: TriggerState, conditionResult: bool, emittedAt: int, trigger: Config)
      returns (fired: bool)
      requires Valid() && ruleId in states && states[ruleId] == state
      modifies state, this`View
      ensures Valid()
      ensures var r := Step(old(View)[ruleId], Evaluation(conditionResult, emittedAt, trigger));
              View == old(View)[ruleId := r.0] && fired == r.1
    {
      fired := state.Evaluate(conditionResult, emittedAt, trigger);
      View := View[ruleId := state.Value()];
    }

    method Remove(ruleId: string)
      requires Valid()
      modifies this
      ensures Valid() && Repr == old(Repr) && View == old(View) - {ruleId}
    {
      states := states - {ruleId};
      View := View - {ruleId};
    }
  }

  // ---------------------------------------------------------------------------------------------
  // Runs
  // ---------------------------------------------------------------------------------------------

  type History = seq<Evaluation>

  /** The timers just before evaluation `i`. */
  function StateBefore(h: History, i: nat): Timers
    requires i <= |h|
  {
    if i == 0 then INITIAL else Step(StateBefore(h, i - 1), h[i - 1]).0
  }

  predicate Fires(h: History, i: nat)
    requires i < |h|
  {
    Step(StateBefore(h, i), h[i]).1
  }

  function Firings(h: History): seq<bool> {
    seq(|h|, i requires 0 <= i < |h| => Fires(h, i))
  }

  /** The firing times among the first `n` evaluations, in order. */
  function FiringTimes(h: History, n: nat): (ts: seq<int>)
    requires n <= |h|
    ensures |ts| <= n
  {
    if n == 0 then []
    else if Fires(h, n - 1) then FiringTimes(h, n - 1) + [h[n - 1].at]
    else FiringTimes(h, n - 1)
  }

  ghost predicate NonZeroTimes(h: History) {
    forall i :: 0 <= i < |h| ==> h[i].at != 0
  }

  ghost predicate PositiveTimes(h: History) {
    forall i :: 0 <= i < |h| ==> h[i].at > 0
  }

  ghost predicate OrderedTimes(h: History) {
    forall i, j :: 0 <= i <= j < |h| ==> h[i].at <= h[j].at
  }

  // ---------------------------------------------------------------------------------------------
  // What a firing means, in terms of the history alone
  // ---------------------------------------------------------------------------------------------

  /** Evaluations `s..e` all hold and none of them fired. */
  ghost predicate Unbroken(h: History, f: seq<bool>, s: nat, e: nat)
    requires e <= |h| && e <= |f|
  {
    forall k :: s <= k < e ==> h[k].holds && !f[k]
  }

  /** `s` starts the sustain timer that evaluation `i` sees: the first sustained evaluation since the
      last one that was false or fired. */
  ghost predicate Anchor(h: History, f: seq<bool>, s: nat, i: nat)
    requires i <= |h| && i <= |f|
  {
    && s < i
    && h[s].config.Sustained()
    && Unbroken(h, f, s, i)
    && forall r: nat :: r < s && h[r].config.Sustained() ==> !Unbroken(h, f, r, i)
  }

  ghost predicate LastFiring(f: seq<bool>, j: nat, i: nat)
    requires i <= |f|
  {
    j < i && f[j] && forall k :: j < k < i ==> !f[k]
  }

  /** Evaluation `i` should fire: it holds, it has held long enough, it is an edge where edges are
      asked for, and the previous firing is far enough in the past. */
  ghost predicate Due(h: History, f: seq<bool>, i: nat)
    requires i < |h| && i <= |f|
  {
    var c := h[i].config;
    && h[i].holds
    && (c.Sustained() ==> exists s: nat :: Anchor(h, f, s, i) && h[i].at - h[s].at >= c.sustain.value)
    && (c.Every() || (c.Rising() && (c.Sustained() || i == 0 || !h[i - 1].holds)))
    && (forall j: nat :: LastFiring(f, j, i) && h[j].at > 0 ==> h[i].at - h[j].at >= c.cooldown)
  }

  /** `f` marks exactly the evaluations that are due, given the earlier marks. */
  ghost predicate Explains(h: History, f: seq<bool>) {
    |f| == |h| && forall i: nat :: i < |h| ==> (f[i] <==> Due(h, f, i))
  }

  /** `f` agrees with the machine on the first `i` evaluations. */
  ghost predicate Agrees(h: History, f: seq<bool>, i: nat)
    requires i <= |h| && i <= |f|
  {
    forall k: nat :: k < i ==> f[k] == Fires(h, k)
  }

  /** The sustain timer is the time of the anchor, or zero when there is none. */
  ghost predicate TimerMeans(h: History, f: seq<bool>, i: nat, timer: int)
    requires i <= |h| && i <= |f|
  {
    && (timer != 0 ==> exists s: nat :: Anchor(h, f, s, i))
    && (forall s: nat :: Anchor(h, f, s, i) ==> timer == h[s].at)
  }

  /** The cooldown field is the time of the last firing, or zero when there is none. */
  ghost predicate CooldownMeans(h: History, f: seq<bool>, i: nat, last: int)
    requires i <= |h| && i <= |f|
  {
    && (last != 0 ==> exists j: nat :: LastFiring(f, j, i))
    && (forall j: nat :: LastFiring(f, j, i) ==> last == h[j].at)
  }

  // What the three fields hold: the last verdict, the time of the anchor, the last firing time.

  lemma {:induction false} PreviousIsLastVerdict(h: History, i: nat)
    requires i <= |h|
    ensures StateBefore(h, i).previousResult == (i > 0 && h[i - 1].holds)
  {
    if i > 0 {
      PreviousIsLastVerdict(h, i - 1);
    }
  }

  lemma {:induction false} TimerIsAnchorTime(h: History, f: seq<bool>, i: nat)
    requires NonZeroTimes(h) && i <= |h| && i <= |f| && Agrees(h, f, i)
    ensures TimerMeans(h, f, i, StateBefore(h, i).sustainStartTime)
  {
    if i > 0 {
      TimerIsAnchorTime(h, f, i - 1);
      TimerMoves(h, f, i - 1, i);
    }
  }

  lemma {:induction false} CooldownIsLastFiringTime(h: History, f: seq<bool>, i: nat)
    requires i <= |h| && i <= |f| && Agrees(h, f, i)
    ensures CooldownMeans(h, f, i, StateBefore(h, i).lastTriggeredAt)
  {
    if i > 0 {
      CooldownIsLastFiringTime(h, f, i - 1);
      CooldownMoves(h, f, i - 1, i);
    }
  }

  lemma TimerMoves(h: History, f: seq<bool>, i: nat, n: nat)
    requires n == i + 1 && n <= |h| && n <= |f| && NonZeroTimes(h)
    requires TimerMeans(h, f, i, StateBefore(h, i).sustainStartTime) && f[i] == Fires(h, i)
    ensures TimerMeans(h, f, n, StateBefore(h, n).sustainStartTime)
  {
    assert StateBefore(h, n) == Step(StateBefore(h, i), h[i]).0;
    if !h[i].holds || f[i] {
      forall s: nat
        ensures !Anchor(h, f, s, n)
      {
      }
    } else {
      forall r: nat | r <= i
        ensures Unbroken(h, f, r, n) == Unbroken(h, f, r, i)
      {
      }
      if s: nat :| Anchor(h, f, s, i) {
        assert Anchor(h, f, s, n);
        forall q: nat | Anchor(h, f, q, n)
          ensures q == s
        {
          assert Unbroken(h, f, s, n) && Unbroken(h, f, q, n);
        }
      } else {
        forall q: nat | Anchor(h, f, q, n)
          ensures q == i
        {
          if q < i {
            var s := AnchorOf(h, f, q, i);
          }
        }
        if h[i].config.Sustained() {
          forall r: nat | r < i && h[r].config.Sustained()
            ensures !Unbroken(h, f, r, n)
          {
            if Unbroken(h, f, r, i) {
              var s := AnchorOf(h, f, r, i);
            }
          }
          assert Anchor(h, f, i, n);
        }
      }
    }
  }

  lemma CooldownMoves(h: History, f: seq<bool>, i: nat, n: nat)
    requires n == i + 1 && n <= |h| && n <= |f|
    requires CooldownMeans(h, f, i, StateBefore(h, i).lastTriggeredAt) && f[i] == Fires(h, i)
    ensures CooldownMeans(h, f, n, StateBefore(h, n).lastTriggeredAt)
  {
    assert StateBefore(h, n) == Step(StateBefore(h, i), h[i]).0;
    if f[i] {
      assert LastFiring(f, i, n);
      forall j: nat | LastFiring(f, j, n)
        ensures j == i
      {
      }
    } else {
      forall j: nat
        ensures LastFiring(f, j, n) == LastFiring(f, j, i)
      {
      }
    }
  }

  /** An unbroken stretch with a sustained evaluation in it has an anchor. */
  lemma {:induction false} AnchorOf(h: History, f: seq<bool>, r: nat, i: nat) returns (s: nat)
    requires r < i <= |h| && i <= |f|
    requires h[r].config.Sustained() && Unbroken(h, f, r, i)
    ensures s <= r && Anchor(h, f, s, i)
    decreases r
  {
    if q: nat :| q < r && h[q].config.Sustained() && Unbroken(h, f, q, i) {
      s := AnchorOf(h, f, q, i);
    } else {
      s := r;
    }
  }

  /** The machine fires exactly when the history says it is due. */
  lemma FiresWhenDue(h: History, f: seq<bool>, i: nat)
    requires NonZeroTimes(h) && i < |h| && i <= |f| && Agrees(h, f, i)
    ensures Fires(h, i) <==> Due(h, f, i)
  {
    PreviousIsLastVerdict(h, i);
    TimerIsAnchorTime(h, f, i);
    CooldownIsLastFiringTime(h, f, i);
    var st, e := StateBefore(h, i), h[i];
    if e.config.Sustained() && st.sustainStartTime != 0 {
      var s: nat :| Anchor(h, f, s, i);
      assert st.sustainStartTime == h[s].at;
    }
    if st.lastTriggeredAt != 0 {
      var j: nat :| LastFiring(f, j, i);
      assert st.lastTriggeredAt == h[j].at;
    }
  }

  /** Exact refinement: the declarative reading of a history has one solution, and it is what the
      three-field machine does, for every history with non-zero times, whatever the modes,
      cooldowns and sustain durations, even when they change in the middle. */
  lemma {:induction false} ExactRefinement(h: History, f: seq<bool>)
    requires NonZeroTimes(h)
    ensures Explains(h, f) <==> f == Firings(h)
  {
    if Explains(h, f) {
      ExplainedAgrees(h, f, |h|);
      assert f == Firings(h);
    }
    if f == Firings(h) {
      forall i: nat | i < |h|
        ensures f[i] <==> Due(h, f, i)
      {
        FiresWhenDue(h, f, i);
      }
    }
  }

  lemma {:induction false} ExplainedAgrees(h: History, f: seq<bool>, n: nat)
    requires NonZeroTimes(h) && Explains(h, f) && n <= |h|
    ensures Agrees(h, f, n)
  {
    if n > 0 {
      ExplainedAgrees(h, f, n - 1);
      FiresWhenDue(h, f, n - 1);
    }
  }
}
