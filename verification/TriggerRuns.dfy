/** What the trigger machine guarantees over whole runs: separation, optimality, no missed alarm. */
module TriggerRuns {
  import opened Common
  import opened Trigger

  ghost predicate Constant(h: History, c: Config) {
    forall i :: 0 <= i < |h| ==> h[i].config == c
  }

  /** The cooldown field is the last firing time, or zero. */
  lemma {:induction false} LastFiringTime(h: History, n: nat)
    requires n <= |h|
    ensures var ts := FiringTimes(h, n);
            StateBefore(h, n).lastTriggeredAt == if ts == [] then 0 else ts[|ts| - 1]
  {
    if n > 0 {
      LastFiringTime(h, n - 1);
    }
  }

  lemma {:induction false} FiringTimesExtend(h: History, m: nat, n: nat)
    requires m <= n <= |h|
    ensures FiringTimes(h, m) <= FiringTimes(h, n)
  {
    if m < n {
      FiringTimesExtend(h, m, n - 1);
    }
  }

  lemma {:induction false} FiringTimesAreTimes(h: History, n: nat, lo: int, hi: int)
    requires n <= |h| && forall i :: 0 <= i < n ==> lo <= h[i].at <= hi
    ensures forall k :: 0 <= k < |FiringTimes(h, n)| ==> lo <= FiringTimes(h, n)[k] <= hi
  {
    if n > 0 {
      FiringTimesAreTimes(h, n - 1, lo, hi);
    }
  }

  // ---------------------------------------------------------------------------------------------
  // Cooldown
  // ---------------------------------------------------------------------------------------------

  /** The i-th and the j-th time are at least j - i times `gap` apart. */
  ghost predicate Separated(ts: seq<int>, gap: int) {
    forall i, j {:trigger ts[i], ts[j]} :: 0 <= i <= j < |ts| ==> ts[j] - ts[i] >= (j - i) * gap
  }

  /** With positive times in ANY order, the i-th and the j-th firing are at least j - i cooldowns
      apart; in particular firing times never decrease. */
  lemma CooldownSeparates(h: History, n: nat, cooldown: nat)
    requires PositiveTimes(h) && n <= |h|
    requires forall i :: 0 <= i < |h| ==> h[i].config.cooldown >= cooldown
    ensures Separated(FiringTimes(h, n), cooldown)
  {
    FiringTimesPositive(h, n);
    PositiveFiringsSeparate(h, n, cooldown);
  }

  /** It is enough that the firings happen at positive times. */
  lemma {:induction false} PositiveFiringsSeparate(h: History, n: nat, cooldown: nat)
    requires n <= |h| && forall i :: 0 <= i < |h| ==> h[i].config.cooldown >= cooldown
    requires forall k :: 0 <= k < |FiringTimes(h, n)| ==> FiringTimes(h, n)[k] > 0
    ensures Separated(FiringTimes(h, n), cooldown)
  {
    if n > 0 {
      var ts := FiringTimes(h, n - 1);
      FiringTimesExtend(h, n - 1, n);
      assert forall k :: 0 <= k < |ts| ==> ts[k] == FiringTimes(h, n)[k];
      PositiveFiringsSeparate(h, n - 1, cooldown);
      if Fires(h, n - 1) {
        LastFiringTime(h, n - 1);
        SeparatedExtends(ts, h[n - 1].at, cooldown);
      }
    }
  }

  lemma SeparatedExtends(ts: seq<int>, t: int, gap: int)
    requires Separated(ts, gap) && (ts != [] ==> t - ts[|ts| - 1] >= gap)
    ensures Separated(ts + [t], gap)
  {
    var m, us := |ts|, ts + [t];
    forall i, j | 0 <= i <= j < |us|
      ensures us[j] - us[i] >= (j - i) * gap
    {
      if i < j == m {
        assert ts[m - 1] - ts[i] >= (m - 1 - i) * gap;
        assert (j - i) * gap == (m - 1 - i) * gap + gap;
      }
    }
  }

  lemma {:induction false} FiringTimesPositive(h: History, n: nat)
    requires PositiveTimes(h) && n <= |h|
    ensures forall k :: 0 <= k < |FiringTimes(h, n)| ==> FiringTimes(h, n)[k] > 0
  {
    if n > 0 {
      FiringTimesPositive(h, n - 1);
    }
  }

  ghost predicate TimesIn(h: History, times: iset<int>) {
    forall i :: 0 <= i < |h| ==> h[i].at in times
  }

  /** Every history of this configuration with these times keeps its firings a cooldown apart. */
  ghost predicate Protected(c: Config, times: iset<int>) {
    forall h: History :: Constant(h, c) && TimesIn(h, times) ==> Separated(FiringTimes(h, |h|), c.cooldown)
  }

  /** A firing can happen at `u`: at any time without sustain, else only a duration after another. */
  ghost predicate CanFireAt(c: Config, times: iset<int>, u: int) {
    u in times && (c.Sustained() ==> exists s :: s in times && u - s >= c.sustain.value)
  }

  /** Exactly when the cooldown keeps its promise: if and only if no firing is possible at time zero or
      before. Emission times are only ever checked not to be zero. */
  lemma CooldownProtectsExactlyIf(c: Config, times: iset<int>)
    requires c.cooldown > 0 && (c.Every() || c.Rising())
    ensures Protected(c, times) <==> forall u :: CanFireAt(c, times, u) ==> u > 0
  {
    if forall u :: CanFireAt(c, times, u) ==> u > 0 {
      forall h: History | Constant(h, c) && TimesIn(h, times)
        ensures Separated(FiringTimes(h, |h|), c.cooldown)
      {
        FiringsArePossible(h, |h|, c, times);
        PositiveFiringsSeparate(h, |h|, c.cooldown);
      }
    } else {
      var u :| CanFireAt(c, times, u) && u <= 0;
      if c.Sustained() {
        var s :| s in times && u - s >= c.sustain.value;
        SustainedBreaksCooldown(c, s, u, times);
      } else {
        EarlyTimeBreaksCooldown(c, u, times);
      }
    }
  }

  lemma {:induction false} TimerIsInTimes(h: History, n: nat, times: iset<int>)
    requires n <= |h| && TimesIn(h, times)
    ensures var start := StateBefore(h, n).sustainStartTime; start == 0 || start in times
  {
    if n > 0 {
      TimerIsInTimes(h, n - 1, times);
    }
  }

  lemma {:induction false} FiringsArePossible(h: History, n: nat, c: Config, times: iset<int>)
    requires n <= |h| && Constant(h, c) && TimesIn(h, times)
    ensures forall k :: 0 <= k < |FiringTimes(h, n)| ==> CanFireAt(c, times, FiringTimes(h, n)[k])
  {
    if n > 0 {
      FiringsArePossible(h, n - 1, c, times);
      if Fires(h, n - 1) {
        TimerIsInTimes(h, n - 1, times);
        assert c.Sustained() ==> h[n - 1].at - StateBefore(h, n - 1).sustainStartTime >= c.sustain.value;
        assert CanFireAt(c, times, h[n - 1].at);
      }
    }
  }

  lemma OneMore(h: History, n: nat, st: Timers, ts: seq<int>)
    requires n < |h| && StateBefore(h, n) == st && FiringTimes(h, n) == ts
    ensures StateBefore(h, n + 1) == Step(st, h[n]).0
    ensures FiringTimes(h, n + 1) == if Step(st, h[n]).1 then ts + [h[n].at] else ts
  {
  }

  lemma TrueTwice(c: Config, u: int, h: History)
    requires (c.Every() || c.Rising()) && !c.Sustained() && (u <= 0 || c.cooldown <= 0)
    requires h == [Evaluation(true, u, c), Evaluation(false, u, c), Evaluation(true, u, c)]
    ensures FiringTimes(h, 3) == [u, u]
  {
    OneMore(h, 0, INITIAL, []);
    OneMore(h, 1, Timers(true, 0, u), [u]);
    OneMore(h, 2, Timers(false, 0, u), [u]);
  }

  /** The failing run without sustain: true, false, true, all at one time that is not positive. */
  lemma EarlyTimeBreaksCooldown(c: Config, u: int, times: iset<int>)
    requires c.cooldown > 0 && (c.Every() || c.Rising()) && !c.Sustained() && u in times && u <= 0
    ensures var h := [Evaluation(true, u, c), Evaluation(false, u, c), Evaluation(true, u, c)];
            Constant(h, c) && TimesIn(h, times) && FiringTimes(h, 3) == [u, u]
    ensures !Protected(c, times)
  {
    TrueTwice(c, u, [Evaluation(true, u, c), Evaluation(false, u, c), Evaluation(true, u, c)]);
    NotSeparated(u, c.cooldown);
  }

  lemma StretchTwice(c: Config, s: int, u: int, h: History)
    requires (c.Every() || c.Rising()) && c.Sustained() && u - s >= c.sustain.value
    requires s != 0 && (u <= 0 || c.cooldown <= 0)
    requires h == [Evaluation(true, s, c), Evaluation(true, u, c), Evaluation(false, u, c), Evaluation(true, s, c),
                   Evaluation(true, u, c)]
    ensures FiringTimes(h, 5) == [u, u]
  {
    OneMore(h, 0, INITIAL, []);
    OneMore(h, 1, Timers(true, s, 0), []);
    OneMore(h, 2, Timers(true, 0, u), [u]);
    OneMore(h, 3, Timers(false, 0, u), [u]);
    OneMore(h, 4, Timers(true, s, u), [u]);
  }

  /** The failing run with sustain: a stretch from `s` to `u`, a false evaluation, the stretch again. */
  lemma SustainedBreaksCooldown(c: Config, s: int, u: int, times: iset<int>)
    requires c.cooldown > 0 && (c.Every() || c.Rising()) && c.Sustained()
    requires s in times && u in times && u - s >= c.sustain.value && u <= 0
    ensures !Protected(c, times)
  {
    var h := [Evaluation(true, s, c), Evaluation(true, u, c), Evaluation(false, u, c), Evaluation(true, s, c),
              Evaluation(true, u, c)];
    StretchTwice(c, s, u, h);
    NotSeparated(u, c.cooldown);
    assert Constant(h, c) && TimesIn(h, times);
  }

  lemma NotSeparated(u: int, gap: int)
    requires gap > 0
    ensures !Separated([u, u], gap)
  {
    var ts := [u, u];
    assert ts[1] - ts[0] < (1 - 0) * gap;
  }

  // ---------------------------------------------------------------------------------------------
  // Repeated evaluations
  // ---------------------------------------------------------------------------------------------

  /** Exactly when the same evaluation, repeated at once, fires again: a redelivered event does so in
      "every" mode without sustain and without a cooldown. */
  lemma RepeatFiresIff(h: History, i: nat)
    requires i + 1 < |h| && Fires(h, i) && h[i].at > 0 && h[i + 1] == h[i]
    ensures var c := h[i].config;
            Fires(h, i + 1) <==> c.mode == "every" && (c.sustain.None? || c.sustain.value <= 0) && c.cooldown <= 0
  {
  }

  /** Every history of this configuration with these times fires at most once for each time. */
  ghost predicate OncePerTime(c: Config, times: iset<int>) {
    forall h: History :: Constant(h, c) && TimesIn(h, times) ==> Distinct(FiringTimes(h, |h|))
  }

  /** Exactly when an event or a snapshot makes a rule fire at most once, however often and in whatever
      company it is evaluated again: if and only if there is a cooldown, or no firing is possible. */
  lemma OncePerTimeIff(c: Config, times: iset<int>)
    requires (c.Every() || c.Rising()) && forall t :: t in times ==> t > 0
    ensures OncePerTime(c, times) <==> c.cooldown > 0 || forall u :: !CanFireAt(c, times, u)
  {
    if c.cooldown > 0 {
      forall h: History | Constant(h, c) && TimesIn(h, times)
        ensures Distinct(FiringTimes(h, |h|))
      {
        CooldownSeparates(h, |h|, c.cooldown);
        SeparatedIsDistinct(FiringTimes(h, |h|), c.cooldown);
      }
    } else if u :| CanFireAt(c, times, u) {
      FiresTwiceAt(c, times, u);
    } else {
      forall h: History | Constant(h, c) && TimesIn(h, times)
        ensures Distinct(FiringTimes(h, |h|))
      {
        FiringsArePossible(h, |h|, c, times);
      }
    }
  }

  lemma SeparatedIsDistinct(ts: seq<int>, gap: int)
    requires Separated(ts, gap) && gap > 0
    ensures Distinct(ts)
  {
    forall i, j | 0 <= i < j < |ts|
      ensures ts[i] != ts[j]
    {
      assert ts[j] - ts[i] >= (j - i) * gap;
      PositiveProduct(j - i, gap);
    }
  }

  lemma PositiveProduct(a: int, b: int)
    requires a > 0 && b > 0
    ensures a * b > 0
  {
  }

  lemma NotDistinct(u: int)
    ensures !Distinct([u, u])
  {
    var ts := [u, u];
    assert ts[0] == ts[1];
  }

  /** The failing run: what led to the firing happens again at the same times. */
  lemma FiresTwiceAt(c: Config, times: iset<int>, u: int)
    requires (c.Every() || c.Rising()) && (forall t :: t in times ==> t > 0) && c.cooldown <= 0
    requires CanFireAt(c, times, u)
    ensures !OncePerTime(c, times)
  {
    if c.Sustained() {
      var s :| s in times && u - s >= c.sustain.value;
      var h := [Evaluation(true, s, c), Evaluation(true, u, c), Evaluation(false, u, c), Evaluation(true, s, c),
                Evaluation(true, u, c)];
      StretchTwice(c, s, u, h);
      NotDistinct(u);
      assert Constant(h, c) && TimesIn(h, times);
    } else {
      var h := [Evaluation(true, u, c), Evaluation(false, u, c), Evaluation(true, u, c)];
      TrueTwice(c, u, h);
      NotDistinct(u);
      assert Constant(h, c) && TimesIn(h, times);
    }
  }

  // ---------------------------------------------------------------------------------------------
  // "every" mode is greedy-optimal
  // ---------------------------------------------------------------------------------------------

  /** A choice of true evaluations among the first `n`, consecutive ones at least `cooldown` apart. */
  ghost predicate Selection(h: History, n: nat, cooldown: int, sel: seq<nat>)
    requires n <= |h|
  {
    && (forall k :: 0 <= k < |sel| ==> sel[k] < n && h[sel[k]].holds)
    && (forall j, k :: 0 <= j < k < |sel| ==> sel[j] < sel[k])
    && (forall j, k :: 0 <= j < |sel| && 0 <= k < |sel| && k == j + 1 ==> h[sel[k]].at - h[sel[j]].at >= cooldown)
  }

  /** The indices of the firings among the first `n` evaluations. */
  function FiringIndices(h: History, n: nat): seq<nat>
    requires n <= |h|
  {
    if n == 0 then []
    else if Fires(h, n - 1) then FiringIndices(h, n - 1) + [n - 1]
    else FiringIndices(h, n - 1)
  }

  lemma {:induction false} IndicesHaveTimes(h: History, n: nat)
    requires n <= |h|
    ensures var r, ts := FiringIndices(h, n), FiringTimes(h, n);
            |r| == |ts| && forall k :: 0 <= k < |r| ==> r[k] < n && h[r[k]].at == ts[k]
  {
    if n > 0 {
      IndicesHaveTimes(h, n - 1);
    }
  }

  /** In "every" mode without sustain, on ordered positive times, no choice of true evaluations that
      respects the cooldown is larger than what the machine fires, and what it fires is one. */
  lemma {:induction false} GreedyIsOptimal(h: History, n: nat, c: Config)
    requires OrderedTimes(h) && PositiveTimes(h) && Constant(h, c) && n <= |h|
    requires c.Every() && !c.Sustained()
    ensures Selection(h, n, c.cooldown, FiringIndices(h, n))
    ensures forall sel :: Selection(h, n, c.cooldown, sel) ==> |sel| <= |FiringIndices(h, n)|
  {
    FiringsAreASelection(h, n, c);
    IndicesHaveTimes(h, n);
    forall sel | Selection(h, n, c.cooldown, sel)
      ensures |sel| <= |FiringIndices(h, n)|
    {
      GreedyStaysAhead(h, n, c, sel);
    }
  }

  lemma {:induction false} FiringsAreASelection(h: History, n: nat, c: Config)
    requires PositiveTimes(h) && Constant(h, c) && n <= |h|
    ensures Selection(h, n, c.cooldown, FiringIndices(h, n))
  {
    if n > 0 {
      FiringsAreASelection(h, n - 1, c);
      if Fires(h, n - 1) {
        FiringLeavesCooldown(h, n - 1);
      }
      NextSelection(h, n - 1, c.cooldown, FiringIndices(h, n - 1), Fires(h, n - 1));
    }
  }

  lemma {:induction false} NextSelection(h: History, i: nat, cooldown: int, sel: seq<nat>, fires: bool)
    requires i < |h| && Selection(h, i, cooldown, sel)
    requires fires ==> h[i].holds && (sel != [] ==> h[i].at - h[sel[|sel| - 1]].at >= cooldown)
    ensures Selection(h, i + 1, cooldown, if fires then sel + [i] else sel)
  {
    if fires {
      SelectionExtends(h, i, i + 1, cooldown, sel);
    } else {
      SelectionStays(h, i, cooldown, sel);
    }
  }

  lemma {:induction false} SelectionStays(h: History, i: nat, cooldown: int, sel: seq<nat>)
    requires i < |h| && Selection(h, i, cooldown, sel)
    ensures Selection(h, i + 1, cooldown, sel)
  {
  }

  lemma FiringLeavesCooldown(h: History, i: nat)
    requires PositiveTimes(h) && i < |h| && Fires(h, i)
    ensures h[i].holds
    ensures var sel := FiringIndices(h, i);
            sel != [] ==> sel[|sel| - 1] < i && h[i].at - h[sel[|sel| - 1]].at >= h[i].config.cooldown
  {
    LastFiringTime(h, i);
    FiringTimesPositive(h, i);
    IndicesHaveTimes(h, i);
  }

  lemma {:induction false} SelectionExtends(h: History, i: nat, n: nat, cooldown: int, sel: seq<nat>)
    requires n == i + 1 && n <= |h| && Selection(h, i, cooldown, sel) && h[i].holds
    requires sel != [] ==> h[i].at - h[sel[|sel| - 1]].at >= cooldown
    ensures Selection(h, n, cooldown, sel + [i])
  {
  }

  /** The k-th firing is never later than the k-th chosen evaluation. */
  lemma {:induction false} GreedyStaysAhead(h: History, n: nat, c: Config, sel: seq<nat>)
    requires OrderedTimes(h) && PositiveTimes(h) && Constant(h, c) && n <= |h|
    requires c.Every() && !c.Sustained() && Selection(h, n, c.cooldown, sel)
    ensures |sel| <= |FiringTimes(h, n)|
    ensures sel != [] ==> FiringTimes(h, n)[|sel| - 1] <= h[sel[|sel| - 1]].at
    decreases |sel|
  {
    if sel != [] {
      var m, s := |sel|, sel[|sel| - 1];
      GreedyStaysAhead(h, s, c, sel[..m - 1]);
      FiringByThen(h, s, c, m, if m > 1 then h[sel[m - 2]].at else 0);
      FiringTimesExtend(h, s + 1, n);
    }
  }

  /** If m - 1 firings happened before evaluation `s`, the last by time `t`, and `s` holds and is out
      of cooldown counted from `t`, then m firings have happened just after `s`. */
  lemma FiringByThen(h: History, s: nat, c: Config, m: nat, t: int)
    requires OrderedTimes(h) && Constant(h, c) && c.Every() && !c.Sustained()
    requires s < |h| && h[s].holds && 0 < m <= |FiringTimes(h, s)| + 1
    requires m > 1 ==> FiringTimes(h, s)[m - 2] <= t && h[s].at - t >= c.cooldown
    ensures m <= |FiringTimes(h, s + 1)| && FiringTimes(h, s + 1)[m - 1] <= h[s].at
  {
    var ts := FiringTimes(h, s);
    LastFiringTime(h, s);
    if |ts| == m - 1 {
      assert Fires(h, s);
    } else {
      FiringTimesAreTimes(h, s, h[0].at, h[s].at);
    }
  }

  // ---------------------------------------------------------------------------------------------
  // Rising mode
  // ---------------------------------------------------------------------------------------------

  ghost predicate Edge(h: History, i: nat)
    requires i < |h|
  {
    h[i].holds && (i == 0 || !h[i - 1].holds)
  }

  ghost function Edges(h: History, n: nat): nat
    requires n <= |h|
  {
    if n == 0 then 0 else Edges(h, n - 1) + if Edge(h, n - 1) then 1 else 0
  }

  /** Rising mode without sustain fires at most once per false-to-true edge. */
  lemma {:induction false} RisingFiresAtMostEdges(h: History, n: nat, c: Config)
    requires Constant(h, c) && c.Rising() && !c.Sustained() && n <= |h|
    ensures |FiringTimes(h, n)| <= Edges(h, n)
  {
    if n > 0 {
      RisingFiresAtMostEdges(h, n - 1, c);
      PreviousIsLastVerdict(h, n - 1);
    }
  }

  /** The previous firing, if any, is at least a cooldown before evaluation `i`. */
  ghost predicate CooledDown(h: History, i: nat)
    requires i < |h|
  {
    var ts := FiringTimes(h, i);
    ts != [] ==> ts[|ts| - 1] <= 0 || h[i].at - ts[|ts| - 1] >= h[i].config.cooldown
  }

  /** Exactly when an alarm is missed: a maximal true stretch `s..e` raises one if and only if its
      first evaluation is out of cooldown, however long the stretch lasts. */
  lemma RisingStretchFiresIff(h: History, s: nat, e: nat)
    requires s <= e < |h| && Edge(h, s)
    requires forall k :: s <= k <= e ==> h[k].holds && h[k].config.Rising() && !h[k].config.Sustained()
    ensures (exists k: nat :: s <= k <= e && Fires(h, k)) <==> CooledDown(h, s)
  {
    PreviousIsLastVerdict(h, s);
    LastFiringTime(h, s);
    assert Fires(h, s) <==> CooledDown(h, s);
    forall k: nat | s < k <= e
      ensures !Fires(h, k)
    {
      PreviousIsLastVerdict(h, k);
    }
  }

  /** An input: the edge at 3 falls into the cooldown of the firing at 1, and the stretch it begins stays
      silent, even at a time when the cooldown is over. */
  lemma EdgeIsSwallowed(c: Config)
    requires c.Rising() && !c.Sustained() && c.cooldown > 2
    ensures var h := [Evaluation(true, 1, c), Evaluation(false, 2, c), Evaluation(true, 3, c),
                      Evaluation(true, 3 + c.cooldown, c)];
            Edge(h, 2) && FiringTimes(h, 4) == [1] && h[3].at - 1 >= c.cooldown
  {
    var h := [Evaluation(true, 1, c), Evaluation(false, 2, c), Evaluation(true, 3, c),
              Evaluation(true, 3 + c.cooldown, c)];
    OneMore(h, 0, INITIAL, []);
    OneMore(h, 1, Timers(true, 0, 1), [1]);
    OneMore(h, 2, Timers(false, 0, 1), [1]);
    OneMore(h, 3, Timers(true, 0, 1), [1]);
  }

  /** Between two firings there is a false evaluation, on every history with this configuration. */
  ghost predicate OncePerStretch(c: Config) {
    forall h: History, i: nat, j: nat ::
      Constant(h, c) && PositiveTimes(h) && i < j < |h| && Fires(h, i) && Fires(h, j) ==>
        exists k: nat :: i < k < j && !h[k].holds
  }

  /** A continuously true condition in rising mode fires only once, exactly when no sustain duration
      is set: a sustained rising rule fires again after each further duration. */
  lemma RisingFiresOncePerStretchIff(c: Config)
    requires c.Rising()
    ensures OncePerStretch(c) <==> !c.Sustained()
  {
    if c.Sustained() {
      SustainedRefires(c);
    } else {
      forall h: History, i: nat, j: nat |
        Constant(h, c) && PositiveTimes(h) && i < j < |h| && Fires(h, i) && Fires(h, j)
        ensures exists k: nat :: i < k < j && !h[k].holds
      {
        PreviousIsLastVerdict(h, j);
        assert h[i].holds;
        assert i < j - 1 && !h[j - 1].holds;
      }
    }
  }

  lemma SustainedRefires(c: Config)
    requires c.Rising() && c.Sustained()
    ensures !OncePerStretch(c)
  {
    var d := c.sustain.value;
    var t := 1 + d + if c.cooldown > 0 then c.cooldown else 0;
    var h := [Evaluation(true, 1, c), Evaluation(true, 1 + d, c), Evaluation(true, t, c),
              Evaluation(true, t + d, c)];
    assert StateBefore(h, 1) == Timers(true, 1, 0);
    assert StateBefore(h, 2) == Timers(true, 0, 1 + d);
    assert StateBefore(h, 3) == Timers(true, t, 1 + d);
    assert Fires(h, 1) && Fires(h, 3);
  }

  // ---------------------------------------------------------------------------------------------
  // Sustain
  // ---------------------------------------------------------------------------------------------

  /** Soundness: a sustained firing ends an unbroken, unfired stretch at least as long as asked. */
  lemma SustainIsSound(h: History, i: nat)
    requires NonZeroTimes(h) && i < |h| && Fires(h, i) && h[i].config.Sustained()
    ensures exists s: nat :: s < i && Unbroken(h, Firings(h), s, i)
                             && h[i].at - h[s].at >= h[i].config.sustain.value
  {
    FiresWhenDue(h, Firings(h), i);
  }

  /** Completeness: a true stretch `s..e` that is long enough, that begins a stretch or lies in an
      ordered run, and whose end is out of cooldown, contains a firing. */
  lemma SustainIsComplete(h: History, s: nat, e: nat, c: Config)
    requires NonZeroTimes(h) && Constant(h, c) && c.Sustained() && (c.Rising() || c.Every())
    requires s < e < |h| && (forall k :: s <= k <= e ==> h[k].holds)
    requires h[e].at - h[s].at >= c.sustain.value && CooledDown(h, e)
    requires s == 0 || !h[s - 1].holds || Fires(h, s - 1) || OrderedTimes(h)
    ensures exists k: nat :: s <= k <= e && Fires(h, k)
  {
    if forall k: nat :: s <= k < e ==> !Fires(h, k) {
      TimerIsEarly(h, s, e, c);
      LastFiringTime(h, e);
      assert Fires(h, e);
    }
  }

  /** At the end of an unfired stretch the timer runs, since no later than its beginning. */
  lemma TimerIsEarly(h: History, s: nat, e: nat, c: Config)
    requires NonZeroTimes(h) && Constant(h, c) && c.Sustained()
    requires s < e < |h| && (forall k: nat :: s <= k < e ==> h[k].holds && !Fires(h, k))
    requires s == 0 || !h[s - 1].holds || Fires(h, s - 1) || OrderedTimes(h)
    ensures StateBefore(h, e).sustainStartTime != 0
    ensures StateBefore(h, e).sustainStartTime <= h[s].at
  {
    var f := Firings(h);
    var a := AnchorOf(h, f, s, e);
    TimerIsAnchorTime(h, f, e);
    if a < s {
      assert h[s - 1].holds && !f[s - 1];
    }
  }

  /** Boundedness: on ordered times, n sustained firings take at least n durations. */
  lemma {:induction false} SustainIsBounded(h: History, n: nat, duration: nat)
    requires OrderedTimes(h) && NonZeroTimes(h) && 0 < n <= |h|
    requires forall i :: 0 <= i < |h| ==>
                           h[i].config.Sustained() && h[i].config.sustain.value >= duration
    ensures |FiringTimes(h, n)| * duration <= h[n - 1].at - h[0].at
  {
    SustainAccounts(h, n, duration);
    FiringTimesAreTimes(h, n, h[0].at, h[n - 1].at);
  }

  /** Each firing closes a stretch that began no earlier than the firing before it. */
  lemma {:induction false} SustainAccounts(h: History, n: nat, duration: nat)
    requires OrderedTimes(h) && NonZeroTimes(h) && 0 < n <= |h|
    requires forall i :: 0 <= i < |h| ==>
                           h[i].config.Sustained() && h[i].config.sustain.value >= duration
    ensures var st, ts := StateBefore(h, n), FiringTimes(h, n);
            && (st.sustainStartTime != 0 ==>
                  h[0].at <= st.sustainStartTime && (ts != [] ==> ts[|ts| - 1] <= st.sustainStartTime))
            && (ts != [] ==> |ts| * duration <= ts[|ts| - 1] - h[0].at && ts[|ts| - 1] <= h[n - 1].at)
  {
    if n == 1 {
      assert StateBefore(h, 0) == INITIAL;
      assert FiringTimes(h, 0) == [];
    } else {
      SustainAccounts(h, n - 1, duration);
      var us := FiringTimes(h, n - 1);
      assert h[0].at <= h[n - 2].at <= h[n - 1].at;
      if Fires(h, n - 1) {
        assert FiringTimes(h, n) == us + [h[n - 1].at];
        assert (|us| + 1) * duration == |us| * duration + duration;
      }
    }
  }

  // ---------------------------------------------------------------------------------------------
  // Machine integers
  // ---------------------------------------------------------------------------------------------

  const INT64_MAX := 0x7fff_ffff_ffff_ffff

  /** With positive 64-bit times the fields stay non-negative 64-bit values, so neither of the two
      subtractions of an evaluation can wrap around. */
  lemma {:induction false} DifferencesFitInt64(h: History, i: nat)
    requires PositiveTimes(h) && i <= |h| && forall k :: 0 <= k < |h| ==> h[k].at <= INT64_MAX
    ensures var st := StateBefore(h, i);
            && 0 <= st.sustainStartTime <= INT64_MAX && 0 <= st.lastTriggeredAt <= INT64_MAX
            && (i < |h| ==> && -INT64_MAX <= h[i].at - st.sustainStartTime <= INT64_MAX
                            && -INT64_MAX <= h[i].at - st.lastTriggeredAt <= INT64_MAX)
  {
    if i > 0 {
      DifferencesFitInt64(h, i - 1);
    }
  }
}
