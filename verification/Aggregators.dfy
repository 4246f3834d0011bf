/** The registry of aggregators: one per camera, ROI and metric, shared by the rules that ask for it and
    counted, so that it goes when the last of them does. */
module Aggregators {
  import opened Common
  import opened Payloads

  datatype FactKey = FactKey(cameraId: string, roiId: string, metricName: string)

  datatype Definition = Definition(metricName: string, cameraId: string, roiId: string, source: string,
                                   duration: int, aggregation: string, groupBy: string)

  datatype Books = Books(aggregators: map<FactKey, Definition>, refCount: map<FactKey, int>) {
    function Count(key: FactKey): int {
      Lookup(refCount, key).GetOr(0)
    }
  }

  const NO_BOOKS := Books(map[], map[])

  /** Durations are parsed by the caller's library; an unreadable one is whatever it returns. */
  type Durations = string -> int

  function KeyOf(dep: Dependency): FactKey
    requires dep.window.Some?
  {
    FactKey(dep.cameraId, dep.roiId, dep.window.value.aggregation)
  }

  function DefinitionOf(dep: Dependency, durations: Durations): Definition
    requires dep.window.Some?
  {
    var w := dep.window.value;
    Definition(w.aggregation, dep.cameraId, dep.roiId, dep.source, durations(w.duration), w.aggregation, w.groupBy)
  }

  function Entered(books: Books, dep: Dependency, durations: Durations): Books {
    if dep.window.None? then books
    else
      var key := KeyOf(dep);
      Books(if key in books.aggregators then books.aggregators
            else books.aggregators[key := DefinitionOf(dep, durations)],
            books.refCount[key := books.Count(key) + 1])
  }

  function Released(books: Books, dep: Dependency): Books {
    if dep.window.None? then books
    else
      var key := KeyOf(dep);
      if books.Count(key) - 1 <= 0 then Books(books.aggregators - {key}, books.refCount - {key})
      else books.(refCount := books.refCount[key := books.Count(key) - 1])
  }

  function Registered(books: Books, deps: seq<Dependency>, durations: Durations): Books {
    if deps == [] then books
    else Entered(Registered(books, deps[..|deps| - 1], durations), deps[|deps| - 1], durations)
  }

  function Unregistered(books: Books, deps: seq<Dependency>): Books {
    if deps == [] then books else Released(Unregistered(books, deps[..|deps| - 1]), deps[|deps| - 1])
  }

  class Registry {
    var aggregators: map<FactKey, Definition>
    var refCount: map<FactKey, int>
    const durations: Durations

    ghost function Value(): Books
      reads this
    {
      Books(aggregators, refCount)
    }

    constructor (durations: Durations)
      ensures Value() == NO_BOOKS && this.durations == durations
    {
      aggregators, refCount := map[], map[];
      this.durations := durations;
    }

    method Register(deps: seq<Dependency>)
      modifies this
      ensures Value() == Registered(old(Value()), deps, durations)
    {
      for n := 0 to |deps|
        invariant Value() == Registered(old(Value()), deps[..n], durations)
      {
        var dep := deps[n];
        assert deps[..n + 1][..n] == deps[..n];
        if dep.window.None? {
          continue;
        }
        var w := dep.window.value;
        var key := FactKey(dep.cameraId, dep.roiId, w.aggregation);
        if key !in aggregators {
          aggregators := aggregators[key := Definition(w.aggregation, dep.cameraId, dep.roiId, dep.source,
                                                       durations(w.duration), w.aggregation, w.groupBy)];
        }
        refCount := refCount[key := if key in refCount then refCount[key] + 1 else 1];
      }
      assert deps[..|deps|] == deps;
    }

    method Unregister(deps: seq<Dependency>)
      modifies this
      ensures Value() == Unregistered(old(Value()), deps)
    {
      for n := 0 to |deps|
        invariant Value() == Unregistered(old(Value()), deps[..n])
      {
        var dep := deps[n];
        assert deps[..n + 1][..n] == deps[..n];
        if dep.window.None? {
          continue;
        }
        var key := FactKey(dep.cameraId, dep.roiId, dep.window.value.aggregation);
        var count := if key in refCount then refCount[key] - 1 else -1;
        if count <= 0 {
          refCount := refCount - {key};
          aggregators := aggregators - {key};
        } else {
          refCount := refCount[key := count];
        }
      }
      assert deps[..|deps|] == deps;
    }
  }

  // ---------------------------------------------------------------------------------------------
  // Reference counting
  // ---------------------------------------------------------------------------------------------

  /** The keys a dependency list asks for, as often as it asks. */
  function Keys(deps: seq<Dependency>): multiset<FactKey> {
    if deps == [] then multiset{}
    else
      var dep := deps[|deps| - 1];
      var before := Keys(deps[..|deps| - 1]);
      if dep.window.Some? then before + multiset{FactKey(dep.cameraId, dep.roiId, dep.window.value.aggregation)}
      else before
  }

  /** There is an aggregator exactly where there is a count, and counts are positive. */
  ghost predicate Balanced(books: Books) {
    && books.aggregators.Keys == books.refCount.Keys
    && forall key :: key in books.refCount ==> books.refCount[key] > 0
  }

  lemma {:induction false} RegisterCounts(books: Books, deps: seq<Dependency>, durations: Durations, key: FactKey)
    requires Balanced(books)
    ensures var r := Registered(books, deps, durations);
            && Balanced(r)
            && r.Count(key) == books.Count(key) + Keys(deps)[key]
            && (key in books.aggregators ==> key in r.aggregators && r.aggregators[key] == books.aggregators[key])
  {
    if deps != [] {
      RegisterCounts(books, deps[..|deps| - 1], durations, key);
    }
  }

  lemma {:induction false} UnregisterCounts(books: Books, deps: seq<Dependency>, key: FactKey)
    requires Balanced(books)
    ensures var r := Unregistered(books, deps);
            && Balanced(r)
            && r.Count(key) == Max(0, books.Count(key) - Keys(deps)[key])
            && (key in r.aggregators ==> key in books.aggregators && r.aggregators[key] == books.aggregators[key])
  {
    if deps != [] {
      UnregisterCounts(books, deps[..|deps| - 1], key);
    }
  }

  /** Registering a dependency list and unregistering it restores the registry, definitions included. */
  lemma RegisterThenUnregister(books: Books, deps: seq<Dependency>, durations: Durations)
    requires Balanced(books)
    ensures Unregistered(Registered(books, deps, durations), deps) == books
  {
    var during := Registered(books, deps, durations);
    var after := Unregistered(during, deps);
    forall key
      ensures Lookup(after.refCount, key) == Lookup(books.refCount, key)
      ensures Lookup(after.aggregators, key) == Lookup(books.aggregators, key)
    {
      RegisterCounts(books, deps, durations, key);
      UnregisterCounts(during, deps, key);
    }
    SameLookups(after.refCount, books.refCount);
    SameLookups(after.aggregators, books.aggregators);
  }

  lemma SameLookups<K(!new), V>(m: map<K, V>, n: map<K, V>)
    requires forall k :: Lookup(m, k) == Lookup(n, k)
    ensures m == n
  {
    assert forall k :: k in m ==> Lookup(m, k).Some?;
    assert forall k :: k in n ==> Lookup(n, k).Some?;
    assert m.Keys == n.Keys;
  }

  datatype Op = Enter(ruleId: string, deps: seq<Dependency>) | Leave(ruleId: string, deps: seq<Dependency>)

  function After(ops: seq<Op>, durations: Durations): Books {
    if ops == [] then NO_BOOKS
    else
      var before := After(ops[..|ops| - 1], durations);
      match ops[|ops| - 1]
      case Enter(_, deps) => Registered(before, deps, durations)
      case Leave(_, deps) => Unregistered(before, deps)
  }

  /** What is asked for and not yet given back. Giving back what nobody asked for is ignored. */
  function Outstanding(ops: seq<Op>): multiset<FactKey> {
    if ops == [] then multiset{}
    else
      var before := Outstanding(ops[..|ops| - 1]);
      match ops[|ops| - 1]
      case Enter(_, deps) => before + Keys(deps)
      case Leave(_, deps) => before - Keys(deps)
  }

  /** Over any run each key's count is its multiplicity among the outstanding dependencies, and its
      aggregator exists exactly while that is positive. */
  lemma {:induction false} CountIsMultiplicity(ops: seq<Op>, durations: Durations, key: FactKey)
    ensures var books := After(ops, durations);
            && Balanced(books)
            && books.Count(key) == Outstanding(ops)[key]
            && (key in books.aggregators <==> key in Outstanding(ops))
  {
    if ops != [] {
      var past := ops[..|ops| - 1];
      CountIsMultiplicity(past, durations, key);
      RegisterCounts(After(past, durations), ops[|ops| - 1].deps, durations, key);
      UnregisterCounts(After(past, durations), ops[|ops| - 1].deps, key);
    }
  }

  function Asked(ops: seq<Op>): multiset<FactKey> {
    if ops == [] then multiset{}
    else
      var before := Asked(ops[..|ops| - 1]);
      if ops[|ops| - 1].Enter? then before + Keys(ops[|ops| - 1].deps) else before
  }

  function GivenBack(ops: seq<Op>): multiset<FactKey> {
    if ops == [] then multiset{}
    else
      var before := GivenBack(ops[..|ops| - 1]);
      if ops[|ops| - 1].Leave? then before + Keys(ops[|ops| - 1].deps) else before
  }

  predicate Covered(ops: seq<Op>, key: FactKey) {
    GivenBack(ops)[key] <= Asked(ops)[key]
  }

  /** At no point has more been given back than was asked for. */
  ghost predicate Honest(ops: seq<Op>, key: FactKey) {
    forall n :: 0 <= n <= |ops| ==> Covered(ops[..n], key)
  }

  /** A key's count is the plain difference between what was asked for and what was given back exactly
      when the run never gives back more than was asked for; otherwise it is too high. */
  lemma {:induction false} CountIsDifferenceIff(ops: seq<Op>, key: FactKey)
    ensures Outstanding(ops)[key] + GivenBack(ops)[key] >= Asked(ops)[key]
    ensures Outstanding(ops)[key] + GivenBack(ops)[key] == Asked(ops)[key] <==> Honest(ops, key)
  {
    if ops == [] {
      assert forall n :: 0 <= n <= |ops| ==> ops[..n] == ops;
    } else {
      CountIsDifferenceIff(ops[..|ops| - 1], key);
      HonestStep(ops, ops[..|ops| - 1], key);
    }
  }

  lemma HonestStep(ops: seq<Op>, past: seq<Op>, key: FactKey)
    requires ops != [] && past == ops[..|ops| - 1]
    ensures Honest(ops, key) <==> Honest(past, key) && Covered(ops, key)
  {
    assert ops[..|ops|] == ops;
    forall n | 0 <= n <= |past|
      ensures Covered(ops[..n], key) == Covered(past[..n], key)
    {
      assert past[..n] == ops[..n];
    }
  }

  // ---------------------------------------------------------------------------------------------
  // Definitions
  // ---------------------------------------------------------------------------------------------

  /** The dependency asks for this key: a metric of its window's aggregation, at its camera and ROI. */
  predicate AsksFor(dep: Dependency, key: FactKey) {
    && dep.window.Some? && key.metricName == dep.window.value.aggregation
    && key.cameraId == dep.cameraId && key.roiId == dep.roiId
  }

  /** The definition is the one that the dependency asks for. */
  predicate Defines(dep: Dependency, durations: Durations, d: Definition) {
    && dep.window.Some?
    && d.metricName == d.aggregation == dep.window.value.aggregation && d.groupBy == dep.window.value.groupBy
    && d.cameraId == dep.cameraId && d.roiId == dep.roiId && d.source == dep.source
    && d.duration == durations(dep.window.value.duration)
  }

  /** A list defines an aggregator that was not there by the first dependency that asks for it. */
  lemma {:induction false} FirstAskerDefines(books: Books, deps: seq<Dependency>, durations: Durations, i: nat,
                                             key: FactKey)
    requires i < |deps| && AsksFor(deps[i], key) && forall j :: 0 <= j < i ==> !AsksFor(deps[j], key)
    requires key !in books.aggregators
    ensures var aggregators := Registered(books, deps, durations).aggregators;
            key in aggregators && Defines(deps[i], durations, aggregators[key])
    decreases |deps|
  {
    var past := deps[..|deps| - 1];
    if i < |past| {
      FirstAskerDefines(books, past, durations, i, key);
    } else {
      NobodyAsks(books, past, durations, key);
    }
  }

  lemma {:induction false} NobodyAsks(books: Books, deps: seq<Dependency>, durations: Durations, key: FactKey)
    requires forall j :: 0 <= j < |deps| ==> !AsksFor(deps[j], key)
    ensures Lookup(Registered(books, deps, durations).aggregators, key) == Lookup(books.aggregators, key)
    ensures Registered(books, deps, durations).Count(key) == books.Count(key)
  {
    if deps != [] {
      NobodyAsks(books, deps[..|deps| - 1], durations, key);
    }
  }

  /** The definition of an aggregator was asked for, in some registration of the run, by a dependency of
      this very key. */
  ghost predicate AskedFor(ops: seq<Op>, durations: Durations, key: FactKey, d: Definition) {
    exists k, i :: && 0 <= k < |ops| && ops[k].Enter? && 0 <= i < |ops[k].deps|
                   && AsksFor(ops[k].deps[i], key) && Defines(ops[k].deps[i], durations, d)
  }

  lemma {:induction false} EnteredIsDefined(books: Books, deps: seq<Dependency>, durations: Durations, key: FactKey)
    requires key in Registered(books, deps, durations).aggregators && key !in books.aggregators
    ensures exists i :: 0 <= i < |deps| && AsksFor(deps[i], key)
                        && Defines(deps[i], durations, Registered(books, deps, durations).aggregators[key])
  {
    var i := 0;
    while i < |deps| && !AsksFor(deps[i], key)
      invariant i <= |deps| && forall j :: 0 <= j < i ==> !AsksFor(deps[j], key)
    {
      i := i + 1;
    }
    if i == |deps| {
      NobodyAsks(books, deps, durations, key);
      assert false;
    }
    FirstAskerDefines(books, deps, durations, i, key);
  }

  lemma AskedForStays(ops: seq<Op>, op: Op, durations: Durations, key: FactKey, d: Definition)
    requires AskedFor(ops, durations, key, d)
    ensures AskedFor(ops + [op], durations, key, d)
  {
    var k, i :| && 0 <= k < |ops| && ops[k].Enter? && 0 <= i < |ops[k].deps|
                && AsksFor(ops[k].deps[i], key) && Defines(ops[k].deps[i], durations, d);
    assert (ops + [op])[k] == ops[k];
  }

  /** Over any run, every aggregator there is was defined by a registration of a dependency of its key. */
  lemma {:induction false} DefinitionIsAskedFor(ops: seq<Op>, durations: Durations, key: FactKey)
    requires key in After(ops, durations).aggregators
    ensures AskedFor(ops, durations, key, After(ops, durations).aggregators[key])
  {
    if ops != [] {
      var past, op := ops[..|ops| - 1], ops[|ops| - 1];
      var before := After(past, durations);
      assert ops == past + [op];
      CountIsMultiplicity(past, durations, key);
      RegisterCounts(before, op.deps, durations, key);
      UnregisterCounts(before, op.deps, key);
      if key in before.aggregators {
        DefinitionIsAskedFor(past, durations, key);
        AskedForStays(past, op, durations, key, before.aggregators[key]);
      } else {
        EnteredIsDefined(before, op.deps, durations, key);
        assert ops[|ops| - 1] == op;
      }
    }
  }
}
