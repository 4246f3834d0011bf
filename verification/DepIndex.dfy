/** The inverted index from data streams to the rules that depend on them. */
module Dispatch {
  import opened Payloads

  datatype DepKey = DepKey(cameraId: string, roiId: string, source: string, eventKind: string)

  type Index = map<DepKey, set<string>>

  function KeyOf(dep: Dependency): DepKey {
    DepKey(dep.cameraId, dep.roiId, dep.source, dep.eventKind)
  }

  function StateKey(cameraId: string, roiId: string): DepKey {
    DepKey(cameraId, roiId, SOURCE_STATE, "")
  }

  function EventKey(cameraId: string, eventKind: string): DepKey {
    DepKey(cameraId, "", SOURCE_EVENT, eventKind)
  }

  /** The rules indexed under `k`. */
  function At(index: Index, k: DepKey): set<string> {
    if k in index then index[k] else {}
  }

  function Registered(index: Index, ruleId: string, deps: seq<Dependency>): Index {
    if deps == [] then index
    else
      var rest, k := Registered(index, ruleId, deps[..|deps| - 1]), KeyOf(deps[|deps| - 1]);
      rest[k := At(rest, k) + {ruleId}]
  }

  function Unregistered(index: Index, ruleId: string): Index {
    map k | k in index && index[k] - {ruleId} != {} :: index[k] - {ruleId}
  }

  function EventRules(index: Index, cameraId: string, eventKind: string): set<string> {
    At(index, EventKey(cameraId, eventKind)) + At(index, EventKey(cameraId, ""))
    + At(index, EventKey(cameraId, "*"))
  }

  class DepIndex {
    var index: Index

    constructor ()
      ensures index == map[]
    {
      index := map[];
    }

    method Register(ruleId: string, deps: seq<Dependency>)
      modifies this
      ensures index == Registered(old(index), ruleId, deps)
    {
      for i := 0 to |deps|
        invariant index == Registered(old(index), ruleId, deps[..i])
      {
        assert deps[..i + 1][..i] == deps[..i];
        var key := KeyOf(deps[i]);
        if key !in index {
          index := index[key := {}];
        }
        index := index[key := index[key] + {ruleId}];
      }
      assert deps[..|deps|] == deps;
    }

    method Unregister(ruleId: string)
      modifies this
      ensures index == Unregistered(old(index), ruleId)
    {
      ghost var was := index;
      var todo := index.Keys;
      while todo != {}
        invariant todo <= was.Keys
        invariant forall k :: k in index <==> k in was && (k in todo || was[k] - {ruleId} != {})
        invariant forall k :: k in index ==> index[k] == if k in todo then was[k] else was[k] - {ruleId}
        decreases todo
      {
        var key :| key in todo;
        todo := todo - {key};
        var rest := index[key] - {ruleId};
        if rest == {} {
          index := index - {key};
        } else {
          index := index[key := rest];
        }
      }
    }

    method Find(key: DepKey) returns (ruleIds: set<string>)
      ensures ruleIds == At(index, key)
    {
      ruleIds := {};
      if key in index {
        ruleIds := index[key];
      }
    }

    method LookupState(cameraId: string, roiId: string) returns (ruleIds: set<string>)
      ensures ruleIds == At(index, StateKey(cameraId, roiId))
    {
      ruleIds := Find(DepKey(cameraId, roiId, SOURCE_STATE, ""));
    }

    /** Rules for this kind of event, for the empty kind and for "*", at the empty region only. */
    method LookupEvent(cameraId: string, eventKind: string) returns (ruleIds: set<string>)
      ensures ruleIds == EventRules(index, cameraId, eventKind)
    {
      ruleIds := {};
      var keys := [DepKey(cameraId, "", SOURCE_EVENT, eventKind), DepKey(cameraId, "", SOURCE_EVENT, "")];
      if eventKind != "*" {
        keys := keys + [DepKey(cameraId, "", SOURCE_EVENT, "*")];
      }
      for i := 0 to |keys|
        invariant forall id :: id in ruleIds <==> exists j :: 0 <= j < i && id in At(index, keys[j])
      {
        if keys[i] in index {
          ruleIds := ruleIds + index[keys[i]];
        }
      }
      assert EventKey(cameraId, eventKind) == keys[0] && EventKey(cameraId, "") == keys[1];
      assert EventKey(cameraId, "*") == keys[if eventKind == "*" then 0 else 2];
    }
  }

  // ---------------------------------------------------------------------------------------------
  // What registration and removal mean
  // ---------------------------------------------------------------------------------------------

  /** The keys a rule is indexed under. */
  ghost function KeysOf(index: Index, ruleId: string): set<DepKey> {
    set k | k in index && ruleId in index[k]
  }

  ghost function DepKeys(deps: seq<Dependency>): set<DepKey> {
    set d | d in deps :: KeyOf(d)
  }

  ghost predicate NoEmptyBuckets(index: Index) {
    forall k :: k in index ==> index[k] != {}
  }

  /** Registering adds the rule's dependency keys to what it had, and touches no other rule. */
  lemma {:induction false} RegisterAddsKeys(index: Index, ruleId: string, deps: seq<Dependency>, other: string)
    ensures KeysOf(Registered(index, ruleId, deps), other) ==
            KeysOf(index, other) + if other == ruleId then DepKeys(deps) else {}
    ensures NoEmptyBuckets(index) ==> NoEmptyBuckets(Registered(index, ruleId, deps))
  {
    if deps != [] {
      var past, d := deps[..|deps| - 1], deps[|deps| - 1];
      RegisterAddsKeys(index, ruleId, past, other);
      assert deps == past + [d];
      assert DepKeys(deps) == DepKeys(past) + {KeyOf(d)};
      RegisterOne(Registered(index, ruleId, past), ruleId, KeyOf(d), other);
    }
  }

  lemma RegisterOne(index: Index, ruleId: string, k: DepKey, other: string)
    ensures KeysOf(index[k := At(index, k) + {ruleId}], other) ==
            KeysOf(index, other) + if other == ruleId then {k} else {}
  {
  }

  /** Removal leaves no key of the rule and every key of every other rule. */
  lemma UnregisterRemovesKeys(index: Index, ruleId: string, other: string)
    ensures KeysOf(Unregistered(index, ruleId), other) ==
            if other == ruleId then {} else KeysOf(index, other)
    ensures NoEmptyBuckets(Unregistered(index, ruleId))
  {
    if other != ruleId {
      forall k | k in index && other in index[k]
        ensures k in Unregistered(index, ruleId)
      {
        assert other in index[k] - {ruleId};
      }
    }
  }

  /** Registering a new rule and removing it restores the index. */
  lemma RegisterThenUnregister(index: Index, ruleId: string, deps: seq<Dependency>)
    requires NoEmptyBuckets(index) && KeysOf(index, ruleId) == {}
    ensures Unregistered(Registered(index, ruleId, deps), ruleId) == index
  {
    var there := Registered(index, ruleId, deps);
    var back := Unregistered(there, ruleId);
    RegisterAddsKeys(index, ruleId, deps, ruleId);
    forall k
      ensures At(back, k) == At(index, k)
    {
      forall other
        ensures other in At(back, k) <==> other in At(index, k)
      {
        RegisterAddsKeys(index, ruleId, deps, other);
        UnregisterRemovesKeys(there, ruleId, other);
        assert other in At(back, k) <==> k in KeysOf(back, other);
        assert other in At(index, k) <==> k in KeysOf(index, other);
      }
    }
    assert forall k :: k in index <==> At(index, k) != {};
    assert forall k :: k in back <==> At(back, k) != {};
    assert forall k :: k in index ==> At(back, k) == index[k];
  }
}
