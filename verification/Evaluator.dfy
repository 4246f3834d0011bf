/** The environment a rule's expression runs in, and whether its dependencies are all fresh. */
module Evaluation {
  import opened Common
  import opened Payloads
  import opened Observations

  datatype Value =
    | Nil
    | Number(n: int)
    | Real(r: real)
    | Tracked(entities: seq<Entity>)
    | Table(fields: map<string, Value>)

  type Env = map<string, Value>

  datatype Verdict = True | False | Failed

  /** Stands for the compiled form of an expression, which this model does not look into. */
  datatype Program = Program(expression: string)

  /** The expression library: which expressions compile, and what a program answers in an environment. */
  datatype Language = Language(compile: string -> Option<Program>, run: (Program, Env) -> Verdict)

  const ROOT_KEYS: set<string> := {"occupancy", "staffCount", "dwell", "entities"}

  function ToEnv(region: Region): (env: Env)
    ensures env.Keys == ROOT_KEYS
  {
    map[
      "occupancy" := Table(map["person" := Number(region.occupancy.person),
                               "vehicle" := Number(region.occupancy.vehicle),
                               "total" := Number(region.occupancy.total)]),
      "staffCount" := Number(region.staffCount),
      "dwell" := Table(map k | k in region.dwell :: Table(map["avg" := Real(region.dwell[k].avg),
                                                              "min" := Real(region.dwell[k].min),
                                                              "max" := Real(region.dwell[k].max)])),
      "entities" := Tracked(region.entities)
    ]
  }

  /** `env` with one dependency bound; the alias "default" also spreads its fields to the root. */
  function Bind(env: Env, alias: string, obs: Option<Observation>): Env {
    if obs.None? then env[alias := Nil]
    else
      var bound := env[alias := Table(ToEnv(obs.value.region))];
      if alias == "default" then bound + ToEnv(obs.value.region) else bound
  }

  function Context(deps: seq<Dependency>, cache: Cache, now: int): (Env, bool) {
    if deps == [] then (map[], true)
    else
      var (env, allFresh) := Context(deps[..|deps| - 1], cache, now);
      var dep := deps[|deps| - 1];
      var (obs, freshness) := Get(cache, dep.cameraId, dep.roiId, now);
      (Bind(env, dep.alias, obs), allFresh && freshness == Fresh)
  }

  method BuildRuleContext(deps: seq<Dependency>, store: Store, now: int) returns (env: Env, allFresh: bool)
    ensures (env, allFresh) == Context(deps, store.observations, now)
  {
    env, allFresh := map[], true;
    for i := 0 to |deps|
      invariant (env, allFresh) == Context(deps[..i], store.observations, now)
    {
      assert deps[..i + 1][..i] == deps[..i];
      var dep := deps[i];
      var obs, freshness := store.Read(dep.cameraId, dep.roiId, now);
      if freshness == Missing {
        env := env[dep.alias := Nil];
        allFresh := false;
      } else {
        if freshness == Stale {
          allFresh := false;
        }
        var obsEnv := ToEnv(obs.value.region);
        env := env[dep.alias := Table(obsEnv)];
        if dep.alias == "default" {
          env := env + obsEnv;
        }
      }
    }
    assert deps[..|deps|] == deps;
  }

  /** The verdict on freshness is the conjunction over all dependencies: Stale and Missing alike
      refuse. */
  lemma {:induction false} AllFreshIff(deps: seq<Dependency>, cache: Cache, now: int)
    ensures Context(deps, cache, now).1 <==>
            forall d :: d in deps ==> Get(cache, d.cameraId, d.roiId, now).1 == Fresh
  {
    if deps != [] {
      AllFreshIff(deps[..|deps| - 1], cache, now);
      assert deps == deps[..|deps| - 1] + [deps[|deps| - 1]];
    }
  }

  // ---------------------------------------------------------------------------------------------
  // What an expression reads under each name
  // ---------------------------------------------------------------------------------------------

  /** What `v.name` reads. */
  function Field(v: Option<Value>, name: string): Option<Value> {
    if v.Some? && v.value.Table? then Lookup(v.value.fields, name) else None
  }

  /** `v` reads as the dwell statistics `d`, if there are any. */
  predicate ReadsDwell(v: Option<Value>, d: Option<Dwell>) {
    if d.None? then v.None?
    else
      && Field(v, "avg") == Some(Real(d.value.avg))
      && Field(v, "min") == Some(Real(d.value.min))
      && Field(v, "max") == Some(Real(d.value.max))
  }

  /** `v` reads as what the region says under the field `name`. */
  ghost predicate ReadsField(v: Option<Value>, name: string, region: Region) {
    && (name == "occupancy" ==>
          && Field(v, "person") == Some(Number(region.occupancy.person))
          && Field(v, "vehicle") == Some(Number(region.occupancy.vehicle))
          && Field(v, "total") == Some(Number(region.occupancy.total)))
    && (name == "staffCount" ==> v == Some(Number(region.staffCount)))
    && (name == "dwell" ==> forall k :: ReadsDwell(Field(v, k), Lookup(region.dwell, k)))
    && (name == "entities" ==> v == Some(Tracked(region.entities)))
  }

  /** `v` reads as the whole region. */
  ghost predicate ReadsRegion(v: Option<Value>, region: Region) {
    forall name :: if name in ROOT_KEYS then ReadsField(Field(v, name), name, region) else Field(v, name).None?
  }

  lemma EnvReadsRegion(region: Region)
    ensures ReadsRegion(Some(Table(ToEnv(region))), region)
    ensures forall name :: name in ROOT_KEYS ==> ReadsField(Lookup(ToEnv(region), name), name, region)
  {
  }

  /** The dependency gives a value to `name`: by its alias, or by spreading its fields to the root. */
  predicate Gives(d: Dependency, obs: Option<Observation>, name: string) {
    d.alias == name || (d.alias == "default" && obs.Some? && name in ROOT_KEYS)
  }

  function Seen(d: Dependency, cache: Cache, now: int): Option<Observation> {
    Get(cache, d.cameraId, d.roiId, now).0
  }

  /** Under a name an expression reads what the last dependency that gives a value to it observed: the
      region under the alias, one field of it under a root name, nil if there was no observation. */
  lemma {:induction false} NameReads(deps: seq<Dependency>, cache: Cache, now: int, i: nat, name: string)
    requires i < |deps| && Gives(deps[i], Seen(deps[i], cache, now), name)
    requires forall j :: i < j < |deps| ==> !Gives(deps[j], Seen(deps[j], cache, now), name)
    ensures var v, obs := Lookup(Context(deps, cache, now).0, name), Seen(deps[i], cache, now);
            if obs.None? then v == Some(Nil)
            else if deps[i].alias == name then ReadsRegion(v, obs.value.region)
            else ReadsField(v, name, obs.value.region)
    decreases |deps|
  {
    var obs := Seen(deps[|deps| - 1], cache, now);
    if i < |deps| - 1 {
      NameReads(deps[..|deps| - 1], cache, now, i, name);
    } else if obs.Some? {
      EnvReadsRegion(obs.value.region);
    }
  }

  /** And no other name is bound. */
  lemma {:induction false} NoOtherName(deps: seq<Dependency>, cache: Cache, now: int, name: string)
    requires forall d :: d in deps ==> !Gives(d, Seen(d, cache, now), name)
    ensures name !in Context(deps, cache, now).0
  {
    if deps != [] {
      NoOtherName(deps[..|deps| - 1], cache, now, name);
      assert deps[|deps| - 1] in deps;
    }
  }
}
