/** The freshness cache: the last state observed for each camera and region. */
module Observations {
  import opened Common
  import opened Payloads

  const NANOS := 1_000_000_000

  datatype Freshness = Fresh | Stale | Missing

  /** `receivedAt` is in whole seconds, `ttl` in nanoseconds. */
  datatype Observation = Observation(cameraId: string, roiId: string, emittedAt: int, receivedAt: int,
                                     region: Region, ttl: int)
  {
    /** `now` is in nanoseconds. */
    predicate IsStale(now: int) {
      now - receivedAt * NANOS > ttl
    }
  }

  type Cache = map<string, Observation>

  function Key(cameraId: string, roiId: string): string {
    cameraId + ":" + roiId
  }

  /** The observation made of a region received at `now`; the clock is truncated to seconds. */
  function Observed(cameraId: string, region: Region, emittedAt: int, ttl: int, now: int): Observation {
    Observation(cameraId, region.roiId, emittedAt, now / NANOS, region, ttl)
  }

  function Updated(cache: Cache, cameraId: string, region: Region, emittedAt: int, ttl: int, now: int): Cache {
    cache[Key(cameraId, region.roiId) := Observed(cameraId, region, emittedAt, ttl, now)]
  }

  function Cleaned(cache: Cache, now: int): Cache {
    map k | k in cache && !cache[k].IsStale(now) :: cache[k]
  }

  function Get(cache: Cache, cameraId: string, roiId: string, now: int): (Option<Observation>, Freshness) {
    var k := Key(cameraId, roiId);
    if k !in cache then (None, Missing)
    else (Some(cache[k]), if cache[k].IsStale(now) then Stale else Fresh)
  }

  class Store {
    var observations: Cache
    const defaultTTL: int

    constructor (defaultTTL: int)
      ensures observations == map[] && this.defaultTTL == defaultTTL
    {
      observations := map[];
      this.defaultTTL := defaultTTL;
    }

    method Update(cameraId: string, region: Region, emittedAt: int, now: int)
      modifies this
      ensures observations == Updated(old(observations), cameraId, region, emittedAt, defaultTTL, now)
    {
      var k := Key(cameraId, region.roiId);
      observations := observations[k := Observation(cameraId, region.roiId, emittedAt, now / NANOS,
                                                    region, defaultTTL)];
    }

    method Read(cameraId: string, roiId: string, now: int) returns (obs: Option<Observation>, freshness: Freshness)
      ensures (obs, freshness) == Get(observations, cameraId, roiId, now)
    {
      var k := Key(cameraId, roiId);
      if k !in observations {
        return None, Missing;
      }
      if observations[k].IsStale(now) {
        return Some(observations[k]), Stale;
      }
      return Some(observations[k]), Fresh;
    }

    method Cleanup(now: int)
      modifies this
      ensures observations == Cleaned(old(observations), now)
    {
      ghost var was := observations;
      var todo := observations.Keys;
      while todo != {}
        invariant todo <= observations.Keys <= was.Keys
        invariant forall k :: k in observations ==> observations[k] == was[k]
        invariant forall k :: k in observations && k !in todo ==> !was[k].IsStale(now)
        invariant forall k :: k in was && k !in observations ==> was[k].IsStale(now)
        decreases todo
      {
        var k :| k in todo;
        todo := todo - {k};
        if observations[k].IsStale(now) {
          observations := observations - {k};
        }
      }
    }
  }

  // ---------------------------------------------------------------------------------------------
  // Keys
  // ---------------------------------------------------------------------------------------------

  ghost predicate KeysSeparate(cameras: iset<string>) {
    forall c, r, d, s :: c in cameras && d in cameras && Key(c, r) == Key(d, s) ==> c == d && r == s
  }

  /** No camera id continues another one after a colon. */
  ghost predicate NoColonExtension(cameras: iset<string>) {
    forall c, d :: c in cameras && d in cameras ==> !(c + ":" <= d)
  }

  /** Exactly when two streams never share a cache entry. */
  lemma KeysSeparateIff(cameras: iset<string>)
    ensures KeysSeparate(cameras) <==> NoColonExtension(cameras)
  {
    if c, d :| c in cameras && d in cameras && c + ":" <= d {
      Collision(c, d);
    }
    if NoColonExtension(cameras) {
      forall c, r, d, s | c in cameras && d in cameras && Key(c, r) == Key(d, s)
        ensures c == d && r == s
      {
        if |c| <= |d| {
          KeyPrefix(c, r, d, s);
        } else {
          KeyPrefix(d, s, c, r);
        }
      }
    }
  }

  /** A camera id that continues another one after a colon shares a cache entry with it. */
  lemma Collision(c: string, d: string)
    requires c + ":" <= d
    ensures c != d && exists r :: Key(c, r) == Key(d, "")
  {
    var rest := d[|c| + 1..] + ":";
    assert Key(c, rest) == Key(d, "");
  }

  lemma KeyPrefix(c: string, r: string, d: string, s: string)
    requires Key(c, r) == Key(d, s) && |c| <= |d|
    ensures c + ":" <= d || (c == d && r == s)
  {
    var k := Key(c, r);
    assert k[..|c| + 1] == c + ":";
    if |c| < |d| {
      assert k[..|c| + 1] == d[..|c| + 1];
    } else {
      assert k[..|c|] == c && k[..|d|] == d;
      assert k[|c| + 1..] == r && k[|d| + 1..] == s;
    }
  }

  // ---------------------------------------------------------------------------------------------
  // What the cache answers, in terms of the updates it was given
  // ---------------------------------------------------------------------------------------------

  datatype Op =
    | Refresh(cameraId: string, region: Region, emittedAt: int, now: int)
    | Sweep(now: int)

  function Apply(cache: Cache, op: Op, ttl: int): Cache {
    match op
    case Refresh(cameraId, region, emittedAt, now) => Updated(cache, cameraId, region, emittedAt, ttl, now)
    case Sweep(now) => Cleaned(cache, now)
  }

  function After(ops: seq<Op>, ttl: int): Cache {
    if ops == [] then map[] else Apply(After(ops[..|ops| - 1], ttl), ops[|ops| - 1], ttl)
  }

  /** The last observation of one stream, forgetting nothing. */
  function LastUpdate(ops: seq<Op>, cameraId: string, roiId: string, ttl: int): Option<Observation> {
    if ops == [] then None
    else
      var op := ops[|ops| - 1];
      if op.Refresh? && op.cameraId == cameraId && op.region.roiId == roiId then
        Some(Observed(cameraId, op.region, op.emittedAt, ttl, op.now))
      else LastUpdate(ops[..|ops| - 1], cameraId, roiId, ttl)
  }

  ghost predicate Monotone(ops: seq<Op>, now: int) {
    && (forall i, j :: 0 <= i <= j < |ops| ==> ops[i].now <= ops[j].now)
    && (forall i :: 0 <= i < |ops| ==> ops[i].now <= now)
  }

  ghost predicate CamerasIn(ops: seq<Op>, cameras: iset<string>) {
    forall i :: 0 <= i < |ops| && ops[i].Refresh? ==> ops[i].cameraId in cameras
  }

  /** Under a monotone clock and with separate keys, a stream reads as fresh exactly when its last
      update is fresh, and then it reads that update, wherever clean-ups ran in between. */
  lemma FreshIsLastUpdate(ops: seq<Op>, cameras: iset<string>, cameraId: string, roiId: string,
                          ttl: int, now: int)
    requires NoColonExtension(cameras) && CamerasIn(ops, cameras) && cameraId in cameras
    requires Monotone(ops, now)
    ensures var (obs, freshness) := Get(After(ops, ttl), cameraId, roiId, now);
            var last := LastUpdate(ops, cameraId, roiId, ttl);
            && (freshness == Fresh <==> last.Some? && !last.value.IsStale(now))
            && (freshness == Fresh ==> obs == last)
  {
    KeysSeparateIff(cameras);
    EntryIsLastUpdate(ops, cameras, cameraId, roiId, ttl, now);
  }

  lemma {:induction false} EntryIsLastUpdate(ops: seq<Op>, cameras: iset<string>, cameraId: string,
                                             roiId: string, ttl: int, now: int)
    requires KeysSeparate(cameras) && CamerasIn(ops, cameras) && cameraId in cameras
    requires Monotone(ops, now)
    ensures var entry := Lookup(After(ops, ttl), Key(cameraId, roiId));
            var last := LastUpdate(ops, cameraId, roiId, ttl);
            entry == last || (entry.None? && last.value.IsStale(now))
  {
    if ops != [] {
      var past, op := ops[..|ops| - 1], ops[|ops| - 1];
      EntryIsLastUpdate(past, cameras, cameraId, roiId, ttl, op.now);
    }
  }
}
