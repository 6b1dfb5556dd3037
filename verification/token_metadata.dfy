/**
 * The shared token metadata cache. The three module-level maps change in segments that run without
 * interruption between two awaits; requests interleave at the awaits.
 */
module TokenMetadata {
  import opened Wrappers

  /** A normalised, non-empty category. */
  type Category = nat

  const FAILURE_TTL_MS: nat := 5000

  datatype Status = Ready | Failing

  datatype Freshness = Fresh | Cached | Offline | Unavailable

  datatype Snapshot = Snapshot(id: nat, lastFetch: Option<nat>)

  datatype Metadata = Metadata(
    status: Status, freshness: Freshness, snapshot: Option<Snapshot>, lastFetch: Option<nat>, error: Option<nat>)

  datatype Failure = Failure(state: Metadata, ts: nat)

  /** The three maps: loaded metadata, recent failures, and the request running for a category. */
  datatype Maps = Maps(cache: map<Category, Metadata>, failures: map<Category, Failure>, inflight: map<Category, nat>)

  // ---------------------------------------------------------------- what one segment does to the maps

  /** A failure older than the limit is dropped when it is looked at. */
  function Expired(m: Maps, c: Category, now: int): Maps {
    if c in m.failures && now - m.failures[c].ts >= FAILURE_TTL_MS then m.(failures := m.failures - {c}) else m
  }

  /** The last segment of a load: the metadata replaces any failure. */
  function Stored(m: Maps, c: Category, loaded: Metadata): Maps {
    m.(cache := m.cache[c := loaded], failures := m.failures - {c})
  }

  function ErrorMetadata(error: nat): Metadata {
    Metadata(Failing, Unavailable, None, None, Some(error))
  }

  /** The catch block: what is cached stays ready, and only an uncached category records a failure. */
  function Caught(m: Maps, c: Category, error: nat, offline: bool, now: nat): Maps {
    if c in m.cache then
      var kept := m.cache[c].(status := Ready, freshness := if offline then Offline else Cached, error := Some(error));
      m.(cache := m.cache[c := kept])
    else m.(failures := m.failures[c := Failure(ErrorMetadata(error), now)])
  }

  /** The finally block. */
  function Settled(m: Maps, c: Category): Maps {
    m.(inflight := m.inflight - {c})
  }

  /** Whether a call for `c` starts a request of its own, once expired failures are dropped. */
  predicate Starts(m: Maps, c: Category, forced: bool, now: int) {
    && (forced || (c !in m.cache && c !in Expired(m, c, now).failures))
    && c !in m.inflight
  }

  /** The synchronous front of `resolveTokenMetadata`, up to its request's first await. */
  function Resolved(m: Maps, c: Category, forced: bool, id: nat, now: int): Maps {
    var looked := if !forced && c !in m.cache then Expired(m, c, now) else m;
    if Starts(m, c, forced, now) then looked.(inflight := looked.inflight[c := id]) else looked
  }

  function Loaded(snapshot: Snapshot, freshness: Freshness, lastFetch: Option<nat>): Metadata {
    Metadata(Ready, freshness, Some(snapshot), lastFetch, None)
  }

  /** How fresh a registry fetch is, against what was cached when the load began. */
  function FreshnessOf(previous: Option<Metadata>, fetched: Option<nat>): Freshness {
    if previous.Some? && previous.value.lastFetch.Some? && fetched == previous.value.lastFetch
    then if previous.value.freshness == Offline then Offline else Cached
    else Fresh
  }

  // ---------------------------------------------------------------- interleaved requests

  datatype Point =
    | LoadingCached
    | HydratingIcon(snapshot: Snapshot)
    | LoadingFresh(previous: Option<Metadata>)
    | Returning

  datatype Request = Request(category: Category, forced: bool, at: Point)

  /** How an await ends. */
  datatype Outcome =
    | Found(snapshot: Snapshot, web: bool)   // a persisted snapshot
    | Nothing                                // no persisted snapshot
    | Icon                                   // the icon arrived, or failed to
    | Fetched(snapshot: Snapshot, fetched: Option<nat>)
    | Threw(error: nat, offline: bool)
    | Resumed

  /** Preloads run `loadCachedTokenMetadata` outside any request. */
  datatype State = State(now: nat, maps: Maps, requests: map<nat, Request>, preloads: map<nat, Request>)

  datatype Action =
    | Tick(ms: nat)
    | Resolve(id: nat, category: Category, forced: bool)
    | Advance(id: nat, outcome: Outcome)
    | Preload(id: nat, category: Category)
    | AdvancePreload(id: nat, outcome: Outcome)
    | LookAtDelay(category: Category)

  ghost predicate Init(s: State) {
    s.maps == Maps(map[], map[], map[]) && s.requests == map[] && s.preloads == map[]
  }

  /** The outcomes that can end the await a request is in. */
  predicate Fits(at: Point, outcome: Outcome) {
    match at
    case LoadingCached => outcome.Found? || outcome.Nothing? || outcome.Threw?
    case HydratingIcon(_) => outcome.Icon?
    case LoadingFresh(_) => outcome.Fetched? || outcome.Threw?
    case Returning => outcome.Resumed?
  }

  predicate Allowed(s: State, a: Action) {
    match a
    case Tick(_) => true
    case Resolve(id, _, _) => id !in s.requests
    case Advance(id, outcome) => id in s.requests && Fits(s.requests[id].at, outcome)
    case Preload(id, _) => id !in s.preloads
    case AdvancePreload(id, outcome) => id in s.preloads && Fits(s.preloads[id].at, outcome)
    case LookAtDelay(_) => true
  }

  function CachedNow(m: Maps, c: Category): Option<Metadata> {
    if c in m.cache then Some(m.cache[c]) else None
  }

  /** The maps after the segment that follows an await. */
  function MapsAfter(s: State, r: Request, outcome: Outcome): Maps {
    match outcome
    case Found(snapshot, web) =>
      if web then Stored(s.maps, r.category, Loaded(snapshot, Cached, snapshot.lastFetch)) else s.maps
    case Nothing => s.maps
    case Icon =>
      if r.at.HydratingIcon?
      then Stored(s.maps, r.category, Loaded(r.at.snapshot, Cached, r.at.snapshot.lastFetch))
      else s.maps
    case Fetched(snapshot, fetched) =>
      var previous := if r.at.LoadingFresh? then r.at.previous else None;
      Stored(s.maps, r.category, Loaded(snapshot, FreshnessOf(previous, fetched), fetched))
    case Threw(error, offline) => Settled(Caught(s.maps, r.category, error, offline, s.now), r.category)
    case Resumed => Settled(s.maps, r.category)
  }

  /** Where the request waits next; None once its promise settles. */
  function PointAfter(s: State, r: Request, outcome: Outcome): Option<Point> {
    match outcome
    case Found(snapshot, web) => Some(if web then Returning else HydratingIcon(snapshot))
    case Nothing => Some(LoadingFresh(CachedNow(s.maps, r.category)))
    case Icon => Some(Returning)
    case Fetched(_, _) => Some(Returning)
    case Threw(_, _) => None
    case Resumed => None
  }

  /** A preload keeps only what `loadCachedTokenMetadata` itself does to the maps. */
  function PreloadMaps(s: State, r: Request, outcome: Outcome): Maps {
    if outcome.Threw? || outcome.Resumed? || outcome.Fetched? then s.maps else MapsAfter(s, r, outcome)
  }

  function PreloadPoint(r: Request, outcome: Outcome): Option<Point> {
    if outcome.Found? && !outcome.web then Some(HydratingIcon(outcome.snapshot)) else None
  }

  function Next(s: State, a: Action): State
    requires Allowed(s, a)
  {
    match a
    case Tick(ms) => s.(now := s.now + ms)
    case Resolve(id, c, forced) =>
      var maps := Resolved(s.maps, c, forced, id, s.now);
      if Starts(s.maps, c, forced, s.now) then
        var at := if forced then LoadingFresh(CachedNow(s.maps, c)) else LoadingCached;
        s.(maps := maps, requests := s.requests[id := Request(c, forced, at)])
      else s.(maps := maps)
    case Advance(id, outcome) =>
      var r := s.requests[id];
      var at := PointAfter(s, r, outcome);
      s.(maps := MapsAfter(s, r, outcome),
         requests := if at.Some? then s.requests[id := r.(at := at.value)] else s.requests - {id})
    case Preload(id, c) => s.(preloads := s.preloads[id := Request(c, false, LoadingCached)])
    case AdvancePreload(id, outcome) =>
      var r := s.preloads[id];
      var at := PreloadPoint(r, outcome);
      s.(maps := PreloadMaps(s, r, outcome),
         preloads := if at.Some? then s.preloads[id := r.(at := at.value)] else s.preloads - {id})
    case LookAtDelay(c) => s.(maps := Expired(s.maps, c, s.now))
  }

  ghost predicate IsRun(states: seq<State>, actions: seq<Action>) {
    && |states| == |actions| + 1
    && forall i {:trigger actions[i]} :: 0 <= i < |actions| ==>
         Allowed(states[i], actions[i]) && states[i + 1] == Next(states[i], actions[i])
  }

  // ---------------------------------------------------------------- invariants

  predicate Usable(m: Metadata) {
    m.status == Ready && m.snapshot.Some?
  }

  ghost predicate MapsOk(m: Maps) {
    && m.cache.Keys !! m.failures.Keys
    && (forall c :: c in m.cache ==> Usable(m.cache[c]))
    && (forall c :: c in m.failures ==> m.failures[c].state.status == Failing)
  }

  /** The in-flight map names exactly the running requests, one for each category. */
  ghost predicate InFlightExact(s: State) {
    && (forall c :: c in s.maps.inflight ==>
          s.maps.inflight[c] in s.requests && s.requests[s.maps.inflight[c]].category == c)
    && (forall id :: id in s.requests ==>
          s.requests[id].category in s.maps.inflight && s.maps.inflight[s.requests[id].category] == id)
  }

  ghost predicate Ok(s: State) {
    MapsOk(s.maps) && InFlightExact(s)
  }

  lemma SegmentsKeepMapsOk(s: State, r: Request, outcome: Outcome)
    requires MapsOk(s.maps)
    ensures MapsOk(MapsAfter(s, r, outcome))
  {
  }

  /** Only the two endings of a request take its entry out of the in-flight map. */
  lemma SegmentsOnInFlight(s: State, r: Request, outcome: Outcome)
    ensures
      MapsAfter(s, r, outcome).inflight
        == if PointAfter(s, r, outcome).None? then s.maps.inflight - {r.category} else s.maps.inflight
    ensures PreloadMaps(s, r, outcome).inflight == s.maps.inflight
  {
  }

  lemma AdvanceKeepsInFlight(s: State, id: nat, outcome: Outcome)
    requires id in s.requests && Fits(s.requests[id].at, outcome) && InFlightExact(s)
    ensures InFlightExact(Next(s, Advance(id, outcome)))
  {
    SegmentsOnInFlight(s, s.requests[id], outcome);
    var s' := Next(s, Advance(id, outcome));
    var r := s.requests[id];
    assert s'.maps.inflight
      == if PointAfter(s, r, outcome).None? then s.maps.inflight - {r.category} else s.maps.inflight;
    assert forall j :: j in s'.requests ==> j in s.requests && s'.requests[j].category == s.requests[j].category;
  }

  lemma ResolveKeepsOk(s: State, id: nat, c: Category, forced: bool)
    requires id !in s.requests && Ok(s)
    ensures Ok(Next(s, Resolve(id, c, forced)))
  {
  }

  lemma PreloadKeepsOk(s: State, id: nat, outcome: Outcome)
    requires id in s.preloads && Fits(s.preloads[id].at, outcome) && Ok(s)
    ensures Ok(Next(s, AdvancePreload(id, outcome)))
  {
    SegmentsKeepMapsOk(s, s.preloads[id], outcome);
    SegmentsOnInFlight(s, s.preloads[id], outcome);
  }

  lemma NextKeepsOk(s: State, a: Action)
    requires Allowed(s, a) && Ok(s)
    ensures Ok(Next(s, a))
  {
    match a
    case Advance(id, outcome) =>
      SegmentsKeepMapsOk(s, s.requests[id], outcome);
      AdvanceKeepsInFlight(s, id, outcome);
    case Resolve(id, c, forced) => ResolveKeepsOk(s, id, c, forced);
    case AdvancePreload(id, outcome) => PreloadKeepsOk(s, id, outcome);
    case Preload(_, _) =>
    case Tick(_) =>
    case LookAtDelay(_) =>
  }

  // ---------------------------------------------------------------- main results

  /** Success and failure never coexist, cached entries are usable, and the in-flight map is exact. */
  lemma {:induction false} RunIsOk(states: seq<State>, actions: seq<Action>, n: nat)
    requires IsRun(states, actions) && Init(states[0]) && n <= |actions|
    ensures Ok(states[n])
  {
    if n > 0 {
      RunIsOk(states, actions, n - 1);
      NextKeepsOk(states[n - 1], actions[n - 1]);
    }
  }

  /** At most one request is in flight for a category. */
  lemma OneRequestPerCategory(states: seq<State>, actions: seq<Action>, n: nat, i: nat, j: nat)
    requires IsRun(states, actions) && Init(states[0]) && n <= |actions|
    requires i in states[n].requests && j in states[n].requests
    requires states[n].requests[i].category == states[n].requests[j].category
    ensures i == j
  {
    RunIsOk(states, actions, n);
  }

  /** Once cached, a category stays cached, ready and with a snapshot, whatever fails later. */
  lemma {:induction false} CachedStaysUsable(states: seq<State>, actions: seq<Action>, m: nat, n: nat, c: Category)
    requires IsRun(states, actions) && Init(states[0]) && m <= n <= |actions| && c in states[m].maps.cache
    ensures c in states[n].maps.cache && Usable(states[n].maps.cache[c])
  {
    RunIsOk(states, actions, n);
    if m < n {
      CachedStaysUsable(states, actions, m, n - 1, c);
      NextKeepsCached(states[n - 1], actions[n - 1], c);
    }
  }

  lemma NextKeepsCached(s: State, a: Action, c: Category)
    requires Allowed(s, a) && c in s.maps.cache
    ensures c in Next(s, a).maps.cache
  {
  }

  /** The action records a failure of `c` now. */
  predicate Fails(s: State, a: Action, c: Category) {
    && a.Advance? && a.id in s.requests && s.requests[a.id].category == c
    && a.outcome.Threw? && c !in s.maps.cache
  }

  /** A failure of `c` at time `ts` still holds callers off: it is recorded, or old enough, or overtaken by success. */
  predicate HoldsOff(s: State, c: Category, ts: nat) {
    c in s.maps.cache || (c in s.maps.failures && ts <= s.maps.failures[c].ts) || ts + FAILURE_TTL_MS <= s.now
  }

  lemma NextHoldsOff(s: State, a: Action, c: Category, ts: nat)
    requires Allowed(s, a) && HoldsOff(s, c, ts) && ts <= s.now
    ensures HoldsOff(Next(s, a), c, ts) && ts <= Next(s, a).now
  {
  }

  lemma {:induction false} RunHoldsOff(
      states: seq<State>, actions: seq<Action>, m: nat, n: nat, c: Category, ts: nat)
    requires IsRun(states, actions) && m <= n <= |actions| && HoldsOff(states[m], c, ts) && ts <= states[m].now
    ensures HoldsOff(states[n], c, ts) && ts <= states[n].now
  {
    if m < n {
      RunHoldsOff(states, actions, m, n - 1, c, ts);
      NextHoldsOff(states[n - 1], actions[n - 1], c, ts);
    }
  }

  /** After a failure, no unforced call starts a request for the category within 5000 ms. */
  lemma NoEarlyRetry(states: seq<State>, actions: seq<Action>, i: nat, j: nat, c: Category)
    requires IsRun(states, actions) && i < j < |actions| && Fails(states[i], actions[i], c)
    requires actions[j].Resolve? && actions[j].category == c && !actions[j].forced
    requires Starts(states[j].maps, c, false, states[j].now)
    ensures states[j].now >= states[i].now + 5000
  {
    RunHoldsOff(states, actions, i + 1, j, c, states[i].now);
  }

  // ---------------------------------------------------------------- the maps themselves

  /** The module-level maps, changed in place by the segments. */
  class MetadataMaps {
    var metadataCache: map<Category, Metadata>
    var metadataFailureCache: map<Category, Failure>
    var inflightMetadata: map<Category, nat>

    function Value(): Maps
      reads this
    {
      Maps(metadataCache, metadataFailureCache, inflightMetadata)
    }

    constructor ()
      ensures Value() == Maps(map[], map[], map[])
    {
      metadataCache, metadataFailureCache, inflightMetadata := map[], map[], map[];
    }

    /** `shouldRetryFailure`, which answers whether the failure still stands. */
    method ShouldRetryFailure(c: Category, now: int) returns (stands: bool)
      modifies this`metadataFailureCache
      ensures Value() == Expired(old(Value()), c, now)
      ensures stands <==> c in old(metadataFailureCache) && now - old(metadataFailureCache)[c].ts < 5000
      ensures stands <==> c in metadataFailureCache
    {
      if c !in metadataFailureCache {
        return false;
      }
      var age := now - metadataFailureCache[c].ts;
      if age >= FAILURE_TTL_MS {
        metadataFailureCache := metadataFailureCache - {c};
        return false;
      }
      stands := true;
    }

    /** `getFailureRetryDelayMs` */
    method GetFailureRetryDelayMs(c: Category, now: int) returns (delay: Option<int>)
      modifies this`metadataFailureCache
      ensures Value() == Expired(old(Value()), c, now)
      ensures delay.Some? <==> c in old(metadataFailureCache) && now - old(metadataFailureCache)[c].ts < 5000
      ensures delay.Some? ==> delay.value > 0 && now + delay.value == metadataFailureCache[c].ts + 5000
    {
      var stands := ShouldRetryFailure(c, now);
      if !stands {
        return None;
      }
      delay := Some(FAILURE_TTL_MS - (now - metadataFailureCache[c].ts));
    }

    /** `resolveTokenMetadata` up to its request's first await: it answers at once, joins, or starts. */
    method Begin(c: Category, forced: bool, id: nat, now: int) returns (answer: Option<Metadata>, joined: Option<nat>)
      modifies this`metadataFailureCache, this`inflightMetadata
      ensures Value() == Resolved(old(Value()), c, forced, id, now)
      ensures answer.None? && joined.None? <==> Starts(old(Value()), c, forced, now)
      ensures
        answer
          == if !forced && c in metadataCache then Some(metadataCache[c])
             else if !forced && c in old(metadataFailureCache) && now - old(metadataFailureCache)[c].ts < 5000
             then Some(old(metadataFailureCache)[c].state)
             else None
      ensures
        joined
          == if answer.None? && c in old(inflightMetadata) then Some(old(inflightMetadata)[c]) else None
    {
      answer, joined := None, None;
      if c in metadataCache && !forced {
        return Some(metadataCache[c]), None;
      }
      if !forced {
        var stands := ShouldRetryFailure(c, now);
        if stands {
          return Some(metadataFailureCache[c].state), None;
        }
      }
      if c in inflightMetadata {
        return None, Some(inflightMetadata[c]);
      }
      inflightMetadata := inflightMetadata[c := id];
    }

    /** The last segment of both loads. */
    method Store(c: Category, loaded: Metadata)
      modifies this`metadataCache, this`metadataFailureCache
      ensures Value() == Stored(old(Value()), c, loaded)
    {
      metadataCache := metadataCache[c := loaded];
      metadataFailureCache := metadataFailureCache - {c};
    }

    /** The catch and finally blocks of a request. */
    method Reject(c: Category, error: nat, offline: bool, now: nat) returns (answer: Metadata)
      modifies this
      ensures Value() == Settled(Caught(old(Value()), c, error, offline, now), c)
      ensures c in metadataCache ==> answer == metadataCache[c]
      ensures c !in metadataCache ==> answer == Metadata(Failing, Unavailable, None, None, Some(error))
    {
      if c in metadataCache {
        answer := metadataCache[c].(
          status := Ready, freshness := if offline then Offline else Cached, error := Some(error));
        metadataCache := metadataCache[c := answer];
      } else {
        answer := ErrorMetadata(error);
        metadataFailureCache := metadataFailureCache[c := Failure(answer, now)];
      }
      inflightMetadata := inflightMetadata - {c};
    }
  }
}
