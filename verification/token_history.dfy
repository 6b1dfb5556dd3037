/** What the shared metadata cache holds, told from the history of loads and failures. */
module TokenHistory {
  import opened TokenMetadata
  import opened Wrappers

  // ---------------------------------------------------------------- loads and failures

  /** The request or preload an action continues. */
  function Runner(s: State, a: Action): Option<Request> {
    if a.Advance? && a.id in s.requests then Some(s.requests[a.id])
    else if a.AdvancePreload? && a.id in s.preloads then Some(s.preloads[a.id])
    else None
  }

  /** The action ends a load of `c`: a persisted snapshot is complete, or a registry was fetched. */
  predicate Loads(s: State, a: Action, c: Category) {
    && Runner(s, a).Some? && Runner(s, a).value.category == c
    && ((a.outcome.Found? && a.outcome.web) || a.outcome.Icon? || (a.outcome.Fetched? && a.Advance?))
  }

  function LoadedSnapshot(s: State, a: Action): Snapshot
    requires exists c :: Loads(s, a, c)
  {
    if a.outcome.Icon? then
      if Runner(s, a).value.at.HydratingIcon? then Runner(s, a).value.at.snapshot else Snapshot(0, None)
    else a.outcome.snapshot
  }

  /** When the registry was fetched, which a persisted snapshot remembers. */
  function LoadedFetch(s: State, a: Action): Option<nat>
    requires exists c :: Loads(s, a, c)
  {
    if a.outcome.Fetched? then a.outcome.fetched else LoadedSnapshot(s, a).lastFetch
  }

  /** A request for `c` fails. */
  predicate Throws(s: State, a: Action, c: Category) {
    a.Advance? && Runner(s, a).Some? && Runner(s, a).value.category == c && a.outcome.Threw?
  }

  ghost function LastLoad(states: seq<State>, actions: seq<Action>, n: nat, c: Category): (i: Option<nat>)
    requires n <= |actions| < |states|
    ensures i.Some? ==> i.value < n && Loads(states[i.value], actions[i.value], c)
  {
    if n == 0 then None
    else if Loads(states[n - 1], actions[n - 1], c) then Some(n - 1)
    else LastLoad(states, actions, n - 1, c)
  }

  /** The last load or failure of `c`. */
  ghost function LastWord(states: seq<State>, actions: seq<Action>, n: nat, c: Category): (i: Option<nat>)
    requires n <= |actions| < |states|
    ensures
      i.Some? ==>
        && i.value < n
        && (Loads(states[i.value], actions[i.value], c) || Throws(states[i.value], actions[i.value], c))
  {
    if n == 0 then None
    else if Loads(states[n - 1], actions[n - 1], c) || Throws(states[n - 1], actions[n - 1], c) then Some(n - 1)
    else LastWord(states, actions, n - 1, c)
  }

  // ---------------------------------------------------------------- what one action does to an entry

  /** The fresh load compares with what it met, and says so. */
  predicate TellsFreshness(s: State, a: Action, freshness: Freshness)
    requires exists c :: Loads(s, a, c)
  {
    if a.outcome.Fetched? then
      var at := Runner(s, a).value.at;
      var same := at.LoadingFresh? && at.previous.Some? && at.previous.value.lastFetch.Some?
                  && at.previous.value.lastFetch == a.outcome.fetched;
      && (freshness == Fresh <==> !same)
      && (freshness == Offline <==> same && at.previous.value.freshness == Offline)
      && (freshness == Cached <==> same && at.previous.value.freshness != Offline)
    else freshness == Cached
  }

  lemma LoadWrites(s: State, a: Action, c: Category)
    requires Allowed(s, a) && Loads(s, a, c)
    ensures
      var s' := Next(s, a);
      && c in s'.maps.cache && c !in s'.maps.failures
      && s'.maps.cache[c].status == Ready && s'.maps.cache[c].error == None
      && s'.maps.cache[c].snapshot == Some(LoadedSnapshot(s, a)) && s'.maps.cache[c].lastFetch == LoadedFetch(s, a)
      && TellsFreshness(s, a, s'.maps.cache[c].freshness)
  {
  }

  lemma FailureWrites(s: State, a: Action, c: Category)
    requires Allowed(s, a) && Throws(s, a, c)
    ensures
      var s' := Next(s, a);
      && (c in s.maps.cache <==> c in s'.maps.cache)
      && (c in s.maps.cache ==>
            s'.maps.cache[c] == s.maps.cache[c].(
              status := Ready, freshness := if a.outcome.offline then Offline else Cached,
              error := Some(a.outcome.error)))
      && (c !in s.maps.cache ==>
            c in s'.maps.failures && s'.maps.failures[c].ts == s.now
            && s'.maps.failures[c].state == Metadata(Failing, Unavailable, None, None, Some(a.outcome.error)))
  {
  }

  /** The entry and the failure of `c` are as before, but that a failure may be gone. */
  predicate Untouched(before: Maps, after: Maps, c: Category) {
    && (c in before.cache <==> c in after.cache)
    && (c in before.cache ==> after.cache[c] == before.cache[c])
    && (c in after.failures ==> c in before.failures && after.failures[c] == before.failures[c])
  }

  lemma SegmentWritesNothingElse(s: State, r: Request, outcome: Outcome, c: Category)
    requires Fits(r.at, outcome)
    requires
      r.category != c || outcome.Nothing? || outcome.Resumed? || (outcome.Found? && !outcome.web)
    ensures Untouched(s.maps, MapsAfter(s, r, outcome), c)
  {
  }

  /** Nothing else changes what is cached, or records a failure. */
  lemma OthersWriteNothing(s: State, a: Action, c: Category)
    requires Allowed(s, a) && !Loads(s, a, c) && !Throws(s, a, c)
    ensures Untouched(s.maps, Next(s, a).maps, c)
  {
    match a
    case Advance(id, outcome) => SegmentWritesNothingElse(s, s.requests[id], outcome, c);
    case AdvancePreload(id, outcome) =>
      if !outcome.Threw? && !outcome.Resumed? && !outcome.Fetched? {
        SegmentWritesNothingElse(s, s.preloads[id], outcome, c);
      }
    case _ =>
  }

  // ---------------------------------------------------------------- whole runs

  /** A category is cached exactly if a load of it has ended, with the snapshot and time of the last one. */
  lemma {:induction false} CacheIsLastLoaded(states: seq<State>, actions: seq<Action>, n: nat, c: Category)
    requires IsRun(states, actions) && Init(states[0]) && n <= |actions|
    ensures
      var last := LastLoad(states, actions, n, c);
      && (c in states[n].maps.cache <==> last.Some?)
      && (last.Some? ==>
            var entry := states[n].maps.cache[c];
            && entry.status == Ready && entry.snapshot == Some(LoadedSnapshot(states[last.value], actions[last.value]))
            && entry.lastFetch == LoadedFetch(states[last.value], actions[last.value]))
  {
    if n > 0 {
      CacheIsLastLoaded(states, actions, n - 1, c);
      var s, a := states[n - 1], actions[n - 1];
      if Loads(s, a, c) { LoadWrites(s, a, c); }
      else if Throws(s, a, c) { FailureWrites(s, a, c); }
      else { OthersWriteNothing(s, a, c); }
    }
  }

  /** What a cached entry says of itself: what the last load found, or how the last failure since went. */
  lemma {:induction false} EntryTellsLastWord(states: seq<State>, actions: seq<Action>, n: nat, c: Category)
    requires IsRun(states, actions) && Init(states[0]) && n <= |actions| && c in states[n].maps.cache
    ensures
      var last, entry := LastWord(states, actions, n, c), states[n].maps.cache[c];
      && last.Some?
      && (Loads(states[last.value], actions[last.value], c) ==>
            entry.error == None && TellsFreshness(states[last.value], actions[last.value], entry.freshness))
      && (Throws(states[last.value], actions[last.value], c) ==>
            && entry.error == Some(actions[last.value].outcome.error)
            && entry.freshness == if actions[last.value].outcome.offline then Offline else Cached)
  {
    if n > 0 {
      var s, a := states[n - 1], actions[n - 1];
      if Loads(s, a, c) {
        LoadWrites(s, a, c);
      } else if Throws(s, a, c) {
        FailureWrites(s, a, c);
      } else {
        OthersWriteNothing(s, a, c);
        EntryTellsLastWord(states, actions, n - 1, c);
      }
    }
  }

  /** A failure on record is the last word on its category: its error, at its time. */
  lemma {:induction false} FailureIsLastWord(states: seq<State>, actions: seq<Action>, n: nat, c: Category)
    requires IsRun(states, actions) && Init(states[0]) && n <= |actions| && c in states[n].maps.failures
    ensures
      var last, failure := LastWord(states, actions, n, c), states[n].maps.failures[c];
      && last.Some? && Throws(states[last.value], actions[last.value], c) && failure.ts == states[last.value].now
      && failure.state == Metadata(Failing, Unavailable, None, None, Some(actions[last.value].outcome.error))
  {
    if n > 0 {
      var s, a := states[n - 1], actions[n - 1];
      RunIsOk(states, actions, n);
      if Loads(s, a, c) {
        LoadWrites(s, a, c);
      } else if Throws(s, a, c) {
        FailureWrites(s, a, c);
      } else {
        OthersWriteNothing(s, a, c);
        FailureIsLastWord(states, actions, n - 1, c);
      }
    }
  }

  /** At this step request `id` turns to the registry. */
  predicate TurnsToRegistry(s: State, a: Action, id: nat) {
    || (a.Resolve? && a.id == id && a.forced)
    || (a.Advance? && a.id == id && a.outcome.Nothing?)
  }

  /** What a fresh load compares with is what was cached when it turned to the registry. */
  lemma {:induction false} FreshLoadMetTheCache(states: seq<State>, actions: seq<Action>, n: nat, id: nat)
    returns (b: nat)
    requires IsRun(states, actions) && Init(states[0]) && n <= |actions|
    requires id in states[n].requests && states[n].requests[id].at.LoadingFresh?
    ensures b < n && TurnsToRegistry(states[b], actions[b], id)
    ensures forall k :: b < k <= n ==> id in states[k].requests && states[k].requests[id] == states[n].requests[id]
    ensures
      var r := states[n].requests[id];
      r.at.previous == if r.category in states[b].maps.cache then Some(states[b].maps.cache[r.category]) else None
  {
    var s, a := states[n - 1], actions[n - 1];
    assert states[n] == Next(s, a);
    if TurnsToRegistry(s, a, id) && !(id in s.requests && s.requests[id] == states[n].requests[id]) {
      b := n - 1;
    } else {
      b := FreshLoadMetTheCache(states, actions, n - 1, id);
    }
  }

  /** At this step the run or preload `id` finds a persisted snapshot and goes on to its icon. */
  predicate FindsSnapshot(a: Action, id: nat, preload: bool, snapshot: Snapshot) {
    a == if preload then AdvancePreload(id, Found(snapshot, false)) else Advance(id, Found(snapshot, false))
  }

  function Runs(s: State, preload: bool): map<nat, Request> {
    if preload then s.preloads else s.requests
  }

  /** The snapshot that waits for its icon is the persisted one that was found. */
  lemma {:induction false} IconLoadKeepsItsSnapshot(
      states: seq<State>, actions: seq<Action>, n: nat, id: nat, preload: bool) returns (b: nat)
    requires IsRun(states, actions) && Init(states[0]) && n <= |actions|
    requires id in Runs(states[n], preload) && Runs(states[n], preload)[id].at.HydratingIcon?
    ensures b < n && FindsSnapshot(actions[b], id, preload, Runs(states[n], preload)[id].at.snapshot)
    ensures forall k :: b < k <= n ==>
      id in Runs(states[k], preload) && Runs(states[k], preload)[id] == Runs(states[n], preload)[id]
  {
    var r := Runs(states[n], preload)[id];
    assert states[n] == Next(states[n - 1], actions[n - 1]);
    if id in Runs(states[n - 1], preload) && Runs(states[n - 1], preload)[id] == r {
      b := IconLoadKeepsItsSnapshot(states, actions, n - 1, id, preload);
    } else {
      b := n - 1;
    }
  }

  // ---------------------------------------------------------------- when a request is started

  /**
   * A call starts a request of its own exactly if none for the category is under way and it either
   * insists, or finds nothing cached and no failure of the last 5000 ms.
   */
  lemma CallStartsIff(states: seq<State>, actions: seq<Action>, n: nat, c: Category)
    requires IsRun(states, actions) && Init(states[0]) && n < |actions|
    requires actions[n].Resolve? && actions[n].category == c
    ensures
      var s := states[n];
      actions[n].id in states[n + 1].requests
      <==> (forall j :: j in s.requests ==> s.requests[j].category != c)
           && (actions[n].forced
               || (c !in s.maps.cache && (c in s.maps.failures ==> s.now - s.maps.failures[c].ts >= 5000)))
    ensures
      actions[n].id in states[n + 1].requests ==>
        var r := states[n + 1].requests[actions[n].id];
        r.category == c && if actions[n].forced then r.at.LoadingFresh? else r.at.LoadingCached?
  {
    RunIsOk(states, actions, n);
    var s := states[n];
    if c in s.maps.inflight { assert s.requests[s.maps.inflight[c]].category == c; }
  }

  /** A request fulfils its promise only after a load of its own has ended. */
  lemma {:induction false} ReturningHasLoaded(states: seq<State>, actions: seq<Action>, n: nat, id: nat)
    returns (b: nat)
    requires IsRun(states, actions) && Init(states[0]) && n <= |actions|
    requires id in states[n].requests && states[n].requests[id].at.Returning?
    ensures b < n && actions[b].Advance? && actions[b].id == id
    ensures Loads(states[b], actions[b], states[n].requests[id].category)
  {
    assert states[n] == Next(states[n - 1], actions[n - 1]);
    if id in states[n - 1].requests && states[n - 1].requests[id] == states[n].requests[id] {
      b := ReturningHasLoaded(states, actions, n - 1, id);
    } else {
      b := n - 1;
    }
  }

  /** A preload goes on only from a snapshot to its icon; it ends with a load exactly if it found a snapshot. */
  lemma PreloadEndsIff(states: seq<State>, actions: seq<Action>, n: nat)
    requires IsRun(states, actions) && n < |actions| && actions[n].AdvancePreload?
    requires !states[n].preloads[actions[n].id].at.LoadingFresh? && !states[n].preloads[actions[n].id].at.Returning?
    ensures
      var a := actions[n];
      var r := states[n].preloads[a.id];
      && (a.id in states[n + 1].preloads <==> a.outcome.Found? && !a.outcome.web)
      && (a.id in states[n + 1].preloads ==>
            states[n + 1].preloads[a.id] == r.(at := HydratingIcon(a.outcome.snapshot)))
      && (Loads(states[n], a, r.category) <==> a.outcome.Icon? || (a.outcome.Found? && a.outcome.web))
      && states[n + 1].requests == states[n].requests
  {
    assert Allowed(states[n], actions[n]) && states[n + 1] == Next(states[n], actions[n]);
  }
}
