/**
 * The shared Fusion status cache: one slot for each endpoint, whose lock is held from the look at the
 * cached result to the end of the probe. Times are nanoseconds of a monotone clock.
 */
module FusionStatus {
  import opened Wrappers

  type Key = nat

  const SECOND: nat := 1_000_000_000
  const SUCCESS_TTL: nat := 30 * SECOND
  const FAILURE_TTL: nat := 15 * SECOND
  const MAX_SLOTS: nat := 64

  /** A probe's result and when it was recorded. */
  datatype Entry = Entry(recordedAt: nat, ok: bool)

  function Ttl(ok: bool): nat {
    if ok then SUCCESS_TTL else FAILURE_TTL
  }

  predicate StillGood(e: Option<Entry>, now: nat) {
    e.Some? && now < e.value.recordedAt + Ttl(e.value.ok)
  }

  // ---------------------------------------------------------------- interleaved calls

  datatype Point = AwaitingLock | Looking | Probing

  /** A call asks for a key, and holds the slot it found for it even if that is evicted. */
  datatype Call = Call(key: Key, slot: nat, at: Point)

  /** `entries` holds every slot ever made, evicted or not; `slots` the ones the map leads to. */
  datatype State = State(
    now: nat, slots: map<Key, nat>, entries: seq<Option<Entry>>, calls: map<nat, Call>, nextCall: nat)

  datatype Action =
    | Tick(ns: nat)
    | Open(key: Key)             // find or make the slot, evicting all slots of a full map
    | Lock(call: nat)
    | Look(call: nat)            // serve the cached result, or start a probe
    | Finish(call: nat, ok: bool)
    | Cancel(call: nat)

  ghost predicate Init(s: State) {
    s.slots == map[] && s.entries == [] && s.calls == map[] && s.nextCall == 0
  }

  predicate Holds(c: Call, slot: nat) {
    c.slot == slot && (c.at == Looking || c.at == Probing)
  }

  ghost predicate Allowed(s: State, a: Action) {
    match a
    case Tick(_) => true
    case Open(_) => true
    case Lock(t) =>
      && t in s.calls && s.calls[t].at == AwaitingLock
      && forall u :: u in s.calls ==> !Holds(s.calls[u], s.calls[t].slot)
    case Look(t) => t in s.calls && s.calls[t].at == Looking
    case Finish(t, _) => t in s.calls && s.calls[t].at == Probing
    case Cancel(t) => t in s.calls && s.calls[t].at != Looking
  }

  predicate Evicts(s: State, a: Action) {
    a.Open? && |s.slots| >= MAX_SLOTS && a.key !in s.slots
  }

  function EntryOf(s: State, slot: nat): Option<Entry> {
    if slot < |s.entries| then s.entries[slot] else None
  }

  /** `fusion_status_cache_slot` */
  function Opened(s: State, key: Key): State {
    if key in s.slots then s
    else
      var kept := if |s.slots| >= MAX_SLOTS then map[] else s.slots;
      s.(slots := kept[key := |s.entries|], entries := s.entries + [None])
  }

  function Next(s: State, a: Action): State
    requires a.Lock? || a.Look? || a.Finish? ==> a.call in s.calls
  {
    match a
    case Tick(ns) => s.(now := s.now + ns)
    case Open(key) =>
      var after := Opened(s, key);
      after.(calls := s.calls[s.nextCall := Call(key, after.slots[key], AwaitingLock)], nextCall := s.nextCall + 1)
    case Lock(t) => s.(calls := s.calls[t := s.calls[t].(at := Looking)])
    case Look(t) =>
      if StillGood(EntryOf(s, s.calls[t].slot), s.now) then s.(calls := s.calls - {t})
      else s.(calls := s.calls[t := s.calls[t].(at := Probing)])
    case Finish(t, ok) =>
      var slot := s.calls[t].slot;
      s.(entries := if slot < |s.entries| then s.entries[slot := Some(Entry(s.now, ok))] else s.entries,
         calls := s.calls - {t})
    case Cancel(t) => s.(calls := s.calls - {t})
  }

  /** Action `i` is allowed where it is taken, and gives the next state. */
  ghost predicate StepAt(states: seq<State>, actions: seq<Action>, i: nat)
    requires i < |actions| < |states|
  {
    Allowed(states[i], actions[i]) && states[i + 1] == Next(states[i], actions[i])
  }

  ghost predicate IsRun(states: seq<State>, actions: seq<Action>) {
    && |states| == |actions| + 1
    && forall i {:trigger StepAt(states, actions, i)} :: 0 <= i < |actions| ==> StepAt(states, actions, i)
  }

  // ---------------------------------------------------------------- invariant

  ghost predicate Ok(s: State) {
    && |s.slots| <= MAX_SLOTS
    && (forall key :: key in s.slots ==> s.slots[key] < |s.entries|)
    && (forall t :: t in s.calls ==> t < s.nextCall && s.calls[t].slot < |s.entries|)
    && (forall t, u ::
          t in s.calls && u in s.calls && Holds(s.calls[t], s.calls[t].slot) && Holds(s.calls[u], s.calls[t].slot) ==>
            t == u)
    && (forall x :: 0 <= x < |s.entries| && s.entries[x].Some? ==> s.entries[x].value.recordedAt <= s.now)
  }

  lemma OpenKeepsOk(s: State, key: Key)
    requires Ok(s)
    ensures Ok(Next(s, Open(key)))
  {
  }

  lemma NextKeepsOk(s: State, a: Action)
    requires Allowed(s, a) && Ok(s)
    ensures Ok(Next(s, a))
  {
    match a
    case Open(key) => OpenKeepsOk(s, key);
    case Tick(_) =>
    case Lock(_) =>
    case Look(_) =>
    case Finish(_, _) =>
    case Cancel(_) =>
  }

  /** In every run the map has at most 64 slots and one call at a time holds a slot. */
  lemma {:induction false} RunIsOk(states: seq<State>, actions: seq<Action>, n: nat)
    requires IsRun(states, actions) && Init(states[0]) && n <= |actions|
    ensures Ok(states[n]) && |states[n].slots| <= 64
  {
    if n > 0 {
      RunIsOk(states, actions, n - 1);
      assert StepAt(states, actions, n - 1);
      NextKeepsOk(states[n - 1], actions[n - 1]);
    }
  }

  // ---------------------------------------------------------------- probe starts

  /** The action starts a probe of slot `x`: a call that looked is not answered. */
  predicate Starts(s: State, a: Action, x: nat) {
    a.Look? && a.call in s.calls && s.calls[a.call].slot == x && a.call in Next(s, a).calls
  }

  /** The probe call `t` started at `ts` still runs, or its slot has recorded a result since. */
  predicate Followed(s: State, t: nat, x: nat, ts: nat) {
    && ts <= s.now && x < |s.entries|
    && ((t in s.calls && s.calls[t].slot == x && s.calls[t].at == Probing)
        || (s.entries[x].Some? && ts <= s.entries[x].value.recordedAt))
  }

  lemma NextFollows(s: State, a: Action, t: nat, x: nat, ts: nat)
    requires Allowed(s, a) && Ok(s) && Followed(s, t, x, ts) && a != Cancel(t) && t < s.nextCall
    ensures Followed(Next(s, a), t, x, ts) && t < Next(s, a).nextCall
  {
  }

  ghost predicate NeverCancelled(actions: seq<Action>, t: nat, m: nat, n: nat)
    requires m <= n <= |actions|
  {
    forall i :: m <= i < n ==> actions[i] != Cancel(t)
  }

  lemma {:induction false} RunFollows(states: seq<State>, actions: seq<Action>, m: nat, n: nat, t: nat, x: nat, ts: nat)
    requires IsRun(states, actions) && Init(states[0]) && m <= n <= |actions|
    requires Followed(states[m], t, x, ts) && t < states[m].nextCall && NeverCancelled(actions, t, m, n)
    ensures Followed(states[n], t, x, ts) && t < states[n].nextCall
  {
    if m < n {
      RunFollows(states, actions, m, n - 1, t, x, ts);
      RunIsOk(states, actions, n - 1);
      StepFollows(states, actions, n - 1, t, x, ts);
    }
  }

  lemma StepFollows(states: seq<State>, actions: seq<Action>, i: nat, t: nat, x: nat, ts: nat)
    requires IsRun(states, actions) && i < |actions| && Ok(states[i]) && actions[i] != Cancel(t)
    requires Followed(states[i], t, x, ts) && t < states[i].nextCall
    ensures Followed(states[i + 1], t, x, ts) && t < states[i + 1].nextCall
  {
    assert StepAt(states, actions, i);
    NextFollows(states[i], actions[i], t, x, ts);
  }

  /** Two probes of one slot start at least 15 seconds apart, unless the first was cancelled. */
  lemma ProbesAreApart(states: seq<State>, actions: seq<Action>, i: nat, j: nat, x: nat)
    requires IsRun(states, actions) && Init(states[0]) && i < j < |actions|
    requires Starts(states[i], actions[i], x) && Starts(states[j], actions[j], x)
    requires NeverCancelled(actions, actions[i].call, i, j)
    ensures states[j].now >= states[i].now + 15_000_000_000
  {
    var t := actions[i].call;
    RunIsOk(states, actions, i);
    assert StepAt(states, actions, i);
    RunFollows(states, actions, i + 1, j, t, x, states[i].now);
    RunIsOk(states, actions, j);
    assert StepAt(states, actions, j);
    assert Holds(states[j].calls[actions[j].call], x);
    if t in states[j].calls && states[j].calls[t].slot == x && states[j].calls[t].at == Probing {
      assert Holds(states[j].calls[t], x);
    }
  }

  lemma RunExtends(states: seq<State>, actions: seq<Action>, a: Action, s': State)
    requires IsRun(states, actions) && Allowed(states[|actions|], a) && Next(states[|actions|], a) == s'
    ensures IsRun(states + [s'], actions + [a])
  {
    forall i | 0 <= i < |actions + [a]|
      ensures StepAt(states + [s'], actions + [a], i)
    {
      if i < |actions| { assert StepAt(states, actions, i); }
    }
  }

  /** No call is under way, and the only slot there may be is the key's, without a result. */
  predicate Idle(s: State, key: Key) {
    && s.calls == map[]
    && (s.slots == map[] || s.slots == map[key := 0]) && s.entries == (if s.slots == map[] then [] else [None])
  }

  /** The state in which the only call is at `at` on the key's slot. */
  function Alone(s: State, key: Key, at: Point): State {
    var calls := map[s.nextCall := Call(key, 0, at)];
    s.(slots := map[key := 0], entries := [None], calls := calls, nextCall := s.nextCall + 1)
  }

  lemma OpensAlone(s: State, key: Key)
    requires Idle(s, key)
    ensures Next(s, Open(key)) == Alone(s, key, AwaitingLock)
  {
  }

  /** The call takes the lock of its slot, finds nothing and starts a probe. */
  lemma LocksAndProbes(s: State, key: Key)
    ensures
      var t := s.nextCall;
      var waiting, looking := Alone(s, key, AwaitingLock), Alone(s, key, Looking);
      && Allowed(waiting, Lock(t)) && Next(waiting, Lock(t)) == looking
      && Allowed(looking, Look(t)) && Next(looking, Look(t)) == Alone(s, key, Probing)
      && Starts(looking, Look(t), 0)
  {
  }

  /** A call finds its slot empty and idle, and starts a probe. */
  lemma OpensAndProbes(states: seq<State>, actions: seq<Action>, s: State, key: Key)
    returns (states': seq<State>, actions': seq<Action>)
    requires IsRun(states, actions) && states[|actions|] == s && Idle(s, key)
    ensures IsRun(states', actions') && |actions'| == |actions| + 3
    ensures states'[..|states|] == states && actions'[..|actions|] == actions
    ensures Starts(states'[|actions| + 2], actions'[|actions| + 2], 0) && states'[|actions| + 2].now == s.now
    ensures states'[|actions'|] == Alone(s, key, Probing) && actions'[|actions| + 2].call == s.nextCall
  {
    var t := s.nextCall;
    var waiting, looking := Alone(s, key, AwaitingLock), Alone(s, key, Looking);
    OpensAlone(s, key);
    LocksAndProbes(s, key);
    RunExtends(states, actions, Open(key), waiting);
    RunExtends(states + [waiting], actions + [Open(key)], Lock(t), looking);
    RunExtends(states + [waiting] + [looking], actions + [Open(key)] + [Lock(t)], Look(t), Alone(s, key, Probing));
    states' := states + [waiting] + [looking] + [Alone(s, key, Probing)];
    actions' := actions + [Open(key)] + [Lock(t)] + [Look(t)];
  }

  /** A cancelled probe records nothing, so the next one may start at once. */
  lemma CancelledProbesAreNotApart(s0: State, key: Key)
    requires Init(s0)
    ensures
      exists states: seq<State>, actions: seq<Action>, i: nat, j: nat ::
        && IsRun(states, actions) && states[0] == s0 && i < j < |actions|
        && Starts(states[i], actions[i], 0) && Starts(states[j], actions[j], 0) && states[j].now == states[i].now
  {
    assert IsRun([s0], []);
    var states1, actions1 := OpensAndProbes([s0], [], s0, key);
    var probing := states1[3];
    var idle := probing.(calls := map[]);
    assert key in idle.slots;
    RunExtends(states1, actions1, Cancel(s0.nextCall), idle);
    var states2, actions2 := OpensAndProbes(states1 + [idle], actions1 + [Cancel(s0.nextCall)], idle, key);
    assert states2[..5] == states1 + [idle] && actions2[..4] == actions1 + [Cancel(s0.nextCall)];
    assert states2[2] == states2[..5][2] == states1[2] && actions2[2] == actions2[..4][2] == actions1[2];
    assert states2[0] == states2[..5][0] == states1[0] == [s0][0];
    assert Starts(states2[2], actions2[2], 0) && Starts(states2[6], actions2[6], 0);
  }

  /** How many probes of slot `x` start in steps `m` to `n`. */
  function ProbeStarts(states: seq<State>, actions: seq<Action>, m: nat, n: nat, x: nat): nat
    requires m <= n <= |actions| < |states|
  {
    if m == n then 0
    else ProbeStarts(states, actions, m, n - 1, x) + (if Starts(states[n - 1], actions[n - 1], x) then 1 else 0)
  }

  lemma {:induction false} ClockAdvances(states: seq<State>, actions: seq<Action>, m: nat, n: nat)
    requires IsRun(states, actions) && m <= n <= |actions|
    ensures states[m].now <= states[n].now
  {
    if m < n {
      ClockAdvances(states, actions, m, n - 1);
      assert StepAt(states, actions, n - 1);
    }
  }

  /** `count` starts after time `from`, the last of them now, are spread out. */
  predicate Spread(from: nat, now: nat, count: nat) {
    count > 0 ==> now >= from + (count - 1) * FAILURE_TTL
  }

  lemma SpreadGrows(from: nat, before: nat, now: nat, count: nat)
    requires Spread(from, before, count) && count > 0 && now >= before + FAILURE_TTL
    ensures Spread(from, now, count + 1)
  {
  }

  /** Every two starts of slot `x` in steps `m` to `n` are at least the shorter limit apart. */
  ghost predicate Apart(states: seq<State>, actions: seq<Action>, m: nat, n: nat, x: nat)
    requires m <= n <= |actions| < |states|
  {
    forall i, j :: m <= i < j < n && Starts(states[i], actions[i], x) && Starts(states[j], actions[j], x) ==>
      states[j].now >= states[i].now + FAILURE_TTL
  }

  /** Starts that are apart are spread out behind the first. */
  lemma {:induction false} StartsSpread(states: seq<State>, actions: seq<Action>, m: nat, n: nat, x: nat)
    returns (last: nat)
    requires m <= n <= |actions| < |states| && Apart(states, actions, m, n, x)
    requires forall i :: m <= i < n ==> states[m].now <= states[i].now
    requires ProbeStarts(states, actions, m, n, x) > 0
    ensures m <= last < n && Starts(states[last], actions[last], x)
    ensures Spread(states[m].now, states[last].now, ProbeStarts(states, actions, m, n, x))
  {
    if !Starts(states[n - 1], actions[n - 1], x) {
      last := StartsSpread(states, actions, m, n - 1, x);
      return;
    }
    last := n - 1;
    var count := ProbeStarts(states, actions, m, last, x);
    if count > 0 {
      var previous := StartsSpread(states, actions, m, last, x);
      SpreadGrows(states[m].now, states[previous].now, states[last].now, count);
    }
  }

  /** In any window of `span` in which no probe of a slot is cancelled, at most `span` / 15 s + 1 of them start. */
  lemma ProbeRateIsBounded(states: seq<State>, actions: seq<Action>, m: nat, n: nat, x: nat, span: nat)
    requires IsRun(states, actions) && Init(states[0]) && m <= n <= |actions|
    requires forall i ::
      m <= i < n && Starts(states[i], actions[i], x) ==> NeverCancelled(actions, actions[i].call, i, n)
    requires states[n].now <= states[m].now + span
    ensures ProbeStarts(states, actions, m, n, x) <= span / 15_000_000_000 + 1
  {
    forall i, j | m <= i < j < n && Starts(states[i], actions[i], x) && Starts(states[j], actions[j], x)
      ensures states[j].now >= states[i].now + FAILURE_TTL
    {
      ProbesAreApart(states, actions, i, j, x);
    }
    forall i | m <= i < n
      ensures states[m].now <= states[i].now <= states[n].now
    {
      ClockAdvances(states, actions, m, i);
      ClockAdvances(states, actions, i, n);
    }
    if ProbeStarts(states, actions, m, n, x) > 0 {
      var last := StartsSpread(states, actions, m, n, x);
      SpreadFits(ProbeStarts(states, actions, m, n, x), span);
    }
  }

  lemma SpreadFits(count: nat, span: nat)
    requires count > 0 && (count - 1) * FAILURE_TTL <= span
    ensures count <= span / FAILURE_TTL + 1
  {
  }

  /** A key keeps its slot until the full map is cleared. */
  lemma {:induction false} KeyKeepsSlot(states: seq<State>, actions: seq<Action>, m: nat, n: nat, key: Key)
    requires IsRun(states, actions) && m <= n <= |actions| && key in states[m].slots
    requires forall i :: m <= i < n ==> !Evicts(states[i], actions[i])
    ensures key in states[n].slots && states[n].slots[key] == states[m].slots[key]
  {
    if m < n {
      KeyKeepsSlot(states, actions, m, n - 1, key);
      assert StepAt(states, actions, n - 1);
    }
  }

  /** Calls opened since call number `first` hold the slot their key leads to. */
  ghost predicate KeysHeld(s: State, first: nat) {
    forall t :: t in s.calls && first <= t ==>
      s.calls[t].key in s.slots && s.calls[t].slot == s.slots[s.calls[t].key]
  }

  lemma NextKeepsKeys(s: State, a: Action, first: nat)
    requires Allowed(s, a) && KeysHeld(s, first) && !Evicts(s, a)
    ensures KeysHeld(Next(s, a), first)
  {
  }

  /** Without an eviction since step `o`, every call opened since then holds its key's slot. */
  lemma {:induction false} RunKeepsKeys(states: seq<State>, actions: seq<Action>, o: nat, n: nat)
    requires IsRun(states, actions) && Init(states[0]) && o <= n <= |actions|
    requires forall k :: o <= k < n ==> !Evicts(states[k], actions[k])
    ensures KeysHeld(states[n], states[o].nextCall)
  {
    if o == n {
      RunIsOk(states, actions, o);
    } else {
      RunKeepsKeys(states, actions, o, n - 1);
      assert StepAt(states, actions, n - 1);
      NextKeepsKeys(states[n - 1], actions[n - 1], states[o].nextCall);
    }
  }

  /** The action starts a probe for a call that asked for `key`. */
  predicate ProbesKey(s: State, a: Action, key: Key) {
    && a.Look? && a.call in s.calls && s.calls[a.call].key == key
    && Starts(s, a, s.calls[a.call].slot)
  }

  /**
   * Any two probes for one key, the first not cancelled, start at least 15 seconds apart, if the map
   * was not cleared since the earlier of their calls was opened, at step `o` or later.
   */
  lemma KeyProbesAreApart(states: seq<State>, actions: seq<Action>, o: nat, i: nat, j: nat, key: Key)
    requires IsRun(states, actions) && Init(states[0]) && o <= i < j < |actions|
    requires forall k :: o <= k < j ==> !Evicts(states[k], actions[k])
    requires ProbesKey(states[i], actions[i], key) && ProbesKey(states[j], actions[j], key)
    requires states[o].nextCall <= actions[i].call && states[o].nextCall <= actions[j].call
    requires NeverCancelled(actions, actions[i].call, i, j)
    ensures states[j].now >= states[i].now + 15_000_000_000
  {
    RunKeepsKeys(states, actions, o, i);
    RunKeepsKeys(states, actions, o, j);
    KeyKeepsSlot(states, actions, i, j, key);
    ProbesAreApart(states, actions, i, j, states[i].slots[key]);
  }

  // ---------------------------------------------------------------- served results

  /** The result of the last probe of slot `x` to finish before step `n`. */
  ghost function LastFinished(states: seq<State>, actions: seq<Action>, n: nat, x: nat): Option<Entry>
    requires n <= |actions| < |states|
  {
    if n == 0 then None
    else
      var s, a := states[n - 1], actions[n - 1];
      if a.Finish? && a.call in s.calls && s.calls[a.call].slot == x then Some(Entry(s.now, a.ok))
      else LastFinished(states, actions, n - 1, x)
  }

  lemma NextEntry(s: State, a: Action, x: nat)
    requires Allowed(s, a) && Ok(s)
    ensures
      EntryOf(Next(s, a), x)
        == if a.Finish? && s.calls[a.call].slot == x then Some(Entry(s.now, a.ok)) else EntryOf(s, x)
  {
  }

  lemma {:induction false} EntryIsLastFinished(states: seq<State>, actions: seq<Action>, n: nat, x: nat)
    requires IsRun(states, actions) && Init(states[0]) && n <= |actions|
    ensures EntryOf(states[n], x) == LastFinished(states, actions, n, x)
  {
    if n > 0 {
      EntryIsLastFinished(states, actions, n - 1, x);
      RunIsOk(states, actions, n - 1);
      assert StepAt(states, actions, n - 1);
      NextEntry(states[n - 1], actions[n - 1], x);
    }
  }

  /**
   * A call is answered from the cache exactly if the last probe of its slot to finish succeeded less than
   * 30 seconds ago, or failed less than 15 seconds ago.
   */
  lemma ServedResultsAreYoung(states: seq<State>, actions: seq<Action>, n: nat, x: nat)
    requires IsRun(states, actions) && Init(states[0]) && n < |actions|
    requires actions[n].Look? && actions[n].call in states[n].calls && states[n].calls[actions[n].call].slot == x
    ensures
      var last := LastFinished(states, actions, n, x);
      actions[n].call !in states[n + 1].calls
      <==> last.Some?
           && if last.value.ok then states[n].now - last.value.recordedAt < 30_000_000_000
              else states[n].now - last.value.recordedAt < 15_000_000_000
    ensures actions[n].call in states[n + 1].calls ==> states[n + 1].calls[actions[n].call].at == Probing
  {
    EntryIsLastFinished(states, actions, n, x);
    assert StepAt(states, actions, n);
  }

  /** The action ends a probe of slot `x` with this outcome. */
  predicate Ends(s: State, a: Action, x: nat, ok: bool) {
    a.Finish? && a.call in s.calls && s.calls[a.call].slot == x && a.ok == ok
  }

  /** Slot `x` rests until time `until`: no probe of it runs, and its result serves until then. */
  ghost predicate Rests(s: State, x: nat, until: nat) {
    || until <= s.now
    || ((forall t :: t in s.calls && s.calls[t].slot == x ==> s.calls[t].at != Probing)
        && EntryOf(s, x).Some? && until <= EntryOf(s, x).value.recordedAt + Ttl(EntryOf(s, x).value.ok))
  }

  lemma EndingRests(s: State, a: Action, x: nat, ok: bool)
    requires Allowed(s, a) && Ok(s) && Ends(s, a, x, ok)
    ensures Rests(Next(s, a), x, s.now + if ok then 30_000_000_000 else 15_000_000_000)
  {
    assert Holds(s.calls[a.call], x);
    forall t | t in Next(s, a).calls && Next(s, a).calls[t].slot == x
      ensures Next(s, a).calls[t].at != Probing
    {
      assert t != a.call && s.calls[t] == Next(s, a).calls[t];
      assert !Holds(s.calls[t], x);
    }
  }

  /** While it rests, nothing but time changes a slot. */
  lemma NextRests(s: State, a: Action, x: nat, until: nat)
    requires Allowed(s, a) && Ok(s) && Rests(s, x, until)
    ensures Rests(Next(s, a), x, until) && (Starts(s, a, x) ==> until <= s.now)
  {
    var s' := Next(s, a);
    assert s.now <= s'.now;
    if s.now < until {
      NextEntry(s, a, x);
      assert a.Finish? ==> s.calls[a.call].slot != x;
      assert a.Look? && s.calls[a.call].slot == x ==> StillGood(EntryOf(s, x), s.now);
      forall t | t in s'.calls && s'.calls[t].slot == x
        ensures s'.calls[t].at != Probing
      {
        assert t in s.calls && s.calls[t].slot == x ==> s.calls[t].at != Probing;
      }
    }
  }

  lemma {:induction false} RunRests(states: seq<State>, actions: seq<Action>, m: nat, n: nat, x: nat, until: nat)
    requires IsRun(states, actions) && Init(states[0]) && m <= n <= |actions| && Rests(states[m], x, until)
    ensures Rests(states[n], x, until)
  {
    if m < n {
      RunRests(states, actions, m, n - 1, x, until);
      RunIsOk(states, actions, n - 1);
      assert StepAt(states, actions, n - 1);
      NextRests(states[n - 1], actions[n - 1], x, until);
    }
  }

  /** After a probe ends, no probe of its slot starts for 30 seconds if it succeeded, and for 15 if it failed. */
  lemma EndedProbesRest(states: seq<State>, actions: seq<Action>, i: nat, j: nat, x: nat, ok: bool)
    requires IsRun(states, actions) && Init(states[0]) && i < j < |actions|
    requires Ends(states[i], actions[i], x, ok) && Starts(states[j], actions[j], x)
    ensures states[j].now >= states[i].now + if ok then 30_000_000_000 else 15_000_000_000
  {
    var until := states[i].now + if ok then 30_000_000_000 else 15_000_000_000;
    RunIsOk(states, actions, i);
    assert StepAt(states, actions, i);
    EndingRests(states[i], actions[i], x, ok);
    RunRests(states, actions, i + 1, j, x, until);
    RunIsOk(states, actions, j);
    assert StepAt(states, actions, j);
    NextRests(states[j], actions[j], x, until);
  }

  // ---------------------------------------------------------------- the map of slots

  class Slot {
    var entry: Option<Entry>

    constructor ()
      ensures entry == None
    {
      entry := None;
    }
  }

  /** The static map; callers keep references to slots that a clear has taken out. */
  class StatusCache {
    var slots: map<Key, Slot>

    constructor ()
      ensures slots == map[]
    {
      slots := map[];
    }

    /** `fusion_status_cache_slot` */
    method CacheSlot(key: Key) returns (slot: Slot)
      requires |slots| <= 64
      modifies this
      ensures |slots| <= 64 && key in slots && slots[key] == slot
      ensures key in old(slots) ==> slots == old(slots)
      ensures key !in old(slots) ==> fresh(slot) && slot.entry == None
      ensures key !in old(slots) ==> slots == (if |old(slots)| >= 64 then map[] else old(slots))[key := slot]
    {
      if |slots| >= MAX_SLOTS && key !in slots {
        slots := map[];
      }
      if key !in slots {
        var made := new Slot();
        slots := slots[key := made];
      }
      slot := slots[key];
    }
  }
}
