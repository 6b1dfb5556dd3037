/** What a server edit sets: field by field, when it is looked at, saved and applied. */
module EditEffects {
  import Endpoints
  import opened Networks
  import opened NetworkSettings
  import opened ServerOverrides
  import opened Wrappers

  /** What a field becomes: its entry as it is kept, nothing for a blank one, and itself if none is given. */
  predicate Gives(kind: Kind, entry: Option<string>, before: Option<string>, after: Option<string>) {
    match entry
    case None => after == before
    case Some(raw) =>
      match Validated(kind, raw)
      case Refused => false
      case Blank => after == None
      case Canonical(kept) => after == Some(kept)
  }

  function EntryFor(kind: Kind, a: AppAction): Option<string> {
    match a
    case SetServer(k, entry) => if k == kind then Some(entry) else None
    case ReplaceNetworkServers(_, servers) =>
      if kind == Electrum then servers.electrum else if kind == Peer then servers.peer else servers.explorer
    case _ => None
  }

  predicate RefusesEntry(kind: Kind, a: AppAction) {
    EntryFor(kind, a).Some? && Validated(kind, EntryFor(kind, a).value) == Refused
  }

  /** One entry that is refused refuses the edit. */
  predicate IsRefused(a: AppAction) {
    RefusesEntry(Electrum, a) || RefusesEntry(Peer, a) || RefusesEntry(Explorer, a)
  }

  /**
   * What an edit makes of a network's servers: exactly the field it names is set; the defaults are no
   * overrides at all; a replacement sets what it gives, drops the other routes and keeps the explorer.
   */
  predicate Makes(a: AppAction, before: Servers, after: Servers) {
    if IsRefused(a) then after == before
    else if a.UseNetworkDefaultServers? then after == Servers(None, None, None)
    else
      && Gives(Electrum, EntryFor(Electrum, a), if a.SetServer? then before.electrum else None, after.electrum)
      && Gives(Peer, EntryFor(Peer, a), if a.SetServer? then before.peer else None, after.peer)
      && Gives(Explorer, EntryFor(Explorer, a), before.explorer, after.explorer)
  }

  lemma PlacedGives(base: Servers, entries: Servers)
    ensures
      var placed := PlacedAll(base, entries);
      && (placed.Some? ==>
            && Gives(Electrum, entries.electrum, base.electrum, placed.value.electrum)
            && Gives(Peer, entries.peer, base.peer, placed.value.peer)
            && Gives(Explorer, entries.explorer, base.explorer, placed.value.explorer))
      && (placed.None?
          <==> (entries.electrum.Some? && Validated(Electrum, entries.electrum.value) == Refused)
               || (entries.peer.Some? && Validated(Peer, entries.peer.value) == Refused)
               || (entries.explorer.Some? && Validated(Explorer, entries.explorer.value) == Refused))
  {
  }

  /** The reducer's own result, and whether it counts as a refusal, a change or nothing. */
  lemma EditMakes(a: AppAction, present: Servers)
    requires Edits(a)
    ensures Makes(a, present, Edited(a, present).0)
    ensures Edited(a, present).1 == NoticeChanged <==> IsRefused(a)
    ensures
      Edited(a, present).1 == NoEvent
      <==> !IsRefused(a) && !a.SetServer? && Makes(a, present, present)
  {
    if a.ReplaceNetworkServers? { PlacedGives(DEFAULTS.(explorer := present.explorer), a.servers); }
  }

  // ---------------------------------------------------------------- in runs

  /** Where the edit of an action goes, given the network the runtime is on. */
  function TargetOf(network: Network, a: AppAction): Network {
    if a.ReplaceNetworkServers? then a.network else network
  }

  /** An applied edit makes exactly this of its network's servers, and leaves every other network alone. */
  lemma AppliedEditMakes(url: UrlParser, states: seq<State>, steps: seq<Step>, n: nat)
    requires IsRun(url, states, steps) && n < |steps| && steps[n].Apply? && Edits(states[n].queue[0].action)
    ensures
      var a, before, after := states[n].queue[0].action, states[n].live, states[n + 1].live;
      var target := TargetOf(before.network, a);
      && after.network == before.network && Makes(a, before.servers.Get(target), after.servers.Get(target))
      && forall other :: other != target ==> after.servers.Get(other) == before.servers.Get(other)
  {
    var a := states[n].queue[0].action;
    EditMakes(a, states[n].live.servers.Get(TargetOf(states[n].live.network, a)));
    assert Allowed(states[n], steps[n]) && states[n + 1] == Next(url, states[n], steps[n]);
  }

  /**
   * A call that looks at step `l` ends at once if an entry is refused, goes on to save if the edit sets
   * a server or would change what is there, and otherwise sends its edit unsaved.
   */
  lemma LookDecides(url: UrlParser, states: seq<State>, steps: seq<Step>, l: nat, id: nat)
    requires IsRun(url, states, steps) && l < |steps| && Looks(states[l], steps[l], id)
    ensures
      var a, calls := states[l].calls[id].action, states[l + 1].calls;
      var target := TargetOf(states[l].live.network, a);
      var present := states[l].live.servers.Get(target);
      var changes := a.SetServer? || !Makes(a, present, present);
      && (id !in calls <==> IsRefused(a))
      && (id in calls && calls[id].at.Saving? <==> !IsRefused(a) && changes)
      && (id in calls ==>
            calls[id].at
              == if changes then Saving(Look(target, present)) else Sending(Some(Look(target, present)), false))
  {
    var a := states[l].calls[id].action;
    EditMakes(a, states[l].live.servers.Get(TargetOf(states[l].live.network, a)));
    assert Allowed(states[l], steps[l]) && states[l + 1] == Next(url, states[l], steps[l]);
  }

  /** A call that looked at step `l` saves, at step `n`, what its edit makes of the servers it looked at. */
  lemma SavedEditMakes(url: UrlParser, states: seq<State>, steps: seq<Step>, l: nat, n: nat, id: nat)
    returns (saved: Servers)
    requires IsRun(url, states, steps) && Init(states[0]) && l < n < |steps| && Looks(states[l], steps[l], id)
    requires steps[n].Advance? && steps[n].id == id && id in states[n].calls && states[n].calls[id].at.Saving?
    requires id in states[n + 1].calls
    ensures
      var a := states[l].calls[id].action;
      var target := TargetOf(states[l].live.network, a);
      && Makes(a, states[l].live.servers.Get(target), saved)
      && OnDisk(url, states[n + 1].disk.Get(target), saved)
      && forall other :: other != target ==> states[n + 1].disk.Get(other) == states[n].disk.Get(other)
  {
    var a := states[l].calls[id].action;
    LookIsCarried(url, states, steps, l, n, id);
    saved := Edited(a, states[l].live.servers.Get(TargetOf(states[l].live.network, a))).0;
    RunIsOk(url, states, steps, n);
    assert CallOk(url, states[n], id, states[n].calls[id]);
    EditMakes(a, states[l].live.servers.Get(TargetOf(states[l].live.network, a)));
    assert Allowed(states[n], steps[n]) && states[n + 1] == Next(url, states[n], steps[n]);
  }

  /** What a file holds that was written for these servers. */
  lemma FileHolds(url: UrlParser, file: File, servers: Servers)
    requires OnDisk(url, file, servers)
    ensures
      && (file.stored.electrum.Some?
          <==> servers.electrum.Some? && Endpoints.ParseElectrum(servers.electrum.value).Some?)
      && (file.stored.electrum.Some? ==> file.stored.electrum == Endpoints.ParseElectrum(servers.electrum.value))
      && (file.stored.peer.Some? <==> servers.peer.Some? && Endpoints.ParsePeer(servers.peer.value).Some?)
      && (file.stored.peer.Some? ==> file.stored.peer == Endpoints.ParsePeer(servers.peer.value))
      && (file.stored.explorer.Some? <==> servers.explorer.Some?)
      && (file.stored.explorer.Some? ==> file.stored.explorer == url(servers.explorer.value))
  {
  }

  // ---------------------------------------------------------------- which files are written

  /** A file that is there and cannot be read back as plain servers. */
  predicate IsForeign(file: File) {
    !file.Missing? && !(file.Legacy? && Loads(file.stored) && ReadBack(file.stored).Some?)
  }

  /**
   * A call that is about to save writes exactly if the write succeeds, the explorer is an origin, all
   * hosts can be stored, and the file there, if any, can be read back. Otherwise it ends, and no file
   * changes.
   */
  lemma SaveDecides(url: UrlParser, states: seq<State>, steps: seq<Step>, n: nat, id: nat)
    requires IsRun(url, states, steps) && Init(states[0]) && n < |steps| && steps[n].Advance? && steps[n].id == id
    requires id in states[n].calls && states[n].calls[id].at.Saving?
    ensures
      var s, s' := states[n], states[n + 1];
      var target, file := s.calls[id].at.seen.target, s.disk.Get(s.calls[id].at.seen.target);
      var envelope := Envelope(url, Edited(s.calls[id].action, s.calls[id].at.seen.servers).0);
      && (id in s'.calls <==> steps[n].writes && envelope.Some? && !IsForeign(file))
      && (id !in s'.calls ==> s'.disk == s.disk)
      && (id in s'.calls ==>
            s'.disk == s.disk.Set(target, Legacy(envelope.value, if file.Missing? then 1 else file.version)))
      && s'.queue == s.queue && s'.live == s.live
  {
    assert Allowed(states[n], steps[n]) && states[n + 1] == Next(url, states[n], steps[n]);
  }

  lemma StepOnFile(url: UrlParser, s: State, step: Step, network: Network)
    requires Allowed(s, step) && Next(url, s, step).disk.Get(network) != s.disk.Get(network)
    ensures !IsForeign(s.disk.Get(network))
    ensures
      var before, after := s.disk.Get(network), Next(url, s, step).disk.Get(network);
      after.Legacy? && after.version == if before.Missing? then 1 else before.version
  {
    assert step.Advance? && s.calls[step.id].at.Saving?;
  }

  /** A file that cannot be read back is never overwritten, and every other keeps its catalog version. */
  lemma {:induction false} FilesAreKept(
      url: UrlParser, states: seq<State>, steps: seq<Step>, m: nat, n: nat, network: Network)
    requires IsRun(url, states, steps) && m <= n <= |steps|
    ensures
      var before, after := states[m].disk.Get(network), states[n].disk.Get(network);
      && (IsForeign(before) ==> after == before)
      && (before.Legacy? ==> after.Legacy? && after.version == before.version)
      && (before.Missing? ==> after.Missing? || (after.Legacy? && after.version == 1))
  {
    if m < n {
      FilesAreKept(url, states, steps, m, n - 1, network);
      if states[n].disk.Get(network) != states[n - 1].disk.Get(network) {
        assert Allowed(states[n - 1], steps[n - 1]) && states[n] == Next(url, states[n - 1], steps[n - 1]);
        StepOnFile(url, states[n - 1], steps[n - 1], network);
      }
    }
  }

  // ---------------------------------------------------------------- the queue

  /** At this step call `id` sends its action. */
  predicate Sends(s: State, step: Step, id: nat) {
    step.Advance? && step.id == id && id in s.calls && s.calls[id].at.Sending? && s.open
  }

  /** What is sent goes to the end of the queue, with the action of its call; the runtime takes from the front. */
  lemma QueueIsInOrder(url: UrlParser, states: seq<State>, steps: seq<Step>, n: nat)
    requires IsRun(url, states, steps) && n < |steps|
    ensures
      var s, step, after := states[n], steps[n], states[n + 1].queue;
      if step.Close? then after == []
      else if step.Apply? then s.queue != [] && after == s.queue[1..]
      else if step.Advance? && Sends(s, step, step.id) then
        |after| == |s.queue| + 1 && after[..|s.queue|] == s.queue
        && after[|s.queue|].id == step.id && after[|s.queue|].action == s.calls[step.id].action
      else after == s.queue
  {
    assert Allowed(states[n], steps[n]) && states[n + 1] == Next(url, states[n], steps[n]);
  }
}
