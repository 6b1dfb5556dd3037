/** Restoring the settings files at the start of the application, and what of a session comes back. */
module SettingsRestore {
  import opened Networks
  import opened NetworkSettings
  import opened ServerOverrides
  import opened Wrappers

  /** What a file makes of its network's servers; None if it does not load or an entry is refused. */
  function RestoredServers(file: File, present: Servers): Option<Servers> {
    match file
    case Missing => Some(present)
    case Rich => Some(present)
    case Corrupt => None
    case Legacy(stored, _) => if Loads(stored) then Restored(stored, present) else None
  }

  // ---------------------------------------------------------------- what comes back of a session

  ghost predicate LiveKept(live: Live) {
    forall n: Network :: AllKept(live.servers.Get(n))
  }

  lemma PlacingKeeps(base: Servers, kind: Kind, entry: string)
    requires AllKept(base)
    ensures Placed(base, kind, entry).Some? ==> AllKept(Placed(base, kind, entry).value)
  {
    if Validated(kind, entry).Canonical? { assert IsKept(kind, Validated(kind, entry).entry); }
  }

  lemma PlacingIfAnyKeeps(base: Option<Servers>, kind: Kind, entry: Option<string>)
    requires base.Some? ==> AllKept(base.value)
    ensures PlacedIfAny(base, kind, entry).Some? ==> AllKept(PlacedIfAny(base, kind, entry).value)
  {
    if base.Some? && entry.Some? { PlacingKeeps(base.value, kind, entry.value); }
  }

  lemma PlacingAllKeeps(base: Servers, entries: Servers)
    requires AllKept(base)
    ensures PlacedAll(base, entries).Some? ==> AllKept(PlacedAll(base, entries).value)
  {
    var electrum := PlacedIfAny(Some(base), Electrum, entries.electrum);
    var peer := PlacedIfAny(electrum, Peer, entries.peer);
    PlacingIfAnyKeeps(Some(base), Electrum, entries.electrum);
    PlacingIfAnyKeeps(electrum, Peer, entries.peer);
    PlacingIfAnyKeeps(peer, Explorer, entries.explorer);
  }

  lemma EditingKeeps(a: AppAction, present: Servers)
    requires AllKept(present)
    ensures AllKept(Edited(a, present).0)
  {
    match a
    case SetServer(kind, entry) => PlacingKeeps(present, kind, entry);
    case ReplaceNetworkServers(_, servers) => PlacingAllKeeps(DEFAULTS.(explorer := present.explorer), servers);
    case _ =>
  }

  lemma ReducingKeeps(live: Live, a: AppAction)
    requires LiveKept(live)
    ensures LiveKept(Reduce(live, a))
  {
    var target := Target(live.network, a);
    if Edits(a) { EditingKeeps(a, live.servers.Get(target)); }
    forall n: Network
      ensures AllKept(Reduce(live, a).servers.Get(n))
    {
      assert AllKept(live.servers.Get(n));
    }
  }

  lemma OnlyApplyingTouchesServers(url: UrlParser, s: State, step: Step)
    requires Allowed(s, step)
    ensures
      Next(url, s, step).live.servers
        == if step.Apply? then Reduce(s.live, s.queue[0].action).servers else s.live.servers
  {
  }

  /** Live servers are always what the parsers let through. */
  lemma {:induction false} LiveStaysKept(url: UrlParser, states: seq<State>, steps: seq<Step>, n: nat)
    requires IsRun(url, states, steps) && LiveKept(states[0].live) && n <= |steps|
    ensures LiveKept(states[n].live)
  {
    if n > 0 {
      LiveStaysKept(url, states, steps, n - 1);
      OnlyApplyingTouchesServers(url, states[n - 1], steps[n - 1]);
      if steps[n - 1].Apply? { ReducingKeeps(states[n - 1].live, states[n - 1].queue[0].action); }
    }
  }

  /**
   * At every moment of every run: if the application started again, a network whose file agrees with
   * its live servers would have exactly these servers again if and only if each address that is set has
   * a plain host and an explorer that is set is written as its URL's origin.
   */
  lemma RestartKeepsServersIff(url: UrlParser, states: seq<State>, steps: seq<Step>, n: nat, network: Network)
    requires IsRun(url, states, steps) && Init(states[0]) && LiveKept(states[0].live) && n <= |steps|
    requires network in states[n].edited && network !in states[n].adrift
    ensures
      var servers := states[n].live.servers.Get(network);
      RestoredServers(states[n].disk.Get(network), DEFAULTS) == Some(servers) <==> AllSurvive(url, servers)
  {
    DiskAgreesWithLive(url, states, steps, n, network);
    LiveStaysKept(url, states, steps, n);
    SavedServersAreRestoredIff(url, states[n].live.servers.Get(network));
  }

  // ---------------------------------------------------------------- the host's restore

  class Host {
    var live: Live
    var disk: PerNetwork<File>

    constructor (live: Live, disk: PerNetwork<File>)
      ensures this.live == live && this.disk == disk
    {
      this.live, this.disk := live, disk;
    }

    /** `apply_servers`: resets the network and sets each entry, failing at the first one refused. */
    static method ApplyServers(state: Live, network: Network, servers: Servers) returns (r: Option<Live>)
      ensures r.Some? <==> PlacedAll(DEFAULTS, servers).Some?
      ensures
        r.Some? ==> r.value == state.(servers := state.servers.Set(network, PlacedAll(DEFAULTS, servers).value))
    {
      var applied := DEFAULTS;
      if servers.electrum.Some? {
        var placed := Placed(applied, Electrum, servers.electrum.value);
        if placed.None? { return None; }
        applied := placed.value;
      }
      if servers.peer.Some? {
        var placed := Placed(applied, Peer, servers.peer.value);
        if placed.None? { return None; }
        applied := placed.value;
      }
      if servers.explorer.Some? {
        var placed := Placed(applied, Explorer, servers.explorer.value);
        if placed.None? { return None; }
        applied := placed.value;
      }
      r := Some(state.(servers := state.servers.Set(network, applied)));
    }

    ghost predicate Restorable(n: Network)
      reads this
    {
      RestoredServers(disk.Get(n), live.servers.Get(n)).Some?
    }

    /** `restore`: all files are read into a copy, which is published only if every read succeeds. */
    method Restore() returns (restored: bool)
      modifies this`live
      ensures restored <==> forall n: Network :: old(Restorable(n))
      ensures restored ==> forall n: Network :: !disk.Get(n).Corrupt?
      ensures
        restored ==>
          forall n: Network ::
            var file := disk.Get(n);
            if file.Legacy? && ReadBack(file.stored).Some?
            then Some(live.servers.Get(n)) == PlacedAll(DEFAULTS, ReadBack(file.stored).value)
            else live.servers.Get(n) == old(live.servers.Get(n))
      ensures !restored ==> live == old(live)
      ensures
        restored ==>
          && live.network == old(live.network)
          && forall n: Network ::
               Some(live.servers.Get(n)) == RestoredServers(disk.Get(n), old(live.servers.Get(n)))
    {
      var copy := live;
      var networks := [Mainnet, Chipnet, Regtest];
      var i := 0;
      while i < |networks|
        invariant 0 <= i <= |networks|
        invariant copy.network == live.network && live == old(live)
        invariant forall k :: 0 <= k < |networks| ==>
          Some(copy.servers.Get(networks[k]))
            == if k < i then RestoredServers(disk.Get(networks[k]), live.servers.Get(networks[k]))
               else Some(live.servers.Get(networks[k]))
      {
        var file := disk.Get(networks[i]);
        if file.Corrupt? || (file.Legacy? && !Loads(file.stored)) {
          assert !Restorable(networks[i]);
          return false;
        }
        if file.Legacy? && ReadBack(file.stored).Some? {
          var applied := ApplyServers(copy, networks[i], ReadBack(file.stored).value);
          if applied.None? {
            assert !Restorable(networks[i]);
            return false;
          }
          copy := applied.value;
        }
        i := i + 1;
      }
      forall n: Network
        ensures Some(copy.servers.Get(n)) == RestoredServers(disk.Get(n), live.servers.Get(n))
      {
        assert n == networks[if n == Mainnet then 0 else if n == Chipnet then 1 else 2];
      }
      live := copy;
      restored := true;
    }
  }
}
