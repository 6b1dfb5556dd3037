/**
 * The host object itself. Its methods are the source's async functions; what the owner and other calls
 * change while a rebuild probes is a parameter. Without such changes their meaning is the one that
 * `ChainHostSolo` relates to the concurrent steps.
 */
module NativeChain {
  import opened Wrappers
  import opened ChainHost
  import opened Networks
  import opened ChainHostSolo

  // ---------------------------------------------------------------- a rebuild amid changes

  /**
   * What changes while a rebuild probes: the owner, the files, invalidations, and credentials replaced.
   * Either of its two looks at the settings may find the reader `stopped`.
   */
  datatype Meanwhile = Meanwhile(
    app: App, files: map<Network, Persisted>, bumps: nat, replaced: seq<Secrets>, stopped: bool, stoppedAgain: bool)

  function Undisturbed(s: State, stopped: bool): Meanwhile {
    Meanwhile(s.app, s.files, 0, [], stopped, stopped)
  }

  function Disturbed(s: State, m: Meanwhile): State {
    s.(app := m.app, files := m.files, generation := s.generation + m.bumps,
       secrets := if m.replaced == [] then s.secrets else m.replaced[|m.replaced| - 1],
       revision := s.revision + |m.replaced|, issued := s.issued + m.replaced)
  }

  /** The comparison under the write guard, of what a build captured in `bare` with the state `now`. */
  predicate Stale(bare: State, now: State, m: Meanwhile) {
    || now.app.network != bare.app.network
    || ResolveSelection(now.app, ReadFile(now, bare.app.network, m.stoppedAgain)) != Selected(bare, m.stopped)
    || (Selected(bare, m.stopped).resolved.Ok? && now.revision != bare.revision)
    || now.generation != bare.generation
  }

  /** `rebuild_selection_after_invalidation`: a stale build is discarded. */
  function RebuiltAmid(s: State, m: Meanwhile): State {
    if !s.open then Invalidated(s)
    else
      var bare := Uninstalled(Invalidated(s));
      var chained := if Selected(bare, m.stopped).resolved.Ok? then WithChain(bare, bare.app.network) else bare;
      var now := Disturbed(chained, m);
      if Stale(bare, now, m) then now else Installed(now, Replacement(bare, m.stopped))
  }

  function SelectionRebuiltAmid(s: State, m: Meanwhile): State {
    if s.open then RebuiltAmid(Invalidated(s), m) else Invalidated(s)
  }

  function SecretsReplacedAmid(s: State, secrets: Secrets, m: Meanwhile): State {
    if s.open then RebuiltAmid(Resecured(Invalidated(s), secrets), m) else Invalidated(s)
  }

  lemma NothingIsStale(bare: State, stopped: bool)
    ensures
      var chained := if Selected(bare, stopped).resolved.Ok? then WithChain(bare, bare.app.network) else bare;
      var m := Undisturbed(bare, stopped);
      Disturbed(chained, m) == chained && !Stale(bare, chained, m)
  {
  }

  /** Undisturbed, this is the meaning the concurrent steps were proved to add up to. */
  lemma UndisturbedRebuild(s: State, stopped: bool)
    ensures RebuiltAmid(s, Undisturbed(s, stopped)) == Rebuilt(s, stopped)
  {
    var bare := Uninstalled(Invalidated(s));
    assert Undisturbed(bare, stopped) == Undisturbed(s, stopped);
    NothingIsStale(bare, stopped);
  }

  /** Likewise for both calls, which the concurrent steps reach when nothing disturbs them. */
  lemma UndisturbedCalls(s: State, secrets: Secrets, stopped: bool)
    ensures SelectionRebuiltAmid(s, Undisturbed(s, stopped)) == RebuiltSelection(s, stopped)
    ensures SecretsReplacedAmid(s, secrets, Undisturbed(s, stopped)) == ReplacedSecrets(s, secrets, stopped)
  {
    UndisturbedRebuild(Invalidated(s), stopped);
    assert Undisturbed(Invalidated(s), stopped) == Undisturbed(s, stopped);
    UndisturbedRebuild(Resecured(Invalidated(s), secrets), stopped);
    assert Undisturbed(Resecured(Invalidated(s), secrets), stopped) == Undisturbed(s, stopped);
  }

  /** The stack that was installed is revoked, and every stack keeps what it was built for. */
  predicate RevokesInstalled(s: State, r: State) {
    && |s.stacks| <= |r.stacks|
    && (forall i :: 0 <= i < |s.stacks| ==>
          && r.stacks[i].generation == s.stacks[i].generation && r.stacks[i].selected == s.stacks[i].selected
          && r.stacks[i].credentials == s.stacks[i].credentials && r.stacks[i].headers == s.stacks[i].headers
          && (r.stacks[i].revoked <==> s.stacks[i].revoked || s.installed == Some(i)))
  }

  /** What a call does whatever its build ends in. */
  predicate Retires(s: State, r: State, bumps: nat) {
    && RevokesInstalled(s, r) && r.generation == s.generation + bumps
    && (!s.open ==> r.installed == s.installed && r.secrets == s.secrets && r.revision == s.revision)
    && (s.open && s.installed.Some? && s.installed.value < |s.stacks| ==>
          r.installed != s.installed && r.stacks[s.installed.value].cleared)
  }

  lemma TakingOutRetires(s: State)
    ensures RevokesInstalled(s, Uninstalled(Invalidated(s))) && |Uninstalled(Invalidated(s)).stacks| == |s.stacks|
    ensures
      s.installed.Some? && s.installed.value < |s.stacks| ==>
        Uninstalled(Invalidated(s)).stacks[s.installed.value].cleared
  {
  }

  /** Either nothing is installed afterwards, or one stack more than there was. */
  lemma RebuildAppends(s: State, m: Meanwhile)
    requires s.open
    ensures
      var bare, r := Uninstalled(Invalidated(s)), RebuiltAmid(s, m);
      && |bare.stacks| <= |r.stacks| && r.stacks[..|bare.stacks|] == bare.stacks
      && (r.installed == None || r.installed == Some(|bare.stacks|))
      && r.generation == s.generation + 1 + m.bumps && r.revision == s.revision + |m.replaced|
      && r.secrets == if m.replaced == [] then s.secrets else m.replaced[|m.replaced| - 1]
  {
  }

  lemma RebuildRetires(s: State, m: Meanwhile)
    ensures Retires(s, RebuiltAmid(s, m), if s.open then 1 + m.bumps else 1)
  {
    if s.open {
      var bare, r := Uninstalled(Invalidated(s)), RebuiltAmid(s, m);
      TakingOutRetires(s);
      RebuildAppends(s, m);
      assert forall i :: 0 <= i < |bare.stacks| ==> r.stacks[i] == r.stacks[..|bare.stacks|][i];
    }
  }

  lemma RetiresLater(s: State, mid: State, r: State, bumps: nat)
    requires mid.open == s.open && mid.installed == s.installed && |mid.stacks| == |s.stacks|
    requires RevokesInstalled(s, mid)
    requires mid.generation == s.generation + 1 && s.open && Retires(mid, r, bumps)
    ensures Retires(s, r, bumps + 1)
  {
  }

  /**
   * A call of a closed owner only retires what is there, and leaves the credentials. Otherwise it
   * retires twice, takes the old stack out with its routes, and ends under the credentials that were
   * there, or the new ones, or what replaced them meanwhile.
   */
  lemma CallsRetire(s: State, secrets: Secrets, m: Meanwhile)
    ensures Retires(s, SelectionRebuiltAmid(s, m), if s.open then 2 + m.bumps else 1)
    ensures Retires(s, SecretsReplacedAmid(s, secrets, m), if s.open then 2 + m.bumps else 1)
    ensures
      s.open ==>
        var rebuilt, replaced := SelectionRebuiltAmid(s, m), SecretsReplacedAmid(s, secrets, m);
        && rebuilt.revision == s.revision + |m.replaced| && replaced.revision == s.revision + 1 + |m.replaced|
        && (m.replaced == [] ==> rebuilt.secrets == s.secrets && replaced.secrets == secrets)
  {
    var told := Invalidated(s);
    assert RevokesInstalled(s, told);
    if s.open {
      RebuildRetires(told, m);
      RebuildAppends(told, m);
      RetiresLater(s, told, RebuiltAmid(told, m), 1 + m.bumps);
      RebuildRetires(Resecured(told, secrets), m);
      RebuildAppends(Resecured(told, secrets), m);
      RetiresLater(s, Resecured(told, secrets), RebuiltAmid(Resecured(told, secrets), m), 1 + m.bumps);
    }
  }

  /** What a look at the settings of `network` tells: a fault, the persisted policy, or the owner's own choice. */
  predicate Tells(app: App, files: map<Network, Persisted>, network: Network, stopped: bool,
                  resolved: Result<Selection, Fault>) {
    if stopped then resolved == Err(ReaderStopped)
    else if network !in files || files[network] == Missing then resolved == Ok(app.legacy)
    else if files[network].Policy? then resolved == Ok(files[network].selection)
    else resolved == Err(files[network].fault)
  }

  /**
   * A build is published exactly if nothing it rests on changed meanwhile: the network, what the settings
   * tell, the generation and, for a stack with routes, the credentials.
   */
  lemma StaleBuildsAreDiscarded(s: State, m: Meanwhile, first: Result<Selection, Fault>)
    requires s.open && Tells(s.app, s.files, s.app.network, m.stopped, first)
    ensures
      RebuiltAmid(s, m).installed.Some?
      <==> m.app.network == s.app.network && m.bumps == 0
           && Tells(m.app, m.files, s.app.network, m.stoppedAgain, first)
           && (first.Ok? ==> m.replaced == [])
  {
  }

  /** Whatever changed meanwhile, a stack that is published is current in every respect. */
  lemma PublishedIsCurrent(s: State, m: Meanwhile)
    requires s.open && RebuiltAmid(s, m).installed.Some?
    ensures
      var r := RebuiltAmid(s, m);
      var stack := r.stacks[|r.stacks| - 1];
      && r.installed == Some(|r.stacks| - 1) && !stack.revoked
      && stack.generation == r.generation && stack.selected.network == r.app.network
      && Tells(s.app, s.files, s.app.network, m.stopped, stack.selected.resolved)
      && Tells(r.app, r.files, r.app.network, m.stoppedAgain, stack.selected.resolved)
      && stack.credentials
           == (if stack.selected.resolved.Ok? then Some(Credentials(r.revision, r.secrets)) else None)
      && (stack.selected.resolved.Err? ==> stack.headers == None)
  {
  }

  // ---------------------------------------------------------------- the objects

  /** A built stack. Callers keep references to it, and its revocation is shared by all of them. */
  class NativeChainStack {
    const generation: nat
    const selected: NativeSelection
    const credentials: Option<Credentials>
    const headers: Option<nat>
    var revoked: bool
    var cleared: bool

    constructor (generation: nat, selected: NativeSelection, credentials: Option<Credentials>, headers: Option<nat>)
      ensures Value() == Stack(generation, selected, credentials, headers, false, false)
    {
      this.generation := generation;
      this.selected := selected;
      this.credentials := credentials;
      this.headers := headers;
      revoked := false;
      cleared := false;
    }

    function Value(): Stack
      reads this
    {
      Stack(generation, selected, credentials, headers, revoked, cleared)
    }
  }

  class NativeChainRuntime {
    // The owner and the settings files, as this host sees them.
    var open: bool
    var app: App
    var files: map<Network, Persisted>

    var stack: NativeChainStack?
    var generation: nat
    var secrets: Secrets
    var credentialRevision: nat
    var accepted: Option<Accepted>
    var nextStore: nat

    // Every stack ever installed, and the secrets of every revision.
    ghost var history: seq<NativeChainStack>
    ghost var issued: seq<Secrets>

    ghost predicate Valid()
      reads this
    {
      && (forall i, j :: 0 <= i < j < |history| ==> history[i] != history[j])
      && (stack != null ==> |history| > 0 && stack == history[|history| - 1])
    }

    /** The abstract value: the shared part of the concurrent model. */
    ghost function Shared(): State
      reads this, history
    {
      State(open, app, files, generation, Values(history), if stack == null then None else Some(Last()),
            secrets, credentialRevision, issued, accepted, nextStore, map[])
    }

    ghost function Last(): nat
      reads this
    {
      if |history| == 0 then 0 else |history| - 1
    }

    static ghost function Values(stacks: seq<NativeChainStack>): seq<Stack>
      reads stacks
    {
      seq(|stacks|, i requires 0 <= i < |stacks| reads stacks => stacks[i].Value())
    }

    constructor (open: bool, app: App, files: map<Network, Persisted>, secrets: Secrets)
      ensures Valid() && Init(Shared()) && Shared().open == open && Shared().app == app && Shared().files == files
    {
      this.open := open;
      this.app := app;
      this.files := files;
      this.secrets := secrets;
      stack := null;
      generation := 0;
      credentialRevision := 0;
      accepted := None;
      nextStore := 0;
      history := [];
      issued := [secrets];
    }

    /** `accepted_chain` */
    method AcceptedChain(network: Network) returns (chain: Option<Accepted>)
      requires Valid()
      modifies this`accepted, this`nextStore
      ensures Valid() && Shared() == WithChain(old(Shared()), network)
      ensures chain == ChainFor(old(Shared()), network)
    {
      if accepted.None? || accepted.value.network != network {
        if !HasVerifier(network) {
          return None;
        }
        accepted := Some(Accepted(network, nextStore, View(network, 0)));
        nextStore := nextStore + 1;
      }
      chain := accepted;
    }

    /** `publish_header_view` */
    method PublishHeaderView(network: Network, view: View)
      requires Valid()
      modifies this`accepted
      ensures Valid() && Shared() == WithView(old(Shared()), network, view)
    {
      if accepted.Some? && accepted.value.network == network {
        accepted := Some(accepted.value.(view := view));
      }
    }

    /** `invalidate_current_wallet_sync` */
    method InvalidateCurrentWalletSync() returns (acknowledged: bool)
      requires Valid()
      modifies this`generation, stack
      ensures Valid() && Shared() == Invalidated(old(Shared()))
      ensures acknowledged == open
    {
      generation := generation + 1;
      if stack != null {
        stack.revoked := true;
      }
      assert Values(history) == Revoked(old(Shared()));
      acknowledged := open;
    }

    method TakeOut()
      requires Valid()
      modifies this`stack, stack
      ensures Valid() && Shared() == Uninstalled(old(Shared()))
    {
      if stack != null {
        stack.cleared := true;
      }
      assert Values(history) == Uninstalled(old(Shared())).stacks;
      stack := null;
    }

    method Install(replacement: NativeChainStack)
      requires Valid() && replacement !in history
      modifies this`stack, this`history
      ensures Valid() && Shared() == Installed(old(Shared()), replacement.Value())
    {
      stack := replacement;
      history := history + [replacement];
      assert Values(history) == old(Values(history)) + [replacement.Value()];
    }

    /** What others do while the replacement is being built. */
    method Suffer(m: Meanwhile)
      requires Valid()
      modifies this`app, this`files, this`generation, this`secrets, this`credentialRevision, this`issued
      ensures Valid() && Shared() == Disturbed(old(Shared()), m)
    {
      app := m.app;
      files := m.files;
      generation := generation + m.bumps;
      if m.replaced != [] {
        secrets := m.replaced[|m.replaced| - 1];
      }
      credentialRevision := credentialRevision + |m.replaced|;
      issued := issued + m.replaced;
      assert Values(history) == old(Values(history));
    }

    /** `resolve_selection` of the owner and what is persisted for `network`. */
    function Resolve(network: Network, stopped: bool): NativeSelection
      reads this`app, this`files
    {
      ResolveSelection(
        app, if stopped then Unreadable(ReaderStopped) else if network in files then files[network] else Missing)
    }

    /** `rebuild_selection_after_invalidation` */
    method RebuildSelectionAfterInvalidation(m: Meanwhile) returns (alive: bool)
      requires Valid()
      modifies this, stack
      ensures Valid() && Shared() == RebuiltAmid(old(Shared()), m)
      ensures alive == old(open)
    {
      alive := InvalidateCurrentWalletSync();
      if !alive {
        return;
      }
      var captured := Resolve(app.network, m.stopped);
      TakeOut();
      PublishUnlessStale(captured, m);
    }

    /** The build, the second look at the settings, and the checks under the write guard. */
    method PublishUnlessStale(captured: NativeSelection, m: Meanwhile)
      requires Valid() && captured == Selected(Shared(), m.stopped) && stack == null
      modifies this
      ensures Valid()
      ensures
        var bare := old(Shared());
        var chained := if captured.resolved.Ok? then WithChain(bare, captured.network) else bare;
        var now := Disturbed(chained, m);
        Shared() == if Stale(bare, now, m) then now else Installed(now, Replacement(bare, m.stopped))
    {
      var builtFor, builtWith := generation, credentialRevision;
      var replacement := Build(captured, m.stopped);
      Suffer(m);
      if app.network != captured.network || Resolve(captured.network, m.stoppedAgain) != captured {
        return;
      }
      if captured.resolved.Ok? && credentialRevision != builtWith {
        return;
      }
      if generation != builtFor {
        return;
      }
      Install(replacement);
    }

    /** The stack for the captured selection: with routes and the accepted chain, or without either. */
    method Build(captured: NativeSelection, ghost stopped: bool) returns (replacement: NativeChainStack)
      requires Valid() && captured == Selected(Shared(), stopped)
      modifies this`accepted, this`nextStore
      ensures Valid() && fresh(replacement) && replacement.Value() == Replacement(old(Shared()), stopped)
      ensures
        Shared() == if captured.resolved.Ok? then WithChain(old(Shared()), captured.network) else old(Shared())
    {
      if captured.resolved.Ok? {
        var credentials := Credentials(credentialRevision, secrets);
        var chain := AcceptedChain(captured.network);
        replacement := new NativeChainStack(
          generation, captured, Some(credentials), if chain.Some? then Some(chain.value.store) else None);
      } else {
        replacement := new NativeChainStack(generation, captured, None, None);
      }
    }

    /** `rebuild_selection` */
    method RebuildSelection(m: Meanwhile) returns (alive: bool)
      requires Valid()
      modifies this, stack
      ensures Valid() && Shared() == SelectionRebuiltAmid(old(Shared()), m)
      ensures alive == old(open)
    {
      alive := InvalidateCurrentWalletSync();
      if alive {
        alive := RebuildSelectionAfterInvalidation(m);
      }
    }

    /** The section of `replace_secrets` under the secrets write guard. */
    method InstallSecrets(replacement: Secrets)
      requires Valid()
      modifies this`secrets, this`credentialRevision, this`issued
      ensures Valid() && Shared() == Resecured(old(Shared()), replacement)
    {
      secrets := replacement;
      credentialRevision := credentialRevision + 1;
      issued := issued + [replacement];
    }

    /** `replace_secrets` */
    method ReplaceSecrets(replacement: Secrets, m: Meanwhile)
      requires Valid()
      modifies this, stack
      ensures Valid() && Shared() == SecretsReplacedAmid(old(Shared()), replacement, m)
    {
      var acknowledged := InvalidateCurrentWalletSync();
      if !acknowledged {
        return;
      }
      InstallSecrets(replacement);
      var _ := RebuildSelectionAfterInvalidation(m);
    }
  }
}
