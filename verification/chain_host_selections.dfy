/** What a published stack rests on: the owner and the settings as its rebuild saw them, twice. */
module ChainHostSelections {
  import opened ChainHost
  import opened ChainHostCredentials
  import opened ChainHostLocks
  import opened Networks
  import opened Wrappers

  /**
   * What a look at the settings tells: a stopped reader is a fault, never a missing file; a missing
   * file leaves the choice to the owner; a policy or a fault on file stands for itself.
   */
  predicate Tells(s: State, c: Choice, app: App, network: Network, resolved: Result<Selection, Fault>) {
    if c.readerStopped then resolved == Err(ReaderStopped)
    else if network !in s.files || s.files[network] == Missing then resolved == Ok(app.legacy)
    else if s.files[network].Policy? then resolved == Ok(s.files[network].selection)
    else resolved == Err(s.files[network].fault)
  }

  // ---------------------------------------------------------------- from the first look to the publication

  predicate AfterFirstLook(p: Point) {
    p.AwaitPrevious? || p.AwaitOldService? || p.AwaitUninstall? || Replacing(p)
  }

  /** The call, as long as it runs, carries the selection of its first look. */
  predicate CarriesSelection(s: State, t: nat, selected: NativeSelection) {
    t in s.tasks ==> AfterFirstLook(s.tasks[t].at) && s.tasks[t].build.captured == selected
  }

  lemma OwnStepCarries(s: State, t: nat, c: Choice, selected: NativeSelection)
    requires t in s.tasks && CarriesSelection(s, t, selected)
    ensures CarriesSelection(Step(s, t, c), t, selected)
  {
    EffectKeepsTasks(s, t);
  }

  lemma FirstLookCarries(s: State, t: nat, c: Choice)
    requires t in s.tasks && s.tasks[t].at.AwaitSettings?
    ensures t in Step(s, t, c).tasks
    ensures
      var app, selected := s.tasks[t].build.app, Step(s, t, c).tasks[t].build.captured;
      && CarriesSelection(Step(s, t, c), t, selected)
      && selected.network == app.network && Tells(s, c, app, app.network, selected.resolved)
  {
    EffectKeepsTasks(s, t);
  }

  lemma OthersLeaveTask(s: State, a: Action, t: nat)
    requires Allowed(s, a) && !(a.Run? && a.task == t) && !(a.Spawn? && a.task == t)
    ensures t in Apply(s, a).tasks ==> t in s.tasks && Apply(s, a).tasks[t] == s.tasks[t]
  {
    if a.Run? { EffectKeepsTasks(s, a.task); }
  }

  lemma ActionCarries(s: State, a: Action, t: nat, selected: NativeSelection)
    requires Allowed(s, a) && CarriesSelection(s, t, selected) && !(a.Spawn? && a.task == t)
    ensures CarriesSelection(Apply(s, a), t, selected)
  {
    if a.Run? && a.task == t { OwnStepCarries(s, t, a.choice, selected); } else { OthersLeaveTask(s, a, t); }
  }

  lemma {:induction false} CallCarries(states: seq<State>, actions: seq<Action>, m: nat, n: nat, t: nat)
    returns (selected: NativeSelection)
    requires IsRun(states, actions) && m < n <= |actions| && Takes(states[m], actions[m], t, AwaitSettings)
    requires SameCall(actions, t, m, n)
    ensures CarriesSelection(states[n], t, selected)
    ensures
      var app := states[m].tasks[t].build.app;
      selected.network == app.network && Tells(states[m], actions[m].choice, app, app.network, selected.resolved)
  {
    assert StepAt(states, actions, n - 1);
    if n == m + 1 {
      FirstLookCarries(states[m], t, actions[m].choice);
      selected := states[n].tasks[t].build.captured;
    } else {
      selected := CallCarries(states, actions, m, n - 1, t);
      ActionCarries(states[n - 1], actions[n - 1], t, selected);
    }
  }

  // ---------------------------------------------------------------- the second look

  predicate AfterSecondLook(p: Point) {
    p.AwaitPublish? || StackWriter(p)
  }

  predicate HasChecked(p: Point) {
    p.CheckRevision? || p.CheckGeneration? || p.Publish?
  }

  /** The call, as long as it runs, carries what its second look read. */
  predicate CarriesRecheck(s: State, t: nat, read: Persisted) {
    t in s.tasks ==> AfterSecondLook(s.tasks[t].at) && s.tasks[t].build.recheck == read
  }

  lemma ActionCarriesRecheck(s: State, a: Action, t: nat, read: Persisted)
    requires Allowed(s, a) && CarriesRecheck(s, t, read) && !(a.Spawn? && a.task == t)
    ensures CarriesRecheck(Apply(s, a), t, read)
    ensures
      t in Apply(s, a).tasks ==>
        t in s.tasks && Apply(s, a).tasks[t].build.captured == s.tasks[t].build.captured
        && (HasChecked(Apply(s, a).tasks[t].at) ==> HasChecked(s.tasks[t].at) || Takes(s, a, t, CheckSelection))
  {
    if a.Run? && a.task == t { EffectKeepsTasks(s, t); } else { OthersLeaveTask(s, a, t); }
  }

  lemma SecondLookCarries(s: State, t: nat, c: Choice)
    requires t in s.tasks && s.tasks[t].at.AwaitRecheck?
    ensures
      var s' := Step(s, t, c);
      && t in s'.tasks && s'.tasks[t].at.AwaitPublish? && s'.tasks[t].build.captured == s.tasks[t].build.captured
      && CarriesRecheck(s', t, ReadFile(s, s.tasks[t].build.captured.network, c.readerStopped))
  {
    EffectKeepsTasks(s, t);
  }

  /** The check under the write guard passes only if the second look tells what the first one told. */
  lemma CheckCompares(s: State, t: nat, c: Choice, looked: State, choice: Choice)
    requires t in s.tasks && s.tasks[t].at.CheckSelection?
    requires s.tasks[t].build.recheck == ReadFile(looked, s.tasks[t].build.captured.network, choice.readerStopped)
    requires t in Step(s, t, c).tasks
    ensures
      var captured := s.tasks[t].build.captured;
      s.app.network == captured.network && Tells(looked, choice, s.app, captured.network, captured.resolved)
  {
  }

  /**
   * Before a call that looked a second time at step `r` has got past its check, it took it at a step `q`
   * in between, and the second look told of the owner of that moment what the first look had told.
   */
  lemma {:induction false} SecondLookAgrees(states: seq<State>, actions: seq<Action>, r: nat, n: nat, t: nat)
    returns (q: nat)
    requires IsRun(states, actions) && r < n <= |actions| && Takes(states[r], actions[r], t, AwaitRecheck)
    requires SameCall(actions, t, r, n)
    ensures
      CarriesRecheck(
        states[n], t, ReadFile(states[r], states[r].tasks[t].build.captured.network, actions[r].choice.readerStopped))
    ensures t in states[n].tasks ==> states[n].tasks[t].build.captured == states[r].tasks[t].build.captured
    ensures
      t in states[n].tasks && HasChecked(states[n].tasks[t].at) ==>
        var captured := states[r].tasks[t].build.captured;
        && r < q < n && Takes(states[q], actions[q], t, CheckSelection) && states[q].app.network == captured.network
        && Tells(states[r], actions[r].choice, states[q].app, captured.network, captured.resolved)
  {
    q := 0;
    assert StepAt(states, actions, n - 1);
    if n == r + 1 {
      SecondLookCarries(states[r], t, actions[r].choice);
    } else {
      q := SecondLookAgrees(states, actions, r, n - 1, t);
      var s, a := states[n - 1], actions[n - 1];
      ActionCarriesRecheck(
        s, a, t, ReadFile(states[r], states[r].tasks[t].build.captured.network, actions[r].choice.readerStopped));
      if t in states[n].tasks && Takes(s, a, t, CheckSelection) {
        CheckCompares(s, t, a.choice, states[r], actions[r].choice);
        q := n - 1;
      }
    }
  }

  // ---------------------------------------------------------------- main results

  /** The stack that the publishing step stores. */
  lemma PublicationStores(states: seq<State>, actions: seq<Action>, n: nat, t: nat)
    requires IsRun(states, actions) && n < |actions| && Takes(states[n], actions[n], t, Publish)
    ensures
      var stacks := states[n + 1].stacks;
      && |stacks| == |states[n].stacks| + 1 && states[n + 1].installed == Some(|stacks| - 1)
      && stacks[|stacks| - 1].selected == states[n].tasks[t].build.captured
      && stacks[|stacks| - 1].credentials == states[n].tasks[t].build.credentials
  {
    assert StepAt(states, actions, n);
  }

  /**
   * A call that takes its first look at the settings at step `m` and publishes at step `n` stores a stack
   * for what it was told then. If the reader stopped, that is the stack without routes, credentials and
   * header store, whatever the owner would have chosen.
   */
  lemma PublishedIsFirstLook(states: seq<State>, actions: seq<Action>, m: nat, n: nat, t: nat)
    requires IsRun(states, actions) && Init(states[0]) && m < n < |actions| && SameCall(actions, t, m, n)
    requires Takes(states[m], actions[m], t, AwaitSettings) && Takes(states[n], actions[n], t, Publish)
    ensures
      var stacks, app := states[n + 1].stacks, states[m].tasks[t].build.app;
      && |stacks| > 0 && states[n + 1].installed == Some(|stacks| - 1)
      && var stack := stacks[|stacks| - 1];
         && stack.selected.network == app.network
         && Tells(states[m], actions[m].choice, app, app.network, stack.selected.resolved)
         && (actions[m].choice.readerStopped ==>
               stack.selected.resolved == Err(ReaderStopped) && stack.credentials == None && stack.headers == None)
  {
    var selected := CallCarries(states, actions, m, n, t);
    PublicationStores(states, actions, n, t);
    FaultsInstallNoRoutes(states, actions, n + 1);
    assert StackShape(states[n + 1].stacks[|states[n + 1].stacks| - 1]);
  }

  /**
   * If its second look is at step `r`, it publishes only what that look, too, told of the owner when it
   * was checked. If the reader stopped then, that is only the very fault of a stopped reader.
   */
  lemma PublishedIsSecondLook(states: seq<State>, actions: seq<Action>, r: nat, n: nat, t: nat) returns (q: nat)
    requires IsRun(states, actions) && r < n < |actions| && SameCall(actions, t, r, n)
    requires Takes(states[r], actions[r], t, AwaitRecheck) && Takes(states[n], actions[n], t, Publish)
    ensures r < q < n && Takes(states[q], actions[q], t, CheckSelection)
    ensures
      var stacks := states[n + 1].stacks;
      && |stacks| > 0
      && var selected := stacks[|stacks| - 1].selected;
         && selected.network == states[q].app.network
         && Tells(states[r], actions[r].choice, states[q].app, selected.network, selected.resolved)
         && (actions[r].choice.readerStopped ==> selected.resolved == Err(ReaderStopped))
  {
    q := SecondLookAgrees(states, actions, r, n, t);
    PublicationStores(states, actions, n, t);
  }

  // ---------------------------------------------------------------- every publication has looked

  /** What a point says of the point and the owner it was reached from. */
  predicate Follows(before: Task, app: App, after: Task) {
    && (AfterFirstLook(after.at) ==> AfterFirstLook(before.at) || before.at.AwaitSettings?)
    && (AfterSecondLook(after.at) ==> AfterSecondLook(before.at) || before.at.AwaitRecheck?)
    && (after.at.AwaitSettings? ==> before.at.SnapshotOwner? && after.build.app == app)
    && (after.at.SnapshotOwner? ==> before.at.LoadGeneration?)
    && (after.at.LoadGeneration? ==> before.at == AwaitOwner(UnderLock))
    && (after.at.CheckGeneration? || after.at.Publish? ==>
          && (before.at.CheckRevision? || before.at.CheckGeneration?)
          && after.build.credentials == before.build.credentials)
  }

  lemma BuildingFollows(s: State, task: Task, c: Choice)
    requires Rebuilding(task.at) && !task.at.AwaitOwner? && !StackWriter(task.at)
    ensures Follows(task, s.app, AfterBuilding(s, task, c))
  {
  }

  lemma PassingFollows(s: State, t: nat, c: Choice)
    requires t in s.tasks
    ensures AfterPassing(s, t, c).Some? ==> Follows(s.tasks[t], s.app, AfterPassing(s, t, c).value)
  {
  }

  lemma StepFollows(s: State, t: nat, c: Choice)
    requires t in s.tasks && After(s, t, c).Some?
    ensures Follows(s.tasks[t], s.app, After(s, t, c).value)
  {
    var p := s.tasks[t].at;
    if p.AwaitStackRead? || p.BumpGeneration? || p.RevokeInstalled? || p.AwaitOwner? {
      assert After(s, t, c) == AfterInvalidating(s, s.tasks[t]);
    } else if SecretsWriter(p) || p.AwaitSecretsWrite? || p.AwaitRebuildLock? {
      assert After(s, t, c) == Some(s.tasks[t].(at := PointAfter(p)));
    } else if StackWriter(p) {
      assert After(s, t, c) == AfterChecking(s, s.tasks[t]);
    } else if HoldsRebuild(p) {
      BuildingFollows(s, s.tasks[t], c);
    } else {
      PassingFollows(s, t, c);
    }
  }

  /** How a task can have come where it is: it was there already, or has just taken a step. */
  lemma CameFrom(s: State, a: Action, t: nat)
    requires Allowed(s, a) && t in Apply(s, a).tasks
    ensures
      || (t in s.tasks && Apply(s, a).tasks[t] == s.tasks[t])
      || (a.Run? && a.task == t && t in s.tasks && Follows(s.tasks[t], s.app, Apply(s, a).tasks[t]))
      || (a.Spawn? && a.task == t && t !in s.tasks && Apply(s, a).tasks[t] == NewTask(a.job))
  {
    if a.Run? && a.task == t {
      EffectKeepsTasks(s, t);
      StepFollows(s, t, a.choice);
    } else if a.Run? {
      EffectKeepsTasks(s, a.task);
    }
  }

  lemma {:induction false} HasLooked(states: seq<State>, actions: seq<Action>, n: nat, t: nat) returns (m: nat)
    requires IsRun(states, actions) && Init(states[0]) && n <= |actions|
    requires t in states[n].tasks && AfterFirstLook(states[n].tasks[t].at)
    ensures m < n && Takes(states[m], actions[m], t, AwaitSettings) && SameCall(actions, t, m, n)
  {
    assert StepAt(states, actions, n - 1);
    CameFrom(states[n - 1], actions[n - 1], t);
    if Takes(states[n - 1], actions[n - 1], t, AwaitSettings) {
      m := n - 1;
    } else {
      m := HasLooked(states, actions, n - 1, t);
    }
  }

  lemma {:induction false} HasLookedAgain(states: seq<State>, actions: seq<Action>, n: nat, t: nat) returns (r: nat)
    requires IsRun(states, actions) && Init(states[0]) && n <= |actions|
    requires t in states[n].tasks && AfterSecondLook(states[n].tasks[t].at)
    ensures r < n && Takes(states[r], actions[r], t, AwaitRecheck) && SameCall(actions, t, r, n)
  {
    assert StepAt(states, actions, n - 1);
    CameFrom(states[n - 1], actions[n - 1], t);
    if Takes(states[n - 1], actions[n - 1], t, AwaitRecheck) {
      r := n - 1;
    } else {
      r := HasLookedAgain(states, actions, n - 1, t);
    }
  }

  /** The owner a call looks up the settings for is the one of its snapshot. */
  lemma {:induction false} HasSnapshot(states: seq<State>, actions: seq<Action>, n: nat, t: nat) returns (i: nat)
    requires IsRun(states, actions) && Init(states[0]) && n <= |actions|
    requires t in states[n].tasks && states[n].tasks[t].at.AwaitSettings?
    ensures i < n && Takes(states[i], actions[i], t, SnapshotOwner) && SameCall(actions, t, i, n)
    ensures states[n].tasks[t].build.app == states[i].app
  {
    assert StepAt(states, actions, n - 1);
    CameFrom(states[n - 1], actions[n - 1], t);
    if states[n - 1].tasks[t] == states[n].tasks[t] {
      i := HasSnapshot(states, actions, n - 1, t);
    } else {
      i := n - 1;
    }
  }

  /** Behind its check of the credentials a build has those of the revision it was checked at. */
  lemma CheckedRevision(s: State, t: nat, c: Choice)
    requires t in s.tasks && s.tasks[t].at.CheckRevision? && t in Step(s, t, c).tasks
    ensures
      var credentials := Step(s, t, c).tasks[t].build.credentials;
      credentials.Some? ==> credentials.value.revision == s.revision
  {
  }

  lemma {:induction false} HasComparedRevision(states: seq<State>, actions: seq<Action>, n: nat, t: nat)
    returns (v: nat)
    requires IsRun(states, actions) && Init(states[0]) && n <= |actions|
    requires t in states[n].tasks && (states[n].tasks[t].at.CheckGeneration? || states[n].tasks[t].at.Publish?)
    ensures v < n && Takes(states[v], actions[v], t, CheckRevision) && SameCall(actions, t, v, n)
    ensures
      var credentials := states[n].tasks[t].build.credentials;
      credentials.Some? ==> credentials.value.revision == states[v].revision
  {
    assert StepAt(states, actions, n - 1);
    CameFrom(states[n - 1], actions[n - 1], t);
    if Takes(states[n - 1], actions[n - 1], t, CheckRevision) {
      CheckedRevision(states[n - 1], t, actions[n - 1].choice);
      v := n - 1;
    } else {
      v := HasComparedRevision(states, actions, n - 1, t);
    }
  }

  /** The owner acknowledged the invalidation under the rebuild lock, so it was open then. */
  lemma {:induction false} HasAcknowledged(states: seq<State>, actions: seq<Action>, n: nat, t: nat) returns (k: nat)
    requires IsRun(states, actions) && Init(states[0]) && n <= |actions| && t in states[n].tasks
    requires states[n].tasks[t].at.SnapshotOwner? || states[n].tasks[t].at.LoadGeneration?
    ensures k < n && Takes(states[k], actions[k], t, AwaitOwner(UnderLock)) && states[k].open
  {
    assert StepAt(states, actions, n - 1);
    CameFrom(states[n - 1], actions[n - 1], t);
    if Takes(states[n - 1], actions[n - 1], t, AwaitOwner(UnderLock)) {
      k := n - 1;
      assert After(states[k], t, actions[k].choice) == AfterInvalidating(states[k], states[k].tasks[t]);
    } else {
      k := HasAcknowledged(states, actions, n - 1, t);
    }
  }

  /**
   * In every run: a stack that is published stands for the owner of a snapshot at step `i` and what the
   * settings told of it at step `m`; and a second look at step `r` told the same of the owner of step
   * `q`, when it was compared, who still is on that network. The owner had acknowledged the
   * invalidation at step `k`, and at step `v` the stack's credentials were of the current revision.
   */
  lemma EveryPublicationLooksTwice(states: seq<State>, actions: seq<Action>, n: nat, t: nat)
    returns (k: nat, i: nat, m: nat, r: nat, q: nat, v: nat)
    requires IsRun(states, actions) && Init(states[0]) && n < |actions| && Takes(states[n], actions[n], t, Publish)
    ensures k < i < m < r < q < n && v < n
    ensures Takes(states[k], actions[k], t, AwaitOwner(UnderLock)) && states[k].open
    ensures Takes(states[v], actions[v], t, CheckRevision) && SameCall(actions, t, v, n)
    ensures Takes(states[i], actions[i], t, SnapshotOwner) && Takes(states[m], actions[m], t, AwaitSettings)
    ensures Takes(states[r], actions[r], t, AwaitRecheck) && Takes(states[q], actions[q], t, CheckSelection)
    ensures SameCall(actions, t, i, m) && SameCall(actions, t, m, n) && SameCall(actions, t, r, n)
    ensures
      var stacks := states[n + 1].stacks;
      && |stacks| > 0 && states[n + 1].installed == Some(|stacks| - 1)
      && var selected := stacks[|stacks| - 1].selected;
         && selected.network == states[i].app.network == states[q].app.network
         && Tells(states[m], actions[m].choice, states[i].app, selected.network, selected.resolved)
         && Tells(states[r], actions[r].choice, states[q].app, selected.network, selected.resolved)
    ensures
      var stacks := states[n + 1].stacks;
      var credentials := stacks[|stacks| - 1].credentials;
      credentials.Some? ==> credentials.value.revision == states[v].revision
  {
    PublicationStores(states, actions, n, t);
    r := HasLookedAgain(states, actions, n, t);
    m := HasLooked(states, actions, r, t);
    i := HasSnapshot(states, actions, m, t);
    k := HasAcknowledged(states, actions, i, t);
    v := HasComparedRevision(states, actions, n, t);
    PublishedIsFirstLook(states, actions, m, n, t);
    q := PublishedIsSecondLook(states, actions, r, n, t);
  }
}
