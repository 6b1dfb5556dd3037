/**
 * Sync passes and the accepted chain: a pass joins a store and a view, and much later publishes its
 * own view into whatever chain of its network is there then.
 */
module ChainHostPasses {
  import opened ChainHost
  import opened ChainHostHeaders
  import opened ChainHostLocks
  import opened Networks
  import opened Wrappers

  // ---------------------------------------------------------------- a pass from its join to its publication

  /** Task `t` joins the accepted chain. */
  predicate Joining(s: State, a: Action, t: nat) {
    a.Run? && a.task == t && t in s.tasks && s.tasks[t].at.AwaitChain?
  }

  /** Task `t` publishes the view it reached. */
  predicate Publishing(s: State, a: Action, t: nat) {
    a.Run? && a.task == t && t in s.tasks && s.tasks[t].at.AwaitViewPublish?
  }

  /** The pass that joins at step `m` is the one that publishes at step `n`. */
  ghost predicate IsPass(states: seq<State>, actions: seq<Action>, m: nat, n: nat, t: nat) {
    && m < n < |actions| < |states|
    && Joining(states[m], actions[m], t) && Publishing(states[n], actions[n], t) && SameCall(actions, t, m, n)
  }

  /** The chain a pass of `network` joins in `s`. */
  function Joined(s: State, t: nat): Option<Accepted>
    requires t in s.tasks
  {
    ChainFor(s, s.tasks[t].pass.network)
  }

  function StoreOf(chain: Option<Accepted>): Option<nat> {
    if chain.Some? then Some(chain.value.store) else None
  }

  function ViewOf(chain: Option<Accepted>): Option<View> {
    if chain.Some? then Some(chain.value.view) else None
  }

  /** The pass, as long as it runs, carries what it joined. */
  predicate Follows(s: State, t: nat, network: Network, chain: Option<Accepted>) {
    t in s.tasks ==>
      var task := s.tasks[t];
      && (task.at.AwaitSync? || task.at.AwaitViewPublish?)
      && task.pass.network == network && task.pass.store == StoreOf(chain)
      && (task.at.AwaitSync? ==> task.pass.view == ViewOf(chain))
      && (task.at.AwaitViewPublish? ==> chain.Some? && task.pass.view.Some?)
  }

  /** A pass returns no earlier a view than it was given. */
  predicate Advances(s: State, a: Action) {
    a.Run? && a.task in s.tasks && s.tasks[a.task].at.AwaitSync?
    && s.tasks[a.task].pass.view.Some? && a.choice.progress.Some? ==>
      s.tasks[a.task].pass.view.value.progress <= a.choice.progress.value
  }

  /** The view the pass is about to publish is no earlier than the one it joined. */
  predicate IsAhead(s: State, t: nat, chain: Option<Accepted>) {
    t in s.tasks && s.tasks[t].at.AwaitViewPublish? && s.tasks[t].pass.view.Some? && chain.Some? ==>
      chain.value.view.progress <= s.tasks[t].pass.view.value.progress
  }

  /** A join makes the pass carry the chain it joined, which is the accepted one from then on. */
  lemma JoinFollows(s: State, t: nat, c: Choice)
    requires t in s.tasks && s.tasks[t].at.AwaitChain?
    ensures Follows(Step(s, t, c), t, s.tasks[t].pass.network, Joined(s, t)) && IsAhead(Step(s, t, c), t, Joined(s, t))
    ensures Joined(s, t).Some? ==> Step(s, t, c).accepted == Joined(s, t)
  {
  }

  lemma OwnStepFollows(s: State, t: nat, c: Choice, network: Network, chain: Option<Accepted>)
    requires t in s.tasks && Follows(s, t, network, chain)
    ensures Follows(Step(s, t, c), t, network, chain)
    ensures Advances(s, Run(t, c)) ==> IsAhead(Step(s, t, c), t, chain)
  {
    assert After(s, t, c) == AfterPassing(s, t, c);
    EffectKeepsTasks(s, t);
  }

  lemma OthersStepLeavesTask(s: State, t: nat, u: nat, c: Choice)
    requires u in s.tasks && t != u
    ensures t in s.tasks <==> t in Step(s, u, c).tasks
    ensures t in s.tasks ==> Step(s, u, c).tasks[t] == s.tasks[t]
  {
    EffectKeepsTasks(s, u);
  }

  lemma ActionFollows(s: State, a: Action, t: nat, network: Network, chain: Option<Accepted>)
    requires Allowed(s, a) && Follows(s, t, network, chain) && !(a.Spawn? && a.task == t)
    ensures Follows(Apply(s, a), t, network, chain)
    ensures Advances(s, a) && IsAhead(s, t, chain) ==> IsAhead(Apply(s, a), t, chain)
  {
    if a.Run? {
      if a.task == t {
        OwnStepFollows(s, t, a.choice, network, chain);
      } else {
        OthersStepLeavesTask(s, t, a.task, a.choice);
      }
    }
  }

  lemma {:induction false} PassFollows(states: seq<State>, actions: seq<Action>, m: nat, n: nat, t: nat)
    requires IsRun(states, actions) && m < n <= |actions| && Joining(states[m], actions[m], t)
    requires SameCall(actions, t, m, n)
    ensures Follows(states[n], t, states[m].tasks[t].pass.network, Joined(states[m], t))
    ensures
      (forall i :: m <= i < n ==> Advances(states[i], actions[i])) ==> IsAhead(states[n], t, Joined(states[m], t))
  {
    assert StepAt(states, actions, n - 1);
    if n == m + 1 {
      JoinFollows(states[m], t, actions[m].choice);
    } else {
      PassFollows(states, actions, m, n - 1, t);
      ActionFollows(states[n - 1], actions[n - 1], t, states[m].tasks[t].pass.network, Joined(states[m], t));
    }
  }

  // ---------------------------------------------------------------- main results

  ghost predicate NoPublication(states: seq<State>, actions: seq<Action>, m: nat, n: nat, kept: Network)
    requires m <= n <= |actions| < |states|
  {
    forall i :: m <= i < n ==> Published(states[i], actions[i], kept).None?
  }

  lemma {:induction false} LastViewIsFirst(
      states: seq<State>, actions: seq<Action>, m: nat, n: nat, kept: Network, first: View)
    requires m <= n <= |actions| < |states| && NoPublication(states, actions, m, n, kept)
    ensures LastView(states, actions, m, n, kept, first) == first
  {
    if m < n { LastViewIsFirst(states, actions, m, n - 1, kept, first); }
  }

  /** A pass that publishes carries the chain it joined, which was the accepted one right after its join. */
  lemma PassCarriesItsChain(states: seq<State>, actions: seq<Action>, m: nat, n: nat, t: nat)
    requires IsRun(states, actions) && IsPass(states, actions, m, n, t)
    ensures
      var joined := Joined(states[m], t);
      && joined.Some? && states[m + 1].accepted == joined
      && states[n].tasks[t].pass.network == joined.value.network
      && states[n].tasks[t].pass.store == Some(joined.value.store) && states[n].tasks[t].pass.view.Some?
  {
    PassFollows(states, actions, m, n, t);
    assert StepAt(states, actions, m);
    JoinFollows(states[m], t, actions[m].choice);
  }

  /**
   * The chain a pass publishes into still is exactly what it joined, store and view, if and only if no
   * request since its join named another verifiable network and the last view published for its
   * network since, if any, repeats the one it joined.
   */
  lemma PublishesIntoWhatItJoined(states: seq<State>, actions: seq<Action>, m: nat, n: nat, t: nat)
    requires IsRun(states, actions) && Init(states[0]) && IsPass(states, actions, m, n, t)
    ensures
      var joined := Joined(states[m], t);
      && joined.Some? && states[n].tasks[t].pass.network == joined.value.network
      && states[n].tasks[t].pass.store == Some(joined.value.store)
      && var network, view := joined.value.network, joined.value.view;
         && (states[n].accepted == joined
             <==> NoReplacement(states, actions, m + 1, n, network)
                  && LastView(states, actions, m + 1, n, network, view) == view)
         && (NoReplacement(states, actions, m + 1, n, network) && NoPublication(states, actions, m + 1, n, network) ==>
               states[n].accepted == joined)
  {
    PassCarriesItsChain(states, actions, m, n, t);
    var joined := Joined(states[m], t).value;
    ChainUnchangedIff(states, actions, m + 1, n, joined);
    if NoPublication(states, actions, m + 1, n, joined.network) {
      LastViewIsFirst(states, actions, m + 1, n, joined.network, joined.view);
    }
  }

  /**
   * A pass publishes its view exactly when the last verifiable network asked for since its join is its
   * own, into the store that is there then; otherwise it changes nothing.
   */
  lemma PublishesOnlyOnItsNetwork(states: seq<State>, actions: seq<Action>, m: nat, n: nat, t: nat)
    requires IsRun(states, actions) && Init(states[0]) && IsPass(states, actions, m, n, t)
    ensures states[n].accepted.Some? && states[n].tasks[t].pass.view.Some?
    ensures
      var network := states[n].tasks[t].pass.network;
      states[n + 1].accepted
        == if LastRequested(states, actions, m + 1, n, network) == network
           then Some(states[n].accepted.value.(view := states[n].tasks[t].pass.view.value))
           else states[n].accepted
  {
    PassCarriesItsChain(states, actions, m, n, t);
    NetworkIsLastRequested(states, actions, m + 1, n);
    assert StepAt(states, actions, n);
    ActionOnChain(states[n], actions[n]);
  }

  /** The view published at step `n` comes from a pass that joined after the last publication before it. */
  ghost predicate InTurn(states: seq<State>, actions: seq<Action>, n: nat)
    requires n < |actions| < |states|
  {
    exists m: nat :: JoinedInTurn(states, actions, m, n)
  }

  ghost predicate JoinedInTurn(states: seq<State>, actions: seq<Action>, m: nat, n: nat)
    requires n < |actions| < |states|
  {
    && actions[n].Run? && IsPass(states, actions, m, n, actions[n].task)
    && var network := states[m].tasks[actions[n].task].pass.network;
       NoReplacement(states, actions, m + 1, n, network) && NoPublication(states, actions, m + 1, n, network)
  }

  /** A pass that joined after the last publication and only advances does not lower the kept progress. */
  lemma InTurnKeepsProgress(states: seq<State>, actions: seq<Action>, n: nat)
    requires IsRun(states, actions) && Init(states[0]) && n < |actions| && InTurn(states, actions, n)
    requires forall i :: 0 <= i < n ==> Advances(states[i], actions[i])
    ensures states[n].accepted.Some? && states[n].tasks[actions[n].task].pass.view.Some?
    ensures states[n].accepted.value.view.progress <= states[n].tasks[actions[n].task].pass.view.value.progress
  {
    var m: nat :| JoinedInTurn(states, actions, m, n);
    PassFollows(states, actions, m, n, actions[n].task);
    PublishesIntoWhatItJoined(states, actions, m, n, actions[n].task);
  }

  /**
   * Kept progress cannot fall while the store is not replaced, passes only advance what they were
   * given, and every publishing pass joined after the publication before its own.
   */
  lemma {:induction false} ProgressNeverFalls(states: seq<State>, actions: seq<Action>, a: nat, b: nat)
    requires IsRun(states, actions) && Init(states[0]) && a <= b <= |actions| && states[a].accepted.Some?
    requires NoReplacement(states, actions, a, b, states[a].accepted.value.network)
    requires forall i :: 0 <= i < b ==> Advances(states[i], actions[i])
    requires forall n ::
      a <= n < b && Published(states[n], actions[n], states[a].accepted.value.network).Some? ==>
        InTurn(states, actions, n)
    ensures states[b].accepted.Some? && states[b].accepted.value.network == states[a].accepted.value.network
    ensures states[a].accepted.value.view.progress <= states[b].accepted.value.view.progress
  {
    if a < b {
      ProgressNeverFalls(states, actions, a, b - 1);
      if Published(states[b - 1], actions[b - 1], states[a].accepted.value.network).Some? {
        InTurnKeepsProgress(states, actions, b - 1);
      }
      StepKeepsProgress(states, actions, b - 1);
    }
  }

  lemma StepKeepsProgress(states: seq<State>, actions: seq<Action>, i: nat)
    requires IsRun(states, actions) && i < |actions|
    requires states[i].accepted.Some? && !Replaces(states[i], actions[i], states[i].accepted.value.network)
    requires
      var published := Published(states[i], actions[i], states[i].accepted.value.network);
      published.Some? ==> states[i].accepted.value.view.progress <= published.value.progress
    ensures
      && states[i + 1].accepted.Some?
      && states[i + 1].accepted.value.network == states[i].accepted.value.network
      && states[i].accepted.value.view.progress <= states[i + 1].accepted.value.view.progress
  {
    assert StepAt(states, actions, i);
    ActionKeepsProgress(states[i], actions[i]);
  }

  lemma ActionKeepsProgress(s: State, a: Action)
    requires Allowed(s, a) && s.accepted.Some? && !Replaces(s, a, s.accepted.value.network)
    requires
      var published := Published(s, a, s.accepted.value.network);
      published.Some? ==> s.accepted.value.view.progress <= published.value.progress
    ensures Apply(s, a).accepted.Some? && Apply(s, a).accepted.value.network == s.accepted.value.network
    ensures s.accepted.value.view.progress <= Apply(s, a).accepted.value.view.progress
  {
    ActionOnChain(s, a);
  }

  // ---------------------------------------------------------------- runs

  /** Every request of the run names `network`. */
  ghost predicate AsksOnlyFor(states: seq<State>, actions: seq<Action>, network: Network) {
    |actions| < |states|
    && forall i :: 0 <= i < |actions| ==> Requested(states[i], actions[i]) in {None, Some(network)}
  }

  lemma RunExtends(states: seq<State>, actions: seq<Action>, a: Action, s': State)
    requires IsRun(states, actions) && Allowed(states[|actions|], a) && s' == Apply(states[|actions|], a)
    ensures IsRun(states + [s'], actions + [a])
    ensures
      forall network ::
        AsksOnlyFor(states, actions, network) && Requested(states[|actions|], a) in {None, Some(network)} ==>
          AsksOnlyFor(states + [s'], actions + [a], network)
  {
    forall i | 0 <= i < |actions + [a]|
      ensures StepAt(states + [s'], actions + [a], i)
    {
      if i < |actions| { assert StepAt(states, actions, i); }
    }
  }

  function JoinedTask(s: State, network: Network): Task {
    Task(ScanNode(network), AwaitSync, IdleBuild(),
         Pass(None, network, StoreOf(ChainFor(s, network)), ViewOf(ChainFor(s, network))))
  }

  lemma JoinStep(s: State, t: nat, network: Network, c: Choice)
    requires t in s.tasks && s.tasks[t] == NewTask(ScanNode(network)) && HasVerifier(network)
    ensures Step(s, t, c) == Put(WithChain(s, network), t, JoinedTask(s, network))
  {
    assert After(s, t, c) == AfterPassing(s, t, c) == Some(JoinedTask(s, network));
    assert Effect(s, t) == WithChain(s, network);
  }

  /** A new scan call joins the accepted chain of its network. */
  lemma Joins(states: seq<State>, actions: seq<Action>, t: nat, network: Network)
    returns (states': seq<State>, actions': seq<Action>)
    requires IsRun(states, actions) && t !in states[|actions|].tasks && HasVerifier(network)
    ensures IsRun(states', actions') && states'[0] == states[0]
    ensures AsksOnlyFor(states, actions, network) ==> AsksOnlyFor(states', actions', network)
    ensures |actions'| == |actions| + 2 && actions'[..|actions|] == actions
    ensures
      && actions'[|actions|] == Spawn(t, ScanNode(network)) && actions'[|actions| + 1].Run?
      && states'[..|actions| + 1] == states[..|actions| + 1]
      && Joining(states'[|actions| + 1], actions'[|actions| + 1], t)
      && Joined(states'[|actions| + 1], t) == ChainFor(states[|actions|], network)
    ensures
      var s := states[|actions|];
      states'[|actions'|] == Put(WithChain(s, network), t, JoinedTask(s, network))
  {
    var s := states[|actions|];
    var spawned, c := Put(s, t, NewTask(ScanNode(network))), Choice(false, true, None);
    RunExtends(states, actions, Spawn(t, ScanNode(network)), spawned);
    JoinStep(spawned, t, network, c);
    var joined := Put(WithChain(s, network), t, JoinedTask(s, network));
    assert WithChain(spawned, network) == WithChain(s, network).(tasks := spawned.tasks);
    assert spawned.tasks[t := JoinedTask(s, network)] == s.tasks[t := JoinedTask(s, network)];
    RunExtends(states + [spawned], actions + [Spawn(t, ScanNode(network))], Run(t, c), joined);
    states' := states + [spawned] + [joined];
    actions' := actions + [Spawn(t, ScanNode(network))] + [Run(t, c)];
  }

  lemma PassReturns(s: State, t: nat, c: Choice)
    requires t in s.tasks && s.tasks[t].at.AwaitSync? && s.tasks[t].pass.view.Some? && c.progress.Some?
    ensures
      var pass := s.tasks[t].pass;
      Step(s, t, c)
        == Put(s, t, s.tasks[t].(at := AwaitViewPublish,
                                 pass := pass.(view := Some(pass.view.value.(progress := c.progress.value)))))
  {
  }

  lemma PassPublishes(s: State, t: nat, c: Choice)
    requires t in s.tasks && s.tasks[t].at.AwaitViewPublish? && s.tasks[t].pass.view.Some?
    requires s.accepted.Some? && s.accepted.value.network == s.tasks[t].pass.network
    ensures
      Step(s, t, c) == Finish(s, t).(accepted := Some(s.accepted.value.(view := s.tasks[t].pass.view.value)))
  {
  }

  /** A scan that waits for its sync returns with the given progress and publishes: two steps. */
  lemma ReturnsAndPublishes(states: seq<State>, actions: seq<Action>, t: nat, progress: nat)
    returns (states': seq<State>, actions': seq<Action>)
    requires IsRun(states, actions) && t in states[|actions|].tasks
    requires
      var s := states[|actions|];
      && s.tasks[t].at.AwaitSync? && s.tasks[t].pass.view.Some?
      && s.accepted.Some? && s.accepted.value.network == s.tasks[t].pass.network
    ensures IsRun(states', actions') && states'[0] == states[0] && |actions'| == |actions| + 2
    ensures forall network :: AsksOnlyFor(states, actions, network) ==> AsksOnlyFor(states', actions', network)
    ensures states'[..|actions| + 1] == states[..|actions| + 1]
    ensures actions'[..|actions|] == actions && actions'[|actions|].Run? && actions'[|actions| + 1].Run?
    ensures
      var s := states[|actions|];
      var view := s.tasks[t].pass.view.value.(progress := progress);
      && states'[|actions| + 1].accepted == s.accepted && Publishing(states'[|actions| + 1], actions'[|actions| + 1], t)
      && states'[|actions| + 1].tasks[t].pass == s.tasks[t].pass.(view := Some(view))
      && states'[|actions'|].accepted == Some(s.accepted.value.(view := view))
      && states'[|actions'|].tasks == s.tasks - {t}
  {
    var s, c := states[|actions|], Choice(false, true, Some(progress));
    PassReturns(s, t, c);
    var returned := Step(s, t, c);
    RunExtends(states, actions, Run(t, c), returned);
    PassPublishes(returned, t, c);
    var published := Step(returned, t, c);
    RunExtends(states + [returned], actions + [Run(t, c)], Run(t, c), published);
    assert returned.tasks - {t} == s.tasks - {t};
    states', actions' := states + [returned] + [published], actions + [Run(t, c)] + [Run(t, c)];
  }

  /** The pass of call 1 joined at step 1 and publishes at step 7; call 2 published in between. */
  ghost predicate Overlaps(states: seq<State>, actions: seq<Action>) {
    && |actions| == 8 && IsPass(states, actions, 1, 7, 1)
    && !NoPublication(states, actions, 2, 7, Chipnet)
  }

  /** Two scans join one store: call 1 at step 1, call 2 after it. */
  lemma TwoJoins(s0: State) returns (states: seq<State>, actions: seq<Action>)
    requires Init(s0)
    ensures IsRun(states, actions) && states[0] == s0 && |actions| == 4 && AsksOnlyFor(states, actions, Chipnet)
    ensures Joining(states[1], actions[1], 1) && SameCall(actions, 1, 1, 4)
    ensures Joined(states[1], 1) == Some(Accepted(Chipnet, 0, View(Chipnet, 0))) == states[4].accepted
    ensures Waits(states[4], 1) && Waits(states[4], 2)
  {
    assert IsRun([s0], []) && AsksOnlyFor([s0], [], Chipnet);
    var states1, actions1 := Joins([s0], [], 1, Chipnet);
    states, actions := Joins(states1, actions1, 2, Chipnet);
    KeepsPrefix(states1, states, 3, 1);
    KeepsPrefix(actions1, actions, 2, 1);
  }

  /** The scan has joined the first store of Chipnet and waits for its sync. */
  predicate Waits(s: State, t: nat) {
    && t in s.tasks && s.tasks[t].at.AwaitSync? && s.tasks[t].pass.network == Chipnet
    && s.tasks[t].pass.view == Some(View(Chipnet, 0))
  }

  /** Two scans join one store, and both return with the given progress, the second one first. */
  lemma TwoPasses(s0: State, second: nat, first: nat) returns (states: seq<State>, actions: seq<Action>)
    requires Init(s0)
    ensures IsRun(states, actions) && states[0] == s0
    ensures AsksOnlyFor(states, actions, Chipnet) && Overlaps(states, actions)
    ensures Joined(states[1], 1) == Some(Accepted(Chipnet, 0, View(Chipnet, 0)))
    ensures states[7].accepted == Some(Accepted(Chipnet, 0, View(Chipnet, second)))
    ensures states[8].accepted == Some(Accepted(Chipnet, 0, View(Chipnet, first)))
  {
    var states2, actions2 := TwoJoins(s0);
    var states3, actions3 := ReturnsAndPublishes(states2, actions2, 2, second);
    states, actions := ReturnsAndPublishes(states3, actions3, 1, first);
    KeepsPrefix(states2, states3, 5, 1);
    KeepsPrefix(states3, states, 7, 1);
    KeepsPrefix(states3, states, 7, 5);
    FirstPassSpans(actions2, actions3, actions);
    KeepsPrefix(actions2, actions3, 4, 1);
    KeepsPrefix(actions3, actions, 6, 1);
    KeepsPrefix(actions3, actions, 6, 5);
    assert Published(states[5], actions[5], Chipnet).Some?;
  }

  lemma FirstPassSpans(joins: seq<Action>, published: seq<Action>, actions: seq<Action>)
    requires |joins| == 4 && |published| == 6 && |actions| == 8
    requires SameCall(joins, 1, 1, 4) && published[..4] == joins && actions[..6] == published
    requires published[4].Run? && published[5].Run? && actions[6].Run?
    ensures SameCall(actions, 1, 1, 7)
  {
    forall i | 1 < i < 7
      ensures !(actions[i].Spawn? && actions[i].task == 1)
    {
      if i < 6 { KeepsPrefix(published, actions, 6, i); }
      if i < 4 { KeepsPrefix(joins, published, 4, i); }
    }
  }

  lemma KeepsPrefix<T>(before: seq<T>, after: seq<T>, n: nat, i: nat)
    requires i < n <= |before| && n <= |after| && after[..n] == before[..n]
    ensures after[i] == before[i]
  {
    assert after[..n][i] == before[..n][i];
  }

  /**
   * Two passes over one store, on one network all along: the one that returns last decides, and the
   * kept progress falls from 10 to 5.
   */
  lemma ConcurrentPassesCanLowerProgress(s0: State)
    requires Init(s0)
    ensures
      exists states: seq<State>, actions: seq<Action> ::
        && IsRun(states, actions) && states[0] == s0 && AsksOnlyFor(states, actions, Chipnet)
        && Overlaps(states, actions)
        && states[7].accepted == Some(Accepted(Chipnet, 0, View(Chipnet, 10)))
        && states[8].accepted == Some(Accepted(Chipnet, 0, View(Chipnet, 5)))
  {
    var states, actions := TwoPasses(s0, 10, 5);
  }

  /**
   * A publication in between need not show: a pass without progress publishes the view it joined, and
   * the other pass still finds exactly the store and view it joined.
   */
  lemma RepeatedViewDoesNotShow(s0: State)
    requires Init(s0)
    ensures
      exists states: seq<State>, actions: seq<Action> ::
        && IsRun(states, actions) && states[0] == s0
        && Overlaps(states, actions) && states[7].accepted == Joined(states[1], 1)
  {
    var states, actions := TwoPasses(s0, 0, 5);
  }

  /** At step `n` a pass publishes its view into a store other than the one it joined. */
  ghost predicate CrossesStores(states: seq<State>, actions: seq<Action>, n: nat) {
    && n < |actions| < |states| && actions[n].Run? && Publishing(states[n], actions[n], actions[n].task)
    && states[n + 1].accepted.Some?
    && var pass := states[n].tasks[actions[n].task].pass;
       && pass.store.Some? && pass.store.value < states[n + 1].accepted.value.store
       && pass.view.Some? && states[n + 1].accepted.value.view == pass.view.value
  }

  /**
   * `publish_header_view` compares networks only: once the host has left a network and come back,
   * a pass that joined the older store publishes into the newer one.
   */
  lemma OlderPassCanReachNewerStore(s0: State)
    requires Init(s0)
    ensures
      exists states: seq<State>, actions: seq<Action>, n: nat ::
        IsRun(states, actions) && states[0] == s0 && CrossesStores(states, actions, n)
  {
    var states, actions := LeavesAndComesBack(s0);
    var states', actions' := ReturnsAndPublishes(states, actions, 1, 7);
    assert CrossesStores(states', actions', |actions| + 1);
  }

  /** One scan joins, the host leaves the network and comes back, and the scan still waits. */
  lemma LeavesAndComesBack(s0: State) returns (states: seq<State>, actions: seq<Action>)
    requires Init(s0)
    ensures IsRun(states, actions) && states[0] == s0 && 1 in states[|actions|].tasks
    ensures states[|actions|].accepted == Some(Accepted(Chipnet, 2, View(Chipnet, 0)))
    ensures states[|actions|].tasks[1] == JoinedTask(s0, Chipnet)
  {
    assert IsRun([s0], []);
    states, actions := Joins([s0], [], 1, Chipnet);
    states, actions := MovesOn(states, actions, 2, Regtest);
    states, actions := MovesOn(states, actions, 3, Chipnet);
  }

  /** A scan of another network replaces the store, and leaves all other tasks alone. */
  lemma MovesOn(states: seq<State>, actions: seq<Action>, t: nat, network: Network)
    returns (states': seq<State>, actions': seq<Action>)
    requires IsRun(states, actions) && t !in states[|actions|].tasks && HasVerifier(network)
    requires states[|actions|].accepted.Some? && states[|actions|].accepted.value.network != network
    ensures IsRun(states', actions') && states'[0] == states[0]
    ensures
      var s, s' := states[|actions|], states'[|actions'|];
      && s'.accepted == Some(Accepted(network, s.nextStore, View(network, 0))) && s'.nextStore == s.nextStore + 1
      && t in s'.tasks && s'.tasks == s.tasks[t := s'.tasks[t]]
  {
    states', actions' := Joins(states, actions, t, network);
  }
}
