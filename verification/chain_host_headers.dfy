/** The accepted header chain: when its store survives, and which view it holds. */
module ChainHostHeaders {
  import opened Wrappers
  import opened ChainHost
  import opened Networks
  import opened ChainHostLocks

  predicate PassAgrees(task: Task) {
    task.pass.view.Some? ==>
      && (task.at.AwaitSync? || task.at.AwaitViewPublish?)
      && task.pass.view.value.network == task.pass.network
  }

  /** The view describes the chain it is kept with, which a reviewed checkpoint anchors. */
  ghost predicate Anchored(s: State) {
    && (s.accepted.Some? ==>
          && s.accepted.value.view.network == s.accepted.value.network
          && HasVerifier(s.accepted.value.network)
          && s.accepted.value.store < s.nextStore)
    && (forall t :: t in s.tasks ==> PassAgrees(s.tasks[t]))
  }

  lemma AfterKeepsPass(s: State, t: nat, c: Choice)
    requires t in s.tasks && PassAgrees(s.tasks[t]) && Anchored(s)
    ensures After(s, t, c).Some? ==> PassAgrees(After(s, t, c).value)
  {
  }

  /** The three points that touch the accepted chain, and what they make of it. */
  lemma EffectOnChain(s: State, t: nat)
    requires t in s.tasks
    ensures
      var task := s.tasks[t];
      var e := Effect(s, t);
      var chained :=
        if task.at.AwaitHeaders? then WithChain(s, task.build.captured.network)
        else if task.at.AwaitChain? then WithChain(s, task.pass.network)
        else if task.at.AwaitViewPublish? && task.pass.view.Some?
        then WithView(s, task.pass.network, task.pass.view.value)
        else s;
      e.accepted == chained.accepted && e.nextStore == chained.nextStore
  {
  }

  lemma ActionKeepsAnchored(s: State, a: Action)
    requires Allowed(s, a) && Anchored(s)
    ensures Anchored(Apply(s, a))
  {
    var s' := Apply(s, a);
    if a.Run? {
      EffectKeepsTasks(s, a.task);
      EffectOnChain(s, a.task);
      assert PassAgrees(s.tasks[a.task]);
      AfterKeepsPass(s, a.task, a.choice);
    }
    forall u | u in s'.tasks ensures PassAgrees(s'.tasks[u]) {
      if u in s.tasks { assert PassAgrees(s.tasks[u]); }
    }
  }

  /** In every run, the view kept and the chain it is kept for name one verifiable network. */
  lemma {:induction false} RunIsAnchored(states: seq<State>, actions: seq<Action>, n: nat)
    requires IsRun(states, actions) && Init(states[0]) && n <= |actions|
    ensures Anchored(states[n])
  {
    if n > 0 {
      RunIsAnchored(states, actions, n - 1);
      assert StepAt(states, actions, n - 1);
      ActionKeepsAnchored(states[n - 1], actions[n - 1]);
    }
  }

  /** The network an action asks the accepted chain for, if it does. */
  function Requested(s: State, a: Action): Option<Network> {
    if a.Run? && a.task in s.tasks then
      var task := s.tasks[a.task];
      if task.at.AwaitHeaders? then Some(task.build.captured.network)
      else if task.at.AwaitChain? then Some(task.pass.network)
      else None
    else None
  }

  /** The request replaces a chain of network `kept`. */
  predicate Replaces(s: State, a: Action, kept: Network) {
    var asked := Requested(s, a);
    asked.Some? && HasVerifier(asked.value) && asked.value != kept
  }

  /** The view an action publishes into the chain of network `kept`, if it does. */
  function Published(s: State, a: Action, kept: Network): Option<View> {
    if a.Run? && a.task in s.tasks && s.tasks[a.task].at.AwaitViewPublish? && s.tasks[a.task].pass.network == kept
    then s.tasks[a.task].pass.view
    else None
  }

  /** What one action does to the accepted chain. */
  lemma ActionOnChain(s: State, a: Action)
    requires Allowed(s, a) && s.accepted.Some?
    ensures
      var chain := s.accepted.value;
      var s' := Apply(s, a);
      && s'.accepted.Some? && s.nextStore <= s'.nextStore
      && (Replaces(s, a, chain.network) ==>
            var network := Requested(s, a).value;
            s'.accepted == Some(Accepted(network, s.nextStore, View(network, 0))))
      && (!Replaces(s, a, chain.network) ==>
            s'.accepted.value.network == chain.network && s'.accepted.value.store == chain.store
            && s'.accepted.value.view
               == if Published(s, a, chain.network).Some? then Published(s, a, chain.network).value else chain.view)
  {
    if a.Run? {
      EffectOnChain(s, a.task);
      StepOnChain(s, a.task, a.choice);
    }
  }

  lemma StepOnChain(s: State, t: nat, c: Choice)
    requires t in s.tasks
    ensures Step(s, t, c).accepted == Effect(s, t).accepted && Step(s, t, c).nextStore == Effect(s, t).nextStore
  {
  }

  ghost predicate NoReplacement(states: seq<State>, actions: seq<Action>, m: nat, n: nat, kept: Network)
    requires m <= n <= |actions| < |states|
  {
    forall i :: m <= i < n ==> !Replaces(states[i], actions[i], kept)
  }

  /** The view kept at `m`, or the last one published for its network since. */
  ghost function LastView(states: seq<State>, actions: seq<Action>, m: nat, n: nat, kept: Network, first: View): View
    requires m <= n <= |actions| < |states|
  {
    if n == m then first
    else if Published(states[n - 1], actions[n - 1], kept).Some?
    then Published(states[n - 1], actions[n - 1], kept).value
    else LastView(states, actions, m, n - 1, kept, first)
  }

  /**
   * While no request names another verifiable network, rebuilds, credential changes and every other
   * step keep the header store, and the view kept is the last one published.
   */
  lemma {:induction false} StoreAndLastViewSurvive(states: seq<State>, actions: seq<Action>, m: nat, n: nat)
    requires IsRun(states, actions) && m <= n <= |actions| && states[m].accepted.Some?
    requires NoReplacement(states, actions, m, n, states[m].accepted.value.network)
    ensures
      var chain := states[m].accepted.value;
      states[n].accepted
        == Some(Accepted(chain.network, chain.store, LastView(states, actions, m, n, chain.network, chain.view)))
  {
    if m < n {
      StoreAndLastViewSurvive(states, actions, m, n - 1);
      assert StepAt(states, actions, n - 1);
      ActionOnChain(states[n - 1], actions[n - 1]);
    }
  }

  lemma {:induction false} LaterStoresAreFresh(states: seq<State>, actions: seq<Action>, m: nat, n: nat, bound: nat)
    requires IsRun(states, actions) && m <= n <= |actions|
    requires states[m].accepted.Some? && bound <= states[m].accepted.value.store && bound <= states[m].nextStore
    ensures states[n].accepted.Some? && bound <= states[n].accepted.value.store && bound <= states[n].nextStore
  {
    if m < n {
      LaterStoresAreFresh(states, actions, m, n - 1, bound);
      assert StepAt(states, actions, n - 1);
      ActionOnChain(states[n - 1], actions[n - 1]);
    }
  }

  /**
   * A store handed out at `m` is still the accepted one at `n` exactly when no request in between
   * named another verifiable network; coming back to the first network does not bring it back.
   */
  lemma StoreKeptIffNoReplacement(states: seq<State>, actions: seq<Action>, m: nat, n: nat)
    requires IsRun(states, actions) && Init(states[0]) && m <= n <= |actions| && states[m].accepted.Some?
    ensures
      (states[n].accepted.Some? && states[n].accepted.value.store == states[m].accepted.value.store)
      <==> NoReplacement(states, actions, m, n, states[m].accepted.value.network)
  {
    var kept := states[m].accepted.value.network;
    if NoReplacement(states, actions, m, n, kept) {
      StoreAndLastViewSurvive(states, actions, m, n);
    } else {
      var i := FirstReplacement(states, actions, m, n, kept);
      StoreAndLastViewSurvive(states, actions, m, i);
      RunIsAnchored(states, actions, i);
      ReplacementStaysNewer(states, actions, i, n);
    }
  }

  /** Once replaced, a store is older than every later one. */
  lemma ReplacementStaysNewer(states: seq<State>, actions: seq<Action>, i: nat, n: nat)
    requires IsRun(states, actions) && i < n <= |actions| && states[i].accepted.Some?
    requires Replaces(states[i], actions[i], states[i].accepted.value.network)
    ensures states[n].accepted.Some? && states[i].nextStore <= states[n].accepted.value.store
  {
    assert StepAt(states, actions, i);
    ActionOnChain(states[i], actions[i]);
    LaterStoresAreFresh(states, actions, i + 1, n, states[i].nextStore);
  }

  lemma {:induction false} FirstReplacement(
      states: seq<State>, actions: seq<Action>, m: nat, n: nat, kept: Network) returns (i: nat)
    requires m <= n <= |actions| < |states| && !NoReplacement(states, actions, m, n, kept)
    ensures m <= i < n && NoReplacement(states, actions, m, i, kept) && Replaces(states[i], actions[i], kept)
  {
    if NoReplacement(states, actions, m, n - 1, kept) {
      i := n - 1;
    } else {
      i := FirstReplacement(states, actions, m, n - 1, kept);
    }
  }

  /** A chain is unchanged, store and view, exactly if it is not replaced and the last view published is its own. */
  lemma ChainUnchangedIff(states: seq<State>, actions: seq<Action>, m: nat, n: nat, chain: Accepted)
    requires IsRun(states, actions) && Init(states[0]) && m <= n <= |actions| && states[m].accepted == Some(chain)
    ensures
      states[n].accepted == Some(chain)
      <==> NoReplacement(states, actions, m, n, chain.network)
           && LastView(states, actions, m, n, chain.network, chain.view) == chain.view
  {
    StoreKeptIffNoReplacement(states, actions, m, n);
    if NoReplacement(states, actions, m, n, chain.network) {
      StoreAndLastViewSurvive(states, actions, m, n);
    }
  }

  /** The last verifiable network asked for in steps `m` to `n`, or `first`. */
  function LastRequested(states: seq<State>, actions: seq<Action>, m: nat, n: nat, first: Network): Network
    requires m <= n <= |actions| < |states|
  {
    if n == m then first
    else
      var asked := Requested(states[n - 1], actions[n - 1]);
      if asked.Some? && HasVerifier(asked.value) then asked.value else LastRequested(states, actions, m, n - 1, first)
  }

  /** The accepted chain is always of the verifiable network asked for last. */
  lemma {:induction false} NetworkIsLastRequested(states: seq<State>, actions: seq<Action>, m: nat, n: nat)
    requires IsRun(states, actions) && m <= n <= |actions| && states[m].accepted.Some?
    ensures states[n].accepted.Some?
    ensures
      states[n].accepted.value.network == LastRequested(states, actions, m, n, states[m].accepted.value.network)
  {
    if m < n {
      NetworkIsLastRequested(states, actions, m, n - 1);
      assert StepAt(states, actions, n - 1);
      ActionOnChain(states[n - 1], actions[n - 1]);
    }
  }
}
