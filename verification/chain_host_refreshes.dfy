/** Wallet refreshes and node scans: which stack they work on, for which network, and when they give up. */
module ChainHostRefreshes {
  import opened ChainHost
  import opened ChainHostLocks
  import opened ChainHostSafety
  import opened Networks
  import opened Wrappers

  /** The points of a refresh or a scan. */
  predicate Passing(p: Point) {
    p.AwaitService? || p.TryService? || InPass(p)
  }

  /** Someone else works on the service of stack `service`. */
  ghost predicate Busy(s: State, service: nat) {
    exists u :: u in s.tasks && s.tasks[u].pass.service == Some(service) && InPass(s.tasks[u].at)
  }

  /** Why a refresh or a scan ends at this step. */
  ghost predicate GivesUp(s: State, t: nat, c: Choice)
    requires t in s.tasks
  {
    var task := s.tasks[t];
    match task.at
    case AwaitService => s.installed == None
    case TryService(target) => Busy(s, target)
    case ReadWallet => !c.walletOpen
    case AwaitChain =>
      && task.job.ScanNode? && task.pass.network == Mainnet
      && !(s.accepted.Some? && s.accepted.value.network == Mainnet)
    case AwaitSync => task.pass.view == None || c.progress == None
    case _ => true
  }

  /**
   * A refresh gives up if no stack is installed, if another call works on its service, if no wallet is
   * open or if it returns no view; a scan if its network ships no verifier. Nothing else ends them
   * before they publish.
   */
  lemma PassEndsIff(s: State, t: nat, c: Choice)
    requires t in s.tasks && Passing(s.tasks[t].at)
    ensures t !in Step(s, t, c).tasks <==> GivesUp(s, t, c)
  {
    EffectKeepsTasks(s, t);
    assert After(s, t, c) == AfterPassing(s, t, c);
  }

  /** What a pass that goes on has learned: the stack that was installed, and the owner's network. */
  predicate Learns(s: State, before: Task, after: Task) {
    match before.at
    case AwaitService => s.installed.Some? && after.at == TryService(s.installed.value)
    case TryService(target) => after.at == ReadWallet && after.pass.service == Some(target)
    case ReadWallet =>
      after.at == AwaitChain && after.pass.network == s.app.network && after.pass.service == before.pass.service
    case _ =>
      InPass(after.at) && after.pass.network == before.pass.network && after.pass.service == before.pass.service
  }

  lemma PassLearns(s: State, t: nat, c: Choice)
    requires t in s.tasks && Passing(s.tasks[t].at) && t in Step(s, t, c).tasks
    ensures Learns(s, s.tasks[t], Step(s, t, c).tasks[t]) && Step(s, t, c).tasks[t].job == s.tasks[t].job
    ensures Passing(Step(s, t, c).tasks[t].at)
  {
    EffectKeepsTasks(s, t);
    assert After(s, t, c) == AfterPassing(s, t, c);
  }

  /** Refreshes and scans are the calls at those points, and a scan locks no service. */
  predicate JobFits(task: Task) {
    && (Passing(task.at) <==> task.job.RefreshWallet? || task.job.ScanNode?)
    && (task.job.ScanNode? ==>
          InPass(task.at) && !task.at.ReadWallet? && task.pass.service == None && task.pass.network == task.job.network)
    && (task.job.RefreshWallet? && InPass(task.at) ==> task.pass.service.Some?)
  }

  ghost predicate JobsFit(s: State) {
    forall t :: t in s.tasks ==> JobFits(s.tasks[t])
  }

  lemma BuildingKeepsJob(s: State, t: nat, c: Choice)
    requires t in s.tasks && !Passing(s.tasks[t].at) && After(s, t, c).Some?
    ensures !Passing(After(s, t, c).value.at) && After(s, t, c).value.job == s.tasks[t].job
  {
  }

  lemma StepKeepsJob(s: State, t: nat, c: Choice)
    requires t in s.tasks && JobFits(s.tasks[t]) && t in Step(s, t, c).tasks
    ensures JobFits(Step(s, t, c).tasks[t])
  {
    EffectKeepsTasks(s, t);
    if Passing(s.tasks[t].at) { PassLearns(s, t, c); } else { BuildingKeepsJob(s, t, c); }
  }

  lemma ActionKeepsJobs(s: State, a: Action)
    requires Allowed(s, a) && JobsFit(s)
    ensures JobsFit(Apply(s, a))
  {
    var s' := Apply(s, a);
    forall u | u in s'.tasks
      ensures JobFits(s'.tasks[u])
    {
      assert u in s.tasks ==> JobFits(s.tasks[u]);
      if a.Run? && a.task == u { StepKeepsJob(s, u, a.choice); }
      else if a.Run? { EffectKeepsTasks(s, a.task); }
    }
  }

  lemma {:induction false} RunFitsJobs(states: seq<State>, actions: seq<Action>, n: nat)
    requires IsRun(states, actions) && Init(states[0]) && n <= |actions|
    ensures JobsFit(states[n])
  {
    if n > 0 {
      RunFitsJobs(states, actions, n - 1);
      assert StepAt(states, actions, n - 1);
      ActionKeepsJobs(states[n - 1], actions[n - 1]);
    }
  }

  /** The call is where it was one action before, or has just taken a step from there. */
  lemma StepOrSame(states: seq<State>, actions: seq<Action>, n: nat, t: nat)
    requires IsRun(states, actions) && Init(states[0]) && 0 < n <= |actions|
    requires t in states[n].tasks && states[n].tasks[t].job.RefreshWallet? && !states[n].tasks[t].at.AwaitService?
    ensures t in states[n - 1].tasks && Passing(states[n - 1].tasks[t].at)
    ensures states[n - 1].tasks[t].job == states[n].tasks[t].job
    ensures !(actions[n - 1].Spawn? && actions[n - 1].task == t)
    ensures
      || states[n].tasks[t] == states[n - 1].tasks[t]
      || (actions[n - 1].Run? && actions[n - 1].task == t
          && Learns(states[n - 1], states[n - 1].tasks[t], states[n].tasks[t]))
  {
    assert StepAt(states, actions, n - 1);
    var s, a := states[n - 1], actions[n - 1];
    RunFitsJobs(states, actions, n - 1);
    if a.Run? { EffectKeepsTasks(s, a.task); }
    if a.Run? && a.task == t {
      assert JobFits(s.tasks[t]);
      if Passing(s.tasks[t].at) { PassLearns(s, t, a.choice); } else { BuildingKeepsJob(s, t, a.choice); }
    } else if t in s.tasks {
      assert JobFits(s.tasks[t]);
    }
  }

  /** The stack a refresh works on is the one that was installed when it asked for it. */
  lemma {:induction false} RefreshKnowsItsStack(states: seq<State>, actions: seq<Action>, n: nat, t: nat)
    returns (a: nat)
    requires IsRun(states, actions) && Init(states[0]) && n <= |actions| && t in states[n].tasks
    requires states[n].tasks[t].job.RefreshWallet? && !states[n].tasks[t].at.AwaitService?
    ensures a < n && Takes(states[a], actions[a], t, AwaitService) && SameCall(actions, t, a, n)
    ensures
      var task := states[n].tasks[t];
      states[a].installed == if task.at.TryService? then Some(task.at.target) else task.pass.service
  {
    StepOrSame(states, actions, n, t);
    RunFitsJobs(states, actions, n);
    RunFitsJobs(states, actions, n - 1);
    assert JobFits(states[n].tasks[t]) && JobFits(states[n - 1].tasks[t]);
    if states[n - 1].tasks[t].at.AwaitService? {
      a := n - 1;
    } else {
      a := RefreshKnowsItsStack(states, actions, n - 1, t);
    }
  }

  /** The network a refresh works for is the owner's when it looked at the wallet. */
  lemma {:induction false} RefreshKnowsItsNetwork(states: seq<State>, actions: seq<Action>, n: nat, t: nat)
    returns (w: nat)
    requires IsRun(states, actions) && Init(states[0]) && n <= |actions| && t in states[n].tasks
    requires states[n].tasks[t].job.RefreshWallet?
    requires InPass(states[n].tasks[t].at) && !states[n].tasks[t].at.ReadWallet?
    ensures w < n && Takes(states[w], actions[w], t, ReadWallet) && SameCall(actions, t, w, n)
    ensures states[n].tasks[t].pass.network == states[w].app.network
  {
    StepOrSame(states, actions, n, t);
    RunFitsJobs(states, actions, n - 1);
    assert JobFits(states[n - 1].tasks[t]);
    if states[n - 1].tasks[t].at.ReadWallet? {
      w := n - 1;
    } else {
      w := RefreshKnowsItsNetwork(states, actions, n - 1, t);
    }
  }

  /** A scan works for the network it was asked for, and only with that network's accepted chain. */
  lemma ScanKnowsItsNetwork(states: seq<State>, actions: seq<Action>, n: nat, t: nat)
    requires IsRun(states, actions) && Init(states[0]) && n <= |actions|
    requires t in states[n].tasks && states[n].tasks[t].job.ScanNode?
    ensures states[n].tasks[t].pass.network == states[n].tasks[t].job.network
    ensures states[n].tasks[t].pass.service == None
  {
    RunFitsJobs(states, actions, n);
    assert JobFits(states[n].tasks[t]);
  }

  /** The routes of a stack are cleared only while no refresh works on its service. */
  lemma RoutesAreClearedBetweenRefreshes(states: seq<State>, actions: seq<Action>, n: nat, k: nat, u: nat)
    requires IsRun(states, actions) && n < |actions| && k < |states[n].stacks| && k < |states[n + 1].stacks|
    requires !states[n].stacks[k].cleared && states[n + 1].stacks[k].cleared
    requires u in states[n].tasks && InPass(states[n].tasks[u].at)
    ensures states[n].tasks[u].pass.service != Some(k)
  {
    assert StepAt(states, actions, n);
    var s, a := states[n], actions[n];
    assert a.Run? && s.tasks[a.task].at == AwaitOldService(k) by { ClearingStep(s, a, k); }
    assert !HoldsService(s.tasks[u], k);
  }

  /** No call looks at the installed stack between the checks of a publication and its store. */
  lemma LooksBetweenPublications(states: seq<State>, actions: seq<Action>, n: nat, t: nat, u: nat)
    requires IsRun(states, actions) && n < |actions| && actions[n].Run? && actions[n].task == t
    requires t in states[n].tasks && u in states[n].tasks
    requires
      var p := states[n].tasks[t].at;
      p.AwaitService? || p.AwaitInspect? || p.AwaitPrevious? || p.AwaitStackRead?
    ensures
      var p := states[n].tasks[u].at;
      !p.CheckSelection? && !p.CheckRevision? && !p.CheckGeneration? && !p.Publish?
  {
    assert StepAt(states, actions, n);
    assert Ready(states[n], t);
  }

  lemma ClearingEffect(s: State, t: nat, k: nat)
    requires t in s.tasks && k < |s.stacks| && k < |Effect(s, t).stacks|
    requires !s.stacks[k].cleared && Effect(s, t).stacks[k].cleared
    ensures s.tasks[t].at == AwaitOldService(k)
  {
    if !TouchesStack(s.tasks[t].at) { QuietEffect(s, t); }
  }

  lemma ClearingStep(s: State, a: Action, k: nat)
    requires Allowed(s, a) && k < |s.stacks| && k < |Apply(s, a).stacks|
    requires !s.stacks[k].cleared && Apply(s, a).stacks[k].cleared
    ensures a.Run? && s.tasks[a.task].at == AwaitOldService(k)
  {
    if a.Run? {
      assert Apply(s, a).stacks == Effect(s, a.task).stacks;
      ClearingEffect(s, a.task, k);
    }
  }
}
