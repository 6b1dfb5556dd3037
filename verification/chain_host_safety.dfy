/** Revocation safety: which stacks can be installed and live in any interleaving. */
module ChainHostSafety {
  import opened Wrappers
  import opened ChainHost
  import opened ChainHostLocks

  /** Some invalidator has bumped the generation and not yet revoked the installed stack. */
  ghost predicate Invalidating(s: State) {
    exists t :: t in s.tasks && s.tasks[t].at.RevokeInstalled?
  }

  /** An installed stack that callers may still start work on. */
  predicate Live(s: State, i: nat) {
    s.installed == Some(i) && i < |s.stacks| && !s.stacks[i].revoked
  }

  predicate NothingLive(s: State) {
    s.installed.Some? ==> s.installed.value < |s.stacks| && s.stacks[s.installed.value].revoked
  }

  ghost predicate Revocation(s: State) {
    && (s.installed.Some? ==> s.installed.value < |s.stacks|)
    && (forall k :: 0 <= k < |s.stacks| ==> s.stacks[k].generation <= s.generation)
    && (forall k :: 0 <= k < |s.stacks| && !s.stacks[k].revoked ==> s.installed == Some(k))
    && (forall k ::
          0 <= k < |s.stacks| && !s.stacks[k].revoked && s.stacks[k].generation != s.generation ==> Invalidating(s))
  }

  ghost predicate TasksAgree(s: State) {
    forall t :: t in s.tasks ==> TaskAgrees(s, s.tasks[t])
  }

  /** What a rebuild knows about the stack it is replacing. */
  predicate TaskAgrees(s: State, task: Task) {
    && (task.at.Publish? ==> task.build.generation == s.generation)
    && (Rebuilding(task.at) ==> NothingLive(s))
    && (Replacing(task.at) ==> s.installed.None?)
  }

  ghost predicate Safe(s: State) {
    Exclusive(s) && Revocation(s) && TasksAgree(s)
  }

  /** The steps that touch the generation, the installed stack or a revocation flag. */
  predicate TouchesStack(p: Point) {
    p.BumpGeneration? || p.RevokeInstalled? || p.AwaitOldService? || p.AwaitUninstall? || p.Publish?
  }

  lemma QuietEffect(s: State, t: nat)
    requires t in s.tasks && !TouchesStack(s.tasks[t].at)
    ensures
      var e := Effect(s, t);
      e.generation == s.generation && e.stacks == s.stacks && e.installed == s.installed
  {
  }

  lemma QuietAfterAgrees(s: State, t: nat, c: Choice)
    requires t in s.tasks && !TouchesStack(s.tasks[t].at) && TaskAgrees(s, s.tasks[t])
    ensures After(s, t, c).Some? ==> TaskAgrees(s, After(s, t, c).value)
  {
  }

  lemma QuietStepKeepsSafe(s: State, t: nat, c: Choice)
    requires t in s.tasks && Ready(s, t) && !TouchesStack(s.tasks[t].at) && Safe(s)
    ensures Revocation(Step(s, t, c)) && TasksAgree(Step(s, t, c))
  {
    EffectKeepsTasks(s, t);
    QuietEffect(s, t);
    QuietAfterAgrees(s, t, c);
    var s' := Step(s, t, c);
    if Invalidating(s) {
      var u :| u in s.tasks && s.tasks[u].at.RevokeInstalled?;
      assert u in s'.tasks && s'.tasks[u].at.RevokeInstalled?;
    }
  }

  lemma BumpKeepsSafe(s: State, t: nat, c: Choice)
    requires t in s.tasks && s.tasks[t].at.BumpGeneration? && Safe(s)
    ensures Revocation(Step(s, t, c)) && TasksAgree(Step(s, t, c))
  {
    var s' := Step(s, t, c);
    assert t in s'.tasks && s'.tasks[t].at.RevokeInstalled?;
    forall u | u in s'.tasks ensures TaskAgrees(s', s'.tasks[u]) {
      assert StackReader(s.tasks[t].at);
      if u != t { assert TaskAgrees(s, s.tasks[u]); }
    }
  }

  lemma RevokeKeepsSafe(s: State, t: nat, c: Choice)
    requires t in s.tasks && s.tasks[t].at.RevokeInstalled? && Safe(s)
    ensures Revocation(Step(s, t, c)) && TasksAgree(Step(s, t, c)) && NothingLive(Step(s, t, c))
  {
    var s' := Step(s, t, c);
    forall u | u in s'.tasks ensures TaskAgrees(s', s'.tasks[u]) {
      if u != t { assert TaskAgrees(s, s.tasks[u]); }
    }
  }

  /** Clearing the old routes changes no generation, no revocation and not which stack is installed. */
  lemma ClearEffect(s: State, t: nat, c: Choice)
    requires t in s.tasks && s.tasks[t].at.AwaitOldService?
    ensures
      var s' := Step(s, t, c);
      && s'.generation == s.generation && s'.installed == s.installed && |s'.stacks| == |s.stacks|
      && (forall k :: 0 <= k < |s.stacks| ==>
            s'.stacks[k].revoked == s.stacks[k].revoked && s'.stacks[k].generation == s.stacks[k].generation)
      && s'.tasks == s.tasks[t := s.tasks[t].(at := AwaitUninstall)]
  {
  }

  lemma ClearKeepsSafe(s: State, t: nat, c: Choice)
    requires t in s.tasks && s.tasks[t].at.AwaitOldService? && Safe(s)
    ensures Revocation(Step(s, t, c)) && TasksAgree(Step(s, t, c))
  {
    ClearEffect(s, t, c);
    SameFlagsKeepSafe(s, t, Step(s, t, c));
  }

  lemma SameFlagsKeepSafe(s: State, t: nat, s': State)
    requires t in s.tasks && s.tasks[t].at.AwaitOldService? && Safe(s)
    requires s'.generation == s.generation && s'.installed == s.installed && |s'.stacks| == |s.stacks|
    requires forall k :: 0 <= k < |s.stacks| ==>
      s'.stacks[k].revoked == s.stacks[k].revoked && s'.stacks[k].generation == s.stacks[k].generation
    requires s'.tasks == s.tasks[t := s.tasks[t].(at := AwaitUninstall)]
    ensures Revocation(s') && TasksAgree(s')
  {
    if Invalidating(s) {
      var u :| u in s.tasks && s.tasks[u].at.RevokeInstalled?;
      assert u in s'.tasks && s'.tasks[u].at.RevokeInstalled?;
    }
    forall u | u in s'.tasks
      ensures TaskAgrees(s', s'.tasks[u])
    {
      assert TaskAgrees(s, s.tasks[u]);
    }
  }

  lemma UninstallKeepsSafe(s: State, t: nat, c: Choice)
    requires t in s.tasks && s.tasks[t].at.AwaitUninstall? && Safe(s)
    ensures Revocation(Step(s, t, c)) && TasksAgree(Step(s, t, c))
  {
    var s' := Step(s, t, c);
    assert TaskAgrees(s, s.tasks[t]);
    forall u | u in s'.tasks ensures TaskAgrees(s', s'.tasks[u]) {
      assert TaskAgrees(s, s.tasks[u]);
    }
  }

  /** Publishing stores the built stack and ends the call. */
  lemma PublishStep(s: State, t: nat, c: Choice)
    requires t in s.tasks && s.tasks[t].at.Publish?
    ensures Step(s, t, c) == Finish(Installed(s, BuiltStack(s.tasks[t].build)), t)
  {
  }

  lemma PublishedIsSafe(s: State, t: nat, s': State)
    requires t in s.tasks && s.tasks[t].at.Publish? && Safe(s)
    requires s' == Finish(Installed(s, BuiltStack(s.tasks[t].build)), t)
    ensures Revocation(s') && TasksAgree(s')
  {
    assert TaskAgrees(s, s.tasks[t]) && HoldsRebuild(s.tasks[t].at);
    forall u | u in s'.tasks ensures TaskAgrees(s', s'.tasks[u]) {
      assert TaskAgrees(s, s.tasks[u]);
    }
  }

  lemma PublishKeepsSafe(s: State, t: nat, c: Choice)
    requires t in s.tasks && s.tasks[t].at.Publish? && Safe(s)
    ensures Revocation(Step(s, t, c)) && TasksAgree(Step(s, t, c))
  {
    PublishStep(s, t, c);
    PublishedIsSafe(s, t, Step(s, t, c));
  }

  /** The steps that touch the stack, case by case. */
  lemma TouchingStepKeepsSafe(s: State, t: nat, c: Choice)
    requires t in s.tasks && TouchesStack(s.tasks[t].at) && Safe(s)
    ensures Revocation(Step(s, t, c)) && TasksAgree(Step(s, t, c))
  {
    var p := s.tasks[t].at;
    if p.BumpGeneration? {
      BumpKeepsSafe(s, t, c);
    } else if p.RevokeInstalled? {
      RevokeKeepsSafe(s, t, c);
    } else if p.AwaitOldService? {
      ClearKeepsSafe(s, t, c);
    } else if p.AwaitUninstall? {
      UninstallKeepsSafe(s, t, c);
    } else {
      PublishKeepsSafe(s, t, c);
    }
  }

  lemma StepKeepsSafe(s: State, t: nat, c: Choice)
    requires t in s.tasks && Ready(s, t) && Safe(s)
    ensures Safe(Step(s, t, c))
  {
    StepKeepsExclusive(s, t, c);
    if TouchesStack(s.tasks[t].at) {
      TouchingStepKeepsSafe(s, t, c);
    } else {
      QuietStepKeepsSafe(s, t, c);
    }
  }

  lemma CancelKeepsSafe(s: State, t: nat)
    requires t in s.tasks && Awaits(s.tasks[t].at) && Safe(s)
    ensures Safe(Finish(s, t))
  {
    var s' := Finish(s, t);
    if Invalidating(s) {
      var u :| u in s.tasks && s.tasks[u].at.RevokeInstalled?;
      assert u in s'.tasks && s'.tasks[u].at.RevokeInstalled?;
    }
  }

  lemma SpawnKeepsSafe(s: State, t: nat, job: Job)
    requires t !in s.tasks && Safe(s)
    ensures Safe(Put(s, t, NewTask(job)))
  {
    NewTaskHoldsNothing(job);
    AddKeepsExclusive(s, t, NewTask(job));
    var s' := Put(s, t, NewTask(job));
    if Invalidating(s) {
      var u :| u in s.tasks && s.tasks[u].at.RevokeInstalled?;
      assert u in s'.tasks && s'.tasks[u].at.RevokeInstalled?;
    }
  }

  lemma EnvironmentKeepsSafe(s: State, s': State)
    requires Safe(s) && s'.tasks == s.tasks
    requires s'.generation == s.generation && s'.stacks == s.stacks && s'.installed == s.installed
    ensures Safe(s')
  {
    if Invalidating(s) {
      var u :| u in s.tasks && s.tasks[u].at.RevokeInstalled?;
      assert u in s'.tasks && s'.tasks[u].at.RevokeInstalled?;
    }
  }

  lemma ActionKeepsSafe(s: State, a: Action)
    requires Allowed(s, a) && Safe(s)
    ensures Safe(Apply(s, a))
  {
    match a
    case Run(t, c) => StepKeepsSafe(s, t, c);
    case Cancel(t) => CancelKeepsSafe(s, t);
    case Spawn(t, job) => SpawnKeepsSafe(s, t, job);
    case SetApp(_) => EnvironmentKeepsSafe(s, Apply(s, a));
    case CloseOwner => EnvironmentKeepsSafe(s, Apply(s, a));
    case WriteSettings(_, _) => EnvironmentKeepsSafe(s, Apply(s, a));
  }

  lemma InitIsSafe(s: State)
    requires Init(s)
    ensures Safe(s)
  {
  }

  lemma {:induction false} RunIsSafe(states: seq<State>, actions: seq<Action>, n: nat)
    requires IsRun(states, actions) && Init(states[0]) && n <= |actions|
    ensures Safe(states[n])
  {
    if n == 0 {
      InitIsSafe(states[0]);
    } else {
      RunIsSafe(states, actions, n - 1);
      assert StepAt(states, actions, n - 1);
      ActionKeepsSafe(states[n - 1], actions[n - 1]);
    }
  }

  // ---------------------------------------------------------------- main results

  /**
   * In every interleaving: unless an invalidator sits between its bump and its revoke, a live
   * installed stack carries the current generation. Every other stack ever installed is revoked.
   */
  lemma LiveStackIsCurrent(states: seq<State>, actions: seq<Action>, n: nat, k: nat)
    requires IsRun(states, actions) && Init(states[0]) && n <= |actions| && k < |states[n].stacks|
    ensures !states[n].stacks[k].revoked ==> Live(states[n], k)
    ensures
      !states[n].stacks[k].revoked && !Invalidating(states[n]) ==>
        states[n].stacks[k].generation == states[n].generation
  {
    RunIsSafe(states, actions, n);
  }

  /**
   * From its under-lock revocation until it ends, a rebuild faces no live stack, and no step,
   * cancellation or call of any other task installs or takes out a stack.
   */
  lemma RebuildOwnsTheStack(states: seq<State>, actions: seq<Action>, n: nat, t: nat)
    requires IsRun(states, actions) && Init(states[0]) && n < |actions|
    requires t in states[n].tasks && Rebuilding(states[n].tasks[t].at)
    ensures NothingLive(states[n])
    ensures
      !(actions[n].Run? && actions[n].task == t) ==>
        states[n + 1].installed == states[n].installed && |states[n + 1].stacks| == |states[n].stacks|
    ensures Replacing(states[n].tasks[t].at) ==> states[n].installed.None?
  {
    RunIsSafe(states, actions, n);
    assert StepAt(states, actions, n);
    assert TaskAgrees(states[n], states[n].tasks[t]);
    if actions[n].Run? && actions[n].task != t {
      OthersLeaveTheStack(states[n], t, actions[n].task, actions[n].choice);
    }
  }

  lemma OthersLeaveTheStack(s: State, t: nat, u: nat, c: Choice)
    requires RebuildExclusive(s.tasks) && t in s.tasks && u in s.tasks && t != u && HoldsRebuild(s.tasks[t].at)
    ensures Step(s, u, c).installed == s.installed && |Step(s, u, c).stacks| == |s.stacks|
  {
    assert !HoldsRebuild(s.tasks[u].at);
  }

  /** A stack only ever gains flags: it keeps its place, its build and, once set, its revocation. */
  predicate Ages(before: Stack, after: Stack) {
    && (before.revoked ==> after.revoked)
    && (before.cleared ==> after.cleared)
    && after == before.(revoked := after.revoked, cleared := after.cleared)
  }

  ghost predicate StacksAge(before: seq<Stack>, after: seq<Stack>) {
    && |before| <= |after|
    && forall k :: 0 <= k < |before| ==> Ages(before[k], after[k])
  }

  lemma EffectAgesStacks(s: State, t: nat)
    requires t in s.tasks
    ensures StacksAge(s.stacks, Effect(s, t).stacks)
  {
    if !TouchesStack(s.tasks[t].at) { QuietEffect(s, t); }
  }

  /** Revocation is never undone, however the run continues. */
  lemma {:induction false} RevocationIsPermanent(states: seq<State>, actions: seq<Action>, m: nat, n: nat)
    requires IsRun(states, actions) && m <= n <= |actions|
    ensures StacksAge(states[m].stacks, states[n].stacks)
  {
    if m < n {
      RevocationIsPermanent(states, actions, m, n - 1);
      assert StepAt(states, actions, n - 1);
      var s, a := states[n - 1], actions[n - 1];
      if a.Run? { EffectAgesStacks(s, a.task); }
      assert StacksAge(s.stacks, states[n].stacks);
    }
  }
}
