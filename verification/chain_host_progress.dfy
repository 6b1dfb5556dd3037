/**
 * Progress: the lock order (rebuild, then service, then the stack, secrets and accepted-chain
 * locks) leaves no cyclic wait, and every call finishes in a bounded number of its own steps.
 */
module ChainHostProgress {
  import opened Wrappers
  import opened ChainHost
  import opened ChainHostLocks

  predicate WaitsForStack(p: Point) {
    || p.AwaitStackRead? || p.AwaitPrevious? || p.AwaitService? || p.AwaitInspect?
    || p.AwaitUninstall? || p.AwaitPublish?
  }

  predicate WaitsForSecrets(p: Point) {
    p.AwaitSecretsWrite? || p.AwaitSecretsRead?
  }

  /**
   * The task can take its next step whatever order the lock it awaits serves its queue in:
   * it awaits no lock, or one that nobody holds in any mode. The accepted-chain lock is only
   * ever held within one step. Probes, file reads, the owner and sync passes answer.
   */
  ghost predicate Unobstructed(s: State, t: nat)
    requires t in s.tasks
  {
    var p := s.tasks[t].at;
    && (WaitsForStack(p) ==> NoStackWriter(s) && NoStackReader(s))
    && (WaitsForSecrets(p) ==> NoSecretsWriter(s) && NoSecretsReader(s))
    && (p.AwaitRebuildLock? ==> RebuildFree(s))
    && (p.AwaitOldService? ==> ServiceFree(s, p.previous))
  }

  /** Whoever holds a stack or secrets guard, or a service, awaits no lock of the rebuild path. */
  lemma HoldersDoNotWait(p: Point)
    requires StackWriter(p) || StackReader(p) || SecretsWriter(p) || SecretsReader(p) || InPass(p)
    ensures !WaitsForStack(p) && !WaitsForSecrets(p) && !p.AwaitRebuildLock? && !p.AwaitOldService?
  {
  }

  lemma UnobstructedIsReady(s: State, t: nat)
    requires t in s.tasks && Unobstructed(s, t)
    ensures Ready(s, t)
  {
    match s.tasks[t].at
    case AwaitSecretsWrite => assert WaitsForSecrets(s.tasks[t].at);
    case AwaitSecretsRead => assert WaitsForSecrets(s.tasks[t].at);
    case AwaitRebuildLock =>
    case AwaitOldService(_) =>
    case _ =>
  }

  /** Holders of the inner locks never wait, so whoever obstructs them can move. */
  lemma InnerLocksDoNotBlock(s: State, t: nat)
    requires t in s.tasks && !s.tasks[t].at.AwaitRebuildLock?
    ensures exists u :: u in s.tasks && Unobstructed(s, u)
  {
    var p := s.tasks[t].at;
    if Unobstructed(s, t) {
    } else if WaitsForStack(p) {
      var u :| u in s.tasks && (StackWriter(s.tasks[u].at) || StackReader(s.tasks[u].at));
      HoldersDoNotWait(s.tasks[u].at);
      assert Unobstructed(s, u);
    } else if WaitsForSecrets(p) {
      var u :| u in s.tasks && (SecretsWriter(s.tasks[u].at) || SecretsReader(s.tasks[u].at));
      HoldersDoNotWait(s.tasks[u].at);
      assert Unobstructed(s, u);
    } else {
      var u :| u in s.tasks && HoldsService(s.tasks[u], p.previous);
      HoldersDoNotWait(s.tasks[u].at);
      assert Unobstructed(s, u);
    }
  }

  /** No deadlock: while any call is unfinished, some task can take a step. */
  lemma SomeTaskCanMove(s: State)
    requires s.tasks != map[]
    ensures exists u :: u in s.tasks && Unobstructed(s, u) && Ready(s, u)
  {
    var t :| t in s.tasks;
    if s.tasks[t].at.AwaitRebuildLock? && !RebuildFree(s) {
      t :| t in s.tasks && HoldsRebuild(s.tasks[t].at);
    }
    if s.tasks[t].at.AwaitRebuildLock? {
      assert Unobstructed(s, t);
    } else {
      InnerLocksDoNotBlock(s, t);
    }
    var u :| u in s.tasks && Unobstructed(s, u);
    UnobstructedIsReady(s, u);
  }

  // ---------------------------------------------------------------- termination

  /** A bound on the steps a task has left. */
  function StepsLeft(p: Point): nat {
    match p
    case AwaitStackRead(phase) => if phase == Leading then 31 else 23
    case BumpGeneration(phase) => if phase == Leading then 30 else 22
    case RevokeInstalled(phase) => if phase == Leading then 29 else 21
    case AwaitOwner(phase) => if phase == Leading then 28 else 20
    case AwaitSecretsWrite => 27
    case InstallSecrets => 26
    case BumpRevision => 25
    case AwaitRebuildLock => 24
    case LoadGeneration => 19
    case SnapshotOwner => 18
    case AwaitSettings => 17
    case AwaitPrevious => 16
    case AwaitOldService(_) => 15
    case AwaitUninstall => 14
    case AwaitSecretsRead => 13
    case LoadRevision => 12
    case CloneSecrets => 11
    case AwaitHeaders => 10
    case AwaitProbe => 9
    case AwaitRecheck => 8
    case AwaitPublish => 7
    case CheckSelection => 6
    case CheckRevision => 5
    case CheckGeneration => 4
    case Publish => 3
    case AwaitService => 6
    case TryService(_) => 5
    case ReadWallet => 4
    case AwaitChain => 3
    case AwaitSync => 2
    case AwaitViewPublish => 1
    case AwaitInspect => 2
    case Inspecting => 1
  }

  lemma InvalidationRunsOut(s: State, task: Task)
    ensures
      var after := AfterInvalidating(s, task);
      after.Some? ==> StepsLeft(after.value.at) < StepsLeft(task.at)
  {
  }

  lemma BuildingRunsOut(s: State, task: Task, c: Choice)
    requires Rebuilding(task.at) && !StackWriter(task.at) && !task.at.AwaitOwner?
    ensures StepsLeft(AfterBuilding(s, task, c).at) < StepsLeft(task.at)
  {
  }

  lemma CheckingRunsOut(s: State, task: Task)
    ensures
      var after := AfterChecking(s, task);
      after.Some? ==> StepsLeft(after.value.at) < StepsLeft(task.at)
  {
  }

  lemma PassingRunsOut(s: State, t: nat, c: Choice)
    requires t in s.tasks
    ensures
      var after := AfterPassing(s, t, c);
      after.Some? ==> StepsLeft(after.value.at) < StepsLeft(s.tasks[t].at)
  {
  }

  lemma StepsRunOut(s: State, t: nat, c: Choice)
    requires t in s.tasks
    ensures StepsLeft(s.tasks[t].at) > 0
    ensures After(s, t, c).Some? ==> StepsLeft(After(s, t, c).value.at) < StepsLeft(s.tasks[t].at)
  {
    var task := s.tasks[t];
    var p := task.at;
    if p.AwaitStackRead? || p.BumpGeneration? || p.RevokeInstalled? || p.AwaitOwner? {
      InvalidationRunsOut(s, task);
    } else if SecretsWriter(p) || p.AwaitSecretsWrite? || p.AwaitRebuildLock? {
      assert After(s, t, c) == Some(task.(at := PointAfter(p)));
    } else if StackWriter(p) {
      CheckingRunsOut(s, task);
    } else if HoldsRebuild(p) {
      BuildingRunsOut(s, task, c);
    } else {
      PassingRunsOut(s, t, c);
    }
  }

  /** The steps all tasks together have left. */
  ghost function Work(tasks: map<nat, Task>): nat
    decreases |tasks|
  {
    if tasks == map[] then 0
    else
      var t :| t in tasks;
      StepsLeft(tasks[t].at) + Work(tasks - {t})
  }

  lemma {:induction false} WorkWithout(tasks: map<nat, Task>, t: nat)
    requires t in tasks
    ensures Work(tasks) == StepsLeft(tasks[t].at) + Work(tasks - {t})
    decreases |tasks|
  {
    var u :| u in tasks && Work(tasks) == StepsLeft(tasks[u].at) + Work(tasks - {u});
    if u != t {
      WorkWithout(tasks - {u}, t);
      WorkWithout(tasks - {t}, u);
      assert tasks - {u} - {t} == tasks - {t} - {u};
    }
  }

  lemma StepDoesWork(s: State, t: nat, c: Choice)
    requires t in s.tasks
    ensures Work(Step(s, t, c).tasks) < Work(s.tasks)
  {
    EffectKeepsTasks(s, t);
    StepsRunOut(s, t, c);
    WorkWithout(s.tasks, t);
    var after := After(s, t, c);
    if after.Some? {
      var tasks := s.tasks[t := after.value];
      WorkWithout(tasks, t);
      assert tasks - {t} == s.tasks - {t};
    }
  }

  ghost predicate OnlySteps(actions: seq<Action>) {
    forall i :: 0 <= i < |actions| ==> actions[i].Run?
  }

  /** No livelock: without new calls, tasks can take at most `Work` steps in all. */
  lemma {:induction false} StepsAreBounded(states: seq<State>, actions: seq<Action>, n: nat)
    requires IsRun(states, actions) && OnlySteps(actions) && n <= |actions|
    ensures n + Work(states[n].tasks) <= Work(states[0].tasks)
  {
    if n > 0 {
      StepsAreBounded(states, actions, n - 1);
      StepAtDoesWork(states, actions, n - 1);
    }
  }

  lemma StepAtDoesWork(states: seq<State>, actions: seq<Action>, i: nat)
    requires IsRun(states, actions) && i < |actions| && actions[i].Run?
    ensures Work(states[i + 1].tasks) < Work(states[i].tasks)
  {
    assert StepAt(states, actions, i);
    StepDoesWork(states[i], actions[i].task, actions[i].choice);
  }

  ghost predicate DrainsBy(s: State, states: seq<State>, actions: seq<Action>) {
    && IsRun(states, actions) && OnlySteps(actions)
    && states[0] == s && states[|actions|].tasks == map[]
  }

  lemma DrainsSooner(s: State, a: Action, s': State, states: seq<State>, actions: seq<Action>)
    requires a.Run? && IsRun([s, s'], [a]) && DrainsBy(s', states, actions)
    ensures DrainsBy(s, [s] + states, [a] + actions)
  {
    var states1, actions1 := [s] + states, [a] + actions;
    forall i | 0 <= i < |actions1|
      ensures StepAt(states1, actions1, i)
    {
      if i > 0 {
        assert StepAt(states, actions, i - 1);
      } else {
        assert StepAt([s, s'], [a], 0);
      }
    }
  }

  ghost predicate CanDrain(s: State, n: nat) {
    exists states, actions :: DrainsBy(s, states, actions) && |actions| <= n
  }

  /** Some task can take a step, and it does work. */
  lemma SomeStepWorks(s: State) returns (a: Action, s': State)
    requires s.tasks != map[]
    ensures a.Run? && IsRun([s, s'], [a]) && Work(s'.tasks) < Work(s.tasks)
  {
    SomeTaskCanMove(s);
    var t :| t in s.tasks && Ready(s, t);
    a := Run(t, Choice(false, true, None));
    s' := Apply(s, a);
    StepDoesWork(s, t, a.choice);
  }

  lemma DrainsLater(s: State, a: Action, s': State, n: nat)
    requires a.Run? && IsRun([s, s'], [a]) && CanDrain(s', n)
    ensures CanDrain(s, n + 1)
  {
    var states, actions :| DrainsBy(s', states, actions) && |actions| <= n;
    DrainsSooner(s, a, s', states, actions);
  }

  /** From every state, whatever its tasks hold, there is a run of their own steps that finishes all of them. */
  lemma {:induction false} EveryCallCanFinish(s: State)
    ensures CanDrain(s, Work(s.tasks))
    decreases Work(s.tasks)
  {
    if s.tasks == map[] {
      assert DrainsBy(s, [s], []);
    } else {
      var a, s' := SomeStepWorks(s);
      EveryCallCanFinish(s');
      DrainsLater(s, a, s', Work(s'.tasks));
    }
  }
}
