/** Mutual exclusion: what the guards of the chain host exclude in every reachable state. */
module ChainHostLocks {
  import opened ChainHost

  type Tasks = map<nat, Task>

  ghost predicate RebuildExclusive(tasks: Tasks) {
    forall t, u ::
      t in tasks && u in tasks && HoldsRebuild(tasks[t].at) && HoldsRebuild(tasks[u].at) ==> t == u
  }

  ghost predicate StackExclusive(tasks: Tasks) {
    forall t, u ::
      t in tasks && u in tasks && StackWriter(tasks[t].at)
      && (StackWriter(tasks[u].at) || StackReader(tasks[u].at)) ==>
        t == u
  }

  ghost predicate SecretsExclusive(tasks: Tasks) {
    forall t, u ::
      t in tasks && u in tasks && SecretsWriter(tasks[t].at)
      && (SecretsWriter(tasks[u].at) || SecretsReader(tasks[u].at)) ==>
        t == u
  }

  ghost predicate ServiceExclusive(tasks: Tasks) {
    forall t, u, service ::
      t in tasks && u in tasks && HoldsService(tasks[t], service) && HoldsService(tasks[u], service) ==> t == u
  }

  ghost predicate Exclusive(s: State) {
    RebuildExclusive(s.tasks) && StackExclusive(s.tasks) && SecretsExclusive(s.tasks) && ServiceExclusive(s.tasks)
  }

  /** A step takes a guard only where it was granted. */
  lemma StepTakesStackGuards(s: State, t: nat, c: Choice)
    requires t in s.tasks && Ready(s, t) && After(s, t, c).Some?
    ensures
      StackWriter(After(s, t, c).value.at) ==>
        StackWriter(s.tasks[t].at) || (NoStackWriter(s) && NoStackReader(s))
    ensures StackReader(After(s, t, c).value.at) ==> StackReader(s.tasks[t].at) || NoStackWriter(s)
  {
  }

  lemma StepTakesSecretsGuards(s: State, t: nat, c: Choice)
    requires t in s.tasks && Ready(s, t) && After(s, t, c).Some?
    ensures
      SecretsWriter(After(s, t, c).value.at) ==>
        SecretsWriter(s.tasks[t].at) || (NoSecretsWriter(s) && NoSecretsReader(s))
    ensures SecretsReader(After(s, t, c).value.at) ==> SecretsReader(s.tasks[t].at) || NoSecretsWriter(s)
  {
  }

  lemma StepTakesRebuild(s: State, t: nat, c: Choice)
    requires t in s.tasks && Ready(s, t) && After(s, t, c).Some?
    ensures HoldsRebuild(After(s, t, c).value.at) ==> HoldsRebuild(s.tasks[t].at) || RebuildFree(s)
  {
    var p := s.tasks[t].at;
    if p.AwaitRebuildLock? {
      assert RebuildFree(s);
    } else if p.AwaitStackRead? || p.BumpGeneration? || p.RevokeInstalled? || p.AwaitOwner? {
      assert After(s, t, c) == AfterInvalidating(s, s.tasks[t]);
    } else if !HoldsRebuild(p) && !SecretsWriter(p) && !p.AwaitSecretsWrite? {
      assert After(s, t, c) == AfterPassing(s, t, c);
    }
  }

  lemma StepTakesService(s: State, t: nat, c: Choice, service: nat)
    requires t in s.tasks && After(s, t, c).Some? && HoldsService(After(s, t, c).value, service)
    ensures HoldsService(s.tasks[t], service) || ServiceFree(s, service)
  {
  }

  lemma PutKeepsGuards(s: State, t: nat, task: Task)
    requires Exclusive(s) && t in s.tasks
    requires HoldsRebuild(task.at) ==> HoldsRebuild(s.tasks[t].at) || RebuildFree(s)
    requires StackWriter(task.at) ==> StackWriter(s.tasks[t].at) || (NoStackWriter(s) && NoStackReader(s))
    requires StackReader(task.at) ==> StackReader(s.tasks[t].at) || NoStackWriter(s)
    requires SecretsWriter(task.at) ==> SecretsWriter(s.tasks[t].at) || (NoSecretsWriter(s) && NoSecretsReader(s))
    requires SecretsReader(task.at) ==> SecretsReader(s.tasks[t].at) || NoSecretsWriter(s)
    ensures RebuildExclusive(s.tasks[t := task])
    ensures StackExclusive(s.tasks[t := task])
    ensures SecretsExclusive(s.tasks[t := task])
  {
  }

  lemma PutKeepsServiceExclusive(s: State, t: nat, task: Task)
    requires ServiceExclusive(s.tasks) && t in s.tasks
    requires forall service ::
      HoldsService(task, service) ==> HoldsService(s.tasks[t], service) || ServiceFree(s, service)
    ensures ServiceExclusive(s.tasks[t := task])
  {
  }

  lemma EffectKeepsTasks(s: State, t: nat)
    requires t in s.tasks
    ensures Effect(s, t).tasks == s.tasks
  {
  }

  lemma StepKeepsExclusive(s: State, t: nat, c: Choice)
    requires t in s.tasks && Ready(s, t) && Exclusive(s)
    ensures Exclusive(Step(s, t, c))
  {
    EffectKeepsTasks(s, t);
    var after := After(s, t, c);
    if after.Some? {
      StepTakesStackGuards(s, t, c);
      StepTakesSecretsGuards(s, t, c);
      StepTakesRebuild(s, t, c);
      PutKeepsGuards(s, t, after.value);
      forall service | HoldsService(after.value, service)
        ensures HoldsService(s.tasks[t], service) || ServiceFree(s, service)
      {
        StepTakesService(s, t, c, service);
      }
      PutKeepsServiceExclusive(s, t, after.value);
    }
  }

  lemma FinishKeepsExclusive(s: State, t: nat)
    requires Exclusive(s)
    ensures Exclusive(Finish(s, t))
  {
  }

  lemma NewTaskHoldsNothing(job: Job)
    ensures
      var task := NewTask(job);
      && !HoldsRebuild(task.at) && !StackWriter(task.at) && !StackReader(task.at)
      && !SecretsWriter(task.at) && !SecretsReader(task.at)
      && (InPass(task.at) ==> task.pass.service.None?)
  {
  }

  lemma AddKeepsExclusive(s: State, t: nat, task: Task)
    requires Exclusive(s) && t !in s.tasks
    requires !HoldsRebuild(task.at) && !StackWriter(task.at) && !StackReader(task.at)
    requires !SecretsWriter(task.at) && !SecretsReader(task.at)
    requires InPass(task.at) ==> task.pass.service.None?
    ensures Exclusive(Put(s, t, task))
  {
  }

  /** A call can be dropped wherever it awaits, which is everywhere but at these steps. */
  lemma CancellableIff(p: Point)
    ensures
      Awaits(p)
      <==> !(p.BumpGeneration? || p.RevokeInstalled? || p.InstallSecrets? || p.BumpRevision? || p.LoadGeneration?
             || p.SnapshotOwner? || p.LoadRevision? || p.CloneSecrets? || p.CheckSelection? || p.CheckRevision?
             || p.CheckGeneration? || p.Publish? || p.TryService? || p.ReadWallet? || p.Inspecting?)
  {
  }

  /** No interleaving of steps, cancellations and new calls breaks mutual exclusion. */
  lemma ActionKeepsExclusive(s: State, a: Action)
    requires Allowed(s, a) && Exclusive(s)
    ensures Exclusive(Apply(s, a))
  {
    match a
    case Run(t, c) => StepKeepsExclusive(s, t, c);
    case Cancel(t) => FinishKeepsExclusive(s, t);
    case Spawn(t, job) =>
      NewTaskHoldsNothing(job);
      AddKeepsExclusive(s, t, NewTask(job));
    case _ =>
      assert Apply(s, a).tasks == s.tasks;
  }
}
