/** Credential safety: which secrets a stack can be built from, and when old ones are gone for good. */
module ChainHostCredentials {
  import opened Wrappers
  import opened ChainHost
  import opened ChainHostLocks
  import opened ChainHostSafety

  /** The pair was issued together: these are the secrets of that revision. */
  predicate Genuine(issued: seq<Secrets>, c: Option<Credentials>) {
    c.Some? ==> c.value.revision < |issued| && issued[c.value.revision] == c.value.secrets
  }

  ghost predicate Revising(s: State) {
    exists t :: t in s.tasks && s.tasks[t].at.BumpRevision?
  }

  /** The current secrets belong to the current revision, except between the two writes. */
  ghost predicate Issued(s: State) {
    && |s.issued| == s.revision + 1
    && (s.issued[s.revision] == s.secrets || Revising(s))
    && (forall k :: 0 <= k < |s.stacks| ==> Genuine(s.issued, s.stacks[k].credentials))
    && (forall t :: t in s.tasks ==> ReadsPair(s, s.tasks[t]))
  }

  predicate ReadsPair(s: State, task: Task) {
    && (task.at.CloneSecrets? ==> task.build.revision == s.revision)
    && Genuine(s.issued, task.build.credentials)
  }

  predicate TouchesSecrets(p: Point) {
    p.InstallSecrets? || p.BumpRevision? || p.Publish?
  }

  lemma QuietOnSecrets(s: State, t: nat)
    requires t in s.tasks && !TouchesSecrets(s.tasks[t].at)
    ensures
      var e := Effect(s, t);
      && e.secrets == s.secrets && e.revision == s.revision && e.issued == s.issued
      && |e.stacks| == |s.stacks|
      && forall k :: 0 <= k < |s.stacks| ==> e.stacks[k].credentials == s.stacks[k].credentials
  {
  }

  lemma QuietAfterReads(s: State, t: nat, c: Choice)
    requires t in s.tasks && !TouchesSecrets(s.tasks[t].at) && Exclusive(s) && Issued(s)
    ensures
      After(s, t, c).Some? ==>
        ReadsPair(s, After(s, t, c).value) && !After(s, t, c).value.at.BumpRevision?
  {
    assert ReadsPair(s, s.tasks[t]);
    if s.tasks[t].at.CloneSecrets? {
      assert SecretsReader(s.tasks[t].at);
      assert s.issued[s.revision] == s.secrets;
    } else {
      OthersKeepCredentials(s, t, c);
    }
  }

  lemma OthersKeepCredentials(s: State, t: nat, c: Choice)
    requires t in s.tasks && !TouchesSecrets(s.tasks[t].at) && !s.tasks[t].at.CloneSecrets?
    ensures
      After(s, t, c).Some? ==>
        var task := After(s, t, c).value;
        && (task.build.credentials == s.tasks[t].build.credentials || task.build.credentials == None)
        && (task.at.CloneSecrets? ==> task.build.revision == s.revision)
        && !task.at.BumpRevision?
  {
  }

  lemma QuietKeepsIssued(s: State, t: nat, c: Choice)
    requires t in s.tasks && !TouchesSecrets(s.tasks[t].at) && Exclusive(s) && Issued(s)
    ensures Issued(Step(s, t, c))
  {
    EffectKeepsTasks(s, t);
    QuietOnSecrets(s, t);
    QuietAfterReads(s, t, c);
    var s' := Step(s, t, c);
    if Revising(s) {
      var u :| u in s.tasks && s.tasks[u].at.BumpRevision?;
      assert u in s'.tasks && s'.tasks[u].at.BumpRevision?;
    }
    forall u | u in s'.tasks ensures ReadsPair(s', s'.tasks[u]) {
      if u != t { assert ReadsPair(s, s.tasks[u]); }
    }
  }

  lemma InstallKeepsIssued(s: State, t: nat, c: Choice)
    requires t in s.tasks && s.tasks[t].at.InstallSecrets? && Exclusive(s) && Issued(s)
    ensures Issued(Step(s, t, c))
  {
    var s' := Step(s, t, c);
    assert t in s'.tasks && s'.tasks[t].at.BumpRevision?;
    forall u | u in s'.tasks ensures ReadsPair(s', s'.tasks[u]) {
      assert ReadsPair(s, s.tasks[u]);
    }
  }

  lemma ReviseKeepsIssued(s: State, t: nat, c: Choice)
    requires t in s.tasks && s.tasks[t].at.BumpRevision? && Exclusive(s) && Issued(s)
    ensures Issued(Step(s, t, c))
  {
    var s' := Step(s, t, c);
    forall u | u in s'.tasks ensures ReadsPair(s', s'.tasks[u]) {
      assert ReadsPair(s, s.tasks[u]);
      assert SecretsWriter(s.tasks[t].at);
    }
  }

  lemma PublishKeepsIssued(s: State, t: nat, c: Choice)
    requires t in s.tasks && s.tasks[t].at.Publish? && Issued(s)
    ensures Issued(Step(s, t, c))
  {
    PublishStep(s, t, c);
    PublishedIsIssued(s, t, Step(s, t, c));
  }

  lemma PublishedIsIssued(s: State, t: nat, s': State)
    requires t in s.tasks && s.tasks[t].at.Publish? && Issued(s)
    requires s' == Finish(Installed(s, BuiltStack(s.tasks[t].build)), t)
    ensures Issued(s')
  {
    assert ReadsPair(s, s.tasks[t]);
    if Revising(s) {
      var u :| u in s.tasks && s.tasks[u].at.BumpRevision?;
      assert u in s'.tasks && s'.tasks[u].at.BumpRevision?;
    }
    forall u | u in s'.tasks ensures ReadsPair(s', s'.tasks[u]) {
      assert ReadsPair(s, s.tasks[u]);
    }
  }

  lemma StepKeepsIssued(s: State, t: nat, c: Choice)
    requires t in s.tasks && Exclusive(s) && Issued(s)
    ensures Issued(Step(s, t, c))
  {
    match s.tasks[t].at
    case InstallSecrets => InstallKeepsIssued(s, t, c);
    case BumpRevision => ReviseKeepsIssued(s, t, c);
    case Publish => PublishKeepsIssued(s, t, c);
    case _ => QuietKeepsIssued(s, t, c);
  }

  lemma ActionKeepsIssued(s: State, a: Action)
    requires Allowed(s, a) && Exclusive(s) && Issued(s)
    ensures Issued(Apply(s, a))
  {
    if a.Run? {
      StepKeepsIssued(s, a.task, a.choice);
    } else {
      var s' := Apply(s, a);
      if Revising(s) {
        var u :| u in s.tasks && s.tasks[u].at.BumpRevision?;
        assert u in s'.tasks && s'.tasks[u].at.BumpRevision?;
      }
      forall u | u in s'.tasks ensures ReadsPair(s', s'.tasks[u]) {
        assert u in s.tasks ==> ReadsPair(s, s.tasks[u]);
      }
    }
  }

  lemma {:induction false} RunIsIssued(states: seq<State>, actions: seq<Action>, n: nat)
    requires IsRun(states, actions) && Init(states[0]) && n <= |actions|
    ensures Issued(states[n])
  {
    if n > 0 {
      RunIsIssued(states, actions, n - 1);
      RunIsSafe(states, actions, n - 1);
      assert StepAt(states, actions, n - 1);
      ActionKeepsIssued(states[n - 1], actions[n - 1]);
    }
  }

  // ---------------------------------------------------------------- a floor under revisions

  predicate AtLeast(k: nat, c: Option<Credentials>) {
    c.Some? ==> k <= c.value.revision
  }

  /** Nothing built from a revision below `k` is live, or on its way to being published. */
  ghost predicate Floor(s: State, k: nat) {
    && k <= s.revision
    && (forall i :: 0 <= i < |s.stacks| && !s.stacks[i].revoked ==> AtLeast(k, s.stacks[i].credentials))
    && (forall t :: t in s.tasks ==> TaskFloor(s.tasks[t], k))
  }

  predicate TaskFloor(task: Task, k: nat) {
    && (task.at.CloneSecrets? ==> k <= task.build.revision)
    && (Replacing(task.at) ==> AtLeast(k, task.build.credentials))
  }

  lemma EffectKeepsFloor(s: State, t: nat, k: nat)
    requires t in s.tasks && Floor(s, k)
    ensures
      var e := Effect(s, t);
      k <= e.revision && forall i :: 0 <= i < |e.stacks| && !e.stacks[i].revoked ==> AtLeast(k, e.stacks[i].credentials)
  {
    assert TaskFloor(s.tasks[t], k);
  }

  lemma AfterKeepsFloor(s: State, t: nat, c: Choice, k: nat)
    requires t in s.tasks && TaskFloor(s.tasks[t], k) && k <= s.revision
    ensures After(s, t, c).Some? ==> TaskFloor(After(s, t, c).value, k)
  {
  }

  lemma ActionKeepsFloor(s: State, a: Action, k: nat)
    requires Allowed(s, a) && Floor(s, k)
    ensures Floor(Apply(s, a), k)
  {
    var s' := Apply(s, a);
    if a.Run? {
      EffectKeepsTasks(s, a.task);
      EffectKeepsFloor(s, a.task, k);
      assert TaskFloor(s.tasks[a.task], k);
      AfterKeepsFloor(s, a.task, a.choice, k);
    }
    forall u | u in s'.tasks ensures TaskFloor(s'.tasks[u], k) {
      if u in s.tasks { assert TaskFloor(s.tasks[u], k); }
    }
  }

  /** An under-lock revocation retires everything built from earlier revisions at once. */
  lemma UnderLockRevocationSetsFloor(s: State, t: nat, c: Choice)
    requires t in s.tasks && s.tasks[t].at == RevokeInstalled(UnderLock) && Safe(s)
    ensures Floor(Step(s, t, c), s.revision)
  {
    var s' := Step(s, t, c);
    forall u | u in s'.tasks ensures TaskFloor(s'.tasks[u], s.revision) {
      assert HoldsRebuild(s.tasks[t].at);
    }
  }

  lemma {:induction false} RunKeepsFloor(states: seq<State>, actions: seq<Action>, m: nat, n: nat, k: nat)
    requires IsRun(states, actions) && m <= n <= |actions| && Floor(states[m], k)
    ensures Floor(states[n], k)
  {
    if m < n {
      RunKeepsFloor(states, actions, m, n - 1, k);
      assert StepAt(states, actions, n - 1);
      ActionKeepsFloor(states[n - 1], actions[n - 1], k);
    }
  }

  lemma ActionKeepsRevision(s: State, a: Action)
    requires Allowed(s, a)
    ensures s.revision <= Apply(s, a).revision
  {
    if a.Run? && !TouchesSecrets(s.tasks[a.task].at) { QuietOnSecrets(s, a.task); }
  }

  lemma {:induction false} RevisionNeverFalls(states: seq<State>, actions: seq<Action>, m: nat, n: nat)
    requires IsRun(states, actions) && m <= n <= |actions|
    ensures states[m].revision <= states[n].revision
  {
    if m < n {
      RevisionNeverFalls(states, actions, m, n - 1);
      assert StepAt(states, actions, n - 1);
      ActionKeepsRevision(states[n - 1], actions[n - 1]);
    }
  }

  // ---------------------------------------------------------------- main results

  /** Every stack ever installed was built from secrets and a revision that belong together. */
  lemma StacksUseOnePair(states: seq<State>, actions: seq<Action>, n: nat, i: nat)
    requires IsRun(states, actions) && Init(states[0]) && n <= |actions|
    requires i < |states[n].stacks| && states[n].stacks[i].credentials.Some?
    ensures
      var pair := states[n].stacks[i].credentials.value;
      && |states[n].issued| == states[n].revision + 1
      && pair.revision <= states[n].revision
      && states[n].issued[pair.revision] == pair.secrets
  {
    RunIsIssued(states, actions, n);
    assert Genuine(states[n].issued, states[n].stacks[i].credentials);
  }

  /**
   * Task `t` installs a revision at step `i` and revokes under the rebuild lock at step `j`.
   * From then on no live stack was built from an earlier revision, although a build compares the
   * revision and stores its stack in separate steps.
   */
  lemma ReplacedCredentialsNeverReturn(
      states: seq<State>, actions: seq<Action>, t: nat, i: nat, j: nat, n: nat, k: nat)
    requires IsRun(states, actions) && Init(states[0])
    requires i < j < n <= |actions|
    requires actions[i].Run? && actions[i].task == t && t in states[i].tasks && states[i].tasks[t].at.BumpRevision?
    requires actions[j].Run? && actions[j].task == t && t in states[j].tasks
    requires states[j].tasks[t].at == RevokeInstalled(UnderLock)
    requires Live(states[n], k) && states[n].stacks[k].credentials.Some?
    ensures states[n].stacks[k].credentials.value.revision >= states[i].revision + 1
  {
    RunIsSafe(states, actions, j);
    RevocationStepSetsFloor(states, actions, j);
    RunKeepsFloor(states, actions, j + 1, n, states[j].revision);
    RevisionStepAdvances(states, actions, i);
    RevisionNeverFalls(states, actions, i + 1, j);
  }

  lemma RevocationStepSetsFloor(states: seq<State>, actions: seq<Action>, j: nat)
    requires IsRun(states, actions) && j < |actions| && Safe(states[j]) && actions[j].Run?
    requires actions[j].task in states[j].tasks
    requires states[j].tasks[actions[j].task].at == RevokeInstalled(UnderLock)
    ensures Floor(states[j + 1], states[j].revision)
  {
    assert StepAt(states, actions, j);
    UnderLockRevocationSetsFloor(states[j], actions[j].task, actions[j].choice);
  }

  lemma RevisionStepAdvances(states: seq<State>, actions: seq<Action>, i: nat)
    requires IsRun(states, actions) && i < |actions| && actions[i].Run? && actions[i].task in states[i].tasks
    requires states[i].tasks[actions[i].task].at.BumpRevision?
    ensures states[i + 1].revision == states[i].revision + 1
  {
    assert StepAt(states, actions, i);
  }

  // ---------------------------------------------------------------- no fallback route

  /** Credentials exactly for a selection that resolved to a route, and a header store only for such a one. */
  predicate Shaped(selected: NativeSelection, credentials: Option<Credentials>, headers: Option<nat>) {
    (selected.resolved.Ok? <==> credentials.Some?) && (selected.resolved.Err? ==> headers.None?)
  }

  predicate BuildShape(task: Task) {
    var b := task.build;
    var p := task.at;
    && (p.AwaitSecretsRead? || p.LoadRevision? || p.CloneSecrets? ==> b.captured.resolved.Ok?)
    && (p.AwaitHeaders? || p.AwaitProbe? ==> b.captured.resolved.Ok? && b.credentials.Some?)
    && (p.AwaitRecheck? || p.AwaitPublish? || StackWriter(p) ==> Shaped(b.captured, b.credentials, b.headers))
  }

  predicate StackShape(stack: Stack) {
    Shaped(stack.selected, stack.credentials, stack.headers)
  }

  ghost predicate Routeless(s: State) {
    && (forall i :: 0 <= i < |s.stacks| ==> StackShape(s.stacks[i]))
    && (forall t :: t in s.tasks ==> BuildShape(s.tasks[t]))
  }

  lemma BuildingKeepsShape(s: State, task: Task, c: Choice)
    requires HoldsRebuild(task.at) && !StackWriter(task.at) && !task.at.AwaitStackRead? && !task.at.BumpGeneration?
    requires !task.at.RevokeInstalled? && !task.at.AwaitOwner? && BuildShape(task)
    ensures BuildShape(AfterBuilding(s, task, c))
  {
  }

  lemma PassingKeepsShape(s: State, t: nat, c: Choice)
    requires t in s.tasks
    ensures AfterPassing(s, t, c).Some? ==> BuildShape(AfterPassing(s, t, c).value)
  {
  }

  lemma AfterKeepsShape(s: State, t: nat, c: Choice)
    requires t in s.tasks && BuildShape(s.tasks[t])
    ensures After(s, t, c).Some? ==> BuildShape(After(s, t, c).value)
  {
    var p := s.tasks[t].at;
    if p.AwaitStackRead? || p.BumpGeneration? || p.RevokeInstalled? || p.AwaitOwner? {
      assert After(s, t, c) == AfterInvalidating(s, s.tasks[t]);
    } else if SecretsWriter(p) || p.AwaitSecretsWrite? || p.AwaitRebuildLock? {
      assert After(s, t, c) == Some(s.tasks[t].(at := PointAfter(p)));
    } else if StackWriter(p) {
      assert After(s, t, c) == AfterChecking(s, s.tasks[t]);
    } else if HoldsRebuild(p) {
      BuildingKeepsShape(s, s.tasks[t], c);
    } else {
      PassingKeepsShape(s, t, c);
    }
  }

  lemma EffectKeepsRouteless(s: State, t: nat)
    requires t in s.tasks && Routeless(s)
    ensures
      var stacks := Effect(s, t).stacks;
      forall i :: 0 <= i < |stacks| ==> StackShape(stacks[i])
  {
    if s.tasks[t].at.Publish? {
      assert BuildShape(s.tasks[t]);
    } else {
      EffectAgesStacks(s, t);
      forall i | 0 <= i < |Effect(s, t).stacks|
        ensures StackShape(Effect(s, t).stacks[i])
      {
        assert i < |s.stacks| && Ages(s.stacks[i], Effect(s, t).stacks[i]) && StackShape(s.stacks[i]);
      }
    }
  }

  lemma ActionKeepsRouteless(s: State, a: Action)
    requires Allowed(s, a) && Routeless(s)
    ensures Routeless(Apply(s, a))
  {
    var s' := Apply(s, a);
    if a.Run? {
      EffectKeepsTasks(s, a.task);
      EffectKeepsRouteless(s, a.task);
      assert BuildShape(s.tasks[a.task]);
      AfterKeepsShape(s, a.task, a.choice);
    }
    forall u | u in s'.tasks ensures BuildShape(s'.tasks[u]) {
      if u in s.tasks { assert BuildShape(s.tasks[u]); }
    }
  }

  /** Unreadable settings only ever install the stack without routes, and readable ones never do. */
  lemma {:induction false} FaultsInstallNoRoutes(states: seq<State>, actions: seq<Action>, n: nat)
    requires IsRun(states, actions) && Init(states[0]) && n <= |actions|
    ensures Routeless(states[n])
  {
    if n > 0 {
      FaultsInstallNoRoutes(states, actions, n - 1);
      assert StepAt(states, actions, n - 1);
      ActionKeepsRouteless(states[n - 1], actions[n - 1]);
    }
  }
}
