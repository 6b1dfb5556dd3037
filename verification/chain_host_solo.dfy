/**
 * An undisturbed rebuild: the sequential meaning of the rebuild calls, and the proof that a task
 * running alone through the fine-grained steps has exactly that effect.
 */
module ChainHostSolo {
  import opened Wrappers
  import opened ChainHost
  import opened Networks
  import opened ChainHostSafety

  // ---------------------------------------------------------------- sequential meaning

  /** `invalidate_current_wallet_sync`. */
  function Invalidated(s: State): State {
    s.(generation := s.generation + 1, stacks := Revoked(s))
  }

  /** The old stack loses its routes and is taken out. */
  function Uninstalled(s: State): State {
    s.(stacks := if s.installed.Some? then Cleared(s.stacks, s.installed.value) else s.stacks, installed := None)
  }

  function Selected(s: State, stopped: bool): NativeSelection {
    ResolveSelection(s.app, ReadFile(s, s.app.network, stopped))
  }

  /** The stack a rebuild in state `s` publishes: without routes if the settings cannot be read. */
  function Replacement(s: State, stopped: bool): Stack {
    var selected := Selected(s, stopped);
    if selected.resolved.Ok? then
      var chain := ChainFor(s, selected.network);
      Stack(s.generation, selected, Some(Credentials(s.revision, s.secrets)),
            if chain.Some? then Some(chain.value.store) else None, false, false)
    else Stack(s.generation, selected, None, None, false, false)
  }

  /** `rebuild_selection_after_invalidation`. */
  function Rebuilt(s: State, stopped: bool): State {
    var invalidated := Invalidated(s);
    if !s.open then invalidated
    else
      var bare := Uninstalled(invalidated);
      var chained := if Selected(bare, stopped).resolved.Ok? then WithChain(bare, bare.app.network) else bare;
      Installed(chained, Replacement(bare, stopped))
  }

  /** `rebuild_selection`. */
  function RebuiltSelection(s: State, stopped: bool): State {
    if s.open then Rebuilt(Invalidated(s), stopped) else Invalidated(s)
  }

  function Resecured(s: State, secrets: Secrets): State {
    s.(secrets := secrets, revision := s.revision + 1, issued := s.issued + [secrets])
  }

  /** `replace_secrets`. */
  function ReplacedSecrets(s: State, secrets: Secrets, stopped: bool): State {
    if s.open then Rebuilt(Resecured(Invalidated(s), secrets), stopped) else Invalidated(s)
  }

  // ---------------------------------------------------------------- running alone

  /** No lock is held, and task `t` is not there yet. */
  ghost predicate Quiet(s: State, t: nat) {
    && t !in s.tasks
    && NoStackWriter(s) && NoStackReader(s) && NoSecretsWriter(s) && NoSecretsReader(s) && RebuildFree(s)
    && (s.installed.Some? ==> ServiceFree(s, s.installed.value))
  }

  /** Task `t` takes the step from state `i` of the trace to the next. */
  ghost predicate SoloAt(c: Choice, t: nat, trace: seq<State>, i: nat)
    requires i < |trace| - 1
  {
    t in trace[i].tasks && Ready(trace[i], t) && trace[i + 1] == Step(trace[i], t, c)
  }

  /** Task `t` alone makes these steps. */
  ghost predicate IsSolo(c: Choice, t: nat, trace: seq<State>) {
    |trace| > 0 && forall i {:trigger SoloAt(c, t, trace, i)} :: 0 <= i < |trace| - 1 ==> SoloAt(c, t, trace, i)
  }

  ghost predicate Leads(c: Choice, s: State, t: nat, trace: seq<State>, s': State) {
    IsSolo(c, t, trace) && trace[0] == s && trace[|trace| - 1] == s'
  }

  /** Task `t` alone can get from `s` to `s'`. */
  ghost predicate Reaches(c: Choice, s: State, t: nat, s': State) {
    exists trace :: Leads(c, s, t, trace, s')
  }

  lemma ReachesMore(c: Choice, s: State, t: nat, mid: State)
    requires Reaches(c, s, t, mid) && t in mid.tasks && Ready(mid, t)
    ensures Reaches(c, s, t, Step(mid, t, c))
  {
    var trace :| Leads(c, s, t, trace, mid);
    StepExtends(c, s, t, trace, mid, Step(mid, t, c));
  }

  lemma StepExtends(c: Choice, s: State, t: nat, trace: seq<State>, mid: State, next: State)
    requires Leads(c, s, t, trace, mid) && t in mid.tasks && Ready(mid, t) && next == Step(mid, t, c)
    ensures Leads(c, s, t, trace + [next], next)
  {
    var longer := trace + [next];
    forall i | 0 <= i < |longer| - 1
      ensures SoloAt(c, t, longer, i)
    {
      if i < |trace| - 1 { assert SoloAt(c, t, trace, i); }
    }
  }

  /** One more step, given what it does to task `t` and to shared state. */
  lemma Moves(c: Choice, origin: State, s: State, t: nat, task: Task, s': State, task': Task)
    requires Reaches(c, origin, t, Put(s, t, task)) && t !in s.tasks && s'.tasks == s.tasks
    requires Ready(Put(s, t, task), t) && After(Put(s, t, task), t, c) == Some(task')
    requires Effect(Put(s, t, task), t) == s'.(tasks := s.tasks[t := task])
    ensures Reaches(c, origin, t, Put(s', t, task'))
  {
    ReachesMore(c, origin, t, Put(s, t, task));
    assert s.tasks[t := task][t := task'] == s.tasks[t := task'];
  }

  lemma Ends(c: Choice, origin: State, s: State, t: nat, task: Task, s': State)
    requires Reaches(c, origin, t, Put(s, t, task)) && t !in s.tasks && s'.tasks == s.tasks
    requires Ready(Put(s, t, task), t) && After(Put(s, t, task), t, c) == None
    requires Effect(Put(s, t, task), t) == s'.(tasks := s.tasks[t := task])
    ensures Reaches(c, origin, t, s')
  {
    ReachesMore(c, origin, t, Put(s, t, task));
    assert s.tasks[t := task] - {t} == s.tasks;
  }

  lemma PointFacts(s: State, t: nat, task: Task)
    requires Quiet(s, t)
    ensures !StackWriter(task.at) ==> NoStackWriter(Put(s, t, task))
    ensures !StackReader(task.at) ==> NoStackReader(Put(s, t, task))
    ensures !SecretsWriter(task.at) ==> NoSecretsWriter(Put(s, t, task))
    ensures !SecretsReader(task.at) ==> NoSecretsReader(Put(s, t, task))
    ensures !HoldsRebuild(task.at) ==> RebuildFree(Put(s, t, task))
  {
  }

  lemma SoloTakesReadGuard(c: Choice, origin: State, s: State, t: nat, task: Task, phase: Phase)
    requires Quiet(s, t) && task.at == AwaitStackRead(phase) && Reaches(c, origin, t, Put(s, t, task))
    ensures Reaches(c, origin, t, Put(s, t, task.(at := BumpGeneration(phase))))
  {
    PointFacts(s, t, task);
    Moves(c, origin, s, t, task, s, task.(at := BumpGeneration(phase)));
  }

  lemma SoloBumps(c: Choice, origin: State, s: State, t: nat, task: Task, phase: Phase, bumped: State)
    requires Quiet(s, t) && task.at == BumpGeneration(phase) && Reaches(c, origin, t, Put(s, t, task))
    requires bumped == s.(generation := s.generation + 1)
    ensures Quiet(bumped, t) && Reaches(c, origin, t, Put(bumped, t, task.(at := RevokeInstalled(phase))))
  {
    Moves(c, origin, s, t, task, bumped, task.(at := RevokeInstalled(phase)));
  }

  lemma SoloRevokes(c: Choice, origin: State, s: State, t: nat, task: Task, phase: Phase, revoked: State)
    requires Quiet(s, t) && task.at == RevokeInstalled(phase) && Reaches(c, origin, t, Put(s, t, task))
    requires revoked == s.(stacks := Revoked(s))
    ensures Reaches(c, origin, t, Put(revoked, t, task.(at := AwaitOwner(phase))))
  {
    Moves(c, origin, s, t, task, revoked, task.(at := AwaitOwner(phase)));
  }

  /** Bump and revoke, up to the wait for the owner. */
  lemma SoloInvalidates(c: Choice, origin: State, s: State, t: nat, task: Task, phase: Phase)
    requires Quiet(s, t) && task.at == AwaitStackRead(phase) && Reaches(c, origin, t, Put(s, t, task))
    ensures Reaches(c, origin, t, Put(Invalidated(s), t, task.(at := AwaitOwner(phase))))
  {
    var bumped := s.(generation := s.generation + 1);
    var bumping, revoking := task.(at := BumpGeneration(phase)), task.(at := RevokeInstalled(phase));
    SoloTakesReadGuard(c, origin, s, t, task, phase);
    SoloBumps(c, origin, s, t, bumping, phase, bumped);
    assert bumping.(at := RevokeInstalled(phase)) == revoking;
    SoloRevokes(c, origin, bumped, t, revoking, phase, Invalidated(s));
  }

  /** The build a rebuild holds once it has read the owner and the settings. */
  function Captured(c: Choice, s: State, b: Build): Build {
    b.(generation := s.generation, app := s.app, captured := Selected(s, c.readerStopped))
  }

  /** From the acknowledgement to the settings read. */
  lemma SoloLoads(c: Choice, origin: State, s: State, t: nat, task: Task)
    requires Quiet(s, t) && s.open && task.at == AwaitOwner(UnderLock) && Reaches(c, origin, t, Put(s, t, task))
    ensures
      Reaches(c, origin, t, Put(s, t, task.(at := SnapshotOwner, build := task.build.(generation := s.generation))))
  {
    Moves(c, origin, s, t, task, s, task.(at := LoadGeneration));
    Moves(c, origin, s, t, task.(at := LoadGeneration), s,
          task.(at := SnapshotOwner, build := task.build.(generation := s.generation)));
  }

  lemma SoloReads(c: Choice, origin: State, s: State, t: nat, task: Task)
    requires Quiet(s, t) && s.open && task.at == AwaitOwner(UnderLock) && Reaches(c, origin, t, Put(s, t, task))
    ensures Reaches(c, origin, t, Put(s, t, task.(at := AwaitPrevious, build := Captured(c, s, task.build))))
  {
    SoloLoads(c, origin, s, t, task);
    SoloSnapshots(c, origin, s, t, task.(at := SnapshotOwner, build := task.build.(generation := s.generation)));
    var b2 := task.build.(generation := s.generation, app := s.app);
    Moves(c, origin, s, t, task.(at := AwaitSettings, build := b2), s,
          task.(at := AwaitPrevious, build := Captured(c, s, task.build)));
  }

  lemma SoloSnapshots(c: Choice, origin: State, s: State, t: nat, task: Task)
    requires Quiet(s, t) && task.at == SnapshotOwner && Reaches(c, origin, t, Put(s, t, task))
    ensures Reaches(c, origin, t, Put(s, t, task.(at := AwaitSettings, build := task.build.(app := s.app))))
  {
    Moves(c, origin, s, t, task, s, task.(at := AwaitSettings, build := task.build.(app := s.app)));
  }

  /** The old stack's routes are cleared through its service lock. */
  lemma SoloClears(c: Choice, origin: State, s: State, t: nat, task: Task)
    requires Quiet(s, t) && task.at == AwaitPrevious && Reaches(c, origin, t, Put(s, t, task))
    ensures
      Reaches(c, origin, t, Put(Uninstalled(s).(installed := s.installed), t, task.(at := AwaitUninstall)))
  {
    PointFacts(s, t, task);
    if s.installed.Some? {
      var waiting := task.(at := AwaitOldService(s.installed.value));
      Moves(c, origin, s, t, task, s, waiting);
      SoloClearsOldService(c, origin, s, t, waiting);
    } else {
      Moves(c, origin, s, t, task, Uninstalled(s).(installed := s.installed), task.(at := AwaitUninstall));
    }
  }

  lemma SoloClearsOldService(c: Choice, origin: State, s: State, t: nat, waiting: Task)
    requires Quiet(s, t) && s.installed.Some? && waiting.at == AwaitOldService(s.installed.value)
    requires Reaches(c, origin, t, Put(s, t, waiting))
    ensures
      Reaches(c, origin, t, Put(Uninstalled(s).(installed := s.installed), t, waiting.(at := AwaitUninstall)))
  {
    assert ServiceFree(Put(s, t, waiting), s.installed.value);
    Moves(c, origin, s, t, waiting, Uninstalled(s).(installed := s.installed), waiting.(at := AwaitUninstall));
  }

  lemma SoloTakesOut(c: Choice, origin: State, s: State, t: nat, task: Task)
    requires Quiet(s, t) && task.at == AwaitPrevious && Reaches(c, origin, t, Put(s, t, task))
    ensures
      Reaches(c, origin, t, Put(Uninstalled(s), t,
        task.(at := if task.build.captured.resolved.Ok? then AwaitSecretsRead else AwaitRecheck,
              build := task.build.(credentials := None, headers := None))))
  {
    SoloClears(c, origin, s, t, task);
    PointFacts(s, t, task.(at := AwaitUninstall));
    var kept := Uninstalled(s).(installed := s.installed);
    Moves(c, origin, kept, t, task.(at := AwaitUninstall), Uninstalled(s),
          task.(at := if task.build.captured.resolved.Ok? then AwaitSecretsRead else AwaitRecheck,
                build := task.build.(credentials := None, headers := None)));
  }

  lemma SoloLoadsRevision(c: Choice, origin: State, s: State, t: nat, task: Task)
    requires Quiet(s, t) && task.at == AwaitSecretsRead && Reaches(c, origin, t, Put(s, t, task))
    ensures Reaches(c, origin, t, Put(s, t, task.(at := CloneSecrets, build := task.build.(revision := s.revision))))
  {
    PointFacts(s, t, task);
    Moves(c, origin, s, t, task, s, task.(at := LoadRevision));
    Moves(c, origin, s, t, task.(at := LoadRevision), s,
          task.(at := CloneSecrets, build := task.build.(revision := s.revision)));
  }

  /** The credentials are read as one pair under the secrets lock. */
  lemma SoloSecures(c: Choice, origin: State, s: State, t: nat, task: Task)
    requires Quiet(s, t) && task.at == AwaitSecretsRead && Reaches(c, origin, t, Put(s, t, task))
    ensures
      Reaches(c, origin, t, Put(s, t,
        task.(at := AwaitHeaders,
              build := task.build.(revision := s.revision, credentials := Some(Credentials(s.revision, s.secrets))))))
  {
    SoloLoadsRevision(c, origin, s, t, task);
    var b1 := task.build.(revision := s.revision);
    Moves(c, origin, s, t, task.(at := CloneSecrets, build := b1), s,
          task.(at := AwaitHeaders, build := b1.(credentials := Some(Credentials(s.revision, s.secrets)))));
  }

  lemma SoloJoins(
      c: Choice, origin: State, s: State, t: nat, task: Task, network: Network, chain: Option<Accepted>, b: Build)
    requires Quiet(s, t) && task.at == AwaitHeaders && Reaches(c, origin, t, Put(s, t, task))
    requires network == task.build.captured.network && chain == ChainFor(s, network)
    requires b == task.build.(headers := if chain.Some? then Some(chain.value.store) else None)
    ensures Reaches(c, origin, t, Put(WithChain(s, network), t, task.(at := AwaitProbe, build := b)))
  {
    Moves(c, origin, s, t, task, WithChain(s, network), task.(at := AwaitProbe, build := b));
  }

  /** The build joins the accepted chain and probes. */
  lemma SoloProbes(c: Choice, origin: State, s: State, t: nat, task: Task)
    requires Quiet(s, t) && task.at == AwaitHeaders && Reaches(c, origin, t, Put(s, t, task))
    ensures
      var chain := ChainFor(s, task.build.captured.network);
      Reaches(c, origin, t, Put(WithChain(s, task.build.captured.network), t,
        task.(at := AwaitRecheck,
              build := task.build.(headers := if chain.Some? then Some(chain.value.store) else None))))
  {
    var network := task.build.captured.network;
    var chain := ChainFor(s, network);
    var b := task.build.(headers := if chain.Some? then Some(chain.value.store) else None);
    SoloJoins(c, origin, s, t, task, network, chain, b);
    Moves(c, origin, WithChain(s, network), t, task.(at := AwaitProbe, build := b), WithChain(s, network),
          task.(at := AwaitRecheck, build := b));
  }

  lemma SoloRechecks(c: Choice, origin: State, s: State, t: nat, task: Task)
    requires Quiet(s, t) && task.at == AwaitRecheck && Reaches(c, origin, t, Put(s, t, task))
    requires task.build.captured.network == s.app.network
    ensures
      Reaches(c, origin, t, Put(s, t,
        task.(at := CheckSelection, build := task.build.(recheck := ReadFile(s, s.app.network, c.readerStopped)))))
  {
    var file := ReadFile(s, s.app.network, c.readerStopped);
    var waiting := task.(at := AwaitPublish, build := task.build.(recheck := file));
    Moves(c, origin, s, t, task, s, waiting);
    SoloTakesWriteGuard(c, origin, s, t, waiting);
  }

  lemma SoloTakesWriteGuard(c: Choice, origin: State, s: State, t: nat, waiting: Task)
    requires Quiet(s, t) && waiting.at == AwaitPublish && Reaches(c, origin, t, Put(s, t, waiting))
    ensures Reaches(c, origin, t, Put(s, t, waiting.(at := CheckSelection)))
  {
    PointFacts(s, t, waiting);
    Moves(c, origin, s, t, waiting, s, waiting.(at := CheckSelection));
  }

  lemma SoloChecksSelection(c: Choice, origin: State, s: State, t: nat, task: Task)
    requires Quiet(s, t) && task.at == CheckSelection && Reaches(c, origin, t, Put(s, t, task))
    requires task.build.captured == Selected(s, c.readerStopped)
    requires task.build.recheck == ReadFile(s, s.app.network, c.readerStopped)
    ensures Reaches(c, origin, t, Put(s, t, task.(at := CheckRevision)))
  {
    Moves(c, origin, s, t, task, s, task.(at := CheckRevision));
  }

  lemma SoloChecks(c: Choice, origin: State, s: State, t: nat, task: Task)
    requires Quiet(s, t) && task.at == CheckSelection && Reaches(c, origin, t, Put(s, t, task))
    requires task.build.captured == Selected(s, c.readerStopped)
    requires task.build.recheck == ReadFile(s, s.app.network, c.readerStopped)
    requires task.build.generation == s.generation
    requires task.build.credentials.Some? ==> task.build.credentials.value.revision == s.revision
    ensures Reaches(c, origin, t, Put(s, t, task.(at := Publish)))
  {
    SoloChecksSelection(c, origin, s, t, task);
    SoloChecksRevision(c, origin, s, t, task.(at := CheckRevision));
    SoloChecksGeneration(c, origin, s, t, task.(at := CheckGeneration));
  }

  lemma SoloChecksGeneration(c: Choice, origin: State, s: State, t: nat, task: Task)
    requires Quiet(s, t) && task.at == CheckGeneration && Reaches(c, origin, t, Put(s, t, task))
    requires task.build.generation == s.generation
    ensures Reaches(c, origin, t, Put(s, t, task.(at := Publish)))
  {
    Moves(c, origin, s, t, task, s, task.(at := Publish));
  }

  lemma SoloChecksRevision(c: Choice, origin: State, s: State, t: nat, task: Task)
    requires Quiet(s, t) && task.at == CheckRevision && Reaches(c, origin, t, Put(s, t, task))
    requires task.build.credentials.Some? ==> task.build.credentials.value.revision == s.revision
    ensures Reaches(c, origin, t, Put(s, t, task.(at := CheckGeneration)))
  {
    Moves(c, origin, s, t, task, s, task.(at := CheckGeneration));
  }

  lemma SoloStores(c: Choice, origin: State, s: State, t: nat, task: Task)
    requires Quiet(s, t) && task.at == Publish && Reaches(c, origin, t, Put(s, t, task))
    ensures Reaches(c, origin, t, Installed(s, BuiltStack(task.build)))
  {
    Ends(c, origin, s, t, task, Installed(s, BuiltStack(task.build)));
  }

  /** The re-read and the checks under the write guard pass, and the stack is stored. */
  lemma SoloPublishes(c: Choice, origin: State, s: State, t: nat, task: Task)
    requires Quiet(s, t) && task.at == AwaitRecheck && Reaches(c, origin, t, Put(s, t, task))
    requires task.build.captured == Selected(s, c.readerStopped) && task.build.generation == s.generation
    requires task.build.credentials.Some? ==> task.build.credentials.value.revision == s.revision
    ensures Reaches(c, origin, t, Installed(s, BuiltStack(task.build)))
  {
    SoloRechecks(c, origin, s, t, task);
    var file := ReadFile(s, s.app.network, c.readerStopped);
    var checking := task.(at := CheckSelection, build := task.build.(recheck := file));
    SoloChecks(c, origin, s, t, checking);
    SoloStores(c, origin, s, t, checking.(at := Publish));
    assert BuiltStack(checking.build) == BuiltStack(task.build);
  }

  /** `rebuild_selection_after_invalidation`, from the wait for the rebuild lock to its return. */
  lemma SoloRebuilds(c: Choice, origin: State, s: State, t: nat, task: Task)
    requires Quiet(s, t) && task.at == AwaitRebuildLock && Reaches(c, origin, t, Put(s, t, task))
    ensures Reaches(c, origin, t, Rebuilt(s, c.readerStopped))
  {
    PointFacts(s, t, task);
    var locked := task.(at := AwaitStackRead(UnderLock));
    Moves(c, origin, s, t, task, s, locked);
    SoloInvalidates(c, origin, s, t, locked, UnderLock);
    var s1 := Invalidated(s);
    var told := locked.(at := AwaitOwner(UnderLock));
    if !s.open {
      Ends(c, origin, s1, t, told, s1);
    } else {
      SoloReads(c, origin, s1, t, told);
      var read := told.(at := AwaitPrevious, build := Captured(c, s1, told.build));
      SoloTakesOut(c, origin, s1, t, read);
      SoloInstalls(c, origin, s1, Uninstalled(s1), t, read);
    }
  }

  lemma SoloInstallsRoutes(c: Choice, origin: State, bare: State, t: nat, read: Task)
    requires Quiet(bare, t) && read.at == AwaitSecretsRead && read.build.captured == Selected(bare, c.readerStopped)
    requires read.build.generation == bare.generation && read.build.captured.resolved.Ok?
    requires Reaches(c, origin, t, Put(bare, t, read))
    ensures
      Reaches(c, origin, t, Installed(WithChain(bare, bare.app.network), Replacement(bare, c.readerStopped)))
  {
    SoloSecures(c, origin, bare, t, read);
    var pair := Credentials(bare.revision, bare.secrets);
    var secured := read.build.(revision := bare.revision, credentials := Some(pair));
    SoloProbes(c, origin, bare, t, read.(at := AwaitHeaders, build := secured));
    var chain := ChainFor(bare, secured.captured.network);
    var built := secured.(headers := if chain.Some? then Some(chain.value.store) else None);
    SoloPublishes(c, origin, WithChain(bare, bare.app.network), t, read.(at := AwaitRecheck, build := built));
    assert BuiltStack(built) == Replacement(bare, c.readerStopped);
  }

  lemma SoloInstalls(c: Choice, origin: State, s1: State, bare: State, t: nat, read: Task)
    requires Quiet(s1, t) && bare == Uninstalled(s1) && read.build.captured == Selected(s1, c.readerStopped)
    requires read.build.generation == s1.generation
    requires
      Reaches(c, origin, t, Put(bare, t,
        read.(at := if read.build.captured.resolved.Ok? then AwaitSecretsRead else AwaitRecheck,
              build := read.build.(credentials := None, headers := None))))
    ensures
      Reaches(c, origin, t,
        Installed(if Selected(bare, c.readerStopped).resolved.Ok? then WithChain(bare, bare.app.network) else bare,
                  Replacement(bare, c.readerStopped)))
  {
    assert Selected(bare, c.readerStopped) == Selected(s1, c.readerStopped);
    var b := read.build.(credentials := None, headers := None);
    if read.build.captured.resolved.Ok? {
      SoloInstallsRoutes(c, origin, bare, t, read.(at := AwaitSecretsRead, build := b));
    } else {
      SoloPublishes(c, origin, bare, t, read.(at := AwaitRecheck, build := b));
      assert BuiltStack(b) == Replacement(bare, c.readerStopped);
    }
  }

  lemma Starts(c: Choice, s: State, t: nat)
    ensures Reaches(c, s, t, s)
  {
    assert Leads(c, s, t, [s], s);
  }

  // ---------------------------------------------------------------- main results

  /** Undisturbed, the fine-grained steps of `rebuild_selection` add up to its sequential meaning. */
  lemma RebuildAlone(c: Choice, s: State, t: nat)
    requires Quiet(s, t)
    ensures Reaches(c, Put(s, t, NewTask(RebuildPolicy)), t, RebuiltSelection(s, c.readerStopped))
  {
    var task := NewTask(RebuildPolicy);
    var origin := Put(s, t, task);
    Starts(c, origin, t);
    SoloInvalidates(c, origin, s, t, task, Leading);
    var s1, told := Invalidated(s), task.(at := AwaitOwner(Leading));
    if s.open {
      Moves(c, origin, s1, t, told, s1, told.(at := AwaitRebuildLock));
      SoloRebuilds(c, origin, s1, t, told.(at := AwaitRebuildLock));
    } else {
      Ends(c, origin, s1, t, told, s1);
    }
  }

  /** Undisturbed, the fine-grained steps of `replace_secrets` add up to its sequential meaning. */
  lemma ReplaceAlone(c: Choice, s: State, t: nat, secrets: Secrets)
    requires Quiet(s, t)
    ensures Reaches(c, Put(s, t, NewTask(ReplaceSecrets(secrets))), t, ReplacedSecrets(s, secrets, c.readerStopped))
  {
    var task := NewTask(ReplaceSecrets(secrets));
    var origin := Put(s, t, task);
    Starts(c, origin, t);
    SoloInvalidates(c, origin, s, t, task, Leading);
    var s1, told := Invalidated(s), task.(at := AwaitOwner(Leading));
    if s.open {
      SoloResecures(c, origin, s1, t, told, secrets);
      SoloRebuilds(c, origin, Resecured(s1, secrets), t, told.(at := AwaitRebuildLock));
    } else {
      Ends(c, origin, s1, t, told, s1);
    }
  }

  lemma SoloLocksSecrets(c: Choice, origin: State, s: State, t: nat, task: Task)
    requires Quiet(s, t) && s.open && task.at == AwaitOwner(Leading) && task.job.ReplaceSecrets?
    requires Reaches(c, origin, t, Put(s, t, task))
    ensures Reaches(c, origin, t, Put(s, t, task.(at := InstallSecrets)))
  {
    var waiting := task.(at := AwaitSecretsWrite);
    Moves(c, origin, s, t, task, s, waiting);
    PointFacts(s, t, waiting);
    Moves(c, origin, s, t, waiting, s, task.(at := InstallSecrets));
  }

  lemma SoloResecures(c: Choice, origin: State, s: State, t: nat, task: Task, secrets: Secrets)
    requires Quiet(s, t) && s.open && task.at == AwaitOwner(Leading) && task.job == ReplaceSecrets(secrets)
    requires Reaches(c, origin, t, Put(s, t, task))
    ensures Reaches(c, origin, t, Put(Resecured(s, secrets), t, task.(at := AwaitRebuildLock)))
  {
    var written := s.(secrets := secrets);
    SoloLocksSecrets(c, origin, s, t, task);
    Moves(c, origin, s, t, task.(at := InstallSecrets), written, task.(at := BumpRevision));
    Moves(c, origin, written, t, task.(at := BumpRevision), Resecured(s, secrets), task.(at := AwaitRebuildLock));
  }

  /** Credentials of the current revision, and the accepted chain's header store if the network ships a verifier. */
  predicate Routed(s: State, r: State, stack: Stack) {
    && stack.credentials == Some(Credentials(r.revision, r.secrets))
    && (s.app.network != Mainnet ==>
          && r.accepted.Some? && r.accepted.value.network == s.app.network
          && stack.headers == Some(r.accepted.value.store)
          && (s.accepted.Some? && s.accepted.value.network == s.app.network ==> r.accepted == s.accepted))
  }

  /** One more stack is there and installed; every earlier one is revoked, and the one taken out has no routes. */
  predicate Retired(s: State, r: State) {
    && r.app == s.app && r.files == s.files && r.installed == Some(|s.stacks|) && |r.stacks| == |s.stacks| + 1
    && (forall k :: 0 <= k < |s.stacks| ==> r.stacks[k].revoked)
    && (s.installed.Some? ==> s.installed.value < |s.stacks| && r.stacks[s.installed.value].cleared)
  }

  /**
   * The state `r` after an undisturbed rebuild from `s`: a live stack of the current generation for
   * the owner's network, with the persisted policy if there is one and the legacy bridge if the file
   * is missing, under the current credentials; without routes if the file cannot be read or its reader
   * stopped. Every earlier stack is revoked, and the one taken out has lost its routes.
   */
  predicate Converged(s: State, r: State, stopped: bool) {
    && Retired(s, r)
    && var stack := r.stacks[|s.stacks|];
       && !stack.revoked && stack.generation == r.generation && stack.selected.network == s.app.network
       && if stopped then
            stack.selected.resolved == Err(ReaderStopped) && stack.credentials == None && stack.headers == None
          else if s.app.network !in s.files || s.files[s.app.network] == Missing then
            stack.selected.resolved == Ok(s.app.legacy) && Routed(s, r, stack)
          else
            match s.files[s.app.network]
            case Policy(selection) => stack.selected.resolved == Ok(selection) && Routed(s, r, stack)
            case Unreadable(fault) =>
              stack.selected.resolved == Err(fault) && stack.credentials == None && stack.headers == None
  }

  lemma RebuiltRetires(s: State, mid: State, stopped: bool)
    requires mid.open && Revocation(s) && s.installed == mid.installed && |s.stacks| == |mid.stacks|
    requires s.app == mid.app && s.files == mid.files
    requires forall k :: 0 <= k < |s.stacks| && !mid.stacks[k].revoked ==> s.installed == Some(k)
    ensures Retired(s, Rebuilt(mid, stopped))
  {
  }

  lemma RebuiltConverges(s: State, mid: State, stopped: bool)
    requires mid.open && Revocation(s) && s.installed == mid.installed && |s.stacks| == |mid.stacks|
    requires s.app == mid.app && s.files == mid.files && s.accepted == mid.accepted
    requires forall k :: 0 <= k < |s.stacks| && !mid.stacks[k].revoked ==> s.installed == Some(k)
    ensures Converged(s, Rebuilt(mid, stopped), stopped)
  {
    RebuiltRetires(s, mid, stopped);
    var bare := Uninstalled(Invalidated(mid));
    assert Rebuilt(mid, stopped).stacks[|s.stacks|] == Replacement(bare, stopped);
  }

  /** From any reachable state with free locks and an open owner, an undisturbed rebuild converges. */
  lemma UndisturbedRebuildConverges(c: Choice, states: seq<State>, actions: seq<Action>, n: nat, t: nat)
    requires IsRun(states, actions) && Init(states[0]) && n <= |actions|
    requires Quiet(states[n], t) && states[n].open
    ensures
      exists r :: Reaches(c, Put(states[n], t, NewTask(RebuildPolicy)), t, r)
        && Converged(states[n], r, c.readerStopped)
        && r.secrets == states[n].secrets && r.revision == states[n].revision
  {
    RunIsSafe(states, actions, n);
    RebuildAlone(c, states[n], t);
    RebuiltConverges(states[n], Invalidated(states[n]), c.readerStopped);
  }

  /** Likewise for `replace_secrets`, which ends under the new secrets and the next revision. */
  lemma UndisturbedReplacementConverges(
      c: Choice, states: seq<State>, actions: seq<Action>, n: nat, t: nat, secrets: Secrets)
    requires IsRun(states, actions) && Init(states[0]) && n <= |actions|
    requires Quiet(states[n], t) && states[n].open
    ensures
      exists r :: Reaches(c, Put(states[n], t, NewTask(ReplaceSecrets(secrets))), t, r)
        && Converged(states[n], r, c.readerStopped)
        && r.secrets == secrets && r.revision == states[n].revision + 1
  {
    RunIsSafe(states, actions, n);
    ReplaceAlone(c, states[n], t, secrets);
    RebuiltConverges(states[n], Resecured(Invalidated(states[n]), secrets), c.readerStopped);
  }
}
