/**
 * The native chain host as a state machine over any number of concurrent tasks.
 *
 * A task is one call of `replace_secrets`, `rebuild_selection`, `sync_wallet_from`,
 * `cashcode_scan_node` or one of the read-only accessors. Its `Point` is the next
 * thing it will do. Lock guards are scoped values in the source, so a guard is held
 * exactly while its holder's point lies in the guard's scope: `StackReader`,
 * `StackWriter`, `SecretsReader`, `SecretsWriter`, `HoldsRebuild` and `HoldsService`
 * read the lock state off the points, and dropping a task drops its guards.
 *
 * Every point that awaits can be cancelled. Points without an await cannot.
 */
module ChainHost {
  import opened Networks
  import opened Wrappers

  /** A catalog and policy pair; only its identity matters to the host. */
  datatype Selection = Selection(id: nat)

  datatype Fault = ReaderStopped | Invalid(code: nat)

  /** What reading one network's settings file gives. */
  datatype Persisted = Missing | Policy(selection: Selection) | Unreadable(fault: Fault)

  /** The owner's state: the selected network and what the legacy bridge makes of the rest. */
  datatype App = App(network: Network, legacy: Selection)

  datatype NativeSelection = NativeSelection(network: Network, resolved: Result<Selection, Fault>)

  /** Missing settings fall back to the legacy bridge; unreadable ones never do. */
  function ResolveSelection(app: App, persisted: Persisted): NativeSelection {
    NativeSelection(
      app.network,
      match persisted
      case Missing => Ok(app.legacy)
      case Policy(selection) => Ok(selection)
      case Unreadable(fault) => Err(fault))
  }

  datatype Secrets = Secrets(id: nat)

  /** Secrets together with the revision they were read under. */
  datatype Credentials = Credentials(revision: nat, secrets: Secrets)

  /**
   * An installed stack, with the generation and credentials it was built from.
   * `NativeChainStack::unavailable` has no credentials.
   */
  datatype Stack = Stack(
    generation: nat,
    selected: NativeSelection,
    credentials: Option<Credentials>,
    headers: Option<nat>,
    revoked: bool,
    cleared: bool)

  datatype View = View(network: Network, progress: nat)

  /** The accepted chain: `store` names the shared header store object. */
  datatype Accepted = Accepted(network: Network, store: nat, view: View)

  datatype Job =
    | RebuildPolicy
    | ReplaceSecrets(secrets: Secrets)
    | RefreshWallet
    | ScanNode(network: Network)
    | Inspect

  /** The first invalidation of a call, or the one repeated under the rebuild lock. */
  datatype Phase = Leading | UnderLock

  datatype Point =
    // invalidate_current_wallet_sync
    | AwaitStackRead(phase: Phase)
    | BumpGeneration(phase: Phase)
    | RevokeInstalled(phase: Phase)
    | AwaitOwner(phase: Phase)
    // replace_secrets
    | AwaitSecretsWrite
    | InstallSecrets
    | BumpRevision
    // rebuild_selection_after_invalidation
    | AwaitRebuildLock
    | LoadGeneration
    | SnapshotOwner
    | AwaitSettings
    | AwaitPrevious
    | AwaitOldService(previous: nat)
    | AwaitUninstall
    | AwaitSecretsRead
    | LoadRevision
    | CloneSecrets
    | AwaitHeaders
    | AwaitProbe
    | AwaitRecheck
    | AwaitPublish
    | CheckSelection
    | CheckRevision
    | CheckGeneration
    | Publish
    // sync_wallet_from and cashcode_scan_node
    | AwaitService
    | TryService(target: nat)
    | ReadWallet
    | AwaitChain
    | AwaitSync
    | AwaitViewPublish
    // with_service, failures, configuration_error
    | AwaitInspect
    | Inspecting

  /** The locals of a rebuild. */
  datatype Build = Build(
    generation: nat,
    app: App,
    captured: NativeSelection,
    revision: nat,
    credentials: Option<Credentials>,
    headers: Option<nat>,
    recheck: Persisted)

  /** The locals of a sync pass: the service it locked and the view it carries. */
  datatype Pass = Pass(service: Option<nat>, network: Network, store: Option<nat>, view: Option<View>)

  datatype Task = Task(job: Job, at: Point, build: Build, pass: Pass)

  datatype State = State(
    open: bool,
    app: App,
    files: map<Network, Persisted>,
    generation: nat,
    stacks: seq<Stack>,          // every stack ever installed, in order
    installed: Option<nat>,      // index into stacks
    secrets: Secrets,
    revision: nat,
    issued: seq<Secrets>,        // history: issued[k] are the secrets of revision k
    accepted: Option<Accepted>,
    nextStore: nat,
    tasks: map<nat, Task>)

  ghost predicate Init(s: State) {
    && s.generation == 0 && s.stacks == [] && s.installed == None
    && s.revision == 0 && s.issued == [s.secrets]
    && s.accepted == None && s.nextStore == 0
    && s.tasks == map[]
  }

  function FileOf(s: State, network: Network): Persisted {
    if network in s.files then s.files[network] else Missing
  }

  // ---------------------------------------------------------------- guards

  predicate StackReader(p: Point) {
    p.BumpGeneration? || p.RevokeInstalled? || p.Inspecting?
  }

  predicate StackWriter(p: Point) {
    p.CheckSelection? || p.CheckRevision? || p.CheckGeneration? || p.Publish?
  }

  predicate SecretsReader(p: Point) {
    p.LoadRevision? || p.CloneSecrets?
  }

  predicate SecretsWriter(p: Point) {
    p.InstallSecrets? || p.BumpRevision?
  }

  /** The points of a rebuild after its under-lock invalidation revoked the old stack. */
  predicate Rebuilding(p: Point) {
    || p == AwaitOwner(UnderLock)
    || p.LoadGeneration? || p.SnapshotOwner? || p.AwaitSettings? || p.AwaitPrevious?
    || p.AwaitOldService? || p.AwaitUninstall? || Replacing(p)
  }

  /** The points after the old stack was taken out. */
  predicate Replacing(p: Point) {
    || p.AwaitSecretsRead? || p.LoadRevision? || p.CloneSecrets? || p.AwaitHeaders? || p.AwaitProbe?
    || p.AwaitRecheck? || p.AwaitPublish? || StackWriter(p)
  }

  predicate HoldsRebuild(p: Point) {
    || p == AwaitStackRead(UnderLock) || p == BumpGeneration(UnderLock) || p == RevokeInstalled(UnderLock)
    || Rebuilding(p)
  }

  predicate InPass(p: Point) {
    p.ReadWallet? || p.AwaitChain? || p.AwaitSync? || p.AwaitViewPublish?
  }

  predicate HoldsService(task: Task, service: nat) {
    InPass(task.at) && task.pass.service == Some(service)
  }

  ghost predicate NoStackWriter(s: State) {
    forall u :: u in s.tasks ==> !StackWriter(s.tasks[u].at)
  }

  ghost predicate NoStackReader(s: State) {
    forall u :: u in s.tasks ==> !StackReader(s.tasks[u].at)
  }

  ghost predicate NoSecretsWriter(s: State) {
    forall u :: u in s.tasks ==> !SecretsWriter(s.tasks[u].at)
  }

  ghost predicate NoSecretsReader(s: State) {
    forall u :: u in s.tasks ==> !SecretsReader(s.tasks[u].at)
  }

  ghost predicate RebuildFree(s: State) {
    forall u :: u in s.tasks ==> !HoldsRebuild(s.tasks[u].at)
  }

  ghost predicate ServiceFree(s: State, service: nat) {
    forall u :: u in s.tasks ==> !HoldsService(s.tasks[u], service)
  }

  /** A point at which dropping the future takes effect. */
  predicate Awaits(p: Point) {
    || p.AwaitStackRead? || p.AwaitOwner? || p.AwaitSecretsWrite? || p.AwaitRebuildLock?
    || p.AwaitSettings? || p.AwaitPrevious? || p.AwaitOldService? || p.AwaitUninstall?
    || p.AwaitSecretsRead? || p.AwaitHeaders? || p.AwaitProbe? || p.AwaitRecheck? || p.AwaitPublish?
    || p.AwaitService? || p.AwaitChain? || p.AwaitSync? || p.AwaitViewPublish? || p.AwaitInspect?
  }

  // ---------------------------------------------------------------- steps

  /** What the environment decides during one step. */
  datatype Choice = Choice(readerStopped: bool, walletOpen: bool, progress: Option<nat>)

  datatype Action =
    | Run(task: nat, choice: Choice)
    | Cancel(task: nat)
    | Spawn(task: nat, job: Job)
    | SetApp(app: App)
    | CloseOwner
    | WriteSettings(network: Network, persisted: Persisted)

  /** Whether the lock awaited at point `at` of task `t` can be granted. */
  ghost predicate Ready(s: State, t: nat)
    requires t in s.tasks
  {
    match s.tasks[t].at
    case AwaitStackRead(_) => NoStackWriter(s)
    case AwaitPrevious => NoStackWriter(s)
    case AwaitService => NoStackWriter(s)
    case AwaitInspect => NoStackWriter(s)
    case AwaitUninstall => NoStackWriter(s) && NoStackReader(s)
    case AwaitPublish => NoStackWriter(s) && NoStackReader(s)
    case AwaitSecretsWrite => NoSecretsWriter(s) && NoSecretsReader(s)
    case AwaitSecretsRead => NoSecretsWriter(s)
    case AwaitRebuildLock => RebuildFree(s)
    case AwaitOldService(previous) => ServiceFree(s, previous)
    case _ => true
  }

  ghost predicate Allowed(s: State, a: Action) {
    match a
    case Run(t, _) => t in s.tasks && Ready(s, t)
    case Cancel(t) => t in s.tasks && Awaits(s.tasks[t].at)
    case Spawn(t, _) => t !in s.tasks
    case SetApp(_) => true
    case CloseOwner => true
    case WriteSettings(_, _) => true
  }

  function IdleBuild(): Build {
    var app := App(Mainnet, Selection(0));
    Build(0, app, ResolveSelection(app, Missing), 0, None, None, Missing)
  }

  function NewTask(job: Job): Task {
    var pass := Pass(None, Mainnet, None, None);
    match job
    case RebuildPolicy => Task(job, AwaitStackRead(Leading), IdleBuild(), pass)
    case ReplaceSecrets(_) => Task(job, AwaitStackRead(Leading), IdleBuild(), pass)
    case RefreshWallet => Task(job, AwaitService, IdleBuild(), pass)
    case ScanNode(network) => Task(job, AwaitChain, IdleBuild(), pass.(network := network))
    case Inspect => Task(job, AwaitInspect, IdleBuild(), pass)
  }

  function Finish(s: State, t: nat): State {
    s.(tasks := s.tasks - {t})
  }

  function Put(s: State, t: nat, task: Task): State {
    s.(tasks := s.tasks[t := task])
  }

  function Revoked(s: State): seq<Stack> {
    match s.installed
    case None => s.stacks
    case Some(i) => if i < |s.stacks| then s.stacks[i := s.stacks[i].(revoked := true)] else s.stacks
  }

  function Cleared(stacks: seq<Stack>, i: nat): seq<Stack> {
    if i < |stacks| then stacks[i := stacks[i].(cleared := true)] else stacks
  }

  /** A network without a reviewed checkpoint ships no verifier. */
  predicate HasVerifier(network: Network) {
    network != Mainnet
  }

  /** `accepted_chain`: reuse the chain of this network, else start a fresh store, else refuse. */
  function WithChain(s: State, network: Network): State {
    if s.accepted.Some? && s.accepted.value.network == network then s
    else if !HasVerifier(network) then s
    else s.(accepted := Some(Accepted(network, s.nextStore, View(network, 0))), nextStore := s.nextStore + 1)
  }

  function ChainFor(s: State, network: Network): Option<Accepted> {
    var after := WithChain(s, network);
    if after.accepted.Some? && after.accepted.value.network == network then after.accepted else None
  }

  /** `publish_header_view`: only the network is compared. */
  function WithView(s: State, network: Network, view: View): State {
    if s.accepted.Some? && s.accepted.value.network == network
    then s.(accepted := Some(s.accepted.value.(view := view)))
    else s
  }

  /** A reader that stops reads nothing, not even that the file is missing. */
  function ReadFile(s: State, network: Network, stopped: bool): Persisted {
    if stopped then Unreadable(ReaderStopped) else FileOf(s, network)
  }

  /** The stack a build ends in. */
  function BuiltStack(b: Build): Stack {
    Stack(b.generation, b.captured, b.credentials, b.headers, false, false)
  }

  function Installed(s: State, stack: Stack): State {
    s.(stacks := s.stacks + [stack], installed := Some(|s.stacks|))
  }

  /** What one step of task `t` does to shared state; every other point leaves it alone. */
  function Effect(s: State, t: nat): State
    requires t in s.tasks
  {
    var task := s.tasks[t];
    var b := task.build;
    match task.at
    case BumpGeneration(_) => s.(generation := s.generation + 1)
    case RevokeInstalled(_) => s.(stacks := Revoked(s))
    case InstallSecrets => if task.job.ReplaceSecrets? then s.(secrets := task.job.secrets) else s
    case BumpRevision => s.(revision := s.revision + 1, issued := s.issued + [s.secrets])
    case AwaitOldService(previous) => s.(stacks := Cleared(s.stacks, previous))
    case AwaitUninstall => s.(installed := None)
    case AwaitHeaders => WithChain(s, b.captured.network)
    case Publish => Installed(s, BuiltStack(b))
    case AwaitChain => WithChain(s, task.pass.network)
    case AwaitViewPublish =>
      if task.pass.view.Some? then WithView(s, task.pass.network, task.pass.view.value) else s
    case _ => s
  }

  /** Where one step takes task `t`, from the shared state before it; None when the call returns. */
  function After(s: State, t: nat, c: Choice): Option<Task>
    requires t in s.tasks
  {
    var task := s.tasks[t];
    var p := task.at;
    if p.AwaitStackRead? || p.BumpGeneration? || p.RevokeInstalled? || p.AwaitOwner? then AfterInvalidating(s, task)
    else if SecretsWriter(p) || p.AwaitSecretsWrite? || p.AwaitRebuildLock? then Some(task.(at := PointAfter(p)))
    else if StackWriter(p) then AfterChecking(s, task)
    else if HoldsRebuild(p) then Some(AfterBuilding(s, task, c))
    else AfterPassing(s, t, c)
  }

  /** The fixed order of the points that neither branch nor read shared state. */
  function PointAfter(p: Point): Point {
    match p
    case AwaitSecretsWrite => InstallSecrets
    case InstallSecrets => BumpRevision
    case BumpRevision => AwaitRebuildLock
    case AwaitRebuildLock => AwaitStackRead(UnderLock)
    case _ => p
  }

  /** `invalidate_current_wallet_sync`: bump, revoke, then wait for the owner's acknowledgement. */
  function AfterInvalidating(s: State, task: Task): Option<Task> {
    match task.at
    case AwaitStackRead(phase) => Some(task.(at := BumpGeneration(phase)))
    case BumpGeneration(phase) => Some(task.(at := RevokeInstalled(phase)))
    case RevokeInstalled(phase) => Some(task.(at := AwaitOwner(phase)))
    case AwaitOwner(phase) =>
      if !s.open then None
      else if phase == UnderLock then Some(task.(at := LoadGeneration))
      else if task.job.ReplaceSecrets? then Some(task.(at := AwaitSecretsWrite))
      else Some(task.(at := AwaitRebuildLock))
    case _ => None
  }

  /** `rebuild_selection_after_invalidation` up to the final stack write guard. */
  function AfterBuilding(s: State, task: Task, c: Choice): Task {
    var b := task.build;
    match task.at
    case LoadGeneration => task.(at := SnapshotOwner, build := b.(generation := s.generation))
    case SnapshotOwner => task.(at := AwaitSettings, build := b.(app := s.app))
    case AwaitSettings =>
      var read := ReadFile(s, b.app.network, c.readerStopped);
      task.(at := AwaitPrevious, build := b.(captured := ResolveSelection(b.app, read)))
    case AwaitPrevious =>
      task.(at := if s.installed.Some? then AwaitOldService(s.installed.value) else AwaitUninstall)
    case AwaitOldService(_) => task.(at := AwaitUninstall)
    case AwaitUninstall =>
      task.(at := if b.captured.resolved.Ok? then AwaitSecretsRead else AwaitRecheck,
            build := b.(credentials := None, headers := None))
    case AwaitSecretsRead => task.(at := LoadRevision)
    case LoadRevision => task.(at := CloneSecrets, build := b.(revision := s.revision))
    case CloneSecrets => task.(at := AwaitHeaders, build := b.(credentials := Some(Credentials(b.revision, s.secrets))))
    case AwaitHeaders =>
      var chain := ChainFor(s, b.captured.network);
      task.(at := AwaitProbe, build := b.(headers := if chain.Some? then Some(chain.value.store) else None))
    case AwaitProbe => task.(at := AwaitRecheck)
    case AwaitRecheck =>
      task.(at := AwaitPublish, build := b.(recheck := ReadFile(s, b.captured.network, c.readerStopped)))
    case _ => task.(at := CheckSelection)
  }

  /** The checks under the stack write guard; a stale build is discarded. */
  function AfterChecking(s: State, task: Task): Option<Task> {
    var b := task.build;
    match task.at
    case CheckSelection =>
      if s.app.network != b.captured.network || ResolveSelection(s.app, b.recheck) != b.captured then None
      else Some(task.(at := CheckRevision))
    case CheckRevision =>
      if b.credentials.Some? && b.credentials.value.revision != s.revision then None
      else Some(task.(at := CheckGeneration))
    case CheckGeneration =>
      if s.generation != b.generation then None else Some(task.(at := Publish))
    case _ => None
  }

  /** `sync_wallet_from`, the node scan and the accessors. */
  function AfterPassing(s: State, t: nat, c: Choice): Option<Task>
    requires t in s.tasks
  {
    var task := s.tasks[t];
    match task.at
    case AwaitService =>
      if s.installed.None? then None else Some(task.(at := TryService(s.installed.value)))
    case TryService(target) =>
      if exists u :: u in s.tasks && HoldsService(s.tasks[u], target) then None
      else Some(task.(at := ReadWallet, pass := task.pass.(service := Some(target), view := None)))
    case ReadWallet =>
      if !c.walletOpen then None
      else Some(task.(at := AwaitChain, pass := task.pass.(network := s.app.network)))
    case AwaitChain =>
      var chain := ChainFor(s, task.pass.network);
      if task.job.ScanNode? && chain.None? then None
      else
        Some(task.(at := AwaitSync,
                   pass := task.pass.(store := if chain.Some? then Some(chain.value.store) else None,
                                      view := if chain.Some? then Some(chain.value.view) else None)))
    case AwaitSync =>
      if task.pass.view.None? || c.progress.None? then None
      else
        var view := task.pass.view.value.(progress := c.progress.value);
        Some(task.(at := AwaitViewPublish, pass := task.pass.(view := Some(view))))
    case AwaitInspect => Some(task.(at := Inspecting))
    case _ => None
  }

  /** One step of task `t`: at most one access to shared state. */
  function Step(s: State, t: nat, c: Choice): State
    requires t in s.tasks
  {
    var after := After(s, t, c);
    if after.Some? then Put(Effect(s, t), t, after.value) else Finish(Effect(s, t), t)
  }

  function Apply(s: State, a: Action): State
    requires a.Run? ==> a.task in s.tasks
  {
    match a
    case Run(t, c) => Step(s, t, c)
    case Cancel(t) => Finish(s, t)
    case Spawn(t, job) => Put(s, t, NewTask(job))
    case SetApp(app) => s.(app := app)
    case CloseOwner => s.(open := false)
    case WriteSettings(network, persisted) => s.(files := s.files[network := persisted])
  }

  /** Action `i` is allowed where it is taken, and gives the next state. */
  ghost predicate StepAt(states: seq<State>, actions: seq<Action>, i: nat)
    requires i < |actions| < |states|
  {
    Allowed(states[i], actions[i]) && states[i + 1] == Apply(states[i], actions[i])
  }

  ghost predicate IsRun(states: seq<State>, actions: seq<Action>) {
    && |states| == |actions| + 1
    && forall i {:trigger StepAt(states, actions, i)} :: 0 <= i < |actions| ==> StepAt(states, actions, i)
  }

  // ---------------------------------------------------------------- one call in a run

  /** Task `t` takes its step at this point. */
  predicate Takes(s: State, a: Action, t: nat, p: Point) {
    a.Run? && a.task == t && t in s.tasks && s.tasks[t].at == p
  }

  /** Between steps `m` and `n` no new call takes the number `t`. */
  ghost predicate SameCall(actions: seq<Action>, t: nat, m: nat, n: nat)
    requires n <= |actions|
  {
    forall i :: m < i < n ==> !(actions[i].Spawn? && actions[i].task == t)
  }
}
