/**
 * Appearance preferences: applied, then saved by a synced temporary file and a rename. The disk keeps
 * apart what running processes see and what a power loss may leave.
 */
module Appearance {
  import opened Wrappers

  datatype Pair = Pair(theme: nat, skin: nat)

  /** What reading the preferences file finds. A torn file does not parse. */
  datatype File = Missing | Whole(pair: Pair) | Torn

  datatype Temporary = Temporary(content: File, synced: bool)

  /**
   * `visible` is the file as processes see it. After a power loss it may instead be what it was at
   * the last directory sync, or any rename since (`pending`). `temp` is the temporary file of the last
   * save, whose name no other save shares; those that earlier saves left behind are `strays`.
   */
  datatype Disk = Disk(visible: File, durable: File, pending: seq<File>, temp: Option<Temporary>, strays: nat)

  /** A new temporary file; one that an earlier save left behind stays where it is. */
  function Created(d: Disk): Disk {
    Stranded(d).(temp := Some(Temporary(Torn, false)))
  }

  function Stranded(d: Disk): Disk {
    d.(temp := None, strays := d.strays + if d.temp.Some? then 1 else 0)
  }

  function Written(d: Disk, pair: Pair): Disk {
    d.(temp := Some(Temporary(Whole(pair), false)))
  }

  function Synced(d: Disk): Disk {
    if d.temp.Some? then d.(temp := Some(d.temp.value.(synced := true))) else d
  }

  /** Renaming a file whose bytes were never synced may surface a torn one after a power loss. */
  function Renamed(d: Disk): Disk {
    if d.temp.Some? then
      var content := d.temp.value.content;
      d.(visible := content,
         pending := d.pending + [content] + (if d.temp.value.synced then [] else [Torn]),
         temp := None)
    else d
  }

  function DirectorySynced(d: Disk): Disk {
    d.(durable := d.visible, pending := [])
  }

  function Removed(d: Disk): Disk {
    d.(temp := None)
  }

  /** What the file may be after the power comes back. */
  predicate MaySurvive(d: Disk, file: File) {
    file == d.durable || file in d.pending
  }

  // ---------------------------------------------------------------- saves, failures and crashes

  datatype Point = Idle | Creating | Writing | Syncing | Renaming | SyncingDirectory

  /**
   * One save at a time, under the store's lock. `saving` is the live pair the save took. History:
   * `initial` is the file the first process found, `acked` the last acknowledged pair, and `later`
   * the pairs of saves begun since.
   */
  datatype State = State(
    unix: bool, live: Pair, disk: Disk, at: Point, saving: Pair, initial: File, acked: Option<Pair>, later: set<Pair>)

  datatype Step =
    | Begin(chosen: Pair)         // the runtime applies the choice, and the save starts
    | Advance(works: bool, removes: bool := true)   // the next system call; if it fails, the removal after it
    | Die                         // the process stops
    | PowerLoss(survivor: File)

  ghost predicate Init(s: State) {
    && s.disk == Disk(s.initial, s.initial, [], None, s.disk.strays) && s.initial != Torn
    && s.at == Idle && s.acked == None && s.later == {}
  }

  predicate Allowed(s: State, step: Step) {
    match step
    case Begin(_) => s.at == Idle
    case Advance(_, _) => s.at != Idle
    case Die => true
    case PowerLoss(survivor) => MaySurvive(s.disk, survivor)
  }

  function Acknowledged(s: State): State {
    s.(at := Idle, acked := Some(s.saving), later := {})
  }

  /** A failed save removes its temporary file, and does not mind if that fails too. */
  function Abandoned(s: State, removes: bool): State {
    s.(at := Idle, disk := if removes then Removed(s.disk) else s.disk)
  }

  /** The state a new process starts with: what it restores, or the defaults. */
  function Restarted(s: State, disk: Disk): State {
    s.(at := Idle, disk := disk, live := if disk.visible.Whole? then disk.visible.pair else Pair(0, 0))
  }

  function Next(s: State, step: Step): State {
    match step
    case Begin(chosen) => s.(live := chosen, saving := chosen, at := Creating, later := s.later + {chosen})
    case Advance(works, removes) =>
      (match s.at
       case Idle => s
       case Creating => if works then s.(disk := Created(s.disk), at := Writing) else s.(at := Idle)
       case Writing => if works then s.(disk := Written(s.disk, s.saving), at := Syncing) else Abandoned(s, removes)
       case Syncing => if works then s.(disk := Synced(s.disk), at := Renaming) else Abandoned(s, removes)
       case Renaming =>
         if !works then Abandoned(s, removes)
         else if s.unix then s.(disk := Renamed(s.disk), at := SyncingDirectory)
         else Acknowledged(s.(disk := Renamed(s.disk)))
       case SyncingDirectory =>
         if works then Acknowledged(s.(disk := DirectorySynced(s.disk))) else Abandoned(s, removes))
    case Die => Restarted(s, s.disk)
    case PowerLoss(survivor) => Restarted(s, s.disk.(visible := survivor, durable := survivor, pending := []))
  }

  ghost predicate IsRun(states: seq<State>, steps: seq<Step>) {
    && |states| == |steps| + 1
    && forall i {:trigger steps[i]} :: 0 <= i < |steps| ==>
         Allowed(states[i], steps[i]) && states[i + 1] == Next(states[i], steps[i])
  }

  // ---------------------------------------------------------------- invariant

  /** The last acknowledged pair, the file before any, or the whole pair of a later save. */
  predicate Acceptable(s: State, file: File) {
    || (file == if s.acked.Some? then Whole(s.acked.value) else s.initial)
    || (file.Whole? && file.pair in s.later)
  }

  /** What the save in progress has put into the temporary file. */
  predicate TempFollows(s: State) {
    match s.at
    case Idle => true
    case Creating => s.saving in s.later
    case Writing => s.saving in s.later && s.disk.temp.Some?
    case Syncing => s.saving in s.later && s.disk.temp == Some(Temporary(Whole(s.saving), false))
    case Renaming => s.saving in s.later && s.disk.temp == Some(Temporary(Whole(s.saving), true))
    case SyncingDirectory => s.saving in s.later && s.disk.visible == Whole(s.saving)
  }

  ghost predicate Ok(s: State, powerLoss: bool) {
    && s.initial != Torn && TempFollows(s) && Acceptable(s, s.disk.visible)
    && (powerLoss ==> forall file :: MaySurvive(s.disk, file) ==> Acceptable(s, file))
  }

  lemma UnixCallKeepsOk(s: State, step: Step)
    requires s.unix && step.Advance? && Allowed(s, step) && Ok(s, true)
    ensures Ok(Next(s, step), true)
  {
    SystemCallKeepsOk(s, step);
    var s' := Next(s, step);
    forall file | MaySurvive(s'.disk, file)
      ensures Acceptable(s', file)
    {
      assert MaySurvive(s.disk, file) || file == s'.disk.visible;
    }
  }

  /** With a directory sync before the acknowledgement, even a power loss finds an acceptable file. */
  lemma UnixKeepsOk(s: State, step: Step)
    requires s.unix && Allowed(s, step) && Ok(s, true)
    ensures Ok(Next(s, step), true)
  {
    if step.Advance? {
      UnixCallKeepsOk(s, step);
    } else {
      var s' := Next(s, step);
      forall file | MaySurvive(s'.disk, file)
        ensures Acceptable(s', file)
      {
        assert MaySurvive(s.disk, file);
      }
    }
  }

  lemma SystemCallKeepsOk(s: State, step: Step)
    requires step.Advance? && Allowed(s, step) && Ok(s, false)
    ensures Ok(Next(s, step), false)
  {
  }

  /** Without power losses, any platform does. */
  lemma ProcessFailureKeepsOk(s: State, step: Step)
    requires !step.PowerLoss? && Allowed(s, step) && Ok(s, false)
    ensures Ok(Next(s, step), false)
  {
    if step.Advance? { SystemCallKeepsOk(s, step); }
  }

  lemma {:induction false} RunIsOk(states: seq<State>, steps: seq<Step>, n: nat, powerLoss: bool)
    requires IsRun(states, steps) && Init(states[0]) && n <= |steps|
    requires if powerLoss then states[0].unix else forall i :: 0 <= i < n ==> !steps[i].PowerLoss?
    ensures Ok(states[n], powerLoss) && states[n].unix == states[0].unix
  {
    if n > 0 {
      RunIsOk(states, steps, n - 1, powerLoss);
      if powerLoss {
        UnixKeepsOk(states[n - 1], steps[n - 1]);
      } else {
        ProcessFailureKeepsOk(states[n - 1], steps[n - 1]);
      }
    }
  }

  // ---------------------------------------------------------------- main results

  /**
   * However saves fail and crashes fall, the file read back is the last acknowledged pair or one whole
   * pair of a later save: never torn and never mixed. On a platform that does not sync the directory
   * this needs the power to stay on.
   */
  lemma RestoreFindsAWholePair(states: seq<State>, steps: seq<Step>, n: nat)
    requires IsRun(states, steps) && Init(states[0]) && n <= |steps|
    requires states[0].unix || forall i :: 0 <= i < n ==> !steps[i].PowerLoss?
    ensures states[n].disk.visible != Torn
    ensures
      var s := states[n];
      || s.disk.visible == (if s.acked.Some? then Whole(s.acked.value) else s.initial)
      || (s.disk.visible.Whole? && s.disk.visible.pair in s.later)
  {
    RunIsOk(states, steps, n, states[0].unix);
  }

  /** Right after an acknowledged save, the file is the live pair, and on Unix nothing else can survive. */
  lemma AcknowledgedSaveIsOnDisk(states: seq<State>, steps: seq<Step>, n: nat, file: File)
    requires IsRun(states, steps) && Init(states[0]) && n < |steps|
    requires states[0].unix || forall i :: 0 <= i < n ==> !steps[i].PowerLoss?
    requires states[n].at != Idle && states[n + 1].later == {}
    ensures states[n + 1].disk.visible == Whole(states[n].saving) && states[n + 1].acked == Some(states[n].saving)
    ensures states[0].unix && MaySurvive(states[n + 1].disk, file) ==> file == Whole(states[n].saving)
  {
    RunIsOk(states, steps, n, states[0].unix);
    assert Allowed(states[n], steps[n]) && states[n + 1] == Next(states[n], steps[n]);
  }

  /** The point at which a save's last system call is made. */
  predicate IsLast(s: State) {
    if s.unix then s.at == SyncingDirectory else s.at == Renaming
  }

  /**
   * A save goes on only while its system calls succeed, and is acknowledged exactly by the success of
   * its last one. A call that fails ends it: nothing is acknowledged, and no file but its own changes.
   */
  lemma SaveAdvancesIff(states: seq<State>, steps: seq<Step>, n: nat)
    requires IsRun(states, steps) && n < |steps| && steps[n].Advance?
    ensures
      var s, s' := states[n], states[n + 1];
      && (s'.at == Idle <==> !steps[n].works || IsLast(s) || s.at == SyncingDirectory)
      && (if steps[n].works && (IsLast(s) || s.at == SyncingDirectory)
          then s'.acked == Some(s.saving) && s'.later == {}
          else s'.acked == s.acked && s'.later == s.later)
      && (!steps[n].works ==>
            && s'.disk.visible == s.disk.visible && s'.disk.durable == s.disk.durable
            && s'.disk.pending == s.disk.pending)
  {
    assert Allowed(states[n], steps[n]) && states[n + 1] == Next(states[n], steps[n]);
  }

  /** A save that is under way saves the live pair, and nothing else starts meanwhile. */
  lemma {:induction false} SavesTheLivePair(states: seq<State>, steps: seq<Step>, n: nat)
    requires IsRun(states, steps) && n <= |steps| && states[0].at == Idle
    ensures states[n].at != Idle ==> states[n].live == states[n].saving
  {
    if n > 0 {
      SavesTheLivePair(states, steps, n - 1);
      assert Allowed(states[n - 1], steps[n - 1]) && states[n] == Next(states[n - 1], steps[n - 1]);
    }
  }

  /** A choice is live as soon as its save begins, whatever becomes of the save while the process runs. */
  lemma {:induction false} ChoiceIsLive(states: seq<State>, steps: seq<Step>, m: nat, n: nat)
    requires IsRun(states, steps) && m < n <= |steps| && steps[m].Begin?
    requires forall i :: m < i < n ==> steps[i].Advance?
    ensures states[n].live == steps[m].chosen
  {
    assert Allowed(states[n - 1], steps[n - 1]) && states[n] == Next(states[n - 1], steps[n - 1]);
    if m + 1 < n { ChoiceIsLive(states, steps, m, n - 1); }
  }

  /**
   * After a crash, and on Unix after a power loss, the new process shows the last acknowledged pair or
   * one whole pair of a later save; before any save, what the file held, or the defaults without one.
   */
  lemma RestartShowsAWholePair(states: seq<State>, steps: seq<Step>, n: nat)
    requires IsRun(states, steps) && Init(states[0]) && n < |steps| && (steps[n].Die? || steps[n].PowerLoss?)
    requires states[0].unix || forall i :: 0 <= i <= n ==> !steps[i].PowerLoss?
    ensures
      var s, live := states[n + 1], states[n + 1].live;
      || live in s.later
      || live == if s.acked.Some? then s.acked.value else if s.initial.Whole? then s.initial.pair else Pair(0, 0)
  {
    RestoreFindsAWholePair(states, steps, n + 1);
    assert Allowed(states[n], steps[n]) && states[n + 1] == Next(states[n], steps[n]);
  }

  lemma RunExtends(states: seq<State>, steps: seq<Step>, step: Step)
    requires IsRun(states, steps) && Allowed(states[|steps|], step)
    ensures IsRun(states + [Next(states[|steps|], step)], steps + [step])
  {
  }

  /** A rename without a directory sync is acknowledged and can still be lost with the power. */
  lemma AcknowledgedSaveCanBeLost(s0: State, chosen: Pair)
    requires Init(s0) && !s0.unix && s0.initial != Whole(chosen)
    ensures
      exists states: seq<State>, steps: seq<Step> ::
        && IsRun(states, steps) && states[0] == s0
        && states[|steps|].acked == Some(chosen) && states[|steps|].later == {}
        && states[|steps|].disk.visible == s0.initial != Whole(chosen)
  {
    assert IsRun([s0], []);
    RunExtends([s0], [], Begin(chosen));
    var s1 := Next(s0, Begin(chosen));
    RunExtends([s0] + [s1], [] + [Begin(chosen)], Advance(true));
    var s2 := Next(s1, Advance(true));
    RunExtends([s0] + [s1] + [s2], [] + [Begin(chosen)] + [Advance(true)], Advance(true));
    var s3 := Next(s2, Advance(true));
    RunExtends([s0] + [s1] + [s2] + [s3], [] + [Begin(chosen)] + [Advance(true)] + [Advance(true)], Advance(true));
    var s4 := Next(s3, Advance(true));
    var steps4 := [] + [Begin(chosen)] + [Advance(true)] + [Advance(true)] + [Advance(true)];
    RunExtends([s0] + [s1] + [s2] + [s3] + [s4], steps4, Advance(true));
    var s5 := Next(s4, Advance(true));
    var states5 := [s0] + [s1] + [s2] + [s3] + [s4] + [s5];
    assert s5.acked == Some(chosen) && MaySurvive(s5.disk, s0.initial);
    RunExtends(states5, steps4 + [Advance(true)], PowerLoss(s0.initial));
    var s6 := Next(s5, PowerLoss(s0.initial));
    assert (states5 + [s6])[0] == s0;
  }

  // ---------------------------------------------------------------- the store

  /** Which system calls of one save succeed. */
  datatype Faults = Faults(create: bool, write: bool, sync: bool, rename: bool, syncDirectory: bool, remove: bool)

  /** The temporary file of a save that failed before its rename and could not remove it. */
  function LeftBehind(pair: Pair, f: Faults): Temporary {
    if f.write then Temporary(Whole(pair), f.sync) else Temporary(Torn, false)
  }

  class AppearanceStore {
    const unix: bool
    var disk: Disk

    constructor (unix: bool, disk: Disk)
      ensures this.unix == unix && this.disk == disk
    {
      this.unix, this.disk := unix, disk;
    }

    /** `restore`: a file that does not parse leaves the state unchanged. */
    method Restore(state: Pair) returns (restored: Result<Pair, ()>)
      ensures disk.visible == Missing ==> restored == Ok(state)
      ensures disk.visible == Torn ==> restored == Err(())
      ensures disk.visible.Whole? ==> restored == Ok(disk.visible.pair)
    {
      match disk.visible
      case Missing => restored := Ok(state);
      case Torn => restored := Err(());
      case Whole(pair) => restored := Ok(pair);
    }

    /** The part of `save` whose failure removes the temporary file. */
    method WriteSyncRename(pair: Pair, f: Faults) returns (works: bool)
      requires disk.temp == Some(Temporary(Torn, false))
      modifies this`disk
      ensures works <==> f.write && f.sync && f.rename && (unix ==> f.syncDirectory)
      ensures !(f.write && f.sync && f.rename) ==> disk == old(disk).(temp := Some(LeftBehind(pair, f)))
      ensures
        f.write && f.sync && f.rename ==>
          && disk.visible == Whole(pair) && disk.temp == None && disk.strays == old(disk.strays)
          && (if unix && f.syncDirectory then disk.durable == Whole(pair) && disk.pending == []
              else disk.durable == old(disk.durable) && disk.pending == old(disk.pending) + [Whole(pair)])
    {
      if !f.write { return false; }
      disk := Written(disk, pair);
      if !f.sync { return false; }
      disk := Synced(disk);
      if !f.rename { return false; }
      disk := Renamed(disk);
      if unix {
        if !f.syncDirectory { return false; }
        disk := DirectorySynced(disk);
      }
      works := true;
    }

    /**
     * `save`: on success the pair is the file; on failure the file is what it was, or the pair. The
     * save's own temporary file is gone afterwards, unless the save failed before renaming it and could
     * not remove it; one left by an earlier save is not touched.
     */
    method Save(pair: Pair, f: Faults) returns (works: bool)
      modifies this`disk
      ensures works <==> f.create && f.write && f.sync && f.rename && (unix ==> f.syncDirectory)
      ensures !f.create ==> disk == old(disk)
      ensures works ==> disk.visible == Whole(pair) && disk.temp == None && disk.strays == Stranded(old(disk)).strays
      ensures works && unix ==> disk.durable == Whole(pair) && disk.pending == []
      ensures
        !works && f.create ==>
          var before := Stranded(old(disk));
          if f.write && f.sync && f.rename
          then disk == before.(visible := Whole(pair), pending := before.pending + [Whole(pair)])
          else disk == before.(temp := if f.remove then None else Some(LeftBehind(pair, f)))
    {
      if !f.create {
        return false;
      }
      disk := Created(disk);
      works := WriteSyncRename(pair, f);
      if !works && f.remove {
        disk := Removed(disk);
      }
    }
  }
}
