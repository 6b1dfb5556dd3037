/**
 * Durable network settings. An edit is looked at, saved and then sent to the runtime's actor, all
 * under one lock that network switches take too. The actor works through a queue: opening a wallet
 * takes no lock and moves it to the wallet's network, and an action that was sent still takes effect
 * when the call that sent it is dropped. `url` stands for the URL parser.
 */
module NetworkSettings {
  import opened Networks
  import opened ServerOverrides
  import opened Wrappers

  datatype PerNetwork<T> = PerNetwork(mainnet: T, chipnet: T, regtest: T) {
    function Get(n: Network): T {
      match n
      case Mainnet => mainnet
      case Chipnet => chipnet
      case Regtest => regtest
    }

    function Set(n: Network, value: T): PerNetwork<T> {
      match n
      case Mainnet => this.(mainnet := value)
      case Chipnet => this.(chipnet := value)
      case Regtest => this.(regtest := value)
    }
  }

  // ---------------------------------------------------------------- the reducer

  /** The part of the live state these actions concern. */
  datatype Live = Live(network: Network, servers: PerNetwork<Servers>)

  datatype AppAction =
    | SetServer(kind: Kind, entry: string)
    | UseNetworkDefaultServers
    | ReplaceNetworkServers(network: Network, servers: Servers)
    | SetNetwork(network: Network)
    | Unrelated(id: nat)

  datatype Event = NoticeChanged | ServersChanged | NoEvent

  predicate Edits(a: AppAction) {
    a.SetServer? || a.UseNetworkDefaultServers? || a.ReplaceNetworkServers?
  }

  /** The network whose servers an edit is about. */
  function Target(network: Network, a: AppAction): Network {
    if a.ReplaceNetworkServers? then a.network else network
  }

  /** What an edit makes of its network's servers. A replacement without an explorer keeps the present one. */
  function Edited(a: AppAction, present: Servers): (r: (Servers, Event))
    ensures r.1 != ServersChanged ==> r.0 == present
  {
    match a
    case SetServer(kind, entry) =>
      var placed := Placed(present, kind, entry);
      if placed.None? then (present, NoticeChanged) else (placed.value, ServersChanged)
    case UseNetworkDefaultServers => if present == DEFAULTS then (present, NoEvent) else (DEFAULTS, ServersChanged)
    case ReplaceNetworkServers(_, servers) =>
      var replaced := PlacedAll(DEFAULTS.(explorer := present.explorer), servers);
      if replaced.None? then (present, NoticeChanged)
      else if replaced.value == present then (present, NoEvent)
      else (replaced.value, ServersChanged)
    case SetNetwork(_) => (present, NoEvent)
    case Unrelated(_) => (present, NoEvent)
  }

  function Reduce(live: Live, a: AppAction): Live {
    if a.SetNetwork? then live.(network := a.network)
    else if Edits(a) then
      var target := Target(live.network, a);
      live.(servers := live.servers.Set(target, Edited(a, live.servers.Get(target)).0))
    else live
  }

  // ---------------------------------------------------------------- settings files

  /** A settings file. Overlays richer than the legacy fields are kept and refuse writes. */
  datatype File = Missing | Legacy(stored: Stored, version: nat) | Rich | Corrupt

  const LEGACY_CATALOG_VERSION: nat := 1

  /** A file that holds what it should, and can be read back. */
  predicate IsReadable(file: File) {
    file.Legacy? && Loads(file.stored) && ReadBack(file.stored).Some?
  }

  /** `save_for_network`: a file that is there must be readable, and its catalog version is preserved. */
  function SavedFile(url: UrlParser, existing: File, servers: Servers): Option<File> {
    var envelope := Envelope(url, servers);
    if envelope.None? || !(existing.Missing? || IsReadable(existing)) then None
    else Some(Legacy(envelope.value, if existing.Missing? then LEGACY_CATALOG_VERSION else existing.version))
  }

  /** The file is what these servers are written as. What it is read back as is another question. */
  predicate OnDisk(url: UrlParser, file: File, servers: Servers) {
    file.Legacy? && Envelope(url, servers) == Some(file.stored)
  }

  // ---------------------------------------------------------------- interleaved calls

  /** What an edit saw when it looked: its network, and that network's servers. */
  datatype Look = Look(target: Network, servers: Servers)

  datatype Point =
    | AwaitLock
    | Holding
    | Saving(seen: Look)
    | Sending(look: Option<Look>, saved: bool)   // awaits room in the queue
    | Waiting(look: Option<Look>, saved: bool)   // awaits the acknowledgement
    | Acknowledged

  datatype Dispatch = Dispatch(action: AppAction, at: Point)

  /** A queued action. What its call saw and saved is history, of no concern to the actor. */
  datatype Message = Message(id: nat, action: AppAction, look: Option<Look>, saved: bool)

  /**
   * `edited`, `adrift` and `writer` are history: the networks saved this session, those whose last
   * save has not taken effect as saved, and which call wrote each file last.
   */
  datatype State = State(
    open: bool,
    live: Live,
    disk: PerNetwork<File>,
    calls: map<nat, Dispatch>,
    queue: seq<Message>,
    next: nat,
    edited: set<Network>,
    adrift: set<Network>,
    writer: PerNetwork<Option<nat>>)

  datatype Step =
    | Call(action: AppAction)
    | Advance(id: nat, writes: bool)
    | Drop(id: nat)
    | Apply                          // the actor takes the next action
    | OpenWallet(network: Network)   // the actor opens a wallet of this network
    | Close

  predicate TakesLock(a: AppAction) {
    Edits(a) || a.SetNetwork?
  }

  predicate HoldsLock(d: Dispatch) {
    TakesLock(d.action) && d.at != AwaitLock
  }

  ghost predicate LockFree(s: State) {
    forall id :: id in s.calls ==> !HoldsLock(s.calls[id])
  }

  /** A call waits for its acknowledgement until it comes or the runtime is closed. */
  ghost predicate Allowed(s: State, step: Step) {
    match step
    case Call(_) => true
    case Advance(id, _) =>
      && id in s.calls
      && (s.calls[id].at.AwaitLock? ==> LockFree(s))
      && (s.calls[id].at.Waiting? ==> !s.open)
    case Drop(id) => id in s.calls && !s.calls[id].at.Holding? && !s.calls[id].at.Saving?
    case Apply => s.open && s.queue != []
    case OpenWallet(_) => s.open
    case Close => true
  }

  function Ended(s: State, id: nat): State {
    s.(calls := s.calls - {id})
  }

  function Moved(s: State, id: nat, at: Point): State
    requires id in s.calls
  {
    s.(calls := s.calls[id := s.calls[id].(at := at)])
  }

  /** The file is written, and stays ahead of the live state until the edit takes effect. */
  function Saved(s: State, id: nat, target: Network, file: File): State {
    s.(disk := s.disk.Set(target, file), edited := s.edited + {target}, adrift := s.adrift + {target},
       writer := s.writer.Set(target, Some(id)))
  }

  /** The call has written its file and is about to send. */
  function SavedAndMoved(s: State, id: nat, look: Look, file: File): State
    requires id in s.calls
  {
    Moved(Saved(s, id, look.target, file), id, Sending(Some(look), true))
  }

  /** One step of a call: lock, validate on a copy, save, send, wait. */
  function Advanced(url: UrlParser, s: State, id: nat, writes: bool): State
    requires id in s.calls
  {
    var d := s.calls[id];
    match d.at
    case AwaitLock => Moved(s, id, Holding)
    case Holding =>
      if !Edits(d.action) then Moved(s, id, Sending(None, false))
      else
        var look := Look(Target(s.live.network, d.action), s.live.servers.Get(Target(s.live.network, d.action)));
        match Edited(d.action, look.servers).1 {
          case NoticeChanged => Ended(s, id)
          case ServersChanged => Moved(s, id, Saving(look))
          case NoEvent => Moved(s, id, Sending(Some(look), false))
        }
    case Saving(look) =>
      var file := SavedFile(url, s.disk.Get(look.target), Edited(d.action, look.servers).0);
      if !writes || file.None? then Ended(s, id)
      else SavedAndMoved(s, id, look, file.value)
    case Sending(look, saved) =>
      if !s.open then Ended(s, id)
      else Moved(s.(queue := s.queue + [Message(id, d.action, look, saved)]), id, Waiting(look, saved))
    case Waiting(_, _) => Ended(s, id)
    case Acknowledged => Ended(s, id)
  }

  /** The message acts on the network and on the servers that its call looked at. */
  predicate Undisturbed(live: Live, m: Message) {
    && m.look.Some?
    && Target(live.network, m.action) == m.look.value.target
    && live.servers.Get(m.look.value.target) == m.look.value.servers
  }

  /** A saved edit takes effect as saved, and nothing was written over it. */
  predicate Lands(s: State, m: Message) {
    Undisturbed(s.live, m) && m.saved && s.writer.Get(m.look.value.target) == Some(m.id)
  }

  function AdriftAfter(s: State, m: Message): set<Network> {
    if !Edits(m.action) then s.adrift
    else if Lands(s, m) then s.adrift - {m.look.value.target}
    else if Undisturbed(s.live, m) && !m.saved then s.adrift
    else s.adrift + {Target(s.live.network, m.action)}
  }

  /** The actor applies the next action and acknowledges it to whoever still waits. */
  function Applied(s: State): State
    requires s.queue != []
  {
    var m := s.queue[0];
    s.(live := Reduce(s.live, m.action), queue := s.queue[1..], adrift := AdriftAfter(s, m),
       calls := if m.id in s.calls then s.calls[m.id := s.calls[m.id].(at := Acknowledged)] else s.calls)
  }

  function Next(url: UrlParser, s: State, step: Step): State
    requires step.Advance? ==> step.id in s.calls
    requires step.Apply? ==> s.queue != []
  {
    match step
    case Call(action) =>
      var at := if TakesLock(action) then AwaitLock else Sending(None, false);
      s.(calls := s.calls[s.next := Dispatch(action, at)], next := s.next + 1)
    case Advance(id, writes) => Advanced(url, s, id, writes)
    case Drop(id) => Ended(s, id)
    case Apply => Applied(s)
    case OpenWallet(network) => s.(live := s.live.(network := network))
    case Close => s.(open := false, queue := [])
  }

  ghost predicate Init(s: State) {
    && s.open && s.calls == map[] && s.queue == [] && s.edited == {} && s.adrift == {}
    && s.writer == PerNetwork(None, None, None)
  }

  ghost predicate IsRun(url: UrlParser, states: seq<State>, steps: seq<Step>) {
    && |states| == |steps| + 1
    && forall i {:trigger steps[i]} :: 0 <= i < |steps| ==>
         Allowed(states[i], steps[i]) && states[i + 1] == Next(url, states[i], steps[i])
  }

  // ---------------------------------------------------------------- invariant

  /** What a call or message knows of its edit. */
  predicate Sound(a: AppAction, look: Option<Look>, saved: bool) {
    && (look.Some? <==> Edits(a))
    && (saved ==> look.Some?)
    && (look.Some? && !saved ==> Edited(a, look.value.servers).1 == NoEvent)
  }

  /** If the call wrote its file last, the file is what it made of what it saw. */
  predicate OwnsFile(url: UrlParser, s: State, id: nat, a: AppAction, look: Option<Look>, saved: bool) {
    saved && look.Some? && s.writer.Get(look.value.target) == Some(id) ==>
      OnDisk(url, s.disk.Get(look.value.target), Edited(a, look.value.servers).0)
  }

  predicate CallOk(url: UrlParser, s: State, id: nat, d: Dispatch) {
    match d.at
    case AwaitLock => TakesLock(d.action)
    case Holding => TakesLock(d.action)
    case Saving(look) => Edits(d.action)
    case Sending(look, saved) =>
      Sound(d.action, look, saved) && OwnsFile(url, s, id, d.action, look, saved)
    case Waiting(look, saved) =>
      Sound(d.action, look, saved) && OwnsFile(url, s, id, d.action, look, saved)
    case Acknowledged => true
  }

  predicate MessageOk(url: UrlParser, s: State, m: Message) {
    && m.id < s.next
    && Sound(m.action, m.look, m.saved) && OwnsFile(url, s, m.id, m.action, m.look, m.saved)
    && (m.id in s.calls ==> s.calls[m.id] == Dispatch(m.action, Waiting(m.look, m.saved)))
  }

  ghost predicate Exclusive(calls: map<nat, Dispatch>) {
    forall i, j :: i in calls && j in calls && HoldsLock(calls[i]) && HoldsLock(calls[j]) ==> i == j
  }

  ghost predicate CallsOk(url: UrlParser, s: State) {
    forall id :: id in s.calls ==> id < s.next && CallOk(url, s, id, s.calls[id])
  }

  ghost predicate QueueOk(url: UrlParser, s: State) {
    && (forall i :: 0 <= i < |s.queue| ==> MessageOk(url, s, s.queue[i]))
    && (forall i, j :: 0 <= i < j < |s.queue| ==> s.queue[i].id != s.queue[j].id)
  }

  ghost predicate Agrees(url: UrlParser, s: State) {
    forall n :: n in s.edited && n !in s.adrift ==> OnDisk(url, s.disk.Get(n), s.live.servers.Get(n))
  }

  ghost predicate Ok(url: UrlParser, s: State) {
    Exclusive(s.calls) && CallsOk(url, s) && QueueOk(url, s) && Agrees(url, s)
  }

  /** Files and writers as they were: every call and message that is left or moved on keeps its facts. */
  lemma QueueStaysOk(url: UrlParser, s: State, s': State)
    requires QueueOk(url, s) && s'.queue == s.queue && s.next <= s'.next
    requires s'.disk == s.disk && s'.writer == s.writer
    requires forall i :: 0 <= i < |s.queue| && s.queue[i].id in s'.calls ==>
      s.queue[i].id in s.calls && s'.calls[s.queue[i].id] == s.calls[s.queue[i].id]
    ensures QueueOk(url, s')
  {
    forall i | 0 <= i < |s'.queue|
      ensures MessageOk(url, s', s'.queue[i])
    {
      assert MessageOk(url, s, s.queue[i]);
    }
  }

  /** A call in front of its message's sending has no message yet. */
  lemma NotQueuedYet(url: UrlParser, s: State, id: nat, i: nat)
    requires QueueOk(url, s) && id in s.calls && !s.calls[id].at.Waiting? && i < |s.queue|
    ensures s.queue[i].id != id
  {
    assert MessageOk(url, s, s.queue[i]);
  }

  lemma EndKeepsOk(url: UrlParser, s: State, id: nat)
    requires Ok(url, s)
    ensures Ok(url, Ended(s, id))
  {
    QueueStaysOk(url, s, Ended(s, id));
    forall j | j in Ended(s, id).calls
      ensures CallOk(url, Ended(s, id), j, Ended(s, id).calls[j])
    {
      assert CallOk(url, s, j, s.calls[j]);
    }
  }

  lemma MoveKeepsOk(url: UrlParser, s: State, id: nat, at: Point)
    requires Ok(url, s) && id in s.calls && !s.calls[id].at.Waiting?
    requires CallOk(url, s, id, s.calls[id].(at := at))
    requires HoldsLock(s.calls[id].(at := at)) ==> HoldsLock(s.calls[id]) || LockFree(s)
    ensures Ok(url, Moved(s, id, at))
  {
    var s' := Moved(s, id, at);
    forall i | 0 <= i < |s.queue|
      ensures s.queue[i].id != id
    {
      NotQueuedYet(url, s, id, i);
    }
    QueueStaysOk(url, s, s');
    forall j | j in s'.calls
      ensures CallOk(url, s', j, s'.calls[j])
    {
      if j != id { assert CallOk(url, s, j, s.calls[j]); }
    }
  }

  lemma LookKeepsOk(url: UrlParser, s: State, id: nat, writes: bool)
    requires Ok(url, s) && Allowed(s, Advance(id, writes))
    requires s.calls[id].at.AwaitLock? || s.calls[id].at.Holding?
    ensures Ok(url, Advanced(url, s, id, writes))
  {
    var d := s.calls[id];
    assert CallOk(url, s, id, d);
    if d.at.AwaitLock? {
      MoveKeepsOk(url, s, id, Holding);
    } else if !Edits(d.action) {
      MoveKeepsOk(url, s, id, Sending(None, false));
    } else {
      var look := Look(Target(s.live.network, d.action), s.live.servers.Get(Target(s.live.network, d.action)));
      match Edited(d.action, look.servers).1
      case NoticeChanged => EndKeepsOk(url, s, id);
      case ServersChanged => MoveKeepsOk(url, s, id, Saving(look));
      case NoEvent => MoveKeepsOk(url, s, id, Sending(Some(look), false));
    }
  }

  /** Writing a file takes it from whoever wrote it before. */
  lemma WriteKeepsOwners(url: UrlParser, s: State, id: nat, target: Network, file: File,
                         other: nat, a: AppAction, look: Option<Look>, saved: bool)
    requires other != id && OwnsFile(url, s, other, a, look, saved)
    ensures OwnsFile(url, Saved(s, id, target, file), other, a, look, saved)
  {
  }

  lemma SaveKeepsCall(url: UrlParser, s: State, id: nat, look: Look, file: File, j: nat)
    requires CallsOk(url, s) && id in s.calls && s.calls[id].at == Saving(look) && j in s.calls
    requires OnDisk(url, file, Edited(s.calls[id].action, look.servers).0)
    ensures CallOk(url, SavedAndMoved(s, id, look, file), j, SavedAndMoved(s, id, look, file).calls[j])
  {
    assert CallOk(url, s, j, s.calls[j]) && CallOk(url, s, id, s.calls[id]);
    if j != id && (s.calls[j].at.Sending? || s.calls[j].at.Waiting?) {
      var at := s.calls[j].at;
      WriteKeepsOwners(url, s, id, look.target, file, j, s.calls[j].action, at.look, at.saved);
    }
  }

  lemma SaveKeepsMessage(url: UrlParser, s: State, id: nat, look: Look, file: File, i: nat)
    requires QueueOk(url, s) && id in s.calls && s.calls[id].at == Saving(look) && i < |s.queue|
    ensures MessageOk(url, SavedAndMoved(s, id, look, file), s.queue[i])
  {
    var m := s.queue[i];
    assert MessageOk(url, s, m);
    NotQueuedYet(url, s, id, i);
    WriteKeepsOwners(url, s, id, look.target, file, m.id, m.action, m.look, m.saved);
  }

  lemma SaveKeepsCalls(url: UrlParser, s: State, id: nat, look: Look, file: File)
    requires CallsOk(url, s) && id in s.calls && s.calls[id].at == Saving(look)
    requires OnDisk(url, file, Edited(s.calls[id].action, look.servers).0)
    ensures CallsOk(url, SavedAndMoved(s, id, look, file))
  {
    var s' := SavedAndMoved(s, id, look, file);
    forall j | j in s'.calls
      ensures j < s'.next && CallOk(url, s', j, s'.calls[j])
    {
      SaveKeepsCall(url, s, id, look, file, j);
    }
  }

  lemma SaveKeepsQueue(url: UrlParser, s: State, id: nat, look: Look, file: File)
    requires QueueOk(url, s) && id in s.calls && s.calls[id].at == Saving(look)
    ensures QueueOk(url, SavedAndMoved(s, id, look, file))
  {
    var s' := SavedAndMoved(s, id, look, file);
    forall i | 0 <= i < |s'.queue|
      ensures MessageOk(url, s', s'.queue[i])
    {
      SaveKeepsMessage(url, s, id, look, file, i);
    }
  }

  /** The network just saved is adrift, and the other files and servers are as they were. */
  lemma SaveKeepsAgreement(url: UrlParser, s: State, id: nat, look: Look, file: File)
    requires Agrees(url, s) && id in s.calls
    ensures Agrees(url, SavedAndMoved(s, id, look, file))
  {
    var s' := SavedAndMoved(s, id, look, file);
    forall n | n in s'.edited && n !in s'.adrift
      ensures OnDisk(url, s'.disk.Get(n), s'.live.servers.Get(n))
    {
      assert n != look.target && s'.disk.Get(n) == s.disk.Get(n);
    }
  }

  lemma SaveKeepsOk(url: UrlParser, s: State, id: nat, look: Look, file: File)
    requires Ok(url, s) && id in s.calls && s.calls[id].at == Saving(look)
    requires OnDisk(url, file, Edited(s.calls[id].action, look.servers).0)
    ensures Ok(url, SavedAndMoved(s, id, look, file))
  {
    SaveKeepsCalls(url, s, id, look, file);
    SaveKeepsQueue(url, s, id, look, file);
    SaveKeepsAgreement(url, s, id, look, file);
    assert CallOk(url, s, id, s.calls[id]);
    assert HoldsLock(s.calls[id]);
  }

  lemma SendKeepsOk(url: UrlParser, s: State, id: nat, look: Option<Look>, saved: bool)
    requires Ok(url, s) && id in s.calls && s.calls[id].at == Sending(look, saved)
    ensures
      var m := Message(id, s.calls[id].action, look, saved);
      Ok(url, Moved(s.(queue := s.queue + [m]), id, Waiting(look, saved)))
  {
    var m := Message(id, s.calls[id].action, look, saved);
    var s' := Moved(s.(queue := s.queue + [m]), id, Waiting(look, saved));
    assert CallOk(url, s, id, s.calls[id]);
    forall j | j in s'.calls
      ensures CallOk(url, s', j, s'.calls[j])
    {
      assert CallOk(url, s, j, s.calls[j]);
    }
    forall i | 0 <= i < |s'.queue|
      ensures MessageOk(url, s', s'.queue[i]) && (i < |s.queue| ==> s'.queue[i].id != id)
    {
      if i < |s.queue| {
        NotQueuedYet(url, s, id, i);
        assert MessageOk(url, s, s.queue[i]);
      }
    }
  }

  lemma AdvanceKeepsOk(url: UrlParser, s: State, id: nat, writes: bool)
    requires Ok(url, s) && Allowed(s, Advance(id, writes))
    ensures Ok(url, Advanced(url, s, id, writes))
  {
    match s.calls[id].at
    case AwaitLock => LookKeepsOk(url, s, id, writes);
    case Holding => LookKeepsOk(url, s, id, writes);
    case Saving(look) =>
      var file := SavedFile(url, s.disk.Get(look.target), Edited(s.calls[id].action, look.servers).0);
      if !writes || file.None? { EndKeepsOk(url, s, id); } else { SaveKeepsOk(url, s, id, look, file.value); }
    case Sending(look, saved) =>
      if s.open { SendKeepsOk(url, s, id, look, saved); } else { EndKeepsOk(url, s, id); }
    case Waiting(_, _) => EndKeepsOk(url, s, id);
    case Acknowledged => EndKeepsOk(url, s, id);
  }

  /** Applying an edit keeps every network in agreement that is not adrift afterwards. */
  lemma ApplyKeepsAgreement(url: UrlParser, s: State)
    requires s.queue != [] && MessageOk(url, s, s.queue[0]) && Agrees(url, s)
    ensures Agrees(url, Applied(s))
  {
    var s', m := Applied(s), s.queue[0];
    if Edits(m.action) {
      var target := Target(s.live.network, m.action);
      var edited := Edited(m.action, s.live.servers.Get(target));
      forall n | n in s'.edited && n !in s'.adrift
        ensures OnDisk(url, s'.disk.Get(n), s'.live.servers.Get(n))
      {
        assert s'.live.servers.Get(n) == if n == target then edited.0 else s.live.servers.Get(n);
        assert n == target && !Lands(s, m) ==> edited.1 == NoEvent && n !in s.adrift;
      }
    }
  }

  lemma ApplyKeepsOk(url: UrlParser, s: State)
    requires s.queue != [] && Ok(url, s)
    ensures Ok(url, Applied(s))
  {
    var s', m := Applied(s), s.queue[0];
    assert MessageOk(url, s, m);
    ApplyKeepsAgreement(url, s);
    forall j | j in s'.calls
      ensures CallOk(url, s', j, s'.calls[j])
    {
      assert CallOk(url, s, j, s.calls[j]);
    }
    forall i | 0 <= i < |s'.queue|
      ensures MessageOk(url, s', s'.queue[i])
    {
      assert MessageOk(url, s, s.queue[i + 1]) && s.queue[i + 1].id != m.id;
    }
  }

  lemma CallKeepsOk(url: UrlParser, s: State, action: AppAction)
    requires Ok(url, s)
    ensures Ok(url, Next(url, s, Call(action)))
  {
    var s' := Next(url, s, Call(action));
    forall i | 0 <= i < |s.queue|
      ensures s.queue[i].id != s.next
    {
      assert MessageOk(url, s, s.queue[i]);
    }
    QueueStaysOk(url, s, s');
    forall j | j in s'.calls
      ensures CallOk(url, s', j, s'.calls[j])
    {
      if j != s.next { assert CallOk(url, s, j, s.calls[j]); }
    }
  }

  /** Neither a wallet that opens nor a runtime that closes touches files or servers. */
  lemma RuntimeKeepsOk(url: UrlParser, s: State, s': State)
    requires Ok(url, s)
    requires s' == s.(live := s.live.(network := s'.live.network)) || s' == s.(open := false, queue := [])
    ensures Ok(url, s')
  {
    forall j | j in s'.calls
      ensures CallOk(url, s', j, s'.calls[j])
    {
      assert CallOk(url, s, j, s.calls[j]);
    }
    forall i | 0 <= i < |s'.queue|
      ensures MessageOk(url, s', s'.queue[i])
    {
      assert MessageOk(url, s, s.queue[i]);
    }
  }

  lemma NextKeepsOk(url: UrlParser, s: State, step: Step)
    requires Allowed(s, step) && Ok(url, s)
    ensures Ok(url, Next(url, s, step))
  {
    match step
    case Call(action) => CallKeepsOk(url, s, action);
    case Advance(id, writes) => AdvanceKeepsOk(url, s, id, writes);
    case Drop(id) => EndKeepsOk(url, s, id);
    case Apply => ApplyKeepsOk(url, s);
    case OpenWallet(_) => RuntimeKeepsOk(url, s, Next(url, s, step));
    case Close => RuntimeKeepsOk(url, s, Next(url, s, step));
  }

  /**
   * In every interleaving one call at a time is past the lock, ids are not reused while in use, and a
   * file that a call wrote last is what that call made of the servers it looked at.
   */
  lemma {:induction false} RunIsOk(url: UrlParser, states: seq<State>, steps: seq<Step>, n: nat)
    requires IsRun(url, states, steps) && Init(states[0]) && n <= |steps|
    ensures Ok(url, states[n])
  {
    if n > 0 {
      RunIsOk(url, states, steps, n - 1);
      NextKeepsOk(url, states[n - 1], steps[n - 1]);
    }
  }

  // ---------------------------------------------------------------- files and live state

  /**
   * At every moment of every run, the live servers of a network saved this session are those on disk,
   * unless its last save has not, or not as saved, taken effect, or an edit was led astray to it.
   */
  lemma DiskAgreesWithLive(url: UrlParser, states: seq<State>, steps: seq<Step>, n: nat, network: Network)
    requires IsRun(url, states, steps) && Init(states[0]) && n <= |steps|
    requires network in states[n].edited && network !in states[n].adrift
    ensures OnDisk(url, states[n].disk.Get(network), states[n].live.servers.Get(network))
  {
    RunIsOk(url, states, steps, n);
  }

  /**
   * Nothing leads an edit astray: the runtime stays open, no call is dropped between its look and its
   * acknowledgement, and no wallet moves the network while a call holds the lock.
   */
  ghost predicate Gentle(s: State, step: Step) {
    match step
    case Close => false
    case Drop(id) => id in s.calls ==> !HoldsLock(s.calls[id]) || s.calls[id].at.Acknowledged?
    case OpenWallet(network) => network == s.live.network || LockFree(s)
    case _ => true
  }

  /** A call past its look still finds what it looked at, and owns the file it wrote. */
  predicate CallSteady(s: State, id: nat, d: Dispatch) {
    match d.at
    case Saving(look) =>
      Target(s.live.network, d.action) == look.target && s.live.servers.Get(look.target) == look.servers
    case Sending(look, saved) => LookSteady(s, id, d.action, look, saved)
    case Waiting(look, saved) => LookSteady(s, id, d.action, look, saved)
    case _ => true
  }

  predicate LookSteady(s: State, id: nat, a: AppAction, look: Option<Look>, saved: bool) {
    look.Some? ==>
      && Undisturbed(s.live, Message(id, a, look, saved))
      && (saved ==> s.writer.Get(look.value.target) == Some(id))
  }

  /** The call has saved an edit of `n` that has not taken effect yet. */
  predicate Brings(d: Dispatch, n: Network) {
    && Edits(d.action) && (d.at.Sending? || d.at.Waiting?)
    && d.at.look.Some? && d.at.saved && d.at.look.value.target == n
  }

  ghost predicate Steady(s: State) {
    && s.open
    && (forall id :: id in s.calls ==> CallSteady(s, id, s.calls[id]))
    && (forall i :: 0 <= i < |s.queue| && TakesLock(s.queue[i].action) ==> s.queue[i].id in s.calls)
    && (forall n :: n in s.adrift ==> exists id :: id in s.calls && Brings(s.calls[id], n))
  }

  /** Whoever is past the lock is the only one, so what others do cannot unsettle it. */
  lemma OthersAreOutside(s: State, id: nat, other: nat)
    requires Exclusive(s.calls) && id in s.calls && HoldsLock(s.calls[id]) && other in s.calls && other != id
    ensures !HoldsLock(s.calls[other])
  {
  }

  lemma SteadyApply(url: UrlParser, s: State)
    requires s.queue != [] && Ok(url, s) && Steady(s)
    ensures Steady(Applied(s))
  {
    var s', m := Applied(s), s.queue[0];
    assert MessageOk(url, s, m);
    forall j | j in s'.calls
      ensures CallSteady(s', j, s'.calls[j])
    {
      assert CallSteady(s, j, s.calls[j]) && CallOk(url, s, j, s.calls[j]);
      if TakesLock(m.action) && j != m.id { OthersAreOutside(s, m.id, j); }
    }
    forall i | 0 <= i < |s'.queue| && TakesLock(s'.queue[i].action)
      ensures s'.queue[i].id in s'.calls
    {
      assert s'.queue[i] == s.queue[i + 1];
    }
    forall n | n in s'.adrift
      ensures exists id :: id in s'.calls && Brings(s'.calls[id], n)
    {
      if TakesLock(m.action) {
        assert CallSteady(s, m.id, s.calls[m.id]);
        assert m.saved ==> Lands(s, m);
      }
      assert n in s.adrift;
      var id :| id in s.calls && Brings(s.calls[id], n);
      assert id in s'.calls && Brings(s'.calls[id], n);
    }
  }

  lemma AdvancedCallsAreSteady(url: UrlParser, s: State, id: nat, writes: bool)
    requires Ok(url, s) && Steady(s) && Allowed(s, Advance(id, writes))
    ensures
      var s' := Advanced(url, s, id, writes);
      forall j :: j in s'.calls ==> CallSteady(s', j, s'.calls[j])
  {
    var s', d := Advanced(url, s, id, writes), s.calls[id];
    assert CallOk(url, s, id, d) && CallSteady(s, id, d);
    forall j | j in s'.calls
      ensures CallSteady(s', j, s'.calls[j])
    {
      assert CallSteady(s, j, s.calls[j]) && CallOk(url, s, j, s.calls[j]);
      if j != id && d.at.Saving? { OthersAreOutside(s, id, j); }
    }
  }

  lemma SteadyAdvance(url: UrlParser, s: State, id: nat, writes: bool)
    requires Ok(url, s) && Steady(s) && Allowed(s, Advance(id, writes))
    ensures Steady(Advanced(url, s, id, writes))
  {
    var s', d := Advanced(url, s, id, writes), s.calls[id];
    AdvancedCallsAreSteady(url, s, id, writes);
    assert CallOk(url, s, id, d);
    forall i | 0 <= i < |s'.queue| && TakesLock(s'.queue[i].action)
      ensures s'.queue[i].id in s'.calls
    {
      if i < |s.queue| { assert MessageOk(url, s, s.queue[i]); }
    }
    forall n | n in s'.adrift
      ensures exists j :: j in s'.calls && Brings(s'.calls[j], n)
    {
      if n in s.adrift {
        var j :| j in s.calls && Brings(s.calls[j], n);
        assert j in s'.calls && Brings(s'.calls[j], n);
      } else {
        assert id in s'.calls && Brings(s'.calls[id], n);
      }
    }
  }

  /** Steps that take away or add only calls without a saved edit under way, or leave the network alone. */
  lemma SteadyOtherwise(url: UrlParser, s: State, step: Step)
    requires Ok(url, s) && Steady(s) && Allowed(s, step) && Gentle(s, step)
    requires step.Call? || step.Drop? || step.OpenWallet?
    ensures Steady(Next(url, s, step))
  {
    var s' := Next(url, s, step);
    forall j | j in s'.calls
      ensures CallSteady(s', j, s'.calls[j])
    {
      if j in s.calls { assert CallSteady(s, j, s.calls[j]) && CallOk(url, s, j, s.calls[j]); }
    }
    forall i | 0 <= i < |s'.queue| && TakesLock(s'.queue[i].action)
      ensures s'.queue[i].id in s'.calls
    {
      assert MessageOk(url, s, s.queue[i]);
    }
    forall n | n in s'.adrift
      ensures exists j :: j in s'.calls && Brings(s'.calls[j], n)
    {
      var j :| j in s.calls && Brings(s.calls[j], n);
      assert j < s.next;
      assert j in s'.calls && Brings(s'.calls[j], n);
    }
  }

  lemma GentleStepIsSteady(url: UrlParser, s: State, step: Step)
    requires Ok(url, s) && Steady(s) && Allowed(s, step) && Gentle(s, step)
    ensures Steady(Next(url, s, step))
  {
    match step
    case Apply => SteadyApply(url, s);
    case Advance(id, writes) => SteadyAdvance(url, s, id, writes);
    case Call(_) => SteadyOtherwise(url, s, step);
    case Drop(_) => SteadyOtherwise(url, s, step);
    case OpenWallet(_) => SteadyOtherwise(url, s, step);
    case Close =>
  }

  lemma {:induction false} GentleRunIsSteady(url: UrlParser, states: seq<State>, steps: seq<Step>, n: nat)
    requires IsRun(url, states, steps) && Init(states[0]) && n <= |steps|
    requires forall i :: 0 <= i < n ==> Gentle(states[i], steps[i])
    ensures Steady(states[n])
  {
    if n > 0 {
      GentleRunIsSteady(url, states, steps, n - 1);
      RunIsOk(url, states, steps, n - 1);
      GentleStepIsSteady(url, states[n - 1], steps[n - 1]);
    }
  }

  /** In such a run, whenever the lock is free, every network saved this session is live as it is on disk. */
  lemma GentleRunsAgree(url: UrlParser, states: seq<State>, steps: seq<Step>, n: nat, network: Network)
    requires IsRun(url, states, steps) && Init(states[0]) && n <= |steps|
    requires forall i :: 0 <= i < n ==> Gentle(states[i], steps[i])
    requires LockFree(states[n]) && network in states[n].edited
    ensures OnDisk(url, states[n].disk.Get(network), states[n].live.servers.Get(network))
  {
    GentleRunIsSteady(url, states, steps, n);
    assert network !in states[n].adrift;
    DiskAgreesWithLive(url, states, steps, n, network);
  }

  // ---------------------------------------------------------------- which network a saved edit changes

  /** The network a step moves the runtime to, if it does: a wallet that opens, or a switch that takes effect. */
  function MovesTo(s: State, step: Step): Option<Network> {
    if step.OpenWallet? then Some(step.network)
    else if step.Apply? && s.queue != [] && s.queue[0].action.SetNetwork? then Some(s.queue[0].action.network)
    else None
  }

  /** The last network the runtime was moved to in steps `m` to `n`, or `first`. */
  function LastNetwork(states: seq<State>, steps: seq<Step>, m: nat, n: nat, first: Network): Network
    requires m <= n <= |steps| < |states|
  {
    if m == n then first
    else if MovesTo(states[n - 1], steps[n - 1]).Some? then MovesTo(states[n - 1], steps[n - 1]).value
    else LastNetwork(states, steps, m, n - 1, first)
  }

  lemma StepMovesNetwork(url: UrlParser, s: State, step: Step)
    requires Allowed(s, step)
    ensures
      Next(url, s, step).live.network
        == if MovesTo(s, step).Some? then MovesTo(s, step).value else s.live.network
  {
  }

  lemma {:induction false} NetworkIsTheLast(url: UrlParser, states: seq<State>, steps: seq<Step>, m: nat, n: nat)
    requires IsRun(url, states, steps) && m <= n <= |steps|
    ensures states[n].live.network == LastNetwork(states, steps, m, n, states[m].live.network)
  {
    if m < n {
      NetworkIsTheLast(url, states, steps, m, n - 1);
      StepMovesNetwork(url, states[n - 1], steps[n - 1]);
    }
  }

  /** The call, as long as it is there, and its message still carry what the call saw. */
  predicate Carries(s: State, id: nat, a: AppAction, look: Look) {
    && id < s.next
    && (id in s.calls ==>
          && s.calls[id].action == a && !s.calls[id].at.AwaitLock? && !s.calls[id].at.Holding?
          && (s.calls[id].at.Saving? ==> s.calls[id].at.seen == look)
          && (s.calls[id].at.Sending? || s.calls[id].at.Waiting? ==> s.calls[id].at.look == Some(look)))
  }

  ghost predicate QueueCarries(s: State, id: nat, a: AppAction, look: Look) {
    forall i :: 0 <= i < |s.queue| && s.queue[i].id == id ==> s.queue[i].action == a && s.queue[i].look == Some(look)
  }

  lemma NextCarries(url: UrlParser, s: State, step: Step, id: nat, a: AppAction, look: Look)
    requires Allowed(s, step) && Carries(s, id, a, look) && QueueCarries(s, id, a, look)
    ensures Carries(Next(url, s, step), id, a, look) && QueueCarries(Next(url, s, step), id, a, look)
  {
    var s' := Next(url, s, step);
    forall i | 0 <= i < |s'.queue| && s'.queue[i].id == id
      ensures s'.queue[i].action == a && s'.queue[i].look == Some(look)
    {
      if step.Apply? { assert s'.queue[i] == s.queue[i + 1]; }
    }
  }

  /** Call `id` looks at step `l`. */
  predicate Looks(s: State, step: Step, id: nat) {
    step.Advance? && step.id == id && id in s.calls && s.calls[id].at.Holding? && Edits(s.calls[id].action)
  }

  function LookOf(s: State, a: AppAction): Look {
    Look(Target(s.live.network, a), s.live.servers.Get(Target(s.live.network, a)))
  }

  lemma {:induction false} LookIsCarried(
      url: UrlParser, states: seq<State>, steps: seq<Step>, l: nat, n: nat, id: nat)
    requires IsRun(url, states, steps) && Init(states[0]) && l < n <= |steps| && Looks(states[l], steps[l], id)
    ensures
      var a := states[l].calls[id].action;
      Carries(states[n], id, a, LookOf(states[l], a)) && QueueCarries(states[n], id, a, LookOf(states[l], a))
  {
    var a := states[l].calls[id].action;
    if n == l + 1 {
      RunIsOk(url, states, steps, l);
      forall i | 0 <= i < |states[l].queue|
        ensures states[l].queue[i].id != id
      {
        NotQueuedYet(url, states[l], id, i);
      }
      assert states[n] == Next(url, states[l], steps[l]);
    } else {
      LookIsCarried(url, states, steps, l, n - 1, id);
      NextCarries(url, states[n - 1], steps[n - 1], id, a, LookOf(states[l], a));
    }
  }

  /** At step `n` the actor applies the edit of call `id`, which was saved. */
  predicate Publishes(s: State, step: Step, id: nat) {
    step.Apply? && s.queue != [] && s.queue[0].id == id && s.queue[0].saved
  }

  /**
   * The network whose file call `id` wrote is the one its edit changes exactly when the runtime was
   * not moved, between the call's look and the edit's turn, to a network it did not move back from.
   * No other network's servers change then; and they are the saved ones if nothing changed the
   * looked-at servers and no later call wrote the file.
   */
  lemma SavedNetworkIsTheOneChanged(
      url: UrlParser, states: seq<State>, steps: seq<Step>, l: nat, n: nat, id: nat)
    requires IsRun(url, states, steps) && Init(states[0]) && l < n < |steps|
    requires Looks(states[l], steps[l], id) && Publishes(states[n], steps[n], id)
    ensures
      var look := LookOf(states[l], states[l].calls[id].action);
      var before, after := states[n].live.servers, states[n + 1].live.servers;
      var changed := Target(states[n].live.network, states[l].calls[id].action);
      && (changed == look.target
          <==> states[l].calls[id].action.ReplaceNetworkServers?
               || LastNetwork(states, steps, l, n, states[l].live.network) == states[l].live.network)
      && (forall other :: other != changed ==> after.Get(other) == before.Get(other))
      && (changed == look.target && before.Get(changed) == look.servers && states[n].writer.Get(changed) == Some(id) ==>
            OnDisk(url, states[n].disk.Get(changed), after.Get(changed)))
  {
    var a := states[l].calls[id].action;
    LookIsCarried(url, states, steps, l, n, id);
    NetworkIsTheLast(url, states, steps, l, n);
    RunIsOk(url, states, steps, n);
    assert MessageOk(url, states[n], states[n].queue[0]);
    assert states[n + 1] == Next(url, states[n], steps[n]);
  }

  /**
   * Servers change only when the actor applies an edit that its call validated, and either saved or
   * found to change nothing, in which case they are not the servers the call looked at.
   */
  lemma ServersChangeOnlyByEdits(url: UrlParser, states: seq<State>, steps: seq<Step>, n: nat)
    requires IsRun(url, states, steps) && Init(states[0]) && n < |steps|
    requires states[n + 1].live.servers != states[n].live.servers
    ensures steps[n].Apply? && Edits(states[n].queue[0].action)
    ensures states[n].queue[0].saved || !Undisturbed(states[n].live, states[n].queue[0])
  {
    RunIsOk(url, states, steps, n);
    if steps[n].Apply? { assert MessageOk(url, states[n], states[n].queue[0]); }
  }

  /** A file is written only by a call past its look, for the network it looked at, with what it made of it. */
  lemma FilesChangeOnlyForTheTarget(url: UrlParser, states: seq<State>, steps: seq<Step>, n: nat, other: Network)
    requires IsRun(url, states, steps) && Init(states[0]) && n < |steps|
    requires states[n + 1].disk.Get(other) != states[n].disk.Get(other)
    ensures steps[n].Advance? && steps[n].id in states[n].calls && states[n].calls[steps[n].id].at.Saving?
    ensures
      var d := states[n].calls[steps[n].id];
      && other == d.at.seen.target && HoldsLock(d)
      && OnDisk(url, states[n + 1].disk.Get(other), Edited(d.action, d.at.seen.servers).0)
  {
    RunIsOk(url, states, steps, n);
    if steps[n].Advance? {
      assert CallOk(url, states[n], steps[n].id, states[n].calls[steps[n].id]);
    }
  }

  // ---------------------------------------------------------------- runs that part file and live state

  /** What the edit makes of the servers it looks at in `s`. */
  function EditOf(s: State, a: AppAction): (Servers, Event) {
    Edited(a, s.live.servers.Get(Target(s.live.network, a)))
  }

  /** A run starts, and this edit would change its network's servers and be the first to be saved for it. */
  ghost predicate FirstSave(url: UrlParser, s0: State, a: AppAction) {
    && Init(s0) && s0.next == 0 && Edits(a) && EditOf(s0, a).1 == ServersChanged
    && s0.disk.Get(Target(s0.live.network, a)).Missing? && Envelope(url, EditOf(s0, a).0).Some?
  }

  lemma RunExtends(url: UrlParser, states: seq<State>, steps: seq<Step>, step: Step, s': State)
    requires IsRun(url, states, steps) && Allowed(states[|steps|], step)
    requires s' == Next(url, states[|steps|], step)
    ensures IsRun(url, states + [s'], steps + [step])
  {
  }

  /** The first call of a run looks: three steps. */
  lemma LooksFirst(url: UrlParser, s0: State, a: AppAction) returns (states: seq<State>, steps: seq<Step>)
    requires FirstSave(url, s0, a)
    ensures IsRun(url, states, steps) && states[0] == s0 && |steps| == 3
    ensures forall i :: 0 <= i < |steps| ==> !steps[i].Close? && !steps[i].Drop?
    ensures states[3] == s0.(calls := map[0 := Dispatch(a, Saving(LookOf(s0, a)))], next := 1)
  {
    var s1 := s0.(calls := map[0 := Dispatch(a, AwaitLock)], next := 1);
    var s2 := s1.(calls := map[0 := Dispatch(a, Holding)]);
    var s3 := s1.(calls := map[0 := Dispatch(a, Saving(LookOf(s0, a)))]);
    states, steps := [s0, s1, s2, s3], [Call(a), Advance(0, true), Advance(0, true)];
  }

  /** It saves and is about to send. */
  lemma SavesFirst(url: UrlParser, s0: State, a: AppAction)
    returns (states: seq<State>, steps: seq<Step>, target: Network, file: File)
    requires FirstSave(url, s0, a)
    ensures IsRun(url, states, steps) && states[0] == s0 && |steps| == 4
    ensures forall i :: 0 <= i < |steps| ==> !steps[i].Close? && !steps[i].Drop?
    ensures target == Target(s0.live.network, a)
    ensures OnDisk(url, file, Edited(a, s0.live.servers.Get(target)).0)
    ensures
      states[4]
        == Saved(s0, 0, target, file)
             .(next := 1, calls := map[0 := Dispatch(a, Sending(Some(LookOf(s0, a)), true))])
  {
    var looking, taken := LooksFirst(url, s0, a);
    target := Target(s0.live.network, a);
    file := SavedFile(url, Missing, Edited(a, s0.live.servers.Get(target)).0).value;
    var s4 := Saved(looking[3], 0, target, file).(calls := map[0 := Dispatch(a, Sending(Some(LookOf(s0, a)), true))]);
    RunExtends(url, looking, taken, Advance(0, true), s4);
    states, steps := looking + [s4], taken + [Advance(0, true)];
  }

  /** The same call once its edit is in the queue. */
  lemma SendsFirst(url: UrlParser, s0: State, a: AppAction)
    returns (states: seq<State>, steps: seq<Step>, s5: State)
    requires FirstSave(url, s0, a)
    ensures IsRun(url, states, steps) && states[0] == s0 && |steps| == 5 && states[5] == s5
    ensures forall i :: 0 <= i < |steps| ==> !steps[i].Close? && !steps[i].Drop?
    ensures s5.open && s5.live == s0.live && s5.edited == {Target(s0.live.network, a)}
    ensures
      && s5.queue == [Message(0, a, Some(LookOf(s0, a)), true)]
      && s5.calls == map[0 := Dispatch(a, Waiting(Some(LookOf(s0, a)), true))]
  {
    var saving, taken, target, file := SavesFirst(url, s0, a);
    var look := Some(LookOf(s0, a));
    s5 := saving[4].(queue := [Message(0, a, look, true)], calls := map[0 := Dispatch(a, Waiting(look, true))]);
    RunExtends(url, saving, taken, Advance(0, true), s5);
    states, steps := saving + [s5], taken + [Advance(0, true)];
  }

  /** The same call, if the runtime closes before the edit is sent. */
  lemma ClosesFirst(url: UrlParser, s0: State, a: AppAction)
    returns (states: seq<State>, steps: seq<Step>, target: Network)
    requires FirstSave(url, s0, a)
    ensures IsRun(url, states, steps) && states[0] == s0 && |steps| == 6
    ensures target == Target(s0.live.network, a) && states[6].calls == map[] && target in states[6].edited
    ensures OnDisk(url, states[6].disk.Get(target), EditOf(s0, a).0) && states[6].live == s0.live
  {
    var saving, taken, network, file := SavesFirst(url, s0, a);
    target := network;
    var s5 := saving[4].(open := false);
    RunExtends(url, saving, taken, Close, s5);
    RunExtends(url, saving + [s5], taken + [Close], Advance(0, true), Ended(s5, 0));
    states, steps := saving + [s5] + [Ended(s5, 0)], taken + [Close] + [Advance(0, true)];
  }

  /** A runtime that closes before the edit is sent leaves it saved and never published. */
  lemma ClosedRuntimeLosesASavedEdit(url: UrlParser, s0: State, a: AppAction)
    requires FirstSave(url, s0, a)
    requires Envelope(url, EditOf(s0, a).0) != Envelope(url, s0.live.servers.Get(Target(s0.live.network, a)))
    ensures
      exists states: seq<State>, steps: seq<Step> ::
        && IsRun(url, states, steps) && states[0] == s0 && LockFree(states[|steps|])
        && var network := Target(s0.live.network, a);
           && network in states[|steps|].edited
           && !OnDisk(url, states[|steps|].disk.Get(network), states[|steps|].live.servers.Get(network))
  {
    var states, steps, target := ClosesFirst(url, s0, a);
  }

  /** A wallet that opens in between turns a saved edit of the current network to the wallet's network. */
  lemma OpenedWalletMisdirectsAnEdit(url: UrlParser, s0: State, a: AppAction, other: Network)
    requires FirstSave(url, s0, a) && a.SetServer? && other != s0.live.network
    requires Edited(a, s0.live.servers.Get(other)).0 != s0.live.servers.Get(other)
    ensures
      exists states: seq<State>, steps: seq<Step> ::
        && IsRun(url, states, steps) && states[0] == s0
        && (forall i :: 0 <= i < |steps| ==> !steps[i].Close? && !steps[i].Drop?)
        && states[|steps|].edited == {s0.live.network}
        && states[|steps|].live.servers.Get(other) != s0.live.servers.Get(other)
        && states[|steps|].live.servers.Get(s0.live.network) == s0.live.servers.Get(s0.live.network)
  {
    var states, steps, s5 := SendsFirst(url, s0, a);
    var s6 := s5.(live := s5.live.(network := other));
    var s7 := Applied(s6);
    RunExtends(url, states, steps, OpenWallet(other), s6);
    RunExtends(url, states + [s6], steps + [OpenWallet(other)], Apply, s7);
    var run, taken := states + [s6] + [s7], steps + [OpenWallet(other)] + [Apply];
    assert run[0] == s0 && run[|taken|] == s7;
    assert forall i :: 0 <= i < 5 ==> taken[i] == steps[i];
  }

  /** A dropped call has given up the lock, and its sent edit still takes effect afterwards. */
  lemma DroppedCallActsLate(url: UrlParser, s0: State, a: AppAction)
    requires FirstSave(url, s0, a)
    ensures
      exists states: seq<State>, steps: seq<Step> ::
        && IsRun(url, states, steps) && states[0] == s0 && |steps| == 7
        && states[6].calls == map[] && states[6].live == s0.live
        && states[7].live == Reduce(s0.live, a)
  {
    var states, steps, s5 := SendsFirst(url, s0, a);
    var s6 := Ended(s5, 0);
    var s7 := Applied(s6);
    RunExtends(url, states, steps, Drop(0), s6);
    RunExtends(url, states + [s6], steps + [Drop(0)], Apply, s7);
    var run := states + [s6] + [s7];
    assert run[0] == s0 && run[6] == s6 && run[7] == s7;
  }
}
