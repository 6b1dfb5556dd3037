# Verified models of the wallet's hardest parts

A Dafny 4.11 project that models the parts of the wallet whose correctness depends on
interleavings, on state changed in place, or on exact arithmetic, and proves what they promise.

    dafny verify dfyconfig.toml

## What is modelled

**The native chain host** (`chain_host*.dfy`, `native_chain_runtime.dfy`, `chain_selection.dfy`).
`ChainHost` is a state machine over any number of tasks: rebuilds, credential replacements, wallet
refreshes, node scans and accessors. One step makes at most one access to shared state, so the bump
of the generation and the revocation of the installed stack are two steps inside one read guard, and
the three checks and the store are four steps inside one write guard. A lock guard is a scoped value
in the source; here it is held exactly while its task's point lies in the guard's scope. A task can
be dropped wherever the source awaits, and only there. The owner's state, its closing and the
settings files change at any moment.

- `ChainHostSafety`: which stacks can be installed and unrevoked in any run.
- `ChainHostCredentials`: which credentials a stack can have been built from.
- `ChainHostHeaders`: when the accepted header store survives, and which view it holds.
- `ChainHostPasses`: what a sync pass joins, and into which chain it publishes much later.
- `ChainHostSelections`: which owner and which settings a published stack stands for.
- `ChainHostRefreshes`: which stack and network a refresh works for, and when it gives up.
- `ChainHostLocks`, `ChainHostProgress`: mutual exclusion, no deadlock, no livelock.
- `ChainHostSolo`: the sequential meaning of a rebuild, reached by an undisturbed task.
- `NativeChain`: the host object itself, whose methods are proved against that meaning, with what
  changes while a rebuild probes as a parameter.

**The in-memory file system and string codec** of the SQLite build (`mem_file.dfy`,
`node_table.dfy`, `paths.dfy`, `utf8.dfy`, `utf8_standards.dfy`, `js_values.dfy`): growable file buffers against plain
byte sequences, the chained name hash against the directory maps, the right-to-left path normaliser
against left-to-right resolution, and the UTF-8 codec against section 3 of RFC 3629 and section 2 of
RFC 2781. Byte buffers are arrays and bucket chains are linked nodes, both changed in place; the
segment list, which the source splices, is a sequence that its loop reassigns.

**Durable settings** (`network_settings.dfy`, `edit_effects.dfy`, `saved_edits.dfy`,
`settings_restore.dfy`, `networks.dfy`, `appearance.dfy`). A network edit looks, saves and is then sent to the runtime's actor, whose queue also
opens wallets and still holds what dropped calls have sent. What a file keeps of an entry and what is
read back from it are modelled on the strings themselves, through the endpoint parsers
(`endpoints.dfy`, `endpoint_entries.dfy`, `server_overrides.dfy`, `rust_strings.dfy`). An appearance change is applied and then
saved by temporary file, sync and rename, with failures, crashes and power losses at every point.

**Two caches with time bounds** (`token_metadata.dfy`, `token_history.dfy`, `fusion_status.dfy`) and **exact amount
printing** (`bch_amount.dfy`, `decimals.dfy`). `wrappers.dfy` holds the shared result types.

## Where the code does less than its comments or names suggest

Each of these is a concrete run or input, with the condition under which the promise does hold.

- Header progress is not monotone. `publish_header_view` compares networks only, so of two passes over
  one store the one that returns last decides, even on a single network
  (`ChainHostPasses.ConcurrentPassesCanLowerProgress`), and after leaving a network and coming back a
  pass can publish into a later store (`ChainHostPasses.OlderPassCanReachNewerStore`).
  `PublishesIntoWhatItJoined` says exactly when a pass publishes into the very chain it joined, and
  `ProgressNeverFalls` gives runs in which progress cannot fall.
- The write lock does not serialise network edits with every switch. Opening a wallet moves the
  runtime's network without the lock, so a saved edit can change another network
  (`NetworkSettings.OpenedWalletMisdirectsAnEdit`), and an action that was sent takes effect even if
  its call is dropped (`NetworkSettings.DroppedCallActsLate`). `SavedNetworkIsTheOneChanged` gives
  the exact condition for the network, `GentleRunsAgree` the runs in which file and live servers agree.
- A network setting can be saved and never published, when the runtime closes in between
  (`NetworkSettings.ClosedRuntimeLosesASavedEdit`). `SavedEdits.SavedEditTakesEffectIff` says exactly
  when a saved edit is applied.
- Saved servers do not always come back. An IPv6 host is kept without its brackets, so a peer typed
  `[::1]:8333` is kept as `::1:8333` and restored as `::1:8333:8333:8333`
  (`ServerOverrides.Ipv6PeerGrows`, `ServerOverrides.LocalPeerGrows`); and an explorer comes back as its
  URL's origin, without capitals or a default port (`ServerOverrides.TypedExplorerChanges`).
  `ServerOverrides.AddressIsRestoredIff` and `ServerOverrides.SavedServersAreRestoredIff` say exactly which
  servers come back as they were saved, and `SettingsRestore.RestartKeepsServersIff` says so at every
  moment of every run.
- A `ws://` entry for this machine is kept without its scheme, so it is encrypted wherever it is parsed
  again (`ServerOverrides.KeptElectrumIsEncrypted`).
- A Fusion probe that is cancelled records nothing, so the next one may start at once
  (`FusionStatus.CancelledProbesAreNotApart`); uncancelled probes of one slot are 15 seconds apart, and
  those for one key while the map is not cleared (`FusionStatus.KeyProbesAreApart`).
- Outside Unix an acknowledged appearance save can be lost with the power
  (`Appearance.AcknowledgedSaveCanBeLost`); there the guarantee needs the power to stay on.
- The growth factor of file buffers wraps for capacities above 3817748707 bytes, where copying is no
  longer linear (`FileGrowth.LimitIsSharp`).
- An entry called `__proto__` replaces the prototype of its directory's entries, also after it is gone.
  The hash table finds it and the directory does not list it; the directory cannot be removed; entries
  called `read` or `write` that are made later meet an inherited accessor, which sets `mode` instead of
  listing them (`NodeTable.RemovedProtoHidesRead`). `NodeTable.ListedIff` says exactly which nodes a directory
  lists, over every history of entries that come and go.
- A broken surrogate or a NUL does not survive the string codec. `Utf8.DecodesToRepaired` gives what
  comes back for every string, and `Utf8.RoundTripIffWellFormed` says for which strings it is the
  string itself.

## Model

| member | source | states |
|---|---|---|
| ChainHostLocks.ActionKeepsExclusive | src-tauri/src/chain_runtime.rs:418-515 | No interleaving of steps, cancellations and new calls lets two tasks hold the rebuild lock, a write guard beside any other guard of the same lock, or one service twice |
| ChainHostSafety.RunIsSafe | src-tauri/src/chain_runtime.rs:418-515 | Every state of every run satisfies the joint invariant: mutual exclusion, at most one unrevoked stack and it is the installed one, an outdated unrevoked stack only while an invalidator is between bump and revoke, and what each rebuild knows of the stack it replaces |
| ChainHostSafety.LiveStackIsCurrent | src-tauri/src/chain_runtime.rs:418-433 | For any number of tasks: an unrevoked stack is the installed one, and carries the current generation unless some invalidator has bumped and not yet revoked |
| ChainHostSafety.RebuildOwnsTheStack | src-tauri/src/chain_runtime.rs:438-515 | From its under-lock revocation until it publishes or ends, a rebuild sees no unrevoked stack, and no step, cancellation or new call of another task installs or takes out a stack |
| ChainHostSafety.RevocationIsPermanent | src-tauri/src/chain_runtime.rs:418-433 | However a run continues, a stack keeps its build, and its revocation and its loss of routes are never undone |
| ChainHostCredentials.RunIsIssued | src-tauri/src/chain_runtime.rs:475-481 | In every run the revision counts the credentials issued, and every pair held by a build or a stack was issued together, except inside a write section |
| ChainHostCredentials.StacksUseOnePair | src-tauri/src/chain_runtime.rs:323-340 | Every stack ever installed was built from the secrets of exactly the revision it names, although the two are read and written in separate steps |
| ChainHostCredentials.UnderLockRevocationSetsFloor | src-tauri/src/chain_runtime.rs:418-433 | Revoking under the rebuild lock leaves no stack and no build that could still publish credentials older than the revision at that moment |
| ChainHostCredentials.ReplacedCredentialsNeverReturn | src-tauri/src/chain_runtime.rs:323-340 | Once a replacement that installed revision k has revoked under the rebuild lock, no live stack of any later state was built from a revision below k |
| ChainHostCredentials.RevisionNeverFalls | src-tauri/src/chain_runtime.rs:323-340 | Over every run the credential revision only grows |
| ChainHostCredentials.FaultsInstallNoRoutes | src-tauri/src/chain_runtime.rs:459-474 | In every run a stack has credentials exactly if its selection is no fault, and a header store only then: no fallback route |
| ChainHostSelections.EveryPublicationLooksTwice | src-tauri/src/chain_runtime.rs:438-513 | In every run a stack that is published stands for the owner of a snapshot and what the settings told of it; a second look told the same of the owner at the check, who is still on that network; the owner had acknowledged the invalidation, and the credentials were of the revision at their check |
| ChainHostSelections.PublishedIsFirstLook | src-tauri/src/chain_runtime.rs:354-380 | The stack a call publishes is for what its first look told: a stopped reader is a fault and installs no routes, credentials or header store, a missing file leaves the choice to the owner, a policy or fault on file stands for itself |
| ChainHostSelections.PublishedIsSecondLook | src-tauri/src/chain_runtime.rs:502-513 | A call publishes only what its second look, too, tells of the owner when it is checked; with a stopped reader, only that very fault |
| ChainHostProgress.InnerLocksDoNotBlock | src-tauri/src/chain_runtime.rs:418-515 | From any state and any task not queued for the rebuild lock, some task awaits nothing that anyone holds |
| ChainHostProgress.SomeTaskCanMove | src-tauri/src/chain_runtime.rs:418-515 | No deadlock: while any call is unfinished some task can step, whichever order the locks serve their queues in |
| ChainHostProgress.StepDoesWork | src-tauri/src/chain_runtime.rs:418-515 | Each step strictly lowers a bound on the steps all tasks together have left |
| ChainHostProgress.StepsAreBounded | src-tauri/src/chain_runtime.rs:418-515 | No livelock: without new calls, tasks take at most that many steps in all |
| ChainHostProgress.EveryCallCanFinish | src-tauri/src/chain_runtime.rs:418-606 | From every state there is a run, no longer than the bound, of steps of its own tasks that finishes all of them |
| ChainHostSolo.RebuildAlone | src-tauri/src/chain_runtime.rs:403-515 | Run without interference, the fine-grained steps of a rebuild end in exactly the state its sequential meaning gives |
| ChainHostSolo.ReplaceAlone | src-tauri/src/chain_runtime.rs:323-340 | Likewise for a replacement of the credentials, including the case of a closed owner |
| ChainHostSolo.UndisturbedRebuildConverges | src-tauri/src/chain_runtime.rs:362-515 | From every reachable state with free locks and an open owner, an undisturbed rebuild installs a live stack of the current generation for the owner network, with the persisted policy or, if the file is missing, the legacy bridge, under the current credentials and with the accepted chain's header store; without routes if the file is unreadable or its reader stopped; every earlier stack is revoked |
| ChainHostSolo.UndisturbedReplacementConverges | src-tauri/src/chain_runtime.rs:323-340 | The same after a replacement, under the new secrets and the next revision |
| ChainHostHeaders.RunIsAnchored | src-tauri/src/chain_runtime.rs:253-282 | In every run the view kept and the chain it is kept with name one network that ships a verifier, and no store number is handed out twice |
| ChainHostHeaders.ActionOnChain | src-tauri/src/chain_runtime.rs:253-282 | What one action of any kind does to the accepted chain: a request for another verifiable network starts a fresh store and view, and nothing else does more than publish a view |
| ChainHostHeaders.StoreAndLastViewSurvive | src-tauri/src/chain_runtime.rs:486-500 | While no request names another verifiable network, rebuilds, credential changes and cancellations keep the header store, and the view is the last one published |
| ChainHostHeaders.StoreKeptIffNoReplacement | src-tauri/src/chain_runtime.rs:253-270 | A store is still the accepted one later exactly when no request in between named another verifiable network; coming back to the first network does not bring it back |
| ChainHostHeaders.NetworkIsLastRequested | src-tauri/src/chain_runtime.rs:253-270 | The accepted chain is always of the verifiable network asked for last |
| ChainHostPasses.PublishesIntoWhatItJoined | src-tauri/src/chain_runtime.rs:574-603 | A pass carries the store and network it joined; the chain it publishes into still is exactly what it joined, store and view, if and only if no request since named another verifiable network and the last view published since, if any, repeats the joined one |
| ChainHostPasses.PublishesOnlyOnItsNetwork | src-tauri/src/chain_runtime.rs:275-282 | A pass publishes exactly if the verifiable network asked for last since its join is its own, into the store that is there then; otherwise it changes nothing |
| ChainHostPasses.ProgressNeverFalls | src-tauri/src/chain_runtime.rs:574-603 | Kept progress cannot fall while the store is not replaced, passes only advance what they were given and each joined after the publication before its own |
| ChainHostPasses.ConcurrentPassesCanLowerProgress | src-tauri/src/chain_runtime.rs:275-282 | A run on one network and one store in which the pass that returns last lowers the kept progress from 10 to 5 |
| ChainHostPasses.RepeatedViewDoesNotShow | src-tauri/src/chain_runtime.rs:275-282 | A run in which another pass published in between and the chain still is what the pass joined, because that publication repeated the view |
| ChainHostPasses.OlderPassCanReachNewerStore | src-tauri/src/chain_runtime.rs:275-282 | A run in which a pass that joined an earlier store of a network publishes its view into a later one |
| ChainHostRefreshes.PassEndsIff | src-tauri/src/chain_runtime.rs:550-606 | A refresh or scan gives up exactly if no stack is installed, its service is busy, no wallet is open, the network of a scan ships no verifier, or no view comes back |
| ChainHostRefreshes.RefreshKnowsItsStack | src-tauri/src/chain_runtime.rs:550-557 | In every run the stack a refresh works on is the one that was installed when it asked |
| ChainHostRefreshes.RefreshKnowsItsNetwork | src-tauri/src/chain_runtime.rs:558-573 | In every run the network a refresh joins and publishes for is the owner's when it looked at the wallet |
| ChainHostRefreshes.RoutesAreClearedBetweenRefreshes | src-tauri/src/chain_runtime.rs:448-457 | In every run the routes of a stack are cleared only while no refresh works on its service |
| ChainHostRefreshes.LooksBetweenPublications | src-tauri/src/chain_runtime.rs:505-513 | No call looks at the installed stack between the checks of a publication and its store |
| NativeChain.NativeChainRuntime.AcceptedChain | src-tauri/src/chain_runtime.rs:253-270 | The object after the call is the shared state with the chain of this network, and the answer is that chain or a refusal |
| NativeChain.NativeChainRuntime.PublishHeaderView | src-tauri/src/chain_runtime.rs:275-282 | Changes the kept view only for the network the host is on |
| NativeChain.NativeChainRuntime.InvalidateCurrentWalletSync | src-tauri/src/chain_runtime.rs:418-433 | The whole object after the call: the next generation and the installed stack revoked, through every reference to it |
| NativeChain.UndisturbedRebuild | src-tauri/src/chain_runtime.rs:438-515 | With nothing changed meanwhile, a rebuild of the object is the sequential meaning that the concurrent steps add up to |
| NativeChain.UndisturbedCalls | src-tauri/src/chain_runtime.rs:323-413 | The same for both calls, leading invalidation and new credentials included |
| NativeChain.CallsRetire | src-tauri/src/chain_runtime.rs:323-413 | Whatever happens meanwhile: a closed owner's call only revokes and bumps once; otherwise a call bumps twice, revokes and takes out the old stack with its routes, and ends under the right credentials |
| NativeChain.StaleBuildsAreDiscarded | src-tauri/src/chain_runtime.rs:502-513 | About the function `RebuiltAmid` that the methods are proved against: a build is published if and only if the network, the selection, the generation and, for a stack with routes, the credentials are what it was built for |
| NativeChain.PublishedIsCurrent | src-tauri/src/chain_runtime.rs:502-513 | About the same function: whatever changed meanwhile, the stack it publishes has the current generation, selection and credentials |
| NativeChain.NativeChainRuntime.RebuildSelectionAfterInvalidation | src-tauri/src/chain_runtime.rs:438-515 | The whole object afterwards, whatever the owner, the files, the generation and the credentials did while the rebuild probed: the build is published or discarded by the second look and the checks under the write guard |
| NativeChain.NativeChainRuntime.RebuildSelection | src-tauri/src/chain_runtime.rs:403-413 | Likewise with the leading invalidation, and false exactly for a closed owner |
| NativeChain.NativeChainRuntime.ReplaceSecrets | src-tauri/src/chain_runtime.rs:323-340 | Likewise for credentials: installed only if the owner acknowledged, then a rebuild under them |
| ChainSelection.HostGroups.Upsert | src-tauri/src/chain_runtime.rs:718-735 | The map after the call is the grouping with this endpoint added, in place |
| ChainSelection.GroupingIsExact | src-tauri/src/chain_runtime.rs:718-735 | For every list of settings: a host key has a source exactly when some setting named it, and the source lists exactly the endpoints named for it, each once |
| ChainSelection.FirstHostIsLabel | src-tauri/src/chain_runtime.rs:718-735 | A source keeps the host as it was first written, whatever later spellings join it |
| ChainSelection.KeyIgnores | src-tauri/src/chain_runtime.rs:719 | White space around a host, dots behind it and capitals in it make no difference to its key |
| ChainSelection.KeyIsItself | src-tauri/src/chain_runtime.rs:719 | A host in small letters without white space around it and dots behind it is its own key |
| ChainSelection.CatalogKeepsEverySource | src-tauri/src/chain_runtime.rs:679-684 | Distinct host keys give distinct source ids, so no insertion of a grouped source can collide |
| ChainSelection.ShippedSourcesNeverJoin | src-tauri/src/chain_runtime.rs:638-713 | Shipped sources appear only for an open wallet that configured nothing, and never beside a configured one |
| FileBytes.EveryByteIsTheLastWritten | public/sql-wasm-browser.js:115-118 | After any sequence of writes, resizes and extensions each byte is the last one written there since the last cut, and zero in every gap |
| MemFile.FileNode.Expand | public/sql-wasm-browser.js:112 | Growth keeps the bytes, keeps everything past the length zero, reaches the capacity the growth rule gives and copies no more than the old capacity |
| MemFile.FileNode.Read | public/sql-wasm-browser.js:117 | Copies exactly the bytes of the file from the position, no more than asked or left, and nothing else of the buffer |
| MemFile.FileNode.Write | public/sql-wasm-browser.js:117-118 | Whatever shortcut is taken, the file is the byte sequence with the chunk written at the position and zeros in a gap, and bytes past the length stay zero |
| MemFile.FileNode.SetSize | public/sql-wasm-browser.js:115-116 | The file is cut or zero-filled to the size, and the bytes past the length stay zero |
| MemFile.FileNode.Allocate | public/sql-wasm-browser.js:118 | The file is extended with zeros to the end asked for, never cut |
| FileGrowth.CopyingIsLinear | public/sql-wasm-browser.js:112 | Over any run of growths from empty, all copying together costs at most nine times the final capacity, as long as the growth factor does not wrap |
| FileGrowth.CapacityIsBounded | public/sql-wasm-browser.js:112 | The final capacity serves every size asked for and is at most 256 or twice the largest of them |
| FileGrowth.GrowthInNumbers | public/sql-wasm-browser.js:112 | Storage that must grow takes exactly what is needed from nothing, twice its capacity below one mebibyte and 9/8 from there on, or what is needed if more, and at least 256 bytes |
| FileGrowth.LimitIsSharp | public/sql-wasm-browser.js:112 | One byte above that limit the growth factor wraps and the linear bound fails |
| NameHash.StepIsCongruent | public/sql-wasm-browser.js:121 | Truncating to 32 bits at each character loses nothing of the hash polynomial modulo 2^32 |
| NameHash.HashName | public/sql-wasm-browser.js:121 | The loop of shifts and truncations computes the bucket of the untruncated polynomial |
| NodeTable.AddingKeepsChains | public/sql-wasm-browser.js:122 | Putting a node at the head of its bucket keeps every chain linked, acyclic and in its own bucket |
| NodeTable.RemovingKeepsChains | public/sql-wasm-browser.js:121 | Bypassing a node keeps every chain, and takes out that node and no other |
| NodeTable.BucketsLeadToEntries | public/sql-wasm-browser.js:122 | Walking the bucket of a directory and a name meets exactly the node of that name in that directory; unless the name is shadowed by a replaced prototype, that is the node the directory lists under it, or the root for itself |
| NodeTable.EnteringKeepsAgreement | public/sql-wasm-browser.js:113-144 | A new node that is hashed and assigned in its parent, to a property, to the prototype or to an inherited accessor, keeps table and maps in agreement |
| NodeTable.LeavingKeepsAgreement | public/sql-wasm-browser.js:125-127 | An entry that leaves its map and the table keeps them in agreement |
| NodeTable.ListedIff | public/sql-wasm-browser.js:113-144 | Over every history in which entries come and go: a node of the table is listed by its directory if and only if it is not called `__proto__`, and neither was an entry `read` or `write` assigned under a replaced prototype nor an entry `mode` overwritten by such an assignment |
| NodeTable.RemovedProtoHidesRead | public/sql-wasm-browser.js:144 | A history in which `__proto__` comes and goes and `read` is made afterwards: the table finds `read`, and its directory lists a `mode` that is no node instead |
| NodeTable.NodesKeepTheirParents | public/sql-wasm-browser.js:113-127 | Over every history of entries made in directories of the table and removed: no node of the table ever loses its parent, since only nodes without entries leave |
| NodeTable.FsTable.Lookup | public/sql-wasm-browser.js:122 | Through the hash table, a lookup answers the node of that name in that directory, error 44 if there is none, and error 2 for a file or a directory that may not be searched |
| NodeTable.FsTable.HashRemove | public/sql-wasm-browser.js:121 | Takes exactly this node out of the table and keeps all chains |
| NodeTable.FsTable.CreateNode | public/sql-wasm-browser.js:113-115 | The assignment of the new node in its parent, as the script engine makes it, is the only change of the maps, and the table agrees with them again |
| NodeTable.FsTable.MkNod | public/sql-wasm-browser.js:125 | The exact condition of each error: 28 for a reserved name, 20 for a name that is found, 2 for missing permissions and 63 for a file as parent, each changing nothing; otherwise one step of a history, which adds exactly one node to the table and assigns it in its parent as the script engine does |
| NodeTable.FsTable.Unlink | public/sql-wasm-browser.js:127 | The exact condition of each error: 44 for no such entry, 2 for missing permissions and 31 for a directory, each changing nothing; otherwise one step of a history, which takes the found node out of map and table |
| NodeTable.FsTable.RmDir | public/sql-wasm-browser.js:126 | The exact condition of each error: 44 for no such entry, 2 for missing permissions, 54 for a file, 10 for the root and 55 for a directory with entries or a replaced prototype, each changing nothing; otherwise one step of a history, which takes an empty directory out of map and table |
| Utf8.ScalarRoundTrip | public/sql-wasm-browser.js:103 | The decoder reads back every code point from its bytes and takes exactly those bytes |
| Utf8.DecodesToRepaired | public/sql-wasm-browser.js:103 | For every string, decoding what was encoded gives the part before the first NUL with broken surrogates forced into pairs |
| Utf8.RoundTripIffWellFormed | public/sql-wasm-browser.js:103 | The round trip is exact for the well-formed UTF-16 strings without NUL, and for no others |
| Utf8Standards.BytesAreRfc3629 | public/sql-wasm-browser.js:107-108 | For every code point: the number of bytes, the range of the lead byte and the bits carried are those of the table in section 3 of RFC 3629, so none has an overlong form |
| Utf8Standards.UnitsAreRfc2781 | public/sql-wasm-browser.js:107-108 | Code points beyond FFFF are the pairs of section 2 of RFC 2781, and the encoder reads each pair as its code point |
| Utf8Codec.LengthBytes | public/sql-wasm-browser.js:107 | The predicted count is exactly the number of bytes the encoder produces, even for broken strings |
| Utf8Codec.FitIsLongest | public/sql-wasm-browser.js:107-108 | What is written into too little room is the longest whole-character prefix that fits |
| Utf8Codec.EverythingFits | public/sql-wasm-browser.js:107-108 | With room for the predicted count the whole encoding is written |
| Utf8Codec.Write | public/sql-wasm-browser.js:107-108 | The array afterwards: the fitting characters and one NUL from the start on, and nothing else changed |
| Utf8Codec.Read | public/sql-wasm-browser.js:103 | The manual decoder returns the meaning of the bytes up to the first NUL or the limit |
| Utf8Codec.EndIsFirst | public/sql-wasm-browser.js:103 | A text ends at its first NUL, the end of the array or the limit, whichever comes first |
| Utf8Codec.WriteThenRead | public/sql-wasm-browser.js:103-108 | Writing with the predicted room and reading back returns the same string exactly when it is well formed and has no NUL |
| PathMeaning.ResolveIsNormal | public/sql-wasm-browser.js:104 | Left-to-right resolution leaves no dot, and double dots only in front of a relative path |
| PathMeaning.NormalResolvesToItself | public/sql-wasm-browser.js:104 | Resolving a resolved list changes nothing |
| PathMeaning.JoinThenSplit | public/sql-wasm-browser.js:104 | Splitting joined segments gives the segments back |
| PathMeaning.NormalizeShape | public/sql-wasm-browser.js:104 | The segments, the leading slash and the trailing slash of a normalised path |
| PathMeaning.NormalizeIsIdempotent | public/sql-wasm-browser.js:104 | Normalising a path twice is normalising it once |
| PathMeaning.NormalizeIsSingle | public/sql-wasm-browser.js:104 | A normalised path is never empty and has no two separators in a row |
| PathMeaning.PathRules | public/sql-wasm-browser.js:104 | Wherever they stand: a dot is nothing, two dots take back exactly the name in front of them, are nothing at the root and stay in front of a relative path |
| Paths.ActsLikeStep | public/sql-wasm-browser.js:104 | What one more segment in front does to a suffix summed up as pending parents and kept names, for every stack that could precede it |
| Paths.NormalizeArray | public/sql-wasm-browser.js:104 | The right-to-left in-place pass with its parent counter computes the left-to-right stack resolution of every segment list |
| Paths.NormalizePath | public/sql-wasm-browser.js:104 | The whole normaliser computes that resolution between the right slashes, and a dot for an empty relative path |
| TokenMetadata.RunIsOk | src/hooks/useSharedTokenMetadata.ts:161-299 | In every interleaving no category is both cached and failed, cached entries are ready and have a snapshot, and the in-flight map names exactly the running requests |
| TokenMetadata.OneRequestPerCategory | src/hooks/useSharedTokenMetadata.ts:258-298 | At most one request is in flight for a category |
| TokenMetadata.CachedStaysUsable | src/hooks/useSharedTokenMetadata.ts:271-287 | Once cached, a category stays cached, ready and with a snapshot, whatever fails later |
| TokenMetadata.NoEarlyRetry | src/hooks/useSharedTokenMetadata.ts:128-137 | After a recorded failure no unforced call starts a request for the category within 5000 ms |
| TokenHistory.CacheIsLastLoaded | src/hooks/useSharedTokenMetadata.ts:161-240 | In every run a category is cached exactly if a load of it has ended, with the snapshot and fetch time of the last one |
| TokenHistory.EntryTellsLastWord | src/hooks/useSharedTokenMetadata.ts:222-288 | In every run a cached entry's freshness and error are those of the last load, fresh, cached or offline by comparison with what that load met, or of a failure since |
| TokenHistory.FailureIsLastWord | src/hooks/useSharedTokenMetadata.ts:289-293 | In every run a failure on record is the last word on its category, with its error and its time |
| TokenHistory.FreshLoadMetTheCache | src/hooks/useSharedTokenMetadata.ts:205-207 | What a fresh load compares with is what was cached when its request turned to the registry |
| TokenHistory.IconLoadKeepsItsSnapshot | src/hooks/useSharedTokenMetadata.ts:161-197 | The snapshot stored after its icon is the persisted one that was found, in requests and preloads |
| TokenHistory.CallStartsIff | src/hooks/useSharedTokenMetadata.ts:242-261 | In every run a call starts a request exactly if none runs for the category and it insists, or finds nothing cached and no failure of the last 5000 ms; a forced one goes straight to the registry |
| TokenHistory.ReturningHasLoaded | src/hooks/useSharedTokenMetadata.ts:258-298 | A request fulfils its promise only after a load of its own has ended |
| TokenHistory.PreloadEndsIff | src/hooks/useSharedTokenMetadata.ts:161-200 | A preload goes on only from a snapshot to its icon, and stores exactly if it found one |
| TokenMetadata.MetadataMaps.ShouldRetryFailure | src/hooks/useSharedTokenMetadata.ts:128-137 | Drops exactly an expired failure of this category, and says whether one still stands |
| TokenMetadata.MetadataMaps.GetFailureRetryDelayMs | src/hooks/useSharedTokenMetadata.ts:139-148 | The delay is positive and ends exactly when the failure expires |
| TokenMetadata.MetadataMaps.Begin | src/hooks/useSharedTokenMetadata.ts:242-261 | Answers with the cached entry or a failure of the last 5000 ms unless it insists, else joins the running request, else starts one, and leaves the maps as the interleaved model does |
| TokenMetadata.MetadataMaps.Reject | src/hooks/useSharedTokenMetadata.ts:271-295 | The maps after a failure: a cached entry stays ready, an uncached one records the failure, and the request leaves the in-flight map |
| FusionStatus.RunIsOk | src-tauri/src/lib.rs:82-131 | In every run the map has at most 64 slots, one call at a time holds a slot, and no result is from the future |
| FusionStatus.ProbesAreApart | src-tauri/src/lib.rs:97-131 | Two probes of one slot start at least 15 seconds apart, unless the first was cancelled |
| FusionStatus.EndedProbesRest | src-tauri/src/lib.rs:82-131 | After a probe ends no probe of its slot starts for 30 seconds if it succeeded, and for 15 if it failed |
| FusionStatus.ProbeRateIsBounded | src-tauri/src/lib.rs:97-131 | In any window in which no probe of the slot is cancelled, whatever happens to other calls, at most span / 15 s + 1 probes of it start |
| FusionStatus.CancelledProbesAreNotApart | src-tauri/src/lib.rs:97-131 | A run in which a cancelled probe is followed at once by another |
| FusionStatus.KeyKeepsSlot | src-tauri/src/lib.rs:82-95 | A key keeps its slot until a full map is cleared |
| FusionStatus.KeyProbesAreApart | src-tauri/src/lib.rs:82-131 | Any two probes for one key start at least 15 seconds apart, if the first is not cancelled and the map is not cleared from the opening of the earlier call on |
| FusionStatus.EntryIsLastFinished | src-tauri/src/lib.rs:121-131 | What a slot holds is the result of the last probe of it to finish |
| FusionStatus.ServedResultsAreYoung | src-tauri/src/lib.rs:106-118 | A call is answered from the cache exactly when the last finished probe of its slot succeeded less than 30 seconds ago or failed less than 15 seconds ago, and otherwise probes |
| FusionStatus.StatusCache.CacheSlot | src-tauri/src/lib.rs:82-95 | Returns the slot of the key, makes an empty one for a new key, clears a full map only then, and never exceeds 64 |
| NetworkSettings.RunIsOk | src-tauri/src/app_transport.rs:69-149 | In every interleaving, with wallets opening, calls dropped and the runtime closing at any time, one call is past the lock at a time, and a file that a call wrote last is what it made of the servers it looked at |
| NetworkSettings.DiskAgreesWithLive | src-tauri/src/app_transport.rs:121-149 | At every moment the file of a network saved this session is what its live servers are written as, unless its last save has not taken effect as saved or an edit for another network was led astray to it |
| NetworkSettings.GentleRunsAgree | src-tauri/src/app_transport.rs:69-149 | If the runtime stays open, no lock holder is dropped and no wallet moves the network under one, then whenever the lock is free the file of every network saved this session is what its live servers are written as |
| NetworkSettings.ClosedRuntimeLosesASavedEdit | src-tauri/src/app_transport.rs:145-149 | A run in which a saved edit meets a closed runtime and is never published |
| NetworkSettings.OpenedWalletMisdirectsAnEdit | crates/optn-runtime/src/wallet_security.rs:322-325 | A run without closing or dropping in which a wallet that opens turns a saved edit to the wallet network |
| NetworkSettings.DroppedCallActsLate | crates/optn-runtime/src/lib.rs:256-263 | A run in which a dropped call has given up the lock and its edit takes effect afterwards |
| NetworkSettings.SavedNetworkIsTheOneChanged | src-tauri/src/app_transport.rs:126-149 | The network whose file a call wrote is the one its edit changes if and only if the edit names its network or the last move of the runtime since the look, if any, was to the looked-at network; no other network changes; and the result is the saved file if the looked-at servers and the file were left alone |
| NetworkSettings.ServersChangeOnlyByEdits | src-tauri/src/app_transport.rs:121-149 | Servers change only when the runtime applies an edit that was validated, and was saved or had found nothing to change in other servers than it meets |
| NetworkSettings.FilesChangeOnlyForTheTarget | src-tauri/src/network_config.rs:90-103 | A file is written only by the holder of the lock, for the network it looked at, with what its edit makes of what it saw |
| EditEffects.AppliedEditMakes | crates/optn-app/src/lib.rs:1032-1053 | An applied edit sets exactly the named field to the entry as it is kept, or to none for a blank one; defaults are no overrides; a replacement sets what it gives, drops the other routes and keeps the explorer; a refused entry changes nothing, and neither does any other network |
| EditEffects.LookDecides | src-tauri/src/app_transport.rs:126-141 | A call ends at its look exactly if an entry is refused, saves exactly if the edit sets a server or would change what is there, and otherwise sends unsaved |
| EditEffects.SavedEditMakes | src-tauri/src/app_transport.rs:126-143 | The file a call saves is written for exactly what its edit makes of the servers it looked at, and no other file changes |
| EditEffects.FileHolds | src-tauri/src/network_config.rs:117-150 | What a file keeps of each entry: the endpoint it parses to, if it does, and the explorer's origin |
| EditEffects.SaveDecides | src-tauri/src/network_config.rs:90-103 | A save goes through exactly if the write succeeds, the envelope can be made and the file there can be read back; otherwise the call ends and nothing changes |
| EditEffects.FilesAreKept | src-tauri/src/network_config.rs:87-103 | In every run a file that cannot be read back is never overwritten, and every other keeps its catalog version |
| EditEffects.QueueIsInOrder | crates/optn-runtime/src/lib.rs:256-263 | What is sent goes to the end of the queue with the action of its call, and the runtime takes from the front |
| EndpointEntries.PortIff | crates/optn-core/src/endpoint.rs:131-138 | A port is accepted exactly if it is written in decimal, with any zeros and possibly a plus sign, from 1 to 65535 |
| EndpointEntries.EncryptedAddresses | crates/optn-core/src/endpoint.rs:159-216 | Without a scheme or with wss an Electrum address is encrypted, on port 50004 unless it names one |
| EndpointEntries.PlainTextAddresses | crates/optn-core/src/endpoint.rs:159-216 | With ws it is in plain text, on port 50003 unless it names one, and accepted exactly for this machine |
| EndpointEntries.PeerAddresses | crates/optn-core/src/endpoint.rs:219-239 | A node is a host and a port, 8333 unless it names one |
| EndpointEntries.OtherSchemesAreRefused | crates/optn-core/src/endpoint.rs:196-224 | No other scheme is taken for a host |
| EndpointEntries.LoopbackIff | crates/optn-core/src/endpoint.rs:95-110 | This machine is exactly localhost in any case, two spellings of the IPv6 loopback address, and 127.a.b.c with numbers up to 255, whole |
| EndpointEntries.ExplorerIff | crates/optn-app/src/servers.rs:222-239 | An explorer is kept exactly if it is https with something that is no slash after it, without the slashes behind it |
| SavedEdits.SavedEditTakesEffectIff | src-tauri/src/app_transport.rs:135-149 | A saved edit that is neither about to be sent nor queued any more was applied if and only if the runtime was open when it was saved, its call was not dropped before sending it, and no closing came before its turn |
| ServerOverrides.AddressComesBackIff | crates/optn-core/src/endpoint.rs:139-156 | For every host and port that the parsers give: what is shown, written, bracketed when read and validated twice is the same text if and only if the host holds no colon and starts with no bracket |
| ServerOverrides.AddressIsRestoredIff | crates/optn-runtime/src/network_config.rs:182-232 | For every Electrum or peer entry the overrides can keep, whatever was typed: it is restored as it was if and only if its host holds no colon and starts with no bracket |
| ServerOverrides.Ipv6PeerGrows | crates/optn-core/src/endpoint.rs:66-156 | A peer whose host looks like an IPv6 address, typed with brackets as it must be, is kept without them and restored with the default port behind it twice |
| ServerOverrides.LocalPeerGrows | crates/optn-core/src/endpoint.rs:66-156 | The input `[::1]:8333`: kept as `::1:8333`, and restored as `::1:8333:8333:8333` |
| ServerOverrides.KeptElectrumIsEncrypted | crates/optn-app/src/servers.rs:210-214 | No kept Electrum entry ever parses as plain text again, whatever scheme was typed |
| ServerOverrides.ExplorerIsRestoredAsOrigin | src-tauri/src/network_config.rs:174-196 | An explorer that can be saved is restored as its URL's origin is written, however it was typed |
| ServerOverrides.TypedExplorerChanges | src-tauri/src/network_config.rs:174-196 | An explorer whose URL has another origin text, by capitals or a default port, is live as typed and restored without |
| ServerOverrides.SavedServersAreRestoredIff | crates/optn-runtime/src/network_config.rs:115-232 | Servers that were saved are after a restart the very servers saved if and only if each address has a host without colon and leading bracket and the explorer already is its URL's origin |
| ServerOverrides.ReadBackFails | crates/optn-runtime/src/network_config.rs:115-179 | A file with an Electrum server in plain text or a host that is none is not read back, and one that is read back gives an entry for each part it holds |
| ChainSelection.PersistedEndpointsAreConfigured | src-tauri/src/network_config.rs:117-152 | The persisted sources, however grouped, hold exactly the endpoints the settings name |
| SettingsRestore.LiveStaysKept | crates/optn-app/src/servers.rs:138-187 | In every run live servers are always entries that the parsers let through |
| SettingsRestore.RestartKeepsServersIff | src-tauri/src/network_config.rs:52-68 | At every moment of every run, a restart would bring back the live servers of a network whose save has taken effect if and only if each of its entries survives being written and read |
| SettingsRestore.Host.ApplyServers | src-tauri/src/network_config.rs:154-172 | Resets the network and places every validated entry, and fails exactly if one is refused |
| SettingsRestore.Host.Restore | src-tauri/src/network_config.rs:52-68 | All networks are restored, those whose files cannot be read back as plain servers staying as they are, or, if any file does not load or is refused, nothing changes |
| Appearance.RunIsOk | src-tauri/src/appearance.rs:64-100 | In every run of saves, failures and crashes, and on Unix power losses too, the file and everything that may survive is the last acknowledged pair or a later one |
| Appearance.RestoreFindsAWholePair | src-tauri/src/appearance.rs:39-100 | The file a restore reads is the last acknowledged pair or one whole pair of a later save, never torn and never mixed |
| Appearance.RestartShowsAWholePair | src-tauri/src/appearance.rs:39-60 | After a crash or power loss the new process shows the last acknowledged pair or one whole later one, and before any what the file held, or the defaults |
| Appearance.SaveAdvancesIff | src-tauri/src/appearance.rs:79-100 | A save goes on only while its system calls succeed and is acknowledged exactly by the last of them; one that fails changes neither the file nor what may survive |
| Appearance.ChoiceIsLive | src-tauri/src/app_transport.rs:94-116 | A choice is live as soon as its save begins, and while the process runs stays so whatever becomes of the save |
| Appearance.AcknowledgedSaveIsOnDisk | src-tauri/src/appearance.rs:87-95 | Right after an acknowledged save the file is that pair, and on Unix nothing else can survive a power loss |
| Appearance.AcknowledgedSaveCanBeLost | src-tauri/src/appearance.rs:92-93 | A run on another platform in which an acknowledged save is lost with the power |
| Appearance.AppearanceStore.Save | src-tauri/src/appearance.rs:64-100 | When a save succeeds, and what file, disk and temporary files are afterwards: a failed save leaves the old file or the whole new pair; its own temporary file is gone unless removing it failed too; one left by an earlier save stays |
| BchAmount.CoinIsExact | src/components/UTXOCard.tsx:36-43 | For every amount the text is a decimal of exactly its value over 10^8; it has a point exactly for part coins and then ends in no zero |
| BchAmount.NumberIsExact | src/components/DerivationDiscoveryResult.tsx:31-35 | For every amount the text is a decimal of exactly its value, always with a point, and the unit |
| BchAmount.TextsAreShortest | src/components/DerivationDiscoveryResult.tsx:31-35 | Neither text leads with a superfluous zero, and what stands behind a point ends in no zero but for a lone one |
| BchAmount.PrintersAreInjective | src/components/UTXOCard.tsx:36-43 | Different amounts never print alike, in either form |

## Left out

- Sockets, TLS, Tor, Electrum and peer transports, Tauri commands and the clipboard: a probe or a sync pass is a step that succeeds, fails or is cancelled.
- Cash Code scan: `authorize_cashcode_peer`, the Tor check and key handling; the scan is modelled only as a user of the accepted chain.
- Chain host: `run`'s select loop is covered by calls and cancellations at any time, not modelled as a loop; `wait_for_selection_change` compares values, so a change that reverts between two polls may be missed, and convergence is stated for undisturbed rebuilds.
- Chain host: the accepted-chain lock and the old service's lock are taken and released within one step, since nothing is awaited under them.
- Chain host: fairness and queue order of locks; progress is stated for locks that nobody holds in any mode, which every queue order grants. Probes, file reads, sync passes and the owner are assumed to answer.
- NativeChain.Meanwhile: the sequential methods let others act while the replacement is being built; the finer interleavings, a reader that stops, and what other calls do to the accepted chain are in the concurrent model only.
- ChainHost.After: whether a wallet is open with an HD account, and whether a sync decision is accepted, are choices of the environment.
- `SourceCatalog` and `ConnectionPolicy`: a selection is an identity, and `ChainSelection` is given parsed endpoints.
- ChainSelection.HostKey: trimming and lower case follow Unicode white space and ASCII letters as Rust defines them, with no other Unicode handling.
- NetworkSettings: `NetworkConfigFile` updates are assumed atomic, and no other process writes the files. The queue's capacity, and what opening a wallet does besides moving the network, are left out.
- ServerOverrides.Envelope: `Url::parse` is a parameter that gives host and port of an HTTPS origin; JSON and the size limit of the file are left out, and the sources the endpoints are grouped in are in `ChainSelection`. Overlays with more than plain servers are one kind of file.
- Appearance: JSON encoding, the size limit and read errors other than a missing file are one failed restore; the theme and skin pair is an identity.
- TokenMetadata: category normalisation, icon resolution and the fields of a registry; foreign calls are assumed to return promises, and the clock never to run backwards. `markRefreshing` changes no shared map.
- ChainHostPasses.Advances: that a pass returns no earlier a view than it was given is a condition of `ProgressNeverFalls`, since header verification is not part of this model.
- FusionStatus: the relay's transport policy and endpoint keys, and the process-wide lock around the map, which is held within one step.
- FusionStatus.StatusCache.CacheSlot: slots hold the last entry; their locks are in the interleaved model only.
- In-memory file system: symbolic links, mounts, devices, timestamps, streams and their positions, the buffer-owning write and `rename`, which nothing in this build calls. A mode is whether it grants anyone reading, writing or searching, which is all the checks ask; checks are ignored until the runtime has started.
- NodeTable.FsTable.MkNod: path walking, `dirname` and `basename` are left out; the operations take the parent node and the last component.
- Utf8Codec.Read: the `TextDecoder` fast path for more than 16 bytes is left out; it is assumed to agree with the manual decoder.
- BchAmount.CoinIsExact: the number and string branch, which uses floating point, and negative amounts are left out.
- P2P CashFusion rounds, coin selection, the planner and the React components.
