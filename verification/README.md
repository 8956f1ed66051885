# hypervm-mcp: a verified model of the service's state

hypervm-mcp is a Windows service that drives Hyper-V. This project models the
state the service owns and the algorithms around it, and proves what they keep.
What the operating system, Hyper-V, the network and the clock do is a parameter
of each operation, so that every statement holds for every pattern of failures.

| file | models |
|---|---|
| `Pool.dfy`, `PoolCalls.dfy` | the SSH connection pool, as a step system over every interleaving of Get, Drop, Close and the keepalives; what it does for its callers |
| `Tunnels.dfy`, `TunnelRuns.dfy`, `TunnelRestarts.dfy` | the tunnel manager with its sockets, firewall rules and saved file; whole runs; restarts |
| `DataPath.dfy` | the connections through one tunnel, step by step |
| `Identity.dfy`, `IdentityRuns.dfy` | the service filed by VM name, as a refinement of one filed by VM identifier; what a VM keeps over whole runs |
| `HostKeys.dfy`, `Creds.dfy`, `Disk.dfy` | the two stores, and the atomic file replacement below them |
| `Install.dfy`, `InstallRuns.dfy` | staging a new binary and upgrading the service; any number of attempts |
| `Screen.dfy`, `Mouse.dfy` | console frames and the pointer |
| `CommandLine.dfy`, `Elevation.dfy` | the elevated command line, printed, parsed and split; when the elevated copy sees what its parent was given |
| `BootOrder.dfy` | boot-order tokens |
| `GuestIP.dfy` | choosing and waiting for a guest's address |
| `Wrappers.dfy`, `Text.dfy`, `Ordering.dfy` | option and result types, text, sorted lists |

State that the source changes in place is a class whose methods are proved
against functions on values; the theorems about whole runs are about those
functions. A disk, and the disk under a store, keeps a history of every state it
has been in. A crash leaves one of them, and a power loss one of them in which a
file that was not synced may be torn or empty.

## What the proofs found

- Both callers that drop a connection they found dead, a keepalive and Get itself,
  drop by name, so either can close a live connection of another Get
  (`Pool.KeepaliveDropsALiveConnection`, `Pool.KeepaliveIsOvertaken` and
  `Pool.GetDropsALiveConnection` are runs that do). `Pool.DropTakesWhatIsFiled` says
  exactly when, at the drop itself, and `Pool.NothingLiveAppears` that a live connection
  not on file when the drop was decided can only come from a Get that files in between.
- An ID that a tunnel was given can be given to another one after a restart exactly when
  no write of the file has worked since it was issued, the opening's own included
  (`TunnelRuns.UnsavedIdComesBack`). Once one has, it never comes back, whatever fails
  (`TunnelRuns.NoIdComesBack`).
- While Restore is at work the file lists only what has been reopened, so a crash then
  loses the other tunnels, exactly when some but not all have been reopened
  (`TunnelRestarts.CrashWhileRestoring`, `TunnelRestarts.CrashLosesTheRest`).
- Names stand for VMs as long as no VM is given a name under which something is already
  filed, and `rename_vm` moves what it has to. The server does not see to the first,
  since it takes requests about names no VM has (`Identity.StrangersEntryIsInherited`),
  and reports a failure of the second only as a warning. `Identity.StepRefines` is exact:
  a request keeps names standing for VMs if and only if it fits. After an unsaved rename
  the next key seen under the new name is trusted (`HostKeys.UnsavedRenameForgets`).
- Storing a new key without a passphrase clears the stored passphrase, the one case
  in which `Set` blanks a secret (`Creds.SetKeepsSecrets`).
- A failed upgrade can leave the service stopped; `Install.WhenLeftStopped` says exactly
  when. One way is a reconfiguration that fails after the new binary is in place.
- An attempt to stage a binary that leaves the target missing keeps the old image under
  a set-aside name. The next attempt sweeps that away before it has written anything, and
  if it then fails no image is left (`InstallRuns.SecondAttemptLosesAll`).
  `InstallRuns.WhenAnImageIsLeft` is exact for any number of attempts.
- The installer never syncs the new binary. A power loss may find the target torn
  exactly when the new image is in place (`Install.PowerLossTearsTheNewImage`). The
  saved files are synced, and are safe (`Disk.Disk.WriteFileAtomic`).
- The printed command line does not survive every argument list.
  `CommandLine.ArgumentsComeBack` gives the exact condition, and
  `Elevation.WhenTheCopySeesTheSame` that for the elevated copy as a whole.
- Boot-order tokens do not come back for entries that look alike:
  `BootOrder.AnyOrderComesBack` gives the exact condition, and
  `BootOrder.EmptyDrivesAreDoubled` an example. The text that offers the tokens for
  resending (internal/mcpsrv/settingstools.go:40) makes no exception.
- The histogram's 32-bit counters are right exactly when no pixel value occurs 2^31
  times (`Screen.BestIsTopUnlessOneWraps`). `CaptureScreen` cannot reach that: its frame
  comes from a .NET byte array, so it has fewer than 2^30 pixels.
- A guest that reports a horizontal but no vertical resolution has its pointer put at 0
  or at -1 (`Mouse.Place`).

## Model

| member | source | states |
|---|---|---|
| `Pool.Pool.Lookup` | internal/sshx/pool.go:61-64 | Get's first lock region is its step in the step system: what it finds decides whether it probes or dials, and the map stays |
| `Pool.Pool.Install` | internal/sshx/pool.go:79-89 | Get's second lock region is its step: it closes the fresh connection and hands out the filed one exactly when that one is alive, and files the fresh one otherwise |
| `Pool.Pool.Take` | internal/sshx/pool.go:206-210 | Drop's lock region is its step: it goes on to close whatever the name had, and the other names stay |
| `Pool.Pool.TakeAll` | internal/sshx/pool.go:219-223 | Close's lock region is its step: it goes on to close every entry, and the map is empty |
| `Pool.InvStep` | internal/sshx/pool.go:60-229 | every step of every goroutine keeps the ownership invariant: who may close what, and for which VM; that live connections are reused is `PoolCalls.LiveConnectionsAreShared` |
| `Pool.StopChannelsClosedOnce` | internal/sshx/pool.go:188-229 | in every reachable state no stop channel has been closed twice, and an entry in the map has an open one |
| `Pool.NoLiveConnectionLost` | internal/sshx/pool.go:60-90 | every dialled connection is in exactly one place, and a live one is held by a Get, in the map, or taken by a Drop or Close that has yet to close it |
| `Pool.GetReturnsTheRightVM` | internal/sshx/pool.go:60-90 | Get hands out only connections dialled for the VM it was asked for |
| `Pool.NothingLeaks` | internal/sshx/pool.go:206-229 | with all calls finished and an empty map, every connection ever dialled is dead |
| `Pool.DropTakesWhatIsFiled` | internal/sshx/pool.go:206-210 | at the drop of a connection found dead, by Get or by a keepalive: what is taken is live if and only if a live connection is on file by then, and is the one found dead if and only if that one is still in the map |
| `Pool.NothingLiveAppears` | internal/sshx/pool.go:60-90 | over every run, no live connection comes to be on file for a VM unless a Get files one |
| `Pool.KeepaliveDropsALiveConnection` | internal/sshx/pool.go:188-203 | a reachable state in which a keepalive has taken another Get's live connection, filed before the keepalive looked, and is about to close it |
| `Pool.KeepaliveIsOvertaken` | internal/sshx/pool.go:188-203 | the same with the live connection filed after the keepalive had found its own dead and still on file |
| `Pool.GetDropsALiveConnection` | internal/sshx/pool.go:64-71 | a reachable state in which a Get has taken another Get's live connection and is about to close it |
| `PoolCalls.LiveConnectionsAreShared` | internal/sshx/pool.go:60-90 | over every run in which none of the VM's connections dies and nobody calls Close, or Drop for it, whatever happens to other VMs: a connection once on file stays there, alive and open, every Get that probes it returns it, and all finished Gets for the VM have that one |
| `PoolCalls.CallsRunTheirCourse` | internal/sshx/pool.go:60-90 | in every reachable state each goroutine is where its own call can be: a Get drops only what it found dead, and ends with a connection for its own VM or with none |
| `PoolCalls.GetGoesOn` | internal/sshx/pool.go:60-90 | a Get probes what is on file, dials only if there is nothing or after a drop, returns from its second region only what is then on file, never another's connection that is dead, and is left without a connection only by a dial that failed |
| `PoolCalls.DeadAloneAreDropped` | internal/sshx/pool.go:64-71 | a Get or a keepalive goes to Drop exactly when the connection it looks at is dead (and its keepalive not stopped), for its own VM; looking changes nothing on file |
| `PoolCalls.LiveConnectionsAreWatched` | internal/sshx/pool.go:188-203 | in every reachable state a live connection on file has a keepalive watching it |
| `PoolCalls.CloseTakesAll` | internal/sshx/pool.go:219-229 | Close empties the map, and each entry it held is its own to close |
| `Tunnels.Manager.Listen` | internal/tunnel/manager.go:504-528 | all hosts are bound, in order, on one non-zero port equal to the requested one if that was not 0; or none are and the open sockets are unchanged |
| `Tunnels.Manager.Rollback` | internal/tunnel/manager.go:508-512 | closes exactly the sockets it is given |
| `Tunnels.Manager.Open` | internal/tunnel/manager.go:142-213 | each refusal in the source's order with nothing changed, and on success the new state that `TunnelRuns.WhatAnOpeningMakes` describes, with the file rewritten |
| `Tunnels.Manager.Register` | internal/tunnel/manager.go:181-212 | once listening: the next ID is spent, the rule is made unless the scope is loopback, as `TunnelRuns.WhatAnOpeningMakes` describes it, and the file is rewritten |
| `Tunnels.Manager.Persist` | internal/tunnel/manager.go:590-609 | the file holds the next ID and exactly the auto-restore tunnels in ID order, or is unchanged when it cannot be written |
| `Tunnels.Manager.Shutdown` | internal/tunnel/manager.go:301-317 | a tunnel's sockets and its own rule go, and no others |
| `Tunnels.Manager.Close` | internal/tunnel/manager.go:236-249 | an unknown ID is an error that changes nothing; otherwise that tunnel alone is shut down and the file rewritten |
| `Tunnels.Manager.CloseAll` | internal/tunnel/manager.go:251-262 | every tunnel is shut down and the file is left as it was |
| `Tunnels.Manager.Repoint` | internal/tunnel/manager.go:284-292 | exactly the tunnels of the old name get the new one, and those are the ones reported |
| `Tunnels.Manager.RenameVM` | internal/tunnel/manager.go:283-299 | repoints, and saves only if a tunnel was moved |
| `Tunnels.Manager.Restore` | internal/tunnel/manager.go:323-343 | takes up the saved next ID if it is higher and opens the saved auto-restore tunnels in order, skipping those that fail |
| `Tunnels.TunnelNamesDiffer` | internal/tunnel/manager.go:186 | different numbers give different tunnel IDs |
| `Tunnels.RuleNamesDiffer` | internal/tunnel/manager.go:195 | different tunnels give different firewall rule names |
| `Tunnels.OneMoreClosed` | internal/tunnel/manager.go:259-261 | shutting down one tunnel after others is shutting down all of them together, whatever the order |
| `Text.DecimalInjective` | internal/tunnel/manager.go:186 | different numbers print differently |
| `Text.DecimalReadsBack` | internal/tunnel/manager.go:186 | a number is printed as decimal digits that stand for it, without a leading zero |
| `Text.LessMeans` | internal/tunnel/manager.go:598 | a string comes before another exactly when it is a proper beginning of it, or has the lesser character where they first differ |
| `TunnelRuns.InvStep` | internal/tunnel/manager.go:142-343 | opening, closing, renaming, stopping, crashing and restoring keep the manager's invariant, whatever fails |
| `TunnelRuns.InvHolds` | internal/tunnel/manager.go:142-343 | in every reachable state the open sockets are exactly the registered tunnels', each with one owner, IDs are below the next one, and each tunnel listens on its scope's hosts: the loopback address alone, every interface, the tailnet's addresses or the address given; every tunnel not on loopback either has in force a rule that opens its own port on exactly the hosts it listens on, or on every address for the scope "all" alone, or carries the warning that it has none |
| `TunnelRuns.WhenOpeningSucceeds` | internal/tunnel/manager.go:142-180 | an opening succeeds if and only if the request is in range, its mode known, its addresses can be had, the guest answers over SSH if that is the mode, and every address can be bound; a refused one changes nothing |
| `TunnelRuns.WhatAnOpeningMakes` | internal/tunnel/manager.go:142-213 | the tunnel is the one asked for, with the defaults for mode and scope, on the port asked for or chosen by the system, on the addresses of its scope, with a rule for its own port and just those addresses (every address for "all", none for loopback); the other tunnels and rules are as they were |
| `TunnelRuns.OthersAreNotReopened` | internal/tunnel/manager.go:336-342 | Restore skips a saved tunnel that is not marked for restoring |
| `TunnelRuns.RenameChangesNames` | internal/tunnel/manager.go:283-299 | a rename gives the new name to the old name's tunnels and changes nothing else of any tunnel |
| `TunnelRuns.IssuesNew` | internal/tunnel/manager.go:185-190 | with the file writable, every operation registers only IDs never issued before and leaves the next one saved |
| `TunnelRuns.NoIdComesBack` | internal/tunnel/manager.go:323-343 | over every run, whatever fails, an ID that the file says has been issued never comes back once its tunnel is gone |
| `TunnelRuns.WhichIdsComeBack` | internal/tunnel/manager.go:323-343 | an issued ID can be issued again after a restart if and only if the saved next ID is not above it |
| `TunnelRuns.UnsavedIdComesBack` | internal/tunnel/manager.go:606-608 | after an opening and whatever else the same process does, the ID issued can come back after a restart if and only if neither the opening nor anything since has managed to write the file |
| `TunnelRuns.BringsBack` | internal/tunnel/manager.go:323-343 | the run that brings it back: a crash, and then openings up to that number |
| `TunnelRuns.CrashInsideAnOperation` | internal/tunnel/manager.go:192-210 | what survives a crash in Open after the firewall step, or in Close after the shutdown, and before the save is what survives the operation with a failed save, so runs of whole operations cover it |
| `TunnelRuns.RunsBegin` | internal/tunnel/manager.go:132-139 | the first process, with no file, satisfies what the theorems about runs start from |
| `TunnelRuns.ForeignStep` | internal/netfw/firewall.go:27-67 | whatever fails or crashes, an operation leaves in force, unchanged and nobody's every rule that is not a registered tunnel's and has no name that may yet be issued |
| `TunnelRuns.ForeignRulesStay` | internal/netfw/firewall.go:27-67 | the same over every run |
| `TunnelRuns.OrderlyStep` | internal/netfw/firewall.go:27-67 | with every firewall call working and no crash, the rules that are not registered tunnels' are exactly the same after an operation: none is left over either |
| `TunnelRuns.NothingLeftBehind` | internal/tunnel/manager.go:251-262 | after any orderly run CloseAll leaves no socket open and the firewall as it was before the run |
| `TunnelRestarts.SavedListMeans` | internal/tunnel/manager.go:590-601 | the saved list holds each auto-restore tunnel once, in strictly increasing ID order |
| `TunnelRestarts.FileKeepsUp` | internal/tunnel/manager.go:590-624 | after every saved operation the file says exactly what is up and which ID comes next, unless a restart could reopen nothing of a non-empty list, which leaves the old file |
| `TunnelRestarts.RestartConserves` | internal/tunnel/manager.go:319-343 | after a stop or crash exactly the tunnels whose reopening works are up, the same but for ID and creation time; so all are conserved if and only if all reopenings work |
| `TunnelRestarts.ReopensInTwo` | internal/tunnel/manager.go:336-342 | reopening a list passes through the state in which its first k are dealt with |
| `TunnelRestarts.CrashWhileRestoring` | internal/tunnel/manager.go:336-342 | in that state, for every k and every pattern of outcomes, the file lists all that was saved if and only if nothing has been reopened yet or everything has; otherwise just what has |
| `TunnelRestarts.CrashLosesTheRest` | internal/tunnel/manager.go:336-342 | a lossy crash: from the first successful reopening on, and before the last tunnel has been dealt with, the file does not list all that was saved |
| `TunnelRestarts.TunnelsConserved` | internal/tunnel/manager.go:283-343 | over any number of restarts and renames the auto-restore tunnels are conserved as a multiset, under their VMs' current names |
| `DataPath.InvStep` | internal/tunnel/manager.go:357-396 | every step of every handler, copier and shutdown keeps the data path's invariant |
| `DataPath.ActiveCountsHandlers` | internal/tunnel/manager.go:374-376 | the active count is the number of handlers between their increment and decrement, hence never negative |
| `DataPath.CountersAtRest` | internal/tunnel/manager.go:357-396 | with all handlers finished nothing is active or tracked, the total is the number of successful dials, the byte counts are the bytes written, and both ends of every connection are closed |
| `DataPath.BytesLagByPending` | internal/tunnel/manager.go:442-452 | at any moment the byte counts are at most the bytes written |
| `DataPath.SendsNeverBlock` | internal/tunnel/manager.go:382-392 | a copier about to report its end always finds room in the channel |
| `DataPath.ShutdownCutsEveryone` | internal/tunnel/manager.go:301-310 | tracked connections belong to running handlers, and shutdown closes every connection tracked when it takes the lock |
| `DataPath.OtherCopyIsCut` | internal/tunnel/manager.go:388-392 | once one direction has ended, both connections are closed before the handler waits for the other |
| `DataPath.TrackedBeforeCopying` | internal/tunnel/manager.go:357-381 | while bytes are copied both connections are tracked or already closed, so a shutdown misses none |
| `DataPath.Tracked.Track` | internal/tunnel/manager.go:463-467 | a handler's track call, for its client or its backend, is its step in the step system |
| `DataPath.Tracked.Untrack` | internal/tunnel/manager.go:469-473 | a handler's untrack call is its step in the step system |
| `DataPath.Tracked.CloseTracked` | internal/tunnel/manager.go:305-310 | the pass over the tracked set is the step system's shutdown step |
| `Identity.Server.RenameVM` | internal/mcpsrv/provisiontools.go:155-189 | the handler does what the name-keyed service does for a rename; it warns once for each store that cannot be read, or that has an entry and cannot be written, so no warning means that nothing was left behind |
| `Identity.StepRefines` | internal/mcpsrv/provisiontools.go:155-189 | any request, about a VM there is or not, keeps the name-keyed service in step with the identifier-keyed one, and is answered alike if it is about a VM there is, if and only if it gives no VM a name with something filed under it and moves what a rename has to |
| `Identity.RunRefines` | internal/mcpsrv/provisiontools.go:155-189 | over every run of fitting requests, from states in step, every request about a VM there is gets the answer filing by identifier gives |
| `Identity.NamesStandForVMs` | internal/hyperv/rename.go:22-39 | the same over every run of fitting requests from empty |
| `Identity.CarefulRunsFit` | internal/mcpsrv/provisiontools.go:155-189 | over every run in which all requests are about VMs there are and rename_vm's writes work, all requests fit, so all answers are right |
| `Identity.StrangersEntryIsInherited` | internal/svcmgr/run.go:239-260 | credentials stored for a name no VM has, which is accepted, are what the VM renamed to it then answers with |
| `Identity.CreateStaysInStep` | internal/hyperv/provision.go:122-128 | a new VM stays in step if and only if nothing is filed under its name |
| `Identity.RenameStaysInStep` | internal/mcpsrv/provisiontools.go:163-189 | a rename stays in step and reports what the specification does, if and only if each store moved the entry there was, or had none and has none under the new name, and no connection or tunnel is filed there |
| `Identity.ConnectsToTheRightVM` | internal/guest/dialer.go:83-97 | a connection handed out under a VM's name was dialled for that VM, whatever was renamed, to its reported address or one given in a call; a fresh one logged in with the credential filed for that VM, or given; that its host key was checked is `IdentityRuns.DialledAreChecked` |
| `IdentityRuns.TwoKeysMeanAReset` | internal/sshx/pool.go:92-107 | over every run of requests: two connections dialled for one VM under different host keys, whatever it was renamed to, have a forgotten key or a trust_new_key between them |
| `IdentityRuns.DialledAreChecked` | internal/sshx/hostkeys.go:64-105 | a connection dialled for a VM with a pin was presented that pin's key or told to trust another; afterwards the key presented is the pin |
| `IdentityRuns.WhatDialingDoes` | internal/sshx/pool.go:92-134 | a fresh connection is made if and only if login methods can be made of the credential, the guest is reached, its key is the pinned one, a first one or to be trusted, and it accepts the login; the key is pinned even where the login then fails, and only a made connection is pooled |
| `IdentityRuns.WhatConnectDoes` | internal/guest/dialer.go:83-97 | without a credential or an address nothing is touched; then the pooled connection answers while it is alive, and otherwise one is dialled |
| `IdentityRuns.KeyFollowsTheVM` | internal/mcpsrv/provisiontools.go:173-179 | over every run of requests a VM's pin stays under whatever name it has, until its key is forgotten or another trusted, as long as its own renames move the pin |
| `IdentityRuns.ForgottenKeyIsGone` | internal/mcpsrv/sshtools.go:162-168 | after a forgotten key, whatever else happens before the next connection attempt, that attempt takes any key |
| `IdentityRuns.LastChangeIsReadBack` | internal/svcmgr/run.go:239-277 | over every run, what is read back for a VM is what the last change of its credential made of it: nothing after a deletion, else what was there with the given fields put in |
| `IdentityRuns.LoginsAreCurrent` | internal/svcmgr/run.go:239-277 | over every run, whatever connection a VM's name answers with, pooled or fresh, its login was made from the credential stored for the VM at that time, never one since replaced or deleted, unless it took over a name with a connection pooled under it |
| `IdentityRuns.ChangesHangUp` | internal/svcmgr/run.go:239-277 | storing or deleting a credential, or forgetting a key, leaves the VM no pooled connection, and is refused only for a blank name |
| `IdentityRuns.ConnectionIsShared` | internal/sshx/pool.go:60-67 | over every run in which the VM's name, credential and key stay and its connection is alive whenever asked for, every call that has a credential and an address gets that same connection |
| `IdentityRuns.TunnelLeadsToItsVM` | internal/tunnel/manager.go:283-299 | over every run a tunnel leads to the VM it was opened for, on the port asked for, and is listed under the name the VM has, until it is closed |
| `IdentityRuns.OpenedForTheVM` | internal/tunnel/manager.go:142-213 | an opening is for the VM that has the name, and one that is refused changes nothing |
| `IdentityRuns.OthersRequest` | internal/mcpsrv/provisiontools.go:155-189 | a request about another VM, or a name no VM has, changes nothing filed for this VM |
| `IdentityRuns.WhenNamesChange` | internal/hyperv/rename.go:22-39 | a VM is created under, or renamed to, a name that is given and that no other VM has, and renamed from a name one has; otherwise the request is refused and nothing changes |
| `HostKeys.HostKeys.Check` | internal/sshx/hostkeys.go:64-105 | pins a first key, accepts the pinned one, replaces it only on request, refuses otherwise; a refusal or a match writes nothing; a crash leaves the pins before or after |
| `HostKeys.HostKeys.Forget` | internal/sshx/hostkeys.go:108-118 | this VM's pin and no other goes, or nothing changes; safe at every crash point |
| `HostKeys.HostKeys.Rename` | internal/sshx/hostkeys.go:125-140 | moves the pin and says whether there was one, or fails and changes nothing; safe at every crash point |
| `HostKeys.HostKeys.Get` | internal/sshx/hostkeys.go:143-153 | the pin on file, and none when the file cannot be read |
| `HostKeys.PinFollowsTheVM` | internal/sshx/hostkeys.go:120-140 | following a VM through renames, its pin is unchanged unless forgotten or replaced on request, whatever happens to other names |
| `HostKeys.TrustOnFirstUse` | internal/sshx/hostkeys.go:56-105 | two accepted checks of one VM with different keys have a forget or an accepted replacement between them |
| `HostKeys.OnlyTheKnownKey` | internal/sshx/hostkeys.go:56-105 | between resets a VM's first key, and no other, is accepted, under whatever name |
| `HostKeys.OneCheck` | internal/sshx/hostkeys.go:64-105 | a first key is accepted if it can be saved, a different one only on request and if it can be saved, the pinned one always; the key accepted is then the pin, and other pins stay |
| `HostKeys.UnsavedRenameForgets` | internal/sshx/hostkeys.go:120-140 | after a rename onto a name with nothing pinned, the next new key is accepted unasked if and only if the rename was not saved |
| `Disk.Disk.WriteCopy` | internal/config/config.go:191-212 | the call succeeds exactly when write, sync, close and chmod all work; the temporary file then holds the contents, synced exactly when write and sync worked and torn exactly when the write did not; no other file is touched at any moment |
| `Disk.Disk.WriteFileAtomic` | internal/config/config.go:188-215 | for every pattern of failing steps: the new contents, synced, exactly when every step works, the old ones otherwise, and at every intermediate moment one or the other with no other file changed |
| `Disk.OnlyUnsyncedTears` | internal/config/config.go:203-206 | a power loss may leave a file torn exactly when it was not synced, or was torn already |
| `Disk.Save` | internal/creds/store.go:187-203 | the table that loads back is the saved one exactly when every step works, and after a crash or a power loss at any moment it is the old or the new one |
| `Disk.LoadMeans` | internal/creds/store.go:157-180 | a missing file is an empty table, one that cannot be decoded is an error and never taken for empty, and what was written whole reads back |
| `Creds.Store.Get` | internal/creds/store.go:57-67 | the entry on file; an unreadable file is an error, not an absence |
| `Creds.Store.Set` | internal/creds/store.go:71-95 | the stored entry with the fields given put in is filed, as `Creds.GivenReplacesStored` says field by field, or nothing changes; safe at every crash point |
| `Creds.Store.Delete` | internal/creds/store.go:98-108 | this VM's entry and no other goes, or nothing changes; safe at every crash point |
| `Creds.Store.Rename` | internal/creds/store.go:116-131 | moves the entry and says whether there was one, or fails and changes nothing; safe at every crash point |
| `Creds.RenameNeverSplits` | internal/creds/store.go:110-131 | whatever a crash or a power loss at any moment of a rename leaves loads, with the entry under exactly one of the names, and the others untouched |
| `Creds.SetKeepsSecrets` | internal/creds/store.go:71-95 | what the call leaves blank stays as stored; a stored password or key is never blanked, and a stored passphrase only by a new key without one; what the call gives is in `Creds.GivenReplacesStored` |
| `Creds.GivenReplacesStored` | internal/creds/store.go:76-93 | a user name, password, port or key that is given is what is filed, whatever was stored, and one that is not is as stored; a passphrase goes with its key |
| `Creds.PasswordIsTheLastGiven` | internal/creds/store.go:71-131 | over every run the password on file under a name is the one given by the last saved Set that gave one for that VM, under whatever names it had; it is blank only if none was given since the VM last had no entry |
| `Creds.SetsCompose` | internal/creds/store.go:71-95 | any number of Sets is one Set with the merge of what they gave |
| `Creds.KeyAndPassphraseTogether` | internal/creds/store.go:71-131 | over every run a stored key and passphrase were given together in one Set for this VM, under whatever names it had since |
| `Creds.ResolveCredential` | internal/guest/dialer.go:34-64 | password, key and passphrase come all from the call or all from the store; a missing user name is an error; the port falls back to the stored one, then 22 |
| `Creds.CredentialAfterRun` | internal/guest/dialer.go:34-64 | after any run of the store, the key and passphrase a connection uses were given together |
| `Install.CandidateIsSwept` | internal/svcmgr/install.go:471-503 | every name a binary can be set aside under is one the sweep matches, and never the binary or its staged copy |
| `Install.CandidatesDiffer` | internal/svcmgr/install.go:476-480 | no two of the set-aside names are the same |
| `Install.SweptMeans` | internal/svcmgr/install.go:495-503 | the sweep matches exactly the names in the binary's directory that begin with the mark |
| `Install.SweepStaleBinaries` | internal/svcmgr/install.go:495-503 | deletes the leftovers that can be deleted and nothing else |
| `Install.RenameAside` | internal/svcmgr/install.go:476-489 | moves the binary to a name that was free, failing exactly when all hundred are taken or the rename fails; never overwrites a leftover |
| `Install.FirstFreeMeans` | internal/svcmgr/install.go:478-489 | the name taken is the first free one |
| `Install.StageBinary` | internal/svcmgr/install.go:417-468 | success leaves the new image in place; failure the old one, or, exactly when setting aside worked and both the second rename and the rollback failed, nothing, with the old one at the set-aside name; at every moment the target is what it was, the whole new image, or missing with the old one set aside; other files are untouched |
| `Install.WriteNew` | internal/svcmgr/install.go:439-442 | the copy holds the image, or is torn if the write fails, or is untouched if it cannot be opened; no other file changes at any moment |
| `Install.SweepAndWrite` | internal/svcmgr/install.go:434-443 | the copy is written beside the target, which is not touched |
| `Install.PutInPlace` | internal/svcmgr/install.go:443-467 | with the copy written: in place by one rename or the second way, and then the copy removed |
| `Install.ReplaceByAside` | internal/svcmgr/install.go:456-461 | the second way in succeeds exactly when setting aside and the second rename both work, and leaves the target missing exactly when the rollback fails too |
| `Install.SwapIn` | internal/svcmgr/install.go:458-461 | with the old binary set aside, the new one takes its place or the old one is put back |
| `Install.RemovingTheCopy` | internal/svcmgr/install.go:443 | the deferred removal of the copy never changes the outcome |
| `Install.FreeNames` | internal/svcmgr/install.go:478-489 | after the sweep a name is free exactly when it was, or its leftover could be deleted |
| `Install.Service.StopAndWait` | internal/svcmgr/install.go:550-562 | a status that cannot be read is an error; a stopped service counts as stopped; otherwise the control's outcome decides |
| `Install.Service.StartAndWait` | internal/svcmgr/install.go:536-548 | a status that cannot be read is an error; a running service is left alone; otherwise it runs what the target holds, if the start is not refused |
| `Install.Service.Upgrade` | internal/svcmgr/install.go:80-100 | for every pattern of failures, exactly what the target holds and which image runs afterwards; it succeeds exactly when every step does |
| `Install.WhenLeftStopped` | internal/svcmgr/install.go:80-100 | over a running install, the service is left stopped if and only if the stop failed after stopping it, or, once stopped, the reconfiguration failed after staging, the start could not be made, or the target was left missing; otherwise it runs the new image if and only if that was put in place |
| `Install.PowerLossTearsTheNewImage` | internal/svcmgr/install.go:440-447 | after staging over an intact install, a power loss may find the target torn if and only if the new image was put in place |
| `InstallRuns.StageAgainAndAgain` | internal/svcmgr/install.go:417-468 | any number of attempts leave exactly the files that the attempts give one after another |
| `InstallRuns.ImageAfter` | internal/svcmgr/install.go:417-468 | one attempt that acts leaves an image that would run on the disk if and only if it brings one, the target held one, one set aside could not be swept, or an earlier copy was left alone |
| `InstallRuns.WhenAnImageIsLeft` | internal/svcmgr/install.go:417-503 | over any number of attempts an image that would run is left if and only if no attempt lost the last one without a later one bringing another |
| `InstallRuns.TargetStaysReadable` | internal/svcmgr/install.go:417-468 | as long as no attempt leaves the target missing, the target itself would run throughout |
| `InstallRuns.SecondAttemptLosesAll` | internal/svcmgr/install.go:434-442 | an instance: an attempt that leaves the target missing, then one that sweeps and cannot write, leave no image |
| `InstallRuns.TargetIs` | internal/svcmgr/install.go:417-468 | what one attempt leaves at the target, from the files it leaves |
| `Screen.OrsAreSums` | internal/hyperv/screen.go:264-272 | the source's shifts and ors, on 16-bit vectors, are the sums the model uses |
| `Screen.PackingInvertsDecoding` | internal/hyperv/screen.go:264-273 | the high bits of a decoded colour are the pixel it came from |
| `Screen.PixelMeans` | internal/hyperv/screen.go:264-273 | which bits of a pixel's two bytes give red, green and blue: the low byte comes first, red has the high five bits |
| `Screen.Widen5Scales` | internal/hyperv/screen.go:248-251 | widening five bits keeps the order, maps 0 to 0 and 31 to 255, and is within 1 of exact scaling |
| `Screen.Widen6Scales` | internal/hyperv/screen.go:248-251 | the same for six bits |
| `Screen.DecodeRGB565` | internal/hyperv/screen.go:252-277 | a short frame is refused; otherwise each pixel of the image is the decoded pixel of the frame, row by row |
| `Screen.PictureGivesBackTheFrame` | internal/hyperv/screen.go:252-277 | the picture determines the frame's first width*height*2 bytes |
| `Screen.Count` | internal/hyperv/screen.go:233-237 | each counter is the number of occurrences, wrapped to 32 bits |
| `Screen.Largest` | internal/hyperv/screen.go:238-243 | the largest counter, or 0 if none is positive |
| `Screen.DominantShare` | internal/hyperv/screen.go:229-245 | 0 for a frame that is tiny or short, else the best counter's share of the pixels |
| `Screen.BestIsTopUnlessOneWraps` | internal/hyperv/screen.go:234-243 | for frames of any size the best counter is the count of the commonest pixel if and only if no pixel value occurs 2^31 times |
| `Screen.NoCounterWraps` | internal/hyperv/screen.go:234-243 | below 2^31 pixels none does |
| `Screen.OneColourWraps` | internal/hyperv/screen.go:234-243 | an instance: with 2^31 pixels of one colour the best counter is 0 |
| `Screen.PictureCounts` | internal/hyperv/screen.go:229-277 | a colour occurs in the picture as often as its pixel does in the frame |
| `Screen.SameTop` | internal/hyperv/screen.go:229-277 | the commonest colour is as common in the picture as the commonest pixel in the frame |
| `Screen.BlankVerdict` | internal/hyperv/screen.go:200 | from two pixels, while no counter wraps, which it cannot in a frame shorter than 2^31 bytes, a frame is called blank exactly when one colour covers 99.9% of the decoded picture; a smaller or short one never is |
| `Mouse.Place` | internal/hyperv/mouse.go:47-97 | a position outside the image is refused, and so is a guest without a horizontal resolution; otherwise it is placed within half a pixel of exact scaling and the clamp never acts, if there is a vertical resolution; it is on screen if and only if there is |
| `Mouse.NoHeight` | internal/hyperv/mouse.go:94-97 | without a vertical resolution the rescaled coordinate is -1 in the lower half and 0 in the upper |
| `Mouse.ScaledIsOnScreen` | internal/hyperv/mouse.go:94-97 | the rescaled coordinate is on the screen before clamping |
| `Mouse.ScaledKeepsOrder` | internal/hyperv/mouse.go:94-95 | rescaling keeps the order of coordinates |
| `Mouse.SameSizeLandsBeside` | internal/hyperv/mouse.go:94-95 | at the guest's own resolution the pointer lands where asked or one pixel before, never past |
| `Mouse.RoundIsNear` | internal/hyperv/mouse.go:94-95 | rounding, halves to even, moves a value by at most a half |
| `Mouse.TiesGoToEven` | internal/hyperv/mouse.go:94-95 | halfway between two integers, rounding takes the even one |
| `CommandLine.QuoteArgs` | internal/winsec/elevate.go:99-108 | prints the arguments, separated by single spaces and quoted where they need it |
| `CommandLine.ReplaceQuotes` | internal/winsec/elevate.go:103 | puts a backslash before every double quote and changes nothing else |
| `CommandLine.WhatIsQuoted` | internal/winsec/elevate.go:102-104 | an argument is put in quotes exactly when it has a space, a tab or a double quote |
| `CommandLine.OneArgument` | internal/winsec/elevate.go:99-108 | a printed argument is read back as itself if and only if it survives, and then reading stops exactly behind it |
| `CommandLine.NeverCatchesUp` | internal/winsec/elevate.go:99-108 | once a backslash has been lost, no later text makes up for it |
| `CommandLine.ArgumentsComeBack` | internal/winsec/elevate.go:96-108 | the child's argument list is the parent's if and only if each argument survives: it is not empty, and, if quoted, does not end in a backslash and has none before a quote except a lone one before a final quote |
| `CommandLine.PlainArgumentsComeBack` | internal/winsec/elevate.go:96-108 | argument lists without an empty one, a backslash before a quote, or a quoted one ending in a backslash come back unchanged |
| `CommandLine.SplitErrFile` | cmd/hypervm-mcp/service.go:174-182 | the loop removes the first flag that has a value after it, and returns the value |
| `CommandLine.SplitUndoesRelaunch` | cmd/hypervm-mcp/service.go:174-198 | splitting gives back the arguments and the error file that relaunch appended, if and only if, from their first flag on, the arguments are nothing but repetitions of that same pair; in particular if they have no flag |
| `CommandLine.WithoutFlag` | cmd/hypervm-mcp/service.go:174-198 | that condition holds without a flag among the arguments, and fails with one if they do not name the error file |
| `CommandLine.ElevatedCopySeesTheSame` | cmd/hypervm-mcp/service.go:156-198 | through printing, parsing and splitting, the elevated copy has the original arguments and the error file, if they survive and have no other flag |
| `Elevation.WhenTheCopySeesTheSame` | cmd/hypervm-mcp/service.go:156-198 | through printing, parsing and splitting, the elevated copy has the original arguments and error file if and only if all of them survive and the arguments have no other flag |
| `Elevation.LostWeight` | internal/winsec/elevate.go:99-108 | an argument that is not empty and does not survive costs backslashes and quotes, which nothing else on the line gives back |
| `Elevation.LineYields` | internal/winsec/elevate.go:99-108 | the backslashes and quotes of the arguments read are those of the line, however it falls into arguments |
| `Elevation.OnlyTheEmptyAreLost` | internal/winsec/elevate.go:99-108 | if all others survive, reading back leaves out the empty arguments and nothing else |
| `Elevation.SplitsInto` | cmd/hypervm-mcp/service.go:174-182 | whatever list splits into given arguments and a file has the flag and the file besides them, or is the arguments and the file is empty |
| `BootOrder.FirstColonSplits` | internal/hyperv/settings.go:436-438 | splitting at the first colon inverts printing, even when the name has colons |
| `BootOrder.TokenReadsBack` | internal/hyperv/settings.go:56-82 | a reported token reads as its source's kind and name, and an unreportable one as no kind at all |
| `BootOrder.CheckTokens` | internal/hyperv/settings.go:434-444 | finds the first token that names no class, if there is one |
| `BootOrder.SetBootOrder` | internal/hyperv/settings.go:490-527 | collects what each token in turn selects, which `BootOrder.WhatATokenSelects` describes, and refuses a class Generation 2 lacks or a token that matches nothing |
| `BootOrder.WhatATokenSelects` | internal/hyperv/settings.go:490-527 | a token, its class word in any case and between blanks, selects exactly the sources of its kind, or of these the ones whose name folds like its own if it has one, each once and in their order, from the attached devices, or for "file" from the current order; it is refused only when there are none |
| `BootOrder.SelectionsJoin` | internal/hyperv/settings.go:497-523 | a list of tokens is accepted exactly when each is, and selects what they select one after another |
| `BootOrder.FloppyTokens` | internal/hyperv/settings.go:552-558 | a floppy token is a BIOS class of its own and is refused for a Generation 2 VM |
| `BootOrder.OtherWordsAreRefused` | internal/hyperv/settings.go:434-444 | a word that is none of the five classes, in any case and between blanks, is refused for both generations |
| `BootOrder.OnlyOneFits` | internal/hyperv/settings.go:500-517 | a token picks out one source exactly when that source is there once and nothing else has its kind and a matching name |
| `BootOrder.TokensComeBack` | internal/hyperv/settings.go:490-527 | resending the tokens of a list of sources yields that list if and only if each token picks out its own source alone |
| `BootOrder.AnyOrderComesBack` | internal/hyperv/settings.go:414-420 | resending the reported tokens in any order yields that order, if and only if each reported token picks out its own source alone |
| `BootOrder.EmptyDrivesAreDoubled` | internal/hyperv/settings.go:503-506 | with two empty drives, resending the reported order lists each twice |
| `BootOrder.ReportedClass` | internal/hyperv/settings.go:552-558 | a reported token asks for its kind's BIOS class, and one of a kind the BIOS lacks is refused |
| `BootOrder.RequestedClasses` | internal/hyperv/settings.go:552-563 | the classes asked for, each where it was first named, or the first token that names none |
| `BootOrder.CompleteBiosOrder` | internal/hyperv/settings.go:551-571 | accepts exactly the lists of BIOS classes, and completes them from the current order; with nothing asked the order is unchanged |
| `BootOrder.CompletedListsAll` | internal/hyperv/settings.go:564-569 | the result is a permutation of the current order |
| `BootOrder.AllFourClasses` | internal/hyperv/settings.go:551-570 | from any order of the four BIOS classes, the BIOS is given all four, each once |
| `BootOrder.CompletedKeepsOrder` | internal/hyperv/settings.go:564-569 | requested classes come first in the order of first mention, the others after them as they stood |
| `BootOrder.RequestsCompose` | internal/hyperv/settings.go:551-571 | two requests in a row are one request that names the later one's classes first |
| `BootOrder.AskingAgainChangesNothing` | internal/hyperv/settings.go:551-571 | the same request again is a fixed point |
| `GuestIP.PickGuestIP` | internal/hyperv/guest.go:137-181 | one pass returns the declared choice, the first routable IPv4, else the first routable IPv6, else the first link-local IPv4 if allowed; and every non-blank report, in order |
| `GuestIP.Consider` | internal/hyperv/guest.go:149-170 | seeing one more address keeps the three firsts right |
| `GuestIP.LinkLocalOnlyFillsIn` | internal/hyperv/guest.go:128-136 | the choice is unique, and allowing link-local addresses never changes one that was not empty |
| `GuestIP.ChoiceMeans` | internal/hyperv/guest.go:137-181 | the chosen address is reported and can be dialled; no routable address of its family comes before it, a routable IPv4 precludes any other, and nothing is chosen only if there is nothing allowed |
| `GuestIP.ReportJoins` | internal/hyperv/guest.go:140-148 | the report of several adapters is their reports one after another |
| `GuestIP.WaitForGuestIP` | internal/hyperv/guest.go:56-110 | all polls before the last came up empty, a found address is the last poll's choice, a timeout means no further poll fits in the time given (two minutes if none is), and there are at most timeout/interval + 1 polls |

## Left out

- PowerShell, WMI and the Hyper-V cmdlets are abstract operations with given outcomes; only the loops and the arithmetic in the cited scripts are modelled. Their names are compared exactly, where Hyper-V ignores case and expands wildcards.
- The SSH handshake, key parsing, DPAPI, JSON, SHA-256 and TLS: encoding and decoding is an exact round trip, fingerprints are computed outside, and a keepalive probe tells the truth about a connection, which once dead stays dead.
- `delete_vm` is not among the runs: it leaves what is filed under the old name, so a later VM of that name would inherit it. `CloseForVM` belongs to it.
- Interleavings inside the tunnel manager's methods: they run one at a time, with Restore the first after a start. A Close during Open's firewall step, overlapping saves, a dial under the old name during a rename and a client tracked after shutdown are not excluded by the code and not claimed about. A crash inside a method is the method with its remaining steps failing, and then a crash.
- The manager's saved file is read without error; an unreadable file makes Restore do nothing.
- Identity.StepRefines: each request is one step, and the stores can always be read and written except by a rename (`HostKeys.OneCheck` and `Creds.Store.Set` say what a failed write comes to); opening a tunnel in ssh mode is a connection followed by an opening, and a tunnel to a fixed guest address is not modelled. Whether a guest at an address given in the call is the VM of that name is not known.
- Pool.NothingLeaks: says nothing of a keepalive that goes on watching a connection which was overwritten when dead; it ends at its next probe.
- HostKeys.TrustOnFirstUse: assumes that no other VM is renamed onto the name this VM has, which RenameVM refuses.
- Disk.Disk.WriteFileAtomic: a rename is atomic and survives a power loss, since the directory itself is not modelled; nor are permissions.
- Creds.Store.Set: does not model the encryption, or the sorted listing of stored VMs.
- Install.Service.Upgrade: a start that is late comes up in the end. The first install, the configuration, the event log and the reboot-time deletion of leftovers are not part of this model.
- Screen.BlankVerdict: compares exact shares, where the source compares 64-bit floats. PNG encoding, resizing by Hyper-V and the limits on the requested size are left out.
- Screen.DominantShare: takes an even number of bytes, as its only caller does.
- Mouse.Place: exact arithmetic, where the source rounds twice in 64-bit floats. Buttons and scrolling are left out.
- CommandLine.ArgumentsComeBack: parses by the rules Go's run time uses for a process's own arguments, under which two quotes in a row inside a quoted part are a literal quote that closes it; the program name in front is left out, and so is an embedded NUL, which is refused before the call.
- CommandLine.ElevatedCopySeesTheSame: install and uninstall read the flag with Go's flag package instead of splitErrFile.
- BootOrder.SetBootOrder: white space is that of the first 256 characters and case that of ASCII; names are compared under an arbitrary case folding. The classification of device types by name, and the other firmware settings, are left out.
- BootOrder.CompleteBiosOrder: the current order is one in which no class repeats.
- GuestIP.PickGuestIP: white space is that of the first 256 characters, and address parsing is a parameter. `ResolveGuestIP` is the same choice with no subnet and link-local refused.
- GuestIP.WaitForGuestIP: a pause lasts the interval or longer, by any clock that does not go back.
- MCP registration, printing, listing and reporting, the range checks and defaults of the other `set_vm_*` tools, the updater, the bridge, Tailscale and service control plumbing: each is settled by reading one function.
