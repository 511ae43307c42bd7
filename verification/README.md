# PF Remote: verified model

This project models the parts of PF Remote that have to stay right over long and interrupted lives: device enrollment,
the two updaters, the state database, route leases, route selection, release trust and the algorithms they rest on. Each
file holds one module.

| file | models |
|---|---|
| `Enrollment.dfy` | the enrollment protocol: requests, tables, atomic changes, and what each request is answered |
| `EnrollmentHistory.dfy` | which event may follow which history, and what every lawful history therefore satisfies |
| `EnrollmentSafety.dfy` | the invariant of the tables and its proof for every change and every request |
| `EnrollmentPersistence.dfy` | the saved form of the tables, what a restart accepts and rebuilds |
| `EnrollmentManager.dfy` | the Manager class: in-place updates, saves that may fail, restore |
| `EnrollmentAnswers.dfy` | what each answer of the Manager means, field by field: what was checked, what changed, and why a request was refused |
| `EnrollmentRuns.dfy` | runs of calls, failed saves and restarts, and what they promise over their answers |
| `EnrollmentCapacity.dfy` | how many replay buckets a run can fill, and which saved states a restart therefore refuses |
| `SharedDatabase.dfy` | the Manager and the snapshots on one database; revocation up to the catalog |
| `LinuxInstaller.dfy`, `WindowsInstaller.dfy` | the two journaled upgrades under crashes at any write |
| `Snapshots.dfy`, `SnapshotStore.dfy` | snapshot validity; the relational store, its ledger, overlay and fallback loader |
| `Catalog.dfy` | the authorization-filtered list and target resolution |
| `LegacyBinding.dfy` | re-keying a legacy candidate to identity-bound Devices |
| `RouteLease.dfy`, `RouteLeaseClosing.dfy` | route leases under interleaved calls; which of them are closed after they are opened |
| `RouteSelector.dfy` | concurrent probes and selection |
| `ReleaseAuth.dfy` | signed releases and the replay checkpoint |
| `ShellBinding.dfy`, `ShellBindingFormat.dfy` | the signing encoding with canonical host keys; reading it back, and base64 host keys |
| `DesktopDisplay.dfy` | the monitor connectivity fixpoint |
| `Common.dfy`, `Identity.dfy`, `Sorting.dfy` | replay windows and string order; keys and identifiers; sorting |

## How the model stands for the program

* State that the program updates in place is a class; its methods are written step by step and proved against functions
  on values, and the invariants and run theorems are proved of those functions.
* A method is proved against small functions that its specification shares with it. What those functions come to is
  stated once more without them, in fields, numbers and texts: by the lemmas named `…Means`, `…Exactly` and the like, and in
  the contracts of the methods.
* A crash is the case in which every later file-system primitive fails. Primitives fail at any time, so what is proved of
  every disk on the `trail` of an installer holds at every crash point; run lemmas cut each call anywhere.
* A database transaction works on a copy of the tables and replaces them at its end, or changes nothing. Storage calls
  fail at any time; `faults` counts failures so that contracts can say what happens without any.
* A public key is represented by the base32 text of its digest, as Device IDs show it; digests are injective. A signature
  is represented by its signer and message: it verifies exactly under that key and message. A code stands for its hash, a
  user code for its normalised text. Random device codes are never issued twice and a new user code is not one in use
  (`EnrollmentSafety.Fresh`); nothing else is assumed of randomness.
* Clock readings are integers in nanoseconds and arbitrary, except where a statement names a clock that does not run
  backwards. Zero is the unset time. A second reading inside one call is a second parameter.
* `Core.log` and the other histories record what happened and exist only for the statements.
* `EnrollmentManager` saves into the same `SnapshotStore.Store` that snapshots live in, so revocation is proved from the
  signed request to the catalog's answer.

Where the behaviour is not what one might expect, the code is followed:

* A restart accepts a saved enrollment state exactly when it has at most 4096 replay buckets
  (`EnrollmentPersistence.RestartAcceptsExactly`). The begin of an activation is held to that limit, and every other Device
  has its bucket from its begin on, but the Owner's is opened by its first `SyncVersion` or `PublishShellCapability`, which
  do not check. So what a run has saved is refused by a restart if and only if the Owner's own bucket is saved beside 4096
  others (`EnrollmentCapacity.RestartRefusedExactly`); `OverfullRun` is a run that gets there.
* Re-keying a private route table loses an entry exactly when the table holds, beside the target of a Capability whose
  Device is renamed, the target that Capability gets (`LegacyBinding.MergesExactlyWhen`, with a concrete case in
  `MergeExample`). The program itself never supplies such a table: it builds them from the candidate's own targets
  (internal/migration/legacy_candidate.go:73-121, joined in internal/migration/legacy_overlay.go:28-47), and those never
  lose an entry (`OwnTargetsNeverMerge`).
* An acquisition that a provider hands out together with an error is closed by the measuring selector, but neither by the
  one that takes the first usable provider nor by `ReachableProvider`: there it stays open
  (`RouteSelector.LeavesNothingOpenExactly`, `LeftOpenExample`, `AcquireReachable`).
* A lease that another call removes between its insertion and its Open may be closed before it is opened. Then nobody closes
  it again, and the Broker keeps what it opened until the lease expires (`RouteLeaseClosing.ClosedAfterOpenExactly`). Both
  orders happen (`ClosedTooEarlyExample`, `ClosedInTimeExample`).
* `Upgrade` on Windows that cannot remove its record has already switched versions and still reports an error; the next
  recovery goes back to the recorded state. This is the outcome `Unrecorded`.

## Model

| member | source | states |
|---|---|---|
| `EnrollmentRuns.RunsStaySound` | internal/enrollment/manager.go:100-414 | after any calls in any order, with saves failing anywhere and restarts in between, the stored tables satisfy the invariant, and so do those in memory unless a save failed |
| `EnrollmentRuns.StepStaysSound` | internal/enrollment/persistence.go:109-218 | one call or restart keeps a world sound, never takes back a stored event, and adds clock readings or an activation only as the call and its answer say |
| `EnrollmentRuns.StoredHistoryOnlyGrows` | internal/enrollment/persistence.go:141-163 | every stored history starts with each earlier one, across failed saves and restarts |
| `EnrollmentRuns.TablesAgree` | internal/enrollment/manager.go:143-372 | in every world of every run: user codes and live activations point at each other, one activation per Device and 256 in all, no pending Device is active, the Owner is active under its key, every Shell binding verifies and belongs to an active Device |
| `EnrollmentRuns.OwnerIsOriginal` | internal/enrollment/manager.go:100-141 | Owner and Owner key never change once stored |
| `EnrollmentRuns.ActiveDevicesWereApproved` | internal/enrollment/manager.go:287-330 | in every world of every run an active Device other than the Owner has, in its history, its own begin, signed with its own key, then an Owner-signed approval of that begin's user code, then its poll, all before the begin expires ten minutes later, and no revocation since |
| `EnrollmentRuns.VersionsCount` | internal/enrollment/manager.go:361-367 | in every world of every run the directory version is 1 plus activations, revocations and changed bindings, and the grant version is 1 plus revocations |
| `EnrollmentRuns.ReplayTablesAreWindows` | internal/enrollment/manager.go:433-455 | in every world of every run replay set and queue hold the same IDs without duplicates: exactly the newest 4096 (1024 per Device) of the history |
| `EnrollmentRuns.OwnerIDRepeatsLate` | internal/enrollment/manager.go:433-441 | if two calls of a run accept one Owner request ID, at least 4096 other IDs were accepted in between, across failed saves and restarts |
| `EnrollmentRuns.DeviceIDRepeatsLate` | internal/enrollment/manager.go:443-455 | the same with 1024 for the requests of a registered Device |
| `EnrollmentRuns.AtMostTwentyWrongAnswers` | internal/enrollment/manager.go:238-253 | if the approvals of a run read a clock that never runs backwards, no half-open minute sees more than 20 INVALID_USER_CODE answers |
| `EnrollmentRuns.WrongAnswersAreCounted` | internal/enrollment/manager.go:464-474 | each such answer of a run is in the stored history, and the readings stored there only go forward |
| `EnrollmentRuns.OwnerAcceptanceIsLogged` | internal/enrollment/manager.go:416-431 | an Owner-signed request is either refused without change or recorded for good |
| `EnrollmentRuns.AnswersAreLogged` | internal/enrollment/manager.go:223-331 | each wrong-code, approval, activation and revocation answer is the last event of the history it leaves |
| `EnrollmentRuns.Perform` | internal/enrollment/manager.go:100-414 | every method of the Manager takes exactly the step that runs are made of |
| `EnrollmentRuns.Restart` | internal/enrollment/persistence.go:109-131 | so does a restart; without a storage fault it succeeds exactly for at most 4096 stored buckets |
| `EnrollmentCapacity.OnlyTheOwnerExceeds` | internal/enrollment/manager.go:186-192 | in every world of every run each registered Device but the Owner, and each Device with an activation, has a bucket, all buckets but the Owner's are at most 4096, and the limit is passed only by the Owner's own |
| `EnrollmentCapacity.RestartRefusedExactly` | internal/enrollment/persistence.go:245-251 | what any run has saved is refused by a restart if and only if the Owner's own bucket is saved beside 4096 others; the promise that what was saved can be restored fails there |
| `EnrollmentCapacity.OverfullRun` | internal/enrollment/manager.go:399-405 | a concrete run: initialization, 4096 begins under different keys, none of which gets a code, and the Owner's first synchronization; what it saves is refused |
| `EnrollmentCapacity.PlanHolds` | internal/enrollment/manager.go:492-510 | every request keeps who has a bucket: pruning only takes those of unregistered Devices without an activation |
| `SharedDatabase.StoredStateIsCurrent` | internal/enrollment/persistence.go:133-163 | at every moment of a run on a shared database at which no save has failed, the stored control state is a snapshot of memory |
| `SharedDatabase.OverlayIsRevokedSet` | internal/state/store.go:187-228 | over any run of Manager calls, restarts, commits and loads the revocation table is exactly the set of Devices revoked in the saved state |
| `SharedDatabase.ManagedKeepsRight` | internal/enrollment/persistence.go:137-163 | writing the new payload, with the status a call announces and with no other, keeps control state and revocation table right |
| `SharedDatabase.RevokedFollow` | internal/enrollment/manager.go:318-367 | the saved set of revoked Devices changes exactly as the answers announce: one leaves on activation, one joins on revocation |
| `SharedDatabase.RevokedStaysRevoked` | internal/enrollment/manager.go:333-372 | a revoked Device stays revoked in the stored history until a poll answers that it is active again |
| `SharedDatabase.RevokedDeviceIsCutOff` | internal/state/store.go:489-530 | once the Manager has answered that a Device is revoked, every snapshot loaded later in the run marks it and its grants revoked, and the catalog offers nothing on it or to it, until it is enrolled anew |
| `SharedDatabase.LoadedVersionsKeepUp` | internal/state/store.go:489-530 | once the Manager has told the versions after an activation or revocation, no snapshot loaded later in the run shows lower ones, whatever it was committed with |
| `SharedDatabase.VersionsNeverDrop` | internal/state/store.go:187-228 | over any run the stored control versions never go down |
| `SharedDatabase.IsStoreRun` | internal/state/store.go:471-487 | the same run, seen from the store, is one of the runs over which served bindings never regress: the Manager's saves leave snapshots and ledger alone |
| `SharedDatabase.Call` | internal/enrollment/manager.go:100-414 | every call of the Manager takes exactly such a step |
| `SharedDatabase.Restart` | internal/enrollment/persistence.go:109-131 | so does a restart, also one that fails |
| `SharedDatabase.Commit` | internal/state/store.go:286-418 | so does a commit |
| `SharedDatabase.Load` | internal/state/store.go:420-469 | so does a load |
| `EnrollmentRuns.PlanGrows` | internal/enrollment/manager.go:100-414 | no request takes back an event or adds one its answer does not explain, and the tables end as last saved up to an empty bucket |
| `EnrollmentAnswers.InitializeMeans` | internal/enrollment/manager.go:100-141 | an initialization succeeds only once, signed with the key whose ID the Owner has, and makes that Owner the first active Device; every refusal has its reason and changes nothing |
| `EnrollmentAnswers.BeginMeans` | internal/enrollment/manager.go:143-221 | codes are only given for a begin signed with the key the Device ID shows, over exactly this request, for a Device that is neither active nor waiting, within the limits; then exactly the new activation, its ID and the swept tables are in the state; every refusal has its reason |
| `EnrollmentAnswers.ApproveMeans` | internal/enrollment/manager.go:223-273 | an approval takes effect only under the Owner's signature over exactly this user code and turns just that activation, pending and not expired, to approved; each refusal is explained, and what it counts or drops is said |
| `EnrollmentAnswers.PollMeans` | internal/enrollment/manager.go:275-331 | a poll is answered by its activation: expired, too soon (and then slower by five seconds), still pending, or active, which enters exactly this Device with this key; nothing else changes |
| `EnrollmentAnswers.RevokeMeans` | internal/enrollment/manager.go:333-372 | a revocation takes effect only under the Owner's signature over this Device: it keeps its record as revoked, loses exactly its bindings, and both versions go up by one |
| `EnrollmentAnswers.SyncMeans` | internal/enrollment/manager.go:374-414 | versions are only told to a known Device that is not revoked, for a new request signed with its key |
| `EnrollmentAnswers.PublishMeans` | internal/enrollment/shell_capability.go:13-79 | a binding is only published for the active Device that signed both it and the request, never below the published version; only this entry changes, and the directory version only if it does |
| `EnrollmentAnswers.ListMeans` | internal/enrollment/shell_capability.go:81-112 | bindings are only listed under the Owner's signature, and nothing but the request ID changes |
| `EnrollmentAnswers.FailedMeans` | internal/enrollment/persistence.go:141-170 | a call that cannot save is answered as such and ends the service: from then on nothing changes |
| `EnrollmentAnswers.AnsweredIsSaved` | internal/enrollment/persistence.go:141-163 | what an answered call leaves in memory is saved, but for empty request histories and when the others were opened |
| `EnrollmentAnswers.RestartMeans` | internal/enrollment/persistence.go:109-131 | a restart brings back everything saved but the activations that have expired and histories out of date |
| `EnrollmentHistory.ActivationIsApproved` | internal/enrollment/manager.go:245-268 | every activation event has its begin, signed with the key of that Device, and its Owner-signed approval before it, for the same Device and key, in time |
| `EnrollmentHistory.ActivatesOnce` | internal/enrollment/manager.go:287-330 | a begin is completed at most once |
| `EnrollmentHistory.ActiveWasActivated` | internal/enrollment/manager.go:318-323 | a Device with active status was activated and not revoked since |
| `EnrollmentHistory.OwnerReplayDistance` | internal/enrollment/manager.go:433-441 | between two acceptances of one Owner request ID at least 4096 other IDs were accepted |
| `EnrollmentHistory.DeviceReplayDistance` | internal/enrollment/manager.go:443-455 | the same with 1024 for a Device, once registered or while its history is not dropped |
| `EnrollmentHistory.RegisteredIsNeverDropped` | internal/enrollment/manager.go:500-508 | the request history of a registered Device is never dropped |
| `EnrollmentHistory.RateInvariant` | internal/enrollment/manager.go:464-474 | how the counting window bounds the wrong codes of any minute at every moment |
| `EnrollmentHistory.AtMostTwentyWrongCodes` | internal/enrollment/manager.go:238-253 | with a clock that never runs backwards no half-open minute holds more than 20 wrong-code answers |
| `EnrollmentSafety.InitializePlanKeeps` | internal/enrollment/manager.go:100-141 | initialization keeps the invariant at its save and at its end |
| `EnrollmentSafety.BeginPlanKeeps` | internal/enrollment/manager.go:143-221 | so does the begin of an activation, through pruning, recording and starting |
| `EnrollmentSafety.ApprovePlanKeeps` | internal/enrollment/manager.go:223-273 | so does an approval, whatever its outcome |
| `EnrollmentSafety.PollPlanKeeps` | internal/enrollment/manager.go:275-331 | so does a poll: an activation never overwrites an active record |
| `EnrollmentSafety.RevokePlanKeeps` | internal/enrollment/manager.go:333-372 | so does a revocation, which also removes the Device's bindings |
| `EnrollmentSafety.SyncPlanKeeps` | internal/enrollment/manager.go:374-414 | so does a version synchronization |
| `EnrollmentSafety.PublishPlanKeeps` | internal/enrollment/shell_capability.go:13-79 | so does the publication of a Shell binding |
| `EnrollmentSafety.ListPlanKeeps` | internal/enrollment/shell_capability.go:81-112 | so does listing the bindings |
| `EnrollmentSafety.PruneKeeps` | internal/enrollment/manager.go:492-510 | pruning keeps the invariant: only expired activations and stale buckets of unregistered Devices go |
| `EnrollmentSafety.QueueStep` | internal/enrollment/manager.go:433-441 | recording an ID keeps queue and set equal to the newest IDs of the history |
| `EnrollmentSafety.DropExpiredThins` | internal/enrollment/manager.go:492-499 | removing expired activations removes exactly their user codes |
| `EnrollmentPersistence.SnapshotReadsBack` | internal/enrollment/persistence.go:176-340 | reading a snapshot back, in whatever order it lists the tables, rebuilds the same tables up to time stamps and empty buckets |
| `EnrollmentPersistence.RestartAcceptsExactly` | internal/enrollment/persistence.go:220-340 | the saved state of safe tables is accepted if and only if it has at most 4096 buckets |
| `EnrollmentPersistence.AcceptedIsConsistent` | internal/enrollment/persistence.go:220-340 | whatever payload a restart accepts, the tables it rebuilds are consistent: the Owner active under its key, each Device under the ID of its key, each binding signed by its Device, bounded replay queues without duplicates that equal their sets |
| `EnrollmentPersistence.ReopenedKeeps` | internal/enrollment/persistence.go:313-332 | the rebuilt tables satisfy the invariant |
| `EnrollmentPersistence.Values` | internal/enrollment/persistence.go:187-199 | a map is listed value by value, each once |
| `EnrollmentPersistence.ListsPermuted` | internal/enrollment/persistence.go:203-208 | sorting the listed bindings neither drops nor duplicates one |
| `EnrollmentManager.Manager.InitializeOwner` | internal/enrollment/manager.go:100-141 | carries out its plan, or stops for good at the save that failed with the store as before it |
| `EnrollmentManager.Manager.BeginDeviceAuthorization` | internal/enrollment/manager.go:143-221 | the same for the begin of an activation |
| `EnrollmentManager.Manager.ApproveDevice` | internal/enrollment/manager.go:223-273 | the same for an approval |
| `EnrollmentManager.Manager.PollDevice` | internal/enrollment/manager.go:275-331 | the same for a poll |
| `EnrollmentManager.Manager.RevokeDevice` | internal/enrollment/manager.go:333-372 | the same for a revocation |
| `EnrollmentManager.Manager.SyncVersion` | internal/enrollment/manager.go:374-414 | the same for a version synchronization |
| `EnrollmentManager.Manager.PublishShellCapability` | internal/enrollment/shell_capability.go:13-79 | the same for a publication |
| `EnrollmentManager.Manager.ListShellCapabilities` | internal/enrollment/shell_capability.go:81-112 | the same for the list, whose claims are the bindings of active Devices, each once, by Device and Capability |
| `EnrollmentManager.EveryBindingIsClaimed` | internal/enrollment/shell_capability.go:96-101 | in safe tables the list leaves no published binding out |
| `EnrollmentManager.Manager.VerifyOwnerAction` | internal/enrollment/manager.go:416-431 | an Owner action is recorded exactly when it passes every check |
| `EnrollmentManager.Manager.PruneExpiredState` | internal/enrollment/manager.go:492-510 | the two deleting loops remove exactly the expired activations and the stale buckets |
| `EnrollmentManager.Manager.ActivationForDevice` | internal/enrollment/manager.go:483-490 | finds an activation of the Device exactly if there is one |
| `EnrollmentManager.Manager.RemoveShellBindings` | internal/enrollment/shell_capability.go:122-128 | removes exactly the bindings of the Device |
| `EnrollmentManager.Manager.PersistenceSnapshot` | internal/enrollment/persistence.go:176-218 | lists every table completely, bindings in order |
| `EnrollmentManager.Manager.Persist` | internal/enrollment/persistence.go:141-163 | stores a snapshot and the overlay together, or fails and changes nothing stored |
| `EnrollmentManager.Manager.Restore` | internal/enrollment/persistence.go:220-340 | fills a fresh Manager exactly with what the payload says, if and only if the payload is acceptable |
| `EnrollmentManager.Manager.Open` | internal/enrollment/persistence.go:109-131 | a restart from the saved tables: their rebuilt form, pruned and saved again |
| `EnrollmentManager.RestoreTables` | internal/enrollment/persistence.go:249-339 | the restore loops accept exactly the acceptable payloads |
| `EnrollmentManager.RestoreDevices` | internal/enrollment/persistence.go:252-261 | Device records: distinct IDs that match their keys |
| `EnrollmentManager.RestoreBindings` | internal/enrollment/persistence.go:262-277 | Shell bindings: distinct and verifying for a known Device |
| `EnrollmentManager.RestoreActivations` | internal/enrollment/persistence.go:278-302 | activations and the user codes that lead to them |
| `EnrollmentManager.RestoreBuckets` | internal/enrollment/persistence.go:313-332 | replay buckets: each within its bound and without duplicates |
| `EnrollmentManager.PollStart` | internal/enrollment/manager.go:287-330 | the four ways a poll of a known code goes on, and that its status is pending or approved |
| `EnrollmentManager.RestExecutes` | internal/enrollment/manager.go:174-215 | once a first save has succeeded a request is carried out like its rest |
| `LinuxInstaller.RunsNeverMix` | internal/linuxinstaller/install.go:45-132 | over any calls and crashes a restart runs exactly the staged set of the last committed upgrade, or the initial binaries, never a mixture |
| `LinuxInstaller.LastCommittedMeans` | internal/linuxinstaller/install.go:76-132 | that set is the one staged for the upgrade after which no other committed |
| `LinuxInstaller.RecoveredMeans` | internal/linuxinstaller/install.go:45-74 | what a restart runs: the installed binaries, or, under a journal that records the three names and nothing else, name by name the backup or nothing |
| `LinuxInstaller.NothingElseStops` | internal/linuxinstaller/install.go:76-132 | exactly what an upgrade without a failing write needs: an intact journal if any, regular files, and the three staged binaries |
| `LinuxInstaller.CrashKeepsContract` | internal/linuxinstaller/install.go:76-132 | cutting a call at any disk leaves an episode that keeps the contract |
| `LinuxInstaller.Machine.Upgrade` | internal/linuxinstaller/install.go:76-132 | every disk recovers to the set before the upgrade except after the final journal removal, which is reached exactly when it reports success |
| `LinuxInstaller.Machine.Recover` | internal/linuxinstaller/install.go:45-74 | every disk keeps the recovered set; an incomplete journal stops it without touching the binaries |
| `LinuxInstaller.Machine.AtomicCopy` | internal/linuxinstaller/install.go:18-43 | the target changes in one step or not at all |
| `LinuxInstaller.Machine.Backup` | internal/linuxinstaller/install.go:84-103 | the backups equal the installed binaries before the journal names them |
| `LinuxInstaller.JournalKeeps` | internal/linuxinstaller/install.go:104-112 | writing the journal, complete or cut short, does not change the recovered set |
| `LinuxInstaller.CheckedUpgrade` | internal/linuxinstaller/install.go:76-132 | an upgrade is an episode of the runs above |
| `LinuxInstaller.CheckedRecover` | internal/linuxinstaller/install.go:45-74 | so is a recovery |
| `WindowsInstaller.RunsSettle` | internal/windowsinstaller/upgrade.go:53-146 | over any calls and crashes every disk names complete version directories and a restart settles on the result of exactly the calls that passed their switch point |
| `WindowsInstaller.KeptMeans` | internal/windowsinstaller/upgrade.go:107-146 | what it means that a restart settles on a state: the recorded state if there is one, else current.json, and no file of its manifest is missing from the current or the previous version |
| `WindowsInstaller.ReachedMeans` | internal/windowsinstaller/installer.go:135-140 | an installation makes the version that was current the previous one, a reinstallation changes neither, a rollback exchanges them |
| `WindowsInstaller.NothingElseStops` | internal/windowsinstaller/upgrade.go:63-86 | exactly what an upgrade without a failing write needs |
| `WindowsInstaller.UpgradeThenRollback` | internal/windowsinstaller/installer.go:192-209 | an upgrade to another version can be taken back: the version that ran before runs again from the same files |
| `WindowsInstaller.CrashKeepsContract` | internal/windowsinstaller/upgrade.go:53-103 | cutting a call at any disk leaves an episode that keeps the contract |
| `WindowsInstaller.Root.Upgrade` | internal/windowsinstaller/upgrade.go:53-103 | until the record is removed every disk settles on the state before; that removal happens exactly when it reports success; then the new version is current with every file of its manifest, the old one is previous with its files untouched, and without a fault only these two directories are left; each other outcome says what is left |
| `WindowsInstaller.Root.RecoverUpgrade` | internal/windowsinstaller/upgrade.go:107-120 | never changes what a restart settles on; success means the recorded state is current, activated and without a record |
| `WindowsInstaller.Root.RecoverPending` | internal/windowsinstaller/upgrade.go:122-146 | reinstates exactly the recorded state, whose program is there; an unreadable record stops it without change |
| `WindowsInstaller.Root.Install` | internal/windowsinstaller/installer.go:58-151 | refused while a record exists; otherwise every disk has the old or the new state, both naming complete directories; success leaves the new version current with all its files and the old one previous with its own untouched |
| `WindowsInstaller.Root.Rollback` | internal/windowsinstaller/installer.go:180-209 | swaps current and previous in one step, or changes nothing |
| `WindowsInstaller.Root.Prune` | internal/windowsinstaller/installer.go:153-178 | removes only directories that neither state names, though a removal may stop half way |
| `WindowsInstaller.Root.ProvideVersion` | internal/windowsinstaller/installer.go:103-133 | a version directory appears complete or not at all; an existing one must match the manifest |
| `WindowsInstaller.NextIsSound` | internal/windowsinstaller/installer.go:135-140 | the next state is the new version with the old current one as previous, or unchanged on a reinstallation, and names two complete, different versions |
| `WindowsInstaller.CheckedInstall` | internal/windowsinstaller/installer.go:58-68 | an installation is an episode of the runs above |
| `WindowsInstaller.CheckedUpgrade` | internal/windowsinstaller/upgrade.go:53-103 | so is an upgrade, which switches exactly when it reports success |
| `WindowsInstaller.CheckedRollback` | internal/windowsinstaller/installer.go:180-209 | so is a rollback |
| `WindowsInstaller.CheckedRecover` | internal/windowsinstaller/upgrade.go:107-120 | so is a recovery, which never switches |
| `Snapshots.Validate` | internal/state/snapshot.go:62-141 | the single pass with its maps decides well-formedness as stated over all entries |
| `Snapshots.ValidMeans` | internal/state/snapshot.go:62-141 | a snapshot is well formed exactly if its header is complete, every Device, Capability and grant is, they refer to one another, and IDs are not shared, with each grammar written out |
| `Snapshots.CheckDevices` | internal/state/snapshot.go:69-89 | Device IDs are distinct and match their keys |
| `Snapshots.CheckCapabilities` | internal/state/snapshot.go:90-123 | Capabilities are distinct, refer to Devices and carry verifying bindings and valid profiles |
| `Snapshots.CheckGrants` | internal/state/snapshot.go:124-139 | grants are distinct and refer to what exists |
| `SnapshotStore.Store.CommitSnapshot` | internal/state/store.go:286-418 | all or nothing: rows as the snapshot says, ledger advanced, newest five kept with the new one active, all others untouched |
| `SnapshotStore.CommitMeans` | internal/state/store.go:386-418 | after a commit the new snapshot is active, at most five are kept, only the oldest goes and only if there were five, each of the others reads as before, and the clock is the later of the two |
| `SnapshotStore.LedgerAccepts` | internal/state/store.go:346-371 | a commit is refused exactly for a binding older than the recorded one, or of the same version under another signature |
| `SnapshotStore.Store.LoadLatestValidSnapshot` | internal/state/store.go:420-469 | the first acceptable snapshot in load order, with overlay and newest bindings, and the fallback flag; without a fault everything earlier was unacceptable |
| `SnapshotStore.SkippedMeans` | internal/state/store.go:420-469 | a load returns another snapshot than the active one only if that one was refused, and with it every newer one |
| `SnapshotStore.OverlayMeans` | internal/state/store.go:489-530 | a loaded snapshot shows the higher of its own and the stored versions, and differs from what is stored only in the state of revoked Devices and of their grants |
| `SnapshotStore.StatusMeans` | internal/state/store.go:187-228 | a save leaves each stored version at the higher of the old and the new value, and changes the revocation of this Device only |
| `SnapshotStore.Store.LoadSnapshot` | internal/state/store.go:560-676 | the three joins list every row once, by ID |
| `SnapshotStore.StoredLoadsBack` | internal/state/store.go:560-676 | reading a committed snapshot gives its Devices, Capabilities and grants sorted by ID: nothing dropped, duplicated or mixed up |
| `SnapshotStore.StoredIsAdmissible` | internal/state/store.go:420-469 | whatever is read for a committed snapshot with the newest bindings passes every check of the loader |
| `SnapshotStore.CommittedIsServed` | internal/state/store.go:445-468 | a snapshot just committed is the one a faultless load returns, not a fallback |
| `SnapshotStore.CommitThenLoad` | internal/state/store.go:286-469 | commit and load together: the sorted snapshot under the overlay |
| `SnapshotStore.LedgerNeverRegresses` | internal/state/store.go:346-371 | over any run recorded versions never decrease and a version keeps its signature |
| `SnapshotStore.ServedBindingsNeverRegress` | internal/state/store.go:471-487 | over any run, with any damage to rows, a served binding is never older than one committed or served before, nor the same version under another signature |
| `SnapshotStore.OverlayKeepsValidity` | internal/state/store.go:489-530 | the overlay never makes a snapshot invalid |
| `SnapshotStore.Store.ApplyControlRevocations` | internal/state/store.go:489-530 | raises the versions and marks Devices and grants in place |
| `SnapshotStore.Store.ValidateBindingVersions` | internal/state/store.go:471-487 | accepts exactly the snapshots whose bindings are the newest recorded ones |
| `SnapshotStore.Store.SaveControlStateWithDeviceStatus` | internal/state/store.go:187-228 | control state, versions and revocation change together or not at all |
| `SnapshotStore.Store.ObserveAuthorizationTime` | internal/state/store.go:252-284 | returns and stores the highest time ever observed |
| `SnapshotStore.Store.InsertCapabilities` | internal/state/store.go:334-383 | rows for each Capability, and the ledger refuses rollback and reuse of a version |
| `SnapshotStore.NewestFive` | internal/state/store.go:409-413 | the newest five of the committed snapshots |
| `SnapshotStore.InLoadOrder` | internal/state/store.go:421-444 | the active snapshot first, then by falling ID |
| `SnapshotStore.DeviceJoin` | internal/state/store.go:576-581 | the left join gives each Device back with its own key or none |
| `SnapshotStore.CapabilityJoin` | internal/state/store.go:607-612 | the left joins give each Capability back with its own binding and profile or none |
| `Catalog.List` | internal/catalog/catalog.go:56-98 | exactly the Capabilities the subject may use, each once, with the latest end of its authorization, ordered by alias |
| `Catalog.ListedMeansOffered` | internal/catalog/catalog.go:56-98 | listed exactly if authorized, on a Device that is known and not revoked, for a subject that is known and not revoked |
| `Catalog.ListedExactly` | internal/catalog/catalog.go:56-98 | in terms of the grants: listed exactly within seven days of the capture, for the Owner's view or under an active grant that has not ended, with Device and subject there and not revoked; each entry shows its end and the whole seconds left; in the order of the aliases |
| `Catalog.RevokedIsSpelt` | internal/catalog/catalog.go:58-61 | a Device counts as revoked exactly if its state spells the word, in any case |
| `Catalog.AliasesAre` | internal/catalog/catalog.go:137-150 | an offer answers to its alias and to each with one former name in it, and to nothing else |
| `Catalog.MatchesMean` | internal/catalog/catalog.go:121-154 | a query matches by the whole reference, or by one of those names in lower case |
| `Catalog.GrantedCapabilities` | internal/catalog/catalog.go:66-82 | the map holds the latest end of a live grant per Capability, never beyond the cached snapshot |
| `Catalog.Resolve` | internal/catalog/catalog.go:121-154 | a listed offer that matches the reference or one of its current and previous aliases, exactly if there is one |
| `Catalog.RevokedIsNeverOffered` | internal/catalog/catalog.go:56-98 | under the overlay nothing is offered on or to a revoked Device |
| `LegacyBinding.Apply` | internal/migration/legacy_device_binding.go:57-142 | for a valid candidate succeeds exactly for valid, applicable bindings; the result is the renamed snapshot and is valid |
| `LegacyBinding.RekeyedMeans` | internal/migration/legacy_device_binding.go:90-131 | binding by binding: only the ID and key of a bound Device, the Device of its Capabilities with their bindings, and the subject of its grants change; everything stays in order and only Devices whose identity is taken over go |
| `LegacyBinding.ApplicableMeans` | internal/migration/legacy_device_binding.go:66-88 | bindings are applicable exactly if each names a Device and an identity in use belongs to an owner-controller that no binding names and no Capability is on |
| `LegacyBinding.NewTargetMeans` | internal/migration/legacy_device_binding.go:114-127 | which targets move, and where to |
| `LegacyBinding.EveryTableMoves` | internal/migration/legacy_device_binding.go:136-141 | in each of the private tables every entry that meets no other is found under its new target |
| `LegacyBinding.RekeyingKeepsValidity` | internal/migration/legacy_device_binding.go:90-135 | applying accepted bindings to a valid candidate always yields a valid snapshot |
| `LegacyBinding.RenamesOneToOne` | internal/migration/legacy_device_binding.go:66-113 | accepted bindings rename one to one: every Device of the result is one of the candidate's, no two meet, and only an owner-controller without Capabilities whose identity is taken over disappears |
| `LegacyBinding.ReferencesSurvive` | internal/migration/legacy_device_binding.go:114-131 | every reference to a Device still finds one under its new name, also where an unused owner-controller made room |
| `LegacyBinding.RoutesSurvive` | internal/migration/legacy_route_provider.go:80-92 | a table of the candidate's own targets keeps every entry under a target of the result |
| `LegacyBinding.OwnTargetsNeverMerge` | internal/migration/legacy_gateway_route.go:53-62 | no two own targets merge |
| `LegacyBinding.MergesExactlyWhen` | internal/migration/legacy_shell.go:45-54 | a table loses an entry if and only if it holds, beside the target of a Capability whose Device is renamed, the target that Capability gets |
| `LegacyBinding.MergedBy` | internal/migration/legacy_gateway_route.go:53-62 | two targets that meet are always the old and the new target of one moved Capability |
| `LegacyBinding.ForeignTargetMerges` | internal/migration/legacy_external.go:59-69 | a foreign key of that kind does lose an entry |
| `LegacyBinding.MergeExample` | internal/migration/legacy_external.go:59-69 | a concrete valid candidate for which that happens |
| `LegacyBinding.KeepsEveryEntry` | internal/migration/legacy_gateway_route.go:53-62 | without a merge every entry keeps its value under its new target |
| `LegacyBinding.RekeyTable` | internal/migration/legacy_gateway_route.go:53-62 | each entry is found under its new target and nothing else is, for every iteration order |
| `LegacyBinding.Collisions` | internal/migration/legacy_device_binding.go:66-88 | accepts exactly the bindings whose identities belong to nobody else or to an unused owner-controller |
| `LegacyBinding.ValidateBindings` | internal/migration/legacy_device_binding.go:144-171 | complete, matching and distinct bindings, at most 1024 |
| `LegacyBinding.BindingsMean` | internal/migration/legacy_device_binding.go:144-171 | which bindings are accepted: one to 1024, each from some legacy ID to the ID of its key, none of the two bound twice |
| `RouteLease.EveryInterleavingIsSafe` | internal/routelease/manager.go:107-189 | under every interleaving of the lock regions the tables stay within bounds, replays stay a window and every removed lease is owed or has had a Close |
| `RouteLease.Capacity` | internal/routelease/manager.go:116-120 | at most 256 leases are ever active |
| `RouteLease.AtMostOneRelease` | internal/routelease/manager.go:157-164 | at most one Release removes a lease |
| `RouteLease.ReleasedByItsSubject` | internal/routelease/manager.go:143-164 | under every interleaving a released lease was asked for, and later its release, by one subject with signatures of one key; every active lease belongs to the subject whose key signed for it |
| `RouteLease.IssueMeans` | internal/routelease/manager.go:89-126 | what one issuing step does: an entitled new request gets its lease while fewer than 256 run, and exactly the ended ones go; every other request changes nothing |
| `RouteLease.RemoveMeans` | internal/routelease/manager.go:157-169 | the second region of a Release takes the lease, whose Close this call then owes, or finds that another call took it |
| `RouteLease.NothingLeaksAtRest` | internal/routelease/manager.go:107-141 | once no call is in progress every issued lease is active, or was removed and closed after that |
| `RouteLeaseClosing.ClosedAfterOpenExactly` | internal/routelease/manager.go:120-141 | at rest a lease that was opened and is no longer active is closed after its Open if and only if it was not closed before it; closed before means another call removed it before its Open |
| `RouteLeaseClosing.RunsTrack` | internal/routelease/manager.go:107-164 | under every interleaving an opened lease has one issuing call, at most one call that owes its Close, and at most one Close |
| `RouteLeaseClosing.ClosedTooEarlyExample` | internal/routelease/manager.go:127-141 | a concrete interleaving in which a lease is closed before it is opened and never after |
| `RouteLeaseClosing.ClosedInTimeExample` | internal/routelease/manager.go:127-141 | one in which it is removed before it is opened as well, but closed after |
| `RouteLease.RequestReplayDistance` | internal/routelease/manager.go:182-189 | a request ID is only accepted again after 4096 different others |
| `RouteLease.FullTablesPruneNothing` | internal/routelease/manager.go:116-120 | a table that is still full has pruned nothing, so the capacity return loses no lease |
| `RouteLease.AdmittedLeasesAreBounded` | internal/routelease/manager.go:70-106 | a lease is admitted exactly on a verified, unexpired authorization and ends with it, or with the configured lifetime or two minutes if that is earlier |
| `RouteLease.Manager.IssueLocked` | internal/routelease/manager.go:107-126 | the first lock region of Issue |
| `RouteLease.Manager.PruneLocked` | internal/routelease/manager.go:171-180 | removes and returns exactly the expired leases |
| `RouteLease.Manager.RecordReplayLocked` | internal/routelease/manager.go:182-189 | the bounded replay queue with its set |
| `RouteSelector.AcquireBest` | internal/route/selector.go:147-244 | for every arrival order of the results the same provider wins; something is returned exactly if some provider works; of all acquisitions handed out exactly the returned one is left open; each diagnostic says how its provider fared |
| `RouteSelector.EachHandleOnce` | internal/route/selector.go:220-243 | an acquisition is closed if and only if it was handed out and is not the returned one, and once |
| `RouteSelector.WinnerBounds` | internal/route/selector.go:188-218 | the winner scores strictly below every earlier available provider and at most 20 ms above any later one |
| `RouteSelector.FastestWins` | internal/route/selector.go:188-218 | without a tracker and without failures the winner's median is strictly below that of every earlier provider and at most 20 ms above any later one |
| `RouteSelector.FastestAnswerWins` | internal/route/selector.go:147-218 | the same in terms of the providers' answers and how long they took |
| `RouteSelector.ScoreMeans` | internal/route/selector.go:313-322 | a score is the median and 250 ms for each failed sample, or an hour for no sample, and the health penalty |
| `RouteSelector.EachResultIsRemembered` | internal/route/selector.go:190-199 | each result is remembered once, as a success only if every sample of it succeeded, within the limit, and no other memory changes |
| `RouteSelector.AcquireFirst` | internal/route/selector.go:106-136 | without measuring, the first usable provider wins, later ones are not asked, and exactly the rejected candidates among those asked are closed |
| `RouteSelector.LeavesNothingOpenExactly` | internal/route/selector.go:119-130 | everything handed out is then closed or returned if and only if no provider that was asked handed out an acquisition together with an error; the promise that nothing else stays open fails otherwise |
| `RouteSelector.LeftOpenExample` | internal/route/selector.go:121-125 | a concrete provider whose acquisition is neither returned nor closed |
| `RouteSelector.RejectedAreClosedOnce` | internal/route/selector.go:126-131 | the rejected candidates are closed, each once, and the returned one is not |
| `RouteSelector.AcquireReachable` | internal/route/selector.go:51-98 | handed on only if two thirds of the dials connect, with the median of their durations; otherwise closed, once, if and only if it was handed out without an error |
| `RouteSelector.Gather` | internal/route/selector.go:161-186 | results are filed in policy order whatever order they arrive in |
| `RouteSelector.HealthTracker.Record` | internal/route/selector.go:280-292 | keeps the newest samples up to the limit |
| `RouteSelector.PenaltyIsBounded` | internal/route/selector.go:294-311 | the health penalty stays within its bounds |
| `RouteSelector.PenaltyIsShare` | internal/route/selector.go:294-311 | the penalty is the share of failed uses of 400 ms, rounded down |
| `RouteSelector.MedianDuration` | internal/route/selector.go:324-335 | the upper middle of the sorted values |
| `RouteSelector.MedianIsUnique` | internal/route/selector.go:324-335 | which does not depend on how they are sorted |
| `ReleaseAuth.NoRollback` | internal/releaseauth/store.go:85-123 | over any calls with any clocks accepted sequences never decrease and equal sequences have equal digests |
| `ReleaseAuth.NoRenewal` | internal/releaseauth/store.go:85-123 | no accepted release had expired at a time recorded by any earlier call, rejected documents included |
| `ReleaseAuth.AcceptedIsTrusted` | internal/releaseauth/store.go:85-123 | every release accepted in a run was signed by the publisher the store was set up with, is for its channel and platform, was current at the recorded clock and not below the checkpoint |
| `ReleaseAuth.VerdictMeans` | internal/releaseauth/release.go:115-151 | what each verdict says of the document: the conditions of an acceptance, and the reason of each refusal |
| `ReleaseAuth.MetadataMeans` | internal/releaseauth/release.go:186-215 | the metadata accepted, written out |
| `ReleaseAuth.SameReleaseAgain` | internal/releaseauth/store.go:85-123 | an accepted release is accepted again until it expires and leaves the checkpoint alone |
| `ReleaseAuth.RunAdvances` | internal/releaseauth/store.go:85-123 | checkpoint and observed clock never go back |
| `ReleaseAuth.CheckMetadata` | internal/releaseauth/release.go:186-212 | decides metadata validity, with artifact names distinct regardless of case |
| `ReleaseAuth.Store.Accept` | internal/releaseauth/store.go:85-123 | one transaction: verdict and new row, or no change; an accepted document was signed by the stored publisher over its very payload |
| `ShellBinding.SigningBytesInjective` | internal/shellbinding/binding.go:281-300 | equal signing bytes imply equal Fabric, Device, Capability, version and host keys, for field lengths below 2^32 |
| `ShellBinding.CanonicalIgnoresOrder` | internal/shellbinding/binding.go:195-226 | every ordering of accepted host keys has the same canonical list |
| `ShellBinding.VerifyIgnoresKeyOrder` | internal/shellbinding/binding.go:91-137 | the answer does not depend on host-key order |
| `ShellBinding.SignatureFixesBinding` | internal/shellbinding/binding.go:91-137 | one signature verifies for one content only, up to host-key order |
| `ShellBinding.CanonicalHostKeys` | internal/shellbinding/binding.go:195-226 | sorts a copy and refuses undecodable or repeated keys |
| `ShellBinding.AcceptanceIgnoresOrder` | internal/shellbinding/binding.go:195-226 | whether host keys are accepted does not depend on their order |
| `ShellBinding.SigningInput` | internal/shellbinding/binding.go:281-295 | the buffer built field by field is the length-prefixed encoding |
| `ShellBinding.VerifyBinding` | internal/shellbinding/binding.go:91-137 | the checks in order decide verification |
| `ShellBinding.Sign` | internal/shellbinding/binding.go:45-89 | what it signs verifies, for exactly the inputs it should accept |
| `ShellBindingFormat.SignedReadsBack` | internal/shellbinding/binding.go:281-300 | what is signed for a binding reads back, field by field, as that binding |
| `ShellBindingFormat.VerifiesExactly` | internal/shellbinding/binding.go:91-137 | a binding verifies exactly for the names it carries, a version from 1 to the largest signed 64-bit number and one to four different good host keys, if the Device's own key signed it with the keys in ascending order |
| `ShellBindingFormat.AcceptedKeysMean` | internal/shellbinding/binding.go:195-226 | which lists of host keys are accepted |
| `ShellBindingFormat.HostKeyDecodesExactly` | internal/shellbinding/binding.go:228-247 | a host key decodes exactly if its text is the base64 of a blob of at most 16 KiB that starts with its own algorithm and has data after it |
| `ShellBindingFormat.DecodesExactly` | internal/shellbinding/binding.go:249-257 | strict standard base64 decodes exactly the encodings of bytes, padded or not |
| `DesktopDisplay.ValidateSelection` | internal/desktopdisplay/display.go:61-113 | the fixpoint loop ends and accepts a selection exactly when the monitors form one graph connected by shared edges |
| `DesktopDisplay.AcceptedChoices` | internal/desktopdisplay/display.go:61-113 | a choice of monitors is accepted exactly for one to sixteen different IDs of this layout that, however they are split in two, touch across the split |
| `DesktopDisplay.ConnectedMeansUncut` | internal/desktopdisplay/display.go:88-111 | connection by walks along shared edges is the same as never falling apart |
| `DesktopDisplay.AdjacentMeansTouch` | internal/desktopdisplay/display.go:100-102 | two monitors share an edge exactly if one lies directly above or beside the other and some column or row meets both |
| `DesktopDisplay.OrderDoesNotMatter` | internal/desktopdisplay/display.go:61-113 | the answer does not depend on the order of the IDs |
| `DesktopDisplay.UnvisitedMeansDisconnected` | internal/desktopdisplay/display.go:93-111 | a monitor left unvisited when nothing changes proves the selection disconnected |
| `DesktopDisplay.Pass` | internal/desktopdisplay/display.go:95-106 | one pass visits more, reaching only connected monitors, or shows closure |
| `DesktopDisplay.Normalize` | internal/desktopdisplay/display.go:25-59 | defaults a missing choice and accepts exactly the normal ones |

## Left out

- HTTP client and server, local IPC, MCP stdio, command lines, Windows UI, registry, services and the X11/PipeWire tools: plumbing and foreign calls.
- Cryptography, JSON, URL, regular-expression and version parsing: represented as described above. Base64 is decoded concretely only for SSH host keys; keys and signatures are represented after decoding.
- Widths of integers: versions, directory counters and durations are unbounded; only the published checks against the largest values are kept. UnixNano overflow and time zones do not occur.
- Power loss that reorders writes, and directory fsync: each rename, write or removal happens in program order. Removing a directory tree may stop half way.
- Locks that serialise whole calls (the Manager's mutex, the installer locks): calls of one object do not overlap. Route leases are the exception and are modelled region by region.
- A Manager without a store, PrepareRecoveryState and ReplaceFromDatabase: not reachable from the runs modelled here.
- `EnrollmentManager.Manager.BeginDeviceAuthorization`: random codes are parameters assumed fresh, instead of bytes from a reader; how a user code is spelled and normalised is not modelled.
- `LinuxInstaller.Machine.AtomicCopy`: refuses a symbolic link in the stage or work directory like every other irregular node, where os.Open follows it and copies what it leads to.
- `Catalog.Resolve`: takes a parsed reference or alias text already trimmed and lower-cased; lower-casing of aliases is a parameter.
- `Catalog.List`: sort.Slice is not stable, so only the order by alias is promised, not the order of equal aliases.
- Uninstall, activity history, observation reports, power-resume monitor, update backoff, ActionGate: small members with easy claims.
- Real probing and latency: a probe's answer and duration are arbitrary values.
