# Verification of the V Rising server controller

The controller keeps a modded dedicated server running: it swaps managed mod files under a journal, promotes a new mod
generation once the server is ready, rolls it back otherwise, and recovers from a crash at any point. This project
models that protocol and the algorithms around it, and proves what they promise. `dafny verify dfyconfig.toml` verifies
all of it.

## How the model is built

**The protocol (`Records` to `OutsideEdits`).** `Machine` is a transition system over the durable facts: live files,
artifact files (quarantine and tombstone), `state.json`, the package lock, the generation directories, and which part of
the controller is at work. Contents are identified with their hashes. Each event is one durable operation, so that a
crash (`Crash`) can fall between any two. `Enabled` says what the code checks before the operation; `Undisturbed` adds
that no one else writes managed files. The `Ledger` (records, directories, lock, journal, artifacts) holds in every run,
outside writers included; `Inv` adds what live files look like when there are none. A `world` is the set of unmanaged
live files, which nothing may touch. `BepInEx/config/BepInEx.cfg` is the exception on both sides: the running game
rewrites it, and the journal covers it by rules of its own, and `Configuration` follows it over whole runs.

**The code (`Disk` to `Application`).** `Disks.Disk` is the file system and `state.json` as the methods of the source
use them: every operation may fail, may fail after it took effect, may tear (power is lost with both names of a moved
file durable), and others may write live files around it, for as long as `faults` and `edits` last. A ghost log records
the events; `Valid()` says that the present state is the end of a run of `Machine`. The methods of `Store`,
`ModManager`, `Supervisor` and `Application` run on it. Their contracts say what they leave in every case (a fault is a
place to stop, so they also cover crashes), and, with no fault and no outside write, exactly when they succeed.

**The algorithms.** Package resolution and canonical order, the package lock and its digest, the VDF parser, the log
follower, the readiness watch and the monitor that runs it on followers, the configuration edit, and the layout of
package archives are loops and classes proved against specification functions, about which the round trips, exactness
and uniqueness results are proved.

`Limits` states where the protocol depends on its callers or on the disk: applying an identifier again that Previous or
Failed still names would leave a promotion that cannot be cleaned up; an interrupted rollback leaves everything durable
that `CommitPromotion` checks; a configuration backup that a rollback kept can make a later interrupted Apply of the
same generation unrecoverable; and Discard would reach a referenced generation through an identifier of several
components. The identifiers `Stage` makes and the order of calls in `Application.Run` avoid these four. Two more they
cannot avoid: a move whose both names a loss of power left durable, which recovery accepts only for an original with no
tombstone about; and an operator's edit of a managed file, which a failing Apply puts back where it was, and which
recovery refuses unless it is the original or what was to be installed. The lemmas say exactly when each occurs.

## Model

| member | source | states |
|---|---|---|
| Runs.WholeRunAtomicity | mods.go:122-345 | Whatever was applied, interrupted, recovered and promoted, with crashes anywhere: when recovery is done, the live files, the package lock and the Active record are those of one generation, the last whose promotion intent became durable, and unmanaged files are untouched |
| Runs.WithoutIntentNothingChanges | state.go:235-275 | With no durable intent in between, a finished recovery restores the live files and the lock, and leaves the whole Active and Previous records as they were |
| Runs.NoIntentNoSwitch | mods.go:487-500 | Without an intent no step writes the Active or the Previous record, outside writers or not |
| Runs.RunRefines | mods.go:409-416 | The protocol refines one cell that only a durable intent writes, whatever outside writers do |
| Runs.StepRefines | mods.go:409-416 | No step but the intent changes the generation the durable state stands for |
| Runs.RunPreserves | state.go:235-275 | The invariant of records, directories, journal, artifacts and live files holds at every state of every undisturbed run |
| Runs.FreshSatisfiesInvariant | state.go:190-205 | A fresh installation with arbitrary unmanaged files satisfies the invariant |
| Runs.OriginalsConserved | state.go:339-421 | Until an intent is durable, every journaled original is at its live path or in quarantine, at every state of every run |
| Runs.NoRollbackAfterIntent | state.go:240-242 | Once the intent is durable, no rollback step is possible, with or without outside writers |
| Runs.GenerationSafety | mods.go:559-611 | In every reachable state each generation that the Active, Previous, Candidate or Failed record names has its consistent directory, no cleanup is pending without an intent, and neither cleanup nor Discard can remove it |
| Runs.ReadyMeansPromoted | process.go:366-398 | Ready is durable only while no candidate, transaction or intent is pending: a launched candidate was promoted before |
| Runs.ServerStaysRecorded | process.go:297-306 | From a save of the runtime state on, until a server is started again, a server that runs is the recorded one, whatever else happens |
| Preservation.StepPreserves | mods.go:122-345 | Every single undisturbed step, crashes included, keeps the invariant |
| Preservation.CrashFaithful | state.go:277-422 | A crash in the middle of Apply or while serving leaves live files and artifacts that recovery accepts |
| Ledgers.StepKeepsLedger | state.go:514-601 | Every step, outside writes and crashes included, keeps records, directories, lock, journal and artifacts consistent |
| Ledgers.RunKeepsLedger | mods.go:451-544 | The same over every run |
| Convergence.StepDecreases | mods.go:465-543 | Every recovery or promotion step that changes anything decreases the measure over artifacts, switch, cleanup list and intent |
| Convergence.RecoveryTerminates | mods.go:465-543 | No recovery is longer than the measure of the crash state it starts from |
| Convergence.NextRecoveryEnabled | mods.go:451-544 | Recovery is never stuck: in every crash state the next operation in the order of the code is possible and makes progress |
| Convergence.RecoveryCompletes | state.go:235-275 | From every crash state the order of the code reaches idle |
| Convergence.RecoveryConfluent | mods.go:451-544 | Every way of finishing a recovery ends in the same records, live files and lock, with the cleanup list removed |
| Convergence.PromotionDestination | mods.go:487-543 | Where every promotion with a durable intent ends: the candidate is Active, the old Active is Previous, Failed is empty, nothing is pending |
| Convergence.RollbackDestination | state.go:262-274 | Where every rollback ends: Active and Previous are untouched and the candidate is the failure record |
| Convergence.StepKeepsDestination | mods.go:465-543 | No recovery step changes the destination, even with outside writers |
| OutsideEdits.OutsideEditsNeverLost | mods.go:1118-1150 | Bytes that no journal names, written by anyone at any time, are still on disk after any further steps of the controller |
| OutsideEdits.StepIsCareful | state.go:475-512 | No step of Apply, recovery, commit or cleanup removes content other than journaled original, tombstoned or kept configuration content |
| OutsideEdits.RemovalIsCareful | mods.go:568-581 | Removal of a generation directory takes no artifact but configuration originals that earlier recoveries kept |
| Configuration.ConfigurationKept | state.go:424-473 | Over every undisturbed run from rest to rest the configuration is never lost: it is live again, and it is the one of the start, one the game wrote, or an edit that a journal was to install; without rewrites and edits it is the one of the start |
| Configuration.StepCarries | state.go:424-473 | No single undisturbed step, crashes and torn moves included, loses the configuration between the live path and quarantine or puts other content there |
| EntryRecovery.RefusesExactly | state.go:277-422 | Recovery of an entry refuses exactly the combinations of live, quarantine and tombstone outside the listed ones, and stops exactly at the original |
| EntryRecovery.MoveApproachesOriginal | state.go:339-421 | Each of its operations leaves a recoverable combination that is closer to the original |
| EntryRecovery.RestartableRecovery | state.go:277-422 | Interrupted anywhere and restarted any number of times, it needs at most three operations in all and a completed restart ends at the original |
| EntryRecovery.Recover | state.go:277-422 | Uninterrupted, it ends at the original from every recoverable combination and changes nothing otherwise |
| EntryRecovery.ApplyLeavesRecoverable | mods.go:272-321 | Whatever the swap of one entry can leave, torn moves included, is recoverable, also where original and installed content agree |
| EntryRecovery.OriginalConserved | state.go:339-421 | Every recoverable combination of an existing file has the original live or in quarantine |
| EntryRecovery.ConfigRefusesExactly | state.go:424-473 | Configuration recovery refuses exactly a backup that is not the journaled original beside no rewritten file, and is done after one operation |
| EntryRecovery.RewrittenConfigKept | state.go:424-473 | A rewritten live configuration is left alone together with the quarantined original |
| EntryRecovery.ConfigOutcome | state.go:424-473 | The configuration that recovery leaves is the live one if there is one and the original otherwise; a backup is dropped only beside the edited file, and then it was the original |
| Journal.AcceptedJournalIsSeparated | state.go:514-601 | An accepted journal has pairwise distinct live, quarantine and tombstone paths |
| Journal.ArtifactNamesInjective | state.go:608-611 | Artifact names are injective in the index at any width, and no quarantine name is a tombstone name |
| Journal.PaddedInjective | state.go:608-611 | Zero padding to four digits loses nothing |
| Journal.PaddedMeans | state.go:608-611 | An index is written with at least four digits, and no more zeros in front than that takes |
| Journal.ArtifactBelowGeneration | state.go:608-611 | An artifact lies below a generation directory exactly when it belongs to that generation |
| Journal.LivePathOutsideState | state.go:544-547 | An accepted live path is neither the state directory nor an artifact below it |
| Prelude.RelativePathMeans | state.go:974-987 | A relative path is accepted exactly if nothing between its slashes is empty, one dot or two |
| Prelude.NameMeans | state.go:514-545 | A generation identifier is such a path without a slash |
| Records.ManagedPathMeans | mods.go:1578-1660 | The managed paths are three files of the loader and everything below four directories |
| Validation.ValidateTransactionState | state.go:514-601 | Acceptance is exactly the declarative validity of the journal |
| Validation.ValidateEntry | state.go:539-584 | One entry is accepted exactly when it is valid and its live path is new; both path sets grow by it |
| Validation.ValidateEntries | state.go:585-600 | The loop accepts exactly the valid journals with distinct live paths |
| Validation.RejectCollisions | state.go:595-599 | The final collision pass can never fail |
| Invariant.WithViewFrame | state.go:277-422 | Work on one entry leaves the places of every other entry alone, so that recoveries of different entries do not interfere |
| Invariant.EntriesCommute | state.go:250-257 | Work on the places of two entries of a separated journal gives the same in either order |
| Disks.Disk.constructor | state.go:104-122 | A disk starts in any state of the ledger |
| Disks.HistoryIsRun | state.go:104-122 | The history of a disk is a run of the protocol, undisturbed if no one else wrote |
| Disks.Disk.Environment | mods.go:1118-1150 | Between operations others may write live files, or the running game its configuration, and nothing else; the last edit is remembered with the files before and after it |
| Disks.Disk.Load | state.go:190-205 | Loading gives the durable state or fails |
| Disks.Disk.InspectLive | mods.go:987-1032 | An inspection gives the live content or fails |
| Disks.Disk.MoveAside | mods.go:1152-1183 | A move without replacement to quarantine or tombstone: done, not done, or, for an original with no tombstone, torn; it succeeds only from a present file to a free place |
| Disks.Disk.MoveBack | mods.go:1152-1183 | The same from quarantine back to the live path, torn only if there is no tombstone |
| Disks.Disk.Publish | mods.go:1034-1068 | A new file appears only at a free live path, completely or not at all |
| Disks.Disk.RemoveArtifact | state.go:475-512 | An artifact is unlinked only while it has the expected content |
| Disks.Disk.SaveState | state.go:207-215 | The state is replaced at once or not at all, and a reported failure may still have been durable |
| Disks.Disk.SaveLock | state.go:228-233 | The same for the package lock |
| Disks.Disk.RemoveTree | mods.go:568-581 | A generation directory goes with everything below it, or stays |
| Stores.RecoverQuarantinedJournalEntry | state.go:277-422 | With no fault and no outside write it succeeds exactly on recoverable combinations and refuses others untouched; only this entry's places change; a success leaves both artifact places empty |
| Stores.RecoverNew | state.go:298-337 | The branch of a file that did not exist before |
| Stores.RecoverRestored | state.go:339-349 | The branch of an original that is back or was never displaced |
| Stores.RecoverDisplaced | state.go:351-421 | The branch of an original in quarantine |
| Stores.RecoverConfigJournalEntry | state.go:424-473 | It does what the configuration rule says, exactly when the combination is recoverable, and touches nothing else |
| Stores.TransactionArtifacts | state.go:659-693 | Success means that every artifact of the journal has its journaled content, and returns what is there; nothing is changed |
| Stores.RecoverEntries | state.go:250-257 | The loop over the managed entries succeeds exactly when all are recoverable, and leaves each at its original |
| Stores.RecoverInterruptedTransaction | state.go:235-275 | A durable intent blocks it; otherwise it succeeds exactly when every entry is recoverable, and then the originals are live, the candidate is the failure record and nothing else changed |
| Applies.UnionManagedPaths | mods.go:1231-1245 | The ascending list, without repeats, of the paths of either inventory |
| Applies.BuildEntries | mods.go:207-226 | The entries of the journal, one per path, with the contents of both inventories |
| Applies.BuiltJournalAccepted | mods.go:207-254 | The journal built from two valid inventories and the configuration always passes validation, and is their difference |
| Applies.ManagedPathOutsideState | mods.go:1655-1660 | No managed path is below the reserved state directory |
| Applies.QuarantineManagedFile | mods.go:1118-1150 | The current file is moved aside and compared only then; on success the expected content is in quarantine and no longer live; on failure, unless something fails or an outside edit comes meanwhile, what was live is live again and not in quarantine; only this entry's places change |
| Applies.CheckDisplaced | mods.go:1131-1147 | What was moved aside is kept only if it is the expected content; otherwise it is moved back: if its place is free, then unless something fails or an outside edit comes it is live again and quarantine and tombstone are empty |
| Applies.ApplyEntry | mods.go:272-321 | One path of the swap: on success the old content is in quarantine and the staged content, or nothing, is live. An outside edit of a managed file stays where it was put, and if it makes the swap fail only the original, or nothing, is in quarantine |
| Applies.ApplyConfig | mods.go:322-338 | The same for the edited configuration |
| Applies.ApplyEntries | mods.go:272-321 | The swap of all managed files; a failure needs a fault or an outside write. Where the only outside edit put something else than the file that belonged there, it is still live at the end, and a failure leaves nothing foreign in quarantine |
| Applies.InspectInventory | mods.go:167-190 | Success means that every path is as the prior inventory says, before anything is written |
| Applies.PrepareConsoleConfig | mods.go:963-977 | The edit of the current configuration, or of the staged template if there is none |
| Applies.Apply | mods.go:122-345 | A pending promotion is rolled forward first; a success leaves the journal applied and exactly the managed files and the configuration swapped; a failure leaves nothing written or the journal in force; otherwise undisturbed, it succeeds exactly when the staged value is the persisted one, no transaction is in force and every path is as the active inventory says. With no fault and one outside edit, whenever it comes, every managed path at which it put something else than the active file still holds it, and a failing call leaves only originals in quarantine |
| Promotions.OpenAndValidateStaged | mods.go:827-877 | Success means that manifest, lock and record of the directory are the staged ones |
| Promotions.RuntimeFilesMean | mods.go:1662-1690 | A complete runtime has the three loader files, the five plugins, and something below dotnet and below BepInEx/core |
| Promotions.CommitTransactionArtifacts | state.go:695-712 | All artifacts of the transaction are inspected, then exactly those are removed |
| Promotions.SwitchCandidate | mods.go:471-502 | Lock, then artifacts, then the switch of the records: Active, Previous, Failed, cleanup list |
| Promotions.CleanUp | mods.go:521-536 | Exactly the generations of the cleanup list are removed, each before its name; a failure needs a fault |
| Promotions.ReconcilePromotion | mods.go:451-544 | It never touches live files, keeps the destination wherever it stops, and with no fault succeeds exactly when the artifacts are the journaled ones |
| Promotions.CommitPromotion | mods.go:381-421 | Not committed means nothing was written; committed means everything is at the destination; in between the destination is already fixed; with no fault it commits exactly when the checks hold |
| Promotions.CommittedPromotion | mods.go:487-543 | What a committed promotion leaves, field by field: Active, Previous, Failed, lock, and the surviving directories |
| Promotions.RecoverPromotion | mods.go:423-449 | The startup half rolls a durable intent forward, and does nothing without one |
| Promotions.Rollback | mods.go:347-374 | A durable intent is rolled forward, otherwise the transaction is undone; with no fault and no outside write it succeeds exactly when all entries are recoverable |
| Promotions.IntentIsSound | mods.go:465-506 | What reconciliation checks of a durable intent always holds: its generation, its lock, and an applied candidate or the switched Active |
| Promotions.CleanupIsUnreferenced | mods.go:525-528 | The cleanup list never names a referenced generation after the switch |
| Staging.Stage | mods.go:613-825 | A success leaves one new consistent directory, with the given files, lock and template and their manifest, that no record or artifact names; with no fault it succeeds exactly for a valid lock, valid files and a new identifier |
| Staging.Discard | mods.go:583-611 | A generation that a record names is never removed; otherwise exactly this directory is |
| CalmDisks.CalmIsRecoverable | state.go:235-275 | Whatever an undisturbed run leaves, the artifacts are the journaled ones and every entry is recoverable |
| CalmDisks.IdleDiskIsInstalled | state.go:235-275 | When an undisturbed disk is idle, live files, lock and Active record are those of the last intended generation |
| Supervisors.SaveRuntimeState | process.go:298-307 | A save by the supervisor changes runtime fields and Steam build only, so that no update of records is lost |
| Supervisors.CommitReady | run.go:634-642 | OnReady succeeds only if the candidate was promoted, and exactly if it can be when nothing fails |
| Supervisors.BecomeReady | process.go:345-398 | Ready becomes durable only after OnReady succeeded and both processes are alive again, and with it the Steam build of the request as the known good one; what the starting save recorded of the server stays. Otherwise neither is saved, unless only the report of that save failed |
| Supervisors.EventLoop | process.go:330-425 | Records change only by the promotion; the server is ready exactly when readiness comes before anything that ends the wait, whatever others write to live files meanwhile, and exactly then the Steam build of the request is the known good one; the run fails unless the first ending event is a clean exit of Wine, whose status it returns |
| Supervisors.EndLoop | process.go:334-425 | The branches that end the loop: a clean end exactly for an exit or termination of Wine without errors, where death by the signal itself counts as status 0 |
| Supervisors.AwaitReady | process.go:332-407 | Before readiness only another signal keeps waiting; readiness comes exactly from the ready branch |
| Supervisors.FirstEndDecides | process.go:330-425 | The first ending event alone decides whether the run ended cleanly and with which status |
| Supervisors.CloseRuntime | process.go:199-209 | The deferred save loads the latest state and clears Ready, and keeps server, generation and builds; a failure needs a fault |
| Supervisors.Supervise | process.go:138-426 | Every return behind the starting save whose last save succeeds leaves Ready false and the game stopped; from that save on the durable runtime names the server that was started, the generation and the build; readiness implies a committed promotion and the build of the request as the known good one, which is untouched otherwise; no success without a clean end |
| Application.StartupRecovery | run.go:186-202 | A durable intent is rolled forward, otherwise the transaction is rolled back; on success nothing is pending and records, lock and generation directories are at the destination, which is a function of the state before |
| Application.RecoverAndFence | run.go:186-212 | The start of a lifetime: on success nothing is pending, no server runs, records, lock and directories are at the destination of the state before, and the state handed on is the durable one; undisturbed, with no fault, it succeeds exactly when the recorded server is known to be gone; while it runs nothing passes |
| Application.FencePriorProcess | run.go:318-353 | Success means that no server runs, which the inspection shows, that Ready is false and no server is recorded, and the returned state is the durable one. A recorded server that is found alive or cannot be inspected is refused and nothing changes; with no fault it succeeds exactly when there is no recorded server and no Ready, or the recorded process is gone or its number belongs to one started at another time |
| Application.FencedMeans | run.go:318-353 | When the fence passes, in process numbers and start times |
| Application.RunningIsNotFenced | run.go:335-337 | It never passes for a recorded server that runs, whatever the inspection is said to show |
| Application.LoadActive | run.go:387-400 | With no fault it succeeds exactly when the active record, the valid durable lock and the directory agree, and returns them |
| Application.VerifyInstalled | mods.go:103-120 | Undisturbed, it succeeds exactly when every managed file is live with its content |
| Application.RecordFallback | run.go:564-594 | It saves the state that was loaded when the lifetime started, with a degraded runtime record, whose fields are given: that snapshot is shown to be the durable state still, so that the save loses nothing. Undisturbed, it succeeds exactly when the active generation is installed exactly and the installed Steam build is the recorded one and valid |
| Application.ClearDegraded | run.go:298-316 | The degraded mark and its reason are cleared and nothing else changes; a failure needs a fault |
| Application.RollbackCandidate | run.go:689-697 | On an undisturbed disk, with no fault, nothing is left pending |
| Application.Launch | run.go:613-680 | It ends well exactly when the server became ready, its candidate was promoted and it ended cleanly with status 0; any other status is passed on; a clean exit leaves the build that was served recorded as known good, and the server named; a candidate that failed is rolled back unless its promotion may be durable |
| Application.ApplyAndLaunch | run.go:280-295 | A clean exit means that the candidate is Active; undisturbed, with no fault, the exit is clean exactly when every path is as the active inventory says and the server becomes ready and ends cleanly, and nothing is left pending. The run is noted as not degraded, with its generation and build |
| Application.FallBack | run.go:548-562 | No generation record changes; undisturbed, with no fault, the exit is clean exactly when a staged generation could be discarded, the active one is installed exactly with the recorded Steam build, and the server serves well. The run is noted as degraded, with the reason |
| Application.UpdateAndLaunch | run.go:240-295 | A clean exit means that the unchanged known-good generation or the offered one is Active; undisturbed, with no fault, the exit is clean exactly when the offer can be staged and installed and serves well, or, with no usable offer or no Steam, the fallback does. Which of the two it was is noted, with generation, build and reason |
| Application.LaunchAsIs | run.go:254-295 | No generation record changes; undisturbed, with no fault, the exit is clean exactly when, with mods, the active generation is installed and known to be good, and the server, or without Steam the fallback, serves well. The run is noted as degraded exactly if it was the fallback |
| Application.Run | run.go:153-296 | One lifetime of the controller: while a recorded server runs it starts none beside it; a clean exit leaves nothing pending, the build that was served as the known good one, the generation that ran and whether and why it was degraded noted, with mods an Active generation, as it was or the offer, and without updates exactly the records that startup recovery leaves; on an undisturbed disk, with no fault, no exit leaves anything pending, and whether the exit is clean is decided by the durable state before the run and the inputs alone: exactly when the fence passes and the lifetime ends well from where recovery has to bring that state |
| Application.RestartedAlike | run.go:186-240 | However recovery got there, an undisturbed machine at rest lets a lifetime end as the destination of the durable state before does |
| Application.UndisturbedStart | run.go:240-295 | From any recovered machine an active generation is installed exactly, and an offer is installable exactly if no unmanaged file is in the way of a new path |
| Application.Lifetimes | run.go:153-296 | Any number of lifetimes, crashed anywhere: without faults nothing is pending behind the last one, and the exit of the first is decided by the durable state before it; each clean exit leaves the build it served recorded, and a lifetime that served makes the next one without updates, on the same installed build, serve too; while a recorded server runs none of them starts another. That an idle undisturbed disk holds the last intended generation in files, lock and Active record is an invariant of the disk that no lifetime breaks |
| Application.StartsAgain | run.go:564-612 | What a clean exit leaves, the recorded build and server and the valid active generation, lets the next lifetime without updates on that build end well |
| Limits.CleanupPassesExactly | mods.go:521-528 | Reconciliation passes its cleanup exactly when neither Previous nor Failed names the active generation or the candidate |
| Limits.ReappliedActiveBlocksCleanup | mods.go:521-528 | A concrete state in which an identifier applied again blocks the cleanup |
| Limits.CleanupPasses | mods.go:521-528 | In every reachable state the cleanup passes |
| Limits.InterruptedRollbackStillPromotable | mods.go:396-411 | No step of a rollback but the last save changes what CommitPromotion checks |
| Limits.RolledBackIsPromotable | mods.go:396-411 | With all files rolled back promotion would still be accepted, and would be right exactly if the candidate changed nothing |
| Limits.KeptBackupDecides | state.go:424-473 | A backup kept by an earlier rollback is acceptable to the next recovery exactly when it is the new original |
| Limits.TornMoveDecides | mods.go:1152-1183 | Recovery accepts a half-durable move exactly if it moved an original and there is no tombstone; it refuses a half-durable move of the installed file, and a restore torn beside a tombstone although the original is then safe under both names |
| Limits.TornConfigAccepted | state.go:424-473 | A half-durable restore of the configuration is always accepted |
| Limits.EditedEntryDecides | state.go:339-421 | Behind an Apply that an outside edit of a managed file made fail, recovery accepts that file exactly if the edit is the original, or is what was to be installed once the original was in quarantine or there was none |
| Limits.EditBlocksRecovery | state.go:339-350 | A concrete edit of a file to be replaced, put back as it was, that recovery refuses |
| Limits.DiscardReaches | mods.go:583-611 | The whole-identifier check of Discard protects every referenced generation from identifiers of one path component, and of the others lets through exactly those whose first component is referenced |
| Packages.RefOrder | thunderstore.go:501-509 | The order of references is total |
| Packages.SortedUnique | thunderstore.go:447-451 | There is one sorted arrangement of items that their references tell apart |
| Packages.SortRefsPermuted | thunderstore.go:447-451 | Sorting forgets the order of the input |
| Packages.DigestDecidesContent | thunderstore.go:453-484 | Two locks with distinct references have one digest exactly when they are rearrangements of each other's roots, packages and dependencies |
| Locks.ValidateManagedPackageLock | mods.go:1461-1508 | Acceptance is exactly: five packages of the five kinds in canonical order, valid fields, managed roots, and the digest of all that |
| Locks.ValidLockMeans | mods.go:1461-1525 | That is, by namespace, name and field: the two roots with dotted versions, each of the five packages, full name, address, size and 64 hexadecimal digits, the digest, and the canonical order |
| Locks.VersionMeans | config.go:12-12 | A version is three runs of digits with dots between |
| Locks.CollectKinds | mods.go:1474-1489 | All packages are valid and of different managed kinds |
| Locks.DigestDecidesLock | mods.go:1461-1508 | Two valid locks with one digest are equal up to the order in which a package lists its dependencies |
| Ordering.WalkIsExact | thunderstore.go:266-306 | The walk succeeds exactly when no path from the roots leaves the graph or meets itself, and then lists exactly what is reachable, each once, dependencies first |
| Ordering.SoundMeans | thunderstore.go:266-306 | That is: everything reachable is present and on no cycle |
| Ordering.SameWalkAll | thunderstore.go:274-296 | The order does not depend on repeats in dependency lists |
| Ordering.AgreeingAll | thunderstore.go:247-306 | A graph cut down to what the walk listed is walked alike |
| Resolver.GraphResolver.Visit | thunderstore.go:196-245 | The resolver's visit is the specified walk, and stops otherwise only at a version conflict among reachable packages |
| Resolver.OrderWalk.Visit | thunderstore.go:274-296 | The visit of the canonical order is the specified walk |
| Resolver.CanonicalPackageOrder | thunderstore.go:266-306 | The canonical order, or failure |
| Resolver.CanonicalOrderExact | thunderstore.go:266-306 | It fails exactly on a missing package, a cycle or an unreachable package, and otherwise lists every package once, dependencies first |
| Resolver.OrderDependsOnSets | thunderstore.go:266-306 | It depends only on the roots in order and on which packages each package depends on |
| Resolver.ResolvedPackagesInCanonicalOrder | thunderstore.go:247-264 | The packages in that order, exactly if every key is its package's reference and the order exists |
| Resolver.WalkIsCanonical | thunderstore.go:85-102 | Canonical ordering never fails after a successful visit of the roots |
| Resolver.Resolve | thunderstore.go:71-102 | Over what the index itself says: it succeeds exactly when every package needed from the roots is there under its own namespace, name, version and full name, active, with dependencies that parse, no negative size and an https address, none depends on itself, and none is needed in two versions; it returns exactly the needed packages, each once, behind its dependencies, as the index has them, in canonical order |
| Resolver.ResolvableMeans | thunderstore.go:196-245 | The walk over usable packages succeeds for exactly these indexes |
| Vdf.VdfParser.SkipWhitespace | steam.go:634-643 | The position moves past spaces, tabs, carriage returns and newlines, stops at anything else, and stays in bounds |
| Vdf.VdfParser.ReadString | steam.go:645-685 | A quoted string with escapes is read exactly as specified, and the position advances |
| Vdf.VdfParser.ReadNode | steam.go:687-731 | An object is read exactly as specified; the position advances in bounds, so that parsing terminates |
| Vdf.HasKeyIn | steam.go:733-745 | Whether some key, in either map in any order, is equal up to case |
| Vdf.ParsePrefix | steam.go:478-495 | The root object and the number of characters it took |
| Vdf.ParseDocument | steam.go:467-476 | The root object, exactly when nothing follows |
| Vdf.AcceptedKeysAreDistinct | steam.go:702-728 | On any accepted input, the keys of every object at every depth are distinct up to case |
| Vdf.NodeIsWellDefined | steam.go:420-460 | Such an object has no two keys equal up to case across values and children together |
| Vdf.ValueOf | steam.go:420-427 | The value of some key equal up to case; the only possible one in a well-defined node |
| Vdf.ChildOf | steam.go:429-436 | The same for children |
| Vdf.OneValue | steam.go:443-460 | A path leads to at most one value |
| Vdf.PathValue | steam.go:443-460 | The value exactly when the path leads to one |
| VdfPrinting.RoundTrip | steam.go:467-495 | Every tree with case-distinct keys and printable strings, in every layout with spaces, tabs, carriage returns and newlines, is read back and consumed completely |
| VdfPrinting.ReadsEntries | steam.go:687-731 | The same for the entries of any object in front of any text |
| VdfPrinting.PiecesAreRead | steam.go:645-685 | A string of plain characters and escapes is read for what they mean: quote, backslash, newline, tab, or both characters of any other escape |
| VdfPrinting.ReadStringsArePieces | steam.go:645-685 | Nothing else is read as a string: no control character, no bare quote or backslash |
| LogLines.CompleteLines | logs.go:638-659 | The lines completed by new bytes, and the remainder, which never exceeds the limit |
| LogLines.PushChunks | logs.go:638-659 | Chunk boundaries do not matter, the failure on a long line included |
| LogLines.AssembledIsSplit | logs.go:638-659 | The lines are the pieces between newlines without their carriage returns, and assembly fails exactly when some piece is too long |
| LogFollowing.ReadCurrent | logs.go:477-562 | Exactly the bytes between the old and the new offset are assembled, at most what the budget leaves; it fails only on a long line |
| LogFollowing.LogFollower.constructor | logs.go:272-299 | A follower starts at the end of the log that the path names, if there is one |
| LogFollowing.LogFollower.ReadActive | logs.go:332-339 | A read of the active log hands out exactly the lines it completed; without backlog it has read everything that was in the log, and with one the budget is spent; it fails only on a long line of that log |
| LogFollowing.LogFollower.ReadPending | logs.go:397-406 | The same for one queued log, which a failure leaves as it was |
| LogFollowing.LogFollower.Detect | logs.go:341-383 | A replacement is queued exactly if it was never seen, and rejected only when it finds sixteen queued; there is activity exactly if the path names another log than the active one |
| LogFollowing.LogFollower.ReadQueue | logs.go:396-406 | All queued logs share what is left of the budget; each is read to the end or the budget is spent; it fails only on a long line of a queued log |
| LogFollowing.LogFollower.Adopt | logs.go:423-444 | The head of the queue is adopted exactly in a later round when the time has passed and neither it nor the active log has a backlog; otherwise active log and queue stay |
| LogFollowing.LogFollower.ReadAvailable | logs.go:325-452 | One round is recorded, failed or not: it opens the path once and reads at most 1 MiB over all logs, exactly 1 MiB if a backlog is reported; without backlog every followed log is read to where it ended when the round began; there is activity exactly if something was read, another log was at the path or one was adopted; a log found for the first time is queued, and the first one queued before is adopted in the next round without backlog once its time has passed, its predecessor read to the end; it fails only on a long line or a seventeenth log |
| LogFollowing.FollowedExactly | logs.go:325-452 | For every log that was ever followed, the lines of all rounds and the remainder are the complete-line split of exactly the bytes from its start to its offset |
| LogFollowing.LinesAreThere | logs.go:325-452 | No line is made up: each one handed out is a complete line of a log that was followed |
| Readiness.Observe | logs.go:236-260 | A marker stands exactly if it was seen in this round, or before and its log was not replaced: the server log for the startup of the server, that of BepInEx for the four others |
| Readiness.Inspect | logs.go:236-255 | A round is accepted exactly if no batch failed and, before readiness, no line is fatal |
| Readiness.ObserveRound | logs.go:207-270 | The evidence after the round, whether it holds the startup of the server and, with mods, each of the four others, and whether the round was quiet |
| Readiness.NextRound | logs.go:163-190 | One turn of the watch: it goes on as the rounds so far demand, fires onReady in the first round that ends two quiet ones with all evidence, and ends on a failed follower or, before readiness, a fatal line |
| Readiness.Watch | logs.go:98-194 | onReady fires at most once, exactly in the first round that ends two quiet rounds with all evidence standing, with no failure or fatal line up to it; afterwards only a failed follower ends the watch |
| Readiness.ReadyExactly | logs.go:163-190 | onReady fires only on two quiet rounds in a row with the startup of the server, and with mods all four others, seen since their log was last replaced; and such rounds make it fire if nothing broke before |
| Monitoring.ReportRound | logs.go:301-319 | The batch of a follower is the round it recorded; it is quiet exactly if nothing was read, adopted or is queued, every log is read to its end and the one at the path is the active one; it fails only for the reasons a round fails |
| Monitoring.MonitorRound | logs.go:207-270 | A round over both followers, in either order of arrival, is exactly the round each of them recorded; it is quiet exactly if every follower was calm, and fails only on a long line or a seventeenth log of a follower that failed |
| Monitoring.WatchFollowers | logs.go:98-194 | The rounds the watch decides on, to the last one, failed or not, are exactly those its followers recorded since it began; it ends in the round that ends it; onReady fires only after two rounds in a row in which, on every follower, no byte was read, no log is queued, every log was read to its end and the one at the path is the active one; without a failed round the lines are exactly those of the bytes read |
| Monitoring.EvidenceIsThere | logs.go:236-260 | Each marker that stands was on a line that is, complete, in the bytes of a log that was followed |
| ConfigEdit.SplitConfigLines | mods.go:1358-1379 | The lines with their line endings |
| ConfigEdit.JoinConfigLines | mods.go:1390-1397 | The text of the lines |
| ConfigEdit.JoinAfterSplit | mods.go:1358-1397 | Joining after splitting is the identity |
| ConfigEdit.ReplaceIsSplice | mods.go:1399-1411 | Replacing a value keeps every other character of the line |
| ConfigEdit.DisableConsoleLogging | mods.go:1309-1356 | The edit made line by line is the specified one |
| ConfigLaws.ScanFindsFirst | mods.go:1311-1333 | The scan stops at a key exactly when it is the first Enabled key of the first Logging.Console section |
| ConfigLaws.ConsoleIsDisabled | mods.go:1309-1356 | After the edit that key exists and reads false |
| ConfigLaws.DisablingIsIdempotent | mods.go:1309-1356 | The edit applied twice is the edit applied once |
| ConfigLaws.OneSplice | mods.go:1309-1356 | The edit is one splice: every other character survives in order, and what is inserted, its place and its line endings are given for each of the four cases |
| ConfigText.HeaderMeans | mods.go:1314-1322 | By their text: which lines are headers, and that only one that names Logging.Console, in letters of either case with white space around it, opens the console section |
| ConfigText.EnabledMeans | mods.go:1324-1330 | By their text: which lines set the key Enabled |
| ConfigText.FirstKeyIsEdited | mods.go:1311-1333 | A value is replaced exactly if it is that of the first such key in the first such section, before any other header |
| ConfigText.OnlyValueReplaced | mods.go:1399-1411 | Of such a line only the value is replaced: key, blanks around it and a comment stay as they are |
| ConfigText.EveryKeyHasRange | mods.go:1399-1411 | Every line with an equals sign is of that form |
| ConfigText.ConsoleReadsFalse | mods.go:1309-1356 | After the edit that key is there, by its text, and its value is false |
| Archives.InspectZip | archive.go:735-786 | Acceptance is exactly: safe distinct paths, no file above another entry, a size sum that fits 64 bits, and a manifest that is a file; the total is that sum |
| Archives.SafePathMeans | archive.go:788-816 | A safe path is the name, less one slash at its end: ordinary names between slashes, no backslash, no drive, and no special file |
| Archives.AncestorIsHead | archive.go:766-771 | The joins of the leading pieces of a path are exactly its proper ancestors |
| Archives.CollectEntries | archive.go:741-764 | The first loop: safe distinct paths, and a sum without overflow |
| Archives.CheckTree | archive.go:765-781 | The second loop accepts, in any order of the map, exactly the trees |
| Archives.SelectPlugins | archive.go:911-953 | It succeeds exactly when every entry has its place, the specified choice holds a DLL, and no two outputs are equal up to case, and then returns that choice in order |
| Archives.DllMeans | archive.go:911-953 | A DLL ends in a dot and the three letters, in either case |
| Archives.LowerMeans | archive.go:911-953 | Two outputs collide exactly if they differ at most in the case of letters |
| Archives.SelectBepInEx | archive.go:954-979 | It succeeds exactly when everything else lies below the wrapper directory and something does, and then returns all of that in order |
| Archives.OutputsFormATree | archive.go:908-983 | With either policy the outputs of an accepted archive are distinct, and none passes through an extracted file |

## Left out

- Applies.Apply: requires an identifier that was never applied before, which `Stage` gives; `Limits` says what happens otherwise. It also requires the fence: no server recorded as ready, and no running game unless outside writers are allowed.
- Promotions.CommitPromotion: requires that an applied transaction is the work of this process, as in `Application.Run`; `Limits.InterruptedRollbackStillPromotable` says why.
- Staging.Discard: requires an identifier of one path component, as all identifiers from `Stage` are; `Limits.DiscardReaches` says what the code's check lets through otherwise.
- Staging.Stage: the directory with its files, manifest, lock and template appears at once; a partly written directory, which no record names, is not modelled.
- Disks.Disk.RemoveTree: a partly removed generation directory is not modelled; cleanup would remove the rest.
- Disks.Disk.Tear: half-durable moves are those that recovery accepts, of an original with no tombstone. A half-durable move of the installed file, and a restore torn beside a tombstone, are refused by the code; `Limits.TornMoveDecides` gives the exact condition, and the whole-run results exclude them.
- Disks.Disk.MoveAside: a half-durable move to the tombstone is not among its outcomes, for that reason.
- Disks.Disk.MoveBack: a half-durable restore beside a tombstone is not among its outcomes, for that reason.
- Supervisors.StopGame: stopping is one step; the escalation from signal to wineserver to SIGKILL, with its time limits, is not modelled.
- Application.FencePriorProcess: requires that a server that runs is the recorded one. One that was started but not yet recorded is taken to be gone with the controller that started it; the inspection of processes is an input, truthful about a server that runs.
- Application.RecoverAndFence: requires the same.
- Application.Run: requires the same; `Runs.ServerStaysRecorded` says that it holds from the first save behind a start on.
- Application.Lifetimes: requires the same of its start.
- Applies.ApplyConfig: an outside edit of the configuration stays only if it comes after the configuration was read; before, the edit of the controller is made on top of it.
- Application.RecordFallback: validating the files of the installed Steam build is an input.
- LogFollowing.LogFollower.ReadAvailable: logs only grow; truncation in place and the comparison of the last 64 bytes, which would reset a cursor, are not modelled.
- Monitoring.MonitorRound: the followers read one after the other, while others may write to all logs between any two reads; in the code they read at the same time.
- Vdf.ParsePrefix: characters are bytes; UTF-8, and case folding and white space outside ASCII, are not modelled.
- ConfigEdit.DisableConsoleLogging: case folding and white space outside ASCII are not modelled.
- Archives.InspectZip: decompression, checksums, and the contents of the manifest are not modelled.
- Archives.SelectPlugins: case folding outside ASCII is not modelled.
- Locks.ValidateManagedPackageLock: the order in which packages of one lock are compared with downloaded archives is not modelled.
- Inodes, permissions, owners and symbolic links; each operation of `Disk` stands for the checked system calls of the source.
- fsync: an operation is durable when it took effect, and a failed sync is a failure after the effect; the torn move above is the exception.
- JSON and SHA-256: records are values, and a digest is the value it digests.
- Times, schema version and the order of files in a manifest; a manifest is a map from paths to contents.
- Conflicts between a live file and a live directory of the same name.
- Choice of roots, the lookup of the latest version, the shape of package URLs, HTTP and its retries: the index of packages is an input.
- SteamCMD and its console output around the VDF document, Wine, Xvfb and timers: their outcomes are inputs or events.
- The lines that are markers or fatal in a server log: each line carries what it is.
- `identity.go`, `backup.go`, `config.go`, `health.go`, `acceptance.go` and `settings.go`: mostly system calls and plumbing.
