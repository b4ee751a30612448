# apod, verified

apod hosts many tenants' sites on one Docker machine. Most of it hands work to Docker, git and
SQLite; some of it keeps state or rewrites data under guarantees of its own. This project models
those parts in Dafny and proves the guarantees for every input, every run and every interleaving.

One module per component:

| file | what it models |
|---|---|
| `ProgressHub.dfy` | the progress hub: replay buffers, run generations, retention timers, subscriber channels |
| `ProgressRuns.dfy` | retention timers against generation numbers that are used again |
| `ProgressStreams.dfy` | what a subscriber sees of the emission log |
| `SiteLocks.dfy` | the per-site try-lock, and the engine's operations as programs over it and the hub |
| `FileTree.dfy`, `BackupRestore.dfy` | a file system with symlinks and faults; archiving a site and putting it back |
| `Retention.dfy` | backup rows, their stored objects, pruning and deletion |
| `LoginThrottle.dfy`, `RateLimiter.dfy`, `WebhookCooldown.dfy` | the three time-window guards |
| `Decimals.dfy`, `Totp.dfy`, `SecondFactor.dfy`, `PasswordLogin.dfy` | one-time passwords, two-factor enrolment and recovery codes, the guarded login |
| `Replicas.dfy` | driving a worker's containers to a desired count |
| `VariableExpansion.dfy` | `${name}` expansion by repeated replacement in random order |
| `Text.dfy`, `EnvFile.dfy`, `ComposeSanitizer.dfy` | `.env` merge, print and parse; the line-based compose sanitizer |
| `SharedNetworks.dfy` | shared networks, site creation and destruction, ownership transfer |

Code that changes things step by step is a class or a loop, proved against functions of its old
state; what the code promises is then proved about those functions. The run-level results quantify
over sequences of steps. A call into Docker, the database, the disk or the network that may fail is a
nondeterministic choice inside a method, or a parameter of a step where the code passes over the
failure or stops half-way; "Left out" names the calls that are taken to succeed. Ghost fields such as
`Disk.faulty`, `Backups.faulty` and `Docker.failed` remember that one has failed. Disk operations
resolve their paths as the system does: symlinks, absolute or relative and with `..`, are followed, at
most 40 in a path. Go's map iteration order is an arbitrary choice (`:|`).

Standards: section 5.3 of RFC 4226 for the truncation in `Totp.Hotp`, sections 4.2 and 5.2 of
RFC 6238 for the time step, the drift window and the single use of a code.

## Where a promise of the code does not hold

Each of these is a lemma: a concrete input, or the exact condition under which the promise holds.

- `internal/engine/progress.go:38-40` says a stale timer cannot delete a newer run's buffer. `forget`
  also deletes the generation counter, so numbers come again. Without any premise, a timer frees a run
  not its own if and only if its domain was cleared since it was scheduled and has begun exactly as
  often since then as its number says: `ProgressRuns.TimerFreesForeignRunIff`. That never happens when
  timers fire in order and a run emits one terminal event (`ProgressRuns.TimerFreesExactlyItsOwnRun`),
  and the site lock gives the second premise (`SiteLocks.LockedOperationsKeepTimersHarmless`).
- `internal/engine/progress.go:70-74` says the run id tells one operation's events from the next. It
  counts the Begins since the domain was last cleared, so two runs share an id if and only if there
  was a clearing in between and the counts agree: `ProgressRuns.RunsShareAnIdIff`.
- `internal/engine/compose.go:56-59` says a container name is dropped when its service declares a
  hostname. In any file it is dropped if and only if the last service line before it names such a
  service, a service line being a bare key at the indent of the first child after a bare `services:`
  (`ComposeSanitizer.ContainerNameIsDroppedIffItsServiceIsRecognised`). A blank line or a comment
  between the two hides every service (`HostnameIsSeenIffChildFollowsAtOnce`), and so does a comment
  after `services:` (`DecoratedServicesLineHidesEveryHostname`); a comment or an anchor after its key
  hides one (`DecoratedKeyIsNoServiceLine`), and a quoted key is taken with its quotes.
- `internal/db/backups.go:82-84` orders rows of one second by id, but two backups of one second share
  their object, so keeping the newer row loses its archive. A complete pruning is safe if and only if
  no row to be kept shares its object with one to be pruned:
  `Retention.PruneKeepsObjectsIffNoneIsShared`, `Retention.SameSecondLosesTheNewest`.
- `DeleteBackup` frees the object before the row. A row is left without its object if and only if the
  object went and the row stayed: `Retention.Backups.DeleteBackup`.
- A transfer changes the directory that local backups are looked for in (`internal/engine/backup.go:208-216`)
  and moves none of them. Every row keeps its object if and only if the directory stays the same or
  holds them all: a directory without them, if no backup of the site is local
  (`Retention.TransferKeepsObjectsIff`).
- `internal/engine/backup.go:33-36` refuses to write through a symlinked parent, but looks no further up
  than the root, and lines 742-750 write the compose environment through any symlink. In a restore that
  reports success and met no fault, every file lands below its own root and the environment changes
  nothing outside the roots if and only if beforehand no symlink stood at or above the roots and the
  path of the environment, when it is reached, leads below a root, or to no place for a file, or to one
  with the same bytes (`BackupRestore.RestoreLandsInsideIff`); then nothing outside the roots changes at
  all (`BackupRestore.RestoreStaysUnderItsRoots`). In any case changes stay below what the roots lead to
  and at the one file that the environment's path leads to
  (`BackupRestore.RestoreStaysWhereItsPathsLead`). That is another place when a root or a directory
  above it is a symlink (`BackupRestore.LinkedRootLeadsAway`) and, with roots of their own, when
  `compose` or `compose/.env` is one (`BackupRestore.LinkedEnvLeadsAway`).
- `internal/engine/backup.go:385-387` says a backup never follows symlinks. It follows those above its
  roots, and at line 444 any on the path of the compose environment: what the archive holds of the disk
  comes from below the roots if and only if no symlink stands at or above a root with files in it and
  the environment's path leads below a root (`BackupRestore.ArchiveComesFromInsideIff`). Otherwise it
  comes from another place (`BackupRestore.LinkAboveRootIsFollowed`, `BackupRestore.LinkedEnvLeadsAway`).
- `internal/engine/backup.go:23-25` caps the bytes that a restore writes. The compose environment is not
  counted: at most the cap plus one byte is written of files, and of environments as much as the archive
  holds (`BackupRestore.RestoreBackup`), which is nothing if and only if none has any bytes
  (`BackupRestore.EnvSizeIsZeroIff`).
- A restored file can be overwritten by the compose environment, which comes last. It comes back the
  same if and only if all its bytes were read or, where the environment's path leads to it and could be
  written, the environment's bytes are its own (`BackupRestore.RestoreUndoesBackup`). The environment's
  own file does, even where the walk could not read it to its end
  (`BackupRestore.EnvironmentComesBack`).
- A file the backup cannot read to its end is archived as far as it was read, and a restore then cuts
  off the original. An archive of more than 20 GiB can be made but never restored
  (`BackupRestore.RestoreBackup`).
- `internal/engine/networks.go:125-136` passes over two database errors, and rollback and destruction
  over containers they could not remove. Each operation keeps members and networks under one owner
  exactly when those calls succeeded or did not matter (`SharedNetworks.OwnersStayIffHarmless`), and
  containers off networks their site has left exactly when no link it removes from the records stayed
  up (`SharedNetworks.WiresStayIffUnhooked`). Joins, deletions and transfers hold no lock. A join that has passed
  its check keeps owners apart exactly when the step in between spares what was checked, which a transfer
  to another owner, a destruction of the site or a deletion of the network does not
  (`SharedNetworks.JoinAfterStepKeepsOwnersIff`); a join between the two halves of a transfer outlives it
  (`SharedNetworks.JoinDuringTransferSurvivesIt`), and one between the two halves of a network's deletion
  stays attached to it (`SharedNetworks.JoinDuringDeletionStaysAttached`). Two creations that both pass the identifier
  check before either inserts collide exactly when their names do
  (`SharedNetworks.TwoCreationsStayDistinctIffTheyDoNotCollide`).
- `internal/engine/totp.go:37` takes an unreadable flag for "not enabled"; lines 126 and 137 pass over
  the replay floor's errors, line 157 over the code list's; lines 144-151 take a list that cannot be read
  for a wrong code (`SecondFactor.RecoveryCodeIsRefusedIffUnread`), which counts as a failure:
  `SecondFactor.SetupSparesEnrolledIffFlagIsRead`, `SecondFactor.ReplayIsAcceptedIffAboveFloor`,
  `SecondFactor.ReplayIsRefusedIffFloorIsKept`, `SecondFactor.SpentCodeWorksAgainIffNotSaved`.
- `internal/engine/auth.go:54-60` stores a new password before it deletes the sessions. When the
  deletion fails, the password has changed and every session lives on, with an error for an answer:
  `PasswordLogin.Engine.SetUserPassword`.
- `internal/totp/totp.go:63` subtracts in unsigned arithmetic: `SecondFactor.FirstStepOfTheEpochLocksOut`.
- `RecordFailure` alone can lift a lock: `LoginThrottle.UnguardedFailureKeepsLockIffInWindow`. The
  guarded login cannot.
- A removal that fails part-way up leaves a hole in the replica indexes, and later runs leave what
  stands beyond it: `Replicas.FailedRemovalLeavesHoleIffLater`, `Replicas.ExactIffNothingBeyondGap`.
- Two containers on the machine share a name if and only if their services are named alike, as `q-1` is
  like replica 1 of `q`, where one site's domain may end in the beginning of the other's service, as
  service `x-worker` of `shop` and `worker` of `shop-x` (`Replicas.NamesCollideIff`). Scaling one then
  moves the other's container, be it another site's (`Replicas.ImitatorSharesItsFate`). A container is
  out of a service's reach if and only if there is no such clash (`Replicas.ForeignIff`), and then stays
  as it is (`Replicas.UnlikeServicesAreSafe`).
- Expansion depends on the random order of the variables. Where names are plain, every order gives the
  same result if and only if no value contains another variable's token or ends in a beginning of one,
  variables that expand to themselves aside (`VariableExpansion.OrderFreeIffUncrossed`); expanding again
  then changes nothing if and only if the same holds of each value and its own token
  (`VariableExpansion.StableIffSettled`). Text right before a reference is harmless whatever the values
  if and only if it does not end in a beginning of another token, such as a `$`
  (`VariableExpansion.TextBeforeReferenceIsSafeIff`).
- The generated `.env` reads back as it was meant exactly when the driver's own entries are clean:
  `EnvFile.GenerateEnv`.

## Model

| member | source | states |
|---|---|---|
| Progress.ProgressHub.Begin | internal/engine/progress.go:53-58 | a new run has an empty buffer and the next generation; the hub stays well-formed |
| Progress.ProgressHub.Emit | internal/engine/progress.go:61-99 | the stamped event ends the buffer of at most 200, is offered to every subscriber without blocking, and an error or an event at 100% or more schedules exactly one timer for the current generation, any other none |
| Progress.ProgressHub.Broadcast | internal/engine/progress.go:84-89 | whatever order the subscribers are visited in, each gets the event unless its 256 slots are full; no send meets a closed channel |
| Progress.ProgressHub.Forget | internal/engine/progress.go:104-115 | only the timer's own generation frees buffer, counter and an empty subscriber set |
| Progress.ProgressHub.Subscribe | internal/engine/progress.go:119-127 | the replay is the whole buffer, and the channel is new, open and registered |
| Progress.ProgressHub.Cancel | internal/engine/progress.go:128-138 | the channel is closed if it was registered, and calling cancel again closes nothing |
| Progress.NextWellFormed | internal/engine/progress.go:53-140 | every critical section keeps registered channels open and owned by one domain, buffers and queues within bounds, and every buffered event under the current run id |
| Progress.ClosedStaysClosed | internal/engine/progress.go:80-89 | a closed channel is never reopened, closed again or sent to |
| ProgressRuns.TimerFreesExactlyItsOwnRun | internal/engine/progress.go:90-115 | in every run with ordered timers and one terminal event per run, a firing timer frees the buffer if and only if the current run scheduled it, although generation numbers come again; otherwise only the timer queue changes |
| ProgressRuns.FinishedRunIsFreedOnce | internal/engine/progress.go:93-98 | a finished run has exactly one pending timer that will free its buffer |
| ProgressRuns.SecondEndingWipesNewerRun | internal/engine/progress.go:96-111 | with two terminal events in one run the second timer wipes the next run's buffer |
| ProgressRuns.OutOfOrderWipesNewerRun | internal/engine/progress.go:96-111 | so does an otherwise legal run whose timers fire out of order |
| ProgressRuns.TimerFreesForeignRunIff | internal/engine/progress.go:90-115 | in every run, whatever the order of timers and endings, a timer frees a run not its own if and only if its domain was cleared since it was scheduled and has begun exactly as often since then as its number says |
| ProgressRuns.RunIdCountsBegins | internal/engine/progress.go:53-58 | in every run the generation is the number of Begins since the domain was last cleared, modulo 2^64 |
| ProgressRuns.RunsShareAnIdIff | internal/engine/progress.go:70-74 | events of two different runs carry one id if and only if the domain was cleared since the earlier one and the Begins since then are as many as before those events |
| ProgressRuns.RunIdIsReusedAfterForget | internal/engine/progress.go:70-74 | a legal run in which one subscriber gets two runs' events under one run id |
| ProgressStreams.ReplayIsTheBufferTail | internal/engine/progress.go:75-79 | a replay is exactly the last min(200, n) of the n events since the buffer was last cleared |
| ProgressStreams.StreamIsGapFree | internal/engine/progress.go:119-139 | replay, received and unread events are one contiguous piece of the emission log while the channel never filled |
| ProgressStreams.StreamIsASubsequence | internal/engine/progress.go:84-89 | in any case the channel's events are log events in order, none twice, none from before the subscription or after the cancellation |
| SiteLocks.LockManager.Acquire | internal/engine/safety.go:46-55 | granted exactly when nobody holds the domain; a refusal names the holder's operation and changes nothing |
| SiteLocks.LockManager.Release | internal/engine/safety.go:57-61 | frees the domain and nothing else |
| SiteLocks.LockManager.Info | internal/engine/safety.go:64-69 | reports the holder as it stands |
| SiteLocks.AtMostOneInside | internal/engine/safety.go:46-61 | in every interleaving at most one operation is inside a domain's lock |
| SiteLocks.ReleaseIsOfOwnLock | internal/engine/safety.go:57-61 | a release always gives back the releaser's own acquisition |
| SiteLocks.NobodyWaits | internal/engine/safety.go:46-55 | a busy lock refuses instead of waiting, so by construction every unfinished operation has a move |
| SiteLocks.DoneHoldsNothing | internal/engine/safety.go:57-61 | a finished operation has left no lock behind |
| SiteLocks.FinishEndsTheRun | internal/engine/progress.go:171-177 | the event that finishes a run, on success and on failure, is an error or at 100%, and the run counts as ended after it |
| SiteLocks.BegunRunsAreEnded | internal/engine/backup.go:245-264 | in every interleaving an operation that has begun a run and is done has itself ended that very run |
| SiteLocks.OperationsAreDisciplined | internal/engine/backup.go:245-264 | locked, tracked and creating operations lock before they report, end a run at most once and release what they took, on every path |
| SiteLocks.CreateDisciplined | internal/engine/engine.go:187-294 | the same for a creation nested under any other locks |
| SiteLocks.CloneIsDisciplined | internal/engine/clone.go:29-135 | the nested source-then-target clone, failing before the target's lock, at it or after it, is disciplined if and only if source and target differ |
| SiteLocks.LockedOperationsKeepTimersHarmless | internal/engine/progress.go:36-42 | whatever such operations do in any interleaving, each run ends at most once, so a retention timer never frees a run other than its own |
| FileTree.LeadsToItselfIffDirect | internal/engine/backup.go:33-37 | a path leads to itself if and only if no symlink stands at it or above it |
| FileTree.Disk.RemoveAll | internal/engine/backup.go:49-51 | only nodes at or below where the path stands go, symlinks above it followed, all of them unless a fault intervenes |
| FileTree.Disk.MkdirAll | internal/engine/backup.go:46-48 | only missing directories towards where the path leads are made, and it fails only by a fault or at something on the way that leads to no directory; a path that leads nowhere changes nothing |
| FileTree.Disk.WriteFile | internal/engine/backup.go:52-57 | below what the parent leads to, the file holds a prefix of the data, all of it up to the limit on success, and no other path changes; it never writes through a symlink in the file's place |
| FileTree.Disk.WriteThrough | internal/engine/backup.go:749 | the file that the path leads to, through any symlink, holds a prefix of the data, all of it without a fault, and nothing else changes; it is written if and only if that place can hold a file and no fault intervenes |
| BackupRestore.SymlinkedParentWithin | internal/engine/backup.go:63-77 | true if and only if a symlink stands strictly between root and file, whatever the root leads through |
| BackupRestore.RestoreZipEntry | internal/engine/backup.go:32-58 | on any disk every change stays at the entry's place below what its root leads to, but for missing directories on the way; success puts the entry's bytes there, up to the limit; a symlinked parent stops it before anything is touched; it fails only by a fault or when hindered |
| BackupRestore.RestoreEnv | internal/engine/backup.go:742-750 | the compose environment is written where its path leads, through any symlink and unchecked; without a fault it is written whole if and only if a file stands there or can be made, and nothing else changes but for missing directories |
| BackupRestore.RestoreBackup | internal/engine/backup.go:626-750 | on any disk, entry by entry, only the places that entries land at change; refused archives leave the disk alone; success means every file was stored with all its bytes; at most the cap plus one byte is written of files and, uncounted, the bytes of the compose environments; it is cut off only beyond the cap, and reports errors only for a fault or a hindered entry |
| BackupRestore.FitToRestoreIff | internal/engine/backup.go:609-646 | an archive passes the checks before a restore if and only if something in it lies below one of three directories and its first metadata, where they decode, carry an allowed environment |
| BackupRestore.ArchiveWithAFileIsFit | internal/engine/backup.go:609-619 | what a backup makes of a site with a file in it passes them, if its environment is allowed |
| BackupRestore.RestoreStaysWhereItsPathsLead | internal/engine/backup.go:33-40 | on any disk, whatever an archive names, nothing changes but below the directories that the roots lead to and the file that the environment's path leads to, and missing directories on the way being made |
| BackupRestore.RestoreStaysUnderItsRoots | internal/engine/backup.go:33-40 | where no symlink stands at or above the roots, and a compose environment that is reached leads below one, nothing outside the site and data directories changes, wherever other symlinks point, but for missing directories down to them |
| BackupRestore.RestoreLandsInsideIff | internal/engine/backup.go:67-75 | in a restore that reports success and met no fault every file lands below its own root and the compose environment changes nothing outside them if and only if beforehand no symlink stood at or above a root that the archive restores to and the environment's path, when it is reached, leads below a root, to no place for a file, or to a file with its bytes |
| BackupRestore.StoredInsideIffDirect | internal/engine/backup.go:67-75 | and so for each entry that was stored, at its moment of any restore |
| BackupRestore.LinkedRootLeadsAway | internal/engine/backup.go:67-75 | with a symlink at or above its root an entry is restored in the place the symlink names |
| BackupRestore.LinkedEnvLeadsAway | internal/engine/backup.go:742-750 | with a symlink at `compose` or `compose/.env`, below roots of their own, the environment is read from and written to the place the symlink names |
| BackupRestore.EnvChangesOnlyInsideIff | internal/engine/backup.go:742-750 | writing the environment without a fault changes nothing outside the roots if and only if its path leads below one, to no place for a file, or to a file with its bytes |
| BackupRestore.StoredEntriesStand | internal/engine/backup.go:687-750 | after a successful restore every file stands with all its bytes, unless a later entry, the compose environment included, took its place |
| BackupRestore.Walk | internal/engine/backup.go:383-411 | one entry per regular file below what the directory above the root leads to that can be inspected and reached, with the bytes that could be read; none for symlinks, directories or database directories, in any order |
| BackupRestore.ArchivedStandsInsideIffDirect | internal/engine/backup.go:385-390 | an archived file stands below its root if and only if no symlink stands at or above the root, and no symlink below the root was followed |
| BackupRestore.LinkAboveRootIsFollowed | internal/engine/backup.go:372-390 | with a symlink above the root the archive holds the files of the place it names |
| BackupRestore.ArchiveComesFromInsideIff | internal/engine/backup.go:372-446 | what the archive holds of the disk comes from below the roots if and only if no symlink stands at or above a root with files in it and the environment's path leads below a root |
| BackupRestore.EnvIsReadInPlaceIffDirect | internal/engine/backup.go:441-446 | the archived environment is the file at its own path if and only if no symlink stands at or above it |
| BackupRestore.ArchiveFiles | internal/engine/backup.go:352-411 | every such file of both roots is archived exactly once |
| BackupRestore.SiteFilesAreArchivedIff | internal/engine/backup.go:383-411 | the archive has an entry below `files` with these bytes if and only if a regular file stands at that place below the site root, at any depth, no directory on the way to it is unseen, and these are the bytes of it that could be read |
| BackupRestore.DataFilesAreArchivedIff | internal/engine/backup.go:371-411 | the same below `data`, if and only if the data root is a directory and the file is in no database directory |
| BackupRestore.EnvironmentIsArchivedIff | internal/engine/backup.go:441-446 | the archive has the environment with these bytes if and only if the site is a compose site and these are the readable bytes of the file that its path leads to |
| BackupRestore.CreateBackup | internal/engine/backup.go:314-447 | the archive holds the database dumps, every file of both roots exactly once, the metadata, and for a compose site the file that the environment's path leads to, if it can be read |
| BackupRestore.TargetOfEntry | internal/engine/backup.go:690-697 | the entry of an archived file is restored exactly where the file was |
| BackupRestore.EntriesLast | internal/engine/backup.go:687-750 | in the archive of a tree no later entry takes a file's place, whatever separate directories the roots lead to, but for a compose environment, and that if and only if its path leads there |
| BackupRestore.RestoreUndoesBackup | internal/engine/backup.go:403-409 | a successful restore brings back every archived file, below what its root leads to then: with its bytes if and only if all of them were read or, where the compose environment was written to it, the bytes written are its own |
| BackupRestore.EnvironmentComesBack | internal/engine/backup.go:742-750 | the environment of a compose site whose file the walk came to goes back to that file, whole, also where the walk was cut off |
| BackupRestore.SourceIsReal | internal/engine/backup.go:403-409 | the file that the walk comes to is the one that its path leads to |
| BackupRestore.DirectRootsLeadToThemselves | internal/engine/backup.go:687-725 | roots with no symlink at or above them lead to themselves throughout a restore, so files come back where they were |
| BackupRestore.ArchiveIsObstructedOnlyByTheDisk | internal/engine/backup.go:38-51 | an archive never stands in its own way: where no symlink stands at or above the roots, only what the disk holds above a file can keep it out |
| Retention.OldBackups | internal/db/backups.go:80-109 | the rows beyond the `keep` newest of their site and storage, newest first |
| Retention.PrunedByRank | internal/db/backups.go:81-86 | a row is kept if and only if fewer than `keep` rows of its group are newer by time and id; other groups are untouched |
| Retention.Backups.CreateBackup | internal/engine/backup.go:479-500 | object before row; a failure leaves the rows as they were |
| Retention.Backups.DeleteOldestBackups | internal/db/backups.go:111-122 | the paths returned are exactly those of the deleted rows, also after a failure part-way |
| Retention.Backups.PruneOldBackups | internal/engine/backup.go:813-842 | only objects of deleted rows are freed, and all of them when nothing fails |
| Retention.Backups.DeleteBackup | internal/engine/backup.go:787-806 | a backup of another site is left alone; the object goes before the row; where rows have objects of their own, one is left without if and only if the object went and the row stayed |
| Retention.KeepCount | internal/engine/storage_engine.go:22-27 | a schedule keeps at least one |
| Retention.NewestIsNeverPruned | internal/engine/storage_engine.go:22-27 | retention with `keep` at least one never takes the newest row of a group |
| Retention.EveryRowHasItsObject | internal/engine/backup.go:808-842 | over every run of such steps, prunings going as far as they get, every row has its object |
| Retention.PruneKeepsObjectsIffNoneIsShared | internal/engine/backup.go:299-300 | a complete pruning leaves every row its object if and only if beforehand no row of rank below `keep` or of another group shares one with a row of rank `keep` or more |
| Retention.SameSecondLosesTheNewest | internal/engine/backup.go:299-300 | two backups of one second: pruning leaves the newest row without its object |
| Retention.TransferKeepsObjectsIff | internal/engine/backup.go:208-216 | a transfer of a site leaves every row its object if and only if the directory of local backups stays the same or holds every local backup of the site |
| Retention.StepKeepsObjectsIffFair | internal/engine/backup.go:479-842 | a step keeps every row with an object of its own if and only if a new backup has a fresh key, a deletion that frees an object also deletes its row, and a transfer leads to a directory with the site's local backups |
| LoginThrottle.LoginThrottle.Locked | internal/engine/loginthrottle.go:39-44 | locked exactly until the entry's lock ends |
| LoginThrottle.LoginThrottle.RecordFailure | internal/engine/loginthrottle.go:48-62 | counts in the running window or starts a new one, locks at the tenth failure, drops stale entries |
| LoginThrottle.LoginThrottle.Collect | internal/engine/loginthrottle.go:73-79 | exactly the stale entries go, whatever the order |
| LoginThrottle.EvictionIsUnobservable | internal/engine/loginthrottle.go:53-79 | in every run the throttle that forgets answers and counts as the one that never does |
| LoginThrottle.AtMostEighteenFailuresPerWindow | internal/engine/loginthrottle.go:12-16 | guarded logins never record more than 18 failures of a name in any 15 minutes without a successful login in between |
| LoginThrottle.EighteenFailuresCanFallInOneWindow | internal/engine/loginthrottle.go:12-16 | and 18 can be reached |
| LoginThrottle.LockHoldsItsFullTime | internal/engine/auth.go:112-117 | a lock set at a time holds for the whole 15 minutes, whatever logins come |
| LoginThrottle.UnguardedFailureKeepsLockIffInWindow | internal/engine/loginthrottle.go:53-56 | a failure recorded while locked keeps the lock if and only if the first failure is still in the window |
| RateLimiter.RateLimiter.Allow | internal/server/ratelimit.go:124-146 | accepted exactly when fewer than `limit` remembered requests are recent; the list becomes the recent ones and the new one |
| RateLimiter.RateLimiter.Sweep | internal/server/ratelimit.go:103-118 | every list is cut to its recent entries and empty ones go |
| RateLimiter.AllowCountsTheWindow | internal/server/ratelimit.go:124-146 | for every interleaving with sweeps and other keys, accepted if and only if fewer than `limit` accepted requests of the key lie in the window |
| RateLimiter.NeverMoreThanLimit | internal/server/ratelimit.go:124-146 | no half-open span of one window holds more than `limit` accepted requests |
| WebhookCooldown.Cooldown.HandleWebhook | internal/engine/webhook.go:45-78 | a delivery starts a deploy exactly when it is authentic and the last start is ten seconds old; older entries are evicted |
| WebhookCooldown.StartsExactlyWhenNoneIsRecent | internal/engine/webhook.go:60-75 | despite eviction, exactly when none started for the domain in the last ten seconds |
| Decimals.ItoaValue | internal/engine/process.go:387 | printing and reading a decimal numeral undo each other |
| Totp.HotpIsTheValueInSixDigits | internal/totp/totp.go:72-81 | a code is six digits that denote the truncated value modulo a million |
| Totp.WorkedExample | internal/totp/totp.go:72-81 | the worked example of section 5.4 of RFC 4226 gives 872921 |
| Totp.VerifyAcceptsTheDriftWindow | internal/totp/totp.go:57-70 | exactly the codes of the three steps around now are accepted, the current step first |
| SecondFactor.Account.Setup2FA | internal/engine/totp.go:27-55 | a new secret is stored unless the account is read as enrolled |
| SecondFactor.Account.Enable2FA | internal/engine/totp.go:69-99 | a current code turns enforcement on and stores eight fresh hashes |
| SecondFactor.Account.Disable2FA | internal/engine/totp.go:103-119 | a current code wipes secret, floor and codes |
| SecondFactor.Account.ConsumeSecondFactor | internal/engine/totp.go:123-141 | a code of a step above the floor raises it to the top of the drift window; any other code must be a recovery code of a list that can be read |
| SecondFactor.Account.ConsumeRecoveryCode | internal/engine/totp.go:143-162 | burns the first matching hash and keeps the others in order; rejects every code while the list cannot be read |
| SecondFactor.GenerateRecoveryCodes | internal/engine/totp.go:166-182 | eight codes and their hashes, in the same order |
| SecondFactor.AcceptedStepsIncrease | internal/engine/totp.go:123-139 | within one enrolment accepted steps strictly increase, at most one per 30-second step, even when codes collide |
| SecondFactor.CurrentCodeWorksAgainFromTwoStepsOn | internal/engine/totp.go:130-137 | after an acceptance in step c the current code is accepted again if and only if the step is at least c + 2 |
| SecondFactor.FirstStepOfTheEpochLocksOut | internal/totp/totp.go:63 | in step 0 the previous step wraps, and one acceptance of it locks the authenticator out |
| SecondFactor.RecoveryCodesAreConserved | internal/engine/totp.go:143-162 | recovery logins and remaining hashes always make up eight |
| SecondFactor.RecoveryCodeIsOneTime | internal/engine/totp.go:152-159 | a code is accepted at most as often as issued hashes match it |
| SecondFactor.RecoveryCodeIsNoTotp | internal/totp/totp.go:59 | a 32-character code never takes the authenticator path |
| SecondFactor.SecretIsFixedWhileEnabled | internal/engine/totp.go:31-39 | over every run the secret does not change while the factor stays enabled |
| SecondFactor.ReplayIsAcceptedIffAboveFloor | internal/engine/totp.go:125-138 | a code used again at any later time is accepted if and only if it is then the code of a step above the floor that was saved, left or read |
| SecondFactor.ReplayIsRefusedIffFloorIsKept | internal/engine/totp.go:130-137 | as long as no other step shares the code, a replay at any later time in the drift window is refused if and only if the floor was saved and could be read |
| SecondFactor.SpentCodeWorksAgainIffNotSaved | internal/engine/totp.go:144-158 | a spent recovery code works again if and only if the list can be read, and was not saved or held a second hash of it |
| PasswordLogin.Engine.CheckSecondFactor | internal/engine/auth.go:141-156 | passes exactly when none is enrolled or the code is accepted; an unreadable enrolment fails closed; only a wrong code counts as a failure |
| PasswordLogin.Engine.LoginWithPassword | internal/engine/auth.go:112-176 | every answer if and only if its case applies: locked, wrong or unreadable credentials or a refused code, a missing code, an unreadable factor, a session opened or not stored; every unlocked attempt without the right password records a failure; to the throttle it is one guarded login |
| PasswordLogin.Engine.SetUserPassword | internal/engine/auth.go:42-64 | the password is stored before the sessions are deleted, and each failure leaves what was done before it |
| PasswordLogin.Engine.ChangeOwnPassword | internal/engine/auth.go:71-107 | every answer if and only if its case applies; a wrong current password records a failure; a password changes only with proof of the old one and the second factor; then every session of the user is gone, unless their deletion fails, and then none is |
| Replicas.ReplicaNamesDiffer | internal/engine/process.go:71-76 | replicas of one service never share a name |
| Replicas.NamesCollideIff | internal/engine/process.go:71-76 | two replicas, of one site or of two, share a name if and only if they are the same, or one is a template whose service is named like the other, where a domain's end may count as the beginning of its service |
| Replicas.ForeignIff | internal/engine/process.go:344-397 | a container of any site is out of reach of a reconciliation if and only if neither service is named like the other's replica, the domains' overhang included |
| Replicas.UnlikeServicesAreSafe | internal/engine/process.go:333-400 | a container out of reach, of this site or another, stays as it is |
| Replicas.RemoveExtras | internal/engine/process.go:344-360 | removes an unbroken stretch from `from` on and nothing else, ends on every finite container set, and stops at the first failure |
| Replicas.BringUpTo | internal/engine/process.go:376-397 | starts or creates the indexes in order and stops at the first failure, all before it running |
| Replicas.ReconcileService | internal/engine/process.go:333-400 | index 0 is never removed and no container of another name touched; success leaves exactly the survivors, the desired ones running, new ones with the template's image, environment, command and labels, their own replica label and the site network; what each failure leaves |
| Replicas.ExactIffNothingBeyondGap | internal/engine/process.go:344-360 | success means exactly the desired indexes if and only if nothing stood beyond a gap; always from a contiguous set |
| Replicas.FailedCreationKeepsContiguity | internal/engine/process.go:376-397 | a creation that fails part-way keeps a contiguous set contiguous |
| Replicas.FailedRemovalLeavesHoleIffLater | internal/engine/process.go:350-359 | a failed removal leaves a hole if and only if it was not the first |
| Replicas.ScalingTable.ScaleProcess | internal/engine/process.go:280-325 | the stored count changes only after the containers match it, and is the desired count from then on |
| VariableExpansion.ExpandVariables | internal/engine/driver.go:243-249 | every variable's token is replaced once, in some order, and a template that is sound for the variables expands to its simultaneous substitution |
| VariableExpansion.ExpandInPlace | internal/engine/driver.go:251-284 | every string of a slice is expanded where it stands |
| VariableExpansion.ReplaceIsSubstitution | internal/engine/driver.go:246 | one ReplaceAll replaces exactly the references to its variable |
| VariableExpansion.AnyOrderIsSimultaneous | internal/engine/driver.go:243-249 | replacing one variable after the other in any order is one simultaneous substitution |
| VariableExpansion.OrderFreeIffUncrossed | internal/engine/driver.go:243-249 | every order gives the same result on every well-formed template if and only if no value contains another variable's token or ends in a beginning of one, variables that expand to themselves aside |
| VariableExpansion.StableIffSettled | internal/engine/driver.go:243-249 | order does not matter and expanding twice is expanding once if and only if that holds of every value and every token, its own included |
| VariableExpansion.CrossedValueBreaksOrder | internal/engine/driver.go:245-247 | for any such value a template and two orders with different results |
| VariableExpansion.OwnTokenBreaksIdempotence | internal/engine/driver.go:245-247 | for any value that can take part in its own token a template that a second expansion changes |
| VariableExpansion.TextBeforeReferenceIsSafeIff | internal/engine/driver.go:245-247 | text before a reference makes no result depend on the order if and only if it does not end in a beginning of the other token |
| Text.LinesOfJoin | internal/engine/compose.go:74-147 | joining lines and splitting them again is the identity |
| EnvFile.ParseEnvFile | internal/engine/info.go:106-118 | the map of the last assignment of every key |
| EnvFile.LoadExample | internal/engine/compose.go:640-655 | the example's assignments, and an order that lists exactly their keys |
| EnvFile.Override | internal/engine/compose.go:657-663 | the driver's values win, in any iteration order |
| EnvFile.GenerateEnv | internal/engine/compose.go:636-671 | the generated file reads back as example overridden by driver if and only if the driver's entries are clean |
| EnvFile.RoundTripIffClean | internal/engine/info.go:106-118 | printing and parsing undo each other, in any order and with repeated keys, if and only if every entry is clean |
| ComposeSanitizer.Sanitize | internal/engine/compose.go:74-147 | the line loop computes the specified text |
| ComposeSanitizer.WritesExactlyTheSurvivors | internal/engine/compose.go:74-147 | the output is the input's lines in order: an ordinary line is written unchanged if and only if it stands in no port list, a container name becomes a hostname unless the last service line names a service that has one |
| ComposeSanitizer.HostnameLineIsOrdinary | internal/engine/compose.go:107-110 | the new hostname line keeps the indent and no pass touches it |
| ComposeSanitizer.SanitizingIsIdempotent | internal/engine/compose.go:74-147 | sanitizing twice equals sanitizing once, whatever each pre-parse reports |
| ComposeSanitizer.NothingForbiddenIsLeft | internal/engine/compose.go:97-129 | no ports, container name or project name line is left |
| ComposeSanitizer.PortItemsAreNotWritten | internal/engine/compose.go:114-142 | no line from a bare `ports:` through its blank, deeper or dashed lines is written, container names aside, as long as no further bare `ports:` stands among them |
| ComposeSanitizer.BracketedPortsAreNotWritten | internal/engine/compose.go:120-135 | nor any line from an opening `ports: [` through the line with the closing bracket |
| ComposeSanitizer.LineAfterItemsIsWritten | internal/engine/compose.go:136-146 | the first line after the items is written unchanged, unless it is a key that the pass drops or replaces or a bracketed list is open |
| ComposeSanitizer.HostnameIsTheContainerName | internal/engine/compose.go:107-110 | the hostname written for a container name is that name without its quotes, at the old indent |
| ComposeSanitizer.IndentIsThatOfTheFirstChild | internal/engine/compose.go:86-92 | in any file the indent of services is that of the first line with content, since the last bare `services:`, that comes when the last line written is a `services:`; which lines are written is said of the file alone |
| ComposeSanitizer.ServiceIsThatOfTheLastServiceLine | internal/engine/compose.go:93-95 | in any file the service in force is that of the last bare key at that indent |
| ComposeSanitizer.ContainerNameIsDroppedIffItsServiceIsRecognised | internal/engine/compose.go:101-112 | in any file a container name is dropped if and only if the last service line names a service with a hostname, and becomes a hostname otherwise |
| ComposeSanitizer.DecoratedServicesLineHidesEveryHostname | internal/engine/compose.go:88-90 | where no line is exactly `services:` every container name becomes a hostname |
| ComposeSanitizer.HostnameIsSeenIffChildFollowsAtOnce | internal/engine/compose.go:86-106 | below one bare `services:` and a bare key of a service with a hostname, a container name is dropped if and only if the line after `services:` is neither blank nor a comment |
| SharedNetworks.Engine.CreateSharedNetwork | internal/engine/networks.go:35-52 | a valid new name is recorded, and a bridge that cannot be made takes it back |
| SharedNetworks.Engine.DeleteSharedNetwork | internal/engine/networks.go:65-82 | network and memberships go together or not at all |
| SharedNetworks.Engine.AddSiteToNetwork | internal/engine/networks.go:87-108 | a site joins only a network of its own owner; every refusal changes nothing |
| SharedNetworks.Engine.RemoveSiteFromNetwork | internal/engine/networks.go:111-118 | the one membership goes, the container link as far as Docker lets it |
| SharedNetworks.Engine.LeaveAllSharedNetworks | internal/engine/networks.go:125-136 | every membership goes unless a database call failed |
| SharedNetworks.Engine.ReconnectSharedNetworks | internal/engine/networks.go:141-149 | containers are attached only to networks their site is a member of |
| SharedNetworks.Engine.TransferSite | internal/engine/user.go:168-193 | networks are left before the owner changes, and only when it changes |
| SharedNetworks.OwnersStayIffHarmless | internal/engine/networks.go:84-136 | a step, whole operation or unlocked part of one, keeps every member an existing site of the network's owner if and only if no failure it passes over mattered, an insertion is authorized when it is made, and an owner changes only while the site is in no network |
| SharedNetworks.WiresStayIffUnhooked | internal/engine/networks.go:170-178 | containers stay attached only where their site is a member if and only if no link that a step removes from the records stayed up, be it for a failed disconnection or a container that could not be removed |
| SharedNetworks.IdsStayDistinctIffChecked | internal/engine/engine.go:234-248 | where check and insertion are one step, two sites never share an internal identifier if and only if the check could list the sites or had nothing to find |
| SharedNetworks.TwoCreationsStayDistinctIffTheyDoNotCollide | internal/engine/engine.go:242-250 | two creations that both pass the check before either inserts leave identifiers distinct if and only if their names do not collide |
| SharedNetworks.NetworksNeverBridgeOwners | internal/engine/engine.go:621-663 | in every state harmless steps lead to, operations without a lock interleaved part by part, networks join existing sites of one owner only, in the records and on the wire |
| SharedNetworks.JoinAfterStepKeepsOwnersIff | internal/engine/networks.go:88-103 | a join that meets another step between its check and its insertion leaves only members of the owner if and only if that step spares the network, the site and its owner |
| SharedNetworks.JoinDuringTransferSurvivesIt | internal/engine/user.go:186-193 | an authorized join between the two halves of a transfer leaves a member of another owner |
| SharedNetworks.JoinDuringDeletionStaysAttached | internal/engine/networks.go:73-79 | an authorized join between the two halves of a network's deletion leaves containers attached to it without a membership |

## Left out

- HTTP handlers, routes, the CLI, PHP extensions and authorisation tables: thin wrappers or decision tables.
- SQL, YAML, JSON and zip encodings: tables are sets and maps, documents are taken as parsed.
- HMAC, bcrypt, AES-GCM, scrypt and randomness: uninterpreted functions or parameters; the archive's encryption is not modelled.
- Docker, git, Traefik, quotas, SFTP and remote storage: finite maps whose calls may fail.
- Wall-clock time in the hub: pending timers are one queue, a timer joins it in the step that emits, and firing in order is a premise.
- Wrap-around of the 64-bit generation counter: `BeginStep` computes it, the run-level results assume it is not reached.
- SiteLocks.OperationsAreDisciplined: operations are given by the order of their lock, begin, event and end calls, with the guards between them left to chance; their other effects are not modelled.
- BackupRestore.CreateBackup: declared paths are the site root or none; other declared paths share one archive prefix and would not come back where they were. Only regular files, directories and symlinks exist, and the dumps and the metadata, whose database password may come from a file, are taken as given.
- BackupRestore.RestoreBackup: the environment column and the replay of database dumps; the site's containers are not part of the disk. Nothing else writes to the disk meanwhile, and inspecting a path never fails.
- BackupRestore.RestoreUndoesBackup: while the restore runs the roots lead to two directories of which neither contains the other; `StoredEntriesStand` covers the others entry by entry.
- Retention: stored objects are one set, in which a site's local backups are those of its owner's directory.
- Retention.EveryRowHasItsObject: the steps of a run are fair, and the lemma beside it shows that no weaker condition will do.
- LoginThrottle, RateLimiter and WebhookCooldown take a clock that never runs backwards, and one login is one step.
- SecondFactor.AcceptedStepsIncrease: times are in the second step of the epoch or later, and every database call succeeds; the lemmas on swallowed failures are about single calls.
- SecondFactor.Account.Enable2FA: the database calls of enrolment and disabling, other than the flag's read, succeed.
- PasswordLogin.Engine.LoginWithPassword: session tokens and their expiry are not modelled.
- Replicas.ScalingTable.ScaleProcess: the site lock around it is part of SiteLocks; the lookup of site and driver is left out.
- VariableExpansion.OrderFreeIffUncrossed: names are free of `$`, `{` and `}`, and it ranges over well-formed templates, in which no literal but the last can become part of a known reference.
- VariableExpansion.ExpandInPlace: one slice stands for the driver's fields, which are all expanded alike.
- ComposeSanitizer.Sanitize: which services declare a hostname is a parameter, and so which YAML service a line belongs to is not modelled; characters stand for bytes.
- SharedNetworks: site creation, rollback and destruction are step functions only, and the files a transfer moves are left out.
- Aliases, uptime checks, statistics, self-update, DNS and egress checks.
