# A model of the El Carro operator in Dafny

El Carro runs Oracle databases on Kubernetes. Its controllers are step functions: a reconcile reads a
stored object, possibly an old version of it, does one thing, and writes the object back, and any call
on the way may fail or be lost. This project models the controllers whose steps are destructive or whose
arithmetic decides what can be recovered, and proves what holds over whole runs.

To verify the project, run `dafny verify dfyconfig.toml`.

| file | models |
|---|---|
| Instances.dfy | the stored Instance, its versions, stale copies, lost messages, other writers |
| MaintenanceLock.dfy | the maintenance lock, built from the version check alone |
| Restore.dfy, RestoreOutcome.dfy | the restore state machine, and what the answers make of a restore |
| Patching.dfy, PatchOutcome.dfy, Readiness.dfy | the patching state machine, what the answers make of a patch, and what its check of the snapshots says |
| Standby.dfy, StandbyOutcome.dfy | the standby state machine, and what the answers make of a standby |
| Schedules.dfy, Children.dfy, Cron.dfy, TriggerResults.dfy, StaleReads.dfy, ResolvedOnce.dfy | the CronAnything scheduler, what its history says, and what reading an old version does to it |
| Cleanup.dfy | its clean-up of finished children |
| Backups.dfy | the backup state machine, alone and together with the scheduler |
| Retention.dfy, Calendar.dfy, Pruning.dfy | how many backups are kept, and which are pruned |
| RestorePoint.dfy, RecoveryWindows.dfy | the backup a recovery starts from, and the windows that are advertised |
| Privileges.dfy | synchronising database users |
| Resize.dfy | growing disks |
| Maintenance.dfy | maintenance windows |
| Names.dfy | names made from namespaces |
| Common.dfy, Sorting.dfy | shared by the rest |

Code that updates objects or loops is a class or a method here, proved against a specification
function or predicate; the properties of whole runs are lemmas about those. The answers of the
database, of the agents and of other Kubernetes objects are inputs, as are clocks; the proofs hold
for all of them.

## What the proofs found

- Patching snapshots and checks the disks that the instance lists itself, but deletes the volumes of the
  disks that it has, which come from the configuration or from the defaults when it lists none
  (oracle/controllers/resources.go:679-687). Deleted volumes are covered in every run exactly if the
  instance lists its disks or has none: `VolumesCoveredIff`.
- The retention count is computed for the window that starts on 1 January 2020. It suffices exactly if that
  window is a busiest one: `RetentionSpansIff`. It is for every regular schedule and every schedule that
  repeats weekly; it is not for the days 15 to 20 of each month: `MidMonthUndercounts`.
- The check of the snapshots before a patch rejects those known to be unready. One whose readiness is not known
  yet passes, as does one with an error but no message, and the StatefulSet may be deleted on the strength of
  it: `ReliesOnReadyIff`, `TellingLooksSuffice`.
- A scheduler that decides on an old version may leave a trigger pending that is not later than the last one, and
  resolve a tick twice: `StaleReadSpoilsStatus`, `StaleReadResolvesTwice`. Over whole runs, `StatusConsistentIff`
  says exactly when all versions stay consistent, and `EveryTickOnceIff` exactly when no tick is resolved twice.
  No tick is lost and the last schedule time never goes back, however old what it reads: `EveryTickResolved`,
  `NeverGoesBack`.
- A reconcile of a restore that reads an old version may delete the StatefulSet or a volume that its own restore has
  just made: `StaleReadDeletesTooLate`. It happens exactly if the version it read is older than the one that
  started the job: `DeletedTooLateIff`.
- The patching machine asks whether Oracle is running at three places and prepares for an error each time;
  `isOracleUpAndRunning` (oracle/controllers/instancecontroller/utils.go:612-623) never returns one, so the
  model has no such branch.
- Backups created in the same second come in any order, so a failed one that one pass spares the next may delete:
  `TiedFailureIsPrunedLater`. `PruneAgainDeletesNothingIff` says exactly when that cannot happen.
- The searches for a backup saturate a distance in time, wrap one between change numbers around, and skip one
  of exactly the greatest int64. Such a misfit does no harm as long as a usable backup at a distance that fits
  is in the list, and makes the search wrong otherwise: `SearchRightIff`.
- Creating a user only grants, so what roles drag along stays: `CreateConvergesIff`. The next pass mends it:
  `TwoPassesConverge`.
- The comment on `NextWindow` promises the current or the next window; the code looks at future starts only,
  and its caller asks about the current window separately. With a range of no extent the wait ends early:
  `WaitIsExactIff`.
- A resize waits for the capacity to equal the size that was asked for. Two disks of one name with different sizes,
  or a volume that came out larger than requested, keep it from ever ending: `ResizingEndsIff`,
  `LargerVolumeNeverCompletes`.
- A hash of zero gives a name that ends in a dash, and there are strings with that hash: `EndsInDashIff`,
  `ZeroHashExists`.

## Assumptions

- A write that changes nothing makes no new version. Each controller works on one copy at a time and has a
  name that is not empty.
- Whoever else writes the status of an instance changes LastRestoreTime or enters the two preparation states of a
  restore only as a step of a restore machine does; all else, the lock included, may be overwritten.
- A status write of the scheduler applies to the version that is stored, as its retry on conflict ensures. Its first
  read may be of any version, except where a row says that reads are current: that the last schedule time read
  is the one stored.
- While a patch is under way, others leave Status.BackupID and Status.ActiveImages alone and do not enter
  patching states; the disk lists do not change. A finishing backup does write BackupID
  (oracle/controllers/backupcontroller/backup_controller.go:117), so this is a real restriction.
- A schedule is its Next function: Next(t) is later than t, with no tick in between. A schedule that never
  fires is outside the model, as its loops would not end.
- Child resources have distinct names and UIDs. The scheduler's list of children shows every child there is.
- A succeeded backup is ready, and timestamps in annotations are whole seconds, as they are written.
- The roles of the database do not change during an update, and no system privilege has the name of a role.
- During one pass over the claims of an instance, nothing else changes them.

## Model

| member | source | states |
|---|---|---|
| `MaintenanceLock.AcquireInstanceMaintenanceLock` | oracle/controllers/instancecontroller/utils.go:715-746 | claims a free lock in the copy, writes the status in every case, and succeeds only if the write was accepted and the copy showed the lock free or the caller's; other writers and lost messages may come between |
| `MaintenanceLock.ReleaseInstanceMaintenanceLock` | oracle/controllers/instancecontroller/utils.go:748-764 | clears the lock only if the copy shows it as the caller's, writes the status in every case, and succeeds exactly if the write does |
| `MaintenanceLock.StepKeepsInv` | oracle/controllers/instancecontroller/utils.go:701-764 | one call of any controller, on a copy however old, keeps the invariant that holders are the stored owner and that current copies disagree with the store only about the caller's own unfinished call |
| `MaintenanceLock.MutualExclusion` | oracle/controllers/instancecontroller/utils.go:701-764 | over every interleaving of stale reads, acquires, releases and status and spec writes, some of them lost, whoever acquired and did not release is the stored owner, so no two controllers hold the lock |
| `MaintenanceLock.HeldUntilReleased` | oracle/controllers/instancecontroller/utils.go:701-764 | nothing but the holder's own release ends its tenure |
| `MaintenanceLock.AcquireDecides` | oracle/controllers/instancecontroller/utils.go:715-746 | with a fresh copy and nothing lost, an acquire succeeds exactly if the stored lock is free or the caller's |
| `Restore.RestoreTimeMonotone` | oracle/controllers/instancecontroller/instance_controller_restore.go:96-124 | LastRestoreTime never goes back over a history of stored versions |
| `Restore.GrantTimesIncrease` | oracle/controllers/instancecontroller/instance_controller_restore.go:96-155 | of two commits that let a job start, the later one is for a strictly later request time |
| `Restore.AtMostOneJobPerRequest` | oracle/controllers/instancecontroller/instance_controller_restore.go:148-188 | over every history the request times of the started jobs strictly increase, so no operation id is used twice |
| `Restore.DeletedTooLateIff` | oracle/controllers/instancecontroller/instance_controller_restore.go:125-188 | over every history, a deletion of the old StatefulSet or of a volume comes after the start of its own restore exactly if its reconcile had read a version older than the one that started the job |
| `Restore.CurrentReadDeletesInTime` | oracle/controllers/instancecontroller/instance_controller_restore.go:125-188 | so a reconcile of a current read never deletes after the start of its own restore |
| `Restore.StaleReadDeletesTooLate` | oracle/controllers/instancecontroller/instance_controller_restore.go:125-147 | whenever a snapshot restore is entered, prepared and started, a reconcile that still reads the first of these versions deletes too late |
| `Restore.SetRestoreOutcome` | oracle/controllers/instancecontroller/instance_controller_restore.go:309-348 | releases the lock, removes the request, notes the outcome; keeps the history legal under any interference, and is exactly that change when undisturbed |
| `Restore.BeginRestore` | oracle/controllers/instancecontroller/instance_controller_restore.go:96-124 | enters only for a request later than the last one and with the lock taken; commits the first preparation state with the new request time |
| `Restore.PrepareRestore` | oracle/controllers/instancecontroller/instance_controller_restore.go:125-147 | a snapshot restore deletes one thing a time, recorded with the version read and the newest one, or fails; once nothing is left preparation is complete |
| `Restore.LaunchRestore` | oracle/controllers/instancecontroller/instance_controller_restore.go:148-188 | starts at most one job, and only for a version it has itself committed as in progress over a completed preparation |
| `Restore.MonitorRestore` | oracle/controllers/instancecontroller/instance_controller_restore.go:189-233 | polls the job; keeps the history legal, and advances, waits or fails as specified when undisturbed |
| `Restore.BootstrapRestored` | oracle/controllers/instancecontroller/instance_controller_restore.go:234-265 | as above, for the bootstrap after a restore |
| `Restore.FinishRestore` | oracle/controllers/instancecontroller/instance_controller_restore.go:266-281 | as above, for the decision to end or to patch the database first |
| `Restore.MonitorPatching` | oracle/controllers/instancecontroller/instance_controller_restore.go:282-302 | as above, for the patching that follows a restore to another image |
| `Restore.RestoreStateMachine` | oracle/controllers/instancecontroller/instance_controller_restore.go:50-307 | one step on any copy keeps the history legal and starts at most one job, granted by a version stored during the step; undisturbed it is Advance |
| `Restore.Reconcile` | oracle/controllers/instancecontroller/instance_controller.go:118-126 | read, step, write back: keeps the invariant under every plan of interference, loss and staleness; starts and deletes at most one thing; when all calls go through the stored object becomes Advance of itself and what is deleted is deleted by a current read |
| `Restore.Reconciles` | oracle/controllers/instancecontroller/instance_controller.go:256-269 | after any number of reconciles the jobs started over the whole run have strictly increasing request times, and every deletion was too late exactly under the condition of DeletedTooLateIff |
| `Restore.RunningRestoreProgresses` | oracle/controllers/instancecontroller/instance_controller_restore.go:94-307 | with the request in place, a step of a running restore waits, strictly advances in rank with the lock held, or ends with the lock free and the request gone |
| `Restore.LockHeldExactlyWhileRunning` | oracle/controllers/instancecontroller/instance_controller_restore.go:94-348 | over every undisturbed run the machine owns the lock in exactly the running states |
| `Restore.CompleteOnlyAfterJob` | oracle/controllers/instancecontroller/instance_controller_restore.go:148-307 | no restore is called complete unless a reconcile on the way saw its job finish |
| `Restore.OverIsStable` | oracle/controllers/instancecontroller/instance_controller_restore.go:50-95 | once the request is gone every later reconcile of the machine changes nothing |
| `Restore.RestoreTerminates` | oracle/controllers/instancecontroller/instance_controller_restore.go:94-348 | a running restore takes at most 7 minus its rank effective reconciles, and then it is over with the lock free |
| `RestoreOutcome.AskedIff` | oracle/controllers/instancecontroller/instance_controller_restore.go:50-95 | the machine has anything to do exactly for a forced request on an instance and a database that have come up |
| `RestoreOutcome.EntersIff` | oracle/controllers/instancecontroller/instance_controller_restore.go:96-124 | a restore is entered exactly for a ready backup of a known type, a request later than the last one and a free lock; then lock, request time, cleared backup id and first state are all set |
| `RestoreOutcome.AdvanceByAnswer` | oracle/controllers/instancecontroller/instance_controller_restore.go:125-302 | in every running state, the answers that were bad end the restore as failed, the completing ones as complete, the open ones leave it as it is, and all others lead exactly one state on |
| `RestoreOutcome.OutcomeIff` | oracle/controllers/instancecontroller/instance_controller_restore.go:94-348 | over every undisturbed run a restore is complete exactly if a physical job finished at once, the image was that of the backup or the database was patched to it, and failed exactly if one of the failing answers was seen |
| `Patching.PrePatchBackup` | oracle/controllers/instancecontroller/instance_controller_patching.go:399-432 | takes the snapshots of the instance's disks in order up to the first error, and reports success exactly if all were taken |
| `Patching.IsPatchingBackupCompleted` | oracle/controllers/instancecontroller/instance_controller_patching.go:434-474 | says completed exactly if the snapshot of every listed disk has a status, no error with a message, and is not known to be unready; the first that fails this decides between waiting and failing |
| `Patching.DeleteOldSTSandPVCs` | oracle/controllers/instancecontroller/instance_controller_restore.go:618-663 | deletes the first thing still there, the StatefulSet before the volumes in order, and reports done only once nothing is left |
| `Patching.BeginPatching` | oracle/controllers/instancecontroller/instance_controller_patching.go:71-90 | from a stable state: refines the step over whose runs PatchingSafety holds; a failed image set is not tried again at once |
| `Patching.AwaitBackup` | oracle/controllers/instancecontroller/instance_controller_patching.go:91-102 | waiting for the snapshots: refines that step; it goes on only once the check has passed for every listed disk |
| `Patching.PatchStatefulSet` | oracle/controllers/instancecontroller/instance_controller_patching.go:128-152 | replacing the StatefulSet: refines that step; the deletion is logged with the snapshot it relies on |
| `Patching.RemoveFailed` | oracle/controllers/instancecontroller/instance_controller_patching.go:246-260 | removing a failed StatefulSet and its volumes: refines that step; at most one deletion a time |
| `Patching.RecoverFromFailure` | oracle/controllers/instancecontroller/instance_controller_patching.go:261-286 | restoring the snapshots under the active images: refines that step |
| `Patching.TrackProgress` | oracle/controllers/instancecontroller/instance_controller_patching.go:103-245 | the states that only wait for something else: refine that step and delete nothing |
| `Patching.PatchingStateMachine` | oracle/controllers/instancecontroller/instance_controller_patching.go:64-292 | the whole machine refines that step: the new status and everything done to the cluster, in order |
| `Patching.StepAllowed` | oracle/controllers/instancecontroller/instance_controller_patching.go:71-286 | what a step does from a backed status is allowed by the log so far |
| `Patching.StepBacked` | oracle/controllers/instancecontroller/instance_controller_patching.go:71-286 | the status a step leads to is backed by the log with that step |
| `Patching.PatchingSafety` | oracle/controllers/instancecontroller/instance_controller_patching.go:71-286 | over every run, with stale copies, lost writes and other writers, each deletion of the StatefulSet or of a volume follows a start of its patch and then a completed check of every spec disk's snapshot, and each recovery uses that snapshot and the images active at that start |
| `PatchOutcome.EntersMeans` | oracle/controllers/instancecontroller/utils.go:599-610 | the machine is entered while it is at work, else only if enabled and ready and for images that are new and have not failed |
| `PatchOutcome.CheckByAnswer` | oracle/controllers/instancecontroller/instance_controller_patching.go:91-102 | the patch goes on exactly if every snapshot passes, and fails exactly if the first that does not is unreadable or in error |
| `PatchOutcome.RemoveByAnswer` | oracle/controllers/instancecontroller/instance_controller_patching.go:246-260 | one thing that is still there is deleted, the StatefulSet before the volumes; recovery starts exactly when all are gone |
| `PatchOutcome.TrackByAnswer` | oracle/controllers/instancecontroller/instance_controller_patching.go:103-286 | deployments, StatefulSet, database and recovery: the next state follows from whether the stage's own answer was good or bad, and what is deleted or recovered with it |
| `PatchOutcome.StepByAnswer` | oracle/controllers/instancecontroller/instance_controller_patching.go:64-292 | in every state the next one, and all the status remembers of backup, images, failed images and activity, follow from the answers as they were good, bad or neither |
| `PatchOutcome.OutcomesAreEarned` | oracle/controllers/instancecontroller/instance_controller_patching.go:64-292 | over every run, images become active and the instance complete only after a reconcile of the same backup was told in time that the database is patched, and every volume deleted and every recovery follows a reconcile of the same backup that ran into a timeout or an error |
| `Patching.UncoveredVolumeDeleted` | oracle/controllers/resources.go:679-687 | an instance without a disk list of its own has a run, from new images through a StatefulSet that cannot be rebuilt, that deletes a volume of which no snapshot was ever checked |
| `Patching.VolumesCoveredIff` | oracle/controllers/resources.go:679-687 | every deleted volume is covered by a checked snapshot in all runs that enter the machine as the source does, exactly if the instance lists its disks or has no volumes |
| `Patching.Reconciles` | oracle/controllers/instancecontroller/instance_controller_patching.go:64-292 | any number of reconciles that enter the machine as the source does, with stale copies, lost writes and other writers: everything done to the cluster is allowed by what was done before |
| `Readiness.PassedIsReadyIff` | oracle/controllers/instancecontroller/instance_controller_patching.go:460-470 | a snapshot that passes the check is known to be ready exactly if its status tells: it says whether the snapshot is ready, and an error comes with a message |
| `Readiness.TellingLooksSuffice` | oracle/controllers/instancecontroller/instance_controller_patching.go:434-474 | over every run in which every status seen tells, nothing is deleted before all snapshots of its patch were known to be ready |
| `Readiness.UnreadySnapshotReliedOn` | oracle/controllers/instancecontroller/instance_controller_patching.go:468-470 | with any disk to snapshot, an ordinary successful patch replaces the StatefulSet although no snapshot was known to be ready |
| `Readiness.ReliesOnReadyIff` | oracle/controllers/instancecontroller/instance_controller_patching.go:434-474 | in all runs deletions rest on snapshots known to be ready exactly if there are no snapshots |
| `Standby.Instance.ReconcileDataGuard` | oracle/controllers/instancecontroller/instance_controller_standby.go:354-379 | records the settings as current exactly if the host is known, the secret is given and the call succeeded |
| `Standby.Instance.ReconcilePromoteStandby` | oracle/controllers/instancecontroller/instance_controller_standby.go:470-497 | promotes only if settings were recorded; otherwise it skips to completed |
| `Standby.Instance.VerifyAndCreate` | oracle/controllers/instancecontroller/instance_controller_standby.go:64-152 | up to a created standby: refines the step over whose runs PromotionNeverSkipped holds |
| `Standby.Instance.SetUpDataGuard` | oracle/controllers/instancecontroller/instance_controller_standby.go:156-200 | setting up Data Guard: refines that step |
| `Standby.Instance.Replicate` | oracle/controllers/instancecontroller/instance_controller_standby.go:208-237 | replicating until the settings are withdrawn: refines that step |
| `Standby.Instance.StandbyStateMachine` | oracle/controllers/instancecontroller/instance_controller_standby.go:55-292 | the whole machine refines that step, with the calls it makes |
| `Standby.StepBacked` | oracle/controllers/instancecontroller/instance_controller_standby.go:87-250 | from a backed version every step leads to a backed version |
| `Standby.PromotionNeverSkipped` | oracle/controllers/instancecontroller/instance_controller_standby.go:87-250 | over every run with stale reads, lost writes and spec edits: settings are recorded in every state from created to promotion failed; a promote call only follows a Data Guard set-up and the withdrawal of the settings; nothing counts as promoted before a promote call succeeded |
| `StandbyOutcome.StepByAnswer` | oracle/controllers/instancecontroller/instance_controller_standby.go:55-292 | in every state the next one follows from whether the stage's own answer was good or bad |
| `StandbyOutcome.StatusByAnswer` | oracle/controllers/instancecontroller/instance_controller_standby.go:55-292 | the settings in force, the Data Guard output and readiness after each step |
| `StandbyOutcome.CallsByAnswer` | oracle/controllers/instancecontroller/instance_controller_standby.go:354-497 | exactly when Data Guard is set up and a promote call is made, and with what outcome |
| `StandbyOutcome.StatesAreEarned` | oracle/controllers/instancecontroller/instance_controller_standby.go:64-292 | over every run, a verified version follows a verification that succeeded, a created or promoted one a creation seen done, a failed creation an error, and a bootstrapped one a bootstrap that succeeded |
| `Standby.Reconciles` | oracle/controllers/instancecontroller/instance_controller_standby.go:55-292 | any number of reconciles of the machine and spec edits: promote calls and promoted versions come only after what they need, and settings are recorded from creation to promotion |
| `Schedules.TicksAreExact` | common/controllers/cronanything_controller.go:648-675 | the ticks of an interval are strictly increasing and exactly the schedule's ticks strictly inside it |
| `Schedules.TicksPrefix` | common/controllers/cronanything_controller.go:648-675 | cutting the list of ticks at one of them cuts the interval there |
| `Schedules.GetScheduleTimes` | common/controllers/cronanything_controller.go:648-675 | terminates with exactly the ticks in the open interval from the last schedule time to now, ascending, and the earliest tick after now |
| `Children.ActiveChildren` | common/controllers/cronanything_controller.go:519-543 | the children that are not finished, a failing lookup counting as unfinished |
| `Children.Decide` | common/controllers/cronanything_controller.go:210-302 | a child is created exactly if the trigger is in time, the listed children are finished or concurrency is allowed, and the limit is not reached; the deadline decides before the policy, the policy before the limit |
| `Children.FinishedMeans` | common/controllers/cronanything_controller.go:545-577 | finished is exactly that the field holds a timestamp, or one of the given values; without a strategy nothing is |
| `Cron.ResolveKeepsInv` | common/controllers/cronanything_controller.go:354-366 | resolving a tick later than the last one keeps the status consistent: at most ten records, strictly newest first, headed by the last schedule time |
| `Cron.CronAnything.CloseTicks` | common/controllers/cronanything_controller.go:177-206 | one write resolves the ticks it names, or nothing if it is lost; a lost reply leaves the write in place |
| `Cron.CronAnything.HandleTrigger` | common/controllers/cronanything_controller.go:208-352 | deadline, concurrency policy, limit and creation for the last tick, written onto the stored status, with an error exactly if the create failed or the write was not confirmed: refines the step over whose runs the theorems below hold |
| `Cron.CronAnything.Reconcile` | common/controllers/cronanything_controller.go:119-352 | one reconcile refines that step: the ticks due by the version it read, which may be any, resolved in the stored one |
| `TriggerResults.HistoryTellsTheTruth` | common/controllers/cronanything_controller.go:177-366 | over every run, whatever is read, answered or lost: each result is recorded exactly under its cause, a success only after a create of its tick that succeeded and a failure only after one that failed, and every record of the history repeats an entry of the log |
| `TriggerResults.LastTickIsRecorded` | common/controllers/cronanything_controller.go:208-352 | a create is tried exactly if the trigger is in time, unhindered and within the limit, and the tick is recorded exactly if there is something to say and the write is not lost |
| `Cron.StatusStaysConsistent` | common/controllers/cronanything_controller.go:177-366 | over every run of current reads, with schedules, clocks and answers that change and status writes that fail: in every version stored at most ten records, strictly newest first, the first one of the last schedule time, and a pending trigger strictly later than it |
| `Cron.ReconcileAccounts` | common/controllers/cronanything_controller.go:164-206 | a reconcile of a current read resolves exactly the ticks by which the last schedule time moves, in order, and tries only later ones |
| `Cron.EveryTickResolvedOnce` | common/controllers/cronanything_controller.go:164-206 | over every run of current reads with a fixed schedule the ticks resolved are exactly those from creation to the last schedule time, each once and in order, and none is tried again once resolved |
| `StaleReads.NeverGoesBack` | common/controllers/cronanything_controller.go:354-384 | over every run, whatever version each reconcile reads: the last schedule time never goes back and no version has more than ten records |
| `StaleReads.EveryTickResolved` | common/controllers/cronanything_controller.go:164-206 | over every run with a fixed schedule, whatever version each reconcile reads: the ticks resolved are exactly those from creation to the last schedule time, though maybe more than once |
| `StaleReads.KeepsStatusIff` | common/controllers/cronanything_controller.go:164-352 | a reconcile keeps every version it stores consistent exactly if nothing is due, its only write is lost, it only replaces children, or the first tick it writes is later than the stored last schedule time |
| `StaleReads.StatusConsistentIff` | common/controllers/cronanything_controller.go:164-366 | over every run, whatever versions are read: all versions stored are consistent exactly if every reconcile meets that condition |
| `StaleReads.StaleReadSpoilsStatus` | common/controllers/cronanything_controller.go:318-331 | under any schedule two reconciles of one old version, the second of which cannot create the child again, leave a trigger pending that is not later than the last schedule time |
| `StaleReads.StaleReadResolvesTwice` | common/controllers/cronanything_controller.go:238-258 | under any schedule and the Forbid policy two reconciles of one old version, the second of which sees the child of the first, resolve a tick twice |
| `StaleReads.Reconciles` | common/controllers/cronanything_controller.go:119-384 | any number of reconciles of an object, on whatever versions they read, achieve the first two of these, and the two theorems above if the reads are current |
| `ResolvedOnce.StepOnceIff` | common/controllers/cronanything_controller.go:164-352 | after any run, a reconcile keeps every tick resolved at most once exactly if it resolves nothing, as told by its inputs, or has read the stored last schedule time |
| `ResolvedOnce.EveryTickOnceIff` | common/controllers/cronanything_controller.go:164-352 | over every run under one schedule, whatever versions are read: no tick is resolved twice exactly if every reconcile resolves nothing or has read the stored last schedule time |
| `Cleanup.NewByTimestamp` | common/controllers/cronanything_controller.go:407-420 | the cache holds exactly the readable timestamps |
| `Cleanup.LessIsStrictWeakOrder` | common/controllers/cronanything_controller.go:424-442 | irreflexive, transitive, and ties are transitive |
| `Cleanup.SortedMeans` | common/controllers/cronanything_controller.go:424-442 | readable timestamps come first, newest first, and then the others, those created last first |
| `Cleanup.ChooseDoomed` | common/controllers/cronanything_controller.go:461-486 | what is chosen is all but a first part of the history that the limits allow and that cannot be longer |
| `Cleanup.ExpiredMeans` | common/controllers/cronanything_controller.go:478-481 | with exact seconds a child has expired exactly if it is older than the limit; a missing timestamp counts as the longest age, an unreadable one not at all |
| `Cleanup.DeleteInactiveResources` | common/controllers/cronanything_controller.go:493-517 | the names deleted are those chosen, not already being deleted, whose delete succeeded; the list returned drops exactly these |
| `Cleanup.CleanupHistory` | common/controllers/cronanything_controller.go:446-489 | without limits nothing changes; otherwise, however ages are rounded to seconds, the history is sorted newest first, everything behind the exact cut is deleted if its delete succeeds, all else remains, and no unfinished child is lost |
| `Cleanup.CutIsASuffix` | common/controllers/cronanything_controller.go:461-486 | at most the count limit is kept, no chosen child is newer than a kept one, none kept has expired, and below the count limit all chosen have expired |
| `Backups.BackupObject.ReconcileVerifyExists` | oracle/controllers/backupcontroller/backup_controller.go:173-225 | the verify mode: refines the step that FinishedStaysFinished is about |
| `Backups.BackupObject.ReconcileBackupCreation` | oracle/controllers/backupcontroller/backup_controller.go:227-336 | the creation mode: refines that step |
| `Backups.BackupObject.ReconcileBackupDeletion` | oracle/controllers/backupcontroller/backup_controller.go:339-389 | the deletion mode: refines that step; the object goes only after a second reconcile |
| `Backups.BackupObject.Reconcile` | oracle/controllers/backupcontroller/backup_controller.go:127-149 | one reconcile in any mode refines that step |
| `Backups.FinishedStaysFinished` | oracle/controllers/backupcontroller/backup_controller.go:173-389 | no step leads a finished backup back to a running phase, in any mode |
| `Backups.SucceedsIffDone` | oracle/controllers/backupcontroller/backup_controller.go:173-336 | a backup comes to succeed exactly by a verification, or by a finished job whose metadata were recorded |
| `Backups.FailsIff` | oracle/controllers/backupcontroller/backup_controller.go:173-336 | a backup comes to fail exactly if it cannot be or is not verified, if its instance is not ready at the start, or if its job is lost or fails |
| `Backups.WaysOfABackup` | oracle/controllers/backupcontroller/backup_controller.go:227-336 | pending, identified, in progress once the job was created; otherwise it waits |
| `Backups.WaysOfADeletion` | oracle/controllers/backupcontroller/backup_controller.go:339-389 | marked first, and gone exactly when a later reconcile has removed its data |
| `Backups.Reconciles` | oracle/controllers/backupcontroller/backup_controller.go:127-149 | any number of reconciles of one backup: once finished it never runs again |
| `Backups.HandleReconcile` | oracle/controllers/backupcontroller/backup_controller.go:127-149 | a worker's reconcile on its copy, stored only if the copy is current, is the step of the interleaving below |
| `Backups.AtMostOneRunningBackup` | common/controllers/backupschedule_controller.go:149-163 | over every interleaving of the scheduler under Forbid or Replace with workers on stale copies, deletes and spec edits, at most one child is ever in phase empty, Pending or InProgress |
| `Retention.CalculateBackupRetentionCnt` | oracle/controllers/pitrcontroller/pitr_controller.go:188-201 | one more than the least number of ticks after 1 January 2020 that reaches the end of the window, in an int32 that cannot overflow for windows up to 68 years |
| `Retention.BackupScheduleTemplate` | oracle/controllers/pitrcontroller/pitr_controller.go:203-212 | the schedule given or every four hours, and the retention for seven days |
| `Retention.RetentionSpansIff` | oracle/controllers/pitrcontroller/pitr_controller.go:188-201 | any that many distinct ticks span the window exactly if no window that opens at a tick takes more steps than the one that was counted |
| `Retention.RegularScheduleIsCounted` | oracle/controllers/pitrcontroller/pitr_controller.go:188-201 | that condition holds for every period and phase |
| `Retention.RepeatingScheduleIsCounted` | oracle/controllers/pitrcontroller/pitr_controller.go:188-201 | that condition holds for every schedule that repeats with the window, as all without month or day of month do weekly |
| `Retention.SilentFirstWeekUndercounts` | oracle/controllers/pitrcontroller/pitr_controller.go:188-212 | a schedule silent in the first week of 2020 and daily later keeps two backups a day apart for a window of a week |
| `Calendar.MidMonthUndercounts` | oracle/controllers/pitrcontroller/pitr_controller.go:188-212 | the days 15 to 20 of every month are such a schedule: two backups a day apart are kept for a window of a week |
| `Calendar.MidMonthTicks` | oracle/controllers/pitrcontroller/pitr_controller.go:188-201 | its ticks are the midnights of these days of the Gregorian calendar and no others |
| `Pruning.SortBackups` | common/controllers/backupschedule_controller.go:282-294 | a permutation, newest first |
| `Pruning.PruneBackups` | common/controllers/backupschedule_controller.go:230-252 | spares exactly the backups with fewer than the limit of succeeded ones before them and deletes the rest in order; a failing delete stops it there; limit zero deletes nothing |
| `Pruning.PrunedAreOlder` | common/controllers/backupschedule_controller.go:230-252 | if anything is pruned, what is newer than the max-th newest succeeded backup is spared and what is older is pruned |
| `Pruning.PruneAgainDeletesNothingIff` | common/controllers/backupschedule_controller.go:230-252 | a second pass deletes nothing, however what the first left is sorted, exactly if fewer than the limit of it succeeded or no failed one was created in the second of the oldest |
| `Pruning.TiedFailureIsPrunedLater` | common/controllers/backupschedule_controller.go:282-294 | with a limit of one, a failed and a succeeded backup of the same second: one order spares both, the next deletes the failed one |
| `Pruning.RetentionCoversWindow` | common/controllers/backupschedule_controller.go:230-252 | whenever pruning with the computed retention deletes anything, a succeeded backup scheduled at or before now minus the window is spared, and it was created at most the creation delay later |
| `Pruning.OrdinarySchedulesAreCovered` | oracle/controllers/pitrcontroller/pitr_controller.go:188-212 | so for every regular schedule and every one that repeats with the window, pruning covers the window or deletes nothing |
| `RestorePoint.FindByTimestamp` | oracle/controllers/instancecontroller/instance_controller_restore_pitr.go:102-129 | the first of the eligible backups at the least distance, or none if none is eligible |
| `RestorePoint.FindByScn` | oracle/controllers/instancecontroller/instance_controller_restore_pitr.go:131-157 | the same with 64-bit subtraction that wraps around |
| `RestorePoint.JudgedRightlyIff` | oracle/controllers/instancecontroller/instance_controller_restore_pitr.go:117-121 | a backup is taken as usable exactly if it is ready and not after the target, if and only if its distance fits: below the greatest int64 for times, from -2^63 - 1 to 2^63 - 2 for change numbers |
| `RestorePoint.FittingBeatsMisfit` | oracle/controllers/instancecontroller/instance_controller_restore_pitr.go:117-121 | a backup whose distance does not fit loses to every usable one whose distance does, by time and by change number |
| `RestorePoint.SearchReaches` | oracle/controllers/instancecontroller/instance_controller_restore_pitr.go:102-157 | a usable backup at a fitting distance anywhere in the list makes the search right, and its result at least as late |
| `RestorePoint.SearchRightIff` | oracle/controllers/instancecontroller/instance_controller_restore_pitr.go:102-157 | the search returns the latest ready backup not after the target, or none if there is none, exactly if no distance in the list fails to fit or some usable backup's fits |
| `RestorePoint.MisfitMayOrMayNotHurt` | oracle/controllers/instancecontroller/instance_controller_restore_pitr.go:102-129 | a single backup out of reach is not found; with one in reach beside it the search is right |
| `RestorePoint.NaturalScnsFit` | oracle/controllers/instancecontroller/instance_controller_restore_pitr.go:146-147 | for non-negative change numbers the only misfit is 0 seen from the greatest int64 |
| `RestorePoint.NaturalScnSearchRightIff` | oracle/controllers/instancecontroller/instance_controller_restore_pitr.go:131-157 | with non-negative change numbers the search is wrong only for the greatest target, if there are ready backups at 0 and none above |
| `RestorePoint.FindIn` | oracle/controllers/instancecontroller/instance_controller_restore_pitr.go:87-100 | one list: the error for no backups, for an unreadable number, for nothing suitable, or the search result |
| `RestorePoint.FindForRestore` | oracle/controllers/instancecontroller/instance_controller_restore_pitr.go:33-85 | preflight errors, the chosen incarnation, and the parent incarnation of its first backup only if the first search fails |
| `RestorePoint.NamedIncarnationDecides` | oracle/controllers/instancecontroller/instance_controller_restore_pitr.go:47-55 | an incarnation in the request decides, whatever the point-in-time object and the instance say |
| `RestorePoint.UnnamedIncarnationDecides` | oracle/controllers/instancecontroller/instance_controller_restore_pitr.go:47-55 | without one, a reference makes that of the object decide, and no reference that of the instance |
| `RestorePoint.ErrorsMean` | oracle/controllers/instancecontroller/instance_controller_restore_pitr.go:33-100 | what each error says about the request, the lists and the backups |
| `RestorePoint.RestoreStartsFromLatest` | oracle/controllers/instancecontroller/instance_controller_restore_pitr.go:33-85 | if the lists are such that searches are right, what is returned belongs to the object, is usable, is the latest of its incarnation, and comes from another incarnation only if the chosen one has nothing usable, and then from the parent of its first backup |
| `RecoveryWindows.Tabulate` | oracle/controllers/pitrcontroller/pitr_controller.go:439-450 | one succeeded backup for each time of one |
| `RecoveryWindows.Search` | oracle/controllers/pitrcontroller/pitr_controller.go:465-467 | binary search: the first key not before the start of the range |
| `RecoveryWindows.Pitr.UpdateStatus` | oracle/controllers/pitrcontroller/pitr_controller.go:426-493 | publishes one time window and one change number window for each range with a succeeded backup in it, in order; errors before that leave the status alone |
| `RecoveryWindows.WindowBelongs` | oracle/controllers/pitrcontroller/pitr_controller.go:464-483 | a window begins at the first succeeded backup inside one of the agent's ranges and ends where the range does |
| `RecoveryWindows.OpenRangeIsAdvertised` | oracle/controllers/pitrcontroller/pitr_controller.go:464-483 | every range with a succeeded backup in it is advertised from that backup or earlier |
| `RecoveryWindows.AdvertisedIsRestorable` | oracle/controllers/instancecontroller/instance_controller_restore_pitr.go:33-129 | for every target in a published window the restore over the same backups, by reference to the object whatever incarnation the instance is in, or without a reference in the instance's own, returns the latest ready backup not after the target, never before the window begins |
| `RecoveryWindows.AdvertisedScnIsRestorable` | oracle/controllers/instancecontroller/instance_controller_restore_pitr.go:33-157 | the same for change numbers, wherever the distance to the beginning of the window fits |
| `Privileges.Compare` | oracle/controllers/user_repository.go:455-459 | left without right, both, right without left |
| `Privileges.User.Diff` | oracle/controllers/user_repository.go:195-217 | grants are the specification without what is held, revokes the reverse |
| `Privileges.User.Execute` | oracle/controllers/user_repository.go:331-363 | all statements take effect, or some first ones and an error; no other user is touched |
| `Privileges.User.UpdateRolePrivs` | oracle/controllers/user_repository.go:264-289 | afterwards the roles are exactly those specified, whatever happened to system privileges |
| `Privileges.User.UpdateSysPrivs` | oracle/controllers/user_repository.go:291-317 | afterwards the system privileges are exactly those specified and the roles are as before |
| `Privileges.User.Update` | oracle/controllers/user_repository.go:239-248 | for any effect of roles on system privileges, success leaves exactly the specification; it succeeds exactly if none of its calls fails |
| `Privileges.User.Create` | oracle/controllers/user_repository.go:219-237 | succeeds exactly if the user is new and no call fails, and then the user holds what the grants bring |
| `Privileges.DiffUsers` | oracle/controllers/user_repository.go:41-79 | exactly the users to create, those whose privileges differ, and those not specified; it succeeds exactly if no query fails |
| `Privileges.UpdateUsers` | oracle/controllers/config_agent_helpers.go:466-513 | an error-free pass brings every existing specified user to its specification and creates the others; users not specified are never touched, errors or not; it is error-free if no call fails and the administrator is not to be created again |
| `Privileges.TwoPassesConverge` | oracle/controllers/config_agent_helpers.go:466-513 | two error-free passes bring everybody to the specification and leave nothing to create or update |
| `Privileges.CreateConvergesIff` | oracle/controllers/user_repository.go:219-237 | if grants only add, creating a user meets the specification exactly if it names whatever its roles drag along |
| `Privileges.CreateMayNotConverge` | oracle/controllers/config_agent_helpers.go:490-493 | DBA brings UNLIMITED TABLESPACE, which grants alone leave behind |
| `Resize.FilterDiskWithSizeChanged` | oracle/controllers/instancecontroller/utils.go:996-1020 | the disks of the new list that the old one has with another size, in order |
| `Resize.SetAllAt` | oracle/controllers/instancecontroller/utils.go:900-950 | a full pass leaves exactly the claims of these disks on these replicas with the new request, and nothing else different |
| `Resize.Cluster.ResizePvcs` | oracle/controllers/instancecontroller/utils.go:900-950 | makes every missing request; is done exactly if every claim already had request and capacity at the new size; touches nothing else, even on errors; fails only if a call does or a claim is missing |
| `Resize.Cluster.CanExpand` | oracle/controllers/instancecontroller/utils.go:1024-1042 | true only if every claim of every replica can expand, false only if one cannot or a call failed |
| `Resize.Cluster.TryResizeDisks` | oracle/controllers/instancecontroller/utils.go:842-895 | the StatefulSet is deleted only with a changed disk and every claim of every changed disk complete on every replica; done only if no disk changed; an error-free pass that does not delete makes every missing request; fails only if a call does, or a claim is missing or cannot expand |
| `Resize.PassIsIdempotent` | oracle/controllers/instancecontroller/utils.go:900-950 | a second pass requests nothing new |
| `Resize.ResizingEndsIff` | oracle/controllers/instancecontroller/utils.go:900-950 | whatever capacities at or above the requests the volumes have grown to after a pass, everything is complete exactly if no two disks of one name ask for different sizes and no volume is larger than its disk |
| `Resize.LargerVolumeNeverCompletes` | oracle/controllers/instancecontroller/utils.go:917-925 | a volume larger than requested: every further pass requests nothing and is not done |
| `Maintenance.HasValidTimeRanges` | common/pkg/maintenance/windows.go:48-60 | true exactly for a non-empty list of ranges with start and duration |
| `Maintenance.InRange` | common/pkg/maintenance/windows.go:63-71 | true exactly if some valid range contains the instant |
| `Maintenance.NextWindow` | common/pkg/maintenance/windows.go:80-106 | the first of the ranges with the earliest start after the instant, none if no range is still to start |
| `Maintenance.SanityCheckTimeRange` | oracle/controllers/instancecontroller/instance_controller_parameters.go:299-321 | an error for malformed windows, at once exactly inside one, past exactly if none is open and none is still to start, and else a wait during which none opens and that ends at the next start |
| `Maintenance.ClosedUntilNext` | oracle/controllers/instancecontroller/instance_controller_parameters.go:299-321 | from outside all windows, none is open before the next start |
| `Maintenance.WaitIsExactIff` | oracle/controllers/instancecontroller/instance_controller_parameters.go:299-321 | the next start is the earliest future instant inside a window exactly if some range that starts then has a positive duration |
| `Maintenance.EmptyWindowWakesEarly` | common/pkg/maintenance/windows.go:80-106 | a range without extent makes the controller wake up with nothing open |
| `Names.DigitsRoundTrip` | common/pkg/ns/ns.go:134-145 | the number can be read back from its digits, which hold no dash |
| `Names.DigitsAreFew` | common/pkg/ns/ns.go:134-145 | a number below 36 to the k has at most k digits |
| `Names.SuffixFits` | common/pkg/ns/ns.go:132-145 | the suffix of any 64-bit hash has at most 14 bytes |
| `Names.HashSuffix` | common/pkg/ns/ns.go:134-145 | the digit loop terminates with the whole suffix |
| `Names.Munge` | common/pkg/ns/ns.go:112-128 | at most the limit, for any limit of 14 or more |
| `Names.MungedFits` | common/pkg/ns/ns.go:112-128 | a hashed name is as much of the joined name as fits and then the whole suffix; any other is the joined name |
| `Names.EqualNamesHaveEqualHashes` | common/pkg/ns/ns.go:112-145 | two hashed names are equal only if their hashes are |
| `Names.EndsInDashIff` | common/pkg/ns/ns.go:134-145 | a hashed name ends in a dash exactly if its hash is 0 |
| `Names.ZeroHashExists` | common/pkg/ns/ns.go:134-145 | there are a namespace and a name whose hash is 0 |
| `Names.RedirectedNamesFit` | common/pkg/ns/ns.go:90-92 | redirected names have at most 63 bytes and collide only if the hashes of namespace and name do |
| `Names.PrefixedNamespacesFit` | common/pkg/ns/ns.go:82-84 | prefixed namespaces have at most 63 bytes; two short ones never collide, two long ones only if the hashes do, a short one with a long one exactly if it is what is behind the prefix in the long one's name |
| `Names.SwappedNamespacesMergeIff` | common/pkg/ns/ns.go:107-110 | two short results are equal exactly if the namespaces agree behind the old prefix, two long ones only if the hashes do, a short and a long one exactly if the short one is the long one's name |

## Left out

- SQL and RMAN text, gRPC clients, storage, exec, monitoring, logging and main programs: input and output only.
- Cron expressions, JSON templates, jsonpath lookups and label selectors: given as what they yield.
- Conditions (oracle/pkg/k8s/condition.go): each machine has the reason it looks at as a field; messages and transition times are not modelled, timeouts are inputs.
- The reconciliation that follows the state machines, handleResize around tryResizeDisksOf included: it appears only as another writer.
- The parameter-update machine: it works on a copy by value and clears its active flag after the commit, so claims about that flag would not hold of the stored object.
- The choice of the point-in-time object: findRestorePITR returns the first one listed rather than the match it found; the object is an input here.
- Whether a waiting controller is woken: that is up to the queue of controller-runtime, which ignores the requeue time when an error is returned along with it, as sanityCheckTimeRange does.
- Whether a failing patch is retried for ever: the rollback of deployments records no failed images, so it may be.
- Passwords and secrets, and the deletion of users, which the source only reports.
- Backup metadata such as the greatest change number: it depends on the output of another tool.
- updateHistory and the comparison of templates of a backup schedule: easy members.
- Privileges.DiffUsers: does not model which passwords to update, as passwords are left out.
- Privileges.UpdateUsers: does not model the password updates, which touch no privileges.
- Restore.LaunchRestore: counts a job as started when the call is made, whether or not it succeeds.
- Cleanup.CleanupHistory: the library sorts the caller's slice in place; here the new order is returned, and only that it is a sorted permutation is known of it.
- Pruning.SortBackups: returns a sorted permutation instead of sorting in place.
- RecoveryWindows.SortedKeys: the same.
