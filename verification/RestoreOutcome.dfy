/**
 What the answers of the world make of a restore
 (oracle/controllers/instancecontroller/instance_controller_restore.go): from what was seen in the course of
 an undisturbed run alone, whether the restore is complete, has failed, or is still under way.
 */
module RestoreOutcome {
  import opened Common
  import opened Instances
  import opened MaintenanceLock
  import opened Restore

  /** When the machine has anything to do: a forced request, an instance and a database that have come up. */
  lemma AskedIff(inst: Instance)
    ensures Applicable(inst) <==>
            && (exists r :: inst.spec.restore == Some(r) && r.force)
            && inst.status.ready != None && inst.status.ready != Some(CreateInProgress)
            && inst.status.databaseReady in {Some(RestorePending), Some(CreateComplete)}
  {
    if inst.spec.restore.Some? {
      assert inst.spec.restore == Some(inst.spec.restore.value);
    }
  }

  /** Otherwise it leaves everything alone. */
  lemma UnaskedStays(inst: Instance, a: Answers)
    requires !Applicable(inst)
    ensures Advance(inst, a) == inst
  {
  }

  predicate Is(inst: Instance, r: Reason)
  {
    inst.status.ready == Some(r)
  }

  predicate Of(inst: Instance, kind: BackupType)
  {
    inst.spec.restore.Some? && inst.spec.restore.value.backupType == kind
  }

  /** The backup is gone or failed, or the step under way did. */
  predicate SeesFailure(inst: Instance, a: Answers)
  {
    Watched(inst) &&
    (|| a.backup == BackupNotFound || a.backup == BackupFailed
     || (a.backup == BackupReady &&
         (|| (Is(inst, RestorePreparationInProgress) && Of(inst, Snapshot) && a.cleanup == CleanupError)
          || (Is(inst, RestoreInProgress) && (Of(inst, OtherType) || (Of(inst, Physical) && a.job == JobError)))
          || (Is(inst, PostRestoreBootstrapInProgress) && Of(inst, Physical) && !a.bootstrapped)
          || (Is(inst, PostRestoreBootstrapComplete) && !a.sameImage && !a.patchStarted)
          || (Is(inst, PostRestoreDatabasePatchingInProgress) && a.patch == PatchError))))
  }

  /** The physical job finished at once, or the image is that of the backup, or the database is patched to it. */
  predicate SeesCompletion(inst: Instance, a: Answers)
  {
    Watched(inst) && a.backup == BackupReady &&
    (|| (Is(inst, RestorePreparationComplete) && Of(inst, Physical) && a.launch == LaunchFinished)
     || (Is(inst, PostRestoreBootstrapComplete) && a.sameImage)
     || (Is(inst, PostRestoreDatabasePatchingInProgress) && a.patch == PatchDone))
  }

  /** Nothing is known yet. */
  predicate MustWait(inst: Instance, a: Answers)
  {
    || a.backup == BackupNotReady
    || (Is(inst, RestorePreparationInProgress) && Of(inst, Snapshot) && a.cleanup == CleanupBusy)
    || (Is(inst, RestoreInProgress) && (a.job == JobRunning || a.job == JobUnknown || (Of(inst, Snapshot) && a.job == JobError)))
    || (Is(inst, PostRestoreBootstrapInProgress) && Of(inst, Snapshot) && !a.oracleRunning)
    || (Is(inst, PostRestoreDatabasePatchingInProgress) && a.patch == PatchRunning)
  }

  /** One reconcile: failure and completion end the restore, waiting changes nothing, all else is the next state. */
  lemma AdvanceByAnswer(inst: Instance, a: Answers)
    requires Watched(inst) && LockExact(inst)
    ensures var next := Advance(inst, a);
            if SeesFailure(inst, a) then Over(next) && Is(next, RestoreFailed)
            else if SeesCompletion(inst, a) then Over(next) && Is(next, RestoreComplete)
            else if MustWait(inst, a) then next == inst
            else Rank(next.status.ready) == Rank(inst.status.ready) + 1 && next == inst.(status := inst.status.(ready := next.status.ready))
  {
  }

  /** A reconcile of a restore that is not running enters it exactly for a later request of a known type, with the lock to be had. */
  lemma EntersIff(inst: Instance, a: Answers)
    requires Applicable(inst) && !Running(inst) && LockExact(inst)
    ensures var next, r := Advance(inst, a), inst.spec.restore.value;
            (Running(next) <==>
             && a.backup == BackupReady && IsEntry(inst.status.ready)
             && (r.backupType == Snapshot || r.backupType == Physical)
             && (inst.status.lastRestoreTime.None? || r.requestTime > inst.status.lastRestoreTime.value)
             && inst.status.lockedBy == "")
    ensures var next := Advance(inst, a);
            Running(next) ==>
              && next.status.ready == Some(RestorePreparationInProgress) && next.status.lockedBy == OWNER
              && next.status.lastRestoreTime == Some(inst.spec.restore.value.requestTime) && next.status.backupID == ""
              && next.spec == inst.spec && next.status.databaseReady == inst.status.databaseReady
  {
  }

  ghost predicate SawCompletion(inst: Instance, answers: seq<Answers>)
  {
    exists i :: 0 <= i < |answers| && SeesCompletion(AdvanceAll(inst, answers[..i]), answers[i])
  }

  ghost predicate SawFailure(inst: Instance, answers: seq<Answers>)
  {
    exists i :: 0 <= i < |answers| && SeesFailure(AdvanceAll(inst, answers[..i]), answers[i])
  }

  lemma AdvanceLater(inst: Instance, answers: seq<Answers>, i: nat)
    requires i < |answers|
    ensures AdvanceAll(inst, answers[..i + 1]) == AdvanceAll(Advance(inst, answers[0]), answers[1..][..i])
  {
    assert answers[..i + 1][1..] == answers[1..][..i] && answers[..i + 1][0] == answers[0];
  }

  /** What is seen in a run is seen at once or later. */
  lemma SawAtOnceOrLater(inst: Instance, answers: seq<Answers>)
    requires answers != []
    ensures SawCompletion(inst, answers) <==> SeesCompletion(inst, answers[0]) || SawCompletion(Advance(inst, answers[0]), answers[1..])
    ensures SawFailure(inst, answers) <==> SeesFailure(inst, answers[0]) || SawFailure(Advance(inst, answers[0]), answers[1..])
  {
    var next, rest := Advance(inst, answers[0]), answers[1..];
    assert answers[..0] == [] && AdvanceAll(inst, answers[..0]) == inst;
    forall i | 0 <= i < |rest|
      ensures AdvanceAll(inst, answers[..i + 1]) == AdvanceAll(next, rest[..i]) && answers[i + 1] == rest[i]
    {
      AdvanceLater(inst, answers, i);
    }
    if SawCompletion(inst, answers) {
      var i :| 0 <= i < |answers| && SeesCompletion(AdvanceAll(inst, answers[..i]), answers[i]);
      assert i > 0 ==> SeesCompletion(AdvanceAll(next, rest[..i - 1]), rest[i - 1]);
    }
    if SawFailure(inst, answers) {
      var i :| 0 <= i < |answers| && SeesFailure(AdvanceAll(inst, answers[..i]), answers[i]);
      assert i > 0 ==> SeesFailure(AdvanceAll(next, rest[..i - 1]), rest[i - 1]);
    }
  }

  /** After the end nothing is seen any more. */
  lemma NothingSeenAfter(inst: Instance, answers: seq<Answers>)
    requires inst.spec.restore.None?
    ensures !SawCompletion(inst, answers) && !SawFailure(inst, answers)
  {
    forall i | 0 <= i < |answers|
      ensures AdvanceAll(inst, answers[..i]) == inst
    {
      OverIsStable(inst, answers[..i]);
    }
  }

  /**
   Over every undisturbed run of a running restore: it is complete exactly if a completion was seen, and has failed exactly
   if a failure was seen.
   */
  lemma {:induction false} OutcomeIff(inst: Instance, answers: seq<Answers>)
    requires Watched(inst) && LockExact(inst)
    ensures Is(AdvanceAll(inst, answers), RestoreComplete) <==> SawCompletion(inst, answers)
    ensures Is(AdvanceAll(inst, answers), RestoreFailed) <==> SawFailure(inst, answers)
    decreases answers
  {
    if answers != [] {
      var next, rest := Advance(inst, answers[0]), answers[1..];
      SawAtOnceOrLater(inst, answers);
      AdvanceByAnswer(inst, answers[0]);
      if Over(next) {
        OverIsStable(next, rest);
        NothingSeenAfter(next, rest);
      } else {
        OutcomeIff(next, rest);
      }
    }
  }
}
