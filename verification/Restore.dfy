/**
 The restore state machine of oracle/controllers/instancecontroller/instance_controller_restore.go.

 A reconcile reads the instance, runs one step of the machine, and finally writes the whole status
 back. Every call to the API server may meet other writers, a stale copy or a lost message. Two
 things are proved about it: over every history, each restore request starts at most one job; and
 when the calls go through, every step of a running restore waits, advances or ends it, with the
 maintenance lock held exactly in between.
 */
module Restore {
  import opened Common
  import opened Instances
  import opened MaintenanceLock

  const OWNER := "instancecontroller"

  // ---------------------------------------------------------------------------------------------
  // Answers of the world outside the API server

  datatype BackupState = BackupNotFound | BackupFailed | BackupNotReady | BackupReady
  datatype CleanupState = CleanupDone | CleanupBusy | CleanupError
  datatype LaunchState = LaunchError | LaunchStarted | LaunchFinished
  datatype JobState = JobRunning | JobUnknown | JobDone | JobError
  datatype PatchState = PatchRunning | PatchDone | PatchError

  datatype Answers = Answers(
    backup: BackupState,
    cleanup: CleanupState,
    launch: LaunchState,
    job: JobState,
    oracleRunning: bool,
    bootstrapped: bool,
    sameImage: bool,
    patchStarted: bool,
    patch: PatchState)

  /** Proceed: go on with the main reconciliation. Error: the controller retries. */
  datatype Result = Proceed | Requeue | Wait | Error

  function WithReason(inst: Instance, r: Reason): Instance
  {
    inst.(status := inst.status.(ready := Some(r)))
  }

  // ---------------------------------------------------------------------------------------------
  // What a history of stored versions may look like

  ghost predicate LegalHistory(h: seq<Instance>)
  {
    h != [] && !IsPreparing(h[0].status.ready) && forall i :: 0 < i < |h| ==> LegalCommit(h[i - 1], h[i])
  }

  /** Version i is the commit that lets one restore job start. */
  ghost predicate Grants(h: seq<Instance>, i: int)
  {
    && 0 < i < |h|
    && h[i - 1].status.ready == Some(RestorePreparationComplete)
    && h[i].status.ready == Some(RestoreInProgress)
    && h[i].status.lastRestoreTime.Some?
  }

  ghost function RestoreTime(h: seq<Instance>, i: int): int
    requires Grants(h, i)
  {
    h[i].status.lastRestoreTime.value
  }

  ghost predicate NotBefore(a: Option<int>, b: Option<int>)
  {
    b.None? || (a.Some? && a.value >= b.value)
  }

  /** LastRestoreTime never goes back. */
  lemma {:induction false} RestoreTimeMonotone(h: seq<Instance>, i: nat, j: nat)
    requires LegalHistory(h) && i <= j < |h|
    ensures NotBefore(h[j].status.lastRestoreTime, h[i].status.lastRestoreTime)
    decreases j
  {
    if i < j {
      RestoreTimeMonotone(h, i, j - 1);
      assert LegalCommit(h[j - 1], h[j]);
    }
  }

  /** Between a job's grant and a later preparation state the machine was entered again, with a later time. */
  lemma {:induction false} PreparingAgain(h: seq<Instance>, i: nat, j: nat)
    requires LegalHistory(h) && Grants(h, i) && i < j < |h| && IsPreparing(h[j].status.ready)
    ensures h[j].status.lastRestoreTime.Some? && h[j].status.lastRestoreTime.value > RestoreTime(h, i)
    decreases j
  {
    assert LegalCommit(h[j - 1], h[j]);
    RestoreTimeMonotone(h, i, j - 1);
    if h[j].status.lastRestoreTime == h[j - 1].status.lastRestoreTime {
      assert IsPreparing(h[j - 1].status.ready);
      PreparingAgain(h, i, j - 1);
    }
  }

  /** Different grants are for different request times, later grants for later ones. */
  lemma GrantTimesIncrease(h: seq<Instance>, i: nat, j: nat)
    requires LegalHistory(h) && Grants(h, i) && Grants(h, j) && i < j
    ensures RestoreTime(h, i) < RestoreTime(h, j)
  {
    assert i != j - 1;
    PreparingAgain(h, i, j - 1);
    assert LegalCommit(h[j - 1], h[j]);
  }

  /** Name of the long-running operation of a restore; one per LastRestoreTime of the instance. */
  datatype OperationId = OperationId(operation: string, uid: string, restoreTime: int)

  ghost predicate LaunchesSound(h: seq<Instance>, launched: seq<nat>)
  {
    && (forall k :: 0 <= k < |launched| ==> Grants(h, launched[k]))
    && (forall k, l :: 0 <= k < l < |launched| ==> launched[k] < launched[l])
  }

  ghost function LaunchTimes(h: seq<Instance>, launched: seq<nat>): (times: seq<int>)
    requires LaunchesSound(h, launched)
  {
    seq(|launched|, k requires 0 <= k < |launched| => RestoreTime(h, launched[k]))
  }

  ghost function OperationIds(uid: string, times: seq<int>): seq<OperationId>
  {
    seq(|times|, k requires 0 <= k < |times| => OperationId("PhysicalRestore", uid, times[k]))
  }

  /**
   At most one job per request: whatever the history, the restore times of the started jobs
   strictly increase, and so no operation id is used twice.
   */
  lemma AtMostOneJobPerRequest(h: seq<Instance>, launched: seq<nat>, uid: string)
    requires LegalHistory(h) && LaunchesSound(h, launched)
    ensures StrictlyIncreasing(LaunchTimes(h, launched))
    ensures var ids := OperationIds(uid, LaunchTimes(h, launched));
            forall k, l :: 0 <= k < l < |ids| ==> ids[k] != ids[l]
  {
    var times := LaunchTimes(h, launched);
    forall k, l | 0 <= k < l < |times|
      ensures times[k] < times[l]
    {
      GrantTimesIncrease(h, launched[k], launched[l]);
    }
  }

  // ---------------------------------------------------------------------------------------------
  // Deletions come before the launch of their own restore, or not

  /** A deletion is done by a reconcile that finds its restore still in preparation. */
  ghost predicate DeletionsSound(h: seq<Instance>, deletions: seq<Deletion>)
  {
    forall k :: 0 <= k < |deletions| ==> DeletionSound(h, deletions[k])
  }

  ghost predicate DeletionSound(h: seq<Instance>, d: Deletion)
  {
    d.version <= d.at < |h| && h[d.version].status.ready == Some(RestorePreparationInProgress)
  }

  /** A job of the same request had been started when the deletion was done. */
  ghost predicate DeletedTooLate(h: seq<Instance>, launched: seq<nat>, d: Deletion)
    requires LaunchesSound(h, launched) && DeletionSound(h, d)
  {
    exists k :: 0 <= k < |launched| && launched[k] <= d.at && h[launched[k]].status.lastRestoreTime == h[d.version].status.lastRestoreTime
  }

  /** The version that was read is older than the one that started a job of its own request. */
  ghost predicate ReadBeforeLaunch(h: seq<Instance>, launched: seq<nat>, d: Deletion)
    requires LaunchesSound(h, launched) && DeletionSound(h, d)
  {
    exists k :: 0 <= k < |launched| && d.version < launched[k] <= d.at &&
                h[launched[k]].status.lastRestoreTime == h[d.version].status.lastRestoreTime
  }

  /**
   Over every history: something is deleted after its own restore was started exactly if the reconcile that
   deletes it had read a version older than the one that started the job.
   */
  lemma DeletedTooLateIff(h: seq<Instance>, launched: seq<nat>, d: Deletion)
    requires LegalHistory(h) && LaunchesSound(h, launched) && DeletionSound(h, d)
    ensures DeletedTooLate(h, launched, d) <==> ReadBeforeLaunch(h, launched, d)
  {
    forall k | 0 <= k < |launched| && launched[k] <= d.version
      ensures h[launched[k]].status.lastRestoreTime != h[d.version].status.lastRestoreTime
    {
      assert Grants(h, launched[k]);
      PreparingAgain(h, launched[k], d.version);
    }
  }

  /** So a reconcile of a current read never deletes too late. */
  lemma CurrentReadDeletesInTime(h: seq<Instance>, launched: seq<nat>, d: Deletion)
    requires LegalHistory(h) && LaunchesSound(h, launched) && DeletionSound(h, d) && d.version == d.at
    ensures !DeletedTooLate(h, launched, d)
  {
    DeletedTooLateIff(h, launched, d);
  }

  // ---------------------------------------------------------------------------------------------
  // The invariant each reconcile keeps, under every interference

  ghost predicate Sound(server: ApiServer)
    reads server
  {
    && LegalHistory(server.store.history)
    && LaunchesSound(server.store.history, server.launched)
    && DeletionsSound(server.store.history, server.deletions)
  }

  /** The copy in memory could be committed over the version it was read at. */
  ghost predicate Committable(server: ApiServer, copy: InstanceCopy)
    reads server, copy
  {
    && copy.version < |server.store.history|
    && LegalCommit(server.store.history[copy.version], copy.inst)
  }

  lemma PutKeepsLegal(st: Store, inst: Instance)
    requires LegalHistory(st.history) && LegalCommit(st.Current(), inst)
    ensures LegalHistory(st.Put(inst).history)
  {
    var h := st.Put(inst).history;
    forall i | 0 < i < |h|
      ensures LegalCommit(h[i - 1], h[i])
    {
      if i < |st.history| {
        assert LegalCommit(st.history[i - 1], st.history[i]);
      }
    }
  }

  lemma {:induction false} DisturbKeepsLegal(st: Store, edits: seq<Edit>)
    requires LegalHistory(st.history)
    ensures LegalHistory(Disturb(st, edits).history)
    decreases edits
  {
    if edits != [] {
      PutKeepsLegal(st, Interfere(st.Current(), edits[0]));
      DisturbKeepsLegal(st.Put(Interfere(st.Current(), edits[0])), edits[1..]);
    }
  }

  lemma PutStatusKeepsLegal(st: Store, edits: seq<Edit>, copy: Copy, d: Delivery)
    requires LegalHistory(st.history)
    requires copy.version < |st.history| && LegalCommit(st.history[copy.version], copy.inst)
    ensures LegalHistory(PutStatus(Disturb(st, edits), copy, d).store.history)
  {
    DisturbKeepsLegal(st, edits);
    var st' := Disturb(st, edits);
    if copy.version == st'.Version() {
      assert st'.Current() == st.history[copy.version];
      PutKeepsLegal(st', st'.Current().(status := copy.inst.status));
    }
  }

  lemma PutSpecKeepsLegal(st: Store, edits: seq<Edit>, copy: Copy, d: Delivery)
    requires LegalHistory(st.history)
    ensures LegalHistory(PutSpec(Disturb(st, edits), copy, d).store.history)
  {
    DisturbKeepsLegal(st, edits);
    var st' := Disturb(st, edits);
    PutKeepsLegal(st', st'.Current().(spec := copy.inst.spec));
  }

  // ---------------------------------------------------------------------------------------------
  // One step of the machine when the calls go through

  /** A restore over: the owner's lock is dropped, the request is removed, the outcome recorded. */
  function Ended(inst: Instance, outcome: Reason): Instance
  {
    WithReason(Relinquish(inst, OWNER).(spec := inst.spec.(restore := None)), outcome)
  }

  predicate Applicable(inst: Instance)
  {
    && inst.spec.restore.Some?
    && inst.spec.restore.value.force
    && inst.status.ready.Some? && inst.status.ready != Some(CreateInProgress)
    && (inst.status.databaseReady == Some(RestorePending) || inst.status.databaseReady == Some(CreateComplete))
  }

  function Enter(inst: Instance): Instance
    requires inst.spec.restore.Some?
  {
    var r := inst.spec.restore.value;
    if r.backupType.OtherType? || !After(r.requestTime, inst.status.lastRestoreTime) || !Available(inst, OWNER) then
      inst
    else
      inst.(status := inst.status.(
        lockedBy := OWNER,
        lastRestoreTime := Some(r.requestTime),
        backupID := "",
        ready := Some(RestorePreparationInProgress)))
  }

  /** The stored object after one undisturbed reconcile. */
  function Advance(inst: Instance, a: Answers): Instance
  {
    if !Applicable(inst) || a.backup == BackupNotReady then inst
    else if a.backup != BackupReady then Ended(inst, RestoreFailed)
    else
      var kind := inst.spec.restore.value.backupType;
      match inst.status.ready.value
      case RestoreComplete => Enter(inst)
      case CreateComplete => Enter(inst)
      case RestoreFailed => Enter(inst)
      case RestorePreparationInProgress =>
        if kind != Snapshot || a.cleanup == CleanupDone then WithReason(inst, RestorePreparationComplete)
        else if a.cleanup == CleanupError then Ended(inst, RestoreFailed)
        else inst
      case RestorePreparationComplete =>
        if kind == Physical && a.launch == LaunchFinished then Ended(inst, RestoreComplete)
        else WithReason(inst, RestoreInProgress)
      case RestoreInProgress =>
        if kind == OtherType then Ended(inst, RestoreFailed)
        else if a.job == JobDone then WithReason(inst, PostRestoreBootstrapInProgress)
        else if kind == Physical && a.job == JobError then Ended(inst, RestoreFailed)
        else inst
      case PostRestoreBootstrapInProgress =>
        if kind == Physical && !a.bootstrapped then Ended(inst, RestoreFailed)
        else if kind == Snapshot && !a.oracleRunning then inst
        else WithReason(inst, PostRestoreBootstrapComplete)
      case PostRestoreBootstrapComplete =>
        if a.sameImage then Ended(inst, RestoreComplete)
        else if !a.patchStarted then Ended(inst, RestoreFailed)
        else WithReason(inst, PostRestoreDatabasePatchingInProgress)
      case PostRestoreDatabasePatchingInProgress =>
        if a.patch == PatchError then Ended(inst, RestoreFailed)
        else if a.patch == PatchDone then Ended(inst, RestoreComplete)
        else inst
      case _ => inst
  }

  function Rank(r: Option<Reason>): nat
  {
    match r
    case Some(RestorePreparationInProgress) => 1
    case Some(RestorePreparationComplete) => 2
    case Some(RestoreInProgress) => 3
    case Some(PostRestoreBootstrapInProgress) => 4
    case Some(PostRestoreBootstrapComplete) => 5
    case Some(PostRestoreDatabasePatchingInProgress) => 6
    case _ => 0
  }

  predicate Running(inst: Instance)
  {
    Rank(inst.status.ready) > 0
  }

  /** The machine is asked, and a restore is running: the main reconciliation must wait. */
  predicate Watched(inst: Instance)
  {
    Applicable(inst) && Running(inst)
  }

  /** The machine owns the lock exactly while a restore is running. */
  predicate LockExact(inst: Instance)
  {
    inst.status.lockedBy == OWNER <==> Running(inst)
  }

  predicate Over(inst: Instance)
  {
    && (inst.status.ready == Some(RestoreComplete) || inst.status.ready == Some(RestoreFailed))
    && inst.status.lockedBy == ""
    && inst.spec.restore.None?
  }

  /** A running restore waits, strictly advances with the lock held, or ends with it free. */
  lemma RunningRestoreProgresses(inst: Instance, a: Answers)
    requires Running(inst) && LockExact(inst)
    ensures var next := Advance(inst, a);
            || next == inst
            || (Rank(next.status.ready) > Rank(inst.status.ready) && next.spec == inst.spec && LockExact(next))
            || Over(next)
  {
  }

  function AdvanceAll(inst: Instance, answers: seq<Answers>): Instance
    decreases answers
  {
    if answers == [] then inst else AdvanceAll(Advance(inst, answers[0]), answers[1..])
  }

  /** How many of the reconciles changed anything. */
  function Changes(inst: Instance, answers: seq<Answers>): nat
    decreases answers
  {
    if answers == [] then 0
    else
      var next := Advance(inst, answers[0]);
      (if next == inst then 0 else 1) + Changes(next, answers[1..])
  }

  /** Over every undisturbed run the lock is held in exactly the running states. */
  lemma {:induction false} LockHeldExactlyWhileRunning(inst: Instance, answers: seq<Answers>)
    requires LockExact(inst)
    ensures LockExact(AdvanceAll(inst, answers))
    decreases answers
  {
    if answers != [] {
      LockHeldExactlyWhileRunning(Advance(inst, answers[0]), answers[1..]);
    }
  }

  /** A removed request makes every later reconcile of the machine a no-op. */
  lemma {:induction false} OverIsStable(inst: Instance, answers: seq<Answers>)
    requires inst.spec.restore.None?
    ensures AdvanceAll(inst, answers) == inst && Changes(inst, answers) == 0
    decreases answers
  {
    if answers != [] {
      OverIsStable(inst, answers[1..]);
    }
  }

  /**
   A running restore takes at most 7 - rank effective reconciles; if it is still running afterwards,
   it has advanced by at least as many ranks.
   */
  lemma {:induction false} RestoreTerminates(inst: Instance, answers: seq<Answers>)
    requires Running(inst) && LockExact(inst)
    ensures var last := AdvanceAll(inst, answers);
            && Changes(inst, answers) <= 7 - Rank(inst.status.ready)
            && (Over(last) || (Running(last) && LockExact(last) && last.spec == inst.spec &&
                Rank(last.status.ready) >= Rank(inst.status.ready) + Changes(inst, answers)))
    decreases answers
  {
    if answers != [] {
      var next := Advance(inst, answers[0]);
      RunningRestoreProgresses(inst, answers[0]);
      if Over(next) {
        OverIsStable(next, answers[1..]);
      } else {
        RestoreTerminates(next, answers[1..]);
      }
    }
  }

  /** This reconcile saw the job finish. */
  predicate SeesJobDone(inst: Instance, a: Answers)
  {
    || (inst.status.ready == Some(RestorePreparationComplete) && a.launch == LaunchFinished &&
        inst.spec.restore.Some? && inst.spec.restore.value.backupType == Physical)
    || (inst.status.ready == Some(RestoreInProgress) && a.job == JobDone)
  }

  /** No restore is called complete unless its job was seen to finish on the way. */
  lemma {:induction false} CompleteOnlyAfterJob(inst: Instance, answers: seq<Answers>)
    requires 0 < Rank(inst.status.ready) <= 3 && LockExact(inst)
    requires AdvanceAll(inst, answers).status.ready == Some(RestoreComplete)
    ensures exists i :: 0 <= i < |answers| && SeesJobDone(AdvanceAll(inst, answers[..i]), answers[i])
    decreases answers
  {
    var next, rest := Advance(inst, answers[0]), answers[1..];
    if SeesJobDone(inst, answers[0]) {
      assert AdvanceAll(inst, answers[..0]) == inst;
    } else {
      RunningRestoreProgresses(inst, answers[0]);
      if Over(next) {
        OverIsStable(next, rest);
        assert false;
      }
      CompleteOnlyAfterJob(next, rest);
      var i :| 0 <= i < |rest| && SeesJobDone(AdvanceAll(next, rest[..i]), rest[i]);
      assert answers[..i + 1][1..] == rest[..i];
      assert SeesJobDone(AdvanceAll(inst, answers[..i + 1]), answers[i + 1]);
    }
  }

  /** Three undisturbed reconciles of a snapshot restore: it is entered, prepared and started. */
  function Restored(inst: Instance): (Instance, Instance, Instance)
  {
    var a := Answers(BackupReady, CleanupDone, LaunchStarted, JobRunning, false, false, false, false, PatchRunning);
    var entered := Advance(inst, a);
    var prepared := Advance(entered, a);
    (entered, prepared, Advance(prepared, a))
  }

  /** Then a reconcile that still reads the first of these versions deletes what was just restored. */
  lemma StaleReadDeletesTooLate(inst: Instance)
    requires Applicable(inst) && inst.spec.restore.value.backupType == Snapshot && IsEntry(inst.status.ready)
    requires After(inst.spec.restore.value.requestTime, inst.status.lastRestoreTime) && Available(inst, OWNER)
    ensures var (entered, prepared, started) := Restored(inst);
            var h, d := [inst, entered, prepared, started], Deletion(1, 3);
            LegalHistory(h) && LaunchesSound(h, [3]) && DeletionSound(h, d) && DeletedTooLate(h, [3], d)
  {
    var (entered, prepared, started) := Restored(inst);
    var h := [inst, entered, prepared, started];
    assert LegalCommit(h[0], h[1]) && LegalCommit(h[1], h[2]) && LegalCommit(h[2], h[3]);
    assert Grants(h, 3);
    assert h[[3][0]].status.lastRestoreTime == h[1].status.lastRestoreTime;
  }

  // ---------------------------------------------------------------------------------------------
  // The machine itself, call by call

  /** From here on nobody interferes, and the copy differs from the stored object in its status at most. */
  ghost predicate Undisturbed(server: ApiServer, copy: InstanceCopy)
    reads server, copy
  {
    && server.store.Valid()
    && Quiet(server.plan, server.calls)
    && copy.version == server.store.Version()
    && copy.inst.spec == server.store.Current().spec
  }

  /** The facts about a reconcile in flight that every call keeps. */
  ghost predicate InFlight(server: ApiServer, copy: InstanceCopy)
    reads server, copy
  {
    Sound(server) && Committable(server, copy)
  }

  ghost predicate AsStored(server: ApiServer, copy: InstanceCopy)
    reads server, copy
  {
    copy.version < |server.store.history| && copy.inst == server.store.history[copy.version]
  }

  /** The request applies and its backup is ready, so the step depends on the state alone. */
  ghost predicate Ripe(copy: InstanceCopy, a: Answers)
    reads copy
  {
    Applicable(copy.inst) && a.backup == BackupReady
  }

  /** At most one job was started, for a version committed since h. */
  ghost predicate LaunchedAtMostOne(h: seq<Instance>, before: seq<nat>, after: seq<nat>)
  {
    after == before || (|after| == |before| + 1 && before <= after && after[|before|] >= |h|)
  }

  /** At most one thing was deleted, by a reconcile of this version when that one was the newest. */
  ghost predicate DeletedAtMostOne(before: seq<Deletion>, after: seq<Deletion>, version: nat, at: nat)
  {
    after == before || after == before + [Deletion(version, at)]
  }

  lemma RecordsStay(h: seq<Instance>, h': seq<Instance>, launched: seq<nat>, deletions: seq<Deletion>)
    requires LaunchesSound(h, launched) && DeletionsSound(h, deletions) && h <= h'
    ensures LaunchesSound(h', launched) && DeletionsSound(h', deletions)
  {
    forall k | 0 <= k < |launched|
      ensures Grants(h', launched[k])
    {
      assert Grants(h, launched[k]);
    }
  }

  lemma {:induction false} PreparingHasTime(h: seq<Instance>, i: nat)
    requires LegalHistory(h) && i < |h| && IsPreparing(h[i].status.ready)
    ensures h[i].status.lastRestoreTime.Some?
    decreases i
  {
    if i > 0 {
      assert LegalCommit(h[i - 1], h[i]);
      if h[i].status.lastRestoreTime == h[i - 1].status.lastRestoreTime {
        PreparingHasTime(h, i - 1);
      }
    }
  }

  method CommitStatus(server: ApiServer, copy: InstanceCopy) returns (ok: bool)
    requires InFlight(server, copy)
    modifies server`store, server`calls, copy
    ensures InFlight(server, copy) && old(server.store.history) <= server.store.history
    ensures ok ==> copy.version == server.store.Version() && copy.inst == server.store.Current()
    ensures ok ==> copy.inst.status == old(copy.inst.status) && old(copy.version) == old(server.store.Version())
    ensures ok ==> old(copy.version) <= copy.version <= old(copy.version) + 1
    ensures !ok ==> copy.Value() == old(copy.Value())
    ensures old(Undisturbed(server, copy)) ==> ok && Undisturbed(server, copy) && copy.inst == old(copy.inst)
  {
    ghost var st, p, mine := server.store, server.plan(server.calls), copy.Value();
    ok := server.StatusUpdate(copy);
    PutStatusKeepsLegal(st, p.edits, mine, p.delivery);
    RecordsStay(st.history, server.store.history, server.launched, server.deletions);
  }

  method TakeLock(server: ApiServer, copy: InstanceCopy) returns (ok: bool)
    requires InFlight(server, copy)
    modifies server`store, server`calls, copy
    ensures InFlight(server, copy) && old(server.store.history) <= server.store.history
    ensures ok ==> copy.version == server.store.Version() && copy.inst == server.store.Current()
    ensures ok ==> copy.inst.status == Claim(old(copy.inst), OWNER).status
    ensures old(Undisturbed(server, copy)) ==>
              && Undisturbed(server, copy)
              && ok == Available(old(copy.inst), OWNER)
              && copy.inst == Claim(old(copy.inst), OWNER)
  {
    ghost var st, p, mine := server.store, server.plan(server.calls), Copy(copy.version, Claim(copy.inst, OWNER));
    ok := AcquireInstanceMaintenanceLock(server, copy, OWNER);
    PutStatusKeepsLegal(st, p.edits, mine, p.delivery);
    RecordsStay(st.history, server.store.history, server.launched, server.deletions);
  }

  method DropLock(server: ApiServer, copy: InstanceCopy) returns (ok: bool)
    requires InFlight(server, copy)
    modifies server`store, server`calls, copy
    ensures InFlight(server, copy) && old(server.store.history) <= server.store.history
    ensures ok ==> AsStored(server, copy)
    ensures old(Undisturbed(server, copy)) ==>
              ok && Undisturbed(server, copy) && copy.inst == Relinquish(old(copy.inst), OWNER)
  {
    ghost var st, p, mine := server.store, server.plan(server.calls), Copy(copy.version, Relinquish(copy.inst, OWNER));
    ok := ReleaseInstanceMaintenanceLock(server, copy, OWNER);
    PutStatusKeepsLegal(st, p.edits, mine, p.delivery);
    RecordsStay(st.history, server.store.history, server.launched, server.deletions);
  }

  method DropRequest(server: ApiServer, copy: InstanceCopy) returns (ok: bool)
    requires InFlight(server, copy) && AsStored(server, copy)
    modifies server`store, server`calls, copy
    ensures InFlight(server, copy) && old(server.store.history) <= server.store.history
    ensures ok ==> AsStored(server, copy)
    ensures old(Undisturbed(server, copy)) ==>
              ok && Undisturbed(server, copy) && copy.inst == old(copy.inst).(spec := old(copy.inst).spec.(restore := None))
  {
    copy.inst := copy.inst.(spec := copy.inst.spec.(restore := None));
    ghost var st, p, mine := server.store, server.plan(server.calls), copy.Value();
    ok := server.Update(copy);
    PutSpecKeepsLegal(st, p.edits, mine, p.delivery);
    RecordsStay(st.history, server.store.history, server.launched, server.deletions);
  }

  /** setRestoreSucceeded and setRestoreFailed: release the lock, drop the request, note the outcome. */
  method SetRestoreOutcome(server: ApiServer, copy: InstanceCopy, outcome: Reason) returns (ok: bool)
    requires InFlight(server, copy) && (outcome == RestoreComplete || outcome == RestoreFailed)
    modifies server`store, server`calls, copy
    ensures InFlight(server, copy) && old(server.store.history) <= server.store.history
    ensures old(Undisturbed(server, copy)) ==>
              ok && Undisturbed(server, copy) && copy.inst == Ended(old(copy.inst), outcome)
  {
    ok := DropLock(server, copy);
    if ok {
      ok := DropRequest(server, copy);
    }
    if ok {
      copy.inst := WithReason(copy.inst, outcome);
    }
  }

  /** Entry: check the request, take the lock, record the request time, commit. */
  method BeginRestore(server: ApiServer, copy: InstanceCopy) returns (result: Result)
    requires InFlight(server, copy) && AsStored(server, copy)
    requires copy.inst.spec.restore.Some? && IsEntry(copy.inst.status.ready)
    modifies server`store, server`calls, copy
    ensures InFlight(server, copy) && old(server.store.history) <= server.store.history
    ensures old(Undisturbed(server, copy)) ==> Undisturbed(server, copy) && copy.inst == Enter(old(copy.inst))
    ensures old(Undisturbed(server, copy)) && result == Proceed ==> !Watched(copy.inst)
  {
    var request := copy.inst.spec.restore.value;
    if request.backupType != Snapshot && request.backupType != Physical {
      return Proceed;
    }
    if copy.inst.status.lastRestoreTime.Some? && !(request.requestTime > copy.inst.status.lastRestoreTime.value) {
      return Proceed;
    }
    var locked := TakeLock(server, copy);
    if !locked {
      return Error;
    }
    copy.inst := copy.inst.(status := copy.inst.status.(
      lastRestoreTime := Some(request.requestTime), backupID := "", ready := Some(RestorePreparationInProgress)));
    var ok := CommitStatus(server, copy);
    result := if ok then Requeue else Error;
  }

  /** Commit RestoreInProgress first; only a commit that is known to have succeeded starts the job. */
  method StartJob(server: ApiServer, copy: InstanceCopy) returns (ok: bool, kind: BackupType)
    requires InFlight(server, copy) && AsStored(server, copy)
    requires copy.inst.status.ready == Some(RestorePreparationComplete)
    modifies server`store, server`calls, server`launched, copy
    ensures InFlight(server, copy) && old(server.store.history) <= server.store.history
    ensures LaunchedAtMostOne(old(server.store.history), old(server.launched), server.launched)
    ensures ok ==> kind == if copy.inst.spec.restore.Some? then copy.inst.spec.restore.value.backupType else OtherType
    ensures old(Undisturbed(server, copy)) ==> ok && Undisturbed(server, copy) && copy.inst == WithReason(old(copy.inst), RestoreInProgress)
  {
    kind := OtherType;
    PreparingHasTime(server.store.history, copy.version);
    ghost var h, v := server.store.history, copy.version;
    copy.inst := WithReason(copy.inst, RestoreInProgress);
    ok := CommitStatus(server, copy);
    if !ok {
      return;
    }
    assert server.store.history[v] == h[v] && copy.version == v + 1;
    assert Grants(server.store.history, copy.version);
    kind := if copy.inst.spec.restore.Some? then copy.inst.spec.restore.value.backupType else OtherType;
    if kind != OtherType {
      server.launched := server.launched + [copy.version];
      assert LaunchesSound(server.store.history, server.launched);
    }
  }

  method LaunchRestore(server: ApiServer, copy: InstanceCopy, a: Answers) returns (result: Result)
    requires InFlight(server, copy) && AsStored(server, copy) && Ripe(copy, a)
    requires copy.inst.status.ready == Some(RestorePreparationComplete)
    modifies server`store, server`calls, server`launched, copy
    ensures InFlight(server, copy) && old(server.store.history) <= server.store.history
    ensures LaunchedAtMostOne(old(server.store.history), old(server.launched), server.launched)
    ensures old(Undisturbed(server, copy)) ==> Undisturbed(server, copy) && copy.inst == Advance(old(copy.inst), a)
    ensures old(Undisturbed(server, copy)) && result == Proceed ==> !Watched(copy.inst)
  {
    var ok, kind := StartJob(server, copy);
    if !ok {
      return Error;
    }
    if kind == OtherType {
      return Requeue;
    }
    if a.launch == LaunchError {
      return Error;
    }
    if kind == Physical && a.launch == LaunchFinished {
      ok := SetRestoreOutcome(server, copy, RestoreComplete);
      if !ok {
        return Error;
      }
    }
    result := Requeue;
  }

  /** A snapshot restore first removes the old StatefulSet and its volumes. */
  method PrepareRestore(server: ApiServer, copy: InstanceCopy, a: Answers) returns (result: Result)
    requires InFlight(server, copy) && AsStored(server, copy) && Ripe(copy, a)
    requires copy.inst.status.ready == Some(RestorePreparationInProgress)
    modifies server`store, server`calls, server`deletions, copy
    ensures InFlight(server, copy) && old(server.store.history) <= server.store.history
    ensures server.deletions == old(server.deletions) +
            if old(copy.inst).spec.restore.value.backupType == Snapshot && a.cleanup == CleanupBusy
            then [Deletion(old(copy.version), old(server.store.Version()))] else []
    ensures old(Undisturbed(server, copy)) ==> Undisturbed(server, copy) && copy.inst == Advance(old(copy.inst), a)
    ensures old(Undisturbed(server, copy)) && result == Proceed ==> !Watched(copy.inst)
  {
    if copy.inst.spec.restore.value.backupType == Snapshot {
      if a.cleanup == CleanupError {
        var _ := SetRestoreOutcome(server, copy, RestoreFailed);
        return Error;
      }
      if a.cleanup == CleanupBusy {
        server.deletions := server.deletions + [Deletion(copy.version, server.store.Version())];
        return Wait;
      }
    }
    copy.inst := WithReason(copy.inst, RestorePreparationComplete);
    result := Requeue;
  }

  /** Poll the job. */
  method MonitorRestore(server: ApiServer, copy: InstanceCopy, a: Answers) returns (result: Result)
    requires InFlight(server, copy) && AsStored(server, copy) && Ripe(copy, a)
    requires copy.inst.status.ready == Some(RestoreInProgress)
    modifies server`store, server`calls, copy
    ensures InFlight(server, copy) && old(server.store.history) <= server.store.history
    ensures old(Undisturbed(server, copy)) ==> Undisturbed(server, copy) && copy.inst == Advance(old(copy.inst), a)
    ensures old(Undisturbed(server, copy)) && result == Proceed ==> !Watched(copy.inst)
  {
    var kind := copy.inst.spec.restore.value.backupType;
    if kind == OtherType {
      var ok := SetRestoreOutcome(server, copy, RestoreFailed);
      return if ok then Proceed else Error;
    }
    var done := a.job == JobDone || (kind == Physical && a.job == JobError);
    if !done {
      return if kind == Physical && a.job == JobUnknown then Error else Wait;
    }
    if a.job == JobError {
      var _ := SetRestoreOutcome(server, copy, RestoreFailed);
      return Error;
    }
    copy.inst := WithReason(copy.inst, PostRestoreBootstrapInProgress);
    var ok := CommitStatus(server, copy);
    result := if ok then Requeue else Error;
  }

  /** Wait for the database of a snapshot, bootstrap that of a physical backup. */
  method BootstrapRestored(server: ApiServer, copy: InstanceCopy, a: Answers) returns (result: Result)
    requires InFlight(server, copy) && AsStored(server, copy) && Ripe(copy, a)
    requires copy.inst.status.ready == Some(PostRestoreBootstrapInProgress)
    modifies server`store, server`calls, copy
    ensures InFlight(server, copy) && old(server.store.history) <= server.store.history
    ensures old(Undisturbed(server, copy)) ==> Undisturbed(server, copy) && copy.inst == Advance(old(copy.inst), a)
    ensures old(Undisturbed(server, copy)) && result == Proceed ==> !Watched(copy.inst)
  {
    match copy.inst.spec.restore.value.backupType {
      case Snapshot =>
        if !a.oracleRunning {
          return Wait;
        }
      case Physical =>
        if !a.bootstrapped {
          var ok := SetRestoreOutcome(server, copy, RestoreFailed);
          return if ok then Proceed else Error;
        }
      case OtherType =>
    }
    copy.inst := WithReason(copy.inst, PostRestoreBootstrapComplete);
    var ok := CommitStatus(server, copy);
    result := if ok then Requeue else Error;
  }

  /** Done when the backup has the active image, otherwise patch the database first. */
  method FinishRestore(server: ApiServer, copy: InstanceCopy, a: Answers) returns (result: Result)
    requires InFlight(server, copy) && AsStored(server, copy) && Ripe(copy, a)
    requires copy.inst.status.ready == Some(PostRestoreBootstrapComplete)
    modifies server`store, server`calls, copy
    ensures InFlight(server, copy) && old(server.store.history) <= server.store.history
    ensures old(Undisturbed(server, copy)) ==> Undisturbed(server, copy) && copy.inst == Advance(old(copy.inst), a)
    ensures old(Undisturbed(server, copy)) && result == Proceed ==> !Watched(copy.inst)
  {
    if a.sameImage {
      var _ := SetRestoreOutcome(server, copy, RestoreComplete);
      var ok := CommitStatus(server, copy);
      return if ok then Proceed else Error;
    }
    if !a.patchStarted {
      copy.inst := WithReason(copy.inst, RestoreFailed);
      var _ := SetRestoreOutcome(server, copy, RestoreFailed);
      return Proceed;
    }
    copy.inst := WithReason(copy.inst, PostRestoreDatabasePatchingInProgress);
    var ok := CommitStatus(server, copy);
    result := if ok then Requeue else Error;
  }

  /** Poll the database patching that follows a restore to another image. */
  method MonitorPatching(server: ApiServer, copy: InstanceCopy, a: Answers) returns (result: Result)
    requires InFlight(server, copy) && AsStored(server, copy) && Ripe(copy, a)
    requires copy.inst.status.ready == Some(PostRestoreDatabasePatchingInProgress)
    modifies server`store, server`calls, copy
    ensures InFlight(server, copy) && old(server.store.history) <= server.store.history
    ensures old(Undisturbed(server, copy)) ==> Undisturbed(server, copy) && copy.inst == Advance(old(copy.inst), a)
    ensures old(Undisturbed(server, copy)) && result == Proceed ==> !Watched(copy.inst)
  {
    if a.patch == PatchError {
      copy.inst := WithReason(copy.inst, RestoreFailed);
      var _ := SetRestoreOutcome(server, copy, RestoreFailed);
      return Proceed;
    }
    if a.patch == PatchRunning {
      return Wait;
    }
    var ok := SetRestoreOutcome(server, copy, RestoreComplete);
    result := if ok then Requeue else Error;
  }

  method RestoreStateMachine(server: ApiServer, copy: InstanceCopy, a: Answers) returns (result: Result)
    requires InFlight(server, copy) && AsStored(server, copy) && copy.inst.spec.restore.Some?
    modifies server, copy
    ensures InFlight(server, copy) && old(server.store.history) <= server.store.history
    ensures LaunchedAtMostOne(old(server.store.history), old(server.launched), server.launched)
    ensures DeletedAtMostOne(old(server.deletions), server.deletions, old(copy.version), old(server.store.Version()))
    ensures old(Undisturbed(server, copy)) ==> Undisturbed(server, copy) && copy.inst == Advance(old(copy.inst), a)
    ensures old(Undisturbed(server, copy)) && result == Proceed ==> !Watched(copy.inst)
  {
    var ready, database := copy.inst.status.ready, copy.inst.status.databaseReady;
    if ready.None? || ready == Some(CreateInProgress) {
      return Proceed;
    }
    if database.None? || (database != Some(RestorePending) && database != Some(CreateComplete)) {
      return Proceed;
    }
    if !copy.inst.spec.restore.value.force {
      return Proceed;
    }
    if a.backup == BackupNotFound || a.backup == BackupFailed {
      var ok := SetRestoreOutcome(server, copy, RestoreFailed);
      return if ok then Proceed else Error;
    }
    if a.backup == BackupNotReady {
      return Wait;
    }
    match ready.value
    case RestoreComplete => result := BeginRestore(server, copy);
    case CreateComplete => result := BeginRestore(server, copy);
    case RestoreFailed => result := BeginRestore(server, copy);
    case RestorePreparationInProgress => result := PrepareRestore(server, copy, a);
    case RestorePreparationComplete => result := LaunchRestore(server, copy, a);
    case RestoreInProgress => result := MonitorRestore(server, copy, a);
    case PostRestoreBootstrapInProgress => result := BootstrapRestored(server, copy, a);
    case PostRestoreBootstrapComplete => result := FinishRestore(server, copy, a);
    case PostRestoreDatabasePatchingInProgress => result := MonitorPatching(server, copy, a);
    case _ => result := Proceed;
  }

  /**
   One reconcile: read, step, write the status back. It keeps the history legal and the jobs
   unique whatever the plan of the calls is, and is one `Advance` of the stored object when they
   all go through.
   */
  method Reconcile(server: ApiServer, a: Answers) returns (result: Result)
    requires Sound(server)
    modifies server
    ensures Sound(server) && old(server.store.history) <= server.store.history
    ensures |server.launched| <= |old(server.launched)| + 1
    ensures |server.deletions| <= |old(server.deletions)| + 1
    ensures Quiet(server.plan, old(server.calls)) ==>
              forall k :: |old(server.deletions)| <= k < |server.deletions| ==> server.deletions[k].version == server.deletions[k].at
    ensures Quiet(server.plan, old(server.calls)) ==>
              && server.store.Current() == Advance(old(server.store.Current()), a)
              && (result == Proceed ==> !Watched(server.store.Current()))
  {
    ghost var st, p := server.store, server.plan(server.calls);
    var copy := server.Get();
    DisturbKeepsLegal(st, p.edits);
    RecordsStay(st.history, server.store.history, server.launched, server.deletions);
    result := Proceed;
    if copy.inst.spec.restore.Some? {
      result := RestoreStateMachine(server, copy, a);
    }
    var ok := CommitStatus(server, copy);
    if !ok {
      result := Error;
    }
  }

  /** Any number of reconciles: the jobs started over the whole run have strictly increasing request times. */
  method Reconciles(server: ApiServer, answers: seq<Answers>)
    requires Sound(server)
    modifies server
    ensures Sound(server)
    ensures StrictlyIncreasing(LaunchTimes(server.store.history, server.launched))
    ensures forall k :: 0 <= k < |server.deletions| ==>
              (DeletedTooLate(server.store.history, server.launched, server.deletions[k]) <==>
               ReadBeforeLaunch(server.store.history, server.launched, server.deletions[k]))
  {
    for i := 0 to |answers|
      invariant Sound(server)
    {
      var _ := Reconcile(server, answers[i]);
    }
    AtMostOneJobPerRequest(server.store.history, server.launched, "");
    forall k | 0 <= k < |server.deletions|
      ensures DeletedTooLate(server.store.history, server.launched, server.deletions[k]) <==>
              ReadBeforeLaunch(server.store.history, server.launched, server.deletions[k])
    {
      DeletedTooLateIff(server.store.history, server.launched, server.deletions[k]);
    }
  }
}
