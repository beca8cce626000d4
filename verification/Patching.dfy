/**
 The patching state machine of oracle/controllers/instancecontroller/instance_controller_patching.go.

 Unlike the restore machine it commits only at the end of a reconcile, so its destructive calls run
 before the state they lead to is stored, and may run again from a stale or uncommitted state. What
 is proved is that they are nevertheless always backed by snapshots that passed the check.
 */
module Patching {
  import opened Common

  type Images = map<string, string>

  datatype Reason =
    | CreateComplete
    | ExportComplete
    | RestoreComplete
    | ImportComplete
    | PatchingBackupStarted
    | PatchingBackupFailure
    | DeploymentSetPatchingInProgress
    | DeploymentSetPatchingComplete
    | DeploymentSetPatchingRollbackInProgress
    | StatefulSetPatchingInProgress
    | StatefulSetPatchingComplete
    | StatefulSetPatchingFailure
    | DatabasePatchingInProgress
    | DatabasePatchingComplete
    | DatabasePatchingFailure
    | PatchingRecoveryInProgress
    | PatchingRecoveryCompleted
    | PatchingRecoveryFailure
    | OtherReason(name: string)

  datatype Status = Status(
    reason: Reason,
    ready: bool, // status of the Ready condition
    backupID: string,
    activeImages: Images,
    lastFailedImages: Option<Images>,
    active: bool) // CurrentActiveStateMachine names this machine

  const DEFAULT_DISKS := ["DataDisk", "LogDisk"]

  /** The disk lists; they do not change during a run. */
  datatype Disks = Disks(spec: Option<seq<string>>, config: Option<seq<string>>) {
    /** Disks that are snapshotted and checked: the instance's own list. */
    function Snapshotted(): seq<string>
    {
      if spec.Some? then spec.value else []
    }

    /** Disks that have volumes. */
    function Mounted(): seq<string>
    {
      if spec.Some? then spec.value else if config.Some? then config.value else DEFAULT_DISKS
    }
  }

  // ---------------------------------------------------------------------------------------------
  // Answers of the cluster and the database

  /** An error of a snapshot counts only if it comes with a message; readiness may be unknown. */
  datatype SnapshotError = NoError | SilentError | Message
  datatype SnapshotLook = GetFailed | NoStatus | Looked(error: SnapshotError, ready: Option<bool>)
  datatype Lookup = Present | NotFound | LookupFailed
  datatype Tri = No | Yes | Broken
  datatype Replace = StsNotRetrieved | StsNotDeleted | StsNotRebuilt | StsReplaced
  datatype Cleanup = Cleanup(built: bool, sts: Lookup, pvcs: seq<Lookup>)

  datatype Answers = Answers(
    enabled: bool, // the patching service
    database: bool, // the database condition exists
    specImages: Option<Images>,
    paramImages: Images,
    newID: string,
    taken: nat, // snapshots created before an error, if less than the number of disks
    conflict: bool,
    looks: seq<SnapshotLook>,
    timedOut: bool,
    monitoring: Tri,
    oracle: bool, // up and running; asking never fails, only says no
    replace: Replace,
    progressed: bool,
    patchStarted: bool,
    patched: Tri,
    cleanup: Cleanup,
    restored: bool)

  /** Everything a run does that matters here, in order. */
  datatype Entry =
    | SnapshotTaken(id: string, disk: string)
    | CheckPassed(id: string, disks: seq<string>, looks: seq<SnapshotLook>)
    | DeleteSts(id: string)
    | DeletePvc(id: string, disk: string)
    | Recover(id: string, images: Images)
    | Commit(status: Status)
    | Observed(status: Status, a: Answers) // what a reconcile that entered the machine read and was told

  const STATEFUL_SET_IMAGES := ["service", "dbinit", "logging_sidecar"]

  function ImageOf(images: Images, name: string): string
  {
    if name in images then images[name] else ""
  }

  predicate StatefulSetPatchingRequired(current: Images, new_: Option<Images>)
  {
    var images := if new_.Some? then new_.value else map[];
    exists i :: 0 <= i < |STATEFUL_SET_IMAGES| &&
                ImageOf(current, STATEFUL_SET_IMAGES[i]) != ImageOf(images, STATEFUL_SET_IMAGES[i])
  }

  /** A reconcile enters the machine for new images that have not failed, and again until it is done. */
  predicate Enters(s: Status, a: Answers)
  {
    && a.database
    && (s.active || (a.enabled && s.ready && s.activeImages != a.paramImages && s.lastFailedImages != Some(a.paramImages)))
  }

  // ---------------------------------------------------------------------------------------------
  // The loops of the machine, as functions of what they see

  function LookAt(looks: seq<SnapshotLook>, i: nat): SnapshotLook
  {
    if i < |looks| then looks[i] else GetFailed
  }

  /** What the check accepts: not known to have failed, and not known to be unready. */
  predicate Passes(look: SnapshotLook)
  {
    look.Looked? && look.error != Message && look.ready != Some(false)
  }

  /** What was seen of each of the n snapshots. */
  function Seen(looks: seq<SnapshotLook>, n: nat): (seen: seq<SnapshotLook>)
    ensures |seen| == n
  {
    seq(n, i requires 0 <= i < n => LookAt(looks, i))
  }

  function Taken(id: string, disks: seq<string>, n: nat): (entries: seq<Entry>)
    requires n <= |disks|
    ensures |entries| == n
  {
    seq(n, i requires 0 <= i < n => SnapshotTaken(id, disks[i]))
  }

  /** The first look that does not pass decides; without one the check passes. */
  function CheckFrom(looks: seq<SnapshotLook>, from: nat, n: nat): (r: Tri)
    requires from <= n
    ensures r == Yes <==> forall i :: from <= i < n ==> Passes(LookAt(looks, i))
    decreases n - from
  {
    if from == n then Yes
    else match LookAt(looks, from)
      case GetFailed => Broken
      case NoStatus => No
      case Looked(error, ready) =>
        if error == Message then Broken
        else if ready == Some(false) then No
        else CheckFrom(looks, from + 1, n)
  }

  /** What one pass of deleteOldSTSandPVCs does from volume `from` on: at most one deletion. */
  function RemovePvcs(id: string, disks: seq<string>, looks: seq<Lookup>, from: nat): (r: (Tri, seq<Entry>))
    requires from <= |disks|
    decreases |disks| - from
  {
    if from == |disks| then (Yes, [])
    else match (if from < |looks| then looks[from] else LookupFailed)
      case Present => (No, [DeletePvc(id, disks[from])])
      case NotFound => RemovePvcs(id, disks, looks, from + 1)
      case LookupFailed => (Broken, [])
  }

  function RemoveOld(id: string, disks: seq<string>, c: Cleanup): (r: (Tri, seq<Entry>))
  {
    if !c.built then (Broken, [])
    else match c.sts
      case Present => (No, [DeleteSts(id)])
      case NotFound => RemovePvcs(id, disks, c.pvcs, 0)
      case LookupFailed => (Broken, [])
  }

  // ---------------------------------------------------------------------------------------------
  // One step: the new status, and what was done to get there

  datatype Effect = Effect(status: Status, entries: seq<Entry>)

  function Unready(s: Status, r: Reason): Status
  {
    s.(reason := r, ready := false)
  }

  function Goto(s: Status, r: Reason): Effect
  {
    Effect(Unready(s, r), [])
  }

  function StartBackup(d: Disks, s: Status, a: Answers): Effect
  {
    if s.reason == PatchingRecoveryCompleted && a.specImages == s.lastFailedImages then Effect(s, [])
    else
      var disks := d.Snapshotted();
      if a.taken < |disks| then
        var s' := s.(active := true);
        Effect(if a.conflict then s' else Unready(s', PatchingBackupFailure), Taken(a.newID, disks, a.taken))
      else
        Effect(Unready(s.(active := true, backupID := a.newID), PatchingBackupStarted), Taken(a.newID, disks, |disks|))
  }

  function Step(d: Disks, s: Status, a: Answers): Effect
  {
    match s.reason
    case CreateComplete => StartBackup(d, s, a)
    case ExportComplete => StartBackup(d, s, a)
    case RestoreComplete => StartBackup(d, s, a)
    case ImportComplete => StartBackup(d, s, a)
    case PatchingRecoveryCompleted => StartBackup(d, s, a)
    case PatchingBackupStarted =>
      (match CheckFrom(a.looks, 0, |d.Snapshotted()|)
       case Broken => Goto(s, PatchingBackupFailure)
       case No => Effect(s, [])
       case Yes => Effect(Unready(s, DeploymentSetPatchingInProgress), [CheckPassed(s.backupID, d.Snapshotted(), Seen(a.looks, |d.Snapshotted()|))]))
    case DeploymentSetPatchingInProgress =>
      if a.timedOut || a.monitoring == Broken then Goto(s, DeploymentSetPatchingRollbackInProgress)
      else if a.monitoring == No then Effect(s, [])
      else Goto(s, DeploymentSetPatchingComplete)
    case DeploymentSetPatchingComplete =>
      if !a.oracle then Effect(s, [])
      else if !StatefulSetPatchingRequired(s.activeImages, a.specImages) then Goto(s, StatefulSetPatchingComplete)
      else
        Effect(Unready(s, if a.replace == StsReplaced then StatefulSetPatchingInProgress else StatefulSetPatchingFailure),
               if a.replace == StsNotRetrieved then [] else [DeleteSts(s.backupID)])
    case DeploymentSetPatchingRollbackInProgress =>
      if a.timedOut || a.monitoring == Broken then Goto(s, PatchingRecoveryFailure)
      else if a.monitoring == No then Effect(s, [])
      else Goto(s, PatchingRecoveryCompleted)
    case StatefulSetPatchingInProgress =>
      if a.timedOut then Goto(s, StatefulSetPatchingFailure)
      else if !a.progressed then Effect(s, [])
      else Goto(s, StatefulSetPatchingComplete)
    case StatefulSetPatchingComplete =>
      if !a.oracle then Effect(s, [])
      else if !a.patchStarted then Goto(s, DatabasePatchingFailure)
      else Goto(s, DatabasePatchingInProgress)
    case DatabasePatchingInProgress =>
      if a.timedOut || a.patched == Broken then Goto(s, DatabasePatchingFailure)
      else if a.patched == No then Effect(s, [])
      else Goto(s, DatabasePatchingComplete)
    case DatabasePatchingComplete =>
      Effect(s.(reason := CreateComplete, ready := true, activeImages := a.paramImages, active := false), [])
    case StatefulSetPatchingFailure => RemoveStep(d, s, a)
    case DatabasePatchingFailure => RemoveStep(d, s, a)
    case PatchingRecoveryInProgress =>
      var entries := [Recover(s.backupID, s.activeImages)];
      if !a.restored || !a.progressed || !a.oracle then Effect(s, entries)
      else
        var failed := if a.specImages.Some? then a.specImages.value else map[];
        Effect(s.(reason := PatchingRecoveryCompleted, ready := true, lastFailedImages := Some(failed), active := false), entries)
    case _ => Effect(s, [])
  }

  function RemoveStep(d: Disks, s: Status, a: Answers): Effect
  {
    var (done, entries) := RemoveOld(s.backupID, d.Mounted(), a.cleanup);
    match done
    case Broken => Effect(Unready(s, PatchingRecoveryFailure), entries)
    case No => Effect(s, entries)
    case Yes => Effect(Unready(s, PatchingRecoveryInProgress), entries)
  }

  // ---------------------------------------------------------------------------------------------
  // The machine as the source runs it: a switch that updates the instance and calls the cluster

  class Instance {
    var reason: Reason
    var ready: bool
    var backupID: string
    var activeImages: Images
    var lastFailedImages: Option<Images>
    var active: bool

    constructor (s: Status)
      ensures Value() == s
    {
      reason, ready, backupID, activeImages, lastFailedImages, active :=
        s.reason, s.ready, s.backupID, s.activeImages, s.lastFailedImages, s.active;
    }

    function Value(): Status
      reads this
    {
      Status(reason, ready, backupID, activeImages, lastFailedImages, active)
    }
  }

  class Cluster {
    const disks: Disks
    var log: seq<Entry>

    constructor (disks: Disks)
      ensures this.disks == disks && log == []
    {
      this.disks := disks;
      log := [];
    }

    method Do(e: Entry)
      modifies this`log
      ensures log == old(log) + [e]
    {
      log := log + [e];
    }
  }

  /** prePatchBackup: one snapshot per spec disk, stopping at the first error. */
  method PrePatchBackup(cluster: Cluster, a: Answers) returns (ok: bool)
    modifies cluster`log
    ensures var disks := cluster.disks.Snapshotted();
            && ok == (a.taken >= |disks|)
            && cluster.log == old(cluster.log) + Taken(a.newID, disks, if ok then |disks| else a.taken)
  {
    var disks := cluster.disks.Snapshotted();
    for i := 0 to |disks|
      invariant i <= a.taken
      invariant cluster.log == old(cluster.log) + Taken(a.newID, disks, i)
    {
      if i == a.taken {
        return false;
      }
      cluster.Do(SnapshotTaken(a.newID, disks[i]));
    }
    ok := true;
  }

  /** isPatchingBackupCompleted: look at each spec disk's snapshot in turn. */
  method IsPatchingBackupCompleted(disks: seq<string>, looks: seq<SnapshotLook>) returns (completed: Tri)
    ensures completed == CheckFrom(looks, 0, |disks|)
    ensures completed == Yes <==> forall i :: 0 <= i < |disks| ==> Passes(LookAt(looks, i))
  {
    for i := 0 to |disks|
      invariant CheckFrom(looks, 0, |disks|) == CheckFrom(looks, i, |disks|)
    {
      var look := LookAt(looks, i);
      if look == GetFailed {
        return Broken;
      }
      if look == NoStatus {
        return No;
      }
      if look.error == Message {
        return Broken;
      }
      if look.ready.Some? && !look.ready.value {
        return No;
      }
    }
    completed := Yes;
  }

  /** deleteOldSTSandPVCs: delete the first thing still there and come back later. */
  method DeleteOldSTSandPVCs(cluster: Cluster, id: string, c: Cleanup) returns (done: Tri)
    modifies cluster`log
    ensures done == RemoveOld(id, cluster.disks.Mounted(), c).0
    ensures cluster.log == old(cluster.log) + RemoveOld(id, cluster.disks.Mounted(), c).1
  {
    var disks := cluster.disks.Mounted();
    if !c.built {
      return Broken;
    }
    if c.sts == Present {
      cluster.Do(DeleteSts(id));
      return No;
    } else if c.sts == LookupFailed {
      return Broken;
    }
    for i := 0 to |disks|
      invariant cluster.log == old(cluster.log)
      invariant RemovePvcs(id, disks, c.pvcs, 0) == RemovePvcs(id, disks, c.pvcs, i)
    {
      var look := if i < |c.pvcs| then c.pvcs[i] else LookupFailed;
      if look == Present {
        cluster.Do(DeletePvc(id, disks[i]));
        return No;
      } else if look == LookupFailed {
        return Broken;
      }
    }
    done := Yes;
  }

  predicate IsStable(r: Reason)
  {
    || r == CreateComplete || r == ExportComplete || r == RestoreComplete || r == ImportComplete
    || r == PatchingRecoveryCompleted
  }

  /** Snapshot every spec disk, unless these images already failed. */
  method StartPatchingBackup(inst: Instance, cluster: Cluster, a: Answers)
    modifies inst, cluster`log
    ensures inst.Value() == StartBackup(cluster.disks, old(inst.Value()), a).status
    ensures cluster.log == old(cluster.log) + StartBackup(cluster.disks, old(inst.Value()), a).entries
  {
    if inst.reason == PatchingRecoveryCompleted && a.specImages == inst.lastFailedImages {
      return;
    }
    inst.active := true;
    var ok := PrePatchBackup(cluster, a);
    if !ok {
      if !a.conflict {
        inst.reason, inst.ready := PatchingBackupFailure, false;
      }
      return;
    }
    inst.backupID := a.newID;
    inst.reason, inst.ready := PatchingBackupStarted, false;
  }

  lemma StableStep(d: Disks, s: Status, a: Answers)
    requires IsStable(s.reason)
    ensures Step(d, s, a) == StartBackup(d, s, a)
  {
  }

  /** Stable states. */
  method BeginPatching(inst: Instance, cluster: Cluster, a: Answers)
    requires IsStable(inst.reason)
    modifies inst, cluster`log
    ensures inst.Value() == Step(cluster.disks, old(inst.Value()), a).status
    ensures cluster.log == old(cluster.log) + Step(cluster.disks, old(inst.Value()), a).entries
  {
    StableStep(cluster.disks, inst.Value(), a);
    StartPatchingBackup(inst, cluster, a);
  }

  /** PatchingBackupStarted: wait for the snapshots. */
  method AwaitBackup(inst: Instance, cluster: Cluster, a: Answers)
    requires inst.reason == PatchingBackupStarted
    modifies inst, cluster`log
    ensures inst.Value() == Step(cluster.disks, old(inst.Value()), a).status
    ensures cluster.log == old(cluster.log) + Step(cluster.disks, old(inst.Value()), a).entries
  {
    var completed := IsPatchingBackupCompleted(cluster.disks.Snapshotted(), a.looks);
    if completed == Broken {
      inst.reason, inst.ready := PatchingBackupFailure, false;
    } else if completed == Yes {
      var disks := cluster.disks.Snapshotted();
      cluster.Do(CheckPassed(inst.backupID, disks, Seen(a.looks, |disks|)));
      inst.reason, inst.ready := DeploymentSetPatchingInProgress, false;
    }
  }

  /** DeploymentSetPatchingComplete: replace the StatefulSet if its images changed. */
  method PatchStatefulSet(inst: Instance, cluster: Cluster, a: Answers)
    requires inst.reason == DeploymentSetPatchingComplete
    modifies inst, cluster`log
    ensures inst.Value() == Step(cluster.disks, old(inst.Value()), a).status
    ensures cluster.log == old(cluster.log) + Step(cluster.disks, old(inst.Value()), a).entries
  {
    if a.oracle {
      if !StatefulSetPatchingRequired(inst.activeImages, a.specImages) {
        inst.reason, inst.ready := StatefulSetPatchingComplete, false;
      } else {
        if a.replace != StsNotRetrieved {
          cluster.Do(DeleteSts(inst.backupID));
        }
        inst.reason, inst.ready := if a.replace == StsReplaced then StatefulSetPatchingInProgress else StatefulSetPatchingFailure, false;
      }
    }
  }

  /** Failure states: remove the StatefulSet and its volumes. */
  method RemoveFailed(inst: Instance, cluster: Cluster, a: Answers)
    requires inst.reason == StatefulSetPatchingFailure || inst.reason == DatabasePatchingFailure
    modifies inst, cluster`log
    ensures inst.Value() == Step(cluster.disks, old(inst.Value()), a).status
    ensures cluster.log == old(cluster.log) + Step(cluster.disks, old(inst.Value()), a).entries
  {
    var done := DeleteOldSTSandPVCs(cluster, inst.backupID, a.cleanup);
    if done == Broken {
      inst.reason, inst.ready := PatchingRecoveryFailure, false;
    } else if done == Yes {
      inst.reason, inst.ready := PatchingRecoveryInProgress, false;
    }
  }

  /** PatchingRecoveryInProgress: restore the snapshots under the active images. */
  method RecoverFromFailure(inst: Instance, cluster: Cluster, a: Answers)
    requires inst.reason == PatchingRecoveryInProgress
    modifies inst, cluster`log
    ensures inst.Value() == Step(cluster.disks, old(inst.Value()), a).status
    ensures cluster.log == old(cluster.log) + Step(cluster.disks, old(inst.Value()), a).entries
  {
    cluster.Do(Recover(inst.backupID, inst.activeImages));
    if !a.restored || !a.progressed || !a.oracle {
      return;
    }
    inst.lastFailedImages := Some(if a.specImages.Some? then a.specImages.value else map[]);
    inst.reason, inst.ready := PatchingRecoveryCompleted, true;
    inst.active := false;
  }

  /** The other states only watch something else make progress. */
  method TrackProgress(inst: Instance, cluster: Cluster, a: Answers)
    requires !IsStable(inst.reason) && inst.reason != PatchingBackupStarted && inst.reason != DeploymentSetPatchingComplete
    requires inst.reason != StatefulSetPatchingFailure && inst.reason != DatabasePatchingFailure
    requires inst.reason != PatchingRecoveryInProgress
    modifies inst, cluster`log
    ensures inst.Value() == Step(cluster.disks, old(inst.Value()), a).status
    ensures cluster.log == old(cluster.log) + Step(cluster.disks, old(inst.Value()), a).entries
  {
    match inst.reason {
      case DeploymentSetPatchingInProgress =>
        if a.timedOut || a.monitoring == Broken {
          inst.reason, inst.ready := DeploymentSetPatchingRollbackInProgress, false;
        } else if a.monitoring == Yes {
          inst.reason, inst.ready := DeploymentSetPatchingComplete, false;
        }
      case DeploymentSetPatchingRollbackInProgress =>
        if a.timedOut || a.monitoring == Broken {
          inst.reason, inst.ready := PatchingRecoveryFailure, false;
        } else if a.monitoring == Yes {
          inst.reason, inst.ready := PatchingRecoveryCompleted, false;
        }
      case StatefulSetPatchingInProgress =>
        if a.timedOut {
          inst.reason, inst.ready := StatefulSetPatchingFailure, false;
        } else if a.progressed {
          inst.reason, inst.ready := StatefulSetPatchingComplete, false;
        }
      case StatefulSetPatchingComplete =>
        if a.oracle {
          inst.reason, inst.ready := if a.patchStarted then DatabasePatchingInProgress else DatabasePatchingFailure, false;
        }
      case DatabasePatchingInProgress =>
        if a.timedOut || a.patched == Broken {
          inst.reason, inst.ready := DatabasePatchingFailure, false;
        } else if a.patched == Yes {
          inst.reason, inst.ready := DatabasePatchingComplete, false;
        }
      case DatabasePatchingComplete =>
        inst.reason, inst.ready := CreateComplete, true;
        inst.activeImages := a.paramImages;
        inst.active := false;
      case _ =>
    }
  }

  method PatchingStateMachine(inst: Instance, cluster: Cluster, a: Answers)
    modifies inst, cluster`log
    ensures inst.Value() == Step(cluster.disks, old(inst.Value()), a).status
    ensures cluster.log == old(cluster.log) + Step(cluster.disks, old(inst.Value()), a).entries
  {
    if IsStable(inst.reason) {
      BeginPatching(inst, cluster, a);
    } else if inst.reason == PatchingBackupStarted {
      AwaitBackup(inst, cluster, a);
    } else if inst.reason == DeploymentSetPatchingComplete {
      PatchStatefulSet(inst, cluster, a);
    } else if inst.reason == StatefulSetPatchingFailure || inst.reason == DatabasePatchingFailure {
      RemoveFailed(inst, cluster, a);
    } else if inst.reason == PatchingRecoveryInProgress {
      RecoverFromFailure(inst, cluster, a);
    } else {
      TrackProgress(inst, cluster, a);
    }
  }

  // ---------------------------------------------------------------------------------------------
  // Whole runs

  /** Every stored version, oldest first, and everything done so far. */
  datatype World = World(history: seq<Status>, log: seq<Entry>)

  /**
   A reconcile works on any version up to the newest, if that version lets it into the machine; its
   status is stored only if that version is still the newest and the write arrives. Another writer may
   change the status too.
   */
  datatype Event = Reconcile(version: nat, a: Answers, arrives: bool) | OtherWrite(status: Status)

  /** The snapshots of this patch passed their check. */
  predicate PastCheck(r: Reason)
  {
    match r
    case DeploymentSetPatchingInProgress => true
    case DeploymentSetPatchingComplete => true
    case DeploymentSetPatchingRollbackInProgress => true
    case StatefulSetPatchingInProgress => true
    case StatefulSetPatchingComplete => true
    case StatefulSetPatchingFailure => true
    case DatabasePatchingInProgress => true
    case DatabasePatchingComplete => true
    case DatabasePatchingFailure => true
    case PatchingRecoveryInProgress => true
    case _ => false
  }

  predicate UnderWay(r: Reason)
  {
    r == PatchingBackupStarted || PastCheck(r)
  }

  /** Other writers never enter the patching states, and leave BackupID and ActiveImages alone in them. */
  function Interfere(cur: Status, s: Status): Status
  {
    var s' := s.(reason := if UnderWay(s.reason) then cur.reason else s.reason);
    if UnderWay(s'.reason) then s'.(backupID := cur.backupID, activeImages := cur.activeImages) else s'
  }

  function Put(w: World, s: Status): World
    requires w.history != []
  {
    if s == w.history[|w.history| - 1] then w else World(w.history + [s], w.log + [Commit(s)])
  }

  function Next(d: Disks, w: World, e: Event): (w': World)
    requires w.history != []
    ensures w'.history != []
  {
    match e
    case OtherWrite(s) => Put(w, Interfere(w.history[|w.history| - 1], s))
    case Reconcile(v, a, arrives) =>
      if v >= |w.history| || !Enters(w.history[v], a) then w
      else
        var effect := Step(d, w.history[v], a);
        var w' := w.(log := w.log + [Observed(w.history[v], a)] + effect.entries);
        if arrives && v == |w.history| - 1 then Put(w', effect.status) else w'
  }

  function Run(d: Disks, w: World, events: seq<Event>): (w': World)
    requires w.history != []
    ensures w'.history != []
    decreases events
  {
    if events == [] then w else Run(d, Next(d, w, events[0]), events[1..])
  }

  /** Entry k stores the start of the patch that took backup `id` while `images` were active. */
  ghost predicate BeganAt(log: seq<Entry>, k: int, id: string, images: Images)
  {
    && 0 <= k < |log| && log[k].Commit?
    && log[k].status.reason == PatchingBackupStarted
    && log[k].status.backupID == id
    && log[k].status.activeImages == images
  }

  ghost predicate PassedAt(d: Disks, log: seq<Entry>, j: int, id: string)
  {
    && 0 <= j < |log| && log[j].CheckPassed? && log[j].id == id && log[j].disks == d.Snapshotted()
    && |log[j].looks| == |log[j].disks| && forall l :: 0 <= l < |log[j].looks| ==> Passes(log[j].looks[l])
  }

  /** A patch began with this backup and these images, and all its snapshots then passed the check. */
  ghost predicate Secured(d: Disks, log: seq<Entry>, id: string, images: Images)
  {
    exists k, j :: k < j && BeganAt(log, k, id, images) && PassedAt(d, log, j, id)
  }

  ghost predicate Began(log: seq<Entry>, id: string, images: Images)
  {
    exists k :: BeganAt(log, k, id, images)
  }

  /** What may be done after `log`: deletions need a secured backup, recoveries also its images. */
  ghost predicate Allowed(d: Disks, log: seq<Entry>, e: Entry)
  {
    match e
    case DeleteSts(id) => exists images :: Secured(d, log, id, images)
    case DeletePvc(id, disk) => disk in d.Mounted() && exists images :: Secured(d, log, id, images)
    case Recover(id, images) => Secured(d, log, id, images)
    case _ => true
  }

  ghost predicate StatusBacked(d: Disks, log: seq<Entry>, s: Status)
  {
    && (s.reason == PatchingBackupStarted ==> Began(log, s.backupID, s.activeImages))
    && (PastCheck(s.reason) ==> Secured(d, log, s.backupID, s.activeImages))
  }

  ghost predicate Inv(d: Disks, w: World)
  {
    && w.history != []
    && (forall v :: 0 <= v < |w.history| ==> StatusBacked(d, w.log, w.history[v]))
    && (forall i :: 0 <= i < |w.log| ==> Allowed(d, w.log[..i], w.log[i]))
  }

  lemma SecuredStays(d: Disks, log: seq<Entry>, more: seq<Entry>, id: string, images: Images)
    ensures Began(log, id, images) ==> Began(log + more, id, images)
    ensures Secured(d, log, id, images) ==> Secured(d, log + more, id, images)
  {
    if Began(log, id, images) {
      var k :| BeganAt(log, k, id, images);
      assert BeganAt(log + more, k, id, images);
    }
    if Secured(d, log, id, images) {
      var k, j :| k < j && BeganAt(log, k, id, images) && PassedAt(d, log, j, id);
      assert BeganAt(log + more, k, id, images) && PassedAt(d, log + more, j, id);
    }
  }

  lemma BackedStays(d: Disks, w: World, more: seq<Entry>)
    requires Inv(d, w)
    ensures forall v :: 0 <= v < |w.history| ==> StatusBacked(d, w.log + more, w.history[v])
  {
    forall v | 0 <= v < |w.history|
      ensures StatusBacked(d, w.log + more, w.history[v])
    {
      SecuredStays(d, w.log, more, w.history[v].backupID, w.history[v].activeImages);
    }
  }

  lemma {:induction false} RemovedArePvcs(id: string, disks: seq<string>, looks: seq<Lookup>, from: nat)
    requires from <= |disks|
    ensures var entries := RemovePvcs(id, disks, looks, from).1;
            |entries| <= 1 && forall i :: 0 <= i < |entries| ==> entries[i].DeletePvc? && entries[i].id == id && entries[i].disk in disks
    decreases |disks| - from
  {
    if from < |disks| {
      RemovedArePvcs(id, disks, looks, from + 1);
    }
  }

  /** Nothing a step does needs more than the backing of the status it started from. */
  lemma StepAllowed(d: Disks, log: seq<Entry>, s: Status, a: Answers)
    requires StatusBacked(d, log, s)
    ensures var entries := Step(d, s, a).entries;
            forall i :: 0 <= i < |entries| ==> Allowed(d, log, entries[i]) && !entries[i].Commit?
  {
    var looks := a.cleanup.pvcs;
    RemovedArePvcs(s.backupID, d.Mounted(), looks, 0);
  }

  lemma CheckShape(d: Disks, s: Status, a: Answers)
    requires s.reason == PatchingBackupStarted
    ensures var e := Step(d, s, a);
            PastCheck(e.status.reason) ==> e.status == Unready(s, e.status.reason) && |e.entries| == 1 && PassedAt(d, e.entries, 0, s.backupID)
  {
  }

  lemma OtherShape(d: Disks, s: Status, a: Answers)
    requires s.reason != PatchingBackupStarted
    ensures var next := Step(d, s, a).status;
            PastCheck(next.reason) ==> PastCheck(s.reason) && next.backupID == s.backupID && next.activeImages == s.activeImages
  {
  }

  /** A step leads past the check only from behind it or through it, and changes neither backup nor images on the way. */
  ghost predicate Shaped(d: Disks, s: Status, next: Status, entries: seq<Entry>)
  {
    PastCheck(next.reason) ==>
      && next.backupID == s.backupID && next.activeImages == s.activeImages
      && (PastCheck(s.reason) ||
          (s.reason == PatchingBackupStarted && |entries| == 1 && PassedAt(d, entries, 0, s.backupID)))
  }

  lemma StepBacked(d: Disks, log: seq<Entry>, s: Status, a: Answers)
    requires StatusBacked(d, log, s)
    ensures var effect := Step(d, s, a);
            StatusBacked(d, log + effect.entries + [Commit(effect.status)], effect.status)
  {
    var effect := Step(d, s, a);
    if s.reason == PatchingBackupStarted {
      CheckShape(d, s, a);
    } else {
      OtherShape(d, s, a);
    }
    BackedAfter(d, log, s, effect.status, effect.entries);
  }

  lemma BackedAfter(d: Disks, log: seq<Entry>, s: Status, next: Status, entries: seq<Entry>)
    requires StatusBacked(d, log, s) && Shaped(d, s, next, entries)
    ensures StatusBacked(d, log + entries + [Commit(next)], next)
  {
    var log' := log + entries + [Commit(next)];
    assert log' == log + (entries + [Commit(next)]);
    SecuredStays(d, log, entries + [Commit(next)], s.backupID, s.activeImages);
    if next.reason == PatchingBackupStarted {
      assert BeganAt(log', |log'| - 1, next.backupID, next.activeImages);
    } else if s.reason == PatchingBackupStarted && PastCheck(next.reason) {
      var k :| BeganAt(log, k, s.backupID, s.activeImages);
      assert BeganAt(log', k, s.backupID, s.activeImages) && PassedAt(d, log', |log|, s.backupID);
    }
  }

  lemma AppendAllowed(d: Disks, log: seq<Entry>, entries: seq<Entry>)
    requires forall i :: 0 <= i < |log| ==> Allowed(d, log[..i], log[i])
    requires forall i :: 0 <= i < |entries| ==> Allowed(d, log, entries[i])
    ensures forall i :: 0 <= i < |log + entries| ==> Allowed(d, (log + entries)[..i], (log + entries)[i])
  {
    var all := log + entries;
    forall i | 0 <= i < |all|
      ensures Allowed(d, all[..i], all[i])
    {
      if i < |log| {
        assert all[..i] == log[..i];
      } else {
        var more := entries[..i - |log|];
        assert all[..i] == log + more && all[i] == entries[i - |log|];
        AllowedStays(d, log, more, all[i]);
      }
    }
  }

  lemma AllowedStays(d: Disks, log: seq<Entry>, more: seq<Entry>, e: Entry)
    requires Allowed(d, log, e)
    ensures Allowed(d, log + more, e)
  {
    match e
    case Recover(id, images) => SecuredStays(d, log, more, id, images);
    case DeleteSts(id) =>
      var images :| Secured(d, log, id, images);
      SecuredStays(d, log, more, id, images);
    case DeletePvc(id, _) =>
      var images :| Secured(d, log, id, images);
      SecuredStays(d, log, more, id, images);
    case _ =>
  }

  lemma NextKeepsInv(d: Disks, w: World, e: Event)
    requires Inv(d, w)
    ensures Inv(d, Next(d, w, e))
  {
    match e
    case OtherWrite(s) => OtherWriteKeepsInv(d, w, s);
    case Reconcile(v, a, arrives) =>
      if v < |w.history| && Enters(w.history[v], a) {
        ReconcileKeepsInv(d, w, v, a, arrives);
      }
  }

  lemma OtherWriteKeepsInv(d: Disks, w: World, s: Status)
    requires Inv(d, w)
    ensures Inv(d, Next(d, w, OtherWrite(s)))
  {
    var cur := w.history[|w.history| - 1];
    var s' := Interfere(cur, s);
    var c := [Commit(s')];
    BackedStays(d, w, c);
    AppendAllowed(d, w.log, c);
    assert StatusBacked(d, w.log + c, s') by {
      assert StatusBacked(d, w.log + c, cur);
    }
  }

  lemma ReconcileKeepsInv(d: Disks, w: World, v: nat, a: Answers, arrives: bool)
    requires Inv(d, w) && v < |w.history| && Enters(w.history[v], a)
    ensures Inv(d, Next(d, w, Reconcile(v, a, arrives)))
  {
    var effect, seen := Step(d, w.history[v], a), [Observed(w.history[v], a)];
    AppendAllowed(d, w.log, seen);
    BackedStays(d, w, seen);
    var w1 := World(w.history, w.log + seen);
    StepAllowed(d, w1.log, w.history[v], a);
    AppendAllowed(d, w1.log, effect.entries);
    BackedStays(d, w1, effect.entries);
    if arrives && v == |w.history| - 1 {
      var log' := w1.log + effect.entries;
      AppendAllowed(d, log', [Commit(effect.status)]);
      BackedStays(d, World(w.history, log'), [Commit(effect.status)]);
      StepBacked(d, w1.log, w.history[v], a);
    }
  }

  lemma {:induction false} RunKeepsInv(d: Disks, w: World, events: seq<Event>)
    requires Inv(d, w)
    ensures Inv(d, Run(d, w, events))
    decreases events
  {
    if events != [] {
      NextKeepsInv(d, w, events[0]);
      RunKeepsInv(d, Next(d, w, events[0]), events[1..]);
    }
  }

  /**
   Over every run from a state outside patching: each deletion is preceded by a start of its patch
   and then by the completion check of all its spec disks, and each recovery in addition uses the
   images that were active at that start.
   */
  lemma PatchingSafety(d: Disks, s: Status, events: seq<Event>, i: nat)
    requires !UnderWay(s.reason)
    requires i < |Run(d, World([s], []), events).log|
    ensures var log := Run(d, World([s], []), events).log;
            Allowed(d, log[..i], log[i])
  {
    RunKeepsInv(d, World([s], []), events);
  }

  /** One event, with the machine run on an object of its own. */
  method HandleEvent(cluster: Cluster, history: seq<Status>, e: Event) returns (history': seq<Status>)
    requires history != []
    modifies cluster`log
    ensures World(history', cluster.log) == Next(cluster.disks, World(history, old(cluster.log)), e)
  {
    history' := history;
    var stored := history[|history| - 1];
    var changed := stored;
    match e {
      case OtherWrite(s) =>
        changed := Interfere(stored, s);
      case Reconcile(v, a, arrives) =>
        if v < |history| && Enters(history[v], a) {
          var inst := new Instance(history[v]);
          cluster.Do(Observed(history[v], a));
          PatchingStateMachine(inst, cluster, a);
          if arrives && v == |history| - 1 {
            changed := inst.Value();
          }
        }
    }
    if changed != stored {
      history' := history + [changed];
      cluster.Do(Commit(changed));
    }
  }

  /** Any number of reconciles and other writes: all that the machine does to the cluster is allowed. */
  method Reconciles(cluster: Cluster, start: Status, events: seq<Event>) returns (history: seq<Status>)
    requires cluster.log == [] && !UnderWay(start.reason)
    modifies cluster`log
    ensures World(history, cluster.log) == Run(cluster.disks, World([start], []), events)
    ensures forall i :: 0 <= i < |cluster.log| ==> Allowed(cluster.disks, cluster.log[..i], cluster.log[i])
  {
    history := [start];
    for k := 0 to |events|
      invariant history != []
      invariant Run(cluster.disks, World([start], []), events) == Run(cluster.disks, World(history, cluster.log), events[k..])
    {
      assert events[k..][1..] == events[k + 1..];
      history := HandleEvent(cluster, history, events[k]);
    }
    RunKeepsInv(cluster.disks, World([start], []), events);
  }

  // ---------------------------------------------------------------------------------------------
  // Volumes without snapshots

  /** Every volume that is deleted belongs to a disk whose snapshot was checked first. */
  ghost predicate VolumesCovered(d: Disks, s: Status, events: seq<Event>)
  {
    LogCovers(Run(d, World([s], []), events).log)
  }

  ghost predicate LogCovers(log: seq<Entry>)
  {
    forall i :: 0 <= i < |log| && log[i].DeletePvc? ==>
      exists j :: 0 <= j < i && log[j].CheckPassed? && log[j].id == log[i].id && log[i].disk in log[j].disks
  }

  // A run of the machine: new images, an instance that is ready, and snapshots that say nothing yet.

  const OLD: Images := map["service" := "old"]
  const NEW: Images := map["service" := "new"]
  const ID := "patching-backup"

  function Patch(n: nat, replace: Replace): Answers
  {
    Answers(true, true, Some(NEW), NEW, ID, n, false, seq(n, i => Looked(NoError, None)), false, Yes, true, replace,
            true, true, Yes, Cleanup(true, NotFound, [Present]), true)
  }

  const START := Status(CreateComplete, true, "", OLD, None, false)
  const BACKED_UP := Status(PatchingBackupStarted, false, ID, OLD, None, true)
  const DEPLOYING := Unready(BACKED_UP, DeploymentSetPatchingInProgress)
  const DEPLOYED := Unready(BACKED_UP, DeploymentSetPatchingComplete)

  /** The one check of the run. */
  function Check(d: Disks): Entry
  {
    var n := |d.Snapshotted()|;
    CheckPassed(ID, d.Snapshotted(), Seen(Patch(n, StsReplaced).looks, n))
  }

  function DeployedLog(d: Disks, replace: Replace): seq<Entry>
  {
    var n := |d.Snapshotted()|;
    var a := Patch(n, replace);
    [Observed(START, a)] + Taken(ID, d.Snapshotted(), n) + [Commit(BACKED_UP)] +
    [Observed(BACKED_UP, a)] + [Check(d)] + [Commit(DEPLOYING)] + [Observed(DEPLOYING, a)] + [] + [Commit(DEPLOYED)]
  }

  lemma StoreStep(d: Disks, a: Answers, w: World, s: Status, next: Status, entries: seq<Entry>)
    requires w.history != [] && w.history[|w.history| - 1] == s && next != s && Enters(s, a)
    requires Step(d, s, a) == Effect(next, entries)
    ensures Next(d, w, Reconcile(|w.history| - 1, a, true)) ==
            World(w.history + [next], w.log + [Observed(s, a)] + entries + [Commit(next)])
  {
  }

  lemma RunOn(d: Disks, w: World, e: Event, rest: seq<Event>)
    requires w.history != []
    ensures Run(d, w, [e] + rest) == Run(d, Next(d, w, e), rest)
  {
    assert ([e] + rest)[1..] == rest;
  }

  lemma ImagesDiffer()
    ensures OLD != NEW && StatefulSetPatchingRequired(OLD, Some(NEW))
  {
    assert OLD["service"][0] != NEW["service"][0];
    assert STATEFUL_SET_IMAGES[0] == "service";
    assert ImageOf(OLD, STATEFUL_SET_IMAGES[0]) != ImageOf(NEW, STATEFUL_SET_IMAGES[0]);
  }

  lemma FirstSteps(d: Disks, replace: Replace)
    ensures var n := |d.Snapshotted()|;
            var a := Patch(n, replace);
            && Enters(START, a) && Step(d, START, a) == Effect(BACKED_UP, Taken(ID, d.Snapshotted(), n))
            && Step(d, BACKED_UP, a) == Effect(DEPLOYING, [Check(d)])
            && Step(d, DEPLOYING, a) == Effect(DEPLOYED, [])
  {
    ImagesDiffer();
  }

  function AfterBackup(d: Disks, replace: Replace): World
  {
    var n := |d.Snapshotted()|;
    World([START, BACKED_UP], [] + [Observed(START, Patch(n, replace))] + Taken(ID, d.Snapshotted(), n) + [Commit(BACKED_UP)])
  }

  function AfterCheck(d: Disks, replace: Replace): World
  {
    var a := Patch(|d.Snapshotted()|, replace);
    World([START, BACKED_UP, DEPLOYING], AfterBackup(d, replace).log + [Observed(BACKED_UP, a)] + [Check(d)] + [Commit(DEPLOYING)])
  }

  function AfterDeployment(d: Disks, replace: Replace): World
  {
    World([START, BACKED_UP, DEPLOYING, DEPLOYED], DeployedLog(d, replace))
  }

  lemma StartToBackup(d: Disks, replace: Replace)
    ensures Next(d, World([START], []), Reconcile(0, Patch(|d.Snapshotted()|, replace), true)) == AfterBackup(d, replace)
  {
    FirstSteps(d, replace);
    var n := |d.Snapshotted()|;
    StoreStep(d, Patch(n, replace), World([START], []), START, BACKED_UP, Taken(ID, d.Snapshotted(), n));
  }

  lemma BackupToCheck(d: Disks, replace: Replace)
    ensures Next(d, AfterBackup(d, replace), Reconcile(1, Patch(|d.Snapshotted()|, replace), true)) == AfterCheck(d, replace)
  {
    FirstSteps(d, replace);
    StoreStep(d, Patch(|d.Snapshotted()|, replace), AfterBackup(d, replace), BACKED_UP, DEPLOYING, [Check(d)]);
  }

  lemma CheckToDeployed(d: Disks, replace: Replace)
    ensures Next(d, AfterCheck(d, replace), Reconcile(2, Patch(|d.Snapshotted()|, replace), true)) == AfterDeployment(d, replace)
  {
    FirstSteps(d, replace);
    StoreStep(d, Patch(|d.Snapshotted()|, replace), AfterCheck(d, replace), DEPLOYING, DEPLOYED, []);
  }

  /** From new images to patched deployments, whatever comes then. */
  lemma RunToDeployed(d: Disks, replace: Replace, rest: seq<Event>) returns (events: seq<Event>)
    ensures Run(d, World([START], []), events) == Run(d, AfterDeployment(d, replace), rest)
  {
    StartToBackup(d, replace);
    BackupToCheck(d, replace);
    CheckToDeployed(d, replace);
    var a := Patch(|d.Snapshotted()|, replace);
    var e0, e1, e2 := Reconcile(0, a, true), Reconcile(1, a, true), Reconcile(2, a, true);
    RunOn(d, AfterCheck(d, replace), e2, rest);
    RunOn(d, AfterBackup(d, replace), e1, [e2] + rest);
    RunOn(d, World([START], []), e0, [e1] + ([e2] + rest));
    events := [e0] + ([e1] + ([e2] + rest));
  }

  function RemovalLog(d: Disks): seq<Entry>
    requires d.Mounted() != []
  {
    var a, failed := Patch(|d.Snapshotted()|, StsNotRebuilt), Unready(DEPLOYED, StatefulSetPatchingFailure);
    [Observed(DEPLOYED, a)] + [DeleteSts(ID)] + [Commit(failed)] + [Observed(failed, a)] + [DeletePvc(ID, d.Mounted()[0])]
  }

  lemma StayStep(d: Disks, a: Answers, w: World, s: Status, entries: seq<Entry>)
    requires w.history != [] && w.history[|w.history| - 1] == s && Enters(s, a) && Step(d, s, a) == Effect(s, entries)
    ensures Next(d, w, Reconcile(|w.history| - 1, a, true)) == World(w.history, w.log + [Observed(s, a)] + entries)
  {
  }

  lemma LastSteps(d: Disks)
    requires d.Mounted() != []
    ensures var a, failed := Patch(|d.Snapshotted()|, StsNotRebuilt), Unready(DEPLOYED, StatefulSetPatchingFailure);
            && Step(d, DEPLOYED, a) == Effect(failed, [DeleteSts(ID)])
            && Step(d, failed, a) == Effect(failed, [DeletePvc(ID, d.Mounted()[0])])
  {
    ImagesDiffer();
  }

  /** The StatefulSet is deleted and not built again, so the machine clears up: the first volume goes. */
  lemma RunToRemoval(d: Disks, w: World) returns (events: seq<Event>)
    requires w.history != [] && w.history[|w.history| - 1] == DEPLOYED && d.Mounted() != []
    ensures Run(d, w, events).log == w.log + RemovalLog(d)
  {
    LastSteps(d);
    var a, failed := Patch(|d.Snapshotted()|, StsNotRebuilt), Unready(DEPLOYED, StatefulSetPatchingFailure);
    StoreStep(d, a, w, DEPLOYED, failed, [DeleteSts(ID)]);
    var w1 := World(w.history + [failed], w.log + [Observed(DEPLOYED, a)] + [DeleteSts(ID)] + [Commit(failed)]);
    StayStep(d, a, w1, failed, [DeletePvc(ID, d.Mounted()[0])]);
    var w2 := World(w1.history, w1.log + [Observed(failed, a)] + [DeletePvc(ID, d.Mounted()[0])]);
    assert w2.log == w.log + RemovalLog(d);
    events := RunOfTwo(d, w, Reconcile(|w.history| - 1, a, true), w1, Reconcile(|w.history|, a, true), w2);
  }

  lemma RunOfTwo(d: Disks, w: World, e: Event, w1: World, e': Event, w2: World) returns (events: seq<Event>)
    requires w.history != [] && Next(d, w, e) == w1 && Next(d, w1, e') == w2
    ensures Run(d, w, events) == w2
  {
    RunOn(d, w1, e', []);
    RunOn(d, w, e, [e'] + []);
    events := [e] + ([e'] + []);
  }

  /** Without a disk list of its own the instance loses a volume that no snapshot covers. */
  lemma UncoveredVolumeDeleted(d: Disks) returns (events: seq<Event>)
    requires d.spec.None? && d.Mounted() != []
    ensures !VolumesCovered(d, START, events)
  {
    var w := AfterDeployment(d, StsNotRebuilt);
    var rest := RunToRemoval(d, w);
    events := RunToDeployed(d, StsNotRebuilt, rest);
    LogUncovered(d);
  }

  /** The only check in this log is of no disks at all. */
  lemma LogUncovered(d: Disks)
    requires d.spec.None? && d.Mounted() != []
    ensures !LogCovers(DeployedLog(d, StsNotRebuilt) + RemovalLog(d))
  {
    var log := DeployedLog(d, StsNotRebuilt) + RemovalLog(d);
    assert log[11] == DeletePvc(ID, d.Mounted()[0]);
    assert forall j :: 0 <= j < 11 && log[j].CheckPassed? ==> log[j].disks == [];
  }

  /** Volumes are always covered exactly when the instance lists its disks, or has no volumes at all. */
  lemma VolumesCoveredIff(d: Disks)
    ensures (forall s: Status, events :: !UnderWay(s.reason) ==> VolumesCovered(d, s, events))
            <==> (d.spec.Some? || d.Mounted() == [])
  {
    if d.spec.Some? || d.Mounted() == [] {
      forall s: Status, events | !UnderWay(s.reason)
        ensures VolumesCovered(d, s, events)
      {
        var log := Run(d, World([s], []), events).log;
        forall i | 0 <= i < |log| && log[i].DeletePvc?
          ensures exists j :: 0 <= j < i && log[j].CheckPassed? && log[j].id == log[i].id && log[i].disk in log[j].disks
        {
          PatchingSafety(d, s, events, i);
          var images :| Secured(d, log[..i], log[i].id, images);
          var k, j :| k < j && BeganAt(log[..i], k, log[i].id, images) && PassedAt(d, log[..i], j, log[i].id);
          assert log[j].disks == d.Snapshotted();
        }
      }
    } else {
      var events := UncoveredVolumeDeleted(d);
      assert !UnderWay(START.reason);
    }
  }
}
