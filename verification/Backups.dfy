/**
 The Backup state machine of oracle/controllers/backupcontroller/backup_controller.go, and its
 interplay with the scheduler of common/controllers/cronanything_controller.go as set up by
 common/controllers/backupschedule_controller.go: children are created only when the list of
 children shows none active, while any number of workers advance and anybody deletes them.
 */
module Backups {
  import opened Common
  import opened Children

  datatype Phase = NoPhase | Pending | InProgress | Failed | Succeeded | Deleting

  datatype Reason = NoReason | BackupPending | BackupInProgress | BackupReady | BackupFailed | NotSupported | BackupDeleting

  datatype Backup = Backup(
    verifyExists: bool, // spec.mode
    verifiable: bool, // the spec suits that mode
    specValid: bool,
    phase: Phase,
    reason: Reason,
    identified: bool, // id, time and start time are set
    deleting: bool,
    finalizer: bool)

  datatype VerifyAnswer = VerifyError | Verified | Absent
  datatype JobAnswer = JobRunning | JobLost | JobDone | JobFailed

  datatype Answers = Answers(
    instanceReady: bool,
    verify: VerifyAnswer,
    created: bool,
    job: JobAnswer,
    metadata: bool,
    removed: bool)

  /** What a reconcile leaves behind; the object is gone once its finalizer is. */
  datatype Outcome = Keep(backup: Backup) | Gone

  function PhaseOf(r: Reason): Phase
  {
    match r
    case BackupPending => Pending
    case BackupInProgress => InProgress
    case BackupFailed => Failed
    case BackupReady => Succeeded
    case _ => NoPhase
  }

  /** updateBackupStatus derives the phase from the reason. */
  function WithReason(b: Backup, r: Reason): Backup
  {
    b.(reason := r, phase := PhaseOf(r))
  }

  function Verify(b: Backup, a: Answers): Backup
  {
    if !b.verifiable then b.(reason := NotSupported, phase := Failed)
    else if !a.instanceReady || a.verify == VerifyError then b
    else WithReason(b, if a.verify == Verified then BackupReady else BackupFailed)
  }

  function Delete(b: Backup, a: Answers): Outcome
  {
    if !b.finalizer then Keep(b)
    else if b.phase != Deleting then Keep(b.(reason := BackupDeleting, phase := Deleting))
    else if a.removed then Gone
    else Keep(b)
  }

  function Create(b: Backup, a: Answers): Backup
  {
    if !b.specValid then b
    else match b.reason
      case NoReason => WithReason(b, BackupPending)
      case BackupPending =>
        if !a.instanceReady then WithReason(b, BackupFailed)
        else if !b.identified then WithReason(b.(identified := true), BackupPending)
        else if a.created then WithReason(b, BackupInProgress)
        else b
      case BackupInProgress =>
        if a.job == JobLost || a.job == JobFailed then WithReason(b, BackupFailed)
        else if a.job == JobDone && a.metadata then WithReason(b, BackupReady)
        else b
      case BackupReady => b.(finalizer := true)
      case _ => b
  }

  function Step(b: Backup, a: Answers): Outcome
  {
    if b.verifyExists then Keep(Verify(b, a))
    else if b.deleting then Delete(b, a)
    else Keep(Create(b, a))
  }

  // ---------------------------------------------------------------------------------------------
  // The machine as the source runs it

  class BackupObject {
    const verifyExists: bool
    const verifiable: bool
    const specValid: bool
    const deleting: bool
    var phase: Phase
    var reason: Reason
    var identified: bool
    var finalizer: bool

    constructor (b: Backup)
      ensures Value() == b
    {
      verifyExists, verifiable, specValid, deleting := b.verifyExists, b.verifiable, b.specValid, b.deleting;
      phase, reason, identified, finalizer := b.phase, b.reason, b.identified, b.finalizer;
    }

    function Value(): Backup
      reads this
    {
      Backup(verifyExists, verifiable, specValid, phase, reason, identified, deleting, finalizer)
    }

    method UpdateBackupStatus()
      modifies this`phase
      ensures Value() == WithReason(old(Value()), reason)
    {
      if reason == BackupPending {
        phase := Pending;
      } else if reason == BackupInProgress {
        phase := InProgress;
      } else if reason == BackupFailed {
        phase := Failed;
      } else if reason == BackupReady {
        phase := Succeeded;
      } else {
        phase := NoPhase;
      }
    }

    method ReconcileVerifyExists(a: Answers)
      modifies this
      ensures Value() == Verify(old(Value()), a)
    {
      if !verifiable {
        phase, reason := Failed, NotSupported;
        return;
      }
      if !a.instanceReady || a.verify == VerifyError {
        return;
      }
      if a.verify == Verified {
        phase, reason := Succeeded, BackupReady;
      } else {
        phase, reason := Failed, BackupFailed;
      }
    }

    method ReconcileBackupDeletion(a: Answers) returns (gone: bool)
      modifies this
      ensures gone == Delete(old(Value()), a).Gone?
      ensures !gone ==> Value() == Delete(old(Value()), a).backup
    {
      if !finalizer {
        return false;
      }
      if phase != Deleting {
        phase, reason := Deleting, BackupDeleting;
        return false;
      }
      gone := a.removed;
    }

    method ReconcileBackupCreation(a: Answers)
      modifies this
      ensures Value() == Create(old(Value()), a)
    {
      if !specValid {
        return;
      }
      match reason {
        case NoReason =>
          phase, reason := Pending, BackupPending;
        case BackupPending =>
          if !a.instanceReady {
            phase, reason := Failed, BackupFailed;
            return;
          }
          if !identified {
            identified := true;
            UpdateBackupStatus();
            return;
          }
          if !a.created {
            return;
          }
          reason := BackupInProgress;
          UpdateBackupStatus();
        case BackupInProgress =>
          if a.job == JobLost {
            reason := BackupFailed;
            UpdateBackupStatus();
            return;
          }
          if a.job == JobDone {
            if !a.metadata {
              return;
            }
            reason := BackupReady;
            UpdateBackupStatus();
          } else if a.job == JobFailed {
            reason := BackupFailed;
            UpdateBackupStatus();
          }
        case BackupReady =>
          finalizer := true;
        case _ =>
      }
    }

    method Reconcile(a: Answers) returns (gone: bool)
      modifies this
      ensures gone == Step(old(Value()), a).Gone?
      ensures !gone ==> Value() == Step(old(Value()), a).backup
    {
      gone := false;
      if verifyExists {
        ReconcileVerifyExists(a);
      } else if deleting {
        gone := ReconcileBackupDeletion(a);
      } else {
        ReconcileBackupCreation(a);
      }
    }
  }

  // ---------------------------------------------------------------------------------------------
  // Finished backups stay finished

  predicate Running(b: Backup)
  {
    b.phase == NoPhase || b.phase == Pending || b.phase == InProgress
  }

  /** A backup that is not running has a reason that no step leads back from. */
  predicate Settled(b: Backup)
  {
    Running(b) || (b.reason != NoReason && b.reason != BackupPending && b.reason != BackupInProgress)
  }

  lemma FinishedStaysFinished(b: Backup, a: Answers)
    requires Settled(b)
    ensures var o := Step(b, a);
            o.Keep? ==> Settled(o.backup) && (!Running(b) ==> !Running(o.backup))
  {
  }

  /** A backup comes to succeed exactly by a verification, or by a finished job whose metadata were recorded. */
  lemma SucceedsIffDone(b: Backup, a: Answers)
    requires b.phase != Succeeded
    ensures Step(b, a).Keep? && Step(b, a).backup.phase == Succeeded <==>
            if b.verifyExists then b.verifiable && a.instanceReady && a.verify == Verified
            else !b.deleting && b.specValid && b.reason == BackupInProgress && a.job == JobDone && a.metadata
  {
  }

  /** It comes to fail exactly if it cannot be verified, or its instance is not ready at the start, or its job is lost or fails. */
  lemma FailsIff(b: Backup, a: Answers)
    requires b.phase != Failed
    ensures Step(b, a).Keep? && Step(b, a).backup.phase == Failed <==>
            if b.verifyExists then !b.verifiable || (a.instanceReady && a.verify == Absent)
            else
              && !b.deleting && b.specValid
              && (|| (b.reason == BackupPending && !a.instanceReady)
                  || (b.reason == BackupInProgress && (a.job == JobLost || a.job == JobFailed)))
  {
  }

  /** On the way it is pending, identified, then in progress once the job was created; else it waits. */
  lemma WaysOfABackup(b: Backup, a: Answers)
    requires !b.verifyExists && !b.deleting && b.specValid
    ensures var next := Create(b, a);
            && Step(b, a) == Keep(next)
            && (b.reason == NoReason ==> next == b.(reason := BackupPending, phase := Pending))
            && (b.reason == BackupPending && a.instanceReady && !b.identified ==> next == b.(identified := true, phase := Pending))
            && (b.reason == BackupPending && a.instanceReady && b.identified ==>
                  next == if a.created then b.(reason := BackupInProgress, phase := InProgress) else b)
            && (b.reason == BackupInProgress && (a.job == JobRunning || (a.job == JobDone && !a.metadata)) ==> next == b)
            && (b.reason == BackupReady ==> next == b.(finalizer := true))
  {
  }

  /** A deleted backup with a finalizer is marked first, and goes only when a later reconcile has removed its data. */
  lemma WaysOfADeletion(b: Backup, a: Answers)
    requires !b.verifyExists && b.deleting
    ensures Step(b, a).Gone? <==> b.finalizer && b.phase == Deleting && a.removed
    ensures b.finalizer && b.phase != Deleting ==> Step(b, a) == Keep(b.(phase := Deleting, reason := BackupDeleting))
    ensures !b.finalizer || (b.phase == Deleting && !a.removed) ==> Step(b, a) == Keep(b)
  {
  }

  /** Any number of reconciles of one backup: once finished, it never runs again. */
  method Reconciles(backup: BackupObject, answers: seq<Answers>) returns (gone: bool)
    requires Settled(backup.Value())
    modifies backup
    ensures !gone ==> Settled(backup.Value()) && (!Running(old(backup.Value())) ==> !Running(backup.Value()))
  {
    gone := false;
    var k := 0;
    while k < |answers| && !gone
      invariant !gone ==> Settled(backup.Value()) && (!Running(old(backup.Value())) ==> !Running(backup.Value()))
    {
      FinishedStaysFinished(backup.Value(), answers[k]);
      gone := backup.Reconcile(answers[k]);
      k := k + 1;
    }
  }

  // ---------------------------------------------------------------------------------------------
  // The scheduler and the backup workers, interleaved

  function PhaseName(p: Phase): string
  {
    match p
    case NoPhase => ""
    case Pending => "Pending"
    case InProgress => "InProgress"
    case Failed => "Failed"
    case Succeeded => "Succeeded"
    case Deleting => "BackupDeleting"
  }

  /** How createCron tells finished backups. */
  const FINISHED := StringField(["Succeeded", "Failed"])

  datatype Stored = Stored(version: nat, backup: Backup)

  datatype Copy = Copy(name: string, version: nat, backup: Backup)

  /**
   `versions` is the server's counter, `copies` what the workers hold, possibly long out of date,
   and `listed` the children the scheduler saw when its reconcile under way began.
   */
  datatype World = World(
    children: map<string, Stored>,
    versions: nat,
    copies: map<nat, Copy>,
    listed: Option<seq<Child>>)

  datatype Event =
    | List(list: seq<Child>)
    | CreateChild(name: string, tick: int, now: int, backup: Backup)
    | Remove(name: string) // a user, retention or the Replace policy
    | EditSpec(name: string, verifyExists: bool, verifiable: bool, specValid: bool)
    | Read(worker: nat, name: string)
    | Reconcile(worker: nat, a: Answers, arrives: bool)

  /** The list shows every child, under its name and with its phase. */
  ghost predicate Shows(list: seq<Child>, children: map<string, Stored>)
  {
    forall n :: n in children ==>
      exists k :: 0 <= k < |list| && list[k].name == n && list[k].phase == Field(PhaseName(children[n].backup.phase))
  }

  function Store(w: World, name: string, b: Backup): World
  {
    if name in w.children && w.children[name].backup == b then w
    else w.(children := w.children[name := Stored(w.versions, b)], versions := w.versions + 1)
  }

  function Drop(w: World, name: string): World
  {
    w.(children := w.children - {name})
  }

  predicate IsNew(b: Backup)
  {
    b.phase == NoPhase && b.reason == NoReason && !b.deleting
  }

  ghost function Next(spec: CronSpec, w: World, e: Event): World
  {
    match e
    case List(list) => if Shows(list, w.children) then w.(listed := Some(list)) else w
    case CreateChild(name, tick, now, b) =>
      if w.listed.Some? && Decide(spec, tick, now, w.listed.value) == Creating && name !in w.children && IsNew(b)
      then Store(w, name, b).(listed := None)
      else w.(listed := None)
    case Remove(name) =>
      if name !in w.children then w
      else if w.children[name].backup.finalizer then Store(w, name, w.children[name].backup.(deleting := true))
      else Drop(w, name)
    case EditSpec(name, verifyExists, verifiable, specValid) =>
      if name !in w.children then w
      else Store(w, name, w.children[name].backup.(verifyExists := verifyExists, verifiable := verifiable, specValid := specValid))
    case Read(worker, name) =>
      if name !in w.children then w
      else w.(copies := w.copies[worker := Copy(name, w.children[name].version, w.children[name].backup)])
    case Reconcile(worker, a, arrives) =>
      if worker !in w.copies then w
      else
        var c := w.copies[worker];
        if !arrives || c.name !in w.children || w.children[c.name].version != c.version then w
        else match Step(c.backup, a)
          case Gone => Drop(w, c.name)
          case Keep(b) => Store(w, c.name, b)
  }

  /** A worker's event, with the machine run on an object of its own. */
  method HandleReconcile(ghost spec: CronSpec, w: World, worker: nat, a: Answers, arrives: bool) returns (w': World)
    ensures w' == Next(spec, w, Reconcile(worker, a, arrives))
  {
    w' := w;
    if worker in w.copies {
      var c := w.copies[worker];
      var backup := new BackupObject(c.backup);
      var gone := backup.Reconcile(a);
      if arrives && c.name in w.children && w.children[c.name].version == c.version {
        w' := if gone then Drop(w, c.name) else Store(w, c.name, backup.Value());
      }
    }
  }

  ghost function Run(spec: CronSpec, w: World, events: seq<Event>): World
    decreases events
  {
    if events == [] then w else Run(spec, Next(spec, w, events[0]), events[1..])
  }

  ghost predicate RunningChild(w: World, n: string)
  {
    n in w.children && Running(w.children[n].backup)
  }

  /** The list the scheduler works on shows this child as active. */
  ghost predicate SeenActive(list: seq<Child>, n: string)
  {
    exists k :: 0 <= k < |list| && list[k].name == n && !IsFinished(FINISHED, list[k])
  }

  ghost predicate Inv(w: World)
  {
    && (forall n :: n in w.children ==> Settled(w.children[n].backup) && w.children[n].version < w.versions)
    && (forall k :: k in w.copies ==> w.copies[k].version < w.versions)
    && (forall k :: k in w.copies && w.copies[k].name in w.children && w.copies[k].version == w.children[w.copies[k].name].version
          ==> w.copies[k].backup == w.children[w.copies[k].name].backup)
    && (forall n, m :: RunningChild(w, n) && RunningChild(w, m) ==> n == m)
    && (w.listed.Some? ==> forall n :: RunningChild(w, n) ==> SeenActive(w.listed.value, n))
  }

  /** Storing a backup that does not start running again keeps everything. */
  lemma StoreKeepsInv(w: World, name: string, b: Backup)
    requires Inv(w) && name in w.children && Settled(b)
    requires Running(b) ==> Running(w.children[name].backup)
    ensures Inv(Store(w, name, b))
  {
    var w' := Store(w, name, b);
    assert forall n :: RunningChild(w', n) ==> RunningChild(w, n);
  }

  lemma DropKeepsInv(w: World, name: string)
    requires Inv(w)
    ensures Inv(Drop(w, name))
  {
    assert forall n :: RunningChild(Drop(w, name), n) ==> RunningChild(w, n);
  }

  lemma CreateKeepsInv(spec: CronSpec, w: World, tick: int, now: int, name: string, b: Backup)
    requires Inv(w) && spec.policy != AllowConcurrent && spec.strategy == FINISHED
    requires w.listed.Some? && Decide(spec, tick, now, w.listed.value) == Creating && name !in w.children && IsNew(b)
    ensures Inv(Store(w, name, b).(listed := None))
  {
    var w' := Store(w, name, b).(listed := None);
    var list := w.listed.value;
    forall n
      ensures !RunningChild(w, n)
    {
      forall k | 0 <= k < |list|
        ensures IsFinished(FINISHED, list[k])
      {
        assert list[k] in list;
      }
      assert !SeenActive(list, n);
    }
    assert forall n :: RunningChild(w', n) && n != name ==> RunningChild(w, n);
    assert forall n :: RunningChild(w', n) ==> n == name;
  }

  lemma ListKeepsInv(w: World, list: seq<Child>)
    requires Inv(w) && Shows(list, w.children)
    ensures Inv(w.(listed := Some(list)))
  {
    var w' := w.(listed := Some(list));
    assert forall n :: RunningChild(w', n) <==> RunningChild(w, n);
    forall n | RunningChild(w', n)
      ensures SeenActive(list, n)
    {
      var k :| 0 <= k < |list| && list[k].name == n && list[k].phase == Field(PhaseName(w.children[n].backup.phase));
      assert !IsFinished(FINISHED, list[k]);
    }
  }

  lemma NextKeepsInv(spec: CronSpec, w: World, e: Event)
    requires Inv(w) && spec.policy != AllowConcurrent && spec.strategy == FINISHED
    ensures Inv(Next(spec, w, e))
  {
    assert forall n :: RunningChild(w.(listed := None), n) <==> RunningChild(w, n);
    match e
    case List(list) => if Shows(list, w.children) { ListKeepsInv(w, list); }
    case CreateChild(name, tick, now, b) =>
      if w.listed.Some? && Decide(spec, tick, now, w.listed.value) == Creating && name !in w.children && IsNew(b) {
        CreateKeepsInv(spec, w, tick, now, name, b);
      }
    case Remove(name) =>
      if name in w.children {
        DropKeepsInv(w, name);
        StoreKeepsInv(w, name, w.children[name].backup.(deleting := true));
      }
    case EditSpec(name, verifyExists, verifiable, specValid) =>
      if name in w.children {
        StoreKeepsInv(w, name, w.children[name].backup.(verifyExists := verifyExists, verifiable := verifiable, specValid := specValid));
      }
    case Read(worker, name) =>
      assert forall n :: RunningChild(Next(spec, w, e), n) <==> RunningChild(w, n);
    case Reconcile(worker, a, arrives) =>
      if worker in w.copies {
        var c := w.copies[worker];
        if arrives && c.name in w.children && w.children[c.name].version == c.version {
          FinishedStaysFinished(c.backup, a);
          DropKeepsInv(w, c.name);
          if Step(c.backup, a).Keep? {
            StoreKeepsInv(w, c.name, Step(c.backup, a).backup);
          }
        }
      }
  }

  lemma {:induction false} RunKeepsInv(spec: CronSpec, w: World, events: seq<Event>)
    requires Inv(w) && spec.policy != AllowConcurrent && spec.strategy == FINISHED
    ensures Inv(Run(spec, w, events))
    decreases events
  {
    if events != [] {
      NextKeepsInv(spec, w, events[0]);
      RunKeepsInv(spec, Next(spec, w, events[0]), events[1..]);
    }
  }

  /** Under the Forbid or Replace policy at most one scheduled backup is ever running. */
  lemma AtMostOneRunningBackup(spec: CronSpec, events: seq<Event>, n: string, m: string)
    requires spec.policy != AllowConcurrent && spec.strategy == FINISHED
    requires var w := Run(spec, World(map[], 0, map[], None), events);
             RunningChild(w, n) && RunningChild(w, m)
    ensures n == m
  {
    RunKeepsInv(spec, World(map[], 0, map[], None), events);
  }
}
