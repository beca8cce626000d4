/**
 What the answers of the cluster and the database make of a patch
 (oracle/controllers/instancecontroller/instance_controller_patching.go): each stage goes on when its own
 answer is good and falls back when it is bad, so new images become active only after the database was
 patched, and nothing is removed or recovered before something failed.
 */
module PatchOutcome {
  import opened Common
  import opened Patching

  // ---- When the machine is entered ----

  /** Never before the database condition exists; always while at work; else only for new images that have not failed, if enabled and ready. */
  lemma EntersMeans(s: Status, a: Answers)
    ensures !a.database ==> !Enters(s, a)
    ensures a.database && s.active ==> Enters(s, a)
    ensures !s.active && (!a.enabled || !s.ready || a.paramImages == s.activeImages || s.lastFailedImages == Some(a.paramImages)) ==> !Enters(s, a)
    ensures a.database && a.enabled && s.ready && a.paramImages != s.activeImages && s.lastFailedImages != Some(a.paramImages) ==> Enters(s, a)
  {
  }

  /** The StatefulSet is replaced for any of its three images. */
  lemma RequiredMeans(current: Images, images: Images)
    ensures StatefulSetPatchingRequired(current, Some(images)) <==>
            || ImageOf(current, "service") != ImageOf(images, "service")
            || ImageOf(current, "dbinit") != ImageOf(images, "dbinit")
            || ImageOf(current, "logging_sidecar") != ImageOf(images, "logging_sidecar")
  {
    assert STATEFUL_SET_IMAGES[0] == "service" && STATEFUL_SET_IMAGES[1] == "dbinit" && STATEFUL_SET_IMAGES[2] == "logging_sidecar";
    if ImageOf(current, "service") != ImageOf(images, "service") {
      assert ImageOf(current, STATEFUL_SET_IMAGES[0]) != ImageOf(images, STATEFUL_SET_IMAGES[0]);
    }
    if ImageOf(current, "dbinit") != ImageOf(images, "dbinit") {
      assert ImageOf(current, STATEFUL_SET_IMAGES[1]) != ImageOf(images, STATEFUL_SET_IMAGES[1]);
    }
    if ImageOf(current, "logging_sidecar") != ImageOf(images, "logging_sidecar") {
      assert ImageOf(current, STATEFUL_SET_IMAGES[2]) != ImageOf(images, STATEFUL_SET_IMAGES[2]);
    }
  }

  /** The volumes are those of the instance's own disks, else of the configured ones, else of the two default disks. */
  lemma DisksInForce(d: Disks)
    ensures d.spec == None && d.config == None ==> d.Mounted() == ["DataDisk", "LogDisk"] && d.Snapshotted() == []
    ensures forall l :: d.spec == Some(l) ==> d.Mounted() == l && d.Snapshotted() == l
    ensures forall l :: d.spec == None && d.config == Some(l) ==> d.Mounted() == l && d.Snapshotted() == []
  {
  }

  // ---- Good and bad answers, stage by stage ----

  /** The snapshot could not be read, or says it failed. */
  predicate BadLook(look: SnapshotLook)
  {
    look == GetFailed || (look.Looked? && look.error == Message)
  }

  /** Of the snapshots that do not pass, the first one is bad. */
  ghost predicate FirstIsBad(looks: seq<SnapshotLook>, from: nat, n: nat)
  {
    exists i :: from <= i < n && BadLook(LookAt(looks, i)) && forall j :: from <= j < i ==> Passes(LookAt(looks, j))
  }

  lemma {:induction false} CheckIs(looks: seq<SnapshotLook>, from: nat, n: nat)
    requires from <= n
    ensures CheckFrom(looks, from, n) == Broken <==> FirstIsBad(looks, from, n)
    decreases n - from
  {
    if from < n {
      CheckIs(looks, from + 1, n);
      if FirstIsBad(looks, from, n) {
        var i :| from <= i < n && BadLook(LookAt(looks, i)) && forall j :: from <= j < i ==> Passes(LookAt(looks, j));
        assert i != from ==> FirstIsBad(looks, from + 1, n);
      }
      if FirstIsBad(looks, from + 1, n) && Passes(LookAt(looks, from)) {
        var i :| from + 1 <= i < n && BadLook(LookAt(looks, i)) && forall j :: from + 1 <= j < i ==> Passes(LookAt(looks, j));
        assert forall j :: from <= j < i ==> Passes(LookAt(looks, j));
      }
    }
  }

  function PvcAt(looks: seq<Lookup>, i: nat): Lookup
  {
    if i < |looks| then looks[i] else LookupFailed
  }

  /** The first volume that is not gone is found to be `what`. */
  ghost predicate FirstLeft(looks: seq<Lookup>, from: nat, n: nat, i: int, what: Lookup)
  {
    from <= i < n && PvcAt(looks, i) == what && forall j :: from <= j < i ==> PvcAt(looks, j) == NotFound
  }

  lemma {:induction false} RemovalIs(id: string, disks: seq<string>, looks: seq<Lookup>, from: nat)
    requires from <= |disks|
    ensures var (done, entries) := RemovePvcs(id, disks, looks, from);
            && (done == Yes <==> forall i :: from <= i < |disks| ==> PvcAt(looks, i) == NotFound)
            && (done == Broken <==> exists i :: FirstLeft(looks, from, |disks|, i, LookupFailed))
            && (forall i :: FirstLeft(looks, from, |disks|, i, Present) ==> done == No && entries == [DeletePvc(id, disks[i])])
            && (done != No ==> entries == [])
    decreases |disks| - from
  {
    if from < |disks| {
      var rest, first := from + 1, PvcAt(looks, from);
      RemovalIs(id, disks, looks, rest);
      if first == NotFound {
        forall i, what | what != NotFound
          ensures FirstLeft(looks, from, |disks|, i, what) <==> FirstLeft(looks, rest, |disks|, i, what)
        {
        }
        if i :| FirstLeft(looks, rest, |disks|, i, LookupFailed) {
          assert FirstLeft(looks, from, |disks|, i, LookupFailed);
        }
        if i :| FirstLeft(looks, from, |disks|, i, LookupFailed) {
          assert FirstLeft(looks, rest, |disks|, i, LookupFailed);
        }
      } else {
        assert FirstLeft(looks, from, |disks|, from, first);
        assert forall i, what :: FirstLeft(looks, from, |disks|, i, what) && what != NotFound ==> i == from;
      }
    }
  }

  ghost predicate AllGone(d: Disks, c: Cleanup)
  {
    c.built && c.sts == NotFound && forall i :: 0 <= i < |d.Mounted()| ==> PvcAt(c.pvcs, i) == NotFound
  }

  ghost predicate LookupBroke(d: Disks, c: Cleanup)
  {
    || !c.built || c.sts == LookupFailed
    || (c.sts == NotFound && exists i :: FirstLeft(c.pvcs, 0, |d.Mounted()|, i, LookupFailed))
  }

  predicate InFailure(r: Reason)
  {
    r == StatefulSetPatchingFailure || r == DatabasePatchingFailure
  }

  /** The stage was seen to succeed. */
  ghost predicate Succeeds(d: Disks, s: Status, a: Answers)
  {
    match s.reason
    case PatchingBackupStarted => forall i :: 0 <= i < |d.Snapshotted()| ==> Passes(LookAt(a.looks, i))
    case DeploymentSetPatchingInProgress => !a.timedOut && a.monitoring == Yes
    case DeploymentSetPatchingRollbackInProgress => !a.timedOut && a.monitoring == Yes
    case DeploymentSetPatchingComplete =>
      a.oracle && (StatefulSetPatchingRequired(s.activeImages, a.specImages) ==> a.replace == StsReplaced)
    case StatefulSetPatchingInProgress => !a.timedOut && a.progressed
    case StatefulSetPatchingComplete => a.oracle && a.patchStarted
    case DatabasePatchingInProgress => !a.timedOut && a.patched == Yes
    case DatabasePatchingComplete => true
    case StatefulSetPatchingFailure => AllGone(d, a.cleanup)
    case DatabasePatchingFailure => AllGone(d, a.cleanup)
    case PatchingRecoveryInProgress => a.restored && a.progressed && a.oracle
    case _ => IsStable(s.reason) && Retries(s, a) && a.taken >= |d.Snapshotted()|
  }

  /** The stage timed out or was seen to fail. */
  ghost predicate Fails(d: Disks, s: Status, a: Answers)
  {
    match s.reason
    case PatchingBackupStarted => FirstIsBad(a.looks, 0, |d.Snapshotted()|)
    case DeploymentSetPatchingInProgress => a.timedOut || a.monitoring == Broken
    case DeploymentSetPatchingRollbackInProgress => a.timedOut || a.monitoring == Broken
    case DeploymentSetPatchingComplete =>
      a.oracle && StatefulSetPatchingRequired(s.activeImages, a.specImages) && a.replace != StsReplaced
    case StatefulSetPatchingInProgress => a.timedOut
    case StatefulSetPatchingComplete => a.oracle && !a.patchStarted
    case DatabasePatchingInProgress => a.timedOut || a.patched == Broken
    case StatefulSetPatchingFailure => LookupBroke(d, a.cleanup)
    case DatabasePatchingFailure => LookupBroke(d, a.cleanup)
    case _ => IsStable(s.reason) && Retries(s, a) && a.taken < |d.Snapshotted()| && !a.conflict
  }

  /** After a recovery, only for images other than those that failed. */
  predicate Retries(s: Status, a: Answers)
  {
    s.reason == PatchingRecoveryCompleted ==> a.specImages != s.lastFailedImages
  }

  function Onward(s: Status, a: Answers): Reason
  {
    match s.reason
    case PatchingBackupStarted => DeploymentSetPatchingInProgress
    case DeploymentSetPatchingInProgress => DeploymentSetPatchingComplete
    case DeploymentSetPatchingRollbackInProgress => PatchingRecoveryCompleted
    case DeploymentSetPatchingComplete =>
      if StatefulSetPatchingRequired(s.activeImages, a.specImages) then StatefulSetPatchingInProgress else StatefulSetPatchingComplete
    case StatefulSetPatchingInProgress => StatefulSetPatchingComplete
    case StatefulSetPatchingComplete => DatabasePatchingInProgress
    case DatabasePatchingInProgress => DatabasePatchingComplete
    case DatabasePatchingComplete => CreateComplete
    case StatefulSetPatchingFailure => PatchingRecoveryInProgress
    case DatabasePatchingFailure => PatchingRecoveryInProgress
    case PatchingRecoveryInProgress => PatchingRecoveryCompleted
    case _ => PatchingBackupStarted
  }

  function Backward(r: Reason): Reason
  {
    match r
    case PatchingBackupStarted => PatchingBackupFailure
    case DeploymentSetPatchingInProgress => DeploymentSetPatchingRollbackInProgress
    case DeploymentSetPatchingRollbackInProgress => PatchingRecoveryFailure
    case DeploymentSetPatchingComplete => StatefulSetPatchingFailure
    case StatefulSetPatchingInProgress => StatefulSetPatchingFailure
    case StatefulSetPatchingComplete => DatabasePatchingFailure
    case DatabasePatchingInProgress => DatabasePatchingFailure
    case StatefulSetPatchingFailure => PatchingRecoveryFailure
    case DatabasePatchingFailure => PatchingRecoveryFailure
    case _ => PatchingBackupFailure
  }

  /** The images that a recovery says have failed. */
  function Named(images: Option<Images>): Images
  {
    if images.Some? then images.value else map[]
  }

  /** A good answer leads on, a bad one back, and without either nothing is reported. */
  ghost predicate ByAnswer(d: Disks, s: Status, a: Answers, next: Status)
  {
    if Succeeds(d, s, a) then next.reason == Onward(s, a) && next.ready == (s.reason == DatabasePatchingComplete || s.reason == PatchingRecoveryInProgress)
    else if Fails(d, s, a) then next.reason == Backward(s.reason) && !next.ready
    else next.reason == s.reason && next.ready == s.ready
  }

  /** What else is remembered: the backup taken, the images active, the images that failed, and whether the machine is at work. */
  ghost predicate Remembers(d: Disks, s: Status, a: Answers, next: Status)
  {
    && next.backupID == (if IsStable(s.reason) && Succeeds(d, s, a) then a.newID else s.backupID)
    && next.activeImages == (if s.reason == DatabasePatchingComplete then a.paramImages else s.activeImages)
    && next.lastFailedImages ==
       (if s.reason == PatchingRecoveryInProgress && Succeeds(d, s, a) then Some(Named(a.specImages)) else s.lastFailedImages)
    && next.active ==
       (if IsStable(s.reason) && Retries(s, a) then true
        else if s.reason == DatabasePatchingComplete || (s.reason == PatchingRecoveryInProgress && Succeeds(d, s, a)) then false
        else s.active)
  }

  lemma StartByAnswer(d: Disks, s: Status, a: Answers)
    requires IsStable(s.reason)
    ensures var e := Step(d, s, a);
            && ByAnswer(d, s, a, e.status) && Remembers(d, s, a, e.status)
            && e.entries == if Retries(s, a) then Taken(a.newID, d.Snapshotted(), if a.taken < |d.Snapshotted()| then a.taken else |d.Snapshotted()|) else []
  {
  }

  lemma CheckByAnswer(d: Disks, s: Status, a: Answers)
    requires s.reason == PatchingBackupStarted
    ensures var e := Step(d, s, a);
            && ByAnswer(d, s, a, e.status) && Remembers(d, s, a, e.status)
            && e.entries == if Succeeds(d, s, a) then [CheckPassed(s.backupID, d.Snapshotted(), Seen(a.looks, |d.Snapshotted()|))] else []
  {
    CheckIs(a.looks, 0, |d.Snapshotted()|);
  }

  lemma RemoveByAnswer(d: Disks, s: Status, a: Answers)
    requires InFailure(s.reason)
    ensures var e := Step(d, s, a);
            && ByAnswer(d, s, a, e.status) && Remembers(d, s, a, e.status)
            && (a.cleanup.built && a.cleanup.sts == Present ==> e.entries == [DeleteSts(s.backupID)])
            && (forall i :: a.cleanup.built && a.cleanup.sts == NotFound && FirstLeft(a.cleanup.pvcs, 0, |d.Mounted()|, i, Present) ==>
                  e.entries == [DeletePvc(s.backupID, d.Mounted()[i])])
            && (Succeeds(d, s, a) || Fails(d, s, a) ==> e.entries == [])
  {
    RemoveOldIs(s.backupID, d, a.cleanup);
    RemovingStep(d, s, a);
  }

  lemma RemovingStep(d: Disks, s: Status, a: Answers)
    requires InFailure(s.reason)
    ensures var (done, entries) := RemoveOld(s.backupID, d.Mounted(), a.cleanup);
            Step(d, s, a) == Effect(match done case Broken => Unready(s, PatchingRecoveryFailure)
                                               case No => s
                                               case Yes => Unready(s, PatchingRecoveryInProgress), entries)
  {
  }

  lemma RemoveOldIs(id: string, d: Disks, c: Cleanup)
    ensures var (done, entries) := RemoveOld(id, d.Mounted(), c);
            && (done == Yes <==> AllGone(d, c)) && (done == Broken <==> LookupBroke(d, c)) && (done != No ==> entries == [])
            && (c.built && c.sts == Present ==> entries == [DeleteSts(id)])
            && (forall i :: c.built && c.sts == NotFound && FirstLeft(c.pvcs, 0, |d.Mounted()|, i, Present) ==> entries == [DeletePvc(id, d.Mounted()[i])])
  {
    RemovalIs(id, d.Mounted(), c.pvcs, 0);
  }

  lemma TrackByAnswer(d: Disks, s: Status, a: Answers)
    requires !IsStable(s.reason) && s.reason != PatchingBackupStarted && !InFailure(s.reason)
    ensures var e := Step(d, s, a);
            && ByAnswer(d, s, a, e.status) && Remembers(d, s, a, e.status)
            && e.entries ==
               if s.reason == PatchingRecoveryInProgress then [Recover(s.backupID, s.activeImages)]
               else if s.reason == DeploymentSetPatchingComplete && a.oracle && StatefulSetPatchingRequired(s.activeImages, a.specImages) &&
                       a.replace != StsNotRetrieved then [DeleteSts(s.backupID)]
               else []
  {
  }

  /** In every state, the next one and all that is remembered follow from the answers as they were good or bad. */
  lemma StepByAnswer(d: Disks, s: Status, a: Answers)
    ensures ByAnswer(d, s, a, Step(d, s, a).status) && Remembers(d, s, a, Step(d, s, a).status)
  {
    if IsStable(s.reason) {
      StartByAnswer(d, s, a);
    } else if s.reason == PatchingBackupStarted {
      CheckByAnswer(d, s, a);
    } else if InFailure(s.reason) {
      RemoveByAnswer(d, s, a);
    } else {
      TrackByAnswer(d, s, a);
    }
  }

  // ---- Over whole runs ----

  /** A reconcile of this backup was told in time that the database is patched. */
  ghost predicate SawDone(log: seq<Entry>, id: string)
  {
    exists j :: 0 <= j < |log| && log[j].Observed? && log[j].status.backupID == id && SeesDone(log[j].status, log[j].a)
  }

  predicate SeesDone(s: Status, a: Answers)
  {
    s.reason == DatabasePatchingInProgress && !a.timedOut && a.patched == Yes
  }

  /** A reconcile of this backup ran into a timeout or an error, behind the check. */
  ghost predicate SawTrouble(log: seq<Entry>, id: string)
  {
    exists j :: 0 <= j < |log| && log[j].Observed? && log[j].status.backupID == id && SeesTrouble(log[j].status, log[j].a)
  }

  predicate SeesTrouble(s: Status, a: Answers)
  {
    || (s.reason == DeploymentSetPatchingComplete && a.oracle && StatefulSetPatchingRequired(s.activeImages, a.specImages) && a.replace != StsReplaced)
    || (s.reason == StatefulSetPatchingInProgress && a.timedOut)
    || (s.reason == StatefulSetPatchingComplete && a.oracle && !a.patchStarted)
    || (s.reason == DatabasePatchingInProgress && (a.timedOut || a.patched == Broken))
  }

  /** The machine makes other images active, or says that the instance is complete. */
  ghost predicate Activates(d: Disks, s: Status, a: Answers)
  {
    var next := Step(d, s, a).status;
    next.activeImages != s.activeImages || (next.reason == CreateComplete && s.reason != CreateComplete)
  }

  ghost predicate Justified(d: Disks, log: seq<Entry>, e: Entry)
  {
    match e
    case DeletePvc(id, _) => SawTrouble(log, id)
    case Recover(id, _) => SawTrouble(log, id)
    case Observed(s, a) => Activates(d, s, a) ==> SawDone(log, s.backupID)
    case _ => true
  }

  /** A stored status has been earned. */
  ghost predicate Earned(log: seq<Entry>, s: Status)
  {
    && (s.reason == DatabasePatchingComplete ==> SawDone(log, s.backupID))
    && (InFailure(s.reason) || s.reason == PatchingRecoveryInProgress ==> SawTrouble(log, s.backupID))
  }

  ghost predicate Books(d: Disks, w: World)
  {
    && w.history != []
    && (forall v :: 0 <= v < |w.history| ==> Earned(w.log, w.history[v]))
    && (forall i :: 0 <= i < |w.log| ==> Justified(d, w.log[..i], w.log[i]))
  }

  lemma SawStays(log: seq<Entry>, more: seq<Entry>, id: string)
    ensures SawDone(log, id) ==> SawDone(log + more, id)
    ensures SawTrouble(log, id) ==> SawTrouble(log + more, id)
  {
    assert forall j :: 0 <= j < |log| ==> (log + more)[j] == log[j];
  }

  lemma JustifiedStays(d: Disks, log: seq<Entry>, more: seq<Entry>, e: Entry)
    requires Justified(d, log, e)
    ensures Justified(d, log + more, e)
  {
    match e
    case DeletePvc(id, _) => SawStays(log, more, id);
    case Recover(id, _) => SawStays(log, more, id);
    case Observed(s, _) => SawStays(log, more, s.backupID);
    case _ =>
  }

  lemma AppendJustified(d: Disks, w: World, entries: seq<Entry>)
    requires Books(d, w) && forall i :: 0 <= i < |entries| ==> Justified(d, w.log, entries[i])
    ensures Books(d, World(w.history, w.log + entries))
  {
    var all := w.log + entries;
    forall i | 0 <= i < |all|
      ensures Justified(d, all[..i], all[i])
    {
      if i < |w.log| {
        assert all[..i] == w.log[..i];
      } else {
        var more := entries[..i - |w.log|];
        assert all[..i] == w.log + more && all[i] == entries[i - |w.log|];
        JustifiedStays(d, w.log, more, all[i]);
      }
    }
    forall v | 0 <= v < |w.history|
      ensures Earned(all, w.history[v])
    {
      SawStays(w.log, entries, w.history[v].backupID);
    }
  }

  lemma CommitKeepsBooks(d: Disks, w: World, s: Status)
    requires Books(d, w) && Earned(w.log, s)
    ensures Books(d, Put(w, s))
  {
    AppendJustified(d, w, [Commit(s)]);
    SawStays(w.log, [Commit(s)], s.backupID);
  }

  /** What a step does is justified by what its status has earned. */
  lemma StepJustified(d: Disks, log: seq<Entry>, s: Status, a: Answers)
    requires Earned(log, s)
    ensures Justified(d, log, Observed(s, a))
    ensures var entries := Step(d, s, a).entries;
            forall i :: 0 <= i < |entries| ==> Justified(d, log, entries[i])
  {
    StepByAnswer(d, s, a);
    if IsStable(s.reason) {
      StartByAnswer(d, s, a);
    } else if s.reason == PatchingBackupStarted {
      CheckByAnswer(d, s, a);
    } else if InFailure(s.reason) {
      RemovedArePvcs(s.backupID, d.Mounted(), a.cleanup.pvcs, 0);
      RemovingStep(d, s, a);
    } else {
      TrackByAnswer(d, s, a);
    }
  }

  /** The next status is earned by what was already seen and what this step was told. */
  lemma StepEarns(d: Disks, log: seq<Entry>, s: Status, a: Answers)
    requires Earned(log, s)
    ensures Earned(log + [Observed(s, a)], Step(d, s, a).status)
  {
    StepByAnswer(d, s, a);
    SawStays(log, [Observed(s, a)], s.backupID);
    assert (log + [Observed(s, a)])[|log|] == Observed(s, a);
  }

  lemma NextKeepsBooks(d: Disks, w: World, e: Event)
    requires Books(d, w)
    ensures Books(d, Next(d, w, e))
  {
    match e
    case OtherWrite(s) => CommitKeepsBooks(d, w, Interfere(w.history[|w.history| - 1], s));
    case Reconcile(v, a, arrives) =>
      if v < |w.history| && Enters(w.history[v], a) {
        ReconcileKeepsBooks(d, w, v, a, arrives);
      }
  }

  lemma ReconcileKeepsBooks(d: Disks, w: World, v: nat, a: Answers, arrives: bool)
    requires Books(d, w) && v < |w.history| && Enters(w.history[v], a)
    ensures Books(d, Next(d, w, Reconcile(v, a, arrives)))
  {
    var s := w.history[v];
    var effect, seen := Step(d, s, a), [Observed(s, a)];
    StepJustified(d, w.log, s, a);
    AppendJustified(d, w, seen);
    var w1 := World(w.history, w.log + seen);
    StepJustified(d, w1.log, s, a);
    AppendJustified(d, w1, effect.entries);
    StepEarns(d, w.log, s, a);
    SawStays(w1.log, effect.entries, effect.status.backupID);
    if arrives && v == |w.history| - 1 {
      CommitKeepsBooks(d, World(w.history, w1.log + effect.entries), effect.status);
    }
  }

  lemma {:induction false} RunKeepsBooks(d: Disks, w: World, events: seq<Event>)
    requires Books(d, w)
    ensures Books(d, Run(d, w, events))
    decreases events
  {
    if events != [] {
      NextKeepsBooks(d, w, events[0]);
      RunKeepsBooks(d, Next(d, w, events[0]), events[1..]);
    }
  }

  /**
   Over every run from a state outside patching: the machine makes images active, or the instance complete, only after a
   reconcile of the same backup was told in time that the database is patched; and every volume it deletes and every
   recovery it starts follows a reconcile of the same backup that ran into a timeout or an error.
   */
  lemma OutcomesAreEarned(d: Disks, s: Status, events: seq<Event>, i: nat)
    requires !UnderWay(s.reason)
    requires i < |Run(d, World([s], []), events).log|
    ensures var log := Run(d, World([s], []), events).log;
            Justified(d, log[..i], log[i])
  {
    RunKeepsBooks(d, World([s], []), events);
  }
}
