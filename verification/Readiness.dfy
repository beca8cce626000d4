/**
 What the check before a patch (oracle/controllers/instancecontroller/instance_controller_patching.go) says
 about the snapshots it looked at. It rejects snapshots that are known to be unready; one whose readiness
 is not known yet passes.
 */
module Readiness {
  import opened Common
  import opened Patching

  /** The snapshot is known to be fine. */
  predicate KnownReady(look: SnapshotLook)
  {
    look == Looked(NoError, Some(true))
  }

  /** If the snapshot has a status, it says whether the snapshot is ready, and an error has a message. */
  predicate Telling(look: SnapshotLook)
  {
    look.Looked? ==> look.error != SilentError && look.ready.Some?
  }

  /** What the check accepts is known to be ready exactly if the status tells. */
  lemma PassedIsReadyIff(look: SnapshotLook)
    requires Passes(look)
    ensures KnownReady(look) <==> Telling(look)
  {
    assert look.ready.Some? ==> look.ready.value;
  }

  lemma TellingMeansReady(looks: seq<SnapshotLook>)
    requires AllTelling(looks) && forall l :: 0 <= l < |looks| ==> Passes(looks[l])
    ensures AllReady(looks)
  {
    forall l | 0 <= l < |looks|
      ensures KnownReady(looks[l])
    {
      PassedIsReadyIff(looks[l]);
    }
  }

  predicate Destroys(e: Entry)
  {
    e.DeleteSts? || e.DeletePvc?
  }

  /** A check of this patch came before, and all it saw was known to be ready. */
  ghost predicate RestsOnReady(log: seq<Entry>, i: int)
    requires 0 <= i < |log| && Destroys(log[i])
  {
    exists j :: 0 <= j < i && log[j].CheckPassed? && log[j].id == log[i].id && AllReady(log[j].looks)
  }

  ghost predicate AllReady(looks: seq<SnapshotLook>)
  {
    forall l :: 0 <= l < |looks| ==> KnownReady(looks[l])
  }

  ghost predicate ReliesOnReady(d: Disks, s: Status, events: seq<Event>)
  {
    LogRelies(Run(d, World([s], []), events).log)
  }

  ghost predicate LogRelies(log: seq<Entry>)
  {
    forall i :: 0 <= i < |log| && Destroys(log[i]) ==> RestsOnReady(log, i)
  }

  // ---- When every look tells ----

  ghost predicate AllTelling(looks: seq<SnapshotLook>)
  {
    forall l :: 0 <= l < |looks| ==> Telling(looks[l])
  }

  ghost predicate LogTells(log: seq<Entry>)
  {
    forall j :: 0 <= j < |log| && log[j].CheckPassed? ==> AllTelling(log[j].looks)
  }

  lemma StepTells(d: Disks, s: Status, a: Answers)
    requires AllTelling(a.looks)
    ensures LogTells(Step(d, s, a).entries)
  {
    RemovedArePvcs(s.backupID, d.Mounted(), a.cleanup.pvcs, 0);
    assert AllTelling(Seen(a.looks, |d.Snapshotted()|));
  }

  lemma {:induction false} RunTells(d: Disks, w: World, events: seq<Event>)
    requires w.history != [] && LogTells(w.log)
    requires forall k :: 0 <= k < |events| && events[k].Reconcile? ==> AllTelling(events[k].a.looks)
    ensures LogTells(Run(d, w, events).log)
    decreases events
  {
    if events != [] {
      var e := events[0];
      if e.Reconcile? && e.version < |w.history| && Enters(w.history[e.version], e.a) {
        StepTells(d, w.history[e.version], e.a);
      }
      RunTells(d, Next(d, w, e), events[1..]);
    }
  }

  /** If every look tells, nothing is deleted before all snapshots of its patch were known to be ready. */
  lemma TellingLooksSuffice(d: Disks, s: Status, events: seq<Event>)
    requires !UnderWay(s.reason)
    requires forall k :: 0 <= k < |events| && events[k].Reconcile? ==> AllTelling(events[k].a.looks)
    ensures ReliesOnReady(d, s, events)
  {
    var log := Run(d, World([s], []), events).log;
    RunTells(d, World([s], []), events);
    forall i | 0 <= i < |log| && Destroys(log[i])
      ensures RestsOnReady(log, i)
    {
      PatchingSafety(d, s, events, i);
      var images :| Secured(d, log[..i], log[i].id, images);
      var k, j :| k < j && BeganAt(log[..i], k, log[i].id, images) && PassedAt(d, log[..i], j, log[i].id);
      assert log[..i][j] == log[j];
      TellingMeansReady(log[j].looks);
    }
  }

  // ---- When readiness is not known yet ----

  function ReplacementLog(d: Disks): seq<Entry>
  {
    [Observed(DEPLOYED, Patch(|d.Snapshotted()|, StsReplaced))] + [DeleteSts(ID)] + [Commit(Unready(DEPLOYED, StatefulSetPatchingInProgress))]
  }

  /** Patching succeeds, on the strength of snapshots that say nothing yet. */
  lemma RunToReplacement(d: Disks, w: World) returns (events: seq<Event>)
    requires w.history != [] && w.history[|w.history| - 1] == DEPLOYED
    ensures Run(d, w, events).log == w.log + ReplacementLog(d)
  {
    ImagesDiffer();
    var a := Patch(|d.Snapshotted()|, StsReplaced);
    StoreStep(d, a, w, DEPLOYED, Unready(DEPLOYED, StatefulSetPatchingInProgress), [DeleteSts(ID)]);
    var e := Reconcile(|w.history| - 1, a, true);
    RunOn(d, w, e, []);
    events := [e] + [];
  }

  /** With any snapshot to take, some run deletes the StatefulSet before it is known to be ready. */
  lemma UnreadySnapshotReliedOn(d: Disks) returns (events: seq<Event>)
    requires d.Snapshotted() != []
    ensures !ReliesOnReady(d, START, events)
  {
    var w := AfterDeployment(d, StsReplaced);
    var rest := RunToReplacement(d, w);
    events := RunToDeployed(d, StsReplaced, rest);
    LogUnready(d);
  }

  /** The only check in this log saw nothing that was known to be ready. */
  lemma LogUnready(d: Disks)
    requires d.Snapshotted() != []
    ensures !LogRelies(DeployedLog(d, StsReplaced) + ReplacementLog(d))
  {
    var log := DeployedLog(d, StsReplaced) + ReplacementLog(d);
    var n := |d.Snapshotted()|;
    var i := n + 8;
    assert log[i] == DeleteSts(ID);
    forall j | 0 <= j < i && log[j].CheckPassed?
      ensures !AllReady(log[j].looks)
    {
      assert j == n + 3;
      assert log[j].looks[0] == Looked(NoError, None);
    }
    assert !RestsOnReady(log, i);
  }

  /** So deletions always rest on snapshots known to be ready exactly if there are no snapshots at all. */
  lemma ReliesOnReadyIff(d: Disks)
    ensures (forall s: Status, events :: !UnderWay(s.reason) ==> ReliesOnReady(d, s, events)) <==> d.Snapshotted() == []
  {
    if d.Snapshotted() == [] {
      forall s: Status, events | !UnderWay(s.reason)
        ensures ReliesOnReady(d, s, events)
      {
        var log := Run(d, World([s], []), events).log;
        forall i | 0 <= i < |log| && Destroys(log[i])
          ensures RestsOnReady(log, i)
        {
          PatchingSafety(d, s, events, i);
          var images :| Secured(d, log[..i], log[i].id, images);
          var k, j :| k < j && BeganAt(log[..i], k, log[i].id, images) && PassedAt(d, log[..i], j, log[i].id);
          assert log[..i][j] == log[j] && AllReady(log[j].looks);
        }
      }
    } else {
      var events := UnreadySnapshotReliedOn(d);
      assert !UnderWay(START.reason);
    }
  }
}
