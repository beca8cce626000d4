/**
 The Instance object and the API server that stores it.

 The server keeps every version it ever stored. A controller works on a copy that it read at some
 version, possibly an old one, and a write is accepted only when that version is still the newest.
 Between any two calls of one controller, other writers may change the object, and each call may
 lose its request or its response; `CallPlan` says what happens around the n-th call.
 */
module Instances {
  import opened Common

  datatype BackupType = Snapshot | Physical | OtherType

  datatype RestoreRequest = RestoreRequest(force: bool, backupType: BackupType, requestTime: int)

  /** Reasons of the Ready condition that the restore machine looks at. */
  datatype Reason =
    | CreateInProgress
    | CreateComplete
    | RestorePending
    | RestorePreparationInProgress
    | RestorePreparationComplete
    | RestoreInProgress
    | PostRestoreBootstrapInProgress
    | PostRestoreBootstrapComplete
    | PostRestoreDatabasePatchingInProgress
    | RestoreComplete
    | RestoreFailed
    | OtherReason(name: string)

  datatype Spec = Spec(restore: Option<RestoreRequest>, generation: int)

  datatype Status = Status(
    ready: Option<Reason>,
    databaseReady: Option<Reason>,
    lockedBy: string,
    lastRestoreTime: Option<int>,
    backupID: string)

  datatype Instance = Instance(spec: Spec, status: Status)

  /** Every version stored so far, oldest first; a write that changes nothing makes no new version. */
  datatype Store = Store(history: seq<Instance>) {
    ghost predicate Valid() { history != [] }

    function Version(): nat
      requires Valid()
    {
      |history| - 1
    }

    function Current(): Instance
      requires Valid()
    {
      history[|history| - 1]
    }

    function Put(inst: Instance): (st: Store)
      requires Valid()
      ensures st.Valid() && history <= st.history && st.Current() == inst
      ensures st.Version() == Version() || (inst != Current() && st.Version() == Version() + 1)
    {
      if inst == Current() then this else Store(history + [inst])
    }
  }

  /** What a controller holds in memory: the object, and the version it was read at. */
  datatype Copy = Copy(version: nat, inst: Instance)

  datatype Delivery = Delivered | RequestLost | ResponseLost

  datatype Reply = Reply(store: Store, copy: Copy, ok: bool)

  /** Write the copy's status (the spec is ignored by the status subresource). */
  function PutStatus(st: Store, copy: Copy, d: Delivery): (r: Reply)
    requires st.Valid()
    ensures r.store.Valid() && st.history <= r.store.history
    ensures r.ok ==> copy.version == st.Version() && r.copy == Copy(r.store.Version(), r.store.Current())
    ensures !r.ok ==> r.copy == copy
  {
    if d == RequestLost || copy.version != st.Version() then
      Reply(st, copy, false)
    else
      var st' := st.Put(st.Current().(status := copy.inst.status));
      if d == ResponseLost then
        Reply(st', copy, false)
      else
        Reply(st', Copy(st'.Version(), st'.Current()), true)
  }

  /** Write the copy's spec (the status is ignored by the main resource). */
  function PutSpec(st: Store, copy: Copy, d: Delivery): (r: Reply)
    requires st.Valid()
    ensures r.store.Valid() && st.history <= r.store.history
    ensures r.ok ==> copy.version == st.Version() && r.copy == Copy(r.store.Version(), r.store.Current())
    ensures !r.ok ==> r.copy == copy
  {
    if d == RequestLost || copy.version != st.Version() then
      Reply(st, copy, false)
    else
      var st' := st.Put(st.Current().(spec := copy.inst.spec));
      if d == ResponseLost then
        Reply(st', copy, false)
      else
        Reply(st', Copy(st'.Version(), st'.Current()), true)
  }

  // ---------------------------------------------------------------------------------------------
  // Other writers

  /** A write by anybody else: a user editing the spec, or another controller or reconcile path. */
  datatype Edit = EditSpec(spec: Spec) | EditStatus(status: Status)

  predicate IsPreparing(r: Option<Reason>)
  {
    r == Some(RestorePreparationInProgress) || r == Some(RestorePreparationComplete)
  }

  predicate IsEntry(r: Option<Reason>)
  {
    r == Some(RestoreComplete) || r == Some(CreateComplete) || r == Some(RestoreFailed)
  }

  predicate After(t: int, last: Option<int>)
  {
    last.None? || t > last.value
  }

  /**
   What the steps of the restore machine do to the stored object: LastRestoreTime changes only on entry,
   to a later time and together with the first preparation state; the preparation states are entered in
   order and in no other way.
   */
  predicate LegalCommit(a: Instance, b: Instance)
  {
    var s, t := a.status, b.status;
    if t.lastRestoreTime != s.lastRestoreTime then
      && IsEntry(s.ready)
      && t.ready == Some(RestorePreparationInProgress)
      && t.lastRestoreTime.Some?
      && After(t.lastRestoreTime.value, s.lastRestoreTime)
    else
      && (t.ready == Some(RestorePreparationInProgress) ==> s.ready == t.ready)
      && (t.ready == Some(RestorePreparationComplete) ==> IsPreparing(s.ready))
  }

  /**
   Others may write any step of a restore machine, as a delayed write of a crashed process does, and
   anything else that leaves LastRestoreTime and the two preparation states alone; every other field,
   the lock and every other reason included, may be overwritten at will.
   */
  function Interfere(cur: Instance, e: Edit): Instance
  {
    match e
    case EditSpec(spec) => cur.(spec := spec)
    case EditStatus(s) =>
      if LegalCommit(cur, cur.(status := s)) then cur.(status := s)
      else
        cur.(status := s.(
          lastRestoreTime := cur.status.lastRestoreTime,
          ready := if IsPreparing(s.ready) then cur.status.ready else s.ready))
  }

  function Disturb(st: Store, edits: seq<Edit>): (r: Store)
    requires st.Valid()
    ensures r.Valid() && st.history <= r.history
    decreases edits
  {
    if edits == [] then st else Disturb(st.Put(Interfere(st.Current(), edits[0])), edits[1..])
  }

  datatype CallPlan = CallPlan(edits: seq<Edit>, delivery: Delivery, staleness: nat)

  /** Nobody else writes, nothing is lost and reads are current, from call number `from` on. */
  ghost predicate Quiet(plan: nat -> CallPlan, from: nat)
  {
    forall n: nat :: from <= n ==> plan(n) == CallPlan([], Delivered, 0)
  }

  // ---------------------------------------------------------------------------------------------
  // The server as the reconcilers call it

  class InstanceCopy {
    var version: nat
    var inst: Instance

    constructor (copy: Copy)
      ensures Value() == copy
    {
      version, inst := copy.version, copy.inst;
    }

    ghost function Value(): Copy
      reads this
    {
      Copy(version, inst)
    }
  }

  /** Done by a reconcile that read `version`, when `at` was the newest one. */
  datatype Deletion = Deletion(version: nat, at: nat)

  class ApiServer {
    const plan: nat -> CallPlan
    var store: Store
    var calls: nat
    /** Versions whose commit started a restore job, in the order the jobs were started. */
    var launched: seq<nat>
    /** Deletions of the old StatefulSet or of a volume of it, in order. */
    var deletions: seq<Deletion>

    constructor (inst: Instance, plan: nat -> CallPlan)
      ensures this.plan == plan && store == Store([inst]) && calls == 0 && launched == [] && deletions == []
    {
      this.plan := plan;
      store, calls, launched, deletions := Store([inst]), 0, [], [];
    }

    /** A read through the cache: any version up to the newest. */
    method Get() returns (copy: InstanceCopy)
      requires store.Valid()
      modifies this`store, this`calls
      ensures store == Disturb(old(store), plan(old(calls)).edits) && calls == old(calls) + 1
      ensures fresh(copy) && copy.version <= store.Version() && copy.inst == store.history[copy.version]
      ensures plan(old(calls)).staleness == 0 ==> copy.version == store.Version()
    {
      var p := plan(calls);
      store, calls := Disturb(store, p.edits), calls + 1;
      var v := if p.staleness <= store.Version() then store.Version() - p.staleness else 0;
      copy := new InstanceCopy(Copy(v, store.history[v]));
    }

    method StatusUpdate(copy: InstanceCopy) returns (ok: bool)
      requires store.Valid()
      modifies this`store, this`calls, copy
      ensures calls == old(calls) + 1
      ensures Reply(store, copy.Value(), ok) ==
              PutStatus(Disturb(old(store), plan(old(calls)).edits), old(copy.Value()), plan(old(calls)).delivery)
    {
      var p := plan(calls);
      var r := PutStatus(Disturb(store, p.edits), Copy(copy.version, copy.inst), p.delivery);
      store, calls, copy.version, copy.inst, ok := r.store, calls + 1, r.copy.version, r.copy.inst, r.ok;
    }

    method Update(copy: InstanceCopy) returns (ok: bool)
      requires store.Valid()
      modifies this`store, this`calls, copy
      ensures calls == old(calls) + 1
      ensures Reply(store, copy.Value(), ok) ==
              PutSpec(Disturb(old(store), plan(old(calls)).edits), old(copy.Value()), plan(old(calls)).delivery)
    {
      var p := plan(calls);
      var r := PutSpec(Disturb(store, p.edits), Copy(copy.version, copy.inst), p.delivery);
      store, calls, copy.version, copy.inst, ok := r.store, calls + 1, r.copy.version, r.copy.inst, r.ok;
    }
  }
}
