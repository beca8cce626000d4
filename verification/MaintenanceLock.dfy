/**
 The maintenance lock of oracle/controllers/instancecontroller/utils.go: mutual exclusion built
 from nothing but the version check of the API server.
 */
module MaintenanceLock {
  import opened Common
  import opened Instances

  /** The copy after the in-memory half of an acquire. */
  function Claim(inst: Instance, owner: string): Instance
  {
    if inst.status.lockedBy == "" then inst.(status := inst.status.(lockedBy := owner)) else inst
  }

  /** The copy after the in-memory half of a release. */
  function Relinquish(inst: Instance, owner: string): Instance
  {
    if inst.status.lockedBy == owner then inst.(status := inst.status.(lockedBy := "")) else inst
  }

  /** The lock as this copy shows it is free, or already the owner's. */
  predicate Available(inst: Instance, owner: string)
  {
    inst.status.lockedBy == "" || inst.status.lockedBy == owner
  }

  method AcquireInstanceMaintenanceLock(server: ApiServer, copy: InstanceCopy, owner: string) returns (ok: bool)
    requires server.store.Valid()
    modifies server`store, server`calls, copy
    ensures server.calls == old(server.calls) + 1
    ensures var p := server.plan(old(server.calls));
            var r := PutStatus(Disturb(old(server.store), p.edits), Copy(old(copy.version), Claim(old(copy.inst), owner)), p.delivery);
            server.store == r.store && copy.Value() == r.copy &&
            ok == (r.ok && Available(old(copy.inst), owner))
  {
    var result := true;
    if copy.inst.status.lockedBy == "" {
      copy.inst := copy.inst.(status := copy.inst.status.(lockedBy := owner));
    } else if copy.inst.status.lockedBy == owner {
    } else {
      result := false;
    }
    var updated := server.StatusUpdate(copy);
    ok := updated && result;
  }

  method ReleaseInstanceMaintenanceLock(server: ApiServer, copy: InstanceCopy, owner: string) returns (ok: bool)
    requires server.store.Valid()
    modifies server`store, server`calls, copy
    ensures server.calls == old(server.calls) + 1
    ensures var p := server.plan(old(server.calls));
            Reply(server.store, copy.Value(), ok) ==
            PutStatus(Disturb(old(server.store), p.edits), Copy(old(copy.version), Relinquish(old(copy.inst), owner)), p.delivery)
  {
    if copy.inst.status.lockedBy == "" {
    } else if copy.inst.status.lockedBy == owner {
      copy.inst := copy.inst.(status := copy.inst.status.(lockedBy := ""));
    }
    ok := server.StatusUpdate(copy);
  }

  // ---------------------------------------------------------------------------------------------
  // Any number of controllers, interleaved call by call

  datatype Action =
    | Read(version: nat)
    | Acquire(d: Delivery)
    | Release(d: Delivery)
    | WriteStatus(status: Status, d: Delivery) // rewrites every field but the lock
    | WriteSpec(spec: Spec, d: Delivery)

  /** One call of one controller, which keeps one live copy: a read replaces the previous one. */
  datatype Event = Event(controller: string, action: Action)

  /**
   `holders` are the controllers whose last acquire returned nil and that have not called release
   since, whatever that release returned.
   */
  datatype World = World(store: Store, copies: map<string, Copy>, holders: set<string>)

  function Apply(w: World, c: string, r: Reply): World
  {
    w.(store := r.store, copies := w.copies[c := r.copy])
  }

  function Step(w: World, e: Event): (w': World)
    requires w.store.Valid()
    ensures w'.store.Valid()
  {
    var c := e.controller;
    if e.action.Read? then
      if e.action.version <= w.store.Version() then
        w.(copies := w.copies[c := Copy(e.action.version, w.store.history[e.action.version])])
      else w
    else if c !in w.copies then w
    else
      var copy := w.copies[c];
      match e.action
      case Read(_) => w
      case Acquire(d) =>
        var r := PutStatus(w.store, copy.(inst := Claim(copy.inst, c)), d);
        var w' := Apply(w, c, r);
        if r.ok && Available(copy.inst, c) then w'.(holders := w.holders + {c}) else w'
      case Release(d) =>
        var w' := Apply(w, c, PutStatus(w.store, copy.(inst := Relinquish(copy.inst, c)), d));
        w'.(holders := w.holders - {c})
      case WriteStatus(s, d) =>
        var mine := copy.inst.(status := s.(lockedBy := copy.inst.status.lockedBy));
        Apply(w, c, PutStatus(w.store, copy.(inst := mine), d))
      case WriteSpec(spec, d) =>
        Apply(w, c, PutSpec(w.store, copy.(inst := copy.inst.(spec := spec)), d))
  }

  function Run(w: World, events: seq<Event>): (w': World)
    requires w.store.Valid()
    ensures w'.store.Valid()
    decreases events
  {
    if events == [] then w else Run(Step(w, events[0]), events[1..])
  }

  function Initial(inst: Instance): World
  {
    World(Store([inst]), map[], {})
  }

  ghost predicate Named(events: seq<Event>)
  {
    forall i :: 0 <= i < |events| ==> events[i].controller != ""
  }

  /**
   A current copy shows the stored owner, except for the caller's own unfinished business: an
   acquire or a release whose write never arrived.
   */
  ghost predicate Agrees(w: World, c: string)
    requires w.store.Valid() && c in w.copies
  {
    var mine, stored := w.copies[c].inst.status.lockedBy, w.store.Current().status.lockedBy;
    || mine == stored
    || (mine == c && stored == "")
    || (mine == "" && stored == c && c !in w.holders)
  }

  ghost predicate Inv(w: World)
  {
    && w.store.Valid()
    && "" !in w.holders
    && (forall c :: c in w.holders ==> w.store.Current().status.lockedBy == c)
    && (forall c :: c in w.copies ==> w.copies[c].version <= w.store.Version())
    && (forall c :: c in w.copies && w.copies[c].version == w.store.Version() ==> Agrees(w, c))
  }

  /** A status write keeps the invariant when its lock value is the caller's to write. */
  lemma StatusWriteKeepsInv(w: World, c: string, mine: Instance, d: Delivery, holders: set<string>)
    requires Inv(w) && c != "" && c in w.copies
    requires holders - {c} == w.holders - {c}
    requires var r := PutStatus(w.store, w.copies[c].(inst := mine), d);
             c in holders ==> c in w.holders || (r.ok && mine.status.lockedBy == c)
    requires w.copies[c].version == w.store.Version() ==>
               var lock, stored := mine.status.lockedBy, w.store.Current().status.lockedBy;
               || lock == stored
               || (lock == c && stored == "")
               || (lock == "" && stored == c && c !in holders)
    ensures Inv(Apply(w, c, PutStatus(w.store, w.copies[c].(inst := mine), d)).(holders := holders))
  {
    var r := PutStatus(w.store, w.copies[c].(inst := mine), d);
    var w' := Apply(w, c, r).(holders := holders);
    forall h | h in w'.holders
      ensures h != "" && w'.store.Current().status.lockedBy == h
    {
      if h != c {
        assert h in holders - {c};
      }
    }
    forall x | x in w'.copies && w'.copies[x].version == w'.store.Version()
      ensures Agrees(w', x)
    {
      if x != c {
        assert Agrees(w, x);
        assert x in w'.holders <==> x in holders - {c};
      }
    }
  }

  lemma SpecWriteKeepsInv(w: World, c: string, mine: Instance, d: Delivery)
    requires Inv(w) && c in w.copies
    requires mine.status == w.copies[c].inst.status
    ensures Inv(Apply(w, c, PutSpec(w.store, w.copies[c].(inst := mine), d)))
  {
    var w' := Apply(w, c, PutSpec(w.store, w.copies[c].(inst := mine), d));
    assert w'.store.Current().status == w.store.Current().status;
    forall x | x in w'.copies && w'.copies[x].version == w'.store.Version()
      ensures Agrees(w', x)
    {
      if w.copies[x].version == w.store.Version() {
        assert Agrees(w, x);
      }
    }
  }

  lemma StepKeepsInv(w: World, e: Event)
    requires Inv(w) && e.controller != ""
    ensures Inv(Step(w, e))
  {
    var c := e.controller;
    if e.action.Read? {
    } else if c in w.copies {
      var copy := w.copies[c];
      match e.action
      case Acquire(d) =>
        var mine := Claim(copy.inst, c);
        var ok := PutStatus(w.store, copy.(inst := mine), d).ok && Available(copy.inst, c);
        StatusWriteKeepsInv(w, c, mine, d, if ok then w.holders + {c} else w.holders);
      case Release(d) =>
        StatusWriteKeepsInv(w, c, Relinquish(copy.inst, c), d, w.holders - {c});
      case WriteStatus(s, d) =>
        StatusWriteKeepsInv(w, c, copy.inst.(status := s.(lockedBy := copy.inst.status.lockedBy)), d, w.holders);
      case WriteSpec(spec, d) =>
        SpecWriteKeepsInv(w, c, copy.inst.(spec := spec), d);
    }
  }

  lemma {:induction false} RunKeepsInv(w: World, events: seq<Event>)
    requires Inv(w) && Named(events)
    ensures Inv(Run(w, events))
    decreases events
  {
    if events != [] {
      StepKeepsInv(w, events[0]);
      RunKeepsInv(Step(w, events[0]), events[1..]);
    }
  }

  /** Whoever holds the lock is the stored owner, so no two controllers ever hold it. */
  lemma MutualExclusion(inst: Instance, events: seq<Event>)
    requires Named(events)
    ensures var w := Run(Initial(inst), events);
            && (forall c :: c in w.holders ==> w.store.Current().status.lockedBy == c)
            && (forall c, d :: c in w.holders && d in w.holders ==> c == d)
  {
    RunKeepsInv(Initial(inst), events);
  }

  /** The lock cannot be stolen: nothing but the holder's own release ends its tenure. */
  lemma {:induction false} HeldUntilReleased(w: World, events: seq<Event>, c: string)
    requires Inv(w) && Named(events) && c in w.holders
    requires forall i :: 0 <= i < |events| ==> !(events[i].controller == c && events[i].action.Release?)
    ensures c in Run(w, events).holders && Run(w, events).store.Current().status.lockedBy == c
    decreases events
  {
    if events != [] {
      StepKeepsInv(w, events[0]);
      HeldUntilReleased(Step(w, events[0]), events[1..], c);
    }
  }

  /** With nothing lost and a current copy, the lock goes to the caller exactly when it is free or already the caller's. */
  lemma AcquireDecides(w: World, c: string)
    requires Inv(w) && c != "" && c !in w.holders
    ensures var w1 := Step(w, Event(c, Read(w.store.Version())));
            c in Step(w1, Event(c, Acquire(Delivered))).holders <==> Available(w.store.Current(), c)
  {
  }
}
