/**
 Exactly when the CronAnything reconciler resolves every tick once, although it may read old versions
 (common/controllers/cronanything_controller.go).
 */
module ResolvedOnce {
  import opened Common
  import opened Sorting
  import opened Schedules
  import opened Children
  import opened Cron
  import opened StaleReads

  /** What holds after any run under the schedule, however old what was read. */
  ghost predicate Books(next: int -> int, creation: int, w: World)
  {
    && w.versions != [] && Ordered(creation, w.versions) && Bounded(w.versions) && Base(creation, w.versions[0]) >= creation
    && Covered(next, creation, Base(creation, Current(w)), w.log)
    && TickBased(next, creation, w.versions)
  }

  /** Every last schedule time is a tick. */
  ghost predicate TickBased(next: int -> int, creation: int, versions: seq<Status>)
  {
    forall v :: 0 <= v < |versions| ==> Base(creation, versions[v]) == creation || IsTick(next, Base(creation, versions[v]))
  }

  lemma ActBases(creation: int, st: Status, tick: int, i: Input)
    ensures var stored := Act(st, tick, i).stored;
            forall k :: 0 <= k < |stored| ==> Base(creation, stored[k]) == Base(creation, st) || Base(creation, stored[k]) == tick
  {
  }

  lemma HandleBases(next: int -> int, creation: int, seen: Status, st: Status, dropped: seq<int>, tick: int, i: Input)
    requires Base(creation, st) == creation || IsTick(next, Base(creation, st))
    requires IsTick(next, tick) && (dropped != [] ==> IsTick(next, dropped[|dropped| - 1]))
    ensures TickBased(next, creation, Handle(seen, st, dropped, tick, i).stored)
  {
    if dropped == [] {
      ActBases(creation, st, tick, i);
    } else {
      ActBases(creation, Resolve(st, dropped[|dropped| - 1], i.now, DropResult(seen, dropped)), tick, i);
    }
  }

  lemma TickBasedConcat(next: int -> int, creation: int, a: seq<Status>, b: seq<Status>)
    requires TickBased(next, creation, a) && TickBased(next, creation, b)
    ensures TickBased(next, creation, a + b)
  {
  }

  lemma DueIsTick(next: int -> int, base: int, dropped: seq<int>, tick: int)
    requires IsSchedule(next) && Due(next, base, dropped, tick)
    ensures IsTick(next, tick) && (dropped != [] ==> IsTick(next, dropped[|dropped| - 1]))
  {
    NextIsEarliest(next, if dropped == [] then base else dropped[|dropped| - 1]);
  }

  lemma ReconciledTickBased(next: int -> int, creation: int, seen: Status, st: Status, i: Input)
    requires IsSchedule(next) && i.next == next && (Base(creation, st) == creation || IsTick(next, Base(creation, st)))
    ensures TickBased(next, creation, Reconciled(creation, seen, st, i).stored)
  {
    var idle, dropped, tick := ReconciledCases(creation, seen, st, i);
    if !idle {
      DueIsTick(next, Base(creation, seen), dropped, tick);
      HandleBases(next, creation, seen, st, dropped, tick, i);
    }
  }

  lemma NextKeepsBooks(next: int -> int, creation: int, w: World, i: Input)
    requires IsSchedule(next) && i.next == next && Books(next, creation, w)
    ensures Books(next, creation, Next(creation, w, i))
  {
    if i.seen < |w.versions| {
      var seen := w.versions[i.seen];
      ReconcileGoesForward(creation, w, i);
      ReconcileCovers(next, creation, w, i);
      ReconciledTickBased(next, creation, seen, Current(w), i);
      TickBasedConcat(next, creation, w.versions, Reconciled(creation, seen, Current(w), i).stored);
    }
  }

  // ---- One reconcile ----

  /** Said from the inputs alone: nothing is due, the only write that would resolve is lost, or the one tick due is not done with yet. */
  predicate ResolvesNothing(times: seq<int>, i: Input)
  {
    || i.spec.suspended || times == []
    || (|times| > 1 && i.firstWrite == Lost)
    || (|times| == 1 &&
        var d := Decide(i.spec, times[0], i.now, i.children);
        d == Replacing || i.secondWrite == Lost || (d == Creating && !i.created))
  }

  lemma TriedAlone(tick: int, created: bool)
    ensures ResolvedTicks([Tried(tick, created)]) == []
  {
    var tried := [Tried(tick, created)];
    assert tried[1..] == [] && ResolvedTicks(tried) == [] + [];
  }

  lemma NothingResolved(seen: Status, st: Status, times: seq<int>, i: Input)
    requires ResolvesNothing(times, i)
    ensures ResolvedTicks(Respond(seen, st, times, i).entries) == []
  {
    if times != [] {
      TriedAlone(times[|times| - 1], i.created);
    }
  }

  lemma ActResolves(st: Status, tick: int, i: Input)
    requires !ResolvesNothing([tick], i)
    ensures ResolvedTicks(Act(st, tick, i).entries) == [tick]
  {
    forall result {
      ResolvedOfOne([tick], result, AtLast(st, i));
    }
    TriedAlone(tick, i.created);
    ResolvedTicksAppend([Tried(tick, true)], [Resolved([tick], CreateSucceeded, AtLast(st, i))]);
  }

  lemma FirstResolved(seen: Status, st: Status, times: seq<int>, i: Input)
    requires !ResolvesNothing(times, i)
    ensures times != [] && times[0] in ResolvedTicks(Respond(seen, st, times, i).entries)
  {
    var dropped, tick := times[..|times| - 1], times[|times| - 1];
    if dropped == [] {
      assert times == [tick];
      ActResolves(st, tick, i);
    } else {
      var result := DropResult(seen, dropped);
      var first := Close(st, dropped, AtDrop(seen, i), result, i.firstWrite);
      ResolvedOfOne(dropped, result, AtDrop(seen, i));
      assert dropped[0] == times[0] && times[0] in dropped;
      if i.firstWrite == Confirmed {
        ResolvedTicksAppend(first.entries, Act(first.stored[0], tick, i).entries);
      }
    }
  }

  /** The reconcile resolves nothing, or has read the last schedule time that is stored. */
  ghost predicate Fresh(creation: int, w: World, i: Input)
    requires w.versions != [] && IsSchedule(i.next)
  {
    i.seen < |w.versions| ==>
      || ResolvesNothing(DueBy(creation, w.versions[i.seen], i), i)
      || Base(creation, w.versions[i.seen]) == Base(creation, Current(w))
  }

  lemma DisjointConcat(a: seq<int>, b: seq<int>, m: int)
    requires NoRepeats(a) && StrictlyIncreasing(b) && (forall x :: x in a ==> x <= m) && (forall x :: x in b ==> x > m)
    ensures NoRepeats(a + b)
  {
    var all := a + b;
    forall i, j | 0 <= i < j < |all|
      ensures all[i] != all[j]
    {
      if i < |a| <= j {
        assert all[i] in a && all[j] in b;
      }
    }
  }

  lemma RepeatedConcat(a: seq<int>, b: seq<int>, x: int)
    requires x in a && x in b
    ensures !NoRepeats(a + b)
  {
    var i :| 0 <= i < |a| && a[i] == x;
    var j :| 0 <= j < |b| && b[j] == x;
    assert (a + b)[i] == (a + b)[|a| + j];
  }

  /** A current read resolves only ticks that are later than all before. */
  lemma CurrentReadResolvesNew(next: int -> int, creation: int, w: World, i: Input)
    requires IsSchedule(next) && i.next == next && Books(next, creation, w) && i.seen < |w.versions|
    requires NoRepeats(ResolvedTicks(w.log)) && Base(creation, w.versions[i.seen]) == Base(creation, Current(w))
    ensures NoRepeats(ResolvedTicks(Next(creation, w, i).log))
  {
    var seen, st := w.versions[i.seen], Current(w);
    var e := Reconciled(creation, seen, st, i);
    ReconcileAccounts(creation, seen, st, i);
    AccountsMeans(next, Base(creation, st), Base(creation, Newest(st, e.stored)), e.entries);
    ResolvedTicksAppend(w.log, e.entries);
    DisjointConcat(ResolvedTicks(w.log), ResolvedTicks(e.entries), Base(creation, st));
  }

  /** The first tick after the version that was read is already resolved in the one that is stored. */
  lemma StaleFirstTick(next: int -> int, creation: int, w: World, v: nat)
    requires IsSchedule(next) && Books(next, creation, w) && v < |w.versions|
    requires Base(creation, w.versions[v]) != Base(creation, Current(w))
    ensures next(Base(creation, w.versions[v])) in ResolvedTicks(w.log)
  {
    var base := Base(creation, w.versions[v]);
    assert creation <= base < Base(creation, Current(w));
    NextIsEarliest(next, base);
  }

  lemma StaleReadRepeats(next: int -> int, creation: int, w: World, i: Input)
    requires IsSchedule(next) && i.next == next && Books(next, creation, w) && !Fresh(creation, w, i)
    ensures !NoRepeats(ResolvedTicks(Next(creation, w, i).log))
  {
    var seen, st := w.versions[i.seen], Current(w);
    var times := DueBy(creation, seen, i);
    StaleFirstTick(next, creation, w, i.seen);
    FirstResolved(seen, st, times, i);
    assert times[0] == next(Base(creation, seen));
    var e := Reconciled(creation, seen, st, i);
    ResolvedTicksAppend(w.log, e.entries);
    RepeatedConcat(ResolvedTicks(w.log), ResolvedTicks(e.entries), times[0]);
  }

  lemma StepOnceIff(next: int -> int, creation: int, w: World, i: Input)
    requires IsSchedule(next) && i.next == next && Books(next, creation, w) && NoRepeats(ResolvedTicks(w.log))
    ensures NoRepeats(ResolvedTicks(Next(creation, w, i).log)) <==> Fresh(creation, w, i)
  {
    if !Fresh(creation, w, i) {
      StaleReadRepeats(next, creation, w, i);
    } else if i.seen < |w.versions| {
      var seen, st := w.versions[i.seen], Current(w);
      if Base(creation, seen) == Base(creation, st) {
        CurrentReadResolvesNew(next, creation, w, i);
      } else {
        NothingResolved(seen, st, DueBy(creation, seen, i), i);
        ResolvedTicksAppend(w.log, Reconciled(creation, seen, st, i).entries);
      }
    }
  }

  // ---- Whole runs ----

  ghost predicate AllFresh(creation: int, w: World, inputs: seq<Input>)
    requires w.versions != [] && Scheduled(inputs)
    decreases inputs
  {
    inputs == [] || (Fresh(creation, w, inputs[0]) && AllFresh(creation, Next(creation, w, inputs[0]), inputs[1..]))
  }

  /** What was resolved twice stays so. */
  lemma RepeatStays(a: seq<Entry>, b: seq<Entry>)
    requires a <= b && !NoRepeats(ResolvedTicks(a))
    ensures !NoRepeats(ResolvedTicks(b))
  {
    assert b == a + b[|a|..];
    ResolvedTicksAppend(a, b[|a|..]);
    var r := ResolvedTicks(a);
    var i, j :| 0 <= i < j < |r| && r[i] == r[j];
    assert ResolvedTicks(b)[i] == ResolvedTicks(b)[j];
  }

  lemma {:induction false} RunOnceIff(next: int -> int, creation: int, w: World, inputs: seq<Input>)
    requires IsSchedule(next) && Follows(next, inputs) && Books(next, creation, w) && NoRepeats(ResolvedTicks(w.log))
    ensures NoRepeats(ResolvedTicks(Run(creation, w, inputs).log)) <==> AllFresh(creation, w, inputs)
    decreases inputs
  {
    if inputs != [] {
      var w' := Next(creation, w, inputs[0]);
      StepOnceIff(next, creation, w, inputs[0]);
      NextKeepsBooks(next, creation, w, inputs[0]);
      if Fresh(creation, w, inputs[0]) {
        RunOnceIff(next, creation, w', inputs[1..]);
      } else {
        VersionsStay(creation, w', inputs[1..]);
        RepeatStays(w'.log, Run(creation, w', inputs[1..]).log);
      }
    }
  }

  /**
   Over every run under one schedule, whatever versions are read: no tick is resolved twice exactly if every
   reconcile resolves nothing or has read the last schedule time that is stored.
   */
  lemma EveryTickOnceIff(next: int -> int, creation: int, inputs: seq<Input>)
    requires IsSchedule(next) && Follows(next, inputs)
    ensures NoRepeats(ResolvedTicks(Run(creation, NEW, inputs).log)) <==> AllFresh(creation, NEW, inputs)
  {
    RunOnceIff(next, creation, NEW, inputs);
  }
}
