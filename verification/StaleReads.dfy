/**
 The CronAnything reconciler when its first read is out of date
 (common/controllers/cronanything_controller.go). It reads the object through a cache and writes onto a
 fresh copy, so it may decide on a version that others, or it, have since replaced.
 */
module StaleReads {
  import opened Common
  import opened Schedules
  import opened Children
  import opened Cron

  // ---- What no stale read can spoil ----

  /** The last schedule time never goes back. */
  ghost predicate Ordered(creation: int, versions: seq<Status>)
  {
    forall a, b :: 0 <= a <= b < |versions| ==> Base(creation, versions[a]) <= Base(creation, versions[b])
  }

  ghost predicate Bounded(versions: seq<Status>)
  {
    forall v :: 0 <= v < |versions| ==> |versions[v].history| <= 10
  }

  lemma ActGoesForward(creation: int, st: Status, tick: int, i: Input)
    requires |st.history| <= HISTORY_MAX && tick > creation
    ensures var e := Act(st, tick, i); Ordered(creation, [st] + e.stored) && Bounded(e.stored)
  {
  }

  lemma HandleGoesForward(creation: int, seen: Status, st: Status, dropped: seq<int>, tick: int, i: Input)
    requires |st.history| <= HISTORY_MAX && tick > creation && (dropped != [] ==> dropped[|dropped| - 1] > creation)
    ensures var e := Handle(seen, st, dropped, tick, i); Ordered(creation, [st] + e.stored) && Bounded(e.stored)
  {
    if dropped == [] {
      ActGoesForward(creation, st, tick, i);
    } else {
      var first := Resolve(st, dropped[|dropped| - 1], i.now, DropResult(seen, dropped));
      ActGoesForward(creation, first, tick, i);
      OrderedChain(creation, [st, first], Act(first, tick, i).stored);
      assert [st, first] + Act(first, tick, i).stored == [st] + ([first] + Act(first, tick, i).stored);
    }
  }

  lemma OrderedChain(creation: int, a: seq<Status>, b: seq<Status>)
    requires a != [] && Ordered(creation, a) && Ordered(creation, [a[|a| - 1]] + b)
    ensures Ordered(creation, a + b)
  {
    var all, tail := a + b, [a[|a| - 1]] + b;
    forall i, j | 0 <= i <= j < |all|
      ensures Base(creation, all[i]) <= Base(creation, all[j])
    {
      if i < |a| <= j {
        assert all[j] == tail[j - |a| + 1] && tail[0] == a[|a| - 1];
      } else if i >= |a| {
        assert all[i] == tail[i - |a| + 1] && all[j] == tail[j - |a| + 1];
      }
    }
  }

  /** Over every run, however old what is read: the last schedule time never goes back, and records stay at most ten. */
  lemma {:induction false} NeverGoesBack(creation: int, w: World, inputs: seq<Input>)
    requires w.versions != [] && Scheduled(inputs)
    requires Ordered(creation, w.versions) && Bounded(w.versions) && Base(creation, w.versions[0]) >= creation
    ensures var versions := Run(creation, w, inputs).versions;
            w.versions <= versions && Ordered(creation, versions) && Bounded(versions)
    decreases inputs
  {
    if inputs != [] {
      var i := inputs[0];
      if i.seen < |w.versions| {
        ReconcileGoesForward(creation, w, i);
      }
      NeverGoesBack(creation, Next(creation, w, i), inputs[1..]);
    }
  }

  lemma ReconciledGoesForward(creation: int, seen: Status, st: Status, i: Input)
    requires IsSchedule(i.next) && |st.history| <= HISTORY_MAX && Base(creation, seen) >= creation
    ensures var e := Reconciled(creation, seen, st, i); Ordered(creation, [st] + e.stored) && Bounded(e.stored)
  {
    var idle, dropped, tick := ReconciledCases(creation, seen, st, i);
    if !idle {
      HandleGoesForward(creation, seen, st, dropped, tick, i);
    }
  }

  lemma ReconcileGoesForward(creation: int, w: World, i: Input)
    requires w.versions != [] && IsSchedule(i.next) && i.seen < |w.versions|
    requires Ordered(creation, w.versions) && Bounded(w.versions) && Base(creation, w.versions[0]) >= creation
    ensures var versions := Next(creation, w, i).versions;
            w.versions <= versions && Ordered(creation, versions) && Bounded(versions)
  {
    var seen, st := w.versions[i.seen], Current(w);
    ReconciledGoesForward(creation, seen, st, i);
    var stored := Reconciled(creation, seen, st, i).stored;
    OrderedChain(creation, w.versions, stored);
    BoundedConcat(w.versions, stored);
  }

  lemma BoundedConcat(a: seq<Status>, b: seq<Status>)
    requires Bounded(a) && Bounded(b)
    ensures Bounded(a + b)
  {
  }

  /** The ticks resolved are exactly those from the creation up to `base`, though maybe more than once. */
  ghost predicate Covered(next: int -> int, creation: int, base: int, log: seq<Entry>)
  {
    forall x :: x in ResolvedTicks(log) <==> creation < x <= base && IsTick(next, x)
  }

  lemma CoverGrows(next: int -> int, creation: int, base: int, from: int, m: int, ticks: seq<int>, result: TriggerResult, c: Cause, log: seq<Entry>)
    requires Covered(next, creation, base, log) && creation <= from <= base
    requires forall x :: x in ticks <==> from < x <= m && IsTick(next, x)
    ensures Covered(next, creation, if base < m then m else base, log + [Resolved(ticks, result, c)])
  {
    ResolvedTicksAppend(log, [Resolved(ticks, result, c)]);
    ResolvedOfOne(ticks, result, c);
  }

  lemma CloseCovers(next: int -> int, creation: int, st: Status, from: int, ticks: seq<int>, c: Cause, result: TriggerResult, w: Write, log: seq<Entry>)
    requires Covered(next, creation, Base(creation, st), log) && creation <= from <= Base(creation, st)
    requires TicksFrom(next, from, ticks)
    ensures var e := Close(st, ticks, c, result, w);
            Covered(next, creation, Base(creation, Newest(st, e.stored)), log + e.entries)
  {
    if w == Lost {
      assert log + [] == log;
    } else {
      CoverGrows(next, creation, Base(creation, st), from, ticks[|ticks| - 1], ticks, result, c, log);
    }
  }

  lemma TryingResolvesNothing(log: seq<Entry>, tick: int, created: bool)
    ensures ResolvedTicks(log + [Tried(tick, created)]) == ResolvedTicks(log)
  {
    var tried := [Tried(tick, created)];
    ResolvedTicksAppend(log, tried);
    assert tried[1..] == [] && ResolvedTicks(tried) == [] + [];
  }

  /** These are the ticks after `from` up to and including the last of them. */
  ghost predicate TicksFrom(next: int -> int, from: int, ticks: seq<int>)
  {
    && ticks != [] && from < ticks[|ticks| - 1]
    && forall x :: x in ticks <==> from < x <= ticks[|ticks| - 1] && IsTick(next, x)
  }

  lemma ActCovers(next: int -> int, creation: int, st: Status, from: int, tick: int, i: Input, log: seq<Entry>)
    requires Covered(next, creation, Base(creation, st), log) && creation <= from <= Base(creation, st)
    requires TicksFrom(next, from, [tick])
    ensures var e := Act(st, tick, i);
            Covered(next, creation, Base(creation, Newest(st, e.stored)), log + e.entries)
  {
    match Decide(i.spec, tick, i.now, i.children)
    case PastDeadline =>
      var result := if IsPending(st, tick) then st.pending.value.result else DeadlineExceeded;
      CloseCovers(next, creation, st, from, [tick], AtLast(st, i), result, i.secondWrite, log);
    case Forbidden => CloseCovers(next, creation, st, from, [tick], AtLast(st, i), ConcurrencyForbidden, i.secondWrite, log);
    case Replacing => assert log + [] == log;
    case LimitReached => CloseCovers(next, creation, st, from, [tick], AtLast(st, i), ResourceLimitReached, i.secondWrite, log);
    case Creating => CreateCovers(next, creation, st, from, tick, i, log);
  }

  lemma CreateCovers(next: int -> int, creation: int, st: Status, from: int, tick: int, i: Input, log: seq<Entry>)
    requires Covered(next, creation, Base(creation, st), log) && creation <= from <= Base(creation, st)
    requires TicksFrom(next, from, [tick])
    ensures Covered(next, creation, Base(creation, st), log + [Tried(tick, i.created)])
    ensures var e := Close(st, [tick], AtLast(st, i), CreateSucceeded, i.secondWrite);
            Covered(next, creation, Base(creation, Newest(st, e.stored)), log + ([Tried(tick, i.created)] + e.entries))
  {
    var tried := log + [Tried(tick, i.created)];
    TryingResolvesNothing(log, tick, i.created);
    CloseCovers(next, creation, st, from, [tick], AtLast(st, i), CreateSucceeded, i.secondWrite, tried);
    var e := Close(st, [tick], AtLast(st, i), CreateSucceeded, i.secondWrite);
    assert tried + e.entries == log + ([Tried(tick, i.created)] + e.entries);
  }

  lemma HandleCovers(next: int -> int, creation: int, seen: Status, st: Status, dropped: seq<int>, tick: int, i: Input, log: seq<Entry>)
    requires Covered(next, creation, Base(creation, st), log)
    requires creation <= Base(creation, seen) <= Base(creation, st)
    requires dropped == [] ==> TicksFrom(next, Base(creation, seen), [tick])
    requires dropped != [] ==> TicksFrom(next, Base(creation, seen), dropped) && TicksFrom(next, dropped[|dropped| - 1], [tick])
    ensures var e := Handle(seen, st, dropped, tick, i);
            Covered(next, creation, Base(creation, Newest(st, e.stored)), log + e.entries)
  {
    if dropped == [] {
      ActCovers(next, creation, st, Base(creation, seen), tick, i, log);
    } else {
      var latest, result := dropped[|dropped| - 1], DropResult(seen, dropped);
      CloseCovers(next, creation, st, Base(creation, seen), dropped, AtDrop(seen, i), result, i.firstWrite, log);
      var first := Close(st, dropped, AtDrop(seen, i), result, i.firstWrite);
      if i.firstWrite == Confirmed {
        var st' := first.stored[0];
        ActCovers(next, creation, st', latest, tick, i, log + first.entries);
        var second := Act(st', tick, i);
        assert log + first.entries + second.entries == log + (first.entries + second.entries);
      }
    }
  }

  lemma NextTicksFrom(next: int -> int, from: int)
    requires IsSchedule(next)
    ensures TicksFrom(next, from, [next(from)])
  {
    NextIsEarliest(next, from);
  }

  lemma DueTicksFrom(next: int -> int, base: int, dropped: seq<int>, tick: int)
    requires IsSchedule(next) && Due(next, base, dropped, tick)
    ensures dropped == [] ==> TicksFrom(next, base, [tick])
    ensures dropped != [] ==> TicksFrom(next, base, dropped) && TicksFrom(next, dropped[|dropped| - 1], [tick])
  {
    if dropped == [] {
      NextTicksFrom(next, base);
    } else {
      var latest := dropped[|dropped| - 1];
      TicksAreExact(next, base, latest + 1);
      NextTicksFrom(next, latest);
    }
  }

  lemma ReconcileCovers(next: int -> int, creation: int, w: World, i: Input)
    requires IsSchedule(next) && i.next == next && w.versions != [] && i.seen < |w.versions|
    requires Ordered(creation, w.versions) && Base(creation, w.versions[0]) >= creation
    requires Covered(next, creation, Base(creation, Current(w)), w.log)
    ensures var w' := Next(creation, w, i); Covered(next, creation, Base(creation, Current(w')), w'.log)
  {
    var seen, st := w.versions[i.seen], Current(w);
    assert creation <= Base(creation, seen) <= Base(creation, st);
    var idle, dropped, tick := ReconciledCases(creation, seen, st, i);
    var e := Reconciled(creation, seen, st, i);
    assert Current(Next(creation, w, i)) == Newest(st, e.stored);
    if idle {
      assert w.log + [] == w.log;
    } else {
      DueTicksFrom(next, Base(creation, seen), dropped, tick);
      HandleCovers(next, creation, seen, st, dropped, tick, i, w.log);
    }
  }

  lemma {:induction false} RunCovers(next: int -> int, creation: int, w: World, inputs: seq<Input>)
    requires IsSchedule(next) && Follows(next, inputs) && w.versions != []
    requires Ordered(creation, w.versions) && Bounded(w.versions) && Base(creation, w.versions[0]) >= creation
    requires Covered(next, creation, Base(creation, Current(w)), w.log)
    ensures var w' := Run(creation, w, inputs); Covered(next, creation, Base(creation, Current(w')), w'.log)
    decreases inputs
  {
    if inputs != [] {
      var i := inputs[0];
      if i.seen < |w.versions| {
        ReconcileGoesForward(creation, w, i);
        ReconcileCovers(next, creation, w, i);
      }
      RunCovers(next, creation, Next(creation, w, i), inputs[1..]);
    }
  }

  /** Over every run under one schedule, however old what is read: every tick up to the last schedule time is resolved. */
  lemma EveryTickResolved(next: int -> int, creation: int, inputs: seq<Input>)
    requires IsSchedule(next) && Follows(next, inputs)
    ensures var w := Run(creation, NEW, inputs); Covered(next, creation, Base(creation, Current(w)), w.log)
  {
    RunCovers(next, creation, NEW, inputs);
  }

  // ---- What a stale read can spoil, and exactly when ----

  /** The tick that the first write of a reconcile is about. */
  function FirstWritten(times: seq<int>): int
    requires times != []
  {
    if |times| == 1 then times[0] else times[|times| - 2]
  }

  lemma BackwardResolveBreaks(creation: int, st: Status, tick: int, now: int, result: TriggerResult)
    requires StatusInv(creation, st) && creation < tick <= Base(creation, st)
    ensures !StatusInv(creation, Resolve(st, tick, now, result))
  {
    var r := Resolve(st, tick, now, result);
    assert r.history[0].scheduleTime == tick && r.history[1] == st.history[0];
  }

  lemma BackwardActBreaks(creation: int, st: Status, tick: int, i: Input)
    requires StatusInv(creation, st) && creation < tick <= Base(creation, st)
    ensures var e := Act(st, tick, i); e.stored != [] ==> !StatusInv(creation, e.stored[0])
  {
    forall result {
      BackwardResolveBreaks(creation, st, tick, i.now, result);
    }
  }

  /** Any ticks are later than `base`, and so are the last two. */
  ghost predicate Later(base: int, times: seq<int>)
  {
    times != [] ==> base < times[|times| - 1] && (|times| > 1 ==> base < times[|times| - 2] < times[|times| - 1])
  }

  /** The first write is about a tick later than the stored last schedule time. */
  ghost predicate WritesForward(creation: int, st: Status, times: seq<int>)
  {
    times != [] && FirstWritten(times) > Base(creation, st)
  }

  /** Nothing is due, or the only write is lost, or the running children are only being replaced. */
  predicate StoresNothing(times: seq<int>, i: Input)
  {
    || i.spec.suspended || times == []
    || (|times| > 1 && i.firstWrite == Lost)
    || (|times| == 1 && (Decide(i.spec, times[0], i.now, i.children) == Replacing || i.secondWrite == Lost))
  }

  /** The ticks that a reconcile responds to are such. */
  lemma DueAreLater(next: int -> int, base: int, end: int)
    requires IsSchedule(next)
    ensures Later(base, Ticks(next, base, end))
  {
    var times := Ticks(next, base, end);
    TicksAreExact(next, base, end);
    if times != [] {
      assert times[|times| - 1] in times;
      assert |times| > 1 ==> times[|times| - 2] in times;
    }
  }

  lemma StoresNothingIff(seen: Status, st: Status, times: seq<int>, i: Input)
    ensures Respond(seen, st, times, i).stored == [] <==> StoresNothing(times, i)
  {
  }

  /**
   A reconcile that responds to these ticks keeps the status consistent exactly if it stores nothing, or
   first writes a tick later than the stored last one.
   */
  lemma KeepsStatusIff(creation: int, seen: Status, st: Status, times: seq<int>, i: Input)
    requires StatusInv(creation, st) && Base(creation, seen) >= creation && Later(Base(creation, seen), times)
    ensures AllConsistent(creation, Respond(seen, st, times, i).stored) <==> StoresNothing(times, i) || WritesForward(creation, st, times)
  {
    StoresNothingIff(seen, st, times, i);
    if times == [] {
      return;
    }
    var dropped, tick := times[..|times| - 1], times[|times| - 1];
    if FirstWritten(times) > Base(creation, st) {
      HandleKeepsInv(creation, seen, st, dropped, tick, i);
    } else if dropped == [] {
      BackwardActBreaks(creation, st, tick, i);
    } else {
      var first := Resolve(st, dropped[|dropped| - 1], i.now, DropResult(seen, dropped));
      BackwardResolveBreaks(creation, st, dropped[|dropped| - 1], i.now, DropResult(seen, dropped));
      var stored := Respond(seen, st, times, i).stored;
      assert stored != [] ==> stored[0] == first;
    }
  }

  /** The ticks that seem due by the version that is read. */
  function DueBy(creation: int, seen: Status, i: Input): seq<int>
    requires IsSchedule(i.next)
  {
    Ticks(i.next, Base(creation, seen), i.now + SECOND)
  }

  /** This reconcile stores nothing, or first writes a tick later than the stored last one. */
  ghost predicate Careful(creation: int, w: World, i: Input)
    requires w.versions != [] && IsSchedule(i.next)
  {
    i.seen < |w.versions| ==>
      var times := DueBy(creation, w.versions[i.seen], i);
      StoresNothing(times, i) || WritesForward(creation, Current(w), times)
  }

  ghost predicate AllCareful(creation: int, w: World, inputs: seq<Input>)
    requires w.versions != [] && Scheduled(inputs)
    decreases inputs
  {
    inputs == [] || (Careful(creation, w, inputs[0]) && AllCareful(creation, Next(creation, w, inputs[0]), inputs[1..]))
  }

  lemma StepConsistentIff(creation: int, w: World, i: Input)
    requires w.versions != [] && IsSchedule(i.next) && AllConsistent(creation, w.versions)
    ensures AllConsistent(creation, Next(creation, w, i).versions) <==> Careful(creation, w, i)
  {
    if i.seen < |w.versions| {
      var seen := w.versions[i.seen];
      var times := DueBy(creation, seen, i);
      assert StatusInv(creation, seen) && StatusInv(creation, Current(w));
      DueAreLater(i.next, Base(creation, seen), i.now + SECOND);
      KeepsStatusIff(creation, seen, Current(w), times, i);
      ConsistentConcat(creation, w.versions, Respond(seen, Current(w), times, i).stored);
    }
  }

  lemma ConsistentConcat(creation: int, a: seq<Status>, b: seq<Status>)
    requires AllConsistent(creation, a)
    ensures AllConsistent(creation, a + b) <==> AllConsistent(creation, b)
  {
    assert forall k :: 0 <= k < |b| ==> (a + b)[|a| + k] == b[k];
  }

  lemma {:induction false} VersionsStay(creation: int, w: World, inputs: seq<Input>)
    requires w.versions != [] && Scheduled(inputs)
    ensures w.versions <= Run(creation, w, inputs).versions && w.log <= Run(creation, w, inputs).log
    decreases inputs
  {
    if inputs != [] {
      VersionsStay(creation, Next(creation, w, inputs[0]), inputs[1..]);
    }
  }

  /** Over every run: all versions stored are consistent exactly if every reconcile is careful in this sense. */
  lemma {:induction false} StatusConsistentIff(creation: int, w: World, inputs: seq<Input>)
    requires w.versions != [] && Scheduled(inputs) && AllConsistent(creation, w.versions)
    ensures AllConsistent(creation, Run(creation, w, inputs).versions) <==> AllCareful(creation, w, inputs)
    decreases inputs
  {
    if inputs != [] {
      var w' := Next(creation, w, inputs[0]);
      StepConsistentIff(creation, w, inputs[0]);
      if Careful(creation, w, inputs[0]) {
        StatusConsistentIff(creation, w', inputs[1..]);
      } else {
        VersionsStay(creation, w', inputs[1..]);
        BrokenStays(creation, w'.versions, Run(creation, w', inputs[1..]).versions);
      }
    }
  }

  lemma BrokenStays(creation: int, a: seq<Status>, b: seq<Status>)
    requires a <= b && !AllConsistent(creation, a)
    ensures !AllConsistent(creation, b)
  {
    var v :| 0 <= v < |a| && !StatusInv(creation, a[v]);
    assert b[v] == a[v];
  }

  /** A reconcile around the first tick that reads the version before it. */
  function Early(next: int -> int, creation: int, policy: Policy, children: seq<Child>, created: bool): Input
  {
    Input(0, next, next(creation) + 1 - SECOND, CronSpec(false, policy, Unfinishable, None, None), children, created, Confirmed, Confirmed)
  }

  const CHILD := Child("child", "uid", 0, false, Field(""), StampMissing, StampMissing)

  lemma EarlyResponds(next: int -> int, creation: int, st: Status, i: Input)
    requires IsSchedule(next) && i.next == next && i.now == next(creation) + 1 - SECOND && !i.spec.suspended
    ensures Reconciled(creation, EMPTY, st, i) == Act(st, next(creation), i)
  {
    NextTickAlone(next, creation);
  }

  lemma RunOfTwo(creation: int, w: World, i: Input, j: Input)
    requires w.versions != [] && IsSchedule(i.next) && IsSchedule(j.next)
    ensures Run(creation, w, [i, j]) == Next(creation, Next(creation, w, i), j)
  {
    var w1 := Next(creation, w, i);
    var w2 := Next(creation, w1, j);
    assert [i, j][1..] == [j] && [j][1..] == [];
    assert Run(creation, w2, []) == w2 && Run(creation, w1, [j]) == w2;
  }

  /** The first reconcile creates the child of the first tick; what the second does, it does to this status. */
  lemma FirstOfTwo(next: int -> int, creation: int, policy: Policy, j: Input)
    requires IsSchedule(next) && j.seen == 0 && j.next == next && j.now == next(creation) + 1 - SECOND && !j.spec.suspended
    ensures var t, i := next(creation), Early(next, creation, policy, [], true);
            var st := Resolve(EMPTY, t, i.now, CreateSucceeded);
            var e := Act(st, t, j);
            Run(creation, NEW, [i, j]) == World([EMPTY, st] + e.stored, [Tried(t, true), Resolved([t], CreateSucceeded, AtLast(EMPTY, i))] + e.entries)
  {
    var t, i := next(creation), Early(next, creation, policy, [], true);
    var st := Resolve(EMPTY, t, i.now, CreateSucceeded);
    EarlyResponds(next, creation, EMPTY, i);
    EarlyResponds(next, creation, st, j);
    RunOfTwo(creation, NEW, i, j);
    assert Decide(i.spec, t, i.now, i.children) == Creating;
    assert Next(creation, NEW, i).versions == [EMPTY, st];
  }

  /**
   Under any schedule, two reconciles of the same old version: the second create fails, because the child
   exists, and leaves a trigger pending that is not later than the last.
   */
  lemma StaleReadSpoilsStatus(next: int -> int, creation: int)
    requires IsSchedule(next)
    ensures var first, second := Early(next, creation, AllowConcurrent, [], true), Early(next, creation, AllowConcurrent, [CHILD], false);
            var w := Run(creation, NEW, [first, second]);
            Current(w).last == Some(next(creation)) && !StatusInv(creation, Current(w))
  {
    var second := Early(next, creation, AllowConcurrent, [CHILD], false);
    FirstOfTwo(next, creation, AllowConcurrent, second);
    assert Decide(second.spec, next(creation), second.now, second.children) == Creating;
  }

  /** Where children must not run at the same time, the second finds the child of the first, and resolves the tick again. */
  lemma StaleReadResolvesTwice(next: int -> int, creation: int)
    requires IsSchedule(next)
    ensures var first, second := Early(next, creation, ForbidConcurrent, [], true), Early(next, creation, ForbidConcurrent, [CHILD], false);
            ResolvedTicks(Run(creation, NEW, [first, second]).log) == [next(creation), next(creation)]
  {
    var t, second := next(creation), Early(next, creation, ForbidConcurrent, [CHILD], false);
    FirstOfTwo(next, creation, ForbidConcurrent, second);
    assert CHILD in second.children && !IsFinished(second.spec.strategy, CHILD);
    assert Decide(second.spec, t, second.now, second.children) == Forbidden;
    var first := Early(next, creation, ForbidConcurrent, [], true);
    TwiceResolved(t, AtLast(EMPTY, first), AtLast(Resolve(EMPTY, t, first.now, CreateSucceeded), second));
  }

  lemma TwiceResolved(t: int, c: Cause, c': Cause)
    ensures ResolvedTicks([Tried(t, true), Resolved([t], CreateSucceeded, c)] + [Resolved([t], ConcurrencyForbidden, c')]) == [t, t]
  {
    var a, b := [Tried(t, true), Resolved([t], CreateSucceeded, c)], [Resolved([t], ConcurrencyForbidden, c')];
    assert a[1..] == [Resolved([t], CreateSucceeded, c)] && [] + [t] == [t];
    ResolvedOfOne([t], CreateSucceeded, c);
    ResolvedOfOne([t], ConcurrencyForbidden, c');
    ResolvedTicksAppend(a, b);
  }

  // ---- The reconciler, run ----

  /** Any number of reconciles of an object, each on whatever version it happens to read. */
  method Reconciles(cron: CronAnything, next: int -> int, inputs: seq<Input>)
    requires IsSchedule(next) && Follows(next, inputs)
    requires cron.Valid() && cron.versions == [EMPTY] && cron.log == []
    modifies cron
    ensures World(cron.versions, cron.log) == Run(cron.creation, NEW, inputs)
    ensures cron.Valid() && Ordered(cron.creation, cron.versions) && Bounded(cron.versions)
    ensures Covered(next, cron.creation, Base(cron.creation, cron.Value()), cron.log)
    ensures AllReadCurrent(cron.creation, NEW, inputs) ==>
              && AllConsistent(cron.creation, cron.versions)
              && StrictlyIncreasing(ResolvedTicks(cron.log)) && TriesOnlyLater(cron.log)
  {
    for k := 0 to |inputs|
      invariant cron.Valid()
      invariant Run(cron.creation, NEW, inputs) == Run(cron.creation, World(cron.versions, cron.log), inputs[k..])
    {
      assert inputs[k..][1..] == inputs[k + 1..];
      if inputs[k].seen < |cron.versions| {
        var _ := cron.Reconcile(cron.versions[inputs[k].seen], inputs[k]);
      }
    }
    NeverGoesBack(cron.creation, NEW, inputs);
    EveryTickResolved(next, cron.creation, inputs);
    if AllReadCurrent(cron.creation, NEW, inputs) {
      StatusStaysConsistent(cron.creation, NEW, inputs);
      EveryTickResolvedOnce(next, cron.creation, inputs);
    }
  }
}
