/**
 The CronAnything reconciler of common/controllers/cronanything_controller.go: which ticks are due,
 which are dropped, what becomes of the last one, and what the status remembers about it. A reconcile
 decides on a status it read, which may be out of date, and writes onto the one that is stored. Status
 writes may be lost, or be stored without the controller learning of it.
 */
module Cron {
  import opened Common
  import opened Schedules
  import opened Children

  const HISTORY_MAX := 10

  datatype TriggerResult =
    | Missed
    | DeadlineExceeded
    | ConcurrencyForbidden
    | ResourceLimitReached
    | CreateFailed
    | CreateSucceeded

  datatype Record = Record(scheduleTime: int, recordedAt: int, result: TriggerResult)

  datatype Pending = Pending(scheduleTime: int, result: TriggerResult)

  datatype Status = Status(last: Option<int>, pending: Option<Pending>, history: seq<Record>)

  datatype Write = Confirmed | Lost | Unconfirmed

  /** All that one reconcile learns from outside. */
  datatype Input = Input(
    seen: nat, // the stored version that is read
    next: int -> int,
    now: int,
    spec: CronSpec,
    children: seq<Child>, // after the clean-up
    created: bool, // the create call succeeds
    firstWrite: Write,
    secondWrite: Write)

  /** What a reconcile committed or attempted. */
  datatype Entry = Resolved(ticks: seq<int>, result: TriggerResult, cause: Cause) | Tried(tick: int, created: bool)

  /** Whether the ticks were dropped, and what was known: the inputs, and the pending trigger that was looked at. */
  datatype Cause = Cause(dropped: bool, i: Input, pending: Option<Pending>)

  /** The versions of the status it stored, in order, and the rest. */
  datatype Effect = Effect(stored: seq<Status>, entries: seq<Entry>)

  const EMPTY := Status(None, None, [])

  /** Ticks after this instant are unresolved. */
  function Base(creation: int, st: Status): int
  {
    if st.last.Some? then st.last.value else creation
  }

  function Newest(st: Status, stored: seq<Status>): Status
  {
    if stored == [] then st else stored[|stored| - 1]
  }

  function Shorten(history: seq<Record>): seq<Record>
  {
    if |history| > HISTORY_MAX then history[..HISTORY_MAX] else history
  }

  /** The status after a trigger is done with, for good or ill. */
  function Resolve(st: Status, tick: int, now: int, result: TriggerResult): Status
  {
    Status(
      if st.last.None? || st.last.value < tick then Some(tick) else st.last,
      None,
      Shorten([Record(tick, now, result)] + st.history))
  }

  function IsPending(st: Status, tick: int): bool
  {
    st.pending.Some? && st.pending.value.scheduleTime == tick
  }

  function AtLast(st: Status, i: Input): Cause
  {
    Cause(false, i, st.pending)
  }

  function AtDrop(seen: Status, i: Input): Cause
  {
    Cause(true, i, seen.pending)
  }

  function Close(st: Status, ticks: seq<int>, c: Cause, result: TriggerResult, w: Write): Effect
    requires ticks != []
  {
    if w == Lost then Effect([], [])
    else Effect([Resolve(st, ticks[|ticks| - 1], c.i.now, result)], [Resolved(ticks, result, c)])
  }

  /** The part after the dropped ticks: deadline, concurrency policy, limit, creation. */
  function Act(st: Status, tick: int, i: Input): Effect
  {
    match Decide(i.spec, tick, i.now, i.children)
    case PastDeadline =>
      Close(st, [tick], AtLast(st, i), if IsPending(st, tick) then st.pending.value.result else DeadlineExceeded, i.secondWrite)
    case Forbidden => Close(st, [tick], AtLast(st, i), ConcurrencyForbidden, i.secondWrite)
    case Replacing => Effect([], [])
    case LimitReached => Close(st, [tick], AtLast(st, i), ResourceLimitReached, i.secondWrite)
    case Creating =>
      if i.created then
        var e := Close(st, [tick], AtLast(st, i), CreateSucceeded, i.secondWrite);
        e.(entries := [Tried(tick, true)] + e.entries)
      else
        Effect(if i.secondWrite == Lost then [] else [st.(pending := Some(Pending(tick, CreateFailed)))], [Tried(tick, false)])
  }

  function DropResult(seen: Status, dropped: seq<int>): TriggerResult
    requires dropped != []
  {
    if |dropped| == 1 && IsPending(seen, dropped[0]) then seen.pending.value.result else Missed
  }

  /** The dropped ticks are closed first, in a write of their own; then the last tick is acted on. */
  function Handle(seen: Status, st: Status, dropped: seq<int>, tick: int, i: Input): Effect
  {
    if dropped == [] then Act(st, tick, i)
    else
      var first := Close(st, dropped, AtDrop(seen, i), DropResult(seen, dropped), i.firstWrite);
      if i.firstWrite != Confirmed then first
      else
        var second := Act(first.stored[0], tick, i);
        Effect(first.stored + second.stored, first.entries + second.entries)
  }

  function Respond(seen: Status, st: Status, times: seq<int>, i: Input): Effect
  {
    if i.spec.suspended || times == [] then Effect([], [])
    else Handle(seen, st, times[..|times| - 1], times[|times| - 1], i)
  }

  /** All that was tried for the last tick worked. */
  predicate Works(tick: int, i: Input)
  {
    var d := Decide(i.spec, tick, i.now, i.children);
    d == Replacing || (i.secondWrite == Confirmed && (d == Creating ==> i.created))
  }

  /** One reconcile that read `seen` while `st` is stored. */
  function Reconciled(creation: int, seen: Status, st: Status, i: Input): Effect
    requires IsSchedule(i.next)
  {
    Respond(seen, st, Ticks(i.next, Base(creation, seen), i.now + SECOND), i)
  }

  // ---------------------------------------------------------------------------------------------
  // The reconciler as the source runs it

  class CronAnything {
    const creation: int
    var last: Option<int>
    var pending: Option<Pending>
    var history: seq<Record>
    /** Every version stored, and everything committed or attempted so far. */
    var versions: seq<Status>
    var log: seq<Entry>

    constructor (creation: int)
      ensures this.creation == creation && Valid() && versions == [EMPTY] && log == []
    {
      this.creation := creation;
      last, pending, history, log := None, None, [], [];
      versions := [EMPTY];
    }

    function Value(): Status
      reads this
    {
      Status(last, pending, history)
    }

    ghost predicate Valid()
      reads this
    {
      versions != [] && versions[|versions| - 1] == Value()
    }

    /** The later of the two times. */
    method UpdateLastScheduleTime(tick: int)
      modifies this`last
      ensures last.Some? && last.value >= tick && (old(last).Some? ==> last.value >= old(last).value)
      ensures last == Some(tick) || last == old(last)
    {
      if last.None? || last.value < tick {
        last := Some(tick);
      }
    }

    /** The record comes first, the others keep their order, and only as many are forgotten as must be. */
    method AddToTriggerHistory(r: Record)
      modifies this`history
      ensures 0 < |history| <= HISTORY_MAX && history[0] == r && history[1..] <= old(history)
      ensures |history| == |old(history)| + 1 || |history| == HISTORY_MAX
    {
      history := [r] + history;
      if |history| > HISTORY_MAX {
        history := history[..HISTORY_MAX];
      }
    }

    /** One status write that closes the books on some ticks. */
    method CloseTicks(ticks: seq<int>, c: Cause, result: TriggerResult, w: Write) returns (ok: bool)
      requires Valid() && ticks != []
      modifies this
      ensures Valid() && ok == (w == Confirmed)
      ensures versions == old(versions) + Close(old(Value()), ticks, c, result, w).stored
      ensures log == old(log) + Close(old(Value()), ticks, c, result, w).entries
    {
      if w != Lost {
        ghost var before := Value();
        UpdateLastScheduleTime(ticks[|ticks| - 1]);
        pending := None;
        AddToTriggerHistory(Record(ticks[|ticks| - 1], c.i.now, result));
        assert history == Shorten([Record(ticks[|ticks| - 1], c.i.now, result)] + before.history);
        versions := versions + [Value()];
        log := log + [Resolved(ticks, result, c)];
      }
      ok := w == Confirmed;
    }

    method HandleTrigger(tick: int, i: Input) returns (ok: bool)
      requires Valid()
      modifies this
      ensures Valid() && versions == old(versions) + Act(old(Value()), tick, i).stored
      ensures log == old(log) + Act(old(Value()), tick, i).entries
      ensures ok <==> Works(tick, i)
    {
      if i.spec.deadline.Some? && tick + i.spec.deadline.value * SECOND < i.now {
        var result := DeadlineExceeded;
        if pending.Some? && pending.value.scheduleTime == tick {
          result := pending.value.result;
        }
        ok := CloseTicks([tick], Cause(false, i, pending), result, i.secondWrite);
        return;
      }
      var active := ActiveChildren(i.spec.strategy, i.children);
      if |active| > 0 {
        if i.spec.policy == ForbidConcurrent {
          ok := CloseTicks([tick], Cause(false, i, pending), ConcurrencyForbidden, i.secondWrite);
          return;
        } else if i.spec.policy == ReplaceConcurrent {
          return true;
        }
      }
      if i.spec.limit.Some? && |i.children| >= i.spec.limit.value {
        ok := CloseTicks([tick], Cause(false, i, pending), ResourceLimitReached, i.secondWrite);
        return;
      }
      log := log + [Tried(tick, i.created)];
      if !i.created {
        if i.secondWrite != Lost {
          pending := Some(Pending(tick, CreateFailed));
          versions := versions + [Value()];
        }
        return false;
      }
      ok := CloseTicks([tick], Cause(false, i, pending), CreateSucceeded, i.secondWrite);
    }

    method HandleTriggers(seen: Status, dropped: seq<int>, tick: int, i: Input) returns (ok: bool)
      requires Valid()
      modifies this
      ensures Valid() && versions == old(versions) + Handle(seen, old(Value()), dropped, tick, i).stored
      ensures log == old(log) + Handle(seen, old(Value()), dropped, tick, i).entries
      ensures ok <==> (dropped != [] ==> i.firstWrite == Confirmed) && Works(tick, i)
    {
      if |dropped| > 0 {
        var latest := dropped[|dropped| - 1];
        var result := Missed;
        if |dropped| == 1 && seen.pending.Some? && seen.pending.value.scheduleTime == latest {
          result := seen.pending.value.result;
        }
        ok := CloseTicks(dropped, Cause(true, i, seen.pending), result, i.firstWrite);
        if !ok {
          return false;
        }
      }
      ok := HandleTrigger(tick, i);
    }

    /** The ticks since the last one that was resolved, or since the object was created, as far as was seen. */
    method DueTimes(seen: Status, i: Input) returns (times: seq<int>)
      requires IsSchedule(i.next)
      ensures times == Ticks(i.next, Base(creation, seen), i.now + SECOND)
    {
      var start := if seen.last.None? then creation else seen.last.value;
      var due, _ := GetScheduleTimes(i.next, start, i.now + SECOND);
      times := due;
    }

    method Reconcile(seen: Status, i: Input) returns (ok: bool)
      requires Valid() && IsSchedule(i.next)
      modifies this
      ensures Valid() && versions == old(versions) + Reconciled(creation, seen, old(Value()), i).stored
      ensures log == old(log) + Reconciled(creation, seen, old(Value()), i).entries
    {
      var times := DueTimes(seen, i);
      ok := RespondTo(seen, times, i);
    }

    method RespondTo(seen: Status, times: seq<int>, i: Input) returns (ok: bool)
      requires Valid()
      modifies this
      ensures Valid() && versions == old(versions) + Respond(seen, old(Value()), times, i).stored
      ensures log == old(log) + Respond(seen, old(Value()), times, i).entries
      ensures ok <==> i.spec.suspended || times == [] || ((|times| > 1 ==> i.firstWrite == Confirmed) && Works(times[|times| - 1], i))
    {
      if i.spec.suspended || |times| == 0 {
        return true;
      }
      ok := HandleTriggers(seen, times[..|times| - 1], times[|times| - 1], i);
    }
  }

  // ---------------------------------------------------------------------------------------------
  // Whole runs

  /** Every version stored, oldest first, and everything committed or attempted. */
  datatype World = World(versions: seq<Status>, log: seq<Entry>)

  const NEW := World([EMPTY], [])

  function Current(w: World): Status
    requires w.versions != []
  {
    w.versions[|w.versions| - 1]
  }

  function Next(creation: int, w: World, i: Input): (w': World)
    requires w.versions != [] && IsSchedule(i.next)
    ensures w'.versions != []
  {
    if i.seen >= |w.versions| then w
    else
      var e := Reconciled(creation, w.versions[i.seen], Current(w), i);
      World(w.versions + e.stored, w.log + e.entries)
  }

  ghost predicate Scheduled(inputs: seq<Input>)
  {
    forall k :: 0 <= k < |inputs| ==> IsSchedule(inputs[k].next)
  }

  function Run(creation: int, w: World, inputs: seq<Input>): (w': World)
    requires w.versions != [] && Scheduled(inputs)
    ensures w'.versions != []
    decreases inputs
  {
    if inputs == [] then w else Run(creation, Next(creation, w, inputs[0]), inputs[1..])
  }

  /** What was read has the last schedule time of what is stored. */
  ghost predicate ReadsCurrent(w: World, i: Input)
    requires w.versions != []
  {
    i.seen < |w.versions| ==> w.versions[i.seen].last == Current(w).last
  }

  /** That holds of every reconcile of the run. */
  ghost predicate AllReadCurrent(creation: int, w: World, inputs: seq<Input>)
    requires w.versions != [] && Scheduled(inputs)
    decreases inputs
  {
    inputs == [] || (ReadsCurrent(w, inputs[0]) && AllReadCurrent(creation, Next(creation, w, inputs[0]), inputs[1..]))
  }

  /**
   The due ticks split into the dropped ones and the last: the dropped ones are all the ticks up to
   the latest of them, and the last one is the very next tick.
   */
  ghost predicate Due(next: int -> int, base: int, dropped: seq<int>, tick: int)
    requires IsSchedule(next)
  {
    if dropped == [] then
      tick == next(base)
    else
      var latest := dropped[|dropped| - 1];
      base < latest && IsTick(next, latest) && dropped == Ticks(next, base, latest + 1) && tick == next(latest)
  }

  lemma DueTicks(next: int -> int, base: int, now: int)
    requires IsSchedule(next) && Ticks(next, base, now) != []
    ensures var times := Ticks(next, base, now);
            Due(next, base, times[..|times| - 1], times[|times| - 1])
  {
    var times := Ticks(next, base, now);
    if |times| >= 2 {
      TicksAreExact(next, base, now);
      TicksPrefix(next, base, now, |times| - 2);
      assert times[|times| - 2] in times;
      assert times[|times| - 1..] == [times[|times| - 1]];
    }
  }

  lemma DueInOrder(next: int -> int, base: int, dropped: seq<int>, tick: int)
    requires IsSchedule(next) && Due(next, base, dropped, tick)
    ensures tick > base && (dropped != [] ==> base < dropped[|dropped| - 1] < tick)
  {
  }

  /** A reconcile either changes nothing or handles the ticks that seem due. */
  lemma ReconciledCases(creation: int, seen: Status, st: Status, i: Input) returns (idle: bool, dropped: seq<int>, tick: int)
    requires IsSchedule(i.next)
    ensures Reconciled(creation, seen, st, i) == if idle then Effect([], []) else Handle(seen, st, dropped, tick, i)
    ensures !idle ==> Due(i.next, Base(creation, seen), dropped, tick)
    ensures !idle ==> tick > Base(creation, seen) && (dropped != [] ==> Base(creation, seen) < dropped[|dropped| - 1] < tick)
  {
    ghost var times := Ticks(i.next, Base(creation, seen), i.now + SECOND);
    idle, dropped, tick := RespondCases(seen, st, times, i);
    if !idle {
      DueTicks(i.next, Base(creation, seen), i.now + SECOND);
      DueInOrder(i.next, Base(creation, seen), dropped, tick);
    }
  }

  lemma RespondCases(seen: Status, st: Status, times: seq<int>, i: Input) returns (idle: bool, dropped: seq<int>, tick: int)
    ensures Respond(seen, st, times, i) == if idle then Effect([], []) else Handle(seen, st, dropped, tick, i)
    ensures !idle ==> times != [] && dropped == times[..|times| - 1] && tick == times[|times| - 1]
  {
    idle, dropped, tick := i.spec.suspended || times == [], [], 0;
    if !idle {
      dropped, tick := times[..|times| - 1], times[|times| - 1];
    }
  }

  // ---------------------------------------------------------------------------------------------
  // The status

  ghost predicate StatusInv(creation: int, st: Status)
  {
    && |st.history| <= 10
    && (forall i, j :: 0 <= i < j < |st.history| ==> st.history[i].scheduleTime > st.history[j].scheduleTime)
    && (st.history == [] <==> st.last.None?)
    && (st.last.Some? ==> st.history[0].scheduleTime == st.last.value && st.last.value > creation)
    && (st.pending.Some? ==> st.pending.value.scheduleTime > Base(creation, st))
  }

  ghost predicate AllConsistent(creation: int, versions: seq<Status>)
  {
    forall v :: 0 <= v < |versions| ==> StatusInv(creation, versions[v])
  }

  lemma ResolveKeepsInv(creation: int, st: Status, tick: int, now: int, result: TriggerResult)
    requires StatusInv(creation, st) && tick > Base(creation, st)
    ensures StatusInv(creation, Resolve(st, tick, now, result))
  {
    var longer := [Record(tick, now, result)] + st.history;
    forall i, j | 0 <= i < j < |longer|
      ensures longer[i].scheduleTime > longer[j].scheduleTime
    {
      if i == 0 {
        assert longer[j] == st.history[j - 1];
      }
    }
  }

  lemma ActKeepsInv(creation: int, st: Status, tick: int, i: Input)
    requires StatusInv(creation, st) && tick > Base(creation, st)
    ensures AllConsistent(creation, Act(st, tick, i).stored)
  {
    forall result {
      ResolveKeepsInv(creation, st, tick, i.now, result);
    }
  }

  lemma HandleKeepsInv(creation: int, seen: Status, st: Status, dropped: seq<int>, tick: int, i: Input)
    requires StatusInv(creation, st) && tick > Base(creation, st)
    requires dropped != [] ==> Base(creation, st) < dropped[|dropped| - 1] < tick
    ensures AllConsistent(creation, Handle(seen, st, dropped, tick, i).stored)
  {
    if dropped == [] {
      ActKeepsInv(creation, st, tick, i);
    } else {
      var latest, result := dropped[|dropped| - 1], DropResult(seen, dropped);
      ResolveKeepsInv(creation, st, latest, i.now, result);
      ActKeepsInv(creation, Resolve(st, latest, i.now, result), tick, i);
    }
  }

  lemma ReconcileKeepsInv(creation: int, seen: Status, st: Status, i: Input)
    requires IsSchedule(i.next) && StatusInv(creation, st) && seen.last == st.last
    ensures AllConsistent(creation, Reconciled(creation, seen, st, i).stored)
  {
    var idle, dropped, tick := ReconciledCases(creation, seen, st, i);
    if !idle {
      HandleKeepsInv(creation, seen, st, dropped, tick, i);
    }
  }

  /**
   Over every run of current reads, with schedules and clocks that may change from one reconcile to the
   next: in every version stored the history holds at most ten records, strictly newest first, starting
   with the last schedule time, and a pending trigger is later than that.
   */
  lemma {:induction false} StatusStaysConsistent(creation: int, w: World, inputs: seq<Input>)
    requires w.versions != [] && Scheduled(inputs) && AllReadCurrent(creation, w, inputs)
    requires AllConsistent(creation, w.versions)
    ensures AllConsistent(creation, Run(creation, w, inputs).versions)
    decreases inputs
  {
    if inputs != [] {
      var i := inputs[0];
      if i.seen < |w.versions| {
        ReconcileKeepsInv(creation, w.versions[i.seen], Current(w), i);
      }
      StatusStaysConsistent(creation, Next(creation, w, i), inputs[1..]);
    }
  }

  // ---------------------------------------------------------------------------------------------
  // Accounting for ticks

  /** All ticks resolved, in the order in which they were. */
  function ResolvedTicks(log: seq<Entry>): seq<int>
  {
    if log == [] then []
    else (if log[0].Resolved? then log[0].ticks else []) + ResolvedTicks(log[1..])
  }

  lemma {:induction false} ResolvedTicksAppend(a: seq<Entry>, b: seq<Entry>)
    ensures ResolvedTicks(a + b) == ResolvedTicks(a) + ResolvedTicks(b)
  {
    if a == [] {
      assert a + b == b;
    } else {
      assert (a + b)[1..] == a[1..] + b;
      ResolvedTicksAppend(a[1..], b);
    }
  }

  /** A tick is only tried while it is later than everything resolved before. */
  ghost predicate TriesOnlyLater(log: seq<Entry>)
  {
    forall i, j, x :: 0 <= i < j < |log| && log[i].Resolved? && log[j].Tried? && x in log[i].ticks ==> x < log[j].tick
  }

  /** From `base` to the new base every tick was resolved once, and only later ones were tried. */
  ghost predicate Accounts(next: int -> int, base: int, base': int, entries: seq<Entry>)
    requires IsSchedule(next)
  {
    && base <= base'
    && (base' != base ==> IsTick(next, base'))
    && ResolvedTicks(entries) == Ticks(next, base, base' + 1)
    && TriesOnlyLater(entries)
    && (forall j :: 0 <= j < |entries| && entries[j].Tried? ==> entries[j].tick > base)
  }

  lemma {:induction false} ResolvedAreListed(log: seq<Entry>, i: nat, x: int)
    requires i < |log| && log[i].Resolved? && x in log[i].ticks
    ensures x in ResolvedTicks(log)
  {
    if i > 0 {
      ResolvedAreListed(log[1..], i - 1, x);
    }
  }

  lemma AccountsNothing(next: int -> int, base: int)
    requires IsSchedule(next)
    ensures Accounts(next, base, base, [])
  {
    NextIsEarliest(next, base);
  }

  lemma AccountsChain(next: int -> int, a: int, b: int, c: int, first: seq<Entry>, second: seq<Entry>)
    requires IsSchedule(next) && Accounts(next, a, b, first) && Accounts(next, b, c, second)
    ensures Accounts(next, a, c, first + second)
  {
    ResolvedTicksAppend(first, second);
    NextIsEarliest(next, a);
    NextIsEarliest(next, b);
    if a < b < c {
      TicksSplit(next, a, b, c + 1);
    } else {
      assert Ticks(next, b, b + 1) == [] && Ticks(next, a, a + 1) == [];
    }
    var all := first + second;
    forall i, j, x | 0 <= i < j < |all| && all[i].Resolved? && all[j].Tried? && x in all[i].ticks
      ensures x < all[j].tick
    {
      if i < |first| <= j {
        ResolvedAreListed(first, i, x);
        TicksAreExact(next, a, b + 1);
        assert second[j - |first|] == all[j];
      } else if i >= |first| {
        assert second[i - |first|] == all[i] && second[j - |first|] == all[j];
      }
    }
  }

  lemma CloseAccounts(next: int -> int, creation: int, st: Status, ticks: seq<int>, c: Cause, result: TriggerResult, w: Write)
    requires IsSchedule(next) && ticks != []
    requires var base := Base(creation, st); var m := ticks[|ticks| - 1];
             base < m && IsTick(next, m) && ticks == Ticks(next, base, m + 1)
    ensures var e := Close(st, ticks, c, result, w);
            Accounts(next, Base(creation, st), Base(creation, Newest(st, e.stored)), e.entries)
  {
    AccountsNothing(next, Base(creation, st));
    ResolvedOfOne(ticks, result, c);
  }

  lemma ResolvedOfOne(ticks: seq<int>, result: TriggerResult, c: Cause)
    ensures ResolvedTicks([Resolved(ticks, result, c)]) == ticks
  {
    var entries := [Resolved(ticks, result, c)];
    assert entries[1..] == [] && ResolvedTicks(entries) == ticks + [];
  }

  lemma NextTickAlone(next: int -> int, base: int)
    requires IsSchedule(next)
    ensures IsTick(next, next(base)) && Ticks(next, base, next(base) + 1) == [next(base)]
  {
    NextIsEarliest(next, base);
    assert Ticks(next, next(base), next(base) + 1) == [];
  }

  lemma ActAccounts(next: int -> int, creation: int, st: Status, tick: int, i: Input)
    requires IsSchedule(next) && next(Base(creation, st)) == tick
    ensures var e := Act(st, tick, i);
            Accounts(next, Base(creation, st), Base(creation, Newest(st, e.stored)), e.entries)
  {
    var base := Base(creation, st);
    NextTickAlone(next, base);
    AccountsNothing(next, base);
    forall result {
      CloseAccounts(next, creation, st, [tick], AtLast(st, i), result, i.secondWrite);
    }
    var tried := [Tried(tick, i.created)];
    assert tried[1..] == [] && ResolvedTicks(tried) == [] + [];
    assert Accounts(next, base, base, tried);
    var e := Close(st, [tick], AtLast(st, i), CreateSucceeded, i.secondWrite);
    AccountsChain(next, base, base, Base(creation, Newest(st, e.stored)), tried, e.entries);
  }

  lemma HandleAccounts(next: int -> int, creation: int, seen: Status, st: Status, dropped: seq<int>, tick: int, i: Input)
    requires IsSchedule(next) && Due(next, Base(creation, st), dropped, tick)
    ensures var e := Handle(seen, st, dropped, tick, i);
            Accounts(next, Base(creation, st), Base(creation, Newest(st, e.stored)), e.entries)
  {
    if dropped == [] {
      ActAccounts(next, creation, st, tick, i);
    } else {
      var latest, result := dropped[|dropped| - 1], DropResult(seen, dropped);
      CloseAccounts(next, creation, st, dropped, AtDrop(seen, i), result, i.firstWrite);
      var first := Close(st, dropped, AtDrop(seen, i), result, i.firstWrite);
      if i.firstWrite == Confirmed {
        var st' := first.stored[0];
        ActAccounts(next, creation, st', tick, i);
        var second := Act(st', tick, i);
        AccountsChain(next, Base(creation, st), latest, Base(creation, Newest(st', second.stored)), first.entries, second.entries);
      }
    }
  }

  /** A reconcile of a current read resolves exactly the ticks by which the last schedule time moves. */
  lemma ReconcileAccounts(creation: int, seen: Status, st: Status, i: Input)
    requires IsSchedule(i.next) && Base(creation, seen) == Base(creation, st)
    ensures var e := Reconciled(creation, seen, st, i);
            Accounts(i.next, Base(creation, st), Base(creation, Newest(st, e.stored)), e.entries)
  {
    var idle, dropped, tick := ReconciledCases(creation, seen, st, i);
    if idle {
      AccountsNothing(i.next, Base(creation, st));
    } else {
      HandleAccounts(i.next, creation, seen, st, dropped, tick, i);
    }
  }

  lemma {:induction false} RunAccounts(next: int -> int, creation: int, w: World, inputs: seq<Input>)
    requires IsSchedule(next) && Follows(next, inputs) && w.versions != [] && AllReadCurrent(creation, w, inputs)
    requires Accounts(next, creation, Base(creation, Current(w)), w.log)
    ensures var w' := Run(creation, w, inputs);
            Accounts(next, creation, Base(creation, Current(w')), w'.log)
    decreases inputs
  {
    if inputs != [] {
      var i := inputs[0];
      if i.seen < |w.versions| {
        ReconcileAccounts(creation, w.versions[i.seen], Current(w), i);
        var e := Reconciled(creation, w.versions[i.seen], Current(w), i);
        AccountsChain(next, creation, Base(creation, Current(w)), Base(creation, Newest(Current(w), e.stored)), w.log, e.entries);
      }
      RunAccounts(next, creation, Next(creation, w, i), inputs[1..]);
    }
  }

  /** All reconciles follow one schedule. */
  ghost predicate Follows(next: int -> int, inputs: seq<Input>)
    ensures Follows(next, inputs) && IsSchedule(next) ==> Scheduled(inputs)
  {
    forall k :: 0 <= k < |inputs| ==> inputs[k].next == next
  }

  /**
   Over every run of current reads under one schedule, whatever clocks, children, failures and lost
   writes: the committed steps resolve exactly the ticks from the creation up to the last schedule time,
   each once and in order, and no tick is tried after it was resolved.
   */
  lemma EveryTickResolvedOnce(next: int -> int, creation: int, inputs: seq<Input>)
    requires IsSchedule(next) && Follows(next, inputs) && AllReadCurrent(creation, NEW, inputs)
    ensures var w := Run(creation, NEW, inputs);
            var resolved := ResolvedTicks(w.log);
            && StrictlyIncreasing(resolved)
            && (forall x :: x in resolved <==> creation < x <= Base(creation, Current(w)) && IsTick(next, x))
            && TriesOnlyLater(w.log)
  {
    AccountsNothing(next, creation);
    RunAccounts(next, creation, NEW, inputs);
    AccountsMeans(next, creation, Base(creation, Current(Run(creation, NEW, inputs))), Run(creation, NEW, inputs).log);
  }

  lemma AccountsMeans(next: int -> int, base: int, base': int, log: seq<Entry>)
    requires IsSchedule(next) && Accounts(next, base, base', log)
    ensures StrictlyIncreasing(ResolvedTicks(log))
    ensures forall x :: x in ResolvedTicks(log) <==> base < x <= base' && IsTick(next, x)
  {
    TicksAreExact(next, base, base' + 1);
  }
}
