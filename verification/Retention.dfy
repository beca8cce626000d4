/**
 How many scheduled backups are kept for point-in-time recovery
 (oracle/controllers/pitrcontroller/pitr_controller.go). Instants are whole seconds.
 */
module Retention {
  import opened Common
  import opened Schedules

  const DAY := 86400

  /** 1 January 2020, where the counting starts. */
  const START := 1577836800

  const DEFAULT_WINDOW := 7 * DAY

  // ---- The ticks that follow an instant ----

  /** The n-th tick after t; t itself for n = 0. */
  function Nth(next: int -> int, t: int, n: nat): int
    decreases n
  {
    if n == 0 then t else Nth(next, next(t), n - 1)
  }

  /** How many steps of the schedule it takes from t to reach the end. */
  function Steps(next: int -> int, t: int, end: int): nat
    requires IsSchedule(next)
    decreases end - t
  {
    if t >= end then 0 else 1 + Steps(next, next(t), end)
  }

  /** Steps is the least n whose n-th tick is not before the end. */
  lemma {:induction false} StepsIsLeast(next: int -> int, t: int, end: int, n: nat)
    requires IsSchedule(next)
    ensures Nth(next, t, n) >= end <==> Steps(next, t, end) <= n
    decreases n
  {
    if t < end && n > 0 {
      StepsIsLeast(next, next(t), end, n - 1);
    } else if t >= end {
      NthGrows(next, t, n);
    }
  }

  lemma {:induction false} NthGrows(next: int -> int, t: int, n: nat)
    requires IsSchedule(next)
    ensures Nth(next, t, n) >= t + n
    decreases n
  {
    if n > 0 {
      NthGrows(next, next(t), n - 1);
    }
  }

  lemma {:induction false} NthAdds(next: int -> int, t: int, m: nat, n: nat)
    ensures Nth(next, t, m + n) == Nth(next, Nth(next, t, m), n)
    decreases m
  {
    if m > 0 {
      NthAdds(next, next(t), m - 1, n);
    }
  }

  lemma NextIsMonotone(next: int -> int, t: int, u: int)
    requires IsSchedule(next) && t <= u
    ensures next(t) <= next(u)
  {
    assert Settled(next, t, u);
  }

  lemma {:induction false} NthIsMonotone(next: int -> int, t: int, u: int, n: nat)
    requires IsSchedule(next) && t <= u
    ensures Nth(next, t, n) <= Nth(next, u, n)
    decreases n
  {
    if n > 0 {
      NextIsMonotone(next, t, u);
      NthIsMonotone(next, next(t), next(u), n - 1);
    }
  }

  /** Every tick after s is one of the ticks that follow s. */
  lemma {:induction false} TickIsNth(next: int -> int, s: int, t: int) returns (j: nat)
    requires IsSchedule(next) && s < t && IsTick(next, t)
    ensures j > 0 && Nth(next, s, j) == t
    decreases t - s
  {
    NextIsEarliest(next, s);
    if next(s) == t {
      j := 1;
      assert Nth(next, t, 0) == t;
    } else {
      var i := TickIsNth(next, next(s), t);
      j := i + 1;
    }
  }

  /** The counter is an int32. */
  function Wrap32(n: int): (r: int)
    ensures -0x8000_0000 <= r < 0x8000_0000 && (-0x8000_0000 <= n < 0x8000_0000 ==> r == n)
  {
    (n + 0x8000_0000) % 0x1_0000_0000 - 0x8000_0000
  }

  /** calculateBackupRetentionCnt; up to a window of 68 years the counter cannot overflow. */
  method CalculateBackupRetentionCnt(next: int -> int, window: int) returns (count: int)
    requires IsSchedule(next)
    ensures count == Wrap32(Steps(next, START, START + window) + 1)
    ensures window < 0x7FFF_FFFF ==>
              && count == Steps(next, START, START + window) + 1
              && Nth(next, START, count - 1) >= START + window
              && forall m :: 0 <= m < count - 1 ==> Nth(next, START, m) < START + window
  {
    var start, end := START, START + window;
    count := 0;
    ghost var n := 0;
    while start < end
      invariant n >= 0 && count == Wrap32(n)
      invariant Steps(next, START, end) == n + Steps(next, start, end)
      decreases end - start
    {
      start := next(start);
      count := Wrap32(count + 1);
      n := n + 1;
    }
    count := Wrap32(count + 1);
    if window < 0x7FFF_FFFF {
      StepsAreFew(next, START, window);
      assert count == n + 1;
      StepsIsLeast(next, START, end, n);
      forall m | 0 <= m < n
        ensures Nth(next, START, m) < end
      {
        StepsIsLeast(next, START, end, m);
      }
    }
  }

  /** Ticks are at least a second apart. */
  lemma StepsAreFew(next: int -> int, t: int, window: int)
    requires IsSchedule(next)
    ensures Steps(next, t, t + window) <= if window < 0 then 0 else window
  {
    var n := if window < 0 then 0 else window;
    NthGrows(next, t, n);
    StepsIsLeast(next, t, t + window, n);
  }

  /** backupScheduleTemplate: the schedule used and the number of backups kept. */
  method BackupScheduleTemplate(given: Option<int -> int>, everyFourHours: int -> int) returns (schedule: int -> int, retention: int)
    requires IsSchedule(everyFourHours) && (given.Some? ==> IsSchedule(given.value))
    ensures schedule == if given.Some? then given.value else everyFourHours
    ensures IsSchedule(schedule) && retention == Steps(schedule, START, START + DEFAULT_WINDOW) + 1
  {
    schedule := everyFourHours;
    if given.Some? {
      schedule := given.value;
    }
    retention := CalculateBackupRetentionCnt(schedule, DEFAULT_WINDOW);
  }

  // ---- Do that many backups span the window? ----

  /** A set of n ticks of the schedule. */
  ghost predicate Batch(next: int -> int, ticks: set<int>, n: nat)
  {
    |ticks| == n && forall t :: t in ticks ==> IsTick(next, t)
  }

  ghost predicate Spans(ticks: set<int>, window: int)
  {
    exists a, b :: a in ticks && b in ticks && b - a >= window
  }

  /** No window that opens at a tick takes more steps than the one that was counted. */
  ghost predicate CountedBusiest(next: int -> int, window: int)
    requires IsSchedule(next)
  {
    forall t :: IsTick(next, t) ==> Steps(next, t, t + window) <= Steps(next, START, START + window)
  }

  /** n + 1 ticks that are not before the tick a reach at least to the n-th after it. */
  lemma {:induction false} BatchReaches(next: int -> int, ticks: set<int>, a: int, n: nat) returns (b: int)
    requires IsSchedule(next) && |ticks| > n && forall t :: t in ticks ==> a <= t && IsTick(next, t)
    ensures b in ticks && b >= Nth(next, a, n)
    decreases n
  {
    if n == 0 {
      b := Earliest(ticks);
    } else {
      NextIsEarliest(next, a);
      b := BatchReaches(next, ticks - {a}, next(a), n - 1);
    }
  }

  lemma {:induction false} Earliest(ticks: set<int>) returns (a: int)
    requires |ticks| > 0
    ensures a in ticks && forall t :: t in ticks ==> a <= t
  {
    assert ticks != {};
    var x := Pick(ticks);
    a := x;
    if |ticks - {x}| > 0 {
      var b := Earliest(ticks - {x});
      a := if x < b then x else b;
      assert forall t :: t in ticks ==> t == x || t in ticks - {x};
    } else {
      assert forall t :: t in ticks && t != x ==> t in ticks - {x};
    }
  }

  /** The n + 1 ticks from the tick t on. */
  lemma {:induction false} Consecutive(next: int -> int, t: int, n: nat) returns (ticks: set<int>)
    requires IsSchedule(next) && IsTick(next, t)
    ensures Batch(next, ticks, n + 1) && forall x :: x in ticks ==> t <= x <= Nth(next, t, n)
    decreases n
  {
    if n == 0 {
      ticks := {t};
    } else {
      NextIsEarliest(next, t);
      var rest := Consecutive(next, next(t), n - 1);
      ticks := {t} + rest;
      NthGrows(next, t, n);
      assert t !in rest;
    }
  }

  lemma BusiestMeansBatchesSpan(next: int -> int, window: int, ticks: set<int>)
    requires IsSchedule(next) && CountedBusiest(next, window) && Batch(next, ticks, Steps(next, START, START + window) + 1)
    ensures Spans(ticks, window)
  {
    var n := Steps(next, START, START + window);
    var a := Earliest(ticks);
    var b := BatchReaches(next, ticks, a, n);
    StepsIsLeast(next, a, a + window, n);
    assert b - a >= window;
  }

  /**
   The count kept is enough for any schedule exactly when the window counted, the one from 1 January
   2020, is a busiest one.
   */
  lemma RetentionSpansIff(next: int -> int, window: int)
    requires IsSchedule(next)
    ensures CountedBusiest(next, window) <==>
            forall ticks :: Batch(next, ticks, Steps(next, START, START + window) + 1) ==> Spans(ticks, window)
  {
    var n := Steps(next, START, START + window);
    if CountedBusiest(next, window) {
      forall ticks | Batch(next, ticks, n + 1)
        ensures Spans(ticks, window)
      {
        BusiestMeansBatchesSpan(next, window, ticks);
      }
    }
    if forall ticks :: Batch(next, ticks, n + 1) ==> Spans(ticks, window) {
      forall t | IsTick(next, t)
        ensures Steps(next, t, t + window) <= n
      {
        var ticks := Consecutive(next, t, n);
        assert Spans(ticks, window);
        StepsIsLeast(next, t, t + window, n);
      }
    }
  }

  /** A schedule that fires every p seconds, at any phase. */
  ghost predicate Every(next: int -> int, p: int)
  {
    p > 0 && forall t :: ComesWithin(next, p, t)
  }

  ghost predicate ComesWithin(next: int -> int, p: int, t: int)
  {
    next(t) <= t + p && (IsTick(next, t) ==> next(t) == t + p)
  }

  lemma {:induction false} NthWithinPeriods(next: int -> int, p: int, t: int, n: nat)
    requires IsSchedule(next) && Every(next, p)
    ensures Nth(next, t, n) <= t + n * p
    ensures IsTick(next, t) ==> Nth(next, t, n) == t + n * p
    decreases n
  {
    if n > 0 {
      NextIsEarliest(next, t);
      assert ComesWithin(next, p, t);
      NthWithinPeriods(next, p, next(t), n - 1);
      assert n * p == p + (n - 1) * p;
    }
  }

  lemma RegularScheduleIsCounted(next: int -> int, p: int, window: int)
    requires IsSchedule(next) && Every(next, p)
    ensures CountedBusiest(next, window)
  {
    var n := Steps(next, START, START + window);
    StepsIsLeast(next, START, START + window, n);
    NthWithinPeriods(next, p, START, n);
    forall t | IsTick(next, t)
      ensures Steps(next, t, t + window) <= n
    {
      NthWithinPeriods(next, p, t, n);
      StepsIsLeast(next, t, t + window, n);
    }
  }

  /** The schedule repeats from window to window, as any without month or day of month does weekly. */
  ghost predicate Repeats(next: int -> int, window: int)
  {
    window > 0 && forall t :: RepeatsAt(next, window, t)
  }

  ghost predicate RepeatsAt(next: int -> int, window: int, t: int)
  {
    next(t + window) == next(t) + window
  }

  lemma {:induction false} NthRepeats(next: int -> int, window: int, t: int, n: nat)
    requires Repeats(next, window)
    ensures Nth(next, t + window, n) == Nth(next, t, n) + window
    decreases n
  {
    if n > 0 {
      assert RepeatsAt(next, window, t);
      NthRepeats(next, window, next(t), n - 1);
    }
  }

  lemma RepeatsByWindows(next: int -> int, window: int, t: int, n: nat, k: nat)
    requires Repeats(next, window)
    ensures Nth(next, t + k * window, n) == Nth(next, t, n) + k * window
    ensures Nth(next, t - k * window, n) == Nth(next, t, n) - k * window
  {
    if k > 0 {
      RepeatsByWindows(next, window, t, n, k - 1);
      NthRepeats(next, window, t + (k - 1) * window, n);
      NthRepeats(next, window, t - k * window, n);
      assert k * window == (k - 1) * window + window;
    }
  }

  lemma RepeatingScheduleIsCounted(next: int -> int, window: int)
    requires IsSchedule(next) && Repeats(next, window)
    ensures CountedBusiest(next, window)
  {
    var n := Steps(next, START, START + window);
    StepsIsLeast(next, START, START + window, n);
    forall t | IsTick(next, t)
      ensures Steps(next, t, t + window) <= n
    {
      var q := (t - 1 - START) / window;
      var s := START + q * window;
      assert s < t <= s + window;
      if q >= 0 {
        RepeatsByWindows(next, window, START, n, q);
      } else {
        RepeatsByWindows(next, window, START, n, -q);
        assert START - (-q) * window == s;
      }
      assert Nth(next, s, n) >= s + window;
      var j := TickIsNth(next, s, t);
      NthAdds(next, s, j, n);
      NthAdds(next, s, n, j);
      assert Nth(next, t, n) == Nth(next, Nth(next, s, n), j);
      NthIsMonotone(next, s + window, Nth(next, s, n), j);
      NthRepeats(next, window, s, j);
      StepsIsLeast(next, t, t + window, n);
    }
  }

  /**
   A schedule that is silent in the first week of 2020 and daily afterwards, such as the days 15 to 20
   of every month, keeps two backups a day apart although the window is a week.
   */
  lemma SilentFirstWeekUndercounts(next: int -> int)
    requires IsSchedule(next) && next(START) == START + 14 * DAY && next(START + 14 * DAY) == START + 15 * DAY
    ensures Steps(next, START, START + DEFAULT_WINDOW) + 1 == 2
    ensures Batch(next, {START + 14 * DAY, START + 15 * DAY}, 2) && !Spans({START + 14 * DAY, START + 15 * DAY}, DEFAULT_WINDOW)
    ensures !CountedBusiest(next, DEFAULT_WINDOW)
  {
    NextIsEarliest(next, START);
    NextIsEarliest(next, START + 14 * DAY);
    assert Steps(next, START + 14 * DAY, START + DEFAULT_WINDOW) == 0;
    if CountedBusiest(next, DEFAULT_WINDOW) {
      BusiestMeansBatchesSpan(next, DEFAULT_WINDOW, {START + 14 * DAY, START + 15 * DAY});
    }
  }
}
