/**
 Cron schedules. Parsing is left to the library; a schedule is its Next function, which gives the
 first tick strictly after an instant.
 */
module Schedules {
  import opened Common

  /** Nothing changes about the next tick until it comes. */
  ghost predicate Settled(next: int -> int, t: int, s: int)
  {
    t <= s < next(t) ==> next(s) == next(t)
  }

  ghost predicate IsSchedule(next: int -> int)
  {
    && (forall t :: next(t) > t)
    && (forall t, s :: Settled(next, t, s))
  }

  ghost predicate IsTick(next: int -> int, t: int)
  {
    next(t - 1) == t
  }

  /** next(t) is the earliest tick after t. */
  lemma NextIsEarliest(next: int -> int, t: int)
    requires IsSchedule(next)
    ensures IsTick(next, next(t))
    ensures forall x :: t < x && IsTick(next, x) ==> next(t) <= x
  {
    assert Settled(next, t, next(t) - 1);
    forall x | t < x && IsTick(next, x)
      ensures next(t) <= x
    {
      assert Settled(next, t, x - 1);
    }
  }

  /** The ticks of the open interval (start, end), in order. */
  function Ticks(next: int -> int, start: int, end: int): seq<int>
    requires IsSchedule(next)
    decreases end - start
  {
    if next(start) >= end then [] else [next(start)] + Ticks(next, next(start), end)
  }

  lemma {:induction false} TicksAreExact(next: int -> int, start: int, end: int)
    requires IsSchedule(next)
    ensures StrictlyIncreasing(Ticks(next, start, end))
    ensures forall x :: x in Ticks(next, start, end) <==> start < x < end && IsTick(next, x)
    decreases end - start
  {
    NextIsEarliest(next, start);
    if next(start) < end {
      TicksAreExact(next, next(start), end);
      var rest := Ticks(next, next(start), end);
      assert forall j :: 0 <= j < |rest| ==> rest[j] in rest;
    }
  }

  /** Consecutive intervals: the ticks up to and including a tick m, then those after it. */
  lemma {:induction false} TicksSplit(next: int -> int, start: int, m: int, end: int)
    requires IsSchedule(next) && IsTick(next, m) && start < m < end
    ensures Ticks(next, start, end) == Ticks(next, start, m + 1) + Ticks(next, m, end)
    decreases m - start
  {
    NextIsEarliest(next, start);
    if next(start) < m {
      TicksSplit(next, next(start), m, end);
      assert Ticks(next, start, end) == [next(start)] + Ticks(next, next(start), end);
      assert Ticks(next, start, m + 1) == [next(start)] + Ticks(next, next(start), m + 1);
    } else {
      NextIsEarliest(next, m);
      assert Ticks(next, m, m + 1) == [];
      assert Ticks(next, start, m + 1) == [m];
    }
  }

  /** Cutting the list of ticks before its k-th element cuts the interval there. */
  lemma TicksPrefix(next: int -> int, start: int, end: int, k: nat)
    requires IsSchedule(next) && k < |Ticks(next, start, end)|
    ensures Ticks(next, start, end)[..k + 1] == Ticks(next, start, Ticks(next, start, end)[k] + 1)
    ensures Ticks(next, start, end)[k + 1..] == Ticks(next, Ticks(next, start, end)[k], end)
  {
    var all := Ticks(next, start, end);
    var m := all[k];
    TicksAreExact(next, start, end);
    assert m in all;
    TicksSplit(next, start, m, end);
    var a, b := Ticks(next, start, m + 1), Ticks(next, m, end);
    TicksAreExact(next, start, m + 1);
    assert m in a && |a| > 0;
    assert a[|a| - 1] == m by {
      var j :| 0 <= j < |a| && a[j] == m;
      assert a[|a| - 1] in a;
    }
    assert all[|a| - 1] == m;
    assert |a| == k + 1;
  }

  /** getScheduleTimes: exactly the ticks after the last schedule time and before now, and the next one. */
  method GetScheduleTimes(next: int -> int, start: int, now: int) returns (times: seq<int>, following: int)
    requires IsSchedule(next)
    ensures times == Ticks(next, start, now)
    ensures StrictlyIncreasing(times) && forall x :: x in times <==> start < x < now && IsTick(next, x)
    ensures following > now && IsTick(next, following) && forall x :: now < x < following ==> !IsTick(next, x)
  {
    times := [];
    var t := next(start);
    ghost var done := start;
    while t < now
      invariant t == next(done)
      invariant Ticks(next, start, now) == times + Ticks(next, done, now)
      decreases now - t
    {
      times := times + [t];
      done := t;
      t := next(t);
    }
    following := next(now);
    TicksAreExact(next, start, now);
    NextIsEarliest(next, now);
  }
}
