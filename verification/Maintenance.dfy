/**
 Maintenance windows (common/pkg/maintenance/windows.go) and the wait for one
 (oracle/controllers/instancecontroller/instance_controller_parameters.go). Instants and durations are
 nanoseconds.
 */
module Maintenance {
  import opened Common

  datatype TimeRange = TimeRange(start: Option<int>, duration: Option<int>)

  predicate IsValid(tr: TimeRange)
  {
    tr.start.Some? && tr.duration.Some?
  }

  /** Rfc3339Copy drops the fraction of a second. */
  function Start(tr: TimeRange): (s: int)
    requires IsValid(tr)
    ensures s % SECOND == 0 && s <= tr.start.value < s + SECOND
  {
    tr.start.value - tr.start.value % SECOND
  }

  /** timeRangeInRange: from the start, up to but not including the end. */
  predicate Contains(tr: TimeRange, t: int)
  {
    IsValid(tr) && Start(tr) <= t < Start(tr) + tr.duration.value
  }

  /** Some window is open at the instant. */
  ghost predicate Open(ranges: seq<TimeRange>, t: int)
  {
    exists k :: 0 <= k < |ranges| && Contains(ranges[k], t)
  }

  method HasValidTimeRanges(window: Option<seq<TimeRange>>) returns (valid: bool)
    ensures valid <==> window.Some? && window.value != [] && forall k :: 0 <= k < |window.value| ==> IsValid(window.value[k])
  {
    if window.None? || |window.value| == 0 {
      return false;
    }
    for i := 0 to |window.value|
      invariant forall k :: 0 <= k < i ==> IsValid(window.value[k])
    {
      if !IsValid(window.value[i]) {
        return false;
      }
    }
    return true;
  }

  method InRange(ranges: seq<TimeRange>, t: int) returns (inside: bool)
    ensures inside <==> Open(ranges, t)
  {
    for i := 0 to |ranges|
      invariant forall k :: 0 <= k < i ==> !Contains(ranges[k], t)
    {
      if Contains(ranges[i], t) {
        return true;
      }
    }
    return false;
  }

  predicate StartsAfter(tr: TimeRange, t: int)
  {
    IsValid(tr) && t < Start(tr)
  }

  /** The first of the ranges with the earliest start after t. */
  ghost predicate IsNext(ranges: seq<TimeRange>, t: int, k: int)
  {
    && 0 <= k < |ranges| && StartsAfter(ranges[k], t)
    && forall j :: 0 <= j < |ranges| && StartsAfter(ranges[j], t) ==>
         Start(ranges[k]) <= Start(ranges[j]) && (j < k ==> Start(ranges[k]) < Start(ranges[j]))
  }

  /** NextWindow: the start and the duration of that range, None if no range is still to start. */
  method NextWindow(ranges: seq<TimeRange>, t: int) returns (next: Option<(int, int)>)
    ensures next.None? ==> forall j :: 0 <= j < |ranges| ==> !StartsAfter(ranges[j], t)
    ensures next.Some? ==> exists k :: IsNext(ranges, t, k) && next.value == (Start(ranges[k]), ranges[k].duration.value)
  {
    next := None;
    ghost var at := 0;
    for i := 0 to |ranges|
      invariant next.None? ==> forall j :: 0 <= j < i ==> !StartsAfter(ranges[j], t)
      invariant next.Some? ==> 0 <= at < i && IsNext(ranges[..i], t, at) && next.value == (Start(ranges[at]), ranges[at].duration.value)
    {
      var tr := ranges[i];
      if !IsValid(tr) {
        continue;
      }
      var start := Start(tr);
      if t < start {
        if next.None? || next.value.0 > start {
          next := Some((start, tr.duration.value));
          at := i;
        }
      }
    }
    assert ranges[..|ranges|] == ranges;
  }

  function Least(a: int, b: int): int
  {
    if a < b then a else b
  }

  datatype Verdict = Malformed | Inside | Past | Wait(duration: int)

  /** sanityCheckTimeRange; subtracting times saturates. */
  method SanityCheckTimeRange(window: Option<seq<TimeRange>>, now: int) returns (v: Verdict)
    ensures v == Malformed <==> window.None? || window.value == [] || exists k :: 0 <= k < |window.value| && !IsValid(window.value[k])
    ensures v == Inside <==> v != Malformed && Open(window.value, now)
    ensures v == Past <==> v != Malformed && !Open(window.value, now) && forall k :: 0 <= k < |window.value| ==> !StartsAfter(window.value[k], now)
    ensures v == Past ==> forall t :: t >= now ==> !Open(window.value, t)
    ensures v.Wait? ==> window.Some? && 0 < v.duration <= MAX_INT64 && forall t :: now <= t < now + v.duration ==> !Open(window.value, t)
    ensures v.Wait? ==>
              exists k :: IsNext(window.value, now, k) && v.duration == Least(Start(window.value[k]) - now, MAX_INT64)
  {
    var valid := HasValidTimeRanges(window);
    if !valid {
      return Malformed;
    }
    var ranges := window.value;
    var inside := InRange(ranges, now);
    if inside {
      return Inside;
    }
    var next := NextWindow(ranges, now);
    if next.None? {
      NothingLeft(ranges, now);
      return Past;
    }
    ghost var k :| IsNext(ranges, now, k) && next.value == (Start(ranges[k]), ranges[k].duration.value);
    ClosedUntilNext(ranges, now, k);
    var wait := next.value.0 - now;
    v := Wait(if wait > MAX_INT64 then MAX_INT64 else wait);
  }

  /** With no range still to start, no window ever opens again. */
  lemma NothingLeft(ranges: seq<TimeRange>, now: int)
    requires !Open(ranges, now) && forall j :: 0 <= j < |ranges| ==> !StartsAfter(ranges[j], now)
    ensures forall t :: t >= now ==> !Open(ranges, t)
  {
    forall t | t >= now
      ensures !Open(ranges, t)
    {
      assert forall j :: 0 <= j < |ranges| ==> !Contains(ranges[j], now) && !StartsAfter(ranges[j], now);
    }
  }

  /** From an instant outside all windows, none is open before the next start. */
  lemma ClosedUntilNext(ranges: seq<TimeRange>, now: int, k: int)
    requires !Open(ranges, now) && IsNext(ranges, now, k)
    ensures forall t :: now <= t < Start(ranges[k]) ==> !Open(ranges, t)
  {
    forall t | now <= t < Start(ranges[k])
      ensures !Open(ranges, t)
    {
      assert forall j :: 0 <= j < |ranges| ==> !Contains(ranges[j], now);
      assert forall j :: 0 <= j < |ranges| && StartsAfter(ranges[j], now) ==> t < Start(ranges[j]);
    }
  }

  /**
   The next start is the earliest future instant inside a window exactly when some range that starts
   then has a positive duration.
   */
  lemma WaitIsExactIff(ranges: seq<TimeRange>, now: int, k: int)
    requires !Open(ranges, now) && IsNext(ranges, now, k)
    ensures var s := Start(ranges[k]);
            (Open(ranges, s) && forall t :: now <= t && Open(ranges, t) ==> s <= t) <==>
            (exists j :: 0 <= j < |ranges| && IsValid(ranges[j]) && Start(ranges[j]) == s && ranges[j].duration.value > 0)
  {
    var s := Start(ranges[k]);
    ClosedUntilNext(ranges, now, k);
    if Open(ranges, s) {
      var j :| 0 <= j < |ranges| && Contains(ranges[j], s);
      assert !Contains(ranges[j], now);
      assert StartsAfter(ranges[j], now);
    }
    if j :| 0 <= j < |ranges| && IsValid(ranges[j]) && Start(ranges[j]) == s && ranges[j].duration.value > 0 {
      assert Contains(ranges[j], s);
    }
  }

  /** A window without extent makes the controller wake up and find nothing open. */
  lemma EmptyWindowWakesEarly()
    ensures var ranges := [TimeRange(Some(10 * SECOND), Some(0)), TimeRange(Some(20 * SECOND), Some(SECOND))];
            IsNext(ranges, 0, 0) && !Open(ranges, Start(ranges[0])) && Open(ranges, 20 * SECOND)
  {
    var ranges := [TimeRange(Some(10 * SECOND), Some(0)), TimeRange(Some(20 * SECOND), Some(SECOND))];
    assert Contains(ranges[1], 20 * SECOND);
  }
}
