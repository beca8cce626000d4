/**
 The recovery windows that a point-in-time object advertises
 (oracle/controllers/pitrcontroller/pitr_controller.go). Instants are whole seconds.
 */
module RecoveryWindows {
  import opened Common
  import opened Sorting
  import opened RestorePoint

  /** A range of archived logs, as the agent reports it. */
  datatype Range = Range(start: int, end: int, endScn: string)

  datatype TimeWindow = TimeWindow(begin: int, end: int)

  /** `begin` is the backup's annotation, None when it is absent or cannot be parsed. */
  datatype ScnWindow = ScnWindow(begin: Option<int64>, end: string)

  /** The times of the succeeded backups. */
  ghost function Times(backups: seq<Backup>): set<int>
  {
    set b | b in backups && b.succeeded && b.stamp.Some? :: b.stamp.value
  }

  /** The table maps each time of a succeeded backup to one that was taken then. */
  ghost predicate Tabulates(table: map<int, Backup>, backups: seq<Backup>)
  {
    && table.Keys == Times(backups)
    && forall t :: t in table ==> table[t] in backups && table[t].succeeded && table[t].stamp == Some(t)
  }

  method Tabulate(backups: seq<Backup>) returns (table: map<int, Backup>)
    ensures Tabulates(table, backups)
  {
    table := map[];
    for i := 0 to |backups|
      invariant Tabulates(table, backups[..i])
    {
      var b := backups[i];
      TimesGrow(backups, i);
      if b.succeeded && b.stamp.Some? {
        table := table[b.stamp.value := b];
      }
    }
    assert backups[..|backups|] == backups;
  }

  lemma TimesGrow(backups: seq<Backup>, i: nat)
    requires i < |backups|
    ensures var b := backups[i];
            Times(backups[..i + 1]) == Times(backups[..i]) + if b.succeeded && b.stamp.Some? then {b.stamp.value} else {}
    ensures backups[i] in backups[..i + 1] && forall b :: b in backups[..i] ==> b in backups[..i + 1]
  {
    assert backups[..i + 1] == backups[..i] + [backups[i]];
  }

  /** The keys of a map come in any order; they are sorted. */
  method SortedKeys(table: map<int, Backup>) returns (keys: seq<int>)
    ensures StrictlyIncreasing(keys) && forall x :: x in keys <==> x in table
  {
    var unsorted := [];
    var todo := table.Keys;
    while todo != {}
      invariant todo <= table.Keys
      invariant NoRepeats(unsorted) && forall x :: x in unsorted <==> x in table && x !in todo
      decreases |todo|
    {
      ghost var _ := Pick(todo);
      var k :| k in todo;
      unsorted := unsorted + [k];
      todo := todo - {k};
    }
    keys := Sort((a: int, b: int) => a < b, unsorted);
    SameMembers(unsorted, keys);
    NoRepeatsAfterSorting(unsorted, keys);
  }

  /** sort.Search: the first index whose key is at least the start. */
  method Search(keys: seq<int>, start: int) returns (i: nat)
    requires StrictlyIncreasing(keys)
    ensures i <= |keys| && (forall k :: 0 <= k < i ==> keys[k] < start) && (forall k :: i <= k < |keys| ==> start <= keys[k])
  {
    i := 0;
    var j := |keys|;
    while i < j
      invariant 0 <= i <= j <= |keys|
      invariant forall k :: 0 <= k < i ==> keys[k] < start
      invariant forall k :: j <= k < |keys| ==> start <= keys[k]
      decreases j - i
    {
      var h := (i + j) / 2;
      if start <= keys[h] {
        j := h;
      } else {
        i := h + 1;
      }
    }
  }

  /** The earliest of the times that are not before the range starts, if the range has not ended by then. */
  ghost predicate First(times: set<int>, r: Range, t: int)
  {
    t in times && r.start <= t <= r.end && forall x :: x in times && r.start <= x ==> t <= x
  }

  ghost predicate Opens(times: set<int>, r: Range)
  {
    exists t :: t in times && r.start <= t <= r.end
  }

  /** The window belongs to the range: it begins at a backup, the first one in the range. */
  ghost predicate IsWindow(backups: seq<Backup>, r: Range, w: TimeWindow, s: ScnWindow)
  {
    && First(Times(backups), r, w.begin) && w.end == r.end && s.end == r.endScn
    && exists b :: b in backups && b.succeeded && b.stamp == Some(w.begin) && s.begin == b.scn
  }

  /** The ranges that open, in order. */
  ghost function Opened(times: set<int>, ranges: seq<Range>): seq<Range>
  {
    if ranges == [] then []
    else
      var front, last := Opened(times, ranges[..|ranges| - 1]), ranges[|ranges| - 1];
      if Opens(times, last) then front + [last] else front
  }

  lemma {:induction false} OpenedHolds(times: set<int>, ranges: seq<Range>)
    ensures forall r :: r in Opened(times, ranges) <==> r in ranges && Opens(times, r)
  {
    if ranges != [] {
      OpenedHolds(times, ranges[..|ranges| - 1]);
      assert ranges == ranges[..|ranges| - 1] + [ranges[|ranges| - 1]];
    }
  }

  /** One window for each range that opens, in the order of the ranges, and none for the others. */
  ghost predicate Advertises(backups: seq<Backup>, ranges: seq<Range>, windows: seq<TimeWindow>, scns: seq<ScnWindow>)
  {
    var open := Opened(Times(backups), ranges);
    && |windows| == |scns| == |open|
    && forall k :: 0 <= k < |open| ==> IsWindow(backups, open[k], windows[k], scns[k])
  }

  /** The body of the loop over the ranges. */
  method OpenWindow(ghost backups: seq<Backup>, table: map<int, Backup>, keys: seq<int>, r: Range)
    returns (w: Option<(TimeWindow, ScnWindow)>)
    requires Tabulates(table, backups) && StrictlyIncreasing(keys) && forall x :: x in keys <==> x in table
    ensures w.Some? <==> Opens(Times(backups), r)
    ensures w.Some? ==> IsWindow(backups, r, w.value.0, w.value.1)
  {
    var first := Search(keys, r.start);
    assert forall x :: x in Times(backups) <==> x in keys;
    assert forall k :: 0 <= k < |keys| ==> keys[k] in keys;
    assert forall x :: x in keys && r.start <= x ==> exists k :: first <= k < |keys| && keys[k] == x;
    if first >= |keys| || keys[first] > r.end {
      return None;
    }
    var t := keys[first];
    w := Some((TimeWindow(t, r.end), ScnWindow(table[t].scn, r.endScn)));
  }

  method OpenWindows(ghost backups: seq<Backup>, table: map<int, Backup>, keys: seq<int>, ranges: seq<Range>)
    returns (times: seq<TimeWindow>, scns: seq<ScnWindow>)
    requires Tabulates(table, backups) && StrictlyIncreasing(keys) && forall x :: x in keys <==> x in table
    ensures Advertises(backups, ranges, times, scns)
  {
    times, scns := [], [];
    for i := 0 to |ranges|
      invariant Advertises(backups, ranges[..i], times, scns)
    {
      assert ranges[..i + 1][..i] == ranges[..i];
      var w := OpenWindow(backups, table, keys, ranges[i]);
      if w.Some? {
        times, scns := times + [w.value.0], scns + [w.value.1];
      }
    }
    assert ranges[..|ranges|] == ranges;
  }

  class Pitr {
    const name: string
    var windows: seq<TimeWindow>
    var scnWindows: seq<ScnWindow>
    var incarnation: string
    var ready: bool

    constructor (name: string)
      ensures this.name == name && windows == [] && scnWindows == [] && incarnation == "" && !ready
    {
      this.name := name;
      windows, scnWindows, incarnation, ready := [], [], "", false;
    }

    /** updateStatus; `ranges` is None when the agent cannot be reached. */
    method UpdateStatus(all: seq<Backup>, listed: bool, ranges: Option<seq<Range>>, instIncarnation: string, arrives: bool) returns (ok: bool)
      modifies this
      ensures ok <==> listed && ranges.Some? && arrives
      ensures if !listed || ranges.None? then unchanged(this)
              else
                && Advertises(Labelled(all, name, instIncarnation), ranges.value, windows, scnWindows)
                && incarnation == instIncarnation
                && ready == (old(ready) || windows != [])
    {
      if !listed || ranges.None? {
        return false;
      }
      var backups := Labelled(all, name, instIncarnation);
      var table := Tabulate(backups);
      var keys := SortedKeys(table);
      var times, scns := OpenWindows(backups, table, keys, ranges.value);
      windows, scnWindows, incarnation := times, scns, instIncarnation;
      if |times| > 0 && |scns| > 0 {
        ready := true;
      }
      ok := arrives;
    }
  }

  /** An advertised window begins at a succeeded backup, the first one in one of the agent's ranges. */
  lemma WindowBelongs(backups: seq<Backup>, ranges: seq<Range>, windows: seq<TimeWindow>, scns: seq<ScnWindow>, k: nat)
    returns (r: Range, b: Backup)
    requires Advertises(backups, ranges, windows, scns) && k < |windows|
    ensures r in ranges && First(Times(backups), r, windows[k].begin) && windows[k].end == r.end
    ensures b in backups && b.succeeded && b.stamp == Some(windows[k].begin) && scns[k].begin == b.scn
  {
    var open := Opened(Times(backups), ranges);
    OpenedHolds(Times(backups), ranges);
    r := open[k];
    assert r in open && IsWindow(backups, r, windows[k], scns[k]);
    b :| b in backups && b.succeeded && b.stamp == Some(windows[k].begin) && scns[k].begin == b.scn;
  }

  /** Every range with a succeeded backup in it is advertised. */
  lemma OpenRangeIsAdvertised(backups: seq<Backup>, ranges: seq<Range>, windows: seq<TimeWindow>, scns: seq<ScnWindow>, r: Range, b: Backup)
    requires Advertises(backups, ranges, windows, scns) && r in ranges
    requires b in backups && b.succeeded && b.stamp.Some? && r.start <= b.stamp.value <= r.end
    ensures exists k :: 0 <= k < |windows| && r.start <= windows[k].begin <= b.stamp.value && windows[k].end == r.end
  {
    var open := Opened(Times(backups), ranges);
    OpenedHolds(Times(backups), ranges);
    assert b.stamp.value in Times(backups);
    assert r in open;
    var k :| 0 <= k < |open| && open[k] == r;
    assert IsWindow(backups, r, windows[k], scns[k]);
  }

  /** The incarnation that was advertised is the one the restore looks in: by reference to the object, or as the instance's own. */
  ghost predicate SameIncarnation(spec: RestoreSpec, incarnation: string, pitrIncarnation: string, instIncarnation: string)
  {
    spec.incarnation.None? && (if spec.refersToPitr then pitrIncarnation == incarnation else instIncarnation == incarnation)
  }

  /**
   Advertised means restorable: for every target in a published window, the restore over the same backups returns the
   latest ready backup not after the target, and never one before the window begins. With a reference to the object it
   does not matter which incarnation the instance is in by then.
   */
  lemma AdvertisedIsRestorable(all: seq<Backup>, pitr: string, incarnation: string, ranges: seq<Range>, windows: seq<TimeWindow>, scns: seq<ScnWindow>,
                               k: nat, t: int, refers: bool, pitrIncarnation: string, instIncarnation: string, r: Result)
    requires Advertises(Labelled(all, pitr, incarnation), ranges, windows, scns) && k < |windows|
    requires windows[k].begin <= t <= windows[k].end && (t - windows[k].begin) * SECOND < MAX_INT64
    requires forall b :: b in all && b.succeeded ==> b.ready
    requires var spec := RestoreSpec(None, Some(t), None, refers);
             && SameIncarnation(spec, incarnation, pitrIncarnation, instIncarnation)
             && Outcome(all, spec, pitr, ChosenIncarnation(spec, pitrIncarnation, instIncarnation), (false, false), r)
    ensures r.Ok? && r.backup.incarnation == incarnation && r.backup.pitr == pitr
    ensures r.backup.stamp.Some? && windows[k].begin <= r.backup.stamp.value <= t
    ensures Latest(ByTime(t), Labelled(all, pitr, incarnation), Some(r.backup))
  {
    var own, spec := Labelled(all, pitr, incarnation), RestoreSpec(None, Some(t), None, refers);
    UnnamedIncarnationDecides(all, spec, pitr, pitrIncarnation, instIncarnation, (false, false), r);
    var _, b := WindowBelongs(own, ranges, windows, scns, k);
    OwnSearchReaches(all, pitr, incarnation, spec, ByTime(t), b, r);
  }

  /** A usable backup at a fitting distance in the incarnation that is looked in makes the restore succeed from there. */
  lemma OwnSearchReaches(all: seq<Backup>, pitr: string, incarnation: string, spec: RestoreSpec, target: Target, anchor: Backup, r: Result)
    requires TargetOf(spec) == Some(target) && !(spec.scn.Some? && spec.timestamp.Some?)
    requires Outcome(all, spec, pitr, incarnation, (false, false), r)
    requires anchor in Labelled(all, pitr, incarnation) && Fits(target, anchor) && Usable(target, anchor)
    ensures r.Ok? && r.backup in Labelled(all, pitr, incarnation) && Usable(target, r.backup)
    ensures Point(target, anchor).value <= Point(target, r.backup).value
    ensures Latest(target, Labelled(all, pitr, incarnation), Some(r.backup))
  {
    var own := Labelled(all, pitr, incarnation);
    if r.Ok? && FoundIn(own, spec, r) {
      SearchReaches(target, own, anchor, Some(r.backup));
    } else {
      var e: Error :| FoundIn(own, spec, Err(e));
      SearchReaches(target, own, anchor, None);
    }
  }

  /** The same for system change numbers, for windows whose first backup has a readable one. */
  lemma AdvertisedScnIsRestorable(all: seq<Backup>, pitr: string, incarnation: string, ranges: seq<Range>, windows: seq<TimeWindow>, scns: seq<ScnWindow>,
                                  k: nat, n: int64, refers: bool, pitrIncarnation: string, instIncarnation: string, r: Result)
    requires Advertises(Labelled(all, pitr, incarnation), ranges, windows, scns) && k < |scns|
    requires scns[k].begin.Some? && scns[k].begin.value <= n && n - scns[k].begin.value < MAX_INT64
    requires forall b :: b in all && b.succeeded ==> b.ready
    requires var spec := RestoreSpec(Some(Readable(n)), None, None, refers);
             && SameIncarnation(spec, incarnation, pitrIncarnation, instIncarnation)
             && Outcome(all, spec, pitr, ChosenIncarnation(spec, pitrIncarnation, instIncarnation), (false, false), r)
    ensures r.Ok? && r.backup.incarnation == incarnation && r.backup.pitr == pitr
    ensures r.backup.scn.Some? && scns[k].begin.value <= r.backup.scn.value <= n
    ensures Latest(ByScn(n), Labelled(all, pitr, incarnation), Some(r.backup))
  {
    var own, spec := Labelled(all, pitr, incarnation), RestoreSpec(Some(Readable(n)), None, None, refers);
    UnnamedIncarnationDecides(all, spec, pitr, pitrIncarnation, instIncarnation, (false, false), r);
    var _, b := WindowBelongs(own, ranges, windows, scns, k);
    OwnSearchReaches(all, pitr, incarnation, spec, ByScn(n), b, r);
  }
}
