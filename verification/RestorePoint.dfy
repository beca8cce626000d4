/**
 The backup that a point-in-time restore starts from
 (oracle/controllers/instancecontroller/instance_controller_restore_pitr.go). Annotations are whole
 seconds and 64-bit system change numbers; distances between times are nanoseconds.
 */
module RestorePoint {
  import opened Common

  const MIN_INT64 := -0x8000_0000_0000_0000

  type int64 = x: int | MIN_INT64 <= x <= MAX_INT64 witness 0

  /** `stamp` and `scn` are None when the annotation is absent or cannot be parsed. */
  datatype Backup = Backup(
    name: string,
    pitr: string,
    incarnation: string,
    parent: string,
    succeeded: bool,
    ready: bool,
    stamp: Option<int>,
    scn: Option<int64>)

  datatype Target = ByTime(time: int) | ByScn(scn: int64)

  /** time.Time.Sub, which saturates. */
  function Sub(a: int, b: int): (d: int64)
  {
    var d := (a - b) * SECOND;
    if d > MAX_INT64 then MAX_INT64 else if d < MIN_INT64 then MIN_INT64 else d
  }

  /** The subtraction of two int64, which wraps around. */
  function Minus(a: int64, b: int64): (d: int64)
  {
    if a - b > MAX_INT64 then a - b - 0x1_0000_0000_0000_0000
    else if a - b < MIN_INT64 then a - b + 0x1_0000_0000_0000_0000
    else a - b
  }

  /** How far before the target the backup was taken, as the searches compute it. */
  function Distance(target: Target, b: Backup): Option<int64>
  {
    if !b.ready then None
    else match target
      case ByTime(t) => if b.stamp.Some? then Some(Sub(t, b.stamp.value)) else None
      case ByScn(n) => if b.scn.Some? then Some(Minus(n, b.scn.value)) else None
  }

  predicate Eligible(target: Target, b: Backup)
  {
    var d := Distance(target, b);
    d.Some? && 0 <= d.value < MAX_INT64
  }

  /** The first of the eligible backups at the least distance. */
  ghost predicate IsClosest(target: Target, backups: seq<Backup>, i: int)
  {
    && 0 <= i < |backups| && Eligible(target, backups[i])
    && (forall j :: 0 <= j < |backups| && Eligible(target, backups[j]) ==>
          && Distance(target, backups[i]).value <= Distance(target, backups[j]).value
          && (j < i ==> Distance(target, backups[i]).value < Distance(target, backups[j]).value))
  }

  ghost predicate Found(target: Target, backups: seq<Backup>, r: Option<Backup>)
  {
    if r.None? then forall j :: 0 <= j < |backups| ==> !Eligible(target, backups[j])
    else exists i :: IsClosest(target, backups, i) && r.value == backups[i]
  }

  /** findPITRBackupBasedonTimestamp. */
  method FindByTimestamp(backups: seq<Backup>, target: int) returns (r: Option<Backup>)
    ensures Found(ByTime(target), backups, r)
  {
    r := None;
    var best := MAX_INT64;
    ghost var at := 0;
    for k := 0 to |backups|
      invariant r.None? ==> best == MAX_INT64 && forall j :: 0 <= j < k ==> !Eligible(ByTime(target), backups[j])
      invariant r.Some? ==> at < k && IsClosest(ByTime(target), backups[..k], at) && r.value == backups[at]
                            && best == Distance(ByTime(target), backups[at]).value
    {
      var b := backups[k];
      if !b.ready || b.stamp.None? {
        continue;
      }
      var distance := Sub(target, b.stamp.value);
      if 0 <= distance < best {
        best := distance;
        r := Some(b);
        at := k;
      }
    }
    assert backups[..|backups|] == backups;
  }

  /** findPITRBackupBasedonSCN. */
  method FindByScn(backups: seq<Backup>, target: int64) returns (r: Option<Backup>)
    ensures Found(ByScn(target), backups, r)
  {
    r := None;
    var best := MAX_INT64;
    ghost var at := 0;
    for k := 0 to |backups|
      invariant r.None? ==> best == MAX_INT64 && forall j :: 0 <= j < k ==> !Eligible(ByScn(target), backups[j])
      invariant r.Some? ==> at < k && IsClosest(ByScn(target), backups[..k], at) && r.value == backups[at]
                            && best == Distance(ByScn(target), backups[at]).value
    {
      var b := backups[k];
      if !b.ready || b.scn.None? {
        continue;
      }
      var distance := Minus(target, b.scn.value);
      if 0 <= distance < best {
        best := distance;
        r := Some(b);
        at := k;
      }
    }
    assert backups[..|backups|] == backups;
  }

  // ---- What the searches are for ----

  /** The point a backup can be rolled forward from, on the target's axis. */
  function Point(target: Target, b: Backup): Option<int>
  {
    if !b.ready then None
    else if target.ByTime? then b.stamp
    else if b.scn.Some? then Some(b.scn.value) else None
  }

  function Aim(target: Target): int
  {
    if target.ByTime? then target.time else target.scn
  }

  /** The backup is ready and was taken at or before the target. */
  predicate Usable(target: Target, b: Backup)
  {
    Point(target, b).Some? && Point(target, b).value <= Aim(target)
  }

  /** The latest usable backup, or None if there is none. */
  ghost predicate Latest(target: Target, backups: seq<Backup>, r: Option<Backup>)
  {
    if r.None? then forall b :: b in backups ==> !Usable(target, b)
    else
      && r.value in backups && Usable(target, r.value)
      && forall b :: b in backups && Usable(target, b) ==> Point(target, b).value <= Point(target, r.value).value
  }

  /** The distance the search computes is not distorted by saturation or wrap-around. */
  predicate Fits(target: Target, b: Backup)
  {
    Point(target, b).Some? ==>
      var d := Aim(target) - Point(target, b).value;
      if target.ByTime? then d * SECOND < MAX_INT64 else MIN_INT64 - 1 <= d < MAX_INT64
  }

  /** A single backup is judged rightly exactly when its distance fits. */
  lemma JudgedRightlyIff(target: Target, b: Backup)
    ensures (Eligible(target, b) <==> Usable(target, b)) <==> Fits(target, b)
  {
  }

  lemma DistanceIsTrue(target: Target, b: Backup)
    requires Fits(target, b) && Usable(target, b)
    ensures Eligible(target, b)
    ensures Distance(target, b).value == (Aim(target) - Point(target, b).value) * if target.ByTime? then SECOND else 1
  {
  }

  /** A misfit loses to every backup that fits and is usable: it is out of reach, or seems farther away. */
  lemma FittingBeatsMisfit(target: Target, b: Backup, c: Backup)
    requires Fits(target, b) && Usable(target, b) && !Fits(target, c)
    ensures Eligible(target, c) ==> Distance(target, b).value < Distance(target, c).value
    ensures Usable(target, c) ==> Point(target, c).value < Point(target, b).value
  {
  }

  /** If anything does not fit, then something usable does. */
  ghost predicate Searchable(target: Target, backups: seq<Backup>)
  {
    (exists b :: b in backups && !Fits(target, b)) ==> exists b :: b in backups && Fits(target, b) && Usable(target, b)
  }

  /** What a search returns is eligible and no farther away than any other. */
  lemma FoundIsNearest(target: Target, backups: seq<Backup>, r: Option<Backup>, b: Backup)
    requires Found(target, backups, r) && b in backups
    ensures r.None? ==> !Eligible(target, b)
    ensures r.Some? ==> r.value in backups && Eligible(target, r.value)
    ensures r.Some? && Eligible(target, b) ==> Distance(target, r.value).value <= Distance(target, b).value
  {
    var j :| 0 <= j < |backups| && backups[j] == b;
    if r.Some? {
      var i :| IsClosest(target, backups, i) && r.value == backups[i];
    }
  }

  /** A fitting usable backup anywhere in the list makes the search right, and at least as late as that one. */
  lemma SearchReaches(target: Target, backups: seq<Backup>, anchor: Backup, r: Option<Backup>)
    requires anchor in backups && Fits(target, anchor) && Usable(target, anchor) && Found(target, backups, r)
    ensures r.Some? && Usable(target, r.value) && Point(target, anchor).value <= Point(target, r.value).value
    ensures Latest(target, backups, r)
  {
    DistanceIsTrue(target, anchor);
    FoundIsNearest(target, backups, r, anchor);
    var x := r.value;
    assert Fits(target, x) by {
      if !Fits(target, x) {
        FittingBeatsMisfit(target, anchor, x);
      }
    }
    JudgedRightlyIff(target, x);
    DistanceIsTrue(target, x);
    forall b | b in backups && Usable(target, b)
      ensures Point(target, b).value <= Point(target, x).value
    {
      FoundIsNearest(target, backups, r, b);
      if Fits(target, b) {
        DistanceIsTrue(target, b);
      } else {
        FittingBeatsMisfit(target, x, b);
      }
    }
  }

  /** The only misfits in sight are then usable and out of reach, or wrapped around and not usable. */
  lemma MisfitMisleads(target: Target, backups: seq<Backup>, c: Backup, r: Option<Backup>)
    requires c in backups && !Fits(target, c) && Found(target, backups, r)
    requires forall b :: b in backups ==> !(Fits(target, b) && Usable(target, b))
    ensures !Latest(target, backups, r)
  {
    JudgedRightlyIff(target, c);
    FoundIsNearest(target, backups, r, c);
    if r.Some? {
      JudgedRightlyIff(target, r.value);
    }
  }

  lemma FittingListIsSearchedRightly(target: Target, backups: seq<Backup>, r: Option<Backup>)
    requires Found(target, backups, r)
    requires forall b :: b in backups ==> Fits(target, b) && !Usable(target, b)
    ensures Latest(target, backups, r)
  {
    forall j | 0 <= j < |backups|
      ensures !Eligible(target, backups[j])
    {
      assert backups[j] in backups;
      JudgedRightlyIff(target, backups[j]);
    }
  }

  /**
   The search finds the latest ready backup not after the target, or none if there is none, exactly if
   the list is searchable: no backup in it has a distance that does not fit, or some usable one does fit.
   */
  lemma SearchRightIff(target: Target, backups: seq<Backup>, r: Option<Backup>)
    requires Found(target, backups, r)
    ensures Latest(target, backups, r) <==> Searchable(target, backups)
  {
    if b :| b in backups && Fits(target, b) && Usable(target, b) {
      SearchReaches(target, backups, b, r);
    } else if c :| c in backups && !Fits(target, c) {
      MisfitMisleads(target, backups, c, r);
    } else {
      FittingListIsSearchedRightly(target, backups, r);
    }
  }

  /** System change numbers are not negative: then the only misfit is 0 seen from the greatest one. */
  lemma NaturalScnsFit(n: int64, b: Backup)
    requires n >= 0 && b.scn.Some? && b.scn.value >= 0
    ensures Fits(ByScn(n), b) <==> !(b.ready && n == MAX_INT64 && b.scn.value == 0)
  {
  }

  predicate ReadyAt(b: Backup, low: int)
  {
    b.ready && b.scn.Some? && b.scn.value >= low
  }

  /** So the search by a natural number goes wrong only if all it could use are backups at 0, seen from the greatest. */
  lemma NaturalScnSearchRightIff(n: int64, backups: seq<Backup>, r: Option<Backup>)
    requires n >= 0 && Found(ByScn(n), backups, r)
    requires forall b :: b in backups && b.scn.Some? ==> b.scn.value >= 0
    ensures Latest(ByScn(n), backups, r) <==>
            (n == MAX_INT64 && (exists b :: b in backups && ReadyAt(b, 0)) ==> exists b :: b in backups && ReadyAt(b, 1))
  {
    SearchRightIff(ByScn(n), backups, r);
    forall b | b in backups
      ensures !Fits(ByScn(n), b) <==> n == MAX_INT64 && ReadyAt(b, 0) && !ReadyAt(b, 1)
      ensures n == MAX_INT64 ==> (Fits(ByScn(n), b) && Usable(ByScn(n), b) <==> ReadyAt(b, 1))
    {
    }
  }

  /** One backup out of reach is enough to fail, and one in reach beside it is enough to succeed. */
  lemma MisfitMayOrMayNotHurt(t: int, far: Backup, recent: Backup, r: Option<Backup>, r': Option<Backup>)
    requires far.ready && far.stamp.Some? && (t - far.stamp.value) * SECOND >= MAX_INT64
    requires recent.ready && recent.stamp == Some(t)
    requires Found(ByTime(t), [far], r) && Found(ByTime(t), [far, recent], r')
    ensures r == None && !Latest(ByTime(t), [far], r)
    ensures r' == Some(recent) && Latest(ByTime(t), [far, recent], r')
  {
    MisfitMisleads(ByTime(t), [far], far, r);
    SearchReaches(ByTime(t), [far, recent], recent, r');
  }

  // ---- findPITRBackupForRestore ----

  datatype ScnText = Unreadable | Readable(scn: int64)

  /** Empty strings of the source are None here. */
  datatype RestoreSpec = RestoreSpec(scn: Option<ScnText>, timestamp: Option<int>, incarnation: Option<string>, refersToPitr: bool)

  datatype Error = NoTarget | TwoTargets | ListFailed | NoBackups | BadScn | NothingSuitable

  datatype Result = Ok(backup: Backup) | Err(error: Error)

  /** Listing by the labels of the point-in-time object and the incarnation, in the order of the list. */
  function Labelled(all: seq<Backup>, pitr: string, incarnation: string): (l: seq<Backup>)
    ensures forall b :: b in l <==> b in all && b.pitr == pitr && b.incarnation == incarnation
  {
    if all == [] then []
    else
      var rest := Labelled(all[1..], pitr, incarnation);
      if all[0].pitr == pitr && all[0].incarnation == incarnation then [all[0]] + rest else rest
  }

  function TargetOf(spec: RestoreSpec): Option<Target>
  {
    if spec.timestamp.Some? then Some(ByTime(spec.timestamp.value))
    else if spec.scn.Some? && spec.scn.value.Readable? then Some(ByScn(spec.scn.value.scn))
    else None
  }

  /** findPITRBackup over one list of backups. */
  ghost predicate FoundIn(backups: seq<Backup>, spec: RestoreSpec, r: Result)
  {
    if backups == [] then r == Err(NoBackups)
    else
      var target := TargetOf(spec);
      if target.None? then r == Err(BadScn)
      else match r
        case Ok(b) => Found(target.value, backups, Some(b))
        case Err(e) => e == NothingSuitable && Found(target.value, backups, None)
  }

  method FindIn(backups: seq<Backup>, spec: RestoreSpec) returns (r: Result)
    requires spec.timestamp.Some? || spec.scn.Some?
    ensures FoundIn(backups, spec, r)
  {
    if |backups| == 0 {
      return Err(NoBackups);
    }
    var b;
    if spec.timestamp.Some? {
      b := FindByTimestamp(backups, spec.timestamp.value);
    } else {
      if spec.scn.value.Unreadable? {
        return Err(BadScn);
      }
      b := FindByScn(backups, spec.scn.value.scn);
    }
    r := if b.Some? then Ok(b.value) else Err(NothingSuitable);
  }

  function ChosenIncarnation(spec: RestoreSpec, pitrIncarnation: string, instIncarnation: string): string
  {
    if spec.incarnation.Some? then spec.incarnation.value
    else if spec.refersToPitr then pitrIncarnation
    else instIncarnation
  }

  /** The search in the chosen incarnation, and in its parent only if the first finds nothing. */
  ghost predicate Outcome(all: seq<Backup>, spec: RestoreSpec, pitr: string, incarnation: string, listsFail: (bool, bool), r: Result)
  {
    if spec.scn.None? && spec.timestamp.None? then r == Err(NoTarget)
    else if spec.scn.Some? && spec.timestamp.Some? then r == Err(TwoTargets)
    else if listsFail.0 then r == Err(ListFailed)
    else
      var own := Labelled(all, pitr, incarnation);
      if own == [] then r == Err(NoBackups)
      else if r.Ok? && FoundIn(own, spec, r) then true
      else
        && (exists e: Error :: FoundIn(own, spec, Err(e)))
        && if listsFail.1 then r == Err(ListFailed) else FoundIn(Labelled(all, pitr, own[0].parent), spec, r)
  }

  /** findPITRBackupForRestore; the point-in-time object is an input, `listsFail` says which lists fail. */
  method FindForRestore(all: seq<Backup>, spec: RestoreSpec, pitr: string, pitrIncarnation: string, instIncarnation: string, listsFail: (bool, bool))
    returns (r: Result)
    ensures Outcome(all, spec, pitr, ChosenIncarnation(spec, pitrIncarnation, instIncarnation), listsFail, r)
  {
    if spec.scn.None? && spec.timestamp.None? {
      return Err(NoTarget);
    }
    if spec.scn.Some? && spec.timestamp.Some? {
      return Err(TwoTargets);
    }
    var inc := instIncarnation;
    if spec.incarnation.Some? {
      inc := spec.incarnation.value;
    } else if spec.refersToPitr {
      inc := pitrIncarnation;
    }
    if listsFail.0 {
      return Err(ListFailed);
    }
    var backups := Labelled(all, pitr, inc);
    if |backups| == 0 {
      return Err(NoBackups);
    }
    r := FindIn(backups, spec);
    if r.Ok? {
      return;
    }
    var parent := backups[0].parent;
    if listsFail.1 {
      return Err(ListFailed);
    }
    backups := Labelled(all, pitr, parent);
    r := FindIn(backups, spec);
  }

  /** What the errors say. */
  lemma ErrorsMean(all: seq<Backup>, spec: RestoreSpec, pitr: string, incarnation: string, listsFail: (bool, bool), r: Result)
    requires Outcome(all, spec, pitr, incarnation, listsFail, r)
    ensures r == Err(NoTarget) <==> spec.scn.None? && spec.timestamp.None?
    ensures r == Err(TwoTargets) <==> spec.scn.Some? && spec.timestamp.Some?
    ensures r == Err(ListFailed) ==> listsFail.0 || listsFail.1
    ensures r == Err(BadScn) ==> spec.timestamp.None? && spec.scn == Some(Unreadable)
    ensures r == Err(NothingSuitable) ==>
              TargetOf(spec).Some? && forall b :: b in Labelled(all, pitr, incarnation) ==> !Eligible(TargetOf(spec).value, b)
  {
    var own := Labelled(all, pitr, incarnation);
    if r == Err(NothingSuitable) {
      assert forall b :: b in own ==> exists j :: 0 <= j < |own| && own[j] == b;
    }
  }

  /** An incarnation that the request names decides, whatever the point-in-time object and the instance say. */
  lemma NamedIncarnationDecides(all: seq<Backup>, spec: RestoreSpec, pitr: string, p: string, i: string, listsFail: (bool, bool), r: Result)
    requires spec.incarnation.Some?
    ensures Outcome(all, spec, pitr, ChosenIncarnation(spec, p, i), listsFail, r) <==>
            Outcome(all, spec, pitr, spec.incarnation.value, listsFail, r)
  {
  }

  /** Without a name, a reference makes that of the point-in-time object decide, and without a reference that of the instance. */
  lemma UnnamedIncarnationDecides(all: seq<Backup>, spec: RestoreSpec, pitr: string, p: string, i: string, listsFail: (bool, bool), r: Result)
    requires spec.incarnation.None?
    ensures Outcome(all, spec, pitr, ChosenIncarnation(spec, p, i), listsFail, r) <==>
            Outcome(all, spec, pitr, if spec.refersToPitr then p else i, listsFail, r)
  {
  }

  /**
   What a restore may rely on: whatever is returned belongs to the point-in-time object and is usable;
   it is the latest of its own incarnation; and it comes from the parent incarnation only when the
   chosen one has nothing usable.
   */
  lemma RestoreStartsFromLatest(all: seq<Backup>, spec: RestoreSpec, pitr: string, incarnation: string, listsFail: (bool, bool), b: Backup)
    requires Outcome(all, spec, pitr, incarnation, listsFail, Ok(b))
    requires forall target, inc :: TargetOf(spec) == Some(target) ==> Searchable(target, Labelled(all, pitr, inc))
    ensures TargetOf(spec).Some? && b in all && b.pitr == pitr && Usable(TargetOf(spec).value, b)
    ensures Latest(TargetOf(spec).value, Labelled(all, pitr, b.incarnation), Some(b))
    ensures b.incarnation != incarnation ==>
              && (forall c :: c in all && c.pitr == pitr && c.incarnation == incarnation ==> !Usable(TargetOf(spec).value, c))
              && Labelled(all, pitr, incarnation) != [] && b.incarnation == Labelled(all, pitr, incarnation)[0].parent
  {
    var target := TargetOf(spec).value;
    var own := Labelled(all, pitr, incarnation);
    assert Searchable(target, own);
    if FoundIn(own, spec, Ok(b)) {
      SearchRightIff(target, own, Some(b));
    } else {
      var parents := Labelled(all, pitr, own[0].parent);
      assert Searchable(target, parents);
      SearchRightIff(target, own, None);
      SearchRightIff(target, parents, Some(b));
    }
  }
}
