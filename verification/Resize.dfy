/**
 Growing the disks of an instance (oracle/controllers/instancecontroller/utils.go): the claims of every
 replica are resized before the StatefulSet is deleted, to be created again with the new templates.
 */
module Resize {
  import opened Common

  /** A claim template. */
  datatype Disk = Disk(name: string, size: int)

  datatype Claim = Claim(request: int, capacity: int)

  /** The claim of a disk on a replica; its object name is made of both. */
  type Key = (string, int)

  datatype StatefulSet = StatefulSet(disks: seq<Disk>, deleting: bool)

  /** The size of the last disk of that name. */
  function SizeOf(disks: seq<Disk>, name: string): (s: Option<int>)
    ensures s.Some? ==> Disk(name, s.value) in disks
    ensures s.None? ==> forall d :: d in disks ==> d.name != name
  {
    if disks == [] then None
    else
      var front, last := disks[..|disks| - 1], disks[|disks| - 1];
      assert disks == front + [last];
      if last.name == name then Some(last.size) else SizeOf(front, name)
  }

  ghost predicate IsChanged(oldDisks: seq<Disk>, d: Disk)
  {
    var was := SizeOf(oldDisks, d.name);
    was.Some? && was.value != d.size
  }

  /** The disks of the new list that the old one has with another size, in order. */
  ghost function Changed(oldDisks: seq<Disk>, newDisks: seq<Disk>): (r: seq<Disk>)
    ensures forall d :: d in r <==> d in newDisks && IsChanged(oldDisks, d)
  {
    if newDisks == [] then []
    else
      var front, last := newDisks[..|newDisks| - 1], newDisks[|newDisks| - 1];
      assert newDisks == front + [last];
      if IsChanged(oldDisks, last) then Changed(oldDisks, front) + [last] else Changed(oldDisks, front)
  }

  /** FilterDiskWithSizeChanged. */
  method FilterDiskWithSizeChanged(oldDisks: seq<Disk>, newDisks: seq<Disk>) returns (changed: seq<Disk>)
    ensures changed == Changed(oldDisks, newDisks)
  {
    var sizes: map<string, int> := map[];
    for i := 0 to |oldDisks|
      invariant forall n :: (if n in sizes then Some(sizes[n]) else None) == SizeOf(oldDisks[..i], n)
    {
      assert oldDisks[..i + 1][..i] == oldDisks[..i];
      sizes := sizes[oldDisks[i].name := oldDisks[i].size];
    }
    assert oldDisks[..|oldDisks|] == oldDisks;
    changed := [];
    for i := 0 to |newDisks|
      invariant changed == Changed(oldDisks, newDisks[..i])
    {
      var d := newDisks[i];
      assert newDisks[..i + 1][..i] == newDisks[..i];
      assert SizeOf(oldDisks, d.name) == if d.name in sizes then Some(sizes[d.name]) else None;
      if d.name in sizes && sizes[d.name] != d.size {
        changed := changed + [d];
      }
    }
    assert newDisks[..|newDisks|] == newDisks;
  }

  // ---- One pass over the claims ----

  /** Requests the size of the disk for its claim on the replica. */
  function SetOne(claims: map<Key, Claim>, d: Disk, i: int): map<Key, Claim>
  {
    if (d.name, i) in claims then claims[(d.name, i) := claims[(d.name, i)].(request := d.size)] else claims
  }

  function SetRow(claims: map<Key, Claim>, disks: seq<Disk>, i: int): map<Key, Claim>
  {
    if disks == [] then claims else SetOne(SetRow(claims, disks[..|disks| - 1], i), disks[|disks| - 1], i)
  }

  function SetAll(claims: map<Key, Claim>, disks: seq<Disk>, n: int): map<Key, Claim>
  {
    if n <= 0 then claims else SetRow(SetAll(claims, disks, n - 1), disks, n - 1)
  }

  lemma {:induction false} SetRowAt(claims: map<Key, Claim>, disks: seq<Disk>, i: int)
    ensures var r := SetRow(claims, disks, i);
            && r.Keys == claims.Keys
            && forall k :: k in claims ==>
                 r[k] == if k.1 == i && SizeOf(disks, k.0).Some? then claims[k].(request := SizeOf(disks, k.0).value) else claims[k]
  {
    if disks != [] {
      SetRowAt(claims, disks[..|disks| - 1], i);
    }
  }

  /** Exactly the claims of these disks on these replicas request the new size; nothing else changes. */
  lemma {:induction false} SetAllAt(claims: map<Key, Claim>, disks: seq<Disk>, n: int)
    ensures var r := SetAll(claims, disks, n);
            && r.Keys == claims.Keys
            && forall k :: k in claims ==>
                 r[k] == if 0 <= k.1 < n && SizeOf(disks, k.0).Some? then claims[k].(request := SizeOf(disks, k.0).value) else claims[k]
    decreases n
  {
    if n > 0 {
      SetAllAt(claims, disks, n - 1);
      SetRowAt(SetAll(claims, disks, n - 1), disks, n - 1);
    }
  }

  ghost predicate Complete(claims: map<Key, Claim>, d: Disk, i: int)
  {
    (d.name, i) in claims && claims[(d.name, i)] == Claim(d.size, d.size)
  }

  ghost predicate RowComplete(claims: map<Key, Claim>, disks: seq<Disk>, i: int)
  {
    disks == [] || (RowComplete(claims, disks[..|disks| - 1], i) && Complete(claims, disks[|disks| - 1], i))
  }

  ghost predicate RowExists(claims: map<Key, Claim>, disks: seq<Disk>, i: int)
  {
    disks == [] || (RowExists(claims, disks[..|disks| - 1], i) && (disks[|disks| - 1].name, i) in claims)
  }

  /** Every claim of these disks on every replica has its request and its capacity at the new size. */
  ghost predicate AllComplete(claims: map<Key, Claim>, disks: seq<Disk>, n: int)
  {
    forall i, j :: 0 <= i < n && 0 <= j < |disks| ==> Complete(claims, disks[j], i)
  }

  /** All of these claims exist. */
  ghost predicate AllExist(claims: map<Key, Claim>, disks: seq<Disk>, n: int)
  {
    forall i, j :: 0 <= i < n && 0 <= j < |disks| ==> (disks[j].name, i) in claims
  }

  datatype Outcome = Done | NotDone | Failed

  /** None of these calls fails. */
  ghost predicate Smooth(fails: nat -> bool, from: nat, to: nat)
  {
    forall c: nat :: from <= c < to ==> !fails(c)
  }

  class Cluster {
    var sts: Option<StatefulSet>
    var claims: map<Key, Claim>
    var calls: nat
    /** Which API calls fail, and which claims have a storage class that can expand. */
    const fails: nat -> bool
    const expandable: Key -> bool

    constructor (sts: Option<StatefulSet>, claims: map<Key, Claim>, fails: nat -> bool, expandable: Key -> bool)
      ensures this.sts == sts && this.claims == claims && this.fails == fails && this.expandable == expandable && calls == 0
    {
      this.sts, this.claims, this.fails, this.expandable, this.calls := sts, claims, fails, expandable, 0;
    }

    method Call() returns (ok: bool)
      modifies this`calls
      ensures calls == old(calls) + 1 && ok == !fails(old(calls))
    {
      ok := !fails(calls);
      calls := calls + 1;
    }

    /** The body of the loops of resizePvcs. */
    method ResizeOne(d: Disk, i: int) returns (ok: bool, complete: bool)
      modifies this`claims, this`calls
      ensures old(calls) <= calls && ((d.name, i) in old(claims) && Smooth(fails, old(calls), calls) ==> ok)
      ensures !ok ==> claims == old(claims)
      ensures ok ==> (d.name, i) in old(claims) && claims == SetOne(old(claims), d, i)
      ensures ok ==> (complete <==> Complete(old(claims), d, i)) && (complete ==> claims == old(claims))
    {
      var key := (d.name, i);
      complete := false;
      ok := Call();
      if !ok || key !in claims {
        return false, false;
      }
      if claims[key].request == d.size {
        complete := claims[key].capacity == d.size;
        assert SetOne(claims, d, i) == claims;
      } else {
        ok := Call();
        if ok {
          claims := claims[key := claims[key].(request := d.size)];
        }
      }
    }

    /** One replica. `before` is what the claims were when the pass began. */
    method ResizeReplica(disks: seq<Disk>, i: int, soFar: bool, ghost before: map<Key, Claim>) returns (ok: bool, done: bool)
      requires soFar ==> claims == before
      modifies this`claims, this`calls
      ensures old(calls) <= calls && (RowExists(old(claims), disks, i) && Smooth(fails, old(calls), calls) ==> ok)
      ensures Touches(old(claims), claims, disks)
      ensures ok ==> claims == SetRow(old(claims), disks, i) && RowExists(old(claims), disks, i)
      ensures ok ==> (done <==> soFar && RowComplete(before, disks, i)) && (done ==> claims == before)
    {
      done := soFar;
      assert disks[..0] == [];
      for j := 0 to |disks|
        invariant claims == SetRow(old(claims), disks[..j], i) && RowExists(old(claims), disks[..j], i)
        invariant old(calls) <= calls
        invariant done <==> soFar && RowComplete(before, disks[..j], i)
        invariant done ==> claims == before
      {
        assert disks[..j + 1][..j] == disks[..j];
        SetRowTouches(old(claims), disks, j, i);
        assert claims.Keys == old(claims).Keys;
        var complete;
        ok, complete := ResizeOne(disks[j], i);
        if !ok {
          RowAt(old(claims), disks, i);
          return false, false;
        }
        done := done && complete;
      }
      SetRowTouches(old(claims), disks, |disks|, i);
      assert disks[..|disks|] == disks;
      ok := true;
    }

    /** resizePvcs: the new requests are made; it is done when there was nothing left to do or to wait for. */
    method ResizePvcs(disks: seq<Disk>, replicas: int) returns (ok: bool, done: bool)
      modifies this`claims, this`calls
      ensures old(calls) <= calls && (AllExist(old(claims), disks, replicas) && Smooth(fails, old(calls), calls) ==> ok)
      ensures Touches(old(claims), claims, disks)
      ensures ok ==> claims == SetAll(old(claims), disks, replicas) && AllExist(old(claims), disks, replicas)
      ensures ok ==> (done <==> AllComplete(old(claims), disks, replicas)) && (done ==> claims == old(claims))
    {
      done := true;
      var i := 0;
      while i < replicas
        invariant i == 0 || i <= replicas
        invariant old(calls) <= calls
        invariant PassedUpTo(old(claims), claims, disks, i, done)
      {
        ghost var before, was := claims, done;
        ok, done := ResizeReplica(disks, i, done, old(claims));
        TouchesTrans(old(claims), before, claims, disks);
        if !ok {
          RowAt(before, disks, i);
          return false, false;
        }
        PassedOneMore(old(claims), before, was, claims, disks, i, done);
        i := i + 1;
      }
      ok := true;
    }

    /**
     tryResizeDisksOf. The StatefulSet is only ever marked for deletion when every changed disk is
     completely resized on every replica; a pass without errors requests every size that is still missing.
     */
    method TryResizeDisks(newDisks: seq<Disk>, replicas: int) returns (r: Outcome)
      modifies this`sts, this`claims, this`calls
      ensures old(sts).None? || old(sts).value.deleting ==> r != Done && sts == old(sts) && claims == old(claims)
      ensures old(calls) <= calls
      ensures Smooth(fails, old(calls), calls) && r == Failed ==> old(sts).Some?
      ensures Smooth(fails, old(calls), calls) && r == Failed ==>
                var changed := Changed(old(sts).value.disks, newDisks);
                !AllExpand(changed, replicas) || !AllExist(old(claims), changed, replicas)
      ensures old(sts).Some? ==>
                var changed := Changed(old(sts).value.disks, newDisks);
                && Touches(old(claims), claims, changed)
                && (sts != old(sts) ==>
                      && sts == Some(old(sts).value.(deleting := true)) && changed != []
                      && AllComplete(claims, changed, replicas) && claims == old(claims))
                && (r == Done ==> changed == [] && sts == old(sts) && claims == old(claims))
                && (changed == [] && !old(sts).value.deleting ==> r != NotDone)
                && (r == NotDone && !old(sts).value.deleting && sts == old(sts) ==>
                      changed != [] && claims == SetAll(old(claims), changed, replicas) && !AllComplete(old(claims), changed, replicas))
    {
      var ok := Call();
      if !ok {
        return Failed;
      }
      if sts.None? || sts.value.deleting {
        return NotDone;
      }
      var changed := FilterDiskWithSizeChanged(sts.value.disks, newDisks);
      if |changed| == 0 {
        return Done;
      }
      var can := CanExpand(changed, replicas);
      if !can {
        return Failed;
      }
      var done;
      ok, done := ResizePvcs(changed, replicas);
      if !ok {
        return Failed;
      }
      if !done {
        return NotDone;
      }
      ok := Call();
      if !ok {
        return Failed;
      }
      sts := Some(sts.value.(deleting := true));
      return NotDone;
    }

    /** PvcsCanBeExpanded: false only for a claim that cannot expand, or a call that failed. */
    method CanExpand(disks: seq<Disk>, replicas: int) returns (can: bool)
      modifies this`calls
      ensures old(calls) <= calls
      ensures can ==> AllExpand(disks, replicas)
      ensures !can ==> !AllExpand(disks, replicas) || !Smooth(fails, old(calls), calls)
    {
      var i := 0;
      while i < replicas
        invariant 0 <= i && old(calls) <= calls
        invariant AllExpand(disks, i)
      {
        for j := 0 to |disks|
          invariant old(calls) <= calls
          invariant forall l :: 0 <= l < j ==> expandable((disks[l].name, i))
        {
          ghost var c := calls;
          var ok := Call();
          if !ok {
            assert fails(c);
            return false;
          }
          if !expandable((disks[j].name, i)) {
            return false;
          }
        }
        i := i + 1;
      }
      can := true;
    }

    ghost predicate AllExpand(disks: seq<Disk>, replicas: int)
    {
      forall i, j :: 0 <= i < replicas && 0 <= j < |disks| ==> expandable((disks[j].name, i))
    }
  }

  /** Only requests of claims of these disks differ, and none was lost. */
  ghost predicate Touches(before: map<Key, Claim>, after: map<Key, Claim>, disks: seq<Disk>)
  {
    && after.Keys == before.Keys
    && forall k :: k in before ==>
         && after[k].capacity == before[k].capacity
         && (after[k] != before[k] ==> exists d :: d in disks && d.name == k.0)
  }

  lemma TouchesTrans(a: map<Key, Claim>, b: map<Key, Claim>, c: map<Key, Claim>, disks: seq<Disk>)
    requires Touches(a, b, disks) && Touches(b, c, disks)
    ensures Touches(a, c, disks)
  {
  }

  /** The state of a pass that has dealt with the first replicas. */
  ghost predicate PassedUpTo(before: map<Key, Claim>, now: map<Key, Claim>, disks: seq<Disk>, i: int, done: bool)
  {
    && Touches(before, now, disks)
    && now == SetAll(before, disks, i)
    && AllExist(before, disks, i)
    && (done <==> AllComplete(before, disks, i))
    && (done ==> now == before)
  }

  lemma PassedOneMore(start: map<Key, Claim>, before: map<Key, Claim>, was: bool, now: map<Key, Claim>, disks: seq<Disk>, i: int, done: bool)
    requires i >= 0 && PassedUpTo(start, before, disks, i, was) && Touches(start, now, disks)
    requires now == SetRow(before, disks, i) && RowExists(before, disks, i)
    requires (done <==> was && RowComplete(start, disks, i)) && (done ==> now == start)
    ensures PassedUpTo(start, now, disks, i + 1, done)
  {
    OneMoreReplica(start, before, disks, i);
  }

  lemma OneMoreReplica(claims: map<Key, Claim>, now: map<Key, Claim>, disks: seq<Disk>, i: int)
    requires i >= 0 && now.Keys == claims.Keys
    ensures AllComplete(claims, disks, i + 1) <==> AllComplete(claims, disks, i) && RowComplete(claims, disks, i)
    ensures AllExist(claims, disks, i + 1) <==> AllExist(claims, disks, i) && RowExists(now, disks, i)
  {
    RowAt(claims, disks, i);
    RowAt(now, disks, i);
  }

  lemma {:induction false} RowAt(claims: map<Key, Claim>, disks: seq<Disk>, i: int)
    ensures RowComplete(claims, disks, i) <==> forall j :: 0 <= j < |disks| ==> Complete(claims, disks[j], i)
    ensures RowExists(claims, disks, i) <==> forall j :: 0 <= j < |disks| ==> (disks[j].name, i) in claims
  {
    if disks != [] {
      var front := disks[..|disks| - 1];
      RowAt(claims, front, i);
      assert forall j :: 0 <= j < |front| ==> front[j] == disks[j];
    }
  }

  lemma SetRowTouches(claims: map<Key, Claim>, disks: seq<Disk>, j: nat, i: int)
    requires j <= |disks|
    ensures Touches(claims, SetRow(claims, disks[..j], i), disks)
  {
    SetRowAt(claims, disks[..j], i);
    assert forall d :: d in disks[..j] ==> d in disks;
  }

  // ---- Does resizing end? ----

  /** The volumes have grown, to what is requested or to more, as the storage provider rounds it. */
  function Grown(claims: map<Key, Claim>, capacity: Key -> int): map<Key, Claim>
  {
    map k | k in claims :: claims[k].(capacity := capacity(k))
  }

  ghost predicate Provides(claims: map<Key, Claim>, capacity: Key -> int)
  {
    forall k :: k in claims ==> capacity(k) >= claims[k].request
  }

  /** Each of these volumes has exactly the size of its disk, not more. */
  ghost predicate ExactlyProvided(disks: seq<Disk>, n: int, capacity: Key -> int)
  {
    forall i, j :: 0 <= i < n && 0 <= j < |disks| ==> capacity((disks[j].name, i)) == disks[j].size
  }

  /** No two disks of one name ask for different sizes. */
  ghost predicate Consistent(disks: seq<Disk>)
  {
    forall i, j :: 0 <= i < |disks| && 0 <= j < |disks| && disks[i].name == disks[j].name ==> disks[i].size == disks[j].size
  }

  /** Repeating a pass asks for nothing new. */
  lemma PassIsIdempotent(claims: map<Key, Claim>, disks: seq<Disk>, n: int)
    ensures SetAll(SetAll(claims, disks, n), disks, n) == SetAll(claims, disks, n)
  {
    var once := SetAll(claims, disks, n);
    var twice := SetAll(once, disks, n);
    SetAllAt(claims, disks, n);
    SetAllAt(once, disks, n);
    assert forall k :: k in twice ==> twice[k] == once[k];
    assert twice == once;
  }

  /**
   Once the volumes have grown after a pass, everything is complete exactly if the disks are consistent
   and no volume is larger than its disk: the source waits for equality.
   */
  lemma ResizingEndsIff(claims: map<Key, Claim>, disks: seq<Disk>, n: int, capacity: Key -> int)
    requires n > 0 && AllExist(claims, disks, n) && Provides(SetAll(claims, disks, n), capacity)
    ensures AllComplete(Grown(SetAll(claims, disks, n), capacity), disks, n) <==>
            Consistent(disks) && ExactlyProvided(disks, n, capacity)
  {
    SetAllAt(claims, disks, n);
    var grown := Grown(SetAll(claims, disks, n), capacity);
    forall i, j | 0 <= i < n && 0 <= j < |disks|
      ensures Complete(grown, disks[j], i) <==>
              SizeOf(disks, disks[j].name) == Some(disks[j].size) && capacity((disks[j].name, i)) == disks[j].size
    {
      assert disks[j] in disks;
      assert (disks[j].name, i) in claims;
    }
    if Consistent(disks) && ExactlyProvided(disks, n, capacity) {
      forall i, j | 0 <= i < n && 0 <= j < |disks|
        ensures Complete(grown, disks[j], i)
      {
        ConsistentSize(disks, j);
      }
    }
    if AllComplete(grown, disks, n) {
      forall j | 0 <= j < |disks|
        ensures SizeOf(disks, disks[j].name) == Some(disks[j].size)
      {
        assert Complete(grown, disks[j], 0);
      }
      forall i, j | 0 <= i < n && 0 <= j < |disks|
        ensures capacity((disks[j].name, i)) == disks[j].size
      {
        assert Complete(grown, disks[j], i);
      }
    }
  }

  lemma ConsistentSize(disks: seq<Disk>, j: nat)
    requires Consistent(disks) && j < |disks|
    ensures SizeOf(disks, disks[j].name) == Some(disks[j].size)
  {
    assert disks[j] in disks;
    var s := SizeOf(disks, disks[j].name).value;
    var k :| 0 <= k < |disks| && disks[k] == Disk(disks[j].name, s);
  }

  /** A volume that came out larger than requested: every further pass asks for nothing and waits. */
  lemma LargerVolumeNeverCompletes(claims: map<Key, Claim>, d: Disk)
    requires (d.name, 0) in claims && claims[(d.name, 0)].request == d.size && claims[(d.name, 0)].capacity > d.size
    ensures Consistent([d]) && SetAll(claims, [d], 1) == claims && !AllComplete(claims, [d], 1)
  {
    SetAllAt(claims, [d], 1);
    assert [d] == [d][..0] + [d] && SizeOf([d], d.name) == Some(d.size);
    assert SizeOf([d][..0], "") == None;
    var r := SetAll(claims, [d], 1);
    forall k | k in claims
      ensures r[k] == claims[k]
    {
      if SizeOf([d], k.0).Some? {
        assert Disk(k.0, SizeOf([d], k.0).value) in [d];
      }
    }
    assert r == claims;
    assert !Complete(claims, [d][0], 0);
  }
}
