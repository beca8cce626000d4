/** Pruning of scheduled backups (common/controllers/backupschedule_controller.go). */
module Pruning {
  import opened Common
  import opened Schedules
  import opened Retention
  import opened Sorting

  /** `tick` is the schedule time the backup was created for; its name carries it. */
  datatype Backup = Backup(name: string, created: int, succeeded: bool, tick: int)

  const DEFAULT_RETENTION := 7

  ghost predicate NewestFirst(list: seq<Backup>)
  {
    forall i, j :: 0 <= i < j < |list| ==> list[j].created <= list[i].created
  }

  /** getSortedBackupsForCron; backups created in the same second come in any order. */
  method SortBackups(list: seq<Backup>) returns (sorted: seq<Backup>)
    ensures NewestFirst(sorted)
    ensures multiset(sorted) == multiset(list)
  {
    sorted := Sort((a: Backup, b: Backup) => b.created < a.created, list);
  }

  /** How many of these succeeded. */
  function Wins(list: seq<Backup>): nat
  {
    if list == [] then 0
    else Wins(list[..|list| - 1]) + if list[|list| - 1].succeeded then 1 else 0
  }

  lemma WinsStep(list: seq<Backup>, i: nat)
    requires i < |list|
    ensures Wins(list[..i + 1]) == Wins(list[..i]) + if list[i].succeeded then 1 else 0
  {
    assert list[..i + 1][..i] == list[..i];
  }

  /** The first k are spared: exactly those with fewer than max succeeded backups before them. */
  ghost predicate Spared(list: seq<Backup>, max: int, k: nat)
  {
    k <= |list| && forall i :: 0 <= i < |list| ==> (i < k <==> Wins(list[..i]) < max)
  }

  function Limit(retention: Option<int>): (max: int)
    ensures retention.None? ==> max == 7
  {
    if retention.Some? then retention.value else DEFAULT_RETENTION
  }

  /** pruneBackups; the first delete that fails stops it. */
  method PruneBackups(retention: Option<int>, sorted: seq<Backup>, refused: set<string>)
    returns (deleted: seq<Backup>, ok: bool, spared: nat)
    ensures Limit(retention) == 0 ==> ok && deleted == []
    ensures Limit(retention) != 0 ==>
              && Spared(sorted, Limit(retention), spared)
              && spared + |deleted| <= |sorted| && deleted == sorted[spared..spared + |deleted|]
              && (forall b :: b in deleted ==> b.name !in refused)
              && (if ok then spared + |deleted| == |sorted|
                  else spared + |deleted| < |sorted| && sorted[spared + |deleted|].name in refused)
  {
    deleted, ok, spared := [], true, 0;
    var max := DEFAULT_RETENTION;
    if retention.Some? {
      max := retention.value;
    }
    if max == 0 {
      return;
    }
    var count := max;
    var i := 0;
    while ok && i < |sorted|
      invariant 0 <= spared <= i <= |sorted|
      invariant count <= 0 <==> Wins(sorted[..i]) >= max
      invariant count > 0 ==> count == max - Wins(sorted[..i]) && spared == i
      invariant forall j :: 0 <= j < i ==> (j < spared <==> Wins(sorted[..j]) < max)
      invariant !ok ==> i < |sorted| && count <= 0 && sorted[i].name in refused
      invariant deleted == sorted[spared..i]
      invariant forall b :: b in deleted ==> b.name !in refused
      decreases ok, |sorted| - i
    {
      var b := sorted[i];
      WinsStep(sorted, i);
      if count <= 0 && b.name in refused {
        ok := false;
      } else {
        if count <= 0 {
          assert sorted[spared..i + 1] == sorted[spared..i] + [b];
          deleted := deleted + [b];
        } else {
          spared := spared + 1;
        }
        if b.succeeded && count > 0 {
          count := count - 1;
        }
        i := i + 1;
      }
    }
    forall j | i <= j < |sorted|
      ensures Wins(sorted[..j]) >= max && spared <= j
    {
      WinsIncrease(sorted, i, j);
    }
  }

  lemma {:induction false} WinsIncrease(list: seq<Backup>, i: nat, j: nat)
    requires i <= j <= |list|
    ensures Wins(list[..i]) <= Wins(list[..j])
    decreases j
  {
    if i < j {
      WinsStep(list, j - 1);
      WinsIncrease(list, i, j - 1);
    }
  }

  // ---- Which backups go, by age ----

  /** Whoever is cut off before the end of the list is cut off by the max-th succeeded one. */
  lemma SparedEndsWithAWin(sorted: seq<Backup>, max: int, k: nat)
    requires Spared(sorted, max, k) && k > 0 && Wins(sorted[..k]) >= max
    ensures sorted[k - 1].succeeded && Wins(sorted[..k - 1]) == max - 1 && Wins(sorted[..k]) == max
  {
    WinsStep(sorted, k - 1);
    assert Wins(sorted[..k - 1]) < max;
  }

  /**
   If anything is pruned, `mark` is the max-th newest succeeded backup: what is newer is spared, what is
   older is pruned, and what was created in the same second may go either way.
   */
  lemma PrunedAreOlder(sorted: seq<Backup>, max: int, k: nat) returns (mark: Backup)
    requires NewestFirst(sorted) && Spared(sorted, max, k) && k < |sorted| && max > 0
    ensures k > 0 && mark == sorted[k - 1] && mark.succeeded && Wins(sorted[..k - 1]) == max - 1
    ensures forall b :: b in sorted[..k] ==> b.created >= mark.created
    ensures forall b :: b in sorted[k..] ==> b.created <= mark.created
    ensures forall b :: b in sorted && b.created > mark.created ==> b !in sorted[k..]
    ensures forall b :: b in sorted && b.created < mark.created ==> b !in sorted[..k]
  {
    assert sorted[..0] == [] && Wins(sorted[..k]) >= max;
    SparedEndsWithAWin(sorted, max, k);
    mark := sorted[k - 1];
  }

  // ---- Pruning again ----

  function Winners(list: seq<Backup>): seq<Backup>
  {
    if list == [] then []
    else Winners(list[..|list| - 1]) + if list[|list| - 1].succeeded then [list[|list| - 1]] else []
  }

  lemma {:induction false} WinnersCount(list: seq<Backup>)
    ensures |Winners(list)| == Wins(list)
    ensures forall b :: multiset(Winners(list))[b] == if b.succeeded then multiset(list)[b] else 0
  {
    if list != [] {
      WinnersCount(list[..|list| - 1]);
      assert list == list[..|list| - 1] + [list[|list| - 1]];
    }
  }

  /** The order does not matter for how many succeeded. */
  lemma WinsOfPermutation(a: seq<Backup>, b: seq<Backup>)
    requires multiset(a) == multiset(b)
    ensures Wins(a) == Wins(b)
  {
    WinnersCount(a);
    WinnersCount(b);
    assert multiset(Winners(a)) == multiset(Winners(b));
    assert |multiset(Winners(a))| == |Winners(a)|;
  }

  /** `again` is what a later pass may make of the backups of `left`. */
  ghost predicate Resorted(left: seq<Backup>, again: seq<Backup>)
  {
    NewestFirst(again) && multiset(again) == multiset(left)
  }

  /** However they are sorted, a pass over these backups deletes nothing. */
  ghost predicate SafeAgain(left: seq<Backup>, max: int)
  {
    forall again :: Resorted(left, again) ==> Spared(again, max, |again|)
  }

  /** A failed backup among the first k was created in the same second as the last of them. */
  ghost predicate FailureTied(sorted: seq<Backup>, k: nat)
    requires 0 < k <= |sorted|
  {
    exists i :: 0 <= i < k && !sorted[i].succeeded && sorted[i].created == sorted[k - 1].created
  }

  lemma FewWinsSpareAll(left: seq<Backup>, max: int, again: seq<Backup>)
    requires Wins(left) < max && Resorted(left, again)
    ensures Spared(again, max, |again|)
  {
    WinsOfPermutation(left, again);
    assert again[..|again|] == again;
    forall i | 0 <= i < |again|
      ensures Wins(again[..i]) < max
    {
      WinsIncrease(again, i, |again|);
    }
  }

  /** All that succeeded come before i, so what is at i and behind did not. */
  lemma BehindAllWins(again: seq<Backup>, i: nat, j: nat)
    requires i <= j < |again| && Wins(again[..i]) >= Wins(again)
    ensures !again[j].succeeded
  {
    assert again[..|again|] == again;
    WinsStep(again, j);
    WinsIncrease(again, i, j);
    WinsIncrease(again, j + 1, |again|);
  }

  /** If another order cuts the list earlier, a failure is tied with the last of the spared. */
  lemma EarlierCutMeansTie(sorted: seq<Backup>, max: int, k: nat, again: seq<Backup>, i: nat)
    requires NewestFirst(sorted) && Spared(sorted, max, k) && k > 0 && Wins(sorted[..k]) >= max
    requires Resorted(sorted[..k], again) && i < |again| && Wins(again[..i]) >= max
    ensures FailureTied(sorted, k)
  {
    SparedEndsWithAWin(sorted, max, k);
    WinsOfPermutation(sorted[..k], again);
    SameMembers(sorted[..k], again);
    var left := sorted[..k];
    assert left[k - 1] in left;
    var p :| 0 <= p < |again| && again[p] == left[k - 1];
    BehindAllWins(again, i, i);
    if i <= p {
      BehindAllWins(again, i, p);
    }
    assert again[i] in left;
    var q :| 0 <= q < k && left[q] == again[i];
    assert sorted[q].created == sorted[k - 1].created;
  }

  /** Putting the tied failure last is an order like any other, and the failure goes. */
  lemma TieIsUnsafe(left: seq<Backup>, max: int, i: nat) returns (again: seq<Backup>)
    requires NewestFirst(left) && i < |left| && Wins(left) >= max
    requires !left[i].succeeded && left[i].created == left[|left| - 1].created
    ensures Resorted(left, again) && !Spared(again, max, |again|)
  {
    again := FailureLast(left, i);
    WinsOfPermutation(left, again);
    var n := |left| - 1;
    WinsStep(again, n);
    assert again[..n + 1] == again;
  }

  lemma FailureLast(left: seq<Backup>, i: nat) returns (again: seq<Backup>)
    requires NewestFirst(left) && i < |left| && left[i].created == left[|left| - 1].created
    ensures Resorted(left, again) && |again| == |left| && again[|left| - 1] == left[i]
  {
    var n := |left| - 1;
    again := left[..i] + left[i + 1..] + [left[i]];
    assert left == left[..i] + [left[i]] + left[i + 1..];
    forall a, b | 0 <= a < b < |again|
      ensures again[b].created <= again[a].created
    {
      var a', b' := if a < i then a else a + 1, if b == n then i else if b < i then b else b + 1;
      assert again[a] == left[a'] && again[b] == left[b'];
      assert a' < b' || (b' == i && left[n].created <= left[a'].created);
    }
  }

  /**
   A second pass never deletes anything, however the backups left by the first are sorted, exactly if
   fewer than the limit of them succeeded or none that failed was created in the second of the oldest.
   */
  lemma PruneAgainDeletesNothingIff(sorted: seq<Backup>, max: int, k: nat)
    requires NewestFirst(sorted) && Spared(sorted, max, k)
    ensures SafeAgain(sorted[..k], max) <==> k == 0 || Wins(sorted[..k]) < max || !FailureTied(sorted, k)
  {
    if k == 0 {
      forall again | Resorted(sorted[..k], again)
        ensures Spared(again, max, |again|)
      {
        SameMembers(sorted[..k], again);
      }
    } else if Wins(sorted[..k]) < max {
      forall again | Resorted(sorted[..k], again)
        ensures Spared(again, max, |again|)
      {
        FewWinsSpareAll(sorted[..k], max, again);
      }
    } else if !FailureTied(sorted, k) {
      forall again | Resorted(sorted[..k], again)
        ensures Spared(again, max, |again|)
      {
        forall i | 0 <= i < |again|
          ensures Wins(again[..i]) < max
        {
          if Wins(again[..i]) >= max {
            EarlierCutMeansTie(sorted, max, k, again, i);
          }
        }
      }
    } else {
      var i :| 0 <= i < k && !sorted[i].succeeded && sorted[i].created == sorted[k - 1].created;
      var again := TieIsUnsafe(sorted[..k], max, i);
    }
  }

  lemma SparedOfTwo(a: Backup, b: Backup)
    ensures Spared([a, b], 1, if a.succeeded then 1 else 2)
  {
    assert [a, b][..0] == [] && [a, b][..1] == [a] && [a][..0] == [];
  }

  /** Two backups of one second and a limit of one: the second pass deletes the failed one. */
  lemma TiedFailureIsPrunedLater(f: Backup, s: Backup)
    requires !f.succeeded && s.succeeded && f.created == s.created
    ensures NewestFirst([f, s]) && Spared([f, s], 1, 2)
    ensures Resorted([f, s], [s, f]) && Spared([s, f], 1, 1)
  {
    SparedOfTwo(f, s);
    SparedOfTwo(s, f);
    assert multiset([f, s]) == multiset{f, s};
  }

  // ---- The recovery window stays covered ----

  /** The succeeded backups are of distinct ticks of the schedule, and created since. */
  ghost predicate Scheduled(next: int -> int, list: seq<Backup>, now: int)
  {
    && (forall i :: 0 <= i < |list| && list[i].succeeded ==> IsTick(next, list[i].tick) && list[i].tick <= list[i].created <= now)
    && (forall i, j :: 0 <= i < j < |list| && list[i].succeeded && list[j].succeeded ==> list[i].tick != list[j].tick)
  }

  function WinTicks(list: seq<Backup>): set<int>
  {
    if list == [] then {}
    else WinTicks(list[..|list| - 1]) + if list[|list| - 1].succeeded then {list[|list| - 1].tick} else {}
  }

  lemma {:induction false} WinAt(list: seq<Backup>, t: int) returns (i: nat)
    requires t in WinTicks(list)
    ensures i < |list| && list[i].succeeded && list[i].tick == t
  {
    var last := list[|list| - 1];
    if last.succeeded && last.tick == t {
      i := |list| - 1;
    } else {
      i := WinAt(list[..|list| - 1], t);
    }
  }

  lemma {:induction false} WinTicksCount(next: int -> int, list: seq<Backup>, now: int)
    requires Scheduled(next, list, now)
    ensures Batch(next, WinTicks(list), Wins(list))
  {
    if list != [] {
      var front, last := list[..|list| - 1], list[|list| - 1];
      WinTicksCount(next, front, now);
      assert forall i :: 0 <= i < |front| ==> front[i] == list[i];
      if last.succeeded && last.tick in WinTicks(front) {
        var i := WinAt(front, last.tick);
        assert false;
      }
    }
  }

  lemma SparedWinsAreMax(list: seq<Backup>, max: int, k: nat)
    requires Spared(list, max, k) && k < |list| && max > 0
    ensures Wins(list[..k]) == max
  {
    assert Wins(list[..k]) >= max;
    assert list[..0] == [];
    if k > 0 {
      WinsStep(list, k - 1);
      assert Wins(list[..k - 1]) < max;
    }
  }

  /**
   Whenever pruning with the computed retention deletes anything, a succeeded backup scheduled before
   the window is spared; if backups are created within `delay` of their tick, it is that old as well.
   */
  lemma RetentionCoversWindow(next: int -> int, window: int, list: seq<Backup>, k: nat, now: int, delay: int)
    requires IsSchedule(next) && CountedBusiest(next, window) && Scheduled(next, list, now)
    requires Spared(list, Steps(next, START, START + window) + 1, k) && k < |list|
    requires forall b :: b in list && b.succeeded ==> b.created <= b.tick + delay
    ensures exists b :: b in list[..k] && b.succeeded && b.tick <= now - window && b.created <= now - window + delay
  {
    var max := Steps(next, START, START + window) + 1;
    SparedWinsAreMax(list, max, k);
    var kept := list[..k];
    assert forall i :: 0 <= i < k ==> kept[i] == list[i];
    WinTicksCount(next, kept, now);
    BusiestMeansBatchesSpan(next, window, WinTicks(kept));
    var a, z :| a in WinTicks(kept) && z in WinTicks(kept) && z - a >= window;
    var i := WinAt(kept, a);
    var j := WinAt(kept, z);
    assert list[i] in list && kept[i] in kept;
  }

  /** So the window is covered for every regular schedule and every one that repeats with the window. */
  lemma OrdinarySchedulesAreCovered(next: int -> int, p: int, window: int, list: seq<Backup>, k: nat, now: int)
    requires IsSchedule(next) && (Every(next, p) || Repeats(next, window)) && Scheduled(next, list, now)
    requires Spared(list, Steps(next, START, START + window) + 1, k)
    ensures k == |list| || exists b :: b in list[..k] && b.succeeded && b.tick <= now - window
  {
    if Every(next, p) {
      RegularScheduleIsCounted(next, p, window);
    } else {
      RepeatingScheduleIsCounted(next, window);
    }
    if k < |list| {
      var delay := LongestDelay(list);
      RetentionCoversWindow(next, window, list, k, now, delay);
    }
  }

  lemma {:induction false} LongestDelay(list: seq<Backup>) returns (delay: int)
    ensures forall b :: b in list ==> b.created <= b.tick + delay
  {
    if list == [] {
      delay := 0;
    } else {
      var rest := LongestDelay(list[1..]);
      var d := list[0].created - list[0].tick;
      delay := if d > rest then d else rest;
      assert list == [list[0]] + list[1..];
    }
  }
}
