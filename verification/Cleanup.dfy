/**
 Clean-up of finished child resources (common/controllers/cronanything_controller.go): the children
 are put in order, newest first, and those beyond the retention limits are deleted.
 */
module Cleanup {
  import opened Common
  import opened Children
  import opened Sorting

  /**
   `byField` is false when the timestamp strategy is of no known type. Ages are compared in seconds as
   floating-point numbers: `seconds` is that conversion, with whatever rounding it does.
   */
  datatype Retention = Retention(byField: bool, timeLimit: Option<real>, countLimit: Option<int>, seconds: int -> real)

  /** All that is used of the conversion: a longer time is not rounded to less. */
  ghost predicate Rounds(r: Retention)
  {
    forall d, e :: d <= e ==> r.seconds(d) <= r.seconds(e)
  }

  /** The zero time.Time, 1 January of year 1. */
  const ZERO_TIME := -62135596800 * SECOND

  /** getResourceTimestamp: a missing field reads as the zero time, without an error. */
  function Timestamp(r: Retention, c: Child): Option<int>
  {
    if !r.byField || c.stampedAt.StampError? then None
    else if c.stampedAt.StampMissing? then Some(ZERO_TIME)
    else Some(c.stampedAt.time)
  }

  ghost predicate Distinct(children: seq<Child>)
  {
    forall i, j :: 0 <= i < j < |children| ==> children[i].name != children[j].name && children[i].uid != children[j].uid
  }

  /** The cache built from these children holds exactly their readable timestamps. */
  ghost predicate Caches(cache: map<string, int>, r: Retention, children: seq<Child>)
  {
    forall c :: c in children ==>
      Timestamp(r, c) == if c.uid in cache then Some(cache[c.uid]) else None
  }

  method NewByTimestamp(r: Retention, items: seq<Child>) returns (cache: map<string, int>)
    requires Distinct(items)
    ensures Caches(cache, r, items)
    ensures forall u :: u in cache ==> exists c :: c in items && c.uid == u
  {
    cache := map[];
    for i := 0 to |items|
      invariant Caches(cache, r, items[..i])
      invariant forall u :: u in cache ==> exists c :: c in items[..i] && c.uid == u
    {
      assert items[..i + 1] == items[..i] + [items[i]];
      assert forall c :: c in items[..i] ==> c.uid != items[i].uid;
      ghost var before := cache;
      var stamp := Timestamp(r, items[i]);
      if stamp.Some? {
        cache := cache[items[i].uid := stamp.value];
      }
      forall u | u in cache
        ensures exists c :: c in items[..i + 1] && c.uid == u
      {
        if u in before {
          var c :| c in items[..i] && c.uid == u;
          assert c in items[..i + 1];
        } else {
          assert items[i] in items[..i + 1];
        }
      }
    }
    assert items[..|items|] == items;
  }

  /** byTimestamp.Less: readable timestamps before unreadable ones, then the newest first. */
  predicate Less(cache: map<string, int>, a: Child, b: Child)
  {
    if a.uid !in cache && b.uid !in cache then b.created < a.created
    else if a.uid !in cache then false
    else if b.uid !in cache then true
    else cache[b.uid] < cache[a.uid]
  }

  /** Neither comes before the other. */
  predicate Tied(cache: map<string, int>, a: Child, b: Child)
  {
    !Less(cache, a, b) && !Less(cache, b, a)
  }

  /** What sort.Sort asks of a comparator. */
  lemma LessIsStrictWeakOrder(cache: map<string, int>, a: Child, b: Child, c: Child)
    ensures !Less(cache, a, a)
    ensures Less(cache, a, b) && Less(cache, b, c) ==> Less(cache, a, c)
    ensures Tied(cache, a, b) && Tied(cache, b, c) ==> Tied(cache, a, c)
  {
  }

  /** In order: the readable ones, newest first, and then the others, those created last first. */
  lemma SortedMeans(cache: map<string, int>, s: seq<Child>, i: nat, j: nat)
    requires Sorted(cache, s) && i < j < |s|
    ensures s[j].uid in cache ==> s[i].uid in cache && cache[s[j].uid] <= cache[s[i].uid]
    ensures s[i].uid !in cache ==> s[j].uid !in cache && s[j].created <= s[i].created
  {
  }

  ghost predicate Sorted(cache: map<string, int>, s: seq<Child>)
  {
    forall i, j :: 0 <= i < j < |s| ==> !Less(cache, s[j], s[i])
  }

  /** sort.Sort: a permutation in order; nothing else is known of it. */
  method SortByTimestamp(cache: map<string, int>, s: seq<Child>) returns (r: seq<Child>)
    ensures Sorted(cache, r)
    ensures multiset(r) == multiset(s)
  {
    r := Sort((a: Child, b: Child) => Less(cache, a, b), s);
  }

  /** The finished children with a readable timestamp, in the order of the list. */
  function History(s: FinishableStrategy, r: Retention, list: seq<Child>): seq<Child>
  {
    if list == [] then []
    else
      var last := list[|list| - 1];
      var h := History(s, r, list[..|list| - 1]);
      if IsFinished(s, last) && Timestamp(r, last).Some? then h + [last] else h
  }

  lemma {:induction false} HistoryHolds(s: FinishableStrategy, r: Retention, list: seq<Child>)
    ensures forall c :: c in History(s, r, list) <==> c in list && IsFinished(s, c) && Timestamp(r, c).Some?
  {
    if list != [] {
      HistoryHolds(s, r, list[..|list| - 1]);
      assert list == list[..|list| - 1] + [list[|list| - 1]];
    }
  }

  /** The subtraction of two times saturates. */
  predicate Expired(r: Retention, now: int, c: Child)
  {
    var t := Timestamp(r, c);
    && r.timeLimit.Some? && t.Some? && t.value < now
    && r.seconds(if now - t.value < MAX_INT64 then now - t.value else MAX_INT64) > r.timeLimit.value
  }

  /** The conversion to seconds without any rounding. */
  function ExactSeconds(d: int): real
  {
    d as real / 1000000000.0
  }

  /** Expired is to be older than the limit, not just as old; a missing timestamp is as old as can be told. */
  lemma ExpiredMeans(r: Retention, now: int, c: Child)
    requires r.seconds == ExactSeconds && r.byField && r.timeLimit.Some?
    ensures forall t :: c.stampedAt == Stamp(t) && now - t < MAX_INT64 ==>
              (Expired(r, now, c) <==> t < now && (now - t) as real > r.timeLimit.value * 1000000000.0)
    ensures c.stampedAt == StampMissing && now > ZERO_TIME + MAX_INT64 ==>
              (Expired(r, now, c) <==> MAX_INT64 as real > r.timeLimit.value * 1000000000.0)
    ensures c.stampedAt == StampError ==> !Expired(r, now, c)
  {
  }

  predicate CountReached(r: Retention, k: int)
  {
    r.countLimit.Some? && k >= r.countLimit.value
  }

  /** `h[..keep]` is what the limits allow, and it cannot be made longer. */
  ghost predicate Cut(r: Retention, now: int, h: seq<Child>, keep: nat)
  {
    && keep <= |h|
    && (forall j :: 0 <= j < keep ==> !Expired(r, now, h[j]) && !CountReached(r, j))
    && (keep < |h| ==> Expired(r, now, h[keep]) || CountReached(r, keep))
  }

  /** Newest first. */
  ghost predicate Newest(r: Retention, h: seq<Child>)
  {
    forall i, j :: 0 <= i < j < |h| ==>
      Timestamp(r, h[i]).Some? && Timestamp(r, h[j]).Some? && Timestamp(r, h[i]).value >= Timestamp(r, h[j]).value
  }

  /** A sorted list has its readable children newest first. */
  lemma {:induction false} HistoryIsNewestFirst(s: FinishableStrategy, r: Retention, cache: map<string, int>, list: seq<Child>)
    requires Sorted(cache, list) && Caches(cache, r, list)
    ensures Newest(r, History(s, r, list))
  {
    if list != [] {
      var front, last := list[..|list| - 1], list[|list| - 1];
      assert forall c :: c in front ==> c in list;
      HistoryIsNewestFirst(s, r, cache, front);
      HistoryHolds(s, r, front);
      assert last in list;
      var h := History(s, r, front);
      forall i | 0 <= i < |h| && Timestamp(r, last).Some?
        ensures Timestamp(r, h[i]).Some? && Timestamp(r, h[i]).value >= Timestamp(r, last).value
      {
        assert h[i] in front;
        var k :| 0 <= k < |front| && front[k] == h[i];
        assert list[k] == h[i] && !Less(cache, last, list[k]);
      }
      assert forall i :: 0 <= i < |h| ==> h[i] in h;
    }
  }

  /** The expired ones come last. */
  lemma ExpiredIsUpward(r: Retention, now: int, h: seq<Child>, i: nat, j: nat)
    requires Rounds(r) && Newest(r, h) && i <= j < |h| && Expired(r, now, h[i])
    ensures Expired(r, now, h[j])
  {
  }

  /** One more child in the history is kept or doomed by the limits alone. */
  lemma CutExtends(r: Retention, now: int, h: seq<Child>, keep: nat, child: Child)
    requires Rounds(r) && Newest(r, h + [child]) && Cut(r, now, h, keep) && Timestamp(r, child).Some?
    ensures var kept := !Expired(r, now, child) && !CountReached(r, keep);
            && (kept ==> keep == |h|)
            && Cut(r, now, h + [child], if kept then keep + 1 else keep)
  {
    if keep < |h| {
      assert (h + [child])[keep] == h[keep];
      if Expired(r, now, h[keep]) {
        ExpiredIsUpward(r, now, h + [child], keep, |h|);
      }
    }
    assert forall j :: 0 <= j < |h| ==> (h + [child])[j] == h[j];
  }

  /** What the loop of cleanupHistory keeps and dooms among the first children of the list. */
  ghost predicate Chosen(s: FinishableStrategy, r: Retention, now: int, list: seq<Child>, doomed: seq<Child>, keep: nat)
  {
    var h := History(s, r, list);
    Cut(r, now, h, keep) && doomed == h[keep..]
  }

  lemma ChosenGrows(s: FinishableStrategy, r: Retention, now: int, cache: map<string, int>, list: seq<Child>, i: nat, doomed: seq<Child>, keep: nat)
    requires Rounds(r) && Sorted(cache, list) && Caches(cache, r, list) && i < |list|
    requires Chosen(s, r, now, list[..i], doomed, keep)
    ensures if !IsFinished(s, list[i]) || Timestamp(r, list[i]).None? then Chosen(s, r, now, list[..i + 1], doomed, keep)
            else if Expired(r, now, list[i]) || CountReached(r, keep) then Chosen(s, r, now, list[..i + 1], doomed + [list[i]], keep)
            else Chosen(s, r, now, list[..i + 1], doomed, keep + 1)
  {
    var upto, child := list[..i + 1], list[i];
    assert upto[..i] == list[..i] && upto[i] == child;
    if IsFinished(s, child) && Timestamp(r, child).Some? {
      var h := History(s, r, list[..i]);
      assert Newest(r, h + [child]) by {
        assert forall c :: c in upto ==> c in list;
        HistoryIsNewestFirst(s, r, cache, upto);
      }
      CutExtends(r, now, h, keep, child);
      assert (h + [child])[keep..] == h[keep..] + [child];
    }
  }

  /** The loop of cleanupHistory that chooses what to delete. */
  method ChooseDoomed(s: FinishableStrategy, r: Retention, now: int, list: seq<Child>, ghost cache: map<string, int>)
    returns (doomed: seq<Child>, keep: nat)
    requires Rounds(r) && Sorted(cache, list) && Caches(cache, r, list)
    ensures Chosen(s, r, now, list, doomed, keep)
  {
    doomed, keep := [], 0;
    for i := 0 to |list|
      invariant Chosen(s, r, now, list[..i], doomed, keep)
    {
      var child := list[i];
      ChosenGrows(s, r, now, cache, list, i, doomed, keep);
      if !IsFinished(s, child) {
        continue;
      }
      var stamp := Timestamp(r, child);
      if stamp.None? {
        continue;
      }
      if Expired(r, now, child) || CountReached(r, keep) {
        doomed := doomed + [child];
        continue;
      }
      keep := keep + 1;
    }
    assert list[..|list|] == list;
  }

  /** The children whose names are not in the set, in the order of the list. */
  function Without(list: seq<Child>, names: set<string>): (left: seq<Child>)
    ensures forall c :: c in left <==> c in list && c.name !in names
  {
    if list == [] then []
    else
      var last := list[|list| - 1];
      var left := Without(list[..|list| - 1], names);
      assert list == list[..|list| - 1] + [last];
      if last.name in names then left else left + [last]
  }

  /** deleteInactiveResources; `refused` names the deletes that fail. */
  method DeleteInactiveResources(doomed: seq<Child>, children: seq<Child>, refused: set<string>)
    returns (remaining: seq<Child>, deleted: set<string>)
    ensures deleted == (set c | c in doomed && !c.deleting && c.name !in refused :: c.name)
    ensures remaining == Without(children, deleted)
  {
    deleted := {};
    for i := 0 to |doomed|
      invariant deleted == set c | c in doomed[..i] && !c.deleting && c.name !in refused :: c.name
    {
      var child := doomed[i];
      assert doomed[..i + 1] == doomed[..i] + [child];
      if child.deleting {
        continue;
      }
      if child.name !in refused {
        deleted := deleted + {child.name};
      }
    }
    assert doomed[..|doomed|] == doomed;

    remaining := [];
    for i := 0 to |children|
      invariant remaining == Without(children[..i], deleted)
    {
      assert children[..i + 1][..i] == children[..i];
      if children[i].name !in deleted {
        remaining := remaining + [children[i]];
      }
    }
    assert children[..|children|] == children;
  }

  lemma DistinctAfterSorting(s: seq<Child>, r: seq<Child>)
    requires Distinct(s) && multiset(s) == multiset(r)
    ensures forall c, d :: c in r && d in r && c != d ==> c.name != d.name && c.uid != d.uid
  {
    SameMembers(s, r);
    forall c, d | c in r && d in r && c != d
      ensures c.name != d.name && c.uid != d.uid
    {
      var i :| 0 <= i < |s| && s[i] == c;
      var j :| 0 <= j < |s| && s[j] == d;
    }
  }

  /**
   cleanupHistory. `order` is the list as the sort leaves it. Of the finished children with a readable
   timestamp, newest first, all but the first `keep` are chosen for deletion; everything that is not
   both chosen and deleted stays in the list.
   */
  method CleanupHistory(s: FinishableStrategy, retention: Option<Retention>, children: seq<Child>, now: int, refused: set<string>)
    returns (remaining: seq<Child>, deleted: set<string>, order: seq<Child>, keep: nat)
    requires Distinct(children) && (retention.Some? ==> Rounds(retention.value))
    ensures multiset(order) == multiset(children) && remaining == Without(order, deleted)
    ensures if Unlimited(retention) then order == children && deleted == {}
            else
              var history := History(s, retention.value, order);
              && Newest(retention.value, history) && Cut(retention.value, now, history, keep)
              && deleted == (set c | c in history[keep..] && !c.deleting && c.name !in refused :: c.name)
    ensures forall c :: c in children && !IsFinished(s, c) ==> c in remaining
  {
    remaining, deleted, order, keep := children, {}, children, 0;
    if Unlimited(retention) {
      WithoutNone(children);
      return;
    }
    var r := retention.value;
    var cache := NewByTimestamp(r, children);
    order := SortByTimestamp(cache, children);
    SameMembers(children, order);
    HistoryIsNewestFirst(s, r, cache, order);
    HistoryHolds(s, r, order);
    var doomed;
    doomed, keep := ChooseDoomed(s, r, now, order, cache);
    remaining, deleted := DeleteInactiveResources(doomed, order, refused);
    DistinctAfterSorting(children, order);
  }

  predicate Unlimited(retention: Option<Retention>)
  {
    retention.None? || (retention.value.timeLimit.None? && retention.value.countLimit.None?)
  }

  lemma {:induction false} WithoutNone(list: seq<Child>)
    ensures Without(list, {}) == list
  {
    if list != [] {
      WithoutNone(list[..|list| - 1]);
      assert list == list[..|list| - 1] + [list[|list| - 1]];
    }
  }

  /**
   What a cut means for single children, however ties were ordered: at most the count limit is kept, a
   chosen child is no newer than any kept one, and it is chosen for a reason.
   */
  lemma CutIsASuffix(r: Retention, now: int, h: seq<Child>, keep: nat)
    requires Rounds(r) && Newest(r, h) && Cut(r, now, h, keep) && forall c :: c in h ==> Timestamp(r, c).Some?
    ensures r.countLimit.Some? ==> keep <= if r.countLimit.value < 0 then 0 else r.countLimit.value
    ensures forall c, d :: c in h[..keep] && d in h[keep..] ==> Timestamp(r, d).value <= Timestamp(r, c).value
    ensures forall c :: c in h[..keep] ==> !Expired(r, now, c)
    ensures keep < |h| && !CountReached(r, keep) ==> forall d :: d in h[keep..] ==> Expired(r, now, d)
  {
    if keep > 0 {
      assert !CountReached(r, keep - 1);
    }
    assert forall i :: 0 <= i < |h| ==> h[i] in h;
    if keep < |h| && !CountReached(r, keep) {
      forall d | d in h[keep..]
        ensures Expired(r, now, d)
      {
        var i :| keep <= i < |h| && h[i] == d;
        ExpiredIsUpward(r, now, h, keep, i);
      }
    }
  }
}
