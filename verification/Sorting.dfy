/** Sorting with a comparator, as the library does it: in order, a permutation, and nothing else is promised. */
module Sorting {

  /** What a comparator must be: a strict order in which not coming before is transitive. */
  ghost predicate IsOrder<T(!new)>(less: (T, T) -> bool)
  {
    && (forall a, b :: less(a, b) ==> !less(b, a))
    && (forall a, b, c :: !less(a, b) && !less(b, c) ==> !less(a, c))
  }

  ghost predicate InOrder<T>(less: (T, T) -> bool, s: seq<T>)
  {
    forall i, j :: 0 <= i < j < |s| ==> !less(s[j], s[i])
  }

  lemma InsertedInOrder<T(!new)>(less: (T, T) -> bool, s: seq<T>, x: T, k: nat)
    requires IsOrder(less) && InOrder(less, s) && k <= |s|
    requires forall i :: k <= i < |s| ==> less(x, s[i])
    requires k > 0 ==> !less(x, s[k - 1])
    ensures InOrder(less, s[..k] + [x] + s[k..])
  {
    var r := s[..k] + [x] + s[k..];
    forall i, j | 0 <= i < j < |r|
      ensures !less(r[j], r[i])
    {
      assert i != k ==> r[i] == s[if i < k then i else i - 1];
      assert j != k ==> r[j] == s[if j < k then j else j - 1];
      if i < k - 1 && j == k {
        assert !less(s[k - 1], s[i]);
      }
    }
  }

  lemma InsertedMultiset<T>(s: seq<T>, x: T, k: nat)
    requires k <= |s|
    ensures multiset(s[..k] + [x] + s[k..]) == multiset(s) + multiset{x}
  {
    assert s == s[..k] + s[k..];
  }

  method Insert<T(!new)>(less: (T, T) -> bool, s: seq<T>, x: T) returns (r: seq<T>)
    requires IsOrder(less) && InOrder(less, s)
    ensures InOrder(less, r) && multiset(r) == multiset(s) + multiset{x}
  {
    var k := |s|;
    while k > 0 && less(x, s[k - 1])
      invariant 0 <= k <= |s|
      invariant forall i :: k <= i < |s| ==> less(x, s[i])
    {
      k := k - 1;
    }
    r := s[..k] + [x] + s[k..];
    InsertedInOrder(less, s, x, k);
    InsertedMultiset(s, x, k);
  }

  method Sort<T(!new)>(less: (T, T) -> bool, s: seq<T>) returns (r: seq<T>)
    requires IsOrder(less)
    ensures InOrder(less, r) && multiset(r) == multiset(s)
  {
    r := [];
    for i := 0 to |s|
      invariant InOrder(less, r)
      invariant multiset(r) == multiset(s[..i])
    {
      assert s[..i + 1] == s[..i] + [s[i]];
      r := Insert(less, r, s[i]);
    }
    assert s[..|s|] == s;
  }

  lemma SameMembers<T>(a: seq<T>, b: seq<T>)
    requires multiset(a) == multiset(b)
    ensures |a| == |b| && forall x :: x in a <==> x in b
  {
    assert |a| == |multiset(a)| && |b| == |multiset(b)|;
    assert forall x :: x in a <==> x in multiset(a);
    assert forall x :: x in b <==> x in multiset(b);
  }

  ghost predicate NoRepeats<T(!new)>(s: seq<T>)
  {
    forall i, j :: 0 <= i < j < |s| ==> s[i] != s[j]
  }

  /** A permutation of a list without repeats has none. */
  lemma NoRepeatsAfterSorting<T(!new)>(a: seq<T>, b: seq<T>)
    requires NoRepeats(a) && multiset(a) == multiset(b)
    ensures NoRepeats(b)
  {
    forall i, j | 0 <= i < j < |b|
      ensures b[i] != b[j]
    {
      SingleCount(a, b[j]);
      assert b == b[..j] + b[j..];
      assert b[i] in b[..j] && b[j] in b[j..];
    }
  }

  lemma {:induction false} SingleCount<T(!new)>(a: seq<T>, x: T)
    requires NoRepeats(a)
    ensures multiset(a)[x] <= 1
  {
    if a != [] {
      var front := a[..|a| - 1];
      assert a == front + [a[|a| - 1]];
      SingleCount(front, x);
      if a[|a| - 1] == x {
        assert x !in front;
      }
    }
  }
}
