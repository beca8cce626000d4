/** Shared by every module of the model. */
module Common {

  datatype Option<+T> = None | Some(value: T)

  /** Nanoseconds in a second. */
  const SECOND := 1_000_000_000

  /** The greatest int64, and so the longest time.Duration. */
  const MAX_INT64 := 0x7FFF_FFFF_FFFF_FFFF

  ghost predicate StrictlyIncreasing(s: seq<int>)
  {
    forall i, j :: 0 <= i < j < |s| ==> s[i] < s[j]
  }

  lemma EmptyOrNot<T>(s: set<T>)
    ensures s == {} || exists x :: x in s
  {
    if forall x :: x !in s {
      assert s == {};
    }
  }

  /** A set that is not empty has an element. */
  lemma Pick<T>(s: set<T>) returns (x: T)
    requires s != {}
    ensures x in s
  {
    EmptyOrNot(s);
    x :| x in s;
  }
}
