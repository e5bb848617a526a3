/** Small shared vocabulary. */
module Basics {

  /** A nullable column or an optional reply. */
  datatype Option<+T> = None | Some(value: T)

  /** Instants and durations, in microseconds. */
  type Time = int

  function Max(a: int, b: int): int { if a < b then b else a }

  function Min(a: int, b: int): int { if a < b then a else b }

  /** A nonempty set has a member to pick. */
  lemma SomeMember(s: set<int>)
    ensures s == {} || exists x :: x in s
  {
    if forall x: int :: x !in s { assert s == {}; }
  }

  /** A subset is no larger, and equally large only when it is the whole. */
  lemma SubsetCard<T>(a: set<T>, b: set<T>)
    requires a <= b
    ensures |a| <= |b| && (|a| == |b| ==> a == b)
  {
    assert b == a + (b - a);
  }
}
