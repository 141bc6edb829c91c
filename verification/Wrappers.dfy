module Wrappers {

  /** A value that may be absent: a nullable column or a missing dictionary entry. */
  datatype Option<+T> = None | Some(value: T) {

    function GetOr(default: T): T {
      match this
      case Some(v) => v
      case None => default
    }
  }

  /** The index of the first element that satisfies a filter, as a query's `.first()` gives it. */
  function FindFirst<T>(xs: seq<T>, p: T -> bool): (r: Option<nat>)
    ensures r.Some? ==> r.value < |xs| && p(xs[r.value]) && forall j :: 0 <= j < r.value ==> !p(xs[j])
    ensures r.None? ==> forall j :: 0 <= j < |xs| ==> !p(xs[j])
  {
    if |xs| == 0 then None
    else if p(xs[0]) then Some(0)
    else
      match FindFirst(xs[1..], p)
      case None => None
      case Some(k) => assert forall j :: 0 < j < |xs| ==> xs[j] == xs[1..][j - 1]; Some(k + 1)
  }

  /** A non-empty sequence is its front and its last element. */
  lemma SplitLast<T>(xs: seq<T>) returns (front: seq<T>, last: T)
    requires xs != []
    ensures |front| < |xs| && xs == front + [last]
  {
    front, last := xs[..|xs| - 1], xs[|xs| - 1];
  }

  /** A non-empty sequence is its first element and the rest. */
  lemma SplitFirst<T>(xs: seq<T>) returns (first: T, rest: seq<T>)
    requires xs != []
    ensures |rest| < |xs| && xs == [first] + rest && first in xs && forall x :: x in rest ==> x in xs
  {
    first, rest := xs[0], xs[1..];
  }

  /** ix are the numbers below n that are kept, in order. */
  ghost predicate Picks(ix: seq<nat>, keep: nat -> bool, n: nat) {
    (forall a, b :: 0 <= a < b < |ix| ==> ix[a] < ix[b]) && forall i: nat :: i in ix <==> i < n && keep(i)
  }

  lemma PicksMore(ix: seq<nat>, keep: nat -> bool, n: nat)
    requires Picks(ix, keep, n)
    ensures Picks(if keep(n) then ix + [n] else ix, keep, n + 1)
  {
    forall a | 0 <= a < |ix| ensures ix[a] < n { assert ix[a] in ix; }
  }
}
