/** Stable insertion sort by a given order. */
module Sorting {

  /** Places an element after all that may stay before it. */
  function Placed<T>(before: (T, T) -> bool, x: T, sorted: seq<T>): seq<T> {
    if sorted == [] || before(sorted[|sorted| - 1], x) then sorted + [x]
    else Placed(before, x, sorted[..|sorted| - 1]) + [sorted[|sorted| - 1]]
  }

  /** The elements in order, equivalent ones as they were given. */
  function Sorted<T>(before: (T, T) -> bool, s: seq<T>): seq<T> {
    if s == [] then [] else Placed(before, s[|s| - 1], Sorted(before, s[..|s| - 1]))
  }

  ghost predicate InOrder<T>(before: (T, T) -> bool, s: seq<T>) {
    forall i, j :: 0 <= i < j < |s| ==> before(s[i], s[j])
  }

  /** Any two elements are ordered one way at least, and what is before a former is before the latter. */
  ghost predicate Linear<T(!new)>(before: (T, T) -> bool) {
    && (forall a, b :: before(a, b) || before(b, a))
    && forall a, b, c :: before(a, b) && before(b, c) ==> before(a, c)
  }

  lemma {:induction false} PlacedMembers<T>(before: (T, T) -> bool, x: T, sorted: seq<T>)
    ensures multiset(Placed(before, x, sorted)) == multiset(sorted) + multiset{x}
  {
    if sorted != [] && !before(sorted[|sorted| - 1], x) {
      PlacedMembers(before, x, sorted[..|sorted| - 1]);
      assert sorted == sorted[..|sorted| - 1] + [sorted[|sorted| - 1]];
    }
  }

  lemma {:induction false} PlacedInOrder<T(!new)>(before: (T, T) -> bool, x: T, sorted: seq<T>)
    requires Linear(before) && InOrder(before, sorted)
    ensures InOrder(before, Placed(before, x, sorted))
  {
    if sorted != [] {
      var rest, last := sorted[..|sorted| - 1], sorted[|sorted| - 1];
      if before(last, x) {
        AllBefore(before, sorted, x);
      } else {
        PlacedInOrder(before, x, rest);
        PlacedMembers(before, x, rest);
        forall y | y in Placed(before, x, rest)
          ensures before(y, last)
        {
          assert y in multiset(Placed(before, x, rest));
          assert y in rest || y == x;
        }
      }
    }
  }

  lemma AllBefore<T(!new)>(before: (T, T) -> bool, sorted: seq<T>, x: T)
    requires Linear(before) && InOrder(before, sorted) && sorted != [] && before(sorted[|sorted| - 1], x)
    ensures forall i :: 0 <= i < |sorted| ==> before(sorted[i], x)
  {
  }

  lemma PlacedNext<T(!new)>(before: (T, T) -> bool, s: seq<T>, sorted: seq<T>, x: T)
    requires Linear(before) && InOrder(before, sorted) && multiset(sorted) == multiset(s)
    ensures InOrder(before, Placed(before, x, sorted)) && multiset(Placed(before, x, sorted)) == multiset(s + [x])
  {
    PlacedInOrder(before, x, sorted);
    PlacedMembers(before, x, sorted);
  }

  lemma {:induction false} SortedInOrder<T(!new)>(before: (T, T) -> bool, s: seq<T>)
    requires Linear(before)
    ensures InOrder(before, Sorted(before, s)) && multiset(Sorted(before, s)) == multiset(s)
  {
    if s != [] {
      var rest, last := s[..|s| - 1], s[|s| - 1];
      SortedInOrder(before, rest);
      PlacedNext(before, rest, Sorted(before, rest), last);
      assert s == rest + [last];
    }
  }
}
