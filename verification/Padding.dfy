/** Sequences filled up with copies of one element, and what is left without them. */
module Padding {

  function Filled<T>(a: seq<T>, n: nat, e: T): (r: seq<T>)
    requires |a| <= n
    ensures |r| == n
  {
    a + seq(n - |a|, i => e)
  }

  function Copies<T>(k: nat, e: T): multiset<T> {
    multiset{}[e := k]
  }

  /** The filled sequence, up to order. */
  function BagOf<T>(a: seq<T>, n: nat, e: T): multiset<T>
    requires |a| <= n
  {
    multiset(a) + Copies(n - |a|, e)
  }

  lemma {:induction false} FilledBag<T>(a: seq<T>, n: nat, e: T)
    requires |a| <= n
    ensures multiset(Filled(a, n, e)) == BagOf(a, n, e)
    decreases n - |a|
  {
    if |a| == n {
      assert Filled(a, n, e) == a;
    } else {
      FilledBag(a, n - 1, e);
      assert Filled(a, n, e) == Filled(a, n - 1, e) + [e];
    }
  }

  lemma FillOne<T>(a: seq<T>, n: nat, e: T)
    requires |a| <= n
    ensures BagOf(a, n + 1, e) == BagOf(a, n, e) + multiset{e}
  {
  }

  /** The elements other than e. */
  function Others<T(==)>(a: seq<T>, e: T): seq<T> {
    if a == [] then []
    else if a[|a| - 1] == e then Others(a[..|a| - 1], e)
    else Others(a[..|a| - 1], e) + [a[|a| - 1]]
  }

  lemma {:induction false} OthersCounted<T>(a: seq<T>, e: T)
    ensures |Others(a, e)| <= |a| && multiset(a) == multiset(Others(a, e)) + Copies(|a| - |Others(a, e)|, e)
  {
    if a != [] {
      OthersCounted(a[..|a| - 1], e);
      assert a == a[..|a| - 1] + [a[|a| - 1]];
    }
  }

  /** Leaving the filling out changes nothing once it is filled up again. */
  lemma OthersFilled<T>(a: seq<T>, n: nat, e: T)
    requires |a| <= n
    ensures |Others(a, e)| <= |a| && BagOf(Others(a, e), n, e) == BagOf(a, n, e)
  {
    OthersCounted(a, e);
  }

  lemma FilledCount<T>(a: seq<T>, n: nat, e: T, x: T)
    requires |a| <= n && x != e
    ensures BagOf(a, n, e)[x] == multiset(a)[x]
  {
  }
}
