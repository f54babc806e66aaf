/**
 The cross-speaker total: the least edit distance over all assignments of two lists of streams, the
 shorter padded with empty ones. It is a metric on multisets of non-empty streams.
 */
module SpeakerTotals {
  import opened EditDistance
  import opened Matching
  import opened Orders
  import opened Padding

  lemma DistanceMetric()
    ensures Metric(Distance)
  {
    forall a, b
      ensures (Distance(a, b) == 0 <==> a == b) && Distance(a, b) == Distance(b, a)
    {
      Bounds(a, b);
      Symmetric(a, b);
    }
    forall a, b, c
      ensures Distance(a, c) <= Distance(a, b) + Distance(b, c)
    {
      Triangle(a, b, c);
    }
  }

  function Longer(m: nat, n: nat): nat {
    if m <= n then n else m
  }

  const SILENCE: Words := []

  function Pad(a: seq<Words>, n: nat): (r: seq<Words>)
    requires |a| <= n
    ensures |r| == n
  {
    Filled(a, n, SILENCE)
  }

  /** The padded streams, up to order. */
  function Bag(a: seq<Words>, n: nat): multiset<Words>
    requires |a| <= n
  {
    BagOf(a, n, SILENCE)
  }

  lemma PadBag(a: seq<Words>, n: nat)
    requires |a| <= n
    ensures multiset(Pad(a, n)) == Bag(a, n)
  {
    FilledBag(a, n, SILENCE);
  }

  /** The least total distance over all bijections of the lists padded to n. */
  ghost predicate IsTotalAt(a: seq<Words>, b: seq<Words>, n: nat, t: nat)
    requires |a| <= n && |b| <= n
  {
    IsLeast(Distance, Bag(a, n), Bag(b, n), t)
  }

  ghost predicate IsTotal(a: seq<Words>, b: seq<Words>, t: nat) {
    IsTotalAt(a, b, Longer(|a|, |b|), t)
  }

  lemma OneMorePadding(a: seq<Words>, b: seq<Words>, n: nat, next: nat, t: nat)
    requires |a| <= n && |b| <= n && next == n + 1
    ensures IsTotalAt(a, b, n, t) <==> IsTotalAt(a, b, next, t)
  {
    DistanceMetric();
    FillOne(a, n, SILENCE);
    FillOne(b, n, SILENCE);
    LeastPadded(Distance, Bag(a, n), Bag(b, n), SILENCE, t);
  }

  lemma {:induction false} MorePadding(a: seq<Words>, b: seq<Words>, n: nat, more: nat, t: nat)
    requires |a| <= n && |b| <= n <= more
    ensures IsTotalAt(a, b, n, t) <==> IsTotalAt(a, b, more, t)
    decreases more
  {
    if n != more {
      var k: nat := more - 1;
      MorePadding(a, b, n, k, t);
      OneMorePadding(a, b, k, more, t);
    }
  }

  /** Any further padding gives the same total. */
  lemma TotalPadded(a: seq<Words>, b: seq<Words>, n: nat, t: nat)
    requires |a| <= n && |b| <= n
    ensures IsTotal(a, b, t) <==> IsTotalAt(a, b, n, t)
  {
    MorePadding(a, b, Longer(|a|, |b|), n, t);
  }

  lemma PadSame(a: seq<Words>, c: seq<Words>, n: nat)
    requires multiset(a) == multiset(c) && |a| <= n
    ensures |c| == |a| && Bag(a, n) == Bag(c, n)
  {
    assert |multiset(a)| == |a| && |multiset(c)| == |c|;
  }

  /** The total ignores the order of the streams. */
  lemma TotalOrderBlind(a: seq<Words>, b: seq<Words>, c: seq<Words>, d: seq<Words>, t: nat)
    requires multiset(a) == multiset(c) && multiset(b) == multiset(d)
    ensures IsTotal(a, b, t) <==> IsTotal(c, d, t)
  {
    PadSame(a, c, Longer(|a|, |b|));
    PadSame(b, d, Longer(|a|, |b|));
  }

  lemma TotalUnique(a: seq<Words>, b: seq<Words>, t: nat, u: nat)
    requires IsTotal(a, b, t) && IsTotal(a, b, u)
    ensures t == u
  {
    LeastUnique(Distance, Bag(a, Longer(|a|, |b|)), Bag(b, Longer(|a|, |b|)), t, u);
  }

  lemma TotalSymmetric(a: seq<Words>, b: seq<Words>, t: nat)
    requires IsTotal(a, b, t)
    ensures IsTotal(b, a, t)
  {
    DistanceMetric();
    LeastSymmetric(Distance, Bag(a, Longer(|a|, |b|)), Bag(b, Longer(|a|, |b|)), t);
  }

  lemma TotalTriangle(a: seq<Words>, b: seq<Words>, c: seq<Words>, t: nat, u: nat, v: nat)
    requires IsTotal(a, b, t) && IsTotal(b, c, u) && IsTotal(a, c, v)
    ensures v <= t + u
  {
    var n := |a| + |b| + |c|;
    DistanceMetric();
    TotalPadded(a, b, n, t);
    TotalPadded(b, c, n, u);
    TotalPadded(a, c, n, v);
    LeastTriangle(Distance, Bag(a, n), Bag(b, n), Bag(c, n), t, u, v);
  }

  function NonEmpty(a: seq<Words>): seq<Words> {
    Others(a, SILENCE)
  }

  /** Empty streams on either side do not count. */
  lemma TotalIgnoresEmpty(a: seq<Words>, b: seq<Words>, t: nat)
    ensures IsTotal(a, b, t) <==> IsTotal(NonEmpty(a), NonEmpty(b), t)
  {
    var n := Longer(|a|, |b|);
    OthersFilled(a, n, SILENCE);
    OthersFilled(b, n, SILENCE);
    TotalPadded(NonEmpty(a), NonEmpty(b), n, t);
  }

  /** The total is zero exactly when both sides say the same streams, each equally often. */
  lemma TotalZero(a: seq<Words>, b: seq<Words>, t: nat)
    requires IsTotal(a, b, t) && [] !in a && [] !in b
    ensures t == 0 <==> multiset(a) == multiset(b)
  {
    var n := Longer(|a|, |b|);
    DistanceMetric();
    LeastZero(Distance, Bag(a, n), Bag(b, n), t);
    if t == 0 {
      forall x
        ensures multiset(a)[x] == multiset(b)[x]
      {
        if x != [] {
          FilledCount(a, n, SILENCE, x);
          FilledCount(b, n, SILENCE, x);
        } else {
          assert [] !in multiset(a) && [] !in multiset(b);
        }
      }
    }
    if multiset(a) == multiset(b) {
      PadSame(a, b, n);
    }
  }

  // ----- Totals by enumeration

  predicate Indexes(order: seq<nat>, n: nat) {
    forall i :: 0 <= i < |order| ==> order[i] < n
  }

  function ErrorsOf(r: seq<Words>, h: seq<Words>, order: seq<nat>): (e: seq<nat>)
    requires |order| == |r| && Indexes(order, |h|)
    ensures |e| == |r| && forall i :: 0 <= i < |r| ==> e[i] == Distance(r[i], h[order[i]])
  {
    Costs(Distance, Zip(r, Pick(h, order)))
  }

  function PriceOf(r: seq<Words>, h: seq<Words>): Fee {
    (order: seq<nat>) => if |order| == |r| && Indexes(order, |h|) then Total(ErrorsOf(r, h, order)) else 0
  }

  /** The chosen order reaches the least cost over all matchings. */
  lemma ChosenLeast(r: seq<Words>, h: seq<Words>, order: seq<nat>)
    requires |r| == |h| && Chosen(PriceOf(r, h), |r|, order)
    ensures |order| == |r| && Indexes(order, |h|)
    ensures IsLeast(Distance, multiset(r), multiset(h), Total(ErrorsOf(r, h, order)))
  {
    OrderIndices(order, |r|);
    var t, p := Total(ErrorsOf(r, h, order)), Zip(r, Pick(h, order));
    PickOrder(h, order);
    assert Firsts(p) == r && Seconds(p) == Pick(h, order);
    assert Matches(p, multiset(r), multiset(h)) && Price(Distance, p) == t;
    forall q | Matches(q, multiset(r), multiset(h))
      ensures t <= Price(Distance, q)
    {
      var o := MatchOrder(Distance, q, r, h);
      assert PriceOf(r, h)(o) == Price(Distance, q);
    }
  }

  /** Every pair of lists has a total, and only one. */
  lemma TotalExists(a: seq<Words>, b: seq<Words>) returns (t: nat)
    ensures forall u :: IsTotal(a, b, u) <==> u == t
  {
    var n := Longer(|a|, |b|);
    var r, h := Pad(a, n), Pad(b, n);
    FirstLeastChosen(PriceOf(r, h), n);
    var order := FirstLeast(PriceOf(r, h), Permutations(Range(n)));
    ChosenLeast(r, h, order);
    t := Total(ErrorsOf(r, h, order));
    PadBag(a, n);
    PadBag(b, n);
    forall u | IsTotal(a, b, u)
      ensures u == t
    {
      TotalUnique(a, b, t, u);
    }
  }
}
