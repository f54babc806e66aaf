/**
 Least-cost bijections between two multisets under a metric: reordering, padding with a common
 element, symmetry, the triangle inequality, and cost zero exactly for equal multisets.
 */
module Matching {

  // ----- Sequences up to order

  function Map<A, B>(f: A -> B, s: seq<A>): (r: seq<B>)
    ensures |r| == |s| && forall i :: 0 <= i < |s| ==> r[i] == f(s[i])
  {
    seq(|s|, i requires 0 <= i < |s| => f(s[i]))
  }

  function Total(s: seq<nat>): nat {
    if s == [] then 0 else Total(s[..|s| - 1]) + s[|s| - 1]
  }

  lemma {:induction false} TotalAppend(s: seq<nat>, t: seq<nat>)
    ensures Total(s + t) == Total(s) + Total(t)
  {
    if t == [] {
      assert s + t == s;
    } else {
      assert (s + t)[..|s + t| - 1] == s + t[..|t| - 1];
      TotalAppend(s, t[..|t| - 1]);
    }
  }

  lemma Single(x: nat)
    ensures Total([x]) == x
  {
    assert [x][..0] == [];
  }

  /** A sequence taken apart around one of its elements. */
  lemma Around<T>(s: seq<T>, x: T) returns (u: seq<T>, v: seq<T>)
    requires x in s
    ensures s == u + [x] + v && multiset(s) == multiset(u + v) + multiset{x} && |u + v| == |s| - 1
  {
    var i :| 0 <= i < |s| && s[i] == x;
    u, v := s[..i], s[i + 1..];
    assert s == u + [x] + v;
  }

  lemma LastApart<T>(s: seq<T>)
    requires s != []
    ensures multiset(s) == multiset(s[..|s| - 1]) + multiset{s[|s| - 1]}
  {
    assert s == s[..|s| - 1] + [s[|s| - 1]];
  }

  lemma MemberSame<T>(s: seq<T>, t: seq<T>, x: T)
    requires multiset(s) == multiset(t) && x in t
    ensures x in s
  {
    assert x in multiset(s);
  }

  lemma Cancel<T>(m: multiset<T>, n: multiset<T>, x: T)
    requires m + multiset{x} == n + multiset{x}
    ensures m == n
  {
    forall y
      ensures m[y] == n[y]
    {
      assert (m + multiset{x})[y] == (n + multiset{x})[y];
    }
  }

  lemma {:induction false} TotalPermuted(s: seq<nat>, t: seq<nat>)
    requires multiset(s) == multiset(t)
    ensures Total(s) == Total(t)
    decreases |t|
  {
    if t == [] {
      assert |s| == |multiset(s)|;
    } else {
      var before, x := t[..|t| - 1], t[|t| - 1];
      MemberSame(s, t, x);
      var u, v := Around(s, x);
      LastApart(t);
      Cancel(multiset(u + v), multiset(before), x);
      TotalPermuted(u + v, before);
      TotalAppend(u + [x], v);
      TotalAppend(u, [x]);
      TotalAppend(u, v);
      Single(x);
    }
  }

  lemma {:induction false} MapPermuted<A, B>(f: A -> B, s: seq<A>, t: seq<A>)
    requires multiset(s) == multiset(t)
    ensures multiset(Map(f, s)) == multiset(Map(f, t))
    decreases |t|
  {
    if t == [] {
      assert |s| == |multiset(s)|;
      assert Map(f, s) == Map(f, t);
    } else {
      var before, x := t[..|t| - 1], t[|t| - 1];
      MemberSame(s, t, x);
      var u, v := Around(s, x);
      LastApart(t);
      Cancel(multiset(u + v), multiset(before), x);
      MapPermuted(f, u + v, before);
      MapAround(f, s, u, x, v);
      assert Map(f, t) == Map(f, before) + [f(x)];
    }
  }

  lemma MapAround<A, B>(f: A -> B, s: seq<A>, u: seq<A>, x: A, v: seq<A>)
    requires s == u + [x] + v
    ensures multiset(Map(f, s)) == multiset(Map(f, u + v)) + multiset{f(x)}
  {
    assert Map(f, s) == Map(f, u) + [f(x)] + Map(f, v);
    assert Map(f, u + v) == Map(f, u) + Map(f, v);
  }

  function First<A, B>(p: (A, B)): A { p.0 }

  function Second<A, B>(p: (A, B)): B { p.1 }

  function Firsts<A, B>(p: seq<(A, B)>): (r: seq<A>)
    ensures |r| == |p| && forall i :: 0 <= i < |p| ==> r[i] == p[i].0
  {
    Map(First, p)
  }

  function Seconds<A, B>(p: seq<(A, B)>): (r: seq<B>)
    ensures |r| == |p| && forall i :: 0 <= i < |p| ==> r[i] == p[i].1
  {
    Map(Second, p)
  }

  function Zip<A, B>(s: seq<A>, t: seq<B>): (p: seq<(A, B)>)
    requires |s| == |t|
    ensures |p| == |s| && forall i :: 0 <= i < |s| ==> p[i] == (s[i], t[i])
  {
    seq(|s|, i requires 0 <= i < |s| => (s[i], t[i]))
  }

  /** Pairs can be put in any order of their first halves. */
  lemma {:induction false} Arrange<A, B>(p: seq<(A, B)>, r: seq<A>) returns (q: seq<(A, B)>)
    requires multiset(Firsts(p)) == multiset(r)
    ensures multiset(q) == multiset(p) && Firsts(q) == r
    decreases |r|
  {
    if r == [] {
      assert |p| == |multiset(Firsts(p))|;
      q := [];
      assert p == [];
    } else {
      var before, x := r[..|r| - 1], r[|r| - 1];
      MemberSame(Firsts(p), r, x);
      var i :| 0 <= i < |p| && p[i].0 == x;
      var u, v := Around(p, p[i]);
      LastApart(r);
      MapAround(First, p, u, p[i], v);
      Cancel(multiset(Firsts(u + v)), multiset(before), x);
      q := Arrange(u + v, before);
      assert Firsts(q + [p[i]]) == r;
      q := q + [p[i]];
    }
  }

  // ----- Matchings

  type Cost<!A, !B> = (A, B) -> nat

  ghost predicate Metric<T(!new)>(d: Cost<T, T>) {
    && (forall x, y :: d(x, y) == 0 <==> x == y)
    && (forall x, y :: d(x, y) == d(y, x))
    && (forall x, y, z :: d(x, z) <= d(x, y) + d(y, z))
  }

  function Costs<A, B>(d: Cost<A, B>, p: seq<(A, B)>): (r: seq<nat>)
    ensures |r| == |p| && forall i :: 0 <= i < |p| ==> r[i] == d(p[i].0, p[i].1)
  {
    seq<nat>(|p|, i requires 0 <= i < |p| => d(p[i].0, p[i].1))
  }

  function Price<A, B>(d: Cost<A, B>, p: seq<(A, B)>): nat {
    Total(Costs(d, p))
  }

  /** Pairs whose halves are the two multisets, each element used as often as it occurs. */
  ghost predicate Matches<A, B>(p: seq<(A, B)>, m: multiset<A>, n: multiset<B>) {
    multiset(Firsts(p)) == m && multiset(Seconds(p)) == n
  }

  ghost predicate IsLeast<T(!new)>(d: Cost<T, T>, m: multiset<T>, n: multiset<T>, t: nat) {
    && (exists p :: Matches(p, m, n) && Price(d, p) == t)
    && (forall p :: Matches(p, m, n) ==> t <= Price(d, p))
  }

  lemma LeastUnique<T(!new)>(d: Cost<T, T>, m: multiset<T>, n: multiset<T>, t: nat, u: nat)
    requires IsLeast(d, m, n, t) && IsLeast(d, m, n, u)
    ensures t == u
  {
    var p: seq<(T, T)> :| Matches(p, m, n) && Price(d, p) == t;
    var q: seq<(T, T)> :| Matches(q, m, n) && Price(d, q) == u;
    assert u <= Price(d, p) && t <= Price(d, q);
  }

  lemma PricePermuted<A, B>(d: Cost<A, B>, p: seq<(A, B)>, q: seq<(A, B)>)
    requires multiset(p) == multiset(q)
    ensures Price(d, p) == Price(d, q)
  {
    var f := (x: (A, B)) => d(x.0, x.1);
    MapPermuted(f, p, q);
    assert Costs(d, p) == Map(f, p) && Costs(d, q) == Map(f, q);
    TotalPermuted(Costs(d, p), Costs(d, q));
  }

  lemma MatchesPermuted<A, B>(p: seq<(A, B)>, q: seq<(A, B)>, m: multiset<A>, n: multiset<B>)
    requires multiset(p) == multiset(q) && Matches(p, m, n)
    ensures Matches(q, m, n)
  {
    MapPermuted(First, p, q);
    MapPermuted(Second, p, q);
  }

  lemma PriceAppend<T(!new)>(d: Cost<T, T>, p: seq<(T, T)>, q: seq<(T, T)>)
    ensures Price(d, p + q) == Price(d, p) + Price(d, q)
  {
    assert Costs(d, p + q) == Costs(d, p) + Costs(d, q);
    TotalAppend(Costs(d, p), Costs(d, q));
  }

  lemma PriceOne<T(!new)>(d: Cost<T, T>, x: T, y: T)
    ensures Price(d, [(x, y)]) == d(x, y)
  {
    assert Costs(d, [(x, y)]) == [d(x, y)];
    Single(d(x, y));
  }

  // ----- Metric laws of the least cost

  function Swapped<T>(p: seq<(T, T)>): seq<(T, T)> {
    Zip(Seconds(p), Firsts(p))
  }

  lemma SwappedPrice<T(!new)>(d: Cost<T, T>, p: seq<(T, T)>, m: multiset<T>, n: multiset<T>)
    requires Metric(d) && Matches(p, m, n)
    ensures Matches(Swapped(p), n, m) && Price(d, Swapped(p)) == Price(d, p)
  {
    assert Firsts(Swapped(p)) == Seconds(p) && Seconds(Swapped(p)) == Firsts(p);
    assert Costs(d, Swapped(p)) == Costs(d, p);
  }

  lemma LeastSymmetric<T(!new)>(d: Cost<T, T>, m: multiset<T>, n: multiset<T>, t: nat)
    requires Metric(d) && IsLeast(d, m, n, t)
    ensures IsLeast(d, n, m, t)
  {
    var p: seq<(T, T)> :| Matches(p, m, n) && Price(d, p) == t;
    SwappedPrice(d, p, m, n);
    forall q | Matches(q, n, m)
      ensures t <= Price(d, q)
    {
      SwappedPrice(d, q, n, m);
    }
  }

  lemma {:induction false} ThroughPrice<T(!new)>(d: Cost<T, T>, p: seq<(T, T)>, q: seq<(T, T)>)
    requires Metric(d) && Seconds(p) == Firsts(q)
    ensures Price(d, Zip(Firsts(p), Seconds(q))) <= Price(d, p) + Price(d, q)
    decreases |p|
  {
    assert |p| == |Seconds(p)| == |q|;
    if p != [] {
      var k := |p| - 1;
      var a, b := p[..k], q[..k];
      assert Seconds(a) == Seconds(p)[..k] && Firsts(b) == Firsts(q)[..k];
      ThroughPrice(d, a, b);
      assert p[k].1 == Seconds(p)[k] == q[k].0;
      var x, y, z := p[k].0, p[k].1, q[k].1;
      assert p == a + [(x, y)] && q == b + [(y, z)];
      assert Zip(Firsts(p), Seconds(q)) == Zip(Firsts(a), Seconds(b)) + [(x, z)];
      PriceAppend(d, a, [(x, y)]);
      PriceAppend(d, b, [(y, z)]);
      PriceAppend(d, Zip(Firsts(a), Seconds(b)), [(x, z)]);
      PriceOne(d, x, y);
      PriceOne(d, y, z);
      PriceOne(d, x, z);
    }
  }

  /** Two matchings through one multiset make a matching of the outer ones at no greater cost. */
  lemma Through<T(!new)>(d: Cost<T, T>, p: seq<(T, T)>, q: seq<(T, T)>, m: multiset<T>, n: multiset<T>, k: multiset<T>)
    returns (s: seq<(T, T)>)
    requires Metric(d) && Matches(p, m, n) && Matches(q, n, k)
    ensures Matches(s, m, k) && Price(d, s) <= Price(d, p) + Price(d, q)
  {
    var r := Arrange(q, Seconds(p));
    MatchesPermuted(q, r, n, k);
    PricePermuted(d, q, r);
    ThroughPrice(d, p, r);
    assert |p| == |Seconds(p)| == |r|;
    s := Zip(Firsts(p), Seconds(r));
    assert Firsts(s) == Firsts(p) && Seconds(s) == Seconds(r);
  }

  lemma {:induction false} LeastTriangle<T(!new)>(d: Cost<T, T>, m: multiset<T>, n: multiset<T>, k: multiset<T>, t: nat, u: nat, v: nat)
    requires Metric(d) && IsLeast(d, m, n, t) && IsLeast(d, n, k, u) && IsLeast(d, m, k, v)
    ensures v <= t + u
  {
    var p: seq<(T, T)> :| Matches(p, m, n) && Price(d, p) == t;
    var q: seq<(T, T)> :| Matches(q, n, k) && Price(d, q) == u;
    var s := Through(d, p, q, m, n, k);
  }

  lemma {:induction false} TotalZero(s: seq<nat>)
    ensures Total(s) == 0 <==> forall i :: 0 <= i < |s| ==> s[i] == 0
  {
    if s != [] {
      TotalZero(s[..|s| - 1]);
    }
  }

  lemma LeastZero<T(!new)>(d: Cost<T, T>, m: multiset<T>, n: multiset<T>, t: nat)
    requires Metric(d) && IsLeast(d, m, n, t)
    ensures t == 0 <==> m == n
  {
    var p: seq<(T, T)> :| Matches(p, m, n) && Price(d, p) == t;
    TotalZero(Costs(d, p));
    if t == 0 {
      forall i | 0 <= i < |p|
        ensures p[i].0 == p[i].1
      {
        assert Costs(d, p)[i] == 0;
      }
      assert Firsts(p) == Seconds(p);
    }
    if m == n {
      var same := Zip(Firsts(p), Firsts(p));
      assert Firsts(same) == Firsts(p) && Seconds(same) == Firsts(p);
      TotalZero(Costs(d, same));
      assert Matches(same, m, n);
    }
  }

  // ----- Padding

  /** A matching of two padded multisets without the padding, at no greater cost. */
  lemma Unpadded<T(!new)>(d: Cost<T, T>, p: seq<(T, T)>, m: multiset<T>, n: multiset<T>, e: T) returns (q: seq<(T, T)>)
    requires Metric(d) && Matches(p, m + multiset{e}, n + multiset{e})
    ensures Matches(q, m, n) && Price(d, q) <= Price(d, p)
  {
    var i := PairOf(p, e, m);
    var y := p[i].1;
    SecondIn(p, i, n + multiset{e});
    q := Without(d, p, p[i], m + multiset{e}, n + multiset{e});
    Restored(m, e);
    Restored(n, e);
    if y != e {
      q := Rerouted(d, q, m, n, e, y);
    }
  }

  lemma SecondIn<T>(p: seq<(T, T)>, i: nat, n: multiset<T>)
    requires i < |p| && multiset(Seconds(p)) == n
    ensures p[i].1 in n
  {
    assert Seconds(p)[i] == p[i].1;
    assert p[i].1 in multiset(Seconds(p));
  }

  lemma Restored<T>(m: multiset<T>, e: T)
    ensures m + multiset{e} - multiset{e} == m
  {
  }

  /** The partner of e among the rest takes y, which e leaves free. */
  lemma Rerouted<T(!new)>(d: Cost<T, T>, rest: seq<(T, T)>, m: multiset<T>, n: multiset<T>, e: T, y: T) returns (q: seq<(T, T)>)
    requires Metric(d) && y != e && y in n + multiset{e} && Matches(rest, m, n + multiset{e} - multiset{y})
    ensures Matches(q, m, n) && Price(d, q) <= Price(d, rest) + d(e, y)
  {
    q := Bridged(d, rest, m, n + multiset{e} - multiset{y}, e, y);
    Dropped(n, e, y);
  }

  lemma PairOf<T>(p: seq<(T, T)>, e: T, m: multiset<T>) returns (i: nat)
    requires multiset(Firsts(p)) == m + multiset{e}
    ensures i < |p| && p[i].0 == e
  {
    assert e in multiset(Firsts(p));
    i :| 0 <= i < |p| && Firsts(p)[i] == e;
  }

  lemma Dropped<T>(n: multiset<T>, e: T, y: T)
    requires y != e && y in n + multiset{e}
    ensures n + multiset{e} - multiset{y} - multiset{e} + multiset{y} == n
  {
  }

  /** The partner x of e takes y instead, going through e. */
  lemma Bridged<T(!new)>(d: Cost<T, T>, p: seq<(T, T)>, m: multiset<T>, n: multiset<T>, e: T, y: T) returns (q: seq<(T, T)>)
    requires Metric(d) && Matches(p, m, n) && e in n
    ensures Matches(q, m, n - multiset{e} + multiset{y}) && Price(d, q) <= Price(d, p) + d(e, y)
  {
    assert e in multiset(Seconds(p));
    var j :| 0 <= j < |p| && p[j].1 == e;
    var x := p[j].0;
    assert x in Firsts(p);
    var others := Without(d, p, p[j], m, n);
    Joined(d, others, x, y, m - multiset{x}, n - multiset{e});
    assert m - multiset{x} + multiset{x} == m;
    assert d(x, y) <= d(x, e) + d(e, y);
    q := others + [(x, y)];
  }

  lemma Without<T(!new)>(d: Cost<T, T>, p: seq<(T, T)>, x: (T, T), m: multiset<T>, n: multiset<T>) returns (q: seq<(T, T)>)
    requires x in p && Matches(p, m, n)
    ensures Matches(q, m - multiset{x.0}, n - multiset{x.1}) && Price(d, p) == Price(d, q) + d(x.0, x.1)
  {
    var u, v := Around(p, x);
    q := u + v;
    MapAround(First, p, u, x, v);
    MapAround(Second, p, u, x, v);
    PriceAppend(d, u + [x], v);
    PriceAppend(d, u, [x]);
    PriceAppend(d, u, v);
    PriceOne(d, x.0, x.1);
    assert x == (x.0, x.1);
  }

  lemma Joined<T(!new)>(d: Cost<T, T>, p: seq<(T, T)>, x: T, y: T, m: multiset<T>, n: multiset<T>)
    requires Matches(p, m, n)
    ensures Matches(p + [(x, y)], m + multiset{x}, n + multiset{y}) && Price(d, p + [(x, y)]) == Price(d, p) + d(x, y)
  {
    PriceAppend(d, p, [(x, y)]);
    PriceOne(d, x, y);
    assert Firsts(p + [(x, y)]) == Firsts(p) + [x] && Seconds(p + [(x, y)]) == Seconds(p) + [y];
  }

  /** What reaches a cost still reaches it padded, and what is padded costs no less than something that is not. */
  lemma {:induction false} LeastPaddedTo<T(!new)>(d: Cost<T, T>, m: multiset<T>, n: multiset<T>, e: T, t: nat)
    requires Metric(d) && IsLeast(d, m, n, t)
    ensures IsLeast(d, m + multiset{e}, n + multiset{e}, t)
  {
    var p: seq<(T, T)> :| Matches(p, m, n) && Price(d, p) == t;
    Joined(d, p, e, e, m, n);
    forall q | Matches(q, m + multiset{e}, n + multiset{e})
      ensures t <= Price(d, q)
    {
      var r := Unpadded(d, q, m, n, e);
    }
  }

  lemma {:induction false} LeastPaddedFrom<T(!new)>(d: Cost<T, T>, m: multiset<T>, n: multiset<T>, e: T, t: nat)
    requires Metric(d) && IsLeast(d, m + multiset{e}, n + multiset{e}, t)
    ensures IsLeast(d, m, n, t)
  {
    var q: seq<(T, T)> :| Matches(q, m + multiset{e}, n + multiset{e}) && Price(d, q) == t;
    forall p | Matches(p, m, n)
      ensures t <= Price(d, p)
    {
      Joined(d, p, e, e, m, n);
    }
    var r := Unpadded(d, q, m, n, e);
  }

  /** An element added to both sides changes no least cost. */
  lemma {:induction false} LeastPadded<T(!new)>(d: Cost<T, T>, m: multiset<T>, n: multiset<T>, e: T, t: nat)
    requires Metric(d)
    ensures IsLeast(d, m, n, t) <==> IsLeast(d, m + multiset{e}, n + multiset{e}, t)
  {
    if IsLeast(d, m, n, t) {
      LeastPaddedTo(d, m, n, e, t);
    }
    if IsLeast(d, m + multiset{e}, n + multiset{e}, t) {
      LeastPaddedFrom(d, m, n, e, t);
    }
  }

  // ----- Orders

  function Range(n: nat): (r: seq<nat>)
    ensures |r| == n && forall i :: 0 <= i < n ==> r[i] == i
  {
    seq(n, i => i)
  }

  /** A permutation of the first n indices. */
  ghost predicate IsOrder(order: seq<nat>, n: nat) {
    multiset(order) == multiset(Range(n))
  }

  lemma OrderIndices(order: seq<nat>, n: nat)
    requires IsOrder(order, n)
    ensures |order| == n && forall i :: 0 <= i < n ==> order[i] < n
  {
    assert |multiset(order)| == |order| && |multiset(Range(n))| == n;
    forall i | 0 <= i < |order|
      ensures order[i] < n
    {
      assert order[i] in multiset(order);
      assert order[i] in Range(n);
    }
  }

  function Pick<T>(h: seq<T>, order: seq<nat>): (r: seq<T>)
    requires forall i :: 0 <= i < |order| ==> order[i] < |h|
    ensures |r| == |order| && forall i :: 0 <= i < |order| ==> r[i] == h[order[i]]
  {
    seq(|order|, i requires 0 <= i < |order| => h[order[i]])
  }

  lemma PickOrder<T>(h: seq<T>, order: seq<nat>)
    requires IsOrder(order, |h|)
    ensures (forall i :: 0 <= i < |order| ==> order[i] < |h|) && multiset(Pick(h, order)) == multiset(h)
  {
    OrderIndices(order, |h|);
    if h != [] {
      var f := (i: nat) => if i < |h| then h[i] else h[0];
      MapPermuted(f, order, Range(|h|));
      assert Map(f, order) == Pick(h, order) && Map(f, Range(|h|)) == h;
    }
  }

  /** Every matching of two sequences is an order of the second. */
  lemma MatchOrder<A, B>(d: Cost<A, B>, p: seq<(A, B)>, r: seq<A>, h: seq<B>) returns (order: seq<nat>)
    requires Matches(p, multiset(r), multiset(h))
    ensures |r| == |h| && IsOrder(order, |h|) && (forall i :: 0 <= i < |order| ==> order[i] < |h|)
    ensures |order| == |r| && multiset(Zip(r, Pick(h, order))) == multiset(p) && Price(d, Zip(r, Pick(h, order))) == Price(d, p)
  {
    var q := Arrange(p, r);
    MatchesPermuted(p, q, multiset(r), multiset(h));
    PricePermuted(d, p, q);
    assert |multiset(h)| == |h| && |multiset(Seconds(q))| == |q| && |q| == |Firsts(q)| == |r|;
    var numbered := Zip(h, Range(|h|));
    assert Firsts(numbered) == h && Seconds(numbered) == Range(|h|);
    var placed := Arrange(numbered, Seconds(q));
    order := Seconds(placed);
    MapPermuted(Second, placed, numbered);
    OrderIndices(order, |h|);
    assert |placed| == |Firsts(placed)| == |q|;
    forall i | 0 <= i < |q|
      ensures q[i] == (r[i], h[order[i]])
    {
      assert placed[i] in multiset(placed);
      assert placed[i] in numbered;
      assert q[i].1 == Firsts(placed)[i] && q[i].0 == Firsts(q)[i];
    }
    assert q == Zip(r, Pick(h, order));
  }
}
