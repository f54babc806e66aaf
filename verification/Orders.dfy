/** Every order of a list of indices, in lexicographic order, and the first cheapest of them. */
module Orders {
  import opened Matching

  function Without(items: seq<nat>, k: nat): seq<nat>
    requires k < |items|
  {
    items[..k] + items[k + 1..]
  }

  function Begun(x: nat, orders: seq<seq<nat>>): (r: seq<seq<nat>>)
    ensures |r| == |orders| && forall i :: 0 <= i < |r| ==> r[i] == [x] + orders[i]
  {
    seq(|orders|, i requires 0 <= i < |orders| => [x] + orders[i])
  }

  /** All orders of the items, those beginning with an earlier item first. */
  function Permutations(items: seq<nat>): seq<seq<nat>>
    decreases |items|, |items| + 2
  {
    if items == [] then [[]] else Beginning(items, |items|)
  }

  function Beginning(items: seq<nat>, k: nat): seq<seq<nat>>
    requires k <= |items|
    decreases |items|, k + 1
  {
    if k == 0 then [] else Beginning(items, k - 1) + Begun(items[k - 1], Permutations(Without(items, k - 1)))
  }

  lemma WithoutMultiset(items: seq<nat>, k: nat)
    requires k < |items|
    ensures multiset(items) == multiset(Without(items, k)) + multiset{items[k]}
  {
    assert items == items[..k] + [items[k]] + items[k + 1..];
  }

  lemma {:induction false} Sound(items: seq<nat>, order: seq<nat>)
    requires order in Permutations(items)
    ensures multiset(order) == multiset(items)
    decreases |items|, |items| + 2
  {
    if items != [] {
      SoundBeginning(items, |items|, order);
    }
  }

  lemma {:induction false} SoundBeginning(items: seq<nat>, k: nat, order: seq<nat>)
    requires k <= |items| && order in Beginning(items, k)
    ensures multiset(order) == multiset(items)
    decreases |items|, k + 1
  {
    if order in Beginning(items, k - 1) {
      SoundBeginning(items, k - 1, order);
    } else {
      var tail := TailOf(items[k - 1], Permutations(Without(items, k - 1)), order);
      Sound(Without(items, k - 1), tail);
      WithoutMultiset(items, k - 1);
    }
  }

  lemma TailOf(x: nat, orders: seq<seq<nat>>, order: seq<nat>) returns (tail: seq<nat>)
    requires order in Begun(x, orders)
    ensures tail in orders && multiset(order) == multiset(tail) + multiset{x}
  {
    var i :| 0 <= i < |orders| && order == [x] + orders[i];
    tail := orders[i];
  }

  lemma {:induction false} Complete(items: seq<nat>, order: seq<nat>)
    requires multiset(order) == multiset(items)
    ensures order in Permutations(items)
    decreases |items|
  {
    assert |multiset(order)| == |order| && |multiset(items)| == |items|;
    if items != [] {
      var x := order[0];
      MemberSame(items, order, x);
      var k :| 0 <= k < |items| && items[k] == x;
      WithoutMultiset(items, k);
      assert order == [x] + order[1..];
      Cancel(multiset(order[1..]), multiset(Without(items, k)), x);
      Complete(Without(items, k), order[1..]);
      var rest := Permutations(Without(items, k));
      var i :| 0 <= i < |rest| && rest[i] == order[1..];
      assert Begun(x, rest)[i] == order;
      BeginningGrows(items, k + 1, |items|, order);
    }
  }

  lemma {:induction false} BeginningGrows(items: seq<nat>, k: nat, m: nat, order: seq<nat>)
    requires k <= m <= |items| && order in Beginning(items, k)
    ensures order in Beginning(items, m)
    decreases m
  {
    if k != m {
      BeginningGrows(items, k, m - 1, order);
    }
  }

  /** The orders of the first n indices are exactly the enumerated ones. */
  lemma Enumerated(n: nat, order: seq<nat>)
    ensures order in Permutations(Range(n)) <==> IsOrder(order, n)
  {
    if order in Permutations(Range(n)) {
      Sound(Range(n), order);
    }
    if IsOrder(order, n) {
      Complete(Range(n), order);
    }
  }

  // ----- Lexicographic order

  predicate Before(a: seq<nat>, b: seq<nat>) {
    if a == [] || b == [] then a == [] && b != []
    else a[0] < b[0] || (a[0] == b[0] && Before(a[1..], b[1..]))
  }

  lemma {:induction false} BeforeStrict(a: seq<nat>, b: seq<nat>)
    ensures !(Before(a, b) && Before(b, a)) && (a == b || Before(a, b) || Before(b, a)) && !Before(a, a)
  {
    if a != [] && b != [] {
      BeforeStrict(a[1..], b[1..]);
      assert a == [a[0]] + a[1..] && b == [b[0]] + b[1..];
    }
    if a != [] {
      BeforeStrict(a[1..], a[1..]);
    }
  }

  lemma {:induction false} BeforeThrough(a: seq<nat>, b: seq<nat>, c: seq<nat>)
    requires Before(a, b) && Before(b, c)
    ensures Before(a, c)
  {
    if a != [] && a[0] == b[0] && b[0] == c[0] {
      BeforeThrough(a[1..], b[1..], c[1..]);
    }
  }

  ghost predicate Ascending(s: seq<nat>) {
    forall i, j :: 0 <= i < j < |s| ==> s[i] < s[j]
  }

  ghost predicate Listed(orders: seq<seq<nat>>) {
    forall i, j :: 0 <= i < j < |orders| ==> Before(orders[i], orders[j])
  }

  lemma {:induction false} PermutationsListed(items: seq<nat>)
    requires Ascending(items)
    ensures Listed(Permutations(items))
    decreases |items|, |items| + 2
  {
    if items != [] {
      BeginningListed(items, |items|);
    }
  }

  lemma {:induction false} BeginningListed(items: seq<nat>, k: nat)
    requires k <= |items| && Ascending(items)
    ensures Listed(Beginning(items, k))
    ensures forall i :: 0 <= i < |Beginning(items, k)| ==>
              Beginning(items, k)[i] != [] && Beginning(items, k)[i][0] in items[..k]
    decreases |items|, k + 1
  {
    if k != 0 {
      var x, rest := items[k - 1], Permutations(Without(items, k - 1));
      BeginningListed(items, k - 1);
      PermutationsListed(Without(items, k - 1));
      BegunListed(x, rest);
      ListedAppend(Beginning(items, k - 1), x, Begun(x, rest));
      assert items[..k] == items[..k - 1] + [x];
    }
  }

  lemma BegunListed(x: nat, orders: seq<seq<nat>>)
    requires Listed(orders)
    ensures Listed(Begun(x, orders))
  {
    forall i, j | 0 <= i < j < |orders|
      ensures Before([x] + orders[i], [x] + orders[j])
    {
      assert ([x] + orders[i])[1..] == orders[i] && ([x] + orders[j])[1..] == orders[j];
    }
  }

  lemma ListedAppend(a: seq<seq<nat>>, x: nat, b: seq<seq<nat>>)
    requires Listed(a) && Listed(b)
    requires forall i :: 0 <= i < |a| ==> a[i] != [] && a[i][0] < x
    requires forall i :: 0 <= i < |b| ==> b[i] != [] && b[i][0] == x
    ensures Listed(a + b)
  {
  }

  // ----- The cheapest order

  type Fee = seq<nat> -> nat

  predicate Better(price: Fee, a: seq<nat>, b: seq<nat>) {
    price(a) < price(b) || (price(a) == price(b) && Before(a, b))
  }

  /** The cheapest order, the lexicographically first of those. */
  ghost predicate Chosen(price: Fee, n: nat, order: seq<nat>) {
    IsOrder(order, n) && forall o :: IsOrder(o, n) && o != order ==> Better(price, order, o)
  }

  lemma ChosenUnique(price: Fee, n: nat, a: seq<nat>, b: seq<nat>)
    requires Chosen(price, n, a) && Chosen(price, n, b)
    ensures a == b
  {
    BeforeStrict(a, b);
  }

  /** An order seen that beats every other one seen. */
  ghost predicate Ahead(price: Fee, seen: seq<seq<nat>>, best: seq<nat>) {
    best in seen && forall o :: o in seen && o != best ==> Better(price, best, o)
  }

  lemma AheadNext(price: Fee, seen: seq<seq<nat>>, best: seq<nat>, o: seq<nat>)
    requires Ahead(price, seen, best)
    ensures Ahead(price, seen + [o], if Better(price, o, best) then o else best)
  {
    BeforeStrict(o, best);
    forall x | x in seen && Before(o, best) && Before(best, x)
      ensures Before(o, x)
    {
      BeforeThrough(o, best, x);
    }
  }

  lemma AheadChosen(price: Fee, n: nat, best: seq<nat>)
    requires Ahead(price, Permutations(Range(n)), best)
    ensures Chosen(price, n, best)
  {
    Enumerated(n, best);
    forall o | IsOrder(o, n) && o != best
      ensures Better(price, best, o)
    {
      Enumerated(n, o);
    }
  }

  /** The first order of least price in a list, as min with a key finds it. */
  function FirstLeast(price: Fee, orders: seq<seq<nat>>): seq<nat>
    requires orders != []
  {
    if |orders| == 1 then orders[0]
    else
      var best, last := FirstLeast(price, orders[..|orders| - 1]), orders[|orders| - 1];
      if price(last) < price(best) then last else best
  }

  lemma {:induction false} FirstLeastBest(price: Fee, orders: seq<seq<nat>>)
    requires orders != [] && Listed(orders)
    ensures Ahead(price, orders, FirstLeast(price, orders))
    decreases |orders|
  {
    if |orders| != 1 {
      var before, last := orders[..|orders| - 1], orders[|orders| - 1];
      FirstLeastBest(price, before);
      var best := FirstLeast(price, before);
      assert orders == before + [last];
    }
  }

  lemma FirstLeastChosen(price: Fee, n: nat)
    ensures Permutations(Range(n)) != [] && Chosen(price, n, FirstLeast(price, Permutations(Range(n))))
  {
    var orders := Permutations(Range(n));
    Enumerated(n, Range(n));
    PermutationsListed(Range(n));
    FirstLeastBest(price, orders);
    AheadChosen(price, n, FirstLeast(price, orders));
  }
}
