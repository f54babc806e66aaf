/** The identity evaluation as it runs: joins, ranked assignments, a refused tie, and graded rows. */
module IdentityEvaluation {
  import opened EditDistance
  import opened IdentityVerdict
  import opened Matching
  import opened Orders
  import opened Sequences
  import opened Sorting
  import opened SpeakerScore
  import opened SpeakerTotals
  import opened Wrappers

  // ----- Joins

  type Joins = map<Key, seq<Observation>>

  function WithKey(observations: seq<Observation>, k: Key): seq<Observation> {
    if observations == [] then []
    else
      var last := observations[|observations| - 1];
      WithKey(observations[..|observations| - 1], k) + if ObservedKey(last) == k then [last] else []
  }

  lemma {:induction false} WithKeyCounts(observations: seq<Observation>, k: Key)
    ensures |WithKey(observations, k)| == ObservedKeys(observations)[k]
    ensures forall o :: o in WithKey(observations, k) <==> o in observations && ObservedKey(o) == k
  {
    if observations != [] {
      var before, last := observations[..|observations| - 1], observations[|observations| - 1];
      WithKeyCounts(before, k);
      assert Map(ObservedKey, observations) == Map(ObservedKey, before) + [ObservedKey(last)];
      assert observations == before + [last];
    }
  }

  ghost predicate Joined(joins: Joins, finals: seq<Final>, observations: seq<Observation>) {
    && (forall k :: k in joins <==> k in FinalKeys(finals))
    && forall k :: k in joins ==> joins[k] == WithKey(observations, k)
  }

  method JoinFinals(finals: seq<Final>) returns (r: Option<Joins>)
    ensures r.Some? <==> FinalsClear(finals)
    ensures r.Some? ==> Joined(r.value, finals, [])
  {
    var joins: Joins := map[];
    for i := 0 to |finals|
      invariant FinalsClear(finals[..i]) && Joined(joins, finals[..i], [])
    {
      var row := finals[i];
      TakeNext(finals, i);
      FinalAdded(finals[..i], row, joins);
      if row.track == "" || FinalKey(row) in joins || row.words == [] {
        if FinalsClear(finals) {
          ClearPrefix(finals, i + 1);
        }
        return None;
      }
      joins := joins[FinalKey(row) := []];
    }
    assert finals[..|finals|] == finals;
    return Some(joins);
  }

  lemma {:induction false} FinalAdded(before: seq<Final>, row: Final, joins: Joins)
    requires FinalsClear(before) && Joined(joins, before, [])
    ensures FinalsClear(before + [row]) <==> row.track != "" && row.words != [] && FinalKey(row) !in joins
    ensures Joined(joins[FinalKey(row) := []], before + [row], [])
  {
    var after := before + [row];
    assert Map(FinalKey, after) == Map(FinalKey, before) + [FinalKey(row)];
    assert FinalKeys(after) == FinalKeys(before) + multiset{FinalKey(row)};
    assert row in after;
    if FinalKey(row) in joins {
      assert FinalKeys(after)[FinalKey(row)] >= 2;
    }
  }

  lemma {:induction false} ClearPrefix(finals: seq<Final>, i: nat)
    requires i <= |finals| && FinalsClear(finals)
    ensures FinalsClear(finals[..i])
  {
    assert finals == finals[..i] + finals[i..];
    assert Map(FinalKey, finals) == Map(FinalKey, finals[..i]) + Map(FinalKey, finals[i..]);
    forall k
      ensures FinalKeys(finals[..i])[k] <= 1
    {
      assert FinalKeys(finals)[k] <= 1;
    }
  }

  method JoinObservations(finals: seq<Final>, observations: seq<Observation>, empty: Joins) returns (r: Option<Joins>)
    requires Joined(empty, finals, [])
    ensures r.Some? <==> Known(finals, observations)
    ensures r.Some? ==> Joined(r.value, finals, observations)
  {
    var joins := empty;
    for i := 0 to |observations|
      invariant Known(finals, observations[..i]) && Joined(joins, finals, observations[..i])
    {
      var row := observations[i];
      TakeNext(observations, i);
      assert observations[..i + 1][..i] == observations[..i];
      assert row in observations;
      if ObservedKey(row) !in joins {
        return None;
      }
      joins := joins[ObservedKey(row) := joins[ObservedKey(row)] + [row]];
      JoinedNext(joins, finals, observations[..i], row);
    }
    assert observations[..|observations|] == observations;
    return Some(joins);
  }

  lemma {:induction false} JoinedNext(joins: Joins, finals: seq<Final>, before: seq<Observation>, row: Observation)
    requires forall k :: k in joins <==> k in FinalKeys(finals)
    requires forall k :: k in joins ==>
               joins[k] == if k == ObservedKey(row) then WithKey(before, k) + [row] else WithKey(before, k)
    ensures Joined(joins, finals, before + [row])
  {
    assert (before + [row])[..|before|] == before;
    forall k | k in joins
      ensures joins[k] == WithKey(before + [row], k)
    {
      assert WithKey(before, k) + [] == WithKey(before, k);
    }
  }

  lemma {:induction false} JoinsAnswer(joins: Joins, finals: seq<Final>, observations: seq<Observation>)
    requires Joined(joins, finals, observations)
    ensures (forall k :: k in joins ==> |joins[k]| == 1) <==> Answered(finals, observations)
    ensures forall k :: k in joins ==> forall o :: o in joins[k] <==> o in observations && ObservedKey(o) == k
    ensures forall f :: f in finals ==> FinalKey(f) in joins
  {
    forall k | k in joins
      ensures |joins[k]| == ObservedKeys(observations)[k]
      ensures forall o :: o in joins[k] <==> o in observations && ObservedKey(o) == k
    {
      WithKeyCounts(observations, k);
    }
    forall f | f in finals
      ensures FinalKey(f) in joins
    {
      var i :| 0 <= i < |finals| && finals[i] == f;
      assert Map(FinalKey, finals)[i] == FinalKey(f);
    }
    forall k | k in joins
      ensures exists f :: f in finals && FinalKey(f) == k
    {
      assert k in Map(FinalKey, finals);
      var i :| 0 <= i < |finals| && Map(FinalKey, finals)[i] == k;
      assert finals[i] in finals;
    }
  }

  // ----- Ranked assignments

  function OrderOf(c: Candidate): seq<nat> {
    c.order
  }

  predicate Stays(before: Candidate, c: Candidate) {
    !Replaces(c, before)
  }

  ghost predicate InRank(ranked: seq<Candidate>) {
    InOrder(Stays, ranked)
  }

  lemma StaysLinear()
    ensures Linear(Stays)
  {
    forall a, b
      ensures Stays(a, b) || Stays(b, a)
    {
      ReplacesOrder(a, b);
    }
    forall a, b, c | Stays(a, b) && Stays(b, c)
      ensures Stays(a, c)
    {
      ReplacesThrough(c, a, b);
    }
  }

  lemma ReplacesOrder(c: Candidate, d: Candidate)
    ensures !(Replaces(c, d) && Replaces(d, c))
  {
    BeforeStrict(c.order, d.order);
  }

  lemma ReplacesThrough(c: Candidate, x: Candidate, last: Candidate)
    requires !Replaces(last, x) && !Replaces(c, last)
    ensures !Replaces(c, x)
  {
    BeforeStrict(x.order, last.order);
    BeforeStrict(c.order, last.order);
    BeforeStrict(c.order, x.order);
    if Before(c.order, x.order) && Before(x.order, last.order) {
      BeforeThrough(c.order, x.order, last.order);
    }
  }

  ghost predicate RanksAll(r: seq<Words>, h: seq<Words>, orders: seq<seq<nat>>, ranked: seq<Candidate>) {
    && InRank(ranked) && multiset(Map(OrderOf, ranked)) == multiset(orders)
    && forall c :: c in ranked ==> Priced(r, h, c)
  }

  method Rank(r: seq<Words>, h: seq<Words>) returns (ranked: seq<Candidate>)
    requires |r| == |h|
    ensures RanksAll(r, h, Permutations(Range(|r|)), ranked)
  {
    var orders := Permutations(Range(|r|));
    ranked := [];
    for k := 0 to |orders|
      invariant RanksAll(r, h, orders[..k], ranked)
    {
      var c := Attempt(r, h, orders[k]);
      TakeNext(orders, k);
      RankedNext(r, h, orders[..k], ranked, c);
      ranked := Placed(Stays, c, ranked);
    }
    assert orders[..|orders|] == orders;
  }

  lemma {:induction false} RankedNext(r: seq<Words>, h: seq<Words>, seen: seq<seq<nat>>, ranked: seq<Candidate>, c: Candidate)
    requires RanksAll(r, h, seen, ranked) && Priced(r, h, c)
    ensures RanksAll(r, h, seen + [c.order], Placed(Stays, c, ranked))
  {
    StaysLinear();
    PlacedMembers(Stays, c, ranked);
    PlacedInOrder(Stays, c, ranked);
    assert multiset(Placed(Stays, c, ranked)) == multiset(ranked + [c]);
    MapPermuted(OrderOf, Placed(Stays, c, ranked), ranked + [c]);
    assert Map(OrderOf, ranked + [c]) == Map(OrderOf, ranked) + [c.order];
    SameMembers(Placed(Stays, c, ranked), ranked + [c]);
  }

  // ----- From orders to matchings

  function EntryWords(e: Entry): Words {
    e.words
  }

  function FinalWords(f: Final): Words {
    f.words
  }

  function Pairs(reference: seq<Entry>, finals: seq<Final>, order: seq<nat>): (p: seq<Pair>)
    requires |order| == |reference| && Indexes(order, |finals|)
    ensures |p| == |reference| && forall i :: 0 <= i < |p| ==> p[i] == (reference[i], finals[order[i]])
  {
    Zip(reference, Pick(finals, order))
  }

  function PriceOfCase(reference: seq<Entry>, finals: seq<Final>): Fee {
    PriceOf(Map(EntryWords, reference), Map(FinalWords, finals))
  }

  lemma {:induction false} PairsPrice(reference: seq<Entry>, finals: seq<Final>, order: seq<nat>)
    requires |order| == |reference| && Indexes(order, |finals|)
    ensures Price(Errors, Pairs(reference, finals, order)) == PriceOfCase(reference, finals)(order)
  {
    assert Costs(Errors, Pairs(reference, finals, order)) ==
           ErrorsOf(Map(EntryWords, reference), Map(FinalWords, finals), order);
  }

  ghost predicate AllDistinct<T>(s: seq<T>) {
    forall i, j :: 0 <= i < j < |s| ==> s[i] != s[j]
  }

  /** Different orders of distinct finals are different matchings. */
  lemma {:induction false} OrdersDiffer(reference: seq<Entry>, finals: seq<Final>, a: seq<nat>, b: seq<nat>)
    requires |a| == |b| == |reference| && Indexes(a, |finals|) && Indexes(b, |finals|)
    requires AllDistinct(reference) && AllDistinct(finals)
    requires multiset(Pairs(reference, finals, a)) == multiset(Pairs(reference, finals, b))
    ensures a == b
  {
    SameMembers(Pairs(reference, finals, a), Pairs(reference, finals, b));
    forall i | 0 <= i < |a|
      ensures a[i] == b[i]
    {
      var x := Pairs(reference, finals, a)[i];
      assert x in Pairs(reference, finals, b);
      var j :| 0 <= j < |b| && Pairs(reference, finals, b)[j] == x;
      assert reference[j] == reference[i];
    }
  }

  /** An order cheaper than every other one. */
  ghost predicate Strictly(price: Fee, n: nat, order: seq<nat>) {
    IsOrder(order, n) && forall o :: IsOrder(o, n) && o != order ==> price(order) < price(o)
  }

  lemma {:induction false} OrderMatches(reference: seq<Entry>, finals: seq<Final>, order: seq<nat>)
    requires |reference| == |finals| && IsOrder(order, |finals|)
    ensures |order| == |reference| && Indexes(order, |finals|)
    ensures Matches(Pairs(reference, finals, order), multiset(reference), multiset(finals))
  {
    OrderIndices(order, |finals|);
    PickOrder(finals, order);
    var pairs := Pairs(reference, finals, order);
    assert Firsts(pairs) == reference && Seconds(pairs) == Pick(finals, order);
  }

  lemma {:induction false} MatchingOrder(reference: seq<Entry>, finals: seq<Final>, q: seq<Pair>) returns (order: seq<nat>)
    requires Matches(q, multiset(reference), multiset(finals))
    ensures |reference| == |finals| == |order| && IsOrder(order, |finals|) && Indexes(order, |finals|)
    ensures multiset(Pairs(reference, finals, order)) == multiset(q)
    ensures PriceOfCase(reference, finals)(order) == Price(Errors, q)
  {
    order := MatchOrder(Errors, q, reference, finals);
    PairsPrice(reference, finals, order);
  }

  lemma {:induction false} Cheaper(reference: seq<Entry>, finals: seq<Final>, order: seq<nat>, q: seq<Pair>)
    requires |reference| == |finals| == |order| && Indexes(order, |finals|)
    requires Strictly(PriceOfCase(reference, finals), |finals|, order)
    requires Matches(q, multiset(reference), multiset(finals)) && multiset(q) != multiset(Pairs(reference, finals, order))
    ensures Price(Errors, Pairs(reference, finals, order)) < Price(Errors, q)
  {
    var o := MatchingOrder(reference, finals, q);
    PairsPrice(reference, finals, order);
  }

  lemma {:induction false} StrictlySole(reference: seq<Entry>, finals: seq<Final>, order: seq<nat>)
    requires |reference| == |finals| && Strictly(PriceOfCase(reference, finals), |finals|, order)
    ensures |order| == |reference| && Indexes(order, |finals|)
    ensures Sole(multiset(Pairs(reference, finals, order)), multiset(reference), multiset(finals))
  {
    OrderMatches(reference, finals, order);
    var pairs := Pairs(reference, finals, order);
    forall p, q | multiset(p) == multiset(pairs) && Matches(q, multiset(reference), multiset(finals)) && multiset(q) != multiset(pairs)
      ensures Price(Errors, p) < Price(Errors, q)
    {
      PricePermuted(Errors, p, pairs);
      Cheaper(reference, finals, order, q);
    }
  }

  lemma {:induction false} NotSole(reference: seq<Entry>, finals: seq<Final>, o: seq<nat>, other: seq<nat>, sole: multiset<Pair>)
    requires |reference| == |finals| && AllDistinct(reference) && AllDistinct(finals)
    requires IsOrder(o, |finals|) && IsOrder(other, |finals|) && o != other
    requires PriceOfCase(reference, finals)(other) <= PriceOfCase(reference, finals)(o)
    requires |o| == |reference| && Indexes(o, |finals|) && multiset(Pairs(reference, finals, o)) == sole
    ensures !Sole(sole, multiset(reference), multiset(finals))
  {
    OrderMatches(reference, finals, other);
    PairsPrice(reference, finals, o);
    PairsPrice(reference, finals, other);
    if multiset(Pairs(reference, finals, other)) == sole {
      OrdersDiffer(reference, finals, o, other);
    }
  }

  /** Two cheapest orders leave no one cheapest matching. */
  lemma {:induction false} TiedUndecided(reference: seq<Entry>, finals: seq<Final>, a: seq<nat>, b: seq<nat>)
    requires |reference| == |finals| && AllDistinct(reference) && AllDistinct(finals)
    requires IsOrder(a, |finals|) && IsOrder(b, |finals|) && a != b
    requires PriceOfCase(reference, finals)(a) == PriceOfCase(reference, finals)(b)
    requires forall o :: IsOrder(o, |finals|) ==> PriceOfCase(reference, finals)(a) <= PriceOfCase(reference, finals)(o)
    ensures !Decided(multiset(reference), multiset(finals))
  {
    forall sole: multiset<Pair>
      ensures !Sole(sole, multiset(reference), multiset(finals))
    {
      if p: seq<Pair> :| multiset(p) == sole && Matches(p, multiset(reference), multiset(finals)) {
        var o := MatchingOrder(reference, finals, p);
        NotSole(reference, finals, o, if o == a then b else a, sole);
      }
    }
  }

  lemma {:induction false} DistinctOnce<T>(s: seq<T>, x: T)
    requires AllDistinct(s)
    ensures multiset(s)[x] <= 1
  {
    if s != [] {
      DistinctOnce(s[..|s| - 1], x);
      LastApart(s);
      assert s[|s| - 1] !in s[..|s| - 1];
    }
  }

  lemma {:induction false} OnceDistinct<T>(s: seq<T>)
    requires forall x :: multiset(s)[x] <= 1
    ensures AllDistinct(s)
  {
    forall i, j | 0 <= i < j < |s|
      ensures s[i] != s[j]
    {
      assert s == s[..j] + [s[j]] + s[j + 1..];
      assert s[i] in s[..j];
      assert multiset(s)[s[j]] == multiset(s[..j])[s[j]] + 1 + multiset(s[j + 1..])[s[j]];
    }
  }

  predicate Tied(ranked: seq<Candidate>) {
    |ranked| > 1 && ranked[0].total == ranked[1].total
  }

  lemma {:induction false} RankOf(r: seq<Words>, h: seq<Words>, ranked: seq<Candidate>, o: seq<nat>) returns (i: nat)
    requires |r| == |h| && RanksAll(r, h, Permutations(Range(|r|)), ranked) && IsOrder(o, |r|)
    ensures i < |ranked| && ranked[i].order == o && PriceOf(r, h)(o) == ranked[i].total && ranked[0].total <= ranked[i].total
  {
    Enumerated(|r|, o);
    SameMembers(Map(OrderOf, ranked), Permutations(Range(|r|)));
    assert o in Map(OrderOf, ranked);
    i :| 0 <= i < |ranked| && Map(OrderOf, ranked)[i] == o;
    assert ranked[i] in ranked;
    assert i > 0 ==> !Replaces(ranked[i], ranked[0]);
  }

  lemma {:induction false} RankedOrder(r: seq<Words>, h: seq<Words>, ranked: seq<Candidate>, i: nat)
    requires |r| == |h| && RanksAll(r, h, Permutations(Range(|r|)), ranked) && i < |ranked|
    ensures IsOrder(ranked[i].order, |r|) && PriceOf(r, h)(ranked[i].order) == ranked[i].total
  {
    SameMembers(Map(OrderOf, ranked), Permutations(Range(|r|)));
    assert Map(OrderOf, ranked)[i] == ranked[i].order;
    Enumerated(|r|, ranked[i].order);
    assert ranked[i] in ranked;
  }

  lemma {:induction false} RanksDiffer(r: seq<Words>, h: seq<Words>, ranked: seq<Candidate>, i: nat, j: nat)
    requires |r| == |h| && RanksAll(r, h, Permutations(Range(|r|)), ranked) && i < j < |ranked|
    ensures ranked[i].order != ranked[j].order
  {
    var orders, listed := Permutations(Range(|r|)), Map(OrderOf, ranked);
    PermutationsListed(Range(|r|));
    forall a, b | 0 <= a < b < |orders|
      ensures orders[a] != orders[b]
    {
      BeforeStrict(orders[a], orders[b]);
    }
    forall x
      ensures multiset(listed)[x] <= 1
    {
      DistinctOnce(orders, x);
    }
    OnceDistinct(listed);
    assert listed[i] != listed[j];
  }

  /** The two best ranks decide whether one order is strictly cheapest. */
  lemma {:induction false} RankedDecides(r: seq<Words>, h: seq<Words>, ranked: seq<Candidate>)
    requires |r| == |h| && RanksAll(r, h, Permutations(Range(|r|)), ranked)
    ensures ranked != [] && !Tied(ranked) ==> Strictly(PriceOf(r, h), |r|, ranked[0].order)
  {
    if ranked != [] && !Tied(ranked) {
      RankedOrder(r, h, ranked, 0);
      forall o | IsOrder(o, |r|) && o != ranked[0].order
        ensures PriceOf(r, h)(ranked[0].order) < PriceOf(r, h)(o)
      {
        var i := RankOf(r, h, ranked, o);
        assert i > 1 ==> !Replaces(ranked[i], ranked[1]);
        assert !Replaces(ranked[1], ranked[0]);
      }
    }
  }

  /** Whether the ranking is tied is whether there is no one cheapest matching. */
  lemma {:induction false} TieMeans(reference: seq<Entry>, finals: seq<Final>, ranked: seq<Candidate>)
    requires |reference| == |finals| && AllDistinct(reference) && AllDistinct(finals)
    requires RanksAll(Map(EntryWords, reference), Map(FinalWords, finals), Permutations(Range(|reference|)), ranked)
    ensures ranked != []
    ensures Tied(ranked) ==> !Decided(multiset(reference), multiset(finals))
    ensures !Tied(ranked) ==>
              Strictly(PriceOfCase(reference, finals), |finals|, ranked[0].order) && Decided(multiset(reference), multiset(finals))
  {
    var r, h := Map(EntryWords, reference), Map(FinalWords, finals);
    var first := RankOf(r, h, ranked, Range(|r|));
    if Tied(ranked) {
      RankedOrder(r, h, ranked, 0);
      RankedOrder(r, h, ranked, 1);
      RanksDiffer(r, h, ranked, 0, 1);
      forall o | IsOrder(o, |finals|)
        ensures PriceOfCase(reference, finals)(ranked[0].order) <= PriceOfCase(reference, finals)(o)
      {
        var i := RankOf(r, h, ranked, o);
      }
      TiedUndecided(reference, finals, ranked[0].order, ranked[1].order);
    } else {
      RankedDecides(r, h, ranked);
      StrictlySole(reference, finals, ranked[0].order);
    }
  }

  // ----- Rows

  ghost predicate Readable(observations: seq<Observation>, f: Final) {
    forall o :: o in observations && ObservedKey(o) == FinalKey(f) ==> !Unreadable(o)
  }

  /** The observations of all finals, in whatever order, are all observations. */
  lemma {:induction false} AllReadable(finals: seq<Final>, observations: seq<Observation>, order: seq<nat>)
    requires Known(finals, observations) && IsOrder(order, |finals|) && Indexes(order, |finals|)
    requires forall i :: 0 <= i < |order| ==> Readable(observations, finals[order[i]])
    ensures !HasUnreadable(observations)
  {
    forall o | o in observations
      ensures !Unreadable(o)
    {
      assert ObservedKey(o) in Map(FinalKey, finals);
      var j :| 0 <= j < |finals| && Map(FinalKey, finals)[j] == ObservedKey(o);
      SameMembers(order, Range(|finals|));
      assert Range(|finals|)[j] == j && j in order;
      var i :| 0 <= i < |order| && order[i] == j;
      assert Readable(observations, finals[order[i]]);
    }
  }

  method RowFor(c: Case, joins: Joins, entry: Entry, final: Final) returns (row: Option<Row>)
    requires Ready(c) && Joined(joins, c.finals, c.observations) && entry in c.reference && final in c.finals
    ensures row.Some? <==> Readable(c.observations, final)
    ensures row.Some? ==> IdentityVerdict.IsRow(row.value, (entry, final), c)
    ensures row.None? ==> HasUnreadable(c.observations)
  {
    JoinsAnswer(joins, c.finals, c.observations);
    var observation := joins[FinalKey(final)][0];
    assert joins[FinalKey(final)] == [observation];
    assert observation in joins[FinalKey(final)];
    assert Answers(observation, final, c.observations);
    if Unreadable(observation) {
      return None;
    }
    return Some(RowOf(entry, final, observation, c));
  }

  method Rows(c: Case, joins: Joins, order: seq<nat>) returns (rows: Option<seq<Row>>)
    requires Ready(c) && Joined(joins, c.finals, c.observations) && Known(c.finals, c.observations)
    requires IsOrder(order, |c.finals|) && |order| == |c.reference| && Indexes(order, |c.finals|)
    ensures rows.Some? <==> !HasUnreadable(c.observations)
    ensures rows.Some? ==> AreRows(rows.value, Pairs(c.reference, c.finals, order), c)
  {
    var filled: seq<Row> := [];
    ghost var pairs := Pairs(c.reference, c.finals, order);
    for i := 0 to |order|
      invariant AreRows(filled, pairs[..i], c) && AllRead(c, order, i)
    {
      var row := RowFor(c, joins, c.reference[i], c.finals[order[i]]);
      if row.None? {
        return None;
      }
      RowsNext(filled, row.value, pairs, c, i);
      ReadNext(c, order, i);
      filled := filled + [row.value];
    }
    AllReadable(c.finals, c.observations, order);
    assert pairs[..|order|] == pairs;
    return Some(filled);
  }

  ghost predicate AllRead(c: Case, order: seq<nat>, i: nat)
    requires Indexes(order, |c.finals|)
  {
    forall k :: 0 <= k < i && k < |order| ==> Readable(c.observations, c.finals[order[k]])
  }

  lemma {:induction false} ReadNext(c: Case, order: seq<nat>, i: nat)
    requires Indexes(order, |c.finals|) && i < |order| && AllRead(c, order, i) && Readable(c.observations, c.finals[order[i]])
    ensures AllRead(c, order, i + 1)
  {
  }

  lemma {:induction false} RowsNext(filled: seq<Row>, row: Row, pairs: seq<Pair>, c: Case, i: nat)
    requires Referenced(c) && WithinUnit(c.speakerLimit) && i < |pairs|
    requires AreRows(filled, pairs[..i], c) && IdentityVerdict.IsRow(row, pairs[i], c)
    ensures AreRows(filled + [row], pairs[..i + 1], c)
  {
  }

  // ----- The evaluation

  /** A mapping's keys: no reference speaker comes twice. */
  predicate DistinctSpeakers(reference: seq<Entry>) {
    forall i, j :: 0 <= i < j < |reference| ==> reference[i].speaker != reference[j].speaker
  }

  lemma {:induction false} ClearDistinct(finals: seq<Final>)
    requires FinalsClear(finals)
    ensures AllDistinct(finals)
  {
    forall k
      ensures multiset(Map(FinalKey, finals))[k] <= 1
    {
      assert FinalKeys(finals)[k] <= 1;
    }
    OnceDistinct(Map(FinalKey, finals));
    forall i, j | 0 <= i < j < |finals|
      ensures finals[i] != finals[j]
    {
      assert Map(FinalKey, finals)[i] != Map(FinalKey, finals)[j];
    }
  }

  lemma {:induction false} SomeWords(reference: seq<Entry>)
    requires reference != [] && forall e :: e in reference ==> e.words != []
    ensures ReferenceWords(reference) != 0
  {
    var lengths := Map(Length, reference);
    assert reference[|reference| - 1] in reference;
    assert lengths[|lengths| - 1] != 0;
  }

  method Evaluate(c: Case) returns (result: Outcome)
    requires DistinctSpeakers(c.reference)
    ensures IsOutcome(result, c)
  {
    if !Bounded(c) {
      return Failure(Unbounded);
    }
    if !Referenced(c) {
      return Failure(BadReference);
    }
    if !Identified(c) {
      return Failure(SharedIdentity);
    }
    var empty := JoinFinals(c.finals);
    if empty.None? {
      return Failure(BadFinal);
    }
    var joins := JoinObservations(c.finals, c.observations, empty.value);
    if joins.None? {
      return Failure(UnknownFinal);
    }
    JoinsAnswer(joins.value, c.finals, c.observations);
    if k :| k in joins.value && |joins.value[k]| != 1 {
      return Failure(Unobserved);
    }
    if |c.finals| != |c.reference| {
      return Success(Ungraded(TrackCount));
    }
    result := Grade(c, joins.value);
  }

  ghost function LastStage(c: Case): Stage {
    if !Decided(multiset(c.reference), multiset(c.finals)) then Stopped(Ambiguous)
    else if HasUnreadable(c.observations) then Refused(BadReport)
    else Open
  }

  method Grade(c: Case, joins: Joins) returns (result: Outcome)
    requires DistinctSpeakers(c.reference) && Ready(c) && WithinUnit(c.caseLimit)
    requires FinalsClear(c.finals) && Known(c.finals, c.observations) && |c.finals| == |c.reference| != 0
    requires Joined(joins, c.finals, c.observations)
    ensures IsOutcomeAt(LastStage(c), result, c)
  {
    var refs, hypotheses := Map(EntryWords, c.reference), Map(FinalWords, c.finals);
    var assignments := Rank(refs, hypotheses);
    ClearDistinct(c.finals);
    TieMeans(c.reference, c.finals, assignments);
    if |assignments| > 1 && assignments[0].total == assignments[1].total {
      return Success(Ungraded(Ambiguous));
    }
    RankedPrice(c, assignments);
    StrictlySole(c.reference, c.finals, assignments[0].order);
    var v := GradeRows(c, joins, assignments[0]);
    return if v.Some? then Success(v.value) else Failure(BadReport);
  }

  method GradeRows(c: Case, joins: Joins, best: Candidate) returns (v: Option<Verdict>)
    requires Ready(c) && WithinUnit(c.caseLimit) && Known(c.finals, c.observations) && |c.finals| == |c.reference| != 0
    requires Joined(joins, c.finals, c.observations) && IsOrder(best.order, |c.finals|)
    requires |best.order| == |c.reference| && Indexes(best.order, |c.finals|)
    requires Price(Errors, Pairs(c.reference, c.finals, best.order)) == best.total
    requires Sole(multiset(Pairs(c.reference, c.finals, best.order)), multiset(c.reference), multiset(c.finals))
    ensures v.Some? <==> !HasUnreadable(c.observations)
    ensures v.Some? ==> IsGradedCase(v.value, c)
  {
    var rows := Rows(c, joins, best.order);
    if rows.None? {
      return None;
    }
    SomeWords(c.reference);
    v := Some(Summary(c, rows.value, best.total as real / ReferenceWords(c.reference) as real));
    RowsGraded(c, best.order, rows.value, best.total);
  }

  lemma {:induction false} RowsGraded(c: Case, order: seq<nat>, rows: seq<Row>, total: nat)
    requires Ready(c) && WithinUnit(c.caseLimit) && |order| == |c.reference| && Indexes(order, |c.finals|)
    requires ReferenceWords(c.reference) != 0 && total == Price(Errors, Pairs(c.reference, c.finals, order))
    requires Sole(multiset(Pairs(c.reference, c.finals, order)), multiset(c.reference), multiset(c.finals))
    requires AreRows(rows, Pairs(c.reference, c.finals, order), c)
    ensures IsGradedCase(Summary(c, rows, total as real / ReferenceWords(c.reference) as real), c)
  {
    var pairs := Pairs(c.reference, c.finals, order);
    GradedSummary(c, Summary(c, rows, Rate(pairs, c.reference)), pairs);
  }

  function Summary(c: Case, rows: seq<Row>, cpwer: real): Verdict
    requires c.speakerLimit.Limit? && c.caseLimit.Limit?
  {
    Verdict(AllPass(rows), cpwer <= c.caseLimit.value && AllWithin(rows, c.speakerLimit.value), Some(cpwer),
            Graded, Resolved(rows), Abstained(rows), rows)
  }

  lemma {:induction false} RankedPrice(c: Case, assignments: seq<Candidate>)
    requires assignments != [] && |c.finals| == |c.reference|
    requires RanksAll(Map(EntryWords, c.reference), Map(FinalWords, c.finals), Permutations(Range(|c.reference|)), assignments)
    ensures var order := assignments[0].order;
            IsOrder(order, |c.finals|) && |order| == |c.reference| && Indexes(order, |c.finals|) &&
            Price(Errors, Pairs(c.reference, c.finals, order)) == assignments[0].total
  {
    RankedOrder(Map(EntryWords, c.reference), Map(FinalWords, c.finals), assignments, 0);
    OrderIndices(assignments[0].order, |c.reference|);
    PairsPrice(c.reference, c.finals, assignments[0].order);
  }

  lemma {:induction false} GradedSummary(c: Case, v: Verdict, p: seq<Pair>)
    requires Ready(c) && WithinUnit(c.caseLimit) && ReferenceWords(c.reference) != 0
    requires Sole(multiset(p), multiset(c.reference), multiset(c.finals)) && |p| == |c.reference|
    requires forall i :: 0 <= i < |p| ==> p[i].0 == c.reference[i]
    requires AreRows(v.rows, p, c) && v == Summary(c, v.rows, Rate(p, c.reference))
    ensures IsGradedCase(v, c)
  {
    assert Firsts(p) == c.reference;
    assert IsAssigned(p, c) && IsGraded(v, p, c);
  }
}
