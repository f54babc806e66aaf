/**
 The assignment of the composition proof: a matrix of distances between padded streams, the first
 order of least sum, and its error rates. It agrees with the speaker-aware scorer.
 */
module Composition {
  import opened EditDistance
  import opened Matching
  import opened Orders
  import opened SpeakerScore
  import opened SpeakerTotals
  import opened Wrappers

  datatype Assignment = Assignment(errors: nat, perm: seq<nat>, words: nat, cpwer: real, maximumWer: real)

  type Matrix = seq<seq<nat>>

  ghost predicate Tabulates(costs: Matrix, target: seq<Words>, padded: seq<Words>, rows: nat)
    requires rows <= |target|
  {
    |costs| == rows && forall i :: 0 <= i < rows ==> IsRowOf(costs[i], target[i], padded, |padded|)
  }

  ghost predicate IsRowOf(row: seq<nat>, a: Words, padded: seq<Words>, width: nat)
    requires width <= |padded|
  {
    |row| == width && forall j :: 0 <= j < width ==> row[j] == Distance(a, padded[j])
  }

  method DistanceRow(a: Words, padded: seq<Words>) returns (row: seq<nat>)
    ensures IsRowOf(row, a, padded, |padded|)
  {
    row := [];
    for j := 0 to |padded|
      invariant IsRowOf(row, a, padded, j)
    {
      var d := CompositionDistance(a, padded[j]);
      row := row + [d];
    }
  }

  method DistanceMatrix(target: seq<Words>, padded: seq<Words>) returns (costs: Matrix)
    ensures Tabulates(costs, target, padded, |target|)
  {
    costs := [];
    for i := 0 to |target|
      invariant Tabulates(costs, target, padded, i)
    {
      var row := DistanceRow(target[i], padded);
      costs := costs + [row];
    }
  }

  predicate Fits(order: seq<nat>, costs: Matrix) {
    |order| == |costs| && forall i :: 0 <= i < |order| ==> order[i] < |costs[i]|
  }

  function Along(costs: Matrix, order: seq<nat>): (r: seq<nat>)
    requires Fits(order, costs)
    ensures |r| == |order| && forall i :: 0 <= i < |r| ==> r[i] == costs[i][order[i]]
  {
    seq<nat>(|order|, i requires 0 <= i < |order| => costs[i][order[i]])
  }

  function SumAlong(costs: Matrix): Fee {
    (order: seq<nat>) => if Fits(order, costs) then Total(Along(costs, order)) else 0
  }

  lemma {:induction false} SumsAgree(costs: Matrix, target: seq<Words>, padded: seq<Words>, order: seq<nat>)
    requires Tabulates(costs, target, padded, |target|) && |target| == |padded| && IsOrder(order, |target|)
    ensures Fits(order, costs) && Indexes(order, |padded|) && |order| == |target|
    ensures Along(costs, order) == ErrorsOf(target, padded, order)
  {
    OrderIndices(order, |target|);
  }

  /** The order of least matrix sum is the order of least total distance. */
  lemma {:induction false} LeastSumChosen(costs: Matrix, target: seq<Words>, padded: seq<Words>, perm: seq<nat>)
    requires Tabulates(costs, target, padded, |target|) && |target| == |padded|
    requires Chosen(SumAlong(costs), |target|, perm)
    ensures Chosen(PriceOf(target, padded), |target|, perm)
  {
    SumsAgree(costs, target, padded, perm);
    forall o | IsOrder(o, |target|) && o != perm
      ensures Better(PriceOf(target, padded), perm, o)
    {
      SumsAgree(costs, target, padded, o);
    }
  }

  function CountWords(streams: seq<Words>): nat {
    if streams == [] then 0 else CountWords(streams[..|streams| - 1]) + |streams[|streams| - 1]|
  }

  /** The error rate of the i-th reference stream under an order. */
  function Rate(reference: seq<Words>, errors: seq<nat>, i: nat): real
    requires i < |reference| && i < |errors| && reference[i] != []
  {
    errors[i] as real / |reference[i]| as real
  }

  /** What an assignment says of two lists of streams. */
  ghost predicate Assigned(a: Assignment, reference: seq<Words>, hypothesis: seq<Words>)
    requires reference != [] && [] !in reference
  {
    var n := Longer(|reference|, |hypothesis|);
    var (r, h) := (Pad(reference, n), Pad(hypothesis, n));
    && Chosen(PriceOf(r, h), n, a.perm) && |a.perm| == n && Indexes(a.perm, n)
    && IsTotal(reference, hypothesis, a.errors) && a.errors == Total(ErrorsOf(r, h, a.perm))
    && a.words == CountWords(reference) > 0 && a.cpwer == a.errors as real / a.words as real
    && IsMaximum(a.maximumWer, reference, ErrorsOf(r, h, a.perm))
  }

  /** The greatest error rate of the reference streams. */
  ghost predicate IsMaximum(maximum: real, reference: seq<Words>, errors: seq<nat>)
    requires [] !in reference && |reference| <= |errors|
  {
    && (exists i :: 0 <= i < |reference| && maximum == Rate(reference, errors, i))
    && forall i :: 0 <= i < |reference| ==> Rate(reference, errors, i) <= maximum
  }

  /** Empty when a division by zero stops it: without a reference word, or with a silent reference speaker. */
  method Assign(reference: seq<Words>, hypothesis: seq<Words>) returns (a: Option<Assignment>)
    ensures a.Some? <==> reference != [] && [] !in reference
    ensures a.Some? ==> Assigned(a.value, reference, hypothesis)
  {
    var n := Longer(|reference|, |hypothesis|);
    var padded, target := Pad(hypothesis, n), Pad(reference, n);
    var costs := DistanceMatrix(target, padded);
    FirstLeastChosen(SumAlong(costs), n);
    var perm := FirstLeast(SumAlong(costs), Permutations(Range(n)));
    SumsAgree(costs, target, padded, perm);
    var along := Along(costs, perm);
    var maximum := MaximumRate(reference, along);
    if maximum.None? || CountWords(reference) == 0 {
      return None;
    }
    var total, words := Total(along), CountWords(reference);
    a := Some(Assignment(total, perm, words, total as real / words as real, maximum.value));
    LeastSumChosen(costs, target, padded, perm);
    ChosenAssigned(a.value, reference, hypothesis);
  }

  lemma {:induction false} ChosenAssigned(a: Assignment, reference: seq<Words>, hypothesis: seq<Words>)
    requires reference != [] && [] !in reference
    requires var n := Longer(|reference|, |hypothesis|);
             var (r, h) := (Pad(reference, n), Pad(hypothesis, n));
             Chosen(PriceOf(r, h), n, a.perm) && |a.perm| == n && Indexes(a.perm, n) && a.errors == Total(ErrorsOf(r, h, a.perm)) &&
             IsMaximum(a.maximumWer, reference, ErrorsOf(r, h, a.perm))
    requires a.words == CountWords(reference) && a.words != 0 && a.cpwer == a.errors as real / a.words as real
    ensures Assigned(a, reference, hypothesis)
  {
    var n := Longer(|reference|, |hypothesis|);
    ChosenLeast(Pad(reference, n), Pad(hypothesis, n), a.perm);
    PadBag(reference, n);
    PadBag(hypothesis, n);
  }

  /** The largest rate, 0 without a stream; empty when a stream has no word. */
  method MaximumRate(reference: seq<Words>, errors: seq<nat>) returns (r: Option<real>)
    requires |reference| <= |errors|
    ensures r.Some? <==> [] !in reference
    ensures r.Some? && reference != [] ==> IsMaximum(r.value, reference, errors)
    ensures r.Some? && reference == [] ==> r.value == 0.0
  {
    var maximum := 0.0;
    for i := 0 to |reference|
      invariant forall k :: 0 <= k < i ==> reference[k] != []
      invariant i == 0 ==> maximum == 0.0
      invariant i != 0 ==> exists k :: 0 <= k < i && maximum == Rate(reference, errors, k)
      invariant forall k :: 0 <= k < i ==> Rate(reference, errors, k) <= maximum
    {
      if reference[i] == [] {
        return None;
      }
      var rate := Rate(reference, errors, i);
      if i == 0 || rate > maximum {
        maximum := rate;
      }
    }
    return Some(maximum);
  }

  lemma {:induction false} CountsAgree(s: Streams)
    ensures WordCount(s) == CountWords(Lists(s))
  {
    if s != [] {
      CountsAgree(s[..|s| - 1]);
      assert Lists(s)[..|s| - 1] == Lists(s[..|s| - 1]);
    }
  }

  /** Both scorers give the same errors, the same rate and the same assignment. */
  lemma {:induction false} ScorersAgree(report: Report, a: Assignment, ref: Streams, hyp: Streams)
    requires ref != [] && [] !in Lists(ref) && Reports(report, ref, hyp) && Assigned(a, Lists(ref), Lists(hyp))
    ensures a.errors == report.errors && a.words == report.referenceWords && a.cpwer == report.cpwer
    ensures var n := Longer(|ref|, |hyp|); report.speakers == LinesOf(Filled(ref, n), Filled(hyp, n), a.perm)
  {
    var n := Longer(|ref|, |hyp|);
    CountsAgree(ref);
    var price := PriceOf(Pad(Lists(ref), n), Pad(Lists(hyp), n));
    TotalUnique(Lists(ref), Lists(hyp), a.errors, report.errors);
    var order :| Chosen(price, n, order) && |order| == n && Indexes(order, n) &&
                 report.speakers == LinesOf(Filled(ref, n), Filled(hyp, n), order);
    ChosenUnique(price, n, order, a.perm);
  }
}
