/**
 Choosing an acceptance threshold: tallies of known and absent queries at a threshold, and the
 choice of the threshold that is safe, accepts most, and is largest.
 */
module ThresholdChoice {
  import opened Sequences
  import opened Sorting
  import opened Wrappers

  /** The best similarity to the gallery, its lead over the second, and whose it is. */
  datatype Top = Top(score: real, lead: real, owner: int)

  datatype Query = Known(owner: int, top: Top) | Absent(top: Top)

  datatype Tally = Tally(known: nat, correct: nat, wrong: nat, rejected: nat, absent: nat, falseAccepts: nat)

  predicate Accepted(top: Top, threshold: real, margin: real) {
    top.score >= threshold && top.lead >= margin && top.lead > 0.0
  }

  // ----- The best of a gallery

  datatype Match = Match(similarity: real, owner: int)

  /** Higher similarity first, then the smaller owner. */
  predicate Precedes(a: Match, b: Match) {
    a.similarity > b.similarity || (a.similarity == b.similarity && a.owner <= b.owner)
  }

  /** The gallery's matches, best first. */
  function Nearest(gallery: seq<Match>): seq<Match> {
    Sorted(Precedes, gallery)
  }

  function Score(gallery: seq<Match>): Top
    requires |gallery| >= 2
  {
    NearestSize(gallery);
    var s := Nearest(gallery);
    Top(s[0].similarity, s[0].similarity - s[1].similarity, s[0].owner)
  }

  lemma {:induction false} NearestSize(gallery: seq<Match>)
    ensures |Nearest(gallery)| == |gallery|
  {
    SortedInOrder(Precedes, gallery);
    assert |multiset(Nearest(gallery))| == |multiset(gallery)|;
  }

  /**
   The score is that of the best match, the smallest owner among equally good ones, and the lead is
   its distance to the best other match.
   */
  lemma {:induction false} LeadMeans(gallery: seq<Match>) returns (k: nat, second: nat)
    requires |gallery| >= 2
    ensures k < |gallery| && gallery[k].owner == Score(gallery).owner && gallery[k].similarity == Score(gallery).score
    ensures forall j :: 0 <= j < |gallery| && gallery[j].similarity == gallery[k].similarity ==> gallery[k].owner <= gallery[j].owner
    ensures second < |gallery| && second != k && gallery[second].similarity == Score(gallery).score - Score(gallery).lead
    ensures Score(gallery).lead >= 0.0
    ensures forall j :: 0 <= j < |gallery| && j != k ==> gallery[j].similarity <= Score(gallery).score - Score(gallery).lead
  {
    SortedInOrder(Precedes, gallery);
    NearestSize(gallery);
    var s := Nearest(gallery);
    assert Precedes(s[0], s[1]);
    k, second := FirstTwo(gallery, s);
    forall j | 0 <= j < |gallery|
      ensures j != k ==> gallery[j].similarity <= s[1].similarity
      ensures gallery[j].similarity == gallery[k].similarity ==> gallery[k].owner <= gallery[j].owner
    {
      if j != k {
        OthersBelow(gallery, s, k, j);
      }
      BestFirst(gallery, s, j);
    }
  }

  lemma {:induction false} Removed<T>(s: seq<T>, k: nat)
    requires k < |s|
    ensures multiset(s) == multiset(s[..k] + s[k + 1..]) + multiset{s[k]}
  {
    assert s == s[..k] + [s[k]] + s[k + 1..];
  }

  lemma {:induction false} OtherPlace<T>(s: seq<T>, k: nat, x: T) returns (m: nat)
    requires k < |s| && x in multiset(s[..k] + s[k + 1..])
    ensures m < |s| && m != k && s[m] == x
  {
    var others := s[..k] + s[k + 1..];
    var n :| 0 <= n < |others| && others[n] == x;
    m := if n < k then n else n + 1;
  }

  /** The places of the two first of a sorted gallery. */
  lemma {:induction false} FirstTwo(gallery: seq<Match>, s: seq<Match>) returns (k: nat, second: nat)
    requires |gallery| == |s| >= 2 && multiset(s) == multiset(gallery)
    ensures k < |gallery| && gallery[k] == s[0] && second < |gallery| && second != k && gallery[second] == s[1]
  {
    assert s[0] in multiset(gallery);
    k :| 0 <= k < |gallery| && gallery[k] == s[0];
    Removed(gallery, k);
    Removed(s, 0);
    Cancelled(multiset(gallery[..k] + gallery[k + 1..]), multiset(s[..0] + s[1..]), s[0]);
    assert (s[..0] + s[1..])[0] == s[1];
    assert s[1] in multiset(s[..0] + s[1..]);
    second := OtherPlace(gallery, k, s[1]);
  }

  lemma {:induction false} Cancelled<T>(m: multiset<T>, n: multiset<T>, x: T)
    requires m + multiset{x} == n + multiset{x}
    ensures m == n
  {
    assert m == m + multiset{x} - multiset{x} && n == n + multiset{x} - multiset{x};
  }

  lemma {:induction false} BestFirst(gallery: seq<Match>, s: seq<Match>, j: nat)
    requires |gallery| == |s| >= 2 && multiset(s) == multiset(gallery) && InOrder(Precedes, s) && j < |gallery|
    ensures Precedes(s[0], gallery[j])
  {
    assert gallery[j] in multiset(s);
    var i :| 0 <= i < |s| && s[i] == gallery[j];
  }

  /** Accepted means: similar enough, and every other match at least the margin and more than nothing below. */
  lemma {:induction false} AcceptedMeans(gallery: seq<Match>, threshold: real, margin: real) returns (k: nat)
    requires |gallery| >= 2
    ensures k < |gallery| && gallery[k].owner == Score(gallery).owner
    ensures forall j :: 0 <= j < |gallery| ==> gallery[j].similarity <= gallery[k].similarity
    ensures Accepted(Score(gallery), threshold, margin) <==>
            gallery[k].similarity >= threshold &&
            forall j :: 0 <= j < |gallery| && j != k ==>
              gallery[j].similarity <= gallery[k].similarity - margin && gallery[j].similarity < gallery[k].similarity
  {
    var second;
    k, second := LeadMeans(gallery);
  }

  lemma {:induction false} OthersBelow(gallery: seq<Match>, s: seq<Match>, k: nat, j: nat)
    requires |gallery| == |s| >= 2 && multiset(s) == multiset(gallery) && InOrder(Precedes, s)
    requires k < |gallery| && j < |gallery| && j != k && gallery[k] == s[0]
    ensures gallery[j].similarity <= s[1].similarity
  {
    var x := gallery[j];
    var rest := s[1..];
    assert s == [s[0]] + rest;
    var others := gallery[..k] + gallery[k + 1..];
    assert gallery == gallery[..k] + [gallery[k]] + gallery[k + 1..];
    assert multiset(gallery) == multiset(others) + multiset{s[0]};
    assert x in others by {
      assert if j < k then others[j] == x else others[j - 1] == x;
    }
    assert multiset(rest)[x] == multiset(others)[x] by {
      assert multiset(s)[x] == multiset(gallery)[x];
    }
    assert x in multiset(rest);
    var i :| 0 <= i < |rest| && rest[i] == x;
    assert s[i + 1] == x && (i == 0 || Precedes(s[1], s[i + 1]));
  }

  // ----- Tallies

  function Add(t: Tally, q: Query, threshold: real, margin: real): Tally {
    match q
    case Known(owner, top) =>
      var ok := Accepted(top, threshold, margin);
      if ok && top.owner == owner then t.(known := t.known + 1, correct := t.correct + 1)
      else if ok then t.(known := t.known + 1, wrong := t.wrong + 1)
      else t.(known := t.known + 1, rejected := t.rejected + 1)
    case Absent(top) =>
      t.(absent := t.absent + 1, falseAccepts := t.falseAccepts + if Accepted(top, threshold, margin) then 1 else 0)
  }

  function TallyOf(queries: seq<Query>, threshold: real, margin: real): Tally {
    if queries == [] then Tally(0, 0, 0, 0, 0, 0)
    else Add(TallyOf(queries[..|queries| - 1], threshold, margin), queries[|queries| - 1], threshold, margin)
  }

  /** How a query comes out at a threshold. */
  datatype Outcome = Named | Misnamed | Unnamed | FalselyNamed | RightlyUnnamed

  function OutcomeOf(q: Query, threshold: real, margin: real): Outcome {
    var ok := Accepted(q.top, threshold, margin);
    match q
    case Known(owner, top) => if !ok then Unnamed else if top.owner == owner then Named else Misnamed
    case Absent(_) => if ok then FalselyNamed else RightlyUnnamed
  }

  ghost function Among(queries: seq<Query>, threshold: real, margin: real, r: Outcome): nat {
    |Where(queries, (q: Query) => OutcomeOf(q, threshold, margin) == r)|
  }

  /** The tally counts the queries by how they come out. */
  lemma {:induction false} TallyCounts(queries: seq<Query>, threshold: real, margin: real)
    ensures var t := TallyOf(queries, threshold, margin);
            t.correct == Among(queries, threshold, margin, Named) && t.wrong == Among(queries, threshold, margin, Misnamed) &&
            t.rejected == Among(queries, threshold, margin, Unnamed) &&
            t.falseAccepts == Among(queries, threshold, margin, FalselyNamed) &&
            t.absent == t.falseAccepts + Among(queries, threshold, margin, RightlyUnnamed)
    decreases |queries|
  {
    if queries != [] {
      var before, last := queries[..|queries| - 1], queries[|queries| - 1];
      assert queries == before + [last];
      TallyCounts(before, threshold, margin);
      forall r: Outcome
        ensures Among(queries, threshold, margin, r) ==
                Among(before, threshold, margin, r) + if OutcomeOf(last, threshold, margin) == r then 1 else 0
      {
        WhereNext(before, last, (q: Query) => OutcomeOf(q, threshold, margin) == r);
      }
    }
  }

  method Evaluate(queries: seq<Query>, threshold: real, margin: real) returns (result: Tally)
    ensures result == TallyOf(queries, threshold, margin)
  {
    var known, correct, wrong, rejected, absent, falseAccepts := 0, 0, 0, 0, 0, 0;
    for i := 0 to |queries|
      invariant Tally(known, correct, wrong, rejected, absent, falseAccepts) == TallyOf(queries[..i], threshold, margin)
    {
      assert queries[..i + 1][..i] == queries[..i];
      var query := queries[i];
      var ok := Accepted(query.top, threshold, margin);
      if query.Known? {
        known := known + 1;
        if ok && query.top.owner == query.owner {
          correct := correct + 1;
        } else if ok {
          wrong := wrong + 1;
        } else {
          rejected := rejected + 1;
        }
      } else {
        absent := absent + 1;
        falseAccepts := falseAccepts + if ok then 1 else 0;
      }
    }
    assert queries[..|queries|] == queries;
    return Tally(known, correct, wrong, rejected, absent, falseAccepts);
  }

  /** Every known query is correct, wrong or rejected. */
  lemma {:induction false} KnownSplit(queries: seq<Query>, threshold: real, margin: real)
    ensures var t := TallyOf(queries, threshold, margin);
            t.correct + t.wrong + t.rejected == t.known && t.falseAccepts <= t.absent && t.known + t.absent == |queries|
  {
    if queries != [] {
      KnownSplit(queries[..|queries| - 1], threshold, margin);
    }
  }

  predicate Correct(q: Query, threshold: real, margin: real) {
    q.Known? && Accepted(q.top, threshold, margin) && q.top.owner == q.owner
  }

  /** A higher threshold accepts no more, and as many correct ones only if the very same. */
  lemma {:induction false} Antitone(queries: seq<Query>, low: real, high: real, margin: real)
    requires low <= high
    ensures var (l, h) := (TallyOf(queries, low, margin), TallyOf(queries, high, margin));
            h.correct <= l.correct && h.wrong <= l.wrong && h.falseAccepts <= l.falseAccepts &&
            (h.correct == l.correct <==>
               forall i :: 0 <= i < |queries| ==> (Correct(queries[i], high, margin) <==> Correct(queries[i], low, margin)))
  {
    if queries != [] {
      var n := |queries| - 1;
      Antitone(queries[..n], low, high, margin);
      assert forall i :: 0 <= i < n ==> queries[..n][i] == queries[i];
      assert Correct(queries[n], high, margin) ==> Correct(queries[n], low, margin);
    }
  }

  // ----- The choice

  predicate Safe(t: Tally) {
    t.wrong == 0 && t.falseAccepts == 0
  }

  /** The thresholds tried: 0.350, 0.355 and so on to 0.850. */
  function Candidates(): (r: seq<real>)
    ensures |r| == 101 && forall i :: 0 <= i < 101 ==> r[i] == (350 + 5 * i) as real / 1000.0
  {
    seq(101, i => (350 + 5 * i) as real / 1000.0)
  }

  ghost predicate Rising(thresholds: seq<real>) {
    forall i, j :: 0 <= i < j < |thresholds| ==> thresholds[i] < thresholds[j]
  }

  lemma CandidatesRise()
    ensures Rising(Candidates())
  {
  }

  predicate SafeAt(queries: seq<Query>, threshold: real, margin: real) {
    Safe(TallyOf(queries, threshold, margin))
  }

  /** The best safe threshold so far: most correct, then largest. */
  function Best(queries: seq<Query>, thresholds: seq<real>, margin: real): Option<(nat, real)> {
    if thresholds == [] then None
    else
      var (best, t) := (Best(queries, thresholds[..|thresholds| - 1], margin), thresholds[|thresholds| - 1]);
      var row := TallyOf(queries, t, margin);
      if !Safe(row) then best
      else if best.None? || best.value.0 < row.correct || (best.value.0 == row.correct && best.value.1 < t) then Some((row.correct, t))
      else best
  }

  function Largest(rows: seq<(nat, real)>): (nat, real)
    requires rows != []
  {
    if |rows| == 1 then rows[0]
    else
      var (best, last) := (Largest(rows[..|rows| - 1]), rows[|rows| - 1]);
      if best.0 < last.0 || (best.0 == last.0 && best.1 < last.1) then last else best
  }

  method Choose(queries: seq<Query>, margin: real) returns (r: Option<real>)
    ensures r == var best := Best(queries, Candidates(), margin); if best.Some? then Some(best.value.1) else None
  {
    var thresholds := Candidates();
    var candidates: seq<(nat, real)> := [];
    for i := 0 to |thresholds|
      invariant Best(queries, thresholds[..i], margin) == if candidates == [] then None else Some(Largest(candidates))
    {
      assert thresholds[..i + 1][..i] == thresholds[..i];
      var row := Evaluate(queries, thresholds[i], margin);
      if row.wrong == 0 && row.falseAccepts == 0 {
        assert (candidates + [(row.correct, thresholds[i])])[..|candidates|] == candidates;
        candidates := candidates + [(row.correct, thresholds[i])];
      }
    }
    assert thresholds[..|thresholds|] == thresholds;
    return if candidates == [] then None else Some(Largest(candidates).1);
  }

  /** The smallest safe threshold tried. */
  ghost predicate IsSmallestSafe(queries: seq<Query>, thresholds: seq<real>, margin: real, k: nat) {
    k < |thresholds| && SafeAt(queries, thresholds[k], margin) &&
    forall i :: 0 <= i < k ==> !SafeAt(queries, thresholds[i], margin)
  }

  /** Every threshold above a safe one is safe. */
  lemma {:induction false} SafeUpward(queries: seq<Query>, low: real, high: real, margin: real)
    requires low <= high && SafeAt(queries, low, margin)
    ensures SafeAt(queries, high, margin)
  {
    Antitone(queries, low, high, margin);
  }

  ghost predicate SameCorrect(queries: seq<Query>, a: real, b: real, margin: real) {
    forall i :: 0 <= i < |queries| ==> (Correct(queries[i], a, margin) <==> Correct(queries[i], b, margin))
  }

  /** A best row: its threshold is tried, accepts the correct queries of the k-th, and is the largest to do so. */
  ghost predicate IsBest(queries: seq<Query>, thresholds: seq<real>, margin: real, k: nat, best: Option<(nat, real)>)
    requires k < |thresholds|
  {
    && best.Some? && best.value.0 == TallyOf(queries, thresholds[k], margin).correct
    && (exists i :: k <= i < |thresholds| && thresholds[i] == best.value.1)
    && SameCorrect(queries, best.value.1, thresholds[k], margin)
    && forall i :: k <= i < |thresholds| && SameCorrect(queries, thresholds[i], thresholds[k], margin) ==> thresholds[i] <= best.value.1
  }

  /** The choice is the largest threshold that still accepts exactly the correct queries of the smallest safe one. */
  lemma {:induction false} BestMeans(queries: seq<Query>, thresholds: seq<real>, margin: real, k: nat)
    requires Rising(thresholds) && IsSmallestSafe(queries, thresholds, margin, k)
    ensures IsBest(queries, thresholds, margin, k, Best(queries, thresholds, margin))
    decreases |thresholds|
  {
    var n := |thresholds| - 1;
    var t := thresholds[n];
    assert thresholds[k] <= t;
    Antitone(queries, thresholds[k], t, margin);
    SafeUpward(queries, thresholds[k], t, margin);
    if k == n {
      NoneSafe(queries, thresholds[..n], margin);
    } else {
      BestMeans(queries, thresholds[..n], margin, k);
      BestNext(queries, thresholds, margin, k, Best(queries, thresholds[..n], margin));
    }
  }

  lemma {:induction false} BestNext(queries: seq<Query>, thresholds: seq<real>, margin: real, k: nat, before: Option<(nat, real)>)
    requires Rising(thresholds) && k < |thresholds| - 1 && IsBest(queries, thresholds[..|thresholds| - 1], margin, k, before)
    requires TallyOf(queries, thresholds[|thresholds| - 1], margin).correct <= TallyOf(queries, thresholds[k], margin).correct
    requires TallyOf(queries, thresholds[|thresholds| - 1], margin).correct == TallyOf(queries, thresholds[k], margin).correct <==>
             SameCorrect(queries, thresholds[|thresholds| - 1], thresholds[k], margin)
    ensures var t := thresholds[|thresholds| - 1];
            var row := TallyOf(queries, t, margin);
            IsBest(queries, thresholds, margin, k,
                   if before.value.0 < row.correct || (before.value.0 == row.correct && before.value.1 < t) then Some((row.correct, t))
                   else before)
  {
    var n := |thresholds| - 1;
    var i :| k <= i < n && thresholds[..n][i] == before.value.1;
    assert thresholds[i] == before.value.1 && thresholds[i] < thresholds[n];
    assert forall j :: k <= j < n ==> thresholds[..n][j] == thresholds[j];
  }

  lemma {:induction false} NoneSafe(queries: seq<Query>, thresholds: seq<real>, margin: real)
    requires forall i :: 0 <= i < |thresholds| ==> !SafeAt(queries, thresholds[i], margin)
    ensures Best(queries, thresholds, margin).None?
  {
    if thresholds != [] {
      NoneSafe(queries, thresholds[..|thresholds| - 1], margin);
    }
  }

  /** What Choose returns when some threshold is safe, and that it returns nothing otherwise. */
  lemma {:induction false} ChoiceMeans(queries: seq<Query>, margin: real)
    ensures forall k :: IsSmallestSafe(queries, Candidates(), margin, k) ==>
              IsBest(queries, Candidates(), margin, k, Best(queries, Candidates(), margin))
    ensures (forall i :: 0 <= i < |Candidates()| ==> !SafeAt(queries, Candidates()[i], margin)) ==>
              Best(queries, Candidates(), margin).None?
  {
    CandidatesRise();
    forall k | IsSmallestSafe(queries, Candidates(), margin, k)
      ensures IsBest(queries, Candidates(), margin, k, Best(queries, Candidates(), margin))
    {
      BestMeans(queries, Candidates(), margin, k);
    }
    if forall i :: 0 <= i < |Candidates()| ==> !SafeAt(queries, Candidates()[i], margin) {
      NoneSafe(queries, Candidates(), margin);
    }
  }
}
