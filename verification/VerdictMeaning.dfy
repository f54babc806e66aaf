/**
 What the rows and the flags of a verdict say about the case: in terms of the words at each position,
 the reported and expected identities, and numbers of errors.
 */
module VerdictMeaning {
  import E = EditDistance
  import opened IdentityVerdict
  import opened Matching
  import opened Wrappers

  // ----- Foreign phrases

  /** Two words next to each other. */
  ghost predicate Adjacent(words: E.Words, x: E.Word, y: E.Word) {
    exists i :: 0 <= i < |words| - 1 && words[i] == x && words[i + 1] == y
  }

  /** Another speaker says the two words next to each other. */
  ghost predicate OtherSays(x: E.Word, y: E.Word, e: Entry, reference: seq<Entry>) {
    exists other :: other in reference && other != e && Adjacent(other.words, x, y)
  }

  /** Two adjacent words of the final are another speaker's and never the speaker's own. */
  ghost predicate Leaks(e: Entry, f: Final, reference: seq<Entry>) {
    exists x, y :: Adjacent(f.words, x, y) && OtherSays(x, y, e, reference) && !Adjacent(e.words, x, y)
  }

  lemma {:induction false} BigramsMean(words: E.Words, x: E.Word, y: E.Word)
    ensures (x, y) in Bigrams(words) <==> Adjacent(words, x, y)
  {
    if words != [] {
      var zipped := Zip(words[..|words| - 1], words[1..]);
      if (x, y) in Bigrams(words) {
        var i :| 0 <= i < |zipped| && zipped[i] == (x, y);
        assert words[i] == x && words[i + 1] == y;
      }
      if Adjacent(words, x, y) {
        var i :| 0 <= i < |words| - 1 && words[i] == x && words[i + 1] == y;
        assert zipped[i] == (x, y);
      }
    }
  }

  lemma {:induction false} ForeignMeans(e: Entry, reference: seq<Entry>, x: E.Word, y: E.Word)
    ensures (x, y) in ForeignPairs(e, reference) <==> OtherSays(x, y, e, reference) && !Adjacent(e.words, x, y)
  {
    BigramsMean(e.words, x, y);
    forall other | other in reference
      ensures (x, y) in Bigrams(other.words) <==> Adjacent(other.words, x, y)
    {
      BigramsMean(other.words, x, y);
    }
  }

  lemma {:induction false} LeaksMeans(e: Entry, f: Final, reference: seq<Entry>)
    ensures Bigrams(f.words) * ForeignPairs(e, reference) != {} <==> Leaks(e, f, reference)
  {
    forall x, y
      ensures (x, y) in Bigrams(f.words) * ForeignPairs(e, reference) <==>
              Adjacent(f.words, x, y) && OtherSays(x, y, e, reference) && !Adjacent(e.words, x, y)
    {
      BigramsMean(f.words, x, y);
      ForeignMeans(e, reference, x, y);
    }
    if Bigrams(f.words) * ForeignPairs(e, reference) != {} {
      var b :| b in Bigrams(f.words) * ForeignPairs(e, reference);
      assert (b.0, b.1) in Bigrams(f.words) * ForeignPairs(e, reference);
    }
  }

  // ----- Rows

  /** So many errors on so many words are within a limit. */
  ghost predicate AtMost(errors: nat, words: nat, limit: real) {
    errors as real <= limit * words as real
  }

  ghost predicate Within(x: Pair, limit: real) {
    AtMost(Errors(x.0, x.1), |x.0.words|, limit)
  }

  /** A rate is what gives the errors on the words. */
  ghost predicate IsRate(rate: real, errors: nat, words: nat) {
    rate * words as real == errors as real
  }

  /** The identity reported for the final is the one expected of the speaker it is assigned to. */
  ghost predicate Expected(x: Pair, o: Observation, c: Case) {
    x.0.speaker in c.expected && o.uid != Nobody && o.uid == c.expected[x.0.speaker]
  }

  /** Nobody is reported, or the expected one for a final that leaks nothing and is within the limit. */
  ghost predicate TrustedBy(x: Pair, o: Observation, c: Case) {
    o.uid == Nobody ||
    (Expected(x, o, c) && !Leaks(x.0, x.1, c.reference) && c.speakerLimit.Limit? && Within(x, c.speakerLimit.value))
  }

  /** What each field of a row says. */
  ghost predicate Says(row: Row, x: Pair, o: Observation, c: Case) {
    && row.speaker == x.0.speaker && row.track == x.1.track && row.reason == o.reason
    && IsRate(row.wer, Errors(x.0, x.1), |x.0.words|)
    && (row.abstained <==> o.uid == Nobody)
    && (row.correct <==> Expected(x, o, c))
    && (row.foreign <==> Leaks(x.0, x.1, c.reference))
    && (row.passed <==> TrustedBy(x, o, c))
  }

  lemma {:induction false} RateMeans(rate: real, errors: nat, words: nat, limit: real)
    requires words > 0 && rate == errors as real / words as real
    ensures rate <= limit <==> AtMost(errors, words, limit)
    ensures IsRate(rate, errors, words)
  {
    var count := words as real;
    assert rate * count == errors as real;
    if rate <= limit {
      assert (limit - rate) * count >= 0.0;
    } else {
      assert (rate - limit) * count > 0.0;
    }
  }

  lemma {:induction false} RowRate(x: Pair, o: Observation, c: Case, limit: real)
    requires Ready(c) && x.0 in c.reference
    ensures var wer := RowOf(x.0, x.1, o, c).wer;
            IsRate(wer, Errors(x.0, x.1), |x.0.words|) && (wer <= limit <==> Within(x, limit))
  {
    assert |x.0.words| > 0;
    RateMeans(RowOf(x.0, x.1, o, c).wer, Errors(x.0, x.1), |x.0.words|, limit);
  }

  lemma {:induction false} RowPassed(x: Pair, o: Observation, c: Case)
    requires Ready(c) && x.0 in c.reference
    ensures var row := RowOf(x.0, x.1, o, c);
            row.passed <==> row.abstained || (row.correct && !row.foreign && row.wer <= c.speakerLimit.value)
  {
  }

  lemma {:induction false} RowOfSays(x: Pair, o: Observation, c: Case)
    requires Ready(c) && x.0 in c.reference
    ensures Says(RowOf(x.0, x.1, o, c), x, o, c)
  {
    assert |x.0.words| > 0 && x.0.speaker in c.expected;
    RowRate(x, o, c, c.speakerLimit.value);
    RowPassed(x, o, c);
    LeaksMeans(x.0, x.1, c.reference);
  }

  /** The row of a pair, by the one observation that answers its final. */
  lemma {:induction false} RowSays(row: Row, x: Pair, o: Observation, c: Case)
    requires Ready(c) && IsRow(row, x, c) && x.1 in c.finals && Answers(o, x.1, c.observations)
    ensures Says(row, x, o, c)
  {
    var q :| Answers(q, x.1, c.observations) && row == RowOf(x.0, x.1, q, c);
    OneAnswer(c.observations, o, q);
    RowOfSays(x, o, c);
  }

  /** A trustworthy pair: the observation that answers its final says so. */
  ghost predicate Trustworthy(x: Pair, c: Case) {
    exists o :: Answers(o, x.1, c.observations) && TrustedBy(x, o, c)
  }

  lemma {:induction false} RowTrusted(row: Row, x: Pair, c: Case)
    requires Ready(c) && IsRow(row, x, c) && x.1 in c.finals
    ensures row.passed <==> Trustworthy(x, c)
  {
    forall o | Answers(o, x.1, c.observations)
      ensures Says(row, x, o, c)
    {
      RowSays(row, x, o, c);
    }
    var q :| Answers(q, x.1, c.observations) && row == RowOf(x.0, x.1, q, c);
    assert Says(row, x, q, c);
  }

  // ----- Verdicts

  ghost predicate AllTrustworthy(p: seq<Pair>, c: Case) {
    forall x :: x in p ==> Trustworthy(x, c)
  }

  /** The errors of the matching, and of each of its pairs, within the limits. */
  ghost predicate TextWithin(p: seq<Pair>, c: Case) {
    && c.speakerLimit.Limit? && c.caseLimit.Limit?
    && AtMost(Price(Errors, p), ReferenceWords(c.reference), c.caseLimit.value)
    && forall x :: x in p ==> Within(x, c.speakerLimit.value)
  }

  ghost predicate RowsSay(rows: seq<Row>, p: seq<Pair>, c: Case) {
    |rows| == |p| &&
    forall i, o :: 0 <= i < |p| && Answers(o, p[i].1, c.observations) ==> Says(rows[i], p[i], o, c)
  }

  lemma {:induction false} GradedRows(rows: seq<Row>, p: seq<Pair>, c: Case)
    requires Ready(c) && IsAssigned(p, c) && AreRows(rows, p, c)
    ensures RowsSay(rows, p, c)
    ensures forall i :: 0 <= i < |p| ==> (rows[i].passed <==> Trustworthy(p[i], c))
  {
    forall i | 0 <= i < |p|
      ensures p[i].1 in c.finals && IsRow(rows[i], p[i], c) && (rows[i].passed <==> Trustworthy(p[i], c))
    {
      PairedFinal(p, p[i], multiset(c.reference), c.finals);
      RowTrusted(rows[i], p[i], c);
    }
    forall i, o | 0 <= i < |p| && Answers(o, p[i].1, c.observations)
      ensures Says(rows[i], p[i], o, c)
    {
      RowSays(rows[i], p[i], o, c);
    }
  }

  lemma {:induction false} GradedSays(v: Verdict, p: seq<Pair>, c: Case)
    requires Ready(c) && WithinUnit(c.caseLimit) && IsAssigned(p, c) && IsGraded(v, p, c)
    ensures RowsSay(v.rows, p, c)
    ensures v.attributionPassed <==> AllTrustworthy(p, c)
    ensures v.textPassed <==> TextWithin(p, c)
  {
    GradedRows(v.rows, p, c);
    PassedRows(v.rows, p, c);
    GradedText(v, p, c);
  }

  lemma {:induction false} GradedText(v: Verdict, p: seq<Pair>, c: Case)
    requires Ready(c) && WithinUnit(c.caseLimit) && IsGraded(v, p, c)
    ensures v.textPassed <==> TextWithin(p, c)
  {
    RateMeans(Rate(p, c.reference), Price(Errors, p), ReferenceWords(c.reference), c.caseLimit.value);
    WithinRows(v.rows, p, c);
  }

  lemma {:induction false} PassedRows(rows: seq<Row>, p: seq<Pair>, c: Case)
    requires |rows| == |p| && forall i :: 0 <= i < |p| ==> (rows[i].passed <==> Trustworthy(p[i], c))
    ensures AllPass(rows) <==> AllTrustworthy(p, c)
  {
    if AllPass(rows) {
      forall x | x in p
        ensures Trustworthy(x, c)
      {
        var i :| 0 <= i < |p| && p[i] == x;
        assert rows[i] in rows;
      }
    }
    if AllTrustworthy(p, c) {
      forall r | r in rows
        ensures r.passed
      {
        var i :| 0 <= i < |rows| && rows[i] == r;
        assert p[i] in p;
      }
    }
  }

  lemma {:induction false} RowWithin(row: Row, x: Pair, c: Case)
    requires Ready(c) && IsRow(row, x, c)
    ensures row.wer <= c.speakerLimit.value <==> Within(x, c.speakerLimit.value)
  {
    var o :| Answers(o, x.1, c.observations) && row == RowOf(x.0, x.1, o, c);
    RowRate(x, o, c, c.speakerLimit.value);
  }

  lemma {:induction false} WithinRows(rows: seq<Row>, p: seq<Pair>, c: Case)
    requires Ready(c) && AreRows(rows, p, c)
    ensures AllWithin(rows, c.speakerLimit.value) <==> forall x :: x in p ==> Within(x, c.speakerLimit.value)
  {
    var limit := c.speakerLimit.value;
    forall i | 0 <= i < |p|
      ensures rows[i].wer <= limit <==> Within(p[i], limit)
    {
      RowWithin(rows[i], p[i], c);
    }
    if AllWithin(rows, limit) {
      forall x | x in p
        ensures Within(x, limit)
      {
        var i :| 0 <= i < |p| && p[i] == x;
        assert rows[i] in rows;
      }
    }
    if forall x :: x in p ==> Within(x, limit) {
      forall r | r in rows
        ensures r.wer <= limit
      {
        var i :| 0 <= i < |rows| && rows[i] == r;
        assert p[i] in p;
      }
    }
  }

  /** Two listings of the one matching are of the same pairs, at the same price. */
  lemma {:induction false} AssignedAlike(p: seq<Pair>, q: seq<Pair>, c: Case)
    requires IsAssigned(p, c) && IsAssigned(q, c)
    ensures AllTrustworthy(p, c) <==> AllTrustworthy(q, c)
    ensures TextWithin(p, c) <==> TextWithin(q, c)
  {
    SoleUnique(multiset(p), multiset(q), multiset(c.reference), multiset(c.finals));
    SameMembers(p, q);
    PricePermuted(Errors, p, q);
  }

  /** Without a single cheapest matching there is none to speak of. */
  lemma {:induction false} UngradedUnassigned(c: Case, p: seq<Pair>)
    requires IsAssigned(p, c)
    ensures |c.finals| == |c.reference| && Decided(multiset(c.reference), multiset(c.finals))
  {
    var q :| multiset(q) == multiset(p) && Matches(q, multiset(c.reference), multiset(c.finals));
    SameLength(Firsts(q), c.reference);
    SameLength(Seconds(q), c.finals);
    assert |Firsts(q)| == |q| == |Seconds(q)|;
  }

  /** The rows of a graded verdict, field by field. */
  lemma {:induction false} RowsMean(c: Case, v: Verdict)
    requires IsOutcome(Success(v), c) && v.reason == Graded
    ensures exists p :: IsAssigned(p, c) && RowsSay(v.rows, p, c) && v.cpwer.Some? &&
                        IsRate(v.cpwer.value, Price(Errors, p), ReferenceWords(c.reference))
  {
    var p: seq<Pair> :| IsAssigned(p, c) && IsGraded(v, p, c);
    GradedSays(v, p, c);
    RateMeans(Rate(p, c.reference), Price(Errors, p), ReferenceWords(c.reference), c.caseLimit.value);
  }

  /** An attribution passes exactly when every pair of the one cheapest matching is trustworthy. */
  lemma {:induction false} PassMeans(c: Case, v: Verdict)
    requires IsOutcome(Success(v), c)
    ensures v.attributionPassed <==> exists p: seq<Pair> :: IsAssigned(p, c) && AllTrustworthy(p, c)
  {
    if v.reason == Graded {
      var p: seq<Pair> :| IsAssigned(p, c) && IsGraded(v, p, c);
      GradedSays(v, p, c);
      forall q | IsAssigned(q, c)
        ensures AllTrustworthy(p, c) <==> AllTrustworthy(q, c)
      {
        AssignedAlike(p, q, c);
      }
    } else {
      forall q: seq<Pair> | IsAssigned(q, c)
        ensures false
      {
        UngradedUnassigned(c, q);
      }
    }
  }

  /** The text passes exactly when the one cheapest matching and each of its pairs are within the limits. */
  lemma {:induction false} TextMeans(c: Case, v: Verdict)
    requires IsOutcome(Success(v), c)
    ensures v.textPassed <==> exists p: seq<Pair> :: IsAssigned(p, c) && TextWithin(p, c)
  {
    if v.reason == Graded {
      var p: seq<Pair> :| IsAssigned(p, c) && IsGraded(v, p, c);
      GradedSays(v, p, c);
      forall q | IsAssigned(q, c)
        ensures TextWithin(p, c) <==> TextWithin(q, c)
      {
        AssignedAlike(p, q, c);
      }
    } else {
      forall q: seq<Pair> | IsAssigned(q, c)
        ensures false
      {
        UngradedUnassigned(c, q);
      }
    }
  }
}
