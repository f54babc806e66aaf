/**
 The identity verdict as a relation: finals joined with their observations, assigned to reference
 speakers by the one cheapest matching, and graded. No reordering of the inputs changes it.
 */
module IdentityVerdict {
  import opened EditDistance
  import opened Matching
  import opened Wrappers

  datatype Entry = Entry(speaker: string, words: Words)

  datatype Final = Final(session: string, sequence: int, track: string, words: Words)

  /** A reported or expected identity: none, a string, or something that is neither. */
  datatype Identity = Nobody | Uuid(text: string) | Malformed

  datatype Observation = Observation(session: string, refersTo: int, track: string, uid: Identity, reason: string)

  datatype Limit = Limit(value: real) | NotFinite

  datatype Case = Case(reference: seq<Entry>, expected: map<string, Identity>, finals: seq<Final>,
                       observations: seq<Observation>, speakerLimit: Limit, caseLimit: Limit)

  datatype Refusal = Unbounded | BadReference | SharedIdentity | BadFinal | UnknownFinal | Unobserved | BadReport

  datatype Reason = TrackCount | Ambiguous | Graded

  datatype Row = Row(speaker: string, track: string, wer: real, abstained: bool, correct: bool, foreign: bool, passed: bool,
                     reason: string)

  datatype Verdict = Verdict(attributionPassed: bool, textPassed: bool, cpwer: Option<real>, reason: Reason,
                             resolved: nat, abstained: nat, rows: seq<Row>)

  type Outcome = Result<Verdict, Refusal>

  type Pair = (Entry, Final)

  // ----- Refusals

  datatype Key = Key(session: string, sequence: int, track: string)

  function FinalKey(f: Final): Key {
    Key(f.session, f.sequence, f.track)
  }

  function ObservedKey(o: Observation): Key {
    Key(o.session, o.refersTo, o.track)
  }

  predicate WithinUnit(l: Limit) {
    l.Limit? && 0.0 <= l.value <= 1.0
  }

  predicate Bounded(c: Case) {
    && c.reference != [] && |c.reference| <= 4 && |c.finals| <= 4
    && WithinUnit(c.speakerLimit) && WithinUnit(c.caseLimit)
  }

  predicate Referenced(c: Case) {
    && (set e | e in c.reference :: e.speaker) == c.expected.Keys
    && forall e :: e in c.reference ==> e.words != []
  }

  predicate Identified(c: Case) {
    && (forall x :: x in c.expected ==> !c.expected[x].Malformed? && c.expected[x] != Uuid(""))
    && forall x, y :: x in c.expected && y in c.expected && c.expected[x].Uuid? && c.expected[x] == c.expected[y] ==> x == y
  }

  function FinalKeys(finals: seq<Final>): multiset<Key> {
    multiset(Map(FinalKey, finals))
  }

  function ObservedKeys(observations: seq<Observation>): multiset<Key> {
    multiset(Map(ObservedKey, observations))
  }

  ghost predicate FinalsClear(finals: seq<Final>) {
    && (forall f :: f in finals ==> f.track != "" && f.words != [])
    && forall k :: FinalKeys(finals)[k] <= 1
  }

  predicate Known(finals: seq<Final>, observations: seq<Observation>) {
    forall o :: o in observations ==> ObservedKey(o) in FinalKeys(finals)
  }

  predicate Answered(finals: seq<Final>, observations: seq<Observation>) {
    forall f :: f in finals ==> ObservedKeys(observations)[FinalKey(f)] == 1
  }

  /** What is wrong before anything is compared. */
  ghost function Problem(c: Case): Option<Refusal> {
    if !Bounded(c) then Some(Unbounded)
    else if !Referenced(c) then Some(BadReference)
    else if !Identified(c) then Some(SharedIdentity)
    else if !FinalsClear(c.finals) then Some(BadFinal)
    else if !Known(c.finals, c.observations) then Some(UnknownFinal)
    else if !Answered(c.finals, c.observations) then Some(Unobserved)
    else None
  }

  // ----- Grades

  function Errors(e: Entry, f: Final): nat {
    Distance(e.words, f.words)
  }

  /** The one cheapest matching of entries and finals, up to the order of its pairs. */
  ghost predicate Sole(pairs: multiset<Pair>, m: multiset<Entry>, n: multiset<Final>) {
    && (exists p :: multiset(p) == pairs && Matches(p, m, n))
    && (forall p, q :: multiset(p) == pairs && Matches(q, m, n) && multiset(q) != pairs ==> Price(Errors, p) < Price(Errors, q))
  }

  function Elements<T>(s: seq<T>): set<T> {
    set x | x in s
  }

  /** Adjacent words. */
  function Bigrams(words: Words): set<(Word, Word)> {
    if words == [] then {} else Elements(Zip(words[..|words| - 1], words[1..]))
  }

  /** Word pairs of other speakers that the speaker does not have. */
  function ForeignPairs(e: Entry, reference: seq<Entry>): set<(Word, Word)> {
    (set other, b | other in reference && other != e && b in Bigrams(other.words) :: b) - Bigrams(e.words)
  }

  ghost predicate Answers(o: Observation, f: Final, observations: seq<Observation>) {
    o in observations && ObservedKey(o) == FinalKey(f)
  }

  function RowOf(e: Entry, f: Final, o: Observation, c: Case): Row
    requires e.words != [] && e.speaker in c.expected && c.speakerLimit.Limit?
  {
    var wer := Errors(e, f) as real / |e.words| as real;
    var abstained := o.uid.Nobody?;
    var correct := !abstained && o.uid == c.expected[e.speaker];
    var foreign := Bigrams(f.words) * ForeignPairs(e, c.reference) != {};
    Row(e.speaker, f.track, wer, abstained, correct, foreign,
        abstained || (correct && !foreign && wer <= c.speakerLimit.value), o.reason)
  }

  /** The row of a pair, with the observation that answers its final. */
  ghost predicate IsRow(row: Row, p: Pair, c: Case)
    requires Referenced(c) && WithinUnit(c.speakerLimit)
  {
    p.0 in c.reference && exists o :: Answers(o, p.1, c.observations) && row == RowOf(p.0, p.1, o, c)
  }

  ghost predicate AreRows(rows: seq<Row>, p: seq<Pair>, c: Case)
    requires Referenced(c) && WithinUnit(c.speakerLimit)
  {
    |rows| == |p| && forall i :: 0 <= i < |p| ==> IsRow(rows[i], p[i], c)
  }

  function Length(e: Entry): nat {
    |e.words|
  }

  function ReferenceWords(reference: seq<Entry>): nat {
    Total(Map(Length, reference))
  }

  function Silent(r: Row): nat {
    if r.abstained then 1 else 0
  }

  function Named(r: Row): nat {
    if r.abstained then 0 else 1
  }

  function Abstained(rows: seq<Row>): nat {
    Total(Map(Silent, rows))
  }

  function Resolved(rows: seq<Row>): nat {
    Total(Map(Named, rows))
  }

  predicate AllPass(rows: seq<Row>) {
    forall r :: r in rows ==> r.passed
  }

  predicate AllWithin(rows: seq<Row>, limit: real) {
    forall r :: r in rows ==> r.wer <= limit
  }

  function Rate(p: seq<Pair>, reference: seq<Entry>): real
    requires ReferenceWords(reference) != 0
  {
    Price(Errors, p) as real / ReferenceWords(reference) as real
  }

  ghost predicate IsGraded(v: Verdict, p: seq<Pair>, c: Case)
    requires Referenced(c) && WithinUnit(c.speakerLimit) && WithinUnit(c.caseLimit)
  {
    && AreRows(v.rows, p, c) && v.reason == Graded && ReferenceWords(c.reference) != 0
    && v.cpwer == Some(Rate(p, c.reference))
    && v.attributionPassed == AllPass(v.rows)
    && v.textPassed == (Rate(p, c.reference) <= c.caseLimit.value && AllWithin(v.rows, c.speakerLimit.value))
    && v.resolved == Resolved(v.rows) && v.abstained == Abstained(v.rows)
  }

  function Ungraded(reason: Reason): Verdict {
    Verdict(false, false, None, reason, 0, 0, [])
  }

  /** How far an evaluation gets. */
  datatype Stage = Refused(error: Refusal) | Stopped(reason: Reason) | Open

  ghost function StageOf(c: Case): Stage {
    if Problem(c).Some? then Refused(Problem(c).value)
    else if |c.finals| != |c.reference| then Stopped(TrackCount)
    else if !Decided(multiset(c.reference), multiset(c.finals)) then Stopped(Ambiguous)
    else if HasUnreadable(c.observations) then Refused(BadReport)
    else Open
  }

  ghost predicate Decided(m: multiset<Entry>, n: multiset<Final>) {
    exists pairs :: Sole(pairs, m, n)
  }

  predicate HasUnreadable(observations: seq<Observation>) {
    exists o :: o in observations && Unreadable(o)
  }

  /** The one matching, its pairs in the order of the reference. */
  ghost predicate IsAssigned(p: seq<Pair>, c: Case) {
    Sole(multiset(p), multiset(c.reference), multiset(c.finals)) && Firsts(p) == c.reference
  }

  ghost predicate IsOutcome(result: Outcome, c: Case) {
    IsOutcomeAt(StageOf(c), result, c)
  }

  ghost predicate IsOutcomeAt(stage: Stage, result: Outcome, c: Case) {
    match stage
    case Refused(e) => result == Failure(e)
    case Stopped(reason) => result == Success(Ungraded(reason))
    case Open => result.Success? && IsGradedCase(result.value, c)
  }

  ghost predicate IsGradedCase(v: Verdict, c: Case) {
    && v.reason == Graded && Ready(c) && WithinUnit(c.caseLimit)
    && exists p :: IsAssigned(p, c) && IsGraded(v, p, c)
  }

  /** A case whose rows are defined. */
  ghost predicate Ready(c: Case) {
    Referenced(c) && WithinUnit(c.speakerLimit) && Answered(c.finals, c.observations)
  }

  predicate Unreadable(o: Observation) {
    o.uid.Malformed? || o.uid == Uuid("")
  }

  // ----- Reordered inputs

  ghost predicate Reordered(c: Case, d: Case) {
    && multiset(c.reference) == multiset(d.reference) && multiset(c.finals) == multiset(d.finals)
    && multiset(c.observations) == multiset(d.observations)
    && c.expected == d.expected && c.speakerLimit == d.speakerLimit && c.caseLimit == d.caseLimit
  }

  lemma SameMembers<T>(s: seq<T>, t: seq<T>)
    requires multiset(s) == multiset(t)
    ensures |s| == |t| && forall x :: x in s <==> x in t
  {
    assert |multiset(s)| == |s| && |multiset(t)| == |t|;
    forall x
      ensures x in s <==> x in t
    {
      assert x in s <==> x in multiset(s);
      assert x in t <==> x in multiset(t);
    }
  }

  lemma {:induction false} KeysReordered(c: Case, d: Case)
    requires Reordered(c, d)
    ensures FinalsClear(c.finals) == FinalsClear(d.finals) && Known(c.finals, c.observations) == Known(d.finals, d.observations)
    ensures Answered(c.finals, c.observations) == Answered(d.finals, d.observations)
  {
    SameMembers(c.finals, d.finals);
    SameMembers(c.observations, d.observations);
    MapPermuted(FinalKey, c.finals, d.finals);
    MapPermuted(ObservedKey, c.observations, d.observations);
    assert FinalKeys(c.finals) == FinalKeys(d.finals) && ObservedKeys(c.observations) == ObservedKeys(d.observations);
  }

  lemma {:induction false} ReferenceReordered(c: Case, d: Case)
    requires Reordered(c, d)
    ensures Bounded(c) == Bounded(d) && Referenced(c) == Referenced(d)
  {
    SameMembers(c.finals, d.finals);
    SameMembers(c.reference, d.reference);
    assert (set e | e in c.reference :: e.speaker) == (set e | e in d.reference :: e.speaker);
  }

  lemma {:induction false} ProblemReordered(c: Case, d: Case)
    requires Reordered(c, d)
    ensures Problem(c) == Problem(d)
  {
    KeysReordered(c, d);
    ReferenceReordered(c, d);
  }

  lemma UnreadableReordered(observations: seq<Observation>, others: seq<Observation>)
    requires multiset(observations) == multiset(others)
    ensures HasUnreadable(observations) == HasUnreadable(others)
  {
    SameMembers(observations, others);
  }

  lemma SameLength<T>(s: seq<T>, t: seq<T>)
    requires multiset(s) == multiset(t)
    ensures |s| == |t|
  {
    SameMembers(s, t);
  }

  lemma {:induction false} StageReordered(c: Case, d: Case)
    requires Reordered(c, d)
    ensures StageOf(c) == StageOf(d)
  {
    ProblemReordered(c, d);
    UnreadableReordered(c.observations, d.observations);
    SameLength(c.reference, d.reference);
    SameLength(c.finals, d.finals);
  }

  /** Two observations of one final, each the only one, are the same. */
  lemma {:induction false} OneAnswer(observations: seq<Observation>, o: Observation, q: Observation)
    requires o in observations && q in observations && ObservedKey(o) == ObservedKey(q)
    requires ObservedKeys(observations)[ObservedKey(o)] == 1
    ensures o == q
  {
    if o != q {
      var u, v := Around(observations, o);
      assert observations == u + [o] + v;
      assert q in u + v;
      var a, b := Around(u + v, q);
      MapAround(ObservedKey, observations, u, o, v);
      MapAround(ObservedKey, u + v, a, q, b);
    }
  }

  lemma {:induction false} ForeignReordered(e: Entry, reference: seq<Entry>, other: seq<Entry>)
    requires multiset(reference) == multiset(other)
    ensures ForeignPairs(e, reference) == ForeignPairs(e, other)
  {
    SameMembers(reference, other);
  }

  /** The row of a pair is determined by the pair, in either order of the inputs. */
  lemma {:induction false} RowReordered(c: Case, d: Case, p: Pair, r: Row, s: Row)
    requires Reordered(c, d) && Ready(c) && Ready(d) && p.1 in c.finals
    requires IsRow(r, p, c) && IsRow(s, p, d)
    ensures r == s
  {
    SameMembers(c.observations, d.observations);
    var o :| Answers(o, p.1, c.observations) && r == RowOf(p.0, p.1, o, c);
    var q :| Answers(q, p.1, d.observations) && s == RowOf(p.0, p.1, q, d);
    OneAnswer(c.observations, o, q);
    ForeignReordered(p.0, c.reference, d.reference);
  }

  /** Whichever row a pair has. */
  ghost function TheRow(p: Pair, c: Case, default: Row): Row
    requires Ready(c)
  {
    if exists r :: IsRow(r, p, c) then (var r :| IsRow(r, p, c); r) else default
  }

  ghost function RowFor(c: Case, default: Row): Pair -> Row
    requires Ready(c)
  {
    (x: Pair) => if Ready(c) then TheRow(x, c, default) else default
  }

  lemma {:induction false} RowsAre(c: Case, d: Case, p: seq<Pair>, rows: seq<Row>, default: Row)
    requires Reordered(c, d) && Ready(c) && Ready(d) && AreRows(rows, p, d)
    requires forall x :: x in p ==> x.1 in c.finals && exists r :: IsRow(r, x, c)
    ensures rows == Map(RowFor(c, default), p)
  {
    forall i | 0 <= i < |p|
      ensures rows[i] == RowFor(c, default)(p[i])
    {
      assert p[i] in p;
      RowReordered(c, d, p[i], TheRow(p[i], c, default), rows[i]);
    }
  }

  lemma {:induction false} RowsReordered(c: Case, d: Case, p: seq<Pair>, q: seq<Pair>, rows: seq<Row>, others: seq<Row>)
    requires Reordered(c, d) && Ready(c) && Ready(d)
    requires multiset(p) == multiset(q) && AreRows(rows, p, c) && AreRows(others, q, d)
    requires forall x :: x in p ==> x.1 in c.finals
    ensures multiset(rows) == multiset(others)
  {
    SameMembers(p, q);
    if p == [] {
      assert rows == others;
    } else {
      forall x | x in p
        ensures exists r :: IsRow(r, x, c)
      {
        var i :| 0 <= i < |p| && p[i] == x;
        assert IsRow(rows[i], x, c);
      }
      RowsAre(c, c, p, rows, rows[0]);
      RowsAre(c, d, q, others, rows[0]);
      MapPermuted(RowFor(c, rows[0]), p, q);
    }
  }

  lemma {:induction false} SoleUnique(a: multiset<Pair>, b: multiset<Pair>, m: multiset<Entry>, n: multiset<Final>)
    requires Sole(a, m, n) && Sole(b, m, n)
    ensures a == b
  {
    if a != b {
      var p :| multiset(p) == a && Matches(p, m, n);
      var q :| multiset(q) == b && Matches(q, m, n);
      var x, y := Price(Errors, p), Price(Errors, q);
    }
  }

  ghost predicate SameVerdict(v: Verdict, w: Verdict) {
    && v.attributionPassed == w.attributionPassed && v.textPassed == w.textPassed && v.cpwer == w.cpwer
    && v.reason == w.reason && v.resolved == w.resolved && v.abstained == w.abstained
    && multiset(v.rows) == multiset(w.rows)
  }

  lemma {:induction false} RateReordered(c: Case, d: Case, p: seq<Pair>, q: seq<Pair>)
    requires Reordered(c, d) && multiset(p) == multiset(q)
    ensures ReferenceWords(c.reference) == ReferenceWords(d.reference)
    ensures ReferenceWords(c.reference) != 0 ==> Rate(p, c.reference) == Rate(q, d.reference)
  {
    PricePermuted(Errors, p, q);
    MapPermuted(Length, c.reference, d.reference);
    TotalPermuted(Map(Length, c.reference), Map(Length, d.reference));
  }

  lemma {:induction false} FlagsReordered(rows: seq<Row>, others: seq<Row>, limit: real)
    requires multiset(rows) == multiset(others)
    ensures Abstained(rows) == Abstained(others) && Resolved(rows) == Resolved(others)
    ensures AllPass(rows) == AllPass(others) && AllWithin(rows, limit) == AllWithin(others, limit)
  {
    SameMembers(rows, others);
    MapPermuted(Silent, rows, others);
    MapPermuted(Named, rows, others);
    TotalPermuted(Map(Silent, rows), Map(Silent, others));
    TotalPermuted(Map(Named, rows), Map(Named, others));
  }

  lemma {:induction false} GradedReordered(c: Case, d: Case, p: seq<Pair>, q: seq<Pair>, v: Verdict, w: Verdict)
    requires Reordered(c, d) && Ready(c) && Ready(d) && WithinUnit(c.caseLimit)
    requires multiset(p) == multiset(q) && IsGraded(v, p, c) && IsGraded(w, q, d)
    requires forall x :: x in p ==> x.1 in c.finals
    ensures SameVerdict(v, w)
  {
    RowsReordered(c, d, p, q, v.rows, w.rows);
    RateReordered(c, d, p, q);
    FlagsReordered(v.rows, w.rows, c.speakerLimit.value);
  }

  lemma {:induction false} GradedCaseReordered(c: Case, d: Case, v: Verdict, w: Verdict)
    requires Reordered(c, d) && IsGradedCase(v, c) && IsGradedCase(w, d)
    ensures SameVerdict(v, w)
  {
    var p: seq<Pair> :| IsAssigned(p, c) && IsGraded(v, p, c);
    var q: seq<Pair> :| IsAssigned(q, d) && IsGraded(w, q, d);
    SoleUnique(multiset(p), multiset(q), multiset(c.reference), multiset(c.finals));
    forall x | x in p
      ensures x.1 in c.finals
    {
      PairedFinal(p, x, multiset(c.reference), c.finals);
    }
    GradedReordered(c, d, p, q, v, w);
  }

  ghost predicate SameOutcome(first: Outcome, second: Outcome) {
    if first.Success? && second.Success? then SameVerdict(first.value, second.value) else first == second
  }

  lemma {:induction false} OutcomeReordered(stage: Stage, c: Case, d: Case, first: Outcome, second: Outcome)
    requires Reordered(c, d) && IsOutcomeAt(stage, first, c) && IsOutcomeAt(stage, second, d)
    ensures SameOutcome(first, second)
  {
    if stage.Open? {
      GradedCaseReordered(c, d, first.value, second.value);
    }
  }

  /** No reordering of finals, observations or reference speakers changes the outcome. */
  lemma {:induction false} OrderIrrelevant(c: Case, d: Case, first: Outcome, second: Outcome)
    requires Reordered(c, d) && IsOutcome(first, c) && IsOutcome(second, d)
    ensures SameOutcome(first, second)
  {
    StageReordered(c, d);
    OutcomeReordered(StageOf(c), c, d, first, second);
  }

  lemma {:induction false} PairedFinal(p: seq<Pair>, x: Pair, m: multiset<Entry>, finals: seq<Final>)
    requires x in p && Sole(multiset(p), m, multiset(finals))
    ensures x.1 in finals
  {
    var q :| multiset(q) == multiset(p) && Matches(q, m, multiset(finals));
    SameMembers(p, q);
    var i :| 0 <= i < |q| && q[i] == x;
    assert Seconds(q)[i] == x.1;
    assert x.1 in multiset(Seconds(q));
  }

  // ----- What a verdict means

  lemma {:induction false} CountsAdd(rows: seq<Row>)
    ensures Resolved(rows) + Abstained(rows) == |rows|
  {
    if rows != [] {
      CountsAdd(rows[..|rows| - 1]);
      assert Map(Silent, rows)[..|rows| - 1] == Map(Silent, rows[..|rows| - 1]);
      assert Map(Named, rows)[..|rows| - 1] == Map(Named, rows[..|rows| - 1]);
    }
  }

  /** A graded verdict resolves or abstains on every reference speaker. */
  lemma {:induction false} EverySpeakerCounted(c: Case, v: Verdict)
    requires IsOutcome(Success(v), c) && v.reason == Graded
    ensures v.resolved + v.abstained == |c.reference|
  {
    GradedCounted(c, v);
  }

  lemma {:induction false} GradedCounted(c: Case, v: Verdict)
    requires IsGradedCase(v, c)
    ensures v.resolved + v.abstained == |c.reference|
  {
    var p: seq<Pair> :| IsAssigned(p, c) && IsGraded(v, p, c);
    CountsAdd(v.rows);
    assert |Firsts(p)| == |p|;
  }
}
