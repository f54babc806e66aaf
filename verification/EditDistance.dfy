/**
 Word edit distance: the rolling-row loops of the three scorers compute one function, which is the
 least number of single-word insertions, deletions and substitutions turning one list into the
 other, and a metric.
 */
module EditDistance {
  import opened Wrappers

  datatype Word = Word(text: string)

  type Words = seq<Word>

  function Least3(a: nat, b: nat, c: nat): nat {
    if a <= b && a <= c then a else if b <= c then b else c
  }

  function Differs(x: Word, y: Word): nat {
    if x == y then 0 else 1
  }

  /** The entry the rows tabulate for the first i words of a and the first j words of b. */
  function Entry(a: Words, i: nat, b: Words, j: nat): nat
    requires i <= |a| && j <= |b|
    decreases i + j
  {
    if i == 0 then j
    else if j == 0 then i
    else Least3(Entry(a, i - 1, b, j) + 1, Entry(a, i, b, j - 1) + 1, Entry(a, i - 1, b, j - 1) + Differs(a[i - 1], b[j - 1]))
  }

  function Distance(a: Words, b: Words): nat {
    Entry(a, |a|, b, |b|)
  }

  // ----- Edits of a word list

  datatype Edit = Insert(at: nat, word: Word) | Delete(at: nat) | Substitute(at: nat, word: Word)

  function Apply(e: Edit, a: Words): Option<Words> {
    match e
    case Insert(at, word) => if at <= |a| then Some(a[..at] + [word] + a[at..]) else None
    case Delete(at) => if at < |a| then Some(a[..at] + a[at + 1..]) else None
    case Substitute(at, word) => if at < |a| then Some(a[at := word]) else None
  }

  function ApplyAll(edits: seq<Edit>, a: Words): Option<Words> {
    if edits == [] then Some(a)
    else
      var next :- Apply(edits[0], a);
      ApplyAll(edits[1..], next)
  }

  lemma {:induction false} ApplyAppend(first: seq<Edit>, second: seq<Edit>, a: Words)
    ensures ApplyAll(first + second, a) ==
            if ApplyAll(first, a).Some? then ApplyAll(second, ApplyAll(first, a).value) else None
  {
    if first == [] {
      assert first + second == second;
    } else {
      assert (first + second)[1..] == first[1..] + second;
      if Apply(first[0], a).Some? {
        ApplyAppend(first[1..], second, Apply(first[0], a).value);
      }
    }
  }

  /** Edits of a list edit it in front of a further word as well. */
  lemma {:induction false} ApplyBefore(edits: seq<Edit>, a: Words, y: Word)
    requires ApplyAll(edits, a).Some?
    ensures ApplyAll(edits, a + [y]) == Some(ApplyAll(edits, a).value + [y])
  {
    if edits != [] {
      var next := Apply(edits[0], a).value;
      assert Apply(edits[0], a + [y]).value == next + [y];
      ApplyBefore(edits[1..], next, y);
    }
  }

  lemma AppliedLast(q: Words, y: Word)
    ensures Apply(Insert(|q|, y), q) == Some(q + [y])
  {
    assert q[..|q|] + [y] + q[|q|..] == q + [y];
  }

  lemma RemovedLast(p: Words, x: Word, y: Word)
    ensures Apply(Delete(|p|), p + [x]) == Some(p) && Apply(Substitute(|p|, y), p + [x]) == Some(p + [y])
  {
    var a := p + [x];
    assert a[..|p|] + a[|p| + 1..] == p;
    assert a[|p| := y] == p + [y];
  }

  lemma ApplySingle(e: Edit, a: Words)
    ensures ApplyAll([e], a) == Apply(e, a)
  {
    assert [e][1..] == [];
  }

  // ----- Alignments

  /** One column of an alignment of two lists. */
  datatype Column = Gone(x: Word) | New(y: Word) | Both(x: Word, y: Word)

  function Upper(c: Column): Words {
    if c.New? then [] else [c.x]
  }

  function Lower(c: Column): Words {
    if c.Gone? then [] else [c.y]
  }

  function ColumnPrice(c: Column): nat {
    if c.Both? then Differs(c.x, c.y) else 1
  }

  function Above(s: seq<Column>): Words {
    if s == [] then [] else Above(s[..|s| - 1]) + Upper(s[|s| - 1])
  }

  function Below(s: seq<Column>): Words {
    if s == [] then [] else Below(s[..|s| - 1]) + Lower(s[|s| - 1])
  }

  function Cost(s: seq<Column>): nat {
    if s == [] then 0 else Cost(s[..|s| - 1]) + ColumnPrice(s[|s| - 1])
  }

  lemma Snoc(s: seq<Column>, c: Column)
    ensures Above(s + [c]) == Above(s) + Upper(c) && Below(s + [c]) == Below(s) + Lower(c)
    ensures Cost(s + [c]) == Cost(s) + ColumnPrice(c)
  {
    assert (s + [c])[..|s|] == s;
  }

  lemma SnocPrefix(p: Words, x: Word, a: Words, i: nat)
    requires i <= |a| && p + [x] == a[..i]
    ensures 0 < i && p == a[..i - 1] && x == a[i - 1]
  {
    var q := p + [x];
    assert q[..|p|] == p && q[|p|] == x && |p| == i - 1;
  }

  /** An entry is at most one column more than the entries before it. */
  lemma {:induction false} EntryStep(a: Words, i: nat, b: Words, j: nat, c: Column)
    requires i <= |a| && j <= |b|
    requires !c.New? ==> i != 0 && c.x == a[i - 1]
    requires !c.Gone? ==> j != 0 && c.y == b[j - 1]
    ensures Entry(a, i, b, j) <= Entry(a, if c.New? then i else i - 1, b, if c.Gone? then j else j - 1) + ColumnPrice(c)
  {
  }

  /** No alignment costs less than the entry. */
  lemma {:induction false} EntryLeast(s: seq<Column>, a: Words, i: nat, b: Words, j: nat)
    requires i <= |a| && j <= |b| && Above(s) == a[..i] && Below(s) == b[..j]
    ensures Entry(a, i, b, j) <= Cost(s)
  {
    if s != [] {
      var before, c := s[..|s| - 1], s[|s| - 1];
      if !c.New? {
        SnocPrefix(Above(before), c.x, a, i);
      }
      if !c.Gone? {
        SnocPrefix(Below(before), c.y, b, j);
      }
      EntryStep(a, i, b, j, c);
      EntryLeast(before, a, if c.New? then i else i - 1, b, if c.Gone? then j else j - 1);
    }
  }

  /** The column an entry was reached by. */
  function Arrow(a: Words, i: nat, b: Words, j: nat): (c: Column)
    requires i <= |a| && j <= |b| && (i != 0 || j != 0)
    ensures !c.New? ==> i != 0 && c.x == a[i - 1]
    ensures !c.Gone? ==> j != 0 && c.y == b[j - 1]
    ensures Entry(a, i, b, j) == Entry(a, if c.New? then i else i - 1, b, if c.Gone? then j else j - 1) + ColumnPrice(c)
  {
    if i == 0 then New(b[j - 1])
    else if j == 0 then Gone(a[i - 1])
    else if Entry(a, i, b, j) == Entry(a, i, b, j - 1) + 1 then New(b[j - 1])
    else if Entry(a, i, b, j) == Entry(a, i - 1, b, j) + 1 then Gone(a[i - 1])
    else Both(a[i - 1], b[j - 1])
  }

  /** Some alignment costs the entry. */
  lemma {:induction false} EntryReached(a: Words, i: nat, b: Words, j: nat) returns (s: seq<Column>)
    requires i <= |a| && j <= |b|
    ensures Above(s) == a[..i] && Below(s) == b[..j] && Cost(s) == Entry(a, i, b, j)
    decreases i + j
  {
    s := [];
    if i != 0 || j != 0 {
      var c := Arrow(a, i, b, j);
      var k, l := if c.New? then i else i - 1, if c.Gone? then j else j - 1;
      s := EntryReached(a, k, b, l);
      ColumnAdded(s, c, a, i, k, b, j, l);
      s := s + [c];
    }
  }

  lemma {:induction false} ColumnAdded(s: seq<Column>, c: Column, a: Words, i: nat, k: nat, b: Words, j: nat, l: nat)
    requires k <= i <= |a| && l <= j <= |b| && Above(s) == a[..k] && Below(s) == b[..l]
    requires if c.New? then k == i else i == k + 1 && c.x == a[k]
    requires if c.Gone? then l == j else j == l + 1 && c.y == b[l]
    ensures Above(s + [c]) == a[..i] && Below(s + [c]) == b[..j] && Cost(s + [c]) == Cost(s) + ColumnPrice(c)
  {
    Snoc(s, c);
    PrefixSnoc(a, k);
    PrefixSnoc(b, l);
  }

  lemma PrefixSnoc(a: Words, i: nat)
    ensures i < |a| ==> a[..i + 1] == a[..i] + [a[i]]
    ensures i <= |a| ==> a[..i] + [] == a[..i]
  {
  }

  lemma DistanceLeast(s: seq<Column>)
    ensures Distance(Above(s), Below(s)) <= Cost(s)
  {
    var a, b := Above(s), Below(s);
    assert a[..|a|] == a && b[..|b|] == b;
    EntryLeast(s, a, |a|, b, |b|);
  }

  lemma DistanceReached(a: Words, b: Words) returns (s: seq<Column>)
    ensures Above(s) == a && Below(s) == b && Cost(s) == Distance(a, b)
  {
    assert a[..|a|] == a && b[..|b|] == b;
    s := EntryReached(a, |a|, b, |b|);
  }

  function TurnedColumn(c: Column): Column {
    match c
    case Gone(x) => New(x)
    case New(y) => Gone(y)
    case Both(x, y) => Both(y, x)
  }

  function Turned(s: seq<Column>): seq<Column> {
    if s == [] then [] else Turned(s[..|s| - 1]) + [TurnedColumn(s[|s| - 1])]
  }

  lemma {:induction false} TurnedAligns(s: seq<Column>)
    ensures Above(Turned(s)) == Below(s) && Below(Turned(s)) == Above(s) && Cost(Turned(s)) == Cost(s)
  {
    if s != [] {
      TurnedAligns(s[..|s| - 1]);
      Snoc(Turned(s[..|s| - 1]), TurnedColumn(s[|s| - 1]));
      ColumnTurned(s[|s| - 1]);
    }
  }

  lemma ColumnTurned(c: Column)
    ensures Upper(TurnedColumn(c)) == Lower(c) && Lower(TurnedColumn(c)) == Upper(c)
    ensures ColumnPrice(TurnedColumn(c)) == ColumnPrice(c)
  {
  }

  lemma NotFarther(a: Words, b: Words)
    ensures Distance(b, a) <= Distance(a, b)
  {
    var s := DistanceReached(a, b);
    TurnedAligns(s);
    DistanceLeast(Turned(s));
  }

  lemma Symmetric(a: Words, b: Words)
    ensures Distance(a, b) == Distance(b, a)
  {
    NotFarther(a, b);
    NotFarther(b, a);
  }

  /** What two columns meeting in the middle list come to. */
  function Joined(c: Column, d: Column): seq<Column>
    requires !c.Gone? && !d.New?
  {
    if c.New? then (if d.Gone? then [] else [New(d.y)])
    else if d.Gone? then [Gone(c.x)] else [Both(c.x, d.y)]
  }

  lemma JoinedAligns(u: seq<Column>, c: Column, d: Column)
    requires !c.Gone? && !d.New? && c.y == d.x
    ensures Above(u + Joined(c, d)) == Above(u) + Upper(c) && Below(u + Joined(c, d)) == Below(u) + Lower(d)
    ensures Cost(u + Joined(c, d)) <= Cost(u) + ColumnPrice(c) + ColumnPrice(d)
  {
    if c.New? && d.Gone? {
      assert u + Joined(c, d) == u;
    } else {
      Snoc(u, Joined(c, d)[0]);
    }
  }

  /** Alignments through a common list compose at no more than the cost of both. */
  lemma {:induction false} Composed(s: seq<Column>, t: seq<Column>) returns (u: seq<Column>)
    requires Below(s) == Above(t)
    ensures Above(u) == Above(s) && Below(u) == Below(t) && Cost(u) <= Cost(s) + Cost(t)
    decreases |s| + |t|
  {
    if s != [] && s[|s| - 1].Gone? {
      u := Composed(s[..|s| - 1], t);
      Snoc(u, s[|s| - 1]);
      u := u + [s[|s| - 1]];
    } else if t != [] && t[|t| - 1].New? {
      u := Composed(s, t[..|t| - 1]);
      Snoc(u, t[|t| - 1]);
      u := u + [t[|t| - 1]];
    } else if s != [] && t != [] {
      var c, d := s[|s| - 1], t[|t| - 1];
      SnocSame(Below(s[..|s| - 1]), c.y, Above(t[..|t| - 1]), d.x);
      u := Composed(s[..|s| - 1], t[..|t| - 1]);
      JoinedAligns(u, c, d);
      u := u + Joined(c, d);
    } else {
      u := [];
    }
  }

  lemma SnocSame(p: Words, x: Word, q: Words, y: Word)
    requires p + [x] == q + [y]
    ensures p == q && x == y
  {
    var a, b := p + [x], q + [y];
    assert a[..|p|] == p && b[..|q|] == q && a[|p|] == x && b[|q|] == y;
  }

  lemma Triangle(a: Words, b: Words, c: Words)
    ensures Distance(a, c) <= Distance(a, b) + Distance(b, c)
  {
    var s := DistanceReached(a, b);
    var t := DistanceReached(b, c);
    var u := Composed(s, t);
    DistanceLeast(u);
  }

  lemma {:induction false} EntryBounds(a: Words, i: nat, b: Words, j: nat)
    requires i <= |a| && j <= |b|
    ensures i - j <= Entry(a, i, b, j) && j - i <= Entry(a, i, b, j)
    decreases i + j
  {
    if i != 0 && j != 0 {
      EntryBounds(a, i - 1, b, j);
      EntryBounds(a, i, b, j - 1);
      EntryBounds(a, i - 1, b, j - 1);
    }
  }

  lemma {:induction false} EntryAtMost(a: Words, i: nat, b: Words, j: nat)
    requires i <= |a| && j <= |b|
    ensures Entry(a, i, b, j) <= if i <= j then j else i
    decreases i + j
  {
    if i != 0 && j != 0 {
      EntryAtMost(a, i - 1, b, j - 1);
    }
  }

  lemma {:induction false} EntryZero(a: Words, i: nat, b: Words, j: nat)
    requires i <= |a| && j <= |b|
    ensures Entry(a, i, b, j) == 0 <==> i == j && forall k :: 0 <= k < i ==> a[k] == b[k]
    decreases i + j
  {
    if i != 0 && j != 0 {
      EntryZero(a, i - 1, b, j - 1);
    }
  }

  lemma Bounds(a: Words, b: Words)
    ensures |a| - |b| <= Distance(a, b) && |b| - |a| <= Distance(a, b)
    ensures Distance(a, b) <= if |a| <= |b| then |b| else |a|
    ensures Distance(a, b) == 0 <==> a == b
  {
    EntryBounds(a, |a|, b, |b|);
    EntryAtMost(a, |a|, b, |b|);
    EntryZero(a, |a|, b, |b|);
  }

  // ----- The distance counts edits

  /** Further words kept cost nothing. */
  lemma {:induction false} Kept(s: seq<Column>, a: Words) returns (t: seq<Column>)
    ensures Above(t) == Above(s) + a && Below(t) == Below(s) + a && Cost(t) == Cost(s)
    decreases |a|
  {
    if a == [] {
      t := s;
    } else {
      Snoc(s, Both(a[0], a[0]));
      t := Kept(s + [Both(a[0], a[0])], a[1..]);
      FirstMoved(Above(s), a);
      FirstMoved(Below(s), a);
    }
  }

  lemma FirstMoved(x: Words, a: Words)
    requires a != []
    ensures x + [a[0]] + a[1..] == x + a
  {
  }

  lemma OneColumn(c: Column, p: Words, rest: Words)
    ensures Distance(p + Upper(c) + rest, p + Lower(c) + rest) <= 1
  {
    var s := Kept([], p);
    Snoc(s, c);
    var t := Kept(s + [c], rest);
    assert [] + p == p;
    DistanceLeast(t);
  }

  lemma OneEdit(e: Edit, a: Words)
    requires Apply(e, a).Some?
    ensures Distance(a, Apply(e, a).value) <= 1
  {
    var p, none := a[..e.at], [];
    match e
    case Insert(at, word) =>
      Spliced(a, p, none, a[at..]);
      OneColumn(New(word), p, a[at..]);
    case Delete(at) =>
      Spliced(a, p, [a[at]], a[at + 1..]);
      Spliced(p + a[at + 1..], p, none, a[at + 1..]);
      OneColumn(Gone(a[at]), p, a[at + 1..]);
    case Substitute(at, word) =>
      Spliced(a, p, [a[at]], a[at + 1..]);
      Spliced(a[at := word], p, [word], a[at + 1..]);
      OneColumn(Both(a[at], word), p, a[at + 1..]);
  }

  lemma Spliced(a: Words, p: Words, middle: Words, rest: Words)
    requires |a| == |p| + |middle| + |rest| && a[..|p|] == p && a[|p|..|p| + |middle|] == middle && a[|p| + |middle|..] == rest
    ensures a == p + middle + rest
  {
  }

  /** The edits an alignment asks for, in front of which nothing moves. */
  lemma {:induction false} EditsOf(s: seq<Column>) returns (edits: seq<Edit>)
    ensures |edits| == Cost(s) && ApplyAll(edits, Above(s)) == Some(Below(s))
  {
    edits := [];
    if s != [] {
      var before, c := s[..|s| - 1], s[|s| - 1];
      edits := EditsOf(before);
      var p, q := Above(before), Below(before);
      assert p + [] == p && q + [] == q;
      match c
      case Gone(x) =>
        RemovedLast(p, x, x);
        ApplyFirst(Delete(|p|), edits, p + [x]);
        edits := [Delete(|p|)] + edits;
      case New(y) =>
        ApplyAppend(edits, [Insert(|q|, y)], p);
        ApplySingle(Insert(|q|, y), q);
        AppliedLast(q, y);
        edits := edits + [Insert(|q|, y)];
      case Both(x, y) =>
        ApplyBefore(edits, p, y);
        if x != y {
          RemovedLast(p, x, y);
          ApplyFirst(Substitute(|p|, y), edits, p + [x]);
          edits := [Substitute(|p|, y)] + edits;
        }
    }
  }

  lemma ApplyFirst(e: Edit, edits: seq<Edit>, a: Words)
    requires Apply(e, a).Some?
    ensures ApplyAll([e] + edits, a) == ApplyAll(edits, Apply(e, a).value)
  {
    assert ([e] + edits)[1..] == edits;
  }

  /** No list of edits from the one to the other is shorter than the distance, and one is as short. */
  lemma {:induction false} EditsNeeded(edits: seq<Edit>, a: Words)
    requires ApplyAll(edits, a).Some?
    ensures Distance(a, ApplyAll(edits, a).value) <= |edits|
  {
    if edits == [] {
      Bounds(a, a);
    } else {
      var next := Apply(edits[0], a).value;
      OneEdit(edits[0], a);
      EditsNeeded(edits[1..], next);
      Triangle(a, next, ApplyAll(edits, a).value);
    }
  }

  lemma FewestEdits(a: Words, b: Words)
    ensures exists edits :: |edits| == Distance(a, b) && ApplyAll(edits, a) == Some(b)
    ensures forall edits :: ApplyAll(edits, a) == Some(b) ==> Distance(a, b) <= |edits|
  {
    var s := DistanceReached(a, b);
    var best := EditsOf(s);
    forall edits | ApplyAll(edits, a) == Some(b)
      ensures Distance(a, b) <= |edits|
    {
      EditsNeeded(edits, a);
    }
  }

  // ----- The rolling rows

  /** The row after the first i words of a: one entry for every prefix of b. */
  ghost predicate IsRow(row: seq<nat>, a: Words, i: nat, b: Words, width: nat)
    requires i <= |a| && width <= |b|
  {
    |row| == width + 1 && forall j :: 0 <= j <= width ==> row[j] == Entry(a, i, b, j)
  }

  /** The entry appended to a row is the next entry. */
  lemma NextEntry(row: seq<nat>, nxt: seq<nat>, a: Words, i: nat, b: Words, j: nat, entry: nat)
    requires i < |a| && j < |b| && IsRow(row, a, i, b, |b|) && IsRow(nxt, a, i + 1, b, j)
    requires entry == Least3(row[j + 1] + 1, nxt[j] + 1, row[j] + Differs(a[i], b[j]))
    ensures IsRow(nxt + [entry], a, i + 1, b, j + 1)
  {
  }

  lemma FirstRow(row: seq<nat>, a: Words, b: Words)
    requires |row| == |b| + 1 && forall j :: 0 <= j <= |b| ==> row[j] == j
    ensures IsRow(row, a, 0, b, |b|)
  {
  }

  function Min(a: nat, b: nat): nat {
    if a <= b then a else b
  }

  /** The speaker-aware scorer's loop. */
  method ScorerDistance(a: Words, b: Words) returns (r: nat)
    ensures r == Distance(a, b)
  {
    var previous: seq<nat> := seq(|b| + 1, j => j);
    FirstRow(previous, a, b);
    for i := 0 to |a|
      invariant IsRow(previous, a, i, b, |b|)
    {
      var row: seq<nat> := [i + 1];
      for j := 0 to |b|
        invariant IsRow(row, a, i + 1, b, j)
      {
        var entry := Min(Min(previous[j + 1] + 1, row[|row| - 1] + 1), previous[j] + Differs(a[i], b[j]));
        NextEntry(previous, row, a, i, b, j, entry);
        row := row + [entry];
      }
      previous := row;
    }
    return previous[|previous| - 1];
  }

  /** The composition proof's loop. */
  method CompositionDistance(a: Words, b: Words) returns (r: nat)
    ensures r == Distance(a, b)
  {
    var row: seq<nat> := seq(|b| + 1, j => j);
    FirstRow(row, a, b);
    for i := 0 to |a|
      invariant IsRow(row, a, i, b, |b|)
    {
      var nxt: seq<nat> := [i + 1];
      for j := 0 to |b|
        invariant IsRow(nxt, a, i + 1, b, j)
      {
        var entry := Min(Min(nxt[|nxt| - 1] + 1, row[j + 1] + 1), row[j] + Differs(a[i], b[j]));
        NextEntry(row, nxt, a, i, b, j, entry);
        nxt := nxt + [entry];
      }
      row := nxt;
    }
    return row[|row| - 1];
  }

  datatype WordError = WordError(errors: nat, referenceWords: nat, wer: real)

  /** The acoustic probe's loop; an empty reference divides by zero after it. */
  method ProbeWordError(expected: Words, actual: Words) returns (r: Option<WordError>)
    ensures r == if expected == [] then None
                 else Some(WordError(Distance(expected, actual), |expected|, Distance(expected, actual) as real / |expected| as real))
  {
    var previous: seq<nat> := seq(|actual| + 1, j => j);
    FirstRow(previous, expected, actual);
    for i := 0 to |expected|
      invariant IsRow(previous, expected, i, actual, |actual|)
    {
      var current: seq<nat> := [i + 1];
      for j := 0 to |actual|
        invariant IsRow(current, expected, i + 1, actual, j)
      {
        var entry := Min(Min(current[|current| - 1] + 1, previous[j + 1] + 1), previous[j] + Differs(expected[i], actual[j]));
        NextEntry(previous, current, expected, i, actual, j, entry);
        current := current + [entry];
      }
      previous := current;
    }
    if |expected| == 0 {
      return None;
    }
    return Some(WordError(previous[|previous| - 1], |expected|, previous[|previous| - 1] as real / |expected| as real));
  }
}
