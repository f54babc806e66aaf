/**
 Whole-session scoring of anonymous speaker streams: words are grouped by speaker in time order and
 the two sides assigned to each other at the least total edit distance.
 */
module SpeakerScore {
  import opened Decimals
  import opened EditDistance
  import opened Matching
  import opened Orders
  import opened Sequences
  import opened Sorting
  import opened SpeakerTotals
  import opened Wrappers

  // ----- Streams

  datatype Time = Finite(seconds: real) | Unreal

  /** Values a segment may give as its speaker. */
  datatype Speaker = Label(text: string) | Number(value: int) | Neither

  datatype Segment = Segment(start: Time, end: Time, speaker: Speaker, words: Option<Words>)

  type Streams = seq<(string, Words)>

  function Key(s: Speaker): string {
    match s
    case Label(text) => text
    case Number(value) => if value < 0 then "-" + Decimal(-value) else Decimal(value)
    case Neither => ""
  }

  function WordsOf(r: Segment): Words {
    if r.words.Some? then r.words.value else []
  }

  predicate Acceptable(r: Segment) {
    && r.start.Finite? && r.end.Finite? && 0.0 <= r.start.seconds <= r.end.seconds
    && !r.speaker.Neither? && Key(r.speaker) != "" && r.words.Some?
  }

  predicate AllAcceptable(rows: seq<Segment>) {
    forall r :: r in rows ==> Acceptable(r)
  }

  /** Time for the sort; a row with an unreal one is refused wherever it lands. */
  function AsSeconds(t: Time): real {
    if t.Finite? then t.seconds else 0.0
  }

  predicate NotAfter(a: Segment, b: Segment) {
    AsSeconds(a.start) < AsSeconds(b.start) || (AsSeconds(a.start) == AsSeconds(b.start) && AsSeconds(a.end) <= AsSeconds(b.end))
  }

  /** The rows by start and end, equal ones in their given order. */
  function ByTime(rows: seq<Segment>): seq<Segment> {
    Sorted(NotAfter, rows)
  }

  predicate InTime(rows: seq<Segment>) {
    forall i, j :: 0 <= i < j < |rows| ==> NotAfter(rows[i], rows[j])
  }

  lemma {:induction false} SortedRows(rows: seq<Segment>)
    ensures multiset(ByTime(rows)) == multiset(rows) && InTime(ByTime(rows))
  {
    SortedInOrder(NotAfter, rows);
    forall i, j | 0 <= i < j < |ByTime(rows)|
      ensures NotAfter(ByTime(rows)[i], ByTime(rows)[j])
    {
    }
  }

  lemma {:induction false} SortedAcceptable(rows: seq<Segment>)
    ensures AllAcceptable(ByTime(rows)) <==> AllAcceptable(rows)
  {
    SortedRows(rows);
    forall x
      ensures x in rows <==> x in ByTime(rows)
    {
      assert x in rows <==> x in multiset(rows);
      assert x in ByTime(rows) <==> x in multiset(ByTime(rows));
    }
  }

  ghost predicate StrictlyInTime(rows: seq<Segment>) {
    forall i, j :: 0 <= i < j < |rows| ==> !NotAfter(rows[j], rows[i])
  }

  /** Rows at different times sort to one list, whatever order they come in. */
  lemma {:induction false} OneSorting(a: seq<Segment>, b: seq<Segment>)
    requires multiset(a) == multiset(b) && StrictlyInTime(a) && InTime(b)
    ensures a == b
    decreases |a|
  {
    if a == [] {
      assert |b| == |multiset(b)|;
    } else {
      assert |a| == |multiset(a)| == |multiset(b)| == |b|;
      var x, y := a[|a| - 1], b[|b| - 1];
      MemberSame(a, b, y);
      MemberSame(b, a, x);
      LastApart(a);
      LastApart(b);
      assert x == y;
      Cancel(multiset(a[..|a| - 1]), multiset(b[..|b| - 1]), x);
      OneSorting(a[..|a| - 1], b[..|b| - 1]);
      assert a == a[..|a| - 1] + [x] && b == b[..|b| - 1] + [y];
    }
  }

  /** When no two rows have the same extent, their order in the file does not matter. */
  lemma {:induction false} FileOrderIrrelevant(rows: seq<Segment>, other: seq<Segment>)
    requires multiset(rows) == multiset(other) && StrictlyInTime(ByTime(rows))
    ensures ByTime(other) == ByTime(rows)
  {
    SortedRows(rows);
    SortedRows(other);
    OneSorting(ByTime(rows), ByTime(other));
  }

  // ----- The order in seconds

  /** One row starts before another, or both start together and it ends no later. */
  predicate Earlier(a: Segment, b: Segment) {
    && a.start.Finite? && a.end.Finite? && b.start.Finite? && b.end.Finite?
    && a.start.seconds <= b.start.seconds && (a.start.seconds == b.start.seconds ==> a.end.seconds <= b.end.seconds)
  }

  ghost predicate Chronological(rows: seq<Segment>) {
    forall i, j :: 0 <= i < j < |rows| ==> Earlier(rows[i], rows[j])
  }

  /** The rows of one extent, in their order. */
  function Spanning(rows: seq<Segment>, start: Time, end: Time): seq<Segment> {
    if rows == [] then []
    else
      var last := rows[|rows| - 1];
      Spanning(rows[..|rows| - 1], start, end) + if last.start == start && last.end == end then [last] else []
  }

  /** A list of the same rows in which those of one extent keep their order. */
  ghost predicate Stable(order: seq<Segment>, rows: seq<Segment>) {
    forall start, end :: Spanning(order, start, end) == Spanning(rows, start, end)
  }

  lemma {:induction false} SpanningAppend(a: seq<Segment>, b: seq<Segment>, start: Time, end: Time)
    ensures Spanning(a + b, start, end) == Spanning(a, start, end) + Spanning(b, start, end)
    decreases |b|
  {
    if b == [] {
      assert a + b == a;
    } else {
      assert (a + b)[..|a + b| - 1] == a + b[..|b| - 1];
      SpanningAppend(a, b[..|b| - 1], start, end);
    }
  }

  lemma {:induction false} SpanningOne(r: Segment, start: Time, end: Time)
    ensures Spanning([r], start, end) == if r.start == start && r.end == end then [r] else []
  {
    assert [r][..0] == [];
    assert Spanning([r][..0], start, end) == [];
  }

  lemma {:induction false} SpanningMembers(rows: seq<Segment>, start: Time, end: Time, r: Segment)
    ensures r in Spanning(rows, start, end) <==> r in rows && r.start == start && r.end == end
    decreases |rows|
  {
    if rows != [] {
      SpanningMembers(rows[..|rows| - 1], start, end, r);
      assert rows == rows[..|rows| - 1] + [rows[|rows| - 1]];
    }
  }

  /** Rows of different extents: at most one of them is of the given extent. */
  lemma {:induction false} SpanningApart(x: Segment, last: Segment, start: Time, end: Time)
    requires Acceptable(x) && Acceptable(last) && !NotAfter(last, x)
    ensures Spanning([x], start, end) == [] || Spanning([last], start, end) == []
  {
    SpanningOne(x, start, end);
    SpanningOne(last, start, end);
  }

  lemma {:induction false} Exchanged<T>(a: seq<T>, b: seq<T>, c: seq<T>)
    requires b == [] || c == []
    ensures a + b + c == a + c + b
  {
  }

  /** Placing a row leaves the rows of every extent in their order, itself the last of its own. */
  lemma {:induction false} PlacedStable(x: Segment, sorted: seq<Segment>, start: Time, end: Time)
    requires AllAcceptable(sorted + [x])
    ensures Spanning(Placed(NotAfter, x, sorted), start, end) == Spanning(sorted + [x], start, end)
  {
    if sorted != [] && !NotAfter(sorted[|sorted| - 1], x) {
      var rest, last := sorted[..|sorted| - 1], sorted[|sorted| - 1];
      assert sorted == rest + [last];
      assert last in sorted + [x] && x in sorted + [x];
      PlacedStable(x, rest, start, end);
      StableStep(x, rest, last, Placed(NotAfter, x, rest), start, end);
    }
  }

  lemma {:induction false} StableStep(x: Segment, rest: seq<Segment>, last: Segment, placed: seq<Segment>, start: Time, end: Time)
    requires Acceptable(x) && Acceptable(last) && !NotAfter(last, x)
    requires Spanning(placed, start, end) == Spanning(rest + [x], start, end)
    ensures Spanning(placed + [last], start, end) == Spanning(rest + [last] + [x], start, end)
  {
    SpanningAppend(placed, [last], start, end);
    SpanningAppend(rest, [x], start, end);
    SpanningAppend(rest, [last], start, end);
    SpanningAppend(rest + [last], [x], start, end);
    SpanningApart(x, last, start, end);
    Exchanged(Spanning(rest, start, end), Spanning([x], start, end), Spanning([last], start, end));
  }

  lemma {:induction false} ByTimeStable(rows: seq<Segment>, start: Time, end: Time)
    requires AllAcceptable(rows)
    ensures Spanning(ByTime(rows), start, end) == Spanning(rows, start, end)
    decreases |rows|
  {
    if rows != [] {
      var rest, last := rows[..|rows| - 1], rows[|rows| - 1];
      assert rows == rest + [last];
      ByTimeStable(rest, start, end);
      SortedAcceptable(rest);
      PlacedStable(last, ByTime(rest), start, end);
      SpanningAppend(ByTime(rest), [last], start, end);
      SpanningAppend(rest, [last], start, end);
    }
  }

  /** Sorting acceptable rows puts them in the order of seconds and keeps rows of one extent as they were. */
  lemma {:induction false} SortedChronological(rows: seq<Segment>)
    requires AllAcceptable(rows)
    ensures Chronological(ByTime(rows)) && Stable(ByTime(rows), rows)
  {
    SortedRows(rows);
    SortedAcceptable(rows);
    var sorted := ByTime(rows);
    forall i, j | 0 <= i < j < |sorted|
      ensures Earlier(sorted[i], sorted[j])
    {
      assert sorted[i] in sorted && sorted[j] in sorted && NotAfter(sorted[i], sorted[j]);
    }
    forall start, end
      ensures Spanning(sorted, start, end) == Spanning(rows, start, end)
    {
      ByTimeStable(rows, start, end);
    }
  }

  lemma {:induction false} LastChronological(a: seq<Segment>, r: Segment)
    requires Chronological(a) && r in a && r != a[|a| - 1]
    ensures Earlier(r, a[|a| - 1])
  {
    var i :| 0 <= i < |a| && a[i] == r;
    assert Earlier(a[i], a[|a| - 1]);
  }

  /** The last row of a list is the last one of its extent. */
  lemma {:induction false} SpanningLast(a: seq<Segment>)
    requires a != []
    ensures var x := a[|a| - 1];
            Spanning(a, x.start, x.end) != [] && Spanning(a, x.start, x.end)[|Spanning(a, x.start, x.end)| - 1] == x
  {
  }

  lemma {:induction false} SameMembersSpanned(a: seq<Segment>, b: seq<Segment>)
    requires Stable(a, b)
    ensures forall r :: r in a <==> r in b
  {
    forall r
      ensures r in a <==> r in b
    {
      SpanningMembers(a, r.start, r.end, r);
      SpanningMembers(b, r.start, r.end, r);
    }
  }

  lemma {:induction false} SameLast(a: seq<Segment>, b: seq<Segment>)
    requires a != [] && b != [] && Chronological(a) && Chronological(b) && Stable(a, b)
    ensures a[|a| - 1] == b[|b| - 1]
  {
    var x, y := a[|a| - 1], b[|b| - 1];
    SameMembersSpanned(a, b);
    assert x in b && y in a;
    if x != y {
      LastChronological(a, y);
      LastChronological(b, x);
      assert x.start == y.start && x.end == y.end;
      SpanningLast(a);
      SpanningLast(b);
    }
  }

  lemma {:induction false} StableBefore(a: seq<Segment>, b: seq<Segment>, x: Segment)
    requires Stable(a + [x], b + [x])
    ensures Stable(a, b)
  {
    forall start, end
      ensures Spanning(a, start, end) == Spanning(b, start, end)
    {
      SpanningAppend(a, [x], start, end);
      SpanningAppend(b, [x], start, end);
      assert Spanning(a + [x], start, end) == Spanning(b + [x], start, end);
      CutTail(Spanning(a, start, end), Spanning(b, start, end), Spanning([x], start, end));
    }
  }

  lemma {:induction false} CutTail<T>(a: seq<T>, b: seq<T>, c: seq<T>)
    requires a + c == b + c
    ensures a == b
  {
    assert |a| == |b|;
    assert a == (a + c)[..|a|] && b == (b + c)[..|b|];
  }

  /** Only one list has the order of seconds and keeps rows of one extent as they were. */
  lemma {:induction false} OneOrder(a: seq<Segment>, b: seq<Segment>)
    requires Chronological(a) && Chronological(b) && Stable(a, b)
    ensures a == b
    decreases |a|
  {
    SameMembersSpanned(a, b);
    EmptyAlike(a, b);
    if a != [] {
      SameLast(a, b);
      var x := a[|a| - 1];
      assert a == a[..|a| - 1] + [x] && b == b[..|b| - 1] + [x];
      StableBefore(a[..|a| - 1], b[..|b| - 1], x);
      OneOrder(a[..|a| - 1], b[..|b| - 1]);
    }
  }

  lemma {:induction false} EmptyAlike<T>(a: seq<T>, b: seq<T>)
    requires forall x :: x in a <==> x in b
    ensures a == [] <==> b == []
  {
    assert a != [] ==> a[0] in a;
    assert b != [] ==> b[0] in b;
  }

  function KeyIndex(s: Streams, key: string): (i: nat)
    ensures i <= |s| && (i < |s| ==> s[i].0 == key)
    ensures forall j :: 0 <= j < i ==> s[j].0 != key
  {
    if s == [] || s[0].0 == key then 0 else KeyIndex(s[1..], key) + 1
  }

  /** Further words for a speaker, a new one after the others. */
  function Extended(s: Streams, key: string, words: Words): Streams {
    var i := KeyIndex(s, key);
    if i < |s| then s[i := (key, s[i].1 + words)] else s + [(key, words)]
  }

  function Grouped(rows: seq<Segment>): Streams {
    if rows == [] then []
    else
      var last := rows[|rows| - 1];
      Extended(Grouped(rows[..|rows| - 1]), Key(last.speaker), WordsOf(last))
  }

  function Spoken(s: Streams): Streams {
    if s == [] then []
    else Spoken(s[..|s| - 1]) + if s[|s| - 1].1 == [] then [] else [s[|s| - 1]]
  }

  /** The words one speaker says over the rows, in their order. */
  function WordsBy(rows: seq<Segment>, key: string): Words {
    if rows == [] then []
    else
      var last := rows[|rows| - 1];
      WordsBy(rows[..|rows| - 1], key) + if Key(last.speaker) == key then WordsOf(last) else []
  }

  ghost predicate Distinct(s: Streams) {
    forall i, j :: 0 <= i < j < |s| ==> s[i].0 != s[j].0
  }

  /** The first row of a speaker; the number of rows when there is none. */
  function FirstRow(rows: seq<Segment>, key: string): (i: nat)
    ensures i <= |rows| && (i < |rows| ==> Key(rows[i].speaker) == key)
    ensures forall j :: 0 <= j < i ==> Key(rows[j].speaker) != key
  {
    if rows == [] || Key(rows[0].speaker) == key then 0 else FirstRow(rows[1..], key) + 1
  }

  /** Streams stand in the order in which their speakers first appear. */
  ghost predicate InAppearance(s: Streams, rows: seq<Segment>) {
    && (forall i :: 0 <= i < |s| ==> FirstRow(rows, s[i].0) < |rows|)
    && forall i, j :: 0 <= i < j < |s| ==> FirstRow(rows, s[i].0) < FirstRow(rows, s[j].0)
  }

  lemma {:induction false} FirstRowNext(before: seq<Segment>, last: Segment, key: string)
    ensures FirstRow(before, key) < |before| ==> FirstRow(before + [last], key) == FirstRow(before, key)
    ensures FirstRow(before, key) == |before| && Key(last.speaker) == key ==> FirstRow(before + [last], key) == |before|
    ensures FirstRow(before, key) == |before| && Key(last.speaker) != key ==> FirstRow(before + [last], key) == |before| + 1
  {
    var rows := before + [last];
    var i, j := FirstRow(before, key), FirstRow(rows, key);
    assert forall k :: 0 <= k < |before| ==> rows[k] == before[k];
    assert rows[|before|] == last;
  }

  /** Every speaker so far has an entry, in order of appearance. */
  ghost predicate Listed(s: Streams, rows: seq<Segment>) {
    InAppearance(s, rows) && forall key :: FirstRow(rows, key) < |rows| ==> exists i :: 0 <= i < |s| && s[i].0 == key
  }

  /** Where a speaker first appears once another row follows. */
  ghost predicate Follows(before: seq<Segment>, rows: seq<Segment>, key: string, k: string) {
    && (FirstRow(before, k) < |before| ==> FirstRow(rows, k) == FirstRow(before, k))
    && (FirstRow(before, k) == |before| ==> FirstRow(rows, k) == if k == key then |before| else |rows|)
  }

  lemma {:induction false} FirstRowFollows(before: seq<Segment>, last: Segment, k: string)
    ensures Follows(before, before + [last], Key(last.speaker), k)
  {
    FirstRowNext(before, last, k);
  }

  lemma {:induction false} ExtendedKeys(s: Streams, key: string, words: Words)
    ensures var t := Extended(s, key, words);
            |t| >= |s| && (forall j :: 0 <= j < |s| ==> t[j].0 == s[j].0) &&
            (forall j :: |s| <= j < |t| ==> t[j].0 == key && forall k :: 0 <= k < |s| ==> s[k].0 != key)
    ensures exists j :: 0 <= j < |Extended(s, key, words)| && Extended(s, key, words)[j].0 == key
    ensures |Extended(s, key, words)| <= |s| + 1
  {
    var t := Extended(s, key, words);
    assert t[KeyIndex(s, key)].0 == key;
  }

  lemma {:induction false} ExtendedAppear(s: Streams, t: Streams, before: seq<Segment>, rows: seq<Segment>, key: string)
    requires Listed(s, before) && |rows| == |before| + 1 && forall k :: Follows(before, rows, key, k)
    requires |s| <= |t| <= |s| + 1 && (forall j :: 0 <= j < |s| ==> t[j].0 == s[j].0)
    requires forall j :: |s| <= j < |t| ==> t[j].0 == key && forall k :: 0 <= k < |s| ==> s[k].0 != key
    ensures InAppearance(t, rows)
  {
    forall j | 0 <= j < |t|
      ensures FirstRow(rows, t[j].0) < |rows| && (j < |s| ==> FirstRow(rows, t[j].0) == FirstRow(before, s[j].0)) &&
              (j == |s| ==> FirstRow(rows, t[j].0) == |before|)
    {
      assert Follows(before, rows, key, t[j].0);
    }
  }

  lemma {:induction false} ExtendedListed(s: Streams, before: seq<Segment>, last: Segment)
    requires Listed(s, before)
    ensures Listed(Extended(s, Key(last.speaker), WordsOf(last)), before + [last])
  {
    var key, rows := Key(last.speaker), before + [last];
    var t := Extended(s, key, WordsOf(last));
    forall k
      ensures Follows(before, rows, key, k)
    {
      FirstRowFollows(before, last, k);
    }
    ExtendedKeys(s, key, WordsOf(last));
    ExtendedAppear(s, t, before, rows, key);
    forall k | FirstRow(rows, k) < |rows|
      ensures exists j :: 0 <= j < |t| && t[j].0 == k
    {
      assert Follows(before, rows, key, k);
      if k != key {
        var j :| 0 <= j < |s| && s[j].0 == k;
        assert t[j].0 == k;
      }
    }
  }

  lemma {:induction false} GroupedListed(rows: seq<Segment>)
    ensures Listed(Grouped(rows), rows)
  {
    if rows == [] {
      assert forall key :: FirstRow(rows, key) == 0;
    } else {
      GroupedListed(rows[..|rows| - 1]);
      ExtendedListed(Grouped(rows[..|rows| - 1]), rows[..|rows| - 1], rows[|rows| - 1]);
      assert rows == rows[..|rows| - 1] + [rows[|rows| - 1]];
    }
  }

  lemma {:induction false} BeforeLast(s: Streams, rows: seq<Segment>, x: (string, Words))
    requires InAppearance(s, rows) && s != [] && x in s[..|s| - 1]
    ensures FirstRow(rows, x.0) < FirstRow(rows, s[|s| - 1].0)
  {
    var j :| 0 <= j < |s| - 1 && s[j] == x;
  }

  lemma {:induction false} SpokenInAppearance(s: Streams, rows: seq<Segment>)
    requires InAppearance(s, rows)
    ensures InAppearance(Spoken(s), rows) && forall x :: x in Spoken(s) ==> x in s
    decreases |s|
  {
    if s != [] {
      var before, last := s[..|s| - 1], s[|s| - 1];
      assert InAppearance(before, rows);
      SpokenInAppearance(before, rows);
      forall x | x in Spoken(before)
        ensures FirstRow(rows, x.0) < FirstRow(rows, last.0)
      {
        BeforeLast(s, rows, x);
      }
      if last.1 != [] {
        AppearanceNext(Spoken(before), last, rows);
      }
    }
  }

  lemma {:induction false} AppearanceNext(s: Streams, last: (string, Words), rows: seq<Segment>)
    requires InAppearance(s, rows) && FirstRow(rows, last.0) < |rows|
    requires forall x :: x in s ==> FirstRow(rows, x.0) < FirstRow(rows, last.0)
    ensures InAppearance(s + [last], rows)
  {
    forall i | 0 <= i < |s|
      ensures FirstRow(rows, s[i].0) < FirstRow(rows, last.0)
    {
      assert s[i] in s;
    }
  }

  /** One entry for each speaker with any words, holding exactly those words. */
  ghost predicate Collects(s: Streams, rows: seq<Segment>) {
    && Distinct(s)
    && (forall i :: 0 <= i < |s| ==> s[i].1 == WordsBy(rows, s[i].0))
    && (forall key :: WordsBy(rows, key) != [] ==> exists i :: 0 <= i < |s| && s[i].0 == key)
  }

  lemma {:induction false} WordsByNext(before: seq<Segment>, last: Segment, key: string)
    ensures WordsBy(before + [last], key) ==
            if Key(last.speaker) == key then WordsBy(before, key) + WordsOf(last) else WordsBy(before, key)
  {
    assert (before + [last])[..|before|] == before;
    assert WordsBy(before, key) + [] == WordsBy(before, key);
  }

  /** A row gives its speaker its words. */
  lemma {:induction false} WordsOfOne(r: Segment, key: string)
    ensures WordsBy([r], key) == if Key(r.speaker) == key then WordsOf(r) else []
  {
    WordsByNext([], r, key);
    assert [] + [r] == [r];
  }

  /** Over consecutive lists of rows the words follow each other. */
  lemma {:induction false} WordsJoined(a: seq<Segment>, b: seq<Segment>, key: string)
    ensures WordsBy(a + b, key) == WordsBy(a, key) + WordsBy(b, key)
    decreases |b|
  {
    if b == [] {
      assert a + b == a;
    } else {
      var rest, last := b[..|b| - 1], b[|b| - 1];
      assert b == rest + [last];
      Regroup(a, rest, [last]);
      WordsJoined(a, rest, key);
      WordsByNext(a + rest, last, key);
      WordsByNext(rest, last, key);
      Regroup(WordsBy(a, key), WordsBy(rest, key), WordsOf(last));
    }
  }

  lemma {:induction false} ExtendedCollects(s: Streams, before: seq<Segment>, last: Segment)
    requires Collects(s, before)
    ensures Collects(Extended(s, Key(last.speaker), WordsOf(last)), before + [last])
  {
    var key, rows := Key(last.speaker), before + [last];
    var i, t := KeyIndex(s, key), Extended(s, key, WordsOf(last));
    WordsByNext(before, last, key);
    assert i == |s| ==> WordsBy(before, key) == [];
    forall j | 0 <= j < |t|
      ensures t[j].1 == WordsBy(rows, t[j].0)
    {
      WordsByNext(before, last, t[j].0);
      assert j != i ==> t[j] == s[j] && s[j].0 != key;
    }
    forall k | WordsBy(rows, k) != []
      ensures exists j :: 0 <= j < |t| && t[j].0 == k
    {
      WordsByNext(before, last, k);
      if k == key {
        assert t[i].0 == k;
      } else {
        var j :| 0 <= j < |s| && s[j].0 == k;
        assert t[j].0 == k;
      }
    }
  }

  lemma {:induction false} GroupedCollects(rows: seq<Segment>)
    ensures Collects(Grouped(rows), rows)
  {
    if rows != [] {
      GroupedCollects(rows[..|rows| - 1]);
      ExtendedCollects(Grouped(rows[..|rows| - 1]), rows[..|rows| - 1], rows[|rows| - 1]);
      assert rows == rows[..|rows| - 1] + [rows[|rows| - 1]];
    }
  }

  lemma {:induction false} SpokenMembers(s: Streams)
    requires Distinct(s)
    ensures Distinct(Spoken(s)) && forall x :: x in Spoken(s) <==> x in s && x.1 != []
  {
    if s != [] {
      var before, last := s[..|s| - 1], s[|s| - 1];
      SpokenMembers(before);
      assert s == before + [last];
      forall i | 0 <= i < |Spoken(before)|
        ensures Spoken(before)[i].0 != last.0
      {
        assert Spoken(before)[i] in before;
      }
    }
  }

  lemma {:induction false} SpokenCollects(s: Streams, rows: seq<Segment>)
    requires Collects(s, rows)
    ensures Collects(Spoken(s), rows) && forall x :: x in Spoken(s) ==> x.1 != []
  {
    SpokenMembers(s);
    forall i | 0 <= i < |Spoken(s)|
      ensures Spoken(s)[i].1 == WordsBy(rows, Spoken(s)[i].0)
    {
      assert Spoken(s)[i] in s;
    }
    forall key | WordsBy(rows, key) != []
      ensures exists i :: 0 <= i < |Spoken(s)| && Spoken(s)[i].0 == key
    {
      var i :| 0 <= i < |s| && s[i].0 == key;
      assert s[i] in Spoken(s);
    }
  }

  function StreamsOf(rows: seq<Segment>): Streams {
    Spoken(Grouped(ByTime(rows)))
  }

  lemma {:induction false} SpokenStreams(rows: seq<Segment>)
    ensures forall x :: x in StreamsOf(rows) ==> x.1 != []
  {
    GroupedCollects(ByTime(rows));
    SpokenCollects(Grouped(ByTime(rows)), ByTime(rows));
  }

  /**
   Each speaker with words has one stream, holding exactly the words of that speaker's rows in the
   order of seconds, rows of one extent as they were given; speakers stand in order of appearance.
   */
  lemma {:induction false} StreamsCollected(rows: seq<Segment>, order: seq<Segment>)
    requires AllAcceptable(rows) && Chronological(order) && Stable(order, rows)
    ensures Collects(StreamsOf(rows), order) && InAppearance(StreamsOf(rows), order)
    ensures forall x :: x in StreamsOf(rows) ==> x.1 != []
  {
    SortedChronological(rows);
    OneOrder(order, ByTime(rows));
    GroupedCollects(order);
    SpokenCollects(Grouped(order), order);
    GroupedListed(order);
    SpokenInAppearance(Grouped(order), order);
  }

  method CollectStreams(rows: seq<Segment>) returns (r: Option<Streams>)
    ensures r == if AllAcceptable(rows) then Some(StreamsOf(rows)) else None
  {
    SortedAcceptable(rows);
    var sorted, result := ByTime(rows), [];
    for i := 0 to |sorted|
      invariant AllAcceptable(sorted[..i]) && result == Grouped(sorted[..i])
    {
      var row := sorted[i];
      assert sorted[..i + 1] == sorted[..i] + [row] && sorted[..i + 1][..i] == sorted[..i];
      assert row in sorted;
      if !row.start.Finite? || !row.end.Finite? || row.start.seconds < 0.0 || row.end.seconds < row.start.seconds {
        return None;
      }
      if row.speaker.Neither? || Key(row.speaker) == "" || row.words.None? {
        return None;
      }
      result := Extended(result, Key(row.speaker), WordsOf(row));
    }
    assert sorted[..|sorted|] == sorted;
    return Some(Spoken(result));
  }

  // ----- The score

  datatype Line = Line(reference: Option<string>, track: Option<string>, words: nat, errors: nat, wer: Option<real>)

  datatype Report = Report(cpwer: real, errors: nat, referenceWords: nat, referenceSpeakers: nat, hypothesisSpeakers: nat,
                           speakers: seq<Line>)

  type Track = (Option<string>, Words)

  function Lists(s: Streams): (r: seq<Words>)
    ensures |r| == |s| && forall i :: 0 <= i < |s| ==> r[i] == s[i].1
  {
    Seconds(s)
  }

  function Filled(s: Streams, n: nat): (r: seq<Track>)
    requires |s| <= n
    ensures |r| == n
  {
    seq(|s|, i requires 0 <= i < |s| => (Some(s[i].0), s[i].1)) + seq(n - |s|, i => (None, []))
  }

  lemma {:induction false} FilledPads(s: Streams, n: nat)
    requires |s| <= n
    ensures Seconds(Filled(s, n)) == Pad(Lists(s), n)
  {
  }

  function WordCount(s: Streams): nat {
    if s == [] then 0 else WordCount(s[..|s| - 1]) + |s[|s| - 1].1|
  }

  lemma {:induction false} WordsCounted(s: Streams)
    requires s != [] && forall x :: x in s ==> x.1 != []
    ensures WordCount(s) > 0
  {
    assert s[|s| - 1] in s;
  }

  function LineOf(r: Track, h: Track, errors: nat): Line {
    Line(r.0, h.0, |r.1|, errors, if r.1 == [] then None else Some(errors as real / |r.1| as real))
  }

  /** One line for each padded reference stream, against the track its order assigns it. */
  function LinesOf(r: seq<Track>, h: seq<Track>, order: seq<nat>): (lines: seq<Line>)
    requires |order| == |r| && Indexes(order, |h|)
    ensures |lines| == |r|
  {
    seq(|r|, i requires 0 <= i < |r| => LineOf(r[i], h[order[i]], Distance(r[i].1, h[order[i]].1)))
  }

  function LineErrors(lines: seq<Line>): seq<nat> {
    seq(|lines|, i requires 0 <= i < |lines| => lines[i].errors)
  }

  /** What a report says of two sets of streams. */
  ghost predicate Reports(report: Report, ref: Streams, hyp: Streams)
    requires ref != []
  {
    var n := Longer(|ref|, |hyp|);
    var (r, h) := (Filled(ref, n), Filled(hyp, n));
    && (exists order :: Chosen(PriceOf(Pad(Lists(ref), n), Pad(Lists(hyp), n)), n, order) &&
                        |order| == n && Indexes(order, n) && report.speakers == LinesOf(r, h, order))
    && IsTotal(Lists(ref), Lists(hyp), report.errors) && report.errors == Total(LineErrors(report.speakers))
    && report.referenceWords == WordCount(ref) > 0
    && report.cpwer == report.errors as real / report.referenceWords as real
    && report.referenceSpeakers == |ref| && report.hypothesisSpeakers == |hyp|
  }

  lemma {:induction false} ChosenReports(ref: Streams, hyp: Streams, order: seq<nat>, report: Report)
    requires ref != [] && WordCount(ref) > 0
    requires var n := Longer(|ref|, |hyp|);
             Chosen(PriceOf(Pad(Lists(ref), n), Pad(Lists(hyp), n)), n, order) && |order| == n && Indexes(order, n) &&
             report.speakers == LinesOf(Filled(ref, n), Filled(hyp, n), order) &&
             report.errors == Total(ErrorsOf(Pad(Lists(ref), n), Pad(Lists(hyp), n), order))
    requires report.referenceWords == WordCount(ref)
    requires report.cpwer == report.errors as real / report.referenceWords as real
    requires report.referenceSpeakers == |ref| && report.hypothesisSpeakers == |hyp|
    ensures Reports(report, ref, hyp)
  {
    var n := Longer(|ref|, |hyp|);
    ChosenLeast(Pad(Lists(ref), n), Pad(Lists(hyp), n), order);
    PadBag(Lists(ref), n);
    PadBag(Lists(hyp), n);
    FilledPads(ref, n);
    FilledPads(hyp, n);
    var r, h := Filled(ref, n), Filled(hyp, n);
    forall i | 0 <= i < n
      ensures LineErrors(report.speakers)[i] == ErrorsOf(Pad(Lists(ref), n), Pad(Lists(hyp), n), order)[i]
    {
      assert r[i].1 == Seconds(r)[i] && h[order[i]].1 == Seconds(h)[order[i]];
    }
    assert LineErrors(report.speakers) == ErrorsOf(Pad(Lists(ref), n), Pad(Lists(hyp), n), order);
  }

  /** What the loop over the orders keeps: a total, its order, and its errors one by one. */
  datatype Candidate = Candidate(total: nat, order: seq<nat>, errors: seq<nat>)

  ghost predicate Priced(r: seq<Words>, h: seq<Words>, c: Candidate) {
    |c.order| == |r| && Indexes(c.order, |h|) && c.errors == ErrorsOf(r, h, c.order) && c.total == Total(c.errors)
  }

  /** One order's errors and total. */
  method Attempt(r: seq<Words>, h: seq<Words>, order: seq<nat>) returns (c: Candidate)
    requires |r| == |h| && order in Permutations(Range(|r|))
    ensures Priced(r, h, c) && c.order == order
  {
    Enumerated(|r|, order);
    OrderIndices(order, |r|);
    var errors := [];
    for i := 0 to |order|
      invariant errors == ErrorsOf(r, h, order)[..i]
    {
      var d := ScorerDistance(r[i], h[order[i]]);
      errors := errors + [d];
    }
    return Candidate(Total(errors), order, errors);
  }

  predicate Replaces(c: Candidate, best: Candidate) {
    c.total < best.total || (c.total == best.total && Before(c.order, best.order))
  }

  ghost predicate Leads(r: seq<Words>, h: seq<Words>, seen: seq<seq<nat>>, best: Candidate) {
    Priced(r, h, best) && Ahead(PriceOf(r, h), seen, best.order)
  }

  lemma {:induction false} LeadsNext(r: seq<Words>, h: seq<Words>, seen: seq<seq<nat>>, best: Candidate, c: Candidate)
    requires Leads(r, h, seen, best) && Priced(r, h, c)
    ensures Leads(r, h, seen + [c.order], if Replaces(c, best) then c else best)
  {
    AheadNext(PriceOf(r, h), seen, best.order, c.order);
  }

  lemma {:induction false} LeadsFirst(r: seq<Words>, h: seq<Words>, c: Candidate)
    requires Priced(r, h, c)
    ensures Leads(r, h, [c.order], c)
  {
  }

  /** The loop over all orders, keeping the least total and, at equal totals, the earlier order. */
  method BestOrder(r: seq<Words>, h: seq<Words>) returns (least: Candidate)
    requires |r| == |h|
    ensures Chosen(PriceOf(r, h), |r|, least.order) && Priced(r, h, least)
  {
    var orders := Permutations(Range(|r|));
    Enumerated(|r|, Range(|r|));
    var best: Option<Candidate> := None;
    for k := 0 to |orders|
      invariant k == 0 <==> best.None?
      invariant best.Some? ==> Leads(r, h, orders[..k], best.value)
    {
      var c := Attempt(r, h, orders[k]);
      TakeNext(orders, k);
      if best.Some? {
        LeadsNext(r, h, orders[..k], best.value, c);
      } else {
        LeadsFirst(r, h, c);
      }
      if best.None? || Replaces(c, best.value) {
        best := Some(c);
      }
    }
    assert orders[..|orders|] == orders;
    AheadChosen(PriceOf(r, h), |r|, best.value.order);
    return best.value;
  }

  method Lines(r: seq<Track>, h: seq<Track>, best: Candidate) returns (lines: seq<Line>)
    requires Priced(Seconds(r), Seconds(h), best)
    ensures lines == LinesOf(r, h, best.order)
  {
    lines := [];
    for i := 0 to |r|
      invariant lines == LinesOf(r, h, best.order)[..i]
    {
      assert Seconds(r)[i] == r[i].1 && Seconds(h)[best.order[i]] == h[best.order[i]].1;
      lines := lines + [LineOf(r[i], h[best.order[i]], best.errors[i])];
    }
  }

  method Score(reference: seq<Segment>, hypothesis: seq<Segment>) returns (report: Option<Report>)
    ensures report.Some? <==>
            AllAcceptable(reference) && AllAcceptable(hypothesis) &&
            1 <= |StreamsOf(reference)| <= 4 && |StreamsOf(hypothesis)| <= 4
    ensures report.Some? ==> Reports(report.value, StreamsOf(reference), StreamsOf(hypothesis))
  {
    var ref :- CollectStreams(reference);
    var hyp :- CollectStreams(hypothesis);
    if ref == [] || |ref| > 4 || |hyp| > 4 {
      return None;
    }
    SpokenStreams(reference);
    WordsCounted(ref);
    var scored := ScoreStreams(ref, hyp);
    return Some(scored);
  }

  method ScoreStreams(ref: Streams, hyp: Streams) returns (report: Report)
    requires ref != [] && WordCount(ref) > 0
    ensures Reports(report, ref, hyp)
  {
    var n := Longer(|ref|, |hyp|);
    var r, h := Filled(ref, n), Filled(hyp, n);
    FilledPads(ref, n);
    FilledPads(hyp, n);
    var best := BestOrder(Seconds(r), Seconds(h));
    var lines := Lines(r, h, best);
    var words := WordCount(ref);
    report := Report(best.total as real / words as real, best.total, words, |ref|, |hyp|, lines);
    ChosenReports(ref, hyp, best.order, report);
  }
}
