/**
 Destinations of an installed-model catalog: names are vetted one by one, and no accepted
 destination is, up to case, another one or a directory above it.
 */
module Catalog {
  import opened Sequences
  import opened Wrappers

  // ----- Paths and their components

  function FirstSlash(s: string): (k: nat)
    ensures k <= |s| && (forall i :: 0 <= i < k ==> s[i] != '/') && (k < |s| ==> s[k] == '/')
  {
    if s == "" || s[0] == '/' then 0 else FirstSlash(s[1..]) + 1
  }

  function Parts(s: string): (parts: seq<string>)
    ensures parts != []
    decreases |s|
  {
    var k := FirstSlash(s);
    if k == |s| then [s] else [s[..k]] + Parts(s[k + 1..])
  }

  function Join(parts: seq<string>): string
    requires parts != []
  {
    if |parts| == 1 then parts[0] else parts[0] + "/" + Join(parts[1..])
  }

  lemma {:induction false} JoinParts(s: string)
    ensures Join(Parts(s)) == s
    decreases |s|
  {
    var k := FirstSlash(s);
    if k < |s| {
      JoinParts(s[k + 1..]);
      assert ([s[..k]] + Parts(s[k + 1..]))[1..] == Parts(s[k + 1..]);
      assert s == s[..k] + "/" + s[k + 1..];
    }
  }

  lemma {:induction false} JoinAppend(a: seq<string>, b: seq<string>)
    requires a != [] && b != []
    ensures Join(a + b) == Join(a) + "/" + Join(b)
    decreases |a|
  {
    assert (a + b)[1..] == a[1..] + b;
    if |a| > 1 {
      JoinAppend(a[1..], b);
    } else {
      assert a[1..] + b == b;
    }
  }

  lemma {:induction false} SlashAt(s: string, k: nat)
    requires k < |s| && s[k] == '/' && forall i :: 0 <= i < k ==> s[i] != '/'
    ensures FirstSlash(s) == k
  {
  }

  lemma {:induction false} PartsAppend(a: string, b: string)
    ensures Parts(a + "/" + b) == Parts(a) + Parts(b)
    decreases |a|
  {
    var s, k := a + "/" + b, FirstSlash(a);
    SlashAt(s, k);
    assert s[..k] == a[..k];
    if k == |a| {
      assert s[k + 1..] == b && a[..k] == a;
    } else {
      assert s[k + 1..] == a[k + 1..] + "/" + b;
      PartsAppend(a[k + 1..], b);
    }
  }

  /** The string test of the source: equal, or continued after a slash. */
  predicate Within(a: string, b: string) {
    a == b || (|a| < |b| && b[..|a| + 1] == a + "/")
  }

  /** It says that the components of the one begin with those of the other. */
  lemma {:induction false} WithinParts(a: string, b: string)
    ensures Within(a, b) <==> Parts(a) <= Parts(b)
  {
    JoinParts(a);
    JoinParts(b);
    if |a| < |b| && b[..|a| + 1] == a + "/" {
      assert b == b[..|a| + 1] + b[|a| + 1..];
      PartsAppend(a, b[|a| + 1..]);
    }
    if Parts(a) <= Parts(b) && Parts(a) != Parts(b) {
      var rest := Parts(b)[|Parts(a)|..];
      assert Parts(b) == Parts(a) + rest && rest != [];
      JoinAppend(Parts(a), rest);
      assert b == a + "/" + Join(rest);
      assert b[..|a| + 1] == a + "/";
    }
  }

  predicate Overlap(a: string, b: string) {
    Within(a, b) || Within(b, a)
  }

  ghost predicate Apart(names: seq<string>) {
    forall i, j :: 0 <= i < j < |names| ==> !Overlap(names[i], names[j])
  }

  lemma CommonPrefix<T>(p: seq<T>, a: seq<T>, q: seq<T>, b: seq<T>)
    requires p + a <= q + b
    ensures p <= q || q <= p
  {
    var longer := q + b;
    assert (p + a)[..|p|] == p && longer[..|p|] == p && longer[..|q|] == q;
    if |p| <= |q| {
      assert longer[..|q|][..|p|] == p;
    } else {
      assert longer[..|p|][..|q|] == q;
    }
  }

  lemma {:induction false} WithinAbove(d: string, n: string, e: string, m: string)
    requires Within(d + "/" + n, e + "/" + m)
    ensures Overlap(d, e)
  {
    PartsAppend(d, n);
    PartsAppend(e, m);
    WithinParts(d + "/" + n, e + "/" + m);
    CommonPrefix(Parts(d), Parts(n), Parts(e), Parts(m));
    WithinParts(d, e);
    WithinParts(e, d);
  }

  /** Files under directories that do not overlap do not either. */
  lemma {:induction false} ApartBelow(d: string, n: string, e: string, m: string)
    requires Overlap(d + "/" + n, e + "/" + m)
    ensures Overlap(d, e)
  {
    if Within(d + "/" + n, e + "/" + m) {
      WithinAbove(d, n, e, m);
    } else {
      WithinAbove(e, m, d, n);
    }
  }

  /** Under one directory, files overlap exactly when their own names do. */
  lemma {:induction false} SameDirectory(d: string, n: string, m: string)
    ensures Overlap(d + "/" + n, d + "/" + m) <==> Overlap(n, m)
  {
    WithinBelow(d, n, m);
    WithinBelow(d, m, n);
  }

  lemma {:induction false} WithinBelow(d: string, n: string, m: string)
    ensures Within(d + "/" + n, d + "/" + m) <==> Within(n, m)
  {
    PartsAppend(d, n);
    PartsAppend(d, m);
    WithinParts(d + "/" + n, d + "/" + m);
    WithinParts(n, m);
    var p, a, b := Parts(d), Parts(n), Parts(m);
    if p + a <= p + b {
      assert (p + a)[|p|..] == a && (p + b)[|p|..] == b;
      assert a == b[..|a|];
    }
    if a <= b {
      assert (p + b)[..|p| + |a|] == p + b[..|a|];
    }
  }

  // ----- Names

  function Lower(s: string): (r: string)
    ensures |r| == |s|
  {
    seq(|s|, i requires 0 <= i < |s| => if 'A' <= s[i] <= 'Z' then s[i] - 'A' + 'a' else s[i])
  }

  predicate Reserved(stem: string) {
    || stem == "con" || stem == "prn" || stem == "aux" || stem == "nul"
    || (|stem| == 4 && (stem[..3] == "com" || stem[..3] == "lpt") && '1' <= stem[3] <= '9')
  }

  function Stem(part: string): string {
    if part == "" || part[0] == '.' then "" else [part[0]] + Stem(part[1..])
  }

  predicate Printable(c: char) {
    ' ' <= c <= '~' && c != '<' && c != '>' && c != ':' && c != '"' && c != '\\' && c != '|' && c != '?' && c != '*'
  }

  predicate SafePart(part: string) {
    && part != "" && part != "." && part != ".." && part[|part| - 1] != '.' && part[|part| - 1] != ' '
    && !Reserved(Lower(Stem(part))) && forall i :: 0 <= i < |part| ==> Printable(part[i])
  }

  /** Relative, normal, short, and of safe components. */
  predicate SafeName(name: string) {
    name != "" && |name| <= 240 && forall i :: 0 <= i < |Parts(name)| ==> SafePart(Parts(name)[i])
  }

  // ----- The catalog

  datatype Group = Group(directory: string, files: seq<string>)

  const MAX_FILES: nat := 128

  function Destination(directory: string, name: string): string {
    Lower(directory + "/" + name)
  }

  function DestinationsOf(g: Group): (r: seq<string>)
    ensures |r| == |g.files| && forall i :: 0 <= i < |r| ==> r[i] == Destination(g.directory, g.files[i])
  {
    seq(|g.files|, i requires 0 <= i < |g.files| => Destination(g.directory, g.files[i]))
  }

  function Directories(groups: seq<Group>): (r: seq<string>)
    ensures |r| == |groups| && forall i :: 0 <= i < |r| ==> r[i] == Lower(groups[i].directory)
  {
    seq(|groups|, i requires 0 <= i < |groups| => Lower(groups[i].directory))
  }

  function Destinations(groups: seq<Group>): seq<string> {
    if groups == [] then [] else Destinations(groups[..|groups| - 1]) + DestinationsOf(groups[|groups| - 1])
  }

  predicate SafeGroup(g: Group) {
    SafeName(g.directory) && SafeFiles(g)
  }

  predicate SafeFiles(g: Group) {
    forall i :: 0 <= i < |g.files| ==> SafeName(g.files[i])
  }

  predicate AllSafe(groups: seq<Group>, n: nat)
    requires n <= |groups|
  {
    forall i :: 0 <= i < n ==> SafeGroup(groups[i])
  }

  /** What the checks of names and destinations amount to. */
  ghost predicate Sound(groups: seq<Group>) {
    && AllSafe(groups, |groups|) && Apart(Directories(groups)) && Apart(Destinations(groups))
    && |Destinations(groups)| <= MAX_FILES
  }

  predicate Clashes(name: string, names: seq<string>) {
    exists i :: 0 <= i < |names| && Overlap(name, names[i])
  }

  /** Comparing each new name with the ones before it compares every pair. */
  lemma {:induction false} ApartNext(names: seq<string>, name: string)
    requires Apart(names)
    ensures Apart(names + [name]) <==> !Clashes(name, names)
  {
    if Clashes(name, names) {
      var i :| 0 <= i < |names| && Overlap(name, names[i]);
      assert (names + [name])[i] == names[i] && (names + [name])[|names|] == name;
    }
    if !Clashes(name, names) {
      forall i, j | 0 <= i < j < |names| + 1
        ensures !Overlap((names + [name])[i], (names + [name])[j])
      {
      }
    }
  }

  lemma {:induction false} ApartPrefix(names: seq<string>, more: seq<string>)
    requires Apart(names + more)
    ensures Apart(names)
  {
    forall i, j | 0 <= i < j < |names|
      ensures !Overlap(names[i], names[j])
    {
      assert (names + more)[i] == names[i] && (names + more)[j] == names[j];
    }
  }

  lemma {:induction false} LowerAppend(d: string, n: string)
    ensures Destination(d, n) == Lower(d) + "/" + Lower(n)
  {
  }

  // ----- Accepted catalogs

  /** Destinations of different groups are apart as soon as the group directories are. */
  lemma {:induction false} GroupsApart(groups: seq<Group>, g: nat, i: nat, h: nat, j: nat)
    requires Apart(Directories(groups)) && g < |groups| && h < |groups| && g != h
    requires i < |groups[g].files| && j < |groups[h].files|
    ensures !Overlap(DestinationsOf(groups[g])[i], DestinationsOf(groups[h])[j])
  {
    var d, n, e, m := groups[g].directory, groups[g].files[i], groups[h].directory, groups[h].files[j];
    LowerAppend(d, n);
    LowerAppend(e, m);
    var x, y := Directories(groups)[g], Directories(groups)[h];
    if Overlap(Destination(d, n), Destination(e, m)) {
      ApartBelow(Lower(d), Lower(n), Lower(e), Lower(m));
    }
  }

  /** Where a destination of the whole catalog comes from. */
  lemma {:induction false} FromGroup(groups: seq<Group>, k: nat) returns (g: nat, i: nat)
    requires k < |Destinations(groups)|
    ensures g < |groups| && i < |groups[g].files| && Destinations(groups)[k] == DestinationsOf(groups[g])[i]
    ensures k == |Destinations(groups[..g])| + i
    decreases |groups|
  {
    var before := groups[..|groups| - 1];
    if k < |Destinations(before)| {
      g, i := FromGroup(before, k);
      assert before[..g] == groups[..g];
    } else {
      g, i := |groups| - 1, k - |Destinations(before)|;
    }
  }

  function LowerFiles(g: Group): (r: seq<string>)
    ensures |r| == |g.files| && forall i :: 0 <= i < |r| ==> r[i] == Lower(g.files[i])
  {
    seq(|g.files|, i requires 0 <= i < |g.files| => Lower(g.files[i]))
  }

  /** With the directories apart, only names within one group can collide. */
  lemma {:induction false} OnlyWithinGroups(groups: seq<Group>)
    requires Apart(Directories(groups)) && forall g :: 0 <= g < |groups| ==> Apart(LowerFiles(groups[g]))
    ensures Apart(Destinations(groups))
  {
    forall k, l | 0 <= k < l < |Destinations(groups)|
      ensures !Overlap(Destinations(groups)[k], Destinations(groups)[l])
    {
      var g, i := FromGroup(groups, k);
      var h, j := FromGroup(groups, l);
      if g == h {
        var d, n, m := groups[g].directory, groups[g].files[i], groups[g].files[j];
        LowerAppend(d, n);
        LowerAppend(d, m);
        SameDirectory(Lower(d), Lower(n), Lower(m));
        assert i < j && !Overlap(LowerFiles(groups[g])[i], LowerFiles(groups[g])[j]);
      } else {
        GroupsApart(groups, g, i, h, j);
      }
    }
  }

  /** No accepted destination is a component prefix of another. */
  lemma {:induction false} Antichain(groups: seq<Group>, k: nat, l: nat)
    requires Sound(groups) && k < |Destinations(groups)| && l < |Destinations(groups)| && k != l
    ensures !(Parts(Destinations(groups)[k]) <= Parts(Destinations(groups)[l]))
  {
    WithinParts(Destinations(groups)[k], Destinations(groups)[l]);
    assert k < l ==> !Overlap(Destinations(groups)[k], Destinations(groups)[l]);
    assert l < k ==> !Overlap(Destinations(groups)[l], Destinations(groups)[k]);
  }

  // ----- The program

  method AnyClash(name: string, names: seq<string>) returns (clash: bool)
    ensures clash <==> Clashes(name, names)
  {
    for i := 0 to |names|
      invariant !Clashes(name, names[..i])
    {
      if name == names[i] || (|names[i]| < |name| && name[..|names[i]| + 1] == names[i] + "/") ||
         (|name| < |names[i]| && names[i][..|name| + 1] == name + "/") {
        return true;
      }
    }
    return false;
  }

  /** The files of one group join the destinations, unless a name is unsafe or a destination collides. */
  method AddGroup(g: Group, destinations: seq<string>) returns (r: Option<seq<string>>)
    requires Apart(destinations)
    ensures r.Some? <==> SafeFiles(g) && Apart(destinations + DestinationsOf(g))
    ensures r.Some? ==> r.value == destinations + DestinationsOf(g)
  {
    var all := destinations;
    assert destinations + DestinationsOf(g)[..0] == destinations;
    for i := 0 to |g.files|
      invariant all == destinations + DestinationsOf(g)[..i] && Apart(all)
      invariant forall k :: 0 <= k < i ==> SafeName(g.files[k])
    {
      if !SafeName(g.files[i]) {
        return None;
      }
      var full := Destination(g.directory, g.files[i]);
      var clash := AnyClash(full, all);
      ApartNext(all, full);
      assert destinations + DestinationsOf(g)[..i + 1] == all + [full];
      if clash {
        assert destinations + DestinationsOf(g) == (all + [full]) + DestinationsOf(g)[i + 1..];
        if Apart(destinations + DestinationsOf(g)) {
          ApartPrefix(all + [full], DestinationsOf(g)[i + 1..]);
        }
        return None;
      }
      all := all + [full];
    }
    assert DestinationsOf(g)[..|g.files|] == DestinationsOf(g);
    return Some(all);
  }

  method CheckCatalog(groups: seq<Group>) returns (r: Option<seq<string>>)
    ensures r.Some? <==> Sound(groups)
    ensures r.Some? ==> r.value == Destinations(groups)
  {
    var destinations: seq<string>, directories: seq<string> := [], [];
    for i := 0 to |groups|
      invariant destinations == Destinations(groups[..i]) && directories == Directories(groups[..i])
      invariant Apart(destinations) && Apart(directories)
      invariant AllSafe(groups, i)
    {
      SafeNext(groups, i);
      GroupsNext(groups, i);
      DirectoriesPrefix(groups, i + 1);
      DestinationsPrefix(groups, i + 1);
      var named := AddDirectory(groups[i].directory, directories);
      if named.None? {
        return None;
      }
      directories := named.value;
      var added := AddGroup(groups[i], destinations);
      if added.None? {
        return None;
      }
      destinations := added.value;
    }
    assert groups[..|groups|] == groups;
    return if |destinations| > MAX_FILES then None else Some(destinations);
  }

  /** One group's directory joins the directories, unless it is unsafe or overlaps one of them. */
  method AddDirectory(directory: string, directories: seq<string>) returns (r: Option<seq<string>>)
    requires Apart(directories)
    ensures r.Some? <==> SafeName(directory) && Apart(directories + [Lower(directory)])
    ensures r.Some? ==> r.value == directories + [Lower(directory)]
  {
    if !SafeName(directory) {
      return None;
    }
    var normalized := Lower(directory);
    var clash := AnyClash(normalized, directories);
    ApartNext(directories, normalized);
    return if clash then None else Some(directories + [normalized]);
  }

  lemma {:induction false} SafeNext(groups: seq<Group>, i: nat)
    requires i < |groups| && AllSafe(groups, i)
    ensures AllSafe(groups, i + 1) <==> SafeGroup(groups[i])
    ensures AllSafe(groups, |groups|) ==> AllSafe(groups, i + 1)
  {
  }

  lemma {:induction false} GroupsNext(groups: seq<Group>, i: nat)
    requires i < |groups|
    ensures Destinations(groups[..i + 1]) == Destinations(groups[..i]) + DestinationsOf(groups[i])
    ensures Directories(groups[..i + 1]) == Directories(groups[..i]) + [Lower(groups[i].directory)]
  {
    TakeNext(groups, i);
  }

  lemma {:induction false} DirectoriesPrefix(groups: seq<Group>, i: nat)
    requires i <= |groups|
    ensures Apart(Directories(groups)) ==> Apart(Directories(groups[..i]))
  {
    if Apart(Directories(groups)) {
      assert Directories(groups) == Directories(groups[..i]) + Directories(groups)[i..];
      ApartPrefix(Directories(groups[..i]), Directories(groups)[i..]);
    }
  }

  lemma {:induction false} DestinationsPrefix(groups: seq<Group>, i: nat)
    requires i <= |groups|
    ensures Apart(Destinations(groups)) ==> Apart(Destinations(groups[..i]))
    decreases |groups|
  {
    if i == |groups| {
      assert groups[..i] == groups;
    } else {
      var before := groups[..|groups| - 1];
      assert before[..i] == groups[..i];
      if Apart(Destinations(groups)) {
        ApartPrefix(Destinations(before), DestinationsOf(groups[|groups| - 1]));
      }
      DestinationsPrefix(before, i);
    }
  }
}
