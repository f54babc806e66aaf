/**
 The census of an installed model: a worklist over a directory tree that passes exactly when the
 regular files are the expected ones at their sizes and the directories are exactly their parents.
 */
module Snapshot {
  import C = Catalog

  datatype Node = File(size: nat) | Dir(children: seq<Child>) | Special

  /** An entry of a directory, in whatever order the host lists them. */
  datatype Child = Child(name: string, node: Node)

  type Expected = map<string, nat>

  /** What a path is a file or directory under: its prefixes before a slash. */
  function Parents(name: string): set<string> {
    set i | 0 < i < |name| && name[i] == '/' :: name[..i]
  }

  function AllParents(expected: Expected): set<string> {
    set n, p | n in expected && p in Parents(n) :: p
  }

  // ----- Paths by their components

  /** Components a path can be joined from: none empty, none with a slash. */
  ghost predicate Components(parts: seq<string>) {
    parts != [] && forall k :: 0 <= k < |parts| ==> parts[k] != "" && '/' !in parts[k]
  }

  /** Each slash of a joined path follows some of its components. */
  lemma {:induction false} SlashFollows(parts: seq<string>, i: nat) returns (k: nat)
    requires Components(parts) && i < |C.Join(parts)| && C.Join(parts)[i] == '/'
    ensures 0 < k < |parts| && C.Join(parts)[..i] == C.Join(parts[..k])
  {
    var first, name := parts[0], C.Join(parts);
    assert forall m :: 0 <= m < |first| ==> first[m] in first;
    assert |parts| > 1;
    var rest := C.Join(parts[1..]);
    assert name == first + "/" + rest;
    if i <= |first| {
      assert i == |first|;
      k := 1;
      assert parts[..1] == [first] && name[..i] == first;
    } else {
      var j := SlashFollows(parts[1..], i - |first| - 1);
      k := j + 1;
      assert parts[..k] == [first] + parts[1..][..j] && parts[..k][1..] == parts[1..][..j];
      assert name[..i] == first + "/" + rest[..i - |first| - 1];
    }
  }

  /** The parents of a path are the paths of its first components, nested ones included. */
  lemma {:induction false} ParentsMean(parts: seq<string>, p: string)
    requires Components(parts)
    ensures p in Parents(C.Join(parts)) <==> exists k :: 0 < k < |parts| && p == C.Join(parts[..k])
  {
    var name := C.Join(parts);
    if p in Parents(name) {
      var i: nat :| 0 < i < |name| && name[i] == '/' && name[..i] == p;
      var k := SlashFollows(parts, i);
    }
    if k :| 0 < k < |parts| && p == C.Join(parts[..k]) {
      assert parts == parts[..k] + parts[k..];
      C.JoinAppend(parts[..k], parts[k..]);
      assert parts[0] == parts[..k][0] && parts[0] != "";
      assert name == p + "/" + C.Join(parts[k..]);
      assert |p| > 0 && name[|p|] == '/' && name[..|p|] == p;
    }
  }

  // ----- What the tree holds

  function FilesIn(children: seq<Child>, prefix: string): set<(string, nat)> {
    if children == [] then {} else FilesAt(children[0], prefix) + FilesIn(children[1..], prefix)
  }

  function FilesAt(child: Child, prefix: string): set<(string, nat)> {
    match child.node
    case File(size) => {(prefix + child.name, size)}
    case Dir(children) => FilesIn(children, prefix + child.name + "/")
    case Special => {}
  }

  function DirsIn(children: seq<Child>, prefix: string): set<string> {
    if children == [] then {} else DirsAt(children[0], prefix) + DirsIn(children[1..], prefix)
  }

  function DirsAt(child: Child, prefix: string): set<string> {
    match child.node
    case Dir(children) => {prefix + child.name} + DirsIn(children, prefix + child.name + "/")
    case _ => {}
  }

  /** Nothing but regular files and directories. */
  predicate Regular(children: seq<Child>) {
    children == [] || (RegularAt(children[0]) && Regular(children[1..]))
  }

  predicate RegularAt(child: Child) {
    match child.node
    case File(_) => true
    case Dir(children) => Regular(children)
    case Special => false
  }

  /** Names the host gives: not empty and without a slash. */
  predicate Named(children: seq<Child>) {
    children == [] || (NamedAt(children[0]) && Named(children[1..]))
  }

  predicate NamedAt(child: Child) {
    && child.name != "" && (forall i :: 0 <= i < |child.name| ==> child.name[i] != '/')
    && (child.node.Dir? ==> Named(child.node.children))
  }

  // ----- What the worklist refuses

  /** Every entry is an expected file of the expected size or an allowed directory. */
  predicate Clean(children: seq<Child>, prefix: string, expected: Expected, allowed: set<string>) {
    children == [] || (CleanAt(children[0], prefix, expected, allowed) && Clean(children[1..], prefix, expected, allowed))
  }

  predicate CleanAt(child: Child, prefix: string, expected: Expected, allowed: set<string>) {
    var name := prefix + child.name;
    match child.node
    case File(size) => name in expected && expected[name] == size
    case Dir(children) => name in allowed && Clean(children, name + "/", expected, allowed)
    case Special => false
  }

  /** Clean means: no special entry, only expected files, and only allowed directories. */
  lemma {:induction false} CleanMeans(children: seq<Child>, prefix: string, expected: Expected, allowed: set<string>)
    ensures Clean(children, prefix, expected, allowed) <==>
            Regular(children) && DirsIn(children, prefix) <= allowed &&
            forall f :: f in FilesIn(children, prefix) ==> f.0 in expected && expected[f.0] == f.1
  {
    if children != [] {
      CleanAtMeans(children[0], prefix, expected, allowed);
      CleanMeans(children[1..], prefix, expected, allowed);
    }
  }

  lemma {:induction false} CleanAtMeans(child: Child, prefix: string, expected: Expected, allowed: set<string>)
    ensures CleanAt(child, prefix, expected, allowed) <==>
            RegularAt(child) && DirsAt(child, prefix) <= allowed &&
            forall f :: f in FilesAt(child, prefix) ==> f.0 in expected && expected[f.0] == f.1
  {
    if child.node.Dir? {
      var name := prefix + child.name;
      CleanMeans(child.node.children, name + "/", expected, allowed);
      assert DirsAt(child, prefix) == {name} + DirsIn(child.node.children, name + "/");
      assert DirsAt(child, prefix) <= allowed <==> name in allowed && DirsIn(child.node.children, name + "/") <= allowed;
    } else if child.node.File? {
      var f := (prefix + child.name, child.node.size);
      assert forall g :: g in FilesAt(child, prefix) <==> g == f;
    }
  }

  /** A file's parents below the prefix are directories of the tree. */
  lemma {:induction false} ParentsFound(children: seq<Child>, prefix: string, file: (string, nat), i: nat)
    requires Named(children) && file in FilesIn(children, prefix)
    requires |prefix| <= i < |file.0| && file.0[i] == '/'
    ensures file.0[..i] in DirsIn(children, prefix)
  {
    if file in FilesAt(children[0], prefix) {
      ParentsAt(children[0], prefix, file, i);
    } else {
      ParentsFound(children[1..], prefix, file, i);
    }
  }

  lemma {:induction false} ParentsAt(child: Child, prefix: string, file: (string, nat), i: nat)
    requires NamedAt(child) && file in FilesAt(child, prefix)
    requires |prefix| <= i < |file.0| && file.0[i] == '/'
    ensures file.0[..i] in DirsAt(child, prefix)
  {
    var name := prefix + child.name;
    if child.node.Dir? {
      var children := child.node.children;
      Prefixed(children, name + "/", file);
      var k := |name|;
      assert forall j :: |prefix| <= j < k ==> file.0[j] == (name + "/")[j] == child.name[j - |prefix|];
      if i > k {
        ParentsFound(children, name + "/", file, i);
      } else {
        assert i == k;
        assert file.0[..i] == name;
      }
    }
  }

  lemma {:induction false} Prefixed(children: seq<Child>, prefix: string, file: (string, nat))
    requires file in FilesIn(children, prefix)
    ensures |file.0| >= |prefix| && file.0[..|prefix|] == prefix
  {
    if file in FilesAt(children[0], prefix) {
      var child := children[0];
      if child.node.Dir? {
        var longer := prefix + child.name + "/";
        Prefixed(child.node.children, longer, file);
        assert file.0[..|prefix|] == file.0[..|longer|][..|prefix|];
      }
    } else {
      Prefixed(children[1..], prefix, file);
    }
  }

  function Listing(expected: Expected): set<(string, nat)> {
    set n | n in expected :: (n, expected[n])
  }

  /** The exact tree: these files at these sizes, their parents, and nothing else. */
  predicate Exact(tree: seq<Child>, expected: Expected) {
    FilesIn(tree, "") == Listing(expected) && DirsIn(tree, "") == AllParents(expected) && Regular(tree)
  }

  predicate Passes(tree: seq<Child>, expected: Expected) {
    Clean(tree, "", expected, AllParents(expected)) && (set f | f in FilesIn(tree, "") :: f.0) == expected.Keys
  }

  lemma {:induction false} PassesExactly(tree: seq<Child>, expected: Expected)
    requires Named(tree) && forall n :: n in expected ==> n != "" && n[0] != '/'
    ensures Passes(tree, expected) <==> Exact(tree, expected)
  {
    CleanMeans(tree, "", expected, AllParents(expected));
    var files := FilesIn(tree, "");
    if Passes(tree, expected) {
      forall n | n in expected
        ensures (n, expected[n]) in files
      {
        assert n in (set f | f in files :: f.0);
        var f :| f in files && f.0 == n;
        assert f == (n, expected[n]);
      }
      forall n, p | n in expected && p in Parents(n)
        ensures p in DirsIn(tree, "")
      {
        var i :| 0 < i < |n| && n[i] == '/' && p == n[..i];
        ParentsFound(tree, "", (n, expected[n]), i);
      }
      assert files == Listing(expected);
    }
    if Exact(tree, expected) {
      ListedNames(files, expected);
    }
  }

  lemma {:induction false} ListedNames(files: set<(string, nat)>, expected: Expected)
    requires files == Listing(expected)
    ensures (set f | f in files :: f.0) == expected.Keys
  {
    forall n | n in expected
      ensures n in (set f | f in files :: f.0)
    {
      assert (n, expected[n]) in files;
    }
  }

  // ----- The order of listings

  /** One tree listed twice: entries matched in any order, at every level. */
  ghost predicate Alike(a: seq<Child>, b: seq<Child>)
    decreases a
  {
    && (forall x {:trigger TwinOf(x, b)} :: x in a ==> TwinOf(x, b))
    && (forall y {:trigger IsTwin(a, y)} :: y in b ==> IsTwin(a, y))
  }

  ghost predicate TwinOf(x: Child, b: seq<Child>)
    decreases x, 1
  {
    exists y :: y in b && AlikeAt(x, y)
  }

  ghost predicate IsTwin(a: seq<Child>, y: Child)
    decreases a, 0
  {
    exists x :: x in a && AlikeAt(x, y)
  }

  ghost predicate AlikeAt(x: Child, y: Child)
    decreases x, 0
  {
    x.name == y.name &&
    match (x.node, y.node)
    case (Dir(a), Dir(b)) => Alike(a, b)
    case (m, n) => m == n
  }

  lemma {:induction false} AlikeSelf(x: Child)
    ensures AlikeAt(x, x)
    decreases x
  {
    if x.node.Dir? {
      var children := x.node.children;
      forall y | y in children
        ensures TwinOf(y, children) && IsTwin(children, y)
      {
        AlikeSelf(y);
      }
    }
  }

  /** Any reordering of one directory's entries. */
  lemma {:induction false} ShuffledAlike(a: seq<Child>, b: seq<Child>)
    requires multiset(a) == multiset(b)
    ensures Alike(a, b)
  {
    forall x | x in a
      ensures TwinOf(x, b)
    {
      assert x in multiset(a);
      AlikeSelf(x);
    }
    forall y | y in b
      ensures IsTwin(a, y)
    {
      assert y in multiset(b);
      AlikeSelf(y);
    }
  }

  lemma {:induction false} EntryHolds(children: seq<Child>, prefix: string, x: Child)
    requires x in children
    ensures FilesAt(x, prefix) <= FilesIn(children, prefix) && DirsAt(x, prefix) <= DirsIn(children, prefix)
    ensures Regular(children) ==> RegularAt(x)
  {
    if x != children[0] {
      EntryHolds(children[1..], prefix, x);
    }
  }

  ghost predicate SameAt(x: Child, y: Child, prefix: string) {
    FilesAt(x, prefix) == FilesAt(y, prefix) && DirsAt(x, prefix) == DirsAt(y, prefix) && (RegularAt(x) <==> RegularAt(y))
  }

  lemma {:induction false} AlikeEntries(x: Child, y: Child, prefix: string)
    requires AlikeAt(x, y)
    ensures SameAt(x, y, prefix)
    decreases x
  {
    if x.node.Dir? {
      AlikeHolds(x.node.children, y.node.children, prefix + x.name + "/");
    }
  }

  lemma {:induction false} Included(a: seq<Child>, b: seq<Child>, prefix: string)
    requires forall x :: x in a ==> exists y :: y in b && SameAt(x, y, prefix)
    ensures FilesIn(a, prefix) <= FilesIn(b, prefix) && DirsIn(a, prefix) <= DirsIn(b, prefix)
    ensures Regular(b) ==> Regular(a)
  {
    if a != [] {
      assert a[0] in a && forall x :: x in a[1..] ==> x in a;
      var y :| y in b && SameAt(a[0], y, prefix);
      EntryHolds(b, prefix, y);
      Included(a[1..], b, prefix);
    }
  }

  /** Two listings of one tree hold the same files and directories. */
  lemma {:induction false} AlikeHolds(a: seq<Child>, b: seq<Child>, prefix: string)
    requires Alike(a, b)
    ensures FilesIn(a, prefix) == FilesIn(b, prefix) && DirsIn(a, prefix) == DirsIn(b, prefix)
    ensures Regular(a) <==> Regular(b)
    decreases a
  {
    forall x | x in a
      ensures exists y :: y in b && SameAt(x, y, prefix)
    {
      assert TwinOf(x, b);
      var y :| y in b && AlikeAt(x, y);
      AlikeEntries(x, y, prefix);
    }
    forall y | y in b
      ensures exists x :: x in a && SameAt(y, x, prefix)
    {
      assert IsTwin(a, y);
      var x :| x in a && AlikeAt(x, y);
      AlikeEntries(x, y, prefix);
      assert SameAt(y, x, prefix);
    }
    Included(a, b, prefix);
    Included(b, a, prefix);
  }

  /** The order in which directories list their entries decides nothing. */
  lemma {:induction false} OrderIrrelevant(a: seq<Child>, b: seq<Child>, expected: Expected)
    requires Alike(a, b)
    ensures Passes(a, expected) <==> Passes(b, expected)
    ensures Exact(a, expected) <==> Exact(b, expected)
  {
    AlikeHolds(a, b, "");
    CleanMeans(a, "", expected, AllParents(expected));
    CleanMeans(b, "", expected, AllParents(expected));
  }

  // ----- The worklist

  /** A directory still to be read, and what its entries' names begin with. */
  datatype Pending = Pending(children: seq<Child>, prefix: string)

  predicate AllClean(pending: seq<Pending>, expected: Expected, allowed: set<string>) {
    forall p :: p in pending ==> Clean(p.children, p.prefix, expected, allowed)
  }

  function AllFiles(pending: seq<Pending>): set<(string, nat)> {
    if pending == [] then {}
    else AllFiles(pending[..|pending| - 1]) + FilesIn(pending[|pending| - 1].children, pending[|pending| - 1].prefix)
  }

  function Count(children: seq<Child>): nat {
    if children == [] then 0 else CountAt(children[0]) + Count(children[1..])
  }

  function CountAt(child: Child): nat {
    1 + if child.node.Dir? then 1 + Count(child.node.children) else 0
  }

  function AllCount(pending: seq<Pending>): nat {
    if pending == [] then 0 else AllCount(pending[..|pending| - 1]) + 1 + Count(pending[|pending| - 1].children)
  }

  lemma {:induction false} Pushed(pending: seq<Pending>, p: Pending)
    ensures AllFiles(pending + [p]) == AllFiles(pending) + FilesIn(p.children, p.prefix)
    ensures AllCount(pending + [p]) == AllCount(pending) + 1 + Count(p.children)
    ensures forall expected, allowed :: AllClean(pending + [p], expected, allowed) <==>
              AllClean(pending, expected, allowed) && Clean(p.children, p.prefix, expected, allowed)
  {
    assert (pending + [p])[..|pending|] == pending;
    forall expected, allowed
      ensures AllClean(pending + [p], expected, allowed) <==>
              AllClean(pending, expected, allowed) && Clean(p.children, p.prefix, expected, allowed)
    {
      assert p in pending + [p] && forall q :: q in pending ==> q in pending + [p];
    }
  }

  function NamesOf(files: set<(string, nat)>): set<string> {
    set f | f in files :: f.0
  }

  lemma NamesTogether(a: set<(string, nat)>, b: set<(string, nat)>)
    ensures NamesOf(a + b) == NamesOf(a) + NamesOf(b)
  {
  }

  /** What is left to read: the rest of one directory, and the pending ones. */
  ghost predicate Clear(pending: seq<Pending>, rest: seq<Child>, prefix: string, expected: Expected, allowed: set<string>) {
    AllClean(pending, expected, allowed) && Clean(rest, prefix, expected, allowed)
  }

  ghost function NamesLeft(found: set<string>, pending: seq<Pending>, rest: seq<Child>, prefix: string): set<string> {
    found + NamesOf(AllFiles(pending)) + NamesOf(FilesIn(rest, prefix))
  }

  ghost function Work(pending: seq<Pending>, rest: seq<Child>): nat {
    AllCount(pending) + Count(rest)
  }

  lemma {:induction false} Unrolled(rest: seq<Child>, prefix: string, expected: Expected, allowed: set<string>)
    requires rest != []
    ensures Count(rest) == CountAt(rest[0]) + Count(rest[1..]) && FilesIn(rest, prefix) == FilesAt(rest[0], prefix) + FilesIn(rest[1..], prefix)
    ensures Clean(rest, prefix, expected, allowed) <==>
            CleanAt(rest[0], prefix, expected, allowed) && Clean(rest[1..], prefix, expected, allowed)
  {
  }

  /** Reading one entry moves its files to those found and its directory to the pending ones. */
  lemma {:induction false} FileRead(found: set<string>, pending: seq<Pending>, rest: seq<Child>, prefix: string,
                                    expected: Expected, allowed: set<string>)
    requires rest != [] && rest[0].node.File? && CleanAt(rest[0], prefix, expected, allowed)
    ensures Clear(pending, rest, prefix, expected, allowed) <==> Clear(pending, rest[1..], prefix, expected, allowed)
    ensures NamesLeft(found + {prefix + rest[0].name}, pending, rest[1..], prefix) == NamesLeft(found, pending, rest, prefix)
    ensures Work(pending, rest[1..]) < Work(pending, rest)
  {
    Unrolled(rest, prefix, expected, allowed);
    NamesTogether(FilesAt(rest[0], prefix), FilesIn(rest[1..], prefix));
    var f := (prefix + rest[0].name, rest[0].node.size);
    assert FilesAt(rest[0], prefix) == {f};
    assert f in FilesAt(rest[0], prefix);
    assert NamesOf({f}) == {f.0};
  }

  lemma {:induction false} DirectoryRead(found: set<string>, pending: seq<Pending>, rest: seq<Child>, prefix: string,
                                         expected: Expected, allowed: set<string>)
    requires rest != [] && rest[0].node.Dir? && prefix + rest[0].name in allowed
    ensures var more := pending + [Pending(rest[0].node.children, prefix + rest[0].name + "/")];
            (Clear(pending, rest, prefix, expected, allowed) <==> Clear(more, rest[1..], prefix, expected, allowed)) &&
            NamesLeft(found, more, rest[1..], prefix) == NamesLeft(found, pending, rest, prefix) &&
            Work(more, rest[1..]) < Work(pending, rest)
  {
    var p := Pending(rest[0].node.children, prefix + rest[0].name + "/");
    Pushed(pending, p);
    Unrolled(rest, prefix, expected, allowed);
    assert CleanAt(rest[0], prefix, expected, allowed) == Clean(p.children, p.prefix, expected, allowed);
    assert AllClean(pending + [p], expected, allowed) <==>
           AllClean(pending, expected, allowed) && Clean(p.children, p.prefix, expected, allowed);
    NamesTogether(FilesAt(rest[0], prefix), FilesIn(rest[1..], prefix));
    NamesTogether(AllFiles(pending), FilesIn(p.children, p.prefix));
  }

  /** One directory: its files found, its subdirectories pending, or an entry that does not belong. */
  method ReadDirectory(next: Pending, expected: Expected, allowed: set<string>, found: set<string>, pending: seq<Pending>)
    returns (ok: bool, seen: set<string>, queue: seq<Pending>)
    ensures !ok ==> !Clean(next.children, next.prefix, expected, allowed)
    ensures ok ==> (AllClean(queue, expected, allowed) <==> Clear(pending, next.children, next.prefix, expected, allowed))
    ensures ok ==> seen + NamesOf(AllFiles(queue)) == NamesLeft(found, pending, next.children, next.prefix)
    ensures ok ==> AllCount(queue) <= Work(pending, next.children)
  {
    seen, queue := found, pending;
    for i := 0 to |next.children|
      invariant Clear(queue, next.children[i..], next.prefix, expected, allowed) <==>
                Clear(pending, next.children, next.prefix, expected, allowed)
      invariant Clean(next.children, next.prefix, expected, allowed) ==> Clean(next.children[i..], next.prefix, expected, allowed)
      invariant NamesLeft(seen, queue, next.children[i..], next.prefix) == NamesLeft(found, pending, next.children, next.prefix)
      invariant Work(queue, next.children[i..]) <= Work(pending, next.children)
    {
      var child := next.children[i];
      var name := next.prefix + child.name;
      var rest := next.children[i..];
      assert rest[0] == child && rest[1..] == next.children[i + 1..];
      if child.node.Dir? && name in allowed {
        DirectoryRead(seen, queue, rest, next.prefix, expected, allowed);
        queue := queue + [Pending(child.node.children, name + "/")];
      } else if child.node.File? && name in expected {
        if child.node.size != expected[name] {
          return false, seen, queue;
        }
        FileRead(seen, queue, rest, next.prefix, expected, allowed);
        seen := seen + {name};
      } else {
        return false, seen, queue;
      }
    }
    assert next.children[|next.children|..] == [];
    return true, seen, queue;
  }

  method Census(tree: seq<Child>, expected: Expected) returns (ok: bool)
    ensures ok <==> Passes(tree, expected)
  {
    var allowed := AllParents(expected);
    var found: set<string>, pending: seq<Pending> := {}, [Pending(tree, "")];
    Pushed([], Pending(tree, ""));
    while pending != []
      invariant Clean(tree, "", expected, allowed) <==> AllClean(pending, expected, allowed)
      invariant NamesOf(FilesIn(tree, "")) == found + NamesOf(AllFiles(pending))
      decreases AllCount(pending)
    {
      var next := pending[|pending| - 1];
      ghost var whole := pending;
      pending := pending[..|pending| - 1];
      Popped(whole, pending, next, found, expected, allowed);
      ok, found, pending := ReadDirectory(next, expected, allowed, found, pending);
      if !ok {
        return false;
      }
    }
    return found == expected.Keys;
  }

  lemma {:induction false} Popped(whole: seq<Pending>, pending: seq<Pending>, next: Pending, found: set<string>,
                                  expected: Expected, allowed: set<string>)
    requires whole == pending + [next]
    ensures AllClean(whole, expected, allowed) <==> Clear(pending, next.children, next.prefix, expected, allowed)
    ensures found + NamesOf(AllFiles(whole)) == NamesLeft(found, pending, next.children, next.prefix)
    ensures AllCount(whole) > Work(pending, next.children)
  {
    Pushed(pending, next);
    NamesTogether(AllFiles(pending), FilesIn(next.children, next.prefix));
  }
}
