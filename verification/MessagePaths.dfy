/**
 Which tensors of a message tree are visited: those at the end of every path of child positions,
 each once and in the order of the paths.
 */
module MessagePaths {
  import opened GraphMessages
  import opened Wrappers

  type Path = seq<nat>

  /** The message at the end of a path from the root. */
  function Under(m: Message, path: Path): Option<Message>
    decreases |path|
  {
    if path == [] then Some(m)
    else if m.Branch? && path[0] < |m.children| then Under(m.children[path[0]], path[1..])
    else None
  }

  /** The first position where two paths differ decides. */
  predicate Before(p: Path, q: Path) {
    p != [] && q != [] && (p[0] < q[0] || (p[0] == q[0] && Before(p[1..], q[1..])))
  }

  /** Prefixes a position to some paths. */
  function Below(k: nat, paths: seq<Path>): (r: seq<Path>)
    ensures |r| == |paths| && forall i :: 0 <= i < |r| ==> r[i] == [k] + paths[i]
  {
    seq(|paths|, i requires 0 <= i < |paths| => [k] + paths[i])
  }

  /** The paths of the tensors under a message, and under the children from the k-th on. */
  function Paths(m: Message): seq<Path> {
    match m
    case Leaf(_) => [[]]
    case Branch(_, children) => PathsFrom(children, 0)
  }

  function PathsFrom(children: seq<Message>, k: nat): seq<Path> {
    if children == [] then [] else Below(k, Paths(children[0])) + PathsFrom(children[1..], k + 1)
  }

  ghost predicate Ascending(paths: seq<Path>) {
    forall i, j :: 0 <= i < j < |paths| ==> Before(paths[i], paths[j])
  }

  /** The paths lead to the tensors. */
  ghost predicate Lead(m: Message, paths: seq<Path>, tensors: seq<Tensor>) {
    |paths| == |tensors| && forall i :: 0 <= i < |paths| ==> Under(m, paths[i]) == Some(Leaf(tensors[i]))
  }

  ghost predicate IsLeaf(m: Message, path: Path) {
    Under(m, path).Some? && Under(m, path).value.Leaf?
  }

  /** Among the children from the k-th on, a path's first step counts from k. */
  function UnderFrom(children: seq<Message>, k: nat, path: Path): Option<Message> {
    if path != [] && k <= path[0] < k + |children| then Under(children[path[0] - k], path[1..]) else None
  }

  lemma {:induction false} StepBelow(k: nat, path: Path)
    ensures ([k] + path)[0] == k && ([k] + path)[1..] == path
  {
  }

  lemma {:induction false} UnderNext(children: seq<Message>, k: nat, path: Path)
    requires children != [] && path != []
    ensures path[0] == k ==> UnderFrom(children, k, path) == Under(children[0], path[1..])
    ensures path[0] != k ==> UnderFrom(children, k, path) == UnderFrom(children[1..], k + 1, path)
  {
  }

  lemma {:induction false} PathsLead(m: Message)
    ensures Lead(m, Paths(m), Tensors(m))
  {
    if m.Branch? {
      FromLead(m.children, 0);
      forall i | 0 <= i < |Paths(m)|
        ensures Under(m, Paths(m)[i]) == Some(Leaf(Tensors(m)[i]))
      {
        assert UnderFrom(m.children, 0, Paths(m)[i]) == Some(Leaf(Tensors(m)[i]));
      }
    }
  }

  lemma {:induction false} FromLead(children: seq<Message>, k: nat)
    ensures |PathsFrom(children, k)| == |AllTensors(children)|
    ensures forall i :: 0 <= i < |PathsFrom(children, k)| ==>
              UnderFrom(children, k, PathsFrom(children, k)[i]) == Some(Leaf(AllTensors(children)[i]))
  {
    if children != [] {
      PathsLead(children[0]);
      FromLead(children[1..], k + 1);
      var first, rest := Below(k, Paths(children[0])), PathsFrom(children[1..], k + 1);
      forall i | 0 <= i < |PathsFrom(children, k)|
        ensures UnderFrom(children, k, PathsFrom(children, k)[i]) == Some(Leaf(AllTensors(children)[i]))
      {
        if i < |first| {
          StepBelow(k, Paths(children[0])[i]);
        } else {
          var path := rest[i - |first|];
          assert UnderFrom(children[1..], k + 1, path).Some?;
          UnderNext(children, k, path);
        }
      }
    }
  }

  /** Every path below the children begins at one of them. */
  lemma {:induction false} FromBegins(children: seq<Message>, k: nat)
    ensures forall p :: p in PathsFrom(children, k) ==> p != [] && k <= p[0]
  {
    if children != [] {
      FromBegins(children[1..], k + 1);
      forall p | p in PathsFrom(children, k)
        ensures p != [] && k <= p[0]
      {
        if p in Below(k, Paths(children[0])) {
          var i :| 0 <= i < |Paths(children[0])| && p == [k] + Paths(children[0])[i];
        }
      }
    }
  }

  lemma {:induction false} PathsAscend(m: Message)
    ensures Ascending(Paths(m))
  {
    if m.Branch? {
      FromAscend(m.children, 0);
    }
  }

  lemma {:induction false} FromAscend(children: seq<Message>, k: nat)
    ensures Ascending(PathsFrom(children, k))
  {
    if children != [] {
      PathsAscend(children[0]);
      FromAscend(children[1..], k + 1);
      FromBegins(children[1..], k + 1);
      BelowAscend(k, Paths(children[0]));
      JoinedAscend(Below(k, Paths(children[0])), PathsFrom(children[1..], k + 1), k);
    }
  }

  lemma {:induction false} BelowAscend(k: nat, paths: seq<Path>)
    requires Ascending(paths)
    ensures Ascending(Below(k, paths)) && forall p :: p in Below(k, paths) ==> p != [] && p[0] == k
  {
    forall i, j | 0 <= i < j < |paths|
      ensures Before([k] + paths[i], [k] + paths[j])
    {
      StepBelow(k, paths[i]);
      StepBelow(k, paths[j]);
    }
  }

  lemma {:induction false} JoinedAscend(a: seq<Path>, b: seq<Path>, k: nat)
    requires Ascending(a) && Ascending(b)
    requires (forall p :: p in a ==> p != [] && p[0] == k) && forall p :: p in b ==> p != [] && k < p[0]
    ensures Ascending(a + b)
  {
    forall i, j | 0 <= i < j < |a + b|
      ensures Before((a + b)[i], (a + b)[j])
    {
      if i < |a| <= j {
        assert a[i] in a && b[j - |a|] in b;
      }
    }
  }

  /** No tensor is missed. */
  lemma {:induction false} LeafListed(m: Message, path: Path)
    requires IsLeaf(m, path)
    ensures path in Paths(m)
    decreases m
  {
    if m.Branch? {
      LeafFrom(m.children, 0, path);
    }
  }

  lemma {:induction false} LeafFrom(children: seq<Message>, k: nat, path: Path)
    requires UnderFrom(children, k, path).Some? && UnderFrom(children, k, path).value.Leaf?
    ensures path in PathsFrom(children, k)
    decreases children
  {
    if path[0] == k {
      LeafListed(children[0], path[1..]);
      var i :| 0 <= i < |Paths(children[0])| && Paths(children[0])[i] == path[1..];
      assert path == [k] + path[1..];
      assert Below(k, Paths(children[0]))[i] == path;
    } else {
      UnderNext(children, k, path);
      LeafFrom(children[1..], k + 1, path);
    }
  }

  /** The tensors visited are those at the paths that end in a tensor, in the order of the paths, each once. */
  lemma {:induction false} VisitsAll(m: Message) returns (paths: seq<Path>)
    ensures Lead(m, paths, Tensors(m)) && Ascending(paths)
    ensures forall path :: path in paths <==> IsLeaf(m, path)
  {
    paths := Paths(m);
    PathsLead(m);
    PathsAscend(m);
    forall path
      ensures path in paths <==> IsLeaf(m, path)
    {
      if IsLeaf(m, path) {
        LeafListed(m, path);
      }
    }
  }

  // ----- Replacing

  lemma {:induction false} ReplacedPaths(m: Message, tensors: seq<Tensor>)
    requires |tensors| == |Tensors(m)|
    ensures Paths(Replace(m, tensors)) == Paths(m)
  {
    if m.Branch? {
      ReplacedFrom(m.children, tensors, 0);
    }
  }

  lemma {:induction false} ReplacedFrom(children: seq<Message>, tensors: seq<Tensor>, k: nat)
    requires |tensors| == |AllTensors(children)|
    ensures PathsFrom(ReplaceAll(children, tensors), k) == PathsFrom(children, k)
  {
    if children != [] {
      var n := |Tensors(children[0])|;
      ReplacedPaths(children[0], tensors[..n]);
      ReplacedFrom(children[1..], tensors[n..], k + 1);
      var all := ReplaceAll(children, tensors);
      assert all[0] == Replace(children[0], tensors[..n]) && all[1..] == ReplaceAll(children[1..], tensors[n..]);
    }
  }

  /** What a path leads to in a tree with replaced tensors: the same message but for the tensors in it. */
  ghost predicate SameBut(m: Option<Message>, r: Option<Message>) {
    match (m, r)
    case (None, None) => true
    case (Some(Leaf(_)), Some(Leaf(_))) => true
    case (Some(Branch(f, c)), Some(Branch(g, d))) => f == g && |c| == |d|
    case _ => false
  }

  lemma {:induction false} ReplacedShape(m: Message, tensors: seq<Tensor>, path: Path)
    requires |tensors| == |Tensors(m)|
    ensures SameBut(Under(m, path), Under(Replace(m, tensors), path))
    decreases m
  {
    if m.Branch? {
      ReplacedCount(m.children, tensors);
      if path != [] && path[0] < |m.children| {
        ReplacedChild(m.children, tensors, path[0], path[1..]);
      }
    }
  }

  lemma {:induction false} ReplacedCount(children: seq<Message>, tensors: seq<Tensor>)
    requires |tensors| == |AllTensors(children)|
    ensures |ReplaceAll(children, tensors)| == |children|
  {
    if children != [] {
      ReplacedCount(children[1..], tensors[|Tensors(children[0])|..]);
    }
  }

  lemma {:induction false} ReplacedChild(children: seq<Message>, tensors: seq<Tensor>, k: nat, path: Path)
    requires |tensors| == |AllTensors(children)| && k < |children|
    ensures k < |ReplaceAll(children, tensors)|
    ensures SameBut(Under(children[k], path), Under(ReplaceAll(children, tensors)[k], path))
    decreases children
  {
    ReplacedCount(children, tensors);
    var n := |Tensors(children[0])|;
    if k == 0 {
      ReplacedShape(children[0], tensors[..n], path);
    } else {
      ReplacedChild(children[1..], tensors[n..], k - 1, path);
    }
  }

  /** At each path that ends in a tensor, the tensor and its replacement. */
  lemma {:induction false} ReplacedAt(m: Message, tensors: seq<Tensor>, path: Path) returns (i: nat)
    requires |tensors| == |Tensors(m)| && IsLeaf(m, path)
    ensures i < |tensors| && Under(m, path) == Some(Leaf(Tensors(m)[i]))
    ensures Under(Replace(m, tensors), path) == Some(Leaf(tensors[i]))
  {
    LeafListed(m, path);
    PathsLead(m);
    PathsLead(Replace(m, tensors));
    ReplacedPaths(m, tensors);
    ReplacedTensors(m, tensors);
    i :| 0 <= i < |Paths(m)| && Paths(m)[i] == path;
  }
}
