/**
 Which Gathers the last-index pass rewrites: exactly those along axis 0 whose known int64 index
 operand has an element and holds -1 at every index, whatever its shape. After a success none is left.
 */
module GatherCensus {
  import opened GatherPass
  import opened Graphs
  import opened Sequences
  import opened Tensors
  import opened Wrappers

  /** A Gather of last elements, read off its operand's elements. */
  ghost predicate GathersLast(node: Node, known: Constants) {
    && node.op.Gather? && node.op.axis == 0 && 2 <= |node.inputs| && node.inputs[1] in known
    && AllMinusOne(known[node.inputs[1]])
  }

  ghost predicate AllMinusOne(t: Tensor) {
    && t.element == Int64 && (exists at :: InBounds(at, t.shape))
    && forall at :: InBounds(at, t.shape) ==> At(t, at) == -1.0
  }

  lemma MinusOneMeans(t: Tensor)
    ensures AllLast(t) <==> AllMinusOne(t)
  {
    if AllLast(t) {
      var at := Unravel(t.shape, 0);
      assert InBounds(at, t.shape);
    }
    if AllMinusOne(t) {
      var some :| InBounds(some, t.shape);
      assert Offset(t.shape, some) < |t.data|;
      forall k | 0 <= k < |t.data|
        ensures t.data[k] == -1.0
      {
        OffsetUnravel(t.shape, k);
        assert At(t, Unravel(t.shape, k)) == -1.0;
      }
    }
  }

  lemma RewritableMeans(node: Node, known: Constants)
    ensures Rewritable(node, known) <==> GathersLast(node, known)
  {
    if 2 <= |node.inputs| && node.inputs[1] in known {
      MinusOneMeans(known[node.inputs[1]]);
    }
  }

  /** The positions of such Gathers. */
  ghost function Lasts(nodes: seq<Node>, known: Constants): set<nat> {
    set i: nat | i < |nodes| && GathersLast(nodes[i], known)
  }

  lemma LastsNext(before: seq<Node>, node: Node, known: Constants)
    ensures |Lasts(before + [node], known)| == |Lasts(before, known)| + if GathersLast(node, known) then 1 else 0
  {
    var all := before + [node];
    forall i: nat
      ensures i in Lasts(all, known) <==> i in Lasts(before, known) || (i == |before| && GathersLast(node, known))
    {
      if i < |all| {
        assert all[i] == if i < |before| then before[i] else node;
      }
    }
    OneMore(Lasts(before, known), Lasts(all, known), |before|, GathersLast(node, known));
  }

  /** Where the i-th node, or what replaces it, begins in the result. */
  ghost function Position(nodes: seq<Node>, known: Constants, i: nat): nat
    requires i <= |nodes|
  {
    i + 3 * |Lasts(nodes[..i], known)|
  }

  /** Shape, Gather and Add before the Gather, which reads what they compute. */
  ghost predicate Computed(node: Node, four: seq<Node>)
    requires 2 <= |node.inputs|
  {
    exists shape, length, axis, index ::
      four ==
      [Node(Shape, [node.inputs[0]], [shape], ""), Node(Gather(0), [shape, axis], [length], ""),
       Node(Add, [length, node.inputs[1]], [index], ""), node.(inputs := node.inputs[1 := index])]
  }

  lemma ComputedFour(node: Node, n: Names)
    requires 2 <= |node.inputs|
    ensures Computed(node, LastIndexNodes(node, n))
  {
    assert LastIndexNodes(node, n) ==
           [Node(Shape, [node.inputs[0]], [n.shape], ""), Node(Gather(0), [n.shape, n.axis], [n.length], ""),
            Node(Add, [n.length, node.inputs[1]], [n.index], ""), node.(inputs := node.inputs[1 := n.index])];
  }

  /** The i-th node is in the result unchanged, or its Gather reads a computed index. */
  ghost predicate Stands(nodes: seq<Node>, known: Constants, result: seq<Node>, i: nat)
    requires i < |nodes|
  {
    var (node, at) := (nodes[i], Position(nodes, known, i));
    if GathersLast(node, known) then at + 4 <= |result| && Computed(node, result[at..at + 4])
    else at < |result| && result[at] == node
  }

  lemma {:induction false} RewrittenCensus(nodes: seq<Node>, known: Constants)
    ensures var done := Rewritten(nodes, known);
            done.count == |Lasts(nodes, known)| && |done.nodes| == |nodes| + 3 * done.count
    decreases |nodes|
  {
    if nodes != [] {
      var before, node := nodes[..|nodes| - 1], nodes[|nodes| - 1];
      RewrittenCensus(before, known);
      RewritableMeans(node, known);
      LastsNext(before, node, known);
      assert nodes == before + [node];
    }
  }

  lemma {:induction false} NodeStands(nodes: seq<Node>, known: Constants, i: nat)
    requires i < |nodes|
    ensures Stands(nodes, known, Rewritten(nodes, known).nodes, i)
    decreases |nodes|
  {
    var before, node := nodes[..|nodes| - 1], nodes[|nodes| - 1];
    var done := Rewritten(before, known);
    RewritableMeans(node, known);
    RewrittenCensus(before, known);
    if i == |nodes| - 1 {
      LastStands(nodes, known, done);
    } else {
      NodeStands(before, known, i);
      assert before[i] == nodes[i] && before[..i] == nodes[..i];
      StandsLonger(before, nodes, known, done.nodes, Rewritten(nodes, known).nodes, i);
    }
  }

  lemma LastStands(nodes: seq<Node>, known: Constants, done: Progress)
    requires nodes != [] && done == Rewritten(nodes[..|nodes| - 1], known)
    requires |done.nodes| == Position(nodes, known, |nodes| - 1)
    ensures Stands(nodes, known, Rewritten(nodes, known).nodes, |nodes| - 1)
  {
    var node, at := nodes[|nodes| - 1], |done.nodes|;
    RewritableMeans(node, known);
    if GathersLast(node, known) {
      var four := LastIndexNodes(node, NamesFor(done.count));
      ComputedFour(node, NamesFor(done.count));
      TailAfter(done.nodes, four);
    }
  }

  lemma TailAfter<T>(a: seq<T>, b: seq<T>)
    ensures (a + b)[|a|..|a| + |b|] == b
  {
  }

  lemma StandsLonger(before: seq<Node>, nodes: seq<Node>, known: Constants, result: seq<Node>, more: seq<Node>, i: nat)
    requires i < |before| <= |nodes| && before[i] == nodes[i] && before[..i] == nodes[..i]
    requires |result| <= |more| && more[..|result|] == result && Stands(before, known, result, i)
    ensures Stands(nodes, known, more, i)
  {
    var at := Position(nodes, known, i);
    assert at < |result| ==> more[at] == more[..|result|][at];
    if at + 4 <= |result| {
      SliceTaken(more, |result|, at);
    }
  }

  lemma SliceTaken<T>(s: seq<T>, n: nat, at: nat)
    requires at + 4 <= n <= |s|
    ensures s[..n][at..at + 4] == s[at..at + 4]
  {
  }

  /** The result, node by node: every Gather of last elements replaced and everything else kept in place. */
  lemma RewritesExactly(nodes: seq<Node>, known: Constants)
    ensures var done := Rewritten(nodes, known);
            done.count == |Lasts(nodes, known)| && |done.nodes| == |nodes| + 3 * done.count &&
            forall i :: 0 <= i < |nodes| ==> Stands(nodes, known, done.nodes, i)
  {
    RewrittenCensus(nodes, known);
    forall i | 0 <= i < |nodes|
      ensures Stands(nodes, known, Rewritten(nodes, known).nodes, i)
    {
      NodeStands(nodes, known, i);
    }
  }

  // ----- After the pass

  lemma {:induction false} BoundAppend(a: seq<(string, Tensor)>, b: seq<(string, Tensor)>)
    ensures Bound(a + b) == Bound(a) + Bound(b)
  {
    if b == [] {
      assert a + b == a;
    } else {
      assert (a + b)[..|a + b| - 1] == a + b[..|b| - 1];
      BoundAppend(a, b[..|b| - 1]);
    }
  }

  /** The constants of the result are those of the original and the zeros added for the axes. */
  lemma {:induction false} KnownAfter(initializers: seq<(string, Tensor)>, added: seq<(string, Tensor)>, nodes: seq<Node>, known: Constants)
    ensures KnownConstants(initializers + added, Rewritten(nodes, known).nodes) == KnownConstants(initializers + added, nodes)
    decreases |nodes|
  {
    if nodes != [] {
      var before, node := nodes[..|nodes| - 1], nodes[|nodes| - 1];
      KnownAfter(initializers, added, before, known);
      var done := Rewritten(before, known);
      if Rewritable(node, known) {
        KnownPlain(initializers + added, done.nodes, LastIndexNodes(node, NamesFor(done.count)));
      } else {
        assert (done.nodes + [node])[..|done.nodes|] == done.nodes;
      }
    }
  }

  lemma {:induction false} KnownPlain(initializers: seq<(string, Tensor)>, first: seq<Node>, more: seq<Node>)
    requires forall node :: node in more ==> !node.op.Constant?
    ensures KnownConstants(initializers, first + more) == KnownConstants(initializers, first)
    decreases |more|
  {
    if more == [] {
      assert first + more == first;
    } else {
      assert (first + more)[..|first + more| - 1] == first + more[..|more| - 1];
      assert more[|more| - 1] in more;
      KnownPlain(initializers, first, more[..|more| - 1]);
    }
  }

  /** Further initializers under names no node binds. */
  lemma {:induction false} KnownWider(initializers: seq<(string, Tensor)>, added: seq<(string, Tensor)>, nodes: seq<Node>)
    requires Bound(added).Keys !! OutputsOf(nodes)
    ensures KnownConstants(initializers + added, nodes) == KnownConstants(initializers, nodes) + Bound(added)
    decreases |nodes|
  {
    if nodes == [] {
      BoundAppend(initializers, added);
    } else {
      KnownWider(initializers, added, nodes[..|nodes| - 1]);
      var node := nodes[|nodes| - 1];
      if node.outputs != [] {
        assert node.outputs[0] in SetOf(node.outputs);
      }
    }
  }

  lemma {:induction false} AxesValues(count: nat)
    ensures forall x :: x in Axes(count) ==> Axes(count)[x] == Scalar(0)
  {
    if count != 0 {
      AxesValues(count - 1);
    }
  }

  /** Any node of the result is an original one that is not rewritten, or one of the four made from one that is. */
  lemma {:induction false} ResultNode(nodes: seq<Node>, known: Constants, node: Node)
    requires node in Rewritten(nodes, known).nodes
    ensures (node in nodes && !Rewritable(node, known)) ||
            exists c: nat, original :: c < Rewritten(nodes, known).count && original in nodes && Rewritable(original, known) &&
                                   node in LastIndexNodes(original, NamesFor(c))
    decreases |nodes|
  {
    var before, last := nodes[..|nodes| - 1], nodes[|nodes| - 1];
    if node in Rewritten(before, known).nodes {
      ResultNode(before, known, node);
    } else {
      assert last in nodes;
    }
  }

  lemma NotLast(node: Node, known: Constants, after: Constants, count: nat, c: nat, original: Node)
    requires c < count && 2 <= |original.inputs| && original.op == Gather(0) && node in LastIndexNodes(original, NamesFor(c))
    requires after == known + Axes(count) && NamesFor(c).index !in known && NamesFor(c).axis !in known
    ensures !GathersLast(node, known) && !GathersLast(node, after)
  {
    var n := NamesFor(c);
    AxesKeys(count, c);
    AxesApart(count, c);
    AxesValues(count);
    if node.op.Gather? {
      assert node.inputs[1] == n.axis || node.inputs[1] == n.index;
      var t := Scalar(0);
      assert InBounds([], t.shape) && At(t, []) == 0.0;
    }
  }

  /**
   After the pass no Gather of last elements is left, whether the constants are those the pass looked
   up or those of the result.
   */
  lemma NoneLeft(nodes: seq<Node>, initializers: seq<(string, Tensor)>, occupied: set<string>, node: Node)
    requires NodeNames(nodes) + InitializerNames(initializers) <= occupied
    requires Free(Rewritten(nodes, KnownConstants(initializers, nodes)).count, occupied)
    requires node in Rewritten(nodes, KnownConstants(initializers, nodes)).nodes
    ensures var known := KnownConstants(initializers, nodes);
            var done := Rewritten(nodes, known);
            !GathersLast(node, known) && !GathersLast(node, KnownConstants(initializers + done.constants, done.nodes))
  {
    var known := KnownConstants(initializers, nodes);
    var done := Rewritten(nodes, known);
    AxesBound(nodes, known);
    OutputsNamed(nodes);
    GeneratedFree(done.count, occupied);
    KnownAfter(initializers, done.constants, nodes, known);
    KnownWider(initializers, done.constants, nodes);
    KnownOccupied(initializers, nodes, occupied);
    ResultNode(nodes, known, node);
    if node in nodes && !Rewritable(node, known) {
      RewritableMeans(node, known);
      KeptNode(nodes, node, known, Axes(done.count), occupied);
    } else {
      var c: nat, original :| c < done.count && original in nodes && Rewritable(original, known) &&
                              node in LastIndexNodes(original, NamesFor(c));
      assert NameSet(NamesFor(c)) !! occupied;
      NotLast(node, known, known + Axes(done.count), done.count, c, original);
    }
  }

  lemma {:induction false} BoundNamed(constants: seq<(string, Tensor)>)
    ensures Bound(constants).Keys <= SetOf(ConstantNames(constants))
  {
    if constants != [] {
      var before, last := constants[..|constants| - 1], constants[|constants| - 1];
      BoundNamed(before);
      assert ConstantNames(constants) == ConstantNames(before) + [last.0];
    }
  }

  lemma KnownOccupied(initializers: seq<(string, Tensor)>, nodes: seq<Node>, occupied: set<string>)
    requires NodeNames(nodes) + InitializerNames(initializers) <= occupied
    ensures KnownConstants(initializers, nodes).Keys <= occupied
  {
    KnownKeys(initializers, nodes);
    BoundNamed(initializers);
    OutputsNamed(nodes);
  }

  lemma {:induction false} NamesIn(nodes: seq<Node>, node: Node)
    requires node in nodes
    ensures NamesOf(node) <= NodeNames(nodes)
    decreases |nodes|
  {
    var before := nodes[..|nodes| - 1];
    if node in before {
      NamesIn(before, node);
    } else {
      assert node == nodes[|nodes| - 1];
    }
  }

  lemma KeptNode(nodes: seq<Node>, node: Node, known: Constants, axes: Env, occupied: set<string>)
    requires node in nodes && NodeNames(nodes) <= occupied && axes.Keys !! occupied && !GathersLast(node, known)
    ensures !GathersLast(node, known + axes)
  {
    NamesIn(nodes, node);
    if 2 <= |node.inputs| {
      assert node.inputs[1] in SetOf(node.inputs);
      assert node.inputs[1] in NamesOf(node);
    }
  }

  /** What a pass that ends has made of a model: the count, each node's place, and no Gather left to rewrite. */
  ghost predicate Complete(nodes: seq<Node>, initializers: seq<(string, Tensor)>, result: seq<Node>,
                           further: seq<(string, Tensor)>, count: nat) {
    var known := KnownConstants(initializers, nodes);
    && count == |Lasts(nodes, known)| && |result| == |nodes| + 3 * count
    && (forall i :: 0 <= i < |nodes| ==> Stands(nodes, known, result, i))
    && (forall node :: node in result ==> !GathersLast(node, known))
    && (forall node :: node in result ==> !GathersLast(node, KnownConstants(further, result)))
  }

  lemma PassComplete(nodes: seq<Node>, initializers: seq<(string, Tensor)>, occupied: set<string>)
    requires NodeNames(nodes) + InitializerNames(initializers) <= occupied
    requires Free(Rewritten(nodes, KnownConstants(initializers, nodes)).count, occupied)
    ensures var done := Rewritten(nodes, KnownConstants(initializers, nodes));
            Complete(nodes, initializers, done.nodes, initializers + done.constants, done.count)
  {
    RewritesExactly(nodes, KnownConstants(initializers, nodes));
    forall node | node in Rewritten(nodes, KnownConstants(initializers, nodes)).nodes
      ensures var known := KnownConstants(initializers, nodes);
              var done := Rewritten(nodes, known);
              !GathersLast(node, known) && !GathersLast(node, KnownConstants(initializers + done.constants, done.nodes))
    {
      NoneLeft(nodes, initializers, occupied, node);
    }
  }
}
