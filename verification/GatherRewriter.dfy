/**
 The last-index pass as it edits a model in place, what a success leaves of it, and what a refusal
 on the way leaves of it.
 */
module GatherRewriter {
  import opened GatherCensus
  import opened GatherPass
  import opened Graphs
  import opened Sequences
  import opened Tensors
  import opened Wrappers

  // ----- The pass in place

  datatype Refusal = EmptyConstant | MissingIndex | NameCollides

  predicate Constructed(nodes: seq<Node>) {
    forall n :: n in nodes && n.op.Constant? ==> n.outputs != []
  }

  predicate Indexed(nodes: seq<Node>) {
    forall n :: n in nodes && n.op.Gather? ==> 2 <= |n.inputs|
  }

  lemma {:induction false} RewrittenGrows(nodes: seq<Node>, i: nat, known: Constants)
    requires i <= |nodes|
    ensures Rewritten(nodes[..i], known).count <= Rewritten(nodes, known).count
    decreases |nodes|
  {
    if i == |nodes| {
      assert nodes[..i] == nodes;
    } else {
      assert nodes[..|nodes| - 1][..i] == nodes[..i];
      RewrittenGrows(nodes[..|nodes| - 1], i, known);
    }
  }

  lemma NameTaken(nodes: seq<Node>, i: nat, known: Constants, occupied: set<string>)
    requires i < |nodes| && Rewritable(nodes[i], known)
    requires !(NameSet(NamesFor(Rewritten(nodes[..i], known).count)) !! occupied)
    ensures !Free(Rewritten(nodes, known).count, occupied)
  {
    assert nodes[..i + 1][..i] == nodes[..i];
    RewrittenGrows(nodes, i + 1, known);
  }

  class Model {
    var nodes: seq<Node>
    var initializers: seq<(string, Tensor)>
    /** Names of the graph's inputs, outputs and annotated values. */
    var boundary: set<string>

    ghost predicate Accepts()
      reads this
    {
      Constructed(nodes) && Admitted(Begin())
    }

    ghost function Begin(): Start
      reads this
    {
      Start(nodes, initializers, Occupied(), KnownConstants(initializers, nodes))
    }

    function Occupied(): set<string>
      reads this
    {
      NodeNames(nodes) + InitializerNames(initializers) + boundary
    }

    method Constants() returns (r: Result<Constants, Refusal>)
      ensures r.Success? <==> Constructed(nodes)
      ensures r == if Constructed(nodes) then Success(KnownConstants(initializers, nodes)) else Failure(EmptyConstant)
    {
      var known := Bound(initializers);
      for i := 0 to |nodes|
        invariant Constructed(nodes[..i]) && known == KnownConstants(initializers, nodes[..i])
      {
        var node := nodes[i];
        assert node in nodes;
        assert nodes[..i + 1] == nodes[..i] + [node] && nodes[..i + 1][..i] == nodes[..i];
        if node.op.Constant? {
          if node.outputs == [] {
            return Failure(EmptyConstant);
          }
          known := known[node.outputs[0] := node.op.value];
        }
      }
      assert nodes[..|nodes|] == nodes;
      return Success(known);
    }

    method ExplicitLastIndexGathers() returns (r: Result<nat, Refusal>)
      modifies this`nodes, this`initializers
      ensures r.Success? <==> old(Accepts())
      ensures r.Success? ==>
                var done := Rewritten(old(nodes), old(KnownConstants(initializers, nodes)));
                nodes == done.nodes && initializers == old(initializers) + done.constants && r.value == done.count
      ensures r.Success? ==> Complete(old(nodes), old(initializers), nodes, initializers, r.value)
      ensures r == Failure(EmptyConstant) ==> nodes == old(nodes) && initializers == old(initializers)
      ensures r.Failure? && r.error != EmptyConstant ==>
                exists i :: 0 <= i < |old(nodes)| && StopsAt(old(Begin()), i, r.error) && HalfDone(old(Begin()), i, nodes, initializers)
    {
      var constants := Constants();
      if constants.Failure? {
        return Failure(constants.error);
      }
      var known := constants.value;
      var occupied := NodeNames(nodes) + InitializerNames(initializers) + boundary;
      ghost var start := Start(nodes, initializers, occupied, known);
      var rebuilt: seq<Node>, count := [], 0;
      for i := 0 to |nodes|
        invariant After(start, i) == Success(Here(nodes, initializers, occupied, rebuilt, count))
        invariant |nodes| == |start.nodes|
      {
        var node := nodes[i];
        if node.op.Gather? {
          if |node.inputs| < 2 {
            Stopped(start, i, Here(nodes, initializers, occupied, rebuilt, count));
            return Failure(MissingIndex);
          }
          if node.inputs[1] in known && AllLast(known[node.inputs[1]]) && node.op.axis == 0 {
            var names := NamesFor(count);
            if !(NameSet(names) !! occupied) {
              Stopped(start, i, Here(nodes, initializers, occupied, rebuilt, count));
              return Failure(NameCollides);
            }
            occupied := occupied + NameSet(names);
            initializers := initializers + [(names.axis, Scalar(0))];
            rebuilt := rebuilt + IndexNodes(node, names);
            node := node.(inputs := node.inputs[1 := names.index]);
            nodes := nodes[i := node];
            count := count + 1;
          }
        }
        rebuilt := rebuilt + [node];
      }
      Finished(start, Here(nodes, initializers, occupied, rebuilt, count));
      nodes := rebuilt;
      return Success(count);
    }
  }

  datatype Here = Here(nodes: seq<Node>, initializers: seq<(string, Tensor)>, occupied: set<string>, rebuilt: seq<Node>, count: nat)

  function Visit(here: Here, i: nat, known: Constants): Result<Here, Refusal>
    requires i < |here.nodes|
  {
    var node := here.nodes[i];
    if node.op.Gather? && |node.inputs| < 2 then Failure(MissingIndex)
    else if !Rewritable(node, known) then Success(here.(rebuilt := here.rebuilt + [node]))
    else if !(NameSet(NamesFor(here.count)) !! here.occupied) then Failure(NameCollides)
    else Success(Redirect(here, i, NamesFor(here.count)))
  }

  function Redirect(here: Here, i: nat, n: Names): Here
    requires i < |here.nodes| && 2 <= |here.nodes[i].inputs|
  {
    var node := here.nodes[i];
    Here(here.nodes[i := Redirected(node, n.index)], here.initializers + [(n.axis, Scalar(0))], here.occupied + NameSet(n),
         here.rebuilt + IndexNodes(node, n) + [Redirected(node, n.index)], here.count + 1)
  }

  /** The loop over the first nodes. */
  function After(start: Start, i: nat): (r: Result<Here, Refusal>)
    requires i <= |start.nodes|
    ensures r.Success? ==> |r.value.nodes| == |start.nodes|
  {
    if i == 0 then Success(Here(start.nodes, start.initializers, start.occupied, [], 0))
    else
      var here :- After(start, i - 1);
      Visit(here, i - 1, start.known)
  }

  datatype Start = Start(nodes: seq<Node>, initializers: seq<(string, Tensor)>, occupied: set<string>, known: Constants)

  /** Where the loop over the nodes has got to before it visits the i-th. */
  ghost predicate Visited(start: Start, i: nat, here: Here)
    requires i <= |start.nodes|
  {
    var done := Rewritten(start.nodes[..i], start.known);
    && here.nodes == Edited(start.nodes[..i], start.known) + start.nodes[i..]
    && here.initializers == start.initializers + done.constants
    && here.rebuilt == done.nodes && here.count == done.count
    && here.occupied == start.occupied + Temps(done.count) + Axes(done.count).Keys
    && Indexed(start.nodes[..i]) && Free(done.count, start.occupied)
  }

  lemma Unrolled(start: Start, i: nat)
    requires i < |start.nodes|
    ensures var done := Rewritten(start.nodes[..i], start.known);
            Rewritten(start.nodes[..i + 1], start.known) == Advance(done, start.nodes[i], start.known)
    ensures Edited(start.nodes[..i + 1], start.known) ==
            Edited(start.nodes[..i], start.known) +
            [if Rewritable(start.nodes[i], start.known) then
               Redirected(start.nodes[i], NamesFor(Rewritten(start.nodes[..i], start.known).count).index)
             else start.nodes[i]]
    ensures |Edited(start.nodes[..i], start.known)| == i
    ensures Indexed(start.nodes[..i + 1]) <==> Indexed(start.nodes[..i]) && Indexed([start.nodes[i]])
  {
    EditedLength(start.nodes[..i], start.known);
    assert start.nodes[..i + 1] == start.nodes[..i] + [start.nodes[i]] && start.nodes[..i + 1][..i] == start.nodes[..i];
  }

  lemma PlainVisited(start: Start, i: nat, here: Here)
    requires i < |start.nodes| && Visited(start, i, here)
    ensures |here.nodes| == |start.nodes| && here.nodes[i] == start.nodes[i]
    ensures !Rewritable(here.nodes[i], start.known) && Indexed([here.nodes[i]]) ==>
              Visited(start, i + 1, here.(rebuilt := here.rebuilt + [here.nodes[i]]))
    ensures !Indexed([here.nodes[i]]) ==> !Indexed(start.nodes)
  {
    Unrolled(start, i);
    assert start.nodes[i] in start.nodes;
    DropNext(start.nodes, i);
  }

  lemma RewrittenVisited(start: Start, i: nat, here: Here, n: Names)
    requires i < |start.nodes| == |here.nodes| && Visited(start, i, here)
    requires n == NamesFor(here.count) && Rewritable(start.nodes[i], start.known) && here.nodes[i] == start.nodes[i]
    requires NameSet(n) !! here.occupied
    ensures Visited(start, i + 1, Redirect(here, i, n))
  {
    var node := start.nodes[i];
    Unrolled(start, i);
    TakenGrow(here.count, start.occupied, here.occupied);
    NodesRedirected(Edited(start.nodes[..i], start.known), start.nodes, i, Redirected(node, n.index));
    RebuiltNext(here.rebuilt, node, n);
  }

  lemma RebuiltNext(rebuilt: seq<Node>, node: Node, n: Names)
    requires 2 <= |node.inputs|
    ensures rebuilt + IndexNodes(node, n) + [Redirected(node, n.index)] == rebuilt + LastIndexNodes(node, n)
  {
  }

  lemma NodesRedirected(edited: seq<Node>, nodes: seq<Node>, i: nat, node: Node)
    requires i < |nodes| && |edited| == i
    ensures (edited + nodes[i..])[i := node] == edited + [node] + nodes[i + 1..]
  {
  }

  lemma CollidesVisited(start: Start, i: nat, here: Here)
    requires i < |start.nodes| && Visited(start, i, here) && Rewritable(start.nodes[i], start.known)
    requires !(NameSet(NamesFor(here.count)) !! here.occupied)
    ensures !(NameSet(NamesFor(here.count)) !! start.occupied)
  {
    LaterApart(here.count, here.count);
  }

  lemma {:induction false} AfterVisited(start: Start, i: nat)
    requires i <= |start.nodes| && After(start, i).Success?
    ensures Visited(start, i, After(start, i).value)
  {
    if i == 0 {
      assert start.nodes[..0] == [];
    } else {
      AfterVisited(start, i - 1);
      VisitedNext(start, i - 1, After(start, i - 1).value);
    }
  }

  lemma VisitedNext(start: Start, i: nat, here: Here)
    requires i < |start.nodes| && Visited(start, i, here)
    ensures |here.nodes| == |start.nodes|
    ensures match Visit(here, i, start.known)
            case Success(next) => Visited(start, i + 1, next)
            case Failure(e) => StopsAt(start, i, e)
  {
    PlainVisited(start, i, here);
    if Rewritable(here.nodes[i], start.known) {
      if NameSet(NamesFor(here.count)) !! here.occupied {
        RewrittenVisited(start, i, here, NamesFor(here.count));
      } else {
        CollidesVisited(start, i, here);
      }
    }
  }

  lemma Stopped(start: Start, i: nat, here: Here)
    requires i < |start.nodes| && After(start, i) == Success(here) && Visit(here, i, start.known).Failure?
    ensures StopsAt(start, i, Visit(here, i, start.known).error) && HalfDone(start, i, here.nodes, here.initializers)
    ensures !Admitted(start)
  {
    AfterVisited(start, i);
    VisitedNext(start, i, here);
    StopsRefused(start, i, Visit(here, i, start.known).error);
  }

  lemma Finished(start: Start, here: Here)
    requires After(start, |start.nodes|) == Success(here)
    requires start.known == KnownConstants(start.initializers, start.nodes)
    requires NodeNames(start.nodes) + InitializerNames(start.initializers) <= start.occupied
    ensures var done := Rewritten(start.nodes, start.known);
            here.rebuilt == done.nodes && here.initializers == start.initializers + done.constants && here.count == done.count
    ensures Admitted(start) && Complete(start.nodes, start.initializers, here.rebuilt, here.initializers, here.count)
  {
    AfterVisited(start, |start.nodes|);
    assert start.nodes[..|start.nodes|] == start.nodes;
    PassComplete(start.nodes, start.initializers, start.occupied);
  }

  lemma TakenGrow(count: nat, before: set<string>, occupied: set<string>)
    requires occupied == before + Temps(count) + Axes(count).Keys && Free(count, before)
    requires NameSet(NamesFor(count)) !! occupied
    ensures occupied + NameSet(NamesFor(count)) == before + Temps(count + 1) + Axes(count + 1).Keys
    ensures Free(count + 1, before)
  {
  }

  lemma {:induction false} EditedLength(nodes: seq<Node>, known: Constants)
    ensures |Edited(nodes, known)| == |nodes|
    decreases |nodes|
  {
    if nodes != [] {
      EditedLength(nodes[..|nodes| - 1], known);
    }
  }

  ghost predicate Admitted(start: Start) {
    Indexed(start.nodes) && Free(Rewritten(start.nodes, start.known).count, start.occupied)
  }

  /** The i-th node is refused, and for this reason, and none before it is. */
  ghost predicate StopsAt(start: Start, i: nat, e: Refusal)
    requires i < |start.nodes|
  {
    var (node, count) := (start.nodes[i], Rewritten(start.nodes[..i], start.known).count);
    && Indexed(start.nodes[..i]) && Free(count, start.occupied)
    && match e
       case MissingIndex => !Indexed([node])
       case NameCollides => Rewritable(node, start.known) && !(NameSet(NamesFor(count)) !! start.occupied)
       case EmptyConstant => false
  }

  lemma StopsRefused(start: Start, i: nat, e: Refusal)
    requires i < |start.nodes| && StopsAt(start, i, e)
    ensures !(Indexed(start.nodes[..i + 1]) && Free(Rewritten(start.nodes[..i + 1], start.known).count, start.occupied))
    ensures !Admitted(start)
  {
    assert start.nodes[i] in start.nodes;
    Unrolled(start, i);
    if e.NameCollides? {
      NameTaken(start.nodes, i, start.known, start.occupied);
    }
  }

  /** A pass is refused at one node only, for one reason. */
  lemma StopsOnce(start: Start, i: nat, e: Refusal, j: nat, f: Refusal)
    requires i < |start.nodes| && j < |start.nodes| && StopsAt(start, i, e) && StopsAt(start, j, f)
    ensures i == j && e == f
  {
    if i < j {
      StopsBefore(start, i, e, j);
    } else if j < i {
      StopsBefore(start, j, f, i);
    }
  }

  lemma StopsBefore(start: Start, i: nat, e: Refusal, j: nat)
    requires i < j < |start.nodes| && StopsAt(start, i, e)
    ensures !(Indexed(start.nodes[..j]) && Free(Rewritten(start.nodes[..j], start.known).count, start.occupied))
  {
    StopsRefused(start, i, e);
    assert start.nodes[..j][..i + 1] == start.nodes[..i + 1];
    RewrittenGrows(start.nodes[..j], i + 1, start.known);
    assert Indexed(start.nodes[..j]) ==> Indexed(start.nodes[..i + 1]);
  }

  /** What a refused pass leaves: the nodes before the i-th edited, their new constants added, no new node. */
  ghost predicate HalfDone(start: Start, i: nat, nodes: seq<Node>, initializers: seq<(string, Tensor)>)
    requires i <= |start.nodes|
  {
    && nodes == Edited(start.nodes[..i], start.known) + start.nodes[i..]
    && initializers == start.initializers + Rewritten(start.nodes[..i], start.known).constants
  }

  // ----- After a refusal

  lemma {:induction false} EditedOutputs(nodes: seq<Node>, known: Constants)
    ensures OutputsOf(Edited(nodes, known)) == OutputsOf(nodes)
    ensures Rewritten(nodes, known).count != 0 ==>
              exists node :: node in Edited(nodes, known) && NamesFor(0).index in node.inputs
    decreases |nodes|
  {
    if nodes != [] {
      var before, last := nodes[..|nodes| - 1], nodes[|nodes| - 1];
      EditedOutputs(before, known);
      var edited := if Rewritable(last, known) then Redirected(last, NamesFor(Rewritten(before, known).count).index) else last;
      OutputsAppend(Edited(before, known), [edited]);
      OutputsOne(edited);
      assert edited in Edited(nodes, known);
      if Rewritten(before, known).count != 0 {
        var node :| node in Edited(before, known) && NamesFor(0).index in node.inputs;
        assert node in Edited(nodes, known);
      } else if Rewritable(last, known) {
        assert edited.inputs[1] == NamesFor(0).index;
      }
    }
  }

  /** A node reading a name that nothing binds stops every run. */
  lemma {:induction false} UnboundRead(nodes: seq<Node>, env: Env, table: Table, node: Node, x: string)
    requires node in nodes && x in node.inputs && x !in env && x !in OutputsOf(nodes)
    ensures Run(nodes, env, table).None?
  {
    assert x in SetOf(node.inputs);
    if Run(nodes, env, table).Some? {
      RunReads(nodes, env, table, node);
    }
  }

  lemma {:induction false} EditedBinds(nodes: seq<Node>, i: nat, known: Constants)
    requires i <= |nodes|
    ensures OutputsOf(Edited(nodes[..i], known) + nodes[i..]) == OutputsOf(nodes)
  {
    EditedOutputs(nodes[..i], known);
    OutputsAppend(Edited(nodes[..i], known), nodes[i..]);
    OutputsAppend(nodes[..i], nodes[i..]);
    Split(nodes, i);
  }

  /** Some node of the list is rewritten. */
  predicate Touches(nodes: seq<Node>, known: Constants) {
    exists node :: node in nodes && Rewritable(node, known)
  }

  lemma TouchesNext(before: seq<Node>, last: Node, known: Constants)
    ensures Touches(before + [last], known) <==> Touches(before, known) || Rewritable(last, known)
  {
    assert last in before + [last];
    assert forall node :: node in before ==> node in before + [last];
  }

  lemma CountNext(before: seq<Node>, last: Node, known: Constants)
    ensures Rewritten(before + [last], known).count == Rewritten(before, known).count + if Rewritable(last, known) then 1 else 0
    ensures !Rewritable(last, known) ==> Edited(before + [last], known) == Edited(before, known) + [last]
  {
    assert (before + [last])[..|before|] == before;
  }

  lemma {:induction false} TouchedCount(nodes: seq<Node>, known: Constants)
    ensures Rewritten(nodes, known).count == 0 <==> !Touches(nodes, known)
    ensures !Touches(nodes, known) ==> Edited(nodes, known) == nodes
    decreases |nodes|
  {
    if nodes != [] {
      var before, last := nodes[..|nodes| - 1], nodes[|nodes| - 1];
      TouchedCount(before, known);
      assert nodes == before + [last];
      TouchesNext(before, last, known);
      CountNext(before, last, known);
    }
  }

  /** A refused pass leaves the model as it was exactly when no node before the refused one is rewritten. */
  lemma RefusalChanges(start: Start, i: nat, nodes: seq<Node>, initializers: seq<(string, Tensor)>)
    requires i < |start.nodes| && HalfDone(start, i, nodes, initializers)
    ensures nodes == start.nodes && initializers == start.initializers <==> !Touches(start.nodes[..i], start.known)
  {
    AxesBound(start.nodes[..i], start.known);
    TouchedCount(start.nodes[..i], start.known);
    Split(start.nodes, i);
  }

  /**
   After a refusal the graph, with the constants added on the way, evaluates as before when no node
   before the refused one is rewritten, and in no environment at all otherwise.
   */
  lemma RefusedUnusable(start: Start, i: nat, e: Refusal, nodes: seq<Node>, initializers: seq<(string, Tensor)>, env: Env, table: Table)
    requires i < |start.nodes| && StopsAt(start, i, e) && HalfDone(start, i, nodes, initializers)
    requires NodeNames(start.nodes) + env.Keys <= start.occupied
    ensures var added := Bound(Rewritten(start.nodes[..i], start.known).constants);
            Run(nodes, env + added, table) ==
            if Touches(start.nodes[..i], start.known) then None else Run(start.nodes, env, table)
  {
    var before := start.nodes[..i];
    var done := Rewritten(before, start.known);
    AxesBound(before, start.known);
    TouchedCount(before, start.known);
    RefusalChanges(start, i, nodes, initializers);
    if Touches(before, start.known) {
      EditedOutputs(before, start.known);
      EditedBinds(start.nodes, i, start.known);
      OutputsNamed(start.nodes);
      AxesApart(done.count, 0);
      var node :| node in Edited(before, start.known) && NamesFor(0).index in node.inputs;
      UnboundRead(nodes, env + Axes(done.count), table, node, NamesFor(0).index);
    } else {
      assert env + Axes(0) == env;
    }
  }

  /** Two rewritable Gathers, the first of which gives its result a name the second rewriting would generate. */
  function TakenName(): Start {
    var index := Scalar(-1);
    var (first, second) := (Node(Gather(0), ["x", "i"], [NamesFor(1).shape], ""), Node(Gather(0), ["x", "i"], ["y"], ""));
    var (nodes, initializers) := ([first, second], [("i", index)]);
    Start(nodes, initializers, NodeNames(nodes), KnownConstants(initializers, nodes))
  }

  lemma TakenNameStart()
    ensures var start := TakenName();
            start.occupied == {"x", "i", "y", NamesFor(1).shape} && start.known == map["i" := Scalar(-1)]
  {
    var start := TakenName();
    var (first, second) := (start.nodes[0], start.nodes[1]);
    assert start.nodes[..1] == [first] && [first][..0] == [] && start.initializers[..0] == [];
    assert NodeNames([]) == {} && NodeNames([first]) == NamesOf(first);
    assert SetOf(first.inputs) == {"x", "i"} && SetOf(first.outputs) == {NamesFor(1).shape} && SetOf(second.outputs) == {"y"};
    assert Bound(start.initializers[..0]) == map[];
    assert KnownConstants(start.initializers, [first]) == KnownConstants(start.initializers, [first][..0]);
  }

  lemma FreeAtFirst(occupied: set<string>)
    requires occupied == {"x", "i", "y", NamesFor(1).shape}
    ensures Free(1, occupied) && !(NameSet(NamesFor(1)) !! occupied)
  {
    NamesApart(0, 1);
    assert NamesFor(1).shape in NameSet(NamesFor(1));
    assert forall name :: name in NameSet(NamesFor(0)) ==> |name| > 1;
  }

  /** A refusal that does change the model. */
  lemma RefusalLeavesEdit() returns (nodes: seq<Node>, initializers: seq<(string, Tensor)>)
    ensures StopsAt(TakenName(), 1, NameCollides) && HalfDone(TakenName(), 1, nodes, initializers)
    ensures nodes != TakenName().nodes && initializers != TakenName().initializers
  {
    var start := TakenName();
    TakenNameStart();
    FreeAtFirst(start.occupied);
    var first := start.nodes[0];
    assert start.nodes[..1] == [first] && [first][..0] == [];
    assert Rewritable(first, start.known) && Rewritten([], start.known).count == 0;
    assert Rewritten([first], start.known) == Advance(Rewritten([first][..0], start.known), first, start.known);
    nodes := Edited(start.nodes[..1], start.known) + start.nodes[1..];
    initializers := start.initializers + Rewritten(start.nodes[..1], start.known).constants;
    assert Edited([first], start.known) == Edited([], start.known) + [Redirected(first, NamesFor(0).index)];
    assert nodes[0] == Redirected(first, NamesFor(0).index);
    assert |NamesFor(0).index| > 1;
  }
}
