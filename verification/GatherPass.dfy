/**
 The last-index pass: a Gather along axis 0 whose constant indices are all -1 is given the index
 Shape(data)[0] - 1 instead. The rewritten graph evaluates exactly when the original does, and
 then binds every original name to its original value.
 */
module GatherPass {
  import opened Decimals
  import opened Graphs
  import opened Tensors
  import opened Wrappers
  import O = Operators

  // ----- The value of one rewritten Gather

  /** A constant the pass rewrites: int64, at least one index, and every index -1. */
  predicate AllLast(index: Tensor) {
    index.element.Int64? && index.data != [] && forall k :: 0 <= k < |index.data| ==> index.data[k] == -1.0
  }

  /** The first extent of a tensor, as the new nodes read it. */
  function FirstExtent(t: Tensor): Option<Tensor> {
    O.Gather(O.ShapeOf(t), Scalar(0), 0)
  }

  lemma FirstExtentValue(t: Tensor)
    ensures FirstExtent(t) == if t.shape == [] then None else Some(Scalar(t.shape[0]))
  {
    var s, i := O.ShapeOf(t), Scalar(0);
    assert i.data[0].Floor == 0;
    if t.shape != [] {
      var g := FirstExtent(t).value;
      assert g.shape == [];
      assert At(g, []) == O.GatherAt(s, i, 0, []);
      SameTensor(g, Scalar(t.shape[0]));
    }
  }

  lemma ShiftedIndex(index: Tensor, extent: nat)
    requires AllLast(index)
    ensures var sum := O.Elementwise(O.Plus, Scalar(extent), index);
            sum.Some? && sum.value.shape == index.shape && sum.value.element.Int64? &&
            forall k :: 0 <= k < |sum.value.data| ==> sum.value.data[k] == extent as real - 1.0
  {
    var sum := O.Elementwise(O.Plus, Scalar(extent), index).value;
    assert O.Compatible([], index.shape) && O.BroadcastShape([], index.shape) == index.shape;
    forall k | 0 <= k < |sum.data|
      ensures sum.data[k] == extent as real - 1.0
    {
      var at := Unravel(index.shape, k);
      OffsetUnravel(index.shape, k);
      assert At(sum, at) == O.ElementwiseAt(O.Plus, Scalar(extent), index, at);
      assert O.BroadcastIndex([], at) == [];
      ShiftedRead(index, at);
    }
  }

  lemma ShiftedRead(index: Tensor, at: seq<nat>)
    requires AllLast(index) && InBounds(at, index.shape)
    ensures At(index, O.BroadcastIndex(index.shape, at)) == -1.0
  {
    assert O.BroadcastIndex(index.shape, at) == at;
  }

  /** The data gathered at extent - 1 is the data gathered at -1, and neither exists on an empty axis. */
  lemma LastGathered(t: Tensor, index: Tensor, shifted: Tensor)
    requires AllLast(index) && t.shape != []
    requires shifted.shape == index.shape && shifted.element.Int64?
    requires forall k :: 0 <= k < |shifted.data| ==> shifted.data[k] == t.shape[0] as real - 1.0
    ensures O.Gather(t, shifted, 0) == O.Gather(t, index, 0)
    ensures O.Gather(t, index, 0).Some? <==> t.shape[0] != 0
  {
    assert index.data[0].Floor == -1 && shifted.data[0].Floor == t.shape[0] as int - 1;
    if t.shape[0] != 0 {
      var a, b := O.Gather(t, shifted, 0).value, O.Gather(t, index, 0).value;
      forall at | InBounds(at, a.shape)
        ensures At(a, at) == At(b, at)
      {
        assert At(a, at) == O.GatherAt(t, shifted, 0, at) && At(b, at) == O.GatherAt(t, index, 0, at);
        GatheredIndex(index, shifted, at, t.shape[0]);
      }
      SameTensor(a, b);
    }
  }

  lemma GatheredIndex(index: Tensor, shifted: Tensor, at: seq<nat>, extent: nat)
    requires AllLast(index) && shifted.shape == index.shape && |index.shape| <= |at|
    requires InBounds(at[..|index.shape|], index.shape)
    requires forall k :: 0 <= k < |shifted.data| ==> shifted.data[k] == extent as real - 1.0
    ensures At(index, at[..|index.shape|]).Floor == -1 && At(shifted, at[..|index.shape|]).Floor == extent as int - 1
  {
  }

  // ----- The four nodes

  function Prefix(count: nat): string {
    "aii_last_index_" + Decimal(count) + "_"
  }

  datatype Names = Names(shape: string, length: string, axis: string, index: string)

  function NamesFor(count: nat): Names {
    Names(Prefix(count) + "shape", Prefix(count) + "length", Prefix(count) + "axis", Prefix(count) + "index")
  }

  predicate Differ(n: Names) {
    && n.shape != n.length && n.shape != n.axis && n.shape != n.index
    && n.length != n.axis && n.length != n.index && n.axis != n.index
  }

  function NameSet(n: Names): set<string> {
    {n.shape, n.length, n.axis, n.index}
  }

  function Redirected(node: Node, index: string): Node
    requires 2 <= |node.inputs|
  {
    node.(inputs := node.inputs[1 := index])
  }

  function LastIndexNodes(node: Node, n: Names): seq<Node>
    requires 2 <= |node.inputs|
  {
    [Node(Shape, [node.inputs[0]], [n.shape], ""),
     Node(Gather(0), [n.shape, n.axis], [n.length], ""),
     Node(Add, [n.length, node.inputs[1]], [n.index], ""),
     Redirected(node, n.index)]
  }

  /** The shape of the data, its first extent, and the extent added to the index. */
  function IndexNodes(node: Node, n: Names): seq<Node>
    requires 2 <= |node.inputs|
  {
    [Node(Shape, [node.inputs[0]], [n.shape], ""),
     Node(Gather(0), [n.shape, n.axis], [n.length], ""),
     Node(Add, [n.length, node.inputs[1]], [n.index], "")]
  }

  /** The generated names are new, apart from the constant, which is loaded. */
  ghost predicate Ready(node: Node, n: Names, env: Env) {
    && n.shape !in env && n.length !in env && n.index !in env
    && n.axis in env && env[n.axis] == Scalar(0)
    && Differ(n) && SetOf(node.outputs) !! NameSet(n) && SetOf(node.inputs) !! NameSet(n)
  }

  lemma NamesDiffer(count: nat)
    ensures Differ(NamesFor(count))
  {
    var p, n := Prefix(count), NamesFor(count);
    assert n.shape[|p|..] == "shape" && n.length[|p|..] == "length" && n.axis[|p|..] == "axis" && n.index[|p|..] == "index";
  }

  lemma RunFour(a: Node, b: Node, c: Node, d: Node, env: Env, e1: Env, e2: Env, e3: Env, table: Table)
    requires Step(a, env, table) == Some(e1) && Step(b, e1, table) == Some(e2) && Step(c, e2, table) == Some(e3)
    ensures Run([a, b, c, d], env, table) == Step(d, e3, table)
  {
    assert [a, b, c, d][1..] == [b, c, d] && [b, c, d][1..] == [c, d] && [c, d][1..] == [d] && [d][1..] == [];
    assert Run([d], e3, table) == Step(d, e3, table);
    assert Run([c, d], e2, table) == Run([d], e3, table);
    assert Run([b, c, d], e1, table) == Run([c, d], e2, table);
  }

  lemma RunBlocked(a: Node, b: Node, c: Node, d: Node, env: Env, table: Table)
    requires Step(a, env, table).None? ||
             (var e1 := Step(a, env, table).value;
              Step(b, e1, table).None? || Step(c, Step(b, e1, table).value, table).None?)
    ensures Run([a, b, c, d], env, table).None?
  {
    assert [a, b, c, d][1..] == [b, c, d] && [b, c, d][1..] == [c, d];
    if Step(a, env, table).Some? {
      var e1 := Step(a, env, table).value;
      assert Step(b, e1, table).Some? ==> Run([c, d], Step(b, e1, table).value, table).None?;
      assert Run([b, c, d], e1, table).None?;
    }
  }

  /** The shape, length and index nodes, once the data has an axis. */
  lemma Prepared(node: Node, n: Names, env: Env, table: Table) returns (e1: Env, e2: Env, e3: Env)
    requires node.op == Gather(0) && 2 <= |node.inputs| && Ready(node, n, env)
    requires node.inputs[0] in env && node.inputs[1] in env && AllLast(env[node.inputs[1]])
    requires env[node.inputs[0]].shape != []
    ensures var nodes := LastIndexNodes(node, n);
            Step(nodes[0], env, table) == Some(e1) && Step(nodes[1], e1, table) == Some(e2) &&
            Step(nodes[2], e2, table) == Some(e3)
    ensures Extends(env, e3) && e3.Keys == env.Keys + {n.shape, n.length, n.index}
    ensures var (t, i) := (env[node.inputs[0]], env[node.inputs[1]]);
            e3[n.index].shape == i.shape && e3[n.index].element.Int64? &&
            forall k :: 0 <= k < |e3[n.index].data| ==> e3[n.index].data[k] == t.shape[0] as real - 1.0
  {
    var nodes := LastIndexNodes(node, n);
    var (t, i) := (env[node.inputs[0]], env[node.inputs[1]]);
    FirstExtentValue(t);
    ShiftedIndex(i, t.shape[0]);
    var sum := O.Elementwise(O.Plus, Scalar(t.shape[0]), i).value;
    e1 := env[n.shape := O.ShapeOf(t)];
    e2 := e1[n.length := Scalar(t.shape[0])];
    e3 := e2[n.index := sum];
    assert node.inputs[1] in SetOf(node.inputs);
    LookupTwo(node.inputs[0], node.inputs[0], env);
    StepOne(nodes[0], env, table, [t], n.shape, O.ShapeOf(t));
    LookupTwo(n.shape, n.axis, e1);
    StepOne(nodes[1], e1, table, [O.ShapeOf(t), Scalar(0)], n.length, Scalar(t.shape[0]));
    LookupTwo(n.length, node.inputs[1], e2);
    StepOne(nodes[2], e2, table, [Scalar(t.shape[0]), i], n.index, sum);
  }

  lemma RedirectedStep(node: Node, n: Names, env: Env, e3: Env, table: Table)
    requires node.op == Gather(0) && 2 <= |node.inputs| && Ready(node, n, env)
    requires node.inputs[0] in env && node.inputs[1] in env && AllLast(env[node.inputs[1]])
    requires env[node.inputs[0]].shape != []
    requires Extends(env, e3) && e3.Keys == env.Keys + {n.shape, n.length, n.index}
    requires var (t, i) := (env[node.inputs[0]], env[node.inputs[1]]);
             e3[n.index].shape == i.shape && e3[n.index].element.Int64? &&
             forall k :: 0 <= k < |e3[n.index].data| ==> e3[n.index].data[k] == t.shape[0] as real - 1.0
    ensures Step(Redirected(node, n.index), e3, table).Some? <==> Step(node, env, table).Some?
    ensures Step(node, env, table).Some? ==>
              Extends(Step(node, env, table).value, Step(Redirected(node, n.index), e3, table).value)
  {
    if |node.inputs| == 2 {
      var (x, y) := (node.inputs[0], node.inputs[1]);
      assert node.inputs == [x, y] && Redirected(node, n.index).inputs == [x, n.index];
      LookupTwo(x, y, env);
      LookupTwo(x, n.index, e3);
      LastGathered(env[x], env[y], e3[n.index]);
      var value := O.Gather(env[x], env[y], 0);
      if value.Some? {
        BindSame(node.outputs, [value.value], env, e3);
        if Bind(node.outputs, [value.value], env).Some? {
          BindKeys(node.outputs, [value.value], env);
          BindWider(node.outputs, [value.value], env, e3);
        }
      }
    } else {
      GatherArity(node, env, table);
      GatherArity(Redirected(node, n.index), e3, table);
    }
  }

  lemma GatherArity(node: Node, env: Env, table: Table)
    requires node.op.Gather? && |node.inputs| != 2
    ensures Step(node, env, table).None?
  {
    LookupLength(node.inputs, env);
  }

  /** The four nodes run exactly when the one they replace does, and bind its results to its values. */
  lemma LastIndexEquivalent(node: Node, n: Names, env: Env, table: Table)
    requires node.op == Gather(0) && 2 <= |node.inputs| && Ready(node, n, env)
    requires node.inputs[1] in env ==> AllLast(env[node.inputs[1]])
    ensures Run(LastIndexNodes(node, n), env, table).Some? <==> Step(node, env, table).Some?
    ensures Step(node, env, table).Some? ==>
              Extends(Step(node, env, table).value, Run(LastIndexNodes(node, n), env, table).value) &&
              Run(LastIndexNodes(node, n), env, table).value.Keys ==
              Step(node, env, table).value.Keys + {n.shape, n.length, n.index}
  {
    var nodes := LastIndexNodes(node, n);
    LookupLength(node.inputs, env);
    assert node.inputs[0] in SetOf(node.inputs) && node.inputs[1] in SetOf(node.inputs);
    if node.inputs[0] in env && node.inputs[1] in env && env[node.inputs[0]].shape != [] {
      var e1, e2, e3 := Prepared(node, n, env, table);
      RunFour(nodes[0], nodes[1], nodes[2], nodes[3], env, e1, e2, e3, table);
      RedirectedStep(node, n, env, e3, table);
      if Step(node, env, table).Some? {
        StepExtends(node, env, table);
        StepExtends(nodes[3], e3, table);
      }
    } else {
      LastIndexBlocked(node, n, env, table);
    }
  }

  lemma LastIndexBlocked(node: Node, n: Names, env: Env, table: Table)
    requires node.op == Gather(0) && 2 <= |node.inputs| && Ready(node, n, env)
    requires !(node.inputs[0] in env && node.inputs[1] in env) || env[node.inputs[0]].shape == []
    ensures Run(LastIndexNodes(node, n), env, table).None? && Step(node, env, table).None?
  {
    var nodes := LastIndexNodes(node, n);
    var (x, y) := (node.inputs[0], node.inputs[1]);
    LookupLength(node.inputs, env);
    assert x in SetOf(node.inputs) && y in SetOf(node.inputs);
    if x !in env {
      MissingOperand(nodes[0], x, env, table);
    } else {
      var e1 := env[n.shape := O.ShapeOf(env[x])];
      LookupTwo(x, x, env);
      StepOne(nodes[0], env, table, [env[x]], n.shape, O.ShapeOf(env[x]));
      LookupTwo(n.shape, n.axis, e1);
      FirstExtentValue(env[x]);
      if env[x].shape == [] {
        ScalarData(node, x, y, env, table);
      } else {
        var length := Scalar(env[x].shape[0]);
        StepOne(nodes[1], e1, table, [O.ShapeOf(env[x]), Scalar(0)], n.length, length);
        MissingOperand(nodes[2], y, e1[n.length := length], table);
      }
    }
    RunBlocked(nodes[0], nodes[1], nodes[2], nodes[3], env, table);
  }

  lemma MissingOperand(node: Node, x: string, env: Env, table: Table)
    requires x in node.inputs && x !in env
    ensures Step(node, env, table).None?
  {
    LookupLength(node.inputs, env);
    assert x in SetOf(node.inputs);
  }

  lemma ScalarData(node: Node, x: string, y: string, env: Env, table: Table)
    requires node.op == Gather(0) && 2 <= |node.inputs| && node.inputs[0] == x && node.inputs[1] == y
    requires x in env && env[x].shape == []
    ensures Step(node, env, table).None?
  {
    if |node.inputs| == 2 {
      if y in env {
        assert node.inputs == [x, y];
        LookupTwo(x, y, env);
      } else {
        MissingOperand(node, y, env, table);
      }
    } else {
      GatherArity(node, env, table);
    }
  }

  // ----- The constants the pass looks up

  type Constants = map<string, Tensor>

  function InitializerConstants(initializers: seq<(string, Tensor)>): Constants {
    Bound(initializers)
  }

  /** Initializers by name, then every Constant node by its result. */
  function KnownConstants(initializers: seq<(string, Tensor)>, nodes: seq<Node>): Constants {
    if nodes == [] then InitializerConstants(initializers)
    else
      var known, node := KnownConstants(initializers, nodes[..|nodes| - 1]), nodes[|nodes| - 1];
      if node.op.Constant? && node.outputs != [] then known[node.outputs[0] := node.op.value] else known
  }

  // ----- The specification

  datatype Progress = Progress(nodes: seq<Node>, constants: seq<(string, Tensor)>, count: nat)

  /** A Gather along axis 0 whose index operand is a known constant of -1s. */
  predicate Rewritable(node: Node, known: Constants) {
    node.op == Gather(0) && 2 <= |node.inputs| && node.inputs[1] in known && AllLast(known[node.inputs[1]])
  }

  function Advance(done: Progress, node: Node, known: Constants): Progress {
    if Rewritable(node, known) then
      Progress(done.nodes + LastIndexNodes(node, NamesFor(done.count)),
               done.constants + [(NamesFor(done.count).axis, Scalar(0))], done.count + 1)
    else done.(nodes := done.nodes + [node])
  }

  function Rewritten(nodes: seq<Node>, known: Constants): Progress {
    if nodes == [] then Progress([], [], 0)
    else Advance(Rewritten(nodes[..|nodes| - 1], known), nodes[|nodes| - 1], known)
  }

  /** The nodes as the pass has edited them in place, before it swaps the list. */
  function Edited(nodes: seq<Node>, known: Constants): seq<Node> {
    if nodes == [] then []
    else
      var before, node := nodes[..|nodes| - 1], nodes[|nodes| - 1];
      Edited(before, known) +
      [if Rewritable(node, known) then Redirected(node, NamesFor(Rewritten(before, known).count).index) else node]
  }

  /** None of the names of the first rewritings is taken. */
  ghost predicate Free(count: nat, occupied: set<string>) {
    forall c :: 0 <= c < count ==> NameSet(NamesFor(c)) !! occupied
  }

  lemma RoleApart(c: nat, d: nat, r: string, s: string)
    requires c != d
    ensures Prefix(c) + r != Prefix(d) + s
  {
    if Prefix(c) + r == Prefix(d) + s {
      assert Prefix(c) + r == "aii_last_index_" + Decimal(c) + ("_" + r);
      assert Prefix(d) + s == "aii_last_index_" + Decimal(d) + ("_" + s);
      FirstField(Decimal(c), "_" + r, Decimal(d), "_" + s, "aii_last_index_");
      DecimalInjective(c, d);
    }
  }

  function RoleNames(count: nat): (names: seq<string>)
    ensures |names| == 4
  {
    [Prefix(count) + "shape", Prefix(count) + "length", Prefix(count) + "axis", Prefix(count) + "index"]
  }

  lemma NamesApart(c: nat, d: nat)
    requires c != d
    ensures NameSet(NamesFor(c)) !! NameSet(NamesFor(d))
  {
    var p, q := RoleNames(c), RoleNames(d);
    forall i, j | 0 <= i < 4 && 0 <= j < 4
      ensures p[i] != q[j]
    {
      RoleApart(c, d, p[i][|Prefix(c)|..], q[j][|Prefix(d)|..]);
      assert p[i] == Prefix(c) + p[i][|Prefix(c)|..] && q[j] == Prefix(d) + q[j][|Prefix(d)|..];
    }
    assert forall x :: x in NameSet(NamesFor(c)) ==> x in p;
    assert forall y :: y in NameSet(NamesFor(d)) ==> y in q;
  }

  /** Digits up to the first underscore can be read off. */
  lemma FirstField(a: string, r: string, b: string, s: string, p: string)
    requires a != "" && b != "" && (forall k :: 0 <= k < |a| ==> IsDigit(a[k])) && (forall k :: 0 <= k < |b| ==> IsDigit(b[k]))
    requires r != "" && s != "" && r[0] == '_' && s[0] == '_'
    requires p + a + r == p + b + s
    ensures a == b
  {
    var x, y := p + a + r, p + b + s;
    assert x[|p| + |a|] == '_' && y[|p| + |b|] == '_';
    assert forall k :: |p| <= k < |p| + |a| ==> IsDigit(x[k]);
    assert forall k :: |p| <= k < |p| + |b| ==> IsDigit(y[k]);
    assert |a| == |b|;
    assert a == x[|p|..|p| + |a|] && b == y[|p|..|p| + |b|];
  }

  // ----- Known constants and the environment

  /** Every name is bound once: by the given bindings or by one node. */
  ghost predicate SingleAssignment(nodes: seq<Node>, given: set<string>) {
    nodes == [] ||
    (SingleAssignment(nodes[..|nodes| - 1], given) &&
     SetOf(nodes[|nodes| - 1].outputs) !! given + OutputsOf(nodes[..|nodes| - 1]))
  }

  /** The known constants say what the nodes that bind them say. */
  ghost predicate Agrees(nodes: seq<Node>, known: Constants) {
    forall node :: node in nodes ==>
      if node.op.Constant? && |node.outputs| == 1 then node.outputs[0] in known && known[node.outputs[0]] == node.op.value
      else node.op.Constant? || SetOf(node.outputs) !! known.Keys
  }

  ghost predicate Trusted(known: Constants, env: Env) {
    forall x :: x in known && x in env ==> env[x] == known[x]
  }

  lemma {:induction false} KnownKeys(initializers: seq<(string, Tensor)>, nodes: seq<Node>)
    ensures KnownConstants(initializers, nodes).Keys <= InitializerConstants(initializers).Keys + OutputsOf(nodes)
    decreases |nodes|
  {
    if nodes != [] {
      KnownKeys(initializers, nodes[..|nodes| - 1]);
      var node := nodes[|nodes| - 1];
      if node.outputs != [] {
        assert node.outputs[0] in SetOf(node.outputs);
      }
    }
  }

  lemma {:induction false} KnownAgrees(initializers: seq<(string, Tensor)>, nodes: seq<Node>, given: set<string>)
    requires SingleAssignment(nodes, given) && InitializerConstants(initializers).Keys <= given
    ensures Agrees(nodes, KnownConstants(initializers, nodes))
    ensures forall x :: x in given && x in KnownConstants(initializers, nodes) ==>
              x in InitializerConstants(initializers) && KnownConstants(initializers, nodes)[x] == InitializerConstants(initializers)[x]
    decreases |nodes|
  {
    if nodes != [] {
      var before, last := nodes[..|nodes| - 1], nodes[|nodes| - 1];
      KnownAgrees(initializers, before, given);
      KnownKeys(initializers, before);
      var known := KnownConstants(initializers, nodes);
      if last.outputs != [] {
        assert last.outputs[0] in SetOf(last.outputs);
      }
      forall node | node in nodes
        ensures if node.op.Constant? && |node.outputs| == 1 then node.outputs[0] in known && known[node.outputs[0]] == node.op.value
                else node.op.Constant? || SetOf(node.outputs) !! known.Keys
      {
        if node in before {
          OutputsMember(before, node);
          if |node.outputs| == 1 {
            assert node.outputs[0] in SetOf(node.outputs);
          }
        } else {
          assert node == last;
        }
      }
    }
  }

  lemma {:induction false} OutputsMember(nodes: seq<Node>, node: Node)
    requires node in nodes
    ensures SetOf(node.outputs) <= OutputsOf(nodes)
    decreases |nodes|
  {
    var before := nodes[..|nodes| - 1];
    if node in before {
      OutputsMember(before, node);
    } else {
      assert node == nodes[|nodes| - 1];
    }
  }

  lemma {:induction false} TrustedRun(nodes: seq<Node>, known: Constants, env: Env, table: Table)
    requires Agrees(nodes, known) && Trusted(known, env) && Run(nodes, env, table).Some?
    ensures Trusted(known, Run(nodes, env, table).value)
  {
    if nodes != [] {
      var node := nodes[0];
      assert node in nodes;
      var next := Step(node, env, table).value;
      TrustedStep(node, known, env, table);
      assert forall n :: n in nodes[1..] ==> n in nodes;
      TrustedRun(nodes[1..], known, next, table);
    }
  }

  lemma TrustedStep(node: Node, known: Constants, env: Env, table: Table)
    requires Agrees([node], known) && Trusted(known, env) && Step(node, env, table).Some?
    ensures Trusted(known, Step(node, env, table).value)
  {
    assert node in [node];
    var next := Step(node, env, table).value;
    StepExtends(node, env, table);
    if node.op.Constant? {
      ConstantStep(node, env, table);
    }
  }

  lemma ConstantStep(node: Node, env: Env, table: Table)
    requires node.op.Constant? && Step(node, env, table).Some?
    ensures |node.outputs| == 1 && Step(node, env, table).value == env[node.outputs[0] := node.op.value]
  {
    assert [node.op.value][1..] == [];
    if |node.outputs| == 1 {
      assert node.outputs[1..] == [];
      assert Bind([], [], env[node.outputs[0] := node.op.value]) == Some(env[node.outputs[0] := node.op.value]);
    }
  }

  // ----- The meaning of the rewritten graph

  /** The names the first rewritings bind. */
  function Temps(count: nat): set<string> {
    if count == 0 then {}
    else
      var n := NamesFor(count - 1);
      Temps(count - 1) + {n.shape, n.length, n.index}
  }

  function Axes(count: nat): Env {
    if count == 0 then map[] else Axes(count - 1)[NamesFor(count - 1).axis := Scalar(0)]
  }

  lemma {:induction false} AxesKeys(count: nat, c: nat)
    requires c < count
    ensures NamesFor(c).axis in Axes(count) && Axes(count)[NamesFor(c).axis] == Scalar(0)
  {
    if c != count - 1 {
      AxesKeys(count - 1, c);
    }
  }

  /** Generated names are fresh for the graph, and those of different rewritings are different. */
  lemma {:induction false} GeneratedFree(count: nat, occupied: set<string>)
    requires Free(count, occupied)
    ensures Temps(count) !! occupied && Axes(count).Keys !! occupied
  {
    if count != 0 {
      GeneratedFree(count - 1, occupied);
      assert NameSet(NamesFor(count - 1)) !! occupied;
    }
  }

  lemma {:induction false} LaterApart(count: nat, c: nat)
    requires count <= c
    ensures NameSet(NamesFor(c)) !! Temps(count) && NameSet(NamesFor(c)) !! Axes(count).Keys
  {
    if count != 0 {
      LaterApart(count - 1, c);
      NamesApart(count - 1, c);
    }
  }

  lemma {:induction false} AxesApart(total: nat, c: nat)
    requires c < total
    ensures var n := NamesFor(c); {n.shape, n.length, n.index} !! Axes(total).Keys
  {
    NamesDiffer(c);
    if total - 1 == c {
      LaterApart(c, c);
    } else {
      AxesApart(total - 1, c);
      NamesApart(c, total - 1);
    }
  }

  /** Two evaluations succeed together, the second with the first's bindings and some further ones. */
  ghost predicate Paired(mid: Option<Env>, wide: Option<Env>, further: set<string>) {
    && (wide.Some? <==> mid.Some?)
    && (mid.Some? ==> Extends(mid.value, wide.value) && wide.value.Keys == mid.value.Keys + further)
  }

  function AndThen(env: Option<Env>, nodes: seq<Node>, table: Table): Option<Env> {
    if env.Some? then Run(nodes, env.value, table) else None
  }

  lemma PairedKept(node: Node, mid: Option<Env>, wide: Option<Env>, further: set<string>, table: Table)
    requires Paired(mid, wide, further) && NamesOf(node) !! further
    ensures Paired(AndThen(mid, [node], table), AndThen(wide, [node], table), further)
  {
    if mid.Some? {
      RunOne(node, mid.value, table);
      RunOne(node, wide.value, table);
      StepSame(node, mid.value, wide.value, table);
      if Step(node, mid.value, table).Some? {
        StepExtends(node, mid.value, table);
      }
    }
  }

  /** Where the rewritten nodes have got to, the four nodes can be run. */
  lemma RedirectedReady(n: Names, node: Node, known: Constants, mid: Env, wide: Env, generated: set<string>)
    requires Rewritable(node, known) && Trusted(known, mid) && Extends(mid, wide)
    requires wide.Keys <= mid.Keys + generated && NamesOf(node) !! generated && NameSet(n) <= generated && Differ(n)
    requires n.shape !in wide && n.length !in wide && n.index !in wide && n.axis in wide && wide[n.axis] == Scalar(0)
    ensures Ready(node, n, wide) && (node.inputs[1] in wide ==> AllLast(wide[node.inputs[1]]))
  {
    assert node.inputs[1] in SetOf(node.inputs);
    assert node.inputs[1] in NamesOf(node);
  }

  lemma RedirectedStepSame(n: Names, node: Node, known: Constants, mid: Env, wide: Env, generated: set<string>, table: Table)
    requires Rewritable(node, known) && Trusted(known, mid) && Extends(mid, wide)
    requires wide.Keys <= mid.Keys + generated && NamesOf(node) !! generated && NameSet(n) <= generated && Differ(n)
    requires n.shape !in wide && n.length !in wide && n.index !in wide && n.axis in wide && wide[n.axis] == Scalar(0)
    ensures Run(LastIndexNodes(node, n), wide, table).Some? <==> Step(node, mid, table).Some?
    ensures Step(node, mid, table).Some? ==>
              Extends(Step(node, mid, table).value, Run(LastIndexNodes(node, n), wide, table).value) &&
              Run(LastIndexNodes(node, n), wide, table).value.Keys == wide.Keys + SetOf(node.outputs) + {n.shape, n.length, n.index}
  {
    RedirectedReady(n, node, known, mid, wide, generated);
    StepSame(node, mid, wide, table);
    LastIndexEquivalent(node, n, wide, table);
  }

  lemma PairedRedirected(n: Names, node: Node, known: Constants, mid: Option<Env>, wide: Option<Env>, further: set<string>,
                         generated: set<string>, table: Table)
    requires Paired(mid, wide, further) && further <= generated && NamesOf(node) !! generated
    requires Rewritable(node, known) && NameSet(n) <= generated && Differ(n)
    requires mid.Some? ==>
               Trusted(known, mid.value) && {n.shape, n.length, n.index} !! wide.value.Keys &&
               n.axis in wide.value && wide.value[n.axis] == Scalar(0)
    ensures Paired(AndThen(mid, [node], table), AndThen(wide, LastIndexNodes(node, n), table), further + {n.shape, n.length, n.index})
  {
    if mid.Some? {
      RunOne(node, mid.value, table);
      RedirectedStepSame(n, node, known, mid.value, wide.value, generated, table);
      if Step(node, mid.value, table).Some? {
        StepExtends(node, mid.value, table);
      }
    }
  }

  /** The graph after a rewriting evaluates together with the original. */
  ghost predicate SameRun(done: Progress, nodes: seq<Node>, env: Env, low: Env, table: Table) {
    Paired(Run(nodes, env, table), Run(done.nodes, low, table), (low.Keys - env.Keys) + Temps(done.count))
  }

  /** Everything the induction over the nodes carries along. */
  ghost predicate Setting(nodes: seq<Node>, known: Constants, total: nat, env: Env, low: Env, generated: set<string>) {
    && Agrees(nodes, known) && Trusted(known, env) && Extends(env, low)
    && low.Keys == env.Keys + Axes(total).Keys && Extends(Axes(total), low)
    && env.Keys !! generated && NodeNames(nodes) !! generated
    && (forall c :: 0 <= c < total ==> NameSet(NamesFor(c)) <= generated) && Temps(total) + Axes(total).Keys <= generated
  }

  lemma {:induction false} TempsGrow(count: nat, total: nat)
    requires count <= total
    ensures Temps(count) <= Temps(total)
  {
    if count != total {
      TempsGrow(count, total - 1);
    }
  }

  lemma SettingBefore(nodes: seq<Node>, known: Constants, total: nat, env: Env, low: Env, generated: set<string>)
    requires nodes != [] && Setting(nodes, known, total, env, low, generated)
    ensures Setting(nodes[..|nodes| - 1], known, total, env, low, generated)
    ensures NamesOf(nodes[|nodes| - 1]) !! generated
  {
    var before := nodes[..|nodes| - 1];
    assert forall n :: n in before ==> n in nodes;
  }

  lemma AdvanceSame(done: Progress, node: Node, known: Constants, mid: Option<Env>, low: Env, base: set<string>,
                    generated: set<string>, table: Table)
    requires Paired(mid, Run(done.nodes, low, table), base + Temps(done.count))
    requires base + Temps(done.count) <= generated && NamesOf(node) !! generated
    requires Rewritable(node, known) ==> NameSet(NamesFor(done.count)) <= generated
    requires Rewritable(node, known) && mid.Some? ==> Reached(NamesFor(done.count), known, mid.value, Run(done.nodes, low, table).value)
    ensures var after := Advance(done, node, known);
            Paired(AndThen(mid, [node], table), Run(after.nodes, low, table), base + Temps(after.count))
  {
    var wide, further := Run(done.nodes, low, table), base + Temps(done.count);
    if Rewritable(node, known) {
      var n := NamesFor(done.count);
      NamesDiffer(done.count);
      PairedRedirected(n, node, known, mid, wide, further, generated, table);
      RunAppend(done.nodes, LastIndexNodes(node, n), low, table);
      assert base + Temps(done.count + 1) == further + {n.shape, n.length, n.index};
    } else {
      PairedKept(node, mid, wide, further, table);
      RunAppend(done.nodes, [node], low, table);
    }
  }

  ghost predicate Reached(n: Names, known: Constants, mid: Env, wide: Env) {
    && Trusted(known, mid) && {n.shape, n.length, n.index} !! wide.Keys
    && n.axis in wide && wide[n.axis] == Scalar(0)
  }

  lemma ReachedClear(before: seq<Node>, known: Constants, total: nat, env: Env, low: Env, table: Table, generated: set<string>)
    requires Setting(before, known, total, env, low, generated)
    requires var done := Rewritten(before, known); done.count < total && SameRun(done, before, env, low, table)
    requires Run(before, env, table).Some?
    ensures var done := Rewritten(before, known);
            Reached(NamesFor(done.count), known, Run(before, env, table).value, Run(done.nodes, low, table).value)
  {
    var done := Rewritten(before, known);
    var n, wide := NamesFor(done.count), Run(done.nodes, low, table).value;
    TrustedRun(before, known, env, table);
    RunKeys(before, env, table);
    RunExtends(done.nodes, low, table);
    OutputsNamed(before);
    AxesKeys(total, done.count);
    AxesApart(total, done.count);
    LaterApart(done.count, done.count);
    assert NameSet(n) <= generated;
    ReachedApart(n, done.count, total, env, low, OutputsOf(before), wide, generated);
  }

  lemma ReachedApart(n: Names, count: nat, total: nat, env: Env, low: Env, outputs: set<string>, wide: Env, generated: set<string>)
    requires wide.Keys == env.Keys + outputs + ((low.Keys - env.Keys) + Temps(count)) && Extends(low, wide)
    requires low.Keys == env.Keys + Axes(total).Keys && Extends(Axes(total), low)
    requires (env.Keys + outputs) !! generated && NameSet(n) <= generated
    requires n.axis in Axes(total) && Axes(total)[n.axis] == Scalar(0)
    requires {n.shape, n.length, n.index} !! Axes(total).Keys && NameSet(n) !! Temps(count)
    ensures {n.shape, n.length, n.index} !! wide.Keys && n.axis in wide && wide[n.axis] == Scalar(0)
  {
  }

  /** The rewritten nodes run exactly when the nodes do, and then bind the same values and the temporaries. */
  lemma {:induction false} RewritingSame(nodes: seq<Node>, known: Constants, total: nat, env: Env, low: Env, table: Table,
                                         generated: set<string>)
    requires Setting(nodes, known, total, env, low, generated) && Rewritten(nodes, known).count <= total
    ensures SameRun(Rewritten(nodes, known), nodes, env, low, table)
    decreases |nodes|
  {
    if nodes != [] {
      var before, node := nodes[..|nodes| - 1], nodes[|nodes| - 1];
      assert nodes == before + [node];
      var done := Rewritten(before, known);
      SettingBefore(nodes, known, total, env, low, generated);
      RewritingSame(before, known, total, env, low, table, generated);
      if Rewritable(node, known) && Run(before, env, table).Some? {
        ReachedClear(before, known, total, env, low, table, generated);
      }
      RunAppend(before, [node], env, table);
      TempsGrow(done.count, total);
      AdvanceSame(done, node, known, Run(before, env, table), low, low.Keys - env.Keys, generated, table);
    }
  }

  lemma {:induction false} AxesBound(nodes: seq<Node>, known: Constants)
    ensures var done := Rewritten(nodes, known);
            Bound(done.constants) == Axes(done.count) && |done.constants| == done.count
    decreases |nodes|
  {
    if nodes != [] {
      AxesBound(nodes[..|nodes| - 1], known);
      var done := Rewritten(nodes, known);
      if done.constants != [] {
        assert Rewritable(nodes[|nodes| - 1], known) ==>
            done.constants[..|done.constants| - 1] == Rewritten(nodes[..|nodes| - 1], known).constants;
      }
    }
  }

  lemma {:induction false} GeneratedNames(total: nat, c: nat)
    requires c < total
    ensures NameSet(NamesFor(c)) <= Temps(total) + Axes(total).Keys
  {
    if c != total - 1 {
      GeneratedNames(total - 1, c);
    }
  }

  /** Every index the pass takes for -1s, if the environment binds it, is -1s. */
  ghost predicate LastIn(nodes: seq<Node>, known: Constants, env: Env) {
    forall node :: node in nodes && Rewritable(node, known) && node.inputs[1] in env ==> AllLast(env[node.inputs[1]])
  }

  /** The constants as the environment has them; the others it binds are dropped. */
  function Held(known: Constants, env: Env): Constants {
    map x | x in known && (x in env ==> AllLast(known[x])) :: if x in env then env[x] else known[x]
  }

  lemma {:induction false} RewrittenAlike(nodes: seq<Node>, known: Constants, held: Constants)
    requires forall node :: node in nodes ==> (Rewritable(node, known) <==> Rewritable(node, held))
    ensures Rewritten(nodes, known) == Rewritten(nodes, held)
    decreases |nodes|
  {
    if nodes != [] {
      var before, last := nodes[..|nodes| - 1], nodes[|nodes| - 1];
      assert forall node :: node in before ==> node in nodes;
      assert last in nodes;
      RewrittenAlike(before, known, held);
    }
  }

  lemma HeldAlike(nodes: seq<Node>, known: Constants, env: Env)
    requires LastIn(nodes, known, env)
    ensures Rewritten(nodes, known) == Rewritten(nodes, Held(known, env))
  {
    var held := Held(known, env);
    forall node | node in nodes
      ensures Rewritable(node, known) <==> Rewritable(node, held)
    {
    }
    RewrittenAlike(nodes, known, held);
  }

  lemma HeldAgrees(nodes: seq<Node>, known: Constants, env: Env)
    requires Agrees(nodes, known) && SingleAssignment(nodes, env.Keys)
    ensures Agrees(nodes, Held(known, env))
  {
    var held := Held(known, env);
    forall node | node in nodes
      ensures if node.op.Constant? && |node.outputs| == 1 then node.outputs[0] in held && held[node.outputs[0]] == node.op.value
              else node.op.Constant? || SetOf(node.outputs) !! held.Keys
    {
      OutputsNew(nodes, env.Keys, node);
      if |node.outputs| == 1 {
        assert node.outputs[0] in SetOf(node.outputs);
      }
    }
  }

  lemma {:induction false} OutputsNew(nodes: seq<Node>, given: set<string>, node: Node)
    requires SingleAssignment(nodes, given) && node in nodes
    ensures SetOf(node.outputs) !! given
    decreases |nodes|
  {
    var before := nodes[..|nodes| - 1];
    if node in before {
      OutputsNew(before, given, node);
    } else {
      assert node == nodes[|nodes| - 1];
    }
  }

  lemma AllSet(nodes: seq<Node>, known: Constants, env: Env, occupied: set<string>)
    requires Agrees(nodes, known) && Trusted(known, env)
    requires NodeNames(nodes) + env.Keys <= occupied
    requires Free(Rewritten(nodes, known).count, occupied)
    ensures var total := Rewritten(nodes, known).count;
            Setting(nodes, known, total, env, env + Axes(total), Temps(total) + Axes(total).Keys)
  {
    var total := Rewritten(nodes, known).count;
    GeneratedFree(total, occupied);
    forall c | 0 <= c < total
      ensures NameSet(NamesFor(c)) <= Temps(total) + Axes(total).Keys
    {
      GeneratedNames(total, c);
    }
  }

  /**
   In a graph that binds every name once, with the generated names free and -1s at every index the
   pass takes for -1s (an input may override the initializer), the rewritten nodes evaluate exactly
   when the original ones do, and then every original name keeps its value.
   */
  lemma GatherPassPreserves(nodes: seq<Node>, initializers: seq<(string, Tensor)>, env: Env, occupied: set<string>, table: Table)
    requires SingleAssignment(nodes, env.Keys) && Bound(initializers).Keys <= env.Keys
    requires LastIn(nodes, KnownConstants(initializers, nodes), env)
    requires NodeNames(nodes) + env.Keys <= occupied
    requires Free(Rewritten(nodes, KnownConstants(initializers, nodes)).count, occupied)
    ensures var after := Rewritten(nodes, KnownConstants(initializers, nodes));
            var kept := Run(nodes, env, table);
            var result := Run(after.nodes, env + Bound(after.constants), table);
            (result.Some? <==> kept.Some?) && (kept.Some? ==> Extends(kept.value, result.value))
  {
    var known := KnownConstants(initializers, nodes);
    var after, held := Rewritten(nodes, known), Held(known, env);
    KnownAgrees(initializers, nodes, env.Keys);
    HeldAgrees(nodes, known, env);
    HeldAlike(nodes, known, env);
    AllSet(nodes, held, env, occupied);
    AxesBound(nodes, known);
    RewritingSame(nodes, held, after.count, env, env + Axes(after.count), table, Temps(after.count) + Axes(after.count).Keys);
  }

  /** Initializers that keep their values are such an environment. */
  lemma DefaultsLast(nodes: seq<Node>, initializers: seq<(string, Tensor)>, env: Env)
    requires SingleAssignment(nodes, env.Keys) && Extends(Bound(initializers), env)
    ensures LastIn(nodes, KnownConstants(initializers, nodes), env)
  {
    KnownAgrees(initializers, nodes, env.Keys);
  }

  /** The names of the initializers. */
  function InitializerNames(initializers: seq<(string, Tensor)>): set<string> {
    SetOf(ConstantNames(initializers))
  }
}
