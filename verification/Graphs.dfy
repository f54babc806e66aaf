/**
 Computation graphs in the single-assignment form of the "Graphs" section of the ONNX IR
 specification: a list of nodes in evaluation order, each reading names already bound and
 binding names not bound before. Operators this model does not spell out take their meaning
 from an arbitrary table, so every statement about a graph holds for all of them.
 */
module Graphs {
  import opened Tensors
  import opened Wrappers
  import E = Einsum
  import O = Operators

  /** An operator with its attributes; Other is any operator the passes never create. */
  datatype Op =
    | Einsum(equations: seq<string>)
    | MatMul
    | Mul
    | Add
    | Unsqueeze
    | Transpose(perm: seq<nat>)
    | Reshape
    | Shape
    | Gather(axis: int)
    | Concat(axis: int)
    | Constant(value: Tensor)
    | Other(kind: string)

  datatype Node = Node(op: Op, inputs: seq<string>, outputs: seq<string>, tag: string)

  /** Meaning of the cases not spelled out: any partial function. */
  type Table = imap<(Op, seq<Tensor>), seq<Tensor>>

  type Env = map<string, Tensor>

  /** An equation attribute without its spaces. */
  function Strip(s: string): string {
    if s == "" then "" else (if s[0] == ' ' then "" else [s[0]]) + Strip(s[1..])
  }

  lemma {:induction false} StripUnspaced(s: string)
    requires ' ' !in s
    ensures Strip(s) == s
  {
    if s != "" {
      StripUnspaced(s[1..]);
      assert s == [s[0]] + s[1..];
    }
  }

  function One(t: Option<Tensor>): Option<seq<Tensor>> {
    if t.Some? then Some([t.value]) else None
  }

  function Consult(table: Table, op: Op, ins: seq<Tensor>): Option<seq<Tensor>> {
    if (op, ins) in table then Some(table[(op, ins)]) else None
  }

  function Evaluate(op: Op, ins: seq<Tensor>, table: Table): Option<seq<Tensor>> {
    match op
    case Einsum(equations) =>
      if |equations| == 1 && |ins| == 2 then One(E.Contract(Strip(equations[0]), ins[0], ins[1]))
      else Consult(table, op, ins)
    case MatMul => if |ins| == 2 then One(O.MatMul(ins[0], ins[1])) else None
    case Mul => if |ins| == 2 then One(O.Elementwise(O.Multiply, ins[0], ins[1])) else None
    case Add => if |ins| == 2 then One(O.Elementwise(O.Plus, ins[0], ins[1])) else None
    case Unsqueeze =>
      if |ins| == 2 && ins[1].element.Int64? && |ins[1].shape| == 1 && |ins[1].data| == 1 then
        One(O.Unsqueeze(ins[0], O.Integers(ins[1])[0]))
      else Consult(table, op, ins)
    case Transpose(perm) => if |ins| == 1 then One(O.Transpose(ins[0], perm)) else None
    case Reshape => if |ins| == 2 then One(O.Reshape(ins[0], ins[1])) else None
    case Shape => if |ins| == 1 then Some([O.ShapeOf(ins[0])]) else None
    case Gather(axis) => if |ins| == 2 then One(O.Gather(ins[0], ins[1], axis)) else None
    case Concat(axis) =>
      if axis == 0 && O.ConcatVectors(ins).Some? then One(O.ConcatVectors(ins)) else Consult(table, op, ins)
    case Constant(value) => if ins == [] then Some([value]) else None
    case Other(_) => Consult(table, op, ins)
  }

  function Lookup(names: seq<string>, env: Env): Option<seq<Tensor>> {
    if names == [] then Some([])
    else if names[0] !in env then None
    else
      var rest :- Lookup(names[1..], env);
      Some([env[names[0]]] + rest)
  }

  function Bind(names: seq<string>, values: seq<Tensor>, env: Env): Option<Env> {
    if |names| != |values| then None
    else if names == [] then Some(env)
    else if names[0] in env then None
    else Bind(names[1..], values[1..], env[names[0] := values[0]])
  }

  function Step(node: Node, env: Env, table: Table): Option<Env> {
    var ins :- Lookup(node.inputs, env);
    var outs :- Evaluate(node.op, ins, table);
    Bind(node.outputs, outs, env)
  }

  function Run(nodes: seq<Node>, env: Env, table: Table): Option<Env> {
    if nodes == [] then Some(env)
    else
      var next :- Step(nodes[0], env, table);
      Run(nodes[1..], next, table)
  }

  /** Every binding of the one is a binding of the other. */
  predicate Extends(env: Env, wider: Env) {
    forall x :: x in env ==> x in wider && wider[x] == env[x]
  }

  function SetOf(names: seq<string>): set<string> {
    set x | x in names
  }

  function NamesOf(node: Node): set<string> {
    SetOf(node.inputs) + SetOf(node.outputs)
  }

  // ----- Evaluation in a wider environment

  lemma {:induction false} LookupWider(names: seq<string>, env: Env, wider: Env)
    requires Extends(env, wider) && Lookup(names, env).Some?
    ensures Lookup(names, wider) == Lookup(names, env)
  {
    if names != [] {
      LookupWider(names[1..], env, wider);
    }
  }

  lemma {:induction false} BindKeys(names: seq<string>, values: seq<Tensor>, env: Env)
    requires Bind(names, values, env).Some?
    ensures SetOf(names) !! env.Keys
    ensures Bind(names, values, env).value.Keys == env.Keys + SetOf(names)
    ensures Extends(env, Bind(names, values, env).value)
  {
    if names != [] {
      BindKeys(names[1..], values[1..], env[names[0] := values[0]]);
      assert SetOf(names) == {names[0]} + SetOf(names[1..]);
    }
  }

  lemma {:induction false} BindWider(names: seq<string>, values: seq<Tensor>, env: Env, wider: Env)
    requires Extends(env, wider) && Bind(names, values, env).Some?
    requires SetOf(names) !! wider.Keys
    ensures Bind(names, values, wider).Some?
    ensures Extends(Bind(names, values, env).value, Bind(names, values, wider).value)
  {
    if names != [] {
      var e := env[names[0] := values[0]];
      BindKeys(names[1..], values[1..], e);
      assert SetOf(names) == {names[0]} + SetOf(names[1..]);
      BindWider(names[1..], values[1..], e, wider[names[0] := values[0]]);
    }
  }

  /** A node means the same in a wider environment that leaves its results unbound. */
  lemma StepWider(node: Node, env: Env, wider: Env, table: Table)
    requires Extends(env, wider) && Step(node, env, table).Some?
    requires SetOf(node.outputs) !! wider.Keys
    ensures Step(node, wider, table).Some?
    ensures Extends(Step(node, env, table).value, Step(node, wider, table).value)
    ensures Step(node, wider, table).value.Keys == wider.Keys + SetOf(node.outputs)
    ensures Step(node, env, table).value.Keys == env.Keys + SetOf(node.outputs)
    ensures Extends(env, Step(node, env, table).value) && Extends(wider, Step(node, wider, table).value)
  {
    LookupWider(node.inputs, env, wider);
    var outs := Evaluate(node.op, Lookup(node.inputs, env).value, table).value;
    BindWider(node.outputs, outs, env, wider);
    BindKeys(node.outputs, outs, env);
    BindKeys(node.outputs, outs, wider);
  }

  lemma {:induction false} LookupSame(names: seq<string>, env: Env, wider: Env)
    requires Extends(env, wider) && SetOf(names) !! wider.Keys - env.Keys
    ensures Lookup(names, wider) == Lookup(names, env)
  {
    if names != [] {
      assert SetOf(names) == {names[0]} + SetOf(names[1..]);
      LookupSame(names[1..], env, wider);
    }
  }

  lemma {:induction false} BindSame(names: seq<string>, values: seq<Tensor>, env: Env, wider: Env)
    requires Extends(env, wider) && SetOf(names) !! wider.Keys - env.Keys
    ensures Bind(names, values, wider).Some? <==> Bind(names, values, env).Some?
  {
    if names != [] && |names| == |values| && names[0] !in env {
      assert SetOf(names) == {names[0]} + SetOf(names[1..]);
      BindSame(names[1..], values[1..], env[names[0] := values[0]], wider[names[0] := values[0]]);
    }
  }

  /** A node that names none of the further bindings runs with them exactly when it runs without. */
  lemma StepSame(node: Node, env: Env, wider: Env, table: Table)
    requires Extends(env, wider) && NamesOf(node) !! wider.Keys - env.Keys
    ensures Step(node, wider, table).Some? <==> Step(node, env, table).Some?
    ensures Step(node, env, table).Some? ==>
              Extends(Step(node, env, table).value, Step(node, wider, table).value) &&
              Step(node, wider, table).value.Keys == wider.Keys + SetOf(node.outputs)
  {
    LookupSame(node.inputs, env, wider);
    if Lookup(node.inputs, env).Some? && Evaluate(node.op, Lookup(node.inputs, env).value, table).Some? {
      BindSame(node.outputs, Evaluate(node.op, Lookup(node.inputs, env).value, table).value, env, wider);
    }
    if Step(node, env, table).Some? {
      StepExtends(node, env, table);
      StepWider(node, env, wider, table);
    }
  }

  lemma StepExtends(node: Node, env: Env, table: Table)
    requires Step(node, env, table).Some?
    ensures Extends(env, Step(node, env, table).value)
    ensures Step(node, env, table).value.Keys == env.Keys + SetOf(node.outputs)
    ensures SetOf(node.outputs) !! env.Keys
  {
    BindKeys(node.outputs, Evaluate(node.op, Lookup(node.inputs, env).value, table).value, env);
  }

  lemma {:induction false} RunExtends(nodes: seq<Node>, env: Env, table: Table)
    requires Run(nodes, env, table).Some?
    ensures Extends(env, Run(nodes, env, table).value)
  {
    if nodes != [] {
      StepExtends(nodes[0], env, table);
      RunExtends(nodes[1..], Step(nodes[0], env, table).value, table);
    }
  }

  lemma {:induction false} RunAppend(first: seq<Node>, second: seq<Node>, env: Env, table: Table)
    ensures Run(first + second, env, table) ==
            if Run(first, env, table).Some? then Run(second, Run(first, env, table).value, table) else None
  {
    if first == [] {
      assert first + second == second;
    } else {
      assert (first + second)[1..] == first[1..] + second;
      if Step(first[0], env, table).Some? {
        RunAppend(first[1..], second, Step(first[0], env, table).value, table);
      }
    }
  }

  /** A node with one result, all of whose operands are bound. */
  lemma StepOne(node: Node, env: Env, table: Table, ins: seq<Tensor>, out: string, value: Tensor)
    requires Lookup(node.inputs, env) == Some(ins) && Evaluate(node.op, ins, table) == Some([value])
    requires node.outputs == [out] && out !in env
    ensures Step(node, env, table) == Some(env[out := value])
  {
    assert [out][1..] == [] && [value][1..] == [];
    assert Bind([out], [value], env) == Bind([], [], env[out := value]);
  }

  /** The constants of a lowering are bound to their values. */
  ghost predicate Loaded(constants: seq<(string, Tensor)>, env: Env) {
    forall i :: 0 <= i < |constants| ==> constants[i].0 in env && env[constants[i].0] == constants[i].1
  }

  lemma LoadedParts(a: seq<(string, Tensor)>, b: seq<(string, Tensor)>, env: Env)
    requires Loaded(a + b, env)
    ensures Loaded(a, env) && Loaded(b, env)
  {
    forall i | 0 <= i < |a|
      ensures a[i].0 in env && env[a[i].0] == a[i].1
    {
      assert (a + b)[i] == a[i];
    }
    forall i | 0 <= i < |b|
      ensures b[i].0 in env && env[b[i].0] == b[i].1
    {
      assert (a + b)[|a| + i] == b[i];
    }
  }

  lemma RunOne(node: Node, env: Env, table: Table)
    ensures Run([node], env, table) == Step(node, env, table)
  {
    assert [node][1..] == [];
  }

  lemma LookupTwo(x: string, y: string, env: Env)
    requires x in env && y in env
    ensures Lookup([x, y], env) == Some([env[x], env[y]])
    ensures Lookup([x], env) == Some([env[x]])
  {
    assert [x, y][1..] == [y] && [y][1..] == [] && [x][1..] == [];
    var none: seq<Tensor> := [];
    assert [env[x]] + none == [env[x]] && [env[y]] + none == [env[y]] && [env[x]] + [env[y]] == [env[x], env[y]];
    assert Lookup([y], env) == Some([env[y]] + none);
    assert Lookup([x], env) == Some([env[x]] + none);
  }

  lemma LookupThree(x: string, y: string, z: string, env: Env)
    requires x in env && y in env && z in env
    ensures Lookup([x, y, z], env) == Some([env[x], env[y], env[z]])
  {
    LookupTwo(y, z, env);
    assert [x, y, z][1..] == [y, z];
    assert [env[x]] + [env[y], env[z]] == [env[x], env[y], env[z]];
  }

  /** Every name on some node. */
  function NodeNames(nodes: seq<Node>): set<string> {
    if nodes == [] then {} else NodeNames(nodes[..|nodes| - 1]) + NamesOf(nodes[|nodes| - 1])
  }

  function OutputsOf(nodes: seq<Node>): set<string> {
    if nodes == [] then {} else OutputsOf(nodes[..|nodes| - 1]) + SetOf(nodes[|nodes| - 1].outputs)
  }

  lemma {:induction false} OutputsAppend(a: seq<Node>, b: seq<Node>)
    ensures OutputsOf(a + b) == OutputsOf(a) + OutputsOf(b)
  {
    if b == [] {
      assert a + b == a;
    } else {
      assert (a + b)[..|a + b| - 1] == a + b[..|b| - 1];
      OutputsAppend(a, b[..|b| - 1]);
    }
  }

  lemma OutputsOne(node: Node)
    ensures OutputsOf([node]) == SetOf(node.outputs)
  {
    assert [node][..0] == [];
  }

  lemma {:induction false} RunKeys(nodes: seq<Node>, env: Env, table: Table)
    requires Run(nodes, env, table).Some?
    ensures Run(nodes, env, table).value.Keys == env.Keys + OutputsOf(nodes)
    ensures OutputsOf(nodes) !! env.Keys
    decreases |nodes|
  {
    if nodes != [] {
      var before, last := nodes[..|nodes| - 1], nodes[|nodes| - 1];
      assert nodes == before + [last];
      RunAppend(before, [last], env, table);
      RunOne(last, Run(before, env, table).value, table);
      RunKeys(before, env, table);
      StepExtends(last, Run(before, env, table).value, table);
    }
  }

  lemma {:induction false} OutputsNamed(nodes: seq<Node>)
    ensures OutputsOf(nodes) <= NodeNames(nodes)
    decreases |nodes|
  {
    if nodes != [] {
      OutputsNamed(nodes[..|nodes| - 1]);
    }
  }

  function ConstantNames(constants: seq<(string, Tensor)>): (names: seq<string>)
    ensures |names| == |constants| && forall i :: 0 <= i < |constants| ==> names[i] == constants[i].0
  {
    seq(|constants|, i requires 0 <= i < |constants| => constants[i].0)
  }

  function Bound(constants: seq<(string, Tensor)>): Env {
    if constants == [] then map[]
    else Bound(constants[..|constants| - 1])[constants[|constants| - 1].0 := constants[|constants| - 1].1]
  }

  lemma {:induction false} BoundLoaded(constants: seq<(string, Tensor)>)
    requires forall x :: multiset(ConstantNames(constants))[x] <= 1
    ensures Loaded(constants, Bound(constants)) && Bound(constants).Keys == SetOf(ConstantNames(constants))
  {
    if constants != [] {
      var before, last := constants[..|constants| - 1], constants[|constants| - 1];
      var names := ConstantNames(before);
      assert ConstantNames(constants) == names + [last.0];
      forall x
        ensures multiset(names)[x] <= 1
      {
        assert multiset(names + [last.0])[x] >= multiset(names)[x];
      }
      BoundLoaded(before);
      assert multiset(names + [last.0])[last.0] == multiset(names)[last.0] + 1;
      assert last.0 !in names;
    }
  }

  lemma {:induction false} LookupLength(names: seq<string>, env: Env)
    ensures Lookup(names, env).Some? ==> |Lookup(names, env).value| == |names|
    ensures Lookup(names, env).Some? <==> SetOf(names) <= env.Keys
  {
    if names != [] {
      LookupLength(names[1..], env);
      assert SetOf(names) == {names[0]} + SetOf(names[1..]);
    }
  }

  /** A node of a list that runs reads only names bound by then or by the list. */
  lemma {:induction false} RunReads(nodes: seq<Node>, env: Env, table: Table, node: Node)
    requires Run(nodes, env, table).Some? && node in nodes
    ensures SetOf(node.inputs) <= env.Keys + OutputsOf(nodes)
    decreases |nodes|
  {
    var before, last := nodes[..|nodes| - 1], nodes[|nodes| - 1];
    assert nodes == before + [last];
    RunAppend(before, [last], env, table);
    RunKeys(before, env, table);
    if node in before {
      RunReads(before, env, table, node);
    } else {
      assert node == last;
      RunOne(node, Run(before, env, table).value, table);
      LookupLength(node.inputs, Run(before, env, table).value);
    }
  }
}
