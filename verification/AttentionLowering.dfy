/**
 What one Einsum node is lowered to: the nodes, the constants they read and the names they
 claim, and the proof that running those nodes binds the Einsum's own value.
 */
module AttentionLowering {
  import opened Decimals
  import opened Graphs
  import opened Sequences
  import opened Tensors
  import opened Wrappers
  import opened E = Einsum
  import C = Contractions
  import G = GlobalContraction
  import O = Operators
  import S = SequenceContractions

  /** The equations the pass knows. */
  datatype Kind = Features | Heads | Positions | Scores | Values | Global | Shared

  function KindOf(equation: string): Option<Kind> {
    if equation == "...,f->...f" then Some(Features)
    else if equation == "...d,hd->...hd" then Some(Heads)
    else if equation == "i,j->ij" then Some(Positions)
    else if equation == "...id,...jd->...ij" then Some(Scores)
    else if equation == "...ij,...jd->...id" then Some(Values)
    else if equation == "bgnd,bgne->bde" then Some(Global)
    else if equation == "bgnd,bde->bgne" then Some(Shared)
    else None
  }

  type Ranks = map<string, nat>

  predicate HasRank(ranks: Ranks, name: string, rank: nat) {
    name in ranks && ranks[name] == rank
  }

  /** The ranks the pass insists on before it rewrites an equation. */
  predicate RanksSupport(kind: Kind, left: string, right: string, ranks: Ranks) {
    match kind
    case Features | Values => true
    case Heads => HasRank(ranks, right, 2)
    case Positions => HasRank(ranks, left, 1) && HasRank(ranks, right, 1)
    case Scores => right in ranks && 2 <= ranks[right]
    case Global => HasRank(ranks, left, 4) && HasRank(ranks, right, 4)
    case Shared => HasRank(ranks, left, 4) && HasRank(ranks, right, 3)
  }

  /** An Einsum the pass accepts; every other node it leaves alone. */
  predicate Supported(node: Node, ranks: Ranks) {
    node.op.Einsum? ==>
      && |node.op.equations| == 1 && |node.inputs| == 2 && |node.outputs| == 1
      && KindOf(Strip(node.op.equations[0])).Some?
      && RanksSupport(KindOf(Strip(node.op.equations[0])).value, node.inputs[0], node.inputs[1], ranks)
  }

  // ----- Names, constants and nodes of one lowering

  /** A generated name: the prefix of the Einsum, a role and the number of nodes emitted so far. */
  function Fresh(prefix: string, role: string, k: nat): string {
    prefix + role + "_" + Decimal(k)
  }

  /** Emitted nodes, their constants, the results that are generated names, and every name claimed, in order. */
  datatype Lowering = Lowering(nodes: seq<Node>, constants: seq<(string, Tensor)>, temps: seq<string>, names: seq<string>) {
    function Then(next: Lowering): Lowering {
      Lowering(nodes + next.nodes, constants + next.constants, temps + next.temps, names + next.names)
    }
  }

  function ConstantStep(p: string, role: string, k: nat, value: Tensor): Lowering {
    Lowering([], [(Fresh(p, role, k), value)], [], [Fresh(p, role, k)])
  }

  /** A node whose result is a generated name. */
  function TempStep(p: string, k: nat, op: Op, inputs: seq<string>): Lowering {
    Lowering([Node(op, inputs, [Fresh(p, "intermediate", k)], Fresh(p, "node", k))], [],
             [Fresh(p, "intermediate", k)], [Fresh(p, "intermediate", k), Fresh(p, "node", k)])
  }

  /** The node that binds the Einsum's own result. */
  function FinalStep(p: string, k: nat, op: Op, inputs: seq<string>, output: string): Lowering {
    Lowering([Node(op, inputs, [output], Fresh(p, "node", k))], [], [], [Fresh(p, "node", k)])
  }

  function UnsqueezeStep(p: string, k: nat, value: string, axis: int): Lowering {
    ConstantStep(p, "axes", k, Vector([axis])).Then(TempStep(p, k, Unsqueeze, [value, Fresh(p, "axes", k)]))
  }

  function TransposeTailStep(p: string, k: nat, value: string, rank: nat): Lowering
    requires 2 <= rank
  {
    TempStep(p, k, Transpose(S.TailSwap(rank)), [value])
  }

  /** A constant and the node that reads it as its second operand. */
  function ReadingStep(p: string, k: nat, op: Op, first: string, role: string, value: int, last: seq<string>): Lowering {
    ConstantStep(p, role, k, Vector([value])).Then(TempStep(p, k, op, [first, Fresh(p, role, k)] + last))
  }

  /** The operand's shape, and its batch and feature extents as vectors of one element. */
  function ExtentsStep(p: string, k: nat, value: string): Lowering {
    TempStep(p, k, Shape, [value])
    .Then(ReadingStep(p, k + 1, Gather(0), Fresh(p, "intermediate", k), "batch", 0, []))
    .Then(ReadingStep(p, k + 2, Gather(0), Fresh(p, "intermediate", k), "width", 3, []))
  }

  /** The reshape target [batch, -1, features]. */
  function TargetStep(p: string, k: nat, value: string): Lowering {
    ExtentsStep(p, k, value)
    .Then(ReadingStep(p, k + 3, Concat(0), Fresh(p, "intermediate", k + 1), "extent", -1, [Fresh(p, "intermediate", k + 2)]))
  }

  function FlattenStep(p: string, k: nat, value: string): Lowering {
    TargetStep(p, k, value).Then(TempStep(p, k + 4, Reshape, [value, Fresh(p, "intermediate", k + 3)]))
  }

  function Lower(kind: Kind, p: string, k: nat, left: string, right: string, output: string, ranks: Ranks): Lowering
    requires RanksSupport(kind, left, right, ranks)
  {
    match kind
    case Features => ScaleStep(p, k, left, right, output, -1)
    case Heads => ScaleStep(p, k, left, right, output, -2)
    case Positions => ScaleStep(p, k, left, right, output, 1)
    case Scores =>
      TransposeTailStep(p, k, right, ranks[right])
      .Then(FinalStep(p, k + 1, MatMul, [left, Fresh(p, "intermediate", k)], output))
    case Values => FinalStep(p, k, MatMul, [left, right], output)
    case Global =>
      FlattenStep(p, k, left).Then(FlattenStep(p, k + 5, right))
      .Then(TempStep(p, k + 10, Transpose(G.TIME_LAST), [Fresh(p, "intermediate", k + 4)]))
      .Then(FinalStep(p, k + 11, MatMul, [Fresh(p, "intermediate", k + 10), Fresh(p, "intermediate", k + 9)], output))
    case Shared =>
      UnsqueezeStep(p, k, right, 1)
      .Then(FinalStep(p, k + 1, MatMul, [left, Fresh(p, "intermediate", k)], output))
  }

  function ScaleStep(p: string, k: nat, left: string, right: string, output: string, axis: int): Lowering {
    UnsqueezeStep(p, k, left, axis)
    .Then(FinalStep(p, k + 1, Mul, [Fresh(p, "intermediate", k), right], output))
  }

  // ----- Meaning

  /** The prefix of one lowering and the range of its intermediates. */
  datatype Window = Window(p: string, lo: nat, hi: nat)

  /** No intermediate of the window from index k on is bound yet. */
  ghost predicate Unbound(w: Window, k: nat, env: Env) {
    forall i: nat :: k <= i < w.hi ==> Fresh(w.p, "intermediate", i) !in env
  }

  lemma FreshIndex(p: string, role: string, i: nat, role': string, j: nat)
    requires Fresh(p, role, i) == Fresh(p, role', j)
    ensures i == j && role == role'
  {
    LastField(p + role, i, p + role', j, '_');
    assert role == (p + role)[|p|..] == (p + role')[|p|..] == role';
  }

  /** The result name is none of the window's intermediates. */
  ghost predicate Apart(w: Window, out: string) {
    forall i: nat :: w.lo <= i < w.hi ==> out != Fresh(w.p, "intermediate", i)
  }

  /** Running some nodes keeps every binding, leaves later intermediates unbound and spares the result. */
  ghost predicate Reaches(nodes: seq<Node>, env: Env, table: Table, next: Env, w: Window, k: nat) {
    && Run(nodes, env, table) == Some(next) && Extends(env, next) && Unbound(w, k, next)
    && forall x :: Apart(w, x) && x !in env ==> x !in next
  }

  lemma BindTemp(w: Window, k: nat, env: Env, next: Env, value: Tensor)
    requires w.lo <= k < w.hi && Unbound(w, k, env) && next == env[Fresh(w.p, "intermediate", k) := value]
    ensures Extends(env, next) && Unbound(w, k + 1, next)
    ensures forall x :: Apart(w, x) && x !in env ==> x !in next
  {
    forall i: nat | k + 1 <= i < w.hi
      ensures Fresh(w.p, "intermediate", i) !in next
    {
      if Fresh(w.p, "intermediate", i) == Fresh(w.p, "intermediate", k) {
        FreshIndex(w.p, "intermediate", i, "intermediate", k);
      }
    }
  }

  /** One emitted node, run in an environment that has its operands and not its result. */
  lemma RunTemp(w: Window, k: nat, op: Op, inputs: seq<string>, env: Env, table: Table, ins: seq<Tensor>, value: Tensor)
    returns (next: Env)
    requires w.lo <= k < w.hi && Unbound(w, k, env)
    requires Lookup(inputs, env) == Some(ins) && Evaluate(op, ins, table) == Some([value])
    ensures Reaches(TempStep(w.p, k, op, inputs).nodes, env, table, next, w, k + 1)
    ensures Fresh(w.p, "intermediate", k) in next && next[Fresh(w.p, "intermediate", k)] == value
  {
    var node := TempStep(w.p, k, op, inputs).nodes[0];
    next := env[Fresh(w.p, "intermediate", k) := value];
    StepOne(node, env, table, ins, Fresh(w.p, "intermediate", k), value);
    RunOne(node, env, table);
    BindTemp(w, k, env, next, value);
  }

  lemma ReachesThen(first: seq<Node>, second: seq<Node>, env: Env, table: Table, mid: Env, next: Env, w: Window, j: nat, k: nat)
    requires Reaches(first, env, table, mid, w, j) && Reaches(second, mid, table, next, w, k)
    ensures Reaches(first + second, env, table, next, w, k)
  {
    RunAppend(first, second, env, table);
  }

  lemma RunFinal(w: Window, k: nat, op: Op, x: string, y: string, out: string,
                 before: seq<Node>, env: Env, mid: Env, table: Table, value: Tensor)
    requires Reaches(before, env, table, mid, w, k) && Apart(w, out) && out !in env
    requires x in mid && y in mid && Evaluate(op, [mid[x], mid[y]], table) == Some([value])
    ensures Run(before + FinalStep(w.p, k, op, [x, y], out).nodes, env, table) == Some(mid[out := value])
  {
    var node := FinalStep(w.p, k, op, [x, y], out).nodes[0];
    LookupTwo(x, y, mid);
    StepOne(node, mid, table, [mid[x], mid[y]], out, value);
    RunOne(node, mid, table);
    RunAppend(before, [node], env, table);
  }

  lemma RunUnsqueeze(w: Window, k: nat, value: string, axis: int, env: Env, table: Table) returns (next: Env)
    requires w.lo <= k < w.hi
    requires Unbound(w, k, env) && value in env && Loaded(UnsqueezeStep(w.p, k, value, axis).constants, env)
    requires O.Unsqueeze(env[value], axis).Some?
    ensures Reaches(UnsqueezeStep(w.p, k, value, axis).nodes, env, table, next, w, k + 1)
    ensures Fresh(w.p, "intermediate", k) in next
    ensures next[Fresh(w.p, "intermediate", k)] == O.Unsqueeze(env[value], axis).value
  {
    var axes := Fresh(w.p, "axes", k);
    assert UnsqueezeStep(w.p, k, value, axis).constants[0] == (axes, Vector([axis]));
    LookupTwo(value, axes, env);
    O.IntegersOfVector([axis]);
    next := RunTemp(w, k, Unsqueeze, [value, axes], env, table, [env[value], Vector([axis])],
                    O.Unsqueeze(env[value], axis).value);
    assert UnsqueezeStep(w.p, k, value, axis).nodes == TempStep(w.p, k, Unsqueeze, [value, axes]).nodes;
  }

  /** The nodes run and bind the result to the value. */
  ghost predicate Binds(nodes: seq<Node>, env: Env, table: Table, out: string, value: Tensor) {
    Run(nodes, env, table).Some? && out in Run(nodes, env, table).value && Run(nodes, env, table).value[out] == value
  }

  /** The lowering runs and binds the result to the given value. */
  ghost predicate Computes(lowering: Lowering, env: Env, table: Table, out: string, value: Tensor) {
    Binds(lowering.nodes, env, table, out, value)
  }

  lemma ScaleComputes(w: Window, k: nat, left: string, right: string, out: string, axis: int,
                      env: Env, table: Table, value: Tensor)
    requires w.lo <= k < w.hi
    requires Unbound(w, k, env) && Apart(w, out) && out !in env && left in env && right in env
    requires Loaded(ScaleStep(w.p, k, left, right, out, axis).constants, env)
    requires O.Unsqueeze(env[left], axis).Some?
    requires O.Elementwise(O.Multiply, O.Unsqueeze(env[left], axis).value, env[right]) == Some(value)
    ensures Computes(ScaleStep(w.p, k, left, right, out, axis), env, table, out, value)
  {
    var first := UnsqueezeStep(w.p, k, left, axis);
    assert ScaleStep(w.p, k, left, right, out, axis).constants == first.constants;
    var mid := RunUnsqueeze(w, k, left, axis, env, table);
    RunFinal(w, k + 1, Mul, Fresh(w.p, "intermediate", k), right, out, first.nodes, env, mid, table, value);
  }

  lemma SharedComputes(w: Window, k: nat, left: string, right: string, out: string, env: Env, table: Table, value: Tensor)
    requires w.lo <= k < w.hi
    requires Unbound(w, k, env) && Apart(w, out) && out !in env && left in env && right in env
    requires Loaded(UnsqueezeStep(w.p, k, right, 1).constants, env)
    requires O.Unsqueeze(env[right], 1).Some? && O.MatMul(env[left], O.Unsqueeze(env[right], 1).value) == Some(value)
    ensures Computes(UnsqueezeStep(w.p, k, right, 1).Then(
      FinalStep(w.p, k + 1, MatMul, [left, Fresh(w.p, "intermediate", k)], out)), env, table, out, value)
  {
    var mid := RunUnsqueeze(w, k, right, 1, env, table);
    RunFinal(w, k + 1, MatMul, left, Fresh(w.p, "intermediate", k), out, UnsqueezeStep(w.p, k, right, 1).nodes,
             env, mid, table, value);
  }

  lemma EvaluateTranspose(perm: seq<nat>, t: Tensor, value: Tensor, table: Table)
    requires O.Transpose(t, perm) == Some(value)
    ensures Evaluate(Transpose(perm), [t], table) == Some([value])
  {
  }

  lemma EvaluateMatMul(a: Tensor, b: Tensor, value: Tensor, table: Table)
    requires O.MatMul(a, b) == Some(value)
    ensures Evaluate(MatMul, [a, b], table) == Some([value])
  {
  }

  lemma ScoresComputes(w: Window, k: nat, left: string, right: string, out: string, perm: seq<nat>,
                       turned: Tensor, env: Env, table: Table, value: Tensor)
    requires w.lo <= k < w.hi
    requires Unbound(w, k, env) && Apart(w, out) && out !in env && left in env && right in env
    requires Evaluate(Transpose(perm), [env[right]], table) == Some([turned])
    requires Evaluate(MatMul, [env[left], turned], table) == Some([value])
    ensures Computes(TempStep(w.p, k, Transpose(perm), [right]).Then(
      FinalStep(w.p, k + 1, MatMul, [left, Fresh(w.p, "intermediate", k)], out)), env, table, out, value)
  {
    LookupTwo(right, right, env);
    var mid := RunTemp(w, k, Transpose(perm), [right], env, table, [env[right]], turned);
    RunFinal(w, k + 1, MatMul, left, Fresh(w.p, "intermediate", k), out, TempStep(w.p, k, Transpose(perm), [right]).nodes,
             env, mid, table, value);
  }

  lemma NothingFirst<T>(s: seq<T>)
    ensures [] + s == s
  {
  }

  lemma ValuesComputes(w: Window, k: nat, left: string, right: string, out: string, env: Env, table: Table, value: Tensor)
    requires Unbound(w, k, env) && Apart(w, out) && out !in env && left in env && right in env
    requires O.MatMul(env[left], env[right]) == Some(value)
    ensures Computes(FinalStep(w.p, k, MatMul, [left, right], out), env, table, out, value)
  {
    EvaluateMatMul(env[left], env[right], value, table);
    RunFinal(w, k, MatMul, left, right, out, [], env, env, table, value);
    NothingFirst(FinalStep(w.p, k, MatMul, [left, right], out).nodes);
  }

  // ----- The flattening subgraph

  lemma EntryValue(t: Tensor, axis: nat)
    requires axis < |t.shape|
    ensures O.GatherAt(O.ShapeOf(t), Vector([axis]), 0, [0]) == t.shape[axis] as real
  {
    var s, i := O.ShapeOf(t), Vector([axis]);
    assert [0][0..1] == [0] && [0][..0] == [] && [0][1..] == [];
    assert At(i, [0]).Floor == axis;
    assert [] + [axis] + [] == [axis];
    assert At(s, [axis]) == t.shape[axis] as real;
  }

  lemma EntryShape(t: Tensor, axis: nat)
    requires axis < |t.shape|
    ensures var g := O.Gather(O.ShapeOf(t), Vector([axis]), 0);
            g.Some? && g.value.element == Int64 && g.value.shape == [1] &&
            At(g.value, [0]) == O.GatherAt(O.ShapeOf(t), Vector([axis]), 0, [0])
  {
    var s, i := O.ShapeOf(t), Vector([axis]);
    assert i.data[0].Floor == axis;
    assert s.shape[..0] + i.shape + s.shape[1..] == [1];
    assert InBounds([0], [1]);
  }

  /** A vector of one element is that element. */
  lemma SameOne(t: Tensor, value: nat)
    requires t.element == Int64 && t.shape == [1] && At(t, [0]) == value as real
    ensures t == Vector([value])
  {
    var v := Vector([value]);
    ProductOne(1);
    assert InBounds([0], [1]) && [0][1..] == [] && [1][1..] == [];
    assert Offset([1], [0]) == 0;
    assert t.data[0] == v.data[0];
    assert t.data == v.data;
  }

  lemma ShapeEntry(t: Tensor, axis: nat)
    requires axis < |t.shape|
    ensures O.Gather(O.ShapeOf(t), Vector([axis]), 0) == Some(Vector([t.shape[axis]]))
  {
    EntryShape(t, axis);
    EntryValue(t, axis);
    SameOne(O.Gather(O.ShapeOf(t), Vector([axis]), 0).value, t.shape[axis]);
  }

  /** Joining one integer vector to already joined ones. */
  lemma JoinOne(first: seq<int>, rest: seq<Tensor>, joined: seq<int>)
    requires O.ConcatVectors(rest) == Some(Vector(joined))
    ensures O.ConcatVectors([Vector(first)] + rest) == Some(Vector(first + joined))
  {
    var parts := [Vector(first)] + rest;
    assert parts[0] == Vector(first) && parts[1..] == rest;
    O.IntegersOfVector(first);
    O.IntegersOfVector(joined);
  }

  lemma TargetParts(b: nat, d: nat)
    ensures O.ConcatVectors([Vector([b]), Vector([-1]), Vector([d])]) == Some(Vector([b as int, -1, d as int]))
  {
    var two: seq<Tensor> := [Vector([-1]), Vector([d])];
    JoinOne([d as int], [], []);
    assert [Vector([d as int])] + [] == [Vector([d])] && [d as int] + [] == [d as int];
    JoinOne([-1], [Vector([d])], [d as int]);
    assert [Vector([-1])] + [Vector([d])] == two && [-1] + [d as int] == [-1, d as int];
    JoinOne([b as int], two, [-1, d as int]);
    assert [Vector([b as int])] + two == [Vector([b]), Vector([-1]), Vector([d])];
    assert [b as int] + [-1, d as int] == [b as int, -1, d as int];
  }

  lemma FlattenParts(p: string, k: nat, value: string, env: Env)
    requires Loaded(FlattenStep(p, k, value).constants, env)
    ensures Fresh(p, "batch", k + 1) in env && env[Fresh(p, "batch", k + 1)] == Vector([0])
    ensures Fresh(p, "width", k + 2) in env && env[Fresh(p, "width", k + 2)] == Vector([3])
    ensures Fresh(p, "extent", k + 3) in env && env[Fresh(p, "extent", k + 3)] == Vector([-1])
  {
    var c := FlattenStep(p, k, value).constants;
    assert c == [(Fresh(p, "batch", k + 1), Vector([0])), (Fresh(p, "width", k + 2), Vector([3])),
                 (Fresh(p, "extent", k + 3), Vector([-1]))];
    assert c[0].0 in env && c[1].0 in env && c[2].0 in env;
  }

  lemma TargetNodes(p: string, k: nat, value: string)
    ensures TargetStep(p, k, value).nodes ==
            TempStep(p, k, Shape, [value]).nodes
            + TempStep(p, k + 1, Gather(0), [Fresh(p, "intermediate", k), Fresh(p, "batch", k + 1)]).nodes
            + TempStep(p, k + 2, Gather(0), [Fresh(p, "intermediate", k), Fresh(p, "width", k + 2)]).nodes
            + TempStep(p, k + 3, Concat(0), [Fresh(p, "intermediate", k + 1), Fresh(p, "extent", k + 3),
                                             Fresh(p, "intermediate", k + 2)]).nodes
  {
    var i0, i1, i2 := Fresh(p, "intermediate", k), Fresh(p, "intermediate", k + 1), Fresh(p, "intermediate", k + 2);
    assert [i0, Fresh(p, "batch", k + 1)] + [] == [i0, Fresh(p, "batch", k + 1)];
    assert [i0, Fresh(p, "width", k + 2)] + [] == [i0, Fresh(p, "width", k + 2)];
    assert [i1, Fresh(p, "extent", k + 3)] + [i2] == [i1, Fresh(p, "extent", k + 3), i2];
  }

  /** One extent of the operand, read through Shape and Gather. */
  lemma RunExtent(w: Window, k: nat, role: string, shape: string, axis: nat, t: Tensor, env: Env, table: Table)
    returns (next: Env)
    requires w.lo <= k < w.hi
    requires Unbound(w, k, env) && axis < |t.shape|
    requires shape in env && env[shape] == O.ShapeOf(t)
    requires Fresh(w.p, role, k) in env && env[Fresh(w.p, role, k)] == Vector([axis])
    ensures Reaches(TempStep(w.p, k, Gather(0), [shape, Fresh(w.p, role, k)]).nodes, env, table, next, w, k + 1)
    ensures Fresh(w.p, "intermediate", k) in next && next[Fresh(w.p, "intermediate", k)] == Vector([t.shape[axis]])
  {
    LookupTwo(shape, Fresh(w.p, role, k), env);
    ShapeEntry(t, axis);
    next := RunTemp(w, k, Gather(0), [shape, Fresh(w.p, role, k)], env, table,
                    [O.ShapeOf(t), Vector([axis])], Vector([t.shape[axis]]));
  }

  lemma RunTarget(w: Window, k: nat, x: string, role: string, y: string, b: nat, d: nat, env: Env, table: Table)
    returns (next: Env)
    requires w.lo <= k < w.hi
    requires Unbound(w, k, env)
    requires x in env && env[x] == Vector([b]) && y in env && env[y] == Vector([d])
    requires Fresh(w.p, role, k) in env && env[Fresh(w.p, role, k)] == Vector([-1])
    ensures Reaches(TempStep(w.p, k, Concat(0), [x, Fresh(w.p, role, k), y]).nodes, env, table, next, w, k + 1)
    ensures Fresh(w.p, "intermediate", k) in next
    ensures next[Fresh(w.p, "intermediate", k)] == Vector([b as int, -1, d as int])
  {
    LookupThree(x, Fresh(w.p, role, k), y, env);
    TargetParts(b, d);
    next := RunTemp(w, k, Concat(0), [x, Fresh(w.p, role, k), y], env, table,
                    [Vector([b]), Vector([-1]), Vector([d])], Vector([b as int, -1, d as int]));
  }

  lemma RunReshape(w: Window, k: nat, value: string, target: string, env: Env, table: Table) returns (next: Env)
    requires w.lo <= k < w.hi
    requires Unbound(w, k, env) && value in env && |env[value].shape| == 4
    requires target in env && env[target] == G.FlattenTarget(env[value]) && G.Flatten(env[value]).Some?
    ensures Reaches(TempStep(w.p, k, Reshape, [value, target]).nodes, env, table, next, w, k + 1)
    ensures Fresh(w.p, "intermediate", k) in next && Some(next[Fresh(w.p, "intermediate", k)]) == G.Flatten(env[value])
  {
    LookupTwo(value, target, env);
    next := RunTemp(w, k, Reshape, [value, target], env, table, [env[value], env[target]], G.Flatten(env[value]).value);
  }

  /** The four nodes that compute the reshape target. */
  lemma RunTargetNodes(w: Window, k: nat, value: string, env: Env, table: Table) returns (next: Env)
    requires w.lo <= k && k + 5 <= w.hi
    requires Unbound(w, k, env) && value in env && |env[value].shape| == 4
    requires Loaded(FlattenStep(w.p, k, value).constants, env)
    ensures Reaches(TargetStep(w.p, k, value).nodes, env, table, next, w, k + 4)
    ensures Fresh(w.p, "intermediate", k + 3) in next
    ensures next[Fresh(w.p, "intermediate", k + 3)] == G.FlattenTarget(env[value])
  {
    FlattenParts(w.p, k, value, env);
    TargetNodes(w.p, k, value);
    var t := env[value];
    var shape, batch, width := Fresh(w.p, "intermediate", k), Fresh(w.p, "intermediate", k + 1), Fresh(w.p, "intermediate", k + 2);
    LookupTwo(value, value, env);
    var n1 := TempStep(w.p, k, Shape, [value]).nodes;
    var e1 := RunTemp(w, k, Shape, [value], env, table, [t], O.ShapeOf(t));
    var n2 := TempStep(w.p, k + 1, Gather(0), [shape, Fresh(w.p, "batch", k + 1)]).nodes;
    var e2 := RunExtent(w, k + 1, "batch", shape, 0, t, e1, table);
    ReachesThen(n1, n2, env, table, e1, e2, w, k + 1, k + 2);
    var n3 := TempStep(w.p, k + 2, Gather(0), [shape, Fresh(w.p, "width", k + 2)]).nodes;
    var e3 := RunExtent(w, k + 2, "width", shape, 3, t, e2, table);
    ReachesThen(n1 + n2, n3, env, table, e2, e3, w, k + 2, k + 3);
    next := RunTarget(w, k + 3, batch, "extent", width, t.shape[0], t.shape[3], e3, table);
    ReachesThen(n1 + n2 + n3, TempStep(w.p, k + 3, Concat(0), [batch, Fresh(w.p, "extent", k + 3), width]).nodes,
                env, table, e3, next, w, k + 3, k + 4);
  }

  /** The five flattening nodes compute the flattened operand. */
  lemma RunFlatten(w: Window, k: nat, value: string, env: Env, table: Table) returns (next: Env)
    requires w.lo <= k && k + 5 <= w.hi
    requires Unbound(w, k, env) && value in env && |env[value].shape| == 4
    requires Loaded(FlattenStep(w.p, k, value).constants, env) && G.Flatten(env[value]).Some?
    ensures Reaches(FlattenStep(w.p, k, value).nodes, env, table, next, w, k + 5)
    ensures Fresh(w.p, "intermediate", k + 4) in next
    ensures Some(next[Fresh(w.p, "intermediate", k + 4)]) == G.Flatten(env[value])
  {
    var e4 := RunTargetNodes(w, k, value, env, table);
    next := RunReshape(w, k + 4, value, Fresh(w.p, "intermediate", k + 3), e4, table);
    ReachesThen(TargetStep(w.p, k, value).nodes, TempStep(w.p, k + 4, Reshape, [value, Fresh(w.p, "intermediate", k + 3)]).nodes,
                env, table, e4, next, w, k + 4, k + 5);
  }

  /** They run only when the operand can be flattened. */
  lemma FlattenBlocked(w: Window, k: nat, value: string, env: Env, table: Table)
    requires w.lo <= k && k + 5 <= w.hi
    requires Unbound(w, k, env) && value in env && |env[value].shape| == 4
    requires Loaded(FlattenStep(w.p, k, value).constants, env)
    requires Run(FlattenStep(w.p, k, value).nodes, env, table).Some?
    ensures G.Flatten(env[value]).Some?
  {
    var e4 := RunTargetNodes(w, k, value, env, table);
    var target := Fresh(w.p, "intermediate", k + 3);
    var last := TempStep(w.p, k + 4, Reshape, [value, target]).nodes;
    RunAppend(TargetStep(w.p, k, value).nodes, last, env, table);
    LookupTwo(value, target, e4);
    RunOne(last[0], e4, table);
  }

  lemma RunTransposed(w: Window, k: nat, x: string, perm: seq<nat>, before: seq<Node>, env: Env, mid: Env,
                      turned: Tensor, table: Table) returns (next: Env)
    requires w.lo <= k < w.hi
    requires Reaches(before, env, table, mid, w, k) && x in mid
    requires Evaluate(Transpose(perm), [mid[x]], table) == Some([turned])
    ensures Reaches(before + TempStep(w.p, k, Transpose(perm), [x]).nodes, env, table, next, w, k + 1)
    ensures Fresh(w.p, "intermediate", k) in next && next[Fresh(w.p, "intermediate", k)] == turned
    ensures Extends(mid, next)
  {
    LookupTwo(x, x, mid);
    next := RunTemp(w, k, Transpose(perm), [x], mid, table, [mid[x]], turned);
    ReachesThen(before, TempStep(w.p, k, Transpose(perm), [x]).nodes, env, table, mid, next, w, k, k + 1);
  }

  lemma GlobalComputes(w: Window, k: nat, left: string, right: string, out: string, first: Tensor, second: Tensor,
                       turned: Tensor, env: Env, table: Table, value: Tensor)
    requires w.lo <= k && k + 11 <= w.hi
    requires Unbound(w, k, env) && Apart(w, out) && out !in env && left in env && right in env
    requires Loaded(FlattenStep(w.p, k, left).constants + FlattenStep(w.p, k + 5, right).constants, env)
    requires |env[left].shape| == 4 && |env[right].shape| == 4
    requires G.Flatten(env[left]) == Some(first) && G.Flatten(env[right]) == Some(second)
    requires Evaluate(Transpose(G.TIME_LAST), [first], table) == Some([turned])
    requires Evaluate(MatMul, [turned, second], table) == Some([value])
    ensures Computes(FlattenStep(w.p, k, left).Then(FlattenStep(w.p, k + 5, right))
                     .Then(TempStep(w.p, k + 10, Transpose(G.TIME_LAST), [Fresh(w.p, "intermediate", k + 4)]))
                     .Then(FinalStep(w.p, k + 11, MatMul, [Fresh(w.p, "intermediate", k + 10), Fresh(w.p, "intermediate", k + 9)], out)),
                     env, table, out, value)
  {
    var a, b := FlattenStep(w.p, k, left).nodes, FlattenStep(w.p, k + 5, right).nodes;
    LoadedParts(FlattenStep(w.p, k, left).constants, FlattenStep(w.p, k + 5, right).constants, env);
    var e1 := RunFlatten(w, k, left, env, table);
    var e2 := RunFlatten(w, k + 5, right, e1, table);
    ReachesThen(a, b, env, table, e1, e2, w, k + 5, k + 10);
    var e3 := RunTransposed(w, k + 10, Fresh(w.p, "intermediate", k + 4), G.TIME_LAST, a + b, env, e2, turned, table);
    RunFinal(w, k + 11, MatMul, Fresh(w.p, "intermediate", k + 10), Fresh(w.p, "intermediate", k + 9), out,
             a + b + TempStep(w.p, k + 10, Transpose(G.TIME_LAST), [Fresh(w.p, "intermediate", k + 4)]).nodes,
             env, e3, table, value);
  }

  lemma MatMulOne(a: Tensor, b: Tensor, table: Table)
    ensures Evaluate(MatMul, [a, b], table).Some? ==> |Evaluate(MatMul, [a, b], table).value| == 1
  {
  }

  /** A final node that runs has bound the result to the value of its operator. */
  lemma FinalBound(w: Window, k: nat, op: Op, x: string, y: string, out: string, before: seq<Node>, env: Env, mid: Env,
                   table: Table, value: Tensor)
    requires Reaches(before, env, table, mid, w, k) && Apart(w, out) && out !in env && x in mid && y in mid
    requires Evaluate(op, [mid[x], mid[y]], table).Some? ==> |Evaluate(op, [mid[x], mid[y]], table).value| == 1
    requires Binds(before + FinalStep(w.p, k, op, [x, y], out).nodes, env, table, out, value)
    ensures Evaluate(op, [mid[x], mid[y]], table) == Some([value])
  {
    var node := FinalStep(w.p, k, op, [x, y], out).nodes[0];
    LookupTwo(x, y, mid);
    RunOne(node, mid, table);
    RunAppend(before, [node], env, table);
    var outs := Evaluate(op, [mid[x], mid[y]], table).value;
    assert outs == [outs[0]];
    StepOne(node, mid, table, [mid[x], mid[y]], out, outs[0]);
  }

  /** Both operands of a lowered reduction that runs can be flattened. */
  lemma BothFlatten(w: Window, k: nat, left: string, right: string, rest: seq<Node>, env: Env, table: Table) returns (next: Env)
    requires w.lo <= k && k + 10 <= w.hi
    requires Unbound(w, k, env) && left in env && right in env
    requires Loaded(FlattenStep(w.p, k, left).constants, env) && Loaded(FlattenStep(w.p, k + 5, right).constants, env)
    requires |env[left].shape| == 4 && |env[right].shape| == 4
    requires Run(FlattenStep(w.p, k, left).nodes + FlattenStep(w.p, k + 5, right).nodes + rest, env, table).Some?
    ensures Reaches(FlattenStep(w.p, k, left).nodes + FlattenStep(w.p, k + 5, right).nodes, env, table, next, w, k + 10)
    ensures Fresh(w.p, "intermediate", k + 4) in next && Fresh(w.p, "intermediate", k + 9) in next
    ensures G.Flatten(env[left]) == Some(next[Fresh(w.p, "intermediate", k + 4)])
    ensures G.Flatten(env[right]) == Some(next[Fresh(w.p, "intermediate", k + 9)])
  {
    var a, b := FlattenStep(w.p, k, left).nodes, FlattenStep(w.p, k + 5, right).nodes;
    RunAppend(a + b, rest, env, table);
    RunAppend(a, b, env, table);
    FlattenBlocked(w, k, left, env, table);
    var e1 := RunFlatten(w, k, left, env, table);
    FlattenBlocked(w, k + 5, right, e1, table);
    next := RunFlatten(w, k + 5, right, e1, table);
    ReachesThen(a, b, env, table, e1, next, w, k + 5, k + 10);
  }

  /** A transposition that runs, and what it binds. */
  lemma TransposeRuns(w: Window, k: nat, x: string, perm: seq<nat>, before: seq<Node>, rest: seq<Node>, env: Env, mid: Env,
                      table: Table) returns (next: Env)
    requires w.lo <= k < w.hi
    requires Reaches(before, env, table, mid, w, k) && x in mid
    requires Run(before + TempStep(w.p, k, Transpose(perm), [x]).nodes + rest, env, table).Some?
    ensures Reaches(before + TempStep(w.p, k, Transpose(perm), [x]).nodes, env, table, next, w, k + 1)
    ensures Extends(mid, next) && Fresh(w.p, "intermediate", k) in next
    ensures O.Transpose(mid[x], perm) == Some(next[Fresh(w.p, "intermediate", k)])
  {
    var node := TempStep(w.p, k, Transpose(perm), [x]).nodes[0];
    RunAppend(before + [node], rest, env, table);
    RunAppend(before, [node], env, table);
    RunOne(node, mid, table);
    LookupTwo(x, x, mid);
    var turned := O.Transpose(mid[x], perm).value;
    EvaluateTranspose(perm, mid[x], turned, table);
    next := RunTransposed(w, k, x, perm, before, env, mid, turned, table);
  }

  lemma LoweredWhole(s: Tensor, t: Tensor, first: Tensor, second: Tensor, turned: Tensor, v: Tensor, table: Table)
    requires |s.shape| == 4 && |t.shape| == 4
    requires G.Flatten(s) == Some(first) && G.Flatten(t) == Some(second)
    requires O.Transpose(first, G.TIME_LAST) == Some(turned) && Evaluate(MatMul, [turned, second], table) == Some([v])
    ensures G.LoweredGlobal(s, t) == Some(v)
  {
    assert O.MatMul(turned, second) == Some(v) by { assert [v][0] == v; }
  }

  /** The last node of a lowered reduction that runs. */
  lemma ProductBound(w: Window, k: nat, x: string, y: string, out: string, before: seq<Node>, env: Env, mid: Env, table: Table,
                     value: Tensor)
    requires Reaches(before, env, table, mid, w, k) && Apart(w, out) && out !in env && x in mid && y in mid
    requires Binds(before + FinalStep(w.p, k, MatMul, [x, y], out).nodes, env, table, out, value)
    ensures Evaluate(MatMul, [mid[x], mid[y]], table) == Some([value])
  {
    MatMulOne(mid[x], mid[y], table);
    FinalBound(w, k, MatMul, x, y, out, before, env, mid, table, value);
  }

  /** Whatever the lowered reduction computes is its value on the operands. */
  lemma GlobalRuns(w: Window, k: nat, left: string, right: string, out: string, env: Env, table: Table, value: Tensor)
    requires w.lo <= k && k + 11 <= w.hi
    requires Unbound(w, k, env) && Apart(w, out) && out !in env && left in env && right in env
    requires Loaded(FlattenStep(w.p, k, left).constants + FlattenStep(w.p, k + 5, right).constants, env)
    requires |env[left].shape| == 4 && |env[right].shape| == 4
    requires Binds(FlattenStep(w.p, k, left).nodes + FlattenStep(w.p, k + 5, right).nodes
                   + TempStep(w.p, k + 10, Transpose(G.TIME_LAST), [Fresh(w.p, "intermediate", k + 4)]).nodes
                   + FinalStep(w.p, k + 11, MatMul, [Fresh(w.p, "intermediate", k + 10), Fresh(w.p, "intermediate", k + 9)], out).nodes,
                   env, table, out, value)
    ensures G.LoweredGlobal(env[left], env[right]) == Some(value)
  {
    var x, y, z := Fresh(w.p, "intermediate", k + 4), Fresh(w.p, "intermediate", k + 9), Fresh(w.p, "intermediate", k + 10);
    var flat := FlattenStep(w.p, k, left).nodes + FlattenStep(w.p, k + 5, right).nodes;
    var turn, last := TempStep(w.p, k + 10, Transpose(G.TIME_LAST), [x]).nodes, FinalStep(w.p, k + 11, MatMul, [z, y], out).nodes;
    LoadedParts(FlattenStep(w.p, k, left).constants, FlattenStep(w.p, k + 5, right).constants, env);
    Regroup(flat, turn, last);
    var mid := BothFlatten(w, k, left, right, turn + last, env, table);
    var next := TransposeRuns(w, k + 10, x, G.TIME_LAST, flat, last, env, mid, table);
    ProductBound(w, k + 11, z, y, out, flat + turn, env, next, table, value);
    LoweredWhole(env[left], env[right], mid[x], mid[y], next[z], value, table);
  }

  // ----- One Einsum

  /** The seven equations as three written terms. */
  function EquationText(kind: Kind): string {
    match kind
    case Features => Text(true, [], false, ['f'], true, ['f'])
    case Heads => Text(true, ['d'], false, ['h', 'd'], true, ['h', 'd'])
    case Positions => Text(false, ['i'], false, ['j'], false, ['i', 'j'])
    case Scores => Text(true, ['i', 'd'], true, ['j', 'd'], true, ['i', 'j'])
    case Values => Text(true, ['i', 'j'], true, ['j', 'd'], true, ['i', 'd'])
    case Global => Text(false, ['b', 'g', 'n', 'd'], false, ['b', 'g', 'n', 'e'], false, ['b', 'd', 'e'])
    case Shared => Text(false, ['b', 'g', 'n', 'd'], false, ['b', 'd', 'e'], false, ['b', 'g', 'n', 'e'])
  }

  lemma FeaturesText()
    ensures "...,f->...f" == Text(true, [], false, ['f'], true, ['f'])
  {
  }

  lemma HeadsText()
    ensures "...d,hd->...hd" == Text(true, ['d'], false, ['h', 'd'], true, ['h', 'd'])
  {
  }

  lemma PositionsText()
    ensures "i,j->ij" == Text(false, ['i'], false, ['j'], false, ['i', 'j'])
  {
  }

  lemma ScoresText()
    ensures "...id,...jd->...ij" == Text(true, ['i', 'd'], true, ['j', 'd'], true, ['i', 'j'])
  {
  }

  lemma ValuesText()
    ensures "...ij,...jd->...id" == Text(true, ['i', 'j'], true, ['j', 'd'], true, ['i', 'd'])
  {
  }

  lemma GlobalText()
    ensures "bgnd,bgne->bde" == Text(false, ['b', 'g', 'n', 'd'], false, ['b', 'g', 'n', 'e'], false, ['b', 'd', 'e'])
  {
  }

  lemma SharedText()
    ensures "bgnd,bde->bgne" == Text(false, ['b', 'g', 'n', 'd'], false, ['b', 'd', 'e'], false, ['b', 'g', 'n', 'e'])
  {
  }

  lemma KindText(equation: string, kind: Kind)
    requires KindOf(equation) == Some(kind)
    ensures equation == EquationText(kind)
  {
    match kind
    case Features => FeaturesText();
    case Heads => HeadsText();
    case Positions => PositionsText();
    case Scores => ScoresText();
    case Values => ValuesText();
    case Global => GlobalText();
    case Shared => SharedText();
  }

  /** The one equation whose lowering needs non-empty axes. */
  ghost predicate GlobalAxesNonEmpty(kind: Kind, a: Tensor, b: Tensor) {
    kind == Global && |a.shape| == 4 && |b.shape| == 4 ==> a.shape[0] != 0 && a.shape[3] != 0 && b.shape[3] != 0
  }

  ghost predicate RankHolds(ranks: Ranks, env: Env, x: string) {
    x in ranks && x in env ==> |env[x].shape| == ranks[x]
  }

  /** The intermediates of one lowering: every emitted node but the last binds one. */
  function WindowOf(kind: Kind, p: string, k: nat): Window {
    Window(p, k, k + match kind case Values => 0 case Global => 11 case _ => 1)
  }

  /** An environment in which the lowering of an Einsum with a value can run. */
  ghost predicate LoweringReady(kind: Kind, p: string, k: nat, left: string, right: string, out: string, ranks: Ranks,
                                env: Env, value: Tensor) {
    && RanksSupport(kind, left, right, ranks) && RankHolds(ranks, env, left) && RankHolds(ranks, env, right)
    && var w := WindowOf(kind, p, k);
    && Unbound(w, k, env) && Apart(w, out) && out !in env && left in env && right in env
    && Loaded(Lower(kind, p, k, left, right, out, ranks).constants, env)
    && Contract(EquationText(kind), env[left], env[right]) == Some(value)
  }

  lemma FeaturesComputed(p: string, k: nat, left: string, right: string, out: string, ranks: Ranks,
                         env: Env, table: Table, value: Tensor)
    requires LoweringReady(Features, p, k, left, right, out, ranks, env, value)
    ensures Computes(Lower(Features, p, k, left, right, out, ranks), env, table, out, value)
  {
    var (a, b) := (env[left], env[right]);
    var w := WindowOf(Features, p, k);
    C.ScaleFeatures('f', a, b, value);
    ScaleComputes(w, k, left, right, out, -1, env, table, value);
  }

  lemma HeadsComputed(p: string, k: nat, left: string, right: string, out: string, ranks: Ranks,
                         env: Env, table: Table, value: Tensor)
    requires LoweringReady(Heads, p, k, left, right, out, ranks, env, value)
    ensures Computes(Lower(Heads, p, k, left, right, out, ranks), env, table, out, value)
  {
    var (a, b) := (env[left], env[right]);
    var w := WindowOf(Heads, p, k);
    C.ScaleHeads('d', 'h', a, b, value);
    ScaleComputes(w, k, left, right, out, -2, env, table, value);
  }

  lemma PositionsComputed(p: string, k: nat, left: string, right: string, out: string, ranks: Ranks,
                         env: Env, table: Table, value: Tensor)
    requires LoweringReady(Positions, p, k, left, right, out, ranks, env, value)
    ensures Computes(Lower(Positions, p, k, left, right, out, ranks), env, table, out, value)
  {
    var (a, b) := (env[left], env[right]);
    var w := WindowOf(Positions, p, k);
    C.ScalePositions('i', 'j', a, b, value);
    ScaleComputes(w, k, left, right, out, 1, env, table, value);
  }

  lemma ScoresComputed(p: string, k: nat, left: string, right: string, out: string, ranks: Ranks,
                         env: Env, table: Table, value: Tensor)
    requires LoweringReady(Scores, p, k, left, right, out, ranks, env, value)
    ensures Computes(Lower(Scores, p, k, left, right, out, ranks), env, table, out, value)
  {
    var (a, b) := (env[left], env[right]);
    var w := WindowOf(Scores, p, k);
    S.Scores('i', 'j', 'd', a, b, value);
    var perm := S.TailSwap(ranks[right]);
    EvaluateTranspose(perm, b, O.Transpose(b, perm).value, table);
    ScoresComputes(w, k, left, right, out, perm, O.Transpose(b, perm).value, env, table, value);
  }

  lemma ValuesComputed(p: string, k: nat, left: string, right: string, out: string, ranks: Ranks,
                         env: Env, table: Table, value: Tensor)
    requires LoweringReady(Values, p, k, left, right, out, ranks, env, value)
    ensures Computes(Lower(Values, p, k, left, right, out, ranks), env, table, out, value)
  {
    var (a, b) := (env[left], env[right]);
    var w := WindowOf(Values, p, k);
    C.WeightedValues('i', 'j', 'd', a, b, value);
    ValuesComputes(w, k, left, right, out, env, table, value);
  }

  lemma GlobalConstants(p: string, k: nat, left: string, right: string, out: string, ranks: Ranks, env: Env)
    requires RanksSupport(Global, left, right, ranks)
    requires Loaded(Lower(Global, p, k, left, right, out, ranks).constants, env)
    ensures Loaded(FlattenStep(p, k, left).constants + FlattenStep(p, k + 5, right).constants, env)
  {
    var parts := FlattenStep(p, k, left).constants + FlattenStep(p, k + 5, right).constants;
    assert Lower(Global, p, k, left, right, out, ranks).constants == parts;
  }

  lemma GlobalEvaluated(a: Tensor, b: Tensor, value: Tensor, table: Table)
    returns (first: Tensor, second: Tensor, turned: Tensor)
    requires |a.shape| == 4 && |b.shape| == 4 && G.LoweredGlobal(a, b) == Some(value)
    ensures G.Flatten(a) == Some(first) && G.Flatten(b) == Some(second)
    ensures Evaluate(Transpose(G.TIME_LAST), [first], table) == Some([turned])
    ensures Evaluate(MatMul, [turned, second], table) == Some([value])
  {
    first, second, turned := G.LoweredParts(a, b, value);
    EvaluateTranspose(G.TIME_LAST, first, turned, table);
    EvaluateMatMul(turned, second, value, table);
  }

  lemma LowerGlobalNodes(p: string, k: nat, left: string, right: string, out: string, ranks: Ranks)
    requires RanksSupport(Global, left, right, ranks)
    ensures Lower(Global, p, k, left, right, out, ranks).nodes ==
            FlattenStep(p, k, left).nodes + FlattenStep(p, k + 5, right).nodes
            + TempStep(p, k + 10, Transpose(G.TIME_LAST), [Fresh(p, "intermediate", k + 4)]).nodes
            + FinalStep(p, k + 11, MatMul, [Fresh(p, "intermediate", k + 10), Fresh(p, "intermediate", k + 9)], out).nodes
  {
  }

  lemma GlobalComputed(p: string, k: nat, left: string, right: string, out: string, ranks: Ranks,
                         env: Env, table: Table, value: Tensor)
    requires LoweringReady(Global, p, k, left, right, out, ranks, env, value)
    ensures Computes(Lower(Global, p, k, left, right, out, ranks), env, table, out, value) <==>
            GlobalAxesNonEmpty(Global, env[left], env[right])
  {
    var (a, b) := (env[left], env[right]);
    var w := WindowOf(Global, p, k);
    G.GlobalReduction('b', 'g', 'n', 'd', 'e', a, b, value);
    GlobalConstants(p, k, left, right, out, ranks, env);
    if GlobalAxesNonEmpty(Global, a, b) {
      var first, second, turned := GlobalEvaluated(a, b, value, table);
      GlobalComputes(w, k, left, right, out, first, second, turned, env, table, value);
    }
    if Computes(Lower(Global, p, k, left, right, out, ranks), env, table, out, value) {
      LowerGlobalNodes(p, k, left, right, out, ranks);
      GlobalRuns(w, k, left, right, out, env, table, value);
    }
  }

  lemma SharedComputed(p: string, k: nat, left: string, right: string, out: string, ranks: Ranks,
                         env: Env, table: Table, value: Tensor)
    requires LoweringReady(Shared, p, k, left, right, out, ranks, env, value)
    ensures Computes(Lower(Shared, p, k, left, right, out, ranks), env, table, out, value)
  {
    var (a, b) := (env[left], env[right]);
    var w := WindowOf(Shared, p, k);
    S.SharedMatrix('b', 'g', 'n', 'd', 'e', a, b, value);
    LoadedParts(UnsqueezeStep(p, k, right, 1).constants, [], env);
    SharedComputes(w, k, left, right, out, env, table, value);
  }

  /**
   The lowering of an Einsum with a value computes that value, exactly when, for the reduction over
   groups and frames, the batch and feature axes are non-empty.
   */
  lemma LoweringComputes(kind: Kind, p: string, k: nat, left: string, right: string, out: string, ranks: Ranks,
                         env: Env, table: Table, value: Tensor)
    requires LoweringReady(kind, p, k, left, right, out, ranks, env, value)
    ensures Computes(Lower(kind, p, k, left, right, out, ranks), env, table, out, value) <==>
            GlobalAxesNonEmpty(kind, env[left], env[right])
  {
    match kind
    case Features => FeaturesComputed(p, k, left, right, out, ranks, env, table, value);
    case Heads => HeadsComputed(p, k, left, right, out, ranks, env, table, value);
    case Positions => PositionsComputed(p, k, left, right, out, ranks, env, table, value);
    case Scores => ScoresComputed(p, k, left, right, out, ranks, env, table, value);
    case Values => ValuesComputed(p, k, left, right, out, ranks, env, table, value);
    case Global => GlobalComputed(p, k, left, right, out, ranks, env, table, value);
    case Shared => SharedComputed(p, k, left, right, out, ranks, env, table, value);
  }
}
