/**
 The attention pass over a whole graph: its specification as a left-to-right rewriting, and the
 proof that the rewritten graph gives every original name its original value.
 */
module AttentionPass {
  import opened AttentionLowering
  import opened Decimals
  import opened Graphs
  import opened Tensors
  import opened Wrappers
  import E = Einsum
  import G = GlobalContraction
  import S = SequenceContractions

  // ----- Claiming generated names

  /** Claiming the names one after the other meets one that is already taken. */
  predicate Clash(names: seq<string>, occupied: set<string>) {
    names != [] && (names[0] in occupied || Clash(names[1..], occupied + {names[0]}))
  }

  lemma {:induction false} ClashAppend(a: seq<string>, b: seq<string>, occupied: set<string>)
    ensures Clash(a + b, occupied) <==> Clash(a, occupied) || Clash(b, occupied + SetOf(a))
  {
    if a == [] {
      assert a + b == b && occupied + SetOf(a) == occupied;
    } else {
      assert (a + b)[1..] == a[1..] + b;
      ClashAppend(a[1..], b, occupied + {a[0]});
      assert SetOf(a) == {a[0]} + SetOf(a[1..]);
      assert occupied + {a[0]} + SetOf(a[1..]) == occupied + SetOf(a);
    }
  }

  lemma {:induction false} NoClash(names: seq<string>, occupied: set<string>)
    requires !Clash(names, occupied)
    ensures SetOf(names) !! occupied
    ensures forall x :: multiset(names)[x] <= 1
  {
    if names != [] {
      NoClash(names[1..], occupied + {names[0]});
      assert SetOf(names) == {names[0]} + SetOf(names[1..]);
      assert names == [names[0]] + names[1..];
      assert names[0] !in SetOf(names[1..]);
    }
  }

  // ----- The specification

  datatype Progress = Progress(nodes: seq<Node>, constants: seq<(string, Tensor)>, temps: seq<string>,
                               names: seq<string>, count: nat)

  function Prefix(count: nat): string {
    "aii_attention_" + Decimal(count) + "_"
  }

  function EquationOf(node: Node): string
    requires node.op.Einsum? && |node.op.equations| == 1
  {
    Strip(node.op.equations[0])
  }

  function LowerNode(node: Node, count: nat, k: nat, ranks: Ranks): Lowering
    requires node.op.Einsum? && Supported(node, ranks)
  {
    Lower(KindOf(EquationOf(node)).value, Prefix(count), k, node.inputs[0], node.inputs[1], node.outputs[0], ranks)
  }

  function Advance(done: Progress, node: Node, ranks: Ranks): Progress
    requires Supported(node, ranks)
  {
    if node.op.Einsum? then
      var l := LowerNode(node, done.count, |done.nodes|, ranks);
      Progress(done.nodes + l.nodes, done.constants + l.constants, done.temps + l.temps, done.names + l.names,
               done.count + 1)
    else done.(nodes := done.nodes + [node])
  }

  predicate AllSupported(nodes: seq<Node>, ranks: Ranks) {
    forall node :: node in nodes ==> Supported(node, ranks)
  }

  /** The nodes and constants the pass leaves behind, and the names it claims on the way. */
  function Rewritten(nodes: seq<Node>, ranks: Ranks): Progress
    requires AllSupported(nodes, ranks)
  {
    if nodes == [] then Progress([], [], [], [], 0)
    else Advance(Rewritten(nodes[..|nodes| - 1], ranks), nodes[|nodes| - 1], ranks)
  }

  // ----- What one lowering claims

  /** Constants and intermediates are separate claims. */
  ghost predicate Tallied(constants: seq<(string, Tensor)>, temps: seq<string>, names: seq<string>) {
    multiset(ConstantNames(constants)) + multiset(temps) <= multiset(names)
  }

  lemma TalliedThen(c: seq<(string, Tensor)>, t: seq<string>, n: seq<string>,
                    c': seq<(string, Tensor)>, t': seq<string>, n': seq<string>)
    requires Tallied(c, t, n) && Tallied(c', t', n')
    ensures Tallied(c + c', t + t', n + n')
  {
    assert ConstantNames(c + c') == ConstantNames(c) + ConstantNames(c');
  }

  /** Its nodes bind its intermediates and the given further names. */
  ghost predicate Tidy(l: Lowering, further: set<string>) {
    Tallied(l.constants, l.temps, l.names) && OutputsOf(l.nodes) == SetOf(l.temps) + further
  }

  lemma TidyThen(a: Lowering, b: Lowering, further: set<string>)
    requires Tidy(a, {}) && Tidy(b, further)
    ensures Tidy(a.Then(b), further)
  {
    TalliedThen(a.constants, a.temps, a.names, b.constants, b.temps, b.names);
    OutputsAppend(a.nodes, b.nodes);
    assert SetOf(a.temps + b.temps) == SetOf(a.temps) + SetOf(b.temps);
  }

  lemma TidyConstant(p: string, role: string, k: nat, value: Tensor)
    ensures Tidy(ConstantStep(p, role, k, value), {})
  {
    assert ConstantNames([(Fresh(p, role, k), value)]) == [Fresh(p, role, k)];
  }

  lemma TidyTemp(p: string, k: nat, op: Op, inputs: seq<string>)
    ensures Tidy(TempStep(p, k, op, inputs), {})
  {
    assert ConstantNames([]) == [];
    assert [Fresh(p, "intermediate", k), Fresh(p, "node", k)] == [Fresh(p, "intermediate", k)] + [Fresh(p, "node", k)];
    OutputsOne(TempStep(p, k, op, inputs).nodes[0]);
  }

  lemma TidyFinal(p: string, k: nat, op: Op, inputs: seq<string>, out: string)
    ensures Tidy(FinalStep(p, k, op, inputs, out), {out})
  {
    assert ConstantNames([]) == [];
    OutputsOne(FinalStep(p, k, op, inputs, out).nodes[0]);
    assert SetOf([out]) == {out};
  }

  lemma TidySteps(p: string, k: nat, role: string, value: Tensor, op: Op, inputs: seq<string>)
    ensures Tidy(ConstantStep(p, role, k, value), {}) && Tidy(TempStep(p, k, op, inputs), {})
  {
    TidyConstant(p, role, k, value);
    TidyTemp(p, k, op, inputs);
  }

  lemma TidyReading(p: string, k: nat, op: Op, first: string, role: string, value: int, last: seq<string>)
    ensures Tidy(ReadingStep(p, k, op, first, role, value, last), {})
  {
    TidySteps(p, k, role, Vector([value]), op, [first, Fresh(p, role, k)] + last);
    TidyThen(ConstantStep(p, role, k, Vector([value])), TempStep(p, k, op, [first, Fresh(p, role, k)] + last), {});
  }

  lemma TidyFlatten(p: string, k: nat, value: string)
    ensures Tidy(FlattenStep(p, k, value), {})
  {
    var i0, i1, i2 := Fresh(p, "intermediate", k), Fresh(p, "intermediate", k + 1), Fresh(p, "intermediate", k + 2);
    var reshaped := [value, Fresh(p, "intermediate", k + 3)];
    var shape := TempStep(p, k, Shape, [value]);
    var batch := ReadingStep(p, k + 1, Gather(0), i0, "batch", 0, []);
    var width := ReadingStep(p, k + 2, Gather(0), i0, "width", 3, []);
    TidyTemp(p, k, Shape, [value]);
    TidyReading(p, k + 1, Gather(0), i0, "batch", 0, []);
    TidyReading(p, k + 2, Gather(0), i0, "width", 3, []);
    TidyReading(p, k + 3, Concat(0), i1, "extent", -1, [i2]);
    TidyTemp(p, k + 4, Reshape, reshaped);
    TidyThen(shape, batch, {});
    TidyThen(shape.Then(batch), width, {});
    TidyThen(ExtentsStep(p, k, value), ReadingStep(p, k + 3, Concat(0), i1, "extent", -1, [i2]), {});
    TidyThen(TargetStep(p, k, value), TempStep(p, k + 4, Reshape, reshaped), {});
  }

  lemma TidyUnsqueeze(p: string, k: nat, value: string, axis: int)
    ensures Tidy(UnsqueezeStep(p, k, value, axis), {})
  {
    TidySteps(p, k, "axes", Vector([axis]), Unsqueeze, [value, Fresh(p, "axes", k)]);
    TidyThen(ConstantStep(p, "axes", k, Vector([axis])), TempStep(p, k, Unsqueeze, [value, Fresh(p, "axes", k)]), {});
  }

  lemma TidyEnd(l: Lowering, p: string, k: nat, op: Op, inputs: seq<string>, out: string)
    requires Tidy(l, {})
    ensures Tidy(l.Then(FinalStep(p, k, op, inputs, out)), {out})
  {
    TidyFinal(p, k, op, inputs, out);
    TidyThen(l, FinalStep(p, k, op, inputs, out), {out});
  }

  lemma TidyGlobal(p: string, k: nat, left: string, right: string)
    ensures Tidy(FlattenStep(p, k, left).Then(FlattenStep(p, k + 5, right))
                 .Then(TempStep(p, k + 10, Transpose(G.TIME_LAST), [Fresh(p, "intermediate", k + 4)])), {})
  {
    TidyFlatten(p, k, left);
    TidyFlatten(p, k + 5, right);
    TidyThen(FlattenStep(p, k, left), FlattenStep(p, k + 5, right), {});
    TidyTemp(p, k + 10, Transpose(G.TIME_LAST), [Fresh(p, "intermediate", k + 4)]);
    TidyThen(FlattenStep(p, k, left).Then(FlattenStep(p, k + 5, right)),
             TempStep(p, k + 10, Transpose(G.TIME_LAST), [Fresh(p, "intermediate", k + 4)]), {});
  }

  lemma TidyLower(kind: Kind, p: string, k: nat, left: string, right: string, out: string, ranks: Ranks)
    requires RanksSupport(kind, left, right, ranks)
    ensures Tidy(Lower(kind, p, k, left, right, out, ranks), {out})
  {
    var temp := Fresh(p, "intermediate", k);
    match kind
    case Features =>
      TidyUnsqueeze(p, k, left, -1);
      TidyEnd(UnsqueezeStep(p, k, left, -1), p, k + 1, Mul, [temp, right], out);
    case Heads =>
      TidyUnsqueeze(p, k, left, -2);
      TidyEnd(UnsqueezeStep(p, k, left, -2), p, k + 1, Mul, [temp, right], out);
    case Positions =>
      TidyUnsqueeze(p, k, left, 1);
      TidyEnd(UnsqueezeStep(p, k, left, 1), p, k + 1, Mul, [temp, right], out);
    case Scores =>
      TidyTemp(p, k, Transpose(S.TailSwap(ranks[right])), [right]);
      TidyEnd(TransposeTailStep(p, k, right, ranks[right]), p, k + 1, MatMul, [left, temp], out);
    case Values => TidyFinal(p, k, MatMul, [left, right], out);
    case Global =>
      TidyGlobal(p, k, left, right);
      TidyEnd(FlattenStep(p, k, left).Then(FlattenStep(p, k + 5, right))
              .Then(TempStep(p, k + 10, Transpose(G.TIME_LAST), [Fresh(p, "intermediate", k + 4)])),
              p, k + 11, MatMul, [Fresh(p, "intermediate", k + 10), Fresh(p, "intermediate", k + 9)], out);
    case Shared =>
      TidyUnsqueeze(p, k, right, 1);
      TidyEnd(UnsqueezeStep(p, k, right, 1), p, k + 1, MatMul, [left, temp], out);
  }

  // ----- What one lowering binds

  /** The lowering's intermediates are those of its window, in order. */
  function WindowTemps(p: string, k: nat, count: nat): (temps: seq<string>)
    ensures |temps| == count && forall i :: 0 <= i < count ==> temps[i] == Fresh(p, "intermediate", k + i)
  {
    seq(count, i requires 0 <= i < count => Fresh(p, "intermediate", k + i))
  }

  lemma FlattenTemps(p: string, k: nat, value: string)
    ensures FlattenStep(p, k, value).temps == WindowTemps(p, k, 5)
    ensures FlattenStep(p, k, value).constants ==
            [(Fresh(p, "batch", k + 1), Vector([0])), (Fresh(p, "width", k + 2), Vector([3])), (Fresh(p, "extent", k + 3), Vector([-1]))]
  {
  }

  lemma LowerTemps(kind: Kind, p: string, k: nat, left: string, right: string, out: string, ranks: Ranks)
    requires RanksSupport(kind, left, right, ranks)
    ensures var w := WindowOf(kind, p, k);
            Lower(kind, p, k, left, right, out, ranks).temps == WindowTemps(p, k, w.hi - w.lo)
  {
    if kind == Global {
      FlattenTemps(p, k, left);
      FlattenTemps(p, k + 5, right);
      assert Lower(kind, p, k, left, right, out, ranks).temps ==
             WindowTemps(p, k, 5) + WindowTemps(p, k + 5, 5) + [Fresh(p, "intermediate", k + 10)];
    }
  }

  // ----- The meaning of the rewritten graph

  /** Every reduction over groups and frames that the graph evaluates sees non-empty axes. */
  ghost predicate ReductionsNonEmpty(nodes: seq<Node>, env: Env, ranks: Ranks)
    requires AllSupported(nodes, ranks)
  {
    forall node :: node in nodes && node.op.Einsum? && node.inputs[0] in env && node.inputs[1] in env ==>
      GlobalAxesNonEmpty(KindOf(EquationOf(node)).value, env[node.inputs[0]], env[node.inputs[1]])
  }

  /** The inferred ranks are those of the evaluated tensors. */
  ghost predicate RanksSound(ranks: Ranks, env: Env) {
    forall x :: x in ranks && x in env ==> |env[x].shape| == ranks[x]
  }

  /** What the lowered graph starts from: the original bindings and the constants, and nothing it will bind. */
  ghost predicate StartsFrom(done: Progress, nodes: seq<Node>, env: Env, low: Env) {
    && Extends(env, low) && Loaded(done.constants, low)
    && low.Keys !! SetOf(done.temps) && low.Keys !! OutputsOf(nodes)
  }

  ghost predicate Preserved(done: Progress, nodes: seq<Node>, env: Env, low: Env, table: Table)
    requires Run(nodes, env, table).Some?
  {
    && Run(done.nodes, low, table).Some?
    && Extends(Run(nodes, env, table).value, Run(done.nodes, low, table).value)
    && Run(done.nodes, low, table).value.Keys == low.Keys + SetOf(done.temps) + OutputsOf(nodes)
  }

  /** An untouched node. */
  lemma KeptStep(done: Progress, before: seq<Node>, node: Node, env: Env, low: Env, table: Table, occupied: set<string>)
    requires Run(before + [node], env, table).Some? && Run(before, env, table).Some?
    requires Preserved(done, before, env, low, table)
    requires low.Keys !! SetOf(node.outputs) && SetOf(done.temps) !! occupied && NamesOf(node) <= occupied
    ensures var next := done.(nodes := done.nodes + [node]);
            Run(next.nodes, low, table).Some? &&
            Extends(Run(before + [node], env, table).value, Run(next.nodes, low, table).value) &&
            Run(next.nodes, low, table).value.Keys == low.Keys + SetOf(done.temps) + (OutputsOf(before) + SetOf(node.outputs))
  {
    var mid, wide := Run(before, env, table).value, Run(done.nodes, low, table).value;
    RunAppend(before, [node], env, table);
    RunAppend(done.nodes, [node], low, table);
    RunOne(node, mid, table);
    RunOne(node, wide, table);
    StepExtends(node, mid, table);
    RunKeys(before, env, table);
    StepWider(node, mid, wide, table);
  }

  lemma EinsumValue(node: Node, env: Env, table: Table) returns (value: Tensor)
    requires node.op.Einsum? && |node.op.equations| == 1 && |node.inputs| == 2 && |node.outputs| == 1
    requires Step(node, env, table).Some?
    ensures node.inputs[0] in env && node.inputs[1] in env && node.outputs[0] !in env
    ensures E.Contract(EquationOf(node), env[node.inputs[0]], env[node.inputs[1]]) == Some(value)
    ensures Step(node, env, table) == Some(env[node.outputs[0] := value])
  {
    var (left, right) := (node.inputs[0], node.inputs[1]);
    assert node.inputs == [left, right] && [left, right][1..] == [right];
    assert Lookup([right], env).Some?;
    LookupTwo(left, right, env);
    value := E.Contract(EquationOf(node), env[left], env[right]).value;
    assert node.outputs == [node.outputs[0]];
    StepExtends(node, env, table);
    assert node.outputs[0] in SetOf(node.outputs);
    StepOne(node, env, table, [env[left], env[right]], node.outputs[0], value);
  }

  lemma WindowFree(w: Window, temps: seq<string>, out: string, wide: Env)
    requires w.lo <= w.hi && temps == WindowTemps(w.p, w.lo, w.hi - w.lo)
    requires SetOf(temps) !! wide.Keys && out !in temps
    ensures Unbound(w, w.lo, wide) && Apart(w, out)
  {
    forall i: nat | w.lo <= i < w.hi
      ensures Fresh(w.p, "intermediate", i) !in wide && out != Fresh(w.p, "intermediate", i)
    {
      assert temps[i - w.lo] == Fresh(w.p, "intermediate", i);
      assert Fresh(w.p, "intermediate", i) in SetOf(temps);
    }
  }

  /** The environment the lowered nodes run in is ready for them. */
  lemma LoweredReady(l: Lowering, kind: Kind, p: string, k: nat, left: string, right: string, out: string, ranks: Ranks,
                     mid: Env, wide: Env, value: Tensor)
    requires RanksSupport(kind, left, right, ranks) && l == Lower(kind, p, k, left, right, out, ranks)
    requires Extends(mid, wide) && left in mid && right in mid && out !in wide
    requires SetOf(l.temps) !! wide.Keys && out !in l.temps && Loaded(l.constants, wide)
    requires RankHolds(ranks, mid, left) && RankHolds(ranks, mid, right)
    requires E.Contract(EquationText(kind), mid[left], mid[right]) == Some(value)
    ensures LoweringReady(kind, p, k, left, right, out, ranks, wide, value)
  {
    LowerTemps(kind, p, k, left, right, out, ranks);
    WindowFree(WindowOf(kind, p, k), l.temps, out, wide);
  }

  /** The lowering of a node whose operands are bound, run where they are. */
  lemma LoweredRun(l: Lowering, kind: Kind, p: string, k: nat, left: string, right: string, out: string, ranks: Ranks,
                   mid: Env, wide: Env, table: Table, value: Tensor)
    requires RanksSupport(kind, left, right, ranks) && l == Lower(kind, p, k, left, right, out, ranks)
    requires Extends(mid, wide) && left in mid && right in mid && out !in wide && out !in mid
    requires SetOf(l.temps) !! wide.Keys && out !in l.temps && Loaded(l.constants, wide)
    requires RankHolds(ranks, mid, left) && RankHolds(ranks, mid, right)
    requires E.Contract(EquationText(kind), mid[left], mid[right]) == Some(value)
    ensures Run(l.nodes, wide, table).Some? && Extends(mid[out := value], Run(l.nodes, wide, table).value) <==>
            GlobalAxesNonEmpty(kind, mid[left], mid[right])
    ensures OutputsOf(l.nodes) == SetOf(l.temps) + {out}
  {
    LoweredReady(l, kind, p, k, left, right, out, ranks, mid, wide, value);
    LoweringComputes(kind, p, k, left, right, out, ranks, wide, table, value);
    TidyLower(kind, p, k, left, right, out, ranks);
    WiderBound(l, mid, wide, out, value, table);
  }

  lemma WiderBound(l: Lowering, mid: Env, wide: Env, out: string, value: Tensor, table: Table)
    requires Extends(mid, wide) && out !in mid
    ensures Computes(l, wide, table, out, value) <==>
            Run(l.nodes, wide, table).Some? && Extends(mid[out := value], Run(l.nodes, wide, table).value)
  {
    if Run(l.nodes, wide, table).Some? {
      RunExtends(l.nodes, wide, table);
    }
  }

  /** An Einsum that evaluates, against its lowering in a wider environment. */
  lemma LoweredNode(node: Node, count: nat, k: nat, ranks: Ranks, mid: Env, wide: Env, table: Table)
    requires node.op.Einsum? && Supported(node, ranks) && RanksSound(ranks, mid)
    requires Step(node, mid, table).Some? && Extends(mid, wide) && node.outputs[0] !in wide
    requires var l := LowerNode(node, count, k, ranks);
             Loaded(l.constants, wide) && node.outputs[0] !in l.temps && SetOf(l.temps) !! wide.Keys
    ensures var l := LowerNode(node, count, k, ranks);
            (Run(l.nodes, wide, table).Some? && Extends(Step(node, mid, table).value, Run(l.nodes, wide, table).value) <==>
             ReductionsNonEmpty([node], mid, ranks)) &&
            OutputsOf(l.nodes) == SetOf(l.temps) + {node.outputs[0]}
  {
    var l := LowerNode(node, count, k, ranks);
    var kind := KindOf(EquationOf(node)).value;
    var value := EinsumValue(node, mid, table);
    KindText(EquationOf(node), kind);
    assert node in [node];
    LoweredRun(l, kind, Prefix(count), k, node.inputs[0], node.inputs[1], node.outputs[0], ranks, mid, wide, table, value);
  }

  /** What the lowering of a node needs of the graph so far and of the bindings the run starts from. */
  ghost predicate ClearFor(done: Progress, before: seq<Node>, node: Node, ranks: Ranks, low: Env)
    requires node.op.Einsum? && Supported(node, ranks)
  {
    var (l, out) := (LowerNode(node, done.count, |done.nodes|, ranks), node.outputs[0]);
    && Loaded(l.constants, low) && out !in l.temps && out !in done.temps && out !in low
    && SetOf(l.temps) !! low.Keys && SetOf(l.temps) !! SetOf(done.temps) && SetOf(l.temps) !! OutputsOf(before)
  }

  /** A lowered Einsum. */
  lemma LoweredStep(done: Progress, before: seq<Node>, node: Node, env: Env, low: Env, table: Table, ranks: Ranks)
    requires Run(before + [node], env, table).Some? && Run(before, env, table).Some?
    requires Preserved(done, before, env, low, table)
    requires node.op.Einsum? && Supported(node, ranks) && RanksSound(ranks, Run(before, env, table).value)
    requires ClearFor(done, before, node, ranks, low)
    ensures var l := LowerNode(node, done.count, |done.nodes|, ranks);
            (Run(done.nodes + l.nodes, low, table).Some? &&
             Extends(Run(before + [node], env, table).value, Run(done.nodes + l.nodes, low, table).value) <==>
             ReductionsNonEmpty([node], Run(before, env, table).value, ranks)) &&
            (Run(done.nodes + l.nodes, low, table).Some? ==>
             Run(done.nodes + l.nodes, low, table).value.Keys ==
             low.Keys + SetOf(done.temps) + OutputsOf(before) + (SetOf(l.temps) + {node.outputs[0]}))
  {
    var l := LowerNode(node, done.count, |done.nodes|, ranks);
    var mid, wide := Run(before, env, table).value, Run(done.nodes, low, table).value;
    StepAfter(before, node, env, table);
    RunExtends(done.nodes, low, table);
    LoadedWider(l.constants, low, wide);
    LoweredNode(node, done.count, |done.nodes|, ranks, mid, wide, table);
    RunAppend(done.nodes, l.nodes, low, table);
    if Run(l.nodes, wide, table).Some? {
      RunKeys(l.nodes, wide, table);
    }
  }

  lemma StepAfter(before: seq<Node>, node: Node, env: Env, table: Table)
    requires Run(before, env, table).Some?
    ensures Run(before + [node], env, table) == Step(node, Run(before, env, table).value, table)
    ensures Run(before + [node], env, table).Some? ==> SetOf(node.outputs) !! Run(before, env, table).value.Keys
    ensures Run(before, env, table).value.Keys == env.Keys + OutputsOf(before)
  {
    RunAppend(before, [node], env, table);
    RunOne(node, Run(before, env, table).value, table);
    RunKeys(before, env, table);
    if Run(before + [node], env, table).Some? {
      StepExtends(node, Run(before, env, table).value, table);
    }
  }

  lemma LoadedWider(constants: seq<(string, Tensor)>, low: Env, wide: Env)
    requires Loaded(constants, low) && Extends(low, wide)
    ensures Loaded(constants, wide)
  {
    forall i | 0 <= i < |constants|
      ensures constants[i].0 in wide && wide[constants[i].0] == constants[i].1
    {
      assert constants[i].0 in low;
    }
  }

  lemma AdvanceClaims(done: Progress, node: Node, ranks: Ranks, occupied: set<string>)
    requires Supported(node, ranks) && Tallied(done.constants, done.temps, done.names)
    requires !Clash(Advance(done, node, ranks).names, occupied)
    ensures !Clash(done.names, occupied)
    ensures Tallied(Advance(done, node, ranks).constants, Advance(done, node, ranks).temps, Advance(done, node, ranks).names)
    ensures node.op.Einsum? ==>
              var l := LowerNode(node, done.count, |done.nodes|, ranks);
              SetOf(l.temps) !! occupied && SetOf(l.temps) !! SetOf(done.temps)
  {
    if node.op.Einsum? {
      var l := LowerNode(node, done.count, |done.nodes|, ranks);
      ClashAppend(done.names, l.names, occupied);
      TidyLower(KindOf(EquationOf(node)).value, Prefix(done.count), |done.nodes|, node.inputs[0], node.inputs[1],
                node.outputs[0], ranks);
      TalliedThen(done.constants, done.temps, done.names, l.constants, l.temps, l.names);
      NoClash(l.names, occupied + SetOf(done.names));
      TemporariesClaimed(l.constants, l.temps, l.names);
      TemporariesClaimed(done.constants, done.temps, done.names);
    }
  }

  lemma TemporariesClaimed(c: seq<(string, Tensor)>, t: seq<string>, n: seq<string>)
    requires Tallied(c, t, n)
    ensures SetOf(t) <= SetOf(n) && SetOf(ConstantNames(c)) <= SetOf(n)
  {
    forall x | x in t
      ensures x in n
    {
      assert multiset(t)[x] <= multiset(n)[x];
      assert x in multiset(t);
      assert x in multiset(n);
    }
    forall x | x in ConstantNames(c)
      ensures x in n
    {
      assert x in multiset(ConstantNames(c));
      assert x in multiset(n);
    }
  }

  lemma StartsFromPart(done: Progress, before: seq<Node>, node: Node, ranks: Ranks, env: Env, low: Env)
    requires Supported(node, ranks) && StartsFrom(Advance(done, node, ranks), before + [node], env, low)
    ensures StartsFrom(done, before, env, low) && low.Keys !! SetOf(node.outputs)
    ensures node.op.Einsum? ==>
              var l := LowerNode(node, done.count, |done.nodes|, ranks);
              Loaded(l.constants, low) && low.Keys !! SetOf(l.temps)
  {
    OutputsAppend(before, [node]);
    OutputsOne(node);
    if node.op.Einsum? {
      var l := LowerNode(node, done.count, |done.nodes|, ranks);
      LoadedParts(done.constants, l.constants, low);
      assert SetOf(done.temps + l.temps) == SetOf(done.temps) + SetOf(l.temps);
    }
  }

  /** The reductions of a graph are those of its nodes but the last, and the last one. */
  lemma ReductionsPart(before: seq<Node>, node: Node, ranks: Ranks, env: Env, table: Table)
    requires AllSupported(before + [node], ranks) && Run(before + [node], env, table).Some? && Run(before, env, table).Some?
    ensures AllSupported(before, ranks) && Supported(node, ranks)
    ensures var (mid, final) := (Run(before, env, table).value, Run(before + [node], env, table).value);
            Extends(mid, final) &&
            (ReductionsNonEmpty(before + [node], final, ranks) <==>
             ReductionsNonEmpty(before, mid, ranks) && ReductionsNonEmpty([node], mid, ranks))
  {
    var mid, final := Run(before, env, table).value, Run(before + [node], env, table).value;
    assert node in before + [node];
    assert forall n :: n in before ==> n in before + [node];
    assert forall n :: n in before + [node] ==> n in before || n in [node];
    StepAfter(before, node, env, table);
    StepExtends(node, mid, table);
    LookupLength(node.inputs, mid);
    forall n | n in before
      ensures SetOf(n.inputs) <= mid.Keys
    {
      RunReads(before, env, table, n);
    }
    assert forall n :: n in before + [node] ==> SetOf(n.inputs) <= mid.Keys;
    ReadsAlike(before, node, mid, final, ranks);
  }

  lemma ReadsAlike(before: seq<Node>, node: Node, mid: Env, final: Env, ranks: Ranks)
    requires AllSupported(before + [node], ranks) && AllSupported(before, ranks) && Supported(node, ranks)
    requires Extends(mid, final) && forall n :: n in before + [node] ==> SetOf(n.inputs) <= mid.Keys
    ensures ReductionsNonEmpty(before + [node], final, ranks) <==>
            ReductionsNonEmpty(before, mid, ranks) && ReductionsNonEmpty([node], mid, ranks)
  {
    assert forall n :: n in before + [node] <==> n in before || n in [node];
    forall n | n in before + [node] && n.op.Einsum?
      ensures n.inputs[0] in mid && n.inputs[1] in mid && final[n.inputs[0]] == mid[n.inputs[0]] && final[n.inputs[1]] == mid[n.inputs[1]]
    {
      assert n.inputs[0] in SetOf(n.inputs) && n.inputs[1] in SetOf(n.inputs);
    }
  }

  lemma {:induction false} RewritingTallies(nodes: seq<Node>, ranks: Ranks)
    requires AllSupported(nodes, ranks)
    ensures var done := Rewritten(nodes, ranks); Tallied(done.constants, done.temps, done.names)
    decreases |nodes|
  {
    if nodes == [] {
      assert ConstantNames([]) == [];
    } else {
      var before, node := nodes[..|nodes| - 1], nodes[|nodes| - 1];
      RewritingTallies(before, ranks);
      var done := Rewritten(before, ranks);
      if node.op.Einsum? {
        var l := LowerNode(node, done.count, |done.nodes|, ranks);
        TidyLower(KindOf(EquationOf(node)).value, Prefix(done.count), |done.nodes|, node.inputs[0], node.inputs[1],
                  node.outputs[0], ranks);
        TalliedThen(done.constants, done.temps, done.names, l.constants, l.temps, l.names);
      }
    }
  }

  /** The generated names stay clear of the original ones. */
  lemma ClaimsApart(done: Progress, before: seq<Node>, node: Node, ranks: Ranks, occupied: set<string>)
    requires Supported(node, ranks) && Tallied(done.constants, done.temps, done.names)
    requires !Clash(Advance(done, node, ranks).names, occupied) && NodeNames(before + [node]) <= occupied
    ensures SetOf(done.temps) !! occupied && NamesOf(node) <= occupied && OutputsOf(before) <= occupied
    ensures OutputsOf(before + [node]) == OutputsOf(before) + SetOf(node.outputs)
    ensures node.op.Einsum? ==>
              var l := LowerNode(node, done.count, |done.nodes|, ranks);
              SetOf(l.temps) !! occupied && SetOf(l.temps) !! SetOf(done.temps)
  {
    AdvanceClaims(done, node, ranks, occupied);
    NoClash(done.names, occupied);
    TemporariesClaimed(done.constants, done.temps, done.names);
    assert (before + [node])[..|before|] == before;
    OutputsNamed(before);
    OutputsAppend(before, [node]);
    OutputsOne(node);
  }

  lemma AdvanceClear(done: Progress, before: seq<Node>, node: Node, ranks: Ranks, env: Env, low: Env, occupied: set<string>)
    requires node.op.Einsum? && Supported(node, ranks)
    requires Tallied(done.constants, done.temps, done.names) && !Clash(Advance(done, node, ranks).names, occupied)
    requires NodeNames(before + [node]) <= occupied
    requires StartsFrom(Advance(done, node, ranks), before + [node], env, low)
    ensures ClearFor(done, before, node, ranks, low)
    ensures OutputsOf(before + [node]) == OutputsOf(before) + {node.outputs[0]}
  {
    ClaimsApart(done, before, node, ranks, occupied);
    StartsFromPart(done, before, node, ranks, env, low);
    var out := node.outputs[0];
    assert node.outputs == [out] && SetOf(node.outputs) == {out};
    assert out in NamesOf(node);
    TempsApart(out, done.temps, LowerNode(node, done.count, |done.nodes|, ranks).temps, occupied);
  }

  lemma TempsApart(out: string, a: seq<string>, b: seq<string>, occupied: set<string>)
    requires out in occupied && SetOf(a) !! occupied && SetOf(b) !! occupied
    ensures out !in a && out !in b
  {
    assert out !in SetOf(a) && out !in SetOf(b);
  }

  lemma AdvanceLowered(done: Progress, before: seq<Node>, node: Node, ranks: Ranks, env: Env, low: Env, table: Table,
                       occupied: set<string>)
    requires node.op.Einsum?
    requires Run(before + [node], env, table).Some? && Run(before, env, table).Some?
    requires Supported(node, ranks) && Preserved(done, before, env, low, table)
    requires Tallied(done.constants, done.temps, done.names) && !Clash(Advance(done, node, ranks).names, occupied)
    requires NodeNames(before + [node]) <= occupied
    requires StartsFrom(Advance(done, node, ranks), before + [node], env, low)
    requires RanksSound(ranks, Run(before, env, table).value)
    ensures Preserved(Advance(done, node, ranks), before + [node], env, low, table) <==>
            ReductionsNonEmpty([node], Run(before, env, table).value, ranks)
  {
    AdvanceClear(done, before, node, ranks, env, low, occupied);
    LoweredStep(done, before, node, env, low, table, ranks);
    var l := LowerNode(node, done.count, |done.nodes|, ranks);
    assert SetOf(done.temps + l.temps) == SetOf(done.temps) + SetOf(l.temps);
    Bindings(low.Keys, SetOf(done.temps), OutputsOf(before), SetOf(l.temps), {node.outputs[0]});
  }

  lemma Bindings(low: set<string>, temps: set<string>, outs: set<string>, more: set<string>, out: set<string>)
    ensures low + temps + outs + (more + out) == low + (temps + more) + (outs + out)
  {
  }

  lemma AdvanceKept(done: Progress, before: seq<Node>, node: Node, ranks: Ranks, env: Env, low: Env, table: Table,
                    occupied: set<string>)
    requires !node.op.Einsum?
    requires Run(before + [node], env, table).Some? && Run(before, env, table).Some?
    requires Supported(node, ranks) && Preserved(done, before, env, low, table)
    requires Tallied(done.constants, done.temps, done.names) && !Clash(Advance(done, node, ranks).names, occupied)
    requires NodeNames(before + [node]) <= occupied
    requires StartsFrom(Advance(done, node, ranks), before + [node], env, low)
    ensures Preserved(Advance(done, node, ranks), before + [node], env, low, table)
  {
    ClaimsApart(done, before, node, ranks, occupied);
    StartsFromPart(done, before, node, ranks, env, low);
    KeptStep(done, before, node, env, low, table, occupied);
  }

  lemma ExtendsBefore(mid: Env, final: Env, wide: Env, last: Env)
    requires Extends(mid, final) && Extends(final, last) && Extends(wide, last) && mid.Keys <= wide.Keys
    ensures Extends(mid, wide)
  {
  }

  /** What the rewritten nodes bind, if they run. */
  lemma RewrittenKeys(before: seq<Node>, ranks: Ranks, env: Env, low: Env, table: Table)
    requires AllSupported(before, ranks) && Extends(env, low)
    requires Run(before, env, table).Some? && Run(Rewritten(before, ranks).nodes, low, table).Some?
    ensures var (mid, wide) := (Run(before, env, table).value, Run(Rewritten(before, ranks).nodes, low, table).value);
            wide.Keys == low.Keys + SetOf(Rewritten(before, ranks).temps) + OutputsOf(before) && mid.Keys <= wide.Keys
  {
    RunKeys(before, env, table);
    RunKeys(Rewritten(before, ranks).nodes, low, table);
    RewrittenOutputs(before, ranks);
  }

  lemma AdvanceNodes(done: Progress, node: Node, ranks: Ranks) returns (more: seq<Node>)
    requires Supported(node, ranks)
    ensures Advance(done, node, ranks).nodes == done.nodes + more
  {
    more := if node.op.Einsum? then LowerNode(node, done.count, |done.nodes|, ranks).nodes else [node];
  }

  /** Whatever the whole rewritten graph preserves, its part for the nodes but the last preserves. */
  lemma PreservedPart(before: seq<Node>, node: Node, ranks: Ranks, env: Env, low: Env, table: Table)
    requires AllSupported(before, ranks) && Supported(node, ranks) && Extends(env, low)
    requires Run(before + [node], env, table).Some? && Run(before, env, table).Some?
    requires Preserved(Advance(Rewritten(before, ranks), node, ranks), before + [node], env, low, table)
    ensures Preserved(Rewritten(before, ranks), before, env, low, table)
  {
    var nodes := Rewritten(before, ranks).nodes;
    var more := AdvanceNodes(Rewritten(before, ranks), node, ranks);
    RunAppend(nodes, more, low, table);
    var mid, wide := Run(before, env, table).value, Run(nodes, low, table).value;
    RewrittenKeys(before, ranks, env, low, table);
    RunExtends(more, wide, table);
    StepAfter(before, node, env, table);
    StepExtends(node, mid, table);
    ExtendsBefore(mid, Run(before + [node], env, table).value, wide, Run(nodes + more, low, table).value);
  }

  /** The inductive step of the preservation. */
  lemma AdvancePreserves(before: seq<Node>, node: Node, ranks: Ranks, env: Env, low: Env, table: Table, occupied: set<string>)
    requires AllSupported(before, ranks) && Supported(node, ranks)
    requires Run(before + [node], env, table).Some? && Run(before, env, table).Some?
    requires !Clash(Advance(Rewritten(before, ranks), node, ranks).names, occupied) && NodeNames(before + [node]) <= occupied
    requires StartsFrom(Advance(Rewritten(before, ranks), node, ranks), before + [node], env, low)
    requires RanksSound(ranks, Run(before, env, table).value)
    ensures Preserved(Advance(Rewritten(before, ranks), node, ranks), before + [node], env, low, table) <==>
            Preserved(Rewritten(before, ranks), before, env, low, table) &&
            ReductionsNonEmpty([node], Run(before, env, table).value, ranks)
  {
    var done := Rewritten(before, ranks);
    if Preserved(Advance(done, node, ranks), before + [node], env, low, table) {
      PreservedPart(before, node, ranks, env, low, table);
    }
    RewritingTallies(before, ranks);
    if Preserved(done, before, env, low, table) {
      if node.op.Einsum? {
        AdvanceLowered(done, before, node, ranks, env, low, table, occupied);
      } else {
        AdvanceKept(done, before, node, ranks, env, low, table, occupied);
      }
    }
  }

  /** A supported graph that evaluates with the inferred ranks, its generated names free. */
  ghost predicate Attempt(nodes: seq<Node>, ranks: Ranks, env: Env, low: Env, table: Table, occupied: set<string>) {
    && AllSupported(nodes, ranks) && Run(nodes, env, table).Some?
    && !Clash(Rewritten(nodes, ranks).names, occupied) && NodeNames(nodes) <= occupied
    && StartsFrom(Rewritten(nodes, ranks), nodes, env, low)
    && RanksSound(ranks, Run(nodes, env, table).value)
  }

  lemma RewrittenNext(before: seq<Node>, node: Node, ranks: Ranks)
    requires AllSupported(before + [node], ranks)
    ensures AllSupported(before, ranks) && Supported(node, ranks)
    ensures Rewritten(before + [node], ranks) == Advance(Rewritten(before, ranks), node, ranks)
    ensures NodeNames(before) <= NodeNames(before + [node])
  {
    assert (before + [node])[..|before|] == before;
    assert node in before + [node];
    assert forall n :: n in before ==> n in before + [node];
  }

  lemma AttemptPart(before: seq<Node>, node: Node, ranks: Ranks, env: Env, low: Env, table: Table, occupied: set<string>)
    requires Attempt(before + [node], ranks, env, low, table, occupied)
    ensures Attempt(before, ranks, env, low, table, occupied)
  {
    RewrittenNext(before, node, ranks);
    RunAppend(before, [node], env, table);
    StepAfter(before, node, env, table);
    StepExtends(node, Run(before, env, table).value, table);
    StartsFromPart(Rewritten(before, ranks), before, node, ranks, env, low);
    RewritingTallies(before, ranks);
    AdvanceClaims(Rewritten(before, ranks), node, ranks, occupied);
  }

  lemma {:induction false} AttemptPreserves(nodes: seq<Node>, ranks: Ranks, env: Env, low: Env, table: Table, occupied: set<string>)
    requires Attempt(nodes, ranks, env, low, table, occupied)
    ensures Preserved(Rewritten(nodes, ranks), nodes, env, low, table) <==>
            ReductionsNonEmpty(nodes, Run(nodes, env, table).value, ranks)
    decreases |nodes|
  {
    if nodes != [] {
      var before, node := nodes[..|nodes| - 1], nodes[|nodes| - 1];
      assert nodes == before + [node];
      AttemptPart(before, node, ranks, env, low, table, occupied);
      AttemptPreserves(before, ranks, env, low, table, occupied);
      RewrittenNext(before, node, ranks);
      ReductionsPart(before, node, ranks, env, table);
      AdvancePreserves(before, node, ranks, env, low, table, occupied);
    }
  }

  /**
   Running the rewritten nodes on the original bindings plus the constants, where the original graph
   evaluates: it succeeds with every name of the original at its original value exactly when every
   reduction over groups and frames sees non-empty batch and feature axes.
   */
  lemma RewritingPreserves(nodes: seq<Node>, ranks: Ranks, env: Env, low: Env, table: Table, occupied: set<string>)
    requires AllSupported(nodes, ranks) && Run(nodes, env, table).Some?
    requires !Clash(Rewritten(nodes, ranks).names, occupied) && NodeNames(nodes) <= occupied
    requires StartsFrom(Rewritten(nodes, ranks), nodes, env, low)
    requires RanksSound(ranks, Run(nodes, env, table).value)
    ensures Preserved(Rewritten(nodes, ranks), nodes, env, low, table) <==>
            ReductionsNonEmpty(nodes, Run(nodes, env, table).value, ranks)
  {
    AttemptPreserves(nodes, ranks, env, low, table, occupied);
  }

  // ----- Starting the rewritten graph

  lemma TidyAppend(nodes: seq<Node>, temps: seq<string>, outs: set<string>, l: Lowering, outputs: seq<string>)
    requires |outputs| == 1 && Tidy(l, {outputs[0]}) && OutputsOf(nodes) == SetOf(temps) + outs
    ensures OutputsOf(nodes + l.nodes) == SetOf(temps + l.temps) + (outs + SetOf(outputs))
  {
    OutputsAppend(nodes, l.nodes);
    assert outputs == [outputs[0]] && SetOf(outputs) == {outputs[0]};
    assert SetOf(temps + l.temps) == SetOf(temps) + SetOf(l.temps);
  }

  lemma AdvanceOutputs(done: Progress, outs: set<string>, node: Node, ranks: Ranks)
    requires Supported(node, ranks) && OutputsOf(done.nodes) == SetOf(done.temps) + outs
    ensures OutputsOf(Advance(done, node, ranks).nodes) ==
            SetOf(Advance(done, node, ranks).temps) + (outs + SetOf(node.outputs))
  {
    if node.op.Einsum? {
      TidyLower(KindOf(EquationOf(node)).value, Prefix(done.count), |done.nodes|, node.inputs[0], node.inputs[1],
                node.outputs[0], ranks);
      TidyAppend(done.nodes, done.temps, outs, LowerNode(node, done.count, |done.nodes|, ranks), node.outputs);
    } else {
      OutputsAppend(done.nodes, [node]);
      OutputsOne(node);
    }
  }

  lemma {:induction false} RewrittenOutputs(nodes: seq<Node>, ranks: Ranks)
    requires AllSupported(nodes, ranks)
    ensures OutputsOf(Rewritten(nodes, ranks).nodes) == SetOf(Rewritten(nodes, ranks).temps) + OutputsOf(nodes)
    decreases |nodes|
  {
    if nodes != [] {
      var before, node := nodes[..|nodes| - 1], nodes[|nodes| - 1];
      RewrittenOutputs(before, ranks);
      assert node in nodes;
      AdvanceOutputs(Rewritten(before, ranks), OutputsOf(before), node, ranks);
    }
  }

  /** The bindings the rewritten graph is evaluated from. */
  function LoweredStart(nodes: seq<Node>, ranks: Ranks, env: Env): Env
    requires AllSupported(nodes, ranks)
  {
    env + Bound(Rewritten(nodes, ranks).constants)
  }

  /** No graph input that appears on no node carries a generated name with another value. */
  ghost predicate InputsClear(nodes: seq<Node>, ranks: Ranks, env: Env)
    requires AllSupported(nodes, ranks)
  {
    var done := Rewritten(nodes, ranks);
    env.Keys !! SetOf(done.temps) &&
    forall i :: 0 <= i < |done.constants| && done.constants[i].0 in env ==> env[done.constants[i].0] == done.constants[i].1
  }

  lemma StartClear(nodes: seq<Node>, ranks: Ranks, env: Env, table: Table, occupied: set<string>)
    requires AllSupported(nodes, ranks) && Run(nodes, env, table).Some?
    requires !Clash(Rewritten(nodes, ranks).names, occupied) && NodeNames(nodes) <= occupied
    requires InputsClear(nodes, ranks, env)
    ensures StartsFrom(Rewritten(nodes, ranks), nodes, env, LoweredStart(nodes, ranks, env))
  {
    var done, low := Rewritten(nodes, ranks), LoweredStart(nodes, ranks, env);
    RewritingTallies(nodes, ranks);
    NoClash(done.names, occupied);
    TemporariesClaimed(done.constants, done.temps, done.names);
    ClaimedOnce(done.constants, done.temps, done.names);
    BoundLoaded(done.constants);
    RunKeys(nodes, env, table);
    OutputsNamed(nodes);
    forall x | x in env
      ensures x in low && low[x] == env[x]
    {
      if x in SetOf(ConstantNames(done.constants)) {
        var i :| 0 <= i < |done.constants| && done.constants[i].0 == x;
      }
    }
  }

  lemma ClaimedOnce(c: seq<(string, Tensor)>, t: seq<string>, n: seq<string>)
    requires Tallied(c, t, n) && forall x :: multiset(n)[x] <= 1
    ensures forall x :: multiset(ConstantNames(c))[x] <= 1
    ensures SetOf(ConstantNames(c)) !! SetOf(t)
  {
    forall x
      ensures multiset(ConstantNames(c))[x] <= 1 && !(x in ConstantNames(c) && x in t)
    {
      assert multiset(ConstantNames(c))[x] + multiset(t)[x] <= multiset(n)[x];
      assert x in t <==> multiset(t)[x] > 0;
      assert x in ConstantNames(c) <==> multiset(ConstantNames(c))[x] > 0;
    }
  }

  /**
   The pass preserves the meaning of a graph exactly when no untouched input stands in the way of a
   generated name and no reduction over groups and frames has an empty batch or feature axis: then
   the rewritten graph evaluates, and every original name keeps its value.
   */
  lemma PassPreservesMeaning(nodes: seq<Node>, ranks: Ranks, env: Env, table: Table, occupied: set<string>)
    requires AllSupported(nodes, ranks) && Run(nodes, env, table).Some?
    requires !Clash(Rewritten(nodes, ranks).names, occupied) && NodeNames(nodes) <= occupied
    requires RanksSound(ranks, Run(nodes, env, table).value)
    ensures var low := LoweredStart(nodes, ranks, env);
            InputsClear(nodes, ranks, env) && ReductionsNonEmpty(nodes, Run(nodes, env, table).value, ranks) <==>
            Run(Rewritten(nodes, ranks).nodes, low, table).Some? &&
            Extends(Run(nodes, env, table).value, Run(Rewritten(nodes, ranks).nodes, low, table).value)
  {
    var done, low := Rewritten(nodes, ranks), LoweredStart(nodes, ranks, env);
    if Run(done.nodes, low, table).Some? && Extends(Run(nodes, env, table).value, Run(done.nodes, low, table).value) {
      ClearInputs(nodes, ranks, env, table, occupied);
    }
    if InputsClear(nodes, ranks, env) {
      StartClear(nodes, ranks, env, table, occupied);
      RewritingPreserves(nodes, ranks, env, low, table, occupied);
      PreservedKeys(nodes, ranks, env, low, table);
    }
  }

  lemma PreservedKeys(nodes: seq<Node>, ranks: Ranks, env: Env, low: Env, table: Table)
    requires AllSupported(nodes, ranks) && Run(nodes, env, table).Some?
    ensures Preserved(Rewritten(nodes, ranks), nodes, env, low, table) <==>
            Run(Rewritten(nodes, ranks).nodes, low, table).Some? &&
            Extends(Run(nodes, env, table).value, Run(Rewritten(nodes, ranks).nodes, low, table).value)
  {
    if Run(Rewritten(nodes, ranks).nodes, low, table).Some? {
      RunKeys(Rewritten(nodes, ranks).nodes, low, table);
      RewrittenOutputs(nodes, ranks);
    }
  }

  /** A rewritten graph that runs and keeps the inputs was not handed a generated name. */
  lemma ClearInputs(nodes: seq<Node>, ranks: Ranks, env: Env, table: Table, occupied: set<string>)
    requires AllSupported(nodes, ranks) && Run(nodes, env, table).Some?
    requires !Clash(Rewritten(nodes, ranks).names, occupied)
    requires var (done, low) := (Rewritten(nodes, ranks), LoweredStart(nodes, ranks, env));
             Run(done.nodes, low, table).Some? && Extends(Run(nodes, env, table).value, Run(done.nodes, low, table).value)
    ensures InputsClear(nodes, ranks, env)
  {
    var done, low := Rewritten(nodes, ranks), LoweredStart(nodes, ranks, env);
    RunKeys(done.nodes, low, table);
    RewrittenOutputs(nodes, ranks);
    RunExtends(nodes, env, table);
    RunExtends(done.nodes, low, table);
    RewritingTallies(nodes, ranks);
    NoClash(done.names, occupied);
    ClaimedOnce(done.constants, done.temps, done.names);
    BoundLoaded(done.constants);
  }
}
