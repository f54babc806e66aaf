/**
 The pass as the exporter runs it: node by node, appending to growing lists and claiming each
 generated name in a set of occupied names. It is proved to leave behind exactly the rewriting
 that AttentionPass specifies, and to leave the model untouched when it refuses.
 */
module AttentionRewriter {
  import opened AttentionLowering
  import opened AttentionPass
  import opened Decimals
  import opened Graphs
  import opened Sequences
  import opened Tensors
  import opened Wrappers
  import G = GlobalContraction
  import S = SequenceContractions

  datatype Refusal = SignatureDiffers | EquationDiffers | RankDiffers | NameCollides

  /** The rewriter's fields at one moment. */
  datatype Lists = Lists(prefix: string, nodes: seq<Node>, constants: seq<(string, Tensor)>, occupied: set<string>)

  /** The lists and names that grow while one Einsum after the other is lowered. */
  class Rewriter {
    const ranks: Ranks
    var prefix: string
    var nodes: seq<Node>
    var constants: seq<(string, Tensor)>
    var occupied: set<string>

    constructor (ranks: Ranks, occupied: set<string>)
      ensures this.ranks == ranks && this.occupied == occupied && nodes == [] && constants == []
    {
      this.ranks := ranks;
      this.occupied := occupied;
      prefix, nodes, constants := "", [], [];
    }

    ghost function Now(): Lists
      reads this
    {
      Lists(prefix, nodes, constants, occupied)
    }

    method Name(role: string) returns (r: Result<string, Refusal>)
      modifies this`occupied
      ensures r.Success? <==> prefix + role !in old(occupied)
      ensures r.Success? ==> r.value == prefix + role && occupied == old(occupied) + {r.value}
      ensures r.Failure? ==> r.error == NameCollides
    {
      var value := prefix + role;
      if value in occupied {
        return Failure(NameCollides);
      }
      occupied := occupied + {value};
      return Success(value);
    }

    method Constant(role: string, value: int) returns (r: Result<string, Refusal>)
      modifies this`occupied, this`constants
      ensures Grew(old(Now()), ConstantStep(prefix, role, |nodes|, Vector([value])), r.Success?, Now())
      ensures r.Success? ==> r.value == Fresh(prefix, role, |nodes|)
      ensures r.Failure? ==> r.error == NameCollides
    {
      assert prefix + (role + "_" + Decimal(|nodes|)) == Fresh(prefix, role, |nodes|);
      ClaimOne(Fresh(prefix, role, |nodes|), occupied);
      r := Name(role + "_" + Decimal(|nodes|));
      if r.Success? {
        constants := constants + [(r.value, Vector([value]))];
      }
    }

    /** Emits a node whose result is a generated name. */
    method Emit(op: Op, inputs: seq<string>) returns (r: Result<string, Refusal>)
      modifies this`occupied, this`nodes
      ensures Grew(old(Now()), TempStep(prefix, |old(nodes)|, op, inputs), r.Success?, Now())
      ensures r.Success? ==> r.value == Fresh(prefix, "intermediate", |old(nodes)|) && |nodes| == |old(nodes)| + 1
      ensures r.Failure? ==> r.error == NameCollides
    {
      ClaimTwo(Fresh(prefix, "intermediate", |nodes|), Fresh(prefix, "node", |nodes|), occupied);
      assert prefix + ("intermediate_" + Decimal(|nodes|)) == Fresh(prefix, "intermediate", |nodes|);
      assert prefix + ("node_" + Decimal(|nodes|)) == Fresh(prefix, "node", |nodes|);
      var value :- Name("intermediate_" + Decimal(|nodes|));
      var tag :- Name("node_" + Decimal(|nodes|));
      nodes := nodes + [Node(op, inputs, [value], tag)];
      return Success(value);
    }

    /** Emits the node that binds the Einsum's own result. */
    method EmitTo(op: Op, inputs: seq<string>, target: string) returns (r: Result<string, Refusal>)
      modifies this`occupied, this`nodes
      ensures Grew(old(Now()), FinalStep(prefix, |old(nodes)|, op, inputs, target), r.Success?, Now())
      ensures r.Failure? ==> r.error == NameCollides
    {
      ClaimOne(Fresh(prefix, "node", |nodes|), occupied);
      assert prefix + ("node_" + Decimal(|nodes|)) == Fresh(prefix, "node", |nodes|);
      var tag :- Name("node_" + Decimal(|nodes|));
      nodes := nodes + [Node(op, inputs, [target], tag)];
      return Success(target);
    }

    /** A constant and the node that reads it as its second operand. */
    method EmitReading(op: Op, first: string, role: string, value: int, last: seq<string>) returns (r: Result<string, Refusal>)
      modifies this`occupied, this`constants, this`nodes
      ensures Grew(old(Now()), ReadingStep(prefix, |old(nodes)|, op, first, role, value, last), r.Success?, Now())
      ensures r.Success? ==> r.value == Fresh(prefix, "intermediate", |old(nodes)|) && |nodes| == |old(nodes)| + 1
      ensures r.Failure? ==> r.error == NameCollides
    {
      ghost var before, k := Now(), |nodes|;
      ghost var c := ConstantStep(prefix, role, k, Vector([value]));
      ghost var t := TempStep(prefix, k, op, [first, Fresh(prefix, role, k)] + last);
      var second := Constant(role, value);
      ghost var mid := Now();
      if second.Failure? {
        GrewNot(before, c, t, mid);
        return Failure(second.error);
      }
      r := Emit(op, [first, second.value] + last);
      GrewThen(before, c, mid, t, r.Success?, Now());
    }

    method InsertAxis(value: string, axis: int) returns (r: Result<string, Refusal>)
      modifies this`occupied, this`constants, this`nodes
      ensures Grew(old(Now()), UnsqueezeStep(prefix, |old(nodes)|, value, axis), r.Success?, Now())
      ensures r.Success? ==> r.value == Fresh(prefix, "intermediate", |old(nodes)|) && |nodes| == |old(nodes)| + 1
      ensures r.Failure? ==> r.error == NameCollides
    {
      assert [value, Fresh(prefix, "axes", |nodes|)] + [] == [value, Fresh(prefix, "axes", |nodes|)];
      r := EmitReading(Unsqueeze, value, "axes", axis, []);
    }

    method TransposeTail(value: string) returns (r: Result<string, Refusal>)
      modifies this`occupied, this`nodes
      ensures r.Success? ==> value in ranks && 2 <= ranks[value]
      ensures r.Success? ==> r.value == Fresh(prefix, "intermediate", |old(nodes)|) && |nodes| == |old(nodes)| + 1
      ensures value in ranks && 2 <= ranks[value] ==>
                Grew(old(Now()), TransposeTailStep(prefix, |old(nodes)|, value, ranks[value]), r.Success?, Now())
      ensures r.Failure? ==> r.error == if value in ranks && 2 <= ranks[value] then NameCollides else RankDiffers
    {
      if value !in ranks || ranks[value] < 2 {
        return Failure(RankDiffers);
      }
      var rank := ranks[value];
      var permutation := seq(rank, i requires 0 <= i < rank => i);
      permutation := permutation[..rank - 2] + [permutation[rank - 1], permutation[rank - 2]];
      assert permutation == S.TailSwap(rank);
      r := Emit(Transpose(permutation), [value]);
    }

    /** The batch and feature extents of a value, as vectors. */
    method EmitExtents(value: string) returns (r: Result<(string, string), Refusal>)
      modifies this`occupied, this`constants, this`nodes
      ensures Grew(old(Now()), ExtentsStep(prefix, |old(nodes)|, value), r.Success?, Now())
      ensures r.Success? ==> |nodes| == |old(nodes)| + 3
      ensures r.Success? ==>
                r.value == (Fresh(prefix, "intermediate", |old(nodes)| + 1), Fresh(prefix, "intermediate", |old(nodes)| + 2))
      ensures r.Failure? ==> r.error == NameCollides
    {
      ghost var before, p, k := Now(), prefix, |nodes|;
      ghost var s0 := TempStep(p, k, Shape, [value]);
      ghost var s1 := ReadingStep(p, k + 1, Gather(0), Fresh(p, "intermediate", k), "batch", 0, []);
      ghost var s2 := ReadingStep(p, k + 2, Gather(0), Fresh(p, "intermediate", k), "width", 3, []);
      var shape := Emit(Shape, [value]);
      ghost var m1 := Now();
      if shape.Failure? {
        GrewNot(before, s0, s1, m1);
        GrewNot(before, s0.Then(s1), s2, m1);
        return Failure(shape.error);
      }
      var batch := EmitReading(Gather(0), shape.value, "batch", 0, []);
      ghost var m2 := Now();
      GrewThen(before, s0, m1, s1, batch.Success?, m2);
      if batch.Failure? {
        GrewNot(before, s0.Then(s1), s2, m2);
        return Failure(batch.error);
      }
      var width := EmitReading(Gather(0), shape.value, "width", 3, []);
      GrewThen(before, s0.Then(s1), m2, s2, width.Success?, Now());
      if width.Failure? {
        return Failure(width.error);
      }
      return Success((batch.value, width.value));
    }

    /** The reshape target [batch, -1, features]. */
    method EmitTarget(value: string) returns (r: Result<string, Refusal>)
      modifies this`occupied, this`constants, this`nodes
      ensures Grew(old(Now()), TargetStep(prefix, |old(nodes)|, value), r.Success?, Now())
      ensures r.Success? ==> r.value == Fresh(prefix, "intermediate", |old(nodes)| + 3) && |nodes| == |old(nodes)| + 4
      ensures r.Failure? ==> r.error == NameCollides
    {
      ghost var before, p, k := Now(), prefix, |nodes|;
      ghost var extents := ExtentsStep(p, k, value);
      ghost var concat := ReadingStep(p, k + 3, Concat(0), Fresh(p, "intermediate", k + 1), "extent", -1,
                                      [Fresh(p, "intermediate", k + 2)]);
      var ends := EmitExtents(value);
      ghost var mid := Now();
      if ends.Failure? {
        GrewNot(before, extents, concat, mid);
        return Failure(ends.error);
      }
      r := EmitReading(Concat(0), ends.value.0, "extent", -1, [ends.value.1]);
      GrewThen(before, extents, mid, concat, r.Success?, Now());
    }

    method FlattenSequence(value: string) returns (r: Result<string, Refusal>)
      modifies this`occupied, this`constants, this`nodes
      ensures r.Success? ==> HasRank(ranks, value, 4)
      ensures r.Success? ==> r.value == Fresh(prefix, "intermediate", |old(nodes)| + 4) && |nodes| == |old(nodes)| + 5
      ensures HasRank(ranks, value, 4) ==> Grew(old(Now()), FlattenStep(prefix, |old(nodes)|, value), r.Success?, Now())
      ensures r.Failure? ==> r.error == if HasRank(ranks, value, 4) then NameCollides else RankDiffers
    {
      if value !in ranks || ranks[value] != 4 {
        return Failure(RankDiffers);
      }
      ghost var before, p, k := Now(), prefix, |nodes|;
      ghost var s0, s1 := TargetStep(p, k, value), TempStep(p, k + 4, Reshape, [value, Fresh(p, "intermediate", k + 3)]);
      var target := EmitTarget(value);
      ghost var mid := Now();
      if target.Failure? {
        GrewNot(before, s0, s1, mid);
        return Failure(target.error);
      }
      r := Emit(Reshape, [value, target.value]);
      GrewThen(before, s0, mid, s1, r.Success?, Now());
    }

    /** '...,f->...f', '...d,hd->...hd' and 'i,j->ij' once their ranks are known. */
    method EmitScale(left: string, right: string, output: string, axis: int) returns (r: Result<string, Refusal>)
      modifies this`occupied, this`constants, this`nodes
      ensures Grew(old(Now()), ScaleStep(prefix, |old(nodes)|, left, right, output, axis), r.Success?, Now())
      ensures r.Failure? ==> r.error == NameCollides
    {
      ghost var before, p, k := Now(), prefix, |nodes|;
      ghost var s0, s1 := UnsqueezeStep(p, k, left, axis), FinalStep(p, k + 1, Mul, [Fresh(p, "intermediate", k), right], output);
      var wider := InsertAxis(left, axis);
      ghost var mid := Now();
      if wider.Failure? {
        GrewNot(before, s0, s1, mid);
        return Failure(wider.error);
      }
      r := EmitTo(Mul, [wider.value, right], output);
      GrewThen(before, s0, mid, s1, r.Success?, Now());
    }

    method EmitScores(left: string, right: string, output: string) returns (r: Result<string, Refusal>)
      modifies this`occupied, this`constants, this`nodes
      ensures r.Success? ==> RanksSupport(Scores, left, right, ranks)
      ensures RanksSupport(Scores, left, right, ranks) ==>
                Grew(old(Now()), Lower(Scores, prefix, |old(nodes)|, left, right, output, ranks), r.Success?, Now())
      ensures r.Failure? ==> r.error == if RanksSupport(Scores, left, right, ranks) then NameCollides else RankDiffers
    {
      ghost var before, p, k := Now(), prefix, |nodes|;
      ghost var s1 := FinalStep(p, k + 1, MatMul, [left, Fresh(p, "intermediate", k)], output);
      var transposed := TransposeTail(right);
      ghost var mid := Now();
      if transposed.Failure? {
        if RanksSupport(Scores, left, right, ranks) {
          GrewNot(before, TransposeTailStep(p, k, right, ranks[right]), s1, mid);
        }
        return Failure(transposed.error);
      }
      r := EmitTo(MatMul, [left, transposed.value], output);
      GrewThen(before, TransposeTailStep(p, k, right, ranks[right]), mid, s1, r.Success?, Now());
    }

    method EmitShared(left: string, right: string, output: string) returns (r: Result<string, Refusal>)
      modifies this`occupied, this`constants, this`nodes
      ensures r.Success? ==> RanksSupport(Shared, left, right, ranks)
      ensures RanksSupport(Shared, left, right, ranks) ==>
                Grew(old(Now()), Lower(Shared, prefix, |old(nodes)|, left, right, output, ranks), r.Success?, Now())
      ensures r.Failure? ==> r.error == if RanksSupport(Shared, left, right, ranks) then NameCollides else RankDiffers
    {
      if !HasRank(ranks, left, 4) || !HasRank(ranks, right, 3) {
        return Failure(RankDiffers);
      }
      ghost var before, p, k := Now(), prefix, |nodes|;
      ghost var s0, s1 := UnsqueezeStep(p, k, right, 1), FinalStep(p, k + 1, MatMul, [left, Fresh(p, "intermediate", k)], output);
      var wider := InsertAxis(right, 1);
      ghost var mid := Now();
      if wider.Failure? {
        GrewNot(before, s0, s1, mid);
        return Failure(wider.error);
      }
      r := EmitTo(MatMul, [left, wider.value], output);
      GrewThen(before, s0, mid, s1, r.Success?, Now());
    }

    method EmitGlobal(left: string, right: string, output: string) returns (r: Result<string, Refusal>)
      modifies this`occupied, this`constants, this`nodes
      ensures r.Success? ==> RanksSupport(Global, left, right, ranks)
      ensures RanksSupport(Global, left, right, ranks) ==>
                Grew(old(Now()), Lower(Global, prefix, |old(nodes)|, left, right, output, ranks), r.Success?, Now())
      ensures r.Failure? && RanksSupport(Global, left, right, ranks) ==> r.error == NameCollides
    {
      ghost var before, p, k := Now(), prefix, |nodes|;
      ghost var s0, s1 := FlattenStep(p, k, left), FlattenStep(p, k + 5, right);
      ghost var s2 := TempStep(p, k + 10, Transpose(G.TIME_LAST), [Fresh(p, "intermediate", k + 4)]);
      ghost var s3 := FinalStep(p, k + 11, MatMul, [Fresh(p, "intermediate", k + 10), Fresh(p, "intermediate", k + 9)], output);
      var first := FlattenSequence(left);
      ghost var m1 := Now();
      if first.Failure? {
        if RanksSupport(Global, left, right, ranks) {
          GrewNotAll(before, s0, s1, s2, s3, m1);
        }
        return Failure(first.error);
      }
      var second := FlattenSequence(right);
      ghost var m2 := Now();
      if second.Failure? {
        if RanksSupport(Global, left, right, ranks) {
          GrewThen(before, s0, m1, s1, false, m2);
          GrewNot(before, s0.Then(s1), s2, m2);
          GrewNot(before, s0.Then(s1).Then(s2), s3, m2);
        }
        return Failure(second.error);
      }
      GrewThen(before, s0, m1, s1, true, m2);
      var transposed := Emit(Transpose(G.TIME_LAST), [first.value]);
      ghost var m3 := Now();
      GrewThen(before, s0.Then(s1), m2, s2, transposed.Success?, m3);
      if transposed.Failure? {
        GrewNot(before, s0.Then(s1).Then(s2), s3, m3);
        return Failure(transposed.error);
      }
      r := EmitTo(MatMul, [transposed.value, second.value], output);
      GrewThen(before, s0.Then(s1).Then(s2), m3, s3, r.Success?, Now());
    }

    /** The chain of equations: unknown equations and unsupported ranks refuse. */
    method Contract(equation: string, left: string, right: string, output: string) returns (r: Result<string, Refusal>)
      modifies this`occupied, this`constants, this`nodes
      ensures r.Success? ==> KindOf(equation).Some? && RanksSupport(KindOf(equation).value, left, right, ranks)
      ensures KindOf(equation).Some? && RanksSupport(KindOf(equation).value, left, right, ranks) ==>
                Grew(old(Now()), Lower(KindOf(equation).value, prefix, |old(nodes)|, left, right, output, ranks), r.Success?, Now())
      ensures r.Failure? && KindOf(equation).None? ==> r.error == EquationDiffers
      ensures r.Failure? && KindOf(equation).Some? && RanksSupport(KindOf(equation).value, left, right, ranks) ==>
                r.error == NameCollides
    {
      match KindOf(equation)
      case Some(Features) => r := EmitScale(left, right, output, -1);
      case Some(Heads) =>
        if !HasRank(ranks, right, 2) {
          return Failure(RankDiffers);
        }
        r := EmitScale(left, right, output, -2);
      case Some(Positions) =>
        if !HasRank(ranks, left, 1) || !HasRank(ranks, right, 1) {
          return Failure(RankDiffers);
        }
        r := EmitScale(left, right, output, 1);
      case Some(Scores) => r := EmitScores(left, right, output);
      case Some(Values) => r := EmitTo(MatMul, [left, right], output);
      case Some(Global) => r := EmitGlobal(left, right, output);
      case Some(Shared) => r := EmitShared(left, right, output);
      case None => return Failure(EquationDiffers);
    }
  }

  /** A step is appended as a whole, unless one of its names is taken. */
  ghost predicate Grew(before: Lists, step: Lowering, ok: bool, after: Lists) {
    && after.prefix == before.prefix
    && (ok <==> !Clash(step.names, before.occupied))
    && (ok ==>
          after.nodes == before.nodes + step.nodes && after.constants == before.constants + step.constants &&
          after.occupied == before.occupied + SetOf(step.names))
  }

  lemma GrewThen(before: Lists, first: Lowering, mid: Lists, second: Lowering, ok: bool, after: Lists)
    requires Grew(before, first, true, mid) && Grew(mid, second, ok, after)
    ensures Grew(before, first.Then(second), ok, after)
  {
    ClashAppend(first.names, second.names, before.occupied);
    assert SetOf(first.names + second.names) == SetOf(first.names) + SetOf(second.names);
  }

  lemma GrewNot(before: Lists, first: Lowering, second: Lowering, after: Lists)
    requires Grew(before, first, false, after)
    ensures Grew(before, first.Then(second), false, after)
  {
    ClashAppend(first.names, second.names, before.occupied);
  }

  lemma GrewNotAll(before: Lists, first: Lowering, second: Lowering, third: Lowering, fourth: Lowering, after: Lists)
    requires Grew(before, first, false, after)
    ensures Grew(before, first.Then(second).Then(third).Then(fourth), false, after)
  {
    GrewNot(before, first, second, after);
    GrewNot(before, first.Then(second), third, after);
    GrewNot(before, first.Then(second).Then(third), fourth, after);
  }

  lemma ClaimOne(x: string, occupied: set<string>)
    ensures Clash([x], occupied) <==> x in occupied
    ensures SetOf([x]) == {x}
  {
    assert [x][1..] == [];
  }

  lemma ClaimTwo(x: string, y: string, occupied: set<string>)
    ensures Clash([x, y], occupied) <==> x in occupied || y in occupied + {x}
    ensures SetOf([x, y]) == {x} + {y}
  {
    assert [x, y][1..] == [y] && [y][1..] == [];
    ClaimOne(y, occupied + {x});
  }

  // ----- The whole model

  function InitializerNames(initializers: seq<(string, Tensor)>): set<string> {
    set i | 0 <= i < |initializers| :: initializers[i].0
  }

  /** Inferred ranks, overridden by those of the initializers. */
  function KnownRanks(inferred: Ranks, initializers: seq<(string, Tensor)>): Ranks {
    if initializers == [] then inferred
    else
      var last := initializers[|initializers| - 1];
      KnownRanks(inferred, initializers[..|initializers| - 1])[last.0 := |last.1.shape|]
  }

  function EinsumCount(nodes: seq<Node>): nat {
    if nodes == [] then 0
    else EinsumCount(nodes[..|nodes| - 1]) + if nodes[|nodes| - 1].op.Einsum? then 1 else 0
  }

  lemma {:induction false} RewrittenGrows(nodes: seq<Node>, i: nat, ranks: Ranks)
    requires AllSupported(nodes, ranks) && i <= |nodes|
    ensures Rewritten(nodes[..i], ranks).names <= Rewritten(nodes, ranks).names
    decreases |nodes|
  {
    if i == |nodes| {
      assert nodes[..i] == nodes;
    } else {
      var before := nodes[..|nodes| - 1];
      assert before[..i] == nodes[..i];
      RewrittenGrows(before, i, ranks);
    }
  }

  predicate Plain(nodes: seq<Node>) {
    forall n :: n in nodes ==> !n.op.Einsum?
  }

  lemma FlattenPlain(p: string, k: nat, value: string)
    ensures Plain(FlattenStep(p, k, value).nodes)
  {
    assert Plain(ExtentsStep(p, k, value).nodes);
    assert Plain(TargetStep(p, k, value).nodes);
  }

  lemma PlainThen(a: Lowering, b: Lowering)
    requires Plain(a.nodes) && Plain(b.nodes)
    ensures Plain(a.Then(b).nodes)
  {
  }

  lemma GlobalPlain(p: string, k: nat, left: string, right: string, out: string, ranks: Ranks)
    requires RanksSupport(Global, left, right, ranks)
    ensures Plain(Lower(Global, p, k, left, right, out, ranks).nodes)
  {
    var a, b := FlattenStep(p, k, left), FlattenStep(p, k + 5, right);
    var t := TempStep(p, k + 10, Transpose(G.TIME_LAST), [Fresh(p, "intermediate", k + 4)]);
    FlattenPlain(p, k, left);
    FlattenPlain(p, k + 5, right);
    PlainThen(a, b);
    PlainThen(a.Then(b), t);
    PlainThen(a.Then(b).Then(t),
              FinalStep(p, k + 11, MatMul, [Fresh(p, "intermediate", k + 10), Fresh(p, "intermediate", k + 9)], out));
  }

  lemma LoweredPlain(kind: Kind, p: string, k: nat, left: string, right: string, out: string, ranks: Ranks)
    requires RanksSupport(kind, left, right, ranks)
    ensures Plain(Lower(kind, p, k, left, right, out, ranks).nodes)
  {
    if kind == Global {
      GlobalPlain(p, k, left, right, out, ranks);
    }
  }

  lemma {:induction false} RewrittenPlain(nodes: seq<Node>, ranks: Ranks)
    requires AllSupported(nodes, ranks)
    ensures Plain(Rewritten(nodes, ranks).nodes) && Rewritten(nodes, ranks).count == EinsumCount(nodes)
    decreases |nodes|
  {
    if nodes != [] {
      var before, node := nodes[..|nodes| - 1], nodes[|nodes| - 1];
      RewrittenPlain(before, ranks);
      assert node in nodes && Supported(node, ranks);
      if node.op.Einsum? {
        var done := Rewritten(before, ranks);
        LoweredPlain(KindOf(EquationOf(node)).value, Prefix(done.count), |done.nodes|, node.inputs[0],
                     node.inputs[1], node.outputs[0], ranks);
      }
    }
  }

  class Model {
    var nodes: seq<Node>
    var initializers: seq<(string, Tensor)>

    ghost predicate Accepts(inferred: Ranks)
      reads this
    {
      var ranks := KnownRanks(inferred, initializers);
      AllSupported(nodes, ranks) &&
      !Clash(Rewritten(nodes, ranks).names, NodeNames(nodes) + InitializerNames(initializers))
    }

    method ExplicitAttentionContractions(inferred: Ranks) returns (r: Result<nat, Refusal>)
      modifies this
      ensures r.Success? <==> old(Accepts(inferred))
      ensures r.Success? ==>
                var done := Rewritten(old(nodes), KnownRanks(inferred, old(initializers)));
                nodes == done.nodes && initializers == old(initializers) + done.constants
      ensures r.Success? ==> r.value == EinsumCount(old(nodes)) && Plain(nodes)
      ensures r.Failure? ==> nodes == old(nodes) && initializers == old(initializers)
    {
      var ranks := KnownRanks(inferred, initializers);
      ghost var taken := NodeNames(nodes) + InitializerNames(initializers);
      var rewriter := new Rewriter(ranks, NodeNames(nodes) + InitializerNames(initializers));
      var count := 0;
      for i := 0 to |nodes|
        invariant nodes == old(nodes) && initializers == old(initializers) && fresh(rewriter)
        invariant rewriter.ranks == ranks && AllSupported(nodes[..i], ranks)
        invariant !Clash(Rewritten(nodes[..i], ranks).names, taken)
        invariant rewriter.nodes == Rewritten(nodes[..i], ranks).nodes
        invariant rewriter.constants == Rewritten(nodes[..i], ranks).constants
        invariant rewriter.occupied == taken + SetOf(Rewritten(nodes[..i], ranks).names)
        invariant count == Rewritten(nodes[..i], ranks).count
      {
        var node := nodes[i];
        ghost var done := Rewritten(nodes[..i], ranks);
        TakeNext(nodes, i);
        assert node in nodes;
        if !node.op.Einsum? {
          rewriter.nodes := rewriter.nodes + [node];
        } else {
          var failure := LowerEinsum(rewriter, node, count, done, taken);
          if failure.Some? {
            Refused(nodes, i, ranks, done, taken);
            return Failure(failure.value);
          }
          count := count + 1;
        }
      }
      assert nodes[..|nodes|] == nodes;
      RewrittenPlain(nodes, ranks);
      nodes := rewriter.nodes;
      initializers := initializers + rewriter.constants;
      return Success(count);
    }
  }

  /** One Einsum lowered, unless its signature, equation, ranks or a name forbids. */
  method LowerEinsum(rewriter: Rewriter, node: Node, count: nat, ghost done: Progress, ghost taken: set<string>)
    returns (failure: Option<Refusal>)
    requires node.op.Einsum? && count == done.count && !Clash(done.names, taken)
    requires rewriter.nodes == done.nodes && rewriter.constants == done.constants && rewriter.occupied == taken + SetOf(done.names)
    modifies rewriter
    ensures failure.None? ==>
              Supported(node, rewriter.ranks) &&
              var after := Advance(done, node, rewriter.ranks);
              rewriter.nodes == after.nodes && rewriter.constants == after.constants &&
              rewriter.occupied == taken + SetOf(after.names) && !Clash(after.names, taken)
    ensures failure.Some? && Supported(node, rewriter.ranks) ==>
              Clash(LowerNode(node, done.count, |done.nodes|, rewriter.ranks).names, taken + SetOf(done.names))
  {
    if |node.op.equations| != 1 || |node.inputs| != 2 || |node.outputs| != 1 {
      return Some(SignatureDiffers);
    }
    var equation := Strip(node.op.equations[0]);
    rewriter.prefix := "aii_attention_" + Decimal(count) + "_";
    var lowered := rewriter.Contract(equation, node.inputs[0], node.inputs[1], node.outputs[0]);
    if lowered.Failure? {
      return Some(lowered.error);
    }
    ghost var l := LowerNode(node, count, |done.nodes|, rewriter.ranks);
    ClashAppend(done.names, l.names, taken);
    assert SetOf(done.names + l.names) == SetOf(done.names) + SetOf(l.names);
    return None;
  }

  /** A refusal at one node is a refusal of the whole graph. */
  lemma Refused(nodes: seq<Node>, i: nat, ranks: Ranks, done: Progress, taken: set<string>)
    requires i < |nodes| && AllSupported(nodes[..i], ranks) && done == Rewritten(nodes[..i], ranks)
    requires nodes[i].op.Einsum? && !Clash(done.names, taken)
    requires Supported(nodes[i], ranks) ==>
               Clash(LowerNode(nodes[i], done.count, |done.nodes|, ranks).names, taken + SetOf(done.names))
    ensures AllSupported(nodes, ranks) ==> Clash(Rewritten(nodes, ranks).names, taken)
  {
    if AllSupported(nodes, ranks) {
      assert nodes[i] in nodes;
      var l := LowerNode(nodes[i], done.count, |done.nodes|, ranks);
      ClashAppend(done.names, l.names, taken);
      assert nodes[..i + 1][..i] == nodes[..i];
      var part := Rewritten(nodes[..i + 1], ranks).names;
      assert part == done.names + l.names;
      RewrittenGrows(nodes, i + 1, ranks);
      ClashAppend(part, Rewritten(nodes, ranks).names[|part|..], taken);
      assert part + Rewritten(nodes, ranks).names[|part|..] == Rewritten(nodes, ranks).names;
    }
  }
}
