/**
 The names one run of the attention pass generates never collide with each other, so the pass
 refuses a supported graph exactly when one of them is already a name of that graph.
 */
module GeneratedNames {
  import opened AttentionLowering
  import opened AttentionPass
  import opened Decimals
  import opened Graphs
  import G = GlobalContraction
  import S = SequenceContractions

  predicate NoRepeats(names: seq<string>) {
    forall i, j :: 0 <= i < j < |names| ==> names[i] != names[j]
  }

  /** Every name carries an emission index from the range. */
  ghost predicate Indexed(names: seq<string>, lo: nat, hi: nat) {
    forall x :: x in names ==> exists p, role, k: nat :: lo <= k < hi && x == Fresh(p, role, k)
  }

  lemma IndexedApart(a: seq<string>, lo: nat, mid: nat, b: seq<string>, hi: nat)
    requires Indexed(a, lo, mid) && Indexed(b, mid, hi)
    ensures forall x :: x in a ==> x !in b
  {
    forall x | x in a
      ensures x !in b
    {
      if x in b {
        var p, role, i: nat :| lo <= i < mid && x == Fresh(p, role, i);
        var p', role', j: nat :| mid <= j < hi && x == Fresh(p', role', j);
        LastField(p + role, i, p' + role', j, '_');
      }
    }
  }

  /** Claims at increasing indices. */
  ghost predicate Orderly(names: seq<string>, lo: nat, hi: nat) {
    lo <= hi && NoRepeats(names) && Indexed(names, lo, hi)
  }

  lemma OrderlyThen(a: seq<string>, lo: nat, mid: nat, b: seq<string>, hi: nat)
    requires Orderly(a, lo, mid) && Orderly(b, mid, hi)
    ensures Orderly(a + b, lo, hi)
  {
    IndexedApart(a, lo, mid, b, hi);
    forall i, j | 0 <= i < j < |a + b|
      ensures (a + b)[i] != (a + b)[j]
    {
      if i < |a| <= j {
        assert a[i] in a && b[j - |a|] in b;
      }
    }
    forall x | x in a + b
      ensures exists p, role, k: nat :: lo <= k < hi && x == Fresh(p, role, k)
    {
      assert x in a || x in b;
    }
  }

  lemma OrderlyTemp(p: string, k: nat, op: Op, inputs: seq<string>)
    ensures Orderly(TempStep(p, k, op, inputs).names, k, k + 1)
  {
    if Fresh(p, "intermediate", k) == Fresh(p, "node", k) {
      FreshIndex(p, "intermediate", k, "node", k);
    }
  }

  lemma OrderlyFinal(p: string, k: nat, op: Op, inputs: seq<string>, out: string)
    ensures Orderly(FinalStep(p, k, op, inputs, out).names, k, k + 1)
  {
  }

  lemma OrderlyReading(p: string, k: nat, op: Op, first: string, role: string, value: int, last: seq<string>)
    requires role != "intermediate" && role != "node"
    ensures Orderly(ReadingStep(p, k, op, first, role, value, last).names, k, k + 1)
  {
    var names := ReadingStep(p, k, op, first, role, value, last).names;
    assert names == [Fresh(p, role, k), Fresh(p, "intermediate", k), Fresh(p, "node", k)];
    if Fresh(p, role, k) == Fresh(p, "intermediate", k) {
      FreshIndex(p, role, k, "intermediate", k);
    }
    if Fresh(p, role, k) == Fresh(p, "node", k) {
      FreshIndex(p, role, k, "node", k);
    }
    if Fresh(p, "intermediate", k) == Fresh(p, "node", k) {
      FreshIndex(p, "intermediate", k, "node", k);
    }
  }

  lemma OrderlyFlatten(p: string, k: nat, value: string)
    ensures Orderly(FlattenStep(p, k, value).names, k, k + 5)
  {
    var i0, i1, i2 := Fresh(p, "intermediate", k), Fresh(p, "intermediate", k + 1), Fresh(p, "intermediate", k + 2);
    var a := TempStep(p, k, Shape, [value]).names;
    var b := ReadingStep(p, k + 1, Gather(0), i0, "batch", 0, []).names;
    var c := ReadingStep(p, k + 2, Gather(0), i0, "width", 3, []).names;
    var d := ReadingStep(p, k + 3, Concat(0), i1, "extent", -1, [i2]).names;
    OrderlyTemp(p, k, Shape, [value]);
    OrderlyReading(p, k + 1, Gather(0), i0, "batch", 0, []);
    OrderlyReading(p, k + 2, Gather(0), i0, "width", 3, []);
    OrderlyReading(p, k + 3, Concat(0), i1, "extent", -1, [i2]);
    OrderlyTemp(p, k + 4, Reshape, [value, Fresh(p, "intermediate", k + 3)]);
    OrderlyThen(a, k, k + 1, b, k + 2);
    OrderlyThen(a + b, k, k + 2, c, k + 3);
    OrderlyThen(a + b + c, k, k + 3, d, k + 4);
    OrderlyThen(a + b + c + d, k, k + 4, TempStep(p, k + 4, Reshape, [value, Fresh(p, "intermediate", k + 3)]).names, k + 5);
  }

  lemma OrderlyUnsqueeze(p: string, k: nat, value: string, axis: int, op: Op, inputs: seq<string>, out: string)
    ensures Orderly(UnsqueezeStep(p, k, value, axis).Then(FinalStep(p, k + 1, op, inputs, out)).names, k, k + 2)
  {
    assert UnsqueezeStep(p, k, value, axis).names == ReadingStep(p, k, Unsqueeze, value, "axes", axis, []).names;
    OrderlyReading(p, k, Unsqueeze, value, "axes", axis, []);
    OrderlyFinal(p, k + 1, op, inputs, out);
    OrderlyThen(UnsqueezeStep(p, k, value, axis).names, k, k + 1, FinalStep(p, k + 1, op, inputs, out).names, k + 2);
  }

  lemma OrderlyGlobal(p: string, k: nat, left: string, right: string, out: string, ranks: Ranks)
    requires RanksSupport(Global, left, right, ranks)
    ensures Orderly(Lower(Global, p, k, left, right, out, ranks).names, k, k + 12)
  {
    var turn, product := [Fresh(p, "intermediate", k + 4)], [Fresh(p, "intermediate", k + 10), Fresh(p, "intermediate", k + 9)];
    var a, b := FlattenStep(p, k, left).names, FlattenStep(p, k + 5, right).names;
    var c := TempStep(p, k + 10, Transpose(G.TIME_LAST), turn).names;
    OrderlyFlatten(p, k, left);
    OrderlyFlatten(p, k + 5, right);
    OrderlyTemp(p, k + 10, Transpose(G.TIME_LAST), turn);
    OrderlyFinal(p, k + 11, MatMul, product, out);
    OrderlyThen(a, k, k + 5, b, k + 10);
    OrderlyThen(a + b, k, k + 10, c, k + 11);
    OrderlyThen(a + b + c, k, k + 11, FinalStep(p, k + 11, MatMul, product, out).names, k + 12);
  }

  function NodeCount(kind: Kind): nat {
    match kind case Values => 1 case Global => 12 case _ => 2
  }

  lemma OrderlyLower(kind: Kind, p: string, k: nat, left: string, right: string, out: string, ranks: Ranks)
    requires RanksSupport(kind, left, right, ranks)
    ensures Orderly(Lower(kind, p, k, left, right, out, ranks).names, k, k + NodeCount(kind))
    ensures |Lower(kind, p, k, left, right, out, ranks).nodes| == NodeCount(kind)
  {
    var temp := Fresh(p, "intermediate", k);
    match kind
    case Features => OrderlyUnsqueeze(p, k, left, -1, Mul, [temp, right], out);
    case Heads => OrderlyUnsqueeze(p, k, left, -2, Mul, [temp, right], out);
    case Positions => OrderlyUnsqueeze(p, k, left, 1, Mul, [temp, right], out);
    case Scores =>
      OrderlyTemp(p, k, Transpose(S.TailSwap(ranks[right])), [right]);
      OrderlyFinal(p, k + 1, MatMul, [left, temp], out);
      OrderlyThen(TransposeTailStep(p, k, right, ranks[right]).names, k, k + 1,
                  FinalStep(p, k + 1, MatMul, [left, temp], out).names, k + 2);
    case Values => OrderlyFinal(p, k, MatMul, [left, right], out);
    case Global => OrderlyGlobal(p, k, left, right, out, ranks);
    case Shared => OrderlyUnsqueeze(p, k, right, 1, MatMul, [left, temp], out);
  }

  lemma {:induction false} RewrittenOrderly(nodes: seq<Node>, ranks: Ranks)
    requires AllSupported(nodes, ranks)
    ensures Orderly(Rewritten(nodes, ranks).names, 0, |Rewritten(nodes, ranks).nodes|)
    decreases |nodes|
  {
    if nodes != [] {
      var before, node := nodes[..|nodes| - 1], nodes[|nodes| - 1];
      RewrittenOrderly(before, ranks);
      var done := Rewritten(before, ranks);
      assert node in nodes && Supported(node, ranks);
      if node.op.Einsum? {
        OrderlyLower(KindOf(EquationOf(node)).value, Prefix(done.count), |done.nodes|, node.inputs[0], node.inputs[1],
                     node.outputs[0], ranks);
        var l := LowerNode(node, done.count, |done.nodes|, ranks);
        OrderlyThen(done.names, 0, |done.nodes|, l.names, |done.nodes| + |l.nodes|);
      } else {
        OrderlyThen(done.names, 0, |done.nodes|, [], |done.nodes| + 1);
        assert done.names + [] == done.names;
      }
    }
  }

  lemma {:induction false} ClashMeans(names: seq<string>, occupied: set<string>)
    requires NoRepeats(names)
    ensures Clash(names, occupied) <==> !(SetOf(names) !! occupied)
  {
    if names != [] {
      ClashMeans(names[1..], occupied + {names[0]});
      assert SetOf(names) == {names[0]} + SetOf(names[1..]);
      assert names[0] !in SetOf(names[1..]);
    }
  }

  /** Claiming the generated names fails exactly when one of them was a name before. */
  lemma CollisionsAreForeign(nodes: seq<Node>, ranks: Ranks, occupied: set<string>)
    requires AllSupported(nodes, ranks)
    ensures NoRepeats(Rewritten(nodes, ranks).names)
    ensures Clash(Rewritten(nodes, ranks).names, occupied) <==> !(SetOf(Rewritten(nodes, ranks).names) !! occupied)
  {
    RewrittenOrderly(nodes, ranks);
    ClashMeans(Rewritten(nodes, ranks).names, occupied);
  }
}
