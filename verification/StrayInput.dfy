/**
 The smallest graph whose meaning the attention pass changes: one Einsum, and a graph input that no
 node reads under the name of the pass's first intermediate.
 */
module StrayInput {
  import opened AttentionLowering
  import opened AttentionPass
  import opened Contractions
  import opened GeneratedNames
  import opened Graphs
  import opened Tensors
  import opened Wrappers
  import E = Einsum

  const OUTER: Node := Node(Einsum(["i,j->ij"]), ["x", "y"], ["z"], "")

  const RANKS: Ranks := map["x" := 1, "y" := 1]

  function One(): Tensor {
    Tensor(Float, [1], [1.0])
  }

  function Inputs(): Env {
    map["x" := One(), "y" := One(), "aii_attention_0_intermediate_0" := One()]
  }

  lemma OuterKind()
    ensures EquationOf(OUTER) == "i,j->ij" && KindOf("i,j->ij") == Some(Positions)
  {
    StripUnspaced("i,j->ij");
    assert "i,j->ij" != "...,f->...f" && "i,j->ij" != "...d,hd->...hd";
  }

  lemma OuterSupported()
    ensures AllSupported([OUTER], RANKS)
  {
    OuterKind();
  }

  lemma OuterFits(x: E.Axes, dots: nat, t: Tensor)
    requires Spelled(x, dots, false, ['i'], false, ['j'], false, ['i', 'j']) && |t.shape| == 1
    ensures E.Fits(x, t, t) && |x.result| == 2
  {
    var (i, j) := (E.Named('i'), E.Named('j'));
    assert x.left == [i] && x.right == [j] && x.result == [i, j];
    assert x.left + x.right == [i, j];
  }

  lemma OuterContracts(t: Tensor) returns (value: Tensor)
    requires |t.shape| == 1
    ensures E.Contract("i,j->ij", t, t) == Some(value) && |value.shape| == 2
  {
    KindText("i,j->ij", Positions);
    var dots, x := Reads(false, ['i'], false, ['j'], false, ['i', 'j'], t, t);
    OuterFits(x, dots, t);
    value := E.Summation(x, t, t);
  }

  lemma OuterRuns(env: Env, t: Tensor, value: Tensor, table: Table)
    requires "x" in env && "y" in env && "z" !in env && env["x"] == t && env["y"] == t
    requires E.Contract(EquationOf(OUTER), t, t) == Some(value)
    ensures Run([OUTER], env, table) == Some(env["z" := value])
  {
    LookupTwo("x", "y", env);
    StepOne(OUTER, env, table, [t, t], "z", value);
    RunOne(OUTER, env, table);
  }

  lemma PositionsNames(p: string)
    ensures Lower(Positions, p, 0, "x", "y", "z", RANKS).names ==
            [Fresh(p, "axes", 0), Fresh(p, "intermediate", 0), Fresh(p, "node", 0), Fresh(p, "node", 1)]
    ensures forall name :: name in Lower(Positions, p, 0, "x", "y", "z", RANKS).names ==> |name| > 1
  {
    assert Lower(Positions, p, 0, "x", "y", "z", RANKS).names ==
            [Fresh(p, "axes", 0), Fresh(p, "intermediate", 0), Fresh(p, "node", 0), Fresh(p, "node", 1)];
  }

  lemma TakenName()
    ensures Fresh(Prefix(0), "intermediate", 0) == "aii_attention_0_intermediate_0"
  {
  }

  /** What the pass makes of the graph: its one lowering. */
  lemma OuterRewritten()
    ensures AllSupported([OUTER], RANKS)
    ensures var (done, l) := (Rewritten([OUTER], RANKS), Lower(Positions, Prefix(0), 0, "x", "y", "z", RANKS));
            done.temps == l.temps && done.names == l.names
  {
    OuterKind();
    OuterSupported();
    assert [OUTER][..0] == [];
    var l := LowerNode(OUTER, 0, 0, RANKS);
    assert Rewritten([OUTER], RANKS) == Advance(Rewritten([], RANKS), OUTER, RANKS);
    assert [] + l.temps == l.temps && [] + l.names == l.names;
  }

  lemma PositionsTaken(temps: seq<string>, names: seq<string>, p: string)
    requires var l := Lower(Positions, p, 0, "x", "y", "z", RANKS); temps == l.temps && names == l.names
    ensures Fresh(p, "intermediate", 0) in temps && forall name :: name in names ==> |name| > 1
  {
    PositionsNames(p);
    LowerTemps(Positions, p, 0, "x", "y", "z", RANKS);
  }

  lemma OuterTaken()
    requires AllSupported([OUTER], RANKS)
    ensures "aii_attention_0_intermediate_0" in Rewritten([OUTER], RANKS).temps
    ensures forall name :: name in Rewritten([OUTER], RANKS).names ==> |name| > 1
  {
    OuterRewritten();
    var done := Rewritten([OUTER], RANKS);
    PositionsTaken(done.temps, done.names, Prefix(0));
    TakenName();
  }

  lemma LongNames(names: seq<string>, occupied: set<string>)
    requires (forall name :: name in names ==> |name| > 1) && forall name :: name in occupied ==> |name| == 1
    ensures SetOf(names) !! occupied
  {
  }

  lemma OuterNodeNames()
    ensures forall name :: name in NodeNames([OUTER]) ==> |name| == 1
  {
    assert [OUTER][..0] == [];
    assert SetOf(OUTER.inputs) == {"x", "y"} && SetOf(OUTER.outputs) == {"z"};
    assert NodeNames([OUTER]) == {"x", "y", "z"};
  }

  lemma FreeNames(nodes: seq<Node>, ranks: Ranks, occupied: set<string>)
    requires AllSupported(nodes, ranks) && forall name :: name in Rewritten(nodes, ranks).names ==> |name| > 1
    requires forall name :: name in occupied ==> |name| == 1
    ensures !Clash(Rewritten(nodes, ranks).names, occupied)
  {
    LongNames(Rewritten(nodes, ranks).names, occupied);
    CollisionsAreForeign(nodes, ranks, occupied);
  }

  /** The pass accepts the graph: what it generates is none of the graph's names. */
  lemma OuterAccepted() returns (nodes: seq<Node>, ranks: Ranks)
    ensures nodes == [OUTER] && ranks == RANKS && AllSupported(nodes, ranks)
    ensures !Clash(Rewritten(nodes, ranks).names, NodeNames(nodes))
    ensures "aii_attention_0_intermediate_0" in Rewritten(nodes, ranks).temps
  {
    OuterSupported();
    OuterTaken();
    OuterNodeNames();
    nodes, ranks := [OUTER], RANKS;
    FreeNames(nodes, ranks, NodeNames(nodes));
  }

  lemma SoundInputs(value: Tensor)
    ensures RanksSound(RANKS, Inputs()["z" := value])
  {
  }

  lemma NoReduction(nodes: seq<Node>, ranks: Ranks, env: Env)
    requires AllSupported(nodes, ranks)
    requires forall node :: node in nodes && node.op.Einsum? ==> KindOf(EquationOf(node)) != Some(Global)
    ensures ReductionsNonEmpty(nodes, env, ranks)
  {
  }

  lemma InputTaken(nodes: seq<Node>, ranks: Ranks, env: Env, name: string)
    requires AllSupported(nodes, ranks) && name in env && name in Rewritten(nodes, ranks).temps
    ensures !InputsClear(nodes, ranks, env)
  {
    assert name in SetOf(Rewritten(nodes, ranks).temps);
  }

  lemma OuterValue(env: Env, t: Tensor, table: Table) returns (value: Tensor)
    requires "x" in env && "y" in env && "z" !in env && env["x"] == t && env["y"] == t && |t.shape| == 1
    ensures Run([OUTER], env, table) == Some(env["z" := value]) && |value.shape| == 2
  {
    OuterKind();
    value := OuterContracts(t);
    OuterRuns(env, t, value, table);
  }

  lemma OuterEvaluates(table: Table) returns (env: Env, final: Env)
    ensures AllSupported([OUTER], RANKS) && env == Inputs() && Run([OUTER], env, table) == Some(final)
    ensures RanksSound(RANKS, final) && ReductionsNonEmpty([OUTER], final, RANKS)
  {
    env := Inputs();
    var value := OuterValue(env, One(), table);
    final := env["z" := value];
    SoundInputs(value);
    OuterPlain(final);
  }

  lemma OuterPlain(env: Env)
    ensures AllSupported([OUTER], RANKS) && ReductionsNonEmpty([OUTER], env, RANKS)
  {
    OuterKind();
    OuterSupported();
    NoReduction([OUTER], RANKS, env);
  }

  lemma Breaks(nodes: seq<Node>, ranks: Ranks, env: Env, final: Env, table: Table, name: string)
    requires AllSupported(nodes, ranks) && !Clash(Rewritten(nodes, ranks).names, NodeNames(nodes))
    requires Run(nodes, env, table) == Some(final) && RanksSound(ranks, final)
    requires name in env && name in Rewritten(nodes, ranks).temps
    ensures var result := Run(Rewritten(nodes, ranks).nodes, LoweredStart(nodes, ranks, env), table);
            !(result.Some? && Extends(final, result.value))
  {
    InputTaken(nodes, ranks, env, name);
    PassPreservesMeaning(nodes, ranks, env, table, NodeNames(nodes));
  }

  /** The pass accepts this graph, and the rewritten graph does not evaluate as the original does. */
  lemma StrayInputBreaks(table: Table) returns (nodes: seq<Node>, ranks: Ranks, env: Env, final: Env)
    ensures nodes == [OUTER] && ranks == RANKS && env == Inputs()
    ensures AllSupported(nodes, ranks) && !Clash(Rewritten(nodes, ranks).names, NodeNames(nodes))
    ensures Run(nodes, env, table) == Some(final) && RanksSound(ranks, final) && ReductionsNonEmpty(nodes, final, ranks)
    ensures var result := Run(Rewritten(nodes, ranks).nodes, LoweredStart(nodes, ranks, env), table);
            !(result.Some? && Extends(final, result.value))
  {
    nodes, ranks := OuterAccepted();
    env, final := OuterEvaluates(table);
    Breaks(nodes, ranks, env, final, table, "aii_attention_0_intermediate_0");
  }
}
