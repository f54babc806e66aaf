/**
 What the attention pass does not refuse: the seven equations as they are written, with or without
 spaces, the ranks of initializers, and every Einsum of such an equation that has a value.
 */
module AttentionCoverage {
  import opened AttentionLowering
  import opened AttentionRewriter
  import opened Contractions
  import opened E = Einsum
  import opened Graphs
  import opened SequenceContractions
  import opened Tensors
  import opened Wrappers

  // ----- Equations

  /** The equations the pass knows, as their texts. */
  function TextOf(kind: Kind): string {
    match kind
    case Features => "...,f->...f"
    case Heads => "...d,hd->...hd"
    case Positions => "i,j->ij"
    case Scores => "...id,...jd->...ij"
    case Values => "...ij,...jd->...id"
    case Global => "bgnd,bgne->bde"
    case Shared => "bgnd,bde->bgne"
  }

  lemma FeaturesRecognised()
    ensures KindOf("...,f->...f") == Some(Features)
  {
  }

  lemma HeadsRecognised()
    ensures KindOf("...d,hd->...hd") == Some(Heads)
  {
    assert "...d,hd->...hd"[3] == 'd' && "...,f->...f"[3] == ',';
  }

  lemma PositionsRecognised()
    ensures KindOf("i,j->ij") == Some(Positions)
  {
    assert |"i,j->ij"| == 7 && |"...,f->...f"| == 11 && |"...d,hd->...hd"| == 14;
  }

  lemma ScoresRecognised()
    ensures KindOf("...id,...jd->...ij") == Some(Scores)
  {
    assert |"...id,...jd->...ij"| == 18 && |"...,f->...f"| == 11 && |"...d,hd->...hd"| == 14 && |"i,j->ij"| == 7;
  }

  lemma ValuesRecognised()
    ensures KindOf("...ij,...jd->...id") == Some(Values)
  {
    assert |"...ij,...jd->...id"| == 18 && |"...,f->...f"| == 11 && |"...d,hd->...hd"| == 14 && |"i,j->ij"| == 7;
    assert "...ij,...jd->...id"[4] == 'j' && "...id,...jd->...ij"[4] == 'd';
  }

  lemma GlobalRecognised()
    ensures KindOf("bgnd,bgne->bde") == Some(Global)
  {
    assert |"bgnd,bgne->bde"| == 14 && |"...,f->...f"| == 11 && |"i,j->ij"| == 7;
    assert |"...id,...jd->...ij"| == 18 && |"...ij,...jd->...id"| == 18;
    assert "bgnd,bgne->bde"[0] == 'b' && "...d,hd->...hd"[0] == '.';
  }

  lemma SharedRecognised()
    ensures KindOf("bgnd,bde->bgne") == Some(Shared)
  {
    assert |"bgnd,bde->bgne"| == 14 && |"...,f->...f"| == 11 && |"i,j->ij"| == 7;
    assert |"...id,...jd->...ij"| == 18 && |"...ij,...jd->...id"| == 18;
    assert "bgnd,bde->bgne"[0] == 'b' && "...d,hd->...hd"[0] == '.';
    assert "bgnd,bde->bgne"[6] == 'd' && "bgnd,bgne->bde"[6] == 'g';
  }

  /** Each of the seven texts is recognised, and nothing else is. */
  lemma Recognised(equation: string, kind: Kind)
    ensures KindOf(equation) == Some(kind) <==> equation == TextOf(kind)
  {
    match kind
    case Features => FeaturesRecognised();
    case Heads => HeadsRecognised();
    case Positions => PositionsRecognised();
    case Scores => ScoresRecognised();
    case Values => ValuesRecognised();
    case Global => GlobalRecognised();
    case Shared => SharedRecognised();
  }

  // ----- Spaces

  lemma {:induction false} StripAppend(s: string, t: string)
    ensures Strip(s + t) == Strip(s) + Strip(t)
  {
    if s == "" {
      assert s + t == t;
    } else {
      assert (s + t)[0] == s[0] && (s + t)[1..] == s[1..] + t;
      StripAppend(s[1..], t);
    }
  }

  lemma {:induction false} StripOne(c: char)
    ensures Strip([c]) == if c == ' ' then "" else [c]
  {
    assert [c][1..] == "" && Strip("") == "";
  }

  /** Only spaces are dropped, wherever they stand. */
  lemma {:induction false} StripSpace(s: string, t: string)
    ensures Strip(s + " " + t) == Strip(s + t) && (' ' !in s ==> Strip(s) == s)
  {
    StripAppend(s, " ");
    StripAppend(s + " ", t);
    StripAppend(s, t);
    StripOne(' ');
    if ' ' !in s {
      StripUnspaced(s);
    }
  }

  // ----- Ranks

  /** The rank of every initializer is known, and every other rank is the inferred one. */
  lemma {:induction false} InitializersKnown(inferred: Ranks, initializers: seq<(string, Tensor)>)
    ensures forall i :: 0 <= i < |initializers| ==> initializers[i].0 in KnownRanks(inferred, initializers)
    ensures forall x :: x in Bound(initializers) ==>
              x in KnownRanks(inferred, initializers) && KnownRanks(inferred, initializers)[x] == |Bound(initializers)[x].shape|
    ensures forall i :: 0 <= i < |initializers| ==> initializers[i].0 in Bound(initializers)
    ensures forall x :: x !in Bound(initializers) ==>
              (x in KnownRanks(inferred, initializers) <==> x in inferred) &&
              (x in inferred ==> KnownRanks(inferred, initializers)[x] == inferred[x])
  {
    if initializers != [] {
      InitializersKnown(inferred, initializers[..|initializers| - 1]);
      forall i | 0 <= i < |initializers|
        ensures initializers[i].0 in KnownRanks(inferred, initializers) && initializers[i].0 in Bound(initializers)
      {
        if i < |initializers| - 1 {
          assert initializers[..|initializers| - 1][i] == initializers[i];
        }
      }
    }
  }

  /** The ranks that operands of a written equation have when it has a value. */
  lemma RanksRead(dl: bool, l: string, dr: bool, r: string, d: bool, o: string, a: Tensor, b: Tensor)
    requires E.Lower(l) && E.Lower(r) && E.Lower(o) && Contract(Text(dl, l, dr, r, d, o), a, b).Some?
    ensures !dl ==> |a.shape| == |l|
    ensures if dr then |b.shape| >= |r| else |b.shape| == |r|
  {
    var dots, x := Reads(dl, l, dr, r, d, o, a, b);
  }

  lemma HeadsRanks(kind: Kind, a: Tensor, b: Tensor)
    requires kind == Heads && Contract(EquationText(kind), a, b).Some?
    ensures |b.shape| == 2
  {
    RanksRead(true, ['d'], false, ['h', 'd'], true, ['h', 'd'], a, b);
  }

  lemma PositionsRanks(kind: Kind, a: Tensor, b: Tensor)
    requires kind == Positions && Contract(EquationText(kind), a, b).Some?
    ensures |a.shape| == 1 && |b.shape| == 1
  {
    RanksRead(false, ['i'], false, ['j'], false, ['i', 'j'], a, b);
  }

  lemma ScoresRead(i: char, j: char, d: char, a: Tensor, b: Tensor)
    requires Letter(i) && Letter(j) && Letter(d)
    requires Contract(Text(true, [i, d], true, [j, d], true, [i, j]), a, b).Some?
    ensures |b.shape| >= 2
  {
    var l, r, o := [i, d], [j, d], [i, j];
    assert E.Lower(l) && E.Lower(r) && E.Lower(o);
    RanksRead(true, l, true, r, true, o, a, b);
  }

  lemma ScoresRanks(kind: Kind, a: Tensor, b: Tensor)
    requires kind == Scores && Contract(EquationText(kind), a, b).Some?
    ensures |b.shape| >= 2
  {
    ScoresRead('i', 'j', 'd', a, b);
  }

  lemma GlobalRead(b: char, g: char, n: char, d: char, e: char, s: Tensor, t: Tensor)
    requires Letter(b) && Letter(g) && Letter(n) && Letter(d) && Letter(e)
    requires Contract(Text(false, [b, g, n, d], false, [b, g, n, e], false, [b, d, e]), s, t).Some?
    ensures |s.shape| == 4 && |t.shape| == 4
  {
    LowerFour(b, g, n, d);
    LowerFour(b, g, n, e);
    LowerFour(b, d, e, e);
    RanksRead(false, [b, g, n, d], false, [b, g, n, e], false, [b, d, e], s, t);
  }

  lemma SharedRead(b: char, g: char, n: char, d: char, e: char, s: Tensor, t: Tensor)
    requires Letter(b) && Letter(g) && Letter(n) && Letter(d) && Letter(e)
    requires Contract(Text(false, [b, g, n, d], false, [b, d, e], false, [b, g, n, e]), s, t).Some?
    ensures |s.shape| == 4 && |t.shape| == 3
  {
    LowerFour(b, g, n, d);
    LowerFour(b, d, e, e);
    LowerFour(b, g, n, e);
    RanksRead(false, [b, g, n, d], false, [b, d, e], false, [b, g, n, e], s, t);
  }

  lemma GlobalRanks(kind: Kind, a: Tensor, b: Tensor)
    requires kind == Global && Contract(EquationText(kind), a, b).Some?
    ensures |a.shape| == 4 && |b.shape| == 4
  {
    GlobalRead('b', 'g', 'n', 'd', 'e', a, b);
  }

  lemma SharedRanks(kind: Kind, a: Tensor, b: Tensor)
    requires kind == Shared && Contract(EquationText(kind), a, b).Some?
    ensures |a.shape| == 4 && |b.shape| == 3
  {
    SharedRead('b', 'g', 'n', 'd', 'e', a, b);
  }

  /** The ranks the pass insists on are those the operands of an Einsum with a value have. */
  lemma RanksSuffice(kind: Kind, left: string, right: string, ranks: Ranks, a: Tensor, b: Tensor)
    requires Contract(EquationText(kind), a, b).Some?
    requires HasRank(ranks, left, |a.shape|) && HasRank(ranks, right, |b.shape|)
    ensures RanksSupport(kind, left, right, ranks)
  {
    match kind
    case Features =>
    case Heads => HeadsRanks(kind, a, b);
    case Positions => PositionsRanks(kind, a, b);
    case Scores => ScoresRanks(kind, a, b);
    case Values =>
    case Global => GlobalRanks(kind, a, b);
    case Shared => SharedRanks(kind, a, b);
  }

  /** An Einsum of one of the seven equations that has a value on operands of known ranks is supported. */
  lemma CoversValues(node: Node, kind: Kind, ranks: Ranks, a: Tensor, b: Tensor)
    requires node.op.Einsum? && |node.op.equations| == 1 && |node.inputs| == 2 && |node.outputs| == 1
    requires Strip(node.op.equations[0]) == TextOf(kind) && Contract(TextOf(kind), a, b).Some?
    requires HasRank(ranks, node.inputs[0], |a.shape|) && HasRank(ranks, node.inputs[1], |b.shape|)
    ensures Supported(node, ranks)
  {
    Recognised(TextOf(kind), kind);
    KindText(TextOf(kind), kind);
    RanksSuffice(kind, node.inputs[0], node.inputs[1], ranks, a, b);
  }
}
