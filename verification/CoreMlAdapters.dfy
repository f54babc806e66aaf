/**
 The Core ML export's replacements: matrix products for the attention equations, concatenation for
 padding, and a group norm with its mean taken in two stages. Tensors are over the reals.
 */
module CoreMlAdapters {
  import opened Contractions
  import opened Einsum
  import opened GlobalContraction
  import opened Operators
  import opened SequenceContractions
  import opened Sums
  import opened Tensors
  import opened Wrappers

  // ----- Attention equations

  datatype Equation = Similarity | Values | Summary | Applied | Outer

  /** The equation of each case, without its spaces. */
  function EquationText(q: Equation): string {
    match q
    case Similarity => Text(true, ['i', 'd'], true, ['j', 'd'], true, ['i', 'j'])
    case Values => Text(true, ['i', 'j'], true, ['j', 'd'], true, ['i', 'd'])
    case Summary => Text(false, ['b', 'g', 'n', 'd'], false, ['b', 'g', 'n', 'e'], false, ['b', 'd', 'e'])
    case Applied => Text(false, ['b', 'g', 'n', 'd'], false, ['b', 'd', 'e'], false, ['b', 'g', 'n', 'e'])
    case Outer => Text(true, [], false, ['f'], true, ['f'])
  }

  /** Joins the second and third axes, keeping the data. */
  function JoinMiddle(t: Tensor): (f: Tensor)
    requires |t.shape| == 4
    ensures f.element == t.element && f.data == t.data && f.shape == [t.shape[0], t.shape[1] * t.shape[2], t.shape[3]]
  {
    ProductFour(t.shape[0], t.shape[1], t.shape[2], t.shape[3]);
    ProductThree(t.shape[0], t.shape[1] * t.shape[2], t.shape[3]);
    var (b, g, n, d) := (t.shape[0], t.shape[1], t.shape[2], t.shape[3]);
    assert t.shape == [b, g, n, d] && b * g * n * d == b * (g * n) * d;
    Tensor(t.element, [b, g * n, d], t.data)
  }

  function SwapTail(t: Tensor): Option<Tensor> {
    if |t.shape| < 2 then None else Transpose(t, TailSwap(|t.shape|))
  }

  function Trace(q: Equation, a: Tensor, b: Tensor): Option<Tensor> {
    match q
    case Similarity =>
      var turned :- SwapTail(b);
      MatMul(a, turned)
    case Values => MatMul(a, b)
    case Summary =>
      if |a.shape| != 4 || |b.shape| != 4 then None
      else
        var turned :- Transpose(JoinMiddle(a), TIME_LAST);
        MatMul(turned, JoinMiddle(b))
    case Applied =>
      var column :- Unsqueeze(b, 1);
      MatMul(a, column)
    case Outer =>
      var column :- Unsqueeze(a, -1);
      Elementwise(Multiply, column, b)
  }

  lemma {:induction false} JoinFlattens(t: Tensor)
    requires |t.shape| == 4 && t.shape[0] != 0 && t.shape[3] != 0
    ensures Flatten(t) == Some(JoinMiddle(t))
  {
    FlattenShape(t);
  }

  lemma {:induction false} SummaryShape(s: Tensor, t: Tensor)
    requires |s.shape| == 4 && |t.shape| == 4 && s.element == t.element
    requires s.shape[0] == t.shape[0] && s.shape[1] == t.shape[1] && s.shape[2] == t.shape[2]
    ensures Trace(Summary, s, t).Some? && Trace(Summary, s, t).value.element == s.element
    ensures Trace(Summary, s, t).value.shape == [s.shape[0], s.shape[3], t.shape[3]]
  {
    var p, q := Transpose(JoinMiddle(s), TIME_LAST).value, JoinMiddle(t);
    assert p.shape == [s.shape[0], s.shape[3], s.shape[1] * s.shape[2]];
    assert Batch(p.shape) == [s.shape[0]] == Batch(q.shape);
    assert BroadcastShape(Batch(p.shape), Batch(q.shape)) == [s.shape[0]];
    assert MatMul(p, q).Some?;
  }

  lemma {:induction false} NoIndex(shape: seq<nat>, k: nat)
    requires k < |shape| && shape[k] == 0
    ensures forall index :: !InBounds(index, shape)
  {
    forall index
      ensures InBounds(index, shape) ==> index[k] < 0
    {
    }
  }

  lemma {:induction false} SummaryDecided(x: Axes, b: Dim, g: Dim, n: Dim, d: Dim, e: Dim, s: Tensor, t: Tensor)
    requires GlobalForm(x, b, g, n, d, e) && Fits(x, s, t)
    ensures Trace(Summary, s, t) == Some(Summation(x, s, t))
  {
    GlobalExtents(x, b, g, n, d, e, s, t);
    SummaryShape(s, t);
    if s.shape[0] != 0 && s.shape[3] != 0 && t.shape[3] != 0 {
      JoinFlattens(s);
      JoinFlattens(t);
      GlobalEqual(x, b, g, n, d, e, s, t);
    } else {
      var w, v := Trace(Summary, s, t).value, Summation(x, s, t);
      NoIndex(w.shape, if s.shape[0] == 0 then 0 else if s.shape[3] == 0 then 1 else 2);
      SameTensor(w, v);
    }
  }

  /** Every replacement has the value of its equation, on all extents, where every ellipsis has one rank. */
  lemma {:induction false} ContractionAgrees(q: Equation, a: Tensor, b: Tensor, v: Tensor)
    requires Contract(EquationText(q), a, b) == Some(v)
    ensures Trace(q, a, b) == Some(v)
  {
    match q
    case Similarity => Scores('i', 'j', 'd', a, b, v);
    case Values => WeightedValues('i', 'j', 'd', a, b, v);
    case Summary =>
      LowerFour('b', 'g', 'n', 'd');
      LowerFour('b', 'g', 'n', 'e');
      LowerFour('b', 'd', 'e', 'e');
      var dots, x := Opened(false, ['b', 'g', 'n', 'd'], false, ['b', 'g', 'n', 'e'], false, ['b', 'd', 'e'], a, b, v);
      GlobalAxes(x, dots, 'b', 'g', 'n', 'd', 'e');
      SummaryDecided(x, Named('b'), Named('g'), Named('n'), Named('d'), Named('e'), a, b);
    case Applied => SharedMatrix('b', 'g', 'n', 'd', 'e', a, b, v);
    case Outer => ScaleFeatures('f', a, b, v);
  }

  // ----- Ellipses of different ranks

  /** The tensor with a first axis of extent one. */
  function Lead(t: Tensor): (r: Tensor)
    ensures r.shape == [1] + t.shape
  {
    assert ([1] + t.shape)[1..] == t.shape;
    Tensor(t.element, [1] + t.shape, t.data)
  }

  function Raised(t: Tensor, rank: nat): (r: Tensor)
    ensures |r.shape| == Max(|t.shape|, rank)
    decreases rank - |t.shape|
  {
    if rank <= |t.shape| then t else Raised(Lead(t), rank)
  }

  /** torch.einsum: an ellipsis of lower rank is broadcast over the axes it lacks. */
  function Broadcast(q: Equation, a: Tensor, b: Tensor): Option<Tensor> {
    if q in {Similarity, Values} && 2 <= |a.shape| && 2 <= |b.shape| then
      Contract(EquationText(q), Raised(a, |b.shape|), Raised(b, |a.shape|))
    else Contract(EquationText(q), a, b)
  }

  lemma LeadAt(t: Tensor, index: seq<nat>)
    ensures At(Lead(t), [0] + index) == At(t, index)
  {
    var at, shape := [0] + index, [1] + t.shape;
    assert at[1..] == index && shape[1..] == t.shape;
    if InBounds(index, t.shape) {
      assert InBounds(at, shape);
      assert Offset(shape, at) == 0 * Product(t.shape) + Offset(t.shape, index);
    } else {
      assert forall k :: 0 <= k < |index| ==> at[k + 1] == index[k];
      assert forall k :: 0 <= k < |t.shape| ==> shape[k + 1] == t.shape[k];
      assert !InBounds(at, shape);
    }
  }

  lemma BroadcastAt(shape: seq<nat>, index: seq<nat>, k: nat)
    requires |shape| <= |index| && k < |shape|
    ensures BroadcastIndex(shape, index)[k] == if shape[k] == 1 then 0 else index[|index| - |shape| + k]
  {
  }

  lemma LeadIndexAt(shape: seq<nat>, longer: seq<nat>, index: seq<nat>, k: nat)
    requires |shape| < |index| && longer == [1] + shape && k <= |shape|
    ensures BroadcastIndex(longer, index)[k] == if k == 0 then 0 else BroadcastIndex(shape, index)[k - 1]
  {
    BroadcastAt(longer, index, k);
    if k > 0 {
      assert longer[k] == shape[k - 1];
      BroadcastAt(shape, index, k - 1);
    }
  }

  lemma Prepended(s: seq<nat>, t: seq<nat>)
    requires |s| == |t| + 1 && forall k :: 0 <= k < |s| ==> s[k] == if k == 0 then 0 else t[k - 1]
    ensures s == [0] + t
  {
  }

  lemma LeadIndex(shape: seq<nat>, index: seq<nat>)
    requires |shape| < |index|
    ensures BroadcastIndex([1] + shape, index) == [0] + BroadcastIndex(shape, index)
  {
    forall k | 0 <= k <= |shape|
      ensures BroadcastIndex([1] + shape, index)[k] == if k == 0 then 0 else BroadcastIndex(shape, index)[k - 1]
    {
      LeadIndexAt(shape, [1] + shape, index, k);
    }
    Prepended(BroadcastIndex([1] + shape, index), BroadcastIndex(shape, index));
  }

  lemma LeadExtent(shape: seq<nat>, rank: nat, k: nat)
    requires |shape| < rank && k < rank
    ensures PaddedExtent([1] + shape, rank, k) == PaddedExtent(shape, rank, k)
  {
  }

  lemma LeadBroadcast(a: seq<nat>, b: seq<nat>)
    requires |a| < |b|
    ensures Compatible([1] + a, b) <==> Compatible(a, b)
    ensures Compatible(b, [1] + a) <==> Compatible(b, a)
    ensures BroadcastShape([1] + a, b) == BroadcastShape(a, b) && BroadcastShape(b, [1] + a) == BroadcastShape(b, a)
  {
    forall k | 0 <= k < |b|
      ensures PaddedExtent([1] + a, |b|, k) == PaddedExtent(a, |b|, k)
    {
      LeadExtent(a, |b|, k);
    }
    assert Max(|[1] + a|, |b|) == |b| == Max(|a|, |b|) && Max(|b|, |[1] + a|) == |b| == Max(|b|, |a|);
    PaddedAlike([1] + a, a, b);
  }

  lemma PaddedAlike(x: seq<nat>, a: seq<nat>, b: seq<nat>)
    requires |a| <= |b| && |x| <= |b|
    requires forall k :: 0 <= k < |b| ==> PaddedExtent(x, |b|, k) == PaddedExtent(a, |b|, k)
    ensures Compatible(x, b) <==> Compatible(a, b)
    ensures Compatible(b, x) <==> Compatible(b, a)
    ensures BroadcastShape(x, b) == BroadcastShape(a, b) && BroadcastShape(b, x) == BroadcastShape(b, a)
  {
    CompatibleEntries(x, b);
    CompatibleEntries(a, b);
  }

  ghost predicate Meet(x: nat, y: nat) {
    x == y || x == 1 || y == 1
  }

  lemma CompatibleEntries(a: seq<nat>, b: seq<nat>)
    requires |a| <= |b|
    ensures Compatible(a, b) <==> forall k :: 0 <= k < |b| ==> Meet(PaddedExtent(a, |b|, k), PaddedExtent(b, |b|, k))
    ensures Compatible(b, a) <==> forall k :: 0 <= k < |b| ==> Meet(PaddedExtent(a, |b|, k), PaddedExtent(b, |b|, k))
  {
    assert Max(|a|, |b|) == |b| == Max(|b|, |a|);
  }

  lemma LeadBatch(t: Tensor)
    requires 2 <= |t.shape|
    ensures Batch(Lead(t).shape) == [1] + Batch(t.shape)
  {
  }

  lemma LeadTerm(a: Tensor, batch: seq<nat>, tail: seq<nat>)
    requires 2 <= |a.shape| < |batch| + 2
    ensures At(Lead(a), BroadcastIndex(Batch(Lead(a).shape), batch) + tail) == At(a, BroadcastIndex(Batch(a.shape), batch) + tail)
  {
    LeadBatch(a);
    LeadIndex(Batch(a.shape), batch);
    var read := BroadcastIndex(Batch(a.shape), batch);
    assert [0] + read + tail == [0] + (read + tail);
    LeadAt(a, read + tail);
  }

  lemma LeadTerms(a: Tensor, b: Tensor, index: seq<nat>, k: nat)
    requires 2 <= |a.shape| <= |index| && 2 <= |b.shape| <= |index|
    ensures |a.shape| < |index| ==> MatMulTerm(Lead(a), b, index, k) == MatMulTerm(a, b, index, k)
    ensures |b.shape| < |index| ==> MatMulTerm(a, Lead(b), index, k) == MatMulTerm(a, b, index, k)
  {
    var batch := index[..|index| - 2];
    if |a.shape| < |index| {
      LeadTerm(a, batch, [index[|index| - 2], k]);
    }
    if |b.shape| < |index| {
      LeadTerm(b, batch, [k, index[|index| - 1]]);
    }
  }

  lemma TermsAlike(a: Tensor, b: Tensor, c: Tensor, d: Tensor, index: seq<nat>, extent: nat)
    requires 2 <= |a.shape| && 2 <= |b.shape| && 2 <= |c.shape| && 2 <= |d.shape| && 2 <= |index|
    requires a.shape[|a.shape| - 1] == c.shape[|c.shape| - 1] == extent
    requires forall k: nat :: k < extent ==> MatMulTerm(a, b, index, k) == MatMulTerm(c, d, index, k)
    ensures MatMulAt(a, b, index) == MatMulAt(c, d, index)
  {
    SumEqual(extent, (k: nat) => MatMulTerm(a, b, index, k), (k: nat) => MatMulTerm(c, d, index, k));
  }

  lemma LeadLast(t: Tensor)
    requires t.shape != []
    ensures Lead(t).shape[|Lead(t).shape| - 1] == t.shape[|t.shape| - 1]
  {
  }

  lemma LeadLeftAt(a: Tensor, b: Tensor, index: seq<nat>)
    requires 2 <= |a.shape| < |b.shape| == |index|
    ensures MatMulAt(Lead(a), b, index) == MatMulAt(a, b, index)
  {
    var extent := a.shape[|a.shape| - 1];
    LeadLast(a);
    forall k: nat | k < extent
      ensures MatMulTerm(Lead(a), b, index, k) == MatMulTerm(a, b, index, k)
    {
      LeadTerms(a, b, index, k);
    }
    TermsAlike(Lead(a), b, a, b, index, extent);
  }

  lemma LeadRightAt(a: Tensor, b: Tensor, index: seq<nat>)
    requires 2 <= |b.shape| < |a.shape| == |index|
    ensures MatMulAt(a, Lead(b), index) == MatMulAt(a, b, index)
  {
    var extent := a.shape[|a.shape| - 1];
    forall k: nat | k < extent
      ensures MatMulTerm(a, Lead(b), index, k) == MatMulTerm(a, b, index, k)
    {
      LeadTerms(a, b, index, k);
    }
    TermsAlike(a, Lead(b), a, b, index, extent);
  }

  lemma LeadLeft(a: Tensor, b: Tensor)
    requires 2 <= |a.shape| < |b.shape|
    ensures MatMul(Lead(a), b) == MatMul(a, b)
  {
    LeadBatch(a);
    LeadBroadcast(Batch(a.shape), Batch(b.shape));
    if MatMul(a, b).Some? {
      var v, w := MatMul(a, b).value, MatMul(Lead(a), b).value;
      forall index | InBounds(index, v.shape)
        ensures At(w, index) == At(v, index)
      {
        LeadLeftAt(a, b, index);
      }
      SameTensor(w, v);
    }
  }

  lemma LeadRight(a: Tensor, b: Tensor)
    requires 2 <= |b.shape| < |a.shape|
    ensures MatMul(a, Lead(b)) == MatMul(a, b)
  {
    LeadBatch(b);
    LeadBroadcast(Batch(b.shape), Batch(a.shape));
    if MatMul(a, b).Some? {
      var v, w := MatMul(a, b).value, MatMul(a, Lead(b)).value;
      forall index | InBounds(index, v.shape)
        ensures At(w, index) == At(v, index)
      {
        LeadRightAt(a, b, index);
      }
      SameTensor(w, v);
    }
  }

  lemma {:induction false} RaisedLeft(a: Tensor, b: Tensor)
    requires 2 <= |a.shape| && 2 <= |b.shape|
    ensures MatMul(Raised(a, |b.shape|), b) == MatMul(a, b)
    decreases |b.shape| - |a.shape|
  {
    if |a.shape| < |b.shape| {
      RaisedLeft(Lead(a), b);
      LeadLeft(a, b);
    }
  }

  lemma {:induction false} RaisedRight(a: Tensor, b: Tensor)
    requires 2 <= |a.shape| && 2 <= |b.shape|
    ensures MatMul(a, Raised(b, |a.shape|)) == MatMul(a, b)
    decreases |a.shape| - |b.shape|
  {
    if |b.shape| < |a.shape| {
      RaisedRight(a, Lead(b));
      LeadRight(a, b);
    }
  }

  lemma LeadShapes(shape: seq<nat>)
    requires 2 <= |shape|
    ensures var (longer, n) := ([1] + shape, |shape|);
            Batch(longer) + [longer[n], longer[n - 1]] == [1] + (Batch(shape) + [shape[n - 1], shape[n - 2]])
  {
  }

  lemma LastTwo(index: seq<nat>) returns (batch: seq<nat>, i: nat, j: nat)
    requires 2 <= |index|
    ensures |batch| + 2 == |index| && index == batch + [i, j]
  {
    batch, i, j := index[..|index| - 2], index[|index| - 2], index[|index| - 1];
  }

  lemma LeadTurned(t: Tensor, turned: Tensor, longer: Tensor, target: Tensor)
    requires 2 <= |t.shape| && SwapTail(t) == Some(turned) && SwapTail(Lead(t)) == Some(longer)
    requires target == Lead(turned) && |longer.shape| == |t.shape| + 1
    requires longer.element == target.element && longer.shape == target.shape
    ensures longer == target
  {
    forall index | InBounds(index, longer.shape)
      ensures At(longer, index) == At(target, index)
    {
      var batch, i, j := LastTwo(index);
      LeadSwappedBounds(t, batch, i, j);
      LeadSwappedAt(t, batch, i, j);
    }
    SameTensor(longer, target);
  }

  lemma LeadSwapped(t: Tensor)
    requires 2 <= |t.shape|
    ensures SwapTail(t).Some? && SwapTail(Lead(t)) == Some(Lead(SwapTail(t).value))
  {
    TailSwapped(t);
    TailSwapped(Lead(t));
    LeadShapes(t.shape);
    LeadTurned(t, SwapTail(t).value, SwapTail(Lead(t)).value, Lead(SwapTail(t).value));
  }

  lemma LeadSwappedBounds(t: Tensor, batch: seq<nat>, i: nat, j: nat)
    requires 2 <= |t.shape| == |batch| + 1 && SwapTail(Lead(t)).Some?
    requires InBounds(batch + [i, j], SwapTail(Lead(t)).value.shape)
    ensures InBounds(batch + [j, i], Lead(t).shape)
  {
    TailSwapped(Lead(t));
    var n, shape, turned := |t.shape|, Lead(t).shape, SwapTail(Lead(t)).value.shape;
    assert turned[n - 1] == shape[n] && turned[n] == shape[n - 1];
    forall k | 0 <= k < n - 1
      ensures (batch + [j, i])[k] < shape[k]
    {
      assert (batch + [i, j])[k] == batch[k] && turned[k] == shape[k];
    }
    assert (batch + [i, j])[n - 1] == i && (batch + [i, j])[n] == j;
  }

  lemma LeadSwappedAt(t: Tensor, batch: seq<nat>, i: nat, j: nat)
    requires 2 <= |t.shape| == |batch| + 1 && InBounds(batch + [j, i], Lead(t).shape)
    ensures SwapTail(t).Some? && SwapTail(Lead(t)).Some?
    ensures At(SwapTail(Lead(t)).value, batch + [i, j]) == At(Lead(SwapTail(t).value), batch + [i, j])
  {
    var rest := batch[1..];
    assert (batch + [j, i])[0] == batch[0] == 0;
    assert batch + [j, i] == [0] + (rest + [j, i]) && batch + [i, j] == [0] + (rest + [i, j]);
    assert InBounds(rest + [j, i], t.shape) by {
      assert forall k :: 0 <= k < |t.shape| ==> (rest + [j, i])[k] == (batch + [j, i])[k + 1] && t.shape[k] == Lead(t).shape[k + 1];
    }
    TailSwappedAt(Lead(t), batch, i, j);
    TailSwappedAt(t, rest, i, j);
    LeadAt(t, rest + [j, i]);
    LeadAt(SwapTail(t).value, rest + [i, j]);
  }

  lemma {:induction false} RaisedSwapped(t: Tensor, rank: nat)
    requires 2 <= |t.shape|
    ensures SwapTail(t).Some? && SwapTail(Raised(t, rank)) == Some(Raised(SwapTail(t).value, rank))
    decreases rank - |t.shape|
  {
    TailSwapped(t);
    if |t.shape| < rank {
      LeadSwapped(t);
      RaisedSwapped(Lead(t), rank);
    }
  }

  lemma {:induction false} RaisedProduct(a: Tensor, b: Tensor)
    requires 2 <= |a.shape| && 2 <= |b.shape|
    ensures MatMul(Raised(a, |b.shape|), Raised(b, |a.shape|)) == MatMul(a, b)
  {
    if |a.shape| <= |b.shape| {
      RaisedLeft(a, b);
    } else {
      RaisedRight(a, b);
    }
  }

  /** Every replacement has the value of its equation, on all extents and for ellipses of any ranks. */
  lemma {:induction false} TraceAgrees(q: Equation, a: Tensor, b: Tensor, v: Tensor)
    requires Broadcast(q, a, b) == Some(v)
    ensures Trace(q, a, b) == Some(v)
  {
    if q in {Similarity, Values} && 2 <= |a.shape| && 2 <= |b.shape| {
      var x, y := Raised(a, |b.shape|), Raised(b, |a.shape|);
      ContractionAgrees(q, x, y, v);
      if q == Values {
        RaisedProduct(a, b);
      } else {
        RaisedSwapped(b, |a.shape|);
        TailSwapped(b);
        RaisedProduct(a, SwapTail(b).value);
      }
    } else {
      ContractionAgrees(q, a, b, v);
    }
  }

  // ----- Padding

  function PadAt(t: Tensor, axis: nat, left: int, value: real, index: seq<nat>): real
    requires axis < |t.shape|
  {
    if axis >= |index| then 0.0
    else
      var i := index[axis] - left;
      if 0 <= i < t.shape[axis] then At(t, index[axis := i]) else value
  }

  /** Lengthens one axis on both sides, a negative size shortening it. */
  function Pad(t: Tensor, axis: nat, left: int, right: int, value: real): Option<Tensor>
    requires axis < |t.shape|
  {
    var extent := t.shape[axis] + left + right;
    if extent < 0 then None
    else Some(Build(t.element, t.shape[axis := extent], index => PadAt(t, axis, left, value, index)))
  }

  /** Sizes in pairs, the last axis first. */
  function PadAll(t: Tensor, sizes: seq<int>, k: nat, value: real): Option<Tensor>
    requires |sizes| % 2 == 0 && |sizes| / 2 <= |t.shape| && k <= |sizes| / 2
    decreases |sizes| / 2 - k
  {
    if k == |sizes| / 2 then Some(t)
    else
      var next :- Pad(t, |t.shape| - 1 - k, sizes[2 * k], sizes[2 * k + 1], value);
      PadAll(next, sizes, k + 1, value)
  }

  function Full(t: Tensor, axis: nat, extent: nat, value: real): Tensor
    requires axis < |t.shape|
  {
    Build(t.element, t.shape[axis := extent], index => value)
  }

  function JoinAt(a: Tensor, b: Tensor, axis: nat, index: seq<nat>): real
    requires axis < |a.shape|
  {
    if axis >= |index| then 0.0
    else if index[axis] < a.shape[axis] then At(a, index)
    else At(b, index[axis := index[axis] - a.shape[axis]])
  }

  /** Two tensors one after the other along an axis. */
  function Join(a: Tensor, b: Tensor, axis: nat): Tensor
    requires axis < |a.shape| && |b.shape| == |a.shape|
  {
    Build(a.element, a.shape[axis := a.shape[axis] + b.shape[axis]], index => JoinAt(a, b, axis, index))
  }

  /** Everything but the last along an axis; an empty axis stays empty. */
  function Crop(t: Tensor, axis: nat): Tensor
    requires axis < |t.shape|
  {
    Build(t.element, t.shape[axis := if t.shape[axis] == 0 then 0 else t.shape[axis] - 1], index => At(t, index))
  }

  lemma {:induction false} PadNothing(t: Tensor, axis: nat, value: real)
    requires axis < |t.shape|
    ensures Pad(t, axis, 0, 0, value) == Some(t)
  {
    var p := Pad(t, axis, 0, 0, value).value;
    assert t.shape[axis := t.shape[axis]] == t.shape;
    forall index | InBounds(index, t.shape)
      ensures At(p, index) == At(t, index)
    {
      assert At(p, index) == PadAt(t, axis, 0, value, index);
      assert index[axis := index[axis]] == index;
    }
    SameTensor(p, t);
  }

  lemma {:induction false} TailJoined(t: Tensor, axis: nat, extent: nat, value: real)
    requires axis < |t.shape|
    ensures Pad(t, axis, 0, extent, value) == Some(Join(t, Full(t, axis, extent, value), axis))
  {
    var p, tail := Pad(t, axis, 0, extent, value).value, Full(t, axis, extent, value);
    var j := Join(t, tail, axis);
    forall index | InBounds(index, p.shape)
      ensures At(p, index) == At(j, index)
    {
      assert At(p, index) == PadAt(t, axis, 0, value, index) && At(j, index) == JoinAt(t, tail, axis, index);
      if index[axis] < t.shape[axis] {
        assert index[axis := index[axis]] == index;
      } else {
        assert InBounds(index[axis := index[axis] - t.shape[axis]], tail.shape);
      }
    }
    SameTensor(p, j);
  }

  /** Cropping the last and shifting by one is the padding it replaces, exactly when the axis is not empty. */
  lemma {:induction false} CroppedShifted(t: Tensor, axis: nat, value: real)
    requires axis < |t.shape|
    ensures Pad(Crop(t, axis), axis, 1, 0, value) == Pad(t, axis, 1, -1, value) <==> t.shape[axis] != 0
  {
    var c := Crop(t, axis);
    var p, q := Pad(c, axis, 1, 0, value).value, Pad(t, axis, 1, -1, value).value;
    if t.shape[axis] == 0 {
      assert p.shape[axis] == 1 && q.shape[axis] == 0;
    } else {
      assert c.shape[axis := t.shape[axis]] == t.shape[axis := t.shape[axis]];
      forall index | InBounds(index, q.shape)
        ensures At(p, index) == At(q, index)
      {
        assert At(p, index) == PadAt(c, axis, 1, value, index) && At(q, index) == PadAt(t, axis, 1, value, index);
        if index[axis] != 0 {
          assert InBounds(index[axis := index[axis] - 1], c.shape);
        }
      }
      SameTensor(p, q);
    }
  }

  predicate TailOnly(sizes: seq<int>) {
    (|sizes| == 2 || |sizes| == 4) && sizes[|sizes| - 1] >= 0 && forall k :: 0 <= k < |sizes| - 1 ==> sizes[k] == 0
  }

  predicate Shift(sizes: seq<int>) {
    sizes == [0, 0, 1, -1] || sizes == [0, 0, 0, 0, 1, -1]
  }

  /** Constant padding as the trace does it. */
  function PositivePad(t: Tensor, sizes: seq<int>, value: real): Option<Tensor>
    requires |sizes| % 2 == 0 && 0 < |sizes| / 2 <= |t.shape|
  {
    var axis := |t.shape| - |sizes| / 2;
    if TailOnly(sizes) then Some(Join(t, Full(t, axis, sizes[|sizes| - 1], value), axis))
    else if Shift(sizes) then PadAll(Crop(t, axis), sizes[|sizes| - 1 := 0], 0, value)
    else PadAll(t, sizes, 0, value)
  }

  /** Pairs of zeros before the k-th pad nothing. */
  lemma {:induction false} ZerosSkipped(t: Tensor, sizes: seq<int>, k: nat, last: nat, value: real)
    requires |sizes| % 2 == 0 && |sizes| / 2 <= |t.shape| && k <= last < |sizes| / 2
    requires forall i :: 2 * k <= i < 2 * last ==> sizes[i] == 0
    ensures PadAll(t, sizes, k, value) == PadAll(t, sizes, last, value)
    decreases last - k
  {
    if k != last {
      PadNothing(t, |t.shape| - 1 - k, value);
      ZerosSkipped(t, sizes, k + 1, last, value);
    }
  }

  lemma {:induction false} LastPair(t: Tensor, sizes: seq<int>, value: real)
    requires |sizes| % 2 == 0 && 0 < |sizes| / 2 <= |t.shape|
    requires forall i :: 0 <= i < |sizes| - 2 ==> sizes[i] == 0
    ensures PadAll(t, sizes, 0, value) == Pad(t, |t.shape| - |sizes| / 2, sizes[|sizes| - 2], sizes[|sizes| - 1], value)
  {
    var last := |sizes| / 2 - 1;
    ZerosSkipped(t, sizes, 0, last, value);
    assert 2 * last == |sizes| - 2;
    var next := Pad(t, |t.shape| - 1 - last, sizes[2 * last], sizes[2 * last + 1], value);
    if next.Some? {
      assert PadAll(next.value, sizes, last + 1, value) == Some(next.value);
    }
  }

  /** The replacement pads alike, but for a shift along an empty axis. */
  lemma {:induction false} PositivePadAgrees(t: Tensor, sizes: seq<int>, value: real)
    requires |sizes| % 2 == 0 && 0 < |sizes| / 2 <= |t.shape|
    ensures PositivePad(t, sizes, value) == PadAll(t, sizes, 0, value) <==>
            !(Shift(sizes) && t.shape[|t.shape| - |sizes| / 2] == 0)
  {
    var axis, n := |t.shape| - |sizes| / 2, |sizes|;
    if TailOnly(sizes) {
      LastPair(t, sizes, value);
      TailJoined(t, axis, sizes[n - 1], value);
    } else if Shift(sizes) {
      LastPair(t, sizes, value);
      LastPair(Crop(t, axis), sizes[n - 1 := 0], value);
      CroppedShifted(t, axis, value);
    }
  }
}
