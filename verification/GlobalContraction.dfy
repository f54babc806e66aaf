/**
 'bgnd,bgne->bde': the global reduction. Groups and frames are two summed axes; the lowering
 flattens them into one by a Reshape whose middle extent is left to be inferred. That is right
 exactly when the batch and both feature axes are non-empty.
 */
module GlobalContraction {
  import opened Contractions
  import opened Einsum
  import opened Operators
  import opened SequenceContractions
  import opened Sums
  import opened Tensors
  import opened Wrappers

  // ----- Flattening groups and frames

  /** The reshape target that the lowering computes from the operand's own shape. */
  function FlattenTarget(t: Tensor): Tensor
    requires |t.shape| == 4
  {
    Vector([t.shape[0] as int, -1, t.shape[3] as int])
  }

  function Flatten(t: Tensor): Option<Tensor>
    requires |t.shape| == 4
  {
    Reshape(t, FlattenTarget(t))
  }

  lemma ProductThree(x: nat, y: nat, z: nat)
    ensures Product([x, y, z]) == x * y * z
  {
    assert [x, y, z][1..] == [y, z] && [y, z][1..] == [z];
    assert Product([z]) == z by { ProductOne(z); }
    assert Product([y, z]) == y * z;
    assert x * (y * z) == x * y * z;
  }

  lemma ProductFour(w: nat, x: nat, y: nat, z: nat)
    ensures Product([w, x, y, z]) == w * x * y * z
  {
    ProductThree(x, y, z);
    assert [w, x, y, z][1..] == [x, y, z];
    assert w * (x * y * z) == w * x * y * z;
  }

  /** What the reshape yields: an empty feature axis makes the 0 in the target copy the frame axis. */
  lemma FlattenShape(t: Tensor)
    requires |t.shape| == 4
    ensures var (b, g, n, d) := (t.shape[0], t.shape[1], t.shape[2], t.shape[3]);
            var width := if d == 0 then n else d;
            (Flatten(t).Some? <==> b != 0 && width != 0) &&
            (Flatten(t).Some? ==>
              Flatten(t).value.element == t.element && Flatten(t).value.data == t.data &&
              |Flatten(t).value.shape| == 3 && Flatten(t).value.shape[2] == width) &&
            (Flatten(t).Some? && d != 0 ==> Flatten(t).value.shape == [b, g * n, d])
  {
    var (b, g, n, d) := (t.shape[0], t.shape[1], t.shape[2], t.shape[3]);
    var width := if d == 0 then n else d;
    IntegersOfVector([b as int, -1, d as int]);
    var copied := Copied([b as int, -1, d as int], t.shape);
    assert copied == [b as int, -1, width as int] && copied[1] == -1;
    assert t.shape == [b, g, n, d];
    assert ReshapeTarget(Integers(FlattenTarget(t)), 4);
    FlattenFill(copied, b, g, n, d, width);
  }

  /** The extents the reshape works with: none left over when the known ones are empty. */
  lemma FlattenFill(copied: seq<int>, b: nat, g: nat, n: nat, d: nat, width: nat)
    requires copied == [b as int, -1, width as int] && width == (if d == 0 then n else d)
    ensures Product(Fill(copied, 1)) != 0 <==> b != 0 && width != 0
    ensures b != 0 && width != 0 ==>
              var free := Product([b, g, n, d]) / Product(Fill(copied, 1));
              Fill(copied, free) == [b, free, width] && Product(Fill(copied, free)) == Product([b, g, n, d]) &&
              (d != 0 ==> free == g * n)
  {
    assert Fill(copied, 1) == [b, 1, width];
    ProductThree(b, 1, width);
    ProductFour(b, g, n, d);
    assert b * 1 * width == b * width;
    ProductNonzero(b, width);
    if b != 0 && width != 0 {
      var free := Product([b, g, n, d]) / (b * width);
      FreeExtent(b, g, n, d, width, free);
      assert Fill(copied, free) == [b, free, width];
      ProductThree(b, free, width);
    }
  }

  lemma ProductNonzero(x: nat, y: nat)
    ensures x * y != 0 <==> x != 0 && y != 0
  {
  }

  lemma FreeExtent(b: nat, g: nat, n: nat, d: nat, width: nat, free: nat)
    requires b * width != 0 && width == (if d == 0 then n else d)
    requires free == b * g * n * d / (b * width)
    ensures b * free * width == b * g * n * d
    ensures d != 0 ==> free == g * n
  {
    if d == 0 {
      assert b * g * n * d == 0;
      assert free == 0;
    } else {
      assert b * g * n * d == g * n * (b * d) by {
        assert b * g * n * d == b * (g * n) * d;
        assert b * (g * n) * d == (g * n) * b * d;
        assert (g * n) * b * d == (g * n) * (b * d);
      }
      DivideSplit(g * n, 0, b * d);
      assert b * (g * n) * d == b * g * n * d;
    }
  }

  lemma HornerFour(i: nat, x: nat, j: nat, y: nat, k: nat, z: nat, l: nat)
    ensures i * (x * y * z) + ((j * y + k) * z + l) == ((i * x + j) * y + k) * z + l
  {
    assert ((i * x + j) * y + k) * z == (i * x + j) * y * z + k * z;
    assert (i * x + j) * y * z == (i * x) * y * z + j * y * z;
    assert (i * x) * y * z == i * (x * y * z);
    assert (j * y + k) * z == j * y * z + k * z;
  }

  lemma OffsetFour(w: nat, x: nat, y: nat, z: nat, i: nat, j: nat, k: nat, l: nat)
    requires i < w && j < x && k < y && l < z
    ensures InBounds([i, j, k, l], [w, x, y, z])
    ensures Offset([w, x, y, z], [i, j, k, l]) == ((i * x + j) * y + k) * z + l
  {
    OffsetThree(x, y, z, j, k, l);
    ProductThree(x, y, z);
    assert [w, x, y, z][1..] == [x, y, z] && [i, j, k, l][1..] == [j, k, l];
    HornerFour(i, x, j, y, k, z, l);
  }

  lemma OffsetThree(x: nat, y: nat, z: nat, i: nat, j: nat, k: nat)
    requires i < x && j < y && k < z
    ensures InBounds([i, j, k], [x, y, z])
    ensures Offset([x, y, z], [i, j, k]) == (i * y + j) * z + k
  {
    assert [x, y, z][1..] == [y, z] && [y, z][1..] == [z] && [i, j, k][1..] == [j, k] && [j, k][1..] == [k];
    assert [k][1..] == [] && [z][1..] == [];
    assert Offset([z], [k]) == k by { assert k * Product([]) == k; }
    ProductOne(z);
    assert Product([y, z]) == y * z;
    assert Offset([y, z], [j, k]) == j * z + k;
    assert i * (y * z) + (j * z + k) == (i * y + j) * z + k by {
      assert (i * y + j) * z == i * y * z + j * z;
    }
  }

  lemma FlatOffset(i: nat, g: nat, j: nat, n: nat, k: nat, d: nat, l: nat)
    ensures ((i * g + j) * n + k) * d + l == (i * (g * n) + Flat(j, n, k)) * d + l
  {
    assert (i * g + j) * n == i * (g * n) + j * n;
  }

  lemma FlatOffsets(b: nat, g: nat, n: nat, d: nat, i: nat, j: nat, k: nat, l: nat)
    requires i < b && j < g && k < n && l < d
    ensures InBounds([i, j, k, l], [b, g, n, d]) && InBounds([i, Flat(j, n, k), l], [b, g * n, d])
    ensures Offset([b, g * n, d], [i, Flat(j, n, k), l]) == Offset([b, g, n, d], [i, j, k, l])
  {
    OffsetFour(b, g, n, d, i, j, k, l);
    HornerBound(j, g, k, n);
    OffsetThree(b, g * n, d, i, Flat(j, n, k), l);
    FlatOffset(i, g, j, n, k, d, l);
  }

  /** Element (b, g, n, d) of the operand is element (b, g * frames + n, d) of the flattened one. */
  lemma FlattenAt(t: Tensor, i: nat, j: nat, k: nat, l: nat)
    requires |t.shape| == 4 && t.shape[3] != 0
    requires i < t.shape[0] && j < t.shape[1] && k < t.shape[2] && l < t.shape[3]
    ensures Flatten(t).Some?
    ensures At(Flatten(t).value, [i, Flat(j, t.shape[2], k), l]) == At(t, [i, j, k, l])
  {
    FlattenShape(t);
    assert t.shape == [t.shape[0], t.shape[1], t.shape[2], t.shape[3]];
    FlatOffsets(t.shape[0], t.shape[1], t.shape[2], t.shape[3], i, j, k, l);
  }

  // ----- The double sum

  lemma ElementSummedTwice(x: Axes, a: Tensor, b: Tensor, index: seq<nat>, c: Dim, d: Dim)
    requires Ranked(x, a, b) && x.summed == [c, d]
    ensures var (dims, extents) := (x.left + x.right, a.shape + b.shape);
            Value(x, a, b, index) ==
            Sum(Extent(dims, extents, c), (i: nat) =>
              Sum(Extent(dims, extents, d), (j: nat) => Term(x, a, b, index + [i, j])))
  {
    var (dims, extents) := (x.left + x.right, a.shape + b.shape);
    var term := (summed: seq<nat>) => Term(x, a, b, index + summed);
    var m, n := Extent(dims, extents, c), Extent(dims, extents, d);
    assert Extents(dims, extents, x.summed) == [m, n] && [m, n][1..] == [n] && [n][1..] == [];
    var nested := (i: nat) => NestedSum([m, n][1..], (rest: seq<nat>) => term([i] + rest));
    forall i: nat | i < m
      ensures nested(i) == Sum(n, (j: nat) => Term(x, a, b, index + [i, j]))
    {
      var row := (rest: seq<nat>) => term([i] + rest);
      var cell := (j: nat) => NestedSum([n][1..], (rest: seq<nat>) => row([j] + rest));
      forall j: nat | j < n
        ensures cell(j) == Term(x, a, b, index + [i, j])
      {
        assert [i] + ([j] + []) == [i, j];
      }
      SumEqual(n, cell, (j: nat) => Term(x, a, b, index + [i, j]));
    }
    SumEqual(m, nested, (i: nat) => Sum(n, (j: nat) => Term(x, a, b, index + [i, j])));
  }

  // ----- Axes

  ghost predicate GlobalForm(x: Axes, b: Dim, g: Dim, n: Dim, d: Dim, e: Dim) {
    && x.left == [b, g, n, d] && x.right == [b, g, n, e] && x.result == [b, d, e] && x.summed == [g, n]
    && b.Named? && g.Named? && n.Named? && d.Named? && e.Named?
    && Distinct([b, d, e, g, n])
  }

  /** Only groups and frames are missing from the result. */
  lemma GlobalSummed(b: Dim, g: Dim, n: Dim, d: Dim, e: Dim)
    requires g !in [b, d, e] && n !in [b, d, e, g]
    ensures Contracted([b, g, n, d] + [b, g, n, e], [b, d, e]) == [g, n]
  {
    var result, rest := [b, d, e], [d] + [b, g, n, e];
    assert [b, g, n, d] + [b, g, n, e] == [b] + ([g] + ([n] + rest));
    ContractedSkips(result, [b], [g] + ([n] + rest));
    assert ([g] + ([n] + rest))[1..] == [n] + rest && ([n] + rest)[1..] == rest;
    ContractedNone(rest, result + [g] + [n]);
  }

  lemma GlobalAxes(x: Axes, dots: nat, b: char, g: char, n: char, d: char, e: char)
    requires Spelled(x, dots, false, [b, g, n, d], false, [b, g, n, e], false, [b, d, e])
    requires b != g && b != n && b != d && b != e && g != n && g != d && g != e && n != d && n != e && d != e
    ensures GlobalForm(x, Named(b), Named(g), Named(n), Named(d), Named(e))
  {
    var (p, q, r, s, u) := (Named(b), Named(g), Named(n), Named(d), Named(e));
    assert x.left == [p, q, r, s] && x.right == [p, q, r, u] && x.result == [p, s, u];
    GlobalSummed(p, q, r, s, u);
  }

  lemma GlobalExtents(x: Axes, b: Dim, g: Dim, n: Dim, d: Dim, e: Dim, s: Tensor, t: Tensor)
    requires GlobalForm(x, b, g, n, d, e) && Fits(x, s, t)
    ensures s.shape[0] == t.shape[0] && s.shape[1] == t.shape[1] && s.shape[2] == t.shape[2]
    ensures Extents(x.left + x.right, s.shape + t.shape, x.result) == [s.shape[0], s.shape[3], t.shape[3]]
    ensures Extent(x.left + x.right, s.shape + t.shape, g) == s.shape[1]
    ensures Extent(x.left + x.right, s.shape + t.shape, n) == s.shape[2]
  {
    var dims, extents := x.left + x.right, s.shape + t.shape;
    assert dims == [b, g, n, d, b, g, n, e];
    assert extents == [s.shape[0], s.shape[1], s.shape[2], s.shape[3], t.shape[0], t.shape[1], t.shape[2], t.shape[3]];
    GlobalAgree(dims, extents);
    var named := [b, d, e, g, n];
    assert named[0] != named[1] && named[0] != named[2] && named[0] != named[3] && named[0] != named[4];
    assert named[1] != named[2] && named[1] != named[3] && named[1] != named[4];
    assert named[2] != named[3] && named[2] != named[4] && named[3] != named[4];
    ExtentAt(dims, extents, b, 0);
    ExtentAt(dims, extents, g, 1);
    ExtentAt(dims, extents, n, 2);
    ExtentAt(dims, extents, d, 3);
    ExtentAt(dims, extents, e, 7);
  }

  lemma GlobalAgree(dims: seq<Dim>, extents: seq<nat>)
    requires |dims| == |extents| == 8 && Consistent(dims, extents)
    requires dims[0] == dims[4] && dims[1] == dims[5] && dims[2] == dims[6]
    requires dims[0].Named? && dims[1].Named? && dims[2].Named?
    ensures extents[0] == extents[4] && extents[1] == extents[5] && extents[2] == extents[6]
  {
  }

  lemma GlobalRead(x: Axes, b: Dim, g: Dim, n: Dim, d: Dim, e: Dim, l: seq<nat>, r: seq<nat>, index: seq<nat>, j: nat, k: nat)
    requires GlobalForm(x, b, g, n, d, e) && |l| == |r| == 4 && |index| == 3
    ensures OperandIndex(x.left, l, x.result + x.summed, index + [j, k]) == [index[0], j, k, index[1]]
    ensures OperandIndex(x.right, r, x.result + x.summed, index + [j, k]) == [index[0], j, k, index[2]]
  {
    var all := x.result + x.summed;
    assert all == [b, d, e, g, n];
    Coordinates(all, index + [j, k]);
    assert all[0] == b && all[1] == d && all[2] == e && all[3] == g && all[4] == n;
  }

  // ----- The lowered reduction

  const TIME_LAST: seq<nat> := [0, 2, 1]

  function LoweredGlobal(s: Tensor, t: Tensor): Option<Tensor>
    requires |s.shape| == 4 && |t.shape| == 4
  {
    var first :- Flatten(s);
    var second :- Flatten(t);
    var transposed :- Transpose(first, TIME_LAST);
    MatMul(transposed, second)
  }

  lemma LoweredParts(s: Tensor, t: Tensor, v: Tensor) returns (first: Tensor, second: Tensor, turned: Tensor)
    requires |s.shape| == 4 && |t.shape| == 4 && LoweredGlobal(s, t) == Some(v)
    ensures Flatten(s) == Some(first) && Flatten(t) == Some(second)
    ensures Transpose(first, TIME_LAST) == Some(turned) && MatMul(turned, second) == Some(v)
  {
    first, second := Flatten(s).value, Flatten(t).value;
    turned := Transpose(first, TIME_LAST).value;
  }

  lemma FlatTransposed(s: Tensor, i: nat, j: nat, k: nat, l: nat)
    requires |s.shape| == 4 && i < s.shape[0] && j < s.shape[1] && k < s.shape[2] && l < s.shape[3]
    ensures Flatten(s).Some? && Transpose(Flatten(s).value, TIME_LAST).Some?
    ensures At(Transpose(Flatten(s).value, TIME_LAST).value, [i, l, Flat(j, s.shape[2], k)]) == At(s, [i, j, k, l])
  {
    FlattenAt(s, i, j, k, l);
    FlattenShape(s);
    HornerBound(j, s.shape[1], k, s.shape[2]);
    TransposedAt(Flatten(s).value, TIME_LAST, [i, l, Flat(j, s.shape[2], k)], [i, Flat(j, s.shape[2], k), l]);
  }

  lemma StackTerm(p: Tensor, q: Tensor, i: nat, l: nat, r: nat, at: nat)
    requires |p.shape| == |q.shape| == 3 && i < p.shape[0] && i < q.shape[0]
    ensures MatMulTerm(p, q, [i, l, r], at) == Times(At(p, [i, l, at]), At(q, [i, at, r]))
  {
    var index := [i, l, r];
    assert BroadcastIndex(Batch(p.shape), index[..1]) == [i] && BroadcastIndex(Batch(q.shape), index[..1]) == [i];
    assert [i] + [l, at] == [i, l, at] && [i] + [at, r] == [i, at, r];
  }

  lemma GlobalPoint(x: Axes, b: Dim, g: Dim, n: Dim, d: Dim, e: Dim, s: Tensor, t: Tensor,
                    p: Tensor, q: Tensor, i: nat, l: nat, r: nat, j: nat, k: nat)
    requires GlobalForm(x, b, g, n, d, e) && Ranked(x, s, t)
    requires s.shape[0] == t.shape[0] && s.shape[1] == t.shape[1] && s.shape[2] == t.shape[2]
    requires i < s.shape[0] && l < s.shape[3] && r < t.shape[3] && j < s.shape[1] && k < s.shape[2]
    requires Flatten(s).Some? && Transpose(Flatten(s).value, TIME_LAST) == Some(p) && Flatten(t) == Some(q)
    requires |p.shape| == |q.shape| == 3 && p.shape[0] == s.shape[0] && q.shape[0] == t.shape[0]
    ensures MatMulTerm(p, q, [i, l, r], Flat(j, s.shape[2], k)) == Term(x, s, t, [i, l, r] + [j, k])
  {
    FlatTransposed(s, i, j, k, l);
    FlattenAt(t, i, j, k, r);
    GlobalRead(x, b, g, n, d, e, s.shape, t.shape, [i, l, r], j, k);
    MatrixTerm(x, s, t, [i, l, r] + [j, k], [i, j, k, l], [i, j, k, r]);
    StackTerm(p, q, i, l, r, Flat(j, s.shape[2], k));
  }

  lemma GlobalRow(x: Axes, b: Dim, g: Dim, n: Dim, d: Dim, e: Dim, s: Tensor, t: Tensor,
                  p: Tensor, q: Tensor, index: seq<nat>, j: nat)
    requires GlobalForm(x, b, g, n, d, e) && Ranked(x, s, t)
    requires s.shape[0] == t.shape[0] && s.shape[1] == t.shape[1] && s.shape[2] == t.shape[2]
    requires InBounds(index, [s.shape[0], s.shape[3], t.shape[3]]) && j < s.shape[1]
    requires Flatten(s).Some? && Transpose(Flatten(s).value, TIME_LAST) == Some(p) && Flatten(t) == Some(q)
    requires |p.shape| == |q.shape| == 3 && p.shape[0] == s.shape[0] && q.shape[0] == t.shape[0]
    ensures Sum(s.shape[2], (k: nat) => MatMulTerm(p, q, index, Flat(j, s.shape[2], k))) ==
            Sum(s.shape[2], (k: nat) => Term(x, s, t, index + [j, k]))
  {
    assert index == [index[0], index[1], index[2]];
    forall k: nat | k < s.shape[2]
      ensures MatMulTerm(p, q, index, Flat(j, s.shape[2], k)) == Term(x, s, t, index + [j, k])
    {
      GlobalPoint(x, b, g, n, d, e, s, t, p, q, index[0], index[1], index[2], j, k);
    }
    SumEqual(s.shape[2], (k: nat) => MatMulTerm(p, q, index, Flat(j, s.shape[2], k)),
             (k: nat) => Term(x, s, t, index + [j, k]));
  }

  lemma GlobalAt(x: Axes, b: Dim, g: Dim, n: Dim, d: Dim, e: Dim, s: Tensor, t: Tensor,
                 p: Tensor, q: Tensor, index: seq<nat>)
    requires GlobalForm(x, b, g, n, d, e) && Fits(x, s, t)
    requires InBounds(index, [s.shape[0], s.shape[3], t.shape[3]])
    requires Flatten(s).Some? && Transpose(Flatten(s).value, TIME_LAST) == Some(p) && Flatten(t) == Some(q)
    requires |p.shape| == |q.shape| == 3 && p.shape[0] == s.shape[0] && q.shape[0] == t.shape[0]
    requires p.shape[2] == s.shape[1] * s.shape[2]
    ensures MatMulAt(p, q, index) == Value(x, s, t, index)
  {
    GlobalExtents(x, b, g, n, d, e, s, t);
    ElementSummedTwice(x, s, t, index, g, n);
    var (groups, frames) := (s.shape[1], s.shape[2]);
    var flat := (at: nat) => MatMulTerm(p, q, index, at);
    SumFlattened(groups, frames, flat);
    var row := (j: nat) => Sum(frames, (k: nat) => flat(Flat(j, frames, k)));
    var term := (j: nat) => Sum(frames, (k: nat) => Term(x, s, t, index + [j, k]));
    forall j: nat | j < groups
      ensures row(j) == term(j)
    {
      GlobalRow(x, b, g, n, d, e, s, t, p, q, index, j);
      SumEqual(frames, (k: nat) => flat(Flat(j, frames, k)), (k: nat) => MatMulTerm(p, q, index, Flat(j, frames, k)));
    }
    SumEqual(groups, row, term);
  }

  lemma TimeLastShape(t: Tensor)
    requires |t.shape| == 3
    ensures Transpose(t, TIME_LAST).Some? && Transpose(t, TIME_LAST).value.element == t.element
    ensures Transpose(t, TIME_LAST).value.shape == [t.shape[0], t.shape[2], t.shape[1]]
  {
  }

  /** Two matrix stacks of one batch extent. */
  lemma StackProduct(p: Tensor, q: Tensor, b: nat, m: nat, k: nat, n: nat)
    requires p.shape == [b, m, k] && q.shape == [b, k, n] && p.element == q.element
    ensures MatMul(p, q).Some? && MatMul(p, q).value.shape == [b, m, n] && MatMul(p, q).value.element == p.element
  {
    assert Batch(p.shape) == [b] == Batch(q.shape);
    assert BroadcastShape(Batch(p.shape), Batch(q.shape)) == [b];
  }

  lemma GlobalShape(s: Tensor, t: Tensor)
    requires |s.shape| == 4 && |t.shape| == 4 && s.element == t.element
    requires s.shape[0] == t.shape[0] && s.shape[1] == t.shape[1] && s.shape[2] == t.shape[2]
    requires s.shape[0] != 0 && s.shape[3] != 0 && t.shape[3] != 0
    ensures Flatten(s).Some? && Flatten(t).Some? && Transpose(Flatten(s).value, TIME_LAST).Some?
    ensures Flatten(t).value.shape == [t.shape[0], t.shape[1] * t.shape[2], t.shape[3]]
    ensures Transpose(Flatten(s).value, TIME_LAST).value.shape == [s.shape[0], s.shape[3], s.shape[1] * s.shape[2]]
    ensures LoweredGlobal(s, t).Some? && LoweredGlobal(s, t).value.shape == [s.shape[0], s.shape[3], t.shape[3]]
    ensures LoweredGlobal(s, t).value.element == s.element
  {
    FlattenShape(s);
    FlattenShape(t);
    TimeLastShape(Flatten(s).value);
    var p, q := Transpose(Flatten(s).value, TIME_LAST).value, Flatten(t).value;
    StackProduct(p, q, s.shape[0], s.shape[3], s.shape[1] * s.shape[2], t.shape[3]);
  }

  lemma GlobalElement(x: Axes, b: Dim, g: Dim, n: Dim, d: Dim, e: Dim, s: Tensor, t: Tensor, index: seq<nat>)
    requires GlobalForm(x, b, g, n, d, e) && Fits(x, s, t)
    requires InBounds(index, [s.shape[0], s.shape[3], t.shape[3]])
    ensures LoweredGlobal(s, t).Some? && At(LoweredGlobal(s, t).value, index) == Value(x, s, t, index)
  {
    assert InBounds([index[0], index[1], index[2]], [s.shape[0], s.shape[3], t.shape[3]]);
    GlobalExtents(x, b, g, n, d, e, s, t);
    GlobalShape(s, t);
    GlobalAt(x, b, g, n, d, e, s, t, Transpose(Flatten(s).value, TIME_LAST).value, Flatten(t).value, index);
  }

  lemma GlobalEqual(x: Axes, b: Dim, g: Dim, n: Dim, d: Dim, e: Dim, s: Tensor, t: Tensor)
    requires GlobalForm(x, b, g, n, d, e) && Fits(x, s, t)
    requires s.shape[0] != 0 && s.shape[3] != 0 && t.shape[3] != 0
    ensures LoweredGlobal(s, t) == Some(Summation(x, s, t))
  {
    GlobalExtents(x, b, g, n, d, e, s, t);
    GlobalShape(s, t);
    var w, v := LoweredGlobal(s, t).value, Summation(x, s, t);
    forall index | InBounds(index, v.shape)
      ensures At(w, index) == At(v, index)
    {
      GlobalElement(x, b, g, n, d, e, s, t, index);
    }
    SameTensor(w, v);
  }

  lemma StackShape(p: Tensor, q: Tensor)
    requires |p.shape| == |q.shape| == 3 && MatMul(p, q).Some?
    ensures var w := MatMul(p, q).value.shape; |w| == 3 && w[1] == p.shape[1] && w[2] == q.shape[2]
  {
  }

  /** An empty batch or feature axis: the lowering fails or has the wrong extent. */
  lemma GlobalEmpty(s: Tensor, t: Tensor, v: Tensor)
    requires |s.shape| == 4 && |t.shape| == 4 && v.shape == [s.shape[0], s.shape[3], t.shape[3]]
    requires s.shape[0] == t.shape[0] && (s.shape[0] == 0 || s.shape[3] == 0 || t.shape[3] == 0)
    ensures LoweredGlobal(s, t) != Some(v)
  {
    FlattenShape(s);
    FlattenShape(t);
    if LoweredGlobal(s, t).Some? {
      TimeLastShape(Flatten(s).value);
      StackShape(Transpose(Flatten(s).value, TIME_LAST).value, Flatten(t).value);
    }
  }

  /** 'bgnd,bgne->bde': the lowering has the equation's value exactly when these axes are non-empty. */
  lemma GlobalReduction(b: char, g: char, n: char, d: char, e: char, s: Tensor, t: Tensor, v: Tensor)
    requires Letter(b) && Letter(g) && Letter(n) && Letter(d) && Letter(e)
    requires b != g && b != n && b != d && b != e && g != n && g != d && g != e && n != d && n != e && d != e
    requires Contract(Text(false, [b, g, n, d], false, [b, g, n, e], false, [b, d, e]), s, t) == Some(v)
    ensures |s.shape| == 4 && |t.shape| == 4
    ensures LoweredGlobal(s, t) == Some(v) <==> s.shape[0] != 0 && s.shape[3] != 0 && t.shape[3] != 0
  {
    LowerFour(b, g, n, d);
    LowerFour(b, g, n, e);
    LowerFour(b, d, e, e);
    var dots, x := Opened(false, [b, g, n, d], false, [b, g, n, e], false, [b, d, e], s, t, v);
    GlobalAxes(x, dots, b, g, n, d, e);
    GlobalDecided(x, Named(b), Named(g), Named(n), Named(d), Named(e), s, t);
  }

  lemma GlobalDecided(x: Axes, b: Dim, g: Dim, n: Dim, d: Dim, e: Dim, s: Tensor, t: Tensor)
    requires GlobalForm(x, b, g, n, d, e) && Fits(x, s, t)
    ensures LoweredGlobal(s, t) == Some(Summation(x, s, t)) <==>
            s.shape[0] != 0 && s.shape[3] != 0 && t.shape[3] != 0
  {
    GlobalExtents(x, b, g, n, d, e, s, t);
    if s.shape[0] != 0 && s.shape[3] != 0 && t.shape[3] != 0 {
      GlobalEqual(x, b, g, n, d, e, s, t);
    } else {
      GlobalEmpty(s, t, Summation(x, s, t));
    }
  }

  // ----- Operands the reduction takes

  /** Rank four, one element type, and one batch, group and frame extent. */
  predicate Reducible(s: Tensor, t: Tensor) {
    |s.shape| == 4 && |t.shape| == 4 && s.element == t.element && s.shape[..3] == t.shape[..3]
  }

  lemma GlobalTwice(x: Axes, b: Dim, g: Dim, n: Dim, d: Dim, e: Dim, i: nat, j: nat)
    requires GlobalForm(x, b, g, n, d, e) && i < 8 && j < 8
    requires (x.left + x.right)[i] == (x.left + x.right)[j]
    ensures i == j || (i % 4 == j % 4 && i % 4 < 3)
  {
    var named := [b, d, e, g, n];
    assert named[0] != named[1] && named[0] != named[2] && named[0] != named[3] && named[0] != named[4];
    assert named[1] != named[2] && named[1] != named[3] && named[1] != named[4];
    assert named[2] != named[3] && named[2] != named[4] && named[3] != named[4];
  }

  lemma ReducibleConsistent(x: Axes, b: Dim, g: Dim, n: Dim, d: Dim, e: Dim, s: Tensor, t: Tensor)
    requires GlobalForm(x, b, g, n, d, e) && Reducible(s, t)
    ensures Consistent(x.left + x.right, s.shape + t.shape)
  {
    var dims, extents := x.left + x.right, s.shape + t.shape;
    forall i, j | 0 <= i < 8 && 0 <= j < 8 && dims[i] == dims[j]
      ensures extents[i] == extents[j]
    {
      GlobalTwice(x, b, g, n, d, e, i, j);
      assert s.shape[..3][0] == t.shape[..3][0] && s.shape[..3][1] == t.shape[..3][1] && s.shape[..3][2] == t.shape[..3][2];
    }
  }

  lemma GlobalResult(x: Axes, b: Dim, g: Dim, n: Dim, d: Dim, e: Dim)
    requires GlobalForm(x, b, g, n, d, e)
    ensures Distinct(x.result) && forall r :: r in x.result ==> r in x.left + x.right
  {
    assert x.result == [b, d, e, g, n][..3];
    assert x.left[0] == b && x.left[3] == d && x.right[3] == e;
  }

  lemma GlobalFits(x: Axes, b: Dim, g: Dim, n: Dim, d: Dim, e: Dim, s: Tensor, t: Tensor)
    requires GlobalForm(x, b, g, n, d, e)
    ensures Fits(x, s, t) <==> Reducible(s, t)
  {
    GlobalResult(x, b, g, n, d, e);
    if Fits(x, s, t) {
      GlobalExtents(x, b, g, n, d, e, s, t);
    }
    if Reducible(s, t) {
      ReducibleConsistent(x, b, g, n, d, e, s, t);
    }
  }

  /** Exactly such operands have a reduction at all. */
  lemma GlobalTaken(b: char, g: char, n: char, d: char, e: char, s: Tensor, t: Tensor)
    requires Letter(b) && Letter(g) && Letter(n) && Letter(d) && Letter(e)
    requires b != g && b != n && b != d && b != e && g != n && g != d && g != e && n != d && n != e && d != e
    ensures Contract(Text(false, [b, g, n, d], false, [b, g, n, e], false, [b, d, e]), s, t).Some? <==> Reducible(s, t)
  {
    LowerFour(b, g, n, d);
    LowerFour(b, g, n, e);
    LowerFour(b, d, e, e);
    var dots, x := Reads(false, [b, g, n, d], false, [b, g, n, e], false, [b, d, e], s, t);
    GlobalAxes(x, dots, b, g, n, d, e);
    GlobalFits(x, Named(b), Named(g), Named(n), Named(d), Named(e), s, t);
  }

  /** A reduction with a value that its lowering does not have: no feature on the left. */
  lemma NoFeatures() returns (s: Tensor, t: Tensor, v: Tensor)
    ensures s.shape == [1, 1, 1, 0] && t.shape == [1, 1, 1, 1]
    ensures Contract(Text(false, ['b', 'g', 'n', 'd'], false, ['b', 'g', 'n', 'e'], false, ['b', 'd', 'e']), s, t) == Some(v)
    ensures LoweredGlobal(s, t) != Some(v)
  {
    ProductFour(1, 1, 1, 0);
    ProductFour(1, 1, 1, 1);
    s, t := Tensor(Float, [1, 1, 1, 0], []), Tensor(Float, [1, 1, 1, 1], [1.0]);
    GlobalTaken('b', 'g', 'n', 'd', 'e', s, t);
    v := Contract(Text(false, ['b', 'g', 'n', 'd'], false, ['b', 'g', 'n', 'e'], false, ['b', 'd', 'e']), s, t).value;
    GlobalReduction('b', 'g', 'n', 'd', 'e', s, t, v);
  }
}
