/**
 The attention equations whose right operand is first rearranged: scores against a transposed
 operand, the shared matrix applied to every group, and the reduction over groups and frames.
 */
module SequenceContractions {
  import opened Contractions
  import opened Einsum
  import opened Operators
  import opened Tensors
  import opened Wrappers

  // ----- '...id,...jd->...ij': scores against a transposed operand

  /** The permutation that exchanges the two last axes. */
  function TailSwap(rank: nat): (perm: seq<nat>)
    requires 2 <= rank
    ensures |perm| == rank
  {
    seq(rank, k requires 0 <= k < rank => if k == rank - 2 then rank - 1 else if k == rank - 1 then rank - 2 else k)
  }

  lemma {:induction false} FindAt(s: seq<nat>, k: nat)
    requires k < |s| && forall j :: 0 <= j < k ==> s[j] != s[k]
    ensures Find(s, s[k]) == k
  {
    if k != 0 {
      FindAt(s[1..], k - 1);
    }
  }

  /** Where a tensor transposed by a permutation that is its own inverse is read. */
  lemma TransposedIndex(perm: seq<nat>, index: seq<nat>, source: seq<nat>)
    requires Permutation(perm) && forall k :: 0 <= k < |perm| ==> perm[perm[k]] == k
    requires |index| == |perm| == |source| && forall k :: 0 <= k < |perm| ==> index[k] == source[perm[k]]
    ensures TransposeIndex(perm, index) == source
  {
    forall k | 0 <= k < |perm|
      ensures Find(perm, k) == perm[k]
    {
      FindAt(perm, perm[k]);
    }
  }

  lemma TransposedAt(t: Tensor, perm: seq<nat>, index: seq<nat>, source: seq<nat>)
    requires |perm| == |t.shape| && Permutation(perm) && forall k :: 0 <= k < |perm| ==> perm[perm[k]] == k
    requires |index| == |perm| && InBounds(source, t.shape)
    requires forall k :: 0 <= k < |perm| ==> index[k] == source[perm[k]]
    ensures At(Transpose(t, perm).value, index) == At(t, source)
  {
    TransposedIndex(perm, index, source);
    assert InBounds(index, Transpose(t, perm).value.shape);
  }

  lemma TailSwapped(t: Tensor)
    requires 2 <= |t.shape|
    ensures Transpose(t, TailSwap(|t.shape|)).Some?
    ensures var m, n := Transpose(t, TailSwap(|t.shape|)).value, |t.shape|;
            m.element == t.element && m.shape == Batch(t.shape) + [t.shape[n - 1], t.shape[n - 2]]
  {
    var n := |t.shape|;
    assert Transpose(t, TailSwap(n)).value.shape == Batch(t.shape) + [t.shape[n - 1], t.shape[n - 2]];
  }

  lemma TailSwappedAt(t: Tensor, batch: seq<nat>, i: nat, j: nat)
    requires 2 <= |t.shape| && |batch| + 2 == |t.shape| && InBounds(batch + [j, i], t.shape)
    ensures Transpose(t, TailSwap(|t.shape|)).Some?
    ensures At(Transpose(t, TailSwap(|t.shape|)).value, batch + [i, j]) == At(t, batch + [j, i])
  {
    TailSwapped(t);
    TransposedAt(t, TailSwap(|t.shape|), batch + [i, j], batch + [j, i]);
  }

  lemma ScoresForm(x: Axes, e: nat, i: char, j: char, d: char)
    requires Spelled(x, e, true, [i, d], true, [j, d], true, [i, j]) && i != j && j != d && i != d
    ensures x.left == Dots(e) + [Named(i), Named(d)] && x.right == Dots(e) + [Named(j), Named(d)]
    ensures MatrixForm(x, Dots(e), Named(i), Named(j), Named(d))
  {
    assert x.left == Dots(e) + [Named(i), Named(d)] && x.right == Dots(e) + [Named(j), Named(d)];
    assert x.result == Dots(e) + [Named(i), Named(j)];
    assert x.left + x.right == (Dots(e) + [Named(i)]) + [Named(d)] + (Dots(e) + [Named(j), Named(d)]);
    ContractedOne(Dots(e) + [Named(i)], Named(d), Dots(e) + [Named(j), Named(d)], x.result);
  }

  lemma ScoresExtents(x: Axes, e: nat, i: Dim, j: Dim, d: Dim, a: Tensor, b: Tensor)
    requires x.left == Dots(e) + [i, d] && x.right == Dots(e) + [j, d]
    requires MatrixForm(x, Dots(e), i, j, d) && Fits(x, a, b)
    ensures b.shape[e + 1] == a.shape[e + 1]
    ensures Extent(x.left + x.right, a.shape + b.shape, j) == b.shape[e]
  {
    var dims, extents := x.left + x.right, a.shape + b.shape;
    var named := Dots(e) + [i, j] + [d];
    assert named[e] == i && named[e + 1] == j && named[e + 2] == d;
    assert dims[e + 1] == d && dims[e + 2 + e + 1] == d && extents[e + 2 + e + 1] == b.shape[e + 1];
    ExtentAt(dims, extents, j, e + 2 + e);
  }

  /** What the equation reads from the right operand, before it is transposed. */
  lemma ScoresRead(x: Axes, e: nat, i: Dim, j: Dim, d: Dim, shape: seq<nat>, index: seq<nat>, k: nat)
    requires x.right == Dots(e) + [j, d] && MatrixForm(x, Dots(e), i, j, d)
    requires |shape| == e + 2 && |index| == e + 2
    ensures OperandIndex(x.right, shape, x.result + x.summed, index + [k]) ==
            BroadcastIndex(Batch(shape), index[..e]) + [index[e + 1], k]
  {
    var all := x.result + x.summed;
    assert all == Dots(e) + [i, j] + [d];
    Coordinates(all, index + [k]);
    assert all[e + 1] == j && all[e + 2] == d;
    forall t | 0 <= t < e
      ensures Coordinate(all, index + [k], Dot(t)) == index[t]
    {
      assert all[t] == Dot(t);
    }
  }

  /** One element of the right operand, read through its transposition. */
  lemma ScoresPoint(x: Axes, e: nat, i: Dim, j: Dim, d: Dim, b: Tensor, index: seq<nat>, k: nat)
    requires x.right == Dots(e) + [j, d] && MatrixForm(x, Dots(e), i, j, d) && |b.shape| == e + 2 && |index| == e + 2
    requires InBounds(BroadcastIndex(Batch(b.shape), index[..e]), Batch(b.shape)) && index[e + 1] < b.shape[e] && k < b.shape[e + 1]
    ensures Transpose(b, TailSwap(|b.shape|)).Some?
    ensures At(Transpose(b, TailSwap(|b.shape|)).value, BroadcastIndex(Batch(b.shape), index[..e]) + [k, index[e + 1]]) ==
            At(b, OperandIndex(x.right, b.shape, x.result + x.summed, index + [k]))
  {
    ScoresRead(x, e, i, j, d, b.shape, index, k);
    TailSwappedAt(b, BroadcastIndex(Batch(b.shape), index[..e]), k, index[e + 1]);
  }

  /** The transposed operand has the extents the equation expects. */
  lemma ScoresShape(x: Axes, e: nat, i: Dim, j: Dim, d: Dim, a: Tensor, b: Tensor) returns (m: Tensor)
    requires x.left == Dots(e) + [i, d] && x.right == Dots(e) + [j, d]
    requires MatrixForm(x, Dots(e), i, j, d) && Fits(x, a, b)
    ensures |a.shape| == |b.shape| == |m.shape| == e + 2 && Transpose(b, TailSwap(|b.shape|)) == Some(m)
    ensures m.element == b.element && Batch(m.shape) == Batch(b.shape) && Compatible(Batch(a.shape), Batch(m.shape))
    ensures BroadcastShape(Batch(a.shape), Batch(m.shape)) == Extents(x.left + x.right, a.shape + b.shape, Dots(e))
    ensures m.shape[e] == b.shape[e + 1] == a.shape[e + 1]
    ensures m.shape[e + 1] == b.shape[e] == Extent(x.left + x.right, a.shape + b.shape, j)
  {
    TailSwapped(b);
    m := Transpose(b, TailSwap(|b.shape|)).value;
    EllipsisExtents(x, e, i, d, j, d, a, b);
    ScoresExtents(x, e, i, j, d, a, b);
    assert Batch(m.shape) == Batch(b.shape);
  }

  lemma ScoresStand(x: Axes, e: nat, i: Dim, j: Dim, d: Dim, a: Tensor, b: Tensor)
    requires x.left == Dots(e) + [i, d] && x.right == Dots(e) + [j, d]
    requires MatrixForm(x, Dots(e), i, j, d) && Fits(x, a, b)
    ensures Transpose(b, TailSwap(|b.shape|)).Some?
    ensures StandsFor(x, Dots(e), a, b, Transpose(b, TailSwap(|b.shape|)).value)
  {
    var m := ScoresShape(x, e, i, j, d, a, b);
    assert x.result[e + 1] == j;
    forall index: seq<nat>, k: nat | InBounds(index, Extents(x.left + x.right, a.shape + b.shape, x.result)) && k < a.shape[e + 1]
      ensures At(m, BroadcastIndex(Batch(m.shape), index[..e]) + [k, index[e + 1]]) ==
              At(b, OperandIndex(x.right, b.shape, x.result + x.summed, index + [k]))
    {
      BroadcastInBounds(x, e, i, j, d, a, b, index);
      ScoresPoint(x, e, i, j, d, b, index, k);
    }
  }

  lemma BroadcastInBounds(x: Axes, e: nat, i: Dim, j: Dim, d: Dim, a: Tensor, b: Tensor, index: seq<nat>)
    requires x.left == Dots(e) + [i, d] && x.right == Dots(e) + [j, d]
    requires MatrixForm(x, Dots(e), i, j, d) && Fits(x, a, b)
    requires InBounds(index, Extents(x.left + x.right, a.shape + b.shape, x.result))
    ensures InBounds(BroadcastIndex(Batch(b.shape), index[..e]), Batch(b.shape)) && index[e + 1] < b.shape[e]
  {
    EllipsisExtents(x, e, i, d, j, d, a, b);
    ScoresExtents(x, e, i, j, d, a, b);
    var dims, extents := x.left + x.right, a.shape + b.shape;
    assert x.result[e + 1] == j;
    forall t | 0 <= t < e
      ensures index[t] < BroadcastShape(Batch(a.shape), Batch(b.shape))[t]
    {
      assert x.result[t] == Dot(t);
      assert Extents(dims, extents, Dots(e))[t] == Extents(dims, extents, x.result)[t];
    }
  }

  lemma Scores(i: char, j: char, d: char, a: Tensor, b: Tensor, v: Tensor)
    requires Letter(i) && Letter(j) && Letter(d) && i != j && j != d && i != d
    requires Contract(Text(true, [i, d], true, [j, d], true, [i, j]), a, b) == Some(v)
    ensures 2 <= |b.shape| && Transpose(b, TailSwap(|b.shape|)).Some?
    ensures MatMul(a, Transpose(b, TailSwap(|b.shape|)).value) == Some(v)
  {
    var e, x := Opened(true, [i, d], true, [j, d], true, [i, j], a, b, v);
    ScoresForm(x, e, i, j, d);
    ScoresStand(x, e, Named(i), Named(j), Named(d), a, b);
    MatrixContraction(x, Dots(e), Named(i), Named(j), Named(d), a, b, Transpose(b, TailSwap(|b.shape|)).value);
  }

  // ----- 'bgnd,bde->bgne': one matrix shared by every group

  lemma SharedForm(x: Axes, dots: nat, b: char, g: char, n: char, d: char, e: char)
    requires Spelled(x, dots, false, [b, g, n, d], false, [b, d, e], false, [b, g, n, e])
    requires b != g && b != n && b != d && b != e && g != n && g != d && g != e && n != d && n != e && d != e
    ensures x.left == [Named(b), Named(g), Named(n), Named(d)] && x.right == [Named(b), Named(d), Named(e)]
    ensures MatrixForm(x, [Named(b), Named(g)], Named(n), Named(e), Named(d))
  {
    assert x.left == [Named(b), Named(g), Named(n)] + [Named(d)];
    assert x.right == [Named(b), Named(d), Named(e)] && x.result == [Named(b), Named(g), Named(n), Named(e)];
    ContractedOne([Named(b), Named(g), Named(n)], Named(d), x.right, x.result);
    assert [Named(b), Named(g)] + [Named(n), Named(e)] == x.result;
  }

  lemma SharedExtents(x: Axes, b: Dim, g: Dim, n: Dim, d: Dim, e: Dim, t: Tensor, m: Tensor)
    requires x.left == [b, g, n, d] && x.right == [b, d, e] && MatrixForm(x, [b, g], n, e, d) && Fits(x, t, m)
    requires b.Named? && g.Named?
    ensures m.shape[0] == t.shape[0] && m.shape[1] == t.shape[3]
    ensures Extents(x.left + x.right, t.shape + m.shape, x.result) == [t.shape[0], t.shape[1], t.shape[2], m.shape[2]]
  {
    var dims, extents := x.left + x.right, t.shape + m.shape;
    assert dims == [b, g, n, d, b, d, e];
    var named := [b, g] + [n, e] + [d];
    assert named == [b, g, n, e, d];
    assert named[0] != named[1] && named[0] != named[2] && named[0] != named[3] && named[0] != named[4];
    assert named[1] != named[2] && named[1] != named[3] && named[1] != named[4] && named[3] != named[4];
    assert dims[0] == dims[4] && dims[3] == dims[5];
    assert extents == [t.shape[0], t.shape[1], t.shape[2], t.shape[3], m.shape[0], m.shape[1], m.shape[2]];
    ExtentAt(dims, extents, b, 0);
    ExtentAt(dims, extents, g, 1);
    ExtentAt(dims, extents, n, 2);
    ExtentAt(dims, extents, e, 6);
    assert x.result == [b, g, n, e];
  }

  lemma SharedRead(x: Axes, b: Dim, g: Dim, n: Dim, d: Dim, e: Dim, shape: seq<nat>, index: seq<nat>, k: nat)
    requires x.right == [b, d, e] && MatrixForm(x, [b, g], n, e, d) && b.Named?
    requires |shape| == 3 && |index| == 4
    ensures OperandIndex(x.right, shape, x.result + x.summed, index + [k]) == [index[0], k, index[3]]
  {
    var all := x.result + x.summed;
    assert all == [b, g] + [n, e] + [d];
    Coordinates(all, index + [k]);
    assert all[0] == b && all[3] == e && all[4] == d;
  }

  lemma SharedStand(x: Axes, b: Dim, g: Dim, n: Dim, d: Dim, e: Dim, t: Tensor, m: Tensor)
    requires x.left == [b, g, n, d] && x.right == [b, d, e] && MatrixForm(x, [b, g], n, e, d) && Fits(x, t, m)
    requires b.Named? && g.Named?
    ensures Unsqueeze(m, 1).Some? && StandsFor(x, [b, g], t, m, Unsqueeze(m, 1).value)
  {
    SharedExtents(x, b, g, n, d, e, t, m);
    var u := Unsqueeze(m, 1).value;
    assert u.shape == [m.shape[0], 1, m.shape[1], m.shape[2]];
    assert Batch(u.shape) == [m.shape[0], 1] && Batch(t.shape) == [t.shape[0], t.shape[1]];
    var dims, extents := x.left + x.right, t.shape + m.shape;
    var shape := [t.shape[0], t.shape[1], t.shape[2], m.shape[2]];
    assert x.result == [b, g] + [n, e];
    assert Extents(dims, extents, [b, g]) == shape[..2];
    assert Extent(dims, extents, x.result[3]) == shape[3];
    forall index: seq<nat>, k: nat | InBounds(index, shape) && k < t.shape[3]
      ensures At(u, BroadcastIndex(Batch(u.shape), index[..2]) + [k, index[3]]) ==
              At(m, OperandIndex(x.right, m.shape, x.result + x.summed, index + [k]))
    {
      SharedRead(x, b, g, n, d, e, m.shape, index, k);
      SharedAt(m, index, k);
    }
  }

  lemma SharedAt(m: Tensor, index: seq<nat>, k: nat)
    requires |m.shape| == 3 && |index| == 4
    requires index[0] < m.shape[0] && k < m.shape[1] && index[3] < m.shape[2]
    ensures At(Unsqueeze(m, 1).value, BroadcastIndex([m.shape[0], 1], index[..2]) + [k, index[3]]) ==
            At(m, [index[0], k, index[3]])
  {
    var u := Unsqueeze(m, 1).value;
    assert u.shape == [m.shape[0], 1, m.shape[1], m.shape[2]];
    var read := BroadcastIndex([m.shape[0], 1], index[..2]) + [k, index[3]];
    assert read == [index[0], 0, k, index[3]];
    assert At(u, read) == UnsqueezeAt(m, 1, read);
    assert read[..1] + read[2..] == [index[0], k, index[3]];
  }

  lemma LowerFour(p: char, q: char, r: char, s: char)
    requires Letter(p) && Letter(q) && Letter(r) && Letter(s)
    ensures Lower([p, q, r, s]) && Lower([p, q, r])
  {
  }

  /** 'bgnd,bde->bgne': the shared matrix is broadcast over the groups. */
  lemma SharedMatrix(b: char, g: char, n: char, d: char, e: char, t: Tensor, m: Tensor, v: Tensor)
    requires Letter(b) && Letter(g) && Letter(n) && Letter(d) && Letter(e)
    requires b != g && b != n && b != d && b != e && g != n && g != d && g != e && n != d && n != e && d != e
    requires Contract(Text(false, [b, g, n, d], false, [b, d, e], false, [b, g, n, e]), t, m) == Some(v)
    ensures Unsqueeze(m, 1).Some? && MatMul(t, Unsqueeze(m, 1).value) == Some(v)
  {
    LowerFour(b, g, n, d);
    LowerFour(b, d, e, e);
    LowerFour(b, g, n, e);
    var dots, x := Opened(false, [b, g, n, d], false, [b, d, e], false, [b, g, n, e], t, m, v);
    SharedForm(x, dots, b, g, n, d, e);
    SharedContraction(x, Named(b), Named(g), Named(n), Named(d), Named(e), t, m);
  }

  lemma SharedContraction(x: Axes, b: Dim, g: Dim, n: Dim, d: Dim, e: Dim, t: Tensor, m: Tensor)
    requires x.left == [b, g, n, d] && x.right == [b, d, e] && MatrixForm(x, [b, g], n, e, d) && Fits(x, t, m)
    requires b.Named? && g.Named?
    ensures Unsqueeze(m, 1).Some? && MatMul(t, Unsqueeze(m, 1).value) == Some(Summation(x, t, m))
  {
    SharedStand(x, b, g, n, d, e, t, m);
    SharedExtents(x, b, g, n, d, e, t, m);
    SharedLead(x, b, g, n, e, d, t, m);
    MatrixContraction(x, [b, g], n, e, d, t, m, Unsqueeze(m, 1).value);
  }

  lemma SharedLead(x: Axes, b: Dim, g: Dim, n: Dim, e: Dim, d: Dim, t: Tensor, m: Tensor)
    requires Ranked(x, t, m) && MatrixForm(x, [b, g], n, e, d) && |t.shape| == 4 && |m.shape| == 3
    requires Extents(x.left + x.right, t.shape + m.shape, x.result) == [t.shape[0], t.shape[1], t.shape[2], m.shape[2]]
    ensures Extent(x.left + x.right, t.shape + m.shape, b) == t.shape[0]
    ensures Extent(x.left + x.right, t.shape + m.shape, g) == t.shape[1]
  {
    assert x.result[0] == b && x.result[1] == g;
    var found := Extents(x.left + x.right, t.shape + m.shape, x.result);
    assert found[0] == t.shape[0] && found[1] == t.shape[1];
  }
}
