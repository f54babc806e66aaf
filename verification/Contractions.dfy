/**
 The seven separator contractions: whenever the Einsum of an equation has a value, the
 combination of ordinary operators that replaces it has the same value.
 */
module Contractions {
  import opened Einsum
  import opened Operators
  import opened Sums
  import opened Tensors
  import opened Wrappers

  // ----- Spelling out the axes of a written equation

  function Names(letters: string): (dims: seq<Dim>)
    ensures |dims| == |letters| && forall k :: 0 <= k < |letters| ==> dims[k] == Named(letters[k])
  {
    seq(|letters|, k requires 0 <= k < |letters| => Named(letters[k]))
  }

  function Lead(dotted: bool, dots: nat): seq<Dim> {
    if dotted then Dots(dots) else []
  }

  lemma {:induction false} ExpandLetters(letters: string, dots: nat)
    ensures Expand(Letters(letters), dots) == Names(letters)
    ensures AxisCount(Letters(letters)) == |letters|
  {
    if letters != "" {
      ExpandLetters(letters[1..], dots);
      assert Letters(letters)[1..] == Letters(letters[1..]);
      assert Names(letters) == [Named(letters[0])] + Names(letters[1..]);
    }
  }

  lemma ExpandTerm(dotted: bool, letters: string, dots: nat)
    ensures Expand(TermOf(dotted, letters), dots) == Lead(dotted, dots) + Names(letters)
    ensures AxisCount(TermOf(dotted, letters)) == |letters|
    ensures Ellipsis in TermOf(dotted, letters) <==> dotted
  {
    ExpandLetters(letters, dots);
    var term := TermOf(dotted, letters);
    if dotted {
      assert term[0] == Ellipsis && term[1..] == Letters(letters);
    } else {
      assert term == Letters(letters);
    }
  }

  lemma {:induction false} ContractedSkips(seen: seq<Dim>, before: seq<Dim>, after: seq<Dim>)
    requires forall d :: d in before ==> d in seen
    ensures Contracted(before + after, seen) == Contracted(after, seen)
  {
    if before == [] {
      assert before + after == after;
    } else {
      assert before[0] in seen;
      ContractedSkips(seen, before[1..], after);
      assert (before + after)[1..] == before[1..] + after;
    }
  }

  lemma ContractedNone(dims: seq<Dim>, seen: seq<Dim>)
    requires forall d :: d in dims ==> d in seen
    ensures Contracted(dims, seen) == []
  {
    ContractedSkips(seen, dims, []);
    assert dims + [] == dims;
  }

  /** Everything is named by the result except one axis, which is summed once. */
  lemma ContractedOne(before: seq<Dim>, d: Dim, after: seq<Dim>, seen: seq<Dim>)
    requires forall x :: x in before ==> x in seen
    requires d !in seen
    requires forall x :: x in after ==> x == d || x in seen
    ensures Contracted(before + [d] + after, seen) == [d]
  {
    assert before + [d] + after == before + ([d] + after);
    ContractedSkips(seen, before, [d] + after);
    assert ([d] + after)[1..] == after;
    ContractedNone(after, seen + [d]);
  }

  // ----- Extents and coordinates

  lemma {:induction false} ExtentAt(dims: seq<Dim>, extents: seq<nat>, d: Dim, k: nat)
    requires |dims| == |extents| && k < |dims| && dims[k] == d
    requires !(d.Dot? && extents[k] == 1)
    requires forall j :: 0 <= j < k ==> dims[j] != d || (d.Dot? && extents[j] == 1)
    ensures Extent(dims, extents, d) == extents[k]
  {
    if k != 0 {
      ExtentAt(dims[1..], extents[1..], d, k - 1);
    }
  }

  lemma {:induction false} ExtentOne(dims: seq<Dim>, extents: seq<nat>, d: Dim)
    requires |dims| == |extents|
    requires forall j :: 0 <= j < |dims| ==> dims[j] != d || (d.Dot? && extents[j] == 1)
    ensures Extent(dims, extents, d) == 1
  {
    if dims != [] {
      ExtentOne(dims[1..], extents[1..], d);
    }
  }

  lemma {:induction false} CoordinateAt(all: seq<Dim>, index: seq<nat>, k: nat)
    requires |all| == |index| && k < |all| && Distinct(all)
    ensures Coordinate(all, index, all[k]) == index[k]
  {
    if k != 0 {
      CoordinateAt(all[1..], index[1..], k - 1);
    }
  }

  lemma Coordinates(all: seq<Dim>, index: seq<nat>)
    requires |all| == |index| && Distinct(all)
    ensures forall k :: 0 <= k < |all| ==> Coordinate(all, index, all[k]) == index[k]
  {
    forall k | 0 <= k < |all|
      ensures Coordinate(all, index, all[k]) == index[k]
    {
      CoordinateAt(all, index, k);
    }
  }

  // ----- Elements of a contraction

  lemma ElementUnsummed(x: Axes, a: Tensor, b: Tensor, index: seq<nat>, ia: seq<nat>, ib: seq<nat>)
    requires Ranked(x, a, b) && x.summed == [] && |index| == |x.result|
    requires OperandIndex(x.left, a.shape, x.result, index) == ia
    requires OperandIndex(x.right, b.shape, x.result, index) == ib
    ensures Value(x, a, b, index) == Times(At(a, ia), At(b, ib))
  {
    assert index + [] == index;
    assert x.result + x.summed == x.result;
  }

  lemma ElementSummed(x: Axes, a: Tensor, b: Tensor, index: seq<nat>, d: Dim)
    requires Ranked(x, a, b) && x.summed == [d]
    ensures Value(x, a, b, index) ==
            Sum(Extent(x.left + x.right, a.shape + b.shape, d), (k: nat) => Term(x, a, b, index + [k]))
  {
    var term := (summed: seq<nat>) => Term(x, a, b, index + summed);
    var n := Extent(x.left + x.right, a.shape + b.shape, d);
    assert Extents(x.left + x.right, a.shape + b.shape, x.summed) == [n];
    var nested := (v: nat) => NestedSum([n][1..], (rest: seq<nat>) => term([v] + rest));
    forall k: nat | k < n
      ensures nested(k) == Term(x, a, b, index + [k])
    {
      assert [k] + [] == [k];
    }
    SumEqual(n, nested, (k: nat) => Term(x, a, b, index + [k]));
  }

  /** The axes of an equation written from three terms, and what it contracts to. */
  lemma Reads(dl: bool, l: string, dr: bool, r: string, d: bool, o: string, a: Tensor, b: Tensor) returns (dots: nat, x: Axes)
    requires Lower(l) && Lower(r) && Lower(o)
    ensures Spelled(x, dots, dl, l, dr, r, d, o)
    ensures Contract(Text(dl, l, dr, r, d, o), a, b) == if Fits(x, a, b) then Some(Summation(x, a, b)) else None
  {
    ParseEquation(dl, l, dr, r, d, o);
    var eq := Equation(TermOf(dl, l), TermOf(dr, r), TermOf(d, o));
    dots := EllipsisRank(eq, a, b);
    x := Spell(eq, dots);
    ExpandTerm(dl, l, dots);
    ExpandTerm(dr, r, dots);
    ExpandTerm(d, o, dots);
  }

  lemma Opened(dl: bool, l: string, dr: bool, r: string, d: bool, o: string,
               a: Tensor, b: Tensor, v: Tensor) returns (dots: nat, x: Axes)
    requires Lower(l) && Lower(r) && Lower(o)
    requires Contract(Text(dl, l, dr, r, d, o), a, b) == Some(v)
    ensures Spelled(x, dots, dl, l, dr, r, d, o)
    ensures Fits(x, a, b) && v == Summation(x, a, b)
  {
    dots, x := Reads(dl, l, dr, r, d, o, a, b);
  }

  // ----- '...,f->...f', '...d,hd->...hd' and 'i,j->ij': scaling by an operand with no ellipsis

  /**
   The left operand lacks exactly axis p of the result, and the right one is the result's tail.
   All three outer products have this form.
   */
  ghost predicate OuterForm(x: Axes, p: nat) {
    && x.summed == [] && p < |x.result|
    && x.left == x.result[..p] + x.result[p + 1..]
    && |x.right| <= |x.result| && x.right == x.result[|x.result| - |x.right|..]
    && |x.result| - |x.right| <= p
    && forall k :: 0 <= k < |x.right| ==> x.right[k].Named?
  }

  lemma OuterAgree(x: Axes, p: nat, a: Tensor, b: Tensor, k: nat)
    requires OuterForm(x, p) && Fits(x, a, b) && |x.result| - |x.right| <= k < |x.result| && k != p
    ensures b.shape[k - (|x.result| - |x.right|)] == a.shape[if k < p then k else k - 1]
  {
    var dims, extents := x.left + x.right, a.shape + b.shape;
    var l, r := if k < p then k else k - 1, |x.left| + (k - (|x.result| - |x.right|));
    assert dims[l] == x.result[k] == dims[r];
    assert extents[l] == a.shape[l] && extents[r] == b.shape[k - (|x.result| - |x.right|)];
  }

  /** An axis of the left operand, an ellipsis axis only if the right operand lacks it. */
  lemma LeftExtent(left: seq<Dim>, right: seq<Dim>, a: seq<nat>, b: seq<nat>, l: nat)
    requires |left| == |a| && |right| == |b| && l < |left| && Distinct(left)
    requires left[l].Dot? ==> left[l] !in right
    ensures Extent(left + right, a + b, left[l]) == a[l]
  {
    if left[l].Dot? && a[l] == 1 {
      ExtentOne(left + right, a + b, left[l]);
    } else {
      ExtentAt(left + right, a + b, left[l], l);
    }
  }

  /** A named axis that only the right operand has. */
  lemma RightExtent(left: seq<Dim>, right: seq<Dim>, a: seq<nat>, b: seq<nat>, r: nat)
    requires |left| == |a| && |right| == |b| && r < |right| && Distinct(right)
    requires right[r].Named? && right[r] !in left
    ensures Extent(left + right, a + b, right[r]) == b[r]
  {
    ExtentAt(left + right, a + b, right[r], |left| + r);
  }

  lemma OuterDims(x: Axes, p: nat)
    requires OuterForm(x, p) && Distinct(x.result)
    ensures Distinct(x.left) && Distinct(x.right) && x.result[p] !in x.left
  {
    forall i, j | 0 <= i < j < |x.left|
      ensures x.left[i] != x.left[j]
    {
      assert x.left[i] == x.result[if i < p then i else i + 1] && x.left[j] == x.result[if j < p then j else j + 1];
    }
    forall i | 0 <= i < |x.left|
      ensures x.left[i] != x.result[p]
    {
      assert x.left[i] == x.result[if i < p then i else i + 1];
    }
  }

  lemma OuterExtent(x: Axes, p: nat, a: Tensor, b: Tensor, k: nat)
    requires OuterForm(x, p) && Ranked(x, a, b) && Distinct(x.result) && k < |x.result|
    requires |x.result| - |x.right| <= k && k != p ==>
               b.shape[k - (|x.result| - |x.right|)] == a.shape[if k < p then k else k - 1]
    ensures var u := a.shape[..p] + [1] + a.shape[p..];
            Extent(x.left + x.right, a.shape + b.shape, x.result[k]) ==
            if k == p then b.shape[k - (|x.result| - |x.right|)] else u[k]
  {
    OuterDims(x, p);
    if k == p {
      RightExtent(x.left, x.right, a.shape, b.shape, k - (|x.result| - |x.right|));
    } else {
      LeftExtent(x.left, x.right, a.shape, b.shape, if k < p then k else k - 1);
    }
  }

  /** One axis of the result against the extents the broadcast pairs up. */
  lemma OuterEntry(x: Axes, p: nat, a: Tensor, b: Tensor, k: nat)
    requires OuterForm(x, p) && Fits(x, a, b) && k < |x.result|
    ensures var (u, y) := (a.shape[..p] + [1] + a.shape[p..], PaddedExtent(b.shape, |x.result|, k));
            (u[k] == y || u[k] == 1 || y == 1) &&
            Extent(x.left + x.right, a.shape + b.shape, x.result[k]) == (if u[k] == 1 then y else u[k])
  {
    if |x.result| - |x.right| <= k && k != p {
      OuterAgree(x, p, a, b, k);
    }
    OuterExtent(x, p, a, b, k);
  }

  lemma OuterShape(x: Axes, p: nat, a: Tensor, b: Tensor)
    requires OuterForm(x, p) && Fits(x, a, b)
    ensures Unsqueeze(a, p).Some? && Elementwise(Multiply, Unsqueeze(a, p).value, b).Some?
    ensures Elementwise(Multiply, Unsqueeze(a, p).value, b).value.shape == Summation(x, a, b).shape
  {
    var u := a.shape[..p] + [1] + a.shape[p..];
    assert Unsqueeze(a, p).Some? && Unsqueeze(a, p).value.shape == u && Unsqueeze(a, p).value.element == a.element;
    forall k | 0 <= k < |x.result|
      ensures var y := PaddedExtent(b.shape, |x.result|, k);
              (u[k] == y || u[k] == 1 || y == 1) &&
              Extent(x.left + x.right, a.shape + b.shape, x.result[k]) == (if u[k] == 1 then y else u[k])
    {
      OuterEntry(x, p, a, b, k);
    }
    Broadcasts(u, b.shape, Extents(x.left + x.right, a.shape + b.shape, x.result));
  }

  /** Broadcasting against a shape of no higher rank, entry by entry. */
  lemma Broadcasts(u: seq<nat>, v: seq<nat>, result: seq<nat>)
    requires |v| <= |u| == |result|
    requires forall k :: 0 <= k < |u| ==>
               var y := PaddedExtent(v, |u|, k);
               (u[k] == y || u[k] == 1 || y == 1) && result[k] == (if u[k] == 1 then y else u[k])
    ensures Compatible(u, v) && BroadcastShape(u, v) == result
  {
  }

  lemma PlacedRead(dims: seq<Dim>, all: seq<Dim>, shape: seq<nat>, padded: seq<nat>, index: seq<nat>, k: nat, r: nat)
    requires |dims| == |shape| && |all| == |index| == |padded| && k < |dims| && r < |all| && Distinct(all)
    requires dims[k] == all[r] && padded[r] == shape[k] && (dims[k].Named? ==> index[r] < shape[k])
    ensures OperandIndex(dims, shape, all, index)[k] == BroadcastIndex(padded, index)[r]
  {
    CoordinateAt(all, index, r);
  }

  lemma Skipped(o: seq<nat>, i: seq<nat>, p: nat)
    requires p < |i| == |o| + 1 && forall k :: 0 <= k < |o| ==> o[k] == i[if k < p then k else k + 1]
    ensures o == i[..p] + i[p + 1..]
  {
  }

  lemma OuterLeft(x: Axes, p: nat, shape: seq<nat>, index: seq<nat>)
    requires OuterForm(x, p) && Distinct(x.result) && |index| == |x.result| && |shape| == |x.left|
    requires forall k :: 0 <= k < |shape| && x.left[k].Named? ==> index[if k < p then k else k + 1] < shape[k]
    ensures var i := BroadcastIndex(shape[..p] + [1] + shape[p..], index);
            OperandIndex(x.left, shape, x.result, index) == i[..p] + i[p + 1..]
  {
    var i, o := BroadcastIndex(shape[..p] + [1] + shape[p..], index), OperandIndex(x.left, shape, x.result, index);
    forall k | 0 <= k < |o|
      ensures o[k] == i[if k < p then k else k + 1]
    {
      PlacedRead(x.left, x.result, shape, shape[..p] + [1] + shape[p..], index, k, if k < p then k else k + 1);
    }
    Skipped(o, i, p);
  }

  lemma TailRead(dims: seq<Dim>, all: seq<Dim>, shape: seq<nat>, index: seq<nat>, k: nat)
    requires |dims| == |shape| <= |all| == |index| && k < |dims| && Distinct(all)
    requires dims[k].Named? && dims[k] == all[|all| - |dims| + k] && index[|all| - |dims| + k] < shape[k]
    ensures OperandIndex(dims, shape, all, index)[k] == BroadcastIndex(shape, index)[k]
  {
    CoordinateAt(all, index, |all| - |dims| + k);
  }

  lemma TailsRead(dims: seq<Dim>, all: seq<Dim>, shape: seq<nat>, index: seq<nat>)
    requires |dims| == |shape| <= |all| == |index| && Distinct(all)
    requires forall k :: 0 <= k < |dims| ==>
               dims[k].Named? && dims[k] == all[|all| - |dims| + k] && index[|all| - |dims| + k] < shape[k]
    ensures OperandIndex(dims, shape, all, index) == BroadcastIndex(shape, index)
  {
    forall k | 0 <= k < |dims|
      ensures OperandIndex(dims, shape, all, index)[k] == BroadcastIndex(shape, index)[k]
    {
      TailRead(dims, all, shape, index, k);
    }
  }

  lemma OuterRight(x: Axes, p: nat, shape: seq<nat>, index: seq<nat>)
    requires OuterForm(x, p) && Distinct(x.result) && |index| == |x.result| && |shape| == |x.right|
    requires forall k :: 0 <= k < |shape| ==> index[|x.result| - |x.right| + k] < shape[k]
    ensures OperandIndex(x.right, shape, x.result, index) == BroadcastIndex(shape, index)
  {
    TailsRead(x.right, x.result, shape, index);
  }

  lemma OuterBound(x: Axes, p: nat, a: Tensor, b: Tensor, index: seq<nat>, k: nat)
    requires OuterForm(x, p) && Fits(x, a, b) && k < |x.result|
    requires InBounds(index, Extents(x.left + x.right, a.shape + b.shape, x.result))
    ensures var u := a.shape[..p] + [1] + a.shape[p..];
            var tail := |x.result| - |x.right|;
            (k == p ==> index[k] < b.shape[k - tail]) && (k != p ==> index[k] < u[k]) &&
            (tail <= k && k != p ==> b.shape[k - tail] == u[k])
  {
    if |x.result| - |x.right| <= k && k != p {
      OuterAgree(x, p, a, b, k);
    }
    OuterExtent(x, p, a, b, k);
  }

  /** What an index of the result says about the operands' extents. */
  lemma OuterBounds(x: Axes, p: nat, a: Tensor, b: Tensor, index: seq<nat>)
    requires OuterForm(x, p) && Fits(x, a, b)
    requires InBounds(index, Extents(x.left + x.right, a.shape + b.shape, x.result))
    ensures forall k :: 0 <= k < |a.shape| && x.left[k].Named? ==> index[if k < p then k else k + 1] < a.shape[k]
    ensures forall k :: 0 <= k < |b.shape| ==> index[|x.result| - |x.right| + k] < b.shape[k]
    ensures var u := a.shape[..p] + [1] + a.shape[p..]; InBounds(BroadcastIndex(u, index), u)
  {
    forall k | 0 <= k < |x.result|
      ensures var u := a.shape[..p] + [1] + a.shape[p..];
              var tail := |x.result| - |x.right|;
              (k == p ==> index[k] < b.shape[k - tail]) &&
              (k != p ==> index[k] < u[k]) &&
              (tail <= k && k != p ==> b.shape[k - tail] == u[k])
    {
      OuterBound(x, p, a, b, index, k);
    }
  }

  lemma OuterLowered(a: Tensor, p: nat, b: Tensor, index: seq<nat>, ia: seq<nat>, ib: seq<nat>)
    requires p <= |a.shape| && Elementwise(Multiply, Unsqueeze(a, p).value, b).Some?
    requires var u := a.shape[..p] + [1] + a.shape[p..];
             var i := BroadcastIndex(u, index);
             InBounds(i, u) && ia == i[..p] + i[p + 1..]
    requires ib == BroadcastIndex(b.shape, index)
    requires InBounds(index, Elementwise(Multiply, Unsqueeze(a, p).value, b).value.shape)
    ensures At(Elementwise(Multiply, Unsqueeze(a, p).value, b).value, index) == Times(At(a, ia), At(b, ib))
  {
    var u := Unsqueeze(a, p).value;
    var i := BroadcastIndex(u.shape, index);
    assert At(u, i) == UnsqueezeAt(a, p, i) == At(a, ia);
    assert ElementwiseAt(Multiply, u, b, index) == Times(At(u, i), At(b, ib));
    assert At(Elementwise(Multiply, u, b).value, index) == ElementwiseAt(Multiply, u, b, index);
  }

  lemma OuterAt(x: Axes, p: nat, a: Tensor, b: Tensor, w: Tensor, index: seq<nat>)
    requires OuterForm(x, p) && Fits(x, a, b) && Unsqueeze(a, p).Some? && Elementwise(Multiply, Unsqueeze(a, p).value, b) == Some(w)
    requires InBounds(index, w.shape) && InBounds(index, Extents(x.left + x.right, a.shape + b.shape, x.result))
    ensures At(w, index) == Value(x, a, b, index)
  {
    var i := BroadcastIndex(a.shape[..p] + [1] + a.shape[p..], index);
    OuterReads(x, p, a, b, index, i);
    OuterMeets(x, p, a, b, w, index, i);
  }

  lemma OuterMeets(x: Axes, p: nat, a: Tensor, b: Tensor, w: Tensor, index: seq<nat>, i: seq<nat>)
    requires x.summed == [] && Ranked(x, a, b) && |index| == |x.result| && p <= |a.shape|
    requires Elementwise(Multiply, Unsqueeze(a, p).value, b) == Some(w) && InBounds(index, w.shape)
    requires i == BroadcastIndex(a.shape[..p] + [1] + a.shape[p..], index) && InBounds(i, a.shape[..p] + [1] + a.shape[p..])
    requires OperandIndex(x.left, a.shape, x.result, index) == i[..p] + i[p + 1..]
    requires OperandIndex(x.right, b.shape, x.result, index) == BroadcastIndex(b.shape, index)
    ensures At(w, index) == Value(x, a, b, index)
  {
    ElementUnsummed(x, a, b, index, i[..p] + i[p + 1..], BroadcastIndex(b.shape, index));
    OuterLowered(a, p, b, index, i[..p] + i[p + 1..], BroadcastIndex(b.shape, index));
  }

  /** What the equation reads from both operands. */
  lemma OuterReads(x: Axes, p: nat, a: Tensor, b: Tensor, index: seq<nat>, i: seq<nat>)
    requires OuterForm(x, p) && Fits(x, a, b)
    requires InBounds(index, Extents(x.left + x.right, a.shape + b.shape, x.result))
    requires i == BroadcastIndex(a.shape[..p] + [1] + a.shape[p..], index)
    ensures InBounds(i, a.shape[..p] + [1] + a.shape[p..])
    ensures OperandIndex(x.left, a.shape, x.result, index) == i[..p] + i[p + 1..]
    ensures OperandIndex(x.right, b.shape, x.result, index) == BroadcastIndex(b.shape, index)
  {
    OuterBounds(x, p, a, b, index);
    OuterLeft(x, p, a.shape, index);
    OuterRight(x, p, b.shape, index);
  }

  lemma OuterProduct(x: Axes, p: nat, a: Tensor, b: Tensor)
    requires OuterForm(x, p) && Fits(x, a, b)
    ensures Unsqueeze(a, p).Some? && Elementwise(Multiply, Unsqueeze(a, p).value, b) == Some(Summation(x, a, b))
  {
    OuterShape(x, p, a, b);
    var w, v := Elementwise(Multiply, Unsqueeze(a, p).value, b).value, Summation(x, a, b);
    forall index | InBounds(index, v.shape)
      ensures At(w, index) == At(v, index)
    {
      OuterAt(x, p, a, b, w, index);
    }
    SameTensor(w, v);
  }

  // ----- Equations that contract one axis into a matrix product

  /** The result is the left operand with its last axis exchanged for one of the right operand. */
  ghost predicate MatrixForm(x: Axes, lead: seq<Dim>, i: Dim, j: Dim, k: Dim) {
    && x.left == lead + [i, k] && x.result == lead + [i, j] && x.summed == [k]
    && i.Named? && j.Named? && k.Named?
    && Distinct(lead + [i, j] + [k])
  }

  /**
   A matrix stack m stands for the right operand: it contributes the extents the equation
   expects and holds the element that the equation reads, at every index and summed position.
   */
  ghost predicate StandsFor(x: Axes, lead: seq<Dim>, a: Tensor, b: Tensor, m: Tensor)
    requires Ranked(x, a, b) && |x.result| == |lead| + 2 && |x.left| == |lead| + 2 && |x.summed| == 1
  {
    var (n, dims, extents) := (|lead|, x.left + x.right, a.shape + b.shape);
    && 2 <= |m.shape| && m.element == b.element
    && Compatible(Batch(a.shape), Batch(m.shape))
    && BroadcastShape(Batch(a.shape), Batch(m.shape)) == Extents(dims, extents, lead)
    && m.shape[|m.shape| - 2] == a.shape[n + 1]
    && m.shape[|m.shape| - 1] == Extent(dims, extents, x.result[n + 1])
    && forall index: seq<nat>, k: nat ::
         InBounds(index, Extents(dims, extents, x.result)) && k < a.shape[n + 1] ==>
         At(m, BroadcastIndex(Batch(m.shape), index[..n]) + [k, index[n + 1]]) ==
         At(b, OperandIndex(x.right, b.shape, x.result + x.summed, index + [k]))
  }

  lemma MatrixExtents(x: Axes, lead: seq<Dim>, i: Dim, j: Dim, k: Dim, a: Tensor, b: Tensor)
    requires MatrixForm(x, lead, i, j, k) && Ranked(x, a, b)
    ensures Extent(x.left + x.right, a.shape + b.shape, i) == a.shape[|lead|]
    ensures Extent(x.left + x.right, a.shape + b.shape, k) == a.shape[|lead| + 1]
  {
    assert (lead + [i, j] + [k])[|lead|] == i && (lead + [i, j] + [k])[|lead| + 2] == k;
    forall t | 0 <= t < |lead|
      ensures (x.left + x.right)[t] != i && (x.left + x.right)[t] != k
    {
      assert (lead + [i, j] + [k])[t] == lead[t];
    }
    ExtentAt(x.left + x.right, a.shape + b.shape, i, |lead|);
    ExtentAt(x.left + x.right, a.shape + b.shape, k, |lead| + 1);
  }

  lemma MatrixLeft(x: Axes, lead: seq<Dim>, i: Dim, j: Dim, k: Dim, shape: seq<nat>, index: seq<nat>, at: nat)
    requires MatrixForm(x, lead, i, j, k) && |shape| == |x.left| && |index| == |x.result|
    requires forall t :: 0 <= t < |lead| && lead[t].Named? ==> index[t] < shape[t]
    ensures OperandIndex(x.left, shape, x.result + x.summed, index + [at]) ==
            BroadcastIndex(Batch(shape), index[..|lead|]) + [index[|lead|], at]
  {
    var all, n := x.result + x.summed, |lead|;
    assert all == lead + [i, j] + [k];
    Coordinates(all, index + [at]);
    assert all[n] == i && all[n + 2] == k;
    forall t | 0 <= t < n
      ensures OperandIndex(x.left, shape, all, index + [at])[t] == BroadcastIndex(Batch(shape), index[..n])[t]
    {
      assert all[t] == lead[t] == x.left[t];
      assert Coordinate(all, index + [at], all[t]) == index[t];
    }
  }

  lemma MatrixTerm(x: Axes, a: Tensor, b: Tensor, index: seq<nat>, ia: seq<nat>, ib: seq<nat>)
    requires Ranked(x, a, b) && |index| == |x.result + x.summed|
    requires ia == OperandIndex(x.left, a.shape, x.result + x.summed, index)
    requires ib == OperandIndex(x.right, b.shape, x.result + x.summed, index)
    ensures Term(x, a, b, index) == Times(At(a, ia), At(b, ib))
  {
  }

  lemma MatrixPoint(x: Axes, a: Tensor, b: Tensor, m: Tensor, index: seq<nat>, at: nat, ia: seq<nat>, im: seq<nat>, ib: seq<nat>)
    requires Ranked(x, a, b) && 2 <= |a.shape| && 2 <= |m.shape| && 2 <= |index|
    requires |index| + 1 == |x.result + x.summed|
    requires ia == BroadcastIndex(Batch(a.shape), index[..|index| - 2]) + [index[|index| - 2], at]
    requires ia == OperandIndex(x.left, a.shape, x.result + x.summed, index + [at])
    requires im == BroadcastIndex(Batch(m.shape), index[..|index| - 2]) + [at, index[|index| - 1]]
    requires ib == OperandIndex(x.right, b.shape, x.result + x.summed, index + [at])
    requires At(m, im) == At(b, ib)
    ensures MatMulTerm(a, m, index, at) == Term(x, a, b, index + [at])
  {
    MatrixTerm(x, a, b, index + [at], ia, ib);
    assert MatMulTerm(a, m, index, at) == Times(At(a, ia), At(m, im));
  }

  lemma MatrixAt(x: Axes, lead: seq<Dim>, i: Dim, j: Dim, k: Dim, a: Tensor, b: Tensor, m: Tensor, index: seq<nat>)
    requires MatrixForm(x, lead, i, j, k) && Ranked(x, a, b) && StandsFor(x, lead, a, b, m)
    requires InBounds(index, Extents(x.left + x.right, a.shape + b.shape, x.result))
    requires forall t :: 0 <= t < |lead| && lead[t].Named? ==> index[t] < a.shape[t]
    ensures MatMulAt(a, m, index) == Value(x, a, b, index)
  {
    var n := a.shape[|lead| + 1];
    ElementSummed(x, a, b, index, k);
    MatrixExtents(x, lead, i, j, k, a, b);
    forall at: nat | at < n
      ensures MatMulTerm(a, m, index, at) == Term(x, a, b, index + [at])
    {
      MatrixLeft(x, lead, i, j, k, a.shape, index, at);
      MatrixPoint(x, a, b, m, index, at, BroadcastIndex(Batch(a.shape), index[..|lead|]) + [index[|lead|], at],
                  BroadcastIndex(Batch(m.shape), index[..|lead|]) + [at, index[|lead| + 1]],
                  OperandIndex(x.right, b.shape, x.result + x.summed, index + [at]));
    }
    SumEqual(n, (at: nat) => MatMulTerm(a, m, index, at), (at: nat) => Term(x, a, b, index + [at]));
  }

  /** The matrix product with the stand-in is the contraction. */
  lemma MatrixContraction(x: Axes, lead: seq<Dim>, i: Dim, j: Dim, k: Dim, a: Tensor, b: Tensor, m: Tensor)
    requires MatrixForm(x, lead, i, j, k) && Fits(x, a, b) && StandsFor(x, lead, a, b, m)
    requires forall t :: 0 <= t < |lead| && lead[t].Named? ==>
               Extent(x.left + x.right, a.shape + b.shape, lead[t]) == a.shape[t]
    ensures MatMul(a, m) == Some(Summation(x, a, b))
  {
    MatrixExtents(x, lead, i, j, k, a, b);
    var w, v := MatrixProduct(a, m).value, Summation(x, a, b);
    assert x.result == lead + [i] + [j];
    assert w.shape == v.shape;
    forall index | InBounds(index, v.shape)
      ensures At(w, index) == At(v, index)
    {
      MatrixAt(x, lead, i, j, k, a, b, m, index);
    }
    SameTensor(w, v);
  }

  // ----- The seven equations, up to the choice of letters

  predicate Letter(c: char) {
    'a' <= c <= 'z'
  }

  /** The axes of an equation written from three terms. */
  ghost predicate Spelled(x: Axes, dots: nat, dl: bool, l: string, dr: bool, r: string, d: bool, o: string) {
    && x.left == Lead(dl, dots) + Names(l) && x.right == Lead(dr, dots) + Names(r)
    && x.result == Lead(d, dots) + Names(o) && x.summed == Contracted(x.left + x.right, x.result)
  }

  lemma FeaturesForm(x: Axes, e: nat, f: char)
    requires Spelled(x, e, true, [], false, [f], true, [f])
    ensures OuterForm(x, e) && |x.left| == e
  {
    assert x.left == Dots(e) && x.right == [Named(f)] && x.result == Dots(e) + [Named(f)];
    ContractedNone(x.left + x.right, x.result);
  }

  lemma CountedFromEnd(t: Tensor, axis: int)
    requires -|t.shape| - 1 <= axis < 0
    ensures Unsqueeze(t, axis) == Unsqueeze(t, axis + |t.shape| + 1)
  {
  }

  /** '...,f->...f': the rotary outer product. */
  lemma ScaleFeatures(f: char, a: Tensor, b: Tensor, v: Tensor)
    requires Letter(f) && Contract(Text(true, [], false, [f], true, [f]), a, b) == Some(v)
    ensures Unsqueeze(a, -1).Some? && Elementwise(Multiply, Unsqueeze(a, -1).value, b) == Some(v)
  {
    var e, x := Opened(true, [], false, [f], true, [f], a, b, v);
    FeaturesForm(x, e, f);
    OuterProduct(x, e, a, b);
    assert |a.shape| == e;
    CountedFromEnd(a, -1);
  }

  lemma HeadsForm(x: Axes, e: nat, d: char, h: char)
    requires Spelled(x, e, true, [d], false, [h, d], true, [h, d])
    ensures OuterForm(x, e) && |x.left| == e + 1
  {
    assert x.left == Dots(e) + [Named(d)] && x.right == [Named(h), Named(d)];
    assert x.result == Dots(e) + [Named(h), Named(d)];
    assert x.result[..e] == Dots(e) && x.result[e + 1..] == [Named(d)] && x.result[e..] == x.right;
    ContractedNone(x.left + x.right, x.result);
  }

  /** '...d,hd->...hd': one vector scaled by every head. */
  lemma ScaleHeads(d: char, h: char, a: Tensor, b: Tensor, v: Tensor)
    requires Letter(d) && Letter(h)
    requires Contract(Text(true, [d], false, [h, d], true, [h, d]), a, b) == Some(v)
    ensures Unsqueeze(a, -2).Some? && Elementwise(Multiply, Unsqueeze(a, -2).value, b) == Some(v)
  {
    var e, x := Opened(true, [d], false, [h, d], true, [h, d], a, b, v);
    HeadsForm(x, e, d, h);
    OuterProduct(x, e, a, b);
    assert |a.shape| == e + 1;
    CountedFromEnd(a, -2);
  }

  lemma PositionsForm(x: Axes, e: nat, i: char, j: char)
    requires Spelled(x, e, false, [i], false, [j], false, [i, j])
    ensures OuterForm(x, 1)
  {
    assert x.left == [Named(i)] && x.right == [Named(j)] && x.result == [Named(i), Named(j)];
    ContractedNone(x.left + x.right, x.result);
  }

  /** 'i,j->ij': the position table. */
  lemma ScalePositions(i: char, j: char, a: Tensor, b: Tensor, v: Tensor)
    requires Letter(i) && Letter(j)
    requires Contract(Text(false, [i], false, [j], false, [i, j]), a, b) == Some(v)
    ensures Unsqueeze(a, 1).Some? && Elementwise(Multiply, Unsqueeze(a, 1).value, b) == Some(v)
  {
    var e, x := Opened(false, [i], false, [j], false, [i, j], a, b, v);
    PositionsForm(x, e, i, j);
    OuterProduct(x, 1, a, b);
  }

  /** Where two stacks over the same ellipsis broadcast, the contraction and the operators agree on extents. */
  lemma EllipsisExtents(x: Axes, e: nat, i: Dim, k: Dim, y: Dim, z: Dim, a: Tensor, b: Tensor)
    requires x.left == Dots(e) + [i, k] && x.right == Dots(e) + [y, z]
    requires i.Named? && k.Named? && y.Named? && z.Named? && Fits(x, a, b)
    ensures Compatible(Batch(a.shape), Batch(b.shape))
    ensures BroadcastShape(Batch(a.shape), Batch(b.shape)) == Extents(x.left + x.right, a.shape + b.shape, Dots(e))
  {
    var dims, extents := x.left + x.right, a.shape + b.shape;
    forall t | 0 <= t < e
      ensures a.shape[t] == b.shape[t] || a.shape[t] == 1 || b.shape[t] == 1
      ensures Extent(dims, extents, Dot(t)) == if a.shape[t] == 1 then b.shape[t] else a.shape[t]
    {
      assert dims[t] == Dot(t) && dims[e + 2 + t] == Dot(t);
      assert extents[t] == a.shape[t] && extents[e + 2 + t] == b.shape[t];
      if a.shape[t] != 1 {
        ExtentAt(dims, extents, Dot(t), t);
      } else if b.shape[t] != 1 {
        ExtentAt(dims, extents, Dot(t), e + 2 + t);
      } else {
        ExtentOne(dims, extents, Dot(t));
      }
    }
  }

  /** '...ij,...jd->...id': weights times values. */
  lemma WeightedValues(i: char, j: char, d: char, a: Tensor, b: Tensor, v: Tensor)
    requires Letter(i) && Letter(j) && Letter(d) && i != j && j != d && i != d
    requires Contract(Text(true, [i, j], true, [j, d], true, [i, d]), a, b) == Some(v)
    ensures MatMul(a, b) == Some(v)
  {
    var e, x := Opened(true, [i, j], true, [j, d], true, [i, d], a, b, v);
    ValuesForm(x, e, i, j, d);
    ValuesStand(x, e, Named(i), Named(j), Named(d), a, b);
    MatrixContraction(x, Dots(e), Named(i), Named(d), Named(j), a, b, b);
  }

  lemma ValuesForm(x: Axes, e: nat, i: char, j: char, d: char)
    requires Spelled(x, e, true, [i, j], true, [j, d], true, [i, d]) && i != j && j != d && i != d
    ensures x.left == Dots(e) + [Named(i), Named(j)] && x.right == Dots(e) + [Named(j), Named(d)]
    ensures MatrixForm(x, Dots(e), Named(i), Named(d), Named(j))
  {
    assert x.left == Dots(e) + [Named(i), Named(j)] && x.right == Dots(e) + [Named(j), Named(d)];
    assert x.result == Dots(e) + [Named(i), Named(d)];
    assert x.left + x.right == (Dots(e) + [Named(i)]) + [Named(j)] + (Dots(e) + [Named(j), Named(d)]);
    ContractedOne(Dots(e) + [Named(i)], Named(j), Dots(e) + [Named(j), Named(d)], x.result);
  }

  lemma ValuesStand(x: Axes, e: nat, i: Dim, j: Dim, d: Dim, a: Tensor, b: Tensor)
    requires x.left == Dots(e) + [i, j] && x.right == Dots(e) + [j, d]
    requires MatrixForm(x, Dots(e), i, d, j) && Fits(x, a, b)
    ensures StandsFor(x, Dots(e), a, b, b)
  {
    var dims, extents := x.left + x.right, a.shape + b.shape;
    EllipsisExtents(x, e, i, j, j, d, a, b);
    assert dims[e + 1] == j && dims[e + 2 + e] == j && extents[e + 2 + e] == b.shape[e];
    var named := Dots(e) + [i, d] + [j];
    assert named[e] == i && named[e + 1] == d && named[e + 2] == j;
    assert x.result[e + 1] == d && dims[e + 2 + e + 1] == d;
    ExtentAt(dims, extents, d, e + 2 + e + 1);
    var all := x.result + x.summed;
    assert all == Dots(e) + [i, d] + [j];
    forall index: seq<nat>, k: nat | InBounds(index, Extents(dims, extents, x.result)) && k < a.shape[e + 1]
      ensures BroadcastIndex(Batch(b.shape), index[..e]) + [k, index[e + 1]] ==
              OperandIndex(x.right, b.shape, all, index + [k])
    {
      ValuesRead(x, e, i, j, d, b.shape, index, k);
    }
  }

  /** What the equation reads from the right operand. */
  lemma ValuesRead(x: Axes, e: nat, i: Dim, j: Dim, d: Dim, shape: seq<nat>, index: seq<nat>, k: nat)
    requires x.right == Dots(e) + [j, d] && MatrixForm(x, Dots(e), i, d, j)
    requires |shape| == e + 2 && |index| == e + 2
    ensures OperandIndex(x.right, shape, x.result + x.summed, index + [k]) ==
            BroadcastIndex(Batch(shape), index[..e]) + [k, index[e + 1]]
  {
    var all := x.result + x.summed;
    assert all == Dots(e) + [i, d] + [j];
    Coordinates(all, index + [k]);
    assert all[e + 1] == d && all[e + 2] == j;
    forall t | 0 <= t < e
      ensures Coordinate(all, index + [k], Dot(t)) == index[t]
    {
      assert all[t] == Dot(t);
    }
  }
}
