/**
 The tensor operators that the lowered graphs are made of, with the meaning that ONNX operator
 set 17 gives them (entries Add, Concat, Gather, MatMul, Mul, Reshape, Shape, Transpose and
 Unsqueeze). An operator that the standard lets fail yields None.
 */
module Operators {
  import opened Sums
  import opened Tensors
  import opened Wrappers

  function Max(a: nat, b: nat): nat { if a < b then b else a }

  // ----- Multidirectional broadcasting

  /** The extent of axis k of a shape padded with ones on the left to a given rank. */
  function PaddedExtent(shape: seq<nat>, rank: nat, k: nat): nat
    requires |shape| <= rank && k < rank
  {
    if k < rank - |shape| then 1 else shape[k - (rank - |shape|)]
  }

  predicate Compatible(a: seq<nat>, b: seq<nat>) {
    var rank := Max(|a|, |b|);
    forall k :: 0 <= k < rank ==>
                  var (x, y) := (PaddedExtent(a, rank, k), PaddedExtent(b, rank, k));
                  x == y || x == 1 || y == 1
  }

  function BroadcastShape(a: seq<nat>, b: seq<nat>): seq<nat> {
    var rank := Max(|a|, |b|);
    seq(rank, k requires 0 <= k < rank =>
      if PaddedExtent(a, rank, k) == 1 then PaddedExtent(b, rank, k) else PaddedExtent(a, rank, k))
  }

  /** Where an operand is read for an index of the broadcast result. */
  function BroadcastIndex(shape: seq<nat>, index: seq<nat>): seq<nat> {
    if |shape| <= |index| then
      seq(|shape|, k requires 0 <= k < |shape| => if shape[k] == 1 then 0 else index[|index| - |shape| + k])
    else []
  }

  datatype Arithmetic = Multiply | Plus

  function Apply(op: Arithmetic, x: real, y: real): real {
    match op
    case Multiply => Times(x, y)
    case Plus => x + y
  }

  function ElementwiseAt(op: Arithmetic, a: Tensor, b: Tensor, index: seq<nat>): real {
    Apply(op, At(a, BroadcastIndex(a.shape, index)), At(b, BroadcastIndex(b.shape, index)))
  }

  function Elementwise(op: Arithmetic, a: Tensor, b: Tensor): Option<Tensor> {
    if a.element == b.element && Compatible(a.shape, b.shape) then
      Some(Build(a.element, BroadcastShape(a.shape, b.shape), index => ElementwiseAt(op, a, b, index)))
    else None
  }

  // ----- Matrix product over the two last axes

  function Batch(shape: seq<nat>): seq<nat>
    requires 2 <= |shape|
  {
    shape[..|shape| - 2]
  }

  function MatMulTerm(a: Tensor, b: Tensor, index: seq<nat>, k: nat): real
    requires 2 <= |a.shape| && 2 <= |b.shape| && 2 <= |index|
  {
    var batch, i, j := index[..|index| - 2], index[|index| - 2], index[|index| - 1];
    Times(At(a, BroadcastIndex(Batch(a.shape), batch) + [i, k]), At(b, BroadcastIndex(Batch(b.shape), batch) + [k, j]))
  }

  function MatMulAt(a: Tensor, b: Tensor, index: seq<nat>): real
    requires 2 <= |a.shape| && 2 <= |b.shape|
  {
    if 2 <= |index| then Sum(a.shape[|a.shape| - 1], (k: nat) => MatMulTerm(a, b, index, k)) else 0.0
  }

  function MatrixProduct(a: Tensor, b: Tensor): Option<Tensor>
    requires 2 <= |a.shape| && 2 <= |b.shape|
  {
    var (m, k) := (a.shape[|a.shape| - 2], a.shape[|a.shape| - 1]);
    var (l, n) := (b.shape[|b.shape| - 2], b.shape[|b.shape| - 1]);
    if a.element == b.element && k == l && Compatible(Batch(a.shape), Batch(b.shape)) then
      Some(Build(a.element, BroadcastShape(Batch(a.shape), Batch(b.shape)) + [m, n], index => MatMulAt(a, b, index)))
    else None
  }

  function Min(a: nat, b: nat): nat { if a < b then a else b }

  function AsRow(t: Tensor): Tensor {
    Build(t.element, [1] + t.shape, index => At(t, index[|index| - Min(|t.shape|, |index|)..]))
  }

  function AsColumn(t: Tensor): Tensor {
    Build(t.element, t.shape + [1], index => At(t, index[..Min(|t.shape|, |index|)]))
  }

  /** Removes the axis of extent one that AsRow or AsColumn added. */
  function DropAxis(t: Tensor, axis: nat): Tensor
    requires axis < |t.shape|
  {
    Build(t.element, t.shape[..axis] + t.shape[axis + 1..], index =>
      if axis <= |index| then At(t, index[..axis] + [0] + index[axis..]) else 0.0)
  }

  /** An operand of rank one is a row on the left and a column on the right; its axis is dropped again. */
  function MatMul(a: Tensor, b: Tensor): Option<Tensor> {
    if |a.shape| == 0 || |b.shape| == 0 then None
    else
      var left := if |a.shape| == 1 then AsRow(a) else a;
      var right := if |b.shape| == 1 then AsColumn(b) else b;
      var product :- MatrixProduct(left, right);
      var kept := if |b.shape| == 1 then DropAxis(product, |product.shape| - 1) else product;
      Some(if |a.shape| == 1 then DropAxis(kept, |product.shape| - 2) else kept)
  }

  // ----- Operators that only move elements

  function UnsqueezeAxis(t: Tensor, axis: int): int {
    if axis < 0 then axis + |t.shape| + 1 else axis
  }

  function UnsqueezeAt(t: Tensor, at: nat, index: seq<nat>): real {
    if at < |index| then At(t, index[..at] + index[at + 1..]) else 0.0
  }

  /** Inserts an axis of extent one; a negative axis counts from the end of the result. */
  function Unsqueeze(t: Tensor, axis: int): Option<Tensor> {
    var at := UnsqueezeAxis(t, axis);
    if 0 <= at <= |t.shape| then
      Some(Build(t.element, t.shape[..at] + [1] + t.shape[at..], index => UnsqueezeAt(t, at, index)))
    else None
  }

  predicate Permutation(perm: seq<nat>) {
    && (forall k :: 0 <= k < |perm| ==> perm[k] < |perm|)
    && (forall i, j :: 0 <= i < j < |perm| ==> perm[i] != perm[j])
  }

  function Find(s: seq<nat>, x: nat): nat {
    if s == [] then 0 else if s[0] == x then 0 else 1 + Find(s[1..], x)
  }

  function TransposeIndex(perm: seq<nat>, index: seq<nat>): seq<nat> {
    seq(|perm|, k requires 0 <= k < |perm| => if Find(perm, k) < |index| then index[Find(perm, k)] else 0)
  }

  /** Axis k of the result is axis perm[k] of the operand. */
  function Transpose(t: Tensor, perm: seq<nat>): Option<Tensor> {
    if |perm| == |t.shape| && Permutation(perm) then
      Some(Build(t.element, seq(|perm|, k requires 0 <= k < |perm| => t.shape[perm[k]]),
                 index => At(t, TransposeIndex(perm, index))))
    else None
  }

  function ShapeOf(t: Tensor): Tensor {
    Vector(t.shape)
  }

  function GatherAxis(t: Tensor, axis: int): int {
    if axis < 0 then axis + |t.shape| else axis
  }

  predicate PositionsInRange(indices: Tensor, extent: nat) {
    forall k :: 0 <= k < |indices.data| ==> -(extent as int) <= indices.data[k].Floor < extent
  }

  function GatherAt(t: Tensor, indices: Tensor, at: nat, index: seq<nat>): real
    requires at < |t.shape|
  {
    var inner := |indices.shape|;
    if at + inner <= |index| then
      var chosen := At(indices, index[at..at + inner]).Floor;
      var position := if chosen < 0 then chosen + t.shape[at] else chosen;
      if 0 <= position then At(t, index[..at] + [position] + index[at + inner..]) else 0.0
    else 0.0
  }

  /** Elements along one axis chosen by an integer tensor; a negative position counts from the end. */
  function Gather(t: Tensor, indices: Tensor, axis: int): Option<Tensor> {
    var at := GatherAxis(t, axis);
    if 0 <= at < |t.shape| && indices.element.Int64? && PositionsInRange(indices, t.shape[at]) then
      Some(Build(t.element, t.shape[..at] + indices.shape + t.shape[at + 1..],
                 index => GatherAt(t, indices, at, index)))
    else None
  }

  function Integers(t: Tensor): (values: seq<int>)
    ensures |values| == |t.data|
  {
    seq(|t.data|, k requires 0 <= k < |t.data| => t.data[k].Floor)
  }

  lemma IntegersOfVector(values: seq<int>)
    ensures Integers(Vector(values)) == values
  {
  }

  /** Joins integer vectors; other concatenations are not needed by the passes. */
  function ConcatVectors(ts: seq<Tensor>): Option<Tensor> {
    if ts == [] then Some(Vector([]))
    else if ts[0].element.Int64? && |ts[0].shape| == 1 then
      var rest :- ConcatVectors(ts[1..]);
      Some(Vector(Integers(ts[0]) + Integers(rest)))
    else None
  }

  /** A reshape target after its zeros have copied the operand's extents. */
  function Copied(target: seq<int>, shape: seq<nat>): (copied: seq<int>)
    requires |target| <= |shape| || forall k :: |shape| <= k < |target| ==> target[k] != 0
    ensures |copied| == |target|
  {
    seq(|target|, k requires 0 <= k < |target| => if target[k] == 0 then shape[k] else target[k])
  }

  function Fill(target: seq<int>, free: nat): (shape: seq<nat>)
    ensures |shape| == |target|
  {
    seq(|target|, k requires 0 <= k < |target| => if target[k] < 0 then free else target[k])
  }

  predicate ReshapeTarget(target: seq<int>, rank: nat) {
    && (forall k :: 0 <= k < |target| ==> -1 <= target[k])
    && (forall k :: rank <= k < |target| ==> target[k] != 0)
    && (forall i, j :: 0 <= i < j < |target| ==> !(target[i] == -1 && target[j] == -1))
  }

  /**
   The same elements in the same order under a new shape: 0 copies the operand's extent, and one
   -1 takes whatever extent is left, which exists only if the other extents divide the count.
   */
  function Reshape(t: Tensor, shape: Tensor): Option<Tensor> {
    if !shape.element.Int64? || |shape.shape| != 1 || !ReshapeTarget(Integers(shape), |t.shape|) then None
    else
      var copied := Copied(Integers(shape), t.shape);
      var known := Product(Fill(copied, 1));
      if -1 in copied && known == 0 then None
      else
        var free := if -1 in copied then Product(t.shape) / known else 1;
        if Product(Fill(copied, free)) == Product(t.shape) then
          Some(Tensor(t.element, Fill(copied, free), t.data))
        else None
  }
}
