/**
 Dense tensors in row-major order, and the two facts every operator is reasoned with: an
 element of a built tensor is the builder's value at its index, and two tensors of the same
 shape with the same element at every index are the same tensor.

 Elements are exact numbers: an int64 tensor is one whose elements happen to be integers, so
 the operators that only move elements are stated once for both element types.
 */
module Tensors {

  datatype Element = Float | Int64

  datatype RawTensor = Tensor(element: Element, shape: seq<nat>, data: seq<real>)

  type Tensor = t: RawTensor | |t.data| == Product(t.shape) witness Tensor(Float, [0], [])

  /** The number of elements of a shape; a scalar has one. */
  function Product(shape: seq<nat>): nat {
    if shape == [] then 1 else shape[0] * Product(shape[1..])
  }

  predicate InBounds(index: seq<nat>, shape: seq<nat>) {
    |index| == |shape| && forall k :: 0 <= k < |index| ==> index[k] < shape[k]
  }

  /** Row-major position of an index. */
  function Offset(shape: seq<nat>, index: seq<nat>): (k: nat)
    requires InBounds(index, shape)
    ensures k < Product(shape)
  {
    if shape == [] then 0
    else
      assert InBounds(index[1..], shape[1..]);
      var rest := Offset(shape[1..], index[1..]);
      HornerBound(index[0], shape[0], rest, Product(shape[1..]));
      index[0] * Product(shape[1..]) + rest
  }

  lemma HornerBound(hi: nat, rows: nat, lo: nat, width: nat)
    requires hi < rows && lo < width
    ensures hi * width + lo < rows * width
  {
    assert (hi + 1) * width <= rows * width;
  }

  /** The index at a row-major position. */
  function Unravel(shape: seq<nat>, k: nat): (index: seq<nat>)
    requires k < Product(shape)
    ensures InBounds(index, shape)
  {
    if shape == [] then []
    else
      var width := Product(shape[1..]);
      QuotientBound(k, shape[0], width);
      [k / width] + Unravel(shape[1..], k % width)
  }

  lemma QuotientBound(k: nat, rows: nat, width: nat)
    requires k < rows * width
    ensures 0 < width && k / width < rows
  {
    assert width != 0;
    assert k == k / width * width + k % width;
  }

  lemma DivideSplit(hi: nat, lo: nat, width: nat)
    requires lo < width
    ensures (hi * width + lo) / width == hi && (hi * width + lo) % width == lo
  {
    var k := hi * width + lo;
    assert k == k / width * width + k % width;
    var gap := k / width - hi;
    assert gap * width == lo - k % width;
    assert -1 < gap < 1;
  }

  lemma {:induction false} UnravelOffset(shape: seq<nat>, index: seq<nat>)
    requires InBounds(index, shape)
    ensures Unravel(shape, Offset(shape, index)) == index
  {
    if shape != [] {
      assert InBounds(index[1..], shape[1..]);
      UnravelOffset(shape[1..], index[1..]);
      DivideSplit(index[0], Offset(shape[1..], index[1..]), Product(shape[1..]));
    }
  }

  lemma {:induction false} OffsetUnravel(shape: seq<nat>, k: nat)
    requires k < Product(shape)
    ensures Offset(shape, Unravel(shape, k)) == k
  {
    if shape != [] {
      var width := Product(shape[1..]);
      QuotientBound(k, shape[0], width);
      OffsetUnravel(shape[1..], k % width);
      assert Unravel(shape, k)[1..] == Unravel(shape[1..], k % width);
      assert k == k / width * width + k % width;
    }
  }

  /** The element at an index; zero outside the tensor, where no operator looks. */
  function At(t: Tensor, index: seq<nat>): real {
    if InBounds(index, t.shape) then t.data[Offset(t.shape, index)] else 0.0
  }

  function Build(element: Element, shape: seq<nat>, value: seq<nat> -> real): (t: Tensor)
    ensures t.element == element && t.shape == shape
    ensures forall index :: InBounds(index, shape) ==> At(t, index) == value(index)
  {
    BuiltElements(shape, value);
    Tensor(element, shape, Elements(shape, value))
  }

  function Elements(shape: seq<nat>, value: seq<nat> -> real): seq<real> {
    seq(Product(shape), k requires 0 <= k < Product(shape) => value(Unravel(shape, k)))
  }

  lemma BuiltElements(shape: seq<nat>, value: seq<nat> -> real)
    ensures forall index :: InBounds(index, shape) ==> Elements(shape, value)[Offset(shape, index)] == value(index)
  {
    forall index | InBounds(index, shape)
      ensures Elements(shape, value)[Offset(shape, index)] == value(index)
    {
      UnravelOffset(shape, index);
    }
  }

  lemma SameTensor(a: Tensor, b: Tensor)
    requires a.element == b.element && a.shape == b.shape
    requires forall index :: InBounds(index, a.shape) ==> At(a, index) == At(b, index)
    ensures a == b
  {
    forall k | 0 <= k < |a.data|
      ensures a.data[k] == b.data[k]
    {
      var index := Unravel(a.shape, k);
      OffsetUnravel(a.shape, k);
      assert At(a, index) == At(b, index);
    }
    assert a.data == b.data;
  }

  /** A tensor of 64-bit integers of rank one. */
  function Vector(values: seq<int>): (t: Tensor)
    ensures t.element == Int64 && t.shape == [|values|]
    ensures |t.data| == |values| && forall k :: 0 <= k < |values| ==> t.data[k].Floor == values[k]
  {
    ProductOne(|values|);
    Tensor(Int64, [|values|], seq(|values|, k requires 0 <= k < |values| => values[k] as real))
  }

  function Scalar(value: int): Tensor {
    Tensor(Int64, [], [value as real])
  }

  lemma ProductOne(n: nat)
    ensures Product([n]) == n
  {
    assert Product([n]) == n * Product([]);
  }
}
