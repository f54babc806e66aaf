/**
 Einstein summation for two operands, read off the equation string as the Einsum entry of
 ONNX operator set 17 words it: a term is a list of axis letters with an optional ellipsis,
 every ellipsis stands for the same number of broadcast axes, equal letters share an extent,
 and the letters missing from the result are summed. This is the meaning that the lowered
 graphs are compared with; nothing here knows which equations the passes handle.
 */
module Einsum {
  import opened Sums
  import opened Tensors
  import opened Wrappers

  /** One item of a term as it is written. */
  datatype Label = Axis(name: char) | Ellipsis

  datatype Equation = Equation(left: seq<Label>, right: seq<Label>, result: seq<Label>)

  /** One axis of an operand once the ellipsis is spelled out. */
  datatype Dim = Named(name: char) | Dot(position: nat)

  // ----- Reading an equation

  function ParseTerm(s: string): Option<seq<Label>> {
    if s == "" then Some([])
    else if "..." <= s then
      var rest :- ParseTerm(s[3..]);
      Some([Ellipsis] + rest)
    else if 'a' <= s[0] <= 'z' then
      var rest :- ParseTerm(s[1..]);
      Some([Axis(s[0])] + rest)
    else None
  }

  /** Splits at the first occurrence of a separator. */
  function Split(s: string, separator: string): Option<(string, string)>
    requires separator != ""
  {
    if separator <= s then Some(("", s[|separator|..]))
    else if s == "" then None
    else
      var (before, after) :- Split(s[1..], separator);
      Some(([s[0]] + before, after))
  }

  function Parse(s: string): Option<Equation> {
    var (operands, result) :- Split(s, "->");
    var (left, right) :- Split(operands, ",");
    var l :- ParseTerm(left);
    var r :- ParseTerm(right);
    var o :- ParseTerm(result);
    Some(Equation(l, r, o))
  }

  // ----- The axes of the operands

  function AxisCount(term: seq<Label>): nat {
    if term == [] then 0 else (if term[0].Axis? then 1 else 0) + AxisCount(term[1..])
  }

  function Dots(count: nat): (dims: seq<Dim>)
    ensures |dims| == count && forall k :: 0 <= k < count ==> dims[k] == Dot(k)
  {
    seq(count, k requires 0 <= k < count => Dot(k))
  }

  function Expand(term: seq<Label>, dots: nat): seq<Dim> {
    if term == [] then []
    else (if term[0].Axis? then [Named(term[0].name)] else Dots(dots)) + Expand(term[1..], dots)
  }

  /** The number of axes an ellipsis stands for, fixed by the first operand that has one. */
  function EllipsisRank(eq: Equation, a: Tensor, b: Tensor): nat {
    var (term, rank) := if Ellipsis in eq.left then (eq.left, |a.shape|) else (eq.right, |b.shape|);
    if Ellipsis in term && AxisCount(term) <= rank then rank - AxisCount(term) else 0
  }

  /** The extent of an axis among all operand axes: an ellipsis axis of extent one broadcasts. */
  function Extent(dims: seq<Dim>, extents: seq<nat>, d: Dim): nat
    requires |dims| == |extents|
  {
    if dims == [] then 1
    else if dims[0] == d && !(d.Dot? && extents[0] == 1) then extents[0]
    else Extent(dims[1..], extents[1..], d)
  }

  /** Occurrences of one axis agree on its extent, up to broadcasting of ellipsis axes. */
  predicate Consistent(dims: seq<Dim>, extents: seq<nat>)
    requires |dims| == |extents|
  {
    forall i, j :: 0 <= i < |dims| && 0 <= j < |dims| && dims[i] == dims[j] ==>
                     extents[i] == extents[j] || (dims[i].Dot? && (extents[i] == 1 || extents[j] == 1))
  }

  predicate Distinct(dims: seq<Dim>) {
    forall i, j :: 0 <= i < j < |dims| ==> dims[i] != dims[j]
  }

  /** The axes to sum: those not yet seen, in order of first occurrence. */
  function Contracted(dims: seq<Dim>, seen: seq<Dim>): seq<Dim> {
    if dims == [] then []
    else if dims[0] in seen then Contracted(dims[1..], seen)
    else [dims[0]] + Contracted(dims[1..], seen + [dims[0]])
  }

  function Extents(dims: seq<Dim>, extents: seq<nat>, of: seq<Dim>): seq<nat>
    requires |dims| == |extents|
  {
    seq(|of|, k requires 0 <= k < |of| => Extent(dims, extents, of[k]))
  }

  // ----- The value

  /** The value an index over all axes gives to one axis. */
  function Coordinate(all: seq<Dim>, index: seq<nat>, d: Dim): nat
    requires |all| == |index|
  {
    if all == [] then 0
    else if all[0] == d then index[0]
    else Coordinate(all[1..], index[1..], d)
  }

  /** The index of one operand; a broadcast ellipsis axis always reads position zero. */
  function OperandIndex(dims: seq<Dim>, shape: seq<nat>, all: seq<Dim>, index: seq<nat>): seq<nat>
    requires |dims| == |shape| && |all| == |index|
  {
    seq(|dims|, k requires 0 <= k < |dims| =>
      if dims[k].Dot? && shape[k] == 1 then 0 else Coordinate(all, index, dims[k]))
  }

  function NestedSum(extents: seq<nat>, term: seq<nat> -> real): real {
    if extents == [] then term([])
    else Sum(extents[0], (v: nat) => NestedSum(extents[1..], (rest: seq<nat>) => term([v] + rest)))
  }

  datatype Axes = Axes(left: seq<Dim>, right: seq<Dim>, result: seq<Dim>, summed: seq<Dim>)

  function Spell(eq: Equation, dots: nat): Axes {
    var l, r, o := Expand(eq.left, dots), Expand(eq.right, dots), Expand(eq.result, dots);
    Axes(l, r, o, Contracted(l + r, o))
  }

  function Term(x: Axes, a: Tensor, b: Tensor, index: seq<nat>): real {
    var all := x.result + x.summed;
    if |all| == |index| && |x.left| == |a.shape| && |x.right| == |b.shape| then
      Times(At(a, OperandIndex(x.left, a.shape, all, index)), At(b, OperandIndex(x.right, b.shape, all, index)))
    else 0.0
  }

  predicate Ranked(x: Axes, a: Tensor, b: Tensor) {
    |x.left| == |a.shape| && |x.right| == |b.shape|
  }

  predicate Fits(x: Axes, a: Tensor, b: Tensor) {
    && Ranked(x, a, b)
    && a.element == b.element
    && Consistent(x.left + x.right, a.shape + b.shape)
    && Distinct(x.result)
    && forall d :: d in x.result ==> d in x.left + x.right
  }

  function Value(x: Axes, a: Tensor, b: Tensor, index: seq<nat>): real
    requires Ranked(x, a, b)
  {
    NestedSum(Extents(x.left + x.right, a.shape + b.shape, x.summed), summed => Term(x, a, b, index + summed))
  }

  /** The sum of products of operand elements, over the axes the result does not name. */
  function Summation(x: Axes, a: Tensor, b: Tensor): Tensor
    requires Ranked(x, a, b)
  {
    Build(a.element, Extents(x.left + x.right, a.shape + b.shape, x.result), index => Value(x, a, b, index))
  }

  function Contract(equation: string, a: Tensor, b: Tensor): Option<Tensor> {
    var eq :- Parse(equation);
    var x := Spell(eq, EllipsisRank(eq, a, b));
    if Fits(x, a, b) then Some(Summation(x, a, b)) else None
  }

  // ----- Reading equations of the written form [...]letters,[...]letters->[...]letters

  predicate Lower(s: string) {
    forall k :: 0 <= k < |s| ==> 'a' <= s[k] <= 'z'
  }

  function Letters(s: string): (term: seq<Label>) {
    seq(|s|, k requires 0 <= k < |s| => Axis(s[k]))
  }

  function Written(dotted: bool, letters: string): string {
    (if dotted then "..." else "") + letters
  }

  /** An equation written from three terms. */
  function Text(dl: bool, l: string, dr: bool, r: string, d: bool, o: string): string {
    Written(dl, l) + "," + Written(dr, r) + "->" + Written(d, o)
  }

  function TermOf(dotted: bool, letters: string): seq<Label> {
    (if dotted then [Ellipsis] else []) + Letters(letters)
  }

  lemma {:induction false} SplitFirst(before: string, separator: string, after: string)
    requires separator != "" && separator[0] !in before
    ensures Split(before + separator + after, separator) == Some((before, after))
  {
    var s := before + separator + after;
    if before == "" {
      assert s[|separator|..] == after;
    } else {
      assert s[0] == before[0];
      assert s[1..] == before[1..] + separator + after;
      SplitFirst(before[1..], separator, after);
      assert [before[0]] + before[1..] == before;
    }
  }

  lemma {:induction false} ParseLetters(s: string)
    requires Lower(s)
    ensures ParseTerm(s) == Some(Letters(s))
  {
    if s != "" {
      ParseLetters(s[1..]);
      assert Letters(s) == [Axis(s[0])] + Letters(s[1..]);
    }
  }

  lemma ParseWritten(dotted: bool, letters: string)
    requires Lower(letters)
    ensures ParseTerm(Written(dotted, letters)) == Some(TermOf(dotted, letters))
  {
    ParseLetters(letters);
    if dotted {
      assert Written(dotted, letters)[3..] == letters;
    } else {
      assert Written(dotted, letters) == letters;
      assert TermOf(dotted, letters) == Letters(letters);
    }
  }

  /** The parser reads back any equation written from three terms. */
  lemma ParseEquation(dl: bool, l: string, dr: bool, r: string, d: bool, o: string)
    requires Lower(l) && Lower(r) && Lower(o)
    ensures Parse(Text(dl, l, dr, r, d, o)) == Some(Equation(TermOf(dl, l), TermOf(dr, r), TermOf(d, o)))
  {
    var operands := Written(dl, l) + "," + Written(dr, r);
    SplitFirst(operands, "->", Written(d, o));
    SplitFirst(Written(dl, l), ",", Written(dr, r));
    ParseWritten(dl, l);
    ParseWritten(dr, r);
    ParseWritten(d, o);
  }
}
