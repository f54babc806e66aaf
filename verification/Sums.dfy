/** Finite sums over the reals, and the exchange between one long sum and a sum of sums. */
module Sums {

  /** A product of two elements, named so that proofs compare factors instead of multiplying out. */
  function Times(x: real, y: real): real {
    x * y
  }

  function Sum(n: nat, term: nat -> real): real {
    if n == 0 then 0.0 else Sum(n - 1, term) + term(n - 1)
  }

  lemma {:induction false} SumEqual(n: nat, f: nat -> real, g: nat -> real)
    requires forall k: nat :: k < n ==> f(k) == g(k)
    ensures Sum(n, f) == Sum(n, g)
  {
    if n != 0 {
      SumEqual(n - 1, f, g);
    }
  }

  lemma {:induction false} SumAppend(m: nat, n: nat, f: nat -> real)
    ensures Sum(m + n, f) == Sum(m, f) + Sum(n, (k: nat) => f(m + k))
  {
    var tail := (k: nat) => f(m + k);
    if n != 0 {
      SumAppend(m, n - 1, f);
      assert Sum(n - 1, tail) == Sum(n - 1, (k: nat) => f(m + k)) by { SumEqual(n - 1, tail, (k: nat) => f(m + k)); }
      assert tail(n - 1) == f(m + n - 1);
    }
    SumEqual(n, tail, (k: nat) => f(m + k));
  }

  /** Position of a pair of coordinates in a flattened pair of axes. */
  function Flat(i: nat, width: nat, j: nat): nat {
    i * width + j
  }

  /** One sum over a flattened pair of axes is the double sum over the pair. */
  lemma {:induction false} SumFlattened(rows: nat, width: nat, f: nat -> real)
    ensures Sum(rows * width, f) == Sum(rows, (i: nat) => Sum(width, (j: nat) => f(Flat(i, width, j))))
  {
    var row := (i: nat) => Sum(width, (j: nat) => f(Flat(i, width, j)));
    if rows != 0 {
      SumFlattened(rows - 1, width, f);
      SumEqual(rows - 1, row, (i: nat) => Sum(width, (j: nat) => f(Flat(i, width, j))));
      var before := (rows - 1) * width;
      assert rows * width == before + width;
      SumAppend(before, width, f);
      var tail, last := (k: nat) => f(before + k), (j: nat) => f(Flat(rows - 1, width, j));
      forall k: nat | k < width
        ensures tail(k) == last(k)
      {
        assert Flat(rows - 1, width, k) == before + k;
      }
      SumEqual(width, tail, last);
      assert Sum(rows, row) == Sum(rows - 1, row) + row(rows - 1);
    }
    SumEqual(rows, row, (i: nat) => Sum(width, (j: nat) => f(Flat(i, width, j))));
  }
}
