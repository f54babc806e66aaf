/**
 Adaptive depth over the reals: halting weights after some passes, the mixture they make of the
 passes' states, and the depth they expect. One row of a batch; networks are parameters.
 */
module Halting {

  type Vector = seq<real>

  function Clip(x: real, low: real, high: real): real {
    var raised := if x < low then low else x;
    if raised > high then high else raised
  }

  /** What a pass of some probability takes of a mass, and what it leaves. */
  function Taken(mass: real, probability: real): real {
    mass * probability
  }

  function Left(mass: real, probability: real): real {
    mass * (1.0 - probability)
  }

  /** Mass left before pass k. */
  function Remaining(p: seq<real>, k: nat): real
    requires k <= |p|
  {
    if k == 0 then 1.0 else Left(Remaining(p, k - 1), p[k - 1])
  }

  /** The last of n passes takes what is left. */
  function Weight(p: seq<real>, n: nat, i: nat): real
    requires i < n <= |p| + 1
  {
    if i + 1 == n then Remaining(p, i) else Taken(Remaining(p, i), p[i])
  }

  function WeightSum(p: seq<real>, n: nat, k: nat): real
    requires k <= n <= |p| + 1
  {
    if k == 0 then 0.0 else WeightSum(p, n, k - 1) + Weight(p, n, k - 1)
  }

  function Depth(p: seq<real>, n: nat, k: nat): real
    requires k <= n <= |p| + 1
  {
    if k == 0 then 0.0 else Depth(p, n, k - 1) + Taken(Weight(p, n, k - 1), k as real)
  }

  function RemainingSum(p: seq<real>, k: nat): real
    requires k <= |p| + 1
  {
    if k == 0 then 0.0 else RemainingSum(p, k - 1) + Remaining(p, k - 1)
  }

  ghost predicate Proper(p: seq<real>) {
    forall i :: 0 <= i < |p| ==> 0.0 < p[i] < 1.0
  }

  lemma Shrinks(r: real, q: real)
    requires 0.0 < r && 0.0 < q < 1.0
    ensures 0.0 < Left(r, q) <= r && 0.0 < Taken(r, q)
  {
  }

  lemma {:induction false} RemainingPositive(p: seq<real>, k: nat)
    requires Proper(p) && k <= |p|
    ensures 0.0 < Remaining(p, k) <= 1.0
  {
    if k != 0 {
      RemainingPositive(p, k - 1);
      Shrinks(Remaining(p, k - 1), p[k - 1]);
    }
  }

  lemma {:induction false} WeightPositive(p: seq<real>, n: nat, i: nat)
    requires Proper(p) && i < n <= |p| + 1
    ensures 0.0 < Weight(p, n, i)
  {
    RemainingPositive(p, i);
    if i + 1 != n {
      Shrinks(Remaining(p, i), p[i]);
    }
  }

  lemma Parted(r: real, q: real)
    ensures Left(r, q) == r - Taken(r, q)
  {
  }

  lemma {:induction false} WeightsSoFar(p: seq<real>, n: nat, k: nat)
    requires k < n <= |p| + 1
    ensures WeightSum(p, n, k) == 1.0 - Remaining(p, k)
  {
    if k != 0 {
      WeightsSoFar(p, n, k - 1);
      Parted(Remaining(p, k - 1), p[k - 1]);
    }
  }

  /** Whatever the probabilities, the weights of n passes sum to one. */
  lemma {:induction false} WeightsSumToOne(p: seq<real>, n: nat)
    requires 0 < n <= |p| + 1
    ensures WeightSum(p, n, n) == 1.0
  {
    WeightsSoFar(p, n, n - 1);
  }

  /** One more pass adds its weight to the depth as often as its number. */
  lemma DepthStep(r: real, q: real, k: real)
    ensures -Taken(r, k - 1.0) + Taken(Taken(r, q), k) == r - Taken(Left(r, q), k)
    ensures Taken(r, k - 1.0) + r == Taken(r, k)
  {
  }

  lemma {:induction false} DepthSoFar(p: seq<real>, n: nat, k: nat)
    requires k < n <= |p| + 1
    ensures Depth(p, n, k) == RemainingSum(p, k) - Taken(Remaining(p, k), k as real)
  {
    if k == 0 {
      assert Taken(1.0, 0.0) == 0.0;
    } else {
      DepthSoFar(p, n, k - 1);
      DepthStep(Remaining(p, k - 1), p[k - 1], k as real);
      assert (k - 1) as real == k as real - 1.0;
    }
  }

  /** The expected depth is the sum of the masses the passes start with, so between one and the passes. */
  lemma {:induction false} ExpectedDepth(p: seq<real>, n: nat)
    requires 0 < n <= |p| + 1
    ensures Depth(p, n, n) == RemainingSum(p, n)
    ensures Proper(p) ==> 1.0 <= Depth(p, n, n) <= n as real
  {
    DepthSoFar(p, n, n - 1);
    DepthStep(Remaining(p, n - 1), 0.0, n as real);
    assert (n - 1) as real == n as real - 1.0;
    if Proper(p) {
      RemainingSumBounds(p, n);
    }
  }

  lemma {:induction false} RemainingSumBounds(p: seq<real>, n: nat)
    requires Proper(p) && 0 < n <= |p| + 1
    ensures 1.0 <= RemainingSum(p, n) <= n as real
  {
    RemainingPositive(p, n - 1);
    if n == 1 {
      assert RemainingSum(p, 0) == 0.0;
    } else {
      RemainingSumBounds(p, n - 1);
    }
  }

  function Power(x: real, k: nat): real {
    if k == 0 then 1.0 else Taken(Power(x, k - 1), x)
  }

  lemma {:induction false} PowerPositive(x: real, k: nat)
    requires x > 0.0
    ensures Power(x, k) > 0.0
  {
    if k != 0 {
      PowerPositive(x, k - 1);
      assert Taken(Power(x, k - 1), x) > 0.0;
    }
  }

  lemma ProductBounds(a: real, r: real, b: real, low: real, q: real, high: real)
    requires 0.0 <= a <= r <= b && 0.0 <= low <= 1.0 - q <= high
    ensures Taken(a, low) <= Left(r, q) <= Taken(b, high)
  {
    var y := 1.0 - q;
    assert a * low <= r * low && r * low <= r * y && r * y <= b * y && b * y <= b * high;
  }

  /** With an epsilon of at most a half, the mass left after k passes lies between powers. */
  lemma {:induction false} RemainingBounds(p: seq<real>, epsilon: real, k: nat)
    requires 0.0 < epsilon <= 0.5 && k <= |p|
    requires forall i :: 0 <= i < |p| ==> epsilon <= p[i] <= 1.0 - epsilon
    ensures Power(epsilon, k) <= Remaining(p, k) <= Power(1.0 - epsilon, k)
  {
    if k != 0 {
      RemainingBounds(p, epsilon, k - 1);
      PowerPositive(epsilon, k - 1);
      ProductBounds(Power(epsilon, k - 1), Remaining(p, k - 1), Power(1.0 - epsilon, k - 1), epsilon, p[k - 1], 1.0 - epsilon);
    }
  }

  // ----- The mixture

  /** A state with a weighted candidate added. */
  function AddScaled(state: Vector, weight: real, candidate: Vector): (r: Vector)
    requires |state| == |candidate|
    ensures |r| == |state| && forall d :: 0 <= d < |r| ==> r[d] == state[d] + Taken(weight, candidate[d])
  {
    seq(|state|, d requires 0 <= d < |state| => state[d] + Taken(weight, candidate[d]))
  }

  function Zero(dims: nat): (r: Vector)
    ensures |r| == dims && forall d :: 0 <= d < dims ==> r[d] == 0.0
  {
    seq(dims, d => 0.0)
  }

  predicate Sized(candidates: seq<Vector>, dims: nat) {
    forall i :: 0 <= i < |candidates| ==> |candidates[i]| == dims
  }

  function Mixture(p: seq<real>, n: nat, candidates: seq<Vector>, dims: nat, k: nat): (r: Vector)
    requires k <= n <= |p| + 1 && k <= |candidates| && Sized(candidates, dims)
    ensures |r| == dims
  {
    if k == 0 then Zero(dims) else AddScaled(Mixture(p, n, candidates, dims, k - 1), Weight(p, n, k - 1), candidates[k - 1])
  }

  lemma {:induction false} MixtureBetween(p: seq<real>, n: nat, candidates: seq<Vector>, dims: nat, k: nat, d: nat, low: real, high: real)
    requires Proper(p) && k <= n <= |p| + 1 && k <= |candidates| && Sized(candidates, dims) && d < dims
    requires forall i :: 0 <= i < k ==> low <= candidates[i][d] <= high
    ensures Taken(WeightSum(p, n, k), low) <= Mixture(p, n, candidates, dims, k)[d] <= Taken(WeightSum(p, n, k), high)
  {
    if k != 0 {
      MixtureBetween(p, n, candidates, dims, k - 1, d, low, high);
      WeightPositive(p, n, k - 1);
      Between(Weight(p, n, k - 1), candidates[k - 1][d], WeightSum(p, n, k - 1), Mixture(p, n, candidates, dims, k - 1)[d], low, high);
    }
  }

  lemma Between(w: real, c: real, s: real, m: real, low: real, high: real)
    requires 0.0 < w && low <= c <= high && Taken(s, low) <= m <= Taken(s, high)
    ensures Taken(s + w, low) <= m + Taken(w, c) <= Taken(s + w, high)
  {
    assert w * low <= w * c <= w * high;
    assert (s + w) * low == s * low + w * low && (s + w) * high == s * high + w * high;
  }

  /** Every component of the result lies between the least and the greatest of the candidates'. */
  lemma {:induction false} ConvexCombination(p: seq<real>, candidates: seq<Vector>, dims: nat, d: nat, low: real, high: real)
    requires Proper(p) && 0 < |candidates| <= |p| + 1 && Sized(candidates, dims) && d < dims
    requires forall i :: 0 <= i < |candidates| ==> low <= candidates[i][d] <= high
    ensures var n := |candidates|; low <= Mixture(p, n, candidates, dims, n)[d] <= high
  {
    var n := |candidates|;
    MixtureBetween(p, n, candidates, dims, n, d, low, high);
    WeightsSumToOne(p, n);
    assert Taken(1.0, low) == low && Taken(1.0, high) == high;
  }

  // ----- The two loops

  type Halt = Vector -> real

  function Probabilities(candidates: seq<Vector>, halt: Halt, epsilon: real): (p: seq<real>)
    ensures |p| == |candidates| && forall i :: 0 <= i < |p| ==> p[i] == Clip(halt(candidates[i]), epsilon, 1.0 - epsilon)
  {
    seq(|candidates|, i requires 0 <= i < |candidates| => Clip(halt(candidates[i]), epsilon, 1.0 - epsilon))
  }

  /** Within the bounds a probability is kept; outside it is the nearer bound. */
  lemma {:induction false} ClippedKept(candidates: seq<Vector>, halt: Halt, epsilon: real, i: nat)
    requires 0.0 < epsilon <= 0.5 && i < |candidates|
    ensures var (h, p) := (halt(candidates[i]), Probabilities(candidates, halt, epsilon)[i]);
            (epsilon <= h <= 1.0 - epsilon ==> p == h) && (h < epsilon ==> p == epsilon) &&
            (h > 1.0 - epsilon ==> p == 1.0 - epsilon)
  {
  }

  lemma {:induction false} ClippedProper(candidates: seq<Vector>, halt: Halt, epsilon: real)
    requires 0.0 < epsilon < 1.0
    ensures Proper(Probabilities(candidates, halt, epsilon))
    ensures epsilon <= 0.5 ==>
              forall i :: 0 <= i < |candidates| ==> epsilon <= Probabilities(candidates, halt, epsilon)[i] <= 1.0 - epsilon
  {
  }

  function Iterate<S>(step: S -> S, start: S, k: nat): S {
    if k == 0 then start else step(Iterate(step, start, k - 1))
  }

  /** The states after one pass, two passes and so on, as read out. */
  function Candidates<S>(step: S -> S, start: S, read: S -> Vector, k: nat): (c: seq<Vector>)
    ensures |c| == k && forall i :: 0 <= i < k ==> c[i] == read(Iterate(step, start, i + 1))
  {
    seq(k, i requires 0 <= i < k => read(Iterate(step, start, i + 1)))
  }

  ghost predicate ReadsSized<S(!new)>(read: S -> Vector, dims: nat) {
    forall s :: |read(s)| == dims
  }

  /** What one pass takes from the mass left. */
  lemma {:induction false} NextPass(p: seq<real>, n: nat, i: nat)
    requires i < n <= |p| + 1
    ensures i + 1 < n ==> Remaining(p, i) - Weight(p, n, i) == Remaining(p, i + 1)
    ensures Depth(p, n, i + 1) == Depth(p, n, i) + Taken(Weight(p, n, i), (i + 1) as real)
  {
    if i + 1 < n {
      Parted(Remaining(p, i), p[i]);
    }
  }

  /** The loop over a whole sequence, read at its last position. */
  method TimelineLoop<S(!new)>(passes: nat, epsilon: real, sequence: S, block: S -> S, last: S -> Vector, halt: Halt, dims: nat)
    returns (state: Vector, expectedDepth: real)
    requires passes > 0 && 0.0 < epsilon < 1.0 && ReadsSized(last, dims)
    ensures var c := Candidates(block, sequence, last, passes);
            Sized(c, dims) && state == Mixture(Probabilities(c, halt, epsilon), passes, c, dims, passes) &&
            expectedDepth == Depth(Probabilities(c, halt, epsilon), passes, passes)
  {
    ghost var c := Candidates(block, sequence, last, passes);
    ghost var p := Probabilities(c, halt, epsilon);
    assert Sized(c, dims);
    var current, remaining := sequence, 1.0;
    state, expectedDepth := Zero(dims), 0.0;
    for index := 0 to passes
      invariant current == Iterate(block, sequence, index)
      invariant state == Mixture(p, passes, c, dims, index) && expectedDepth == Depth(p, passes, index)
      invariant index < passes ==> remaining == Remaining(p, index)
    {
      current := block(current);
      var candidate := last(current);
      assert candidate == c[index];
      var weight := remaining;
      if index + 1 != passes {
        weight := Taken(remaining, Clip(halt(candidate), epsilon, 1.0 - epsilon));
      }
      NextPass(p, passes, index);
      assert weight == Weight(p, passes, index);
      state := AddScaled(state, weight, candidate);
      var pass := index + 1;
      expectedDepth := expectedDepth + Taken(weight, pass as real);
      remaining := remaining - weight;
    }
  }

  /** The loop over a pooled state, which is itself the candidate. */
  method PooledLoop(passes: nat, epsilon: real, observation: Vector, block: (Vector, Vector) -> Vector, halt: Halt)
    returns (mixture: Vector, expectedDepth: real)
    requires passes > 0 && 0.0 < epsilon < 1.0 && forall s, o :: |block(s, o)| == |observation|
    ensures var c := Candidates((s: Vector) => block(s, observation), observation, (s: Vector) => s, passes);
            Sized(c, |observation|) &&
            mixture == Mixture(Probabilities(c, halt, epsilon), passes, c, |observation|, passes) &&
            expectedDepth == Depth(Probabilities(c, halt, epsilon), passes, passes)
  {
    ghost var step := (s: Vector) => block(s, observation);
    ghost var read := (s: Vector) => s;
    ghost var c, dims := Candidates(step, observation, read, passes), |observation|;
    ghost var p := Probabilities(c, halt, epsilon);
    assert Sized(c, dims);
    var state, remaining := observation, 1.0;
    mixture, expectedDepth := Zero(|observation|), 0.0;
    for index := 0 to passes
      invariant state == Iterate(step, observation, index)
      invariant mixture == Mixture(p, passes, c, dims, index) && expectedDepth == Depth(p, passes, index)
      invariant index < passes ==> remaining == Remaining(p, index)
    {
      state := block(state, observation);
      assert state == step(Iterate(step, observation, index)) && state == c[index];
      var weight := remaining;
      if index + 1 != passes {
        weight := Taken(remaining, Clip(halt(state), epsilon, 1.0 - epsilon));
      }
      NextPass(p, passes, index);
      assert weight == Weight(p, passes, index);
      mixture := AddScaled(mixture, weight, state);
      var pass := index + 1;
      expectedDepth := expectedDepth + Taken(weight, pass as real);
      remaining := remaining - weight;
    }
    assert c == Candidates((s: Vector) => block(s, observation), observation, (s: Vector) => s, passes);
  }
}
