/**
 Group norm over a rank-three tensor, with the mean over a group taken at once or over time and then
 over the channels. Scale and shift act on equal values and are not modelled.
 */
module GroupNorms {
  import opened GlobalContraction
  import opened Sums
  import opened Tensors

  /** The mean over a number of elements, zero over none. */
  function Mean(n: nat, f: nat -> real): real {
    if n == 0 then 0.0 else Sum(n, f) / n as real
  }

  /** The mean over time of every channel, and the mean of those over the channels. */
  function TwoStageMean(channels: nat, time: nat, f: nat -> real): real {
    Mean(channels, (i: nat) => Mean(time, (j: nat) => f(Flat(i, time, j))))
  }

  lemma {:induction false} SumDivided(n: nat, f: nat -> real, divisor: real)
    requires divisor != 0.0
    ensures Sum(n, (k: nat) => f(k) / divisor) == Sum(n, f) / divisor
  {
    var g := (k: nat) => f(k) / divisor;
    if n != 0 {
      SumDivided(n - 1, f, divisor);
      SumEqual(n - 1, g, (k: nat) => f(k) / divisor);
    }
    SumEqual(n, g, (k: nat) => f(k) / divisor);
  }

  lemma QuotientTwice(x: real, a: nat, b: nat)
    requires a != 0 && b != 0
    ensures a * b != 0 && x / b as real / a as real == x / (a * b) as real
  {
    assert (a * b) as real == a as real * b as real;
  }

  /** The two means in turn are the mean over channels and time together. */
  lemma {:induction false} MeansAgree(channels: nat, time: nat, f: nat -> real)
    requires channels != 0 && time != 0
    ensures TwoStageMean(channels, time, f) == Mean(channels * time, f)
  {
    var row := (i: nat) => Sum(time, (j: nat) => f(Flat(i, time, j)));
    var mean := (i: nat) => Mean(time, (j: nat) => f(Flat(i, time, j)));
    SumDivided(channels, row, time as real);
    SumEqual(channels, mean, (k: nat) => row(k) / time as real);
    SumFlattened(channels, time, f);
    SumEqual(channels, row, (i: nat) => Sum(time, (j: nat) => f(Flat(i, time, j))));
    QuotientTwice(Sum(channels, row), channels, time);
    assert TwoStageMean(channels, time, f) == Mean(channels, mean) by {
      SumEqual(channels, mean, (i: nat) => Mean(time, (j: nat) => f(Flat(i, time, j))));
    }
  }

  function Square(x: real): real {
    x * x
  }

  /** One group of one batch entry, flattened: centred, and divided by the root of the variance and epsilon. */
  function Normalized(size: nat, f: nat -> real, epsilon: real, root: real -> real, k: nat): real {
    var mean := Mean(size, f);
    Quotient(f(k) - mean, root(Mean(size, (i: nat) => Square(f(i) - mean)) + epsilon))
  }

  /** The same with both means taken in two stages. */
  function TwoStageNormalized(channels: nat, time: nat, f: nat -> real, epsilon: real, root: real -> real, k: nat): real {
    var mean := TwoStageMean(channels, time, f);
    Quotient(f(k) - mean, root(TwoStageMean(channels, time, (i: nat) => Square(f(i) - mean)) + epsilon))
  }

  function Quotient(x: real, y: real): real {
    if y == 0.0 then 0.0 else x / y
  }

  lemma {:induction false} NormsAgree(channels: nat, time: nat, f: nat -> real, epsilon: real, root: real -> real, k: nat)
    requires channels != 0 && time != 0
    ensures TwoStageNormalized(channels, time, f, epsilon, root, k) == Normalized(channels * time, f, epsilon, root, k)
  {
    MeansAgree(channels, time, f);
    var mean := Mean(channels * time, f);
    MeansAgree(channels, time, (i: nat) => Square(f(i) - mean));
  }

  /** The values of the m-th group of all batch entries, in memory order. */
  function GroupValues(x: Tensor, size: nat, m: nat): nat -> real {
    (i: nat) => if m * size + i < |x.data| then x.data[m * size + i] else 0.0
  }

  /** A rank-three tensor normalised group by group, with the means taken at once or in two stages. */
  function GroupNorm(x: Tensor, groups: nat, epsilon: real, root: real -> real, staged: bool): (r: seq<real>)
    requires |x.shape| == 3 && groups > 0 && x.shape[1] % groups == 0
    ensures |r| == |x.data|
  {
    var (channels, time) := (x.shape[1] / groups, x.shape[2]);
    var size := channels * time;
    seq(|x.data|, k requires 0 <= k < |x.data| =>
      if size == 0 then 0.0
      else if staged then TwoStageNormalized(channels, time, GroupValues(x, size, k / size), epsilon, root, k % size)
      else Normalized(size, GroupValues(x, size, k / size), epsilon, root, k % size))
  }

  /** The two-stage norm is the flattened norm, for every tensor, number of groups and epsilon. */
  lemma {:induction false} GroupNormsAgree(x: Tensor, groups: nat, epsilon: real, root: real -> real)
    requires |x.shape| == 3 && groups > 0 && x.shape[1] % groups == 0
    ensures GroupNorm(x, groups, epsilon, root, true) == GroupNorm(x, groups, epsilon, root, false)
  {
    var channels, time := x.shape[1] / groups, x.shape[2];
    var size := channels * time;
    forall k | 0 <= k < |x.data|
      ensures GroupNorm(x, groups, epsilon, root, true)[k] == GroupNorm(x, groups, epsilon, root, false)[k]
    {
      if size != 0 {
        assert channels != 0 && time != 0;
        NormsAgree(channels, time, GroupValues(x, size, k / size), epsilon, root, k % size);
      }
    }
  }

  // ----- By tensor index

  /** A function of the elements of one channel, summed over time. */
  function ChannelSum(x: Tensor, time: nat, b: nat, c: nat, h: real -> real): real {
    Sum(time, (j: nat) => h(At(x, [b, c, j])))
  }

  /** The mean of a function of the elements of batch entry b in group g of n channels. */
  function GroupMean(x: Tensor, n: nat, time: nat, b: nat, g: nat, h: real -> real): real {
    if n * time == 0 then 0.0 else Sum(n, (i: nat) => ChannelSum(x, time, b, g * n + i, h)) / (n * time) as real
  }

  /** Where an element stands: the group of its batch entry and its place in the group. */
  lemma {:induction false} GroupOffset(batch: nat, groups: nat, n: nat, time: nat, b: nat, g: nat, i: nat, j: nat)
    requires b < batch && g < groups && i < n && j < time
    ensures g * n + i < groups * n && i * time + j < n * time
    ensures InBounds([b, g * n + i, j], [batch, groups * n, time])
    ensures Offset([batch, groups * n, time], [b, g * n + i, j]) == (b * groups + g) * (n * time) + (i * time + j)
  {
    HornerBound(g, groups, i, n);
    HornerBound(i, n, j, time);
    OffsetThree(batch, groups * n, time, b, g * n + i, j);
    GroupHorner(groups, n, time, b, g, i, j);
  }

  lemma {:induction false} GroupHorner(groups: nat, n: nat, time: nat, b: nat, g: nat, i: nat, j: nat)
    ensures (b * (groups * n) + (g * n + i)) * time + j == (b * groups + g) * (n * time) + (i * time + j)
  {
    assert b * (groups * n) + (g * n + i) == (b * groups + g) * n + i by {
      assert (b * groups + g) * n == b * groups * n + g * n;
      assert b * (groups * n) == b * groups * n;
    }
    var m := b * groups + g;
    assert (m * n + i) * time == m * n * time + i * time;
    assert m * (n * time) == m * n * time;
  }

  ghost predicate Grouped(x: Tensor, groups: nat, n: nat, time: nat) {
    |x.shape| == 3 && groups > 0 && x.shape[1] == groups * n && x.shape[2] == time && n > 0 && time > 0
  }

  /** The values of a group in memory order are its elements, channel by channel. */
  lemma {:induction false} GroupValueAt(x: Tensor, groups: nat, n: nat, time: nat, b: nat, g: nat, i: nat, j: nat)
    requires Grouped(x, groups, n, time) && b < x.shape[0] && g < groups && i < n && j < time
    ensures GroupValues(x, n * time, b * groups + g)(Flat(i, time, j)) == At(x, [b, g * n + i, j])
  {
    GroupOffset(x.shape[0], groups, n, time, b, g, i, j);
    assert x.shape == [x.shape[0], groups * n, time];
  }

  /** A function of the group's values in memory order is that of its elements. */
  ghost predicate Reads(x: Tensor, n: nat, time: nat, b: nat, g: nat, h: real -> real, f: nat -> real) {
    forall i: nat, j: nat :: i < n && j < time ==> f(Flat(i, time, j)) == h(At(x, [b, g * n + i, j]))
  }

  lemma {:induction false} RowGrouped(x: Tensor, n: nat, time: nat, b: nat, g: nat, h: real -> real, f: nat -> real, i: nat)
    requires i < n && Reads(x, n, time, b, g, h, f)
    ensures Sum(time, (j: nat) => f(Flat(i, time, j))) == ChannelSum(x, time, b, g * n + i, h)
  {
    SumEqual(time, (j: nat) => f(Flat(i, time, j)), (j: nat) => h(At(x, [b, g * n + i, j])));
  }

  lemma {:induction false} SumGrouped(x: Tensor, n: nat, time: nat, b: nat, g: nat, h: real -> real, f: nat -> real)
    requires Reads(x, n, time, b, g, h, f)
    ensures Sum(n * time, f) == Sum(n, (i: nat) => ChannelSum(x, time, b, g * n + i, h))
  {
    var row := (i: nat) => Sum(time, (j: nat) => f(Flat(i, time, j)));
    SumFlattened(n, time, f);
    forall i: nat | i < n
      ensures row(i) == ChannelSum(x, time, b, g * n + i, h)
    {
      RowGrouped(x, n, time, b, g, h, f, i);
    }
    SumEqual(n, row, (i: nat) => ChannelSum(x, time, b, g * n + i, h));
  }

  lemma {:induction false} MeanGrouped(x: Tensor, n: nat, time: nat, size: nat, b: nat, g: nat, h: real -> real, f: nat -> real)
    requires Reads(x, n, time, b, g, h, f) && size == n * time
    ensures Mean(size, f) == GroupMean(x, n, time, b, g, h)
  {
    SumGrouped(x, n, time, b, g, h, f);
  }

  lemma {:induction false} ValuesRead(x: Tensor, groups: nat, n: nat, time: nat, b: nat, g: nat, h: real -> real, f: nat -> real)
    requires Grouped(x, groups, n, time) && b < x.shape[0] && g < groups
    requires forall k: nat :: f(k) == h(GroupValues(x, n * time, b * groups + g)(k))
    ensures Reads(x, n, time, b, g, h, f)
  {
    forall i: nat, j: nat | i < n && j < time
      ensures f(Flat(i, time, j)) == h(At(x, [b, g * n + i, j]))
    {
      GroupValueAt(x, groups, n, time, b, g, i, j);
    }
  }

  /** The normal form of one group, by its elements. */
  lemma {:induction false} NormalizedGroup(x: Tensor, groups: nat, n: nat, time: nat, size: nat, b: nat, g: nat, epsilon: real,
                                           root: real -> real, k: nat)
    requires Grouped(x, groups, n, time) && b < x.shape[0] && g < groups && size == n * time
    ensures var mean := GroupMean(x, n, time, b, g, (v: real) => v);
            Normalized(size, GroupValues(x, size, b * groups + g), epsilon, root, k) ==
            Quotient(GroupValues(x, size, b * groups + g)(k) - mean,
                     root(GroupMean(x, n, time, b, g, (v: real) => Square(v - mean)) + epsilon))
  {
    var f := GroupValues(x, size, b * groups + g);
    var mean := GroupMean(x, n, time, b, g, (v: real) => v);
    ValuesRead(x, groups, n, time, b, g, (v: real) => v, f);
    MeanGrouped(x, n, time, size, b, g, (v: real) => v, f);
    ValuesRead(x, groups, n, time, b, g, (v: real) => Square(v - mean), (i: nat) => Square(f(i) - mean));
    MeanGrouped(x, n, time, size, b, g, (v: real) => Square(v - mean), (i: nat) => Square(f(i) - mean));
  }

  /** Where the norm of an element is found, once its place in memory is split into group and rest. */
  lemma {:induction false} NormPlace(x: Tensor, groups: nat, epsilon: real, root: real -> real, at: seq<nat>, size: nat, m: nat, k: nat)
    requires |x.shape| == 3 && groups > 0 && x.shape[1] % groups == 0 && InBounds(at, x.shape)
    requires size == x.shape[1] / groups * x.shape[2] && k < size && Offset(x.shape, at) == m * size + k
    ensures GroupNorm(x, groups, epsilon, root, false)[Offset(x.shape, at)] ==
            Normalized(size, GroupValues(x, size, m), epsilon, root, k)
  {
    DivideSplit(m, k, size);
  }

  lemma {:induction false} GroupsDivide(groups: nat, n: nat)
    requires groups > 0
    ensures groups * n % groups == 0 && groups * n / groups == n
  {
    DivideSplit(n, 0, groups);
    assert n * groups + 0 == groups * n;
  }

  lemma {:induction false} GroupPlace(x: Tensor, groups: nat, n: nat, b: nat, g: nat, i: nat, j: nat)
    requires |x.shape| == 3 && groups > 0 && x.shape[1] == groups * n
    requires b < x.shape[0] && g < groups && i < n && j < x.shape[2]
    ensures x.shape[1] % groups == 0 && x.shape[1] / groups == n && InBounds([b, g * n + i, j], x.shape)
    ensures i * x.shape[2] + j < n * x.shape[2]
    ensures Offset(x.shape, [b, g * n + i, j]) == (b * groups + g) * (n * x.shape[2]) + (i * x.shape[2] + j)
  {
    GroupsDivide(groups, n);
    GroupOffset(x.shape[0], groups, n, x.shape[2], b, g, i, j);
    assert x.shape == [x.shape[0], groups * n, x.shape[2]];
  }

  /** A value, less the mean of a group and over the root of the group's variance and epsilon. */
  function Standardised(x: Tensor, n: nat, b: nat, g: nat, value: real, epsilon: real, root: real -> real): real
    requires |x.shape| == 3
  {
    var mean := GroupMean(x, n, x.shape[2], b, g, (v: real) => v);
    var variance := GroupMean(x, n, x.shape[2], b, g, (v: real) => Square(v - mean));
    Quotient(value - mean, root(variance + epsilon))
  }

  lemma {:induction false} GroupStandardised(x: Tensor, groups: nat, n: nat, size: nat, b: nat, g: nat, epsilon: real,
                                             root: real -> real, k: nat, value: real)
    requires |x.shape| == 3 && Grouped(x, groups, n, x.shape[2]) && b < x.shape[0] && g < groups && size == n * x.shape[2]
    requires GroupValues(x, size, b * groups + g)(k) == value
    ensures Normalized(size, GroupValues(x, size, b * groups + g), epsilon, root, k) ==
            Standardised(x, n, b, g, value, epsilon, root)
  {
    NormalizedGroup(x, groups, n, x.shape[2], size, b, g, epsilon, root, k);
  }

  /** The channel of an element within its group, and the group. */
  lemma {:induction false} ChannelSplit(c: nat, groups: nat, n: nat)
    requires c < groups * n
    ensures n > 0 && c == c / n * n + c % n && c % n < n && c / n < groups
  {
    assert n > 0 by {
      assert groups * 0 == 0;
    }
    QuotientBound(c, groups, n);
  }

  /**
   Every element is standardised by the elements of its own batch entry and group: channel c of all
   channels is in group c / n, where n is the number of channels of a group.
   */
  lemma {:induction false} GroupNormAt(x: Tensor, groups: nat, n: nat, at: seq<nat>, g: nat, epsilon: real, root: real -> real)
    requires |x.shape| == 3 && groups > 0 && x.shape[1] % groups == 0 && n == x.shape[1] / groups
    requires InBounds(at, x.shape) && n > 0 && g == at[1] / n
    ensures GroupNorm(x, groups, epsilon, root, false)[Offset(x.shape, at)] ==
            Standardised(x, n, at[0], g, At(x, at), epsilon, root)
  {
    var (b, i, j, time) := (at[0], at[1] % n, at[2], x.shape[2]);
    assert x.shape[1] == groups * n;
    ChannelSplit(at[1], groups, n);
    assert at == [b, g * n + i, j];
    GroupPlace(x, groups, n, b, g, i, j);
    NormPlace(x, groups, epsilon, root, at, n * time, b * groups + g, i * time + j);
    GroupValueAt(x, groups, n, time, b, g, i, j);
    GroupStandardised(x, groups, n, n * time, b, g, epsilon, root, i * time + j, At(x, at));
  }
}
