/** Sums over the count vectors and the real-valued topic vectors of the sampler. */
module Vectors {

  /** Sum of a count vector, added front to back. */
  function Sum(v: seq<nat>): nat
  {
    if v == [] then 0 else Sum(v[..|v| - 1]) + v[|v| - 1]
  }

  /** Sum of a real vector, added front to back (std::accumulate starting at 0.0). */
  function SumR(v: seq<real>): real
  {
    if v == [] then 0.0 else SumR(v[..|v| - 1]) + v[|v| - 1]
  }

  /** A count vector of n zeros (`doc_topic_count_t(ntopics_, 0)`). */
  function Zeros(n: nat): seq<nat>
  {
    seq(n, _ => 0)
  }

  /** A real vector of n copies of x (`std::vector<double>(ntopics_, ALPHA_)`). */
  function Fill(n: nat, x: real): seq<real>
  {
    seq(n, _ => x)
  }

  /** Element-wise acc + counts (the std::transform with std::plus). */
  function AddCounts(acc: seq<real>, counts: seq<nat>): seq<real>
    requires |acc| == |counts|
  {
    seq(|acc|, t requires 0 <= t < |acc| => acc[t] + counts[t] as real)
  }

  /** Every entry divided by the total (the std::transform with std::divides). */
  function Normalize(v: seq<real>): seq<real>
  {
    seq(|v|, t requires 0 <= t < |v| => if SumR(v) == 0.0 then 0.0 else v[t] / SumR(v))
  }

  /** Changing one entry changes the sum by the difference. */
  lemma {:induction false} SumUpdate(v: seq<nat>, i: nat, x: nat)
    requires i < |v|
    ensures Sum(v[i := x]) == Sum(v) - v[i] + x
  {
    var n := |v| - 1;
    if i == n {
      assert v[i := x][..n] == v[..n];
    } else {
      assert v[i := x][..n] == v[..n][i := x];
      SumUpdate(v[..n], i, x);
    }
  }

  lemma {:induction false} SumZeros(n: nat)
    ensures Sum(Zeros(n)) == 0
  {
    if n > 0 {
      assert Zeros(n)[..n - 1] == Zeros(n - 1);
      SumZeros(n - 1);
    }
  }

  /** Counts that add up to zero are all zero. */
  lemma {:induction false} SumZero(v: seq<nat>)
    requires Sum(v) == 0
    ensures forall t :: 0 <= t < |v| ==> v[t] == 0
  {
    if v != [] {
      SumZero(v[..|v| - 1]);
      assert forall t :: 0 <= t < |v| - 1 ==> v[t] == v[..|v| - 1][t];
    }
  }

  /** The seeded accumulator sums to n * x plus the counts added into it. */
  lemma {:induction false} AddCountsSum(x: real, counts: seq<nat>)
    ensures SumR(AddCounts(Fill(|counts|, x), counts)) == |counts| as real * x + Sum(counts) as real
  {
    if counts != [] {
      var n := |counts| - 1;
      assert AddCounts(Fill(|counts|, x), counts)[..n] == AddCounts(Fill(n, x), counts[..n]);
      AddCountsSum(x, counts[..n]);
    }
  }

  /** Dividing every entry by s divides the sum by s. */
  lemma {:induction false} SumRScaled(v: seq<real>, s: real)
    requires s != 0.0
    ensures SumR(seq(|v|, t requires 0 <= t < |v| => v[t] / s)) == SumR(v) / s
  {
    var w := seq(|v|, t requires 0 <= t < |v| => v[t] / s);
    if v != [] {
      var n := |v| - 1;
      assert w[..n] == seq(n, t requires 0 <= t < n => v[..n][t] / s);
      SumRScaled(v[..n], s);
      assert SumR(w) == SumR(v[..n]) / s + v[n] / s;
    }
  }

  /** A vector with a non-zero total normalizes to one that sums to 1. */
  lemma NormalizeSumsToOne(v: seq<real>)
    requires SumR(v) != 0.0
    ensures |Normalize(v)| == |v| && SumR(Normalize(v)) == 1.0
  {
    assert Normalize(v) == seq(|v|, t requires 0 <= t < |v| => v[t] / SumR(v));
    SumRScaled(v, SumR(v));
    assert SumR(v) / SumR(v) == 1.0;
  }

  /** A non-empty vector of positive entries has a positive sum. */
  lemma {:induction false} SumRPositive(v: seq<real>)
    requires v != [] && forall t :: 0 <= t < |v| ==> v[t] > 0.0
    ensures SumR(v) > 0.0
  {
    var n := |v| - 1;
    if n > 0 {
      SumRPositive(v[..n]);
    }
  }

  /**
   * q is the normalized accumulator seeded with x and added the counts: one
   * entry per count, summing to 1, entry t being x + counts[t] over n * x
   * plus the total count, which is positive.
   */
  ghost predicate SeededShares(q: seq<real>, x: real, counts: seq<nat>)
  {
    var total := |counts| as real * x + Sum(counts) as real;
    |q| == |counts| && SumR(q) == 1.0 && total > 0.0 &&
    forall t :: 0 <= t < |q| ==> q[t] == (x + counts[t] as real) / total
  }

  /** The counts added into an accumulator seeded with x > 0, normalized, are its seeded shares. */
  lemma NormalizedCounts(x: real, counts: seq<nat>)
    requires x > 0.0 && |counts| >= 1
    ensures SeededShares(Normalize(AddCounts(Fill(|counts|, x), counts)), x, counts)
  {
    var acc := AddCounts(Fill(|counts|, x), counts);
    SeededTotal(x, counts);
    NormalizeSumsToOne(acc);
    forall t | 0 <= t < |Normalize(acc)|
      ensures Normalize(acc)[t] == (x + counts[t] as real) / (|counts| as real * x + Sum(counts) as real)
    {
      SeededShare(x, counts, t);
    }
  }

  /** The seeded accumulator's total is n * x plus the counts' total, which is positive. */
  lemma SeededTotal(x: real, counts: seq<nat>)
    requires x > 0.0 && |counts| >= 1
    ensures var total := SumR(AddCounts(Fill(|counts|, x), counts));
      total == |counts| as real * x + Sum(counts) as real && total > 0.0
  {
    AddCountsSum(x, counts);
    PositiveTotal(|counts| as real, x, Sum(counts) as real);
  }

  /** Entry t of the normalized seeded accumulator. */
  lemma SeededShare(x: real, counts: seq<nat>, t: nat)
    requires x > 0.0 && t < |counts|
    ensures var acc := AddCounts(Fill(|counts|, x), counts);
      t < |Normalize(acc)| &&
      Normalize(acc)[t] == (x + counts[t] as real) / (|counts| as real * x + Sum(counts) as real)
  {
    var acc := AddCounts(Fill(|counts|, x), counts);
    SeededTotal(x, counts);
    NormalizeEntries(acc);
    assert acc[t] == x + counts[t] as real;
  }

  /** Entry t of a normalized vector with a non-zero total is entry t over the total. */
  lemma NormalizeEntries(v: seq<real>)
    requires SumR(v) != 0.0
    ensures |Normalize(v)| == |v| && forall t :: 0 <= t < |v| ==> Normalize(v)[t] == v[t] / SumR(v)
  {
  }

  lemma PositiveTotal(n: real, x: real, c: real)
    requires n >= 1.0 && x > 0.0 && c >= 0.0
    ensures n * x + c > 0.0
  {
  }

  /** With no counts added, the seeded shares are uniform. */
  lemma SeededUniform(q: seq<real>, x: real, counts: seq<nat>)
    requires SeededShares(q, x, counts) && x > 0.0 && Sum(counts) == 0
    ensures forall t :: 0 <= t < |q| ==> q[t] == 1.0 / |counts| as real
  {
    SumZero(counts);
    var n := |counts| as real;
    forall t | 0 <= t < |q|
      ensures q[t] == 1.0 / n
    {
      assert q[t] == (x + counts[t] as real) / (n * x + Sum(counts) as real);
      assert x + counts[t] as real == x && n * x + Sum(counts) as real == n * x;
      ShareOfSelf(x, n);
    }
  }

  /** A weight's share of n times itself is 1/n. */
  lemma ShareOfSelf(x: real, n: real)
    requires x > 0.0 && n > 0.0
    ensures x / (n * x) == 1.0 / n
  {
  }
}
