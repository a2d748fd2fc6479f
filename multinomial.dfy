/**
 * The multinomial draw of gibbs/gibbs.cpp: pick an index of an unnormalized
 * weight vector by walking the cumulative normalized weights until they reach
 * a uniform draw. Weights are reals; the process-wide generator is replaced by
 * a stream of draws that the caller passes in together with the position of
 * the next unused draw.
 */
module Multinomial {
  import opened Vectors

  /** The uniform generator as a stream: draw number i is rng(i). */
  type Draws = nat -> real

  /**
   * What `multinomial` asserts of its argument: at least one entry and, when
   * there are several, no negative entry and a positive total. A single entry
   * is returned without looking at it.
   */
  predicate Valid(prb: seq<real>)
  {
    |prb| > 0 &&
    (|prb| > 1 ==> (forall i :: 0 <= i < |prb| ==> prb[i] >= 0.0) && SumR(prb) > 0.0)
  }

  /** The value of `cumsum` while the walk stands at index k. */
  function CumNorm(prb: seq<real>, total: real, k: nat): real
    requires k < |prb| && total != 0.0
  {
    if k == 0 then prb[0] / total else CumNorm(prb, total, k - 1) + prb[k] / total
  }

  /** The walk started at `from`: the first index whose cumulative weight reaches rnd, else the last index. */
  function FirstReaching(prb: seq<real>, total: real, rnd: real, from: nat): (r: nat)
    requires from < |prb| && total != 0.0
    ensures from <= r < |prb|
    decreases |prb| - from
  {
    if rnd <= CumNorm(prb, total, from) || from + 1 == |prb| then from
    else FirstReaching(prb, total, rnd, from + 1)
  }

  /** The index `multinomial` returns when its draw is rnd. */
  function Pick(prb: seq<real>, rnd: real): (r: nat)
    requires Valid(prb)
    ensures r < |prb|
  {
    if |prb| == 1 then 0 else FirstReaching(prb, SumR(prb), rnd, 0)
  }

  /**
   * `multinomial`: a single weight gives index 0 and consumes no draw;
   * otherwise the total is summed, one draw is consumed and the walk runs.
   */
  method Multinomial(prb: seq<real>, rng: Draws, next: nat) returns (ind: nat, next': nat)
    requires Valid(prb)
    ensures ind < |prb| && ind == Pick(prb, rng(next))
    ensures |prb| == 1 ==> ind == 0 && next' == next
    ensures |prb| > 1 ==> next' == next + 1
  {
    if |prb| == 1 {
      return 0, next;
    }
    var sum := 0.0;
    for i := 0 to |prb|
      invariant sum == SumR(prb[..i])
    {
      assert prb[..i + 1][..i] == prb[..i];
      sum := sum + prb[i];
    }
    assert prb[..|prb|] == prb;
    var rnd := rng(next);
    next' := next + 1;
    ind := 0;
    var cumsum := prb[ind] / sum;
    while rnd > cumsum && ind + 1 < |prb|
      invariant ind < |prb| && cumsum == CumNorm(prb, sum, ind)
      invariant forall j :: 0 <= j < ind ==> CumNorm(prb, sum, j) < rnd
      decreases |prb| - ind
    {
      ind := ind + 1;
      cumsum := cumsum + prb[ind] / sum;
    }
    FirstReachingIs(prb, sum, rnd, 0, ind);
  }

  /** Every index the walk passes has a cumulative weight below rnd, and where it stops the weight reaches rnd unless it is the last index. */
  lemma {:induction false} FirstReachingSpec(prb: seq<real>, total: real, rnd: real, from: nat)
    requires from < |prb| && total != 0.0
    ensures var r := FirstReaching(prb, total, rnd, from);
      (forall j :: from <= j < r ==> CumNorm(prb, total, j) < rnd) &&
      (r + 1 == |prb| || rnd <= CumNorm(prb, total, r))
    decreases |prb| - from
  {
    if !(rnd <= CumNorm(prb, total, from) || from + 1 == |prb|) {
      FirstReachingSpec(prb, total, rnd, from + 1);
    }
  }

  /** Conversely, an index with those two properties is the one the walk stops at. */
  lemma {:induction false} FirstReachingIs(prb: seq<real>, total: real, rnd: real, from: nat, ind: nat)
    requires from <= ind < |prb| && total != 0.0
    requires forall j :: from <= j < ind ==> CumNorm(prb, total, j) < rnd
    requires ind + 1 == |prb| || rnd <= CumNorm(prb, total, ind)
    ensures FirstReaching(prb, total, rnd, from) == ind
    decreases ind - from
  {
    if from < ind {
      FirstReachingIs(prb, total, rnd, from + 1, ind);
    }
  }

  /** The cumulative weight at k is the sum of the first k+1 weights over the total. */
  lemma {:induction false} CumNormIsPrefixRatio(prb: seq<real>, total: real, k: nat)
    requires k < |prb| && total != 0.0
    ensures CumNorm(prb, total, k) == SumR(prb[..k + 1]) / total
  {
    assert prb[..k + 1][..k] == prb[..k];
    if k > 0 {
      CumNormIsPrefixRatio(prb, total, k - 1);
    } else {
      assert prb[..1][..0] == [];
    }
  }

  /** With non-negative weights and a positive total, the cumulative weights never decrease. */
  lemma {:induction false} CumNormMonotone(prb: seq<real>, total: real, j: nat, k: nat)
    requires j <= k < |prb| && total > 0.0
    requires forall i :: 0 <= i < |prb| ==> prb[i] >= 0.0
    ensures CumNorm(prb, total, j) <= CumNorm(prb, total, k)
    decreases k - j
  {
    if j < k {
      CumNormMonotone(prb, total, j, k - 1);
      assert prb[k] / total >= 0.0;
    }
  }

  /** The walk ends at cumulative weight exactly 1 over the reals. */
  lemma CumNormLast(prb: seq<real>)
    requires |prb| > 0 && SumR(prb) > 0.0
    ensures CumNorm(prb, SumR(prb), |prb| - 1) == 1.0
  {
    CumNormIsPrefixRatio(prb, SumR(prb), |prb| - 1);
    assert prb[..|prb|] == prb;
    assert SumR(prb) / SumR(prb) == 1.0;
  }

  /**
   * The draw falls in index i's interval: above the cumulative weight of the
   * indices before i (if any) and at most i's own cumulative weight (unless i is
   * last). The interval has length prb[i] / total, which is i's probability.
   */
  lemma PickInterval(prb: seq<real>, rnd: real, i: nat)
    requires Valid(prb) && |prb| > 1 && i < |prb|
    ensures Pick(prb, rnd) == i <==>
      (i == 0 || CumNorm(prb, SumR(prb), i - 1) < rnd) &&
      (i + 1 == |prb| || rnd <= CumNorm(prb, SumR(prb), i))
  {
    var total := SumR(prb);
    FirstReachingSpec(prb, total, rnd, 0);
    if (i == 0 || CumNorm(prb, total, i - 1) < rnd) && (i + 1 == |prb| || rnd <= CumNorm(prb, total, i)) {
      forall j | 0 <= j < i
        ensures CumNorm(prb, total, j) < rnd
      {
        CumNormMonotone(prb, total, j, i - 1);
      }
      FirstReachingIs(prb, total, rnd, 0, i);
    }
  }

  /** For a draw of at most 1 the walk always stops where the cumulative weight reaches the draw: the last-index fallback only covers rounding. */
  lemma PickReachesDraw(prb: seq<real>, rnd: real)
    requires Valid(prb) && |prb| > 1 && rnd <= 1.0
    ensures rnd <= CumNorm(prb, SumR(prb), Pick(prb, rnd))
  {
    FirstReachingSpec(prb, SumR(prb), rnd, 0);
    CumNormLast(prb);
  }
}
