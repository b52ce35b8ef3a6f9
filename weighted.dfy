/**
 * Weighted branching as one table: a list of branch weights and a draw r pick the first
 * branch whose running total exceeds r, the last branch taking whatever is left. The if/elif
 * chains of dirty_salary, dirty_phone, dirty_ssn and dirty_date are each shown equal to a
 * pick from the table of the differences of their thresholds.
 */
module Weighted {
  /** The index of the branch a draw r selects among branches of weights w. */
  function Pick(w: seq<real>, r: real): (i: nat)
    requires |w| >= 1
    ensures i < |w|
  {
    if |w| == 1 || r < w[0] then 0 else 1 + Pick(w[1..], r - w[0])
  }

  /** The sum of the first k weights. */
  function Total(w: seq<real>, k: nat): real
    requires k <= |w|
  {
    if k == 0 then 0.0 else w[0] + Total(w[1..], k - 1)
  }

  predicate NonNegative(w: seq<real>) {
    forall i :: 0 <= i < |w| ==> w[i] >= 0.0
  }

  /** A larger draw never selects an earlier branch: the pick is a step function of r. */
  lemma {:induction false} PickMonotone(w: seq<real>, r1: real, r2: real)
    requires |w| >= 1 && r1 <= r2
    ensures Pick(w, r1) <= Pick(w, r2)
  {
    if |w| > 1 && r1 >= w[0] {
      PickMonotone(w[1..], r1 - w[0], r2 - w[0]);
    }
  }

  lemma {:induction false} TotalMonotone(w: seq<real>, j: nat, k: nat)
    requires NonNegative(w) && j <= k <= |w|
    ensures Total(w, j) <= Total(w, k)
  {
    if j > 0 {
      TotalMonotone(w[1..], j - 1, k - 1);
    } else if k > 0 {
      TotalMonotone(w[1..], 0, k - 1);
    }
  }

  /**
   * Branch i is selected exactly when r lies in its interval [Total(w, i), Total(w, i + 1)),
   * the first interval open to the left and the last one open to the right.
   */
  lemma {:induction false} PickInterval(w: seq<real>, r: real, i: nat)
    requires NonNegative(w) && i < |w|
    ensures Pick(w, r) == i <==>
              (i == 0 || Total(w, i) <= r) && (i == |w| - 1 || r < Total(w, i + 1))
  {
    if |w| > 1 && i > 0 {
      PickInterval(w[1..], r - w[0], i - 1);
      if r < w[0] {
        TotalMonotone(w[1..], 0, i - 1);
      }
    } else if |w| > 1 {
      assert Total(w, 1) == w[0] + Total(w[1..], 0);
    }
  }

  /**
   * The table [0.6, 0.2, 0.1, 0.05, 0.05], which the SSN and the date corruptors share, as
   * the cumulative thresholds 0.6, 0.8, 0.9 and 0.95 of their if/elif chains.
   */
  lemma PickSixtyTwentyTen(r: real)
    ensures Pick([0.6, 0.2, 0.1, 0.05, 0.05], r) ==
              if r < 0.6 then 0 else if r < 0.8 then 1 else if r < 0.9 then 2
              else if r < 0.95 then 3 else 4
  {
    var w0 := [0.6, 0.2, 0.1, 0.05, 0.05];
    var w1 := [0.2, 0.1, 0.05, 0.05];
    var w2 := [0.1, 0.05, 0.05];
    var w3 := [0.05, 0.05];
    var w4 := [0.05];
    assert w0[1..] == w1 && w1[1..] == w2 && w2[1..] == w3 && w3[1..] == w4;
    var p3 := Pick(w3, r - 0.9);
    assert p3 == if r - 0.9 < 0.05 then 0 else 1 + Pick(w4, r - 0.9 - 0.05);
    var p2 := Pick(w2, r - 0.8);
    assert p2 == if r - 0.8 < 0.1 then 0 else 1 + p3;
    var p1 := Pick(w1, r - 0.6);
    assert p1 == if r - 0.6 < 0.2 then 0 else 1 + p2;
    assert Pick(w0, r) == if r < 0.6 then 0 else 1 + p1;
  }
}
