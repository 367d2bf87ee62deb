/** The truncated binary search for the smallest accepted instruction budget. */
module BudgetSearch {

  function Pow2(k: nat): (p: nat)
    ensures p >= 1
  {
    if k == 0 then 1 else 2 * Pow2(k - 1)
  }

  /** A width halved k times, rounding down each time. */
  function Halved(w: nat, k: nat): nat {
    if k == 0 then w else Halved(w, k - 1) / 2
  }

  /** Rounding down k times is rounding down once: Halved(w, k) is floor(w / 2^k). */
  lemma {:induction false} HalvedIsFloor(w: nat, k: nat)
    ensures Halved(w, k) * Pow2(k) <= w < (Halved(w, k) + 1) * Pow2(k)
  {
    if k > 0 {
      HalvedIsFloor(w, k - 1);
      FloorStep(w, Halved(w, k - 1), Pow2(k - 1), Halved(w, k - 1) / 2);
    }
  }

  lemma FloorStep(w: nat, h: nat, p: nat, q: nat)
    requires 2 * q <= h <= 2 * q + 1 && h * p <= w < (h + 1) * p
    ensures q * (2 * p) <= w < (q + 1) * (2 * p)
  {
    assert q * (2 * p) == (2 * q) * p && (q + 1) * (2 * p) == (2 * q + 2) * p;
    if h == 2 * q {
      assert (h + 1) * p + p == (2 * q + 2) * p;
    } else {
      assert (2 * q) * p + p == h * p;
    }
  }

  /** Enough iterations leave no gap. */
  lemma HalvedVanishes(w: nat, k: nat)
    ensures w < Pow2(k) <==> Halved(w, k) == 0
  {
    HalvedIsFloor(w, k);
    AtLeastOnce(Halved(w, k), Pow2(k));
    hide Halved, Pow2;
  }

  lemma AtLeastOnce(h: nat, p: nat)
    ensures h >= 1 ==> h * p >= p
    ensures h == 0 ==> h * p == 0 && (h + 1) * p == p
  {
  }

  /** Once a halved width is 0 it stays 0. */
  lemma {:induction false} HalvedStaysNothing(w: nat, k: nat, n: nat)
    requires k <= n && Halved(w, k) == 0
    ensures Halved(w, n) == 0
  {
    if k < n {
      HalvedStaysNothing(w, k, n - 1);
    }
  }

  ghost predicate Monotone(success: nat -> bool) {
    forall a, b :: a <= b && success(a) ==> success(b)
  }

  ghost predicate Always(success: nat -> bool) {
    forall b :: success(b)
  }

  lemma HalvedStep(w: nat, k: nat)
    ensures Halved(w, 0) == w && Halved(w, k + 1) == Halved(w, k) / 2
  {
  }

  /** What a test says of two budgets, if it is monotone or always accepts. */
  lemma Verdicts(success: nat -> bool, a: nat, b: nat)
    ensures Monotone(success) && a <= b && success(a) ==> success(b)
    ensures Always(success) ==> success(a) && Monotone(success)
  {
  }

  lemma RefusedBelow(success: nat -> bool, mid: nat)
    ensures Monotone(success) && !success(mid) ==> forall b: nat :: b <= mid ==> !success(b)
  {
  }

  /** The search range: half the estimate, rounded up, to twice the estimate. */
  function LowerBound(estimate: nat): nat {
    (estimate + 1) / 2
  }

  function UpperBound(estimate: nat): nat {
    2 * estimate
  }

  method BudgetOptimizer(estimate: nat, success: nat -> bool, maxIterations: nat) returns (best: nat)
    // Whatever the acceptance test, the result is accepted or is the untouched upper bound.
    ensures estimate <= 2 * best && best <= 2 * estimate
    ensures success(best) || best == 2 * estimate
    // For a monotone test it is accepted exactly when any budget in range is ...
    ensures Monotone(success) ==> (success(best) <==> success(2 * estimate))
    // ... and then lies at most floor(width / 2^k) above every accepted budget in range.
    ensures Monotone(success) && success(best) ==>
              forall b: nat :: estimate <= 2 * b && success(b) ==>
                best <= b + Halved(2 * estimate - (estimate + 1) / 2, maxIterations)
    // The always-accepting test, whose least budget is the lower bound, reaches that distance.
    ensures Always(success) ==>
              best == (estimate + 1) / 2 + Halved(2 * estimate - (estimate + 1) / 2, maxIterations)
  {
    var low, high := LowerBound(estimate), UpperBound(estimate);
    ghost var low0, high0 := low, high;
    hide Halved, Monotone, Always;
    HalvedStep(high0 - low0, 0);
    best := high;
    var i := 0;
    while i < maxIterations
      invariant i <= maxIterations
      invariant low0 <= low <= high <= high0 && best == high
      invariant success(best) || best == high0
      invariant Monotone(success) && success(best) ==> success(high0)
      invariant Monotone(success) ==> forall b :: low0 <= b < low ==> !success(b)
      invariant high - low <= Halved(high0 - low0, i)
      invariant Always(success) ==> low == low0 && high - low == Halved(high0 - low0, i)
      decreases maxIterations - i
    {
      HalvedStep(high0 - low0, i);
      var mid := low + (high - low) / 2;
      Verdicts(success, mid, high0);
      RefusedBelow(success, mid);
      if success(mid) {
        best := mid;
        if mid == low {
          if Always(success) {
            HalvedStaysNothing(high0 - low0, i + 1, maxIterations);
          }
          return;
        }
        high := mid;
      } else {
        if mid == high {
          return;
        }
        low := mid + 1;
      }
      i := i + 1;
    }
  }

  /** With 2^k above the width the search is exact: nothing below the result is accepted. */
  method ExactBudget(estimate: nat, success: nat -> bool, maxIterations: nat) returns (best: nat)
    requires 2 * estimate - (estimate + 1) / 2 < Pow2(maxIterations)
    requires Monotone(success) && success(2 * estimate)
    ensures success(best) && forall b: nat :: estimate <= 2 * b && b < best ==> !success(b)
  {
    best := BudgetOptimizer(estimate, success, maxIterations);
    HalvedVanishes(UpperBound(estimate) - LowerBound(estimate), maxIterations);
  }
}
