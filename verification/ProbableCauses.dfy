/** What an anomaly is put down to. */
module ProbableCauses {
  import opened OrderStatistics
  import opened Decomposition
  import opened Products

  datatype ProbableCause = Leak | Theft | SensorFault | SeasonalVariation | Normal

  const MEAN_CUTOFF := 0.000_000_000_1

  function LastFew(s: seq<real>, n: nat): (r: seq<real>)
    ensures |r| == Min(n, |s|)
  {
    s[SatSub(|s|, n)..]
  }

  function Above(t: real): real -> bool {
    x => x > t
  }

  function SquaresAbout(s: seq<real>, m: real): (r: seq<real>)
    ensures |r| == |s|
  {
    seq(|s|, i requires 0 <= i < |s| => SquareAbout(s[i], m))
  }

  function SquareAbout(x: real, m: real): real {
    (x - m) * (x - m)
  }

  function AtLeastOne(x: real): real {
    if x < 1.0 then 1.0 else x
  }

  /** Whether the last ten values, if there are at least four, vary more than three times their mean. */
  predicate Erratic(values: seq<real>) {
    var w := LastFew(values, 10);
    |w| >= 4 && var m := Mean(w); Mean(SquaresAbout(w, m)) > AtLeastOne(Abs(m)) * 3.0
  }

  predicate SeasonalSwing(values: seq<real>, deviation: real, seasonal: real)
    requires values != []
  {
    var mean := Mean(values);
    Abs(seasonal - 1.0) > 0.2 && Abs(mean) > MEAN_CUTOFF && Abs(deviation / mean) < 0.15
  }

  function Classify(values: seq<real>, residuals: seq<real>, deviation: real, deviationPct: real, seasonal: real): ProbableCause
    requires values != []
  {
    if deviationPct < -25.0 then Theft
    else if deviation > 0.0 && Count(LastFew(residuals, 5), Above(0.0)) >= 4 then Leak
    else if Erratic(values) then SensorFault
    else if SeasonalSwing(values, deviation, seasonal) then SeasonalVariation
    else Normal
  }

  // ---- When each cause is named ----

  function Recent(s: seq<real>, n: nat): (r: seq<real>) {
    if |s| <= n then s else s[|s| - n..]
  }

  /** The positions of positive values. */
  function Positive(s: seq<real>): set<nat> {
    set i: nat | i < |s| && s[i] > 0.0
  }

  lemma PositiveCount(s: seq<real>)
    ensures Count(s, Above(0.0)) == |Positive(s)|
  {
    assert Positive(s) == Where(s, Above(0.0));
    CountIsCardinality(s, Above(0.0));
  }

  /** The sum of squares. */
  function Energy(s: seq<real>): real {
    if s == [] then 0.0 else Energy(s[..|s| - 1]) + Mul(s[|s| - 1], s[|s| - 1])
  }

  lemma {:induction false} SquaresAboutSum(s: seq<real>, m: real)
    ensures Sum(SquaresAbout(s, m)) == Energy(s) - 2.0 * Mul(m, Sum(s)) + Mul(|s| as real, Mul(m, m))
  {
    if s == [] {
      MulSign(m, 0.0);
      MulSign(0.0, Mul(m, m));
    } else {
      var n := |s| - 1;
      hide Mul, SquareAbout;
      var squares := SquaresAbout(s, m);
      assert squares[..n] == SquaresAbout(s[..n], m);
      SquaresAboutSum(s[..n], m);
      OneMoreSquare(s[n], m, Sum(s[..n]), n as real);
    }
  }

  lemma OneMoreSquare(x: real, m: real, sum: real, n: real)
    ensures SquareAbout(x, m) == Mul(x, x) - 2.0 * (Mul(m, sum + x) - Mul(m, sum)) + Mul(n + 1.0, Mul(m, m)) - Mul(n, Mul(m, m))
  {
  }

  /** Three times m, or 3 if m is within 1 of zero. */
  function Tolerance(m: real): real {
    if m > 1.0 then 3.0 * m else if m < -1.0 then -3.0 * m else 3.0
  }

  /** Erratic means: the variance, as the mean square less the square of the mean m, of the last
      ten or fewer but at least four values exceeds the tolerance. */
  lemma ErraticIff(values: seq<real>, m: real)
    requires values != [] && Mul(|Recent(values, 10)| as real, m) == Sum(Recent(values, 10))
    ensures var w := Recent(values, 10);
            Erratic(values) <==> |w| >= 4 && Energy(w) - Mul(|w| as real, Mul(m, m)) > Mul(|w| as real, Tolerance(m))
  {
    var w := LastFew(values, 10);
    assert w == Recent(values, 10);
    var n, squares := |w| as real, SquaresAbout(w, m);
    MulQuotient(n, Sum(w));
    MulQuotient(n, Sum(squares));
    MulInjective(n, m, Mean(w));
    SquaresAboutSum(w, m);
    MeanTimes(m, n, Sum(w));
    var bound := Tolerance(m);
    assert bound == AtLeastOne(Abs(m)) * 3.0;
    MulIsMonotone(n, bound, Mean(squares));
    MulIsMonotone(n, Mean(squares), bound);
    hide Mul, Quotient, SquaresAbout, Sum, Energy, Abs, AtLeastOne, LastFew, Recent, Tolerance;
  }

  lemma MeanTimes(m: real, n: real, sum: real)
    requires Mul(n, m) == sum
    ensures Mul(m, sum) == Mul(n, Mul(m, m))
  {
    assert m * (n * m) == n * (m * m);
  }

  lemma MulInjective(n: real, x: real, y: real)
    requires n > 0.0 && Mul(n, x) == Mul(n, y)
    ensures x == y
  {
    MulIsMonotone(n, x, y);
    MulIsMonotone(n, y, x);
    hide Mul;
  }

  /** The deviation is within 15 percent of a mean m that is not nearly zero. */
  predicate SmallBeside(deviation: real, m: real) {
    (m > 0.000_000_000_1 && -0.15 * m < deviation < 0.15 * m) || (m < -0.000_000_000_1 && 0.15 * m < deviation < -0.15 * m)
  }

  lemma SeasonalSwingIff(values: seq<real>, deviation: real, seasonal: real, m: real)
    requires values != [] && Mul(|values| as real, m) == Sum(values)
    ensures SeasonalSwing(values, deviation, seasonal) <==> (seasonal > 1.2 || seasonal < 0.8) && SmallBeside(deviation, m)
  {
    MulQuotient(|values| as real, Sum(values));
    MulInjective(|values| as real, m, Mean(values));
    if m != 0.0 { RatioBelow(deviation, m); }
    hide Mul, Sum, Quotient;
  }

  lemma RatioBelow(x: real, m: real)
    requires m != 0.0
    ensures Abs(x / m) < 0.15 <==> Abs(x) < 0.15 * Abs(m)
  {
    var q, n := x / m, Abs(m);
    assert x == q * m;
    AbsMul(m, q);
    MulIsMonotone(n, Abs(q), 0.15);
    MulIsMonotone(n, 0.15, Abs(q));
    assert Mul(n, 0.15) == 0.15 * n;
    hide Mul, Abs;
  }

  lemma AbsMul(m: real, q: real)
    ensures Mul(Abs(m), Abs(q)) == Abs(q * m)
  {
  }

  /** Exactly when each cause is named, from the values, their residuals and the deviation: the
      mean m and the recent mean r enter as the numbers whose multiples are the sums. */
  lemma CauseIff(values: seq<real>, residuals: seq<real>, deviation: real, deviationPct: real, seasonal: real, m: real, r: real)
    requires values != [] && Mul(|values| as real, m) == Sum(values)
    requires Mul(|Recent(values, 10)| as real, r) == Sum(Recent(values, 10))
    ensures var cause, w := Classify(values, residuals, deviation, deviationPct, seasonal), Recent(values, 10);
            var leaking := deviation > 0.0 && |Positive(Recent(residuals, 5))| >= 4;
            var erratic := |w| >= 4 && Energy(w) - Mul(|w| as real, Mul(r, r)) > Mul(|w| as real, Tolerance(r));
            var swing := (seasonal > 1.2 || seasonal < 0.8) && SmallBeside(deviation, m);
            && (cause == Theft <==> deviationPct < -25.0)
            && (cause == Leak <==> deviationPct >= -25.0 && leaking)
            && (cause == SensorFault <==> deviationPct >= -25.0 && !leaking && erratic)
            && (cause == SeasonalVariation <==> deviationPct >= -25.0 && !leaking && !erratic && swing)
  {
    assert LastFew(residuals, 5) == Recent(residuals, 5);
    PositiveCount(Recent(residuals, 5));
    ErraticIff(values, r);
    SeasonalSwingIff(values, deviation, seasonal, m);
    hide Erratic, SeasonalSwing, Count, Recent, LastFew, Positive, Energy, Mul, Sum, Tolerance, SmallBeside;
  }
}
