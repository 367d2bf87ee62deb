/** Trend, seasonal factors and residuals of a window of readings. */
module Decomposition {
  import opened Readings
  import opened OrderStatistics
  import opened Products

  const TREND_CUTOFF := 0.000_000_000_1

  datatype Decomposition = Decomposition(trend: seq<real>, seasonal: seq<real>, residuals: seq<real>)

  /** The trailing-average length: odd, between 3 and 7. */
  function WindowSize(n: nat): (w: nat)
    ensures 3 <= w <= 7 && w % 2 == 1
  {
    var w := Min(n, 7) / 2 * 2 + 1;
    if w < 3 then 3 else w
  }

  // ---- Sums ----

  function Sum(s: seq<real>): real {
    if s == [] then 0.0 else Sum(s[..|s| - 1]) + s[|s| - 1]
  }

  function Mean(s: seq<real>): real
    requires s != []
  {
    Quotient(Sum(s), |s| as real)
  }

  lemma {:induction false} SumBounds(s: seq<real>, lo: real, hi: real)
    requires forall i :: 0 <= i < |s| ==> lo <= s[i] <= hi
    ensures |s| as real * lo <= Sum(s) <= |s| as real * hi
  {
    if s != [] {
      SumBounds(s[..|s| - 1], lo, hi);
      var n := (|s| - 1) as real;
      assert |s| as real == n + 1.0;
      assert |s| as real * lo == n * lo + lo && |s| as real * hi == n * hi + hi;
    }
  }

  lemma QuotientBounds(n: real, x: real, lo: real, hi: real)
    requires n > 0.0 && n * lo <= x <= n * hi
    ensures lo <= Quotient(x, n) <= hi
  {
    assert n * (x / n) == x;
  }

  lemma MeanBounds(s: seq<real>, lo: real, hi: real)
    requires s != [] && forall i :: 0 <= i < |s| ==> lo <= s[i] <= hi
    ensures lo <= Mean(s) <= hi
  {
    SumBounds(s, lo, hi);
    QuotientBounds(|s| as real, Sum(s), lo, hi);
  }

  // ---- Trend ----

  function WindowStart(n: nat, i: nat): nat {
    SatSub(i, 2 * (WindowSize(n) / 2))
  }

  function TrendAt(values: seq<real>, i: nat): real
    requires i < |values|
  {
    Mean(values[WindowStart(|values|, i)..i + 1])
  }

  function TrendOf(values: seq<real>): (trend: seq<real>)
    ensures |trend| == |values|
  {
    if |values| < 2 then values else seq(|values|, i requires 0 <= i < |values| => TrendAt(values, i))
  }

  // ---- Seasonal factors ----

  function Detrend(v: real, t: real): real {
    if Abs(t) > TREND_CUTOFF then v / t else 1.0
  }

  function Detrended(values: seq<real>, trend: seq<real>): (d: seq<real>)
    requires |values| == |trend|
    ensures |d| == |values| && forall i :: 0 <= i < |d| ==> d[i] == Detrend(values[i], trend[i])
  {
    seq(|values|, i requires 0 <= i < |values| => Detrend(values[i], trend[i]))
  }

  /** The detrended values of one calendar month, in reading order. */
  function Bucket(detrended: seq<real>, months: seq<Month>, m: Month): (b: seq<real>)
    requires |detrended| == |months|
    ensures forall x :: x in b ==> exists i :: 0 <= i < |detrended| && detrended[i] == x && months[i] == m
    ensures m in months ==> b != []
  {
    if months == [] then []
    else
      var n := |months| - 1;
      var b := Bucket(detrended[..n], months[..n], m);
      assert months == months[..n] + [months[n]];
      if months[n] == m then b + [detrended[n]] else b
  }

  function RawFactor(bucket: seq<real>): real {
    if bucket == [] then 1.0 else Median(bucket)
  }

  function RawFactors(detrended: seq<real>, months: seq<Month>): (f: seq<real>)
    requires |detrended| == |months|
    ensures |f| == MONTHS
  {
    seq(MONTHS, m requires 0 <= m < MONTHS => RawFactor(Bucket(detrended, months, m)))
  }

  /** Divides by the mean, when it is positive. */
  function Normalised(f: seq<real>): (g: seq<real>)
    requires |f| == MONTHS
    ensures |g| == MONTHS
  {
    var mean := Sum(f) / 12.0;
    if mean > 0.0 then seq(MONTHS, m requires 0 <= m < MONTHS => Quotient(f[m], mean)) else f
  }

  /** The twelve factors before they are normalised. */
  function RawSeason(values: seq<real>, months: seq<Month>): (f: seq<real>)
    requires |values| == |months|
    ensures |f| == MONTHS
  {
    RawFactors(Detrended(values, TrendOf(values)), months)
  }

  function Factors(values: seq<real>, months: seq<Month>): (f: seq<real>)
    requires |values| == |months|
    ensures |f| == MONTHS
  {
    Normalised(RawSeason(values, months))
  }

  // ---- Decomposition ----

  function Residuals(values: seq<real>, trend: seq<real>, seasonal: seq<real>): (r: seq<real>)
    requires |values| == |trend| == |seasonal|
    ensures |r| == |values|
  {
    seq(|values|, i requires 0 <= i < |values| => Residual(values[i], trend[i], seasonal[i]))
  }

  function Residual(v: real, t: real, s: real): real {
    v - t * s
  }

  function SeasonalOf(factors: seq<real>, months: seq<Month>): (s: seq<real>)
    requires |factors| == MONTHS
    ensures |s| == |months|
  {
    seq(|months|, i requires 0 <= i < |months| => factors[months[i]])
  }

  function Decompose(values: seq<real>, months: seq<Month>): (d: Decomposition)
    requires |values| == |months|
    ensures |d.trend| == |d.seasonal| == |d.residuals| == |values|
  {
    var n := |values|;
    if n < 2 then Decomposition(values, seq(n, i => 1.0), seq(n, i => 0.0))
    else
      var trend := TrendOf(values);
      var seasonal := SeasonalOf(Factors(values, months), months);
      Decomposition(trend, seasonal, Residuals(values, trend, seasonal))
  }

  // ---- The same, computed in place phase by phase ----

  method FillTrend(values: seq<real>) returns (trend: array<real>)
    requires |values| >= 2
    ensures fresh(trend) && trend[..] == TrendOf(values)
  {
    var n := |values|;
    var half := WindowSize(n) / 2;
    trend := new real[n];
    for i := 0 to n
      invariant forall k :: 0 <= k < i ==> trend[k] == TrendAt(values, k)
    {
      var start := SatSub(i, 2 * half);
      var end := Min(i + 1, n);
      trend[i] := Sum(values[start..end]) / (end - start) as real;
    }
  }

  method CollectMonths(values: seq<real>, trend: array<real>, months: seq<Month>) returns (monthVals: array<seq<real>>)
    requires |values| == trend.Length == |months|
    ensures fresh(monthVals) && monthVals.Length == MONTHS
    ensures forall m: Month :: monthVals[m] == Bucket(Detrended(values, trend[..]), months, m)
  {
    var n := |values|;
    ghost var detrended := Detrended(values, trend[..]);
    monthVals := new seq<real>[MONTHS](_ => []);
    for i := 0 to n
      invariant forall m: Month :: monthVals[m] == Bucket(detrended[..i], months[..i], m)
    {
      var m := months[i];
      var ratio := if Abs(trend[i]) > TREND_CUTOFF then values[i] / trend[i] else 1.0;
      monthVals[m] := monthVals[m] + [ratio];
      assert detrended[..i + 1][..i] == detrended[..i] && months[..i + 1][..i] == months[..i];
    }
    assert detrended[..n] == detrended && months[..n] == months;
  }

  method SortedMiddle(vals: seq<real>) returns (median: real)
    requires vals != []
    ensures median == Median(vals)
  {
    var sorted := Sort(vals);
    var len := |sorted|;
    median := if len % 2 == 0 then (sorted[len / 2 - 1] + sorted[len / 2]) / 2.0 else sorted[len / 2];
  }

  method MonthFactors(monthVals: array<seq<real>>) returns (factors: array<real>)
    requires monthVals.Length == MONTHS
    ensures fresh(factors) && factors.Length == MONTHS
    ensures forall m: Month :: factors[m] == RawFactor(monthVals[m])
  {
    hide Median;
    factors := new real[MONTHS](_ => 1.0);
    for m := 0 to MONTHS
      invariant forall k :: 0 <= k < m ==> factors[k] == RawFactor(monthVals[k])
      invariant forall k :: m <= k < MONTHS ==> factors[k] == 1.0
    {
      if monthVals[m] != [] {
        factors[m] := SortedMiddle(monthVals[m]);
      }
    }
  }

  method NormaliseInPlace(factors: array<real>)
    requires factors.Length == MONTHS
    modifies factors
    ensures factors[..] == Normalised(old(factors[..]))
  {
    var mean := Sum(factors[..]) / 12.0;
    if mean > 0.0 {
      for m := 0 to MONTHS
        invariant forall k :: 0 <= k < m ==> factors[k] == old(factors[k]) / mean
        invariant forall k :: m <= k < MONTHS ==> factors[k] == old(factors[k])
      {
        factors[m] := factors[m] / mean;
      }
    }
  }

  method StlDecompose(values: seq<real>, months: seq<Month>) returns (d: Decomposition)
    requires |values| == |months|
    ensures d == Decompose(values, months)
  {
    var n := |values|;
    if n < 2 {
      return Decomposition(values, seq(n, i => 1.0), seq(n, i => 0.0));
    }
    var trend := FillTrend(values);
    var monthVals := CollectMonths(values, trend, months);
    var factors := MonthFactors(monthVals);
    assert factors[..] == RawFactors(Detrended(values, trend[..]), months);
    NormaliseInPlace(factors);
    var seasonal := SeasonalOf(factors[..], months);
    d := Decomposition(trend[..], seasonal, Residuals(values, trend[..], seasonal));
  }

  // ---- Properties ----

  /** The decomposition loses nothing: value = trend * seasonal + residual. */
  lemma Reconstructs(values: seq<real>, months: seq<Month>, i: nat)
    requires |values| == |months| && i < |values|
    ensures var d := Decompose(values, months);
            values[i] == d.trend[i] * d.seasonal[i] + d.residuals[i]
  {
    if |values| < 2 {
      assert values[i] * 1.0 == values[i];
    } else {
      var d := Decompose(values, months);
      ResidualReconstructs(values[i], d.trend[i], d.seasonal[i]);
      Point(values, months, i);
      hide Decompose, Residual, TrendOf, Factors;
    }
  }

  lemma ResidualReconstructs(v: real, t: real, s: real)
    ensures v == t * s + Residual(v, t, s)
  {
  }

  lemma Point(values: seq<real>, months: seq<Month>, i: nat)
    requires |values| == |months| && i < |values| && |values| >= 2
    ensures var d := Decompose(values, months);
            && d.trend == TrendOf(values) && d.seasonal[i] == Factors(values, months)[months[i]]
            && d.residuals[i] == Residual(values[i], d.trend[i], d.seasonal[i])
  {
    hide TrendOf, Factors;
  }

  lemma TrendPoint(values: seq<real>, i: nat)
    requires i < |values|
    ensures TrendOf(values)[i] == TrendAt(values, i)
  {
    if |values| == 1 {
      assert values[0..1] == [values[0]];
      assert Sum([values[0]]) == Sum([]) + values[0];
    }
  }

  /** Each trend point lies between the extremes of its trailing window. */
  lemma TrendIsBetween(values: seq<real>, i: nat, lo: real, hi: real)
    requires i < |values|
    requires forall j :: WindowStart(|values|, i) <= j <= i ==> lo <= values[j] <= hi
    ensures lo <= TrendOf(values)[i] <= hi
  {
    TrendPoint(values, i);
    hide TrendOf, Mean;
    MeanBounds(values[WindowStart(|values|, i)..i + 1], lo, hi);
  }

  /** The window of a trend point starts six values earlier, however long the series is: a
      shorter averaging length only occurs where the series is cut off at its start anyway. */
  lemma WindowStartsSixEarlier(n: nat, i: nat)
    requires i < n
    ensures WindowStart(n, i) == SatSub(i, 6)
  {
  }

  /** Later values do not move a trend point, and neither does their number. */
  lemma TrendIsCausal(a: seq<real>, b: seq<real>, i: nat)
    requires i < |a| && i < |b| && a[..i + 1] == b[..i + 1]
    ensures TrendOf(a)[i] == TrendOf(b)[i]
  {
    TrendPoint(a, i);
    TrendPoint(b, i);
    WindowStartsSixEarlier(|a|, i);
    WindowStartsSixEarlier(|b|, i);
    hide TrendOf, Mean;
    var start := WindowStart(|a|, i);
    assert a[start..i + 1] == a[..i + 1][start..] == b[..i + 1][start..] == b[start..i + 1];
  }

  predicate IsSum(a: seq<real>, b: seq<real>, c: seq<real>) {
    |a| == |b| == |c| && forall i :: 0 <= i < |c| ==> c[i] == a[i] + b[i]
  }

  lemma {:induction false} SumAdds(a: seq<real>, b: seq<real>, c: seq<real>)
    requires IsSum(a, b, c)
    ensures Sum(c) == Sum(a) + Sum(b)
  {
    if c != [] {
      var n := |c| - 1;
      SumAdds(a[..n], b[..n], c[..n]);
    }
  }

  lemma QuotientAdds(x: real, y: real, n: real)
    requires n != 0.0
    ensures Quotient(x + y, n) == Quotient(x, n) + Quotient(y, n)
  {
  }

  /** The trend of a sum is the sum of the trends. */
  lemma TrendIsAdditive(a: seq<real>, b: seq<real>, c: seq<real>, i: nat)
    requires IsSum(a, b, c) && i < |c|
    ensures TrendOf(c)[i] == TrendOf(a)[i] + TrendOf(b)[i]
  {
    TrendPoint(a, i);
    TrendPoint(b, i);
    TrendPoint(c, i);
    hide TrendOf, TrendAt, IsSum;
    TrendAtAdds(a, b, c, i);
  }

  lemma TrendAtAdds(a: seq<real>, b: seq<real>, c: seq<real>, i: nat)
    requires IsSum(a, b, c) && i < |c|
    ensures TrendAt(c, i) == TrendAt(a, i) + TrendAt(b, i)
  {
    var start := WindowStart(|c|, i);
    assert |a[start..i + 1]| == |b[start..i + 1]| == |c[start..i + 1]|;
    SumOfSliceAdds(a, b, c, start, i + 1);
    QuotientAdds(Sum(a[start..i + 1]), Sum(b[start..i + 1]), |c[start..i + 1]| as real);
    hide Sum, Quotient, IsSum, WindowStart;
  }

  lemma SumOfSliceAdds(a: seq<real>, b: seq<real>, c: seq<real>, lo: nat, hi: nat)
    requires IsSum(a, b, c) && lo <= hi <= |c|
    ensures Sum(c[lo..hi]) == Sum(a[lo..hi]) + Sum(b[lo..hi])
  {
    hide Sum;
    SumAdds(a[lo..hi], b[lo..hi], c[lo..hi]);
  }

  predicate IsScaled(k: real, a: seq<real>, b: seq<real>) {
    |a| == |b| && forall i :: 0 <= i < |a| ==> b[i] == Mul(k, a[i])
  }

  lemma {:induction false} SumScales(a: seq<real>, b: seq<real>, k: real)
    requires IsScaled(k, a, b)
    ensures Sum(b) == Mul(k, Sum(a))
  {
    if a != [] {
      var n := |a| - 1;
      SumScales(a[..n], b[..n], k);
      assert Mul(k, Sum(a[..n]) + a[n]) == Mul(k, Sum(a[..n])) + Mul(k, a[n]);
    }
  }

  /** The factors sum to 12 exactly when the raw ones have a positive mean. */
  lemma FactorsSumToTwelve(f: seq<real>)
    requires |f| == MONTHS
    ensures Sum(Normalised(f)) == 12.0 <==> Sum(f) > 0.0
  {
    var mean, g := Sum(f) / 12.0, Normalised(f);
    assert Mul(mean, 12.0) == Sum(f);
    hide Sum, Mul, Quotient;
    if mean > 0.0 {
      forall m | 0 <= m < MONTHS ensures f[m] == Mul(mean, g[m]) {
        MulQuotient(mean, f[m]);
      }
      SumScales(g, f, mean);
      CancelMean(mean, Sum(g), 12.0);
    }
  }

  lemma CancelMean(k: real, x: real, y: real)
    requires k > 0.0 && Mul(k, x) == Mul(k, y)
    ensures x == y
  {
    assert k * (x - y) == 0.0;
  }

  lemma {:induction false} SumOfPositives(s: seq<real>)
    requires s != [] && forall i :: 0 <= i < |s| ==> s[i] > 0.0
    ensures Sum(s) > 0.0
  {
    if |s| > 1 {
      SumOfPositives(s[..|s| - 1]);
    } else {
      assert Sum(s[..0]) == 0.0;
    }
  }

  lemma MedianOfPositives(s: seq<real>)
    requires s != [] && forall x :: x in s ==> x > 0.0
    ensures Median(s) > 0.0
  {
    hide Sort;
    forall k | 0 <= k < |s| ensures Sort(s)[k] > 0.0 {
      assert Sort(s)[k] in multiset(Sort(s));
      assert Sort(s)[k] in multiset(s);
      assert Sort(s)[k] in s;
    }
  }

  /** Positive consumption always normalises: every factor is positive and they sum to 12. */
  lemma PositiveReadingsNormalise(values: seq<real>, months: seq<Month>)
    requires |values| == |months| && |values| >= 2
    requires forall i :: 0 <= i < |values| ==> values[i] > 0.0
    ensures var f := Factors(values, months);
            Sum(f) == 12.0 && forall m :: 0 <= m < MONTHS ==> f[m] > 0.0
  {
    var trend := TrendOf(values);
    var detrended := Detrended(values, trend);
    forall i | 0 <= i < |values| ensures detrended[i] > 0.0 {
      var start := WindowStart(|values|, i);
      SumOfPositives(values[start..i + 1]);
      PositiveQuotient(Sum(values[start..i + 1]), |values[start..i + 1]| as real);
      if Abs(trend[i]) > TREND_CUTOFF {
        PositiveQuotient(values[i], trend[i]);
      }
    }
    var raw := RawFactors(detrended, months);
    forall m | 0 <= m < MONTHS ensures raw[m] > 0.0 {
      var bucket := Bucket(detrended, months, m);
      if bucket != [] {
        MedianOfPositives(bucket);
      }
    }
    SumOfPositives(raw);
    FactorsSumToTwelve(raw);
    forall m | 0 <= m < MONTHS ensures Normalised(raw)[m] > 0.0 {
      PositiveQuotient(raw[m], Sum(raw) / 12.0);
    }
  }

  lemma PositiveQuotient(x: real, n: real)
    requires x > 0.0 && n > 0.0
    ensures x / n > 0.0
  {
    assert n * (x / n) == x;
  }

  /** A month whose detrended values mostly lie in a band has its raw factor in that band. */
  lemma RawFactorIsRobust(detrended: seq<real>, months: seq<Month>, m: Month, lo: real, hi: real)
    requires |detrended| == |months| && m in months
    requires var b := Bucket(detrended, months, m); 2 * CountWithin(b, lo, hi) > |b|
    ensures lo <= RawFactors(detrended, months)[m] <= hi
  {
    hide Median;
    MedianIsRobust(Bucket(detrended, months, m), lo, hi);
  }

  // ---- The season, from values and trend ----

  /** The readings of a month. */
  function MonthReadings(months: seq<Month>, m: Month): set<nat> {
    set i: nat | i < |months| && months[i] == m
  }

  /** Those whose detrended value passes. */
  function Passing(detrended: seq<real>, months: seq<Month>, m: Month, p: real -> bool): set<nat>
    requires |detrended| == |months|
  {
    set i: nat | i < |months| && months[i] == m && p(detrended[i])
  }

  lemma SetsGrow(detrended: seq<real>, months: seq<Month>, m: Month, p: real -> bool)
    requires |detrended| == |months| > 0
    ensures var n := |months| - 1;
            && |Passing(detrended, months, m, p)|
               == |Passing(detrended[..n], months[..n], m, p)| + (if months[n] == m && p(detrended[n]) then 1 else 0)
            && |MonthReadings(months, m)| == |MonthReadings(months[..n], m)| + (if months[n] == m then 1 else 0)
  {
    var n := |months| - 1;
    var passing, all := Passing(detrended[..n], months[..n], m, p), MonthReadings(months[..n], m);
    assert Passing(detrended, months, m, p) == passing + if months[n] == m && p(detrended[n]) then {n} else {};
    assert MonthReadings(months, m) == all + if months[n] == m then {n} else {};
    assert n !in passing && n !in all;
  }

  lemma {:induction false} BucketCounts(detrended: seq<real>, months: seq<Month>, m: Month, p: real -> bool)
    requires |detrended| == |months|
    ensures Count(Bucket(detrended, months, m), p) == |Passing(detrended, months, m, p)|
    ensures |Bucket(detrended, months, m)| == |MonthReadings(months, m)|
  {
    if months == [] {
      assert Passing(detrended, months, m, p) == {} && MonthReadings(months, m) == {};
    } else {
      hide Bucket, Count, Passing, MonthReadings;
      var n := |months| - 1;
      var bucket := Bucket(detrended[..n], months[..n], m);
      BucketCounts(detrended[..n], months[..n], m, p);
      BucketSplit(detrended, months, m);
      SetsGrow(detrended, months, m, p);
      CountConcat(bucket, [detrended[n]], p);
      CountOne(detrended[n], p);
      assert bucket + [] == bucket;
    }
  }

  lemma FewerInSubset(a: set<nat>, b: set<nat>)
    requires a <= b
    ensures |a| <= |b|
  {
    assert b == a + (b - a);
  }

  /** The ratio of value to trend lies in lo..hi; a trend within 1e-10 of zero counts as ratio 1. */
  predicate RatioWithin(v: real, t: real, lo: real, hi: real) {
    if t > 0.000_000_000_1 then lo * t <= v <= hi * t
    else if t < -0.000_000_000_1 then hi * t <= v <= lo * t
    else lo <= 1.0 <= hi
  }

  lemma RatioIsDetrended(v: real, t: real, lo: real, hi: real)
    requires RatioWithin(v, t, lo, hi)
    ensures lo <= Detrend(v, t) <= hi
  {
    if Abs(t) > TREND_CUTOFF {
      var q := v / t;
      assert v == q * t;
      if t > 0.0 {
        assert q < lo ==> (lo - q) * t > 0.0;
        assert q > hi ==> (q - hi) * t > 0.0;
      } else {
        assert q < lo ==> (lo - q) * -t > 0.0;
        assert q > hi ==> (q - hi) * -t > 0.0;
      }
    }
  }

  /** A month's readings whose ratio of value to trend lies in lo..hi. */
  function ReadingsWithin(values: seq<real>, trend: seq<real>, months: seq<Month>, m: Month, lo: real, hi: real): set<nat>
    requires |values| == |trend| == |months|
  {
    set i: nat | i < |months| && months[i] == m && RatioWithin(values[i], trend[i], lo, hi)
  }

  lemma WithinPasses(values: seq<real>, trend: seq<real>, months: seq<Month>, m: Month, lo: real, hi: real, p: real -> bool)
    requires |values| == |trend| == |months| && forall x :: p(x) <==> lo <= x <= hi
    ensures |ReadingsWithin(values, trend, months, m, lo, hi)| <= |Passing(Detrended(values, trend), months, m, p)|
  {
    forall i | i in ReadingsWithin(values, trend, months, m, lo, hi) ensures i in Passing(Detrended(values, trend), months, m, p) {
      RatioIsDetrended(values[i], trend[i], lo, hi);
    }
    FewerInSubset(ReadingsWithin(values, trend, months, m, lo, hi), Passing(Detrended(values, trend), months, m, p));
  }

  /** Where the ratio of value to trend lies in a band for most readings of a month, so does
      the month's factor before normalisation. */
  lemma MonthFactorIsRobust(values: seq<real>, months: seq<Month>, m: Month, lo: real, hi: real)
    requires |values| == |months|
    requires 2 * |ReadingsWithin(values, TrendOf(values), months, m, lo, hi)| > |MonthReadings(months, m)|
    ensures lo <= RawSeason(values, months)[m] <= hi
  {
    var d := Detrended(values, TrendOf(values));
    var p := x => lo <= x <= hi;
    hide TrendOf, Detrended, Count, Bucket, Median, ReadingsWithin, MonthReadings, Passing;
    WithinPasses(values, TrendOf(values), months, m, lo, hi, p);
    BucketCounts(d, months, m, p);
    CountsOfBand(Bucket(d, months, m), lo, hi, p);
    MedianIsRobust(Bucket(d, months, m), lo, hi);
  }

  lemma {:induction false} CountsOfBand(s: seq<real>, lo: real, hi: real, p: real -> bool)
    requires forall x :: p(x) <==> lo <= x <= hi
    ensures if lo <= hi then Count(s, p) == CountWithin(s, lo, hi) else Count(s, p) == 0
  {
    if s != [] {
      CountsOfBand(s[1..], lo, hi, p);
    }
  }

  /** The only reading of its month gives its own ratio to the trend as the factor. */
  lemma SingleReadingFactor(values: seq<real>, months: seq<Month>, i: nat)
    requires |values| == |months| && i < |values| && MonthReadings(months, months[i]) == {i}
    requires TrendOf(values)[i] > 0.000_000_000_1 || TrendOf(values)[i] < -0.000_000_000_1
    ensures Mul(RawSeason(values, months)[months[i]], TrendOf(values)[i]) == values[i]
  {
    var m, trend := months[i], TrendOf(values);
    var f := Quotient(values[i], trend[i]);
    MulQuotient(trend[i], values[i]);
    MulCommutes(trend[i], f);
    OwnRatio(values[i], trend[i], f);
    hide TrendOf, RawSeason, RatioWithin, Mul, Quotient;
    assert ReadingsWithin(values, trend, months, m, f, f) == {i} by {
      assert forall j :: j in ReadingsWithin(values, trend, months, m, f, f) ==> j in MonthReadings(months, m);
    }
    MonthFactorIsRobust(values, months, m, f, f);
  }

  lemma OwnRatio(v: real, t: real, f: real)
    requires Mul(f, t) == v && (t > 0.000_000_000_1 || t < -0.000_000_000_1)
    ensures RatioWithin(v, t, f, f)
  {
  }

  /** A month whose trends are all within 1e-10 of zero, or that has no readings, has factor 1. */
  lemma FlatMonthFactor(values: seq<real>, months: seq<Month>, m: Month)
    requires |values| == |months|
    requires forall i :: 0 <= i < |values| && months[i] == m ==> -0.000_000_000_1 <= TrendOf(values)[i] <= 0.000_000_000_1
    ensures RawSeason(values, months)[m] == 1.0
  {
    var trend := TrendOf(values);
    hide TrendOf;
    assert ReadingsWithin(values, trend, months, m, 1.0, 1.0) == MonthReadings(months, m);
    if MonthReadings(months, m) == {} {
      BucketCounts(Detrended(values, trend), months, m, x => true);
      hide Bucket, Detrended;
    } else {
      hide RawSeason;
      MonthFactorIsRobust(values, months, m, 1.0, 1.0);
    }
  }

  /** Normalising keeps the proportions: with a positive sum each factor is 12 times its share. */
  lemma FactorsAreShares(f: seq<real>, m: Month)
    requires |f| == MONTHS
    ensures if Sum(f) > 0.0 then Mul(Normalised(f)[m], Sum(f)) == 12.0 * f[m] else Normalised(f)[m] == f[m]
  {
    var mean := Sum(f) / 12.0;
    hide Sum;
    if mean > 0.0 {
      MulQuotient(mean, f[m]);
      TwelveTimes(mean, Normalised(f)[m], Sum(f), f[m]);
      hide Mul, Quotient;
    }
  }

  lemma TwelveTimes(mean: real, q: real, sum: real, x: real)
    requires sum == 12.0 * mean && Mul(mean, q) == x
    ensures Mul(q, sum) == 12.0 * x
  {
    assert q * (12.0 * mean) == 12.0 * (mean * q);
  }

  /** The seasonal part at a reading is its month's normalised factor. */
  lemma SeasonalIsMonthsShare(values: seq<real>, months: seq<Month>, i: nat)
    requires |values| == |months| && i < |values| && |values| >= 2
    ensures var s, raw := Decompose(values, months).seasonal[i], RawSeason(values, months);
            if Sum(raw) > 0.0 then Mul(s, Sum(raw)) == 12.0 * raw[months[i]] else s == raw[months[i]]
  {
    Point(values, months, i);
    FactorsAreShares(RawSeason(values, months), months[i]);
    hide Decompose, Normalised, RawSeason, Sum, Mul;
  }

  /** The trend is the mean of the last seven values, or of as many as there are. */
  lemma TrendIsTrailingMean(values: seq<real>, i: nat)
    requires i < |values|
    ensures var first := if i < 6 then 0 else i - 6;
            Mul((i + 1 - first) as real, TrendOf(values)[i]) == Sum(values[first..i + 1])
  {
    TrendPoint(values, i);
    WindowStartsSixEarlier(|values|, i);
    MulQuotient((i + 1 - WindowStart(|values|, i)) as real, Sum(values[WindowStart(|values|, i)..i + 1]));
    hide TrendOf, Sum, Quotient, WindowStart, Mul;
  }

  /** A sum adds up every value once. */
  lemma {:induction false} SumConcat(a: seq<real>, b: seq<real>)
    ensures Sum(a + b) == Sum(a) + Sum(b)
    ensures |b| == 1 ==> Sum(b) == b[0]
  {
    if b == [] {
      assert a + b == a;
    } else {
      var n := |b| - 1;
      assert (a + b)[..|a| + n] == a + b[..n];
      SumConcat(a, b[..n]);
      assert n == 0 ==> Sum(b[..n]) == 0.0;
    }
  }

  // ---- Scaling ----

  /** Which trend points are too small to divide by. */
  predicate SameCutoffs(a: seq<real>, b: seq<real>)
    requires |a| == |b|
  {
    forall i :: 0 <= i < |a| ==> (Abs(a[i]) > TREND_CUTOFF <==> Abs(b[i]) > TREND_CUTOFF)
  }

  lemma TrendScales(a: seq<real>, b: seq<real>, k: real)
    requires IsScaled(k, a, b)
    ensures IsScaled(k, TrendOf(a), TrendOf(b))
  {
    hide TrendOf, Sum, Quotient, Mul;
    forall i | 0 <= i < |a| ensures TrendOf(b)[i] == Mul(k, TrendOf(a)[i]) {
      TrendPoint(a, i);
      TrendPoint(b, i);
      var start := WindowStart(|a|, i);
      SumScales(a[start..i + 1], b[start..i + 1], k);
      ScaledQuotient(k, Sum(a[start..i + 1]), (i + 1 - start) as real);
    }
  }

  lemma ScaledQuotient(k: real, x: real, n: real)
    requires n != 0.0
    ensures Quotient(Mul(k, x), n) == Mul(k, Quotient(x, n))
  {
    assert x == n * (x / n);
    assert k * x == n * (k * (x / n));
  }

  lemma RatioUnchanged(k: real, v: real, t: real)
    requires t != 0.0 && Mul(k, t) != 0.0
    ensures Mul(k, v) / Mul(k, t) == v / t
  {
    var q := v / t;
    assert v == q * t;
    assert k * v == q * (k * t);
  }

  lemma DetrendScales(k: real, v: real, t: real)
    requires Abs(t) > TREND_CUTOFF <==> Abs(Mul(k, t)) > TREND_CUTOFF
    ensures Detrend(Mul(k, v), Mul(k, t)) == Detrend(v, t)
  {
    if Abs(t) > TREND_CUTOFF {
      RatioUnchanged(k, v, t);
    }
  }

  /** A change of unit, or of sign, scales trend and residual and leaves the seasonal factors
      alone, as long as no trend point crosses the division cutoff. */
  lemma DecompositionScales(a: seq<real>, b: seq<real>, months: seq<Month>, k: real)
    requires IsScaled(k, a, b) && |a| == |months|
    requires SameCutoffs(TrendOf(a), TrendOf(b))
    ensures var d, e := Decompose(a, months), Decompose(b, months);
            IsScaled(k, d.trend, e.trend) && e.seasonal == d.seasonal && IsScaled(k, d.residuals, e.residuals)
  {
    hide TrendOf, Decompose, Factors, Mul, SameCutoffs;
    if |a| >= 2 {
      var d, e := Decompose(a, months), Decompose(b, months);
      TrendScales(a, b, k);
      FactorsUnscaled(a, b, months, k);
      forall i | 0 <= i < |a| ensures e.seasonal[i] == d.seasonal[i] {
        Point(a, months, i);
        Point(b, months, i);
      }
      Point(a, months, 0);
      Point(b, months, 0);
      forall i | 0 <= i < |a| ensures e.residuals[i] == Mul(k, d.residuals[i]) {
        ResidualScales(a, b, months, k, i);
      }
    } else {
      TrivialDecompositionScales(a, b, months, k);
    }
  }

  lemma FactorsUnscaled(a: seq<real>, b: seq<real>, months: seq<Month>, k: real)
    requires IsScaled(k, a, b) && |a| == |months|
    requires SameCutoffs(TrendOf(a), TrendOf(b))
    ensures Factors(b, months) == Factors(a, months)
  {
    hide TrendOf, Normalised, RawFactors, Detrend, Mul;
    var s, t := TrendOf(a), TrendOf(b);
    TrendScales(a, b, k);
    forall i | 0 <= i < |a| ensures Detrended(b, t)[i] == Detrended(a, s)[i] {
      DetrendScales(k, a[i], s[i]);
    }
    assert Detrended(b, t) == Detrended(a, s);
  }

  lemma ResidualScales(a: seq<real>, b: seq<real>, months: seq<Month>, k: real, i: nat)
    requires |a| == |b| == |months| && i < |a| && |a| >= 2
    requires var d, e := Decompose(a, months), Decompose(b, months);
             b[i] == Mul(k, a[i]) && e.trend[i] == Mul(k, d.trend[i]) && e.seasonal[i] == d.seasonal[i]
    ensures Decompose(b, months).residuals[i] == Mul(k, Decompose(a, months).residuals[i])
  {
    hide Decompose, Mul, TrendOf, Factors, Residual;
    var d, e := Decompose(a, months), Decompose(b, months);
    ScaledResidual(k, a[i], d.trend[i], d.seasonal[i], b[i], e.trend[i]);
    Point(a, months, i);
    Point(b, months, i);
  }

  lemma ScaledResidual(k: real, v: real, t: real, s: real, v': real, t': real)
    requires v' == Mul(k, v) && t' == Mul(k, t)
    ensures Residual(v', t', s) == Mul(k, Residual(v, t, s))
  {
    assert (k * t) * s == k * (t * s);
  }

  lemma TrivialDecompositionScales(a: seq<real>, b: seq<real>, months: seq<Month>, k: real)
    requires IsScaled(k, a, b) && |a| == |months| && |a| < 2
    ensures var d, e := Decompose(a, months), Decompose(b, months);
            IsScaled(k, d.trend, e.trend) && e.seasonal == d.seasonal && IsScaled(k, d.residuals, e.residuals)
  {
    assert k * 0.0 == 0.0;
  }

  // ---- Constant series ----

  predicate IsConstant(s: seq<real>, v: real) {
    forall i :: 0 <= i < |s| ==> s[i] == v
  }

  lemma ConstantTrend(values: seq<real>, v: real)
    requires IsConstant(values, v)
    ensures IsConstant(TrendOf(values), v)
  {
    forall i | 0 <= i < |values| ensures TrendOf(values)[i] == v {
      TrendIsBetween(values, i, v, v);
    }
  }

  lemma UnitFactor(detrended: seq<real>, months: seq<Month>, m: Month)
    requires |detrended| == |months| && IsConstant(detrended, 1.0)
    ensures RawFactor(Bucket(detrended, months, m)) == 1.0
  {
    hide Median;
    var bucket := Bucket(detrended, months, m);
    if bucket != [] {
      forall j | 0 <= j < |bucket| ensures bucket[j] == 1.0 {
        assert bucket[j] in bucket;
      }
      MedianOfConstant(bucket, 1.0);
    }
  }

  lemma UnitFactors(detrended: seq<real>, months: seq<Month>)
    requires |detrended| == |months| && IsConstant(detrended, 1.0)
    ensures IsConstant(Normalised(RawFactors(detrended, months)), 1.0)
  {
    var raw := RawFactors(detrended, months);
    forall m | 0 <= m < MONTHS ensures raw[m] == 1.0 {
      UnitFactor(detrended, months, m);
    }
    NormalisedOnes(raw);
  }

  /** A steady meter decomposes into itself: no season, no residual. */
  lemma ConstantDecomposition(values: seq<real>, months: seq<Month>, v: real)
    requires |values| == |months| && IsConstant(values, v)
    ensures var d := Decompose(values, months);
            IsConstant(d.trend, v) && IsConstant(d.seasonal, 1.0) && IsConstant(d.residuals, 0.0)
  {
    if |values| >= 2 {
      ConstantTrend(values, v);
      var detrended := Detrended(values, TrendOf(values));
      forall i | 0 <= i < |values| ensures detrended[i] == 1.0 {
        SelfQuotient(v);
      }
      UnitFactors(detrended, months);
    }
  }

  // ---- A steady series that changes at the end ----

  /** All but the last value are v. */
  predicate SteadyUntil(values: seq<real>, v: real) {
    values != [] && forall i :: 0 <= i < |values| - 1 ==> values[i] == v
  }

  lemma TrendAfterChange(values: seq<real>, v: real)
    requires SteadyUntil(values, v) && |values| >= 8
    ensures IsConstant(TrendOf(values)[..|values| - 1], v)
    ensures TrendOf(values)[|values| - 1] == Quotient(6.0 * v + values[|values| - 1], 7.0)
  {
    var n := |values| - 1;
    forall i | 0 <= i < n ensures TrendOf(values)[i] == v {
      TrendIsBetween(values, i, v, v);
    }
    TrendPoint(values, n);
    WindowStartsSixEarlier(|values|, n);
    var w := values[n - 6..n + 1];
    SumBounds(w[..6], v, v);
    assert Sum(w) == Sum(w[..6]) + w[6] && |w| == 7;
    hide TrendOf;
  }

  lemma {:induction false} BucketOfTwo(detrended: seq<real>, months: seq<Month>, m: Month, i: nat, j: nat)
    requires |detrended| == |months| && i < j < |months| && months[i] == months[j] == m
    ensures |Bucket(detrended, months, m)| >= 2
  {
    var n := |months| - 1;
    if j < n {
      BucketOfTwo(detrended[..n], months[..n], m, i, j);
    } else {
      assert months[..n][i] == m;
      assert m in months[..n];
    }
  }

  /** One stray value among at least three does not move a median of ones. */
  lemma MedianOfOnes(ones: seq<real>, x: real)
    requires |ones| >= 2 && forall y :: y in ones ==> y == 1.0
    ensures Median(ones + [x]) == 1.0
  {
    var atMost, below := AtMost(1.0), Below(1.0);
    forall k | 0 <= k < |ones| ensures ones[k] == 1.0 {
      assert ones[k] in ones;
    }
    CountConcat(ones, [x], atMost);
    CountConcat(ones, [x], below);
    CountUniform(ones, atMost);
    CountUniform(ones, below);
    assert Count([x], below) <= Count([x], atMost);
    hide Count, Median;
    MedianIsRobust(ones + [x], 1.0, 1.0);
  }

  lemma BucketSplit(detrended: seq<real>, months: seq<Month>, m: Month)
    requires |detrended| == |months| > 0
    ensures var n := |months| - 1;
            Bucket(detrended, months, m)
            == Bucket(detrended[..n], months[..n], m) + if months[n] == m then [detrended[n]] else []
  {
  }

  lemma BucketOfOnes(detrended: seq<real>, months: seq<Month>, m: Month)
    requires |detrended| == |months| && IsConstant(detrended, 1.0)
    ensures forall x :: x in Bucket(detrended, months, m) ==> x == 1.0
  {
  }

  /** With two earlier readings in its month, the last one does not move its month's factor. */
  lemma FactorAfterChange(detrended: seq<real>, months: seq<Month>, m: Month, i: nat, j: nat)
    requires |detrended| == |months| && i < j < |months| - 1 && months[i] == months[j] == months[|months| - 1]
    requires SteadyUntil(detrended, 1.0)
    ensures RawFactor(Bucket(detrended, months, m)) == 1.0
  {
    hide Bucket, Median;
    var n := |months| - 1;
    var before, earlier := detrended[..n], months[..n];
    BucketSplit(detrended, months, m);
    if months[n] == m {
      assert earlier[i] == earlier[j] == m;
      BucketOfTwo(before, earlier, m, i, j);
      BucketOfOnes(before, earlier, m);
      MedianOfOnes(Bucket(before, earlier, m), detrended[n]);
    } else {
      UnitFactor(before, earlier, m);
      assert Bucket(before, earlier, m) + [] == Bucket(before, earlier, m);
    }
  }

  lemma NormalisedOnes(raw: seq<real>)
    requires |raw| == MONTHS && IsConstant(raw, 1.0)
    ensures IsConstant(Normalised(raw), 1.0)
  {
    SumBounds(raw, 1.0, 1.0);
    assert Sum(raw) == 12.0;
  }

  lemma FactorsAfterChange(values: seq<real>, months: seq<Month>, v: real, i: nat, j: nat)
    requires |values| == |months| >= 8 && SteadyUntil(values, v)
    requires i < j < |months| - 1 && months[i] == months[j] == months[|months| - 1]
    ensures IsConstant(Factors(values, months), 1.0)
  {
    var n, trend := |values| - 1, TrendOf(values);
    var detrended := Detrended(values, trend);
    TrendAfterChange(values, v);
    SelfQuotient(v);
    forall k | 0 <= k < n ensures detrended[k] == 1.0 {
      assert trend[k] == trend[..n][k];
    }
    hide TrendOf, Normalised, Detrended, Bucket, Median;
    var raw := RawFactors(detrended, months);
    forall m | 0 <= m < MONTHS ensures raw[m] == 1.0 {
      FactorAfterChange(detrended, months, m, i, j);
    }
    NormalisedOnes(raw);
  }

  /** A steady series with a change in its last value, which has two earlier readings in its
      month: no season, no residual before the change, and six sevenths of the change after. */
  lemma ChangeDecomposition(values: seq<real>, months: seq<Month>, v: real, i: nat, j: nat)
    requires |values| == |months| >= 8 && SteadyUntil(values, v)
    requires i < j < |months| - 1 && months[i] == months[j] == months[|months| - 1]
    ensures var d, n := Decompose(values, months), |values| - 1;
            && IsConstant(d.seasonal, 1.0) && IsConstant(d.residuals[..n], 0.0)
            && d.trend[n] == Quotient(6.0 * v + values[n], 7.0)
            && d.residuals[n] == values[n] - d.trend[n]
  {
    var d, n := Decompose(values, months), |values| - 1;
    TrendAfterChange(values, v);
    FactorsAfterChange(values, months, v, i, j);
    hide TrendOf, Factors, Decompose, Quotient;
    forall k | 0 <= k <= n ensures d.seasonal[k] == 1.0 && d.residuals[k] == values[k] - d.trend[k] {
      Point(values, months, k);
    }
    assert d.trend == TrendOf(values) by { Point(values, months, 0); }
    forall k | 0 <= k < n ensures d.residuals[k] == 0.0 {
      assert d.trend[k] == d.trend[..n][k];
    }
  }

  lemma SelfQuotient(v: real)
    ensures Detrend(v, v) == 1.0
  {
    if v != 0.0 {
      assert v * (v / v) == v;
      assert v * (v / v - 1.0) == 0.0;
    }
  }
}
