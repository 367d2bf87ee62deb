/** The two-regressor least-squares fit: moments, Cramer's rule, and what the
    fitted coefficients are worth as an estimator. */
module WeatherModel {
  import opened Readings
  import opened Products

  /** A reading that carries weather: temperature, precipitation, consumption. */
  datatype Sample = Sample(t: real, p: real, v: real)

  datatype Coefficients = Coefficients(tempSlope: real, precipSlope: real, intercept: real)

  const MIN_SAMPLES := 5
  const DENOM_CUTOFF := 0.000_000_000_001

  function SamplesOf(readings: seq<Reading>): seq<Sample> {
    if readings == [] then []
    else
      var r := readings[|readings| - 1];
      SamplesOf(readings[..|readings| - 1]) + if r.weather.Some? then [SampleOf(r)] else []
  }

  function SampleOf(r: Reading): Sample
    requires r.weather.Some?
  {
    Sample(r.weather.value.temperatureC, r.weather.value.precipitationMm, r.value)
  }

  /** The samples are those of the readings at the listed positions. */
  predicate Lists(readings: seq<Reading>, source: seq<nat>, samples: seq<Sample>) {
    && |source| == |samples|
    && (forall k :: 0 < k < |source| ==> source[k - 1] < source[k])
    && (forall k :: 0 <= k < |source| ==> source[k] < |readings| && readings[source[k]].weather.Some?
                                          && samples[k].t == readings[source[k]].weather.value.temperatureC
                                          && samples[k].p == readings[source[k]].weather.value.precipitationMm
                                          && samples[k].v == readings[source[k]].value)
  }

  lemma ListsOneMore(readings: seq<Reading>, source: seq<nat>, samples: seq<Sample>, r: Reading)
    requires Lists(readings, source, samples)
    ensures Lists(readings + [r], source, samples)
    ensures r.weather.Some? ==> Lists(readings + [r], source + [|readings|], samples + [SampleOf(r)])
  {
  }

  /** The samples are the readings that carry weather, each once and in reading order. */
  lemma {:induction false} SamplesAreReadings(readings: seq<Reading>) returns (source: seq<nat>)
    ensures Lists(readings, source, SamplesOf(readings)) && |SamplesOf(readings)| <= |readings|
    ensures forall i: nat :: i in source <==> i < |readings| && readings[i].weather.Some?
  {
    source := [];
    if readings != [] {
      var n := |readings| - 1;
      source := SamplesAreReadings(readings[..n]);
      var before := source;
      assert readings[..n] + [readings[n]] == readings;
      ListsOneMore(readings[..n], before, SamplesOf(readings[..n]), readings[n]);
      hide Lists, SampleOf;
      if readings[n].weather.Some? {
        source := before + [n];
        assert forall i :: i in source <==> i in before || i == n;
      } else {
        assert SamplesOf(readings[..n]) + [] == SamplesOf(readings[..n]);
      }
    }
  }

  /** The positions of the readings with weather. */
  function WithWeather(readings: seq<Reading>): set<nat> {
    set i: nat | i < |readings| && readings[i].weather.Some?
  }

  /** What those readings add up to. */
  function WeatherConsumption(readings: seq<Reading>): real {
    if readings == [] then 0.0
    else
      var r := readings[|readings| - 1];
      WeatherConsumption(readings[..|readings| - 1]) + if r.weather.Some? then r.value else 0.0
  }

  lemma {:induction false} SamplesAddUp(readings: seq<Reading>)
    ensures |SamplesOf(readings)| == |WithWeather(readings)|
    ensures MomentsOf(SamplesOf(readings)).v == WeatherConsumption(readings)
  {
    if readings == [] {
      assert WithWeather(readings) == {};
    } else {
      var n := |readings| - 1;
      var before, r := SamplesOf(readings[..n]), readings[n];
      SamplesAddUp(readings[..n]);
      assert WithWeather(readings) == WithWeather(readings[..n]) + if r.weather.Some? then {n} else {};
      hide Mul;
      if r.weather.Some? {
        assert (before + [SampleOf(r)])[..|before|] == before;
      } else {
        assert before + [] == before;
      }
    }
  }

  // ---- Squares ----

  function Sq(x: real): real {
    Mul(x, x)
  }

  lemma SqSign(x: real)
    ensures Sq(x) >= 0.0
    ensures Sq(x) == 0.0 <==> x == 0.0
  {
    MulSign(x, x);
  }

  // ---- Moments ----

  /** n and the eight sums the code accumulates, plus the sum of v*v, which only the proofs use. */
  datatype Moments = Moments(n: real, t: real, p: real, v: real, tt: real, pp: real, tv: real, pv: real, tp: real, vv: real)

  const ZERO_MOMENTS := Moments(0.0, 0.0, 0.0, 0.0, 0.0, 0.0, 0.0, 0.0, 0.0, 0.0)

  function AddSample(m: Moments, w: Sample): Moments {
    Moments(m.n + 1.0, m.t + w.t, m.p + w.p, m.v + w.v, m.tt + Sq(w.t), m.pp + Sq(w.p),
            m.tv + Mul(w.t, w.v), m.pv + Mul(w.p, w.v), m.tp + Mul(w.t, w.p), m.vv + Sq(w.v))
  }

  function MomentsOf(ws: seq<Sample>): (m: Moments)
    ensures m.n == |ws| as real
  {
    if ws == [] then ZERO_MOMENTS else AddSample(MomentsOf(ws[..|ws| - 1]), ws[|ws| - 1])
  }

  // ---- The fit ----

  /** Means, variances and covariances; `vV`, the variance of v, is only for the proofs. */
  datatype Spread = Spread(mT: real, mP: real, mV: real, vT: real, vP: real, vV: real, cTV: real, cPV: real, cTP: real)

  function SpreadOf(m: Moments): Spread
    requires m.n > 0.0
  {
    var mT, mP, mV := Quotient(m.t, m.n), Quotient(m.p, m.n), Quotient(m.v, m.n);
    Spread(mT, mP, mV, Quotient(m.tt, m.n) - Mul(mT, mT), Quotient(m.pp, m.n) - Mul(mP, mP), Quotient(m.vv, m.n) - Mul(mV, mV),
           Quotient(m.tv, m.n) - Mul(mT, mV), Quotient(m.pv, m.n) - Mul(mP, mV), Quotient(m.tp, m.n) - Mul(mT, mP))
  }

  function Denominator(s: Spread): real {
    Mul(s.vT, s.vP) - Sq(s.cTP)
  }

  function Solvable(s: Spread): bool {
    Denominator(s) > DENOM_CUTOFF || -Denominator(s) > DENOM_CUTOFF
  }

  function Solve(s: Spread): Coefficients {
    var d := Denominator(s);
    var bT := if Solvable(s) then Quotient(Mul(s.cTV, s.vP) - Mul(s.cPV, s.cTP), d) else 0.0;
    var bP := if Solvable(s) then Quotient(Mul(s.cPV, s.vT) - Mul(s.cTV, s.cTP), d) else 0.0;
    Coefficients(bT, bP, s.mV - Mul(bT, s.mT) - Mul(bP, s.mP))
  }

  function SpreadOfSamples(ws: seq<Sample>): Spread
    requires ws != []
  {
    SpreadOf(MomentsOf(ws))
  }

  function Fit(ws: seq<Sample>): Coefficients
    requires ws != []
  {
    Solve(SpreadOfSamples(ws))
  }

  /** The fit as the code runs it: one pass over the samples, then closed formulas. */
  method FitSamples(ws: seq<Sample>) returns (c: Coefficients)
    requires ws != []
    ensures c == Fit(ws)
  {
    var n := |ws| as real;
    var sT, sP, sV, sTT, sPP, sTV, sPV, sTP := 0.0, 0.0, 0.0, 0.0, 0.0, 0.0, 0.0, 0.0;
    ghost var sVV := 0.0;
    hide Mul;
    for i := 0 to |ws|
      invariant MomentsOf(ws[..i]) == Moments(i as real, sT, sP, sV, sTT, sPP, sTV, sPV, sTP, sVV)
    {
      var w := ws[i];
      assert ws[..i + 1][..i] == ws[..i];
      sT, sP, sV := sT + w.t, sP + w.p, sV + w.v;
      sTT, sPP := sTT + Mul(w.t, w.t), sPP + Mul(w.p, w.p);
      sTV, sPV, sTP := sTV + Mul(w.t, w.v), sPV + Mul(w.p, w.v), sTP + Mul(w.t, w.p);
      sVV := sVV + Mul(w.v, w.v);
    }
    assert ws[..|ws|] == ws;
    c := FitMoments(n, sT, sP, sV, sTT, sPP, sTV, sPV, sTP, sVV);
  }

  method FitMoments(n: real, sT: real, sP: real, sV: real, sTT: real, sPP: real, sTV: real, sPV: real, sTP: real, ghost sVV: real)
    returns (c: Coefficients)
    requires n > 0.0
    ensures c == Solve(SpreadOf(Moments(n, sT, sP, sV, sTT, sPP, sTV, sPV, sTP, sVV)))
  {
    hide Mul, Quotient;
    var mT, mP, mV := Quotient(sT, n), Quotient(sP, n), Quotient(sV, n);
    var vT, vP := Quotient(sTT, n) - Mul(mT, mT), Quotient(sPP, n) - Mul(mP, mP);
    var cTV, cPV, cTP := Quotient(sTV, n) - Mul(mT, mV), Quotient(sPV, n) - Mul(mP, mV), Quotient(sTP, n) - Mul(mT, mP);
    ghost var s := SpreadOf(Moments(n, sT, sP, sV, sTT, sPP, sTV, sPV, sTP, sVV));
    assert s == Spread(mT, mP, mV, vT, vP, s.vV, cTV, cPV, cTP);
    c := SolveSpread(mT, mP, mV, vT, vP, s.vV, cTV, cPV, cTP);
  }

  method SolveSpread(mT: real, mP: real, mV: real, vT: real, vP: real, ghost vV: real, cTV: real, cPV: real, cTP: real)
    returns (c: Coefficients)
    ensures c == Solve(Spread(mT, mP, mV, vT, vP, vV, cTV, cPV, cTP))
  {
    hide Mul, Quotient;
    var denom := Mul(vT, vP) - Mul(cTP, cTP);
    var bT, bP := 0.0, 0.0;
    if denom > DENOM_CUTOFF || -denom > DENOM_CUTOFF {
      bT := Quotient(Mul(cTV, vP) - Mul(cPV, cTP), denom);
      bP := Quotient(Mul(cPV, vT) - Mul(cTV, cTP), denom);
    }
    c := Coefficients(bT, bP, mV - Mul(bT, mT) - Mul(bP, mP));
  }

  // ---- Squared error ----

  function Predict(c: Coefficients, t: real, p: real): real {
    Mul(c.tempSlope, t) + Mul(c.precipSlope, p) + c.intercept
  }

  function Error(ws: seq<Sample>, c: Coefficients): (e: real)
    ensures e >= 0.0
  {
    if ws == [] then 0.0
    else
      var w := ws[|ws| - 1];
      SqSign(w.v - Predict(c, w.t, w.p));
      Error(ws[..|ws| - 1], c) + Sq(w.v - Predict(c, w.t, w.p))
  }

  ghost predicate LeastSquares(ws: seq<Sample>, c: Coefficients) {
    forall d :: Error(ws, c) <= Error(ws, d)
  }

  /** The squared error of slopes a, b and intercept k, as a polynomial in the moments. */
  function ErrorForm(n: real, t: real, p: real, v: real, tt: real, pp: real, tv: real, pv: real, tp: real, vv: real,
                     a: real, b: real, k: real): real {
    vv - 2.0 * Combo(a, b, k, tv, pv, v)
    + Combo(a, b, k, Combo(a, b, k, tt, tp, t), Combo(a, b, k, tp, pp, p), Combo(a, b, k, t, p, n))
  }

  function Combo(a: real, b: real, k: real, x: real, y: real, z: real): real {
    a * x + b * y + k * z
  }

  lemma ComboAdds(a: real, b: real, k: real, x: real, y: real, z: real, x': real, y': real, z': real)
    ensures Combo(a, b, k, x + x', y + y', z + z') == Combo(a, b, k, x, y, z) + Combo(a, b, k, x', y', z')
  {
  }

  lemma ComboScales(n: real, a: real, b: real, k: real, x: real, y: real, z: real)
    ensures Combo(a, b, k, Mul(n, x), Mul(n, y), Mul(n, z)) == Mul(n, Combo(a, b, k, x, y, z))
  {
    assert n * (a * x + b * y + k * z) == a * (n * x) + b * (n * y) + k * (n * z);
  }

  function ErrorPoly(m: Moments, c: Coefficients): real {
    ErrorForm(m.n, m.t, m.p, m.v, m.tt, m.pp, m.tv, m.pv, m.tp, m.vv, c.tempSlope, c.precipSlope, c.intercept)
  }

  lemma ErrorFormStep(n: real, t: real, p: real, v: real, tt: real, pp: real, tv: real, pv: real, tp: real, vv: real,
                      a: real, b: real, k: real, u: real, r: real, z: real)
    ensures ErrorForm(n + 1.0, t + u, p + r, v + z, tt + Sq(u), pp + Sq(r), tv + Mul(u, z), pv + Mul(r, z), tp + Mul(u, r),
                      vv + Sq(z), a, b, k)
         == ErrorForm(n, t, p, v, tt, pp, tv, pv, tp, vv, a, b, k) + Sq(z - (Mul(a, u) + Mul(b, r) + k))
  {
    ErrorFormAdds(n, t, p, v, tt, pp, tv, pv, tp, vv, u, r, z, Sq(u), Sq(r), Mul(u, z), Mul(r, z), Mul(u, r), Sq(z), a, b, k);
    ErrorOfOne(u, r, z, a, b, k);
    hide ErrorForm, Mul, Sq;
  }

  /** The error polynomial is additive in the moments. */
  lemma ErrorFormAdds(n: real, t: real, p: real, v: real, tt: real, pp: real, tv: real, pv: real, tp: real, vv: real,
                      u: real, r: real, z: real, uu: real, rr: real, uz: real, rz: real, ur: real, zz: real,
                      a: real, b: real, k: real)
    ensures ErrorForm(n + 1.0, t + u, p + r, v + z, tt + uu, pp + rr, tv + uz, pv + rz, tp + ur, vv + zz, a, b, k)
         == ErrorForm(n, t, p, v, tt, pp, tv, pv, tp, vv, a, b, k) + ErrorForm(1.0, u, r, z, uu, rr, uz, rz, ur, zz, a, b, k)
  {
    hide Combo;
    ComboAdds(a, b, k, tv, pv, v, uz, rz, z);
    ComboAdds(a, b, k, tt, tp, t, uu, ur, u);
    ComboAdds(a, b, k, tp, pp, p, ur, rr, r);
    ComboAdds(a, b, k, t, p, n, u, r, 1.0);
    ComboAdds(a, b, k, Combo(a, b, k, tt, tp, t), Combo(a, b, k, tp, pp, p), Combo(a, b, k, t, p, n),
              Combo(a, b, k, uu, ur, u), Combo(a, b, k, ur, rr, r), Combo(a, b, k, u, r, 1.0));
  }

  /** On one sample it is the squared miss. */
  lemma ErrorOfOne(u: real, r: real, z: real, a: real, b: real, k: real)
    ensures ErrorForm(1.0, u, r, z, Sq(u), Sq(r), Mul(u, z), Mul(r, z), Mul(u, r), Sq(z), a, b, k)
         == Sq(z - (Mul(a, u) + Mul(b, r) + k))
  {
    var guess := Combo(a, b, k, u, r, 1.0);
    ComboScales(u, a, b, k, u, r, 1.0);
    ComboScales(r, a, b, k, u, r, 1.0);
    ComboScales(z, a, b, k, u, r, 1.0);
    ComboScales(guess, a, b, k, u, r, 1.0);
    ByOne(a, b, k, u, r, z, guess);
    SquareOfDifference(z, guess);
    hide Mul, Combo;
  }

  lemma ByOne(a: real, b: real, k: real, u: real, r: real, z: real, guess: real)
    ensures Mul(u, 1.0) == u && Mul(r, 1.0) == r && Mul(z, 1.0) == z && Mul(guess, 1.0) == guess
    ensures Mul(z, u) == Mul(u, z) && Mul(z, r) == Mul(r, z) && Mul(r, u) == Mul(u, r)
    ensures Mul(guess, u) == Mul(u, guess) && Mul(guess, r) == Mul(r, guess)
    ensures Combo(a, b, k, u, r, 1.0) == Mul(a, u) + Mul(b, r) + k
  {
  }

  lemma SquareOfDifference(z: real, guess: real)
    ensures Sq(z - guess) == Sq(z) - 2.0 * Mul(z, guess) + Sq(guess)
  {
  }

  lemma {:induction false} ErrorIsPoly(ws: seq<Sample>, c: Coefficients)
    ensures Error(ws, c) == ErrorPoly(MomentsOf(ws), c)
  {
    if ws != [] {
      hide Mul, ErrorForm;
      var m, w := MomentsOf(ws[..|ws| - 1]), ws[|ws| - 1];
      ErrorIsPoly(ws[..|ws| - 1], c);
      ErrorFormStep(m.n, m.t, m.p, m.v, m.tt, m.pp, m.tv, m.pv, m.tp, m.vv, c.tempSlope, c.precipSlope, c.intercept,
                    w.t, w.p, w.v);
    }
  }

  // ---- Error = n (variance + gain + squared bias) ----

  /** The variance of x*t + y*p. */
  function Variance(s: Spread, x: real, y: real): real {
    x * (x * s.vT + y * s.cTP) + y * (x * s.cTP + y * s.vP)
  }

  /** How slopes x, y change the mean squared error of a fit through the means. */
  function Gain(s: Spread, x: real, y: real): real {
    Variance(s, x, y) - 2.0 * (x * s.cTV + y * s.cPV)
  }

  /** How far the prediction at the mean weather is from the mean consumption. */
  function Bias(s: Spread, c: Coefficients): real {
    s.mV - Predict(c, s.mT, s.mP)
  }

  function MeanError(s: Spread, c: Coefficients): real {
    s.vV + Gain(s, c.tempSlope, c.precipSlope) + Sq(Bias(s, c))
  }

  function Shift(ws: seq<Sample>, o: Sample): seq<Sample> {
    if ws == [] then []
    else
      var w := ws[|ws| - 1];
      Shift(ws[..|ws| - 1], o) + [Sample(w.t - o.t, w.p - o.p, w.v - o.v)]
  }

  /** The sum of (x - ox)(y - oy), from the sums of x, y and xy. */
  function ShiftedSum(n: real, sx: real, sy: real, sxy: real, ox: real, oy: real): real {
    sxy - ox * sy - oy * sx + n * (ox * oy)
  }

  lemma ShiftedSumStep(n: real, sx: real, sy: real, sxy: real, ox: real, oy: real, x: real, y: real)
    ensures ShiftedSum(n + 1.0, sx + x, sy + y, sxy + Mul(x, y), ox, oy)
         == ShiftedSum(n, sx, sy, sxy, ox, oy) + Mul(x - ox, y - oy)
  {
  }

  lemma NothingShifted(ox: real, oy: real)
    ensures ShiftedSum(0.0, 0.0, 0.0, 0.0, ox, oy) == 0.0 && Mul(0.0, ox) == 0.0
  {
  }

  function ShiftedMoments(m: Moments, o: Sample): Moments {
    Moments(m.n, m.t - Mul(m.n, o.t), m.p - Mul(m.n, o.p), m.v - Mul(m.n, o.v),
            ShiftedSum(m.n, m.t, m.t, m.tt, o.t, o.t), ShiftedSum(m.n, m.p, m.p, m.pp, o.p, o.p),
            ShiftedSum(m.n, m.t, m.v, m.tv, o.t, o.v), ShiftedSum(m.n, m.p, m.v, m.pv, o.p, o.v),
            ShiftedSum(m.n, m.t, m.p, m.tp, o.t, o.p), ShiftedSum(m.n, m.v, m.v, m.vv, o.v, o.v))
  }

  lemma MulSuccessor(n: real, x: real)
    ensures Mul(n + 1.0, x) == Mul(n, x) + x
  {
  }

  lemma ShiftStep(m: Moments, w: Sample, o: Sample)
    ensures ShiftedMoments(AddSample(m, w), o)
         == AddSample(ShiftedMoments(m, o), Sample(w.t - o.t, w.p - o.p, w.v - o.v))
  {
    ShiftedSumStep(m.n, m.t, m.t, m.tt, o.t, o.t, w.t, w.t);
    ShiftedSumStep(m.n, m.p, m.p, m.pp, o.p, o.p, w.p, w.p);
    ShiftedSumStep(m.n, m.v, m.v, m.vv, o.v, o.v, w.v, w.v);
    ShiftedSumStep(m.n, m.t, m.v, m.tv, o.t, o.v, w.t, w.v);
    ShiftedSumStep(m.n, m.p, m.v, m.pv, o.p, o.v, w.p, w.v);
    ShiftedSumStep(m.n, m.t, m.p, m.tp, o.t, o.p, w.t, w.p);
    MulSuccessor(m.n, o.t);
    MulSuccessor(m.n, o.p);
    MulSuccessor(m.n, o.v);
    hide Mul, ShiftedSum;
  }

  lemma {:induction false} MomentsOfShift(ws: seq<Sample>, o: Sample)
    ensures MomentsOf(Shift(ws, o)) == ShiftedMoments(MomentsOf(ws), o)
  {
    if ws == [] {
      NothingShifted(o.t, o.t);
      NothingShifted(o.p, o.p);
      NothingShifted(o.v, o.v);
      NothingShifted(o.t, o.v);
      NothingShifted(o.p, o.v);
      NothingShifted(o.t, o.p);
      hide Mul, ShiftedSum;
    } else {
      hide ShiftedMoments, AddSample;
      var moved := Shift(ws, o);
      MomentsOfShift(ws[..|ws| - 1], o);
      assert moved[..|moved| - 1] == Shift(ws[..|ws| - 1], o);
      ShiftStep(MomentsOf(ws[..|ws| - 1]), ws[|ws| - 1], o);
    }
  }

  lemma ShiftedSumAboutMeans(n: real, sx: real, sy: real, sxy: real)
    requires n > 0.0
    ensures ShiftedSum(n, sx, sy, sxy, Quotient(sx, n), Quotient(sy, n)) == Mul(n, Quotient(sxy, n) - Mul(Quotient(sx, n), Quotient(sy, n)))
  {
  }

  lemma ErrorFormAboutMeans(n: real, s: Spread, c: Coefficients)
    ensures ErrorForm(n, 0.0, 0.0, 0.0, Mul(n, s.vT), Mul(n, s.vP), Mul(n, s.cTV), Mul(n, s.cPV), Mul(n, s.cTP), Mul(n, s.vV),
                      c.tempSlope, c.precipSlope, -Bias(s, c))
         == Mul(n, MeanError(s, c))
  {
    var a, b, k := c.tempSlope, c.precipSlope, -Bias(s, c);
    ErrorFormScales(n, 0.0, 0.0, 0.0, s.vT, s.vP, s.cTV, s.cPV, s.cTP, s.vV, a, b, k);
    assert Mul(n, 0.0) == 0.0 && Mul(n, 1.0) == n;
    CentredForm(s, c);
    hide Bias, ErrorForm, Mul, MeanError;
  }

  lemma ErrorFormScales(n: real, t: real, p: real, v: real, tt: real, pp: real, tv: real, pv: real, tp: real, vv: real,
                        a: real, b: real, k: real)
    ensures ErrorForm(Mul(n, 1.0), Mul(n, t), Mul(n, p), Mul(n, v), Mul(n, tt), Mul(n, pp), Mul(n, tv), Mul(n, pv), Mul(n, tp),
                      Mul(n, vv), a, b, k)
         == Mul(n, ErrorForm(1.0, t, p, v, tt, pp, tv, pv, tp, vv, a, b, k))
  {
    var x, y, z, q := Combo(a, b, k, tt, tp, t), Combo(a, b, k, tp, pp, p), Combo(a, b, k, t, p, 1.0), Combo(a, b, k, tv, pv, v);
    assert Mul(n, vv - 2.0 * q + Combo(a, b, k, x, y, z)) == Mul(n, vv) - 2.0 * Mul(n, q) + Mul(n, Combo(a, b, k, x, y, z)) by {
      hide Combo;
    }
    hide Combo, Mul;
    ComboScales(n, a, b, k, tv, pv, v);
    ComboScales(n, a, b, k, tt, tp, t);
    ComboScales(n, a, b, k, tp, pp, p);
    ComboScales(n, a, b, k, t, p, 1.0);
    ComboScales(n, a, b, k, x, y, z);
  }

  lemma CentredForm(s: Spread, c: Coefficients)
    ensures ErrorForm(1.0, 0.0, 0.0, 0.0, s.vT, s.vP, s.cTV, s.cPV, s.cTP, s.vV, c.tempSlope, c.precipSlope, -Bias(s, c))
         == MeanError(s, c)
  {
    var a, b, h := c.tempSlope, c.precipSlope, Bias(s, c);
    hide Bias;
    assert Sq(h) == (-h) * (-h);
    hide Sq;
    assert Combo(a, b, -h, s.cTV, s.cPV, 0.0) == a * s.cTV + b * s.cPV;
    assert Combo(a, b, -h, s.vT, s.cTP, 0.0) == a * s.vT + b * s.cTP;
    assert Combo(a, b, -h, s.cTP, s.vP, 0.0) == a * s.cTP + b * s.vP;
    assert Combo(a, b, -h, 0.0, 0.0, 1.0) == -h;
  }

  lemma {:induction false} ErrorOfShift(ws: seq<Sample>, o: Sample, c: Coefficients)
    ensures Error(ws, c) == Error(Shift(ws, o), c.(intercept := Predict(c, o.t, o.p) - o.v))
  {
    if ws != [] {
      var w, moved := ws[|ws| - 1], Shift(ws, o);
      ErrorOfShift(ws[..|ws| - 1], o, c);
      assert moved[..|moved| - 1] == Shift(ws[..|ws| - 1], o);
      MulDistributes(c.tempSlope, w.t, o.t);
      MulDistributes(c.precipSlope, w.p, o.p);
      hide Mul;
    }
  }

  /** The squared error is n times variance plus gain plus squared bias. */
  lemma ErrorDecomposes(ws: seq<Sample>, c: Coefficients)
    requires ws != []
    ensures Error(ws, c) == Mul(|ws| as real, MeanError(SpreadOfSamples(ws), c))
  {
    hide Mul, Sq, Quotient, ErrorForm, ShiftedSum, MeanError, Error, Shift, MomentsOf;
    var m, s := MomentsOf(ws), SpreadOfSamples(ws);
    var o := Sample(s.mT, s.mP, s.mV);
    ErrorOfShift(ws, o, c);
    ErrorIsPoly(Shift(ws, o), c.(intercept := -Bias(s, c)));
    MomentsOfShift(ws, o);
    MulQuotient(m.n, m.t); MulQuotient(m.n, m.p); MulQuotient(m.n, m.v);
    ShiftedSumAboutMeans(m.n, m.t, m.t, m.tt);
    ShiftedSumAboutMeans(m.n, m.p, m.p, m.pp);
    ShiftedSumAboutMeans(m.n, m.v, m.v, m.vv);
    ShiftedSumAboutMeans(m.n, m.t, m.v, m.tv);
    ShiftedSumAboutMeans(m.n, m.p, m.v, m.pv);
    ShiftedSumAboutMeans(m.n, m.t, m.p, m.tp);
    ErrorFormAboutMeans(m.n, s, c);
  }

  // ---- Variances are never negative ----

  /** The same weather, with consumption replaced by the precipitation or by zero. */
  function Revalue(ws: seq<Sample>, keepP: bool): (r: seq<Sample>)
    ensures |r| == |ws| && forall i :: 0 <= i < |ws| ==> r[i] == Revalued(ws[i], keepP)
  {
    if ws == [] then [] else Revalue(ws[..|ws| - 1], keepP) + [Revalued(ws[|ws| - 1], keepP)]
  }

  function Revalued(w: Sample, keepP: bool): Sample {
    w.(v := if keepP then w.p else 0.0)
  }

  function RevaluedMoments(m: Moments, keepP: bool): Moments {
    if keepP then m.(v := m.p, tv := m.tp, pv := m.pp, vv := m.pp) else m.(v := 0.0, tv := 0.0, pv := 0.0, vv := 0.0)
  }

  lemma RevalueStep(m: Moments, w: Sample, keepP: bool)
    ensures RevaluedMoments(AddSample(m, w), keepP) == AddSample(RevaluedMoments(m, keepP), Revalued(w, keepP))
  {
    MulSign(w.t, 0.0);
    MulSign(w.p, 0.0);
    MulSign(0.0, 0.0);
    hide Mul;
  }

  lemma {:induction false} MomentsOfRevalue(ws: seq<Sample>, keepP: bool)
    ensures MomentsOf(Revalue(ws, keepP)) == RevaluedMoments(MomentsOf(ws), keepP)
  {
    if ws != [] {
      hide AddSample, Revalued, RevaluedMoments;
      var r := Revalue(ws, keepP);
      MomentsOfRevalue(ws[..|ws| - 1], keepP);
      assert r[..|r| - 1] == Revalue(ws[..|ws| - 1], keepP);
      RevalueStep(MomentsOf(ws[..|ws| - 1]), ws[|ws| - 1], keepP);
    }
  }

  lemma PositiveScale(n: real, x: real, y: real)
    requires n > 0.0
    ensures Mul(n, x) <= Mul(n, y) <==> x <= y
  {
    MulIsMonotone(n, x, y);
    MulIsMonotone(n, y, x);
    hide Mul;
  }

  lemma MeanErrorIsNonNegative(ws: seq<Sample>, c: Coefficients)
    requires ws != []
    ensures MeanError(SpreadOfSamples(ws), c) >= 0.0
  {
    ErrorDecomposes(ws, c);
    var n := |ws| as real;
    MulSign(n, 0.0);
    PositiveScale(n, 0.0, MeanError(SpreadOfSamples(ws), c));
    hide Mul, MeanError;
  }

  /** A fit through the means has no bias. */
  function ThroughMeans(s: Spread, x: real, y: real): (c: Coefficients)
    ensures c.tempSlope == x && c.precipSlope == y && Bias(s, c) == 0.0
  {
    Coefficients(x, y, s.mV - Mul(x, s.mT) - Mul(y, s.mP))
  }

  lemma MeanErrorThroughMeans(s: Spread, x: real, y: real)
    ensures MeanError(s, ThroughMeans(s, x, y)) == s.vV + Gain(s, x, y)
  {
    SqSign(0.0);
    hide Gain, Sq;
  }

  lemma VarianceIsNonNegative(ws: seq<Sample>, x: real, y: real)
    requires ws != []
    ensures Variance(SpreadOfSamples(ws), x, y) >= 0.0
  {
    var z := Revalue(ws, false);
    var s, sz := SpreadOfSamples(ws), SpreadOfSamples(z);
    SpreadWithoutConsumption(ws);
    MeanErrorIsNonNegative(z, ThroughMeans(sz, x, y));
    MeanErrorThroughMeans(sz, x, y);
    GainWithoutValue(sz, s, x, y);
  }

  lemma GainWithoutValue(sz: Spread, s: Spread, x: real, y: real)
    requires sz == Spread(s.mT, s.mP, 0.0, s.vT, s.vP, 0.0, 0.0, 0.0, s.cTP)
    ensures Gain(sz, x, y) == Variance(s, x, y)
  {
    assert x * 0.0 == 0.0 && y * 0.0 == 0.0;
    assert Variance(sz, x, y) == Variance(s, x, y);
    hide Variance;
  }

  /** A form that is never negative has a determinant that is never negative. */
  lemma FormDeterminant(s: Spread)
    requires forall x, y :: Variance(s, x, y) >= 0.0
    ensures Denominator(s) >= 0.0
  {
    var u, v, c := s.vT, s.vP, s.cTP;
    var k := if c == 0.0 then 0.0 else (u + 1.0) / c;
    assert Variance(s, 0.0, 1.0) == v;
    assert Variance(s, 1.0, -k) == u - 2.0 * (k * c) + k * k * v;
    assert Variance(s, 1.0, 0.0) == u;
    assert v == 0.0 ==> c == 0.0;
    assert Variance(s, v, -c) == v * (u * v - c * c);
    assert Denominator(s) == u * v - c * c;
  }

  /** Cauchy-Schwarz: the determinant the code divides by is never negative. */
  lemma DenominatorIsNonNegative(ws: seq<Sample>)
    requires ws != []
    ensures Denominator(SpreadOfSamples(ws)) >= 0.0
  {
    forall x, y ensures Variance(SpreadOfSamples(ws), x, y) >= 0.0 {
      VarianceIsNonNegative(ws, x, y);
    }
    FormDeterminant(SpreadOfSamples(ws));
  }

  // ---- What the fit achieves ----

  /** The normal equations for the slopes, about the means. */
  predicate SlopesSolve(s: Spread, a: real, b: real) {
    Mul(a, s.vT) + Mul(b, s.cTP) == s.cTV && Mul(a, s.cTP) + Mul(b, s.vP) == s.cPV
  }

  /** Cramer's rule for a symmetric two-by-two system. */
  lemma Cramer(d: real, u: real, w: real, z: real, g: real, h: real, a: real, b: real)
    requires d == Mul(u, w) - Sq(z) && d != 0.0
    requires a == Quotient(Mul(g, w) - Mul(h, z), d) && b == Quotient(Mul(h, u) - Mul(g, z), d)
    ensures Mul(a, u) + Mul(b, z) == g && Mul(a, z) + Mul(b, w) == h
  {
    assert d == u * w - z * z && a * d == g * w - h * z && b * d == h * u - g * z;
    assert d * (a * u + b * z) == u * (a * d) + z * (b * d) == d * g;
    assert d * (a * z + b * w) == z * (a * d) + w * (b * d) == d * h;
  }

  lemma SolvedSlopes(s: Spread)
    requires Solvable(s)
    ensures SlopesSolve(s, Solve(s).tempSlope, Solve(s).precipSlope)
  {
    hide Mul, Sq, Quotient;
    var c := Solve(s);
    Cramer(Denominator(s), s.vT, s.vP, s.cTP, s.cTV, s.cPV, c.tempSlope, c.precipSlope);
  }

  /** The three normal equations of ordinary least squares, on the accumulated sums. */
  predicate NormalEquations(m: Moments, c: Coefficients) {
    && Mul(c.tempSlope, m.t) + Mul(c.precipSlope, m.p) + Mul(c.intercept, m.n) == m.v
    && Mul(c.tempSlope, m.tt) + Mul(c.precipSlope, m.tp) + Mul(c.intercept, m.t) == m.tv
    && Mul(c.tempSlope, m.tp) + Mul(c.precipSlope, m.pp) + Mul(c.intercept, m.p) == m.pv
  }

  /** One normal equation: the regressor z against t, p and v, where z is t, p or the constant 1. */
  lemma NormalEquation(n: real, mZ: real, mT: real, mP: real, mV: real, cZT: real, cZP: real, cZV: real, a: real, b: real, k: real)
    requires Mul(a, cZT) + Mul(b, cZP) == cZV && Mul(a, mT) + Mul(b, mP) + k == mV
    ensures Mul(a, Mul(n, cZT + Mul(mZ, mT))) + Mul(b, Mul(n, cZP + Mul(mZ, mP))) + Mul(k, Mul(n, mZ)) == Mul(n, cZV + Mul(mZ, mV))
  {
    assert a * (n * (cZT + mZ * mT)) + b * (n * (cZP + mZ * mP)) + k * (n * mZ)
        == n * (a * cZT + b * cZP) + n * mZ * (a * mT + b * mP + k);
    assert n * (a * cZT + b * cZP) == n * cZV && n * mZ * (a * mT + b * mP + k) == n * mZ * mV;
    assert n * (cZV + mZ * mV) == n * cZV + n * mZ * mV;
  }

  lemma FitSatisfiesNormalEquations(ws: seq<Sample>)
    requires ws != [] && Solvable(SpreadOfSamples(ws))
    ensures NormalEquations(MomentsOf(ws), Fit(ws))
  {
    var m, s, c := MomentsOf(ws), SpreadOfSamples(ws), Fit(ws);
    SlopesAndIntercept(s);
    hide Mul, Quotient, Solvable, Solve, MomentsOf;
    MulQuotient(m.n, m.t); MulQuotient(m.n, m.p); MulQuotient(m.n, m.v);
    MulQuotient(m.n, m.tt); MulQuotient(m.n, m.tp); MulQuotient(m.n, m.pp); MulQuotient(m.n, m.tv); MulQuotient(m.n, m.pv);
    EquationOfMeans(m.n, s, c);
    NormalEquation(m.n, s.mT, s.mT, s.mP, s.mV, s.vT, s.cTP, s.cTV, c.tempSlope, c.precipSlope, c.intercept);
    MulCommutes(s.mT, s.mP);
    NormalEquation(m.n, s.mP, s.mT, s.mP, s.mV, s.cTP, s.vP, s.cPV, c.tempSlope, c.precipSlope, c.intercept);
  }

  /** The solution, in the form the normal equations need it. */
  lemma SlopesAndIntercept(s: Spread)
    requires Solvable(s)
    ensures var c := Solve(s);
            && Mul(c.tempSlope, s.vT) + Mul(c.precipSlope, s.cTP) == s.cTV
            && Mul(c.tempSlope, s.cTP) + Mul(c.precipSlope, s.vP) == s.cPV
            && Mul(c.tempSlope, s.mT) + Mul(c.precipSlope, s.mP) + c.intercept == s.mV
  {
    hide Mul, Denominator, Solvable, Quotient;
    SolvedSlopes(s);
  }

  lemma EquationOfMeans(n: real, s: Spread, c: Coefficients)
    requires Mul(c.tempSlope, s.mT) + Mul(c.precipSlope, s.mP) + c.intercept == s.mV
    ensures Mul(c.tempSlope, Mul(n, s.mT)) + Mul(c.precipSlope, Mul(n, s.mP)) + Mul(c.intercept, n) == Mul(n, s.mV)
  {
    var a, b, x, y := c.tempSlope, c.precipSlope, s.mT, s.mP;
    assert a * (n * x) + b * (n * y) + c.intercept * n == n * (a * x + b * y + c.intercept);
  }

  /** Pythagoras: away from the solved slopes the error grows by a variance. */
  lemma GainSplits(s: Spread, a: real, b: real, x: real, y: real)
    requires SlopesSolve(s, a, b)
    ensures Gain(s, x, y) == Gain(s, a, b) + Variance(s, x - a, y - b)
  {
    var u, v, c := s.vT, s.vP, s.cTP;
    assert x * s.cTV + y * s.cPV == x * (a * u + b * c) + y * (a * c + b * v);
    assert a * s.cTV + b * s.cPV == a * (a * u + b * c) + b * (a * c + b * v);
    assert x * (x * u + y * c) + y * (x * c + y * v) - 2.0 * (x * (a * u + b * c) + y * (a * c + b * v))
        == (x - a) * ((x - a) * u + (y - b) * c) + (y - b) * ((x - a) * c + (y - b) * v)
           - (a * (a * u + b * c) + b * (a * c + b * v));
  }

  lemma GainAtZero(s: Spread)
    ensures Gain(s, 0.0, 0.0) == 0.0
  {
  }

  /** Of all fits, those through the means with no improvable slopes are the least-squares ones. */
  lemma LeastSquaresIff(ws: seq<Sample>, x: real, y: real)
    requires ws != []
    ensures var s := SpreadOfSamples(ws);
            LeastSquares(ws, ThroughMeans(s, x, y)) <==> forall u, v :: Gain(s, x, y) <= Gain(s, u, v)
  {
    var s, n := SpreadOfSamples(ws), |ws| as real;
    var c := ThroughMeans(s, x, y);
    hide Gain, Mul, Quotient, SpreadOf, Sq;
    forall d: Coefficients ensures Error(ws, c) <= Error(ws, d) <==> s.vV + Gain(s, x, y) <= MeanError(s, d) {
      ErrorDecomposes(ws, c);
      ErrorDecomposes(ws, d);
      MeanErrorThroughMeans(s, x, y);
      PositiveScale(n, MeanError(s, c), MeanError(s, d));
    }
    forall u, v ensures MeanError(s, ThroughMeans(s, u, v)) == s.vV + Gain(s, u, v) {
      MeanErrorThroughMeans(s, u, v);
    }
    if LeastSquares(ws, c) {
      forall u, v ensures Gain(s, x, y) <= Gain(s, u, v) {
        assert Error(ws, c) <= Error(ws, ThroughMeans(s, u, v));
      }
    }
    if forall u, v :: Gain(s, x, y) <= Gain(s, u, v) {
      forall d: Coefficients ensures Error(ws, c) <= Error(ws, d) {
        assert Gain(s, x, y) <= Gain(s, d.tempSlope, d.precipSlope);
        SqSign(Bias(s, d));
      }
    }
  }

  lemma GainAlong(s: Spread, x: real, y: real, step: real)
    ensures Gain(s, Mul(step, x), Mul(step, y)) == Mul(step, Mul(step, Variance(s, x, y)) - 2.0 * (Mul(x, s.cTV) + Mul(y, s.cPV)))
  {
    var k, a, b := step, x * s.vT + y * s.cTP, x * s.cTP + y * s.vP;
    var x', y' := k * x, k * y;
    assert x' * s.vT + y' * s.cTP == k * a && x' * s.cTP + y' * s.vP == k * b;
    assert x' * (k * a) + y' * (k * b) == k * (k * (x * a + y * b));
    assert x' * s.cTV + y' * s.cPV == k * (x * s.cTV + y * s.cPV);
    assert Variance(s, x', y') == k * (k * Variance(s, x, y));
    hide Variance;
  }

  lemma StepDescends(g: real, q: real)
    requires g > 0.0 && q >= 0.0
    ensures Mul(Quotient(g, q + 1.0), Mul(Quotient(g, q + 1.0), q) - 2.0 * g) < 0.0
  {
    var step := Quotient(g, q + 1.0);
    MulQuotient(q + 1.0, g);
    MulSign(step, q + 1.0);
    MulSign(-step, q + 1.0);
    assert Mul(q + 1.0, step) == Mul(step, q) + step;
    MulSign(step, Mul(step, q) - 2.0 * g);
    assert step > 0.0;
    hide Mul;
  }

  /** When the covariances are not both zero, a small step along them beats zero slopes. */
  lemma CovarianceGivesGain(s: Spread)
    requires Variance(s, s.cTV, s.cPV) >= 0.0
    requires s.cTV != 0.0 || s.cPV != 0.0
    ensures exists x, y :: Gain(s, x, y) < 0.0
  {
    var g, q := Sq(s.cTV) + Sq(s.cPV), Variance(s, s.cTV, s.cPV);
    SqSign(s.cTV);
    SqSign(s.cPV);
    hide Gain, Variance, Mul, Quotient;
    var step := Quotient(g, q + 1.0);
    StepDescends(g, q);
    GainAlong(s, s.cTV, s.cPV, step);
    assert Gain(s, Mul(step, s.cTV), Mul(step, s.cPV)) < 0.0;
  }

  /** Exactly when the fit is ordinary least squares: the determinant clears the
      cutoff, or consumption is uncorrelated with both covariates. */
  lemma FitIsLeastSquaresIff(ws: seq<Sample>)
    requires ws != []
    ensures var s := SpreadOfSamples(ws);
            LeastSquares(ws, Fit(ws)) <==> Denominator(s) > 0.000_000_000_001 || (s.cTV == 0.0 && s.cPV == 0.0)
  {
    var s, c := SpreadOfSamples(ws), Fit(ws);
    DenominatorIsNonNegative(ws);
    LeastSquaresIff(ws, c.tempSlope, c.precipSlope);
    forall x, y ensures Variance(s, x, y) >= 0.0 {
      VarianceIsNonNegative(ws, x, y);
    }
    if Solvable(s) {
      SolvedSlopes(s);
      forall x, y ensures Gain(s, c.tempSlope, c.precipSlope) <= Gain(s, x, y) {
        GainSplits(s, c.tempSlope, c.precipSlope, x, y);
      }
    } else {
      GainAtZero(s);
      if s.cTV == 0.0 && s.cPV == 0.0 {
        forall x, y ensures Gain(s, x, y) >= 0.0 {
          UncorrelatedGain(s, x, y);
        }
      } else {
        CovarianceGivesGain(s);
      }
    }
  }

  lemma UncorrelatedGain(s: Spread, x: real, y: real)
    requires s.cTV == 0.0 && s.cPV == 0.0
    ensures Gain(s, x, y) == Variance(s, x, y)
  {
    assert x * 0.0 == 0.0 && y * 0.0 == 0.0;
    hide Variance;
  }

  /** Without a usable determinant the code falls back to the mean, which is the best constant. */
  lemma UnsolvableFitIsBestConstant(ws: seq<Sample>, k: real)
    requires ws != [] && !Solvable(SpreadOfSamples(ws))
    ensures Fit(ws) == Coefficients(0.0, 0.0, Quotient(MomentsOf(ws).v, |ws| as real))
    ensures Error(ws, Fit(ws)) <= Error(ws, Coefficients(0.0, 0.0, k))
  {
    var s, d := SpreadOfSamples(ws), Coefficients(0.0, 0.0, k);
    MulSign(0.0, s.mT);
    MulSign(0.0, s.mP);
    assert Fit(ws) == ThroughMeans(s, 0.0, 0.0);
    MeanErrorThroughMeans(s, 0.0, 0.0);
    SqSign(Bias(s, d));
    ErrorDecomposes(ws, Fit(ws));
    ErrorDecomposes(ws, d);
    PositiveScale(|ws| as real, MeanError(s, Fit(ws)), MeanError(s, d));
    hide Gain, Mul, Sq, SpreadOfSamples;
  }

  // ---- Exact data ----

  predicate OnPlane(ws: seq<Sample>, c: Coefficients) {
    forall i :: 0 <= i < |ws| ==> ws[i].v == Predict(c, ws[i].t, ws[i].p)
  }

  lemma {:induction false} NoErrorIffOnPlane(ws: seq<Sample>, c: Coefficients)
    ensures Error(ws, c) == 0.0 <==> OnPlane(ws, c)
  {
    if ws != [] {
      var before, w := ws[..|ws| - 1], ws[|ws| - 1];
      NoErrorIffOnPlane(before, c);
      SqSign(w.v - Predict(c, w.t, w.p));
      hide Sq, Predict;
      assert OnPlane(ws, c) <==> OnPlane(before, c) && w.v == Predict(c, w.t, w.p);
    }
  }

  lemma PlaneHasNoMeanError(ws: seq<Sample>, c: Coefficients)
    requires ws != [] && OnPlane(ws, c)
    ensures MeanError(SpreadOfSamples(ws), c) == 0.0
  {
    NoErrorIffOnPlane(ws, c);
    ErrorDecomposes(ws, c);
    MulSign(|ws| as real, MeanError(SpreadOfSamples(ws), c));
    MeanErrorIsNonNegative(ws, c);
    hide Mul, MeanError, Error, Predict;
  }

  lemma CompleteSquare(s: Spread, x: real, y: real)
    ensures Mul(s.vT, Variance(s, x, y)) == Sq(Mul(x, s.vT) + Mul(y, s.cTP)) + Mul(Denominator(s), Sq(y))
  {
    var u, v, c := s.vT, s.vP, s.cTP;
    var z := x * u + y * c;
    assert u * (x * z + y * (x * c + y * v)) == (z - y * c) * z + y * (c * (z - y * c) + y * (u * v));
    assert (z - y * c) * z + y * (c * (z - y * c) + y * (u * v)) == z * z + (u * v - c * c) * (y * y);
    hide Mul;
    assert Mul(u, Variance(s, x, y)) == u * Variance(s, x, y) by { AsProduct(u, Variance(s, x, y)); }
    AsProduct(x, u); AsProduct(y, c); AsProduct(z, z); AsProduct(u, v); AsProduct(c, c); AsProduct(y, y);
    AsProduct(Denominator(s), Sq(y));
  }

  lemma AsProduct(x: real, y: real)
    ensures Mul(x, y) == x * y
  {
  }

  /** With a positive determinant only the zero combination has no variance. */
  lemma VarianceIsDefinite(s: Spread, x: real, y: real)
    requires Denominator(s) > 0.0 && Variance(s, x, y) == 0.0
    ensures x == 0.0 && y == 0.0
  {
    var z := Mul(x, s.vT) + Mul(y, s.cTP);
    CompleteSquare(s, x, y);
    MulSign(s.vT, 0.0);
    SqSign(z);
    SqSign(y);
    SqSign(s.cTP);
    MulSign(Denominator(s), Sq(y));
    MulSign(s.vT, s.vP);
    MulSign(y, s.cTP);
    MulSign(x, s.vT);
    MulSign(-x, s.vT);
    assert Mul(-x, s.vT) == -Mul(x, s.vT);
    hide Mul, Variance, Sq;
  }

  /** Above the cutoff nothing else does as well: the fit is the only minimiser. */
  lemma FitIsTheOnlyLeastSquares(ws: seq<Sample>, d: Coefficients)
    requires ws != [] && Denominator(SpreadOfSamples(ws)) > DENOM_CUTOFF
    requires Error(ws, d) <= Error(ws, Fit(ws))
    ensures d == Fit(ws)
  {
    var s, f := SpreadOfSamples(ws), Fit(ws);
    var x, y := d.tempSlope - f.tempSlope, d.precipSlope - f.precipSlope;
    assert f == ThroughMeans(s, f.tempSlope, f.precipSlope);
    SolvedSlopes(s);
    hide Gain, Variance, Sq, Mul, SlopesSolve, SpreadOfSamples, Denominator, Error, Solve;
    ErrorDecomposes(ws, d);
    ErrorDecomposes(ws, f);
    PositiveScale(|ws| as real, MeanError(s, d), MeanError(s, f));
    MeanErrorThroughMeans(s, f.tempSlope, f.precipSlope);
    GainSplits(s, f.tempSlope, f.precipSlope, d.tempSlope, d.precipSlope);
    VarianceIsNonNegative(ws, x, y);
    SqSign(Bias(s, d));
    assert Variance(s, x, y) == 0.0 && Bias(s, d) == 0.0;
    VarianceIsDefinite(s, x, y);
  }

  /** Data on a plane is recovered exactly whenever the determinant clears the cutoff. */
  lemma PlaneIsRecovered(ws: seq<Sample>, c: Coefficients)
    requires ws != [] && Denominator(SpreadOfSamples(ws)) > DENOM_CUTOFF && OnPlane(ws, c)
    ensures Fit(ws) == c
  {
    NoErrorIffOnPlane(ws, c);
    FitIsTheOnlyLeastSquares(ws, c);
    hide Error, OnPlane, Fit, Denominator, SpreadOfSamples;
  }

  /** Constant consumption has no variance and no covariance, and the fit is that constant. */
  lemma ConstantDataFitsItsValue(ws: seq<Sample>, v: real)
    requires ws != [] && forall i :: 0 <= i < |ws| ==> ws[i].v == v
    ensures var s := SpreadOfSamples(ws); s.vV == 0.0 && s.cTV == 0.0 && s.cPV == 0.0
    ensures Fit(ws) == Coefficients(0.0, 0.0, v)
  {
    var s, c := SpreadOfSamples(ws), Coefficients(0.0, 0.0, v);
    forall t ensures Mul(0.0, t) == 0.0 {
      MulSign(0.0, t);
    }
    assert OnPlane(ws, c) by {
      hide Mul;
    }
    PlaneHasNoMeanError(ws, c);
    GainAtZero(s);
    SqSign(Bias(s, c));
    MeanErrorIsNonNegative(ws, ThroughMeans(s, 0.0, 0.0));
    MeanErrorThroughMeans(s, 0.0, 0.0);
    assert s.vV == 0.0 && s.mV == v by {
      hide Gain, Sq, Mul;
    }
    forall x, y ensures Gain(s, x, y) >= 0.0 {
      MeanErrorIsNonNegative(ws, ThroughMeans(s, x, y));
      MeanErrorThroughMeans(s, x, y);
      hide Gain, MeanError;
    }
    VarianceIsNonNegative(ws, s.cTV, s.cPV);
    if s.cTV != 0.0 || s.cPV != 0.0 {
      CovarianceGivesGain(s);
      assert false;
    }
    UncorrelatedSolution(s);
  }

  lemma UncorrelatedSolution(s: Spread)
    requires s.cTV == 0.0 && s.cPV == 0.0
    ensures Solve(s) == Coefficients(0.0, 0.0, s.mV)
  {
    MulSign(0.0, s.vP);
    MulSign(0.0, s.vT);
    MulSign(0.0, s.cTP);
    MulSign(0.0, s.mT);
    MulSign(0.0, s.mP);
    hide Mul;
  }

  // ---- Collinear weather ----

  /** The line x*t + y*p = k in the plane of temperature and precipitation. */
  predicate OnLine(ws: seq<Sample>, x: real, y: real, k: real) {
    (x != 0.0 || y != 0.0) && forall i :: 0 <= i < |ws| ==> Mul(x, ws[i].t) + Mul(y, ws[i].p) == k
  }

  ghost predicate Collinear(ws: seq<Sample>) {
    exists x, y, k :: OnLine(ws, x, y, k)
  }

  /** On the same weather with no consumption, the error of any slopes is n times a variance
      plus a squared bias. */
  lemma ErrorWithoutConsumption(ws: seq<Sample>, c: Coefficients)
    requires ws != []
    ensures var z := Revalue(ws, false);
            Error(z, c) == Mul(|ws| as real, Variance(SpreadOfSamples(ws), c.tempSlope, c.precipSlope) + Sq(Bias(SpreadOfSamples(z), c)))
  {
    hide Gain, Variance, Sq, Bias, Mul, Error, SpreadOfSamples, Revalue;
    var z := Revalue(ws, false);
    var s, sz := SpreadOfSamples(ws), SpreadOfSamples(z);
    SpreadWithoutConsumption(ws);
    GainWithoutValue(sz, s, c.tempSlope, c.precipSlope);
    ErrorDecomposes(z, c);
    assert MeanError(sz, c) == Variance(s, c.tempSlope, c.precipSlope) + Sq(Bias(sz, c));
  }

  lemma SpreadWithoutConsumption(ws: seq<Sample>)
    requires ws != []
    ensures var s := SpreadOfSamples(ws);
            SpreadOfSamples(Revalue(ws, false)) == Spread(s.mT, s.mP, 0.0, s.vT, s.vP, 0.0, 0.0, 0.0, s.cTP)
  {
    var s, m := SpreadOfSamples(ws), MomentsOf(ws);
    MomentsOfRevalue(ws, false);
    MulSign(s.mT, 0.0); MulSign(s.mP, 0.0); MulSign(0.0, 0.0);
    assert Quotient(0.0, m.n) == 0.0;
    hide Mul, Quotient, Revalue, MomentsOf;
  }

  /** A combination of the covariates has no variance exactly when it is constant. */
  lemma NoVarianceIffConstant(ws: seq<Sample>, x: real, y: real)
    requires ws != [] && (x != 0.0 || y != 0.0)
    ensures Variance(SpreadOfSamples(ws), x, y) == 0.0 <==> exists k :: OnLine(ws, x, y, k)
  {
    var z := Revalue(ws, false);
    var s, sz := SpreadOfSamples(ws), SpreadOfSamples(z);
    VarianceIsNonNegative(ws, x, y);
    SqSign(0.0);
    if Variance(s, x, y) == 0.0 {
      var c := ThroughMeans(sz, x, y);
      ErrorWithoutConsumption(ws, c);
      MulSign(|ws| as real, 0.0);
      NoErrorIffOnPlane(z, c);
      assert OnPlane(z, c) by { hide Error, OnPlane, Mul, Sq, Variance, Bias; }
      OnPlaneIsOnLine(ws, x, y, c.intercept);
      assert OnLine(ws, x, y, -c.intercept);
    }
    if k :| OnLine(ws, x, y, k) {
      var c := Coefficients(x, y, -k);
      OnPlaneIsOnLine(ws, x, y, -k);
      ErrorWithoutConsumption(ws, c);
      NoErrorIffOnPlane(z, c);
      SqSign(Bias(sz, c));
      MulSign(|ws| as real, Variance(s, x, y) + Sq(Bias(sz, c)));
      hide Error, OnPlane, Mul, Sq, Variance, Bias;
    }
  }

  lemma OnPlaneIsOnLine(ws: seq<Sample>, x: real, y: real, k: real)
    requires x != 0.0 || y != 0.0
    ensures OnPlane(Revalue(ws, false), Coefficients(x, y, k)) <==> OnLine(ws, x, y, -k)
  {
    var z, c := Revalue(ws, false), Coefficients(x, y, k);
    hide Mul;
    forall i | 0 <= i < |ws| ensures z[i].v == Predict(c, z[i].t, z[i].p) <==> Mul(x, ws[i].t) + Mul(y, ws[i].p) == -k {
      assert z[i] == Revalued(ws[i], false);
    }
  }

  /** A form with determinant zero vanishes in some direction. */
  lemma FlatDirection(s: Spread) returns (x: real, y: real)
    requires Denominator(s) == 0.0
    ensures (x != 0.0 || y != 0.0) && Variance(s, x, y) == 0.0
  {
    var u, v, c := s.vT, s.vP, s.cTP;
    if u == 0.0 {
      x, y := 1.0, 0.0;
      assert Variance(s, x, y) == u;
    } else {
      x, y := -c, u;
      assert Denominator(s) == u * v - c * c;
      assert Variance(s, x, y) == u * (u * v - c * c);
    }
  }

  /** The determinant is zero exactly when all weather samples lie on a line: both covariates
      constant, one of them constant, or one a linear function of the other. */
  lemma DenominatorVanishesIffCollinear(ws: seq<Sample>)
    requires ws != []
    ensures Denominator(SpreadOfSamples(ws)) == 0.0 <==> Collinear(ws)
  {
    var s := SpreadOfSamples(ws);
    DenominatorIsNonNegative(ws);
    hide Denominator, Variance, OnLine, SpreadOfSamples;
    if Denominator(s) == 0.0 {
      var x, y := FlatDirection(s);
      NoVarianceIffConstant(ws, x, y);
    }
    if Collinear(ws) {
      var x, y, k :| OnLine(ws, x, y, k);
      LinesHaveADirection(ws, x, y, k);
      NoVarianceIffConstant(ws, x, y);
      if Denominator(s) > 0.0 {
        VarianceIsDefinite(s, x, y);
        assert false;
      }
    }
  }

  lemma LinesHaveADirection(ws: seq<Sample>, x: real, y: real, k: real)
    requires OnLine(ws, x, y, k)
    ensures x != 0.0 || y != 0.0
  {
  }

  /** Collinear weather disables the model: both slopes are zero. */
  lemma CollinearWeatherDisablesModel(ws: seq<Sample>)
    requires ws != [] && Collinear(ws)
    ensures Denominator(SpreadOfSamples(ws)) == 0.0
    ensures Fit(ws) == Coefficients(0.0, 0.0, SpreadOfSamples(ws).mV)
  {
    var s := SpreadOfSamples(ws);
    DenominatorVanishesIffCollinear(ws);
    MulSign(0.0, s.mT);
    MulSign(0.0, s.mP);
    hide Mul, Denominator, Collinear, SpreadOfSamples;
  }

  lemma ConstantCovariateIsCollinear(ws: seq<Sample>)
    ensures (forall i, j :: 0 <= i < |ws| && 0 <= j < |ws| ==> ws[i].p == ws[j].p) ==> Collinear(ws)
    ensures (forall i, j :: 0 <= i < |ws| && 0 <= j < |ws| ==> ws[i].t == ws[j].t) ==> Collinear(ws)
  {
    if ws != [] {
      forall i | 0 <= i < |ws|
        ensures Mul(0.0, ws[i].t) + Mul(1.0, ws[i].p) == ws[i].p && Mul(1.0, ws[i].t) + Mul(0.0, ws[i].p) == ws[i].t
      {
      }
      hide Mul;
      if forall i, j :: 0 <= i < |ws| && 0 <= j < |ws| ==> ws[i].p == ws[j].p {
        assert OnLine(ws, 0.0, 1.0, ws[0].p);
      }
      if forall i, j :: 0 <= i < |ws| && 0 <= j < |ws| ==> ws[i].t == ws[j].t {
        assert OnLine(ws, 1.0, 0.0, ws[0].t);
      }
    } else {
      assert OnLine(ws, 1.0, 0.0, 0.0);
    }
  }

  /** With precipitation that never varies, a dry month say, the temperature slope is zero too. */
  lemma ConstantPrecipitationDisablesModel(ws: seq<Sample>, p: real)
    requires ws != [] && forall i :: 0 <= i < |ws| ==> ws[i].p == p
    ensures Denominator(SpreadOfSamples(ws)) == 0.0
    ensures Fit(ws) == Coefficients(0.0, 0.0, SpreadOfSamples(ws).mV)
  {
    ConstantCovariateIsCollinear(ws);
    CollinearWeatherDisablesModel(ws);
    hide Fit, Denominator, SpreadOfSamples;
  }

  /** So on collinear weather, unless consumption is constant, data exactly linear in the
      weather (an error of zero) gets zero slopes and a worse error. */
  lemma LinearDataOnCollinearWeatherIsNotFitted(ws: seq<Sample>, c: Coefficients, i: nat, j: nat)
    requires Collinear(ws) && OnPlane(ws, c) && i < |ws| && j < |ws| && ws[i].v != ws[j].v
    ensures Error(ws, c) == 0.0 && Fit(ws).tempSlope == 0.0 && Fit(ws).precipSlope == 0.0
    ensures !LeastSquares(ws, Fit(ws))
  {
    var fit := Fit(ws);
    CollinearWeatherDisablesModel(ws);
    NoErrorIffOnPlane(ws, c);
    NoErrorIffOnPlane(ws, fit);
    forall t ensures Mul(0.0, t) == 0.0 {
      MulSign(0.0, t);
    }
    hide Mul, Collinear;
    assert Predict(fit, ws[i].t, ws[i].p) == fit.intercept == Predict(fit, ws[j].t, ws[j].p);
  }

  lemma LinearDryDataIsNotFitted(ws: seq<Sample>, p: real, c: Coefficients, i: nat, j: nat)
    requires forall i :: 0 <= i < |ws| ==> ws[i].p == p
    requires OnPlane(ws, c) && i < |ws| && j < |ws| && ws[i].v != ws[j].v
    ensures Error(ws, c) == 0.0 && Fit(ws).tempSlope == 0.0 && Fit(ws).precipSlope == 0.0
    ensures !LeastSquares(ws, Fit(ws))
  {
    ConstantCovariateIsCollinear(ws);
    LinearDataOnCollinearWeatherIsNotFitted(ws, c, i, j);
    hide Fit, Error, OnPlane, Collinear;
  }

  lemma DryWeekIsNotFitted()
    ensures var ws := [Sample(10.0, 0.0, 10.0), Sample(11.0, 0.0, 11.0), Sample(12.0, 0.0, 12.0),
                       Sample(13.0, 0.0, 13.0), Sample(14.0, 0.0, 14.0)];
            !LeastSquares(ws, Fit(ws))
  {
    var ws := [Sample(10.0, 0.0, 10.0), Sample(11.0, 0.0, 11.0), Sample(12.0, 0.0, 12.0),
               Sample(13.0, 0.0, 13.0), Sample(14.0, 0.0, 14.0)];
    LinearDryDataIsNotFitted(ws, 0.0, Coefficients(1.0, 0.0, 0.0), 0, 1);
  }
}
