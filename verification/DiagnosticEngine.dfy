/** The streaming diagnostic engine: ingest, weather fit, analysis. */
module DiagnosticEngine {
  import opened Common
  import opened Readings
  import opened OrderStatistics
  import opened SlidingWindow
  import Products
  import opened ProbableCauses
  import Decomposition
  import WeatherModel

  const PCT_CUTOFF := 0.000_000_000_1

  datatype Report = Report(
    meterId: string,
    timestamp: Timestamp,
    expectedVolume: real,
    actualVolume: real,
    deviation: real,
    deviationPct: real,
    seasonalFactor: real,
    weatherAdjustment: real,
    trendComponent: real,
    residual: real,
    dynamicThreshold: real,
    anomalyDetected: bool,
    probableCause: Option<ProbableCause>,
    historicalBaseline: real)

  type Models = map<string, WeatherModel.Coefficients>

  function ValuesOf(readings: seq<Reading>): (v: seq<real>)
    ensures |v| == |readings|
  {
    seq(|readings|, i requires 0 <= i < |readings| => readings[i].value)
  }

  function MonthsOf(readings: seq<Reading>): (m: seq<Month>)
    ensures |m| == |readings|
  {
    seq(|readings|, i requires 0 <= i < |readings| => readings[i].timestamp.month0)
  }

  function WeatherAdjustment(models: Models, meterId: string, reading: Reading): real {
    if reading.weather.Some? && meterId in models
    then WeatherModel.Predict(models[meterId], reading.weather.value.temperatureC, reading.weather.value.precipitationMm)
    else 0.0
  }

  /** The residuals the threshold is computed from: all but the newest window. */
  function PastResiduals(residuals: seq<real>): seq<real> {
    residuals[..SatSub(|residuals|, Decomposition.WindowSize(|residuals|))]
  }

  function Percentage(deviation: real, expected: real): real {
    if Abs(expected) > PCT_CUTOFF then deviation / expected * 100.0 else 0.0
  }

  /** Trend times season, plus the weather term. */
  function Expected(trend: real, seasonal: real, weather: real): real {
    trend * seasonal + weather
  }

  function ReportOf(meterId: string, readings: seq<Reading>, models: Models): Report
    requires readings != []
  {
    var last := |readings| - 1;
    var latest, values := readings[last], ValuesOf(readings);
    var d := Decomposition.Decompose(values, MonthsOf(readings));
    Assembled(meterId, latest, values, d.residuals, d.trend[last], d.seasonal[last],
              WeatherAdjustment(models, meterId, latest), P95Threshold(PastResiduals(d.residuals)))
  }

  /** The figures of a report, from the latest reading and what the stages computed for it. */
  function Assembled(meterId: string, latest: Reading, values: seq<real>, residuals: seq<real>, trend: real, seasonal: real,
                     weather: real, threshold: real): Report
    requires values != [] && residuals != []
  {
    var expected := Expected(trend, seasonal, weather);
    var deviation := latest.value - expected;
    var deviationPct := Percentage(deviation, expected);
    var cause := if Abs(deviation) > threshold
                 then Some(Classify(values, residuals, deviation, deviationPct, seasonal)) else None;
    Report(meterId, latest.timestamp, expected, latest.value, deviation, deviationPct, seasonal, weather, trend,
           residuals[|residuals| - 1], threshold, Abs(deviation) > threshold, cause, Decomposition.Mean(values))
  }

  function Analysis(windows: Windows, models: Models, meterId: string): Option<Report> {
    if meterId in windows && windows[meterId] != [] then Some(ReportOf(meterId, windows[meterId], models)) else None
  }

  /** The models after `fit_weather_model`: refitted only with five weather readings in the window. */
  function Refit(windows: Windows, models: Models, meterId: string): Models {
    if meterId in windows && |WeatherModel.SamplesOf(windows[meterId])| >= WeatherModel.MIN_SAMPLES
    then models[meterId := WeatherModel.Fit(WeatherModel.SamplesOf(windows[meterId]))]
    else models
  }

  function Diagnosis(windows: Windows, models: Models, meterId: string): Option<Report> {
    Analysis(windows, Refit(windows, models, meterId), meterId)
  }

  class DiagnosticEngine {
    var meterReadings: Windows
    var weatherCoefficients: Models
    const historyWindowDays: int

    constructor (historyDays: int)
      ensures meterReadings == map[] && weatherCoefficients == map[] && historyWindowDays == historyDays
    {
      meterReadings, weatherCoefficients, historyWindowDays := map[], map[], historyDays;
    }

    method IngestReading(meterId: string, reading: Reading, now: int)
      modifies this`meterReadings
      ensures meterReadings == IngestInto(old(meterReadings), historyWindowDays, Ingest(meterId, reading, now))
    {
      var readings := WindowOf(meterReadings, meterId);
      var cutoff := now - historyWindowDays * NANOS_PER_DAY;
      while readings != [] && readings[0].timestamp.nanos < cutoff
        invariant PruneFront(readings, cutoff) == PruneFront(WindowOf(old(meterReadings), meterId), cutoff)
        invariant meterReadings == old(meterReadings)
        decreases |readings|
      {
        readings := readings[1..];
      }
      meterReadings := meterReadings[meterId := readings + [reading]];
    }

    method ComputeWeatherAdjustment(meterId: string, reading: Reading) returns (adjustment: real)
      ensures adjustment == WeatherAdjustment(weatherCoefficients, meterId, reading)
    {
      if reading.weather.None? || meterId !in weatherCoefficients {
        return 0.0;
      }
      var c, w := weatherCoefficients[meterId], reading.weather.value;
      adjustment := c.tempSlope * w.temperatureC + c.precipSlope * w.precipitationMm + c.intercept;
    }

    method FitWeatherModel(meterId: string)
      modifies this`weatherCoefficients
      ensures weatherCoefficients == Refit(meterReadings, old(weatherCoefficients), meterId)
    {
      if meterId !in meterReadings || |meterReadings[meterId]| < WeatherModel.MIN_SAMPLES {
        if meterId in meterReadings {
          var _ := WeatherModel.SamplesAreReadings(meterReadings[meterId]);
        }
        return;
      }
      var samples := WeatherModel.SamplesOf(meterReadings[meterId]);
      if |samples| < WeatherModel.MIN_SAMPLES {
        return;
      }
      var fitted := WeatherModel.FitSamples(samples);
      weatherCoefficients := weatherCoefficients[meterId := fitted];
    }

    method Analyze(meterId: string) returns (report: Option<Report>)
      ensures report == Analysis(meterReadings, weatherCoefficients, meterId)
    {
      if meterId !in meterReadings || meterReadings[meterId] == [] {
        return None;
      }
      hide Decomposition.Decompose, P95Threshold, WeatherAdjustment, Decomposition.Mean, Decomposition.WindowSize,
           Assembled, ValuesOf, MonthsOf, SatSub;
      var readings := meterReadings[meterId];
      var last := |readings| - 1;
      var latest, values := readings[last], ValuesOf(readings);

      var d := Decomposition.StlDecompose(values, MonthsOf(readings));
      var weatherAdjustment := ComputeWeatherAdjustment(meterId, latest);
      var seasonalFactor := d.seasonal[last];

      var nResid := |d.residuals|;
      var window := Decomposition.WindowSize(nResid);
      var dynamicThreshold := ComputeP95Threshold(d.residuals[..SatSub(nResid, window)]);

      report := Some(Assembled(meterId, latest, values, d.residuals, d.trend[last], seasonalFactor, weatherAdjustment,
                               dynamicThreshold));
    }

    method GetDiagnostics(meterId: string) returns (report: Option<Report>)
      modifies this`weatherCoefficients
      ensures weatherCoefficients == Refit(meterReadings, old(weatherCoefficients), meterId)
      ensures report == Diagnosis(meterReadings, old(weatherCoefficients), meterId)
    {
      FitWeatherModel(meterId);
      report := Analyze(meterId);
    }
  }

  // ---- Reports ----

  /** In every report the deviation is the residual less the weather adjustment. */
  lemma DeviationIsResidualLessWeather(meterId: string, readings: seq<Reading>, models: Models)
    requires readings != []
    ensures var r := ReportOf(meterId, readings, models);
            && r.deviation == r.residual - r.weatherAdjustment
            && r.actualVolume == r.trendComponent * r.seasonalFactor + r.residual
  {
    hide P95Threshold, WeatherAdjustment, Decomposition.Decompose;
    Decomposition.Reconstructs(ValuesOf(readings), MonthsOf(readings), |readings| - 1);
  }

  /** Up to seven readings the threshold is the default; from eight on it is the least
      value of at least 1 covering 95% of all residuals but the newest seven. */
  lemma ThresholdHistory(meterId: string, readings: seq<Reading>, models: Models)
    requires readings != []
    ensures var r := ReportOf(meterId, readings, models);
            if |readings| <= 7 then r.dynamicThreshold == 50.0
            else
              var past := Decomposition.Decompose(ValuesOf(readings), MonthsOf(readings)).residuals[..|readings| - 7];
              past != [] && Covers(past, r.dynamicThreshold) && forall t :: Covers(past, t) ==> r.dynamicThreshold <= t
  {
    hide WeatherAdjustment, Decomposition.Decompose, Covers;
    var residuals := Decomposition.Decompose(ValuesOf(readings), MonthsOf(readings)).residuals;
    if |readings| > 7 {
      hide P95Threshold;
      var past := residuals[..|readings| - 7];
      forall t ensures Covers(past, t) <==> t >= P95Threshold(past) {
        P95IsLeastCover(past, t);
      }
    }
  }

  /** All consumption of some readings. */
  function Consumption(readings: seq<Reading>): real {
    if readings == [] then 0.0 else Consumption(readings[..|readings| - 1]) + readings[|readings| - 1].value
  }

  lemma {:induction false} SumOfValues(readings: seq<Reading>)
    ensures Decomposition.Sum(ValuesOf(readings)) == Consumption(readings)
  {
    if readings != [] {
      var n := |readings| - 1;
      SumOfValues(readings[..n]);
      assert ValuesOf(readings)[..n] == ValuesOf(readings[..n]);
    }
  }

  /** The figures of a report, from the readings and the meter's model: the latest reading, the
      mean of the last seven or fewer, the mean of all, the weather term, and what follows. */
  lemma FiguresOfReport(meterId: string, readings: seq<Reading>, models: Models)
    requires readings != []
    ensures var r, n, latest := ReportOf(meterId, readings, models), |readings|, readings[|readings| - 1];
            && r.meterId == meterId && r.timestamp == latest.timestamp && r.actualVolume == latest.value
            && r.expectedVolume == Products.Mul(r.trendComponent, r.seasonalFactor) + r.weatherAdjustment
            && r.deviation == r.actualVolume - r.expectedVolume
            && (r.anomalyDetected <==> r.deviation > r.dynamicThreshold || -r.deviation > r.dynamicThreshold)
            && (if r.expectedVolume > 0.000_000_000_1 || r.expectedVolume < -0.000_000_000_1
                then Products.Mul(r.deviationPct, r.expectedVolume) == 100.0 * r.deviation else r.deviationPct == 0.0)
            && Products.Mul(n as real, r.historicalBaseline) == Consumption(readings)
            && Products.Mul(Min(n, 7) as real, r.trendComponent) == Consumption(readings[if n < 7 then 0 else n - 7..])
            && r.weatherAdjustment
               == (if latest.weather.Some? && meterId in models
                   then Products.Mul(models[meterId].tempSlope, latest.weather.value.temperatureC)
                        + Products.Mul(models[meterId].precipSlope, latest.weather.value.precipitationMm) + models[meterId].intercept
                   else 0.0)
  {
    hide ReportOf, WeatherAdjustment, Percentage, Products.Mul, Consumption;
    var r := ReportOf(meterId, readings, models);
    PartsOfReport(meterId, readings, models);
    MeansOfReport(meterId, readings, models);
    PercentageMeans(r.deviation, r.expectedVolume);
    PredictionMeans(models, meterId, readings[|readings| - 1]);
  }

  lemma PartsOfReport(meterId: string, readings: seq<Reading>, models: Models)
    requires readings != []
    ensures var r, latest := ReportOf(meterId, readings, models), readings[|readings| - 1];
            && r.meterId == meterId && r.timestamp == latest.timestamp && r.actualVolume == latest.value
            && r.expectedVolume == Products.Mul(r.trendComponent, r.seasonalFactor) + r.weatherAdjustment
            && r.deviation == r.actualVolume - r.expectedVolume
            && r.deviationPct == Percentage(r.deviation, r.expectedVolume)
            && (r.anomalyDetected <==> r.deviation > r.dynamicThreshold || -r.deviation > r.dynamicThreshold)
            && r.weatherAdjustment == WeatherAdjustment(models, meterId, latest)
            && r.historicalBaseline == Decomposition.Mean(ValuesOf(readings))
            && r.trendComponent == Decomposition.Decompose(ValuesOf(readings), MonthsOf(readings)).trend[|readings| - 1]
  {
    hide P95Threshold, WeatherAdjustment, Decomposition.Decompose, Classify, Percentage, Decomposition.Mean, ValuesOf, MonthsOf,
         PastResiduals;
  }

  lemma MeansOfReport(meterId: string, readings: seq<Reading>, models: Models)
    requires readings != []
    ensures var r, n := ReportOf(meterId, readings, models), |readings|;
            && Products.Mul(n as real, r.historicalBaseline) == Consumption(readings)
            && Products.Mul(Min(n, 7) as real, r.trendComponent) == Consumption(readings[if n < 7 then 0 else n - 7..])
  {
    hide ReportOf, Decomposition.Decompose, Decomposition.TrendOf, Decomposition.Mean, Products.Mul, ValuesOf, MonthsOf, Consumption;
    PartsOfReport(meterId, readings, models);
    LastTrend(ValuesOf(readings), MonthsOf(readings));
    MeanOfValues(readings);
    TrendOfValues(readings);
  }

  lemma MeanOfValues(readings: seq<Reading>)
    requires readings != []
    ensures Products.Mul(|readings| as real, Decomposition.Mean(ValuesOf(readings))) == Consumption(readings)
  {
    hide Decomposition.Sum, Products.Mul, Products.Quotient, ValuesOf, Consumption;
    SumOfValues(readings);
    Products.MulQuotient(|readings| as real, Decomposition.Sum(ValuesOf(readings)));
  }

  lemma TrendOfValues(readings: seq<Reading>)
    requires readings != []
    ensures var n := |readings|;
            Products.Mul(Min(n, 7) as real, Decomposition.TrendOf(ValuesOf(readings))[n - 1])
            == Consumption(readings[if n < 7 then 0 else n - 7..])
  {
    var n := |readings|;
    var first := if n < 7 then 0 else n - 7;
    assert ValuesOf(readings)[first..n] == ValuesOf(readings[first..]);
    hide Decomposition.TrendOf, Decomposition.Sum, Products.Mul, ValuesOf, Consumption;
    Decomposition.TrendIsTrailingMean(ValuesOf(readings), n - 1);
    SumOfValues(readings[first..]);
  }

  lemma LastTrend(values: seq<real>, months: seq<Month>)
    requires |values| == |months|
    ensures Decomposition.Decompose(values, months).trend == Decomposition.TrendOf(values)
  {
    hide Decomposition.Factors;
  }

  lemma PercentageMeans(deviation: real, expected: real)
    ensures if expected > 0.000_000_000_1 || expected < -0.000_000_000_1
            then Products.Mul(Percentage(deviation, expected), expected) == 100.0 * deviation
            else Percentage(deviation, expected) == 0.0
  {
    if Abs(expected) > PCT_CUTOFF {
      var q := deviation / expected;
      assert q * expected == deviation;
      assert q * 100.0 * expected == 100.0 * (q * expected);
    }
  }

  lemma PredictionMeans(models: Models, meterId: string, reading: Reading)
    ensures WeatherAdjustment(models, meterId, reading)
         == (if reading.weather.Some? && meterId in models
             then Products.Mul(models[meterId].tempSlope, reading.weather.value.temperatureC)
                  + Products.Mul(models[meterId].precipSlope, reading.weather.value.precipitationMm) + models[meterId].intercept
             else 0.0)
  {
  }

  /** The cause named in a report is the one the figures of its decomposition call for; CauseIff in
      ProbableCauses says which that is. */
  lemma CauseOfReport(meterId: string, readings: seq<Reading>, models: Models)
    requires readings != []
    ensures var r := ReportOf(meterId, readings, models);
            var residuals := Decomposition.Decompose(ValuesOf(readings), MonthsOf(readings)).residuals;
            && (r.probableCause.Some? <==> r.anomalyDetected)
            && (r.anomalyDetected ==>
                  r.probableCause.value == Classify(ValuesOf(readings), residuals, r.deviation, r.deviationPct, r.seasonalFactor))
  {
    hide P95Threshold, WeatherAdjustment, Decomposition.Decompose, Classify, Percentage, Decomposition.Mean, Expected;
  }

  // ---- The weather model, from readings to adjustment ----

  /** Fewer than five readings with weather leave the models as they are. */
  lemma FewWeatherReadingsTeachNothing(windows: Windows, models: Models, meterId: string)
    requires meterId !in windows || |WeatherModel.WithWeather(windows[meterId])| < 5
    ensures Refit(windows, models, meterId) == models
  {
    if meterId in windows { WeatherModel.SamplesAddUp(windows[meterId]); }
  }

  /** When the consumption of all readings with weather is one linear function of temperature and
      precipitation, and the weather varies enough, the fitted model adjusts every reading by it. */
  lemma LinearWeatherIsLearned(windows: Windows, models: Models, meterId: string, a: real, b: real, k: real, reading: Reading)
    requires meterId in windows && |WeatherModel.WithWeather(windows[meterId])| >= 5 && reading.weather.Some?
    requires WeatherModel.SamplesOf(windows[meterId]) != [] ==>
               WeatherModel.Denominator(WeatherModel.SpreadOfSamples(WeatherModel.SamplesOf(windows[meterId]))) > 0.000_000_000_001
    requires forall r <- windows[meterId] :: r.weather.Some? ==>
               r.value == Products.Mul(a, r.weather.value.temperatureC) + Products.Mul(b, r.weather.value.precipitationMm) + k
    ensures WeatherAdjustment(Refit(windows, models, meterId), meterId, reading)
         == Products.Mul(a, reading.weather.value.temperatureC) + Products.Mul(b, reading.weather.value.precipitationMm) + k
  {
    var w := windows[meterId];
    var samples, c := WeatherModel.SamplesOf(w), WeatherModel.Coefficients(a, b, k);
    hide Products.Mul;
    WeatherModel.SamplesAddUp(w);
    var source := WeatherModel.SamplesAreReadings(w);
    forall i | 0 <= i < |samples| ensures samples[i].v == WeatherModel.Predict(c, samples[i].t, samples[i].p) {
      assert w[source[i]] in w;
    }
    WeatherModel.PlaneIsRecovered(samples, c);
    hide WeatherModel.Fit, WeatherModel.SamplesOf, WeatherModel.Denominator, WeatherModel.SpreadOfSamples, WeatherModel.WithWeather,
         WeatherModel.Lists, WeatherModel.OnPlane;
    assert Refit(windows, models, meterId)[meterId] == c;
  }

  /** When it does not, every reading with weather is adjusted by the mean of those in the window. */
  lemma FlatWeatherAdjustsByMean(windows: Windows, models: Models, meterId: string, reading: Reading)
    requires meterId in windows && |WeatherModel.WithWeather(windows[meterId])| >= 5 && reading.weather.Some?
    requires WeatherModel.SamplesOf(windows[meterId]) != [] ==>
               WeatherModel.Denominator(WeatherModel.SpreadOfSamples(WeatherModel.SamplesOf(windows[meterId]))) <= 0.000_000_000_001
    ensures var w := windows[meterId];
            Products.Mul(|WeatherModel.WithWeather(w)| as real, WeatherAdjustment(Refit(windows, models, meterId), meterId, reading))
            == WeatherModel.WeatherConsumption(w)
  {
    var w := windows[meterId];
    var samples := WeatherModel.SamplesOf(w);
    WeatherModel.SamplesAddUp(w);
    WeatherModel.DenominatorIsNonNegative(samples);
    WeatherModel.UnsolvableFitIsBestConstant(samples, 0.0);
    Products.MulQuotient(|samples| as real, WeatherModel.MomentsOf(samples).v);
    var weather := reading.weather.value;
    Products.MulSign(0.0, weather.temperatureC);
    Products.MulSign(0.0, weather.precipitationMm);
    hide WeatherModel.Fit, WeatherModel.SamplesOf, WeatherModel.Denominator, WeatherModel.SpreadOfSamples, WeatherModel.WithWeather,
         WeatherModel.MomentsOf, WeatherModel.WeatherConsumption, Products.Mul, Products.Quotient;
  }

  predicate Steady(readings: seq<Reading>, v: real) {
    forall i :: 0 <= i < |readings| ==> readings[i].value == v
  }

  /** What is left of a steady meter's report is its weather adjustment, measured
      against 50 up to seven readings and against 1 from then on. */
  lemma SteadyReport(meterId: string, readings: seq<Reading>, models: Models, v: real)
    requires readings != [] && Steady(readings, v)
    ensures var r := ReportOf(meterId, readings, models);
            && r.residual == 0.0 && r.trendComponent == v && r.seasonalFactor == 1.0
            && r.deviation == -r.weatherAdjustment
            && r.dynamicThreshold == (if |readings| <= 7 then 50.0 else 1.0)
            && (r.anomalyDetected <==> Abs(r.weatherAdjustment) > r.dynamicThreshold)
            && (r.probableCause.Some? <==> r.anomalyDetected)
  {
    hide WeatherAdjustment, Decomposition.Decompose, Classify, Percentage, Decomposition.Mean;
    var d := Decomposition.Decompose(ValuesOf(readings), MonthsOf(readings));
    Decomposition.ConstantDecomposition(ValuesOf(readings), MonthsOf(readings), v);
    DeviationIsResidualLessWeather(meterId, readings, models);
    var past := PastResiduals(d.residuals);
    if past != [] {
      ZeroResidualsThreshold(past);
    }
    hide P95Threshold;
  }

  lemma ZeroResidualsThreshold(past: seq<real>)
    requires past != [] && Decomposition.IsConstant(past, 0.0)
    ensures P95Threshold(past) == 1.0
  {
    CountUniform(AbsAll(past), AtMost(1.0));
    WithinIsCount(past, 1.0);
    P95IsLeastCover(past, 1.0);
    P95IsLeastCover(past, P95Threshold(past));
    hide P95Threshold, Count;
  }

  /** A steady meter whose latest reading has no weather is never flagged. */
  lemma SteadyMeterIsNotFlagged(windows: Windows, models: Models, meterId: string, v: real)
    requires meterId in windows && windows[meterId] != [] && Steady(windows[meterId], v)
    requires windows[meterId][|windows[meterId]| - 1].weather.None?
    ensures var r := Diagnosis(windows, models, meterId);
            r.Some? && !r.value.anomalyDetected && r.value.deviation == 0.0
  {
    SteadyReport(meterId, windows[meterId], Refit(windows, models, meterId), v);
    hide ReportOf, Refit;
  }

  /** Detection: a meter that read v until its latest reading x, which has no weather, with at
      least eight readings and two earlier ones in the month of x, deviates by six sevenths of
      the change and is flagged exactly when the change exceeds 7/6. */
  lemma ChangeIsDetected(meterId: string, readings: seq<Reading>, models: Models, v: real, i: nat, j: nat)
    requires |readings| >= 8 && Steady(readings[..|readings| - 1], v) && readings[|readings| - 1].weather.None?
    requires i < j < |readings| - 1
    requires readings[i].timestamp.month0 == readings[j].timestamp.month0 == readings[|readings| - 1].timestamp.month0
    ensures var r, x := ReportOf(meterId, readings, models), readings[|readings| - 1].value;
            && r.deviation == r.residual == 6.0 / 7.0 * (x - v) && r.dynamicThreshold == 1.0
            && (r.anomalyDetected <==> Abs(x - v) > 7.0 / 6.0)
  {
    hide ReportOf, P95Threshold, PastResiduals, Decomposition.Decompose, Decomposition.IsConstant, Decomposition.SteadyUntil,
         Products.Quotient, Abs, ValuesOf, MonthsOf, Steady;
    var values, months, n := ValuesOf(readings), MonthsOf(readings), |readings| - 1;
    Columns(readings, i);
    Columns(readings, j);
    Columns(readings, n);
    SteadyValues(readings, v);
    Decomposition.ChangeDecomposition(values, months, v, i, j);
    var d := Decomposition.Decompose(values, months);
    ZeroPastThreshold(d.residuals);
    ReportWithoutWeather(meterId, readings, models);
    SixSevenths(v, values[n], d.residuals[n]);
  }

  lemma Columns(readings: seq<Reading>, i: nat)
    requires i < |readings|
    ensures ValuesOf(readings)[i] == readings[i].value && MonthsOf(readings)[i] == readings[i].timestamp.month0
  {
  }

  lemma SteadyValues(readings: seq<Reading>, v: real)
    requires readings != [] && Steady(readings[..|readings| - 1], v)
    ensures Decomposition.SteadyUntil(ValuesOf(readings), v)
  {
    forall k | 0 <= k < |readings| - 1 ensures ValuesOf(readings)[k] == v {
      assert readings[k] == readings[..|readings| - 1][k];
    }
  }

  lemma ReportWithoutWeather(meterId: string, readings: seq<Reading>, models: Models)
    requires readings != [] && readings[|readings| - 1].weather.None?
    ensures var r, residuals := ReportOf(meterId, readings, models), Decomposition.Decompose(ValuesOf(readings), MonthsOf(readings)).residuals;
            && r.deviation == r.residual == residuals[|residuals| - 1]
            && r.dynamicThreshold == P95Threshold(PastResiduals(residuals))
            && (r.anomalyDetected <==> Abs(r.deviation) > r.dynamicThreshold)
  {
    DeviationIsResidualLessWeather(meterId, readings, models);
    hide P95Threshold, Decomposition.Decompose, Classify, Percentage, Decomposition.Mean, PastResiduals, ValuesOf, MonthsOf,
         Expected;
  }

  lemma ZeroPastThreshold(residuals: seq<real>)
    requires |residuals| >= 8 && Decomposition.IsConstant(residuals[..|residuals| - 1], 0.0)
    ensures P95Threshold(PastResiduals(residuals)) == 1.0
  {
    var past := PastResiduals(residuals);
    forall k | 0 <= k < |past| ensures past[k] == 0.0 {
      assert past[k] == residuals[..|residuals| - 1][k];
    }
    ZeroResidualsThreshold(past);
    hide P95Threshold;
  }

  lemma SixSevenths(v: real, x: real, residual: real)
    requires residual == x - Products.Quotient(6.0 * v + x, 7.0)
    ensures residual == 6.0 / 7.0 * (x - v)
    ensures Abs(residual) > 1.0 <==> Abs(x - v) > 7.0 / 6.0
  {
  }

  /** With weather on the latest reading and on at least five readings in the window, the
      fitted intercept is the whole steady value and is added on top of the trend: the
      report deviates by exactly -v, half of what it expects. It is an anomaly exactly when
      |v| exceeds 50 (up to seven readings) or 1 (from eight on), and is then put down to theft. */
  lemma SteadyMeterWithWeatherDeviatesByItsValue(windows: Windows, models: Models, meterId: string, v: real)
    requires meterId in windows && Steady(windows[meterId], v)
    requires |WeatherModel.SamplesOf(windows[meterId])| >= WeatherModel.MIN_SAMPLES
    requires windows[meterId] != [] && windows[meterId][|windows[meterId]| - 1].weather.Some?
    ensures var r := Diagnosis(windows, models, meterId);
            && r.Some? && r.value.weatherAdjustment == v && r.value.deviation == -v
            && (r.value.anomalyDetected <==> Abs(v) > if |windows[meterId]| <= 7 then 50.0 else 1.0)
            && (r.value.anomalyDetected ==> r.value.deviationPct == -50.0 && r.value.probableCause == Some(Theft))
  {
    var w := windows[meterId];
    var samples := WeatherModel.SamplesOf(w);
    var source := WeatherModel.SamplesAreReadings(w);
    forall i | 0 <= i < |samples| ensures samples[i].v == v {
      assert w[source[i]].value == v;
    }
    WeatherModel.ConstantDataFitsItsValue(samples, v);
    var latest := w[|w| - 1].weather.value;
    Products.MulSign(0.0, latest.temperatureC);
    Products.MulSign(0.0, latest.precipitationMm);
    assert WeatherAdjustment(Refit(windows, models, meterId), meterId, w[|w| - 1]) == v by {
      hide Products.Mul, WeatherModel.Fit;
    }
    SteadyReport(meterId, w, Refit(windows, models, meterId), v);
    assert ReportOf(meterId, w, Refit(windows, models, meterId)).weatherAdjustment == v by {
      hide Refit, WeatherAdjustment, P95Threshold, Decomposition.Decompose, Classify, Percentage, Decomposition.Mean;
    }
    SteadyTheft(meterId, w, Refit(windows, models, meterId), v);
    hide ReportOf, Refit;
  }

  lemma SteadyTheft(meterId: string, readings: seq<Reading>, models: Models, v: real)
    requires readings != [] && Steady(readings, v) && ReportOf(meterId, readings, models).weatherAdjustment == v
    ensures var r := ReportOf(meterId, readings, models);
            r.anomalyDetected ==> r.deviationPct == -50.0 && r.probableCause == Some(Theft)
  {
    SteadyReport(meterId, readings, models, v);
    var latest, values := readings[|readings| - 1], ValuesOf(readings);
    var residuals := Decomposition.Decompose(values, MonthsOf(readings)).residuals;
    var r := ReportOf(meterId, readings, models);
    assert r == Assembled(meterId, latest, values, residuals, v, 1.0, v, r.dynamicThreshold) by {
      hide P95Threshold, WeatherAdjustment, Decomposition.Decompose, Decomposition.Mean, Classify, Percentage;
    }
    HalvedReadingIsTheft(meterId, latest, values, residuals, v, r.dynamicThreshold);
    hide ReportOf, Assembled, Steady;
  }

  /** An anomaly that reads half of what was expected is put down to theft. */
  lemma HalvedReadingIsTheft(meterId: string, latest: Reading, values: seq<real>, residuals: seq<real>, v: real, threshold: real)
    requires values != [] && residuals != [] && latest.value == v && threshold >= 1.0
    ensures var r := Assembled(meterId, latest, values, residuals, v, 1.0, v, threshold);
            r.anomalyDetected ==> r.deviationPct == -50.0 && r.probableCause == Some(Theft)
  {
    hide Decomposition.Mean, Erratic, SeasonalSwing, LastFew, Count;
    if Abs(v) > 1.0 { HalfIsFiftyPercent(v, v + v); }
    hide Percentage;
  }

  lemma HalfIsFiftyPercent(v: real, expected: real)
    requires Abs(v) > 1.0 && expected == v + v
    ensures Percentage(-v, expected) == -50.0
  {
    Products.MulQuotient(expected, -v);
    var q := Products.Quotient(-v, expected);
    assert -expected * q == v;
    if v > 0.0 {
      Decomposition.CancelMean(expected, q, -0.5);
    } else {
      Decomposition.CancelMean(-expected, q, -0.5);
    }
  }

  // ---- Runs ----

  /** A call of one of the engine's methods. */
  datatype Call = Add(ingest: Ingest) | Fit(meterId: string) | Diagnose(meterId: string)

  function MeterOf(call: Call): string {
    match call case Add(e) => e.meterId case Fit(m) => m case Diagnose(m) => m
  }

  datatype Answered = Answered(meterId: string, report: Option<Report>)

  datatype State = State(windows: Windows, models: Models, reports: seq<Answered>)

  function Step(days: int, s: State, call: Call): State {
    match call
    case Add(e) => s.(windows := IngestInto(s.windows, days, e))
    case Fit(m) => s.(models := Refit(s.windows, s.models, m))
    case Diagnose(m) =>
      State(s.windows, Refit(s.windows, s.models, m), s.reports + [Answered(m, Diagnosis(s.windows, s.models, m))])
  }

  const NEW_ENGINE := State(map[], map[], [])

  function Run(days: int, calls: seq<Call>): State {
    if calls == [] then NEW_ENGINE else Step(days, Run(days, calls[..|calls| - 1]), calls[|calls| - 1])
  }

  function IngestsIn(calls: seq<Call>): seq<Ingest> {
    if calls == [] then []
    else
      var last := calls[|calls| - 1];
      IngestsIn(calls[..|calls| - 1]) + if last.Add? then [last.ingest] else []
  }

  /** The windows of a run are those of its ingests. */
  lemma {:induction false} RunWindows(days: int, calls: seq<Call>)
    ensures Run(days, calls).windows == WindowsAfter(days, IngestsIn(calls))
  {
    if calls != [] {
      var before, last := calls[..|calls| - 1], calls[|calls| - 1];
      RunWindows(days, before);
      var log := IngestsIn(before);
      StepWindows(days, Run(days, before), last);
      if last.Add? {
        assert (log + [last.ingest])[..|log|] == log;
      } else {
        assert log + [] == log;
      }
      hide IngestInto, Step;
    }
  }

  lemma StepWindows(days: int, s: State, call: Call)
    ensures Step(days, s, call).windows == if call.Add? then IngestInto(s.windows, days, call.ingest) else s.windows
  {
    hide IngestInto, Refit, Diagnosis;
  }

  /** At the end of any run with a monotone clock, and unless a stale reading hides behind a
      fresh one, diagnosing a meter reports what a batch job over its whole ingest history
      reports; with five weather readings in the batch, models fitted earlier play no role. */
  lemma StreamingEqualsBatch(days: int, calls: seq<Call>, meterId: string)
    requires MonotoneClock(IngestsIn(calls)) && History(IngestsIn(calls), meterId) != []
    requires var log := IngestsIn(calls);
             var h := History(log, meterId); NoStaleBehindFresh(h[..|h| - 1], LastCutoff(days, log, meterId))
    ensures var log, s := IngestsIn(calls), Run(days, calls);
            var h := History(log, meterId);
            var batch := Fresh(h[..|h| - 1], LastCutoff(days, log, meterId)) + [h[|h| - 1]];
            var models := if |WeatherModel.SamplesOf(batch)| >= WeatherModel.MIN_SAMPLES then map[] else s.models;
            Step(days, s, Diagnose(meterId)).reports
            == s.reports + [Answered(meterId, Diagnosis(map[meterId := batch], models, meterId))]
  {
    var log, s := IngestsIn(calls), Run(days, calls);
    assert Step(days, s, Diagnose(meterId)).reports == s.reports + [Answered(meterId, Diagnosis(s.windows, s.models, meterId))];
    hide Diagnosis, Step, WeatherModel.SamplesOf, Fresh, NoStaleBehindFresh, Run, History, LastCutoff, WindowsAfter, IngestsIn;
    RunWindows(days, calls);
    WindowIsNaiveFilterIff(days, log, meterId);
    assert meterId in s.windows && s.windows[meterId] == Window(days, log, meterId) != [];
    DiagnosisOfOwnWindow(s.windows, s.models, meterId);
  }

  /** A diagnosis reads one window, and earlier models only when it cannot refit. */
  lemma DiagnosisOfOwnWindow(windows: Windows, models: Models, meterId: string)
    requires meterId in windows && windows[meterId] != []
    ensures var w := windows[meterId];
            Diagnosis(windows, models, meterId)
            == Diagnosis(map[meterId := w], if |WeatherModel.SamplesOf(w)| >= WeatherModel.MIN_SAMPLES then map[] else models, meterId)
  {
    hide ReportOf, WeatherModel.Fit, WeatherModel.SamplesOf;
    var w := windows[meterId];
    var own := if |WeatherModel.SamplesOf(w)| >= WeatherModel.MIN_SAMPLES then map[] else models;
    ReportUsesOwnModel(meterId, w, Refit(windows, models, meterId), Refit(map[meterId := w], own, meterId));
  }

  // ---- Independence of meters ----

  function OwnCalls(calls: seq<Call>, meterId: string): seq<Call> {
    if calls == [] then []
    else
      var last := calls[|calls| - 1];
      OwnCalls(calls[..|calls| - 1], meterId) + if MeterOf(last) == meterId then [last] else []
  }

  function OwnReports(reports: seq<Answered>, meterId: string): seq<Answered> {
    if reports == [] then []
    else
      var last := reports[|reports| - 1];
      OwnReports(reports[..|reports| - 1], meterId) + if last.meterId == meterId then [last] else []
  }

  /** Two engines agree on a meter. */
  predicate Agree(s: State, t: State, m: string) {
    && (m in s.windows <==> m in t.windows) && (m in s.windows ==> s.windows[m] == t.windows[m])
    && (m in s.models <==> m in t.models) && (m in s.models ==> s.models[m] == t.models[m])
    && OwnReports(s.reports, m) == OwnReports(t.reports, m)
  }

  lemma OwnReportsGrow(reports: seq<Answered>, r: Answered, m: string)
    ensures OwnReports(reports + [r], m) == OwnReports(reports, m) + if r.meterId == m then [r] else []
  {
    assert (reports + [r])[..|reports|] == reports;
  }

  lemma OtherCallsAreInvisible(days: int, s: State, t: State, call: Call, m: string)
    requires Agree(s, t, m) && MeterOf(call) != m
    ensures Agree(Step(days, s, call), t, m)
  {
    hide OwnReports, Diagnosis, WeatherModel.Fit, WeatherModel.SamplesOf;
    if call.Diagnose? {
      OwnReportsGrow(s.reports, Answered(call.meterId, Diagnosis(s.windows, s.models, call.meterId)), m);
    }
  }

  lemma OwnCallsAgree(days: int, s: State, t: State, call: Call, m: string)
    requires Agree(s, t, m) && MeterOf(call) == m
    ensures Agree(Step(days, s, call), Step(days, t, call), m)
  {
    hide OwnReports, WeatherModel.Fit, WeatherModel.SamplesOf, ReportOf;
    if call.Diagnose? {
      var a, b := Refit(s.windows, s.models, m), Refit(t.windows, t.models, m);
      if m in s.windows && s.windows[m] != [] {
        ReportUsesOwnModel(m, s.windows[m], a, b);
      }
      assert Diagnosis(s.windows, s.models, m) == Diagnosis(t.windows, t.models, m);
      OwnReportsGrow(s.reports, Answered(m, Diagnosis(s.windows, s.models, m)), m);
      OwnReportsGrow(t.reports, Answered(m, Diagnosis(t.windows, t.models, m)), m);
    }
  }

  /** In every run of ingests, fits and diagnoses a meter's window, model and reports are
      those of a run that makes only the meter's own calls. */
  lemma {:induction false} MetersAreIndependent(days: int, calls: seq<Call>, meterId: string)
    ensures Agree(Run(days, calls), Run(days, OwnCalls(calls, meterId)), meterId)
  {
    if calls != [] {
      var before, last := calls[..|calls| - 1], calls[|calls| - 1];
      var s, own := Run(days, before), OwnCalls(before, meterId);
      MetersAreIndependent(days, before, meterId);
      if MeterOf(last) == meterId {
        OwnCallsAgree(days, s, Run(days, own), last, meterId);
        assert (own + [last])[..|own|] == own;
      } else {
        OtherCallsAreInvisible(days, s, Run(days, own), last, meterId);
        assert own + [] == own;
      }
      hide Step, Agree;
    }
  }

  lemma ReportUsesOwnModel(meterId: string, readings: seq<Reading>, a: Models, b: Models)
    requires readings != []
    requires meterId in a <==> meterId in b
    requires meterId in a ==> a[meterId] == b[meterId]
    ensures ReportOf(meterId, readings, a) == ReportOf(meterId, readings, b)
  {
    hide P95Threshold, Decomposition.Decompose, Decomposition.Mean;
  }
}
