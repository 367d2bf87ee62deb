# Verified core of the utility-metering backend

This project models the decision-making core of the backend and proves what it keeps, over exact
integers and reals:

- **Streaming diagnostics** (`SlidingWindow`, `OrderStatistics`, `Decomposition`, `WeatherModel`,
  `ProbableCauses`, `DiagnosticEngine`): the pruned per-meter window against a filter over everything ever ingested,
  the trend/season/residual decomposition, the nearest-rank anomaly threshold, the two-regressor
  least-squares fit, and the report assembled from them.
- **Drift correction** (`DriftProtocol`, `DriftProperties`, `DriftRefinement`): the command worker and
  the reconciliation loop as interleaved lock-sized steps over one shared calibration map, in every
  schedule.
- **Revocation and enrolment** (`BloomFilter`, `MeterRegistry`): a bit-packed word array as a set of
  indices, and a registry state machine over it.
- **Rate limiting** (`TokenBucket`): a compare-and-swap loop run by any number of threads.
- **Preflight** (`BudgetSearch`, `Preflight`, `PreflightCache`): a truncated binary search, the leeway
  feedback loop with an arbitrary simulator, safety margins, and the cache under overlapping calls.
- **Envelopes and tariffs** (`Envelope`, `Tariffs`): a parser against its inverse, and first-match
  pricing regrouped by hour.

Objects the code updates in place are classes whose methods are tied to functions of the old state;
runs, schedules and histories are event lists over those functions, and the lemmas quantify over all
of them. `dafny verify dfyconfig.toml` checks everything.

## What the proofs show about the code

Some of the promises hold only under a condition, which is then proved to be the exact one:

- A reading that arrives out of order can outlive the window: under a monotone clock the deque equals
  the naive filter exactly when no stale reading sits behind a fresh one (`WindowIsNaiveFilterIff`,
  `NewestFirstKeepsStaleReading`).
- The fit is ordinary least squares exactly when the determinant clears the cutoff or consumption is
  uncorrelated with both covariates (`FitIsLeastSquaresIff`). The determinant is zero exactly when the
  weather samples lie on a line (`DenominatorVanishesIffCollinear`), and then both slopes are zero, even
  for data exactly linear in temperature (`LinearDataOnCollinearWeatherIsNotFitted`, `DryWeekIsNotFitted`).
  Constant precipitation is such a line; the weather of the repository's own weather test
  (`src/time_series/analytics.rs:654-673`) has it.
- The fitted intercept is added on top of the trend, so a steady meter whose latest reading and at
  least five readings in the window carry weather deviates by minus its own value, and when that is
  flagged it is put down to theft (`SteadyMeterWithWeatherDeviatesByItsValue`).
- The drift worker's check-then-insert is safe exactly because one worker is spawned
  (`src/time_series/drift.rs:94-96`), although `DRIFT_WORKER_POOL_SIZE` is 4 and is reported as the worker
  count (`MissesStandIffSingleWorker`, `SecondWorkerErasesDrift`).
- A recalibration is lost exactly when it falls between the reconciler's snapshot of the meter and the
  write-back (`RecalibrationSurvivesIffNotPending`, with a schedule in `RecalibrationIsLost`).
- After every round but the first the leeway is in the band of the instructions that round reported,
  unless they are 0 and the leeway was a positive one between the fractions, which the code's headroom
  takes to be right for a count of 0 (`LeewayStaysInBand`). With fractions 0.1 and 1.0 the counts 10, 10
  and 0 end that way (`ZeroCountLeavesBand`). No run of any simulator leaves the band exactly when the
  fractions are in order, the upper one is not negative, and there is no whole number between a positive
  lower fraction and the upper one, or, with a lower fraction that is not positive, the upper one is below
  the initial leeway (`RunsStayInBandIff`); the default fractions meet that
  (`DefaultFractionsStayInBand`).
- Padding honours a safety margin for every value exactly when rounding the margin to whole percent does
  not lower it (`PaddingCoversMarginIff`, failing at 10.4 percent in `FractionalMarginFallsShort`), and
  the fee is margined twice (`FeeIsMarginedTwice`).
- A cache hit repeats the filling call's reply, for all figures, exactly when the two calls' margins round
  to the same percentage (`RepeatsIff`), and equals what a new simulation of the same figures would be
  answered, for all figures, exactly when both margins pad the fee alike or the percentage is 0
  (`FreshIff`; for margins that are not negative: when they are equal). A fee filled at 50% and asked for
  at 10% is answered as 165 instead of 121 (`HitKeepsTheOldMargin`).
- A frame cut short is refused exactly when fewer than max(40, id length + 34) bytes are left
  (`CutFrames`).

Where comments and code disagree the code is followed: the `residual` field does not subtract the
weather term (comment at `src/time_series/analytics.rs:83`), the trend is a trailing average and not a
centered one (comment at line 260), and the drift cap is 500000 ppb and not 500
(`src/time_series/drift.rs:305`).

## Model

| member | source | states |
|---|---|---|
| SlidingWindow.WindowIsSuffixOfHistory | src/time_series/analytics.rs:161-172 | for any clock and ingest order a meter's deque is a contiguous suffix of everything ingested for it, ending in the newest reading |
| SlidingWindow.OnlyStaleReadingsAreLost | src/time_series/analytics.rs:161-172 | for any clock and order, a reading leaves its deque only if some later ingest of that meter computed a cutoff above it |
| SlidingWindow.WindowIsPrunedHistory | src/time_series/analytics.rs:161-172 | under a monotone clock all prunings collapse into one pruning of the whole history by the last cutoff |
| SlidingWindow.WindowIsNaiveFilterIff | src/time_series/analytics.rs:159-172 | the deque is the filter of all earlier readings plus the newest exactly when no stale reading sits behind a fresh one |
| SlidingWindow.OrderedWindowIsNaiveFilter | src/time_series/analytics.rs:159-172 | readings in time order always give the naive filter |
| SlidingWindow.RecentReadingsAreKept | src/time_series/analytics.rs:161-172 | for any clock and order a reading at most `days` times 86400 seconds behind the clock at each later ingest of its meter is in the deque |
| SlidingWindow.KeptReadingsAreRecent | src/time_series/analytics.rs:161-172 | under a monotone clock and time order every entry but the newest is at most that far behind the clock of every ingest of the meter |
| SlidingWindow.NewestFirstKeepsStaleReading | src/time_series/analytics.rs:159-172 | a concrete run in which a reading older than the window stays in the deque |
| OrderStatistics.SortInPlace | src/time_series/analytics.rs:298-299 | the array becomes its ascending arrangement |
| OrderStatistics.SortIsUnique | src/time_series/analytics.rs:298-299 | any ascending permutation is that arrangement, whichever algorithm produced it |
| OrderStatistics.RankIsCount | src/time_series/analytics.rs:428-430 | in sorted data the entry of rank k passes a downward-closed test exactly when more than k entries pass |
| OrderStatistics.MedianIsRobust | src/time_series/analytics.rs:283-306 | a strict majority of values inside a band pins the median inside it, whatever the rest are |
| OrderStatistics.MedianIsMiddle | src/time_series/analytics.rs:300-305 | the median is halfway between the two middle ranks, counted by how many values lie below and at most each |
| OrderStatistics.RankIsSorted | src/time_series/analytics.rs:299-305 | the value of a rank, so counted, is the one at that place of the sorted values and no other |
| OrderStatistics.MedianIsPermutationInvariant | src/time_series/analytics.rs:297-306 | the median depends only on the multiset of values |
| OrderStatistics.ComputeP95Threshold | src/time_series/analytics.rs:421-431 | the in-place computation yields the threshold the lemmas below characterise, 50 for no residuals |
| OrderStatistics.P95IsLeastCover | src/time_series/analytics.rs:421-431 | a value t is at least 1 and has at least 19 in 20 of the residuals between -t and t exactly when it is no smaller than the threshold |
| OrderStatistics.FewExceedTheThreshold | src/time_series/analytics.rs:420-431 | at most one residual in twenty exceeds the threshold |
| OrderStatistics.P95IsPermutationInvariant | src/time_series/analytics.rs:421-431 | reordering the residuals, or flipping signs, does not move the threshold |
| OrderStatistics.P95IsMonotone | src/time_series/analytics.rs:421-431 | the threshold never falls when every absolute residual grows |
| Decomposition.FillTrend | src/time_series/analytics.rs:272-281 | the filled trend array is the trailing mean at every index |
| Decomposition.CollectMonths | src/time_series/analytics.rs:284-294 | each month's slot holds its detrended values in reading order |
| Decomposition.MonthFactors | src/time_series/analytics.rs:296-307 | each factor is the median of its month, 1 for a month without readings |
| Decomposition.SortedMiddle | src/time_series/analytics.rs:299-305 | the middle of the sorted values, or the mean of the two middles |
| Decomposition.NormaliseInPlace | src/time_series/analytics.rs:309-315 | the factors are divided by their mean when it is positive and untouched otherwise |
| Decomposition.StlDecompose | src/time_series/analytics.rs:262-335 | the phases compose to the decomposition the lemmas below speak of |
| Decomposition.Reconstructs | src/time_series/analytics.rs:322-334 | value = trend * seasonal + residual at every index |
| Decomposition.TrendIsTrailingMean | src/time_series/analytics.rs:272-281 | a trend point times the number of values in the last seven, or as many as there are, is their sum |
| Decomposition.SumConcat | src/time_series/analytics.rs:280-280 | a sum adds up every value once |
| Decomposition.TrendIsBetween | src/time_series/analytics.rs:277-281 | a trend point lies between any bounds of its trailing window |
| Decomposition.TrendIsCausal | src/time_series/analytics.rs:272-281 | later values, and their number, do not move a trend point: any two series that agree up to an index have the same trend there |
| Decomposition.WindowStartsSixEarlier | src/time_series/analytics.rs:272-280 | the window of a trend point starts six values earlier or at the start, whatever the length of the series |
| Decomposition.TrendIsAdditive | src/time_series/analytics.rs:277-281 | the trend of a sum of series is the sum of the trends |
| Decomposition.FactorsSumToTwelve | src/time_series/analytics.rs:309-315 | the twelve factors sum to 12 exactly when the raw sum is positive |
| Decomposition.PositiveReadingsNormalise | src/time_series/analytics.rs:272-315 | positive consumption always gives positive factors that sum to 12 |
| Decomposition.MonthFactorIsRobust | src/time_series/analytics.rs:283-307 | where value over trend lies in a band for most readings of a month, with 1 for trends within 1e-10 of zero, the factor before normalisation lies in it |
| Decomposition.SingleReadingFactor | src/time_series/analytics.rs:286-306 | the only reading of a month has factor times trend equal to its value |
| Decomposition.FlatMonthFactor | src/time_series/analytics.rs:286-307 | a month without readings, or with all trends within 1e-10 of zero, has factor 1 |
| Decomposition.BucketCounts | src/time_series/analytics.rs:284-294 | the slot of a month holds as many passing values as the month has passing readings |
| Decomposition.FactorsAreShares | src/time_series/analytics.rs:309-315 | with a positive raw sum each factor is 12 times its share of the sum, and otherwise unchanged |
| Decomposition.SeasonalIsMonthsShare | src/time_series/analytics.rs:309-320 | the seasonal part of a reading is the normalised factor of its month |
| Decomposition.RawFactorIsRobust | src/time_series/analytics.rs:283-307 | a month most of whose detrended values lie in a band has its raw factor there, however wild the anomalies |
| Decomposition.DecompositionScales | src/time_series/analytics.rs:272-334 | a change of unit or sign scales trend and residual and leaves the seasonal part alone, if no trend crosses the division cutoff |
| Decomposition.ChangeDecomposition | src/time_series/analytics.rs:262-335 | a steady series whose last value changes, with two earlier readings in its month: no season, no residual before, and a last trend of six parts old to one part new |
| Decomposition.ConstantDecomposition | src/time_series/analytics.rs:262-335 | a constant series of any length has itself as trend, unit season and zero residuals |
| WeatherModel.SamplesAreReadings | src/time_series/analytics.rs:361-365 | the samples are exactly the weather-carrying readings, each once, in reading order, with temperature, precipitation and consumption |
| WeatherModel.SamplesAddUp | src/time_series/analytics.rs:361-379 | there are as many samples as readings with weather, and their consumption adds up to the same |
| WeatherModel.FitSamples | src/time_series/analytics.rs:367-417 | one pass over the samples and the closed formulas give the fit of the lemmas below |
| WeatherModel.ErrorDecomposes | src/time_series/analytics.rs:367-417 | the squared error of any coefficients is n times variance plus gain plus squared bias |
| WeatherModel.DenominatorIsNonNegative | src/time_series/analytics.rs:394-400 | Cauchy-Schwarz: the determinant of any non-empty sample list is never negative |
| WeatherModel.SolvedSlopes | src/time_series/analytics.rs:400-405 | above the cutoff the slopes solve the two centred normal equations |
| WeatherModel.FitSatisfiesNormalEquations | src/time_series/analytics.rs:367-417 | above the cutoff the fitted triple satisfies all three normal equations on the accumulated sums |
| WeatherModel.GainSplits | src/time_series/analytics.rs:400-405 | Pythagoras: moving away from the solved slopes adds exactly the variance of the move |
| WeatherModel.LeastSquaresIff | src/time_series/analytics.rs:353-417 | a fit through the means is least-squares exactly when no slopes have a smaller gain |
| WeatherModel.FitIsLeastSquaresIff | src/time_series/analytics.rs:353-417 | no triple beats the fitted one exactly when the determinant clears the cutoff or both covariances with consumption vanish |
| WeatherModel.UnsolvableFitIsBestConstant | src/time_series/analytics.rs:401-416 | in the degenerate branch the fit is the mean and no constant has a smaller error |
| WeatherModel.FitIsTheOnlyLeastSquares | src/time_series/analytics.rs:353-417 | above the cutoff every other triple has a larger squared error |
| WeatherModel.PlaneIsRecovered | src/time_series/analytics.rs:367-417 | exactly linear data is recovered without error whenever the determinant clears the cutoff |
| WeatherModel.ConstantDataFitsItsValue | src/time_series/analytics.rs:367-417 | constant consumption has zero variance and covariances and fits slopes 0 and that constant |
| WeatherModel.DenominatorVanishesIffCollinear | src/time_series/analytics.rs:394-400 | the determinant is zero exactly when all samples lie on a line in the plane of temperature and precipitation |
| WeatherModel.CollinearWeatherDisablesModel | src/time_series/analytics.rs:400-408 | on collinear weather both slopes are zero and the intercept is the mean |
| WeatherModel.ConstantCovariateIsCollinear | src/time_series/analytics.rs:394-400 | weather in which temperature or precipitation never varies is collinear |
| WeatherModel.ConstantPrecipitationDisablesModel | src/time_series/analytics.rs:400-408 | precipitation that never varies zeroes the temperature slope too |
| WeatherModel.LinearDataOnCollinearWeatherIsNotFitted | src/time_series/analytics.rs:353-417 | on collinear weather, non-constant data exactly linear in the weather gets zero slopes and a worse error |
| WeatherModel.LinearDryDataIsNotFitted | src/time_series/analytics.rs:353-417 | the same with constant precipitation |
| WeatherModel.DryWeekIsNotFitted | src/time_series/analytics.rs:353-417 | five concrete dry days on which the fit is not least-squares |
| DiagnosticEngine.DiagnosticEngine.constructor | src/time_series/analytics.rs:149-157 | a new engine has no readings and no models |
| DiagnosticEngine.DiagnosticEngine.IngestReading | src/time_series/analytics.rs:161-172 | the pop-front loop and push make the state the next one of the window's run semantics, other meters untouched |
| DiagnosticEngine.DiagnosticEngine.ComputeWeatherAdjustment | src/time_series/analytics.rs:339-351 | the prediction of the meter's own model, and 0 without weather or model |
| DiagnosticEngine.DiagnosticEngine.FitWeatherModel | src/time_series/analytics.rs:355-418 | the meter's model is refitted from its weather readings if there are five, and nothing else changes |
| DiagnosticEngine.DiagnosticEngine.Analyze | src/time_series/analytics.rs:175-258 | the whole report, probable cause included, is a function of the meter's window and model; none for an unknown or empty meter |
| DiagnosticEngine.DiagnosticEngine.GetDiagnostics | src/time_series/analytics.rs:480-483 | refit followed by analysis |
| DiagnosticEngine.DeviationIsResidualLessWeather | src/time_series/analytics.rs:201-214 | in every report deviation = residual - weather adjustment |
| DiagnosticEngine.FiguresOfReport | src/time_series/analytics.rs:175-246 | every figure of a report from the readings: last reading, seven-reading and overall means, weather term, expectation, deviation, percentage and flag |
| DiagnosticEngine.CauseOfReport | src/time_series/analytics.rs:217-229 | a cause is named exactly for an anomaly, and is that of its values, residuals and figures |
| DiagnosticEngine.FewWeatherReadingsTeachNothing | src/time_series/analytics.rs:355-365 | fewer than five readings with weather leave the models unchanged |
| DiagnosticEngine.LinearWeatherIsLearned | src/time_series/analytics.rs:339-418 | if all readings with weather are one linear function of temperature and precipitation and the determinant clears 1e-12, every reading with weather is adjusted by exactly that function |
| DiagnosticEngine.FlatWeatherAdjustsByMean | src/time_series/analytics.rs:339-418 | if it does not, every reading with weather is adjusted by the mean of those in the window |
| ProbableCauses.PositiveCount | src/time_series/analytics.rs:450-452 | the filter counts the positions of positive residuals |
| ProbableCauses.ErraticIff | src/time_series/analytics.rs:459-465 | the variance test in terms of the mean square of the last ten or fewer, at least four, values |
| ProbableCauses.SeasonalSwingIff | src/time_series/analytics.rs:469-474 | the seasonal test as bounds on season and deviation, for means of either sign |
| ProbableCauses.CauseIff | src/time_series/analytics.rs:435-477 | exactly when each cause is named |
| DiagnosticEngine.ThresholdHistory | src/time_series/analytics.rs:194-198 | up to seven readings the threshold is 50; from eight on it is the least value covering the residuals but the newest seven |
| DiagnosticEngine.SteadyReport | src/time_series/analytics.rs:175-258 | a steady meter's whole report reduces to its weather adjustment, measured against 50 or 1; a cause is named exactly for an anomaly |
| DiagnosticEngine.SteadyMeterIsNotFlagged | src/time_series/analytics.rs:175-227 | a steady meter of any length whose latest reading has no weather is never flagged |
| DiagnosticEngine.ChangeIsDetected | src/time_series/analytics.rs:175-227 | a steady meter of at least eight readings whose latest changes by c, without weather and with two earlier readings in its month, deviates by 6c/7 and is flagged exactly when the change exceeds 7/6 |
| DiagnosticEngine.SteadyMeterWithWeatherDeviatesByItsValue | src/time_series/analytics.rs:189-227 | with weather the fitted intercept doubles the expectation; exactly when that is an anomaly, and that it is then called theft |
| DiagnosticEngine.HalvedReadingIsTheft | src/time_series/analytics.rs:443-446 | an anomalous steady reading at half its expectation, positive or negative, deviates by -50 percent and is called theft |
| DiagnosticEngine.RunWindows | src/time_series/analytics.rs:161-172 | in a run of ingests, fits and diagnoses the windows are those of its ingests |
| DiagnosticEngine.StreamingEqualsBatch | src/time_series/analytics.rs:161-258 | at the end of any run a diagnosis equals that of a batch filter over the meter's whole ingest history, whatever was fitted earlier once the batch has five weather readings |
| DiagnosticEngine.MetersAreIndependent | src/time_series/analytics.rs:161-483 | in every run of ingests, fits and diagnoses a meter's window, model and reports are those of its own calls alone |
| DriftProtocol.DriftWorkerPool.constructor | src/time_series/drift.rs:81-109 | a new pool is the initial state with one worker |
| DriftProtocol.DriftWorkerPool.Submit | src/time_series/drift.rs:128-135 | a command joins the end of the bounded queue |
| DriftProtocol.DriftWorkerPool.ReceiveCommand | src/time_series/drift.rs:188-189 | an idle worker takes the oldest command |
| DriftProtocol.DriftWorkerPool.LookUpCalibration | src/time_series/drift.rs:227-234 | under the read lock a known meter's reading is corrected and an unknown one is remembered as missed |
| DriftProtocol.DriftWorkerPool.InsertMissing | src/time_series/drift.rs:235-250 | under the write lock a fresh calibration is inserted and the raw value is the result |
| DriftProtocol.DriftWorkerPool.CountAndRespond | src/time_series/drift.rs:193-198 | the reading is counted and answered |
| DriftProtocol.DriftWorkerPool.Recalibrate | src/time_series/drift.rs:253-287 | drift becomes 0, other fields of a known meter survive, an unknown one is created |
| DriftProtocol.DriftWorkerPool.Report | src/time_series/drift.rs:204-216 | the metrics reply reads counter, map size and queue length in one step |
| DriftProtocol.DriftWorkerPool.TakeSnapshot | src/time_series/drift.rs:299-302 | the reconciler copies the whole map |
| DriftProtocol.DriftWorkerPool.WriteBackOne | src/time_series/drift.rs:304-309 | one snapshotted meter gets its snapshot drift plus 5, capped |
| DriftProperties.CalibrationsAreWellKept | src/time_series/drift.rs:223-309 | in every schedule drift is a multiple of 5 in 0..500000, no key is removed, every snapshotted meter is still present |
| DriftProperties.SingleWorkerMissesStand | src/time_series/drift.rs:227-250 | with one worker a meter missed under the read lock is still absent at the insert |
| DriftProperties.MissesStandIffSingleWorker | src/time_series/drift.rs:94-96 | that holds in all schedules exactly when there is at most one worker |
| DriftProperties.SecondWorkerErasesDrift | src/time_series/drift.rs:227-250 | a second worker's late insert can wipe a reconciled drift without any recalibration |
| DriftProperties.DriftIsBoundedByCycles | src/time_series/drift.rs:299-309 | drift is at most 5 times the snapshots since the meter appeared, even under races |
| DriftProperties.UnrecalibratedDriftIsExact | src/time_series/drift.rs:299-309 | without recalibration drift is min(5c, 500000) after c written-back cycles, in any walking order |
| DriftProperties.RecalibrationSurvivesIffNotPending | src/time_series/drift.rs:257-309 | a recalibration sticks exactly when the reconciler holds no unwritten snapshot of the meter |
| DriftProperties.RecalibrationIsLost | src/time_series/drift.rs:257-309 | a schedule in which a recalibration answered with drift 0 ends with drift 5 |
| DriftProperties.CorrectionIsSmall | src/time_series/drift.rs:229-234 | in every reachable state a reading at 25 degrees is multiplied by exactly 1 plus the drift in parts per billion, so a non-negative one is never lowered and raised by at most 0.05 percent |
| DriftProperties.CorrectionIsExact | src/time_series/drift.rs:229-234 | what a correction multiplies by, from drift and temperature |
| DriftProperties.UnrecalibratedReplyIsExact | src/time_series/drift.rs:193-234 | once the c cycles of a never recalibrated meter are written back, a reading of it at 25 degrees is answered with 1 + min(5c, 500000) / 10^9 times its value |
| DriftRefinement.StepServes | src/time_series/drift.rs:188-251 | each interleaved step is one atomic operation of the sequential service, or none |
| DriftRefinement.ScheduleIsSequential | src/time_series/drift.rs:188-309 | for every schedule, calibrations, counter and replies equal the sequential service run over the linearized operations |
| DriftRefinement.ScheduleIsFifo | src/time_series/drift.rs:188-189 | handled, in-flight and queued commands together are the accepted ones in sending order |
| DriftRefinement.QueueIsBounded | src/time_series/drift.rs:83-83 | the queue never holds more than 100000 commands |
| DriftRefinement.ServiceCounts | src/time_series/drift.rs:193-212 | the counter is the number of readings handled, the keys are the meters named, one reply per command |
| DriftRefinement.RepliesAnswerInOrder | src/time_series/drift.rs:188-287 | in every schedule the j-th reply answers the j-th accepted command from the commands before it: a meter's first reading raw, later ones corrected by some reachable drift, recalibrations with drift 0 |
| DriftRefinement.MetricsAreExact | src/time_series/drift.rs:204-216 | each metrics reply of a schedule reports exactly the readings and distinct meters sent before it |
| BloomFilter.ProbesAreArithmetic | src/gateway/crypto.rs:60-68 | the wrapping 64-bit probes are an arithmetic progression modulo 2^64 |
| BloomFilter.LeWord | src/gateway/crypto.rs:62-63 | eight bytes of a digest as a little-endian word, written out |
| BloomFilter.ProbesAreIndices | src/gateway/crypto.rs:60-68 | each double-hash probe (h1 + k h2) mod 2^64 mod size of the item's own digest is one of its bits |
| BloomFilter.IndicesAreProbes | src/gateway/crypto.rs:60-68 | each bit of an item is such a probe |
| BloomFilter.MaskIsNativeShift | src/gateway/crypto.rs:72-79 | the mask of a bit is the machine shift of 1 by its six-bit place |
| BloomFilter.MasksAreDistinct | src/gateway/crypto.rs:72-72 | different bit positions of a word have different masks |
| BloomFilter.SetOneBit | src/gateway/crypto.rs:70-74 | or-ing one mask into one word adds exactly that index to the represented set |
| BloomFilter.BloomFilter.constructor | src/gateway/crypto.rs:38-46 | a new filter represents the empty set |
| BloomFilter.BloomFilter.Insert | src/gateway/crypto.rs:70-74 | adds exactly the item's hash indices and never indexes out of bounds |
| BloomFilter.BloomFilter.Contains | src/gateway/crypto.rs:76-80 | true exactly when all the item's indices are set |
| BloomFilter.FilledIsUnion | src/gateway/crypto.rs:60-74 | after any run an index is set exactly when some inserted item hashes to it |
| BloomFilter.FilledDependsOnItemsOnly | src/gateway/crypto.rs:70-74 | order and repetition of inserts do not matter |
| BloomFilter.NoFalseNegatives | src/gateway/crypto.rs:70-80 | nothing inserted is ever reported absent, and membership is monotone |
| BloomFilter.PresentIffCovered | src/gateway/crypto.rs:76-80 | an item is reported present exactly when inserted items together cover its indices |
| MeterRegistry.MeterRegistry.constructor | src/gateway/crypto.rs:95-100 | an empty registry with an empty filter |
| MeterRegistry.MeterRegistry.RegisterMeter | src/gateway/crypto.rs:102-135 | outcome and new registry, with both rejections leaving the state unchanged |
| MeterRegistry.MeterRegistry.VerifyPacket | src/gateway/crypto.rs:137-161 | the outcome, in the code's order of checks, as a function of the abstract registry |
| MeterRegistry.MeterRegistry.RotateKey | src/gateway/crypto.rs:163-194 | outcome and new registry, with all four rejections leaving the state unchanged |
| MeterRegistry.MeterRegistry.RevokeMeter | src/gateway/crypto.rs:196-202 | a known meter becomes Revoked and its indices join the filter |
| MeterRegistry.ApplyRevokes | src/gateway/crypto.rs:102-202 | one call changes who is revoked, and the filter, only by a successful revocation |
| MeterRegistry.EveryRunKeeps | src/gateway/crypto.rs:102-202 | in every reachable registry ids match, nobody is Pending, and the filter holds exactly the revoked meters' bits |
| MeterRegistry.RevocationIsPermanent | src/gateway/crypto.rs:109-202 | a revoked meter stays revoked, an enrolled one enrolled, and the filter only grows |
| MeterRegistry.RevokedMeterIsNeverAccepted | src/gateway/crypto.rs:137-161 | in every later state a revoked meter's packets are refused, by the status test and by the filter alone |
| MeterRegistry.CrlAloneSuffices | src/gateway/crypto.rs:144-152 | in every reachable registry the filter alone accepts the same packets as both tests |
| MeterRegistry.AcceptedIff | src/gateway/crypto.rs:137-161 | exactly which packets a reachable registry accepts, in terms of revoked ids and the current key |
| MeterRegistry.NobodyRevoked | src/gateway/crypto.rs:196-202 | a run without revocations leaves nobody revoked |
| MeterRegistry.NoRevocationsNoRejections | src/gateway/crypto.rs:137-161 | a run without revocations never rejects through the revocation list |
| MeterRegistry.CurrentKeyEndsAnApprovedChain | src/gateway/crypto.rs:109-194 | each current key ends a chain of calls of the run: a successful registration, then rotations that each presented a signature by the meter's key of that moment over the next, while it was Active |
| MeterRegistry.RegistrationSucceedsIff | src/gateway/crypto.rs:109-118 | a registration succeeds exactly when no call of the run gave the meter a key and a checkable attestation is a 64-byte signature of its rest |
| MeterRegistry.RotationSucceedsIff | src/gateway/crypto.rs:169-181 | a rotation succeeds exactly when the meter has a key, is not revoked, and the last key of its history signed the new one |
| MeterRegistry.RefusalReasons | src/gateway/crypto.rs:137-161 | which error a packet gets, from the calls of the run and the bits of revoked meters |
| MeterRegistry.DatesAreOfKeyCalls | src/gateway/crypto.rs:120-190 | enrolment and rotation dates are those of the first and the last call that set the key |
| MeterRegistry.RevokedHistoryIsFrozen | src/gateway/crypto.rs:109-202 | no later registration of an enrolled meter succeeds, key histories only grow, and from revocation on no rotation succeeds and they are frozen |
| TokenBucket.TokenBucket.constructor | src/api/middleware.rs:19-25 | the bucket starts full |
| TokenBucket.TokenBucket.TryConsume | src/api/middleware.rs:27-46 | the retry loop terminates under any interference, takes count exactly when granted, and loads at most tokens + 1 times |
| TokenBucket.TokensAreConserved | src/api/middleware.rs:27-46 | in every schedule of any number of threads tokens plus granted counts equal the initial tokens |
| TokenBucket.RefusalIsFinal | src/api/middleware.rs:29-32 | a refused request would be refused at every later time |
| TokenBucket.RetriesAreBounded | src/api/middleware.rs:27-46 | one call loads at most max_tokens + 1 times, whatever the others do |
| TokenBucket.LoadsStrictlyDrop | src/api/middleware.rs:28-44 | in one call every load sees fewer tokens than the load before it |
| TokenBucket.RetryBoundIsTight | src/api/middleware.rs:27-46 | two threads reach the bound |
| TokenBucket.StepIsAtomic | src/api/middleware.rs:27-46 | each step is one action of the atomic bucket, or none |
| TokenBucket.ScheduleIsLinearizable | src/api/middleware.rs:27-46 | every schedule is a run of the bucket whose calls take effect in one action between call and return |
| BudgetSearch.BudgetOptimizer | src/soroban/preflight.rs:173-199 | the result is accepted or the untouched upper bound; for a monotone test it is within floor(width / 2^k) of every accepted budget in range, a distance the always-accepting test reaches |
| BudgetSearch.HalvedIsFloor | src/soroban/preflight.rs:182-183 | halving k times with rounding is floor(width / 2^k) |
| BudgetSearch.HalvedVanishes | src/soroban/preflight.rs:182-196 | the gap is zero exactly when 2^k exceeds the width |
| BudgetSearch.ExactBudget | src/soroban/preflight.rs:173-199 | with that many iterations nothing below the result is accepted |
| Preflight.OneFailureDecides | src/soroban/preflight.rs:131-153 | a call fails exactly when a reached round is refused, with that round's error, and otherwise keeps the last round's result |
| Preflight.MissOutcome | src/soroban/preflight.rs:128-157 | what a miss stores or reports: the error of its failing round, of having no rounds, or its last simulation with the fee rounded up from the margined one |
| Preflight.FirstRoundNeverLowers | src/soroban/preflight.rs:137-141 | the first round never lowers the leeway of a positive count; later rounds lower it exactly when it is above the band |
| Preflight.OneRoundLandsInBand | src/soroban/preflight.rs:134-141 | every round keeps the lower end of the band; every round but the first both ends, up to rounding, exactly unless a count of 0 meets a positive leeway between the fractions |
| Preflight.RunsStayInBandIff | src/soroban/preflight.rs:129-151 | every run of every simulator is in the band after all rounds but the first exactly under a condition on the two fractions alone |
| Preflight.DefaultFractionsStayInBand | src/soroban/preflight.rs:27-37 | the default fractions meet that condition |
| Preflight.ZeroCountLeavesBand | src/soroban/preflight.rs:129-151 | a run of three rounds that ends outside the band |
| Preflight.LeewayStaysInBand | src/soroban/preflight.rs:129-151 | for any simulator, after every round but the first the leeway is in the band of the round's instructions exactly unless they are 0 and the leeway before was a positive one between the fractions |
| Preflight.SteadyLeewayConverges | src/soroban/preflight.rs:129-151 | for a constant positive simulator the leeway never changes after two rounds, and is inside the band exactly when the rounded lower end fits |
| Preflight.ScaledIsLeastUpperBound | src/soroban/preflight.rs:161-171 | scaling is the least whole number not below the percentage |
| Preflight.ScaledIsMonotone | src/soroban/preflight.rs:161-171 | scaling is monotone in the value and in the margin |
| Preflight.PaddingCoversMarginIff | src/soroban/preflight.rs:161-171 | every padded value covers its margin exactly when rounding the percentage lost nothing |
| Preflight.FractionalMarginFallsShort | src/soroban/preflight.rs:162-163 | a margin of 10.4 percent is applied as 10 percent |
| Preflight.FeeIsMarginedTwice | src/soroban/preflight.rs:153-171 | for every margin a miss's reply pads the fee by the exact margin and again by the rounded one, and every other figure by the rounded one, each time rounding up by less than one |
| Preflight.RepeatsIff | src/soroban/preflight.rs:123-126 | a result stored under one margin and answered under another repeats the first reply, for all figures, exactly when both margins round to the same percentage |
| Preflight.FreshIff | src/soroban/preflight.rs:123-159 | it is what a fresh call would be answered, for all figures, exactly when both margins pad fees alike or the percentage is 0; for margins that are not negative, when they are equal |
| PreflightCache.KeysIdentifyRequestsIff | src/soroban/preflight.rs:70-79 | equal keys mean equal contract and operation exactly when the hash separates the operations of each contract |
| PreflightCache.CacheIsTransparentIff | src/soroban/preflight.rs:115-159 | over every interleaving and eviction each hit pads exactly what the latest simulated call for its request stored, exactly when the hash separates operations |
| PreflightCache.HitRepeatsItsMiss | src/soroban/preflight.rs:121-126 | a hit repeats the reply of the miss that filled the entry if their margins round to the same percentage, and is a fresh call's reply if they pad fees alike |
| PreflightCache.FillThenHit | src/soroban/preflight.rs:121-159 | the replies of a run that fills an entry under one margin and hits it under another |
| PreflightCache.HitKeepsTheOldMargin | src/soroban/preflight.rs:121-159 | a run whose hit is answered 165 where a fresh call would be answered 121 |
| PreflightCache.PreflightService.constructor | src/soroban/preflight.rs:49-53 | the cache starts empty |
| PreflightCache.PreflightService.RunPreflight | src/soroban/preflight.rs:115-159 | hit, failed miss and filling miss: reply and new cache in each case, which is the look-up and finish of the shared system |
| PreflightCache.PreflightService.Clear | src/soroban/preflight.rs:201-205 | clearing empties the cache |
| Envelope.ParsedReencodes | src/gateway/parser.rs:7-28 | whatever is accepted re-encodes byte for byte to the input, with the id length big-endian in its first two bytes |
| Envelope.EncodedParses | src/gateway/parser.rs:7-28 | every frame parses back to the envelope it carries |
| Envelope.AcceptedIffFrame | src/gateway/parser.rs:7-28 | the accepted inputs are exactly the encodings of frames |
| Envelope.FramesAreUnambiguous | src/gateway/parser.rs:7-28 | two different envelopes never share bytes |
| Envelope.CutFrames | src/gateway/parser.rs:7-28 | a frame cut anywhere is refused exactly below max(40, id length + 34) bytes, and otherwise taken for a frame with the same id |
| Tariffs.EvaluateUsesFirstMatch | src/tariffs/engine.rs:29-45 | the price uses the rate of the first schedule covering the hour, the default rate if none does |
| Tariffs.HourIsOfDay | src/tariffs/engine.rs:30-30 | the hour of a time after whole days of 86400 seconds |
| Tariffs.RateAtIsTheRate | src/tariffs/engine.rs:29-45 | each hour has exactly one such rate |
| Tariffs.BatchRegroupsByHour | src/tariffs/engine.rs:29-52 | a batch costs the sum over the hours of rate times volume |
| Tariffs.OnlyHourlyVolumesMatter | src/tariffs/engine.rs:47-52 | batches with the same volume in every hour cost the same |
| Tariffs.BatchIgnoresOrder | src/tariffs/engine.rs:47-52 | permuting a batch does not change its cost |
| Tariffs.BatchIgnoresSplits | src/tariffs/engine.rs:47-52 | splitting a reading within its hour does not change the cost |

## Left out

- IEEE-754: all floating-point values are reals, so rounding, NaN, infinities and the sorting of NaN are not modelled. Drift is an integer number of ppb, which is all the code ever stores in it.
- Integer widths: counters, budgets and figures are unbounded. The model is exact for `initial_estimate` below 2^53 and for margin products below 2^64; beyond that the code rounds or overflows.
- SHA-256, Ed25519 and UTF-8 validity are parameters about which nothing is assumed; collision-freedom appears only as a stated hypothesis. Key and signature byte formats are not modelled.
- Bloom-filter sizing (logarithms) and its false-positive rate: number of bits and hashes are positive parameters.
- Clocks are parameters read at each call, and the calendar month of a timestamp is carried with it instead of computed.
- DriftProperties.MissesStandIffSingleWorker: more than one worker is hypothetical, as the code spawns one; the channel's closed-receiver fallbacks are not modelled.
- OrderStatistics.SortInPlace: the standard library's sort is modelled by its result, which is unique; stability plays no role for numbers.
- TokenBucket.TokenBucket.TryConsume: other threads enter as the number of tokens they take before each exchange; the step system covers their interleavings. Memory orderings are those of one atomic location; refilling does not exist in the code.
- PreflightCache.PreflightService.RunPreflight: LRU recency and capacity are replaced by arbitrary evictions, and the network by an arbitrary function of round and leeway.
- The legacy `analyze_consumption`, `NonceSequencer`, `AdvisoryLock`, `TxStateController`, `CircuitBreaker` and `convert_units`: short pieces whose members would be easy.
- HTTP handlers, router, metrics, mTLS, RPC and sync clients, database pools, SQL, telemetry and stream ingestion: I/O.
