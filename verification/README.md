# Verified model of a PostgreSQL autoscaler and its benchmark runner

The system scales a CloudNativePG cluster in two directions and benchmarks the result. This project models the three
parts of it that carry state from one step to the next, and proves what they keep over whole runs.

**Instance scaling** (`ScalePolicy`, `WeightedMonotonicity`, `StabilizationWindow`, `ScaleController`, `ScaleRuns` and
the predictors `LinRegPredictor`, `EwmaPredictor`, `HoltWintersPredictor` over `LeastSquares`). At every poll a
controller reads metrics, appends them to a rolling history, and unless it is cooling down turns them into a target
count: each metric asks for a number of replicas, the requests are aggregated, the result is held up by a sliding
window of earlier targets, combined with a forecast, clamped and written to the Cluster. `Controller.ReconcileOnce` is
proved equal to the function `AfterPoll`; the results about runs are lemmas about sequences of `AfterPoll`.

**Storage scaling** (`StorageDecider`, `StorageController`, `StorageRuns`). A second controller grows the data and WAL
volumes, which can never shrink again. `Controller.ReconcileOnce` is proved equal to `AfterCycle`, and the results
about runs are lemmas about sequences of it. Both controllers overwrite one Cluster object by Get and then Update:
`ClusterApi` has those calls, `ClusterWrites` every interleaving of them.

**The benchmark runner** (`MatrixStore`, `MatrixRuns`, `Orchestrator`, `OrchestratorRuns`, `OrchestratorSessions`). A store keeps run
specifications, their order and their states. One worker loop executes queued runs while API calls start, pause, stop,
retry, edit and reorder. `Orchestrator.System` is the shared state, `Action` one atomic step of it, and every method of
`Orchestrator.Controller` up to `ExitLoop` is proved to take exactly such a step. `OrchestratorRuns` is about every
interleaving, `OrchestratorSessions` about the loop left alone.

`Basics` and `RealAlgebra` hold helpers and polynomial identities. `dafny verify dfyconfig.toml` checks everything.

## What is taken as given

- Metric values are reals; only the storage metrics may also be missing or infinite, as the code tests for that there.
  Clock readings are integer nanoseconds. A cycle reads the clock several times, so a poll carries one reading per call.
- What the network does is an input: whether a read succeeds, and whether an Update arrives, is lost, or arrives while
  its reply is lost. The API server refuses an Update whose resource version is stale.
- In the run-level results about one controller it is the only writer of its fields; `ClusterWrites` drops that and
  proves which fields an interleaved write can touch.
- Configurations satisfy the two validation functions. A matrix admitted by the API has unique, non-empty run IDs, and
  a patch keeps the run's ID. The same is assumed of the file loaded at the start, which the code does not check.
- API requests may call `Start` and `Send` at any moment, which allows more interleavings than the handlers produce.
  A send on a full channel blocks, so it is enabled only while there is room.

## Where the code differs from what one would expect

- A forecast that fails leaves the predictive target at 0, not at "not ready": in predictive mode a missing forecast
  takes the cluster down exactly when it is above its minimum and no guard holds it
  (`ScaleRuns.FailedPredictorScalesDown`).
- With the weighted average a higher load can lower the target. That happens exactly when some metric with a target
  value per replica stands beside a different scale-up-only metric (`WeightedMonotonicity.WeightedMonotoneExactly`).
- The final target is outside the configured range exactly when the current count is above the maximum and a guard
  holds (`ScalePolicy.ActionInRange`, `ScalePolicy.GuardKeepsOutOfRange`).
- A lost write loses the protection of a scale-up: the target a poll records is kept to the end of its window exactly
  when that poll's write lands or the count is there already (`ScaleRuns.RecordedTargetHolds`). A poll that catches up
  with an older record is protected by that record's window only (`ScaleRuns.ScaleUpHolds`,
  `ScaleRuns.DecisionKeepsExactly`, with the run `ScaleRuns.LostWriteFlaps`).
- The propagation check keeps a volume to one usage-triggered expansion at a time exactly when its step exceeds 5% or
  its maximum is at most 21 GiB (`StorageDecider.StepGuardedExactly`, `StorageRuns.OneWalAtATimeExactly`).
- `MoveAfter` says the run lands immediately after its anchor; moved after itself it goes to the end
  (`MatrixRuns.MoveLandsAfterAnchor`). `DeleteRun` says queued or failed; the code deletes anything that is not running.
- A stop sent while no loop is there stays in the channel and ends the next session before its first run.
  `OrchestratorSessions.SessionBeginsNothingExactly` says when a session begins no run at all.
- A run whose results directory cannot be made stays queued and is tried again for ever: a loop that is left alone ends
  exactly when every queued run can start (`OrchestratorSessions.LoopEndsExactly`).

## Model

| member | source | states |
|---|---|---|
| ScaleRuns.NoFlapping | internal/scale/scale.go:154-292 | In reactive mode, once the writes before poll k have landed: a scale-up to T at poll k holds the instance count at T or more after k and after every later poll up to the end of the window, for every load and whatever happens to later writes, if and only if its own write lands. |
| ScaleRuns.RecordedTargetHolds | internal/scale/scale.go:169-208 | In reactive and hybrid mode, with no condition on any other write: the clamped reactive target recorded at poll k is kept to the end of its window if and only if that poll's write lands or the count was that high already. |
| ScaleRuns.SupportedAlways | internal/scale/scale.go:154-292 | Invariant: as long as every write has landed, the instance count is at least the clamp of every record still in the window. |
| ScaleRuns.ScaleUpIsNewest | internal/scale/scale.go:190-241 | From a supported state a scale-up can only come from the target recorded by that very poll, clamped. |
| ScaleRuns.ScaleUpHolds | internal/scale/scale.go:234-264 | Any scale-up to T, also one that catches up with an older record, is kept to the end of the window of each retained record that asks for T, if and only if its own write lands. |
| ScaleRuns.DecisionKeepsExactly | internal/scale/scale.go:190-227 | In reactive mode a decision that lands leaves at least T instances if and only if some retained record asks for T or a guard keeps a count that is at least T. |
| ScaleRuns.RecordPersists | internal/scale/scale.go:266-292 | A record survives every poll that records not later than its time plus the window, in any mode. |
| ScaleRuns.LostWriteFlaps | internal/scale/scale.go:255-264 | A concrete run in which one lost write makes the next poll scale up to an older target, 10, and the count falls to 2 inside that poll's window. |
| ScaleRuns.ReactiveIsRecentMaximum | internal/scale/scale.go:160-177 | In any run the reactive target acted on bounds the raw targets of all deciding polls of the last window and is attained by one of them; polls inside the cooldown do not contribute. |
| ScaleRuns.RecordOrigin | internal/scale/scale.go:160-170 | Every record in the window is the raw target of an earlier poll that got past the cooldown guard. |
| ScaleRuns.Converges | internal/scale/scale.go:154-264 | Under constant load with plain ratio metrics, from the first deciding poll later than the change plus the window the count equals the clamped demand for ever, if and only if that poll's write lands or the count is there already; no other write matters. |
| ScaleRuns.StabilizedTargetsFall | internal/scale/scale.go:266-359 | Under constant load the stabilised targets of successive deciding polls never increase. |
| ScaleRuns.DecisionMonotone | internal/scale/scale.go:154-253 | From the same state a pointwise larger snapshot of the same metrics, with a forecast that is not lower, never gives a smaller target or instance count, in every mode, through scale-up-only skipping, window, clamp and guards; for the maximum always, for the weighted average when no ratio metric stands beside a different scale-up-only one. |
| ScaleRuns.TargetExactly | internal/scale/scale.go:190-250 | What each mode decides for: the reactive target; the forecast, or the current count while it is not ready; the larger of the two, or the reactive one while the forecast is not ready; brought into range and held against a guard. Up and down are the sides of the current count the target lies on. |
| ScaleRuns.HybridCoversBoth | internal/scale/scale.go:201-208 | In hybrid mode with a forecast and no guard the target is at least the clamp of each of the two targets and equals one of them. |
| ScaleRuns.PredictiveExactly | internal/scale/scale.go:179-188 | The predictive target is 0 without a predictor, -1 without enough history, otherwise what the first metric of the forecast's name asks for at the forecast value, and 0 when the predictor fails or there is no such metric. |
| ScaleRuns.DecidesExactly | internal/scale/scale.go:160-167 | Over any run a poll that can read metrics and Cluster gets past the cooldown guard if and only if every acknowledged write so far lies at least a cooldown back. |
| ScaleRuns.PatchesSpaced | internal/scale/scale.go:160-167 | Over any run every acknowledged write is in range, neighbours are a cooldown apart, and lastScaleAt is the time of the last one. |
| ScaleRuns.PatchRateBounded | internal/scale/scale.go:160-167 | Any stretch of time of length L holds at most floor(L / cooldown) + 1 acknowledged writes. |
| ScaleRuns.HistoryIsRecent | internal/scale/scale.go:429-444 | After any run the buffer of a metric is the end of the sequence of all its observations, taken during cooldowns too, and has the length of that or 2880, whichever is less. |
| ScaleRuns.FailedPredictorScalesDown | internal/scale/scale.go:179-250 | In predictive mode, whenever prediction is off, has no predictor or is an error: scales down if and only if the count is above the minimum and no guard holds it, and up if and only if it is below the minimum. |
| ScaleRuns.ForecastErrsExactly | internal/scale/scale.go:390-426 | Asking for a forecast is an error if and only if there is enough history and the predictor fails or the metric is not configured. |
| WeightedMonotonicity.WeightedMonotoneExactly | internal/scale/scale.go:294-359 | The weighted-average target is monotone in the load if and only if no ratio metric stands beside a different scale-up-only metric. |
| WeightedMonotonicity.WeightedTargetExactly | internal/scale/scale.go:310-346 | The weighted target is the least count at which the metrics with a say no longer pull upwards on balance, each by its distance times its weight, a weight that is not positive counting as one. |
| WeightedMonotonicity.WeightedTargetMonotone | internal/scale/scale.go:310-349 | Under that condition a pointwise larger snapshot never lowers the weighted target, whatever the thresholds, weights and skipped metrics. |
| WeightedMonotonicity.PulledDown | internal/scale/scale.go:319-346 | Any configuration that violates the condition has two snapshots, the larger of which gives the smaller target. |
| WeightedMonotonicity.WeightedNotMonotone | internal/scale/scale.go:345-346 | A valid concrete configuration, one steady ratio metric and one scale-up-only metric, is not monotone. |
| ScalePolicy.ReactiveTargetMonotone | internal/scale/scale.go:294-359 | With the maximum a pointwise larger snapshot never lowers the reactive target, although it can add metrics that were skipped. |
| ScalePolicy.DesiredMonotone | internal/scale/scale.go:361-380 | A metric never asks for fewer replicas at a higher value, in the ratio branch and in the threshold branches, for any thresholds. |
| ScalePolicy.RatioDesiredIsLeast | internal/scale/scale.go:365-366 | A ratio metric asks for the least count whose combined target covers the value: exactly the counts from there on do. |
| ScalePolicy.ThresholdDesiredExactly | internal/scale/scale.go:368-376 | A threshold metric asks for one more if and only if its value is at the upper threshold or above, for one less if and only if it is at the lower threshold or below and under the upper one, and never for a further change. |
| ScalePolicy.MaxTargetExactly | internal/scale/scale.go:310-349 | With the maximum the target is the least count that satisfies every reported metric that is not a suppressed scale-down, and the current count when there is none. |
| ScalePolicy.ClampIsNearest | internal/scale/scale.go:486-494 | The clamped value is in range, and no value in range is nearer. |
| ScalePolicy.GuardsLetGoExactly | internal/scale/scale.go:211-227 | No guard holds if and only if every reported guard metric is down to its scale-down threshold. |
| ScalePolicy.TakenForNotReadyExactly | internal/scale/scale.go:195-206 | With instances running, a forecast is taken for "not ready" if and only if its metric has a target per replica t and it lies in (-2t, -t]. |
| ScalePolicy.AggregateWithinDesires | internal/scale/scale.go:343-349 | Both aggregations lie between the smallest and the largest request. |
| ScalePolicy.MaxCountIsMax | internal/scale/scale.go:508-516 | The maximum bounds every request and is one of them. |
| ScalePolicy.ActionInRange | internal/scale/scale.go:208-250 | A target with an action is in [min, max], there is no action exactly when the target is the current count, and the final target is in [min, max] if and only if the current count is at most the maximum or no guard holds. |
| ScalePolicy.GuardKeepsOutOfRange | internal/scale/scale.go:210-227 | A valid concrete configuration in which a guard leaves the target above the maximum. |
| ScalePolicy.FinalTargetMonotone | internal/scale/scale.go:190-227 | Mode choice, clamp and guards are monotone in the reactive target, in the predictive target and in the metrics the guards see. |
| StabilizationWindow.RetainedIsFilter | internal/scale/scale.go:266-292 | For any clock that does not go back and windows changing from call to call, the retained list is exactly the recorded targets at or after the largest cutoff so far, in order. |
| StabilizationWindow.ConstantWindowMaximum | internal/scale/scale.go:266-292 | With a constant window the answer is the maximum over all calls of the last window: an upper bound, and attained. |
| StabilizationWindow.DropIsKeep | internal/scale/scale.go:279-283 | On records in time order dropping the old prefix is filtering by the cutoff. |
| StabilizationWindow.PushMembers | internal/scale/scale.go:277-283 | After a call the new record is there, nothing foreign is, and no record young enough is lost. |
| StabilizationWindow.MaxTargetIsMax | internal/scale/scale.go:285-291 | The result bounds the raw target and every record and is one of them. |
| ScaleController.Controller.constructor | internal/scale/scale.go:36-43 | A new controller has an empty history, an empty window and has never scaled. |
| ScaleController.Controller.UpdateConfig | internal/scale/scale.go:60-73 | The configuration is replaced and nothing else changes. |
| ScaleController.Controller.ReconcileOnce | internal/scale/scale.go:103-152 | One cycle takes the fields and the instance count to exactly AfterPoll of the old ones, on every error path, and leaves the two sizes alone. |
| ScaleController.Controller.Decide | internal/scale/scale.go:154-253 | The decision and the new window; inside the cooldown the window is untouched, and an unreadable Cluster is the only error. |
| ScaleController.Controller.Act | internal/scale/scale.go:255-264 | No action writes nothing; otherwise lastScaleAt moves exactly when the write is acknowledged, and the count changes exactly when it lands. |
| ScaleController.Controller.StabilizedReactiveTarget | internal/scale/scale.go:266-292 | The two loops compute the stabilised target and the pushed window; a window of zero or less records nothing. |
| ScaleController.Controller.ComputePredictiveTarget | internal/scale/scale.go:382-427 | Not ready, error or the request of the first metric of that name, in the order the code tests for them. |
| ScaleController.Controller.AppendHistory | internal/scale/scale.go:431-444 | Exactly the reported series grow by one point each, capped at 2880; the others are unchanged. |
| ScaleController.ComputeReactiveTarget | internal/scale/scale.go:294-359 | The accumulating loop with its two skips computes the reactive target the policy lemmas are about. |
| ScaleController.AverageOf | internal/scale/scale.go:496-506 | The loop computes the weighted average the bounds and the monotonicity results are about. |
| ScaleController.MaxSlice | internal/scale/scale.go:508-516 | The loop computes the maximum characterised by MaxCountIsMax. |
| ScaleController.ScaleDownBlocked | internal/scale/scale.go:211-227 | The loop answers true if and only if some guard metric is reported above its scale-down threshold. |
| LeastSquares.RunningSums | internal/scale/predictor_linreg.go:37-46 | The loop computes the four sums of the samples, time in seconds from the first point. |
| LeastSquares.DenominatorIsSpread | internal/scale/predictor_linreg.go:48 | The denominator is the sum over pairs of (ti - tj)^2, hence never negative. |
| LeastSquares.FitSolvesNormalEquations | internal/scale/predictor_linreg.go:53-54 | The computed slope and intercept solve the two normal equations. |
| LeastSquares.NormalEquationsBeat | internal/scale/predictor_linreg.go:53-54 | A solution of the normal equations has strictly smaller squared residuals than any other line. |
| LeastSquares.FitIsLeastSquares | internal/scale/predictor_linreg.go:48-55 | With a denominator of at least 1e-9 a line minimises the squared residuals if and only if it is the computed one. |
| LeastSquares.LineRecovered | internal/scale/predictor_linreg.go:48-55 | On data that lie on a line the computed line is that line. |
| LinRegPredictor.Predict | internal/scale/predictor_linreg.go:23-61 | The forecast from the newest points the window takes is their least-squares line at the forecast time, or their best constant when the times are degenerate, floored at zero; short histories as in the code. |
| LinRegPredictor.NewestPointsDecide | internal/scale/predictor_linreg.go:31-60 | Histories with the same newest points have the same forecast, and the contract allows only one. |
| LinRegPredictor.ForecastContinuesLine | internal/scale/predictor_linreg.go:31-60 | When the newest points lie on a line over absolute time, the forecast is that line at the horizon past the last point, floored at zero, whatever came before. |
| LinRegPredictor.LinReg.New | internal/scale/predictor_linreg.go:14-19 | Keeps a window above 1 and replaces any other by 30. |
| LinRegPredictor.FitLine | internal/scale/predictor_linreg.go:37-55 | The fit is optimal among all lines, or among all constants when the denominator is below 1e-9. |
| LinRegPredictor.MeanIsBestConstant | internal/scale/predictor_linreg.go:50-51 | The mean minimises the squared residuals among constants. |
| LinRegPredictor.LineForecast | internal/scale/predictor_linreg.go:48-55 | On affine data a line minimises the squared residuals if and only if it is the data's own, which is what makes the forecast continue it. |
| EwmaPredictor.Predict | internal/scale/predictor_ewma.go:25-52 | The forecast is the smoothed value plus, times the horizon, the least-squares slope of the newest points the trend window takes, floored at zero. |
| EwmaPredictor.OlsSlope | internal/scale/predictor_ewma.go:54-73 | The slope of the least-squares line, zero when degenerate; on affine data it is the data's slope exactly when the times are not degenerate or that slope is zero. |
| EwmaPredictor.Average | internal/scale/predictor_ewma.go:33-36 | The loop computes the exponentially weighted average. |
| EwmaPredictor.SmoothedWithinRange | internal/scale/predictor_ewma.go:33-36 | The average never leaves the range of the data. |
| EwmaPredictor.LagOnRamp | internal/scale/predictor_ewma.go:33-36 | On a ramp the average lags strictly behind the last value, on the side the ramp comes from. |
| EwmaPredictor.SmoothedMoves | internal/scale/predictor_ewma.go:33-36 | Each point moves the average by alpha's share of the way to it. |
| EwmaPredictor.LagExactly | internal/scale/predictor_ewma.go:33-36 | The size of the lag on a ramp: none at the first point, and then 1 - alpha of the lag before plus the rise. |
| EwmaPredictor.RampExact | internal/scale/predictor_ewma.go:33-36 | On a ramp the average is the last value if and only if alpha is 1 or nothing moves. |
| EwmaPredictor.Ewma.New | internal/scale/predictor_ewma.go:16-21 | Accepts exactly an alpha in (0, 1]. |
| HoltWintersPredictor.HoltWinters.New | internal/scale/predictor_holtwinters.go:18-37 | Accepts exactly three factors in (0, 1] and a season of at least 2. |
| HoltWintersPredictor.Predict | internal/scale/predictor_holtwinters.go:41-95 | The forecast is that of the recurrences at the computed number of steps, floored at zero, in both branches. |
| HoltWintersPredictor.InitialSmoothing | internal/scale/predictor_holtwinters.go:64-79 | The three initialising loops compute the start level, trend and seasonal table. |
| HoltWintersPredictor.HoltSeasonal | internal/scale/predictor_holtwinters.go:81-94 | The loop over the array that is updated in place computes the seasonal recurrence. |
| HoltWintersPredictor.HoltLinear | internal/scale/predictor_holtwinters.go:97-109 | The loop computes the linear recurrence. |
| HoltWintersPredictor.StepsOnEvenSpacing | internal/scale/predictor_holtwinters.go:49-56 | On evenly spaced points a horizon of k intervals is k steps, through the truncating division and the rounding. |
| HoltWintersPredictor.StepsAreNearest | internal/scale/predictor_holtwinters.go:49-56 | In general the steps are the whole number of mean intervals, at least one, that comes nearest to the horizon. |
| HoltWintersPredictor.PeriodicStateIsFixed | internal/scale/predictor_holtwinters.go:64-89 | On a periodic series of at least two seasons the level stays at the season mean, the trend at zero and the table fixed, for all factors. |
| HoltWintersPredictor.PeriodicForecast | internal/scale/predictor_holtwinters.go:91-94 | On such a series the forecast before the floor is exactly the value at index (n - 1 + steps) mod m. |
| HoltWintersPredictor.LineForecast | internal/scale/predictor_holtwinters.go:97-109 | On evenly spaced affine values the short-history forecast continues the line, for all alpha and beta. |
| HoltWintersPredictor.HoltCorrectsError | internal/scale/predictor_holtwinters.go:101-105 | In the linear recurrence alpha of the one-step error goes to the level and alpha * beta of it to the trend. |
| HoltWintersPredictor.SeasonalCorrectsError | internal/scale/predictor_holtwinters.go:81-89 | In the seasonal one gamma * (1 - alpha) of the error also goes to the observed season's entry, and no other entry moves. |
| HoltWintersPredictor.ErrorIsForecastError | internal/scale/predictor_holtwinters.go:91-94 | Those errors are the errors of the predictor's own one-step forecasts of the points seen so far. |
| HoltWintersPredictor.ForecastDrifts | internal/scale/predictor_holtwinters.go:91-107 | Further ahead the forecast moves by one trend a step on a short history, and by a season's worth of it a season on a long one. |
| HoltWintersPredictor.StartExactly | internal/scale/predictor_holtwinters.go:64-79 | The level starts within the range of the first season, and each entry of the table is its point's distance from it. |
| HoltWintersPredictor.StartsWithTrend | internal/scale/predictor_holtwinters.go:64-74 | A second season that lies d a point above the first starts the trend at d. |
| HoltWintersPredictor.Superposition | internal/scale/predictor_holtwinters.go:41-109 | Before the floor the forecast of a*x + b*y is a times that of x plus b times that of y, through the whole loop and in both branches. |
| HoltWintersPredictor.AfterMix | internal/scale/predictor_holtwinters.go:64-89 | The whole smoothing state, seasonal table included, is linear in the series at every index. |
| StorageDecider.DecidePGData | pkg/storage/decider.go:15-95 | Resizes if and only if the stated condition on metrics, guards, trigger, cooldown and size holds; a skip names a reason that is true; a resize has the trigger and size given. |
| StorageDecider.DecideWAL | pkg/storage/decider.go:97-172 | The same for the WAL volume, whose propagation check also stops critical resizes. |
| StorageDecider.CheckSafetyGuards | pkg/storage/decider.go:184-204 | Blocks if and only if an enabled guard's metric is present and above its limit. |
| StorageDecider.GuardsLetThroughExactly | pkg/storage/decider.go:184-204 | The guards let a resize through if and only if each one is off, or its metric is missing or at most its limit. |
| StorageDecider.PGDataResizesExactly | pkg/storage/decider.go:34-92 | A pgdata volume that can grow and is not guarded is resized if and only if it is critical with nothing propagating, or, outside the cooldown, its exhaustion is near or it is above its threshold with nothing propagating; and each trigger is given exactly when it is the cause. |
| StorageDecider.PropagatingExactly | pkg/storage/decider.go:236-255 | An expansion is propagating if and only if the readable size is more than 105% of a positive, finite capacity. |
| StorageDecider.PreemptiveInHours | pkg/storage/decider.go:174-182 | Exhaustion is near if and only if the time to full, in hours of 3600 seconds, is positive and below the threshold; never for a missing or infinite one. |
| StorageDecider.UsageInPercent | pkg/storage/decider.go:113-126 | The WAL is at a threshold if and only if a hundred times the used bytes reach that many times its capacity. |
| StorageDecider.ComputeNewSize | pkg/storage/decider.go:206-234 | The reassigned new size equals the function the growth results are about, with the error and the at-maximum case. |
| StorageDecider.NewSizeGrows | pkg/storage/decider.go:218-233 | A new size is strictly larger, at most the maximum, and at least a full step unless the maximum cuts it short; it is the least such size, one GiB less being no growth or less than a step; there is none exactly at or above the maximum. |
| StorageDecider.ResizeIsInFlight | pkg/storage/decider.go:206-255 | After a step above 5% the volume counts as propagating against every capacity up to the old size, or is full, also when capped. |
| StorageDecider.OnlyPreemptiveInFlight | pkg/storage/decider.go:38-56 | In that condition the WAL is never resized, and pgdata only preemptively and outside the cooldown. |
| StorageDecider.ResizableExactly | pkg/storage/decider.go:34-70 | The converse too: some metrics with a capacity of at most the old size resize the WAL, and some resize pgdata for its usage, if and only if the volume is neither in flight nor full. |
| StorageDecider.StepGuardedExactly | pkg/storage/decider.go:206-255 | Every resize leaves the volume in flight or full if and only if the step exceeds 5% or the maximum is at most 21 GiB. |
| StorageDecider.SmallStepNotGuarded | pkg/storage/decider.go:128-141 | With a step of at most 5% and a maximum above 21 GiB a critical WAL volume of 20 GiB is resized, and resized again before the first expansion arrives. |
| StorageController.Controller.constructor | pkg/storage/controller.go:41-48 | A new controller has resized nothing and has seen no threshold crossed. |
| StorageController.Controller.ReconcileOnce | pkg/storage/controller.go:73-235 | One cycle takes sizes and resize times to exactly AfterCycle of the old ones, leaves the instance count alone, and notes whether pgdata is above its threshold. |
| StorageRuns.VolumesGrow | pkg/storage/controller.go:117-214 | Over any run of either volume: written sizes strictly increase within the maximum, the first write starts from the initial size and each other from the one before, there are at most (maximum - initial GiB) of them, and they grow at least and at most geometrically. |
| StorageRuns.ChainIsFinite | pkg/storage/decider.go:218-231 | At most maximum minus the initial GiB ceiling writes, and none from a start at or above the maximum. |
| StorageRuns.ChainIsGeometric | pkg/storage/decider.go:224-231 | After k writes the size is at least the smaller of the maximum and initial * (1 + step/100)^k. |
| StorageRuns.ChainGrowsNoFaster | pkg/storage/decider.go:224-231 | After k writes the size, with the slack that rounding up to whole GiB adds, is at most k full steps up from the initial size with that slack. |
| StorageRuns.PgdataLogIsChain | pkg/storage/controller.go:117-136 | The writes of a run form a chain: each replaces the size the one before left, and the stored size is the end of the chain. |
| StorageRuns.WalLogIsChain | pkg/storage/controller.go:188-207 | The same for the WAL volume. |
| StorageRuns.NoWalNoWrites | pkg/storage/decider.go:108-111 | A cluster without a readable WAL size never has it written. |
| StorageRuns.OneWalExpansionInFlight | pkg/storage/decider.go:125-141 | After a WAL write by a step above 5% or under a maximum of at most 21 GiB, while the reported capacity is positive and at most the old size, no cycle resizes the WAL again. |
| StorageRuns.OneWalAtATimeExactly | pkg/storage/decider.go:125-141 | That holds in every run of a configuration if and only if its step exceeds 5% or its maximum is at most 21 GiB. |
| StorageRuns.OnePgdataExpansionInFlight | pkg/storage/decider.go:34-56 | The same for pgdata, except for a preemptive trigger outside the cooldown. |
| StorageRuns.OnePgdataAtATimeExactly | pkg/storage/decider.go:34-56 | At most one usage-triggered pgdata expansion is in flight in every run under exactly the same condition. |
| StorageRuns.CloseWritesAreCritical | pkg/storage/decider.go:38-56 | Of two consecutive acknowledged pgdata writes closer than the cooldown the second is critical and was not made while an expansion was propagating. |
| StorageRuns.CooldownExactly | pkg/storage/decider.go:52-56 | Over any run the next pgdata resize is in its cooldown if and only if the last acknowledged write lies less than that back. |
| StorageRuns.CloseWalWritesAreCritical | pkg/storage/decider.go:125-141 | Of two consecutive acknowledged WAL writes closer than the cooldown the second is critical. |
| StorageRuns.WalCooldownExactly | pkg/storage/decider.go:137-141 | The WAL's cooldown likewise counts from its last acknowledged write. |
| ClusterApi.CnpgClient.GetCurrentInstances | internal/scale/cnpg-scaler.go:28-38 | The stored instance count, or an error. |
| ClusterApi.CnpgClient.PatchInstances | internal/scale/cnpg-scaler.go:40-56 | Undisturbed, it changes the instance count alone, or nothing. |
| ClusterApi.StorageActor.ResizePGData | pkg/storage/actor.go:32-48 | Undisturbed, it changes the data size alone, or nothing. |
| ClusterApi.StorageActor.ResizeWAL | pkg/storage/actor.go:102-122 | Undisturbed, it changes the WAL size alone, or nothing; without WAL storage it is an error. |
| ClusterWrites.NoLostUpdate | internal/scale/cnpg-scaler.go:40-56 | In every interleaving of the Get and Update steps of any number of patches and one storage controller, a step changes at most its writer's own field of what is stored. |
| ClusterWrites.SizesNeverShrink | pkg/storage/controller.go:117-207 | In every interleaving neither size ever shrinks, although the sizes are decided on an earlier observation. |
| ClusterWrites.StepKeepsInvariant | pkg/storage/actor.go:32-48 | Every held copy is stale or identical to what is stored, and what the storage controller observed of the sizes is still true when it writes. |
| ClusterWrites.RefusedWhenOvertaken | internal/scale/cnpg-scaler.go:40-53 | In every interleaving a patch changes nothing if and only if it did not arrive or at least one other write was accepted between its Get and its Update. |
| ClusterWrites.UncheckedUpdateShrinks | internal/scale/cnpg-scaler.go:49-53 | Without the version check a patch that fetched before a resize would write the smaller size back. |
| MatrixStore.Store.constructor | auto-run/internal/matrix/store.go:24-56 | A loaded store has the file's order, and every run queued. |
| MatrixStore.Store.Runs | auto-run/internal/matrix/store.go:75-95 | The loops compute the runs in order with spec and state, by the function the round trip is about. |
| MatrixStore.Store.ToMatrixFile | auto-run/internal/matrix/store.go:258-273 | The loops compute the export in the current order, by the function the round trip is about. |
| MatrixStore.Store.GetSpec | auto-run/internal/matrix/store.go:98-107 | The first spec of that ID. |
| MatrixStore.Store.GetState | auto-run/internal/matrix/store.go:126-134 | The state, if there is one. |
| MatrixStore.Store.SetState | auto-run/internal/matrix/store.go:119-123 | Replaces one state and nothing else. |
| MatrixStore.Store.SetStepStatus | auto-run/internal/matrix/store.go:137-150 | Changes the status of the first step of that name and nothing else; unknown runs and steps change nothing. |
| MatrixStore.Store.NextQueued | auto-run/internal/matrix/store.go:153-162 | The run characterised by NextIsFirstQueued. |
| MatrixStore.Store.ResetQueued | auto-run/internal/matrix/store.go:165-173 | Exactly the failed and successful states become fresh. |
| MatrixStore.Store.ReplaceMatrix | auto-run/internal/matrix/store.go:176-188 | File and order are replaced, existing states are kept, missing ones are queued. |
| MatrixStore.Store.UpdateSpec | auto-run/internal/matrix/store.go:191-204 | Succeeds if and only if the run is specified and not running, and then replaces its first spec. |
| MatrixStore.Store.DeleteRun | auto-run/internal/matrix/store.go:207-219 | Succeeds if and only if the run is not running, and then removes it from specs, order and states. |
| MatrixStore.Store.MoveAfter | auto-run/internal/matrix/store.go:223-248 | Succeeds if and only if run and anchor are in the order; the new order is the one MoveKeepsTheRest and MoveLandsAfterAnchor are about. |
| MatrixStore.Store.UpdateDefaults | auto-run/internal/matrix/store.go:251-255 | Replaces the defaults and nothing else. |
| MatrixRuns.StoreStaysConsistent | auto-run/internal/matrix/store.go:176-255 | Under any sequence of admitted operations the order is a duplicate-free permutation of the specified IDs and every ordered run has a state. |
| MatrixRuns.OpKeepsConsistent | auto-run/internal/matrix/store.go:119-255 | Every single operation keeps that invariant. |
| MatrixRuns.ExportRoundTrip | auto-run/internal/matrix/store.go:258-273 | Replacing the matrix by the store's own export changes no run, no order and no state. |
| MatrixRuns.RunsExactly | auto-run/internal/matrix/store.go:75-95 | The listed runs are those of the order, one by one, each with its own spec and its own state. |
| MatrixRuns.ExportExactly | auto-run/internal/matrix/store.go:258-273 | The export lists the same specs in the current order, with the defaults. |
| MatrixRuns.RetryExactly | auto-run/internal/matrix/store.go:165-173 | A retry makes exactly the successful and failed runs fresh, with nothing recorded and every step pending, and changes nothing else. |
| MatrixRuns.ReplaceExactly | auto-run/internal/matrix/store.go:176-188 | After a replacement the order is that of the new runs; every run that had a state keeps it, and exactly the new ones among the others wait. |
| MatrixRuns.DeletedIsGone | auto-run/internal/matrix/store.go:207-219 | A deleted run is gone from order, specs and states, and nothing else has moved or changed. |
| MatrixRuns.PatchExactly | auto-run/internal/matrix/store.go:191-204 | A patched run has the new spec, and every other run, the order and the states are as they were. |
| MatrixRuns.MoveKeepsTheRest | auto-run/internal/matrix/store.go:233-246 | A move permutes the order and keeps the relative order of the other runs. |
| MatrixRuns.MoveLandsAfterAnchor | auto-run/internal/matrix/store.go:233-245 | A moved run stands directly after its anchor if and only if the two differ; moved after itself it goes last. |
| MatrixRuns.MoveToFront | auto-run/internal/matrix/store.go:235-236 | Without an anchor the run goes first and the others keep their order. |
| MatrixRuns.NextIsFirstQueued | auto-run/internal/matrix/store.go:153-162 | The choice is the first queued run in order, and none exactly when no ordered run is queued. |
| OrchestratorRuns.OneRunAtATime | auto-run/internal/orchestrator/orchestrator.go:86-309 | In every interleaving of the loop with the API calls there is at most one loop, and a run has status running exactly while that loop executes it, so at most one run has it. |
| OrchestratorRuns.RunningStateIsTheLoops | auto-run/internal/matrix/store.go:164-219 | In every reachable state no action but the executing loop's own state writes changes or removes the state of a running run. |
| OrchestratorRuns.ApiKeepsRunning | auto-run/internal/matrix/store.go:164-255 | No API call on the store touches the state of a running run or makes a run running. |
| OrchestratorRuns.ActionKeepsInvariant | auto-run/internal/orchestrator/orchestrator.go:98-309 | Every atomic action keeps the invariant behind the two results above, although the loop writes back copies it read earlier. |
| OrchestratorRuns.BoundedStop | auto-run/internal/orchestrator/orchestrator.go:108-148 | With a stop waiting behind k signals at most k + 1 further runs are begun before a stop is taken, so at most 4. |
| OrchestratorRuns.BeginIsPaidFor | auto-run/internal/orchestrator/orchestrator.go:108-148 | Each begun run uses up a signal ahead of the stop or the loop's one commitment; pauses, sends and restarts never add to them. |
| OrchestratorRuns.StaleStopEndsNextSession | auto-run/internal/orchestrator/orchestrator.go:108-117 | A stop at the head of the channel of an idle orchestrator ends the next session at once and changes nothing else. |
| OrchestratorRuns.StatusMatchesSteps | auto-run/internal/orchestrator/orchestrator.go:194-308 | In every reachable state, whatever the API does meanwhile, of an ended run: it is successful exactly when its first three steps are done, and then collection and backup are over too; a failed one failed in exactly one of those three, nothing more having started after a failed set-up step, and only the collection being skipped after a failed load; it has both times, no error unless it failed, and a recorded path only if its upload is done. |
| OrchestratorRuns.ActionKeepsTruth | auto-run/internal/orchestrator/orchestrator.go:194-308 | Every atomic action keeps the invariant behind it: the stored steps of a run under way are the ones the loop has marked, in their order. |
| OrchestratorRuns.OutcomeMatchesSteps | auto-run/internal/orchestrator/orchestrator.go:212-306 | The state an undisturbed run ends in: each step has failed exactly when it was reached and its outcome was a failure, and status, times, error and path follow from the outcomes. |
| OrchestratorRuns.NoBucketNoUpload | auto-run/internal/orchestrator/orchestrator.go:258-294 | In every reachable state a run that was started without a bucket has not started its upload and records no path. |
| OrchestratorRuns.FreshStepsLackBackup | auto-run/internal/matrix/store.go:58-65 | A waiting run shows every step of a run under way except the backup. |
| OrchestratorSessions.LoopEndsExactly | auto-run/internal/orchestrator/orchestrator.go:98-148 | A loop that is left alone ends after a bounded number of actions if and only if every queued run can start. |
| OrchestratorSessions.EndsWithNoneQueued | auto-run/internal/orchestrator/orchestrator.go:98-148 | Where such a loop has ended no run is queued, and as long as it has not ended it can take a further action. |
| OrchestratorSessions.SessionBeginsNothingExactly | auto-run/internal/orchestrator/orchestrator.go:86-127 | From every idle state, a session left alone begins no run if and only if a stop is first in the channel, no ordered run is queued, or the first queued one cannot start. |
| OrchestratorSessions.BeginsNothingExactly | auto-run/internal/orchestrator/orchestrator.go:98-149 | From every reachable point of the loop, left alone it can begin a run unless, exactly, a stop comes first, a pause is not resumed, or there is nothing it can start. |
| OrchestratorSessions.PausedBeginsExactly | auto-run/internal/orchestrator/orchestrator.go:137-146 | A paused loop left alone can begin a run if and only if a start precedes every stop in the channel, the signal behind it is not a stop, and the first queued run can start. |
| OrchestratorSessions.PauseTakesEffect | auto-run/internal/orchestrator/orchestrator.go:129-147 | With a run under way, the loop left alone can finish it and is then paused if a pause was asked for and at its top if not; it can begin another run if and only if the signals resume it, or no stop comes first, and the first queued run can start. |
| OrchestratorSessions.ResumesExactly | auto-run/internal/orchestrator/orchestrator.go:138-146 | The signals resume a pause if and only if some start has only pauses before it and no stop right behind it. |
| OrchestratorSessions.FailedStartSpins | auto-run/internal/orchestrator/orchestrator.go:125-127 | When the first queued run cannot start, any number of rounds leads back to the very same state. |
| OrchestratorSessions.RunIsAtomicActions | auto-run/internal/orchestrator/orchestrator.go:151-309 | For all step outcomes the loop can take a run, action by action, from its start to exactly the state ExecuteRun leaves. |
| Orchestrator.Controller.constructor | auto-run/internal/orchestrator/orchestrator.go:60-69 | A new orchestrator is idle with an empty channel. |
| Orchestrator.Controller.Start | auto-run/internal/orchestrator/orchestrator.go:86-96 | Launches a loop if none is running and does nothing otherwise. |
| Orchestrator.Controller.Send | auto-run/internal/orchestrator/orchestrator.go:73-75 | Appends one signal to the channel. |
| Orchestrator.Controller.PauseAfterCurrent | auto-run/internal/orchestrator/orchestrator.go:312-316 | Raises the pause flag. |
| Orchestrator.Controller.ApplyControl | auto-run/internal/orchestrator/orchestrator.go:370-392 | Each known action is the stated sequence of atomic actions; an unknown one is refused and changes nothing; only a request that sends needs room in the channel. |
| Orchestrator.Controller.DrainSignal | auto-run/internal/orchestrator/orchestrator.go:109-117 | Takes at most one signal; only a stop ends the loop. |
| Orchestrator.Controller.ChooseRun | auto-run/internal/orchestrator/orchestrator.go:119-123 | Chooses the first queued run or ends the loop. |
| Orchestrator.Controller.CheckPauseFlag | auto-run/internal/orchestrator/orchestrator.go:129-134 | Clears the flag and pauses exactly when it was set. |
| Orchestrator.Controller.WakeUp | auto-run/internal/orchestrator/orchestrator.go:137-146 | A paused loop resumes on start, ends on stop and drops a pause signal. |
| Orchestrator.Controller.ExitLoop | auto-run/internal/orchestrator/orchestrator.go:99-104 | Clears the running flag and removes the loop. |
| Orchestrator.Controller.ExecuteRun | auto-run/internal/orchestrator/orchestrator.go:151-309 | Undisturbed, a run that cannot start changes nothing and any other ends in the state its step outcomes determine. |
| Orchestrator.Controller.RunSteps | auto-run/internal/orchestrator/orchestrator.go:212-294 | The step order with its two exits leaves exactly the step statuses and path that the outcomes determine. |
| Orchestrator.Controller.Round | auto-run/internal/orchestrator/orchestrator.go:108-148 | One round from drain to pause check executes exactly the first queued run if that can start, and ends the loop exactly when none is queued. |
| Orchestrator.Controller.RunAll | auto-run/internal/orchestrator/orchestrator.go:98-148 | So many rounds of the undisturbed loop execute the queued IDs in matrix order, each once, up to the first that cannot start, and change no other state; the loop has ended if and only if all of them can start and the rounds exceed their number. |
| Orchestrator.QueuedHead | auto-run/internal/matrix/store.go:153-162 | The loop's choice is the head of the filter of queued runs. |
| Orchestrator.QueuedAfterRun | auto-run/internal/matrix/store.go:153-162 | Once the chosen run is no longer queued the filter has lost its head and nothing else. |

## Left out

- Prometheus queries, Kubernetes and GCS calls, HTTP handlers, event streams, logging, metrics export and the web UI: input and output.
- YAML loading, duration parsing and quantity parsing: library code; a size is missing, malformed or a byte count.
- Floating-point rounding and the overflow of 64-bit integers: values are exact.
- Missing or infinite values in the instance controller's metrics: the code does not test for them there.
- Reason and trigger texts of the decisions, and the risk-window and latency counters: reporting only.
- The moving-average predictor, the last-good-value cache of the observer and the config fallbacks: they would only add easier members.
- The load generator, the event bus, the file store and the persistence of the matrix to file and ConfigMap.
- Several slices of one store sharing a backing array (the steps of a copied state): states are values here.
- The bodies of the benchmark steps, the cancelling of a run and the session ID: a step succeeds or fails, and a cancelled run shows as failing steps.
- ScaleRuns.NoFlapping: the configuration is constant over the run, and the writes before the scale-up have landed; without that ScaleUpHolds gives the window that still protects it.
- ScaleRuns.Converges: the load is constant in every metric and each metric of the configuration is reported.
- ScaleRuns.DecisionMonotone: outside reactive mode two different forecasts are non-negative, as those of the three modelled predictors are from their second data point on; TakenForNotReadyExactly says which negative ones are read as "not ready".
- WeightedMonotonicity.WeightedMonotoneExactly: metric names are distinct; the direction that gives monotonicity (WeightedTargetMonotone) needs no such assumption.
- StorageRuns.CloseWritesAreCritical: speaks of acknowledged writes, since the code does not note a write whose reply was lost.
- OrchestratorRuns.BoundedStop: bounds the runs begun, and does not show that k + 1 of them can be.
