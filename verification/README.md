# Verified model of the trading bot's stateful core

A Dafny 4.11 model of the parts of the bot that keep state over time, with proofs of what they keep:

- the bar-by-bar backtest engine with its delay queue, session flattening, cost model and recorded
  signals (`Engine*.dfy`, `Costs.dfy`, `Calendar.dfy`, `Intraday.dfy`, `VenueCosts.dfy`);
- the indicator enrichment, its prefix cache, the walk-forward splitter, and one recorder over all its
  runs (`Indicator*.dfy`, `WalkForward.dfy`, `WalkForwardSignals.dfy`);
- the deadline-cut evidence sweep with its persisted cursors (`EvidenceSweep.dfy`, `GateRefresh.dfy`,
  `GateSweeps.dfy`);
- the scheduler worker: generations, heartbeats, abandoned job runs, the watchdog (`Scheduler*.dfy`);
- the reconciliation sweep: its write-skipping cache, the trade stream beside it, and its verdict
  (`WriteCache.dfy`, `WriteRaces.dfy`, `Reconciliation.dfy`, `ReconciliationVerdict.dfy`);
- the circuit breaker with bounded self-healing: whole actions one after another (`Breaker.dfy`,
  `BreakerRuns.dfy`, `BreakerHealing.dfy`), and their single writes interleaved by threads
  (`BreakerThreads.dfy`, `BreakerLog.dfy`, `BreakerBounds.dfy`);
- at-most-once order submission (`Submission.dfy`) and the backup stop (`BackupStop.dfy`).

Code that changes things step by step is written as methods and classes with the source's variables,
each proved equal to a specification function; the properties are lemmas about those functions, over
every input, run or interleaving. Concurrent code (scheduler, submission, automation controls, write cache, backup stop) is a state
machine whose actions are the atomic steps of the source, and what the classes beside it do alone is a
run of that machine. The strategy is any function of the window it is shown. Clocks, deadlines,
fetches, broker replies, job durations and crashes are parameters a theorem ranges over.

`dafny verify dfyconfig.toml` checks everything.

## Where the code and its documentation differ

The model follows the code.

- `app/backtesting/engine.py:9-11` says a take-profit fills at the better of its level and the open;
  the code fills at exactly the level (`EngineRules.TargetsFillAtTheirLevel`).
- `app/automation/scheduler_worker.py:178-184` says a superseded thread "can never double-run jobs
  alongside the replacement": it goes on with the tick it is in, and can
  (`SchedulerSafety.SupersededThreadDoubleRuns`), and can set a job's last run back
  (`SchedulerCadence.SupersededThreadHurriesTheJob`). No job runs early beside itself exactly when
  self-healing is off or every job is bounded (`SchedulerSafety.NoDoubleRunExactly`).
- `app/broker/etoro_live_backup_stop.py:307-314` says a partial portfolio read counts as "still open":
  one without the account's credit does not (`BackupStop.RecheckIsWeakerThanThePass`).
- `app/backtesting/venue_costs.py:67-70` promises its replay for the same bars, and there it holds
  (`VenueCosts.RecordThenReplay`). One recorder serves all folds of minute bars, though. With the default
  settings, whose train windows are no longer than the step, that is right too
  (`WalkForwardSignals.EvaluateWalkForward`). With a train window longer than the step, an embargo and a
  test at least as long as the step, a gap in the bars lets the key take one fold's window for another's;
  these settings are exactly the ones (`WalkForwardSignals.OneRecorderServesExactly`).
- `app/indicators.py:42-49` says any prefix is sliced from the full computation: a cache hit checks only
  the end rows, so it is right exactly when `Indicators.PrefixCache.EnrichTechnicalIndicators` says so.
- `ending_cash` (`app/backtesting/engine.py:304`) is the last equity point, not the cash: they agree
  exactly when `EngineCash.EndingCashExact` says so.
- A failed fetch can make a pass lose its place (`GateRefresh.FailedFetchLosesItsPlace`), exactly as
  `GateRefresh.PassAdvances`, `GateRefresh.PassIsOneStretchExactly` and
  `GateRefresh.PassResumesAtItsPlaceExactly` say; a pass that covers nothing still skips a symbol
  (`GateRefresh.ZeroSymbolPassSkipsASymbol`).
- `app/automation/auto_recover.py:10-13` says that self-healing never touches an operator pause, a manual
  kill switch, a wrong account or a trading block. It does when a later trip without a marker overwrites
  the reason (`BreakerHealing.WrongAccountIsForgotten`, `BreakerHealing.HonestPauseIsOverridden`), and
  when it is already past its guards (`BreakerThreads.RecoveryUnderWayLiftsAPause`,
  `BreakerThreads.RecoveryUnderWayForgetsAMismatch`); over every interleaving these two are exactly the
  ways (`BreakerThreads.HeldOffExactly`, `BreakerThreads.PauseSurvivesExactly`). A crash between a
  resume and its count beats the daily cap (`BreakerHealing.CrashBeatsTheDailyCap`).
- A kill switch or a trip also pauses (`app/automation/service.py:69-74`), but a resume on another thread
  can fall between its writes and leave a killed bot not paused (`BreakerLog.ResumeInsideATrip`).
- `app/automation/reconciliation.py:191-192` says the next sweep rewrites a streamed row: not when the
  update ran between the sweep's write and its record (`WriteRaces.StreamedUpdateCanBeHidden`).
- `app/broker/etoro_live_backup_stop.py:192-193` says the merge keeps what another container recorded:
  not what it records between the merge's load and its save (`BackupStop.RecordingIsOverwritten`).
- `holdout_window` does not check the embargo that `split` rejects (`WalkForward.HoldoutRaisesExactly`).

## Model

| member | source | states |
|---|---|---|
| `Calendar.CountFridayClosesCrossed` | app/backtesting/cost_model.py:325-336 | the loop counts exactly the Friday midnights in (entry, exit] |
| `Calendar.FridayClosesClosedForm` | app/backtesting/cost_model.py:325-336 | that set's size is a closed form of the two dates, whatever the times of day |
| `Calendar.SessionsSince` | app/automation/max_hold_exit.py:51-60 | the loop counts the weekdays after the entry day up to today |
| `Calendar.SessionDaysClosedForm` | app/automation/max_hold_exit.py:51-60 | the count equals its mod-7 closed form |
| `Calendar.SessionsSplit` | app/automation/max_hold_exit.py:51-60 | sessions of a..c are those of a..b plus b..c for every split |
| `Costs.EffectiveDaysAreDayWeights` | app/backtesting/cost_model.py:196-223 | the days charged are one per calendar day crossed plus the weekend extra of each Friday crossed |
| `Costs.HoldingCostIsSumOverDays` | app/backtesting/cost_model.py:196-223 | the financing charge is the sum of the daily charges of the days carried into, the early returns hiding nothing |
| `Costs.HoldingCostAdditive` | app/backtesting/cost_model.py:196-223 | financing over a..c is a..b plus b..c for every split, weekend charge included |
| `Costs.ShortHoldingCostAdditive` | app/backtesting/cost_model.py:225-244 | the same for the borrow charge of a short |
| `Costs.ShortHoldingCostIsSumOverDays` | app/backtesting/cost_model.py:225-244 | a short pays the financing of the days carried into and the borrow fee, if there is one, for every calendar day |
| `Costs.BasisPointsAreShares` | app/backtesting/cost_model.py:246-275 | the currency and slippage charges are shares of the notional: additive over its parts, and a basis point is a dollar in ten thousand |
| `Costs.CommissionIsTheLargest` | app/backtesting/cost_model.py:253-261 | the commission of a leg is the largest of the per-share price, the minimum and nothing |
| `Costs.LegFeeIsFlatAndShare` | app/backtesting/cost_model.py:263-268 | two charged legs differ by the percentage of their difference and share one flat fee |
| `Costs.SaleFeesAreCapped` | app/backtesting/cost_model.py:301-317 | a sale pays the share of its proceeds and a per-share fee never above its cap |
| `Costs.SpreadNeverHelps` | app/backtesting/cost_model.py:144-194 | no fill beats its reference price, on either side or leg |
| `Intraday.SortIsSorted` | app/backtesting/engine.py:393-403 | the normalized frame is in time order and holds exactly the given rows |
| `Intraday.LaterBarsDoNotMatter` | app/backtesting/intraday.py:33-59 | bars after bar i do not change which sessions count as completed before it |
| `Intraday.SessionAtrUsesCompletedSessions` | app/backtesting/intraday.py:33-59 | the average range a bar sees is built from the sessions before its own only |
| `Intraday.SessionsSummarise` | app/backtesting/intraday.py:42-47 | there is one session for every New York date with a bar, in order; its extremes are reached and never exceeded by its bars, and it closes with its last one |
| `Intraday.TrueRangeIsTheSpan` | app/backtesting/intraday.py:48-56 | a true range is the whole span a session moved over from the close before it |
| `Intraday.AverageIsOfTheLastFourteen` | app/backtesting/intraday.py:57-59 | the average takes four sessions and lies between any bounds of the last fourteen true ranges |
| `Intraday.AverageRolls` | app/backtesting/intraday.py:57-59 | a further session moves fourteen times the average by its own true range less that of the session it replaces |
| `Intraday.FloorKeepsRewardToRisk` | app/backtesting/intraday.py:62-84 | the floored stop is never tighter than the floor or the signal's stop, and keeps its reward-to-risk proportion |
| `Engine.Run` | app/backtesting/engine.py:131-304 | the loop over bars computes the specification run, errors included; what every trade of that run is, is `EngineFills.EveryTradeIsTold` |
| `EngineCash.StepKeepsBalance` | app/backtesting/engine.py:182-276 | one bar keeps cash plus entry notional equal to initial cash plus closed profit |
| `EngineCash.CashConserved` | app/backtesting/engine.py:182-276 | that balance holds at every loop head, long or short |
| `EngineCash.FinalCashConserved` | app/backtesting/engine.py:278-302 | a finished run's cash is the initial cash plus the sum of closed pnl |
| `EngineCash.EndingCashExact` | app/backtesting/engine.py:254-304 | `ending_cash` equals that sum unless a bar closes a trade and it and every later evaluated bar leave by an early turn; then by how much they differ, and that they agree only if the close realised exactly the last mark |
| `EngineCash.EndingCashAgrees` | app/backtesting/engine.py:254-304 | so they agree whenever the last evaluated bar reaches its equity point or a trade is left for the end-of-data close |
| `EngineCash.EndingCashCanLag` | app/backtesting/engine.py:254-257 | a concrete run that ends with 90 in cash and reports 100 |
| `EngineCash.EntryIsFair` | app/backtesting/engine.py:505-572 | an entry pays its notional out of cash it had, at the spread-adjusted open |
| `EngineCash.EquityIsWorth` | app/backtesting/engine.py:239-276 | the equity point of a bar is the initial cash, every closed profit and the paper profit of the trade it leaves open at its own close |
| `EngineCash.AllTradesAreFair` | app/backtesting/engine.py:616-687 | every recorded pnl is its price move times quantity less financing, currency cost and fees |
| `EngineCausality.OrdersReadTheOpen` | app/backtesting/engine.py:505-572 | an order reads only the open and time of its fill bar |
| `EngineCausality.EngineIsCausal` | app/backtesting/engine.py:170-276 | frames that agree on bars 0..i and on bar i+1's open and time give the same whole state after bar i, queue, session ends and stop floor included |
| `EngineDelay.QueueContents` | app/backtesting/engine.py:245-273 | what the bounded signal queue holds before every bar |
| `EngineDelay.DelayRule` | app/backtesting/engine.py:376-433 | with delay k, bar i tries to open if and only if the direct rule on bar i-k says so, on bar i-k's signal |
| `EngineDelay.NoEntryFromABusySignal` | app/backtesting/engine.py:179-180 | every trade's signal bar and all bars up to its entry ended flat; it fills at the open k+1 bars later |
| `EngineSessions.FlattenKeepsTradesInSession` | app/backtesting/engine.py:195-251 | with flattening on each trade lies in one New York session but for a strategy exit raised on a session's last bar, and the end-of-data close never fires |
| `EngineRules.StopsAreConservative` | app/backtesting/engine.py:436-503 | a bar that touches the stop always closes the trade at a traded price, before any target: at the open if the trade is due, else at the worse of level and open |
| `EngineRules.TargetsFillAtTheirLevel` | app/backtesting/engine.py:436-503 | a target fills at exactly its level |
| `EngineRules.NoExitIsMissed` | app/backtesting/engine.py:436-503 | a trade survives a bar if and only if no level was touched, it was not due and no opposite signal could act |
| `EngineRules.SizeIsLargestWithinBudget` | app/backtesting/engine.py:593-613 | risk sizing is the largest quantity within the risk budget and the leveraged cash |
| `EngineFills.OpensExactly` | app/backtesting/engine.py:245-273 | a trade is opened after a bar if and only if the bars from its signal on were flat and unbroken, there is a next bar, and the signal may open a trade and its order, sized from the initial cash and all earned since, is not refused |
| `EngineRules.UnbudgetedSizeSpendsTheCash` | app/backtesting/engine.py:593-604 | without a risk budget or a stop the order spends exactly the cash |
| `EngineFills.PlannedExitIsExplained` | app/backtesting/engine.py:436-503 | every planned exit, by reason: a time stop at the bar's open, a stop at the worse of level and open, a target at its level, a strategy exit at the next bar's open and time |
| `EngineFills.EntryIsExplained` | app/backtesting/engine.py:505-572 | every entry: an opening signal with a plan in order, filled at the next bar's open half a spread worse, its levels the signal's or floored in proportion |
| `EngineFills.EntrySpendsWhatWasEarned` | app/backtesting/engine.py:593-613 | a fresh trade was sized from the initial cash and all the run has earned: the loss at its stop is the risk budget or its notional the leveraged cash, whichever binds first |
| `EngineFills.OrderIsRefusedExactly` | app/backtesting/engine.py:505-550 | an order is refused if and only if its plan is broken, the open is not a price, it would fill in extended hours that are not allowed, or its size is nothing or below the minimum |
| `EngineFills.RecordIsEarned` | app/backtesting/engine.py:616-687 | a record repeats its trade's terms, and its pnl is the price move in its direction less the financing, currency, commission, slippage and sale charges of its two legs |
| `EngineFills.ExitSpreadIsTheGap` | app/backtesting/engine.py:616-696 | the spread recorded at a regular exit is the quantity times the gap between reference and fill |
| `EngineFills.EveryTradeIsTold` | app/backtesting/engine.py:182-302 | every trade of a finished run was opened at an open on a signal of the delay before it, closed for the first reason that held at the price of the bar its exit time names, never at a close the strategy had seen, and earned its move less its charges |
| `VenueCosts.RecordedSignals.GenerateSignal` | app/backtesting/venue_costs.py:79-84 | answers from the record, else records the strategy's signal under the window's key |
| `VenueCosts.RunRecorded` | app/backtesting/engine.py:182-304 | the engine loop over a recorder: its result is the run over the recording, it requests exactly one signal per evaluated bar it reaches, in order, whatever its position or settings, and what it evaluates and records |
| `VenueCosts.RunReadsOnlyEvaluatedSignals` | app/backtesting/engine.py:182-192 | two strategies that agree on the evaluated windows give the same run |
| `VenueCosts.ReplayEqualsReevaluation` | app/backtesting/venue_costs.py:66-84 | a run over recorded signals under any other configuration is the run of the strategy itself |
| `VenueCosts.RecordingStaysFaithful` | app/backtesting/venue_costs.py:79-84 | what a run adds to a faithful recording keeps it faithful |
| `VenueCosts.RecordThenReplay` | app/backtesting/batch.py:280-292 | two engine runs of one frame over one recorder under different configurations are both runs of the strategy itself, and the second evaluates no window |
| `VenueCosts.NothingLeftToEvaluate` | app/backtesting/venue_costs.py:79-84 | a second pass over a recorded frame runs the strategy on no window |
| `VenueCosts.StaleSignalAcrossFrames` | app/backtesting/venue_costs.py:79-84 | two windows that share length and end timestamps share a key, and the second gets the first one's signal |
| `VenueCosts.FaithfulAcrossFrames` | app/backtesting/venue_costs.py:79-84 | for one strategy, when a recording made on one frame is faithful on another |
| `VenueCosts.FaithfulForEveryStrategyExactly` | app/backtesting/venue_costs.py:79-84 | a recording made on one frame is faithful on another for every strategy if and only if evaluated windows that share a key are equal |
| `Indicators.ColumnOfPrefix` | app/indicators.py:70-172 | no rolling, exponential, shift, cumulative or per-session operator, defined on whole columns, looks past its row |
| `Indicators.EvalOfPrefix` | app/indicators.py:42-49 | nor does any composition of them without a look-ahead operator; every column of the enrichment is such a composition |
| `Indicators.WholeSessionLooksAhead` | app/indicators.py:157-160 | the opening range as one aggregate of the session, the form it replaced, does look ahead: its first bar differs from the prefix's |
| `Indicators.ScanIsColumn` | app/indicators.py:70-172 | a pass over the rows with each operator's running memory computes the whole-column definition |
| `Indicators.EwmScanIsMean` | app/indicators.py:80-92 | the recurrence that decays over missing values is the exponential mean of the values up to the row |
| `Indicators.EwmIsAWeightedSum` | app/indicators.py:80-92 | without gaps that mean weighs row j of i by (1 - alpha)^(i - j), times alpha but for the first |
| `Indicators.MeanAcrossAGap` | app/indicators.py:80-92 | across missing values the mean so far fades by (1 - alpha) a row and is weighed against the next value |
| `Indicators.SumScanIsTotal` | app/indicators.py:133-135 | a running total is the sum of the present values up to the row |
| `Indicators.EnrichOfPrefix` | app/indicators.py:42-49 | slicing the full enrichment is enriching the prefix, for every column and prefix |
| `Indicators.PrefixCache.Lookup` | app/indicators.py:21-34 | what a hit returns and what it checked |
| `Indicators.PrefixCache.EnrichTechnicalIndicators` | app/indicators.py:59-67 | the cached enrichment equals a fresh one if and only if a hit's data is a prefix of the source |
| `Indicators.RollingIsAWindow` | app/indicators.py:133-148 | row i of a rolling operator aggregates exactly rows i-n+1..i, and is absent before n rows |
| `Indicators.ShiftLooksBack` | app/indicators.py:143-148 | row i of a shift by k is row i-k, absent before k rows |
| `Indicators.SessionScanIsFold` | app/indicators.py:150-165 | row i of a grouped cumulative operator folds its own session's values up to i |
| `Indicators.SessionBarColumn` | app/indicators.py:156 | the session bar number counts the session's bars up to i |
| `Indicators.OpeningRangeIsCausalExtreme` | app/indicators.py:157-165 | the opening range on bar k of a session is the extreme of its first min(k, 5) bars |
| `IndicatorColumns.OpeningRangeColumns` | app/indicators.py:150-165 | the opening-range columns a minute frame comes back with are, at every row, the extremes of the first five bars of its date seen so far |
| `IndicatorColumns.AveragesAreMeans` | app/indicators.py:80-81 | the averaging columns it comes back with are the means of the last twenty or fifty rows, and missing before |
| `IndicatorColumns.ExponentialsFollowTheClose` | app/indicators.py:82-85 | its exponential averages start at the first close and move by two parts in n + 1 of the way to each close |
| `IndicatorColumns.ExtremesAreOfEarlierRows` | app/indicators.py:143-146 | its swing and range columns are the extremes of the ten or twenty rows before, the row itself left out |
| `IndicatorColumns.TrueRangeColumn` | app/indicators.py:112-119 | its true range is the whole span a row moved over from the close before |
| `IndicatorColumns.AtrColumn` | app/indicators.py:120 | its average true range is the mean of the last fourteen of those, and missing before |
| `IndicatorColumns.DeviationColumn` | app/indicators.py:106 | its band deviation is the sample deviation of the last twenty closes |
| `IndicatorColumns.BalanceColumn` | app/indicators.py:133-135 | its volume balance starts at nothing and takes each row's volume with the sign of its move |
| `IndicatorColumns.RelativeVolumeColumn` | app/indicators.py:137-138 | its relative volume is the volume over the mean of the last twenty, and missing where that is missing or zero |
| `IndicatorColumns.VolumeSpikeColumn` | app/indicators.py:141 | a spike is a volume of one and a half times that mean at least |
| `IndicatorColumns.AtrPercentColumn` | app/indicators.py:121 | its range in percent is a hundred average true ranges over the close |
| `WalkForward.ConfigError` | app/backtesting/walk_forward.py:72-95 | which configurations raise |
| `WalkForward.FoldCountIsExact` | app/backtesting/walk_forward.py:96-119 | a candidate is tried if and only if its number is below a closed form |
| `WalkForward.Split` | app/backtesting/walk_forward.py:72-119 | the loop yields the non-empty candidates in order; a good configuration never raises |
| `WalkForward.FoldsAreCandidates` | app/backtesting/walk_forward.py:96-119 | every fold is the first window shifted by k steps, with exactly the rows of its intervals |
| `WalkForward.FoldsDoNotLeak` | app/backtesting/walk_forward.py:96-163 | test rows come more than the embargo after train rows, none past the holdout boundary |
| `WalkForward.TestOverlapExact` | app/backtesting/walk_forward.py:96-119 | two folds' tests share an instant if and only if they are at most the test length apart |
| `WalkForward.TestSetsTouchAtMostOnce` | app/backtesting/walk_forward.py:96-119 | disjoint when step > test; when equal only neighbours share the one boundary instant |
| `WalkForward.FoldsStayOutOfTheHoldout` | app/backtesting/walk_forward.py:121-163 | fold rows come before holdout test rows, strictly with an embargo |
| `WalkForward.HoldoutRaisesExactly` | app/backtesting/walk_forward.py:121-133 | the holdout raises exactly for a negative embargo with rows on both sides |
| `WalkForward.FoldRunEvaluatesTheTestRows` | app/backtesting/batch.py:68-98 | a fold's run holds its test rows and its train rows, or every earlier row when the strategy needs more, evaluates the test rows and nothing else, and shows no embargo or later row |
| `WalkForwardSignals.CollideExactly` | app/backtesting/venue_costs.py:79-84 | windows of two folds, or of a fold and the holdout, share a key and differ if and only if they have a test row in common, start at one row and their embargoes hide equally many rows but not the same |
| `WalkForwardSignals.FoldsDoNotCollide` | app/backtesting/intraday_plan.py:49-57 | two folds never do when the step is longer than the test, without an embargo, or when the train window is no longer than the step, as in the default settings |
| `WalkForwardSignals.HoldoutDoesNotCollide` | app/backtesting/batch.py:569-602 | no fold ever does with the holdout |
| `WalkForwardSignals.RunsDoNotCollide` | app/backtesting/batch.py:280-303 | under such settings no two runs do, of folds or the holdout, in any order, repeated or under another configuration |
| `WalkForwardSignals.GappedCollide` | app/backtesting/walk_forward.py:96-119 | under any other settings a history with a gap of one step, as a weekend is, on which the second and third fold do |
| `WalkForwardSignals.OneRecorderServesExactly` | app/backtesting/venue_costs.py:66-84 | one recorder serves a walk-forward evaluation, whatever the history and the strategy, if and only if the step is longer than the test, there is no embargo, or the train window is no longer than the step |
| `WalkForwardSignals.EvaluateOnOneRecorder` | app/backtesting/batch.py:280-303 | one recorder over any list of runs none of which collides with one before gives each the result of the strategy itself |
| `WalkForwardSignals.EvaluateWalkForward` | app/backtesting/batch.py:412-477 | so under those settings the whole evaluation, every fold and the holdout under every configuration on one recorder, gives each run the result of the strategy itself; a bad splitter raises |
| `EvidenceSweep.Run` | app/backtesting/batch.py:153-308 | the three nested loops compute the specification pass |
| `EvidenceSweep.RunTimeframe` | app/backtesting/batch.py:189-305 | one turn of the timeframe loop is one step of the specification pass, skip and deadline included |
| `EvidenceSweep.SpecsSweep` | app/backtesting/batch.py:251-303 | the strategies loop extends the sweep's stretch to where it stops |
| `EvidenceSweep.TimeframesExact` | app/backtesting/batch.py:189-305 | where a symbol leaves a pass: at its stretch's end if and only if no failed fetch in it was followed by anything run; otherwise it is behind |
| `EvidenceSweep.SymbolsSweep` | app/backtesting/batch.py:176-308 | a pass ends where it says, mid-symbol at its resume unit or at a symbol's head, if and only if it is unbroken |
| `EvidenceSweep.SymbolsContiguous` | app/backtesting/batch.py:176-308 | what a pass runs is one stretch of the cyclic order if and only if nothing ran after a failed fetch of a timeframe with strategies |
| `GateRefresh.RuntimeState.RefreshBacktestGate` | app/backtesting/gate_refresh.py:50-91 | one refresh runs the pass of the due kind and leaves exactly the specified keys; which timeframes that is, is `GateSweeps.PassRunsItsKind` |
| `GateSweeps.PassRunsItsKind` | app/backtesting/gate_refresh.py:57-77 | what a refresh runs: with both kinds configured, in a daily pass exactly the daily timeframes and else exactly the minute ones, in the configured order, each from its own keys; with one kind everything |
| `GateSweeps.KindsHoldEverything` | app/backtesting/gate_refresh.py:57-58 | the two kinds of pass together hold every configured timeframe |
| `GateSweeps.RunsDailyExactly` | app/backtesting/gate_refresh.py:41-60 | a pass is a daily one if and only if both kinds are configured and the last full cycle is unknown or twelve hours old |
| `GateSweeps.PlainPassesConcatenate` | app/backtesting/gate_refresh.py:63-83 | whatever daily passes come between, the minute passes run one stretch of the minute sweep from the stored cursor and unit and leave the two at its end |
| `GateSweeps.EveryPlainUnitIsReached` | app/backtesting/gate_refresh.py:63-83 | as many minute passes as the sweep has units reach every symbol with every strategy of every minute timeframe |
| `GateRefresh.PassAdvances` | app/backtesting/gate_refresh.py:67-83 | a pass that covers a symbol runs the next stretch of the endless sweep and leaves cursor and unit at its end if and only if every failed fetch of a timeframe with strategies was in the symbol it stopped in, with nothing run after |
| `GateRefresh.PassIsOneStretchExactly` | app/backtesting/batch.py:195-221 | what it runs is one stretch if and only if no unit ran after such a failed fetch |
| `GateRefresh.PassResumesAtItsPlaceExactly` | app/backtesting/batch.py:195-221 | a pass stopped mid-symbol resumes where it stopped if and only if no such fetch failed earlier in that symbol |
| `GateRefresh.PassesConcatenate` | app/backtesting/gate_refresh.py:67-83 | wherever deadlines cut, unbroken passes concatenate to the cyclic order with no gap and no repeat |
| `GateRefresh.FullTurnHoldsEveryUnit` | app/backtesting/batch.py:153-158 | any stretch of the sweep as long as one turn holds every unit |
| `GateRefresh.EveryUnitIsReached` | app/backtesting/gate_refresh.py:67-83 | unbroken passes that each run a unit reach every unit |
| `GateRefresh.ZeroSymbolPassSkipsASymbol` | app/backtesting/gate_refresh.py:81 | a pass covers no symbol if and only if its first clock reading is late, and then still moves on by one |
| `GateRefresh.FailedFetchLosesItsPlace` | app/backtesting/batch.py:217-221 | a concrete pass that stops at unit 3 and resumes at unit 1: two units missed, one run twice |
| `GateRefresh.FailedFetchCanBeHarmless` | app/backtesting/batch.py:217-221 | a concrete pass whose failed fetch breaks nothing, since nothing ran after it |
| `GateRefresh.StretchSinceMark` | app/backtesting/gate_refresh.py:84-89 | since a mark the daily passes ran one stretch and the covered count is how far it moved |
| `GateRefresh.DailyMarkIsSound` | app/backtesting/gate_refresh.py:59-89 | between a mark and the next every daily unit ran in a pass begun no earlier than the stored stamp |
| `GateRefresh.TimelyPassesMark` | app/backtesting/gate_refresh.py:84-89 | two timely passes a cycle apart mark twice, so the theorem above speaks of real runs |
| `SchedulerSafety.NoSpuriousRestart` | app/automation/scheduler_worker.py:94-104 | with bounded jobs no run restarts a live worker and no superseded thread lives on |
| `SchedulerSafety.WatchdogSparesLiveWorkersExactly` | app/automation/scheduler_worker.py:155-223 | the watchdog never takes a live worker for hung if and only if it is off or every timeout is positive and within its patience |
| `SchedulerSafety.UnboundedJobIsTakenForAHang` | app/automation/scheduler_worker.py:248-257 | any job outside those bounds has a run that gets a live worker replaced |
| `SchedulerSafety.NoJobStartsEarlyBesideItself` | app/automation/scheduler_worker.py:262-288 | with self-healing off or every job bounded, each run of a job starts after every earlier one ended, or the grace period after it timed out |
| `SchedulerSafety.SparedSchedulerIsSafe` | app/automation/scheduler_worker.py:120-338 | from a fresh worker under those settings one live thread at most, no restart of a live one and no early overlap, over every sequence of steps, stops, starts and probes |
| `SchedulerSafety.NoDoubleRunExactly` | app/automation/scheduler_worker.py:178-184 | over all runs no job starts early beside its own earlier run if and only if self-healing is off or every timeout is positive and within the patience |
| `SchedulerSafety.UnboundedJobRunsBesideItself` | app/automation/scheduler_worker.py:178-223 | any other job has a run in which the replacement starts it while its first run goes on |
| `SchedulerSafety.SupersededBeginsAtMostOneTick` | app/automation/scheduler_worker.py:327-338 | whatever the settings, a superseded thread begins at most one more tick, and only if past the loop's check |
| `SchedulerSafety.SupersededThreadDoubleRuns` | app/automation/scheduler_worker.py:178-184 | a concrete run where a superseded thread starts a job its replacement is running |
| `SchedulerWorker.Worker.constructor` | app/automation/scheduler_worker.py:68-116 | the tick is at least a second and the patience at least three ticks |
| `SchedulerWorker.Worker.StartWorker` | app/automation/scheduler_worker.py:120-144 | starting is idempotent while a worker lives; else a new generation with a fresh beat |
| `SchedulerWorker.Worker.EnsureWorkerAlive` | app/automation/scheduler_worker.py:155-176 | exactly when a worker is restarted, and the new state |
| `SchedulerWorker.Worker.RestartLocked` | app/automation/scheduler_worker.py:178-208 | a restart counts, resets the beat and adds one thread |
| `SchedulerWorker.Worker.PreviousAlive` | app/automation/scheduler_worker.py:262-288 | blocks while the abandoned run lives within the grace period, and forgets it otherwise |
| `SchedulerWorker.Worker.RunOne` | app/automation/scheduler_worker.py:237-258 | one job of a tick: skipped, run to its return or raise, ended by a fatal error with its thread, or abandoned at its timeout |
| `SchedulerWorker.Worker.RunDueJobs` | app/automation/scheduler_worker.py:227-260 | a whole undisturbed tick is a run of the machine and runs exactly the jobs that never ran or whose interval has passed and that no abandoned run blocks, in order, those before a fatal error if there is one |
| `SchedulerCadence.VisitStartsExactly` | app/automation/scheduler_worker.py:227-288 | under any settings a thread that comes to a job starts it if and only if it never ran or its interval has passed since its last tick, and no abandoned run of it goes on within the grace period |
| `SchedulerCadence.StartsOfAThreadAreApart` | app/automation/scheduler_worker.py:59-62 | under any settings two starts of a job by one thread are at least its interval of tick time apart, unless another thread stopped waiting for a run of it in between |
| `SchedulerCadence.CadenceIsKept` | app/automation/scheduler_worker.py:59-62 | with self-healing off or every job bounded, from a fresh worker any two starts of a job by any threads are at least its interval apart |
| `SchedulerCadence.SupersededThreadHurriesTheJob` | app/automation/scheduler_worker.py:256-259 | a concrete run in which a superseded thread sets a ten-second job's last run back and the replacement starts it again after five |
| `SchedulerCadence.RunsAreGivenUpOnTime` | app/automation/scheduler_worker.py:248-323 | under any settings a run is given up exactly at its job's own limit or the default one, and only when it has one and has not ended by then |
| `WriteCache.UnknownWritesAreBounded` | app/automation/reconciliation.py:443-454 | rows of unknown state cost at most the budget of 150 writes a sweep, whatever fails |
| `WriteCache.KnownRowsAreExact` | app/automation/reconciliation.py:443-454 | a row known to have changed is always written, one known unchanged never |
| `WriteCache.SweepStaysInStep` | app/automation/reconciliation.py:328-358 | in a sweep without a streamed update each record is what was last stored, but for writes that stored and then raised |
| `WriteCache.FailedWriteEndsTheSweep` | app/automation/reconciliation.py:328-358 | a write that raises ends the sweep: nothing is written after it, and its row's record stays though the row may be stored |
| `WriteCache.SweepReachesUnknown` | app/automation/reconciliation.py:217-222 | a complete sweep records every row it reaches and leaves min-budget fewer unknown, each written at most once |
| `WriteCache.UnknownRowsRunOut` | app/automation/reconciliation.py:42-52 | n sweeps leave at most N - n(150 - s) unknown rows, whatever the order of the listings |
| `WriteCache.RestartConverges` | app/automation/reconciliation.py:42-52 | after a restart N unchanged rows are all stored within K sweeps, N <= K(150 - s) |
| `WriteCache.SettledSweepRewritesItsSlice` | app/automation/reconciliation.py:217-222 | once settled a sweep rewrites exactly the rows of its slice, once each |
| `WriteCache.RewrittenOnceACycle` | app/automation/reconciliation.py:42-52 | so each row is rewritten exactly once every 12 sweeps |
| `WriteCache.AnyDriftHeals` | app/automation/reconciliation.py:42-52 | from any records and store, K + 12 sweeps make the store right |
| `WriteCache.DriftHealsInACycle` | app/automation/reconciliation.py:42-52 | while the unknown rows and one slice fit in the budget, any drift heals within 12 complete sweeps |
| `WriteRaces.OfferIsTwoSteps` | app/automation/reconciliation.py:328-331 | a row that nothing comes between is offered in two steps, its write and its record |
| `WriteRaces.OutOfStepExactly` | app/automation/reconciliation.py:328-358 | over every interleaving of sweeps and streamed updates, each record is of a write of the sweep's own, and is out of step if and only if the row was written again with another content after that write |
| `WriteRaces.OnlyRacesAreOutOfStep` | app/automation/reconciliation.py:187-196 | with nothing torn and nothing under way the keys out of step are exactly those whose streamed update ran between the sweep's write and its record |
| `WriteRaces.StreamedUpdateCanBeHidden` | app/automation/reconciliation.py:191-196 | the concrete race: nothing fails, the store has the streamed row, and the next sweep skips the row as written |
| `Reconciliation.VerdictIsCleanExactly` | app/automation/reconciliation.py:278-387 | no issue if and only if the account is verified and unblocked and every position is owned and covered or flattened |
| `ReconciliationVerdict.CoveredExactly` | app/automation/reconciliation.py:59-64 | a position is covered if and only if a live order, filled, would bring it towards zero, or a bracket of ours on its symbol has a live leg that names a stop |
| `ReconciliationVerdict.IssuesExactly` | app/automation/reconciliation.py:278-387 | every issue from the broker's fields: another account, blocked trading, a position that is none of ours, or a bare one that was not flattened |
| `ReconciliationVerdict.CleanExactly` | app/automation/reconciliation.py:278-387 | so the verdict is clean if and only if the account is right and unblocked and every position is ours and is not bare or was flattened |
| `ReconciliationVerdict.FlattensExactly` | app/automation/reconciliation.py:360-380 | a flatten is tried for exactly the bare positions that are ours, in order |
| `ReconciliationVerdict.BreaksExactly` | app/automation/reconciliation.py:366-380 | which positions write to the log and so can be cut by a failing log write |
| `ReconciliationVerdict.ExitsExactly` | app/automation/reconciliation.py:292-306 | an execution's exits are exactly the filled, legless sells of its symbol that are none of ours, in order |
| `ReconciliationVerdict.RowsExactly` | app/automation/reconciliation.py:319-358 | the rows an order writes: its execution's with the exits, its own, and one per leg, in that order, under those keys |
| `Reconciliation.ListOrderDoesNotMatter` | app/automation/reconciliation.py:319-387 | neither order nor repetition of the broker's lists changes the verdict |
| `Reconciliation.CollectExits` | app/automation/reconciliation.py:296-306 | the standalone filled sells by symbol, in order |
| `Reconciliation.Classify` | app/automation/reconciliation.py:319-348 | one order keeps the four sets meaning what they stand for |
| `Reconciliation.JudgeOne` | app/automation/reconciliation.py:360-380 | the issues of one position, and whether its flatten is tried |
| `Reconciliation.Judge` | app/automation/reconciliation.py:360-387 | the positions loop gives the quantified verdict and the closes it tried, or ends at the first failing log write |
| `Reconciliation.ReconciliationService.NeedsWrite` | app/automation/reconciliation.py:443-454 | whether a row is written, and the budget it takes |
| `Reconciliation.ReconciliationService.WriteRow` | app/automation/reconciliation.py:328-331 | the fingerprint is recorded only after the write succeeds |
| `Reconciliation.ReconciliationService.WriteAndClassify` | app/automation/reconciliation.py:319-358 | the orders loop writes all rows in order until one raises, and classifies |
| `Reconciliation.ReconciliationService.Reconcile` | app/automation/reconciliation.py:217-387 | one attempt: eviction, writes, verdict; a raise before the positions ends it without a close, and a log write that raises among them ends it with the flattens up to there tried |
| `Reconciliation.ReconciliationService.IngestOrderUpdate` | app/automation/reconciliation.py:162-202 | a streamed update stores its rows and forgets their records, or stops where a write raises |
| `Reconciliation.IngestKeepsStep` | app/automation/reconciliation.py:191-196 | a complete update that no sweep overlaps keeps records and store in step; a failed one leaves at most its written rows out of step |
| `Breaker.AutomationService.SetState` | app/automation/service.py:138-149 | the whole new state of a control action |
| `Breaker.AutomationService.PauseAutomation` | app/automation/service.py:63-64 | a pause leaves the kill switch and the breaker's reason as they are |
| `Breaker.AutomationService.ResumeAutomation` | app/automation/service.py:66-67 | a bare resume lifts pause and kill switch and leaves the breaker's reason |
| `Breaker.AutomationService.ClearCircuitBreaker` | app/automation/service.py:134-136 | clearing removes the reason and nothing else |
| `Breaker.AutomationService.ScanBlockers` | app/automation/service.py:76-82 | scanning is blocked if and only if the bot is killed, by setting or state, or paused |
| `Breaker.AutomationService.EnableKillSwitch` | app/automation/service.py:69-74 | the kill switch also pauses |
| `Breaker.AutomationService.TripCircuitBreaker` | app/automation/service.py:127-132 | a trip stores its reason, kills, pauses and marks the reason as the breaker's |
| `Breaker.AutomationService.ExecutionBlockers` | app/automation/service.py:84-104 | the list is non-empty if and only if execution is blocked, and names the breaker's reason |
| `Breaker.AutomationService.RecordSweep` | app/automation/reconciliation.py:585-619 | the failure count and the trip of an unsafe account or at the threshold |
| `Breaker.AutomationService.TryAutoRecover` | app/automation/auto_recover.py:42-112 | exactly when it resumes, and every key it leaves |
| `Breaker.TripsExactly` | app/automation/reconciliation.py:609-614 | a failed sweep trips if and only if an issue is a wrong account, an unknown or an unprotected position, or it is the last failure allowed |
| `Breaker.RecoveryDoesExactly` | app/automation/auto_recover.py:42-112 | what an attempt leaves: nothing changed unless the bot is a paper one, not killed by setting, held by the breaker's own reason without a marker, with the interval over and a resume left; a probe and the failed sweep's doing; or a bot unpaused and counted |
| `BreakerRuns.BreakerHoldsUntilCleared` | app/automation/service.py:84-88 | once the breaker has a reason execution stays blocked through bare resumes and crashes until cleared |
| `BreakerRuns.TripFailsClosed` | app/automation/service.py:127-132 | a trip cut anywhere after its first write already blocks execution |
| `BreakerRuns.FailureCountIsStreak` | app/automation/reconciliation.py:140-149 | the failure count is the current failing streak of the sweeps that ran |
| `BreakerRuns.StreakTripsAtThreshold` | app/automation/reconciliation.py:609-619 | a streak at the threshold, or an unsafe account, has tripped the breaker with its issues |
| `BreakerRuns.DailyCapHolds` | app/automation/auto_recover.py:70-74 | on every day at most the configured number of resumes |
| `BreakerRuns.ProbesAreSpaced` | app/automation/auto_recover.py:60-69 | any two probes are at least the interval apart, crashes included |
| `BreakerHealing.WrongAccountIsForgotten` | app/automation/service.py:127-132 | a concrete run where a later trip overwrites the mismatch and self-healing resumes the bot |
| `BreakerHealing.PauseStays` | app/automation/service.py:138-149 | only an operator resume or a clean recovery that acts lifts a pause |
| `BreakerHealing.HonestPauseIsOverridden` | app/automation/auto_recover.py:55-56 | a concrete run where a trip over an honest pause lets self-healing lift it |
| `BreakerHealing.PosingPauseIsOverriddenExactly` | app/automation/auto_recover.py:55-56 | a pause is overridden at once if and only if its reason carries the breaker's prefix and self-healing is ready but for who acted last |
| `BreakerHealing.CutPauseIsOverridden` | app/automation/service.py:138-143 | a pause cut before its reason is written is overridden if and only if self-healing would have acted without it |
| `BreakerHealing.CapHoldsUpToLostCounts` | app/automation/auto_recover.py:88-99 | through crashes the stored count keeps the daily cap, and the lifts of a day are the counted ones plus those whose count a crash lost |
| `BreakerHealing.CrashBeatsTheDailyCap` | app/automation/auto_recover.py:88-99 | a concrete day with a cap of one on which self-healing lifts the pause twice |
| `BreakerThreads.EventIsARun` | app/automation/service.py:127-149 | an action that nothing interferes with, cut after any of its writes, is a run of the machine of interleaved single writes |
| `BreakerThreads.HeldOffExactly` | app/automation/auto_recover.py:52-99 | over every interleaving from any state, recoveries can at no point lift a pause if and only if none is past its guards at the start and the writes that land never leave a breaker's mark beside a reason without a marker |
| `BreakerThreads.PauseSurvivesExactly` | app/automation/auto_recover.py:55-99 | over every interleaving without an operator resume, a pause or kill switch holds, against recoveries at every point too, if and only if no recovery is past its guards when it stands and no landed writes free self-healing later |
| `BreakerThreads.RecoveryUnderWayLiftsAPause` | app/automation/auto_recover.py:76-99 | wherever a recovery can pass its guards, an honest, uncut operator pause or kill switch taken during its sweep is lifted by it |
| `BreakerThreads.WrongAccountHoldsHealingOff` | app/automation/auto_recover.py:57-58 | a sweep that finds a wrong account trips the breaker and holds self-healing off for exactly as long as that, whatever interleaves; so at least until a reason without a marker is stored |
| `BreakerThreads.TradingBlockHoldsHealingOff` | app/automation/auto_recover.py:57-58 | so does a trading block that tripped it |
| `BreakerThreads.RecoveryUnderWayForgetsAMismatch` | app/automation/auto_recover.py:88-95 | a wrong account found after a recovery's clean sweep and before its lift is forgotten: the recovery resumes the bot |
| `BreakerLog.MarkTellsTheBreaker` | app/automation/auto_recover.py:52-56 | over every interleaving with honest operators, threads cut anywhere, the breaker's mark is there if and only if the breaker wrote the last reason |
| `BreakerLog.LiftOverridesExactly` | app/automation/auto_recover.py:52-95 | a lift comes from a breaker trip that was the last change when the guards were passed, and at the lift it still is unless another hand's reason was written meanwhile |
| `BreakerLog.KillMeansPausedExactly` | app/automation/service.py:127-149 | over every interleaving, between resumes, the kill switch is on without the pause if and only if a resume's first two writes fell inside a kill's or trip's pause and kill and stood last, or a resume of a killed bot was cut between them |
| `BreakerLog.KilledStaysPaused` | app/automation/service.py:127-149 | so a killed bot is paused, between resumes, as long as no resume or lift overlaps a kill switch or trip and none is cut between its first two writes |
| `BreakerLog.ResumeInsideATrip` | app/automation/service.py:127-149 | a concrete trip and resume, neither of them cut, that leave a killed bot not paused |
| `BreakerBounds.GuardsHeldOfTheLog` | app/automation/auto_recover.py:60-76 | over every interleaving a recovery comes at least the interval after the last probe that had landed when it passed its guards, and its day's count of then was under the cap |
| `BreakerBounds.LiftsOfADay` | app/automation/auto_recover.py:70-99 | over every interleaving and cut, a day's lifts are the growth of its stored count, plus the lifts not counted yet or cut off before, plus what recoveries that read a count before it grew took from each other; the stored count stays under the cap |
| `Submission.EToroDemoClient.ReserveId` | app/storage/repositories.py:1566-1604 | a reservation is new exactly when the id has none |
| `Submission.EToroDemoClient.CompleteId` | app/storage/repositories.py:1606-1628 | completing stores the response under the id |
| `Submission.EToroDemoClient.SubmitIdempotent` | app/broker/etoro_demo_v2.py:256-303 | one submission is a run of the machine; it sends one mutation if the id is new and none otherwise, returns what the broker replied, the store held or the lookup found, and stores exactly that |
| `Submission.ReservationDecides` | app/broker/etoro_demo_v2.py:271-282 | what a call does next, by what the store holds; a different request sends nothing |
| `Submission.NeverSentTwice` | app/broker/etoro_demo_v2.py:256-303 | over every interleaving at most one mutation is sent per id, under the request first reserved, and every response answers a mutation the broker received |
| `Submission.EmptyStoreIsSafe` | app/storage/repositories.py:1560-1564 | the theorem's invariants hold before anything was submitted |
| `Submission.StoredResponseNeedsNoBroker` | app/broker/etoro_demo_v2.py:279-280 | once a response is stored no further call of the id contacts the broker |
| `Submission.CrashBeforeSendAbandons` | app/broker/etoro_demo_v2.py:271-295 | a crash between reservation and send leaves the id abandoned |
| `Submission.AbandonedForGood` | app/broker/etoro_demo_v2.py:281-287 | an abandoned id is never sent and never answered, whatever is retried |
| `BackupStop.BackupStops.RememberStop` | app/broker/etoro_live_backup_stop.py:74-106 | a recorded stop replaces the symbol's entry |
| `BackupStop.BackupStops.ForgetStop` | app/broker/etoro_live_backup_stop.py:83-89 | drops one symbol's entry and no other |
| `BackupStop.BackupStops.CloseHeld` | app/broker/etoro_live_backup_stop.py:167-186 | closes one position after another until one is not accepted |
| `BackupStop.BackupStops.CheckOne` | app/broker/etoro_live_backup_stop.py:140-191 | one symbol: kept or not, what was learnt, and the ids closed |
| `BackupStop.BackupStops.Check` | app/broker/etoro_live_backup_stop.py:121-202 | a pass and its merge, and by symbol the ids it closed; a malformed read changes and closes nothing |
| `BackupStop.DroppedExactly` | app/broker/etoro_live_backup_stop.py:140-196 | a pass drops an entry if and only if it closed it, found it closed, or no longer finds it after seeing it or a day |
| `BackupStop.ClosesInOrder` | app/broker/etoro_live_backup_stop.py:150-170 | what a pass closes for a symbol: the positions of its instrument in the order of the read until a request is not accepted, and nothing above the stop |
| `BackupStop.ClosedByPassClosesAll` | app/broker/etoro_live_backup_stop.py:150-170 | an entry dropped as closed has the id of every position of its instrument among the closed ones, and no other position's |
| `BackupStop.KeptEntryLearns` | app/broker/etoro_live_backup_stop.py:150-202 | a kept entry learns its instrument and that it is held, and nothing else |
| `BackupStop.MergeKeepsTheRest` | app/broker/etoro_live_backup_stop.py:192-202 | levels never change and symbols recorded since the snapshot survive as they are |
| `BackupStop.BelowStopIsClosedOrKept` | app/broker/etoro_live_backup_stop.py:163-191 | a held position is closed by the pass, shown closed by a later read, or keeps its stop |
| `BackupStop.RecheckIsWeakerThanThePass` | app/broker/etoro_live_backup_stop.py:307-329 | exactly when the re-check answers as a strict reading would |
| `BackupStop.PartialReadDropsTheStop` | app/broker/etoro_live_backup_stop.py:316-326 | a read without credit drops a stop whose position no good read shows closed |
| `BackupStop.ReRecordedStopIsLostExactly` | app/broker/etoro_live_backup_stop.py:194-196 | a symbol recorded anew before the merge loses its stop if and only if the pass drops the old one |
| `BackupStop.ReRecordedOrderLosesItsGrace` | app/broker/etoro_live_backup_stop.py:197-201 | one that survives inherits that the old position was seen and is dropped while its order is queued |
| `BackupStop.LossIsAccounted` | app/broker/etoro_live_backup_stop.py:194-202 | a stored stop is gone after a step if and only if a change that had loaded it removes it for a reason, or a save puts back a copy loaded without it |
| `BackupStop.NoStopIsLostSilently` | app/broker/etoro_live_backup_stop.py:92-202 | over every interleaving of loads and saves by any processes, a stop that is gone was forgotten or dropped for a reason by a change that had loaded it, or came to be stored between another change's load and its save |
| `BackupStop.RecordingIsOverwritten` | app/broker/etoro_live_backup_stop.py:192-202 | a concrete deploy overlap in which a pass saves over a stop recorded meanwhile |

## Left out

- Floating point: prices, cash and quantities are reals, so rounding, `round(...)` in records and NaN arithmetic are not modelled (an absent value is an `Option`).
- EngineCash.CashConserved: holds over reals; the source's doubles keep it up to rounding.
- GateRefresh.DailyMarkIsSound: for a fixed universe and plan, both kinds of timeframe configured, and daily passes that are unbroken and cover a symbol, because the code itself loses units otherwise (`GateRefresh.PassAdvances` is an if-and-only-if).
- GateRefresh.PassesConcatenate: for unbroken passes that cover a symbol, for the same reason.
- IndicatorColumns.AveragesAreMeans: the columns not named in that file (RSI, MACD, ADX, VWAP and what is derived from them) are modelled as expressions whose causality is proved; their values are not restated.
- Indicators.PrefixCache.Lookup: every frame has all five columns, so the test that the data's columns are among the source's, and the skipping of an absent timestamp or close, always pass and are not modelled.
- SchedulerSafety.NoSpuriousRestart: bookkeeping takes no time; only waiting and job runs do.
- SchedulerWorker.Worker.RunDueJobs: the tick runs undisturbed; interleavings are the state machine's.
- WriteCache.AnyDriftHeals: for rows that stay unchanged and sweeps that complete, each listing every row once.
- WriteCache.SweepStaysInStep: for a sweep without streamed updates; with them `WriteRaces.OutOfStepExactly` is the exact account.
- Reconciliation.IngestKeepsStep: for an update that no sweep overlaps; see `WriteRaces.OnlyRacesAreOutOfStep`.
- VenueCosts.RecordThenReplay: for one frame; `WalkForwardSignals.EvaluateOnOneRecorder` is for all the runs of a history.
- VenueCosts.FaithfulAcrossFrames: for one strategy the condition is on its signals; `VenueCosts.FaithfulForEveryStrategyExactly` is the condition on the frames alone.
- WalkForwardSignals.CollideExactly: for a history whose rows have distinct times.
- WalkForwardSignals.EvaluateWalkForward: a run that raises does not stop the runs after it.
- BreakerThreads.HeldOffExactly: a recovery reads its guards in one step; each write is one step.
- BreakerRuns.FailureCountIsStreak: for sweeps one after another, as the sweep lock keeps those of one process.
- BreakerRuns.DailyCapHolds: for complete recoveries one after another, as their one scheduler job runs them; `BreakerBounds.LiftsOfADay` is the exact account when they overlap or are cut.
- BreakerRuns.ProbesAreSpaced: for recoveries one after another; `BreakerBounds.GuardsHeldOfTheLog` says what holds when they overlap.
- Submission.NeverSentTwice: `reserve` is one atomic step; per client order id, so an ordinary and an emergency close of one position are two ids.
- Time zones are a fixed clock function with its daylight-saving rule; the time-zone database, calendars of holidays and early closes are not part of this model.
- Case folding and trimming of symbols, sides, statuses and timeframes: values are given as the source folds them.
- Hashes and identifiers: a request stands for its SHA-256, a row's content for its fingerprint, an id for its name-based UUID, and the CRC-32 slice of a key is any function.
- pandas dtypes and the order of equal timestamps under an unstable sort.
- Strategy logic, ranking, promotion hints, deflated Sharpe and other statistics, `aggregate_out_of_sample`, and `_compile_metrics`: thresholds and formulas, no invariant.
- `short_research.py`: its cursor is the same scheme as the sweep's, and adds no harder property.
- `max_hold_exit.py` beyond `sessions_since`: fetching entries and issuing closes only.
- The bar-frequency warning, the cost-event log, minimum-position refusals beyond their effect on entry, and warnings lists of the engine.
- HTTP, SDKs, the database, locks, logging, notifications, alert signatures, governance records, learning events and the emergency stop's broker calls: parameters or not part of this model.
- Timestamps kept for display (`updated_at`, last run and last status, marks, value history, positions snapshot) and the SPY reserve's own price.
- Blocker lists of unattended, reliability and funnel checks, and the live-mode locks, which enter only as a list of blockers.
- `ensure_demo_mutation_allowed` and the argument checks of the demo client's public methods.
