# QuantPilot engine: a verified model

QuantPilot scores the A-share market once a day. Strategy z-scores are made uncorrelated, blended and ranked; a market
state and a strategy order are tracked over time; a checkpointed pipeline runs ingest, scoring and signal generation and
survives crashes; a universe filter, a signal generator, a position sizer and a risk checker turn scores into orders; and
a trading calendar does the date arithmetic under all of it. This project models those parts and proves what they
guarantee for every input, every run or every interleaving.

| part | files |
|---|---|
| score composition | `Orthogonalizer`, `OrthogonalizerTheorems`, `Scorer`, `ScorerProgram`, `ScoreTheorems`, `CompositeValues`, `Compaction`, `ShadowStrategies`, `CompositeVariance`, `StandardisedInput`, `TwoStrategies`, `PartialCoverage`, `SampleDay`, `Ranking`, `FactorPipeline` |
| state over time | `MarketState`, `Hysteresis` |
| daily pipeline | `Pipeline` (transition system), `PipelineSafety`, `PipelineGuarantees`, `SerialRuns`, `OverlappingRuns`, `PipelineProgram` |
| selection and orders | `LosingStreak`, `LosingTies`, `Universe`, `UniverseRules`, `Signals`, `SignalTheorems`, `SignalRules`, `PositionSizer`, `SizingRules`, `RiskChecker`, `IndustryLimit` |
| calendar | `Calendar` |
| shared | `Vectors`, `Statistics`, `Series`, `Sorting`, `Projection`, `Outcomes` |

Floats are exact reals and NaN is a constructor of its own (`Series.Cell`). The square root is a parameter of which only
r >= 0 and r * r == x is used; the normal distribution function is a parameter of which nothing is used. Stock codes and
dates are numbers and strategy names are tokens, since the code only compares and orders them. Loops that change state
are methods, proved equal to a function of their inputs; the theorems are about those functions. `CompositeValues`,
`MarketState`, `UniverseRules`, `SignalRules` and `SizingRules` then say what comes out in the fields of what went in,
without the functions in between.

Where the code and its own words differ, the code is modelled, with the exact condition under which the words hold and an
input on which they do not:

- `zscore` says a missing input stays missing; when there is no spread it returns zero for missing rows too (`FactorPipeline.MissingStaysMissingIff`, `FactorPipeline.MissingBecomesZero`).
- The hysteresis is described as switching after the new order held for two months; three different orders in a row put the third in force after one month (`Hysteresis.TwoMonthRuleIff`, `Hysteresis.ThirdOrderTakesEffectAtOnce`).
- The blend is divided by the root of the squared weights so that its variance is one. When the residuals are not centred there is a cross term: `CompositeVariance.VarianceFormulaHoldsIff` is the exact condition, and `TwoStrategies.ScoresDecideVariance` states it for two strategies in their scores alone. Scores that are standardised over common stocks and not clipped at 3.5 deviations meet it (`StandardisedInput.CommonCoverageUnitVariance`); a clipped column is not centred, and neither is one whose stocks are only partly common (`SampleDay.DayMissesUnitVariance`).
- A missing strategy is meant to contribute nothing to a stock and to leave its other scores alone. When several strategies are orthogonalised over two or more common stocks, every other stock loses all its scores. `PartialCoverage.CountsWhatItHasIff` says for every input and row when a stock is scored on what it has, `SampleDay.DayIgnoresScore` and `SampleDay.DayScoresZero` show one that is not.
- On the absolute-score path a purchase is meant to need a score above the threshold; a score that is NaN buys a stock that is not held (`SignalTheorems.AbsolutePurchasesAboveIff`, `SignalTheorems.NotANumberBuys`).
- The industry limit is checked purchase by purchase, so several purchases can pass it and break it together (`IndustryLimit.UnblockedIsSafeIff`, `IndustryLimit.IndustryIsNotCumulative`).
- The snapshot is meant to be written once per date and new signals to be announced once. Runs that do not overlap keep this; runs that do can replace the snapshot and announce twice. `OverlappingRuns.SnapshotStaysIff` and `OverlappingRuns.NotifiesNoMoreIff` say for every state that can be reached whether it can still happen, `OverlappingRuns.OverlapReplacesSnapshot` and `OverlappingRuns.OverlapNotifiesTwice` show it happening.
- The per-stock form of rule F-5 flags every stock when asked for zero periods and the whole-table form flags none (`LosingStreak.WholeTableIsPerStockIff`, `LosingStreak.FormsDifferAtZero`). The order of the table's rows is meant not to matter; between several figures for one period it can (`LosingTies.OrderDecidesIff`, `LosingStreak.TiesDependOnOrder`).
- The next-day query wraps around to the end of the calendar when its target lies before the first day, and from before the first day it answers where the offset query raises (`Calendar.NextAgreesWithOffsetIff`, `Calendar.NextAndOffsetDiffer`).

## Model

| member | source | states |
|---|---|---|
| Orthogonalizer.GramSchmidt | backend/src/quantpilot/engine/orthogonalizer.py:52-115 | the pass as a program: unknown strategies raise, under two full rows nothing is projected, otherwise the residuals go back to their rows and the other rows become missing |
| Orthogonalizer.ProjectLoop | backend/src/quantpilot/engine/orthogonalizer.py:94-104 | the inner loop over the whole order, with its skips, projects exactly the residuals done so far out of the column |
| Orthogonalizer.ResidualLoop | backend/src/quantpilot/engine/orthogonalizer.py:91-111 | the outer loop fills the dictionary with the recursively defined residual of every strategy |
| Orthogonalizer.Compute | backend/src/quantpilot/engine/orthogonalizer.py:142-188 | projection, re-standardisation and the absorption test together |
| OrthogonalizerTheorems.ResidualsOrthogonal | backend/src/quantpilot/engine/orthogonalizer.py:91-111 | any two residuals are exactly orthogonal when the earlier one's squared norm is at least 1e-12 |
| OrthogonalizerTheorems.ColumnDecomposes | backend/src/quantpilot/engine/orthogonalizer.py:93-104 | a column is its reduced column plus multiples of earlier residuals, the in-place coefficients are the regression coefficients of the original column, squared norms add up, and projecting never increases a norm |
| OrthogonalizerTheorems.ReducedIsLeastSquares | backend/src/quantpilot/engine/orthogonalizer.py:93-104 | no other combination of the live earlier residuals leaves a smaller remainder |
| OrthogonalizerTheorems.DroppedColumnHarmless | backend/src/quantpilot/engine/orthogonalizer.py:97-111 | deleting a column that was written off as NaN changes no later projection |
| OrthogonalizerTheorems.ResidualShape | backend/src/quantpilot/engine/orthogonalizer.py:93-111 | a residual is present in every row or missing in every row, missing exactly when the reduced column has no spread; the first column is untouched |
| OrthogonalizerTheorems.ResidualsCentred | backend/src/quantpilot/engine/orthogonalizer.py:91-111 | residuals of centred columns are centred |
| OrthogonalizerTheorems.NormalisedIsUnit | backend/src/quantpilot/engine/orthogonalizer.py:170-188 | a normalised column is missing, or present where its residual is with mean 0 and sample variance 1 |
| OrthogonalizerTheorems.NormalisedIs | backend/src/quantpilot/engine/orthogonalizer.py:120-188 | the combined step is plain re-standardisation except for absorbed strategies |
| Projection.ModifiedIsClassical | backend/src/quantpilot/engine/orthogonalizer.py:103-104 | coefficients taken from the partly reduced column equal those taken from the original one |
| ScorerProgram.AggregateScores | backend/src/quantpilot/engine/scorer.py:277-352 | the whole aggregation loop computes the specified table: composite and rank of every listed stock, with its score, both breakdowns and the raw observations |
| ScorerProgram.Accumulate | backend/src/quantpilot/engine/scorer.py:326-335 | the accumulators hold the weighted sum, missing cells as zero, and the sum of squared weights |
| ScorerProgram.Breakdowns | backend/src/quantpilot/engine/scorer.py:380-412 | the raw breakdown skips missing scores, the residual breakdown takes them as zero |
| Scorer.EffectiveOrderArranges | backend/src/quantpilot/engine/scorer.py:307-311 | the completed order lists every weighted strategy exactly once: the requested ones in the order requested, then the others by descending weight, equal weights in the order they were scored |
| Compaction.NormalisedCompacted | backend/src/quantpilot/engine/orthogonalizer.py:142-188 | deleting rows in which every ordered column is missing commutes with the whole orthogonalisation |
| ScoreTheorems.BreakdownAddsUp | backend/src/quantpilot/engine/scorer.py:400-412 | the contributions of the residual breakdown of a stock add up to its composite score |
| ScoreTheorems.RawBreakdownIs | backend/src/quantpilot/engine/scorer.py:380-390 | the raw breakdown lists exactly the weighted strategies that scored the stock, each with its own score, weight and product |
| ScoreTheorems.RankedByComposite | backend/src/quantpilot/engine/scorer.py:347-352 | in the final table the rank is strictly better exactly when the composite is larger, ties share rank and score |
| ScoreTheorems.TableListsCovered | backend/src/quantpilot/engine/scorer.py:341-345 | the table lists exactly the stocks some weighted strategy scored |
| ScoreTheorems.CodesAscend | backend/src/quantpilot/engine/scorer.py:278-281 | stocks are listed once, in code order |
| ScoreTheorems.WeightsSumToOne | backend/src/quantpilot/engine/scorer.py:316-324 | the weights in force add up to one |
| CompositeValues.OneStrategyComposite | backend/src/quantpilot/engine/scorer.py:301-339 | with one weighted strategy the composite of every listed stock is the score this strategy gave it |
| CompositeValues.PlainComposite | backend/src/quantpilot/engine/scorer.py:301-339 | for one requested strategy, or at most one weighted: composite times the root of the sum of squared weights is the sum of weight times score over the strategies that scored the stock |
| CompositeValues.UnprojectedComposite | backend/src/quantpilot/engine/orthogonalizer.py:80-87 | with several weighted strategies and fewer than two stocks scored by all of them, the same with each score as its deviation from the mean of its strategy, in deviations |
| CompositeValues.ProjectedComposite | backend/src/quantpilot/engine/scorer.py:326-339 | over the stocks scored by all of them, the same with the standardised residuals of the strategies that were not dropped |
| TwoStrategies.SurvivesIff | backend/src/quantpilot/engine/orthogonalizer.py:104-184 | a strategy survives exactly when what projection leaves of its column has enough spread, by itself and against that of its scores, and then that is its residual |
| CompositeValues.WeightsInForce | backend/src/quantpilot/engine/scorer.py:316-324 | the weights in force are the given positive weights of the strategies that scored, in one proportion, adding up to one |
| CompositeValues.PercentileIs | backend/src/quantpilot/engine/scorer.py:347-348 | the market percentile times the number of listed stocks is the number of higher composites, plus half the equal ones, plus a half |
| CompositeValues.ScoreFields | backend/src/quantpilot/engine/scorer.py:349-398 | the 0-100 score is the distribution function of the composite, and the observations are the scores of all strategies that scored the stock |
| CompositeValues.ResidualBreakdownIs | backend/src/quantpilot/engine/scorer.py:400-412 | each part of the residual breakdown carries its strategy, weight in force, normalised value and share of the composite |
| ShadowStrategies.ErasureInvisible | backend/src/quantpilot/engine/scorer.py:277-412 | erasing all strategies without positive weight changes no composite, rank, score or breakdown of any stock |
| ShadowStrategies.ShadowsDoNotInterfere | backend/src/quantpilot/engine/scorer.py:277-412 | two inputs with the same weighted strategies, whatever shadow strategies either has, give the same visible scores for the same stocks |
| ShadowStrategies.AddingShadow | backend/src/quantpilot/engine/scorer.py:289-300 | adding or removing one shadow strategy anywhere, scoring any stocks, is invisible |
| CompositeVariance.CompositeMeanZero | backend/src/quantpilot/engine/scorer.py:326-339 | over the fully covered stocks the composite has mean zero, unconditionally |
| CompositeVariance.CompositeVarianceIs | backend/src/quantpilot/engine/scorer.py:326-339 | its variance for any columns: the surviving squared weight less a cross term in how far the residuals are from centred |
| CompositeVariance.VarianceFormulaHoldsIff | backend/src/quantpilot/engine/scorer.py:335-339 | when every surviving residual is one that later columns were projected on, the variance is the share of surviving squared weight exactly when the cross term vanishes |
| TwoStrategies.TwoStrategyVarianceIff | backend/src/quantpilot/engine/scorer.py:326-339 | for two weighted strategies, in their scores a and b over the common stocks, a first in the order: the variance is that share exactly when one was dropped, or a sums to zero, or norm(a)^2 * sum(b) = dot(a, b) * sum(a) |
| TwoStrategies.ScoresDecideVariance | backend/src/quantpilot/engine/scorer.py:326-339 | the same with conditions on the scores alone, when neither strategy's scores are nearly constant: what is dropped is decided by the spread of a, and of b with a projected out |
| SampleDay.DayMissesUnitVariance | backend/src/quantpilot/engine/orthogonalizer.py:149-150 | one day with two standardised strategies over partly common stocks, neither dropped: the variance of its composite is not that share |
| CompositeVariance.CompositeUnitVariance | backend/src/quantpilot/engine/scorer.py:326-339 | for centred columns it is that share, at most one, and one exactly when no strategy was dropped |
| CompositeVariance.SpreadInputIsLive | backend/src/quantpilot/engine/orthogonalizer.py:168-184 | with the absorption test at 0.3 or more and no nearly constant column, every surviving residual is one that later columns were projected on |
| PartialCoverage.CountsWhatItHasIff | backend/src/quantpilot/engine/scorer.py:332-334 | for every input and row: a stock is scored on exactly the surviving strategies it has, unless several strategies are orthogonalised over at least two common stocks, the stock is not one of those, and some surviving strategy scored it |
| PartialCoverage.SurvivorOnFullRows | backend/src/quantpilot/engine/orthogonalizer.py:80-115 | with several weighted strategies and at least two common stocks, a surviving column has a value exactly on the common stocks |
| PartialCoverage.SurvivorOnOwnRows | backend/src/quantpilot/engine/orthogonalizer.py:80-87 | in every other case a surviving column has a value exactly where its strategy scored |
| PartialCoverage.UncoveredScoresZero | backend/src/quantpilot/engine/scorer.py:332-345 | with several weighted strategies and at least two common stocks, every stock of the final table that one weighted strategy did not score has composite zero |
| SampleDay.DayIgnoresScore | backend/src/quantpilot/engine/orthogonalizer.py:113-115 | on the sample day the second strategy survives and scored stock 3, and the row of stock 3 does not count it |
| SampleDay.DayScoresZero | backend/src/quantpilot/engine/scorer.py:332-345 | the table of that day lists stock 3 with composite zero |
| StandardisedInput.RestandardisedUnit | backend/src/quantpilot/engine/scorer.py:258-272 | re-standardised scores that have spread and of which none is clipped at 3.5 have mean 0 and sample variance 1 |
| StandardisedInput.CommonCoverageUnitVariance | backend/src/quantpilot/engine/scorer.py:258-339 | end to end: strategies scoring the same stocks with such scores give a composite of mean 0 and variance the surviving share, with no condition on residuals |
| StandardisedInput.RestandardisedIs | backend/src/quantpilot/engine/scorer.py:266-271 | every re-standardised score: the deviation from the mean in deviations, or without spread the score itself, moved into -3.5 to 3.5 |
| Ranking.RankIsCount | backend/src/quantpilot/engine/scorer.py:348 | the averaged position of a value is the number above it, plus half its multiplicity, plus a half |
| Ranking.RankReversesOrder | backend/src/quantpilot/engine/scorer.py:348 | a larger composite has a strictly smaller percentile rank and ties have equal ones, both ways |
| Ranking.RanksSum | backend/src/quantpilot/engine/scorer.py:348 | the percentile ranks of N stocks sum to (N + 1) / 2 whatever the ties |
| Ranking.RankRange | backend/src/quantpilot/engine/scorer.py:348 | every rank lies between 1 / N and 1 |
| FactorPipeline.ScaleInvariant | backend/src/quantpilot/engine/factor_pipeline.py:194-205 | winsorising and standardising give the same result for any positive affine change of the raw factor |
| FactorPipeline.PercentileAffine | backend/src/quantpilot/engine/factor_pipeline.py:64-65 | interpolated percentiles commute with the change of scale |
| FactorPipeline.PercentileMonotone | backend/src/quantpilot/engine/factor_pipeline.py:64-65 | percentiles grow with their level |
| FactorPipeline.PercentileInterpolates | backend/src/quantpilot/engine/factor_pipeline.py:64-65 | position k of n - 1 is the k-th smallest value and between neighbours the percentile moves linearly, without jumps |
| FactorPipeline.WinsorizeWithin | backend/src/quantpilot/engine/factor_pipeline.py:54-68 | values land between the two percentiles and those already there do not change |
| FactorPipeline.ZscoreIs | backend/src/quantpilot/engine/factor_pipeline.py:176-189 | all zeros when there is no spread, otherwise missing where the input is, with mean 0 and sample variance 1 |
| FactorPipeline.MissingStaysMissingIff | backend/src/quantpilot/engine/factor_pipeline.py:176-189 | missing values stay missing exactly when none is missing or the factor has spread |
| FactorPipeline.MissingBecomesZero | backend/src/quantpilot/engine/factor_pipeline.py:184-188 | one value and one missing value both come out as zero |
| FactorPipeline.OrderPreserved | backend/src/quantpilot/engine/factor_pipeline.py:194-205 | a larger raw value never gets a smaller score |
| FactorPipeline.PercentileIs | backend/src/quantpilot/engine/factor_pipeline.py:64-65 | the percentile of a column with gaps: position p of n - 1 on the line through its present values in ascending order |
| FactorPipeline.PercentileOfOne | backend/src/quantpilot/engine/factor_pipeline.py:64-65 | a column with one present value has that value as every percentile |
| FactorPipeline.WinsorizeIs | backend/src/quantpilot/engine/factor_pipeline.py:54-68 | each value: the lower of the two percentiles below both, the higher one above both, unchanged between them |
| FactorPipeline.OutliersShareScore | backend/src/quantpilot/engine/factor_pipeline.py:194-205 | all values at or beyond a cut-off get the same score, however far out they are |
| FactorPipeline.ScoreIs | backend/src/quantpilot/engine/factor_pipeline.py:176-205 | each score: the winsorised value less the mean of the winsorised values, over their deviation; zero without spread |
| MarketState.ApplyDebounce | backend/src/quantpilot/engine/market_state.py:151-171 | the loop computes the confirmed state of every day, for any window length |
| MarketState.Identify | backend/src/quantpilot/engine/market_state.py:198-252 | one record per day, each with the confirmed state of its day and the other fields that go with it |
| MarketState.DebounceClosedForm | backend/src/quantpilot/engine/market_state.py:160-171 | the confirmed state is that of the most recent uniform window, or the starting state if there was none |
| MarketState.DebounceForgets | backend/src/quantpilot/engine/market_state.py:160-171 | runs with different starting states, or restarted on a suffix, agree forever from the first uniform window inside both |
| MarketState.SwitchesSpaced | backend/src/quantpilot/engine/market_state.py:160-171 | two switches are at least the window length apart |
| MarketState.UptrendIsEarned | backend/src/quantpilot/engine/market_state.py:97-171 | a confirmed uptrend rests on a full window of strong, rising, above-average days, or was carried in with no full window since |
| MarketState.RecordStateIff | backend/src/quantpilot/engine/market_state.py:97-252 | a record has a state exactly when the latest stretch of debounceDays days that each show one and the same state shows it, or there is no such stretch and it was carried in |
| MarketState.DowntrendIsRecorded | backend/src/quantpilot/engine/market_state.py:101-171 | debounceDays days with strength above the threshold, falling averages and a close below them are recorded as a downtrend |
| MarketState.UptrendIsRecorded | backend/src/quantpilot/engine/market_state.py:101-171 | with rising averages and a close above them as an uptrend |
| MarketState.OscillationIsRecorded | backend/src/quantpilot/engine/market_state.py:101-171 | and days of which none shows a trend as an oscillation |
| MarketState.DowntrendIsEarned | backend/src/quantpilot/engine/market_state.py:97-171 | a recorded downtrend rests on such days with no full stretch of any kind since, or was carried in with none |
| MarketState.RecordFields | backend/src/quantpilot/engine/market_state.py:213-252 | a change is a state other than the record before; breadth is weak exactly in an uptrend with a known figure that is not positive; strength is capped at 100 |
| Hysteresis.RunFailsIff | backend/src/quantpilot/engine/hysteresis.py:61-82 | a run of months fails exactly when some proposal is empty: a returned status that is fed back never fails; otherwise it ends with the last month's order and status |
| Hysteresis.PendingIff | backend/src/quantpilot/engine/hysteresis.py:69-82 | a switch is pending exactly when the month's proposal is not the order in force |
| Hysteresis.EffectiveIs | backend/src/quantpilot/engine/hysteresis.py:69-82 | the order changes exactly when this and last month's proposals both differ from it, to this month's |
| Hysteresis.ChangesSpaced | backend/src/quantpilot/engine/hysteresis.py:77-82 | changes are at least two months apart |
| Hysteresis.SingleDeviationIgnored | backend/src/quantpilot/engine/hysteresis.py:73-79 | a deviation of one month never takes effect |
| Hysteresis.EffectiveWasProposed | backend/src/quantpilot/engine/hysteresis.py:69-82 | the order in force is always some past proposal |
| Hysteresis.Converges | backend/src/quantpilot/engine/hysteresis.py:69-82 | a proposal constant from month m is in force from month m + 1 on |
| Hysteresis.TwoMonthRuleIff | backend/src/quantpilot/engine/hysteresis.py:1-28 | the described two-month rule holds over a run exactly when no third order comes up while a switch is pending |
| Hysteresis.ThirdOrderTakesEffectAtOnce | backend/src/quantpilot/engine/hysteresis.py:81-82 | three different proposals put the third in force after one month |
| PipelineSafety.InvAlways | backend/src/quantpilot/pipeline/daily_pipeline.py:81-178 | every interleaving of runs, crashes and exceptions keeps the invariant tying row, runners' copies and committed work |
| PipelineGuarantees.FlagsInOrder | backend/src/quantpilot/pipeline/daily_pipeline.py:102-178 | cp3 implies cp2 implies cp1, SUCCESS implies all three, and a flag is up exactly when it was once committed |
| PipelineGuarantees.NothingReverts | backend/src/quantpilot/pipeline/daily_pipeline.py:182-225 | along any continuation flags stay up, the snapshot stays present and nothing committed is undone |
| PipelineGuarantees.FlagsEarned | backend/src/quantpilot/pipeline/daily_pipeline.py:251-303 | each flag was preceded by its stage's committed work, cp1's by an ingest with quotes, and that work by the flag of the stage below |
| PipelineGuarantees.RerunCompletes | backend/src/quantpilot/pipeline/daily_pipeline.py:89-176 | from every reachable state, whatever configuration, quotes and signals come in, a new run that meets no fault ends: with SUCCESS and all flags if the ingest was done before or brings quotes, otherwise with FAILED and cp1 down |
| SerialRuns.FlaggedWorkIsNeverRepeated | backend/src/quantpilot/pipeline/daily_pipeline.py:106-130 | over non-overlapping runs with crashes anywhere nothing flagged is done again: one row, one snapshot, one notification, no stage after its flag |
| SerialRuns.SnapshotIsFrozen | backend/src/quantpilot/pipeline/daily_pipeline.py:91-93 | over non-overlapping runs a snapshot once written never changes |
| OverlappingRuns.SnapshotStaysIff | backend/src/quantpilot/pipeline/daily_pipeline.py:91-93 | for every behaviour after which the row holds a snapshot: no continuation replaces it by another exactly when no runner is alive that took its copy before the snapshot and has yet to write one of its own |
| OverlappingRuns.OverlapReplacesSnapshot | backend/src/quantpilot/pipeline/daily_pipeline.py:593-617 | two overlapping runs of a fresh date: the first has written its snapshot, the second is such a runner, and the first one's snapshot is lost |
| OverlappingRuns.NotifiesNoMoreIff | backend/src/quantpilot/pipeline/daily_pipeline.py:113-130 | for every behaviour: no continuation starts one more notification exactly when cp3 is up and no runner is alive that holds signals to announce, is generating signals, or is before that with a copy without cp3 and no empty ingest |
| OverlappingRuns.OverlapNotifiesTwice | backend/src/quantpilot/pipeline/daily_pipeline.py:120-130 | a second run that is generating signals when the first one has notified will notify too |
| PipelineProgram.DailyPipeline.Execute | backend/src/quantpilot/pipeline/daily_pipeline.py:81-178 | run() with a failure possible at any commit: the exact status afterwards - SUCCESS with all flags when nothing raises, FAILED whenever something raised and the handler could record it, otherwise what was recorded before - and the exact snapshot; cp1 stays down on an empty ingest; the row is untouched when the run cannot begin; and the commits continue the past as a behaviour of the transition system, without overlap |
| PipelineProgram.DailyPipeline.GetOrCreateRun | backend/src/quantpilot/pipeline/daily_pipeline.py:182-209 | finds the row or inserts a fresh one and takes a copy of it, or has left run() with the row as it was, exactly when loading or a needed insert fails |
| PipelineProgram.DailyPipeline.WriteConfigSnapshot | backend/src/quantpilot/pipeline/daily_pipeline.py:593-623 | writes the configuration exactly when the copy has none and the write does not fail; either way control reaches the first stage |
| PipelineProgram.DailyPipeline.Cp1Ingest | backend/src/quantpilot/pipeline/daily_pipeline.py:251-303 | commits of this stage only; raises exactly when no quotes arrived or one of its commits fails; done means cp1 is up; the row changes in nothing else |
| PipelineProgram.DailyPipeline.Cp2Scoring | backend/src/quantpilot/pipeline/daily_pipeline.py:396-429 | commits of this stage only; raises exactly when one of them fails; done means cp2 is up; the row changes in nothing else |
| PipelineProgram.DailyPipeline.Cp3Signals | backend/src/quantpilot/pipeline/daily_pipeline.py:451-471 | commits of this stage only; raises exactly when one of them fails; done means cp3 is up with the number of signals generated; the row changes in nothing else |
| PipelineProgram.DailyPipeline.Stages | backend/src/quantpilot/pipeline/daily_pipeline.py:106-127 | a stage that the copy says is done commits nothing; raises exactly when a stage that is not done raises; otherwise all three flags are up; status and snapshot are untouched |
| PipelineProgram.DailyPipeline.Finish | backend/src/quantpilot/pipeline/daily_pipeline.py:129-164 | the status becomes SUCCESS unless a best-effort step or setting it raises, and control is in the handler exactly when one of these or the report after it raises |
| PipelineProgram.DailyPipeline.Fail | backend/src/quantpilot/pipeline/daily_pipeline.py:166-176 | the run leaves, with FAILED exactly when recording it does not fail and the row untouched otherwise |
| PipelineProgram.RunContinues | backend/src/quantpilot/pipeline/daily_pipeline.py:81-178 | anything one run reaches after a behaviour ends a longer behaviour, without overlap if there was none |
| LosingStreak.WholeTableIsPerStockIff | backend/src/quantpilot/engine/universe.py:67-99 | for every table and stock the whole-table F-5 equals the per-stock rule exactly when at least one period is asked for or the stock has no row |
| LosingStreak.FormsDifferAtZero | backend/src/quantpilot/engine/universe.py:67-99 | asked for no period, the per-stock form flags a stock with one positive figure and the whole-table form does not |
| LosingStreak.LosingMeans | backend/src/quantpilot/engine/universe.py:67-83 | with one figure per period a stock is flagged iff it has at least n figures and each with fewer than n later ones is negative |
| LosingStreak.OnlyOwnFiguresMatter | backend/src/quantpilot/engine/universe.py:84-99 | other stocks' rows and rows without a figure make no difference |
| LosingStreak.RowOrderIsIrrelevant | backend/src/quantpilot/engine/universe.py:93-99 | with one figure per period any permutation of the table gives the same flags |
| LosingStreak.TiesDependOnOrder | backend/src/quantpilot/engine/universe.py:93-94 | the smallest such tie: two rows of opposite sign for one period, flagged in one order and not in the other |
| LosingTies.OrderDecidesIff | backend/src/quantpilot/engine/universe.py:67-99 | for every table, stock and n >= 1: all orders of the rows give the same flag exactly when no tie for the n-th figure has both signs, enough negative figures, and only negative figures after it |
| LosingTies.TieMatters | backend/src/quantpilot/engine/universe.py:93-99 | under such a tie, putting the negative rows first flags the stock and putting them last spares it |
| LosingStreak.TopOf | backend/src/quantpilot/engine/universe.py:95 | the running count keeps exactly the first n rows of each code |
| Universe.FilterWithStats | backend/src/quantpilot/engine/universe.py:138-315 | fails exactly when the calendar is too short; otherwise returns the survivors and one count for every rule F-1 to F-8 |
| Universe.Screening.Apply | backend/src/quantpilot/engine/universe.py:172-177 | narrowing the mask and tallying keeps mask, remainder and counts in step |
| Universe.MarginalCounts | backend/src/quantpilot/engine/universe.py:172-177 | each count is the number of stocks passing every earlier rule and failing this one |
| Universe.MarginalsSum | backend/src/quantpilot/engine/universe.py:313-315 | the counts add up to what was removed |
| Universe.SurvivesIffInvestable | backend/src/quantpilot/engine/universe.py:179-311 | surviving is one conjunction with the financial exemption on F-4 to F-6 |
| Universe.OrderIsIrrelevant | backend/src/quantpilot/engine/universe.py:179-315 | in whatever order the eight rules run the same stocks survive |
| UniverseRules.KeptIff | backend/src/quantpilot/engine/universe.py:138-315 | what the filter returns, in the tables' fields: kept are exactly the stocks not marked ST nor suspended, listed by the 60th trading day before today, with no known shortfall of turnover, not sealed at limit-up, and unless financial with positive known equity, known debt below 90% and no losses under F-5 |
| UniverseRules.LossDecides | backend/src/quantpilot/engine/universe.py:247-251 | a stock that is not financial and has nothing else against it is kept exactly when it has fewer than two figures in the history or one with fewer than two later ones is not negative |
| UniverseRules.TwoLossesIs | backend/src/quantpilot/engine/universe.py:67-99 | F-5 in the rows of the history: at least two figures, and every one with fewer than two later ones negative |
| UniverseRules.RulesAre | backend/src/quantpilot/engine/universe.py:179-311 | each of the eight rules under its number, in the tables' fields |
| UniverseRules.ListedByIs | backend/src/quantpilot/engine/universe.py:183-196 | the filter fails exactly with fewer than 60 trading days before today, and otherwise the listing date is compared with the 60th of them, counted back |
| Signals.ScoredPass | backend/src/quantpilot/engine/signal.py:228-434 | the scored loop with its early exits yields the decision of every row in order |
| Signals.UnscoredPass | backend/src/quantpilot/engine/signal.py:448-472 | one stop-loss sale for each unscored holding at its stop-loss and nothing else, in whatever order the set is walked |
| Signals.Generate | backend/src/quantpilot/engine/signal.py:448-474 | the decisions of the scored stocks followed by one stop-loss sale for each unscored holding at its stop-loss |
| Signals.HoldingIff | backend/src/quantpilot/engine/signal.py:219-220 | a stock has a holding exactly when some listing names it |
| SignalTheorems.DecisionMeans | backend/src/quantpilot/engine/signal.py:254-434 | sold iff quoted and some reason holds; bought iff quoted, no reason to sell, the trigger fires, a holder may add and every gate passes |
| SignalTheorems.ReasonsAre | backend/src/quantpilot/engine/signal.py:266-365 | a stock is to be sold exactly when one of the reasons holds: score, stop-loss, short-term drop, mid-term flip |
| SignalTheorems.SaleNames | backend/src/quantpilot/engine/signal.py:266-319 | every sale of a run names the most pressing of the reasons that hold for its stock - score, stop-loss, short-term drop, mid-term flip, in this order - and a sale of an unscored stock names the stop-loss |
| SignalTheorems.NearCostMeans | backend/src/quantpilot/engine/signal.py:326-333 | a close is near the cost exactly when it lies within the share of the cost on either side |
| SignalTheorems.WorseLossStillSells | backend/src/quantpilot/engine/signal.py:266-319 | making a holding's loss worse never turns a sale into anything else |
| SignalTheorems.OneSignalPerStock | backend/src/quantpilot/engine/signal.py:228-472 | with one score row per stock no stock gets two signals |
| SignalTheorems.StopLossIsSoldIff | backend/src/quantpilot/engine/signal.py:254-472 | a holding at its stop-loss is sold exactly when it is unscored or quoted; scored but unquoted it gets nothing |
| SignalTheorems.StopLossIsTheOnlySignal | backend/src/quantpilot/engine/signal.py:266-472 | any signal for such a holding is a sale and its only one |
| SignalTheorems.PurchasesAre | backend/src/quantpilot/engine/signal.py:374-434 | a stock is bought exactly when one of its rows is decided that way |
| SignalTheorems.PurchaseGates | backend/src/quantpilot/engine/signal.py:321-380 | every purchase is quoted, tradable, liquid as far as known, with a close, not at its stop-loss, and allowed to add if held |
| SignalTheorems.SharedSalesAreByPercentile | backend/src/quantpilot/engine/signal.py:338-365 | without an account every sale is by market percentile |
| SignalTheorems.AbsolutePurchasesAboveIff | backend/src/quantpilot/engine/signal.py:228-434 | for every run: all purchases on the absolute-score path have a score above the threshold exactly when no row of a buyable stock not held has a score that is NaN on that path |
| SignalTheorems.NotANumberBuys | backend/src/quantpilot/engine/signal.py:367-373 | a run over one such row buys the stock |
| SignalRules.FreshIsBoughtIff | backend/src/quantpilot/engine/signal.py:338-380 | a scored stock nobody holds is bought exactly when it is quoted, neither suspended nor limit-up, has a close and no known shortfall of turnover, and its percentile is at or below the buying one and below the selling one (without a percentile: its score is not at or below the buying score) |
| SignalRules.FreshIsSoldIff | backend/src/quantpilot/engine/signal.py:338-365 | and sold exactly when it is quoted with a percentile that counts, at or above the selling one |
| SignalRules.HeldIsSoldIff | backend/src/quantpilot/engine/signal.py:259-311 | a scored stock that is held is sold exactly when quoted with its percentile (or score) past the selling one, its loss at the stop-loss, its z-score drop above the limit or its mid-term signal flipped |
| SignalRules.HeldIsBoughtIff | backend/src/quantpilot/engine/signal.py:313-380 | and bought exactly when not sold, with the checks of its quote, its percentile (or score) past the buying one, and in profit or, outside a downtrend, close to its cost |
| SignalRules.PercentilePurchases | backend/src/quantpilot/engine/signal.py:367-369 | whatever the rows, every purchase on a market percentile is at or below the buying percentile |
| SignalRules.SignalFields | backend/src/quantpilot/engine/signal.py:299-434 | a signal carries its row's score, z-score and percentile; a purchase is strong exactly at or below the strong percentile, or at or above the strong score |
| SignalRules.UnscoredIsSoldIff | backend/src/quantpilot/engine/signal.py:448-472 | a holding without a score row gets a signal exactly when its loss is at the stop-loss: one sale that names it, with score zero |
| SignalRules.HoldingIsLast | backend/src/quantpilot/engine/signal.py:219 | of several listings of a stock the last one counts |
| PositionSizer.Suggest | backend/src/quantpilot/engine/position.py:31-106 | the loop with its running total computes the specified sizes |
| PositionSizer.PositionShares | backend/src/quantpilot/engine/position.py:71-75 | the share of each stock held, the last listing counting |
| PositionSizer.BudgetIsKept | backend/src/quantpilot/engine/position.py:77-106 | for any list and configuration the purchases take at most the budget |
| PositionSizer.ExposureIsKept | backend/src/quantpilot/engine/position.py:59-106 | position, purchases and cash reserve stay under the ceiling of the market state, or nothing is bought |
| PositionSizer.ExhaustedStaysExhausted | backend/src/quantpilot/engine/position.py:85-102 | once less than half a unit is left no later purchase is funded |
| PositionSizer.UnfundedIff | backend/src/quantpilot/engine/position.py:85-102 | a purchase goes unfunded exactly when less than half a unit is left or its stock is full, and otherwise gets the unit, the room or the rest |
| PositionSizer.SizedAt | backend/src/quantpilot/engine/position.py:80-104 | each signal is sized from what the earlier ones left, and sales are not touched |
| PositionSizer.SalesMakeNoDifference | backend/src/quantpilot/engine/position.py:81-83 | sales in between do not influence any purchase |
| SizingRules.DowntrendExposure | backend/src/quantpilot/engine/position.py:53-69 | in a downtrend: invested share, purchases and cash reserve stay within the total share times the downtrend multiplier, or nothing is bought |
| SizingRules.OscillationExposure | backend/src/quantpilot/engine/position.py:53-69 | the same with the oscillation multiplier |
| SizingRules.UptrendExposure | backend/src/quantpilot/engine/position.py:53-69 | the same with the uptrend multiplier |
| SizingRules.PurchaseGets | backend/src/quantpilot/engine/position.py:53-104 | each purchase, with the budget written out per state: unfunded exactly when the ones before it leave less than half a unit or its stock has no room, otherwise the smallest of the unit, the room and what is left |
| SizingRules.FirstGetsUnit | backend/src/quantpilot/engine/position.py:53-104 | the first purchase gets a whole unit when the budget of the state and the stock's room leave one |
| SizingRules.UsedIs | backend/src/quantpilot/engine/position.py:61-66 | the share in use is the value of all listings over the total, or over one when the total is not positive |
| SizingRules.StockPctIs | backend/src/quantpilot/engine/position.py:71-75 | the share of a stock is that of its last listing, zero without one |
| RiskChecker.Check | backend/src/quantpilot/engine/risk.py:35-131 | the warnings are those of the purchases one by one, then the account's |
| RiskChecker.IndustryShares | backend/src/quantpilot/engine/risk.py:69-79 | the accumulated industry shares are the sums over the stocks held |
| SizingRules.IndustryPctIs | backend/src/quantpilot/engine/risk.py:69-79 | the share of an industry is the sum of the shares of the stocks held in it, each once, in any order |
| RiskChecker.WarnedIff | backend/src/quantpilot/engine/risk.py:81-118 | a stock is blocked exactly when the list has a sized purchase of it that on its own takes the stock, or its industry, over the limit |
| RiskChecker.DrawdownIff | backend/src/quantpilot/engine/risk.py:81-131 | a drawdown is warned of exactly when the account's is known and above its limit, and nothing else but purchases |
| RiskChecker.SizedIsNeverConcentrated | backend/src/quantpilot/engine/risk.py:92-103 | sized purchases never raise a stock concentration warning against the same account and limit |
| RiskChecker.WholeBatchFits | backend/src/quantpilot/engine/position.py:88-104 | with one purchase per stock the whole list leaves every stock within its limit or where it was |
| RiskChecker.DailyOrdersAreSafe | backend/src/quantpilot/engine/risk.py:81-103 | scores to orders: no stock concentration, every stock within its limit, total exposure under the ceiling |
| IndustryLimit.UnblockedIsSafeIff | backend/src/quantpilot/engine/risk.py:105-118 | for any orders and industry: no block means that the industry ends within its limit or takes nothing, for every account and limits, exactly when at most one order buys into it |
| IndustryLimit.SizedIsSafeIff | backend/src/quantpilot/engine/position.py:80-104 | the same for every list that comes from the sizer |
| IndustryLimit.OnePurchaseFits | backend/src/quantpilot/engine/risk.py:105-118 | with at most one funded purchase in an industry, an unblocked list leaves it within its limit or takes nothing of it |
| IndustryLimit.SizedIndustryFits | backend/src/quantpilot/engine/position.py:80-104 | the same from signals through the sizer, with at most one purchase signal in the industry |
| IndustryLimit.IndustryIsNotCumulative | backend/src/quantpilot/engine/risk.py:105-118 | with the default sizes and limits: 15% held in an industry, two more purchases of 10% each from the sizer, no block, and 35% against a limit of 30% |
| Calendar.MakeValid | backend/src/quantpilot/data/calendar.py:75-78 | the calendar holds exactly the given days, ascending |
| Calendar.BisectLeft | backend/src/quantpilot/data/calendar.py:89 | binary search finds the number of days before d |
| Calendar.BisectRight | backend/src/quantpilot/data/calendar.py:98 | binary search finds the number of days up to d |
| Calendar.NextPrevInverse | backend/src/quantpilot/data/calendar.py:83-102 | n days forward and n days back are inverse on trading days |
| Calendar.OffsetsCompose | backend/src/quantpilot/data/calendar.py:114-130 | offsets add up while the first stays in range, errors included |
| Calendar.OffsetForward | backend/src/quantpilot/data/calendar.py:114-130 | a positive offset is the n-th next trading day |
| Calendar.OffsetBackward | backend/src/quantpilot/data/calendar.py:114-130 | a negative offset is the n-th previous day from a trading day and one further from any other |
| Calendar.OffsetBackwardAgreesIff | backend/src/quantpilot/data/calendar.py:83-130 | the two backward queries agree exactly on trading days and where there is no day to go back to, when both raise |
| Calendar.NextAgreesWithOffsetIff | backend/src/quantpilot/data/calendar.py:95-130 | for every day and step the next-day query agrees with the offset exactly when both run past the end, or there is a trading day up to the day and the target is not before the first; before the first it wraps around |
| Calendar.NextAndOffsetDiffer | backend/src/quantpilot/data/calendar.py:95-130 | the two ways of differing, on a calendar of three days |
| Calendar.RangeIsFilter | backend/src/quantpilot/data/calendar.py:104-108 | the bisect slice is exactly the days in the range |
| Calendar.CountToNext | backend/src/quantpilot/data/calendar.py:110-112 | from a day to its n-th successor there are n + 1 trading days |
| Calendar.RebuiltCalendarAgrees | backend/src/quantpilot/data/calendar.py:20-37 | storing one row per day and reading the open days back gives the days of the range |
| Calendar.RangeOfRange | backend/src/quantpilot/data/calendar.py:104-108 | the rebuilt calendar answers range queries inside the range as the original |
| Calendar.RebuiltStepsAgree | backend/src/quantpilot/data/calendar.py:83-102 | and steps inside the range as the original |
| Calendar.BuildCalendarRows | backend/src/quantpilot/data/calendar.py:31-37 | the loop writes one row per natural day of the range |
| Calendar.MissingIs | backend/src/quantpilot/data/calendar.py:40-45 | the missing days are the open days not present, ascending |

## Left out

- Floating-point rounding: all arithmetic is exact, so a threshold is crossed exactly where its formula says.
- Industry, market-cap and beta neutralisation (ordinary least squares): `FactorPipeline` models the branch with neutralisation switched off.
- Indicators of the market state (moving averages, ADX) and the new-high/new-low difference: days enter with their indicators.
- From factor columns to a strategy's score (averaging over its factors): scores enter per strategy, and their re-standardisation is modelled.
- ScorerProgram.AggregateScores: does not give the four scalar strategy scores, the per-stock factor tables and the explanation text, which are copied out beside the composite and enter nothing else.
- Signals.Generate: does not give suggested and stop-loss prices (decimal rounding of the close), liquidity notes, messages and the copied breakdowns; no decision depends on them.
- `aggregate_legacy` and the strategy weight matrix.
- Orders and weights are duplicate-free: a requested order that names a strategy twice is not modelled.
- Percentile levels outside 0 to 1, which the percentile routine rejects.
- Warning messages of the risk checker.
- `DailyPipeline` stages are opaque: what ingest, scoring and signal generation compute is not part of the pipeline model, only that each commits or raises.
- A raised exception is also allowed at steps the program guards (notification and the best-effort steps), so the pipeline results hold for more failures than can happen.
- The trigger endpoint that inserts the row before the pipeline starts.
- A crash in the middle of the program form: `PipelineProgram` covers exceptions at every commit; crashes are events of the transition system.
- `RuntimeError` text, progress publishing, metrics and logging.
- Databases, Redis, data sources, notification channels and the web interface.
