# Brent oil change-point analysis: the discrete core

This project models the pure, discrete logic that surrounds the
statistics of a Brent crude-oil change-point analysis. The repository
fits Bayesian change-point models to the price series and relates the
detected change points to a catalogue of geopolitical and economic events.
The model covers the following:

- **Association.** Which events lie within a tolerance window of a change
  point, and how they are ranked. There are two variants: one in the
  analysis utilities and one in the Bayesian analyser.
- **Regimes.** How a time index is assigned to a regime in the two model
  builders, which use different boundary conventions. How a series is cut
  into half-open regimes between change-point dates. The before/after
  impact windows around a change point.
- **Filters and counts.** Record filtering and counting in the event
  catalogue and in the web API: inclusive date ranges, exact categories,
  case-insensitive type queries, id numbering and summary counts.
- **Data quality.** Gap detection, duplicate, zero and negative price
  counts, and the IQR outlier count for given quartiles.
- **Decision tables.** The integer Mann-Kendall S statistic and the sign of
  its z score. The trend, stationarity and convergence verdicts.

Modelling choices:

- Calendar dates are integer day ordinals, the proleptic Gregorian count
  with 1 January of year 1 as day 1. `EventData.Ordinal` computes them.
- Thresholds and prices are `real`.
- A price that is missing (NaN) is `None`.
- Every statistic the code obtains from a numerical library is an input of
  the model. This covers means, percentiles, p-values, quartiles, slopes and
  the square root of the Mann-Kendall variance.

There is one Dafny module per source file, plus `Common`. `Common` holds
`Option`/`Result`, `Filter` (an order-preserving selection), a stable
insertion sort `SortBy` (the model of Python's stable `list.sort`),
minimum/maximum, and the date lookup at a truncated position.

The specification and the code differ on two thresholds, and the model
follows the code. The `converged` flag needs every R-hat strictly below
1.1, and a good effective sample size needs the minimum strictly above 400.

## Model

| member | source | states |
|---|---|---|
| Common.DateAt | src/change_point_model.py:217-223 | a fractional position p in 1 .. n-2 is truncated with `int` and reads the date at that index, which always exists |
| Common.DateAtInside | src/change_point_model.py:217-223 | on a strictly increasing date index, the date read at any admissible position lies strictly between the first and the last date |
| Common.SortBy | src/bayesian_changepoint_model.py:430 | the sort returns a permutation of its input, ordered by non-decreasing key |
| Common.SortByStable | src/bayesian_changepoint_model.py:430 | the sort is stable: for every key value, the elements carrying that key keep their input order |
| AnalysisUtils.NearbyInOrder | utils/analysis_utils.py:42-55 | the nearby list holds exactly the events with absolute distance at most the tolerance, as (event, absolute difference, direction) records |
| AnalysisUtils.AssociateOne | utils/analysis_utils.py:60-68 | the association copies the change point's id and dates; `associated_events` is the number of nearby events; `closest_event` is the head of the sorted list, or none when the list is empty |
| AnalysisUtils.AssociationWindow | utils/analysis_utils.py:44-54 | an event is listed iff its absolute distance is at most the tolerance; the stored difference is that non-negative distance; the direction is Before iff the event is strictly earlier, so a same-day event is After |
| AnalysisUtils.AssociationOrder | utils/analysis_utils.py:58 | the nearby list is ordered by non-decreasing difference and is a stable permutation of the unsorted nearby list |
| AnalysisUtils.AssociateEventsWithChangepoints | utils/analysis_utils.py:36-72 | exactly one association per change point, in input order, each one the association of that change point |
| AnalysisUtils.Boundaries | utils/analysis_utils.py:171-175 | the boundaries are the first date, the sorted change points and the last date: two more than the change points, with the inner ones sorted and a permutation of the change points |
| AnalysisUtils.RegimesFrom | utils/analysis_utils.py:179-194 | every emitted regime is the non-empty half-open window [start, end) of its boundary pair, with id pair index + 1, and the ids strictly increase |
| AnalysisUtils.RegimesFromCovers | utils/analysis_utils.py:184-187 | a boundary pair whose window holds an observation is never skipped: its regime id appears |
| AnalysisUtils.AnalyzeRegimes | utils/analysis_utils.py:171-194 | each regime is the regime of one boundary pair (start and end are adjacent boundaries, id is the pair index + 1) with an id in 1 .. k+1, duration end - start, and non-empty observations that are exactly the data with start <= date < end, in order; ids strictly increase, so skipped regimes leave gaps |
| AnalysisUtils.RegimesDisjoint | utils/analysis_utils.py:184 | no observation belongs to two regimes |
| AnalysisUtils.EarlierObservationsCovered | utils/analysis_utils.py:175-187 | every observation dated before the last date falls in some regime |
| AnalysisUtils.Crossing | utils/analysis_utils.py:179-181 | a date between the first and the last boundary lies in some [b[a], b[a+1]) |
| AnalysisUtils.LastDateInNoRegime | utils/analysis_utils.py:175-184 | when no change point is after the last date, every observation of every regime is dated before the last date, so the observation on the last date falls in no regime |
| AnalysisUtils.PairFrom | utils/analysis_utils.py:242-263 | skips failed impacts and pairs each kept impact with the event at the same original position; it fails exactly when a kept impact has no event row at its position |
| AnalysisUtils.CreateImpactSummary | utils/analysis_utils.py:240-270 | succeeds iff every kept impact has an event row and at least one impact is kept; fails with NoRowsToSort iff every impact failed; rows are ordered by non-increasing magnitude |
| AnalysisUtils.ImpactSummaryPairing | utils/analysis_utils.py:242-246 | the summary rows are exactly the rows built from (events[j], impacts[j]) for the kept positions j, one row per kept impact |
| AnalysisUtils.ImpactSummaryRowFacts | utils/analysis_utils.py:259-260 | the magnitude is the absolute average impact, and the direction is Increase iff the average impact is strictly positive |
| BayesianModel.MultiRegimeCounts | src/bayesian_changepoint_model.py:222 | the regime of t is the number of change points strictly below t |
| BayesianModel.MultiRegimeSplits | src/bayesian_changepoint_model.py:214-222 | with sorted change points, the first regime(t) are below t and the rest are at or above t |
| BayesianModel.MultiRegimeMonotone | src/bayesian_changepoint_model.py:222 | a later index is never in an earlier regime |
| BayesianModel.RegimeIndexInBounds | src/bayesian_changepoint_model.py:213-226 | with every tau drawn from 1 .. n-2 and sorted, the regime indexes the n_changepoints + 1 parameters in bounds; index 0 is regime 0 and the last index is the last regime |
| BayesianModel.MultiRegimeNone | src/bayesian_changepoint_model.py:222 | an index at or before every change point is in regime 0 |
| BayesianModel.MultiRegimeAll | src/bayesian_changepoint_model.py:222 | an index after every change point is in the last regime |
| BayesianModel.SingleAgreesWithMultiple | src/bayesian_changepoint_model.py:172-174 | the single model is the multiple model with one change point: regime 0 iff t <= tau |
| BayesianModel.SingleRegimesNonEmpty | src/bayesian_changepoint_model.py:161-174 | with tau in 1 .. n-2, indices 0 and 1 use the "before" parameters and the last index uses the "after" ones |
| BayesianModel.ConvergedIffMaxBelow | src/bayesian_changepoint_model.py:284-287 | the model has converged (every R-hat strictly below 1.1) iff the maximum R-hat is below 1.1 |
| BayesianModel.EstimateChangePoint | src/bayesian_changepoint_model.py:298-313 | the date estimate is the date at the truncated median position (`DateAt`), the median and spread are copied, and the date is interior, strictly inside the range on a strictly increasing index |
| BayesianModel.EstimateFollowsMedian | src/bayesian_changepoint_model.py:312 | on an ascending date index a later median never gives an earlier date estimate |
| BayesianModel.AssociateOne | src/bayesian_changepoint_model.py:432-439 | the id is position + 1, the date, median and spread are copied, and at most 3 events are kept, never more than the nearby count |
| BayesianModel.AssociateWithEvents | src/bayesian_changepoint_model.py:402-439 | no result when change points or events are missing; otherwise one association per change point in order, with id i + 1, copied fields, and at most 3 kept events |
| BayesianModel.AttachmentWindow | src/bayesian_changepoint_model.py:416-430 | an event attaches iff its absolute distance is at most the tolerance; the stored difference is signed, event date minus change-point date; the nearby count is the number of attaching events |
| BayesianModel.UnsortedWindow | src/bayesian_changepoint_model.py:415-427 | before sorting, the nearby list holds every attaching event, and only attaching ones, with signed differences |
| BayesianModel.AssociationRanking | src/bayesian_changepoint_model.py:430-438 | nearby events are ordered by absolute difference, stably; the kept events are the first min(3, n) and none is farther than any dropped one; n_nearby_events is n |
| BayesianModel.AssociationSummary | src/bayesian_changepoint_model.py:443-466 | one row per association; an association without events gives "No nearby events" and no event date; otherwise the row names the first kept event and its difference |
| BayesianModel.SummaryNamesNearest | src/bayesian_changepoint_model.py:430-453 | the difference shown in a summary row is no larger in absolute value than that of any attaching event |
| BayesianModel.NearestFirst | src/bayesian_changepoint_model.py:430 | the head of the sorted nearby list is at least as close as every attaching event |
| BayesianModel.Recorded | src/bayesian_changepoint_model.py:495-509 | only positions whose before and after windows both hold data are recorded |
| BayesianModel.QuantifyImpact | src/bayesian_changepoint_model.py:487-531 | no result without change points; otherwise at most one record per change point, each holding exactly the observations in [cp - w, cp) and in (cp, cp + w], so the change-point day is in neither window |
| BayesianModel.ImpactOrder | src/bayesian_changepoint_model.py:495-521 | record ids strictly increase |
| BayesianModel.ImpactRecordIff | src/bayesian_changepoint_model.py:506-521 | change point a has a record (id a + 1) iff both of its windows are non-empty |
| ChangePointModel.RegimeIndex | src/change_point_model.py:104-114 | the loop's regime is one past the last change point at or before t, and every later change point is after t; for sorted change points it is the number at or before t, so `mu[regime]` is in bounds |
| ChangePointModel.ReachedSplits | src/change_point_model.py:84-85 | with sorted change points, the first Reached(t) are at or before t and the rest after t |
| ChangePointModel.ReachedMonotone | src/change_point_model.py:104-111 | a later index is never in an earlier regime |
| ChangePointModel.RegimeRange | src/change_point_model.py:77-82 | with every tau in 1 .. n-2, index 0 is regime 0, the last index is the last regime, and every regime selects one of the max_changepoints + 1 means |
| ChangePointModel.ConventionShift | src/change_point_model.py:106-111 | this model's regime of t is the Bayesian analyser's regime of t + 1: the index tau opens the new regime here, but keeps the old one there |
| ChangePointModel.ConventionsDisagreeAtTau | src/change_point_model.py:108 | for a single change point at tau, the two conventions put index tau in different regimes |
| ChangePointModel.ToRow | src/change_point_model.py:214-225 | the row has id i + 1, copies the mean, median, interval ends and spread, reads each of its four dates at the truncated position it reports (`DateAt`), and on a strictly ascending index those dates lie strictly inside the series |
| ChangePointModel.GetChangePoints | src/change_point_model.py:208-229 | exactly max_changepoints rows with ids 1 .. max_changepoints in order; each copies its summary's positions, interval and spread, reads its four dates at those truncated positions, and on a strictly ascending index every date lies strictly inside the series |
| ChangePointModel.DatesFollowPositions | src/change_point_model.py:217-223 | on an ascending date index, ordered interval positions give ordered dates |
| ChangePointModel.RHatVerdictOf | src/change_point_model.py:325-330 | excellent iff R-hat < 1.01, good iff 1.01 <= R-hat < 1.05, poor iff R-hat >= 1.05 |
| ChangePointModel.RHatVerdictMonotone | src/change_point_model.py:325-330 | a larger R-hat never gets a better verdict |
| ChangePointModel.VerdictImpliesConverged | src/change_point_model.py:325-330 | any verdict other than poor implies the converged flag of the Bayesian analyser |
| ChangePointModel.EssGoodIffAllAbove | src/change_point_model.py:333-339 | the verdict on the minimum ESS is good iff every ESS value is strictly above 400, so a single value at 400 or below makes it low |
| Api.ContainsIff | backend/app.py:206 | substring containment holds iff the query occurs at some position |
| Api.QueryCaseIrrelevant | backend/app.py:206 | the case of the query does not change the result |
| Api.Number | backend/app.py:210-212 | each event is numbered with its 0-based position |
| Api.ToJsonAll | backend/app.py:209-218 | one output record per selected event, in order |
| Api.GetEvents | backend/app.py:190-220 | an error iff the events are unavailable; otherwise never more records than events |
| Api.FiltersCombineByAnd | backend/app.py:200-206 | the three successive filters keep exactly the events satisfying all three predicates |
| Api.GetEventsSelects | backend/app.py:198-206 | event i is returned iff its date is on or after a given start, on or before a given end, and a given type query occurs in its present type ignoring case; an absent bound or empty query selects all |
| Api.GetEventsRows | backend/app.py:209-218 | every record is a catalogue event's fields at its id, with description "" and impact level "medium" when absent |
| Api.GetEventsOrder | backend/app.py:198-212 | the ids of the records strictly increase: the result keeps catalogue order |
| Api.GetHistoricalData | backend/app.py:131-158 | an error when no data is loaded or when the selection is empty; otherwise the dates and prices are those of the observations within the inclusive bounds that are given, in series order, the record count is their number, and the range ends are dates of the selection that bound all of them |
| Api.HistoricalDataComplete | backend/app.py:141-144 | every observation that meets the given inclusive bounds is returned |
| Api.GetChangePoints | backend/app.py:166-185 | an error iff the analysis is unavailable; otherwise one record per change point with id its 0-based position, date, probability and interval copied, and a price that defaults to 0 when absent |
| Api.GetSummary | backend/app.py:312-329 | an error without results or when the price frame is empty; otherwise the counts of change points, events (0 when unavailable) and days, associated_events equal to the pair count of the associations (0 when absent), and a data period whose ends are dates of the series bounding every date, i.e. its minimum and maximum |
| Api.PairCountBound | backend/app.py:318-319 | with at most 3 events per association, the pair count is at most 3 per association |
| Api.PairCountAppend | backend/app.py:318-319 | the pair count is additive: the count of two association lists joined is the sum of their counts |
| Api.SummaryPairsBound | backend/app.py:316-319 | on the Bayesian analyser's associations, the associated-events count is at most three times the number of change points |
| Api.PairsNotDistinctEvents | backend/app.py:318-319 | the same event attached to two change points is counted twice: the count is of pairs, not of distinct events |
| EventData.MakeEvent | utils/event_data.py:21-31 | each catalogue event carries its id and date, and its end date is the date plus its duration |
| EventData.CatalogueRow | utils/event_data.py:21-181 | the row with a given id has that id and date, a positive duration, and end date = date + duration |
| EventData.MajorEventsDataset | utils/event_data.py:10-183 | 15 events with ids 1 .. 15 in order, the catalogue dates, and end date = date + duration for every event |
| EventData.StepwiseChronological | utils/event_data.py:21-172 | consecutive dates increasing implies all dates increasing |
| EventData.CatalogueStep | utils/event_data.py:21-172 | each catalogue date is strictly before the next id's date |
| EventData.MajorEventsChronological | utils/event_data.py:21-172 | the built-in catalogue's dates strictly increase with the id, and the ids are distinct |
| EventData.EventsInPeriod | utils/event_data.py:236-240 | keeps, in order, exactly the events with start <= date <= end, both ends inclusive |
| EventData.PeriodIntersection | utils/event_data.py:236-240 | two period filters in a row are one filter over the intersection of the periods |
| EventData.EventsByCategory | utils/event_data.py:258 | keeps, in order, exactly the events whose category equals the argument, case-sensitively |
| EventData.CreateEventImpactWindows | utils/event_data.py:280-289 | the same events in the same order, with windowStart = date - pre and windowEnd = date + post; hence windowStart <= date iff pre >= 0, date <= windowEnd iff post >= 0, and the window spans pre + post days |
| EventData.WindowHoldsEvent | utils/event_data.py:280-289 | the period filter over an event's own window selects that event iff neither offset is negative |
| DataLoader.DetectDataGaps | utils/data_loader.py:128-147 | the loop counts the consecutive pairs more than max_gap_days apart: 0 with fewer than two dates and at most n - 1 |
| DataLoader.NoGapsIff | utils/data_loader.py:144-145 | there is no gap iff every step between consecutive dates is at most max_gap_days, so a step of exactly max_gap_days is not a gap |
| DataLoader.GapsShrinkWithTolerance | utils/data_loader.py:144-145 | a larger tolerance never reports more gaps |
| DataLoader.CountDuplicates | utils/data_loader.py:91 | counts the entries that repeat an earlier one; the count is the number of entries minus the number of distinct dates |
| DataLoader.PriceCountsDisjoint | utils/data_loader.py:92-94 | missing, zero and negative prices are disjoint kinds, so their counts sum to at most n; zero plus negative counts the non-positive prices |
| DataLoader.DetectOutliersIqr | utils/data_loader.py:117-126 | the outlier count is at most the number of prices |
| DataLoader.FencesEnclose | utils/data_loader.py:119-122 | with q1 <= q3 and a non-negative multiplier, the fences enclose [q1, q3] and widen as the multiplier grows |
| DataLoader.OutlierIff | utils/data_loader.py:121-124 | a price is an outlier iff it is present and strictly below the lower fence or strictly above the upper one |
| DataLoader.FenceValuesNotOutliers | utils/data_loader.py:124 | in any series, a price exactly on a fence is not an outlier |
| DataLoader.OutliersShrinkWithMultiplier | utils/data_loader.py:117-126 | a larger multiplier never finds more outliers, and every outlier lies outside [q1, q3] |
| DataLoader.CheckDataQuality | utils/data_loader.py:76-99 | each counter of the report is the count it names, with the default multiplier 1.5 and gap tolerance 7; the missing-price, zero and negative counts sum to at most n |
| TimeSeries.Sign | utils/time_series_analysis.py:132 | the sign is 1 iff the difference is positive and -1 iff it is negative |
| TimeSeries.PairsCount | utils/time_series_analysis.py:130-132 | the number of pairs i < j of n values is n(n-1)/2 |
| TimeSeries.SBound | utils/time_series_analysis.py:126-135 | \|S\| <= n(n-1)/2 |
| TimeSeries.RowIncreasing | utils/time_series_analysis.py:131-132 | in a strictly increasing series every pair in a row counts +1 |
| TimeSeries.SIncreasing | utils/time_series_analysis.py:130-132 | in a strictly increasing series the partial S equals the number of pairs |
| TimeSeries.RowConstant | utils/time_series_analysis.py:131-132 | in a constant series every pair counts 0 |
| TimeSeries.SConstant | utils/time_series_analysis.py:130-132 | in a constant series the partial S is 0 |
| TimeSeries.SExtremes | utils/time_series_analysis.py:126-132 | a strictly increasing series has S = n(n-1)/2 and a constant series has S = 0 |
| TimeSeries.ComputeS | utils/time_series_analysis.py:126-132 | the nested loops over i < j compute S, which satisfies the pair bound |
| TimeSeries.VarSPositive | utils/time_series_analysis.py:135 | the variance of S is positive from two values on |
| TimeSeries.ZScore | utils/time_series_analysis.py:137-143 | z >= 0 when S > 0, z <= 0 when S < 0, and z = 0 when \|S\| <= 1 (the continuity correction) |
| TimeSeries.TrendOf | utils/time_series_analysis.py:148-157 | significant iff p < alpha; then increasing iff z > 0 and decreasing iff z <= 0; otherwise no trend |
| TimeSeries.MannKendallTest | utils/time_series_analysis.py:110-165 | the S of the data with its pair bound, a z with the sign of S (0 when \|S\| <= 1), significance iff p < alpha, and a trend label that agrees with z; since z = 0 gives p = 1, a significant result at any alpha <= 1 has \|S\| >= 2, and a significant "decreasing" trend has z < 0 |
| TimeSeries.LinearTrendDirection | utils/time_series_analysis.py:97 | increasing iff slope > 0, decreasing iff slope < 0, no trend iff slope = 0 |
| TimeSeries.StationarityConclusion | utils/time_series_analysis.py:45-64 | Stationary iff ADF p < sig and KPSS p > sig; Non-stationary iff neither holds; Inconclusive iff exactly one holds |

## Left out

- PyMC model construction and sampling, the ArviZ summary, HDI and R-hat computation, and the percentile credible intervals. They are stochastic library computations. Their outputs (tau summaries, R-hat values, ESS) are inputs of the model.
- Floating-point statistics. This covers means, standard deviations, percent changes, t-tests, `linregress`, ADF/KPSS, `norm.cdf`, `sqrt`, quartiles, rolling volatility and seasonal decomposition. P-values, slopes, quartiles and the standard deviation of S are `real` inputs.
- NaN beyond a missing price. A missing price is `None` and counts in no comparison.
- TimeSeries.MannKendallTest: takes the standard deviation of S as an input constrained by `sd * sd == VarS(n)` instead of computing `np.sqrt`. It also takes the p-value as an input instead of computing it from `norm.cdf`. The only constraint on that input is that p = 1 when \|S\| <= 1, where z = 0.
- BayesianModel.AssociateWithEvents: the analyser (src/bayesian_changepoint_model.py:416-426) reads the capitalised event columns `Date`, `Name`, `Category` and `Expected_Impact`. The model uses the catalogue's own record (`EventData.Event`) for both association variants, taking those columns to be the catalogue's `date`, `event_name`, `category` and `expected_impact`. Renaming columns is frame loading, which is outside the model.
- Api.ContainsIgnoringCase: pandas' `str.contains` reads the query as a regular expression and folds Unicode case. The model matches the query as a literal substring and folds ASCII letters only.
- Time-of-day parts of dates, and date parsing. All dates are whole-day ordinals.
- Plotting (matplotlib/seaborn) and the text report generators. They are presentation only.
- Flask routing, CORS, JSON and numpy conversion, and the global caching in the web API. Also the health, model-diagnostics, event-associations and impact-analysis endpoints, and `ensure_analysis_complete`. That last one calls analyser methods that the analyser does not define. The change points and associations the endpoints read are given as inputs, and the summary uses the Bayesian analyser's association records.
- Api.GetSummary: leaves out `last_updated` (a clock reading) and `model_performance` (an opaque dictionary passed through).
- Api.GetHistoricalData: leaves out `log_returns`, a computed floating-point column.
- CSV loading and saving of prices and events.
- The test script and the dashboard. Neither has checkable logic in the modelled files.
- The statistics in each regime of `analyze_regime_characteristics` (mean, median, std, min/max, trend label). The model keeps the segmentation, ids, durations and observations.
- `calculate_price_impact`. Its outputs are the impact results that `create_impact_summary` receives. The model keeps only the error or measured distinction and the fields the summary copies.
- The statistics inside `quantify_impact` (window means, standard deviations, percent change). The model keeps which change points produce a record and the observations of each window.
- BayesianModel.QuantifyImpact: returns `None` where the analyser returns an empty dictionary when no change points exist.
- AnalysisUtils.CreateImpactSummary: states the magnitude order but not a particular order among equal magnitudes. `sort_values` does not promise stability for its default algorithm.
- AnalysisUtils.LastDateInNoRegime: requires every change point to be at or before the last date. A change point after the last date makes the last regime reach past it and keep the last observation.

## Divergences the model records

- The two model builders disagree about the change-point index itself. `ChangePointModel.ConventionShift` proves that one file's regime of t is the other's regime of t + 1.
- The trend table labels a significant result with z = 0 as decreasing (`TimeSeries.TrendOf`). That branch is reachable only when alpha > 1, because z = 0 forces p = 1 (`TimeSeries.MannKendallTest`).
- The quality report's `missing_dates` counts repeated dates, not absent ones (`DataLoader.CountDuplicates`).
- The summary's `associated_events` counts (change point, event) pairs, so one event near two change points counts twice (`Api.PairsNotDistinctEvents`).
