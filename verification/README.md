# yassa_bio acceptance and analysis core, modelled in Dafny

yassa_bio evaluates ligand-binding assay plates. A plate table (one row per
well) is preprocessed: the blank signal is subtracted, the signal is
normalised and outliers are flagged. A calibration curve is then fitted to the
calibration standards. Finally, a set of acceptance evaluators judges the run.
Each evaluator is registered under the name of its spec type, and each returns
a report whose `pass` flag feeds one overall verdict.

This project models that core as pure Dafny functions over immutable
datatypes. Each percentage, mean and CV an evaluator judges carries a
division-free contract: `Stats.IsPct` (percentage × denominator = 100 ×
numerator) and `Stats.AverageOf` (mean × count = sum). The verdict lemmas
build on these. It covers:

- **Tables and schemas.**
  - `Layout.Row` is one row of the analysis table. `Groups` models pandas
    `groupby`: numeric keys ascending, rows with a missing key dropped.
  - `TablePattern` is the required-well pattern of
    `schema/acceptance/pattern.py` (sample type and optional QC level) with
    its `present` test. The calibration, accuracy, precision, recovery,
    selectivity and validation-dilution evaluators use it.
  - `Well` models the `WellTemplate` field and cross-field validators.
  - `WellPattern` is the validation pattern of
    `schema/acceptance/validation/pattern.py` and its `matches`. The
    analytical QC, parallelism, carryover, stability and specificity
    evaluators use it, and the model applies `matches` to each row to
    decide presence (see "Code as written").
  - `AnalyticalRange` is the range schema's bounds check.
  - `Standard` is the serial-dilution concentration map.
- **Plumbing.**
  - `Registry` is the case-insensitive plug-in table.
  - `Pipeline` is the sequential step runner.
  - `Reader` is the choice of file reader from a path's suffix.
  - `Artifacts` is the report artifact check and the group `flatten`.
- **Analysis.**
  - The blank rules (`Blank`), the normalisation rules (`Normalize`) and the
    weighting schemes (`Weighting`).
  - The exact-arithmetic parts of the curve models (`CurveModel`).
  - The preprocess and curve-fit steps and their ordering (`AnalysisSteps`).
- **Acceptance.**
  - The shared helpers (`AcceptanceUtils`, `QcLevels`).
  - The analytical evaluators: `AnalyticalCalibration`, `AnalyticalQc` and
    `Parallelism`.
  - The validation evaluators: `ValidationAccuracy`, `ValidationPrecision`,
    `ValidationCalibration`, `ValidationRecovery`, `ValidationStability`,
    `ValidationSpecificity`, `ValidationSelectivity`, `ValidationCarryover`
    and `ValidationDilution`.
  - The factor/series dilution-linearity evaluator (`FactorDilution`).
  - The dispatcher that runs the evaluators (`Dispatcher`).
  - The calibration rerun check (`Rerun`).

**How numbers are modelled.**

- Real numbers are Dafny `real`s.
- A pandas NaN or a numpy infinity is `None`, and every comparison on `None`
  is false, as every comparison on NaN is.
- The sample standard deviation is a parameter `sd: seq<real> -> real`.
  Lemmas that need its basic laws (non-negative, zero on equal values) state
  them as `LawfulSd(sd)`.
- Plug-ins the model cannot see are parameters of the input:
  - the curve's back-calculation `back: real -> real`;
  - the outlier rule;
  - the transforms;
  - the least-squares fit and its inverse.

**Code as written.** Where the code and its documentation differ, the model
follows the code:

- **Parallelism: the dilution count.** `analytical/parallelism.py:40`
  counts the number of distinct replicate counts among a sample's dilution
  factors, not the number of factors.
  `Parallelism.EqualReplicationIsOneDilution` states the consequence: a
  sample run at three factors with two replicates each counts as one
  dilution.
- **Dilution: the replicate minimum.** The factor/series dilution evaluator
  compares a point's replicate count with `min_replicates_per_point`, but its
  error message reads `min_replicates`. The spec class does not declare that
  field, so building the message for a short point would raise. The model
  reports the point as refused for too few replicates.
- **The validation pattern has no `present`.** The specs of the analytical
  QC, parallelism, carryover, stability and specificity evaluators hold the
  validation `RequiredWellPattern`, which defines only `matches`. The shared
  check `check_required_well_patterns` calls `p.present(df)`, so the source
  raises `AttributeError` for any non-empty pattern list, including each
  spec's default list. The model decides presence with that class's own
  `matches`, applied to the pattern-relevant fields of each row
  (`WellPattern.Present`). It therefore honours the `carryover`,
  `needs_interferent`, `needs_stability_condition` and `recovery_stage` flags:
  plain blanks do not satisfy the carryover default
  (`ValidationCarryover.PlainBlanksMissCarryoverPattern`).
- **Carryover: the blank threshold.** The carryover spec declares
  `blank_thresh_pct_lloq`, described as a percentage of the LLOQ response,
  but the evaluator compares each carryover blank with the raw LLOQ signal
  and never reads that field. The model follows the code
  (`ValidationCarryover.PerBlank`).
- **Validation calibration: a table without concentrations.** A
  calibration table whose rows all lack a concentration makes the source
  raise: the empty summary has no `concentration` column to index by. The
  model reports this case as the outcome `NoLevels` instead.

## Model

| member | source | states |
|---|---|---|
| AcceptanceUtils.QcRows | src/yassa_bio/evaluation/acceptance/engine/accuracy.py:10 | the rows kept are exactly the quality-control rows of the table |
| AcceptanceUtils.MissingPatterns | src/yassa_bio/evaluation/acceptance/engine/utils.py:6-9 | a pattern is reported missing exactly when it was required and no row matches it; nothing is missing exactly when every required pattern is present |
| AcceptanceUtils.MissingPatternsInOrder | src/yassa_bio/evaluation/acceptance/engine/utils.py:9 | the list comprehension keeps the required order: checking a + b reports a's misses followed by b's |
| AcceptanceUtils.PatternErrorOf | src/yassa_bio/evaluation/acceptance/engine/utils.py:12-17 | the error verdict carries the missing patterns and their count for the message's `{n}` |
| AcceptanceUtils.PatternErrorCounts | src/yassa_bio/evaluation/acceptance/engine/utils.py:6-17 | the reported count plus the number of present patterns is the number required, and the count is positive exactly when some required pattern is absent |
| AcceptanceUtils.LloqSignal | src/yassa_bio/evaluation/acceptance/engine/utils.py:20-24 | the LLOQ signal is defined exactly when some calibration row has a concentration, and it comes from rows at the lowest concentration |
| AcceptanceUtils.MinIsLowest | src/yassa_bio/evaluation/acceptance/engine/utils.py:23 | the column minimum exists exactly when some row has a concentration, is one row's concentration and lies at or below every other |
| AcceptanceUtils.LloqGroupIsLowest | src/yassa_bio/evaluation/acceptance/engine/utils.py:23-24 | the LLOQ signal is the mean signal of a non-empty group whose rows all sit at the lowest concentration |
| AcceptanceUtils.LloqSignalBounds | src/yassa_bio/evaluation/acceptance/engine/utils.py:24 | the LLOQ signal lies between any bounds on the signals at the lowest concentration |
| AcceptanceUtils.LloqSignalAtLeast | src/yassa_bio/evaluation/acceptance/engine/utils.py:24 | a lower bound on every lowest-concentration signal bounds the LLOQ signal |
| AcceptanceUtils.UloqConcentration | src/yassa_bio/evaluation/acceptance/engine/validation/dilution.py:85 | the ULOQ concentration is defined exactly when some row has a concentration; it is one row's concentration and no row's is higher |
| AcceptanceUtils.Cv | src/yassa_bio/evaluation/acceptance/engine/accuracy.py:50 | the CV is NaN with no values, 0 when the mean is 0, and otherwise defined exactly when there are at least two values; it is then the standard deviation as a percentage of the mean (CV × mean = 100 × sd) |
| AcceptanceUtils.CvOfAgreeingValues | src/yassa_bio/evaluation/acceptance/engine/accuracy.py:50 | two or more equal values have a CV of 0 |
| TablePattern.Mask | src/yassa_bio/schema/acceptance/pattern.py:12-18 | one flag per row, set exactly when the sample type matches and, if a QC level is given, the level matches too |
| TablePattern.Present | src/yassa_bio/schema/acceptance/pattern.py:20-21 | a pattern is present exactly when some row is selected, so never on an empty table |
| TablePattern.PresentMonotone | src/yassa_bio/schema/acceptance/pattern.py:20-21 | adding rows never makes a present pattern absent |
| ValidationAccuracy.AssessLevel | src/yassa_bio/evaluation/acceptance/engine/accuracy.py:32-74 | a pattern's entry is "too few replicates" exactly when its rows number fewer than the minimum; otherwise it passes exactly when the mean bias is within the bias tolerance and bias plus CV within the total-error tolerance, both widened at LLOQ and ULOQ |
| ValidationAccuracy.Entries | src/yassa_bio/evaluation/acceptance/engine/accuracy.py:31 | one entry per required pattern, in the required order |
| ValidationAccuracy.Summarize | src/yassa_bio/evaluation/acceptance/engine/accuracy.py:61-84 | the pass count counts passing entries; `per_level` is keyed by exactly the patterns' QC levels; the run passes exactly when at least `min_levels` entries pass |
| ValidationAccuracy.Evaluate | src/yassa_bio/evaluation/acceptance/engine/accuracy.py:8-84 | no `qc_level` column fails first; otherwise the run is refused exactly when a required pattern has no QC row, listing exactly those; otherwise the verdict is the count of passing patterns against `min_levels` |
| ValidationAccuracy.PerLevelIsLastPattern | src/yassa_bio/evaluation/acceptance/engine/accuracy.py:39-64 | when two patterns name one QC level, the later pattern's entry is the one kept in `per_level` |
| ValidationAccuracy.ExactLevelPasses | src/yassa_bio/evaluation/acceptance/engine/accuracy.py:47-59 | a level whose back-calculations reproduce one positive nominal value passes under non-negative tolerances |
| ValidationPrecision.RowBias | src/yassa_bio/evaluation/acceptance/engine/precision.py:26 | a well's bias is non-negative and is `|back − x|` as a percentage of `|x|` |
| ValidationPrecision.RowBiases | src/yassa_bio/evaluation/acceptance/engine/precision.py:26 | the per-well biases are non-negative, at most one per well, and one for every well when no nominal value is 0 |
| ValidationPrecision.RowBiasesOfNominalWells | src/yassa_bio/evaluation/acceptance/engine/precision.py:26 | the biases are exactly those of the wells with a non-zero nominal value, one per well, in table order |
| ValidationPrecision.PrecisionBias | src/yassa_bio/evaluation/acceptance/engine/precision.py:49 | the mean bias is never negative and is undefined (fails every tolerance) whenever some well has an infinite bias; otherwise it is defined exactly when some well has a bias, and it is then the average of the row biases |
| ValidationPrecision.AssessLevel | src/yassa_bio/evaluation/acceptance/engine/precision.py:32-73 | a pattern's entry is "too few replicates" exactly when its rows number fewer than the minimum; otherwise it passes exactly when the CV is within the CV tolerance and CV plus mean bias within the total-error tolerance, both widened at LLOQ and ULOQ |
| ValidationPrecision.Entries | src/yassa_bio/evaluation/acceptance/engine/precision.py:31 | one entry per required pattern, in the required order |
| ValidationPrecision.Summarize | src/yassa_bio/evaluation/acceptance/engine/precision.py:60-83 | the pass count counts passing entries; `per_level` is keyed by exactly the patterns' QC levels; the run passes exactly when at least `min_levels` entries pass |
| ValidationPrecision.Evaluate | src/yassa_bio/evaluation/acceptance/engine/precision.py:8-83 | no `qc_level` column fails first; otherwise the run is refused exactly when a required pattern has no QC row, listing exactly those; otherwise the verdict is the count of passing patterns against `min_levels` |
| ValidationPrecision.ExactRowBiases | src/yassa_bio/evaluation/acceptance/engine/precision.py:26 | wells that reproduce their non-zero nominal value have zero bias |
| ValidationPrecision.ExactLevelPasses | src/yassa_bio/evaluation/acceptance/engine/precision.py:46-58 | a level whose back-calculations reproduce one positive nominal value passes under non-negative tolerances |
| QcLevels.LevelRows | src/yassa_bio/evaluation/acceptance/engine/accuracy.py:32-35 | a pattern's rows are exactly the QC rows with its sample type and its QC level |
| QcLevels.OptAdd | src/yassa_bio/evaluation/acceptance/engine/accuracy.py:51 | the total error is defined exactly when both terms are, and is then their sum |
| QcLevels.PatternLevels | src/yassa_bio/evaluation/acceptance/engine/accuracy.py:31-64 | the `per_level` keys, one per pattern in order |
| QcLevels.KeyedLast | src/yassa_bio/evaluation/acceptance/engine/accuracy.py:39-64 | the dictionary's keys are exactly the keys written |
| QcLevels.KeyedLastWins | src/yassa_bio/evaluation/acceptance/engine/accuracy.py:39-64 | each key holds the value of its last write |
| QcLevels.KeyedLastSize | src/yassa_bio/evaluation/acceptance/engine/accuracy.py:79 | `num_levels` is the number of distinct QC levels named, not the number of patterns |
| Groups.KeyValues | src/yassa_bio/evaluation/acceptance/engine/analytical/calibration.py:27 | the present values of a key column are exactly the keys some row has |
| Groups.NumericKeys | src/yassa_bio/evaluation/acceptance/engine/analytical/calibration.py:27 | numeric group keys are strictly ascending and are exactly the keys some row has |
| Groups.FirstKeys | src/yassa_bio/evaluation/acceptance/engine/analytical/parallelism.py:36 | string group keys have no duplicates and are exactly the keys some row has |
| Groups.Group | src/yassa_bio/evaluation/acceptance/engine/analytical/calibration.py:27 | a group holds exactly the rows with its key |
| Groups.GroupNonEmpty | src/yassa_bio/evaluation/acceptance/engine/analytical/calibration.py:27 | every group key names a non-empty group |
| Groups.KeysAreConcentrations | src/yassa_bio/evaluation/acceptance/engine/analytical/calibration.py:27 | the concentration group keys are the concentrations some row has |
| AnalyticalCalibration.LevelAccuracy | src/yassa_bio/evaluation/acceptance/engine/analytical/calibration.py:29-33 | a level's accuracy error is defined exactly when its mean nominal value is non-zero, and is then the absolute deviation of the mean back-calculation from that mean as a percentage of it |
| AnalyticalCalibration.EdgeIffExtreme | src/yassa_bio/evaluation/acceptance/engine/analytical/calibration.py:36-37 | in ascending levels, the first and the last are exactly those at the minimum or maximum concentration |
| AnalyticalCalibration.EvaluateLevel | src/yassa_bio/evaluation/acceptance/engine/analytical/calibration.py:28-42 | a level's entry is an edge exactly when its concentration is the lowest or highest, and it passes exactly when its accuracy error is within the tolerance for its kind |
| AnalyticalCalibration.Concentrations | src/yassa_bio/evaluation/acceptance/engine/analytical/calibration.py:48-62 | the concentrations listed are exactly those of the given levels |
| AnalyticalCalibration.Levels | src/yassa_bio/evaluation/acceptance/engine/analytical/calibration.py:27-42 | one entry per distinct calibration concentration: entries and concentrations name the same values |
| AnalyticalCalibration.KeyedEntriesCover | src/yassa_bio/evaluation/acceptance/engine/analytical/calibration.py:27-30 | entries built one per group key name exactly the concentrations present |
| AnalyticalCalibration.Summarize | src/yassa_bio/evaluation/acceptance/engine/analytical/calibration.py:45-66 | passing and failing levels partition the levels; the failing list names exactly the failing concentrations; refit is possible exactly when the retained count reaches `min_retained_levels`; the run passes exactly when it can refit, meets the pass fraction, has no failing level and has `min_levels` levels |
| AnalyticalCalibration.Evaluate | src/yassa_bio/evaluation/acceptance/engine/analytical/calibration.py:13-66 | refused exactly when a required pattern has no calibration row; otherwise every level is described as above, and a pass implies refit possible, no failing level and enough levels |
| AnalyticalCalibration.PositiveMean | src/yassa_bio/evaluation/acceptance/engine/analytical/calibration.py:29 | positive values have a positive mean |
| AnalyticalCalibration.ExactLevel | src/yassa_bio/evaluation/acceptance/engine/analytical/calibration.py:29-33 | a level whose back-calculations reproduce positive nominal values has zero accuracy error |
| AnalyticalCalibration.ExactFitKeepsEveryLevel | src/yassa_bio/evaluation/acceptance/engine/analytical/calibration.py:38-50 | a back-calculation that reproduces every standard leaves no failing level, and refit is possible exactly when there are `min_retained_levels` levels |
| AnalyticalQc.LevelRows | src/yassa_bio/evaluation/acceptance/engine/analytical/qc.py:38 | a level's rows are exactly the QC rows at that level |
| AnalyticalQc.NumOk | src/yassa_bio/evaluation/acceptance/engine/analytical/qc.py:28-32 | the count of acceptable wells is at most the number of wells and equals it exactly when every well is within tolerance |
| AnalyticalQc.SummarizeLevel | src/yassa_bio/evaluation/acceptance/engine/analytical/qc.py:38-48 | a level's summary counts its wells and its acceptable wells; the fraction is 0 for an empty level; it meets the level fraction exactly when the fraction reaches `pass_fraction_each_level` |
| AnalyticalQc.FailingPositions | src/yassa_bio/evaluation/acceptance/engine/analytical/qc.py:49 | the positions listed for a level are exactly the table positions of its QC wells that are not acceptable |
| AnalyticalQc.AllFailing | src/yassa_bio/evaluation/acceptance/engine/analytical/qc.py:37-49 | the failing wells reported are exactly the unacceptable QC wells at LOW, MID or HIGH |
| AnalyticalQc.Assess | src/yassa_bio/evaluation/acceptance/engine/analytical/qc.py:24-63 | counts every QC well; all pass exactly when every QC well is acceptable; one summary each for LOW, MID, HIGH; the run passes exactly when the overall fraction is met and every level meets its fraction |
| AnalyticalQc.Evaluate | src/yassa_bio/evaluation/acceptance/engine/analytical/qc.py:14-63 | refused exactly when a required pattern has no QC row, listing exactly those; otherwise the verdict of `Assess` |
| AnalyticalQc.FullLevelMeets | src/yassa_bio/evaluation/acceptance/engine/analytical/qc.py:41-47 | a non-empty level whose wells are all acceptable meets any level fraction up to 1 |
| AnalyticalQc.NoneFailing | src/yassa_bio/evaluation/acceptance/engine/analytical/qc.py:49 | with every QC well acceptable, no position is reported failing |
| AnalyticalQc.AllWellsOkPasses | src/yassa_bio/evaluation/acceptance/engine/analytical/qc.py:31-54 | a run whose every QC well is acceptable, with wells at LOW, MID and HIGH, passes for fractions up to 1 and reports no failing well |
| Parallelism.FactorCounts | src/yassa_bio/evaluation/acceptance/engine/analytical/parallelism.py:39 | one replicate count per dilution factor of the sample, each the size of that factor's group |
| Parallelism.DilutionCount | src/yassa_bio/evaluation/acceptance/engine/analytical/parallelism.py:40 | the number of distinct replicate counts: at most the number of factors, and at least 1 for a non-empty sample |
| Parallelism.FirstShort | src/yassa_bio/evaluation/acceptance/engine/analytical/parallelism.py:58-72 | the scan stops at the first factor with too few replicates; none is found exactly when every factor has enough |
| Parallelism.AssessSample | src/yassa_bio/evaluation/acceptance/engine/analytical/parallelism.py:38-93 | a sample is refused for too few dilutions exactly when the dilution count is below `min_dilutions`, else for too few replicates exactly when some factor is short (naming such a factor), and otherwise passes exactly when the CV of its back-calculated values is within `cv_tol_pct` |
| Parallelism.Entries | src/yassa_bio/evaluation/acceptance/engine/analytical/parallelism.py:36-38 | one entry per sample id, in order |
| Parallelism.Summarize | src/yassa_bio/evaluation/acceptance/engine/analytical/parallelism.py:95-107 | the pass count counts passing entries; the run passes exactly when the pass fraction reaches `pass_fraction`, 0 for no samples |
| Parallelism.Evaluate | src/yassa_bio/evaluation/acceptance/engine/analytical/parallelism.py:8-107 | missing columns fail first, naming exactly the absent ones; then a required pattern with no kept row refuses the run; otherwise one entry per kept sample id and the fraction verdict |
| Parallelism.EntriesNameEverySample | src/yassa_bio/evaluation/acceptance/engine/analytical/parallelism.py:36-38 | the sample ids reported are exactly those of the kept rows |
| Parallelism.IdsCoverSamples | src/yassa_bio/evaluation/acceptance/engine/analytical/parallelism.py:36 | entries named by the group keys name exactly the sample ids present |
| Parallelism.EqualReplicationIsOneDilution | src/yassa_bio/evaluation/acceptance/engine/analytical/parallelism.py:39-40 | as written, a sample with the same number of replicates at every factor counts as one dilution |
| Parallelism.ConsistentSamplePasses | src/yassa_bio/evaluation/acceptance/engine/analytical/parallelism.py:78-83 | a sample of two or more wells that meets the dilution and replicate minimums and whose back-calculated values agree passes |
| ValidationRecovery.StageRows | src/yassa_bio/evaluation/acceptance/engine/recovery.py:38-40 | a level's before or after wells are exactly the recovery wells with that level and stage |
| ValidationRecovery.Levels | src/yassa_bio/evaluation/acceptance/engine/recovery.py:33 | the levels assessed are exactly the QC levels some recovery well has |
| ValidationRecovery.Recoveries | src/yassa_bio/evaluation/acceptance/engine/recovery.py:55-59 | with a non-zero before-mean, one recovery per after-well, each the after value as a percentage of that mean; none otherwise |
| ValidationRecovery.AssessLevel | src/yassa_bio/evaluation/acceptance/engine/recovery.py:38-74 | a level is refused exactly when either stage has fewer than `min_replicates_each` wells; otherwise its mean and CV are those of the recoveries and it passes exactly when the CV is within `max_cv_pct_within_level` |
| ValidationRecovery.PerLevel | src/yassa_bio/evaluation/acceptance/engine/recovery.py:37-74 | one entry per level of the recovery wells |
| ValidationRecovery.MeanRecoveries | src/yassa_bio/evaluation/acceptance/engine/recovery.py:63 | a mean recovery is recorded exactly for the levels that were assessed |
| ValidationRecovery.RankSortedHead | src/yassa_bio/evaluation/acceptance/engine/recovery.py:79 | the tail of an ordered level list is ordered and above its head |
| ValidationRecovery.InOrder | src/yassa_bio/evaluation/acceptance/engine/recovery.py:79 | picking members of an ordered list keeps exactly those members, still ordered |
| ValidationRecovery.SortedLevels | src/yassa_bio/evaluation/acceptance/engine/recovery.py:79 | `sorted` lists exactly the given levels, ordered by their wire-value strings |
| ValidationRecovery.HeadPairs | src/yassa_bio/evaluation/acceptance/engine/recovery.py:82 | the inner loop pairs the outer level with each later level, in order |
| ValidationRecovery.InHeadPairs | src/yassa_bio/evaluation/acceptance/engine/recovery.py:82 | a pair is produced by the inner loop exactly when its first is the outer level and its second a later one |
| ValidationRecovery.PairsAreOrderedPairs | src/yassa_bio/evaluation/acceptance/engine/recovery.py:81-82 | the nested loops compare (a, b) exactly when both are levels and a sorts before b |
| ValidationRecovery.PairsHaveNoDuplicates | src/yassa_bio/evaluation/acceptance/engine/recovery.py:81-82 | no pair is compared twice |
| ValidationRecovery.LevelPairs | src/yassa_bio/evaluation/acceptance/engine/recovery.py:79-84 | every compared pair consists of levels with a mean recovery |
| ValidationRecovery.DifferenceOf | src/yassa_bio/evaluation/acceptance/engine/recovery.py:83-94 | a comparison passes exactly when both mean recoveries are defined and differ by at most `max_diff_pct_between_levels` |
| ValidationRecovery.Differences | src/yassa_bio/evaluation/acceptance/engine/recovery.py:81-94 | one comparison per pair, in loop order |
| ValidationRecovery.Summarize | src/yassa_bio/evaluation/acceptance/engine/recovery.py:98-108 | the run passes exactly when every level's CV is ok and every comparison passes |
| ValidationRecovery.Evaluate | src/yassa_bio/evaluation/acceptance/engine/recovery.py:9-108 | refused exactly when a required pattern is absent; then "no recovery wells" exactly when no QC well has a stage; otherwise the per-level entries, comparisons and verdict above |
| ValidationRecovery.PassingDifferencesAreClose | src/yassa_bio/evaluation/acceptance/engine/recovery.py:81-96 | when every comparison passes, any two levels in sort order are close |
| ValidationRecovery.CloseLevelsPassDifferences | src/yassa_bio/evaluation/acceptance/engine/recovery.py:81-96 | when every two distinct levels are close, every comparison passes |
| ValidationRecovery.BetweenLevelsIff | src/yassa_bio/evaluation/acceptance/engine/recovery.py:77-96 | the between-level check passes exactly when every two distinct levels with a mean recovery are close |
| ValidationRecovery.NoLevelsPasses | src/yassa_bio/evaluation/acceptance/engine/recovery.py:33-99 | recovery wells with no QC level leave nothing to fail, so the run passes |
| ValidationStability.Keys | src/yassa_bio/evaluation/acceptance/engine/stability.py:33 | the (condition, level) pairs are exactly those of some annotated QC well with a QC level |
| ValidationStability.Conditions | src/yassa_bio/evaluation/acceptance/engine/stability.py:36-82 | the conditions counted are exactly those of the pairs |
| ValidationStability.TimeRows | src/yassa_bio/evaluation/acceptance/engine/stability.py:44-47 | a pair's before or after wells are exactly its annotated wells at that time point |
| ValidationStability.AssessPair | src/yassa_bio/evaluation/acceptance/engine/stability.py:44-80 | a pair is refused exactly when it lacks before or after wells; a zero before-mean is refused; otherwise the bias is the after-mean's absolute deviation as a percentage of the before-mean, and the pair passes exactly when it is within `acc_tol_pct` |
| ValidationStability.PerCondition | src/yassa_bio/evaluation/acceptance/engine/stability.py:33-80 | one entry per pair present |
| ValidationStability.Passing | src/yassa_bio/evaluation/acceptance/engine/stability.py:85 | the passing pairs are exactly the entries that pass |
| ValidationStability.Summarize | src/yassa_bio/evaluation/acceptance/engine/stability.py:82-102 | the run passes exactly when enough conditions were evaluated and the fraction of passing pairs reaches `pass_fraction` |
| ValidationStability.Evaluate | src/yassa_bio/evaluation/acceptance/engine/stability.py:8-102 | "no stability wells" exactly when no QC well is annotated, checked before the required patterns; then refused exactly when a pattern is absent; otherwise the per-pair entries and verdict above |
| ValidationStability.FullFractionIffAllPass | src/yassa_bio/evaluation/acceptance/engine/stability.py:84-88 | with at least one pair, the fraction is 1 exactly when every pair passes |
| ValidationStability.UnchangedPairPasses | src/yassa_bio/evaluation/acceptance/engine/stability.py:56-67 | a pair whose before and after wells read the same positive value has zero bias and passes a non-negative tolerance |
| ValidationStability.EqualMeansPass | src/yassa_bio/evaluation/acceptance/engine/stability.py:56-67 | equal non-zero means before and after give zero bias and a pass |
| ValidationSpecificity.QcWells | src/yassa_bio/evaluation/acceptance/engine/specificity.py:68-77 | a level's wells with (or without) an interferent are exactly the QC wells at that level that carry (or lack) one |
| ValidationSpecificity.BlankPctOfLloq | src/yassa_bio/evaluation/acceptance/engine/specificity.py:34-37 | the blank reading is 0% for a zero LLOQ signal and otherwise defined exactly when both means are; it is then the blank mean as a percentage of the LLOQ signal |
| ValidationSpecificity.InterferentBias | src/yassa_bio/evaluation/acceptance/engine/specificity.py:43-94 | insufficient exactly when the level lacks wells with or without an interferent; otherwise it counts both, names exactly the interferents present, and passes exactly when the bias is within `acc_tol_pct`; the bias is `|interfered mean − clean mean|` as a percentage of the clean mean, and 0 when the clean mean is 0 |
| ValidationSpecificity.Evaluate | src/yassa_bio/evaluation/acceptance/engine/specificity.py:11-61 | refused exactly when a required pattern is absent; otherwise the blank must read strictly below the threshold percentage of the LLOQ signal and both the LLOQ and ULOQ checks must pass |
| ValidationSpecificity.NeutralInterferentPasses | src/yassa_bio/evaluation/acceptance/engine/specificity.py:79-86 | an interferent that leaves every signal of a level unchanged shows zero bias and passes a non-negative tolerance |
| ValidationSelectivity.RelativeError | src/yassa_bio/evaluation/acceptance/engine/validation/selectivity.py:83-85 | a well's relative error is `|back − x|` as a percentage of the signed `x` |
| ValidationSelectivity.RelativeErrors | src/yassa_bio/evaluation/acceptance/engine/validation/selectivity.py:83-85 | at most one relative error per well, and one for every well when no nominal value is 0 |
| ValidationSelectivity.RelativeErrorsOfNominalWells | src/yassa_bio/evaluation/acceptance/engine/validation/selectivity.py:83-85 | the errors are exactly those of the wells with a non-zero nominal value, one per well, in table order |
| ValidationSelectivity.MeanAccuracy | src/yassa_bio/evaluation/acceptance/engine/validation/selectivity.py:86 | the mean accuracy is defined exactly when some well has a relative error (never for an empty group, always for a non-empty one with non-zero nominal values), and it is then the average of the relative errors |
| ValidationSelectivity.QcAt | src/yassa_bio/evaluation/acceptance/engine/validation/selectivity.py:77-97 | a source's LLOQ (or HIGH) QCs are exactly its QC wells at that level |
| ValidationSelectivity.Blanks | src/yassa_bio/evaluation/acceptance/engine/validation/selectivity.py:71 | a source's blanks are exactly its blank wells |
| ValidationSelectivity.EvaluateSource | src/yassa_bio/evaluation/acceptance/engine/validation/selectivity.py:60-111 | a source passes exactly when its mean blank signal is strictly below the LLOQ signal and its LLOQ and HIGH mean accuracies are within their tolerances; a passing source has blanks and both QC levels |
| ValidationSelectivity.Sources | src/yassa_bio/evaluation/acceptance/engine/validation/selectivity.py:29-37 | one entry per matrix source, each evaluated on that source's non-empty rows |
| ValidationSelectivity.TypeCounts | src/yassa_bio/evaluation/acceptance/engine/validation/selectivity.py:45-48 | the matrix types counted are exactly those of the sources |
| ValidationSelectivity.TypeCountsCount | src/yassa_bio/evaluation/acceptance/engine/validation/selectivity.py:45-48 | each matrix type is counted once per source of that type |
| ValidationSelectivity.Summarize | src/yassa_bio/evaluation/acceptance/engine/validation/selectivity.py:40-57 | the run passes exactly when the passing fraction reaches `pass_fraction` and there are `min_sources` sources |
| ValidationSelectivity.Evaluate | src/yassa_bio/evaluation/acceptance/engine/validation/selectivity.py:17-57 | refused exactly when a required pattern is absent; then "no LLOQ signal" exactly when no calibration row has a concentration; otherwise one entry per source and the verdict above |
| ValidationSelectivity.ExactRelativeErrors | src/yassa_bio/evaluation/acceptance/engine/validation/selectivity.py:83-85 | wells that reproduce their non-zero nominal value have zero relative error |
| ValidationSelectivity.ExactGroupAccuracy | src/yassa_bio/evaluation/acceptance/engine/validation/selectivity.py:86 | a non-empty group of exactly back-calculated wells has zero mean accuracy |
| ValidationSelectivity.BlanksBelow | src/yassa_bio/evaluation/acceptance/engine/validation/selectivity.py:72-74 | blanks that all read below the LLOQ signal have a mean below it |
| ValidationSelectivity.ExactLevelAccuracy | src/yassa_bio/evaluation/acceptance/engine/validation/selectivity.py:77-88 | a source's exactly back-calculated QCs at a level have zero mean accuracy |
| ValidationSelectivity.CleanSourcePasses | src/yassa_bio/evaluation/acceptance/engine/validation/selectivity.py:60-111 | a source with low blanks and exactly back-calculated LLOQ and HIGH QCs passes non-negative tolerances |
| ValidationCarryover.CarryBlanks | src/yassa_bio/evaluation/acceptance/engine/validation/carryover.py:30-32 | the carryover blanks are exactly the blank wells flagged for carryover |
| ValidationCarryover.PerBlank | src/yassa_bio/evaluation/acceptance/engine/validation/carryover.py:44-53 | one record per carryover blank with its well and signal, passing exactly when the signal is strictly below the LLOQ signal |
| ValidationCarryover.Assess | src/yassa_bio/evaluation/acceptance/engine/validation/carryover.py:34-55 | too few blanks exactly when there are fewer than `min_blanks_after_uloq`; otherwise the run passes exactly when every carryover blank reads below the LLOQ signal |
| ValidationCarryover.Evaluate | src/yassa_bio/evaluation/acceptance/engine/validation/carryover.py:14-55 | refused exactly when a required pattern is absent; then an invalid LLOQ signal exactly when it is NaN or 0; otherwise the blank count and the all-blanks-below verdict above |
| ValidationCarryover.PlainBlanksMissCarryoverPattern | src/yassa_bio/schema/acceptance/validation/carryover.py:19-28 | a spec requiring a carryover-flagged blank refuses a plate whose blanks carry no carryover flag |
| ValidationCarryover.BlanksBelowLowestStandardPass | src/yassa_bio/evaluation/acceptance/engine/validation/carryover.py:25-47 | enough carryover blanks that all read below every signal at the lowest calibration level pass, since the LLOQ signal is a mean of those signals |
| ValidationCalibration.LevelCv | src/yassa_bio/evaluation/acceptance/engine/calibration.py:26-30 | a level's CV is always defined: 0 for a single replicate, otherwise the CV of its back-calculated values |
| ValidationCalibration.EvaluateLevel | src/yassa_bio/evaluation/acceptance/engine/calibration.py:21-61 | a level is an edge exactly when its concentration is the lowest or highest; it passes exactly when its bias and its CV are each within the tolerance for its kind |
| ValidationCalibration.KeyedEntriesCover | src/yassa_bio/evaluation/acceptance/engine/calibration.py:18-41 | entries built one per group key name exactly the concentrations present |
| ValidationCalibration.Levels | src/yassa_bio/evaluation/acceptance/engine/calibration.py:18-61 | one entry per distinct concentration, each describing its level as above |
| ValidationCalibration.Summarize | src/yassa_bio/evaluation/acceptance/engine/calibration.py:63-77 | the pass count counts passing levels; the run passes exactly when there are `min_levels` levels and the pass fraction is met |
| ValidationCalibration.Evaluate | src/yassa_bio/evaluation/acceptance/engine/calibration.py:8-77 | an empty table is refused; a table with no concentration raises (modelled as its own outcome); otherwise every level is described and the verdict is as above |
| ValidationCalibration.ExactFitPasses | src/yassa_bio/evaluation/acceptance/engine/calibration.py:21-67 | a back-calculation reproducing every standard, with one nominal value per concentration, makes every level pass, so the run passes exactly when it has `min_levels` levels |
| ValidationCalibration.CoveredLevelHasRow | src/yassa_bio/evaluation/acceptance/engine/calibration.py:21 | every level reported is a concentration some row has |
| ValidationCalibration.ExactFitLevelPasses | src/yassa_bio/evaluation/acceptance/engine/calibration.py:22-61 | such a level has zero bias and zero CV and so passes non-negative tolerances |
| FactorDilution.PointRows | src/yassa_bio/evaluation/acceptance/engine/dilution.py:20-24 | a point's rows are exactly those with its dilution factor and series |
| FactorDilution.FactorPoints | src/yassa_bio/evaluation/acceptance/engine/dilution.py:20 | the points of one factor are exactly the series present at it |
| FactorDilution.PointsOf | src/yassa_bio/evaluation/acceptance/engine/dilution.py:20 | the points of the given factors are exactly the (factor, series) pairs present among them |
| FactorDilution.Points | src/yassa_bio/evaluation/acceptance/engine/dilution.py:20 | the grouped points are exactly the (factor, series) pairs some row has |
| FactorDilution.PointBias | src/yassa_bio/evaluation/acceptance/engine/dilution.py:41-43 | the bias is undefined for a factor of 0, and 0 when the expected concentration (mean x / factor) is 0; otherwise it is `|mean back-calculation − expected|` as a percentage of the expected concentration |
| FactorDilution.AssessPoint | src/yassa_bio/evaluation/acceptance/engine/dilution.py:24-62 | a point is refused exactly when it has fewer than `min_replicates_per_point` rows; otherwise it passes exactly when its bias and its CV are within their tolerances |
| FactorDilution.PerPoint | src/yassa_bio/evaluation/acceptance/engine/dilution.py:24-62 | one entry per point, in point order |
| FactorDilution.SeriesCounts | src/yassa_bio/evaluation/acceptance/engine/dilution.py:67 | the series count is keyed by exactly the factors present, each the number of distinct series at it |
| FactorDilution.HookOf | src/yassa_bio/evaluation/acceptance/engine/dilution.py:78-90 | a hook check's recovery is the undiluted mean as a percentage of the point's mean, and it is ok exactly when that reaches `undiluted_recovery_min_pct` |
| FactorDilution.HookSeq | src/yassa_bio/evaluation/acceptance/engine/dilution.py:77-90 | one hook check per candidate, in order |
| FactorDilution.HookCandidates | src/yassa_bio/evaluation/acceptance/engine/dilution.py:72-79 | the points checked are exactly the diluted points with a positive mean back-calculated value |
| FactorDilution.HookReference | src/yassa_bio/evaluation/acceptance/engine/dilution.py:73-76 | the reference exists exactly when some well is undiluted, and is their mean back-calculated value |
| FactorDilution.HookChecks | src/yassa_bio/evaluation/acceptance/engine/dilution.py:70-90 | no hook checks without undiluted wells; otherwise one per candidate point |
| FactorDilution.HookChecksAreCandidates | src/yassa_bio/evaluation/acceptance/engine/dilution.py:77-79 | every hook check belongs to a diluted point with a positive mean |
| FactorDilution.HookChecksCoverCandidates | src/yassa_bio/evaluation/acceptance/engine/dilution.py:75-90 | with undiluted wells, every candidate point is checked |
| FactorDilution.Summarize | src/yassa_bio/evaluation/acceptance/engine/dilution.py:93-118 | the run passes exactly when there are `min_dilution_factors` factors, `min_series` series at every factor, the point pass fraction is met and no hook check fails |
| FactorDilution.Evaluate | src/yassa_bio/evaluation/acceptance/engine/dilution.py:7-118 | missing columns fail first, naming exactly the absent ones; otherwise the points, hook checks and verdict above |
| FactorDilution.UniformMean | src/yassa_bio/evaluation/acceptance/engine/dilution.py:76-78 | rows that all read one back-calculated value have that mean |
| FactorDilution.UniformBackCalcHasNoHook | src/yassa_bio/evaluation/acceptance/engine/dilution.py:70-101 | when every well reads one positive back-calculated value, no point shows a hook effect for a minimum recovery up to 100% |
| ValidationDilution.LevelRows | src/yassa_bio/evaluation/acceptance/engine/validation/dilution.py:29-46 | a level's rows are exactly the in-range QC wells with that level index |
| ValidationDilution.Levels | src/yassa_bio/evaluation/acceptance/engine/validation/dilution.py:29-46 | the levels are exactly the level indices of in-range QC wells, each with at least one well |
| ValidationDilution.LevelAccuracy | src/yassa_bio/evaluation/acceptance/engine/validation/dilution.py:61-63 | the accuracy deviation is 0 for a zero nominal mean, and otherwise the absolute deviation of the mean back-calculated value as a percentage of the nominal mean |
| ValidationDilution.AssessLevel | src/yassa_bio/evaluation/acceptance/engine/validation/dilution.py:46-80 | a level is refused exactly when it has fewer than `min_replicates` wells; otherwise it passes exactly when its accuracy and CV are within their tolerances |
| ValidationDilution.PerPoint | src/yassa_bio/evaluation/acceptance/engine/validation/dilution.py:43-80 | one entry per level, in level order |
| ValidationDilution.HookOf | src/yassa_bio/evaluation/acceptance/engine/validation/dilution.py:92-111 | a hook check is ok exactly when the back-calculated value exceeds the ULOQ concentration and its recovery reaches the minimum |
| ValidationDilution.RecoveryOkIff | src/yassa_bio/evaluation/acceptance/engine/validation/dilution.py:93-97 | for a positive nominal value, the recovery is sufficient exactly when the back-calculated value reaches the minimum percentage of the nominal value |
| ValidationDilution.HookChecks | src/yassa_bio/evaluation/acceptance/engine/validation/dilution.py:85-114 | one hook check per above-ULOQ QC well, in table order |
| ValidationDilution.Summarize | src/yassa_bio/evaluation/acceptance/engine/validation/dilution.py:116-135 | the run passes exactly when there are `min_dilutions` distinct level indices, every point passes and no hook check fails |
| ValidationDilution.Evaluate | src/yassa_bio/evaluation/acceptance/engine/validation/dilution.py:16-135 | missing patterns fail first, naming exactly the absent ones; otherwise the points, hook checks and verdict above |
| ValidationDilution.ExactLevelPasses | src/yassa_bio/evaluation/acceptance/engine/validation/dilution.py:46-68 | a level of at least two wells that all back-calculate exactly to one positive nominal value passes under non-negative tolerances |
| ValidationDilution.FullRecoveryAboveUloqHasNoHook | src/yassa_bio/evaluation/acceptance/engine/validation/dilution.py:92-98 | an above-ULOQ well reading above the ULOQ and recovering its whole nominal value shows no hook effect for a minimum recovery of at most 100% |
| Registry.CanonicalKey | src/yassa_bio/core/registry.py:8 | plug-ins are keyed by the lower-cased kind and name |
| Registry.Empty | src/yassa_bio/core/registry.py:1 | the table starts with no bindings and no duplicate keys |
| Registry.Lookup | src/yassa_bio/core/registry.py:19 | a lookup finds nothing exactly when the key is unbound, and otherwise the object bound under it |
| Registry.Register | src/yassa_bio/core/registry.py:4-14 | registration fails exactly when the lower-cased pair is already bound; otherwise it appends that binding and hands the object back |
| Registry.NamesOfKind | src/yassa_bio/core/registry.py:21 | the names listed are exactly those bound under the kind |
| Registry.Get | src/yassa_bio/core/registry.py:17-25 | `get` succeeds exactly when the lower-cased pair is bound, returning its object; otherwise the error names the request and lists exactly the names bound under its kind |
| Registry.RegisterValid | src/yassa_bio/core/registry.py:8-11 | a successful registration keeps every key bound at most once |
| Registry.RegisterThenGet | src/yassa_bio/core/registry.py:4-25 | after a registration, `get` finds the object under the pair as written, upper-cased or lower-cased |
| Registry.RegisterFrame | src/yassa_bio/core/registry.py:11 | a registration changes no other binding |
| Registry.RegisterTwiceFails | src/yassa_bio/core/registry.py:8-10 | registering a bound pair again, in another letter case, fails |
| Dispatcher.OutcomeErrIffUnregistered | src/yassa_bio/evaluation/acceptance/step/dispatcher.py:21-25 | a field fails exactly when no evaluator is registered for its spec type in any letter case; otherwise its result is that evaluator applied to the context and spec |
| Dispatcher.Outcomes | src/yassa_bio/evaluation/acceptance/step/dispatcher.py:20-25 | one outcome per criteria field, in declaration order |
| Dispatcher.FirstError | src/yassa_bio/evaluation/acceptance/step/dispatcher.py:20-25 | the loop stops at the first failed lookup, and only when one fails |
| Dispatcher.Store | src/yassa_bio/evaluation/acceptance/step/dispatcher.py:26 | every field name is bound, to the result of the last field of that name |
| Dispatcher.Collect | src/yassa_bio/evaluation/acceptance/step/dispatcher.py:17-28 | the loop fails exactly when a lookup fails; otherwise it binds exactly the field names and its verdict is the conjunction of the pass flags |
| Dispatcher.EvaluateSpecs | src/yassa_bio/evaluation/acceptance/step/dispatcher.py:15-35 | the run fails exactly when some field has no evaluator; otherwise the results are keyed by exactly the field names, appended to the history, and pass exactly when every field's result passes |
| Dispatcher.FirstLookupErrorEscapes | src/yassa_bio/evaluation/acceptance/step/dispatcher.py:20-25 | the error that escapes is that of the first field without an evaluator, every earlier field having one |
| Dispatcher.NoFieldsPass | src/yassa_bio/evaluation/acceptance/step/dispatcher.py:17-33 | with no fields the run passes with no results and one empty history entry |
| Dispatcher.FieldKeepsItsResult | src/yassa_bio/evaluation/acceptance/step/dispatcher.py:26 | a field whose name no later field repeats keeps its own result |
| Dispatcher.EachFieldKeepsItsResult | src/yassa_bio/evaluation/acceptance/step/dispatcher.py:26-32 | with distinct names every field's result is stored under its name, and the history grows by exactly one entry, keeping the earlier ones |
| Rerun.ReportView | src/yassa_bio/evaluation/acceptance/step/analytical.py:24-28 | a calibration report is read as passing exactly when it passes; a missing-pattern report offers no refit and no failing levels |
| Rerun.CalibrationOf | src/yassa_bio/evaluation/acceptance/step/analytical.py:24 | a run without a calibration result reads as failed with no refit |
| Rerun.CheckRerun | src/yassa_bio/evaluation/acceptance/step/analytical.py:23-50 | the context is left alone exactly when calibration passed, no refit is allowed or no level failed; otherwise the standards at failing levels are moved to the dropped wells, the calibration frame is cleared and the pass aborts |
| Rerun.RefitSplitsTable | src/yassa_bio/evaluation/acceptance/step/analytical.py:40-45 | on a refit the dropped and kept rows are together exactly the original rows, only calibration standards are dropped, and no kept standard is at a failing level |
| Rerun.RefitLeavesNothingToDrop | src/yassa_bio/evaluation/acceptance/step/analytical.py:40-45 | after a refit the same failing levels match no row |
| Rerun.Analytical | src/yassa_bio/evaluation/acceptance/step/analytical.py:53-63 | the stage fails exactly when the dispatcher does; otherwise it is the rerun check on the new results |
| Rerun.PassingCalibrationContinues | src/yassa_bio/evaluation/acceptance/step/analytical.py:24-26 | when the calibration field's result passes, the table, calibration frame and dropped wells stay as they were and the pass goes on |
| Artifacts.ValidateDataType | src/yassa_bio/schema/acceptance/report/artifact.py:72-77 | a table artifact without a data frame is refused; any other payload is passed through unchanged |
| Artifacts.FlattenLength | src/yassa_bio/schema/acceptance/report/artifact.py:100-107 | flattening yields one entry per artifact leaf of the tree |
| Artifacts.FlattenMembers | src/yassa_bio/schema/acceptance/report/artifact.py:100-107 | an artifact is in the flattened list exactly when it occurs somewhere in the tree |
| Artifacts.FlattenAppend | src/yassa_bio/schema/acceptance/report/artifact.py:102-106 | splitting a group's contents splits its flattened list at the same place, so content order is output order |
| Artifacts.FlattenIgnoresShow | src/yassa_bio/schema/acceptance/report/artifact.py:100-107 | the `show` flags do not affect which artifacts are listed or where |
| Pipeline.Run | src/yassa_bio/pipeline/engine.py:18-24 | the run's result is the last context of the trace, each step applied to the context the previous one returned |
| Pipeline.TraceSteps | src/yassa_bio/pipeline/engine.py:20-22 | step `i` receives exactly the context step `i - 1` returned |
| Pipeline.RunAppend | src/yassa_bio/pipeline/engine.py:20-22 | running two step lists in turn is running their concatenation |
| Pipeline.Lift | src/yassa_bio/pipeline/engine.py:22 | a non-raising step applies to a context and passes an error through |
| Pipeline.Bind | src/yassa_bio/pipeline/engine.py:22 | a raising step applies to a context and passes an earlier error through |
| Pipeline.ErrorStops | src/yassa_bio/pipeline/engine.py:20-22 | once a step raises, the remaining steps are skipped and the error is the result |
| Reader.NameStart | src/yassa_bio/io/reader.py:9 | the final path component starts just after the last slash |
| Reader.Name | src/yassa_bio/io/reader.py:9 | `Path.name` of the normalised path: never contains a slash and is never `.`; a plain name is its own name |
| Reader.NameOfComponent | src/yassa_bio/io/reader.py:9 | a final component that is neither empty nor `.` is the name |
| Reader.TrailingSlashIgnored | src/yassa_bio/io/reader.py:9 | as pathlib normalises, a trailing `/` does not change the name |
| Reader.TrailingDotIgnored | src/yassa_bio/io/reader.py:9 | as pathlib normalises, a trailing `/.` does not change the name |
| Reader.InferFormatIgnoresTrailing | src/yassa_bio/io/reader.py:8-14 | `run/plate.csv/` and `run/plate.csv/.` select the same reader as `run/plate.csv` |
| Reader.LastDot | src/yassa_bio/io/reader.py:9 | the position found holds the last dot, and there is none exactly when no dot occurs |
| Reader.Suffix | src/yassa_bio/io/reader.py:9 | a suffix is empty or starts with a dot |
| Reader.FormatOfSuffix | src/yassa_bio/io/reader.py:10-14 | `.csv` and `.txt` select CSV, `.xls` and `.xlsx` select Excel, and nothing else selects either |
| Reader.InferFormat | src/yassa_bio/io/reader.py:8-14 | a refused path reports its lower-cased suffix |
| Reader.SuffixOfName | src/yassa_bio/io/reader.py:9 | a name ending in a dot and an extension has that extension as its suffix, whatever the directory and stem |
| Reader.InferFromExtension | src/yassa_bio/io/reader.py:9-14 | the format chosen depends only on the lower-cased extension |
| Reader.CsvAnyCase | src/yassa_bio/io/reader.py:9-11 | `.csv` and `.txt` in any letter case select the CSV reader |
| Reader.ExcelAnyCase | src/yassa_bio/io/reader.py:9-13 | `.xls` and `.xlsx` in any letter case select the Excel reader |
| Reader.UnknownSuffixRefused | src/yassa_bio/io/reader.py:14 | any other suffix is refused |
| Standard.Levels | src/yassa_bio/utils/standard.py:21 | the level numbers are exactly 1 to `num_levels` |
| Standard.SeriesMap | src/yassa_bio/utils/standard.py:5-22 | the map fails exactly for a zero dilution factor; otherwise it has exactly levels 1 to `num_levels`, level 1 is the start concentration, and each level times the factor is the level before it |
| Standard.LevelMap | src/yassa_bio/utils/standard.py:19-22 | the map has exactly the levels 1 to `num_levels` |
| Standard.LevelsChain | src/yassa_bio/utils/standard.py:20 | level 1 is the start concentration and each later level times the factor is the one before it |
| Standard.Decreasing | src/yassa_bio/utils/standard.py:19-22 | with a positive start and a factor above one, each level is strictly below the previous one |
| Well.LeadingLetters | src/yassa_bio/schema/layout/well.py:146 | the count is the length of the run of capital letters the text starts with |
| Well.WellIdOkIsPattern | src/yassa_bio/schema/layout/well.py:146-147 | the left-to-right check accepts exactly the texts matching `^[A-Z]{1,3}[1-9][0-9]*$` |
| Well.NormalizeWellId | src/yassa_bio/schema/layout/well.py:142-152 | a well ID is accepted exactly when its stripped, upper-cased form is in plate notation, and that form is what is stored |
| Well.Check | src/yassa_bio/schema/layout/well.py:24-100 | a constraint contributes its error exactly when it fails |
| Well.FieldErrors | src/yassa_bio/schema/layout/well.py:19-152 | each field constraint's error is reported exactly when that constraint fails, and none is reported exactly when all hold |
| Well.FirstCrossFieldError | src/yassa_bio/schema/layout/well.py:128-202 | no validator objects exactly when every cross-field rule holds; the one that objects is the first in declaration order whose rule fails |
| Well.Validate | src/yassa_bio/schema/layout/well.py:19-202 | a template is accepted exactly when every field constraint and cross-field rule holds, and is stored with the normalised well ID; a template with a failing field constraint is rejected with all field errors together, and otherwise one failing a cross-field rule is rejected with the first such error alone |
| Well.ValidatedInvariants | src/yassa_bio/schema/layout/well.py:19-202 | an accepted template satisfies every field constraint and cross-field rule, with its well ID in plate notation |
| Well.ValidateIdempotent | src/yassa_bio/schema/layout/well.py:142-152 | validating an accepted template again gives the same template |
| Well.NormalizeFixpoint | src/yassa_bio/schema/layout/well.py:145-152 | a canonical well ID normalises to itself |
| Well.StripOfWellId | src/yassa_bio/schema/layout/well.py:145 | a well ID in plate notation has no surrounding whitespace |
| WellPattern.Matches | src/yassa_bio/schema/acceptance/validation/pattern.py:17-38 | a well matches exactly when its sample type is the pattern's, its QC level and recovery stage are the pattern's where the pattern names one, and its interferent, carryover and stability presence equal the pattern's flags |
| WellPattern.SampleIdIgnored | src/yassa_bio/schema/acceptance/validation/pattern.py:14-38 | the `needs_sample_id` flag never changes a verdict |
| WellPattern.MatchesRow | src/yassa_bio/schema/acceptance/validation/pattern.py:17-38 | `matches` read on a table row: the same six conditions on the row's sample type, QC level, interferent, carryover flag, stability condition and recovery stage |
| WellPattern.RowMatchesLikeTemplate | src/yassa_bio/schema/acceptance/validation/pattern.py:17-38 | a row and the template it was built from are matched alike |
| WellPattern.Present | src/yassa_bio/evaluation/acceptance/engine/utils.py:9 | a validation pattern is present in a table exactly when some row matches it, so never in an empty table |
| WellPattern.CarryoverExact | src/yassa_bio/schema/acceptance/validation/pattern.py:27-28 | a row whose carryover flag differs from the pattern's is rejected |
| WellPattern.InterferentExact | src/yassa_bio/schema/acceptance/validation/pattern.py:24-25 | a well whose interferent presence differs from the pattern's flag is rejected |
| AnalyticalRange.Validate | src/yassa_bio/schema/results/analytical_range.py:11-37 | a range is accepted exactly when every bound is positive, lower is below upper, and a given LOQ lies above the LOD and at most the lower bound; a lower bound not below the upper one is the error reported for positive bounds |
| AnalyticalRange.LodFreeWithoutLoq | src/yassa_bio/schema/results/analytical_range.py:35-36 | without an LOQ the ordering check is skipped, so replacing one positive LOD by another, even one above the lower bound, does not change acceptance |
| AnalyticalRange.AcceptedIsOrdered | src/yassa_bio/schema/results/analytical_range.py:32-37 | an accepted range with an LOQ is ordered LOD < LOQ <= lower < upper |
| Blank.Masked | src/yassa_bio/evaluation/analysis/engines/blank.py:9 | the selection has one entry per true mask entry, holds only masked values and every masked value |
| Blank.MaskedAppend | src/yassa_bio/evaluation/analysis/engines/blank.py:9 | selecting from two pieces of a column is selecting from each in turn, so repeats and table order are kept |
| Blank.MaskedSingle | src/yassa_bio/evaluation/analysis/engines/blank.py:9 | one value is selected exactly when its mask entry is true |
| Blank.MaskedEmpty | src/yassa_bio/evaluation/analysis/engines/blank.py:10 | the selection is empty exactly when no mask entry is set |
| Blank.MaskedIgnoresUnmasked | src/yassa_bio/evaluation/analysis/engines/blank.py:9 | values outside the mask do not affect the selection |
| Blank.BlankValue | src/yassa_bio/evaluation/analysis/engines/blank.py:7-27 | the none rule gives no blank; every other rule gives one exactly when some well is selected, the mean rule giving the value whose product with the count is the sum, the median rule giving `np.median` of the selection, and the minimum rule giving the smallest selected value |
| Blank.BlankWithinRange | src/yassa_bio/evaluation/analysis/engines/blank.py:7-22 | the mean, median and minimum of a non-empty selection lie between its smallest and largest values |
| Blank.BlankIgnoresUnmasked | src/yassa_bio/evaluation/analysis/engines/blank.py:7-27 | every rule reads only the selected values |
| Normalize.CalConcentrations | src/yassa_bio/evaluation/analysis/engines/normalize.py:9-12 | the concentrations collected are exactly those of the calibration standards that have one |
| Normalize.Rescale | src/yassa_bio/evaluation/analysis/engines/normalize.py:17-28 | each rescaled value times the scale, plus the low end, is the original signal |
| Normalize.SpanScale | src/yassa_bio/evaluation/analysis/engines/normalize.py:9-17 | a span exists exactly when some standard has a concentration and they are not all equal; it is the maximum minus the minimum, with the minimum as low end |
| Normalize.MaxScale | src/yassa_bio/evaluation/analysis/engines/normalize.py:20-27 | a scale exists exactly when some standard has a concentration and the largest is not zero; it is that largest concentration |
| Normalize.Normalize | src/yassa_bio/evaluation/analysis/engines/normalize.py:7-33 | without a scale the signal is returned unchanged; the span rule subtracts the low end and divides by the span, the max rule divides by the largest concentration, and the none rule never scales |
| Normalize.UndoesInjective | src/yassa_bio/evaluation/analysis/engines/normalize.py:17-28 | a rescaled column determines the column it came from |
| Normalize.NormalizeInjective | src/yassa_bio/evaluation/analysis/engines/normalize.py:7-33 | under one rule and table, two signal columns with the same normalised values are equal |
| Weighting.Reciprocal | src/yassa_bio/evaluation/analysis/engine/weighting.py:14-24 | a reciprocal exists exactly for a nonzero value, and times that value is 1 |
| Weighting.Weight | src/yassa_bio/evaluation/analysis/engine/weighting.py:7-29 | the unit scheme weighs 1; each reciprocal scheme's weight times its coordinate, or that coordinate squared, is 1, and is undefined exactly when the coordinate is 0 |
| Weighting.Weights | src/yassa_bio/evaluation/analysis/engine/weighting.py:7-29 | one weight per point, each that point's weight |
| Weighting.WeightsReadOneAxis | src/yassa_bio/evaluation/analysis/engine/weighting.py:12-29 | the 1/x schemes read only the concentrations and the 1/y schemes only the responses |
| Weighting.SquaredIsSquare | src/yassa_bio/evaluation/analysis/engine/weighting.py:12-29 | for a nonzero coordinate, the squared scheme's weight is the square of the plain scheme's |
| CurveModel.InvLinear | src/yassa_bio/evaluation/analysis/engine/model.py:33-34 | the inverse exists exactly for a nonzero slope and maps a response back to a concentration the line sends to it |
| CurveModel.BackLinear | src/yassa_bio/evaluation/analysis/engine/model.py:87-89 | the back-calculation with coefficients (slope, intercept) is that inverse |
| CurveModel.InverseOfForward | src/yassa_bio/evaluation/analysis/engine/model.py:16-34 | inverting a forward value gives back the concentration |
| CurveModel.Clamp | src/yassa_bio/evaluation/analysis/engine/model.py:21-27 | a response is clipped into the band kept 1e-10 inside the asymptotes, left alone when inside it, and clipped to the upper bound when the band is empty |
| CurveModel.ClampIdempotent | src/yassa_bio/evaluation/analysis/engine/model.py:21 | clipping twice is clipping once |
| CurveModel.ClampAvoidsAsymptotes | src/yassa_bio/evaluation/analysis/engine/model.py:21-22 | with asymptotes more than twice the margin apart, the clipped response equals neither, so the 4PL and 5PL ratios are defined |
| AnalysisSteps.BlankMask | src/yassa_bio/evaluation/analysis/preprocess.py:37 | the mask is set exactly on the blank rows |
| AnalysisSteps.LoadData | src/yassa_bio/evaluation/analysis/preprocess.py:8-14 | the placeholder step returns the context unchanged |
| AnalysisSteps.CheckData | src/yassa_bio/evaluation/analysis/preprocess.py:17-25 | the placeholder step returns the context unchanged |
| AnalysisSteps.SubtractBlank | src/yassa_bio/evaluation/analysis/preprocess.py:28-48 | the blank value comes from the blank rows' signals under the configured rule and is recorded; each row's blank-subtracted signal plus that value (or 0 without one) is its signal; no row is added, removed or reordered and nothing else changes |
| AnalysisSteps.NormalizeSignal | src/yassa_bio/evaluation/analysis/preprocess.py:51-64 | the clean signal is the configured rule applied to the blank-subtracted signal, its scale is recorded, and rows keep their measurements and order |
| AnalysisSteps.MaskOutliers | src/yassa_bio/evaluation/analysis/preprocess.py:67-77 | each row's outlier flag is the rule's flag for it; a mask of another length fails; no row is removed and nothing else changes |
| AnalysisSteps.PreprocessSteps | src/yassa_bio/evaluation/analysis/preprocess.py:80-91 | the composite has five children |
| AnalysisSteps.Preprocess | src/yassa_bio/evaluation/analysis/preprocess.py:80-91 | running the children in order is blank subtraction, then normalisation, then outlier masking |
| AnalysisSteps.PreprocessKeepsRows | src/yassa_bio/evaluation/analysis/preprocess.py:28-91 | preprocessing keeps the table's rows and order, records the blank value of the blank rows, and fails only on a mis-sized outlier mask |
| AnalysisSteps.BlankUsesBlankRowsOnly | src/yassa_bio/evaluation/analysis/preprocess.py:37-40 | two tables that agree on which rows are blanks and on those rows' signals get the same blank value |
| AnalysisSteps.ApplyTransforms | src/yassa_bio/evaluation/analysis/step/fit.py:12-29 | every row, standard or not, gets `x` and `y` from its own concentration and signal; rows and everything else are unchanged |
| AnalysisSteps.ComputeWeights | src/yassa_bio/evaluation/analysis/step/fit.py:32-50 | every row gets the weight of its own `x` and `y` under the configured scheme; rows and everything else are unchanged |
| AnalysisSteps.SelectCalibrationData | src/yassa_bio/evaluation/analysis/step/fit.py:53-63 | the step fails exactly when no row is a calibration standard; otherwise the calibration frame is exactly those rows, in order, and nothing else changes |
| AnalysisSteps.FitCalibrationData | src/yassa_bio/evaluation/analysis/step/fit.py:66-89 | the fit sees the frame's `x`, `y` and `w`; the back-calculation inverts with exactly the parameters the fit returned |
| AnalysisSteps.CurveFitSteps | src/yassa_bio/evaluation/analysis/step/fit.py:92-102 | the composite has four children |
| AnalysisSteps.CurveFit | src/yassa_bio/evaluation/analysis/step/fit.py:92-102 | running the children in order is transforms, weights, selection, then the fit |
| AnalysisSteps.TransformsKeepRows | src/yassa_bio/evaluation/analysis/step/fit.py:24-49 | transforms and weights keep the table's rows and order |
| AnalysisSteps.SameRowsSameStandards | src/yassa_bio/evaluation/analysis/step/fit.py:59 | tables with the same rows have calibration standards alike |
| AnalysisSteps.CurveFitFailsIffNoStandards | src/yassa_bio/evaluation/analysis/step/fit.py:53-102 | the curve fit fails exactly when the plate has no calibration standard; otherwise it keeps the rows, selects the transformed and weighted standards and fits to them |
| Stats.RelativePct | src/yassa_bio/evaluation/acceptance/engine/validation/dilution.py:93 | a relative percentage exists exactly when the denominator is present and nonzero |
| Stats.MeanScales | src/yassa_bio/evaluation/acceptance/engine/precision.py:46 | the mean of a non-empty column is its average: mean × count = sum |
| Stats.AbsQuotientPct | src/yassa_bio/evaluation/acceptance/engine/precision.py:26 | `|a / x| · 100` is `|a|` as a percentage of `|x|` |
| Stats.RelativePctScales | src/yassa_bio/evaluation/acceptance/engine/validation/dilution.py:93 | the percentage times the denominator is 100 times the numerator |
| Stats.MedianIsMiddle | src/yassa_bio/evaluation/analysis/engines/blank.py:16 | the median is the middle element, or the mean of the two middle elements, of any sorted arrangement of the values |
| Sorting.SortedPermutationUnique | src/yassa_bio/evaluation/analysis/engines/blank.py:16 | two sorted sequences with the same elements are equal, so the median does not depend on how the values were sorted |
| Text.Strip | src/yassa_bio/schema/layout/well.py:145 | the result is a contiguous slice of the input with only whitespace cut from either end, and it neither starts nor ends with whitespace |
| Stats.MedianBetween | src/yassa_bio/evaluation/analysis/engines/blank.py:16 | the median of a non-empty selection lies between its smallest and largest value |

## Left out

**Input, output and plug-ins outside the model**

- File reading is I/O and is not modelled. This covers `read_csv`, `read_excel` and `LoadData`'s loading. The model covers only the choice of reader (`Reader.InferFormat`).
- Some plug-ins are configuration parameters, because they are floating-point or foreign code:
  - the outlier rules (`engines/outlier.py`, `engine/outlier.py`);
  - the transforms (`engine/transform.py`);
  - the least-squares fits (`fit_4pl`, `fit_5pl` and `fit_linear`, which call scipy and numpy);
  - the 4PL/5PL forward functions and their inverses beyond the clip.
- The outlier rule is modelled only as a boolean mask. `AnalysisSteps.MaskOutliers` fails when the mask has a different length from the table.
- The sample standard deviation is a parameter, `sd`. Its numeric formula is not modelled.
- Plug-in lookups inside the analysis steps are assumed to succeed: the configuration carries the blank rule, normalisation rule, weighting scheme, outlier rule, transforms and fit already resolved. Registry lookup failures are modelled only for the acceptance dispatcher (`Dispatcher.Outcome`).
- Logging is left out of `Pipeline.Run` and `Rerun.CheckRerun`, along with the pipeline's name and its copy of the step list.
- Artifact fields other than kind, name, id, data and show are left out: descriptions, formatting, merge options and tags. None of them is read by the logic.
- `Text.Lower`, `Text.Upper` and `Text.Strip` map ASCII letters and ASCII whitespace only. Python's Unicode case mapping and whitespace set are not modelled.
- Error message wording is left out. Only the missing-pattern count and the template string are kept.
- The older `evaluation/analysis/fit.py` variant of the curve-fit steps is not part of this model. `AnalysisSteps` follows `evaluation/analysis/step/fit.py`.

**Functions the source imports but does not define**

- The evaluators import four helpers that `engine/utils.py` does not define:
  - `get_calibration_signal_for_level` is modelled as `AcceptanceUtils.LloqSignal`, the mean signal at the lowest calibration concentration.
  - `get_calibration_concentration_for_level` is modelled as `AcceptanceUtils.UloqConcentration`, the highest calibration concentration.
  - `compute_relative_pct_scalar` and `compute_relative_pct_vectorized` are modelled as `Stats.RelativePct`, which is undefined (`None`) for a zero or missing denominator.
- The validation dilution evaluator imports `ValidationDilutionLinearitySpec`, but its schema module declares only `DilutionLinearitySpec`. That evaluator also reads `min_dilutions`, `min_replicates`, `acc_tol_pct`, `undiluted_recovery_min_pct` and `required_well_patterns`, and that class declares none of them. `ValidationDilution.Spec` carries the fields the evaluator reads.

- `RecoveryStage` is imported by the well template, the validation pattern and the recovery evaluator, but the layout enum module does not define it. The model uses `Layout.Timepoint` (BEFORE/AFTER) in its place.
- The validation carryover evaluator imports `ValidationCarryoverSpec`, but its schema module declares `CarryoverSpec`. `ValidationCarryover.Spec` carries the fields that evaluator reads.
- The recovery evaluator imports `RecoverySpec`, but its schema module declares `ValidationRecoverySpec`. `ValidationRecovery.Spec` carries the fields that evaluator reads.

**Spec records**

- Each evaluator's `Spec` datatype holds exactly the fields that evaluator reads, and the model assumes they are present.
- The pydantic defaults, range checks and field validators of the spec classes are not modelled, so a field the evaluator reads but its class does not declare is never an error here.

**Deliberately weaker or different contracts**

- AnalyticalQc.Evaluate: the source raises `AttributeError` for a non-empty pattern list, because its validation pattern class has no `present`. The model decides presence with `WellPattern.Present`, the class's `matches` applied to each row.
- Parallelism.Evaluate: the same substitution; the source raises at its pattern check for a non-empty list.
- ValidationCarryover.Evaluate: the same substitution; the source raises for its default `RequiredWellPattern(BLANK, carryover=True)`.
- ValidationStability.Evaluate: the same substitution; the source raises at its pattern check for a non-empty list.
- ValidationSpecificity.Evaluate: the same substitution; the source raises at its pattern check for a non-empty list.

- Groups.FirstKeys: string-keyed groups come in order of first appearance, but pandas `groupby` sorts them. This affects sample id, series id, matrix source and stability condition. Only the order of entries in a report depends on it, not any verdict.
- Parallelism.FactorCounts: the replicate counts are taken in order of first appearance of each factor, but pandas `value_counts` orders them by count. Only which short factor `Parallelism.FirstShort` reports depends on this, not whether the sample is refused.
- AnalyticalCalibration.LevelAccuracy: a level whose mean nominal concentration is 0 has no accuracy (`None`), so the level fails. The source's helper for this case is not defined (see above).
- ValidationDilution.HookOf: when no calibration concentration exists, `uloq_conc` is `None`, and the source raises `TypeError` comparing with it. The model counts the well as not above the ULOQ, so its hook check fails.
- ValidationCalibration.Evaluate: a calibration table whose rows all lack a concentration makes the source raise. The model reports `NoLevels` instead.
- Normalize.Normalize: when calibration rows exist but all their concentrations are missing, pandas gives a NaN minimum and maximum, and the source returns an all-NaN column with a NaN scale. The model treats this case like no calibration rows and returns the signal unchanged.
- Infinite percentages (a nonzero value over a zero denominator) are reported as `None`. This matches NaN for every comparison the source makes, but the report value differs.
- The numeric columns `x`, `y` and the back-calculated value are numbers on every row. A transform of a missing concentration yields whatever the transform parameter gives, where numpy would carry NaN.
- ValidationSpecificity.InterferentBias: the interferent names are reported as a set. The source gives a sorted list of the same names.
- The evaluation context's `calib_df` and `curve_back` are always present when an evaluator runs. The source would fail on a missing one.
