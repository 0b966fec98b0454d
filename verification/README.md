# Composite risk explorer: map data, scores and legends

A Dafny model of the data path behind the composite-risk world map.

- **The map-data endpoint.** `MapDataController::forYear` builds one row per country code. Years up to 2022 use the stored "actual" scores. Later years use the predictions snapshot, merged with the known countries.
- **Front-end computations.** Min-max normalisation of indicator values; the indicator matrix and composite country scores; palette choice; percentile legends and colour lookup (both the current `scales.ts` helpers and the older `useIndicators.ts` ones); and the popup text.
- **The risk classification.** The three-tier classification in `ClimateRisk`.

Modules:

- `Wrappers`: `Option`.
- `Text`: ASCII upper-casing, `explode`/join, lexicographic order, integer formatting.
- `Sequences`: `array_unique` and the two sorts.
- `Dicts`: an insertion-ordered string-keyed dictionary. It stands for both a PHP array and a JavaScript object. Assigning to an existing key keeps that key's position.
- `MapData`: the endpoint.
- `Stats`: `normalize`.
- `Scores`: the matrix and the country scores.
- `Scales`: palettes, legend bands, `colorFor`.
- `UseIndicators`: the older helpers.
- `Popup`: the popup text.
- `Services`: `ClimateRisk`.

The endpoint and the loops of the front end are methods. Each is proved equal to a specification function, and the properties are lemmas about those functions.

- `ForYear` runs the three phases of the PHP code: `BuildActualIndex`, `BuildPredictedIndex` and `Merge`.
- `BuildIndicatorMatrix` and `BuildCountryScores` are proved equal to `Matrix` and `CountryScores`.
- `UseIndicators.Normalize` is the older key-by-key loop. It is proved to give exactly the record of the newer `Stats.Normalize`, for every input.

After 2022 a predicted row is returned as the records built it. Only skeleton rows are guaranteed a key for every requested metric (`MergeShape`, `SkeletonShape`); a predicted row has one exactly for the metrics of its used records (`PredictedIndexMetrics`).

## Model

| member | source | states |
|---|---|---|
| MapData.ForYear | app/Http/Controllers/MapDataController.php:20-112 | The response rows are `MapRows` of the requested year and the parsed metrics. Up to 2022 every row is actual and of that year. After 2022 every row is predicted and of that year, and the codes are strictly ascending, so there is one row per code. |
| MapData.RequestedYear | app/Http/Controllers/MapDataController.php:22 | The requested year is the parameter when one is given; without one it is 2022, the last actual year. |
| MapData.ParseMetrics | app/Http/Controllers/MapDataController.php:23 | The metrics are the comma-separated pieces of the parameter (default `gmi_score`) that PHP counts as true: no piece is `""` or `"0"`, and none contains a comma. |
| MapData.DropFalsy | app/Http/Controllers/MapDataController.php:23 | `array_filter` keeps exactly the pieces that are not `""` or `"0"`. |
| MapData.BuildActualIndex | app/Http/Controllers/MapDataController.php:33-47 | The loop over the countries builds exactly `ActualIndex`. |
| MapData.BuildActualRow | app/Http/Controllers/MapDataController.php:35-45 | A country's row has the upper-cased code, its name, the year, source actual, and every requested metric read from the score record (null without one). |
| MapData.ActualIndexRows | app/Http/Controllers/MapDataController.php:33-47 | The index is keyed by exactly the upper-cased country codes. Each row sits under its own code, is actual and of the requested year, and has exactly the requested metrics and no interval keys. |
| MapData.ActualIndexLastWins | app/Http/Controllers/MapDataController.php:46 | When several countries share a code, the row comes from the last of them. |
| MapData.ActualYears | app/Http/Controllers/MapDataController.php:49-52 | Up to 2022 the rows are the actual index's values, one per distinct code, all actual. They are the same whatever the predictions are. |
| MapData.BuildPredictedIndex | app/Http/Controllers/MapDataController.php:59-91 | The loop over the records builds exactly `PredictedIndex`. |
| MapData.AddRecord | app/Http/Controllers/MapDataController.php:61-89 | A record whose year, metric or upper-cased code fails its filter leaves the index unchanged. A used record seeds its code's row if there is none, then writes its value and bounds. |
| MapData.PredictedIndexSnoc | app/Http/Controllers/MapDataController.php:61-90 | One more record changes the index exactly as `AddRecord` does. |
| MapData.PredictedIndexKeys | app/Http/Controllers/MapDataController.php:61-84 | The predicted index has a row exactly for the upper-cased codes of used records. |
| MapData.PredictedIndexShape | app/Http/Controllers/MapDataController.php:75-89 | Every predicted row sits under its own code and is predicted and of the year. It has a method/version provenance and the name from the actual index (null without one). Its value, lower-bound and upper-bound keys are the same set, contained in the requested metrics. |
| MapData.PredictedIndexMetrics | app/Http/Controllers/MapDataController.php:86-89 | A predicted row's metric keys are exactly the metrics of the used records for its code. |
| MapData.UsedOnly | app/Http/Controllers/MapDataController.php:61-72 | It keeps exactly the records that pass the year, metric and code filters. |
| MapData.OnlyUsedRecordsMatter | app/Http/Controllers/MapDataController.php:61-72 | Removing every record that fails a filter does not change the predicted index. |
| MapData.SeedFromFirstUsed | app/Http/Controllers/MapDataController.php:75-84 | A code's method and version come from its first used record. |
| MapData.MetricFromLastUsed | app/Http/Controllers/MapDataController.php:86-89 | A metric's value and both interval bounds come from the last used record for that code and metric. |
| MapData.Merge | app/Http/Controllers/MapDataController.php:94-109 | The merge loop gives exactly `MergedRows` over the sorted union of codes. |
| MapData.MergeOne | app/Http/Controllers/MapDataController.php:98-108 | A code with a predicted row gets that row, and any other code its skeleton. |
| MapData.FillSkeleton | app/Http/Controllers/MapDataController.php:103-107 | The skeleton loop gives exactly `Skeleton`. |
| MapData.SkeletonShape | app/Http/Controllers/MapDataController.php:103-107 | A skeleton is predicted and has the actual name (or null). Every requested metric key is present, holding the actual value or null. |
| MapData.AllIsosSortedUnion | app/Http/Controllers/MapDataController.php:95-96 | The merged codes are strictly ascending and are exactly the codes of the two indexes. |
| MapData.MergedRowsShape | app/Http/Controllers/MapDataController.php:94-110 | For any two indexes whose rows sit under their own codes, with the predicted rows predicted, the merged codes are the sorted union. Each row is the predicted row or else the skeleton, and all rows are predicted. |
| MapData.MergeShape | app/Http/Controllers/MapDataController.php:94-110 | After 2022 the codes of the rows are strictly ascending and are exactly the actual and predicted codes. A code with a predicted row gets it unchanged, any other code its skeleton, and every row is predicted and of the year. |
| MapData.NoPredictionsGiveSkeletons | app/Http/Controllers/MapDataController.php:56-60 | Without a usable snapshot, the rows after 2022 are the actual codes in ascending order, each as its skeleton. |
| Dicts.Put | app/Http/Controllers/MapDataController.php:46 | `$a[$k] = $v` (also at lines 76 and 87-89, and `o[k] = v` at resources/js/utils/scores.ts:20, 22, 42 and 50) maps the key to the new value and leaves every other entry alone. An existing key keeps its position; a new key is appended at the end. |
| Dicts.Values | app/Http/Controllers/MapDataController.php:51 | `array_values` (and `Object.values`) lists exactly one value per key, in key order. |
| Text.IntToString | resources/js/map/popup.ts:37 | `${year}` is a minus sign exactly for a negative year, followed by at least one decimal digit, with no leading zero unless the digits are just `0`. |
| Text.IntToStringRoundTrip | resources/js/map/popup.ts:37 | Reading the digits of `${year}` back gives the year's absolute value, so different years are written differently. |
| Text.Upper | app/Http/Controllers/MapDataController.php:35 | `strtoupper` keeps the length and maps every character through the ASCII upper-case table. |
| Text.Explode | app/Http/Controllers/MapDataController.php:23 | `explode` gives at least one piece, no piece contains the separator, and joining the pieces back gives the input. |
| Sequences.Unique | app/Http/Controllers/MapDataController.php:95 | `array_unique` gives a list without repetitions that has the same elements. |
| Sequences.UniqueFirstOccurrenceOrder | app/Http/Controllers/MapDataController.php:95 | `array_unique` keeps the input's order: the elements of its result appear in the order of their first occurrences in the input. |
| Sequences.SortStrings | app/Http/Controllers/MapDataController.php:96 | `sort` gives an ascending permutation of its input. |
| Sequences.SortDistinctStrings | app/Http/Controllers/MapDataController.php:95-96 | Sorting a list without repetitions gives a strictly ascending list of the same elements. |
| Sequences.SortReals | resources/js/palettes/scales.ts:38 | The numeric sort gives an ascending permutation of its input. |
| Stats.Numbers | resources/js/utils/stats.ts:8 | The `typeof v === 'number'` filter (also at resources/js/palettes/scales.ts:38 and resources/js/composables/useIndicators.ts:18 and 41) keeps exactly the numbers among the values. |
| Stats.NumbersCount | resources/js/utils/stats.ts:8 | Each number occurs in the filtered list as often as it occurs among the values. |
| Stats.RecordNumbers | resources/js/utils/stats.ts:8 | Every key whose value is a number contributes that number to the record's numbers. |
| Stats.Normalize | resources/js/utils/stats.ts:5-23 | The result has the same keys in the same order, and a key is null exactly when its input is not a number. |
| Stats.NormalizeAt | resources/js/utils/stats.ts:9-21 | With no number every key is null. Otherwise each key is its value scaled between the least and greatest number (0.5 when they are equal). |
| Stats.NormalizeInUnit | resources/js/utils/stats.ts:13-20 | Every normalised number lies in [0, 1]. |
| Stats.NormalizeConstant | resources/js/utils/stats.ts:19 | When all numbers are equal, including the one-number case, every number maps to 0.5. |
| Stats.NormalizeSpread | resources/js/utils/stats.ts:13-20 | When two numbers differ, the least number maps to 0 and the greatest to 1. |
| Stats.NormalizeMonotone | resources/js/utils/stats.ts:20 | Normalisation keeps the order of the numbers. |
| Stats.Min | resources/js/utils/stats.ts:13 | `Math.min` of a non-empty list is an element that no element is below. |
| Stats.Max | resources/js/utils/stats.ts:14 | `Math.max` of a non-empty list is an element that no element is above. |
| Stats.RecordNumberHasKey | resources/js/utils/stats.ts:8 | Every number in the filtered values is the value of some key. |
| Scores.RowIso | resources/js/utils/scores.ts:17-18 | A row has a code exactly when its `iso3` is a non-empty string, and the code is its upper-cased form. |
| Scores.BuildIndicatorMatrix | resources/js/utils/scores.ts:8-26 | The nested loops build exactly `Matrix`. |
| Scores.MatrixShape | resources/js/utils/scores.ts:14-22 | The matrix's keys are the requested indicators without repetitions, in first-occurrence order (`UniqueFirstOccurrenceOrder`). Each maps to `normalize` of its per-code values. |
| Scores.PerIsoKeys | resources/js/utils/scores.ts:16-21 | An indicator's per-code record has exactly the rows' codes as keys. Rows without a code are skipped. |
| Scores.PerIsoLastWins | resources/js/utils/scores.ts:19-20 | For a repeated code the last row wins, and a non-number enters as null. |
| Scores.MatrixEntries | resources/js/utils/scores.ts:14-22 | Each indicator's record has exactly the rows' codes, and every entry is null or in [0, 1]. |
| Scores.BuildCountryScores | resources/js/utils/scores.ts:31-54 | The loop over the rows builds exactly `CountryScores`. |
| Scores.SumEntries | resources/js/utils/scores.ts:45-49 | The inner loop's sum is `Composite`, with missing and null entries counted as 0. |
| Scores.CountryScoresShape | resources/js/utils/scores.ts:38-50 | The scores have exactly the rows' codes as keys, each with `Score` of its code. |
| Scores.NullScoreIffNoIndicators | resources/js/utils/scores.ts:41-50 | A score is null exactly when no indicator is selected. |
| Scores.CompositeBounds | resources/js/utils/scores.ts:45-50 | Entries in [0, 1] keep the sum within [0, number of indicators]. |
| Scores.ScoresBounded | resources/js/utils/scores.ts:31-54 | Against the matrix of the same rows, with at least one indicator, every score is a number in [0, number of indicators]. |
| Scales.PickPalette | resources/js/palettes/scales.ts:20-28 | Five colours. The palette is a forecast palette exactly after the last observed year. It is from the standard family exactly when colour-blind mode is off; otherwise from family B exactly when the alternative is asked for, and from family A otherwise. |
| Scales.FamiliesDiffer | resources/js/palettes/scales.ts:6-15 | Within each family the observed and forecast palettes share no colour. |
| Scales.Quantile | resources/js/palettes/scales.ts:43 | The percentile element at index floor(k·n/10) is an element of the sorted list. |
| Scales.QuantileBands | resources/js/palettes/scales.ts:46-53 | The band literal (also at resources/js/composables/useIndicators.ts:47-53) has six bands. |
| Scales.QuantileBandsLayout | resources/js/palettes/scales.ts:46-53 | For any sorted, non-empty number list the literal's first five bands carry the palette's colours with non-null thresholds and the five labels, and the last band is the grey "no data" band. |
| Scales.QuantileBandsThresholds | resources/js/palettes/scales.ts:43-51 | The literal's thresholds are the 80th, 60th, 40th and 20th percentile elements, then minus infinity. |
| Scales.BuildColorRanges | resources/js/palettes/scales.ts:34-54 | Without numbers, the only band is the grey "no data" band. Otherwise there are six bands. |
| Scales.BandsLayout | resources/js/palettes/scales.ts:46-53 | The first five bands take the palette's five colours with the labels Top 20%, 60–80%, 40–60%, 20–40% and Bottom 20%, then comes the grey "no data" band with a null threshold. |
| Scales.BandsThresholds | resources/js/palettes/scales.ts:38-51 | The thresholds are the 80th, 60th, 40th and 20th percentile elements of the numbers in ascending order, then minus infinity. |
| Scales.ThresholdsNonIncreasing | resources/js/palettes/scales.ts:44-51 | The thresholds never increase down the list: q80 ≥ q60 ≥ q40 ≥ q20 > minus infinity. |
| Scales.ThresholdsAreValues | resources/js/palettes/scales.ts:43-50 | Every percentile threshold is the value of some key of the input. |
| Scales.FirstMatch | resources/js/palettes/scales.ts:64-67 | The first band the score meets, skipping null thresholds: no band before it is met. |
| Scales.ColorFor | resources/js/palettes/scales.ts:59-69 | Grey for a null score. Otherwise the colour of the first band the score meets, or else the last band's colour, or grey for an empty list. |
| Scales.FirstMatchMonotone | resources/js/palettes/scales.ts:64-67 | A higher score never lands in a later band. |
| Scales.ColorFromPalette | resources/js/palettes/scales.ts:47-51 | With the bands of at least one number, every score gets one of the palette's five colours. |
| UseIndicators.Normalize | resources/js/composables/useIndicators.ts:17-33 | The key-by-key loop, with ±infinity bounds when there are no numbers, gives exactly `Stats.Normalize` of its input. |
| UseIndicators.FillNormalized | resources/js/composables/useIndicators.ts:23-31 | The loop keeps the key order. Each key gets null for a non-number and otherwise the value scaled between the bounds. |
| UseIndicators.NormalizeEntry | resources/js/composables/useIndicators.ts:24-30 | Null stays null, equal bounds give 0.5, and otherwise the value is scaled between the bounds. |
| UseIndicators.GenerateColorRanges | resources/js/composables/useIndicators.ts:39-55 | No bands exactly when there is no number. Otherwise there are six bands: the first five are those of `buildColorRanges` with the same reds, and the last is the grey "no data available" band. |
| UseIndicators.GeneratedThresholdsNonIncreasing | resources/js/composables/useIndicators.ts:44-52 | The older legend's thresholds never increase down the list. |
| UseIndicators.GetColor | resources/js/composables/useIndicators.ts:60-66 | Grey for a null score. Otherwise the first band met, or else the last band's colour. For an empty list and a number the lookup fails (`None`). |
| UseIndicators.GeneratedColorFromPalette | resources/js/composables/useIndicators.ts:44-54 | On the older legend of at least one number, every score gets one of the five reds, and the lookup never fails. |
| Popup.BuildCiText | resources/js/map/popup.ts:7-22 | Empty up to the last observed year, and empty unless exactly one indicator and a row are given. Non-empty exactly when the metric is non-empty and both of its interval bounds are numbers; then it is the interval line with both bounds formatted. |
| Popup.CiOnlyForSingleForecast | resources/js/map/popup.ts:13-19 | A non-empty interval text means a forecast year and exactly one indicator, and it starts with `<br>CI (`. |
| Popup.BuildPopupHtml | resources/js/map/popup.ts:27-41 | The HTML is the bold name and the year's score, then the source line, with the interval text appended as its suffix. The part between head and tail is the score text. |
| Popup.NoDataIffNull | resources/js/map/popup.ts:34 | The score reads "no data" exactly for a null score, as long as no number formats as "no data". |
| Services.RiskProfile | app/Services/ClimateRisk.php:18-27 | "hoch" exactly when the mean of the two scores is above 75, "mittel" exactly when it is in (50, 75], and "niedrig" exactly when it is at most 50. |
| Services.RiskMonotone | app/Services/ClimateRisk.php:20-26 | Raising either score never moves a country to a lower tier. |

## Left out

- The store query (`Country::with('scores')`), the snapshot location and decompression (`resolvePredictionsPath`, `readJsonPossiblyGz`) and the JSON response are not modelled.
  - The query result is the `countries` input.
  - The decoded snapshot is the `predictions` input, with `None` for every fail-soft outcome.
  - The response is the row list.
- Each country carries only the first of its score records for the year, as `->first()` returns it.
- `(int)` casts of the year parameter and of the records' years are taken as already done: both are integers here.
- A metric name that collides with a fixed key (`iso3`, `name`, `year`, `source`, `method`, `version`) or with another metric's `_lo_ci`/`_hi_ci` key is not modelled. Metrics, interval bounds and fixed fields are kept apart.
- PHP's conversion of numeric-string array keys to integers is not modelled. Neither is JavaScript's placement of integer-like keys first. Codes and metric names are treated as ordinary strings.
- `sort` is modelled as byte-wise lexicographic order. PHP's numeric comparison of numeric strings is not modelled.
- `strtoupper` and `toUpperCase` are modelled on ASCII letters only.
- Numbers are exact reals. Floating-point rounding, NaN and infinities are not modelled.
  - `Math.floor(p * n)` is the exact floor of k·n/10.
  - The older `normalize`'s infinite bounds for an empty input are represented by "no bounds".
- `toFixed(2)` is the parameter `fmt` of `Popup.BuildCiText` and `Popup.BuildPopupHtml`. JavaScript's number-to-string conversion of the year is `IntToString`.
- `LAST_ACTUAL_YEAR` of the front end is a parameter (`lastActualYear`), because resources/js/domain/constants.ts is not part of this model. The endpoint's own constant, 2022, is `MapData.LastActualYear`.
- Scales.BuildColorRanges: requires a palette of at least five colours. With a shorter palette the JavaScript bands get `undefined` colours. Every palette `pickPalette` returns has five.
- Stats.NormalizeSpread: states only that the least number maps to 0 and the greatest to 1. The value of every other number, `(v - min) / (max - min)`, is stated by `Stats.NormalizeAt` through `Stats.Scale`.
- Popup.NoDataIffNull: assumes the formatted number is not the text "no data". `toFixed` never produces that text.
- The `ClimateRisk` constructor is the datatype constructor `Services.ClimateRisk`. The PHP properties are public and mutable. The model takes their values at the moment `riskProfile` is called, which itself changes nothing. Reassignment of the properties by outside code is not modelled.
- `ml/forecast.py`, the map and chart composables, the seeders and the other controllers are not part of this model.
