# Ride-price training pipeline, modelled in Dafny

This project models the data-preparation core of a ride-price prediction app.
It covers two files.

- `src/utils/trainingUtils.ts`:
  - the z-score outlier filter (`detectOutliers`, `removeOutliers`);
  - the per-cab-type segment aggregation (`segmentRidesByCabType`);
  - the part of `trainModel` that builds the feature and label matrices, removes outliers and applies min/max normalisation (lines 87-116).
- `src/utils/mlUtils.ts`:
  - the loader dispatch of `loadModel` on the file extension;
  - the six-value input layout of `preprocessInput`;
  - the `(bearing + 360) % 360` wrap of `calculateBearing`.

JavaScript numbers are modelled as unbounded reals. Where the source would produce `NaN` or an infinity, the model returns `None`.

Modules, one file each:
- `Wrappers`: `Option`.
- `Stats`: sums, the mean, the population variance, and the squared z-score test. It also holds two bounds on how many values of a column can fail that test:
  - a Chebyshev bound: fewer than n / 9 values fail;
  - Samuelson's inequality: with 10 values or fewer, none fails.
- `Outliers`: `detectOutliers` and `removeOutliers`.
- `Normalizer`: the column-wise min/max folds and the scaling.
- `Dataset`: the ride record and its feature row and label row.
- `Training`: lines 84-116 of `trainModel`. That is the preprocessing, plus the segments, which line 102 builds from the raw rides, outliers included.
- `Segments`: `segmentRidesByCabType`. It is an imperative method that updates a dictionary ride by ride, then makes a second pass that writes the averages. It is proved against a per-key specification function `Totals`.
- `Inference`: the pure parts of `mlUtils.ts`.

## Model

| member | source | states |
|---|---|---|
| Stats.Mean | src/utils/trainingUtils.ts:13 | n times the mean is the column's sum |
| Stats.Variance | src/utils/trainingUtils.ts:14-16 | the population variance (the square of `stdDev`) is non-negative, and n times it is the sum of squared deviations from the mean |
| Stats.Deviates | src/utils/trainingUtils.ts:24-25 | a predicate, no contract: the squared z-score test `(v - mean)^2 > 9 variance`; `Stats.ZScoreMatchesSquaredTest` ties it to the source's test |
| Stats.ColumnOutlierBound | src/utils/trainingUtils.ts:11-25 | in any non-empty column, fewer than one ninth of the values lie more than three population standard deviations from the mean |
| Stats.SmallColumnHasNoOutlier | src/utils/trainingUtils.ts:13-25 | a value can fail the z-score test only if its column has at least 11 values (Samuelson's inequality) |
| Stats.ZScoreMatchesSquaredTest | src/utils/trainingUtils.ts:24-25 | for a positive standard deviation, the source's test `abs((v - mean) / stdDev) > 3` holds exactly when the squared test used by the model holds |
| Stats.ConstantColumn | src/utils/trainingUtils.ts:13-25 | a column whose values are all equal has that value as its mean and zero variance, and flags no value (the source's `0 / 0 > 3` is false) |
| Outliers.ColumnStats | src/utils/trainingUtils.ts:11-18 | one entry per column of the first row, holding that column's mean and population variance |
| Outliers.IsOutlierRow | src/utils/trainingUtils.ts:22-26 | a predicate, no contract: some value of the row fails its column's squared z-score test |
| Outliers.OutlierIndices | src/utils/trainingUtils.ts:20-29 | the result lists the outlier rows among the first n, each exactly once, in increasing order |
| Outliers.DetectOutliers | src/utils/trainingUtils.ts:9-30 | fails exactly on the empty matrix; otherwise it returns, in increasing order, exactly the indices of the rows with some value that fails its column's z-score test |
| Outliers.KeptIndices | src/utils/trainingUtils.ts:37 | the kept indices are exactly the indices below n that are not dropped, in increasing order |
| Outliers.Filter | src/utils/trainingUtils.ts:37-38 | the filtered sequence holds the elements at the kept indices, in their original order |
| Outliers.RemoveOutliers | src/utils/trainingUtils.ts:32-40 | fails exactly on the empty matrix; otherwise both features and labels keep exactly the rows at the kept indices, so aligned inputs give aligned outputs |
| Outliers.RemoveOutliersCount | src/utils/trainingUtils.ts:36-38 | the cleaned features and labels both have n minus the number of outliers rows, and no kept index is an outlier |
| Outliers.OutlierCountBound | src/utils/trainingUtils.ts:9-29 | with w columns and n rows, at most w(n - 1) / 9 rows are outliers |
| Outliers.SixColumnsKeepAThird | src/utils/trainingUtils.ts:9-29 | with six columns, at most two thirds of n - 1 rows are removed, so the cleaned matrix is never empty |
| Outliers.SmallInputHasNoOutliers | src/utils/trainingUtils.ts:9-29 | a matrix of 1 to 10 rows has no outliers |
| Outliers.ConstantColumnFlagsNothing | src/utils/trainingUtils.ts:13-25 | a column whose values are all equal flags no row |
| Outliers.ThreeRowExample | src/utils/trainingUtils.ts:9-29 | the rows of zeros, ones and hundreds flag nothing |
| Normalizer.FoldMin | src/utils/trainingUtils.ts:106 | the column-wise fold of `Math.min` is below the start row and every row, and each entry is attained by one of them |
| Normalizer.FoldMax | src/utils/trainingUtils.ts:107 | the column-wise fold of `Math.max` is above the start row and every row, and each entry is attained by one of them |
| Normalizer.FitBounds | src/utils/trainingUtils.ts:105-108 | min and max are as wide as the rows; for each column they bound every row's value and each is attained by some row |
| Normalizer.Scale | src/utils/trainingUtils.ts:111 | undefined exactly when the bounds coincide (NaN or an infinity in the source); otherwise the value maps back to the original value |
| Normalizer.NormalizeRows | src/utils/trainingUtils.ts:110-116 | one row per input row, each entry the scaled value of the entry at the same place, using its column's bounds |
| Normalizer.ScaleInterval | src/utils/trainingUtils.ts:111 | when the bounds differ, the scaled value is defined and maps back to the original value; it lies in [0, 1] exactly when the value lies between the bounds, and it is 0 at min and 1 at max |
| Normalizer.ScaleMonotone | src/utils/trainingUtils.ts:111 | when the bounds differ, scaling keeps the order of two values, in both directions |
| Normalizer.NormalizedFeaturesInUnitInterval | src/utils/trainingUtils.ts:105-112 | every normalised feature in a column whose bounds differ lies in [0, 1]; the rows that attain min and max map to 0 and 1 |
| Normalizer.NormalizedFeaturesKeepOrder | src/utils/trainingUtils.ts:105-112 | within such a column, normalisation keeps the order of the rows' values, in both directions |
| Normalizer.DegenerateColumn | src/utils/trainingUtils.ts:105-112 | a column's bounds coincide exactly when all its values are equal, and then every normalised entry is undefined (NaN in the source) |
| Normalizer.ColumnExample | src/utils/trainingUtils.ts:105-112 | the column [10, 20, 30] normalises to [0, 0.5, 1] |
| Normalizer.LabelInUnitIntervalIff | src/utils/trainingUtils.ts:114-116 | label column j is scaled with feature column j's bounds, so a label lands in [0, 1] exactly when it lies between those feature bounds |
| Normalizer.LabelOutsideUnitInterval | src/utils/trainingUtils.ts:114-116 | with latitudes 0 and 1, a price label of 20 normalises to 20 |
| Dataset.Features | src/utils/trainingUtils.ts:87-94 | one six-wide row per ride, in ride order, holding position then weather |
| Dataset.Labels | src/utils/trainingUtils.ts:96 | one `[price, distance]` row per ride, aligned with the features |
| Training.CleanedShape | src/utils/trainingUtils.ts:87-99 | the cleaned feature and label rows are the rows of the same surviving rides; at least one survives, and all survive when there are at most 10 rides |
| Training.Prepare | src/utils/trainingUtils.ts:87-116 | fails exactly on an empty dataset; otherwise it gives the same number of feature and label rows, namely the rides minus the outliers, at least one, each feature row six wide, with six-wide bounds |
| Training.PreparedRowsAligned | src/utils/trainingUtils.ts:99-116 | prepared feature row k and label row k are the normalised rows of the k-th surviving ride, both scaled with the bounds of the cleaned features |
| Training.PreparedKeepsMostRows | src/utils/trainingUtils.ts:99 | at most two thirds of n - 1 rides are dropped before training, and none when there are at most 10 rides |
| Training.PreparedFeaturesInUnitInterval | src/utils/trainingUtils.ts:105-112 | every feature given to the network lies in [0, 1] in each column whose bounds differ |
| Training.PreparedLabelOutsideUnitInterval | src/utils/trainingUtils.ts:105-116 | two rides at latitudes 0 and 1: after preprocessing, the first ride's price of 20 reaches the network as 20 |
| Training.TrainModel | src/utils/trainingUtils.ts:84-116 | fails exactly on an empty dataset. Otherwise the prepared matrices are those of `Prepare`, holding the rides minus the outliers, while the segments are built from every ride: exactly the cab types that occur, each with its totals and averages, and ride counts that add up to the number of rides |
| Training.PrepareSeparately | src/utils/trainingUtils.ts:105-116 | the same feature rows and feature bounds as `Prepare`, with the labels scaled by their own two-wide bounds |
| Training.SeparateLabelsInUnitInterval | src/utils/trainingUtils.ts:114-116 | with their own bounds, every label lies in [0, 1] in each label column whose bounds differ |
| Segments.CabType | src/utils/trainingUtils.ts:45 | the key is never empty; it is "Unknown" exactly when the cab type is missing, empty or "Unknown", and otherwise it is the cab type itself |
| Segments.PricePerKm | src/utils/trainingUtils.ts:72 | undefined (an infinity) exactly when the distance total is 0 and the price total is not; otherwise it times the distance is the price, and it is 0 when both totals are 0 |
| Segments.WithAverages | src/utils/trainingUtils.ts:70-74 | the totals are kept; the average duration times the ride count is the total duration, and it is 0 with no rides; the price per km is `PricePerKm` of the totals |
| Segments.SegmentRidesByCabType | src/utils/trainingUtils.ts:43-77 | the dictionary holds exactly the cab types that occur; each entry holds the totals of that type's rides and the averages of those totals; the ride counts add up to the number of rides |
| Segments.AbsentKeyHasNoTotals | src/utils/trainingUtils.ts:50-59 | a cab type with no ride has the initial all-zero segment |
| Segments.SegmentIffRide | src/utils/trainingUtils.ts:50-61 | a cab type has a segment exactly when at least one ride carries it |
| Segments.SegmentsHaveRides | src/utils/trainingUtils.ts:73 | every returned segment has at least one ride, so its average duration is the true quotient and never the `\|\| 0` fallback |
| Segments.OneRideOneSegment | src/utils/trainingUtils.ts:44-66 | one more ride adds its distance, price and duration to its own cab type's totals and changes no other segment |
| Segments.MissingCabTypeIsUnknown | src/utils/trainingUtils.ts:45 | a ride with a missing or empty cab type is counted under "Unknown" |
| Segments.CabTypeOrder | src/utils/trainingUtils.ts:70 | each cab type that occurs, listed once |
| Segments.RidesConserved | src/utils/trainingUtils.ts:61 | summed over all segments, the ride counts equal the number of rides |
| Segments.UberXExample | src/utils/trainingUtils.ts:43-74 | two UberX rides of 5 km, priced 20 and 30, give one segment of two rides, 10 km and 5 per km |
| Inference.LastSegment | src/utils/mlUtils.ts:7 | the result is the dot-free suffix of the name that is the whole name or follows the last '.' |
| Inference.Extension | src/utils/mlUtils.ts:7 | the extension is a dot-free suffix of the name, lowercased, that is the whole name or follows a '.' |
| Inference.ChooseLoader | src/utils/mlUtils.ts:9-16 | the ONNX runtime is chosen exactly when the name's last four characters spell "onnx" in any case and are the whole name or follow a '.'; every other name goes to the TensorFlow.js loader |
| Inference.NoDotWholeName | src/utils/mlUtils.ts:7 | a name without '.' is its own extension, lowercased |
| Inference.TrailingDotEmpty | src/utils/mlUtils.ts:7 | a name that ends in '.' has the empty extension |
| Inference.OnnxIff | src/utils/mlUtils.ts:7-9 | the extension is "onnx" exactly when the name's last four characters spell "onnx" in any case and are either the whole name or follow a '.' |
| Inference.OnnxExamples | src/utils/mlUtils.ts:7-12 | "M.ONNX" and "model.onnx" go to the ONNX runtime |
| Inference.LayersModelExamples | src/utils/mlUtils.ts:7-16 | "x.pkl" and "model.onnx.json" go to the TensorFlow.js loader |
| Inference.JsRemainder | src/utils/mlUtils.ts:81 | JavaScript's `%` takes the sign of the dividend, is smaller in size than the divisor, and differs from the dividend by a whole multiple of the divisor |
| Inference.WrapBearing | src/utils/mlUtils.ts:81 | for any bearing above -360 the result lies in [0, 360), and it differs from the bearing by whole turns |
| Inference.WrapBearingRange | src/utils/mlUtils.ts:80-81 | for an `atan2` bearing in [-180, 180], the wrapped bearing lies in [0, 360) and is the same direction: the bearing itself, or the bearing plus 360 when it is negative |
| Inference.InputFeaturesInRange | src/utils/mlUtils.ts:53-60 | for valid coordinates the four position features lie in [-1, 1], the bearing feature lies in [0, 1), and a non-negative distance gives a non-negative distance feature |
| Inference.PreprocessInput | src/utils/mlUtils.ts:53-60 | the encoding has six values; their order and scaling are stated by `Inference.PreprocessInputInvertible` |
| Inference.PreprocessInputInvertible | src/utils/mlUtils.ts:53-60 | each of the six encoded values scales back to the quantity it came from |

## Left out

- `parseDataset` (CSV parsing through Papa Parse) is left out: it is I/O. Rides arrive already parsed and numeric. `Number(...)` on text and `NaN` feature values are not modelled.
- The neural network is left out. This covers `createModel`, `trainModelWithData`, the shuffling, the batching, the epochs and the progress callback; they are calls into TensorFlow.js.
- `trainModel`'s `try`/`catch` re-throw is modelled only as `None` results.
- The I/O of `loadModel` and `runPrediction` is left out. Reading the file, creating the session and running the forward pass are calls into the ONNX runtime and TensorFlow.js. Only the extension-based choice is modelled.
- `calculateDistance` and the trigonometry of `calculateBearing` are left out because they are floating-point sine, cosine and `atan2`. The distance and the raw `atan2` bearing in degrees are parameters of `PreprocessInput`.
- Floating point is left out: numbers are exact reals. Rounding in the mean, the variance, `Math.sqrt` and the divisions is not modelled.
- Outliers.SmallInputHasNoOutliers: the bound is tight at exactly 10 rows. Nine equal values and one different value give a z-score of exactly 3, which `zScore > 3` rejects over the reals. In the source, floating-point rounding of that 3 decides the outcome, and the model does not capture that.
- Outliers.DetectOutliers: requires all rows to have the same width, because its only caller builds every row with six fields. Rows of other widths, where the source would read `undefined` statistics, are not modelled.
- Inference.ToLower: lowercases ASCII letters only; `toLowerCase` on other Unicode letters is not modelled.
- Segments.SegmentRidesByCabType: a cab type that names a member inherited from `Object.prototype` (`"constructor"`, `"toString"`, `"hasOwnProperty"`, `"__proto__"`, ...) is treated like any other key. The source's `{}` accumulator finds the inherited member at line 50, creates no segment, and `Object.keys` leaves that key out of the result. The model gives it a segment with its rides. Objects and their prototype chain are not modelled.
- Segments.CabType: a cab type is text or missing. Other falsy values that `ride.cabType || 'Unknown'` would also replace (`0`, `false`) are not modelled. A missing or zero price or distance is modelled as the number 0.
- Segments.WithAverages: an average price per km that is an infinity (non-zero price over zero distance) is `None`. A price and distance that are both 0 give 0, as `NaN || 0` does.
- Where the code and the intended design disagree, the model follows the code:
  - A zero-range column normalises to `None` (NaN or an infinity). The code does not map it to 0.
  - A zero standard deviation is not skipped explicitly. The source's `0 / 0 > 3` is false, which gives the same outcome (`Stats.ConstantColumn`).
  - The rows of zeros, ones and hundreds are not flagged. No column of fewer than 11 values can have a value more than three standard deviations out (`Outliers.ThreeRowExample`).
  - `normalizedLabels` reuses the feature bounds (`Training.Prepare`). See "## Findings".
- The fitted bounds are not kept for decoding predictions. The code never returns or stores them.

## Findings

| source | as written | input that shows it | evidently intended | confidence | as-written member | corrected member |
|---|---|---|---|---|---|---|
| src/utils/trainingUtils.ts:114-116 | label columns `price` and `distance` are scaled with the bounds of feature columns 0 and 1 (`latitude`, `longitude`) | two rides at latitudes 0 and 1, the first priced 20: the normalised price is 20, far outside [0, 1] | labels scaled with bounds fitted on the cleaned labels, so that every label lies in [0, 1] | medium, not executed | Training.PreparedLabelOutsideUnitInterval | Training.SeparateLabelsInUnitInterval |
