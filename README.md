# tslearn preprocessing, modelled in Dafny

This project models the three time-series transforms of `tslearn.preprocessing`
and proves what they do to a dataset.

A dataset is the canonical padded array of shape `(n_ts, sz, d)`: series × time step × feature.
It is modelled as `seq<seq<seq<Option<real>>>>`, where `None` stands for NaN (a missing
sample, or the padding after a short series).

- **TimeSeriesResampler** brings every series to exactly `sz` steps.
  - With `sz == 1`, every feature becomes its missing-ignoring mean (`numpy.nanmean`).
  - Otherwise every feature is interpolated by scipy's `slinear` method from the
    series' valid steps, placed at `numpy.linspace(0, 1, L)`, to `numpy.linspace(0, 1, sz)`.
  - The output is an `array3` filled in place, series by series and feature by
    feature, as the source fills `X_out`.
- **TimeSeriesScalerMinMax** resolves its target interval `[lo, hi]` from
  `value_range` and the deprecated `min`/`max` overrides, and rejects `lo >= hi`.
  - Per series and feature it maps `x ↦ (x - min) * (hi - lo) / (max - min) + lo`,
    with min and max taken over the non-missing samples.
- **TimeSeriesScalerMeanVariance** maps, per series and feature,
  `x ↦ (x - mean) * std / std_actual + mu`.
  - The deviation table `std_t` is built, and its zero entries are overwritten
    with 1 in place before dividing.
- Both scalers are classes whose `Fit` records the dataset's shape.
  - Once the target interval is valid, `Transform` fails with `NotFitted` before any `Fit`.
  - It fails with `DimensionMismatch` when the feature count differs from the
    fitted one.

Modules:
- `Stats` (stats.dfy): NaN-skipping statistics.
- `Affine` (affine.dfy): the affine map both scalers apply, and how it moves
  the mean, variance and extremes.
- `Datasets` (datasets.dfy): shapes, columns, errors.
- `Resampling` (resampling.dfy), `MinMaxScaling` (minmax.dfy) and
  `MeanVarianceScaling` (meanvariance.dfy): the three transforms.

Two corner cases of the MinMax formula:
- **MinMax on a constant feature.** Every present sample equals the minimum, so
  `(x - min) * (hi - lo) / (max - min)` is `0 / 0` and the result is NaN
  everywhere; `MinMaxColumn` returns all `None`.
- **Missing values in MinMax.** A feature whose samples are all missing is
  likewise all NaN.

## Model

| member | source | states |
|---|---|---|
| Stats.Present | tslearn/preprocessing.py:191-192 | the samples NaN-aware reductions see: empty exactly when every sample is missing, and each present sample is kept |
| Stats.NanMin | tslearn/preprocessing.py:191 | numpy.nanmin over one series' feature: NaN iff all samples are missing, otherwise a present sample no larger than any other |
| Stats.NanMax | tslearn/preprocessing.py:192 | numpy.nanmax over one series' feature: NaN iff all samples are missing, otherwise a present sample no smaller than any other |
| Stats.MeanBetweenExtremes | tslearn/preprocessing.py:57 | the mean lies between the smallest and the largest sample |
| Stats.VarianceZeroIffConstant | tslearn/preprocessing.py:271-272 | the population variance is 0 exactly when all samples are equal, so the guard fires exactly on constant features |
| Stats.SumBounds | tslearn/preprocessing.py:57 | samples within [lo, hi] sum to within [n·lo, n·hi] |
| Stats.MeanOfConstant | tslearn/preprocessing.py:270 | the mean of equal samples is their common value |
| Stats.SquaredDeviationsPositive | tslearn/preprocessing.py:271 | one sample away from m makes the squared deviations from m positive |
| Stats.PresentOfExamples | tslearn/preprocessing.py:121-130 | the present samples of the documented columns [0, 3, 6] and [NaN, 3, 6] |
| Stats.ExtremesOfExamples | tslearn/preprocessing.py:121-130 | nanmin and nanmax of the documented columns |
| Stats.PresentOfConcat | tslearn/preprocessing.py:191-192 | filtering out NaN distributes over concatenation: each present sample is kept once per occurrence, in its place |
| Stats.PresentOfSingle | tslearn/preprocessing.py:191-192 | a single sample is kept exactly when it is not NaN |
| Affine.ApplyAll | tslearn/preprocessing.py:194-195 | the scaling formula applied sample by sample, keeping length and order |
| Affine.ApplyColumn | tslearn/preprocessing.py:194-195 | the formula applied to a column: NaN in, NaN out; a number in, its image out |
| Affine.MapValue | tslearn/preprocessing.py:194-195 | the element formula `((x - shift) * factor) / divisor + offset` over plain numbers, also that of line 274; no contract of its own beyond a nonzero divisor: ApplyIsLine and ApplyAtShift state what it computes |
| Affine.Apply | tslearn/preprocessing.py:274 | the element formula with the parameters of one map; no contract of its own beyond a nonzero divisor: ApplyIsLine, ApplyDifference and ApplyMonotone state what it computes |
| Affine.ApplyIsLine | tslearn/preprocessing.py:194-195 | `((x - shift) * factor) / divisor + offset` is the line through (shift, offset) with slope factor / divisor |
| Affine.ApplyAtShift | tslearn/preprocessing.py:194-195 | the shift (min, or mean) is sent to the offset (lo, or mu) |
| Affine.ApplyMonotone | tslearn/preprocessing.py:194-195 | a positive slope preserves the order of samples |
| Affine.PresentOfApplyColumn | tslearn/preprocessing.py:194-195 | the present outputs are exactly the images of the present inputs, in order |
| Affine.SumOfApplyAll | tslearn/preprocessing.py:274 | the sum of the images in terms of the sum of the samples |
| Affine.MeanOfApplyAll | tslearn/preprocessing.py:274 | the mean of the images is the image of the mean |
| Affine.SquaredDeviationsOfApplyAll | tslearn/preprocessing.py:274 | squared deviations scale by the squared slope |
| Affine.VarianceOfApplyAll | tslearn/preprocessing.py:274 | the variance of the images is the variance times the squared slope |
| Affine.MinOfApplyAll | tslearn/preprocessing.py:191-195 | with a positive slope the smallest sample maps to the smallest output |
| Affine.MaxOfApplyAll | tslearn/preprocessing.py:191-195 | with a positive slope the largest sample maps to the largest output |
| Affine.ValuesOfExamples | tslearn/preprocessing.py:121-130 | the documented MinMax outputs 1, 1.5, 2 and 1, 2 as values of the scaling map |
| Datasets.Column | tslearn/preprocessing.py:84 | `X_[i, :, di]`: feature di at every time step, same length |
| Datasets.SameCells | tslearn/preprocessing.py:274 | two datasets of one shape agreeing on every cell are equal |
| MinMaxScaling.ResolveRange | tslearn/preprocessing.py:169-182 | a given `min` replaces the lower end and a given `max` the upper end; one deprecation warning per override, `min`'s first |
| MinMaxScaling.HasSpan | tslearn/preprocessing.py:193-195 | `range_t != 0`: when it holds the column has a present minimum strictly below its maximum, and it holds whenever two present samples differ |
| MinMaxScaling.ScalingMap | tslearn/preprocessing.py:191-195 | with a span, the divisor max - min is nonzero |
| MinMaxScaling.MinMaxColumn | tslearn/preprocessing.py:191-195 | the same length; missing stays missing; with a span, present iff present; without one, all NaN |
| MinMaxScaling.MinMaxScale | tslearn/preprocessing.py:190-195 | the output keeps the dataset's shape, and each cell is its series' feature scaled on its own |
| MinMaxScaling.ScalingMapIncreasing | tslearn/preprocessing.py:193-195 | with lo < hi and a span, the map is increasing |
| MinMaxScaling.ScalingMapEnds | tslearn/preprocessing.py:191-195 | the minimum maps to lo and the maximum to hi |
| MinMaxScaling.MinMaxExtremes | tslearn/preprocessing.py:191-195 | every position holding the minimum becomes lo, every one holding the maximum becomes hi |
| MinMaxScaling.MinMaxWithinRange | tslearn/preprocessing.py:191-195 | every non-missing output lies in [lo, hi] |
| MinMaxScaling.MinMaxPreservesOrder | tslearn/preprocessing.py:191-195 | scaling keeps the order of the samples |
| MinMaxScaling.MinMaxOutputSpan | tslearn/preprocessing.py:191-195 | the scaled feature's nanmin is exactly lo and its nanmax exactly hi |
| MinMaxScaling.ScaledColumnIsFixed | tslearn/preprocessing.py:191-195 | a feature already spanning exactly [lo, hi] is unchanged |
| MinMaxScaling.MinMaxIdempotent | tslearn/preprocessing.py:191-195 | scaling twice with the same interval equals scaling once |
| MinMaxScaling.MinMaxColumnOfExtremes | tslearn/preprocessing.py:191-195 | given extremes mn != mx, the feature is mapped by the affine map they select |
| MinMaxScaling.DocExampleMinMax | tslearn/preprocessing.py:121-124 | value_range (1, 2) on [0, 3, 6] gives [1, 1.5, 2] |
| MinMaxScaling.DocExampleMinMaxMissing | tslearn/preprocessing.py:125-130 | value_range (1, 2) on [NaN, 3, 6] gives [NaN, 1, 2] |
| MinMaxScaling.TimeSeriesScalerMinMax.constructor | tslearn/preprocessing.py:132-135 | stores value_range, min and max; nothing is fitted yet |
| MinMaxScaling.TimeSeriesScalerMinMax.Fit | tslearn/preprocessing.py:137-152 | records the dataset's shape and returns the scaler itself |
| MinMaxScaling.TimeSeriesScalerMinMax.Transform | tslearn/preprocessing.py:154-196 | the warnings of the range resolution; then, in this order, InvalidValueRange when lo >= hi, NotFitted, DimensionMismatch, otherwise the scaled dataset |
| MeanVarianceScaling.StdDivisor | tslearn/preprocessing.py:271-272 | the divisor is never 0: a nonzero standard deviation is kept, otherwise it is 1 |
| MeanVarianceScaling.StdDev | tslearn/preprocessing.py:271 | the value numpy.nanstd computes: with a true square root it is non-negative and its square is the population variance |
| MeanVarianceScaling.StandardizingMap | tslearn/preprocessing.py:270-274 | the map divides by a nonzero divisor |
| MeanVarianceScaling.MeanVarianceColumn | tslearn/preprocessing.py:270-274 | the same length; NaN exactly where the input is NaN |
| MeanVarianceScaling.MeanVarianceScale | tslearn/preprocessing.py:269-274 | the output keeps the dataset's shape, and each cell is its series' feature standardised on its own |
| MeanVarianceScaling.PresentOfMeanVarianceColumn | tslearn/preprocessing.py:274 | the present outputs are the present inputs under the standardising map |
| MeanVarianceScaling.StandardizedMean | tslearn/preprocessing.py:270-274 | the non-missing outputs have mean exactly mu, whatever the square root computes |
| MeanVarianceScaling.StdZeroIffConstant | tslearn/preprocessing.py:271-272 | the standard deviation is 0 exactly when all present samples are equal |
| MeanVarianceScaling.ConstantColumnBecomesMu | tslearn/preprocessing.py:271-274 | a constant feature gets divisor 1, and every present output equals mu |
| MeanVarianceScaling.DividedByDeviation | tslearn/preprocessing.py:274 | dividing by a deviation whose square is the variance, and multiplying by std, gives variance std² |
| MeanVarianceScaling.StandardizedVariance | tslearn/preprocessing.py:270-274 | a non-constant feature comes out with variance std² |
| MeanVarianceScaling.StandardizedStd | tslearn/preprocessing.py:270-274 | with std >= 0, a non-constant feature comes out with standard deviation std |
| MeanVarianceScaling.MeanVariancePreservesOrder | tslearn/preprocessing.py:274 | with std > 0 the order of the samples is kept |
| MeanVarianceScaling.StatisticsOfExample | tslearn/preprocessing.py:222-226 | [0, 3, 6] has mean 3 and population variance 6 |
| MeanVarianceScaling.DocExampleMeanVariance | tslearn/preprocessing.py:222-226 | mu 0, std 1 on [0, 3, 6] gives [-s, 0, s] with s > 0 and s² = 1.5 (s = 1.22474487…) |
| MeanVarianceScaling.DocExampleMeanVarianceMissing | tslearn/preprocessing.py:227-231 | mu 0, std 1 on [NaN, 3, 6] gives [NaN, -1, 1] |
| MeanVarianceScaling.NanStd | tslearn/preprocessing.py:271 | numpy.nanstd of one feature: NaN iff no sample is present, else the root of the population variance |
| MeanVarianceScaling.ZeroGuard | tslearn/preprocessing.py:272 | after the guard an entry is never 0; nonzero entries and NaN are kept |
| MeanVarianceScaling.GuardedStdIsDivisor | tslearn/preprocessing.py:271-272 | the guarded nanstd is the divisor StdDivisor chooses |
| MeanVarianceScaling.StandardizeWithGuardedStd | tslearn/preprocessing.py:270-274 | dividing by the guarded table entry gives exactly MeanVarianceColumn |
| MeanVarianceScaling.StandardizeAll | tslearn/preprocessing.py:274 | the whole-array formula keeps the shape and scales each feature by its own table entry |
| MeanVarianceScaling.StandardizeWith | tslearn/preprocessing.py:274 | line 274 on one column, dividing by one `std_t` entry: same length, NaN exactly where the input is NaN |
| MeanVarianceScaling.StdTable | tslearn/preprocessing.py:271 | a fresh n_ts × d table whose entry i, di is nanstd of feature di of series i |
| MeanVarianceScaling.MaskZeroStd | tslearn/preprocessing.py:272 | in place, every entry equal to 0 becomes 1 and every other entry is kept |
| MeanVarianceScaling.TimeSeriesScalerMeanVariance.constructor | tslearn/preprocessing.py:233-235 | stores mu and std; nothing is fitted yet |
| MeanVarianceScaling.TimeSeriesScalerMeanVariance.Fit | tslearn/preprocessing.py:237-252 | records the dataset's shape and returns the scaler itself |
| MeanVarianceScaling.TimeSeriesScalerMeanVariance.Transform | tslearn/preprocessing.py:254-276 | NotFitted before Fit, DimensionMismatch on another feature count; otherwise the result computed through the masked table equals MeanVarianceScale |
| Resampling.Grid | tslearn/preprocessing.py:80 | numpy.linspace(0, 1, n): the k-th point lies in [0, 1] |
| Resampling.GridEnds | tslearn/preprocessing.py:80 | the grid starts at 0 and ends at 1 |
| Resampling.GridIncreasing | tslearn/preprocessing.py:84 | the grid is strictly increasing |
| Resampling.GridOrder | tslearn/preprocessing.py:84 | grid points are ordered like their indices, and equal only at the same index |
| Resampling.SegmentFrom | tslearn/preprocessing.py:84-86 | the interval search stops at the first segment whose right knot lies beyond x, or at the last one |
| Resampling.Segment | tslearn/preprocessing.py:84-86 | the segment picked for x in [0, 1] brackets x between its two knots |
| Resampling.Weight | tslearn/preprocessing.py:84-86 | inside its segment, x's relative position is in [0, 1] |
| Resampling.Interpolate | tslearn/preprocessing.py:84-86 | the `slinear` interpolant evaluated at one query point: never below the smallest sample nor above the largest; InterpolateOnSegment and InterpolateAtKnot pin its value |
| Resampling.LerpBetween | tslearn/preprocessing.py:84-86 | a point between two samples lies between them |
| Resampling.WeightAtKnots | tslearn/preprocessing.py:84-86 | the weight is 0 at a segment's left knot and 1 at its right one |
| Resampling.InterpolateOnSegment | tslearn/preprocessing.py:84-86 | on any segment containing x, the interpolant is the straight line between that segment's two samples |
| Resampling.InterpolateAtKnot | tslearn/preprocessing.py:84-86 | at every knot the interpolant reproduces the sample |
| Resampling.ResampleColumn | tslearn/preprocessing.py:80-86 | exactly sz outputs |
| Resampling.ResampleSameSize | tslearn/preprocessing.py:80-86 | resampling to the same number of points changes nothing |
| Resampling.ResampleEndpoints | tslearn/preprocessing.py:80-86 | the first output is the first valid sample, and for sz >= 2 the last output is the last valid sample |
| Resampling.ResampleBracketed | tslearn/preprocessing.py:80-86 | each output lies between the two samples bracketing its query point, hence between the smallest and largest sample |
| Resampling.Prefix | tslearn/preprocessing.py:84 | `X_[i, :sz, di]`: the first len samples, all present |
| Resampling.PrefixIgnoresPadding | tslearn/preprocessing.py:82-84 | columns agreeing on their first len steps give the same prefix: padding is never read |
| Resampling.ResampledFeature | tslearn/preprocessing.py:84-86 | one feature resampled from the valid prefix: sz values |
| Resampling.ValidLength | tslearn/preprocessing.py:76-82 | the per-series `sz`: the dataset's length when all valid lengths are equal, otherwise the series' own; either way the series' own length when the dataset is no wider than its series |
| Resampling.NanMean | tslearn/preprocessing.py:57 | numpy.nanmean of one feature: NaN iff all missing, otherwise between nanmin and nanmax |
| Resampling.DocExampleResample | tslearn/preprocessing.py:28-33 | [0, 3, 6] resampled to 5 points is [0, 1.5, 3, 4.5, 6] |
| Resampling.TimeSeriesResampler.constructor | tslearn/preprocessing.py:35-36 | stores the target size |
| Resampling.TimeSeriesResampler.Fit | tslearn/preprocessing.py:38-51 | returns the resampler itself |
| Resampling.TimeSeriesResampler.TransformUnitSz | tslearn/preprocessing.py:53-58 | a newly allocated (n_ts, sz, d) array whose every step holds, per feature, the series' nanmean |
| Resampling.TimeSeriesResampler.Transform | tslearn/preprocessing.py:60-87 | a newly allocated (n_ts, sz, d) array: with sz == 1, the nanmean broadcast; otherwise each feature interpolated from the series' valid length (t when all lengths are equal, its own otherwise) |
| Resampling.FillSeries | tslearn/preprocessing.py:83-86 | fills row i feature by feature with the resampled values, leaving every other row as it was |
| Resampling.FillFeature | tslearn/preprocessing.py:86 | `X_out[i, :, di] = f(xnew)`: writes the values into feature di of row i and leaves every other cell as it was |

## Left out

- Floating point. Values are exact reals, so rounding, overflow and IEEE infinities are not modelled.
  The zero-span MinMax case is NaN (`None`) in the model, as it is for the code (`0 / 0`).
- The square root inside `numpy.nanstd` is a parameter `sqrt`.
  - Lemmas that need it to be a square root require `IsSqrt`.
  - `StandardizedMean` does not need it.
- Library code is not part of this model. Where it matters, its effect is an input or a precondition.
  - `to_time_series_dataset` and `check_array`: the dataset is given already canonical, with its shape.
  - `ts_size`: the valid lengths are a parameter.
  - `check_equal_size`: modelled by `EqualSize` over those lengths.
  - `check_dims`: modelled as equality of the feature count (`CompatibleDims`).
  - `interp1d`: modelled by `Interpolate`, the piecewise-linear interpolant.
  - sklearn's `BaseEstimator`, `TransformerMixin` (so `fit_transform`) and `_get_tags`.
- Resampling.TimeSeriesResampler.Transform: for `sz != 1` it requires every series to have a valid length of at least 2, with no missing value before it.
  - With fewer than two valid steps, building the `slinear` interpolant (line 84) raises an error.
  - Interior NaNs propagate through `interp1d` in ways not modelled.
  - The model is silent on both.
- Resampling.TimeSeriesResampler.Transform: the `sz == 0` case keeps the same precondition, because the code still builds the interpolant before evaluating it at no point.
- MinMaxScaling.TimeSeriesScalerMinMax.Transform: deprecation warnings are returned as a list instead of being emitted through `warnings.warn`.
- Calling `transform` before `fit` raises `AttributeError` in the code. The model reports this as the `NotFitted` error.
- Default constructor arguments (`value_range=(0., 1.)`, `mu=0.`, `std=1.`) are not modelled: every argument is explicit.
