# Channel growth analysis: the series and statistics engine

This project models the numeric core of two React components of a YouTube
channel dashboard and proves properties of it in Dafny.

- **`VideoViewsChart`** (`video_views_chart.dfy`) covers the chart code. It
  takes the videos already sorted by publication date. It computes the
  trailing twelve-video moving average of the view counts, rounded the way
  `Math.round` rounds, and the running total of the views. If there are more
  than forty videos, it thins the labels and both series with the stride
  `ceil(n / 40)`, keeping the indices that are multiples of the stride. It
  finally picks the magnitude scale (`acHelper`) of each plotted series.
  - `MovingAverage` and `CumulativeViews` follow the JavaScript loops step by
    step. Each is proved equal to a specification function
    (`MovingAverages`, `RunningTotals`), and the lemmas about those
    functions state what the series mean.
  - `BuildChartData` runs the whole pipeline with the literal
    `i % step == 0` filter. It is proved equal to `PlottedChart`, which
    uses the skip-based `EveryStep`; `IndexFilterIsEveryStep` shows the two
    filters are equal.
- **`HypothesisChecker`** (`hypothesis_checker.dfy`) covers the hypothesis
  tester. It contains:
  - the `numberLabel` scale;
  - the split of the samples at a cutoff instant into a before segment and
    an after segment;
  - the mean and the unbiased sample variance of each segment;
  - Welch's t-test with Satterthwaite's degrees of freedom and its
    three-way verdict;
  - the choice of the message shown to the user.
- **`Arith`** (`arith.dfy`) holds helper lemmas for integer and real
  arithmetic. It does not model any source code.

Modelling choices:

- View counts are `nat`, timestamps are `int` instants, and means,
  variances and degrees of freedom are exact `real`s.
- `Math.round(x)` for the non-negative averages that occur here is
  `floor(x + 1/2)`. For a mean `s / len` this equals `(2s + len) div (2len)`
  (`RoundHalfUp`).
- `Math.sqrt` of the combined variance is a parameter `sd`, with
  `sd > 0 && sd * sd == combinedVar`.
- `jStat.studentt.inv` is a function parameter. The source calls it only at
  probability 0.975.
- The `null` that the t-test returns for short segments, and the `null`
  verdict held before the test has run, are `Option.None`. So is the
  message `result`, which stays `undefined` when no branch sets it.
- A one-sample variance divides by zero and is not a finite number (NaN
  when the mean is the one view count, +Infinity otherwise). The model
  gives `None` for it. With no sample, the code
  divides 0 by −1 and gets zero, so that case is `Some(0.0)`.
- `Math.max` of an empty series is −Infinity, which falls into the unit
  bracket. `AcHelper` reproduces this.

## Model

| member | source | states |
|---|---|---|
| HypothesisChecker.NumberLabel | src/components/HypothesisChecker.jsx:4-9 | the four brackets (below 1000, below 10^6, below 10^9, otherwise); for numbers in [1, 10^12) the divisor is at most the number and the scaled number is below 1000 |
| HypothesisChecker.NumberLabelMonotone | src/components/HypothesisChecker.jsx:4-9 | a larger number never gets a smaller divisor |
| HypothesisChecker.NumberLabelExamples | src/components/HypothesisChecker.jsx:4-9 | 2,500,000 maps to (10^6, "M"), 999 to (1, "") and 1000 to (1000, "K") |
| HypothesisChecker.Before | src/components/HypothesisChecker.jsx:77 | the before segment is no longer than the input and holds only samples dated before the cutoff |
| HypothesisChecker.After | src/components/HypothesisChecker.jsx:78 | the after segment is no longer than the input and holds only samples dated at or after the cutoff |
| HypothesisChecker.PartitionMembership | src/components/HypothesisChecker.jsx:77-78 | a sample is in the before segment iff it is an input sample dated before the cutoff, and in the after segment iff it is one dated at or after it |
| HypothesisChecker.PartitionIsTotal | src/components/HypothesisChecker.jsx:77-78 | the two segment lengths add up to the input length, and the two segments together are a permutation of the input: every sample lands in exactly one |
| HypothesisChecker.PartitionOfConcat | src/components/HypothesisChecker.jsx:77-78 | both filters distribute over concatenation, so each keeps the input's relative order |
| HypothesisChecker.BeforeOfConcat | src/components/HypothesisChecker.jsx:77 | the before filter of a concatenation is the concatenation of the before filters |
| HypothesisChecker.AfterOfConcat | src/components/HypothesisChecker.jsx:78 | the after filter of a concatenation is the concatenation of the after filters |
| HypothesisChecker.NothingBefore | src/components/HypothesisChecker.jsx:77-78 | when no sample is dated before the cutoff, the before segment is empty and the after segment is the whole input |
| HypothesisChecker.SortedTail | src/components/HypothesisChecker.jsx:41-46 | the tail of a date-sorted sequence is sorted, and no later sample is dated before its head |
| HypothesisChecker.SplitKeepsHead | src/components/HypothesisChecker.jsx:77-78 | if the tail splits into before followed by after, so does the data whose head is dated before the cutoff |
| HypothesisChecker.SplitAllAfter | src/components/HypothesisChecker.jsx:77-78 | if the head and the whole tail are at or after the cutoff, before followed by after is the data |
| HypothesisChecker.SortedPartitionIsSplit | src/components/HypothesisChecker.jsx:77-78 | on data sorted by date (line 46), the before segment followed by the after segment is exactly the data: the cutoff splits the sequence in two |
| HypothesisChecker.SumViews | src/components/HypothesisChecker.jsx:80 | the views total of no sample is 0, and no sample's views exceed the total |
| HypothesisChecker.MinViews | src/components/HypothesisChecker.jsx:80 | the least view count of a non-empty segment: some sample has it and none has fewer (the reference bound for the mean) |
| HypothesisChecker.MaxViews | src/components/HypothesisChecker.jsx:80 | the greatest view count of a non-empty segment: some sample has it and none has more (the reference bound for the mean) |
| HypothesisChecker.SumViewsBounds | src/components/HypothesisChecker.jsx:80 | the views total of a non-empty segment lies between length·min and length·max |
| HypothesisChecker.Avg | src/components/HypothesisChecker.jsx:80 | the mean of an empty segment is 0; that of a non-empty segment lies in [min, max] of its views |
| HypothesisChecker.MeanBounds | src/components/HypothesisChecker.jsx:80 | the exact quotient total / length of a non-empty segment lies in [min, max] |
| HypothesisChecker.SquaredDeviations | src/components/HypothesisChecker.jsx:81 | the sum of squared deviations is never negative |
| HypothesisChecker.Variance | src/components/HypothesisChecker.jsx:81 | None (not a finite number: NaN when the mean is the one view count, +Infinity otherwise) exactly for one sample; 0 for no sample; for two or more samples it is non-negative, and times n − 1 it gives the sum of squared deviations |
| HypothesisChecker.ConstantSum | src/components/HypothesisChecker.jsx:80 | a segment whose views are all v has total v·length |
| HypothesisChecker.ConstantDeviations | src/components/HypothesisChecker.jsx:81 | squared deviations from the common value of a constant segment sum to 0 |
| HypothesisChecker.ConstantSegment | src/components/HypothesisChecker.jsx:80-81 | a constant segment of at least two samples has mean v and variance 0 |
| HypothesisChecker.ExampleStatistics | src/components/HypothesisChecker.jsx:80-81 | [100, 200] has mean 150 and variance 5000; [1000, 1200] has mean 1100 and variance 20000 |
| HypothesisChecker.CombinedVar | src/components/HypothesisChecker.jsx:18 | for non-negative variances the combined variance is non-negative, and it is zero iff both variances are zero |
| HypothesisChecker.Verdict | src/components/HypothesisChecker.jsx:30-32 | the verdict is one of −1, 0, 1: 1 iff t > tCritical, −1 iff not and t < −tCritical, 0 in every remaining case |
| HypothesisChecker.VerdictTwoTailed | src/components/HypothesisChecker.jsx:30-32 | for tCritical ≥ 0: 1 iff t > tCritical, −1 iff t < −tCritical, 0 iff −tCritical ≤ t ≤ tCritical |
| HypothesisChecker.VerdictNegation | src/components/HypothesisChecker.jsx:30-32 | for tCritical > 0, negating t negates the verdict |
| HypothesisChecker.SatterthwaiteDf | src/components/HypothesisChecker.jsx:20-26 | the degrees of freedom are positive, and two segments of equal size n and equal variance get 2(n − 1) |
| HypothesisChecker.DfRatio | src/components/HypothesisChecker.jsx:20-26 | the ratio over the variance shares is positive, and equal shares over equal n − 1 give 2(n − 1) |
| HypothesisChecker.EqualShares | src/components/HypothesisChecker.jsx:20-26 | the denominator is positive, and equal shares over equal n − 1 give 2(n − 1) |
| HypothesisChecker.EqualSharesRatio | src/components/HypothesisChecker.jsx:20-26 | (a + a)² / (a²/p + a²/p) is 2p for a ≠ 0 |
| HypothesisChecker.TValue | src/components/HypothesisChecker.jsx:25 | t times the standard deviation gives back the difference of the means |
| HypothesisChecker.TValueNegation | src/components/HypothesisChecker.jsx:25 | negating the difference of the means negates t |
| HypothesisChecker.SatterthwaiteDfSwap | src/components/HypothesisChecker.jsx:18-26 | swapping the two segments keeps the combined variance non-zero and leaves df unchanged |
| HypothesisChecker.DfDenominatorPositive | src/components/HypothesisChecker.jsx:21-23 | Satterthwaite's denominator is positive when the variance shares are non-negative with non-zero sum |
| HypothesisChecker.WelchSatterthwaiteTtest | src/components/HypothesisChecker.jsx:11-35 | no result exactly when either segment has fewer than two samples; otherwise t is `TValue` of the difference of the means, so t·sd is that difference, df is Satterthwaite's ratio, tCritical is the inverse Student-t at 0.975 and df, and the result is the verdict of t against tCritical |
| HypothesisChecker.VerdictFollowsMeans | src/components/HypothesisChecker.jsx:17-32 | for tCritical ≥ 0, "better" implies the recent mean is higher, "worse" that it is lower, and equal means give "no difference" |
| HypothesisChecker.WelchSwapSymmetry | src/components/HypothesisChecker.jsx:17-32 | swapping the two segments leaves the combined variance, df and tCritical unchanged, negates t, and for tCritical > 0 negates the verdict (1 and −1 exchange, 0 stays) |
| HypothesisChecker.SatterthwaiteDfBounds | src/components/HypothesisChecker.jsx:18-26 | for non-negative variances not both zero, the degrees of freedom lie between the smaller of the two n − 1 and their sum |
| HypothesisChecker.DfRatioBounds | src/components/HypothesisChecker.jsx:20-26 | the same bounds for the ratio written over the two variance shares |
| HypothesisChecker.SatterthwaiteQuotientBounds | src/components/HypothesisChecker.jsx:20-26 | (a + b)² / (a²/p + b²/q) lies in [min(p, q), p + q] |
| HypothesisChecker.SatterthwaiteBounds | src/components/HypothesisChecker.jsx:20-23 | min(p, q)·(a²/p + b²/q) ≤ (a + b)² ≤ (p + q)·(a²/p + b²/q) |
| HypothesisChecker.SatterthwaiteLower | src/components/HypothesisChecker.jsx:20-23 | the lower half of those bounds |
| HypothesisChecker.SatterthwaiteUpper | src/components/HypothesisChecker.jsx:20-23 | the upper half of those bounds |
| HypothesisChecker.UpperIdentity | src/components/HypothesisChecker.jsx:20-23 | (p + q)(p x² + q y²) − (p x + q y)² = p q (x − y)², the identity behind the upper bound |
| HypothesisChecker.ExampleVerdict | src/components/HypothesisChecker.jsx:11-35 | for [100, 200] before and [1000, 1200] after, the verdict is "better" for any critical value below 8 |
| HypothesisChecker.InsufficientData | src/components/HypothesisChecker.jsx:92-100 | no error iff both segments have at least two samples; a short before segment is reported first; the after shortage is reported iff the before segment has at least two samples |
| HypothesisChecker.ResultMessage | src/components/HypothesisChecker.jsx:92-127 | an insufficient-data message wins; with no error, verdicts 1, −1 and 0 give the better, worse and no-difference messages, and any other state gives none |
| HypothesisChecker.Analyze | src/components/HypothesisChecker.jsx:77-127 | end to end on the sorted samples and a cutoff: "not enough before" when the before segment is short; "not enough after" iff the before segment is long enough and the after segment short; a verdict message iff both segments have at least two samples, and then "better", "worse" and "no difference" are exactly the t-test verdicts 1, −1 and 0 |
| VideoViewsChart.ViewsOf | src/components/VideoViewsChart.jsx:217 | the views series has one entry per video, the video's view count |
| VideoViewsChart.MinOf | src/components/VideoViewsChart.jsx:208-211 | the minimum of a non-empty series is an element of it and bounds every element from below |
| VideoViewsChart.MaxOf | src/components/VideoViewsChart.jsx:232 | the maximum of a non-empty series is an element of it and bounds every element from above |
| VideoViewsChart.SumDominates | src/components/VideoViewsChart.jsx:210 | the total of no value is 0, and no value exceeds the total |
| VideoViewsChart.SumBounds | src/components/VideoViewsChart.jsx:210 | the sum of a non-empty series lies between length·min and length·max |
| VideoViewsChart.SumOfConcat | src/components/VideoViewsChart.jsx:218-219 | the sum of a concatenation is the sum of the sums |
| VideoViewsChart.MathRound | src/components/VideoViewsChart.jsx:211 | the result is the integer nearest to x, with halves rounded up, and it is non-negative for non-negative x |
| VideoViewsChart.WindowStart | src/components/VideoViewsChart.jsx:208 | the window starts at or before i and holds min(i + 1, windowSize) values |
| VideoViewsChart.Window | src/components/VideoViewsChart.jsx:209 | the window is non-empty, holds at most windowSize values, and ends with the value at i |
| VideoViewsChart.RoundHalfUp | src/components/VideoViewsChart.jsx:210-211 | rounding the mean s / len is exactly the integer quotient (2s + len) div (2len) |
| VideoViewsChart.RoundedBetween | src/components/VideoViewsChart.jsx:210-211 | a total between n·lo and n·hi has its integer-rounded mean in [lo, hi] |
| VideoViewsChart.RoundedMeanBetween | src/components/VideoViewsChart.jsx:210-211 | the same for the rounded real mean |
| VideoViewsChart.RoundedMeanWithin | src/components/VideoViewsChart.jsx:210-211 | the rounded mean of a non-empty series lies between its minimum and its maximum |
| VideoViewsChart.MovingAverageAt | src/components/VideoViewsChart.jsx:208-211 | the moving average at i lies between the minimum and the maximum of its window |
| VideoViewsChart.MovingAverages | src/components/VideoViewsChart.jsx:205-215 | one average per value; the first is the first value; each lies between the minimum and the maximum of its window |
| VideoViewsChart.MovingAverageStart | src/components/VideoViewsChart.jsx:208-211 | the first moving average equals the first value (a corollary of the second ensures of `MovingAverages`, stated on its own for callers) |
| VideoViewsChart.MovingAverageOfConstant | src/components/VideoViewsChart.jsx:205-215 | a series holding one value throughout has that value as its moving average everywhere |
| VideoViewsChart.MovingAverageFormula | src/components/VideoViewsChart.jsx:207-211 | element i is (2s + len) div (2len), where s is the sum of the values from max(0, i − w + 1) to i and len is their count: a trailing window that shrinks at the start instead of padding |
| VideoViewsChart.MovingAverageWithinWindow | src/components/VideoViewsChart.jsx:208-211 | each moving average is at least one value and at most one value of the last windowSize values up to i |
| VideoViewsChart.MovingAverage | src/components/VideoViewsChart.jsx:205-215 | the loop returns one value per input value, and element i is the rounded mean of its trailing window (`MovingAverages`) |
| VideoViewsChart.RunningTotals | src/components/VideoViewsChart.jsx:218-219 | one running total per view count (`RunningTotalsStep` and `RunningTotalsEnd` state the values) |
| VideoViewsChart.PrefixSumGrows | src/components/VideoViewsChart.jsx:218-219 | a longer prefix never has a smaller sum |
| VideoViewsChart.PrefixSumStep | src/components/VideoViewsChart.jsx:219 | the prefix sum through index i is the prefix sum before i plus views[i] |
| VideoViewsChart.RunningTotalsGrow | src/components/VideoViewsChart.jsx:218-219 | the cumulative series never decreases |
| VideoViewsChart.RunningTotalsStep | src/components/VideoViewsChart.jsx:219 | each running total is the previous one (0 before the first) plus the current views |
| VideoViewsChart.RunningTotalsEnd | src/components/VideoViewsChart.jsx:218-219 | the last running total is the sum of all views |
| VideoViewsChart.CumulativeViews | src/components/VideoViewsChart.jsx:218-219 | the accumulating map returns one value per input value, and element i is the sum of the views up to and including i (`RunningTotals`) |
| VideoViewsChart.IndexFilter | src/components/VideoViewsChart.jsx:226-228 | the filter is never longer than the series, keeps the first element of a non-empty series, and with step 1 keeps everything |
| VideoViewsChart.IndexFilterKeepsMultiples | src/components/VideoViewsChart.jsx:226-228 | the `i % step == 0` filter keeps ceil(n / step) elements, and its k-th element is the element at index k·step |
| VideoViewsChart.EveryStepKeepsMultiples | src/components/VideoViewsChart.jsx:226-228 | the skip-based thinning keeps the same count and the same elements |
| VideoViewsChart.IndexFilterIsEveryStep | src/components/VideoViewsChart.jsx:226-228 | the index filter and the skip-based thinning are the same function |
| VideoViewsChart.EveryStepKeepsEveryMultiple | src/components/VideoViewsChart.jsx:226-228 | every index that is a multiple of step is kept, at position index / step |
| VideoViewsChart.EveryStepLength | src/components/VideoViewsChart.jsx:226-228 | the thinned length is ceil(n / step), a corollary of `EveryStepKeepsMultiples`; a non-empty series keeps its first element as element 0 of the thinning |
| VideoViewsChart.EveryStepSameLength | src/components/VideoViewsChart.jsx:226-228 | series of equal length are thinned to equal length |
| VideoViewsChart.EveryStepAt | src/components/VideoViewsChart.jsx:226-228 | the k-th kept element is the one at index k·step, in order |
| VideoViewsChart.EveryStepSorted | src/components/VideoViewsChart.jsx:226-228 | thinning a non-decreasing series keeps it non-decreasing |
| VideoViewsChart.EveryStepByOne | src/components/VideoViewsChart.jsx:224 | a stride of one changes nothing |
| VideoViewsChart.PlotStepCeiling | src/components/VideoViewsChart.jsx:225 | the stride is ceil(n / 40): for n > 0 it is at least one, 40·step covers n, and 40·(step − 1) does not |
| VideoViewsChart.PlotStepBounds | src/components/VideoViewsChart.jsx:225 | for n > 40 the stride ceil(n / 40) is at least 2 and keeps more than 20 and at most 40 points |
| VideoViewsChart.Stride | src/components/VideoViewsChart.jsx:224-225 | the stride is at least one |
| VideoViewsChart.PlottedCount | src/components/VideoViewsChart.jsx:224-229 | up to 40 videos every point is kept; beyond that, between 21 and 40 are |
| VideoViewsChart.AcHelper | src/components/VideoViewsChart.jsx:231-238 | an empty series gets the unit scale; otherwise the scale is that of numberLabel on the series maximum, with the same brackets |
| VideoViewsChart.AcHelperBounds | src/components/VideoViewsChart.jsx:231-238 | below 10^12, every value divided by the series divisor is below 1000, and the divisor never exceeds a positive maximum |
| VideoViewsChart.AcHelperMonotone | src/components/VideoViewsChart.jsx:231-238 | a series with no larger maximum gets no larger divisor |
| VideoViewsChart.Dates | src/components/VideoViewsChart.jsx:244 | one label per video, its date |
| VideoViewsChart.PlottedChart | src/components/VideoViewsChart.jsx:221-244 | the labels and both plotted series have one common length of at most 40; up to 40 videos they are the dates, the moving averages and the running totals unchanged; each scale is `acHelper` of its plotted series |
| VideoViewsChart.PlottedChartLengths | src/components/VideoViewsChart.jsx:224-244 | the labels and both plotted series have equal length: n up to 40 videos, between 21 and 40 beyond |
| VideoViewsChart.PlottedUnthinned | src/components/VideoViewsChart.jsx:224 | up to 40 videos the labels, the moving average and the running total are left unchanged |
| VideoViewsChart.PlottedLabelAt | src/components/VideoViewsChart.jsx:226 | label k is the date of video k·step |
| VideoViewsChart.PlottedMovingAverageAt | src/components/VideoViewsChart.jsx:221-227 | plotted point k of the moving average is the twelve-video moving average at video k·step |
| VideoViewsChart.PlottedCumulativeAt | src/components/VideoViewsChart.jsx:228 | plotted point k of the running total is the sum of the views of videos 0 through k·step |
| VideoViewsChart.ThinnedTotal | src/components/VideoViewsChart.jsx:228 | the same for any stride |
| VideoViewsChart.PlottedCumulativeGrows | src/components/VideoViewsChart.jsx:218-228 | the plotted running total never decreases |
| VideoViewsChart.BuildChartData | src/components/VideoViewsChart.jsx:217-244 | the pipeline (views, running total, moving average of 12, thinning, scales) yields exactly `PlottedChart` of the sorted videos |
| VideoViewsChart.MovingAverageExample | src/components/VideoViewsChart.jsx:205-215 | with window 3, the series 10, 20, 31, 40 averages to 10, 15, 20, 30; the mean 1.5 of 1, 2 rounds up to 2 |

## Left out

- Fetching the channel, its paginated search and the chunked statistics
  requests (`VideoViewsChart.jsx` 113-185) are network I/O against an
  external API. The model starts from the parsed, date-sorted videos.
- The random mock-data generators (`VideoViewsChart.jsx` 32-75) depend on
  `Math.random` and are never called.
- React state, effects, timers and the `hasRun` latch
  (`HypothesisChecker.jsx` 102-119) are UI lifecycle. `Analyze` models one
  render in which the test result, when computed, is shown.
- The `console.warn` and `console.log` diagnostics (`HypothesisChecker.jsx`
  13, 104-105, 113) are left out. They write to the console and change no
  value that the model computes.
- Presentation is left out: the chart.js datasets and options, the JSX, the
  CSS, the tick callbacks and every `toFixed` rendering
  (`HypothesisChecker.jsx` 137-150). These are floating-point string
  formatting.
- Calendar arithmetic for the cutoff (`HypothesisChecker.jsx` 52-75) is left
  out. So are `toLocaleDateString`/`toDateString` and `parseInt` of the API
  strings. These depend on Date and locale behaviour. The cutoff and the
  publication dates are opaque `int` instants, and views are parsed `nat`.
- The date sorts (`HypothesisChecker.jsx` 46, `VideoViewsChart.jsx` 197) are
  not modelled. Sortedness is a precondition of `SortedPartitionIsSplit`,
  and `BuildChartData` takes `sortedData` as given.
- `Math.sqrt` (`HypothesisChecker.jsx` 19) and `jStat.studentt.inv` (28) are
  parameters. `WelchSatterthwaiteTtest` requires `sd > 0 && sd * sd ==
  combinedVar`.
- Analyze: requires `StdDevFits`, which excludes two segments whose views
  are each constant (combined variance 0). There the JavaScript code gets
  t = ±Infinity (or NaN when the means are equal) and df = 0/0, a NaN, and
  the message depends on what jStat returns for a NaN df.
- WelchSatterthwaiteTtest: the case where both variances are zero is
  outside its precondition. There the code divides by a zero standard
  deviation and computes df as 0/0, a NaN.
- Double precision is not modelled. Sums, means, variances and df are
  exact, so the model cannot show rounding drift or the loss of precision
  of view totals above 2^53. These are floating-point effects.
- `Math.max(...views)` on very long arrays can exceed the engine's argument
  limit. This is an engine limit, not program logic.
- NaN dates and NaN view counts (a failed `parseInt`) are not
  representable. The types exclude them.
- MovingAverage: requires `windowSize >= 1`. The only call passes 12, and a
  zero window would give NaN averages.
- NumberLabel: on NaN, every comparison is false and the code returns the
  billions scale. A NaN never reaches numberLabel here, because the label
  is shown only when both segments have at least two samples.
