/** The series engine of the views chart: from the videos sorted by
    publication date it computes the rounded trailing moving average of the
    view counts, the running total of the views, thins all three series to
    at most forty plotted points, and picks the magnitude scale of each
    plotted series.

    View counts are natural numbers and the arithmetic is exact: the model
    does not reproduce the rounding of double-precision sums. */
module VideoViewsChart {

  import opened Arith
  import HypothesisChecker

  /** One video of the channel after sorting: its title, its view count and
      its publication date as the label shown on the chart axis. */
  datatype Video = Video(title: string, views: nat, date: string)

  /** The window of the moving average, in videos. */
  const MovingAverageWindow: nat := 12

  /** The most points plotted before the series are thinned. */
  const MaxPlotPoints: nat := 40

  /** The view counts, in the order of the videos. */
  function ViewsOf(videos: seq<Video>): (r: seq<nat>)
    ensures |r| == |videos|
    ensures forall i :: 0 <= i < |videos| ==> r[i] == videos[i].views
  {
    if videos == [] then [] else ViewsOf(videos[..|videos| - 1]) + [videos[|videos| - 1].views]
  }

  // ---------------------------------------------------------------------
  // Sum, minimum and maximum of a series
  // ---------------------------------------------------------------------

  /** The total of a series, adding one value at a time from the left. */
  function Sum(s: seq<nat>): nat
  {
    if s == [] then 0 else Sum(s[..|s| - 1]) + s[|s| - 1]
  }

  /** The least element. */
  function MinOf(s: seq<nat>): (m: nat)
    requires s != []
    ensures m in s
    ensures forall i :: 0 <= i < |s| ==> m <= s[i]
  {
    if |s| == 1 then s[0]
    else
      var m := MinOf(s[..|s| - 1]);
      assert forall i :: 0 <= i < |s| - 1 ==> s[..|s| - 1][i] == s[i];
      if s[|s| - 1] < m then s[|s| - 1] else m
  }

  /** The greatest element: `Math.max(...s)` on a non-empty series. */
  function MaxOf(s: seq<nat>): (m: nat)
    requires s != []
    ensures m in s
    ensures forall i :: 0 <= i < |s| ==> s[i] <= m
  {
    if |s| == 1 then s[0]
    else
      var m := MaxOf(s[..|s| - 1]);
      assert forall i :: 0 <= i < |s| - 1 ==> s[..|s| - 1][i] == s[i];
      if s[|s| - 1] > m then s[|s| - 1] else m
  }

  /** The sum of a non-empty series lies between |s| times its minimum and
      |s| times its maximum. */
  lemma {:induction false} SumBounds(s: seq<nat>)
    requires s != []
    ensures MinOf(s) * |s| <= Sum(s) <= MaxOf(s) * |s|
  {
    if |s| > 1 {
      var init := s[..|s| - 1];
      SumBounds(init);
      ScaleStep(MinOf(s), MinOf(init), |init|);
      ScaleStep(MaxOf(init), MaxOf(s), |init|);
    }
  }

  /** The total of no value is zero, and no value exceeds the total. */
  lemma {:induction false} SumDominates(s: seq<nat>)
    ensures s == [] ==> Sum(s) == 0
    ensures forall x :: x in s ==> x <= Sum(s)
  {
    if s != [] {
      var init := s[..|s| - 1];
      SumDominates(init);
      assert s == init + [s[|s| - 1]];
    }
  }

  /** Sum(a + b) == Sum(a) + Sum(b). */
  lemma {:induction false} SumOfConcat(a: seq<nat>, b: seq<nat>)
    ensures Sum(a + b) == Sum(a) + Sum(b)
  {
    if b != [] {
      assert (a + b)[..|a + b| - 1] == a + b[..|b| - 1];
      SumOfConcat(a, b[..|b| - 1]);
    } else {
      assert a + b == a;
    }
  }

  // ---------------------------------------------------------------------
  // Moving average
  // ---------------------------------------------------------------------

  /** `Math.round` on a non-negative value: the nearest integer, halves
      rounded up. */
  function MathRound(x: real): (r: int)
    ensures r as real - 0.5 <= x < r as real + 0.5
    ensures x >= 0.0 ==> r >= 0
  {
    (x + 0.5).Floor
  }

  /** The first index of the trailing window that ends at index i:
      max(0, i - windowSize + 1). */
  function WindowStart(i: nat, windowSize: nat): (r: nat)
    requires windowSize >= 1
    ensures r <= i
    ensures i + 1 - r == if i + 1 < windowSize then i + 1 else windowSize
  {
    if i + 1 < windowSize then 0 else i + 1 - windowSize
  }

  /** The last min(windowSize, i + 1) elements of arr up to index i. */
  function Window(arr: seq<nat>, windowSize: nat, i: nat): (r: seq<nat>)
    requires windowSize >= 1 && i < |arr|
    ensures r != [] && |r| <= windowSize
    ensures r[|r| - 1] == arr[i]
  {
    arr[WindowStart(i, windowSize)..i + 1]
  }

  /** The exact mean of the window ending at index i. */
  function WindowMean(arr: seq<nat>, windowSize: nat, i: nat): real
    requires windowSize >= 1 && i < |arr|
  {
    var w := Window(arr, windowSize, i);
    Sum(w) as real / |w| as real
  }

  /** Rounding the mean s / len half up is the integer division
      (2s + len) / (2len). */
  lemma RoundHalfUp(s: nat, len: nat)
    requires len > 0
    ensures (2 * s + len) / (2 * len) == MathRound(s as real / len as real)
  {
    FloorOfQuotient(2 * s + len, 2 * len);
    var S, L := s as real, len as real;
    var x := S / L;
    assert x * L == S;
    assert (x + 0.5) * (2.0 * L) == 2.0 * (x * L) + L;
    var y := (2.0 * S + L) / (2.0 * L);
    assert y * (2.0 * L) == 2.0 * S + L;
    Cancel(y, x + 0.5, 2.0 * L);
    assert (2 * s + len) as real / (2 * len) as real == y;
  }

  /** A total between n·lo and n·hi has its rounded mean in [lo, hi]. */
  lemma RoundedBetween(total: nat, n: nat, lo: nat, hi: nat)
    requires n > 0 && lo * n <= total <= hi * n
    ensures lo <= (2 * total + n) / (2 * n) <= hi
  {
    assert 2 * n * lo == 2 * (lo * n);
    assert 2 * n * (hi + 1) == 2 * (hi * n) + 2 * n;
    QuotientBetween(2 * total + n, 2 * n, lo, hi);
  }

  /** The same bounds for the rounded real mean. */
  lemma RoundedMeanBetween(total: nat, n: nat, lo: nat, hi: nat)
    requires n > 0 && lo * n <= total <= hi * n
    ensures lo <= MathRound(total as real / n as real) <= hi
  {
    RoundedBetween(total, n, lo, hi);
    RoundHalfUp(total, n);
  }

  /** The rounded mean of a non-empty series lies between its minimum and
      its maximum. */
  lemma RoundedMeanWithin(s: seq<nat>)
    requires s != []
    ensures MinOf(s) <= MathRound(Sum(s) as real / |s| as real) <= MaxOf(s)
  {
    SumBounds(s);
    RoundedMeanBetween(Sum(s), |s|, MinOf(s), MaxOf(s));
  }

  /** The moving average at index i: the window mean rounded half up. It
      never leaves the range of the values it averages. */
  function MovingAverageAt(arr: seq<nat>, windowSize: nat, i: nat): (r: nat)
    requires windowSize >= 1 && i < |arr|
    ensures MinOf(Window(arr, windowSize, i)) <= r <= MaxOf(Window(arr, windowSize, i))
  {
    RoundedMeanWithin(Window(arr, windowSize, i));
    MathRound(WindowMean(arr, windowSize, i))
  }

  /** The moving average of every index. */
  function MovingAverages(arr: seq<nat>, windowSize: nat): (r: seq<nat>)
    requires windowSize >= 1
    ensures |r| == |arr|
    ensures arr != [] ==> r[0] == arr[0]
    ensures forall i :: 0 <= i < |arr| ==>
              MinOf(Window(arr, windowSize, i)) <= r[i] <= MaxOf(Window(arr, windowSize, i))
  {
    assert arr != [] ==> Window(arr, windowSize, 0) == [arr[0]];
    seq(|arr|, i requires 0 <= i < |arr| => MovingAverageAt(arr, windowSize, i))
  }

  /** The first window holds only the first value, so the moving average
      starts at that value. */
  lemma MovingAverageStart(arr: seq<nat>, windowSize: nat)
    requires windowSize >= 1 && arr != []
    ensures MovingAverages(arr, windowSize)[0] == arr[0]
  {
    assert Window(arr, windowSize, 0) == [arr[0]];
  }

  /** A series that holds one value throughout averages to that value. */
  lemma MovingAverageOfConstant(arr: seq<nat>, windowSize: nat, c: nat)
    requires windowSize >= 1
    requires forall j :: 0 <= j < |arr| ==> arr[j] == c
    ensures MovingAverages(arr, windowSize) == seq(|arr|, _ => c)
  {
    forall i | 0 <= i < |arr|
      ensures MovingAverages(arr, windowSize)[i] == c
    {
      var w := Window(arr, windowSize, i);
      var a :| 0 <= a < |w| && w[a] == MinOf(w);
      var b :| 0 <= b < |w| && w[b] == MaxOf(w);
      assert w[a] == arr[WindowStart(i, windowSize) + a];
      assert w[b] == arr[WindowStart(i, windowSize) + b];
    }
  }

  /** Element i of the moving average in integer terms: with the window
      sum s and the window length len = i − max(0, i − windowSize + 1) + 1,
      it is (2s + len) div (2len). */
  lemma MovingAverageFormula(arr: seq<nat>, windowSize: nat, i: nat)
    requires windowSize >= 1 && i < |arr|
    ensures var len := i + 1 - WindowStart(i, windowSize);
            var s := Sum(arr[WindowStart(i, windowSize)..i + 1]);
            MovingAverages(arr, windowSize)[i] == (2 * s + len) / (2 * len)
  {
    var w := Window(arr, windowSize, i);
    RoundHalfUp(Sum(w), |w|);
  }

  /** Each moving average lies between the least and the greatest of the
      last windowSize values. */
  lemma MovingAverageWithinWindow(arr: seq<nat>, windowSize: nat, i: nat)
    requires windowSize >= 1 && i < |arr|
    ensures exists j :: WindowStart(i, windowSize) <= j <= i && arr[j] <= MovingAverages(arr, windowSize)[i]
    ensures exists j :: WindowStart(i, windowSize) <= j <= i && MovingAverages(arr, windowSize)[i] <= arr[j]
  {
    var w := Window(arr, windowSize, i);
    var lo, hi := MinOf(w), MaxOf(w);
    var s := WindowStart(i, windowSize);
    var a :| 0 <= a < |w| && w[a] == lo;
    var b :| 0 <= b < |w| && w[b] == hi;
    assert arr[s + a] == lo && arr[s + b] == hi;
  }

  /** The slice from start to i is the window ending at index i. */
  lemma WindowSlice(arr: seq<nat>, windowSize: nat, i: nat, start: int)
    requires windowSize >= 1 && i < |arr|
    requires start == if i - windowSize + 1 > 0 then i - windowSize + 1 else 0
    ensures 0 <= start <= i
    ensures arr[start..i + 1] == Window(arr, windowSize, i)
  {
  }

  /** The trailing moving average of the series: element i is the mean of
      the last min(windowSize, i + 1) values up to index i, rounded half up. */
  method MovingAverage(arr: seq<nat>, windowSize: nat) returns (result: seq<nat>)
    requires windowSize >= 1
    ensures |result| == |arr|
    ensures result == MovingAverages(arr, windowSize)
  {
    result := [];
    for i := 0 to |arr|
      invariant |result| == i
      invariant forall k :: 0 <= k < i ==> result[k] == MovingAverageAt(arr, windowSize, k)
    {
      var start := if i - windowSize + 1 > 0 then i - windowSize + 1 else 0;
      WindowSlice(arr, windowSize, i, start);
      var subset := arr[start..i + 1];
      var avg := Sum(subset) as real / |subset| as real;
      assert MathRound(avg) == MovingAverageAt(arr, windowSize, i);
      result := result + [MathRound(avg)];
    }
  }

  // ---------------------------------------------------------------------
  // Cumulative views
  // ---------------------------------------------------------------------

  /** The running total of every index: the sum of the values up to it. */
  function RunningTotals(views: seq<nat>): (r: seq<nat>)
    ensures |r| == |views|
  {
    seq(|views|, i requires 0 <= i < |views| => Sum(views[..i + 1]))
  }

  /** A longer prefix has a sum no smaller. */
  lemma PrefixSumGrows(views: seq<nat>, i: nat, j: nat)
    requires i <= j < |views|
    ensures Sum(views[..i + 1]) <= Sum(views[..j + 1])
  {
    assert views[..j + 1] == views[..i + 1] + views[i + 1..j + 1];
    SumOfConcat(views[..i + 1], views[i + 1..j + 1]);
  }

  /** The prefix sum up to index i adds views[i] to the one before it. */
  lemma PrefixSumStep(views: seq<nat>, i: nat)
    requires i < |views|
    ensures Sum(views[..i + 1]) == Sum(views[..i]) + views[i]
  {
    assert views[..i + 1][..i] == views[..i];
  }

  /** The running totals never decrease. */
  lemma RunningTotalsGrow(views: seq<nat>)
    ensures forall i, j :: 0 <= i <= j < |views| ==> RunningTotals(views)[i] <= RunningTotals(views)[j]
  {
    forall i, j | 0 <= i <= j < |views|
      ensures RunningTotals(views)[i] <= RunningTotals(views)[j]
    {
      PrefixSumGrows(views, i, j);
    }
  }

  /** The first running total is the first value, and each later one adds
      the next value to the one before: `cumulative += v`. */
  lemma RunningTotalsStep(views: seq<nat>, i: nat)
    requires i < |views|
    ensures RunningTotals(views)[i] == (if i == 0 then 0 else RunningTotals(views)[i - 1]) + views[i]
  {
    PrefixSumStep(views, i);
    if i == 0 {
      assert views[..0] == [];
    }
  }

  /** The last running total is the sum of all the views. */
  lemma RunningTotalsEnd(views: seq<nat>)
    requires views != []
    ensures RunningTotals(views)[|views| - 1] == Sum(views)
  {
    assert views[..|views|] == views;
  }

  /** The running total of the views, adding one value at a time. */
  method CumulativeViews(views: seq<nat>) returns (cumulativeViews: seq<nat>)
    ensures |cumulativeViews| == |views|
    ensures cumulativeViews == RunningTotals(views)
  {
    var cumulative := 0;
    cumulativeViews := [];
    for i := 0 to |views|
      invariant |cumulativeViews| == i
      invariant cumulative == Sum(views[..i])
      invariant forall k :: 0 <= k < i ==> cumulativeViews[k] == Sum(views[..k + 1])
    {
      assert views[..i + 1][..i] == views[..i];
      cumulative := cumulative + views[i];
      cumulativeViews := cumulativeViews + [cumulative];
    }
  }

  // ---------------------------------------------------------------------
  // Thinning to at most forty points
  // ---------------------------------------------------------------------

  /** The elements whose index is a multiple of step, in their order: the
      series filtered on `i % step == 0`. */
  function IndexFilter<T>(s: seq<T>, step: nat): (r: seq<T>)
    requires step >= 1
    ensures |r| <= |s|
    ensures s != [] ==> r != [] && r[0] == s[0]
    ensures step == 1 ==> r == s
  {
    if s == [] then []
    else
      assert s == s[..|s| - 1] + [s[|s| - 1]];
      IndexFilter(s[..|s| - 1], step) + (if (|s| - 1) % step == 0 then [s[|s| - 1]] else [])
  }

  /** The first element, then every step-th one after it. */
  function EveryStep<T>(s: seq<T>, step: nat): seq<T>
    requires step >= 1
  {
    if s == [] then []
    else if |s| <= step then [s[0]]
    else [s[0]] + EveryStep(s[step..], step)
  }

  /** ceil(n / step): how many indices below n are multiples of step. */
  function Multiples(n: nat, step: nat): nat
    requires step >= 1
  {
    (n + step - 1) / step
  }

  /** One more index adds one multiple of step exactly when the new index
      m is a multiple, and then m is the last multiple counted. */
  lemma CountStep(m: nat, step: nat)
    requires step >= 1
    ensures Multiples(m + 1, step) == Multiples(m, step) + (if m % step == 0 then 1 else 0)
    ensures m % step == 0 ==> Multiples(m, step) * step == m
  {
    var q, r := m / step, m % step;
    assert m == step * q + r && 0 <= r < step;
    MultiplesAround(q, r, step);
  }

  /** The counts of multiples around the index step·q + r. */
  lemma MultiplesAround(q: nat, r: nat, step: nat)
    requires step >= 1 && r < step
    ensures Multiples(step * q + r, step) == if r == 0 then q else q + 1
    ensures Multiples(step * q + r + 1, step) == q + 1
  {
    QuotientExact(step * q + r + step, step, q + 1);
    if r == 0 {
      QuotientExact(step * q + step - 1, step, q);
    } else {
      QuotientExact(step * q + r + step - 1, step, q + 1);
    }
  }

  /** Skipping step indices removes one multiple of step. */
  lemma MultiplesSkip(n: nat, step: nat)
    requires step >= 1 && n > step
    ensures Multiples(n, step) == Multiples(n - step, step) + 1
  {
    var q := Multiples(n - step, step);
    var a := n - step + step - 1;
    assert q == a / step;
    assert step * q <= a < step * q + step;
    QuotientExact(a + step, step, q + 1);
  }

  /** From one to step indices hold exactly one multiple of step: 0. */
  lemma MultiplesOne(n: nat, step: nat)
    requires 1 <= n <= step
    ensures Multiples(n, step) == 1
  {
    QuotientExact(n + step - 1, step, 1);
  }

  /** The filter keeps ceil(|s| / step) elements, the k-th being s[k * step]. */
  lemma {:induction false} IndexFilterKeepsMultiples<T>(s: seq<T>, step: nat)
    requires step >= 1
    ensures |IndexFilter(s, step)| == Multiples(|s|, step)
    ensures forall k :: 0 <= k < |IndexFilter(s, step)| ==>
              k * step < |s| && IndexFilter(s, step)[k] == s[k * step]
  {
    if s != [] {
      var m := |s| - 1;
      var init := s[..m];
      IndexFilterKeepsMultiples(init, step);
      CountStep(m, step);
      var d, di := IndexFilter(s, step), IndexFilter(init, step);
      assert d == di + (if m % step == 0 then [s[m]] else []);
      forall k | 0 <= k < |d|
        ensures k * step < |s| && d[k] == s[k * step]
      {
        if k < |di| {
          assert d[k] == di[k] && init[k * step] == s[k * step];
        } else {
          assert k == Multiples(m, step) && m % step == 0;
        }
      }
    }
  }

  /** EveryStep keeps the same elements: ceil(|s| / step) of them, the k-th
      being s[k * step]. */
  lemma {:induction false} EveryStepKeepsMultiples<T>(s: seq<T>, step: nat)
    requires step >= 1
    ensures |EveryStep(s, step)| == Multiples(|s|, step)
    ensures forall k :: 0 <= k < |EveryStep(s, step)| ==>
              k * step < |s| && EveryStep(s, step)[k] == s[k * step]
  {
    if s == [] {
      QuotientExact(step - 1, step, 0);
    } else if |s| <= step {
      MultiplesOne(|s|, step);
    } else {
      var rest := s[step..];
      EveryStepKeepsMultiples(rest, step);
      MultiplesSkip(|s|, step);
      var d, dr := EveryStep(s, step), EveryStep(rest, step);
      assert d == [s[0]] + dr;
      forall k | 0 <= k < |d|
        ensures k * step < |s| && d[k] == s[k * step]
      {
        if k > 0 {
          var j := (k - 1) * step;
          MulPred(k, step);
          assert d[k] == dr[k - 1] == rest[j] == s[j + step];
        }
      }
    }
  }

  /** Skipping ahead and filtering on the index give the same series. */
  lemma IndexFilterIsEveryStep<T>(s: seq<T>, step: nat)
    requires step >= 1
    ensures IndexFilter(s, step) == EveryStep(s, step)
  {
    IndexFilterKeepsMultiples(s, step);
    EveryStepKeepsMultiples(s, step);
  }

  /** Every index that is a multiple of step appears in the thinned series,
      at position index / step. */
  lemma EveryStepKeepsEveryMultiple<T>(s: seq<T>, step: nat, i: nat)
    requires step >= 1 && i < |s| && i % step == 0
    ensures i / step < |EveryStep(s, step)| && EveryStep(s, step)[i / step] == s[i]
  {
    var q := i / step;
    assert i == step * q;
    assert step * (q + 1) == i + step;
    QuotientAtLeast(|s| + step - 1, step, q + 1);
    EveryStepLength(s, step);
    EveryStepAt(s, step, q);
    assert q * step == i;
  }

  /** The length of the thinned series: ceil(|s| / step). */
  lemma EveryStepLength<T>(s: seq<T>, step: nat)
    requires step >= 1
    ensures |EveryStep(s, step)| == Multiples(|s|, step)
    ensures s != [] ==> EveryStep(s, step) != [] && EveryStep(s, step)[0] == s[0]
  {
    EveryStepKeepsMultiples(s, step);
  }

  /** Series of the same length are thinned to the same length. */
  lemma {:induction false} EveryStepSameLength<T, U>(s: seq<T>, t: seq<U>, step: nat)
    requires step >= 1 && |s| == |t|
    ensures |EveryStep(s, step)| == |EveryStep(t, step)|
  {
    if |s| > step {
      EveryStepSameLength(s[step..], t[step..], step);
    }
  }

  /** The k-th element of the thinned series is s[k * step]. */
  lemma EveryStepAt<T>(s: seq<T>, step: nat, k: nat)
    requires step >= 1 && k < |EveryStep(s, step)|
    ensures k * step < |s| && EveryStep(s, step)[k] == s[k * step]
  {
    EveryStepKeepsMultiples(s, step);
  }

  /** Thinning a non-decreasing series leaves it non-decreasing. */
  lemma EveryStepSorted(s: seq<nat>, step: nat)
    requires step >= 1
    requires forall i, j :: 0 <= i <= j < |s| ==> s[i] <= s[j]
    ensures forall k, l :: 0 <= k <= l < |EveryStep(s, step)| ==>
              EveryStep(s, step)[k] <= EveryStep(s, step)[l]
  {
    forall k, l | 0 <= k <= l < |EveryStep(s, step)|
      ensures EveryStep(s, step)[k] <= EveryStep(s, step)[l]
    {
      EveryStepAt(s, step, k);
      EveryStepAt(s, step, l);
      MulLe(k, l, step);
    }
  }

  /** A step of 1 keeps everything. */
  lemma EveryStepByOne<T>(s: seq<T>)
    ensures EveryStep(s, 1) == s
  {
    EveryStepKeepsMultiples(s, 1);
  }

  /** ceil(n / 40): the step that brings n points down to at most forty. */
  function PlotStep(n: nat): nat
  {
    (n + MaxPlotPoints - 1) / MaxPlotPoints
  }

  /** The step is the least one that brings n points down to forty:
      40·step covers n, and for n > 0, 40·(step − 1) does not. */
  lemma PlotStepCeiling(n: nat)
    ensures n > 0 ==> PlotStep(n) >= 1
    ensures 40 * PlotStep(n) >= n
    ensures n > 0 ==> 40 * (PlotStep(n) - 1) < n
  {
  }

  /** Over forty points, the step is at least 2 and leaves between 21 and 40
      points. */
  lemma PlotStepBounds(n: nat)
    requires n > MaxPlotPoints
    ensures PlotStep(n) >= 2
    ensures MaxPlotPoints / 2 < Multiples(n, PlotStep(n)) <= MaxPlotPoints
  {
    var st := PlotStep(n);
    assert n <= 40 * st <= n + 39;
    var a := n + st - 1;
    var c, r := a / st, a % st;
    assert a == st * c + r && 0 <= r < st;
    assert st * (c + 1) == st * c + st;
    MulLtCancel(c, 41, st);
    assert st * 20 < st * c + st by {
      assert st * 40 == 2 * (st * 20);
    }
    assert st * 20 < st * (c + 1);
    MulLtCancel(20, c + 1, st);
  }

  /** The step the chart actually uses: 1 up to forty points. */
  function Stride(n: nat): (r: nat)
    ensures r >= 1
  {
    if n > MaxPlotPoints then PlotStep(n) else 1
  }

  /** The number of points plotted from n videos. */
  lemma PlottedCount(n: nat)
    ensures n <= MaxPlotPoints ==> Multiples(n, Stride(n)) == n
    ensures n > MaxPlotPoints ==> MaxPlotPoints / 2 < Multiples(n, Stride(n)) <= MaxPlotPoints
  {
    if n > MaxPlotPoints {
      PlotStepBounds(n);
    }
  }

  // ---------------------------------------------------------------------
  // Magnitude of a plotted series
  // ---------------------------------------------------------------------

  /** The scale of the largest value of a series. An empty series has
      maximum minus infinity and so gets the unit scale. */
  function AcHelper(views: seq<nat>): (r: HypothesisChecker.Scale)
    ensures views == [] ==> r == HypothesisChecker.Units
    ensures views != [] ==> r == HypothesisChecker.NumberLabel(MaxOf(views) as real)
  {
    if views == [] then HypothesisChecker.Scale(1, "")
    else
      var max := MaxOf(views);
      if max < 1000 then HypothesisChecker.Scale(1, "")
      else if max < 1000000 then HypothesisChecker.Scale(1000, "K")
      else if max < 1000000000 then HypothesisChecker.Scale(1000000, "M")
      else HypothesisChecker.Scale(1000000000, "B")
  }

  /** Every value of a series, divided by the scale of the series, is below
      1000 unless it reaches the billions. */
  lemma AcHelperBounds(views: seq<nat>, i: nat)
    requires i < |views| && MaxOf(views) < 1000000000000
    ensures views[i] < 1000 * AcHelper(views).divisor
    ensures MaxOf(views) >= 1 ==> AcHelper(views).divisor <= MaxOf(views)
  {
  }

  /** A series whose maximum is no larger gets no larger a divisor. */
  lemma AcHelperMonotone(s: seq<nat>, t: seq<nat>)
    requires s != [] && t != [] && MaxOf(s) <= MaxOf(t)
    ensures AcHelper(s).divisor <= AcHelper(t).divisor
  {
    HypothesisChecker.NumberLabelMonotone(MaxOf(s) as real, MaxOf(t) as real);
  }

  // ---------------------------------------------------------------------
  // The chart series
  // ---------------------------------------------------------------------

  /** What the chart draws: one date label per plotted point, the two
      series, and the scale of each series. */
  datatype ChartData = ChartData(labels: seq<string>, movingAverage: seq<nat>,
                                 cumulative: seq<nat>,
                                 movingScale: HypothesisChecker.Scale,
                                 cumulativeScale: HypothesisChecker.Scale)

  /** The date labels of the videos. */
  function Dates(videos: seq<Video>): (r: seq<string>)
    ensures |r| == |videos|
    ensures forall i :: 0 <= i < |videos| ==> r[i] == videos[i].date
  {
    if videos == [] then [] else Dates(videos[..|videos| - 1]) + [videos[|videos| - 1].date]
  }

  /** The chart of the videos sorted by date: the twelve video moving
      average and the running total of the views, each thinned with the same
      step so that at most forty points remain, and the scale of each
      thinned series. */
  function PlottedChart(sortedData: seq<Video>): (r: ChartData)
    ensures |r.labels| == |r.movingAverage| == |r.cumulative| <= MaxPlotPoints
    ensures |sortedData| <= MaxPlotPoints ==>
              && r.labels == Dates(sortedData)
              && r.movingAverage == MovingAverages(ViewsOf(sortedData), MovingAverageWindow)
              && r.cumulative == RunningTotals(ViewsOf(sortedData))
    ensures r.movingScale == AcHelper(r.movingAverage) && r.cumulativeScale == AcHelper(r.cumulative)
  {
    PlottedChartLengths(sortedData);
    var moving, cumulative := PlottedMovingAverage(sortedData), PlottedCumulative(sortedData);
    var chart := ChartData(PlottedLabels(sortedData), moving, cumulative, AcHelper(moving), AcHelper(cumulative));
    if |sortedData| <= MaxPlotPoints then PlottedUnthinned(sortedData); chart else chart
  }


  /** The date labels of the plotted videos. */
  function PlottedLabels(sortedData: seq<Video>): seq<string>
  {
    EveryStep(Dates(sortedData), Stride(|sortedData|))
  }

  /** The plotted points of the twelve video moving average. */
  function PlottedMovingAverage(sortedData: seq<Video>): seq<nat>
  {
    EveryStep(MovingAverages(ViewsOf(sortedData), MovingAverageWindow), Stride(|sortedData|))
  }

  /** The plotted points of the running total of the views. */
  function PlottedCumulative(sortedData: seq<Video>): seq<nat>
  {
    EveryStep(RunningTotals(ViewsOf(sortedData)), Stride(|sortedData|))
  }

  /** The three plotted series have one point each per kept video: all of
      them up to forty videos, between 21 and 40 beyond. */
  lemma PlottedChartLengths(sortedData: seq<Video>)
    ensures var n := |PlottedLabels(sortedData)|;
            && n == |PlottedMovingAverage(sortedData)| == |PlottedCumulative(sortedData)|
            && (|sortedData| <= MaxPlotPoints ==> n == |sortedData|)
            && (|sortedData| > MaxPlotPoints ==> MaxPlotPoints / 2 < n <= MaxPlotPoints)
  {
    var views := ViewsOf(sortedData);
    var step := Stride(|sortedData|);
    EveryStepSameLength(Dates(sortedData), MovingAverages(views, MovingAverageWindow), step);
    EveryStepSameLength(Dates(sortedData), RunningTotals(views), step);
    EveryStepLength(Dates(sortedData), step);
    PlottedCount(|sortedData|);
  }

  /** Up to forty videos nothing is thinned: the chart shows every date,
      every moving average and every running total. */
  lemma PlottedUnthinned(sortedData: seq<Video>)
    requires |sortedData| <= MaxPlotPoints
    ensures PlottedLabels(sortedData) == Dates(sortedData)
    ensures PlottedMovingAverage(sortedData) == MovingAverages(ViewsOf(sortedData), MovingAverageWindow)
    ensures PlottedCumulative(sortedData) == RunningTotals(ViewsOf(sortedData))
  {
    EveryStepByOne(Dates(sortedData));
    EveryStepByOne(MovingAverages(ViewsOf(sortedData), MovingAverageWindow));
    EveryStepByOne(RunningTotals(ViewsOf(sortedData)));
  }

  /** Label k of the chart is the date of video k·step. */
  lemma PlottedLabelAt(sortedData: seq<Video>, k: nat)
    requires k < |PlottedLabels(sortedData)|
    ensures k * Stride(|sortedData|) < |sortedData|
    ensures PlottedLabels(sortedData)[k] == sortedData[k * Stride(|sortedData|)].date
  {
    EveryStepAt(Dates(sortedData), Stride(|sortedData|), k);
  }

  /** Point k of the plotted moving average is the moving average at video
      k·step. */
  lemma PlottedMovingAverageAt(sortedData: seq<Video>, k: nat)
    requires k < |PlottedMovingAverage(sortedData)|
    ensures k * Stride(|sortedData|) < |sortedData|
    ensures PlottedMovingAverage(sortedData)[k]
            == MovingAverageAt(ViewsOf(sortedData), MovingAverageWindow, k * Stride(|sortedData|))
  {
    EveryStepAt(MovingAverages(ViewsOf(sortedData), MovingAverageWindow), Stride(|sortedData|), k);
  }

  /** Point k of the plotted running total is the sum of the views of the
      videos up to video k·step. */
  lemma PlottedCumulativeAt(sortedData: seq<Video>, k: nat)
    requires k < |PlottedCumulative(sortedData)|
    ensures k * Stride(|sortedData|) < |sortedData| == |ViewsOf(sortedData)|
    ensures PlottedCumulative(sortedData)[k] == Sum(ViewsOf(sortedData)[..k * Stride(|sortedData|) + 1])
  {
    var views, step := ViewsOf(sortedData), Stride(|sortedData|);
    assert PlottedCumulative(sortedData) == EveryStep(RunningTotals(views), step);
    ThinnedTotal(views, step, k);
  }

  /** Point k of the running total thinned with any step is the total up to
      index k·step. */
  lemma ThinnedTotal(views: seq<nat>, step: nat, k: nat)
    requires step >= 1 && k < |EveryStep(RunningTotals(views), step)|
    ensures k * step < |views|
    ensures EveryStep(RunningTotals(views), step)[k] == Sum(views[..k * step + 1])
  {
    EveryStepAt(RunningTotals(views), step, k);
  }

  /** The plotted running total never decreases. */
  lemma PlottedCumulativeGrows(sortedData: seq<Video>)
    ensures var c := PlottedCumulative(sortedData);
            forall k, l :: 0 <= k <= l < |c| ==> c[k] <= c[l]
  {
    RunningTotalsGrow(ViewsOf(sortedData));
    EveryStepSorted(RunningTotals(ViewsOf(sortedData)), Stride(|sortedData|));
  }

  /** Computes the chart from the videos sorted by date. */
  method BuildChartData(sortedData: seq<Video>) returns (chart: ChartData)
    ensures chart == PlottedChart(sortedData)
  {
    var views := ViewsOf(sortedData);
    var cumulativeViews := CumulativeViews(views);
    var movingAvgViews := MovingAverage(views, MovingAverageWindow);
    var labels := Dates(sortedData);
    var step := Stride(|sortedData|);
    // the series are thinned to every step-th point
    IndexFilterIsEveryStep(labels, step);
    IndexFilterIsEveryStep(movingAvgViews, step);
    IndexFilterIsEveryStep(cumulativeViews, step);
    labels := IndexFilter(labels, step);
    movingAvgViews := IndexFilter(movingAvgViews, step);
    cumulativeViews := IndexFilter(cumulativeViews, step);
    chart := ChartData(labels, movingAvgViews, cumulativeViews,
                       AcHelper(movingAvgViews), AcHelper(cumulativeViews));
  }

  // ---------------------------------------------------------------------
  // A concrete series
  // ---------------------------------------------------------------------

  /** Windows of three over 10, 20, 31, 40: the first two windows are the
      prefixes, and the means 10, 15, 20.33…, 30.33… round to 10, 15, 20, 30;
      over 1, 2 the mean 1.5 rounds up to 2. */
  lemma MovingAverageExample()
    ensures MathRound(WindowMean([10, 20, 31, 40], 3, 0)) == 10
    ensures MathRound(WindowMean([10, 20, 31, 40], 3, 1)) == 15
    ensures MathRound(WindowMean([10, 20, 31, 40], 3, 2)) == 20
    ensures MathRound(WindowMean([10, 20, 31, 40], 3, 3)) == 30
    ensures MathRound(WindowMean([1, 2], 3, 1)) == 2
  {
    var a: seq<nat> := [10, 20, 31, 40];
    assert Window(a, 3, 0) == [10];
    assert Window(a, 3, 1) == [10, 20];
    assert Window(a, 3, 2) == [10, 20, 31];
    assert Window(a, 3, 3) == [20, 31, 40];
    assert [10, 20, 31][..2] == [10, 20] && [10, 20][..1] == [10];
    assert Sum([10, 20, 31]) == 61;
    assert [20, 31, 40][..2] == [20, 31] && [20, 31][..1] == [20];
    assert Sum([20, 31, 40]) == 91;
    RoundHalfUp(10, 1);
    RoundHalfUp(30, 2);
    RoundHalfUp(61, 3);
    RoundHalfUp(91, 3);
    assert Window([1, 2], 3, 1) == [1, 2] && [1, 2][..1] == [1];
    RoundHalfUp(3, 2);
  }
}
