/** The growth-analysis engine of the hypothesis tester: the magnitude
    label, the before/after partition of the samples at a cutoff instant,
    the mean and sample variance of each segment, the Welch-Satterthwaite
    t-test and the selection of the message shown to the user.

    Timestamps are opaque integer instants, view counts are natural numbers
    and every statistic is an exact real; the square root and the inverse
    Student-t CDF are supplied by the caller. */
module HypothesisChecker {

  import opened Arith

  datatype Option<T> = None | Some(value: T)

  // ---------------------------------------------------------------------
  // Magnitude label (numberLabel)
  // ---------------------------------------------------------------------

  /** A presentation scale: the number is shown divided by `divisor`,
      followed by `suffix`. */
  datatype Scale = Scale(divisor: nat, suffix: string)

  const Units := Scale(1, "")
  const Thousands := Scale(1000, "K")
  const Millions := Scale(1000000, "M")
  const Billions := Scale(1000000000, "B")

  /** The scale used to print a magnitude in at most three integer digits
      (up to the billions, which have no larger bracket). */
  function NumberLabel(number: real): (r: Scale)
    ensures r in {Units, Thousands, Millions, Billions}
    ensures 1.0 <= number ==> r.divisor as real <= number
    ensures number < 1000000000000.0 ==> number < 1000.0 * r.divisor as real
    ensures r == Units <==> number < 1000.0
    ensures r == Thousands <==> 1000.0 <= number < 1000000.0
    ensures r == Millions <==> 1000000.0 <= number < 1000000000.0
    ensures r == Billions <==> 1000000000.0 <= number
  {
    if number < 1000.0 then Units
    else if number < 1000000.0 then Thousands
    else if number < 1000000000.0 then Millions
    else Billions
  }

  /** A larger magnitude never gets a smaller divisor. */
  lemma NumberLabelMonotone(x: real, y: real)
    requires x <= y
    ensures NumberLabel(x).divisor <= NumberLabel(y).divisor
  {
  }

  /** The two examples of the magnitude brackets. */
  lemma NumberLabelExamples()
    ensures NumberLabel(2500000.0) == Scale(1000000, "M")
    ensures NumberLabel(999.0) == Scale(1, "")
    ensures NumberLabel(1000.0) == Scale(1000, "K")
  {
  }

  // ---------------------------------------------------------------------
  // Samples and the before/after partition
  // ---------------------------------------------------------------------

  /** One video: its view count and its publication instant. */
  datatype Sample = Sample(views: nat, date: int)

  /** The samples published strictly before the cutoff, in input order. */
  function Before(data: seq<Sample>, cutoff: int): (r: seq<Sample>)
    ensures |r| <= |data|
    ensures forall x :: x in r ==> x.date < cutoff
  {
    if data == [] then []
    else (if data[0].date < cutoff then [data[0]] else []) + Before(data[1..], cutoff)
  }

  /** The samples published at or after the cutoff, in input order. */
  function After(data: seq<Sample>, cutoff: int): (r: seq<Sample>)
    ensures |r| <= |data|
    ensures forall x :: x in r ==> x.date >= cutoff
  {
    if data == [] then []
    else (if data[0].date >= cutoff then [data[0]] else []) + After(data[1..], cutoff)
  }

  /** A sample is in the before segment iff it is an input sample dated
      before the cutoff, and in the after segment iff it is one dated at or
      after it. */
  lemma {:induction false} PartitionMembership(data: seq<Sample>, cutoff: int, x: Sample)
    ensures x in Before(data, cutoff) <==> x in data && x.date < cutoff
    ensures x in After(data, cutoff) <==> x in data && x.date >= cutoff
  {
    if data != [] {
      PartitionMembership(data[1..], cutoff, x);
      assert data == [data[0]] + data[1..];
    }
  }

  /** Every sample lands in exactly one segment: the two segments together
      are the input, counted with multiplicity. */
  lemma {:induction false} PartitionIsTotal(data: seq<Sample>, cutoff: int)
    ensures |Before(data, cutoff)| + |After(data, cutoff)| == |data|
    ensures multiset(Before(data, cutoff)) + multiset(After(data, cutoff)) == multiset(data)
  {
    if data != [] {
      PartitionIsTotal(data[1..], cutoff);
      assert data == [data[0]] + data[1..];
    }
  }

  /** Both filters preserve relative order: partitioning a concatenation
      partitions each part in place. */
  lemma PartitionOfConcat(a: seq<Sample>, b: seq<Sample>, cutoff: int)
    ensures Before(a + b, cutoff) == Before(a, cutoff) + Before(b, cutoff)
    ensures After(a + b, cutoff) == After(a, cutoff) + After(b, cutoff)
  {
    BeforeOfConcat(a, b, cutoff);
    AfterOfConcat(a, b, cutoff);
  }

  lemma {:induction false} BeforeOfConcat(a: seq<Sample>, b: seq<Sample>, cutoff: int)
    ensures Before(a + b, cutoff) == Before(a, cutoff) + Before(b, cutoff)
  {
    if a == [] {
      assert a + b == b;
    } else {
      var head := if a[0].date < cutoff then [a[0]] else [];
      assert (a + b)[0] == a[0];
      assert (a + b)[1..] == a[1..] + b;
      BeforeOfConcat(a[1..], b, cutoff);
      assert Before(a + b, cutoff) == head + (Before(a[1..], cutoff) + Before(b, cutoff));
      assert Before(a, cutoff) == head + Before(a[1..], cutoff);
    }
  }

  lemma {:induction false} AfterOfConcat(a: seq<Sample>, b: seq<Sample>, cutoff: int)
    ensures After(a + b, cutoff) == After(a, cutoff) + After(b, cutoff)
  {
    if a == [] {
      assert a + b == b;
    } else {
      var head := if a[0].date >= cutoff then [a[0]] else [];
      assert (a + b)[0] == a[0];
      assert (a + b)[1..] == a[1..] + b;
      AfterOfConcat(a[1..], b, cutoff);
      assert After(a + b, cutoff) == head + (After(a[1..], cutoff) + After(b, cutoff));
      assert After(a, cutoff) == head + After(a[1..], cutoff);
    }
  }

  /** The input is sorted by ascending publication instant. */
  predicate SortedByDate(data: seq<Sample>)
  {
    forall i, j :: 0 <= i < j < |data| ==> data[i].date <= data[j].date
  }

  /** Samples all dated at or after the cutoff leave the before segment
      empty and the after segment whole. */
  lemma {:induction false} NothingBefore(data: seq<Sample>, cutoff: int)
    requires forall i :: 0 <= i < |data| ==> data[i].date >= cutoff
    ensures Before(data, cutoff) == [] && After(data, cutoff) == data
  {
    if data != [] {
      NothingBefore(data[1..], cutoff);
      assert data == [data[0]] + data[1..];
    }
  }

  /** The tail of a date-sorted sequence is date-sorted, and no later
      than its head. */
  lemma SortedTail(data: seq<Sample>)
    requires data != [] && SortedByDate(data)
    ensures SortedByDate(data[1..])
    ensures forall i :: 0 <= i < |data[1..]| ==> data[0].date <= data[1..][i].date
  {
    forall i, j | 0 <= i < j < |data[1..]|
      ensures data[1..][i].date <= data[1..][j].date
    {
      assert data[1..][i] == data[i + 1] && data[1..][j] == data[j + 1];
    }
    forall i | 0 <= i < |data[1..]|
      ensures data[0].date <= data[1..][i].date
    {
      assert data[1..][i] == data[i + 1];
    }
  }

  /** A head dated before the cutoff goes in front of the split of the tail. */
  lemma SplitKeepsHead(data: seq<Sample>, cutoff: int)
    requires data != [] && data[0].date < cutoff
    requires Before(data[1..], cutoff) + After(data[1..], cutoff) == data[1..]
    ensures Before(data, cutoff) + After(data, cutoff) == data
  {
    assert Before(data, cutoff) == [data[0]] + Before(data[1..], cutoff);
    assert After(data, cutoff) == After(data[1..], cutoff);
    assert data == [data[0]] + data[1..];
  }

  /** A head at or after the cutoff, followed by a tail that is all after
      it, leaves the before segment empty. */
  lemma SplitAllAfter(data: seq<Sample>, cutoff: int)
    requires data != [] && data[0].date >= cutoff
    requires Before(data[1..], cutoff) == [] && After(data[1..], cutoff) == data[1..]
    ensures Before(data, cutoff) + After(data, cutoff) == data
  {
    assert After(data, cutoff) == [data[0]] + data[1..];
    assert data == [data[0]] + data[1..];
  }

  /** On date-sorted samples the partition is a split: the before segment is
      a prefix, the after segment the rest. */
  lemma {:induction false} SortedPartitionIsSplit(data: seq<Sample>, cutoff: int)
    requires SortedByDate(data)
    ensures Before(data, cutoff) + After(data, cutoff) == data
  {
    if data != [] {
      SortedTail(data);
      if data[0].date < cutoff {
        SortedPartitionIsSplit(data[1..], cutoff);
        SplitKeepsHead(data, cutoff);
      } else {
        // every later sample is at or after the head, hence after the cutoff
        NothingBefore(data[1..], cutoff);
        SplitAllAfter(data, cutoff);
      }
    }
  }


  // ---------------------------------------------------------------------
  // Descriptive statistics (avg, variance)
  // ---------------------------------------------------------------------

  /** The total views of a segment; no sample has more views than the total. */
  function SumViews(seg: seq<Sample>): (r: nat)
    ensures seg == [] ==> r == 0
    ensures forall x :: x in seg ==> x.views <= r
  {
    if seg == [] then 0 else seg[0].views + SumViews(seg[1..])
  }

  /** The least view count of a non-empty segment: a sample has it, and no
      sample has fewer. */
  function MinViews(seg: seq<Sample>): (m: nat)
    requires seg != []
    ensures exists x :: x in seg && x.views == m
    ensures forall x :: x in seg ==> m <= x.views
  {
    assert seg == [seg[0]] + seg[1..];
    if |seg| == 1 then seg[0].views
    else var m := MinViews(seg[1..]); if seg[0].views < m then seg[0].views else m
  }

  /** The greatest view count of a non-empty segment: a sample has it, and
      no sample has more. */
  function MaxViews(seg: seq<Sample>): (m: nat)
    requires seg != []
    ensures exists x :: x in seg && x.views == m
    ensures forall x :: x in seg ==> x.views <= m
  {
    assert seg == [seg[0]] + seg[1..];
    if |seg| == 1 then seg[0].views
    else var m := MaxViews(seg[1..]); if seg[0].views > m then seg[0].views else m
  }

  /** The sum of a segment lies between |seg| times its minimum and |seg|
      times its maximum. */
  lemma {:induction false} SumViewsBounds(seg: seq<Sample>)
    requires seg != []
    ensures MinViews(seg) * |seg| <= SumViews(seg) <= MaxViews(seg) * |seg|
  {
    if |seg| > 1 {
      var rest := seg[1..];
      SumViewsBounds(rest);
      var lo, hi, v := MinViews(seg), MaxViews(seg), seg[0].views;
      assert lo <= v <= hi && lo <= MinViews(rest) && MaxViews(rest) <= hi;
      assert SumViews(seg) == v + SumViews(rest);
      BoundsStep(lo, hi, v, MinViews(rest), MaxViews(rest), SumViews(rest), |rest|);
    }
  }

  /** The mean number of views of a segment, 0 for an empty segment. */
  function Avg(seg: seq<Sample>): (r: real)
    ensures seg == [] ==> r == 0.0
    ensures seg != [] ==> MinViews(seg) as real <= r <= MaxViews(seg) as real
  {
    if |seg| == 0 then 0.0
    else
      MeanBounds(seg);
      SumViews(seg) as real / |seg| as real
  }

  lemma MeanBounds(seg: seq<Sample>)
    requires seg != []
    ensures var mean := SumViews(seg) as real / |seg| as real;
            MinViews(seg) as real <= mean <= MaxViews(seg) as real
  {
    var lo, hi, s, n := MinViews(seg), MaxViews(seg), SumViews(seg), |seg|;
    SumViewsBounds(seg);
    assert lo * n <= s <= hi * n;
    CastBounds(lo, hi, s, n);
  }

  /** The sum of squared deviations from `mean`. */
  function SquaredDeviations(seg: seq<Sample>, mean: real): (r: real)
    ensures r >= 0.0
  {
    if seg == [] then 0.0
    else
      var d := seg[0].views as real - mean;
      d * d + SquaredDeviations(seg[1..], mean)
  }

  /** The unbiased sample variance Σ(v − mean)² / (n − 1). With one sample
      the JavaScript code divides by zero and gets a number that is not
      finite (NaN when `mean` is the one view count, as it always is here,
      +Infinity otherwise), modelled as None; with no sample it divides 0
      by −1 and gets (negative) zero. */
  function Variance(seg: seq<Sample>, mean: real): (r: Option<real>)
    ensures r.None? <==> |seg| == 1
    ensures seg == [] ==> r == Some(0.0)
    ensures |seg| >= 2 ==> r.Some? && r.value >= 0.0
    ensures |seg| >= 2 ==> r.value * (|seg| - 1) as real == SquaredDeviations(seg, mean)
  {
    if |seg| == 1 then None
    else if seg == [] then Some(0.0)
    else Some(SquaredDeviations(seg, mean) / (|seg| - 1) as real)
  }

  /** A segment whose samples all have the same view count has that count as
      mean and no variance. */
  lemma {:induction false} ConstantSegment(seg: seq<Sample>, v: nat)
    requires |seg| >= 2
    requires forall i :: 0 <= i < |seg| ==> seg[i].views == v
    ensures Avg(seg) == v as real
    ensures Variance(seg, Avg(seg)) == Some(0.0)
  {
    ConstantSum(seg, v);
    ProductQuotient(v, |seg|);
    ConstantDeviations(seg, v);
  }

  lemma {:induction false} ConstantSum(seg: seq<Sample>, v: nat)
    requires forall i :: 0 <= i < |seg| ==> seg[i].views == v
    ensures SumViews(seg) == v * |seg|
  {
    if seg != [] {
      ConstantSum(seg[1..], v);
      assert seg[0].views == v;
      MulPred(|seg|, v);
    }
  }

  lemma {:induction false} ConstantDeviations(seg: seq<Sample>, v: nat)
    requires forall i :: 0 <= i < |seg| ==> seg[i].views == v
    ensures SquaredDeviations(seg, v as real) == 0.0
  {
    if seg != [] {
      ConstantDeviations(seg[1..], v);
      assert seg[0].views == v;
    }
  }

  /** The worked example: before = [100, 200] has mean 150 and variance
      5000; after = [1000, 1200] has mean 1100 and variance 20000. */
  lemma ExampleStatistics()
    ensures Avg([Sample(100, 0), Sample(200, 1)]) == 150.0
    ensures Variance([Sample(100, 0), Sample(200, 1)], 150.0) == Some(5000.0)
    ensures Avg([Sample(1000, 2), Sample(1200, 3)]) == 1100.0
    ensures Variance([Sample(1000, 2), Sample(1200, 3)], 1100.0) == Some(20000.0)
  {
    var b := [Sample(100, 0), Sample(200, 1)];
    assert b[1..][1..] == [];
    var a := [Sample(1000, 2), Sample(1200, 3)];
    assert a[1..][1..] == [];
  }

  // ---------------------------------------------------------------------
  // Welch-Satterthwaite t-test
  // ---------------------------------------------------------------------

  datatype TStats = TStats(tValue: real, df: real, tCritical: real)

  /** `result` is 1 (the recent videos do significantly better), −1
      (significantly worse) or 0 (no significant difference). */
  datatype TTest = TTest(result: int, stats: TStats)

  /** The variance of the difference of the two means. */
  function CombinedVar(prevCount: nat, prevVar: real, newCount: nat, newVar: real): (r: real)
    requires prevCount > 0 && newCount > 0
    ensures prevVar >= 0.0 && newVar >= 0.0 ==> r >= 0.0
    ensures prevVar >= 0.0 && newVar >= 0.0 ==> (r == 0.0 <==> prevVar == 0.0 && newVar == 0.0)
  {
    newVar / newCount as real + prevVar / prevCount as real
  }

  /** `sd` is the positive square root of a positive `combinedVar`: what
      the caller's Math.sqrt is trusted to return (the first conjunct
      follows from the other two and is kept for the solver). */
  predicate IsStdDev(sd: real, combinedVar: real)
  {
    combinedVar > 0.0 && sd > 0.0 && sd * sd == combinedVar
  }

  /** The three-way verdict comparing the t statistic with the critical
      value: 1 iff t exceeds it, otherwise −1 iff t lies below its negation,
      otherwise 0. */
  function Verdict(tValue: real, tCritical: real): (v: int)
    ensures v in {-1, 0, 1}
    ensures v == 1 <==> tValue > tCritical
    ensures v == -1 <==> !(tValue > tCritical) && tValue < -tCritical
    ensures v == 0 <==> !(tValue > tCritical) && !(tValue < -tCritical)
  {
    if tValue > tCritical then 1
    else if tValue < -tCritical then -1
    else 0
  }

  /** With a non-negative critical value the three verdicts are the two
      tails and the acceptance band of a two-tailed test. */
  lemma VerdictTwoTailed(tValue: real, tCritical: real)
    requires tCritical >= 0.0
    ensures Verdict(tValue, tCritical) == 1 <==> tValue > tCritical
    ensures Verdict(tValue, tCritical) == -1 <==> tValue < -tCritical
    ensures Verdict(tValue, tCritical) == 0 <==> -tCritical <= tValue <= tCritical
  {
  }

  /** With a positive critical value, negating the statistic flips 1 and −1
      and leaves 0 alone. */
  lemma VerdictNegation(tValue: real, tCritical: real)
    requires tCritical > 0.0
    ensures Verdict(-tValue, tCritical) == -Verdict(tValue, tCritical)
  {
  }

  /** Satterthwaite's denominator a²/p + b²/q is positive unless a and b
      are both zero. */
  lemma DfDenominatorPositive(a: real, b: real, p: real, q: real)
    requires p >= 1.0 && q >= 1.0 && a + b != 0.0
    ensures a * a / p + b * b / q > 0.0
  {
    SquareNonneg(a);
    SquareNonneg(b);
    QuotientNonneg(a, a, p);
    QuotientNonneg(b, b, q);
    if a != 0.0 {
      SquarePos(a);
      QuotientPos(a, a, p);
    } else {
      SquarePos(b);
      QuotientPos(b, b, q);
    }
  }

  /** Satterthwaite's approximation of the degrees of freedom of the
      difference of the two means. */
  function SatterthwaiteDf(prevCount: nat, prevVar: real, newCount: nat, newVar: real): (r: real)
    requires prevCount >= 2 && newCount >= 2
    requires CombinedVar(prevCount, prevVar, newCount, newVar) != 0.0
    ensures r > 0.0
    ensures prevCount == newCount && prevVar == newVar ==> r == 2.0 * (newCount - 1) as real
  {
    DfRatio(newVar / newCount as real, prevVar / prevCount as real,
            (newCount - 1) as real, (prevCount - 1) as real)
  }

  /** (a + b)² / (a²/p + b²/q), where a and b are each segment's variance
      divided by its count and p, q each count minus one. */
  function DfRatio(newShare: real, prevShare: real, newCountLess1: real, prevCountLess1: real): (r: real)
    requires newCountLess1 >= 1.0 && prevCountLess1 >= 1.0 && newShare + prevShare != 0.0
    ensures r > 0.0
    ensures newShare == prevShare && newCountLess1 == prevCountLess1 ==> r == 2.0 * newCountLess1
  {
    DfDenominatorPositive(newShare, prevShare, newCountLess1, prevCountLess1);
    SquarePos(newShare + prevShare);
    QuotientPos(newShare + prevShare, newShare + prevShare,
                newShare * newShare / newCountLess1 + prevShare * prevShare / prevCountLess1);
    EqualShares(newShare, prevShare, newCountLess1, prevCountLess1);
    // dfNumerator / (term1 + term2)
    (newShare + prevShare) * (newShare + prevShare)
      / (newShare * newShare / newCountLess1 + prevShare * prevShare / prevCountLess1)
  }

  /** The t statistic: the difference of the means in units of its
      standard deviation. */
  function TValue(deltaAvg: real, sd: real): (t: real)
    requires sd != 0.0
    ensures t * sd == deltaAvg
  {
    DivTimes(deltaAvg, sd);
    deltaAvg / sd
  }

  /** Negating the difference of the means negates the t statistic. */
  lemma TValueNegation(deltaAvg: real, sd: real)
    requires sd != 0.0
    ensures TValue(-deltaAvg, sd) == -TValue(deltaAvg, sd)
  {
  }

  /** Satterthwaite's degrees of freedom do not depend on which segment is
      called the earlier one. */
  lemma SatterthwaiteDfSwap(prevCount: nat, prevVar: real, newCount: nat, newVar: real)
    requires prevCount >= 2 && newCount >= 2
    requires CombinedVar(prevCount, prevVar, newCount, newVar) != 0.0
    ensures CombinedVar(newCount, newVar, prevCount, prevVar) != 0.0
    ensures SatterthwaiteDf(newCount, newVar, prevCount, prevVar)
            == SatterthwaiteDf(prevCount, prevVar, newCount, newVar)
  {
    var a, b := newVar / newCount as real, prevVar / prevCount as real;
    var p, q := (newCount - 1) as real, (prevCount - 1) as real;
    assert (b + a) * (b + a) == (a + b) * (a + b);
    assert b * b / q + a * a / p == a * a / p + b * b / q;
  }

  /** Two equal shares over equal counts give twice the count:
      (2a)² / (2a²/p) = 2p. */
  lemma EqualShares(a: real, b: real, p: real, q: real)
    requires a + b != 0.0 && p >= 1.0 && q >= 1.0
    ensures a * a / p + b * b / q > 0.0
    ensures a == b && p == q ==> (a + b) * (a + b) / (a * a / p + b * b / q) == 2.0 * p
  {
    DfDenominatorPositive(a, b, p, q);
    if a == b && p == q {
      EqualSharesRatio(a, p);
    }
  }

  lemma EqualSharesRatio(a: real, p: real)
    requires a != 0.0 && p >= 1.0
    ensures a * a / p + a * a / p > 0.0
    ensures (a + a) * (a + a) / (a * a / p + a * a / p) == 2.0 * p
  {
    var s := a * a;
    SquarePos(a);
    QuotientPos(a, a, p);
    var h := s / p;
    assert h * p == s;
    var den := h + h;
    assert den > 0.0;
    var num := (a + a) * (a + a);
    assert num == 4.0 * s;
    assert (2.0 * p) * den == 4.0 * (h * p);
    Cancel(num / den, 2.0 * p, den);
  }

  /** Welch's two-sample t-test with the Satterthwaite degrees of freedom.
      `sd` stands for Math.sqrt(combinedVar) and `studentTInv` for the
      inverse CDF of Student's t distribution, called at the 0.975 quantile
      (a two-tailed test at 95%). None when either segment has fewer than
      two samples. */
  function WelchSatterthwaiteTtest(prevData: seq<Sample>, prevVar: real, prevAvg: real,
                                   newData: seq<Sample>, newVar: real, newAvg: real,
                                   sd: real, studentTInv: (real, real) -> real): (r: Option<TTest>)
    requires |newData| >= 2 && |prevData| >= 2 ==>
               IsStdDev(sd, CombinedVar(|prevData|, prevVar, |newData|, newVar))
    ensures r.None? <==> |newData| < 2 || |prevData| < 2
    ensures r.Some? ==> r.value.stats.tValue == TValue(newAvg - prevAvg, sd)
    ensures r.Some? ==> r.value.stats.df == SatterthwaiteDf(|prevData|, prevVar, |newData|, newVar)
    ensures r.Some? ==> r.value.stats.tCritical == studentTInv(0.975, r.value.stats.df)
    ensures r.Some? ==> r.value.result == Verdict(r.value.stats.tValue, r.value.stats.tCritical)
  {
    if |newData| < 2 || |prevData| < 2 then None
    else
      var deltaAvg := newAvg - prevAvg;
      var df := SatterthwaiteDf(|prevData|, prevVar, |newData|, newVar);
      var tValue := TValue(deltaAvg, sd);
      var tCritical := studentTInv(0.975, df);
      Some(TTest(Verdict(tValue, tCritical), TStats(tValue, df, tCritical)))
  }

  /** A significant verdict agrees with the sign of the difference of the
      means: "better" means the recent mean is higher, "worse" lower. */
  lemma VerdictFollowsMeans(prevData: seq<Sample>, prevVar: real, prevAvg: real,
                            newData: seq<Sample>, newVar: real, newAvg: real,
                            sd: real, studentTInv: (real, real) -> real)
    requires |newData| >= 2 && |prevData| >= 2
    requires IsStdDev(sd, CombinedVar(|prevData|, prevVar, |newData|, newVar))
    ensures var r := WelchSatterthwaiteTtest(prevData, prevVar, prevAvg, newData, newVar, newAvg, sd, studentTInv);
            r.value.stats.tCritical >= 0.0 ==>
              (r.value.result == 1 ==> newAvg > prevAvg) &&
              (r.value.result == -1 ==> newAvg < prevAvg) &&
              (newAvg == prevAvg ==> r.value.result == 0)
  {
    var r := WelchSatterthwaiteTtest(prevData, prevVar, prevAvg, newData, newVar, newAvg, sd, studentTInv);
    var t := r.value.stats.tValue;
    assert t * sd == newAvg - prevAvg;
    if t > 0.0 { MulPos(t, sd); }
    if t < 0.0 { MulPos(-t, sd); }
  }

  /** Swapping the two segments leaves the combined variance, the degrees of
      freedom and the critical value unchanged, negates the t statistic and,
      for a positive critical value, flips 1 and −1 and keeps 0. */
  lemma WelchSwapSymmetry(prevData: seq<Sample>, prevVar: real, prevAvg: real,
                          newData: seq<Sample>, newVar: real, newAvg: real,
                          sd: real, studentTInv: (real, real) -> real)
    requires |newData| >= 2 && |prevData| >= 2
    requires IsStdDev(sd, CombinedVar(|prevData|, prevVar, |newData|, newVar))
    ensures CombinedVar(|newData|, newVar, |prevData|, prevVar)
            == CombinedVar(|prevData|, prevVar, |newData|, newVar)
    ensures var r := WelchSatterthwaiteTtest(prevData, prevVar, prevAvg, newData, newVar, newAvg, sd, studentTInv);
            var s := WelchSatterthwaiteTtest(newData, newVar, newAvg, prevData, prevVar, prevAvg, sd, studentTInv);
            && s.Some? && r.Some?
            && s.value.stats.df == r.value.stats.df
            && s.value.stats.tCritical == r.value.stats.tCritical
            && s.value.stats.tValue == -r.value.stats.tValue
            && (r.value.stats.tCritical > 0.0 ==> s.value.result == -r.value.result)
  {
    var r := WelchSatterthwaiteTtest(prevData, prevVar, prevAvg, newData, newVar, newAvg, sd, studentTInv);
    var s := WelchSatterthwaiteTtest(newData, newVar, newAvg, prevData, prevVar, prevAvg, sd, studentTInv);
    SatterthwaiteDfSwap(|prevData|, prevVar, |newData|, newVar);
    assert prevAvg - newAvg == -(newAvg - prevAvg);
    TValueNegation(newAvg - prevAvg, sd);
    if r.value.stats.tCritical > 0.0 {
      VerdictNegation(r.value.stats.tValue, r.value.stats.tCritical);
    }
  }

  /** For non-negative variances the Satterthwaite degrees of freedom lie
      between the smaller of n₁ − 1 and n₂ − 1, and n₁ + n₂ − 2. */
  lemma SatterthwaiteDfBounds(prevCount: nat, prevVar: real, newCount: nat, newVar: real)
    requires prevCount >= 2 && newCount >= 2
    requires prevVar >= 0.0 && newVar >= 0.0
    requires CombinedVar(prevCount, prevVar, newCount, newVar) != 0.0
    ensures var p := (newCount - 1) as real;
            var q := (prevCount - 1) as real;
            var df := SatterthwaiteDf(prevCount, prevVar, newCount, newVar);
            (if p < q then p else q) <= df <= p + q
  {
    QuotientNonneg(newVar, 1.0, newCount as real);
    QuotientNonneg(prevVar, 1.0, prevCount as real);
    DfRatioBounds(newVar / newCount as real, prevVar / prevCount as real,
                  (newCount - 1) as real, (prevCount - 1) as real);
  }

  lemma DfRatioBounds(a: real, b: real, p: real, q: real)
    requires a >= 0.0 && b >= 0.0 && a + b != 0.0 && p >= 1.0 && q >= 1.0
    ensures (if p < q then p else q) <= DfRatio(a, b, p, q) <= p + q
  {
    SatterthwaiteQuotientBounds(a, b, p, q);
  }

  lemma SatterthwaiteQuotientBounds(a: real, b: real, p: real, q: real)
    requires a >= 0.0 && b >= 0.0 && a + b != 0.0 && p >= 1.0 && q >= 1.0
    ensures a * a / p + b * b / q > 0.0
    ensures var k := if p < q then p else q;
            k <= (a + b) * (a + b) / (a * a / p + b * b / q) <= p + q
  {
    var k := if p < q then p else q;
    var num, den := (a + b) * (a + b), a * a / p + b * b / q;
    assert den > 0.0 by {
      DfDenominatorPositive(a, b, p, q);
    }
    assert k * den <= num <= (p + q) * den by {
      SatterthwaiteBounds(a, b, p, q);
    }
    DivideBounds(num, den, k, p + q);
  }


  /** The algebra behind the bounds: min(p, q)·den <= (a + b)² by dropping
      the cross term, and, with x = a/p and y = b/q,
      (p + q)·den − (a + b)² = p q (x − y)² >= 0, where den = a²/p + b²/q. */
  lemma SatterthwaiteBounds(a: real, b: real, p: real, q: real)
    requires a >= 0.0 && b >= 0.0 && p >= 1.0 && q >= 1.0
    ensures var k := if p < q then p else q;
            var den := a * a / p + b * b / q;
            k * den <= (a + b) * (a + b) <= (p + q) * den
  {
    SatterthwaiteLower(a, b, p, q);
    SatterthwaiteUpper(a, b, p, q);
  }

  lemma SatterthwaiteLower(a: real, b: real, p: real, q: real)
    requires a >= 0.0 && b >= 0.0 && p >= 1.0 && q >= 1.0
    ensures var k := if p < q then p else q;
            k * (a * a / p + b * b / q) <= (a + b) * (a + b)
  {
    var k := if p < q then p else q;
    MulNonneg(a, a);
    MulNonneg(b, b);
    MulNonneg(a, b);
    ShrinkQuotient(a, a, k, p);
    ShrinkQuotient(b, b, k, q);
    SquareOfSum(a, b);
    assert k * (a * a / p + b * b / q) == k * (a * a / p) + k * (b * b / q);
  }

  lemma SatterthwaiteUpper(a: real, b: real, p: real, q: real)
    requires a >= 0.0 && b >= 0.0 && p >= 1.0 && q >= 1.0
    ensures (a + b) * (a + b) <= (p + q) * (a * a / p + b * b / q)
  {
    var x := a / p;
    var y := b / q;
    ScaleQuotient(a, a, x, x, p);
    ScaleQuotient(b, b, y, y, q);
    UpperIdentity(x, y, p, q);
    WeightedSquare(p, q, x - y);
  }


  lemma UpperIdentity(x: real, y: real, p: real, q: real)
    ensures (p + q) * (p * (x * x) + q * (y * y)) - (p * x + q * y) * (p * x + q * y)
            == p * q * ((x - y) * (x - y))
  {
  }

  /** The worked example: with before = [100, 200] and after = [1000, 1200]
      the t statistic exceeds 8, so the verdict is "better" for any critical
      value below 8. */
  lemma ExampleVerdict(sd: real, studentTInv: (real, real) -> real)
    requires IsStdDev(sd, 12500.0)
    ensures var prev := [Sample(100, 0), Sample(200, 1)];
            var recent := [Sample(1000, 2), Sample(1200, 3)];
            var r := WelchSatterthwaiteTtest(prev, 5000.0, 150.0, recent, 20000.0, 1100.0, sd, studentTInv);
            r.value.stats.tCritical < 8.0 ==> r.value.result == 1
  {
    var prev := [Sample(100, 0), Sample(200, 1)];
    var recent := [Sample(1000, 2), Sample(1200, 3)];
    assert CombinedVar(|prev|, 5000.0, |recent|, 20000.0) == 12500.0;
    var r := WelchSatterthwaiteTtest(prev, 5000.0, 150.0, recent, 20000.0, 1100.0, sd, studentTInv);
    var t := r.value.stats.tValue;
    assert t * sd == 950.0;
    // 118.75² > 12500 = sd², so sd < 118.75 and t = 950 / sd > 8
    var c := 118.75;
    assert (c - sd) * (c + sd) == c * c - sd * sd;
    MulPos(c + sd, 1.0);
    assert c - sd > 0.0 by {
      var d := c - sd;
      var e := c + sd;
      assert d * e > 0.0 && e > 0.0;
      if d <= 0.0 { MulNonneg(-d, e); }
    }
    assert (t - 8.0) * sd == 950.0 - 8.0 * sd;
    assert t > 8.0 by {
      var u := t - 8.0;
      assert u * sd > 0.0;
      if u <= 0.0 { MulNonneg(-u, sd); }
    }
  }

  // ---------------------------------------------------------------------
  // Message selection
  // ---------------------------------------------------------------------

  /** The sentences the tester shows. */
  datatype Message =
    | NotEnoughBefore          // "not enough videos before <cutoff>"
    | NotEnoughAfter           // "not enough videos after <cutoff>"
    | SignificantlyBetter      // "performing significantly better at a 95% confidence level"
    | SignificantlyWorse       // "performing significantly worse at a 95% confidence level"
    | NoSignificantDifference  // "no significant difference ... at the 95% confidence level"

  /** The insufficient-data message; None when both segments have at least
      two samples (no error). The before segment is checked first. */
  function InsufficientData(prevCount: nat, newCount: nat): (r: Option<Message>)
    ensures r.None? <==> prevCount >= 2 && newCount >= 2
    ensures prevCount < 2 ==> r == Some(NotEnoughBefore)
    ensures r == Some(NotEnoughAfter) <==> prevCount >= 2 && newCount < 2
  {
    if prevCount < 2 then Some(NotEnoughBefore)
    else if newCount < 2 then Some(NotEnoughAfter)
    else None
  }

  /** The message rendered from the error state and the stored t-test result
      (None while the test has not run). Without an error a known verdict
      selects one of the three verdict sentences; otherwise no message. */
  function ResultMessage(prevCount: nat, newCount: nat, tTestResult: Option<int>): (r: Option<Message>)
    ensures InsufficientData(prevCount, newCount).Some? ==> r == InsufficientData(prevCount, newCount)
    ensures InsufficientData(prevCount, newCount).None? ==>
              (r == Some(SignificantlyBetter) <==> tTestResult == Some(1)) &&
              (r == Some(SignificantlyWorse) <==> tTestResult == Some(-1)) &&
              (r == Some(NoSignificantDifference) <==> tTestResult == Some(0)) &&
              (r.None? <==> !(tTestResult in {Some(1), Some(-1), Some(0)}))
  {
    var error := InsufficientData(prevCount, newCount);
    if error.Some? then error
    else if tTestResult == Some(1) then Some(SignificantlyBetter)
    else if tTestResult == Some(-1) then Some(SignificantlyWorse)
    else if tTestResult == Some(0) then Some(NoSignificantDifference)
    else None
  }

  /** The square root the caller must supply for one analysis: only needed
      when both segments are large enough for the test. */
  predicate StdDevFits(data: seq<Sample>, cutoff: int, sd: real)
  {
    var prevData := Before(data, cutoff);
    var newData := After(data, cutoff);
    |prevData| >= 2 && |newData| >= 2 ==>
      IsStdDev(sd, CombinedVar(|prevData|, Variance(prevData, Avg(prevData)).value,
                               |newData|, Variance(newData, Avg(newData)).value))
  }

  /** One complete analysis of date-stamped samples against a cutoff, as
      rendered once the test has run: partition, statistics, the
      insufficient-data guard, the t-test when there is no error, and the
      resulting message. */
  function Analyze(data: seq<Sample>, cutoff: int, sd: real, studentTInv: (real, real) -> real): (r: Message)
    requires StdDevFits(data, cutoff, sd)
    ensures |Before(data, cutoff)| < 2 ==> r == NotEnoughBefore
    ensures r == NotEnoughAfter <==> |Before(data, cutoff)| >= 2 && |After(data, cutoff)| < 2
    ensures r in {SignificantlyBetter, SignificantlyWorse, NoSignificantDifference} <==>
              |Before(data, cutoff)| >= 2 && |After(data, cutoff)| >= 2
    ensures var p, n := Before(data, cutoff), After(data, cutoff);
            |p| >= 2 && |n| >= 2 ==>
              var t := WelchSatterthwaiteTtest(p, Variance(p, Avg(p)).value, Avg(p),
                                               n, Variance(n, Avg(n)).value, Avg(n),
                                               sd, studentTInv).value.result;
              && (r == SignificantlyBetter <==> t == 1)
              && (r == SignificantlyWorse <==> t == -1)
              && (r == NoSignificantDifference <==> t == 0)
  {
    var prevData := Before(data, cutoff);
    var newData := After(data, cutoff);
    var prevAvg := Avg(prevData);
    var newAvg := Avg(newData);
    var prevVar := Variance(prevData, prevAvg);
    var newVar := Variance(newData, newAvg);
    var error := InsufficientData(|prevData|, |newData|);
    var tTestResult :=
      if error.Some? then None
      else Some(WelchSatterthwaiteTtest(prevData, prevVar.value, prevAvg,
                                        newData, newVar.value, newAvg, sd, studentTInv).value.result);
    var message := ResultMessage(|prevData|, |newData|, tTestResult);
    message.value
  }
}
