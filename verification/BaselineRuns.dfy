/** What every run of folds keeps, from a pattern never folded before: the arithmetic
    mean is exact, and the EWMA mean stays positive and among the rates it folded. */
module BaselineRuns {
  import opened Stats
  import opened Patterns
  import opened Spike

  /** One tick's sightings and the time they are folded at. */
  datatype Tick = Tick(count: int, now: int)

  predicate Unlearned(p: Pattern)
  {
    p.count == 0 && p.baselineFrequency == 0.0 && p.baselineVariance == 0.0 && p.baselineAvg == 0.0 && p.seasonal == []
  }

  /** The learned fields after one Upsert. */
  function TickStep(f: BaselineFold, p: Pattern, t: Tick, alpha: real, sqrt: real -> real): Pattern
  {
    Folded(f, p.(count := p.count + t.count), t.count, alpha, t.now, p.count, sqrt)
  }

  function TickRun(f: BaselineFold, p: Pattern, ticks: seq<Tick>, alpha: real, sqrt: real -> real): Pattern
    decreases |ticks|
  {
    if ticks == [] then p else TickRun(f, TickStep(f, p, ticks[0], alpha, sqrt), ticks[1..], alpha, sqrt)
  }

  predicate Positive(ticks: seq<Tick>) { forall t <- ticks :: t.count > 0 }

  // ---- what was folded --------------------------------------------------------------------

  function Value(f: BaselineFold, t: Tick): real
  {
    if Legacy(f) then t.count as real else Rate(t.count, f.pollSeconds)
  }

  /** Whether this tick goes into the global mean. */
  predicate InMean(f: BaselineFold, p: Pattern, t: Tick, sqrt: real -> real)
  {
    Legacy(f) || !GlobalRejects(f, p, Value(f, t), p.count, sqrt)
  }

  /** Whether this tick goes into its hour's bucket. */
  predicate InBucket(f: BaselineFold, p: Pattern, t: Tick, sqrt: real -> real)
    requires f.seasonalPeriod > 0
  {
    !BucketRejects(f, BucketAt(f, p, t.now), Value(f, t), sqrt)
  }

  /** The sum and number of the rates the buckets accepted over a run. */
  function BucketSum(f: BaselineFold, p: Pattern, ticks: seq<Tick>, alpha: real, sqrt: real -> real): real
    requires f.seasonalPeriod > 0
    decreases |ticks|
  {
    if ticks == [] then 0.0
    else (if InBucket(f, p, ticks[0], sqrt) then Value(f, ticks[0]) else 0.0)
         + BucketSum(f, TickStep(f, p, ticks[0], alpha, sqrt), ticks[1..], alpha, sqrt)
  }

  function BucketTicks(f: BaselineFold, p: Pattern, ticks: seq<Tick>, alpha: real, sqrt: real -> real): nat
    requires f.seasonalPeriod > 0
    decreases |ticks|
  {
    if ticks == [] then 0
    else
      (if InBucket(f, p, ticks[0], sqrt) then 1 else 0)
      + BucketTicks(f, TickStep(f, p, ticks[0], alpha, sqrt), ticks[1..], alpha, sqrt)
  }

  // ---- the arithmetic mean is exact ---------------------------------------------------------

  lemma {:induction false} CountOfUpdate(buckets: seq<EWMA>, i: nat, b: EWMA)
    requires i < |buckets|
    ensures SeasonalCount(buckets[i := b]) == SeasonalCount(buckets) - buckets[i].count + b.count
  {
    var r := buckets[i := b];
    if i == |buckets| - 1 {
      assert r[..|r| - 1] == buckets[..|buckets| - 1];
    } else {
      CountOfUpdate(buckets[..|buckets| - 1], i, b);
      assert r[..|r| - 1] == buckets[..|buckets| - 1][i := b];
    }
  }

  lemma {:induction false} CountOfEmpty(buckets: seq<EWMA>)
    requires forall b <- buckets :: b.count == 0
    ensures SeasonalCount(buckets) == 0
  {
    if buckets != [] { CountOfEmpty(buckets[..|buckets| - 1]); }
  }

  lemma ResizedCount(buckets: seq<EWMA>, n: nat)
    requires buckets == [] || |buckets| == n
    ensures SeasonalCount(Resized(buckets, n)) == SeasonalCount(buckets)
  {
    if buckets == [] { CountOfEmpty(Resized(buckets, n)); } else { assert Resized(buckets, n) == buckets; }
  }

  /** The sum the arithmetic mean stands for. */
  function Total(p: Pattern): real { p.baselineAvg * SeasonalCount(p.seasonal) as real }

  /** The buckets after a tick, and the mean they imply. */
  lemma TickBuckets(f: BaselineFold, p: Pattern, t: Tick, alpha: real, sqrt: real -> real)
    requires f.seasonalPeriod > 0 && (p.seasonal == [] || |p.seasonal| == f.seasonalPeriod)
    ensures var r := TickStep(f, p, t, alpha, sqrt);
      && |r.seasonal| == f.seasonalPeriod
      && if InBucket(f, p, t, sqrt) then
           var n := SeasonalCount(p.seasonal) + 1;
           SeasonalCount(r.seasonal) == n && r.baselineAvg == p.baselineAvg + (Value(f, t) - p.baselineAvg) / n as real
         else SeasonalCount(r.seasonal) == SeasonalCount(p.seasonal) && r.baselineAvg == p.baselineAvg
  {
    var buckets, idx := Resized(p.seasonal, f.seasonalPeriod), SeasonalIndex(t.now, f.seasonalPeriod);
    ResizedCount(p.seasonal, f.seasonalPeriod);
    CountOfUpdate(buckets, idx, Observe(buckets[idx], Value(f, t), alpha));
  }

  /** One tick adds its rate to the sum, or nothing. */
  lemma TickKeepsSum(f: BaselineFold, p: Pattern, t: Tick, alpha: real, sqrt: real -> real)
    requires f.seasonalPeriod > 0 && (p.seasonal == [] || |p.seasonal| == f.seasonalPeriod)
    ensures Total(TickStep(f, p, t, alpha, sqrt)) == Total(p) + (if InBucket(f, p, t, sqrt) then Value(f, t) else 0.0)
  {
    TickBuckets(f, p, t, alpha, sqrt);
    if InBucket(f, p, t, sqrt) {
      TotalStep(p, TickStep(f, p, t, alpha, sqrt), Value(f, t));
    } else {
      SameTotal(p, TickStep(f, p, t, alpha, sqrt));
    }
  }

  lemma SameTotal(p: Pattern, r: Pattern)
    requires SeasonalCount(r.seasonal) == SeasonalCount(p.seasonal) && r.baselineAvg == p.baselineAvg
    ensures Total(r) == Total(p)
  {
  }

  lemma TotalStep(p: Pattern, r: Pattern, value: real)
    requires SeasonalCount(r.seasonal) == SeasonalCount(p.seasonal) + 1
    requires r.baselineAvg == p.baselineAvg + (value - p.baselineAvg) / (SeasonalCount(p.seasonal) + 1) as real
    ensures Total(r) == Total(p) + value
  {
    MeanStep(p.baselineAvg, value, SeasonalCount(p.seasonal) + 1);
  }

  lemma MeanStep(avg: real, value: real, n: int)
    requires n > 0
    ensures (avg + (value - avg) / n as real) * n as real == avg * (n - 1) as real + value
  {
    var m := n as real;
    QuotientTimes(value - avg, m);
    Distribute(avg, (value - avg) / m, m);
    Distribute(m - 1.0, 1.0, avg);
    assert (n - 1) as real == m - 1.0;
  }

  lemma QuotientTimes(d: real, m: real)
    requires m > 0.0
    ensures d / m * m == d
  {
  }

  lemma Distribute(a: real, b: real, m: real)
    ensures (a + b) * m == a * m + b * m
  {
  }

  lemma {:induction false} RunKeepsSum(f: BaselineFold, p: Pattern, ticks: seq<Tick>, alpha: real, sqrt: real -> real)
    requires f.seasonalPeriod > 0 && (p.seasonal == [] || |p.seasonal| == f.seasonalPeriod)
    ensures var r := TickRun(f, p, ticks, alpha, sqrt);
      && SeasonalCount(r.seasonal) == SeasonalCount(p.seasonal) + BucketTicks(f, p, ticks, alpha, sqrt)
      && Total(r) == Total(p) + BucketSum(f, p, ticks, alpha, sqrt)
    decreases |ticks|
  {
    if ticks != [] {
      TickBuckets(f, p, ticks[0], alpha, sqrt);
      TickKeepsSum(f, p, ticks[0], alpha, sqrt);
      RunKeepsSum(f, TickStep(f, p, ticks[0], alpha, sqrt), ticks[1..], alpha, sqrt);
    }
  }

  /** After any run from an unlearned pattern the average times the bucket counts is
      the sum of the rates the buckets accepted, and the counts are their number. */
  lemma AverageIsExact(f: BaselineFold, p: Pattern, ticks: seq<Tick>, alpha: real, sqrt: real -> real)
    requires f.seasonalPeriod > 0 && Unlearned(p)
    ensures var r := TickRun(f, p, ticks, alpha, sqrt);
      && Total(r) == BucketSum(f, p, ticks, alpha, sqrt)
      && SeasonalCount(r.seasonal) == BucketTicks(f, p, ticks, alpha, sqrt)
  {
    RunKeepsSum(f, p, ticks, alpha, sqrt);
    assert Total(p) == 0.0;
  }

  // ---- the mean stays among the folded rates, the variance non-negative ----------------------

  /** Every rate the global mean took lies between `lo` and `hi`. */
  predicate FoldedWithin(f: BaselineFold, p: Pattern, ticks: seq<Tick>, alpha: real, sqrt: real -> real, lo: real,
                         hi: real)
    decreases |ticks|
  {
    ticks == [] || ((InMean(f, p, ticks[0], sqrt) ==> lo <= Value(f, ticks[0]) <= hi)
                    && FoldedWithin(f, TickStep(f, p, ticks[0], alpha, sqrt), ticks[1..], alpha, sqrt, lo, hi))
  }

  predicate Between(p: Pattern, lo: real, hi: real)
  {
    lo <= p.baselineFrequency <= hi && p.baselineVariance >= 0.0
  }

  lemma Blend(a: real, x: real, y: real, lo: real, hi: real)
    requires 0.0 < a <= 1.0 && lo <= x <= hi && lo <= y <= hi
    ensures lo <= a * x + (1.0 - a) * y <= hi
  {
    Scaled(a, x - lo);
    Scaled(a, hi - x);
    Scaled(1.0 - a, y - lo);
    Scaled(1.0 - a, hi - y);
  }

  lemma Scaled(a: real, d: real)
    requires a >= 0.0 && d >= 0.0
    ensures a * d >= 0.0
  {
  }

  /** The variance West's step gives is not negative. */
  lemma WestNonNegative(w: real, d: real, alpha: real)
    requires 0.0 < alpha <= 1.0 && w >= 0.0
    ensures (1.0 - alpha) * (w + d * (alpha * d)) >= 0.0
  {
    assert d * (alpha * d) == alpha * (d * d);
    SquareNonNeg(d);
    Scaled(alpha, d * d);
    Scaled(1.0 - alpha, w + d * (alpha * d));
  }

  /** `r` has the mean and variance of `p` after a rate `v` is folded. */
  predicate Blended(p: Pattern, r: Pattern, v: real, alpha: real)
  {
    var d := v - p.baselineFrequency;
    || (r.baselineVariance == p.baselineVariance
        && r.baselineFrequency == alpha * v + (1.0 - alpha) * p.baselineFrequency)
    || (r.baselineVariance == (1.0 - alpha) * (p.baselineVariance + d * (alpha * d))
        && r.baselineFrequency == p.baselineFrequency + alpha * d)
  }

  /** The mean and variance after a tick. */
  lemma TickMean(f: BaselineFold, p: Pattern, t: Tick, alpha: real, sqrt: real -> real)
    ensures var r, v, m := TickStep(f, p, t, alpha, sqrt), Value(f, t), p.baselineFrequency;
      if m == 0.0 then
        r.baselineFrequency == v && (r.baselineVariance == 0.0 || r.baselineVariance == p.baselineVariance)
      else if !InMean(f, p, t, sqrt) then r.baselineFrequency == m && r.baselineVariance == p.baselineVariance
      else Blended(p, r, v, alpha)
  {
    if !Legacy(f) {
      FoldedGlobal(f, p.(count := p.count + t.count), t.count, alpha, t.now, p.count, sqrt);
      GlobalTick(f, p, t, alpha, sqrt);
    }
  }

  lemma GlobalTick(f: BaselineFold, p: Pattern, t: Tick, alpha: real, sqrt: real -> real)
    requires !Legacy(f)
    ensures var q := p.(count := p.count + t.count);
      var r := GlobalFold(f, q, Value(f, t), alpha, p.count, sqrt);
      if p.baselineFrequency == 0.0 then r.baselineFrequency == Value(f, t) && r.baselineVariance == 0.0
      else if !InMean(f, p, t, sqrt) then r == q
      else Blended(p, r, Value(f, t), alpha)
  {
    if p.baselineFrequency != 0.0 && InMean(f, p, t, sqrt) {
      FoldedMean(f, p.(count := p.count + t.count), Value(f, t), alpha, p.count, sqrt);
    }
  }

  lemma TickPositive(f: BaselineFold, t: Tick)
    requires t.count > 0
    ensures Value(f, t) > 0.0
  {
  }

  lemma TickKeepsBetween(f: BaselineFold, p: Pattern, t: Tick, alpha: real, sqrt: real -> real, lo: real, hi: real)
    requires 0.0 < alpha <= 1.0 && t.count > 0 && p.baselineVariance >= 0.0
    requires p.baselineFrequency == 0.0 || Between(p, lo, hi)
    requires InMean(f, p, t, sqrt) ==> lo <= Value(f, t) <= hi
    ensures Between(TickStep(f, p, t, alpha, sqrt), lo, hi)
  {
    TickMean(f, p, t, alpha, sqrt);
    if p.baselineFrequency != 0.0 && InMean(f, p, t, sqrt) {
      BlendBetween(p, TickStep(f, p, t, alpha, sqrt), Value(f, t), alpha, lo, hi);
    }
  }

  lemma BlendBetween(p: Pattern, r: Pattern, v: real, alpha: real, lo: real, hi: real)
    requires 0.0 < alpha <= 1.0 && Between(p, lo, hi) && lo <= v <= hi
    requires Blended(p, r, v, alpha)
    ensures Between(r, lo, hi)
  {
    Blend(alpha, v, p.baselineFrequency, lo, hi);
    WestNonNegative(p.baselineVariance, v - p.baselineFrequency, alpha);
    WestMean(alpha, v, p.baselineFrequency);
  }

  lemma WestMean(alpha: real, v: real, m: real)
    ensures m + alpha * (v - m) == alpha * v + (1.0 - alpha) * m
  {
  }

  lemma SquareNonNeg(d: real)
    ensures d * d >= 0.0
  {
  }

  lemma {:induction false} RunKeepsBetween(f: BaselineFold, p: Pattern, ticks: seq<Tick>, alpha: real,
                                           sqrt: real -> real, lo: real, hi: real)
    requires 0.0 < alpha <= 1.0 && Positive(ticks) && p.baselineVariance >= 0.0 && 0.0 < lo
    requires p.baselineFrequency == 0.0 || Between(p, lo, hi)
    requires FoldedWithin(f, p, ticks, alpha, sqrt, lo, hi)
    ensures ticks != [] ==> Between(TickRun(f, p, ticks, alpha, sqrt), lo, hi)
    decreases |ticks|
  {
    if ticks != [] {
      assert ticks[0] in ticks;
      TickKeepsBetween(f, p, ticks[0], alpha, sqrt, lo, hi);
      RunKeepsBetween(f, TickStep(f, p, ticks[0], alpha, sqrt), ticks[1..], alpha, sqrt, lo, hi);
    }
  }

  /** After any non-empty run from an unlearned pattern the mean lies between any bounds
      of the rates it folded, so it is positive, and the variance is not negative. */
  lemma MeanAmongFolded(f: BaselineFold, p: Pattern, ticks: seq<Tick>, alpha: real, sqrt: real -> real, lo: real,
                        hi: real)
    requires Unlearned(p) && ticks != [] && Positive(ticks) && 0.0 < alpha <= 1.0 && 0.0 < lo
    requires FoldedWithin(f, p, ticks, alpha, sqrt, lo, hi)
    ensures var r := TickRun(f, p, ticks, alpha, sqrt);
      lo <= r.baselineFrequency <= hi && r.baselineVariance >= 0.0
  {
    RunKeepsBetween(f, p, ticks, alpha, sqrt, lo, hi);
  }

  /** Bounds that any run lies within. */
  function Least(f: BaselineFold, ticks: seq<Tick>): (lo: real)
    requires ticks != [] && Positive(ticks)
    ensures lo > 0.0 && forall t <- ticks :: lo <= Value(f, t)
  {
    TickPositive(f, ticks[0]);
    if |ticks| == 1 then Value(f, ticks[0])
    else
      var m := Least(f, ticks[1..]);
      if Value(f, ticks[0]) < m then Value(f, ticks[0]) else m
  }

  function Greatest(f: BaselineFold, ticks: seq<Tick>): (hi: real)
    requires ticks != []
    ensures forall t <- ticks :: Value(f, t) <= hi
  {
    if |ticks| == 1 then Value(f, ticks[0])
    else
      var m := Greatest(f, ticks[1..]);
      if Value(f, ticks[0]) > m then Value(f, ticks[0]) else m
  }

  lemma {:induction false} AllWithin(f: BaselineFold, p: Pattern, ticks: seq<Tick>, alpha: real, sqrt: real -> real,
                                     lo: real, hi: real)
    requires forall t <- ticks :: lo <= Value(f, t) <= hi
    ensures FoldedWithin(f, p, ticks, alpha, sqrt, lo, hi)
    decreases |ticks|
  {
    if ticks != [] {
      assert ticks[0] in ticks;
      AllWithin(f, TickStep(f, p, ticks[0], alpha, sqrt), ticks[1..], alpha, sqrt, lo, hi);
    }
  }

  /** Zero means "unseeded" only once: after the first tick the mean is positive for good. */
  lemma SeededOnce(f: BaselineFold, p: Pattern, ticks: seq<Tick>, alpha: real, sqrt: real -> real)
    requires Unlearned(p) && ticks != [] && Positive(ticks) && 0.0 < alpha <= 1.0
    ensures TickRun(f, p, ticks, alpha, sqrt).baselineFrequency > 0.0
  {
    var lo, hi := Least(f, ticks), Greatest(f, ticks);
    AllWithin(f, p, ticks, alpha, sqrt, lo, hi);
    MeanAmongFolded(f, p, ticks, alpha, sqrt, lo, hi);
  }

  /** The bound on alpha is needed: a tick that folds into a seeded mean with a variance
      that is not negative leaves it negative exactly when alpha exceeds 1 and the rate is
      off the mean or there was a variance. */
  lemma VarianceNegativeIff(f: BaselineFold, p: Pattern, t: Tick, alpha: real, sqrt: real -> real)
    requires !Legacy(f) && alpha > 0.0 && p.baselineFrequency != 0.0 && p.baselineVariance >= 0.0
        && InMean(f, p, t, sqrt)
    ensures TickStep(f, p, t, alpha, sqrt).baselineVariance < 0.0
            <==> alpha > 1.0 && (Value(f, t) != p.baselineFrequency || p.baselineVariance > 0.0)
  {
    var q := p.(count := p.count + t.count);
    FoldedGlobal(f, q, t.count, alpha, t.now, p.count, sqrt);
    FoldedMean(f, q, Value(f, t), alpha, p.count, sqrt);
    WestSign(p.baselineVariance, Value(f, t) - p.baselineFrequency, alpha);
  }

  lemma WestSign(w: real, d: real, alpha: real)
    requires alpha > 0.0 && w >= 0.0
    ensures (1.0 - alpha) * (w + d * (alpha * d)) < 0.0 <==> alpha > 1.0 && (d != 0.0 || w > 0.0)
  {
    var y := d * (alpha * d);
    WeightedSquare(d, alpha, y);
    SignOfProduct(1.0 - alpha, w + y);
  }

  lemma WeightedSquare(d: real, alpha: real, y: real)
    requires alpha > 0.0 && y == d * (alpha * d)
    ensures y >= 0.0 && (y > 0.0 <==> d != 0.0)
  {
    if d > 0.0 {
      Positive2(alpha, d, alpha * d);
      Positive2(d, alpha * d, y);
    } else if d < 0.0 {
      assert alpha * -d == -(alpha * d) && -d * -(alpha * d) == y;
      Positive2(alpha, -d, -(alpha * d));
      Positive2(-d, -(alpha * d), y);
    }
  }

  lemma Positive2(a: real, b: real, c: real)
    requires a > 0.0 && b > 0.0 && c == a * b
    ensures c > 0.0
  {
  }

  lemma SignOfProduct(x: real, y: real)
    requires y >= 0.0
    ensures x * y < 0.0 <==> x < 0.0 && y > 0.0
  {
  }
}
