/** What the exponentially weighted means and variances are after any run: weighted means of
    the rates that were let in, hour by hour and overall. */
module BaselineEwma {
  import opened Stats
  import opened Patterns
  import opened Spike
  import opened BaselineRuns

  // ---- the reference ---------------------------------------------------------------------

  /** The exponentially weighted mean: the first value, then a share alpha of each further one. */
  function Weighted(values: seq<real>, alpha: real): real
  {
    if |values| == 0 then 0.0
    else if |values| == 1 then values[0]
    else (1.0 - alpha) * Weighted(values[..|values| - 1], alpha) + alpha * values[|values| - 1]
  }

  function Square(x: real): real { x * x }

  function Squares(values: seq<real>): seq<real>
  {
    if values == [] then []
    else Squares(values[..|values| - 1]) + [Square(values[|values| - 1])]
  }

  /** The weighted variance: the weighted mean of the squares less the square of the mean. */
  function WeightedVariance(values: seq<real>, alpha: real): real
  {
    Weighted(Squares(values), alpha) - Square(Weighted(values, alpha))
  }

  /** A mean and variance that stand for these values. */
  ghost predicate StandsFor(mean: real, variance: real, values: seq<real>, alpha: real)
  {
    mean == Weighted(values, alpha) && variance == WeightedVariance(values, alpha)
  }

  lemma WeightedMore(values: seq<real>, v: real, alpha: real)
    requires values != []
    ensures Weighted(values + [v], alpha) == (1.0 - alpha) * Weighted(values, alpha) + alpha * v
  {
    assert (values + [v])[..|values|] == values;
  }

  lemma SquaresMore(values: seq<real>, v: real)
    ensures Squares(values + [v]) == Squares(values) + [Square(v)] && (values != [] ==> Squares(values) != [])
  {
    assert (values + [v])[..|values|] == values;
  }

  /** West's step keeps the weighted mean of squares. */
  lemma WestSquares(m: real, w: real, q: real, v: real, alpha: real, m1: real, w1: real)
    requires w == q - Square(m) && m1 == m + alpha * (v - m)
    requires w1 == (1.0 - alpha) * (w + (v - m) * (alpha * (v - m)))
    ensures m1 == (1.0 - alpha) * m + alpha * v
    ensures w1 == ((1.0 - alpha) * q + alpha * Square(v)) - Square(m1)
  {
    var d := v - m;
    assert m1 * m1 == m * m + 2.0 * (alpha * (m * d)) + (alpha * alpha) * (d * d);
    assert w1 == (1.0 - alpha) * q - (1.0 - alpha) * (m * m) + (1.0 - alpha) * (alpha * (d * d)) by {
      assert d * (alpha * d) == alpha * (d * d);
    }
    assert v * v == m * m + 2.0 * (m * d) + d * d by { assert v == m + d; }
  }

  lemma WestObserves(m: real, w: real, q: real, n: nat, v: real, alpha: real, q1: real)
    requires n > 0 && w == q - Square(m) && q1 == (1.0 - alpha) * q + alpha * Square(v)
    ensures var e := Observe(EWMA(m, w, n), v, alpha);
      e.mean == (1.0 - alpha) * m + alpha * v && e.variance == q1 - Square(e.mean) && e.count == n + 1
  {
    var e := Observe(EWMA(m, w, n), v, alpha);
    WestSquares(m, w, q, v, alpha, e.mean, e.variance);
  }

  lemma SquaresBlend(values: seq<real>, v: real, alpha: real)
    requires values != []
    ensures Weighted(Squares(values + [v]), alpha)
        == (1.0 - alpha) * Weighted(Squares(values), alpha) + alpha * Square(v)
  {
    SquaresMore(values, v);
    WeightedMore(Squares(values), Square(v), alpha);
  }

  lemma StandsIf(m: real, w: real, q: real, values: seq<real>, alpha: real)
    requires m == Weighted(values, alpha) && q == Weighted(Squares(values), alpha) && w == q - Square(m)
    ensures StandsFor(m, w, values, alpha)
  {
  }

  /** Observing a value adds it to what a seeded mean and variance stand for. */
  lemma ObserveMore(m: real, w: real, n: nat, values: seq<real>, v: real, alpha: real)
    requires StandsFor(m, w, values, alpha) && values != [] && n > 0
    ensures var e := Observe(EWMA(m, w, n), v, alpha);
      StandsFor(e.mean, e.variance, values + [v], alpha) && e.count == n + 1
  {
    var e := Observe(EWMA(m, w, n), v, alpha);
    ObservedMoments(m, w, n, values, v, alpha, e);
    StandsIf(e.mean, e.variance, Weighted(Squares(values + [v]), alpha), values + [v], alpha);
  }

  lemma ObservedMoments(m: real, w: real, n: nat, values: seq<real>, v: real, alpha: real, e: EWMA)
    requires StandsFor(m, w, values, alpha) && values != [] && n > 0 && e == Observe(EWMA(m, w, n), v, alpha)
    ensures e.mean == Weighted(values + [v], alpha) && e.count == n + 1
    ensures e.variance == Weighted(Squares(values + [v]), alpha) - Square(e.mean)
  {
    ObservedMean(m, w, n, values, v, alpha);
    ObservedVariance(m, w, n, values, v, alpha, Weighted(Squares(values), alpha),
      Weighted(Squares(values + [v]), alpha));
  }

  lemma ObservedMean(m: real, w: real, n: nat, values: seq<real>, v: real, alpha: real)
    requires m == Weighted(values, alpha) && values != [] && n > 0
    ensures var e := Observe(EWMA(m, w, n), v, alpha); e.mean == Weighted(values + [v], alpha) && e.count == n + 1
  {
    WeightedMore(values, v, alpha);
    WestMean(alpha, v, m);
  }

  lemma ObservedVariance(m: real, w: real, n: nat, values: seq<real>, v: real, alpha: real, q: real, q1: real)
    requires n > 0 && values != [] && w == q - Square(m)
    requires q == Weighted(Squares(values), alpha) && q1 == Weighted(Squares(values + [v]), alpha)
    ensures var e := Observe(EWMA(m, w, n), v, alpha); e.variance == q1 - Square(e.mean)
  {
    SquaresBlend(values, v, alpha);
    WestObserves(m, w, q, n, v, alpha, q1);
  }

  lemma FirstValue(v: real, alpha: real)
    ensures StandsFor(v, 0.0, [v], alpha)
  {
    SquaresMore([], v);
    assert [] + [v] == [v] && [] + [Square(v)] == [Square(v)];
  }

  // ---- the hours --------------------------------------------------------------------------

  ghost predicate BucketStandsFor(b: EWMA, values: seq<real>, alpha: real)
  {
    b.count == |values| && (values != [] ==> StandsFor(b.mean, b.variance, values, alpha))
  }

  lemma BucketMore(b: EWMA, values: seq<real>, v: real, alpha: real)
    requires BucketStandsFor(b, values, alpha)
    ensures BucketStandsFor(Observe(b, v, alpha), values + [v], alpha)
  {
    if values == [] {
      FirstValue(v, alpha);
      assert values + [v] == [v];
    } else {
      ObserveMore(b.mean, b.variance, b.count, values, v, alpha);
    }
  }

  /** The rates the bucket of hour `h` let in over a run. */
  function HourRates(f: BaselineFold, p: Pattern, ticks: seq<Tick>, alpha: real, sqrt: real -> real, h: nat): seq<real>
    requires f.seasonalPeriod > 0
    decreases |ticks|
  {
    if ticks == [] then []
    else
      (if (ticks[0].now / 3600) % f.seasonalPeriod == h && InBucket(f, p, ticks[0], sqrt)
       then [Value(f, ticks[0])] else [])
      + HourRates(f, TickStep(f, p, ticks[0], alpha, sqrt), ticks[1..], alpha, sqrt, h)
  }

  /** A tick observes its rate in its own hour's bucket, unless that holds it out. */
  lemma TickHour(f: BaselineFold, p: Pattern, t: Tick, alpha: real, sqrt: real -> real, h: nat)
    requires h < f.seasonalPeriod
    ensures var r, b := TickStep(f, p, t, alpha, sqrt), Resized(p.seasonal, f.seasonalPeriod)[h];
      |r.seasonal| == f.seasonalPeriod
      && r.seasonal[h] == if (t.now / 3600) % f.seasonalPeriod == h && InBucket(f, p, t, sqrt)
          then Observe(b, Value(f, t), alpha)
                          else b
  {
  }

  /** Over every run each hour's bucket counts the rates it let in, and its mean and variance
      are their weighted mean and variance; no other hour's rates touch it. */
  lemma {:induction false} HoursAreWeighted(f: BaselineFold, p: Pattern, ticks: seq<Tick>, alpha: real,
                                            sqrt: real -> real,
                                            h: nat, before: seq<real>)
    requires h < f.seasonalPeriod && BucketStandsFor(Resized(p.seasonal, f.seasonalPeriod)[h], before, alpha)
    ensures BucketStandsFor(Resized(TickRun(f, p, ticks, alpha, sqrt).seasonal, f.seasonalPeriod)[h],
                            before + HourRates(f, p, ticks, alpha, sqrt, h), alpha)
    decreases |ticks|
  {
    if ticks == [] {
      assert before + [] == before;
    } else {
      var t, r := ticks[0], TickStep(f, p, ticks[0], alpha, sqrt);
      TickHour(f, p, t, alpha, sqrt, h);
      var mine := (t.now / 3600) % f.seasonalPeriod == h && InBucket(f, p, t, sqrt);
      var now := before + if mine then [Value(f, t)] else [];
      if mine {
        BucketMore(Resized(p.seasonal, f.seasonalPeriod)[h], before, Value(f, t), alpha);
      } else {
        assert now == before;
      }
      assert Resized(r.seasonal, f.seasonalPeriod) == r.seasonal;
      HoursAreWeighted(f, r, ticks[1..], alpha, sqrt, h, now);
      HourRatesMore(f, p, ticks, alpha, sqrt, h, before, now);
    }
  }

  lemma HourRatesMore(f: BaselineFold, p: Pattern, ticks: seq<Tick>, alpha: real, sqrt: real -> real, h: nat,
                      before: seq<real>, now: seq<real>)
    requires ticks != [] && f.seasonalPeriod > 0
    requires now == before + if (ticks[0].now / 3600) % f.seasonalPeriod == h && InBucket(f, p, ticks[0], sqrt)
                             then [Value(f, ticks[0])] else []
    ensures before + HourRates(f, p, ticks, alpha, sqrt, h)
         == now + HourRates(f, TickStep(f, p, ticks[0], alpha, sqrt), ticks[1..], alpha, sqrt, h)
  {
  }

  // ---- the global mean and variance ---------------------------------------------------------

  /** The rates the global mean took over a run. */
  function MeanRates(f: BaselineFold, p: Pattern, ticks: seq<Tick>, alpha: real, sqrt: real -> real): seq<real>
    decreases |ticks|
  {
    if ticks == [] then []
    else
      (if InMean(f, p, ticks[0], sqrt) then [Value(f, ticks[0])] else [])
      + MeanRates(f, TickStep(f, p, ticks[0], alpha, sqrt), ticks[1..], alpha, sqrt)
  }

  /** The pattern's mean and variance stand for these rates; it is unseeded when there are none. */
  ghost predicate MeanStandsFor(p: Pattern, values: seq<real>, alpha: real)
  {
    if values == [] then p.baselineFrequency == 0.0
    else p.baselineFrequency > 0.0 && StandsFor(p.baselineFrequency, p.baselineVariance, values, alpha)
  }

  lemma TickGlobal(f: BaselineFold, p: Pattern, t: Tick, alpha: real, sqrt: real -> real)
    requires !Legacy(f)
    ensures var r, v := TickStep(f, p, t, alpha, sqrt), Value(f, t);
      if p.baselineFrequency == 0.0 then InMean(f, p, t, sqrt) && r.baselineFrequency == v && r.baselineVariance == 0.0
      else if InMean(f, p, t, sqrt) then
        EWMA(r.baselineFrequency, r.baselineVariance, 3)
          == Observe(EWMA(p.baselineFrequency, p.baselineVariance, 2), v, alpha)
      else r.baselineFrequency == p.baselineFrequency && r.baselineVariance == p.baselineVariance
  {
    FoldedGlobal(f, p.(count := p.count + t.count), t.count, alpha, t.now, p.count, sqrt);
  }

  lemma MeanMore(f: BaselineFold, p: Pattern, t: Tick, alpha: real, sqrt: real -> real, values: seq<real>)
    requires !Legacy(f) && t.count > 0 && 0.0 < alpha <= 1.0 && MeanStandsFor(p, values, alpha)
    ensures MeanStandsFor(TickStep(f, p, t, alpha, sqrt),
                          values + if InMean(f, p, t, sqrt) then [Value(f, t)] else [], alpha)
  {
    var v := Value(f, t);
    TickGlobal(f, p, t, alpha, sqrt);
    TickPositive(f, t);
    if values == [] {
      FirstValue(v, alpha);
      assert values + [v] == [v];
    } else if InMean(f, p, t, sqrt) {
      var r := TickStep(f, p, t, alpha, sqrt);
      SeededMore(p.baselineFrequency, p.baselineVariance, values, v, alpha, r.baselineFrequency, r.baselineVariance);
    } else {
      assert values + [] == values;
    }
  }

  lemma SeededMore(m: real, w: real, values: seq<real>, v: real, alpha: real, m1: real, w1: real)
    requires StandsFor(m, w, values, alpha) && values != [] && m > 0.0 && v > 0.0 && 0.0 < alpha <= 1.0
    requires EWMA(m1, w1, 3) == Observe(EWMA(m, w, 2), v, alpha)
    ensures m1 > 0.0 && StandsFor(m1, w1, values + [v], alpha)
  {
    ObserveMore(m, w, 2, values, v, alpha);
    WestMean(alpha, v, m);
    BlendPositive(alpha, v, m);
  }

  lemma BlendPositive(alpha: real, v: real, m: real)
    requires 0.0 < alpha <= 1.0 && v > 0.0 && m > 0.0
    ensures (1.0 - alpha) * m + alpha * v > 0.0
  {
    assert alpha * v > 0.0;
    Scaled(1.0 - alpha, m);
  }

  /** Over every run from an unseeded mean, with at least one sighting a tick, the mean and
      variance are the weighted mean and variance of exactly the rates the gate let in. */
  lemma {:induction false} MeanIsWeighted(f: BaselineFold, p: Pattern, ticks: seq<Tick>, alpha: real,
                                          sqrt: real -> real,
                                          before: seq<real>)
    requires !Legacy(f) && Positive(ticks) && 0.0 < alpha <= 1.0 && MeanStandsFor(p, before, alpha)
    ensures MeanStandsFor(TickRun(f, p, ticks, alpha, sqrt), before + MeanRates(f, p, ticks, alpha, sqrt), alpha)
    decreases |ticks|
  {
    if ticks == [] {
      assert before + [] == before;
    } else {
      var t, r := ticks[0], TickStep(f, p, ticks[0], alpha, sqrt);
      assert t in ticks && forall x <- ticks[1..] :: x in ticks;
      var now := before + if InMean(f, p, t, sqrt) then [Value(f, t)] else [];
      MeanMore(f, p, t, alpha, sqrt, before);
      MeanIsWeighted(f, r, ticks[1..], alpha, sqrt, now);
      MeanRatesMore(f, p, ticks, alpha, sqrt, before, now);
    }
  }

  lemma MeanRatesMore(f: BaselineFold, p: Pattern, ticks: seq<Tick>, alpha: real, sqrt: real -> real, before: seq<real>,
                      now: seq<real>)
    requires ticks != [] && now == before + if InMean(f, p, ticks[0], sqrt) then [Value(f, ticks[0])] else []
    ensures before + MeanRates(f, p, ticks, alpha, sqrt)
         == now + MeanRates(f, TickStep(f, p, ticks[0], alpha, sqrt), ticks[1..], alpha, sqrt)
  {
  }

  // ---- what a tick is scored against ---------------------------------------------------------

  lemma {:induction false} RunKeepsMode(f: BaselineFold, p: Pattern, ticks: seq<Tick>, alpha: real, sqrt: real -> real)
    ensures TickRun(f, p, ticks, alpha, sqrt).spikeBaselineMode == p.spikeBaselineMode
    decreases |ticks|
  {
    if ticks != [] {
      StepKeepsMode(f, p, ticks[0], alpha, sqrt);
      RunKeepsMode(f, TickStep(f, p, ticks[0], alpha, sqrt), ticks[1..], alpha, sqrt);
    }
  }

  lemma StepKeepsMode(f: BaselineFold, p: Pattern, t: Tick, alpha: real, sqrt: real -> real)
    ensures TickStep(f, p, t, alpha, sqrt).spikeBaselineMode == p.spikeBaselineMode
  {
  }

  /** The rates a baseline stands for: mean and spread of their weighted mean and variance. */
  ghost predicate ScoresAgainst(b: Baseline, values: seq<real>, alpha: real, sqrt: real -> real)
  {
    values != [] && b.mean == Weighted(values, alpha)
    && b.std == sqrt(if WeightedVariance(values, alpha) < 0.0 then 0.0 else WeightedVariance(values, alpha))
  }

  /** After any run, in hour-of-day mode - the pattern's own, or the default one where it has
      none - a tick is scored against the rates of its hour once the bucket has enough of them;
      otherwise, and in every mode but average, against the rates of all hours. */
  lemma ScoredAgainstRates(f: BaselineFold, p: Pattern, ticks: seq<Tick>, alpha: real, ts: int, globalMode: Mode,
                           minBucketSamples: int, sqrt: real -> real)
    requires Unlearned(p) && ticks != [] && Positive(ticks) && 0.0 < alpha <= 1.0 && f.seasonalPeriod == 24
    requires minBucketSamples > 0
    requires p.spikeBaselineMode != "average" && !(p.spikeBaselineMode == "" && globalMode.ByAverage?)
    ensures var b := ResolveBaseline(TickRun(f, p, ticks, alpha, sqrt), ts, globalMode, minBucketSamples, sqrt);
      var hour := HourRates(f, p, ticks, alpha, sqrt, (ts / 3600) % 24);
      if (p.spikeBaselineMode == "time_of_day" || (p.spikeBaselineMode == "" && globalMode.ByTimeOfDay?))
         && |hour| >= minBucketSamples
      then ScoresAgainst(b, hour, alpha, sqrt)
      else ScoresAgainst(b, MeanRates(f, p, ticks, alpha, sqrt), alpha, sqrt)
  {
    var h, r := (ts / 3600) % 24, TickRun(f, p, ticks, alpha, sqrt);
    RunKeepsMode(f, p, ticks, alpha, sqrt);
    HoursAreWeighted(f, p, ticks, alpha, sqrt, h, []);
    MeanIsWeighted(f, p, ticks, alpha, sqrt, []);
    FirstIsIn(f, p, ticks, alpha, sqrt);
    RunHasBuckets(f, p, ticks, alpha, sqrt);
    assert [] + HourRates(f, p, ticks, alpha, sqrt, h) == HourRates(f, p, ticks, alpha, sqrt, h);
    assert [] + MeanRates(f, p, ticks, alpha, sqrt) == MeanRates(f, p, ticks, alpha, sqrt);
    ResolvedAgainst(f, r, alpha, ts, globalMode, minBucketSamples, sqrt, HourRates(f, p, ticks, alpha, sqrt, h),
                    MeanRates(f, p, ticks, alpha, sqrt));
  }

  lemma ResolvedAgainst(f: BaselineFold, r: Pattern, alpha: real, ts: int, globalMode: Mode, minBucketSamples: int,
                        sqrt: real -> real, hour: seq<real>, all: seq<real>)
    requires |r.seasonal| == 24 && BucketStandsFor(r.seasonal[(ts / 3600) % 24], hour, alpha) && minBucketSamples > 0
    requires all != [] && MeanStandsFor(r, all, alpha)
    requires r.spikeBaselineMode != "average" && !(r.spikeBaselineMode == "" && globalMode.ByAverage?)
    ensures var b := ResolveBaseline(r, ts, globalMode, minBucketSamples, sqrt);
      if (r.spikeBaselineMode == "time_of_day" || (r.spikeBaselineMode == "" && globalMode.ByTimeOfDay?))
         && |hour| >= minBucketSamples
      then ScoresAgainst(b, hour, alpha, sqrt)
      else ScoresAgainst(b, all, alpha, sqrt)
  {
    assert HourOf(ts) == (ts / 3600) % 24;
  }

  lemma FirstIsIn(f: BaselineFold, p: Pattern, ticks: seq<Tick>, alpha: real, sqrt: real -> real)
    requires p.baselineFrequency == 0.0 && ticks != []
    ensures MeanRates(f, p, ticks, alpha, sqrt) != []
  {
    assert InMean(f, p, ticks[0], sqrt);
  }

  lemma {:induction false} RunHasBuckets(f: BaselineFold, p: Pattern, ticks: seq<Tick>, alpha: real, sqrt: real -> real)
    requires f.seasonalPeriod > 0 && ticks != []
    ensures var seasonal := TickRun(f, p, ticks, alpha, sqrt).seasonal;
      |seasonal| == f.seasonalPeriod && Resized(seasonal, f.seasonalPeriod) == seasonal
    decreases |ticks|
  {
    var r := TickStep(f, p, ticks[0], alpha, sqrt);
    TickHour(f, p, ticks[0], alpha, sqrt, 0);
    if |ticks| == 1 {
      assert TickRun(f, r, ticks[1..], alpha, sqrt) == r;
    } else {
      RunHasBuckets(f, r, ticks[1..], alpha, sqrt);
    }
  }

  /** A plain mean of `n` rates with this sum. */
  predicate MeanOf(mean: real, n: nat, sum: real) { mean * n as real == sum }

  lemma AverageIsMean(f: BaselineFold, p: Pattern, ticks: seq<Tick>, alpha: real, sqrt: real -> real)
    requires f.seasonalPeriod > 0 && Unlearned(p)
    ensures MeanOf(TickRun(f, p, ticks, alpha, sqrt).baselineAvg, BucketTicks(f, p, ticks, alpha, sqrt),
                   BucketSum(f, p, ticks, alpha, sqrt))
  {
    AverageIsExact(f, p, ticks, alpha, sqrt);
    TotalIsMean(TickRun(f, p, ticks, alpha, sqrt), BucketTicks(f, p, ticks, alpha, sqrt),
                BucketSum(f, p, ticks, alpha, sqrt));
  }

  lemma TotalIsMean(r: Pattern, n: nat, sum: real)
    requires Total(r) == sum && SeasonalCount(r.seasonal) == n
    ensures MeanOf(r.baselineAvg, n, sum)
  {
  }

  /** In average mode it is scored against the plain mean of what all buckets let in, with the
      spread of the rates of all hours. */
  lemma AverageScoredAgainstMean(f: BaselineFold, p: Pattern, ticks: seq<Tick>, alpha: real, ts: int, globalMode: Mode,
                                 minBucketSamples: int, sqrt: real -> real)
    requires Unlearned(p) && ticks != [] && Positive(ticks) && 0.0 < alpha <= 1.0 && f.seasonalPeriod > 0
    requires p.spikeBaselineMode == "average" || (p.spikeBaselineMode == "" && globalMode.ByAverage?)
    ensures var b := ResolveBaseline(TickRun(f, p, ticks, alpha, sqrt), ts, globalMode, minBucketSamples, sqrt);
      MeanOf(b.mean, BucketTicks(f, p, ticks, alpha, sqrt), BucketSum(f, p, ticks, alpha, sqrt))
      && ScoresAgainst(Baseline(Weighted(MeanRates(f, p, ticks, alpha, sqrt), alpha), b.std),
                       MeanRates(f, p, ticks, alpha, sqrt), alpha, sqrt)
  {
    var r, all := TickRun(f, p, ticks, alpha, sqrt), MeanRates(f, p, ticks, alpha, sqrt);
    RunKeepsMode(f, p, ticks, alpha, sqrt);
    AverageIsMean(f, p, ticks, alpha, sqrt);
    MeanIsWeighted(f, p, ticks, alpha, sqrt, []);
    FirstIsIn(f, p, ticks, alpha, sqrt);
    assert [] + all == all;
    AverageBaseline(r, ts, globalMode, minBucketSamples, sqrt, BucketTicks(f, p, ticks, alpha, sqrt),
                    BucketSum(f, p, ticks, alpha, sqrt), all, alpha);
  }

  lemma AverageBaseline(r: Pattern, ts: int, globalMode: Mode, minBucketSamples: int, sqrt: real -> real, n: nat,
                        sum: real,
                        all: seq<real>, alpha: real)
    requires r.spikeBaselineMode == "average" || (r.spikeBaselineMode == "" && globalMode.ByAverage?)
    requires MeanOf(r.baselineAvg, n, sum) && all != [] && MeanStandsFor(r, all, alpha)
    ensures var b := ResolveBaseline(r, ts, globalMode, minBucketSamples, sqrt);
      MeanOf(b.mean, n, sum) && ScoresAgainst(Baseline(Weighted(all, alpha), b.std), all, alpha, sqrt)
  {
  }
}
