/** Runs from an unlearned pattern that end in a flagged tick which is folded all the same. */
module SpikeWitness {
  import opened Stats
  import opened Patterns
  import opened Spike
  import opened BaselineRuns

  const CATALOG := CatalogConfig(3.0, 0, 1, 5, 20, 100)

  /** One tick a second, the default knobs. */
  function Knobs(): SpikeParams { ResolveSpikeParams(CATALOG, 1.0) }

  const UNLEARNED := Pattern("p", "", "t", 0, 0, 0, 0.0, 0.0, 0.0, [], "", "", "", "", "s", [], [])

  const ALPHA: real := 0.2

  /** The learned fields of a pattern. */
  predicate Learned(p: Pattern, count: int, mean: real, variance: real, avg: real, buckets: map<nat, EWMA>)
  {
    && p.count == count && p.baselineFrequency == mean && p.baselineVariance == variance && p.baselineAvg == avg
    && p.spikeBaselineMode == "" && |p.seasonal| == HOURS_PER_DAY
    && forall h: nat :: h < HOURS_PER_DAY ==> p.seasonal[h] == if h in buckets then buckets[h] else EWMA(0.0, 0.0, 0)
  }

  lemma {:induction false} CountOne(bs: seq<EWMA>, h: nat)
    requires h < |bs| && forall i :: 0 <= i < |bs| && i != h ==> bs[i].count == 0
    ensures SeasonalCount(bs) == bs[h].count
  {
    var front := bs[..|bs| - 1];
    if h == |bs| - 1 { CountOfEmpty(front); } else { CountOne(front, h); }
  }

  /** The first tick of an unlearned pattern. */
  lemma FirstTick(c: int, hour: nat, sqrt: real -> real)
    requires c > 0 && hour < HOURS_PER_DAY
    ensures Learned(TickStep(FoldOf(Knobs()), UNLEARNED, Tick(c, hour * 3600), ALPHA, sqrt), c, c as real, 0.0,
        c as real,
                    map[hour := EWMA(c as real, 0.0, 1)])
  {
    var f, now := FoldOf(Knobs()), hour * 3600;
    assert SeasonalIndex(now, HOURS_PER_DAY) == hour;
    var r := TickStep(f, UNLEARNED, Tick(c, now), ALPHA, sqrt);
    var zero := Resized([], HOURS_PER_DAY);
    assert r.seasonal == zero[hour := EWMA(c as real, 0.0, 1)];
    CountOne(r.seasonal, hour);
  }

  // ---- average mode -----------------------------------------------------------------------

  /** A lone high tick, then a low one in the next hour: the mean holds the low one out, its
      cold bucket and the average take it. */
  lemma LowTick(p: Pattern, sqrt: real -> real)
    requires Learned(p, 100, 100.0, 0.0, 100.0, map[0 := EWMA(100.0, 0.0, 1)]) && sqrt(0.0) == 0.0
    ensures Learned(TickStep(FoldOf(Knobs()), p, Tick(1, 3600), ALPHA, sqrt), 101, 100.0, 0.0, 50.5,
                    map[0 := EWMA(100.0, 0.0, 1), 1 := EWMA(1.0, 0.0, 1)])
  {
    var f := FoldOf(Knobs());
    var q := p.(count := 101);
    assert Spread(100.0, 0.0) == 1.0 && ZScore(1.0, 100.0, 0.0) == -99.0;
    assert GlobalRejects(f, q, 1.0, 100, sqrt);
    assert SeasonalIndex(3600, HOURS_PER_DAY) == 1 && Resized(p.seasonal, HOURS_PER_DAY) == p.seasonal;
    assert !BucketRejects(f, p.seasonal[1], 1.0, sqrt);
    CountOne(p.seasonal, 0);
    CountOfUpdate(p.seasonal, 1, EWMA(1.0, 0.0, 1));
  }

  lemma TwoTicks(sqrt: real -> real)
    requires sqrt(0.0) == 0.0
    ensures Learned(TickRun(FoldOf(Knobs()), UNLEARNED, [Tick(100, 0), Tick(1, 3600)], ALPHA, sqrt), 101, 100.0, 0.0,
        50.5,
                    map[0 := EWMA(100.0, 0.0, 1), 1 := EWMA(1.0, 0.0, 1)])
  {
    FirstTick(100, 0, sqrt);
    var p := TickStep(FoldOf(Knobs()), UNLEARNED, Tick(100, 0), ALPHA, sqrt);
    LowTick(p, sqrt);
    assert [Tick(100, 0), Tick(1, 3600)][1..] == [Tick(1, 3600)];
    RunOne(FoldOf(Knobs()), p, Tick(1, 3600), sqrt);
  }

  lemma RunOne(f: BaselineFold, p: Pattern, t: Tick, sqrt: real -> real)
    ensures TickRun(f, p, [t], ALPHA, sqrt) == TickStep(f, p, t, ALPHA, sqrt)
  {
  }

  /** In average mode a run can reach a flagged tick that is folded all the same: the centre
      the detector scores against is not the one the fold holds outliers out of. */
  lemma AverageModeFoldsFlagged(sqrt: real -> real)
    requires sqrt(0.0) == 0.0
    ensures exists ticks: seq<Tick>, tick: int ::
      var sp := Knobs();
      var p := TickRun(FoldOf(sp), UNLEARNED, ticks, ALPHA, sqrt);
      var b := ResolveBaseline(p, 7200, ByAverage, sp.minBucketSamples, sqrt);
      Positive(ticks) && ZFlagged(EvalSpike(b.mean, b.std, p.count, tick, sp))
      && Folded(FoldOf(sp), p, tick, ALPHA, 7200, p.count, sqrt).baselineFrequency != p.baselineFrequency
  {
    var ticks, sp := [Tick(100, 0), Tick(1, 3600)], Knobs();
    var p := TickRun(FoldOf(sp), UNLEARNED, ticks, ALPHA, sqrt);
    TwoTicks(sqrt);
    AverageFlagged(p, sqrt);
    assert Positive(ticks);
  }

  lemma AverageFlagged(p: Pattern, sqrt: real -> real)
    requires Learned(p, 101, 100.0, 0.0, 50.5, map[0 := EWMA(100.0, 0.0, 1), 1 := EWMA(1.0, 0.0, 1)])
        && sqrt(0.0) == 0.0
    ensures var b := ResolveBaseline(p, 7200, ByAverage, Knobs().minBucketSamples, sqrt);
      ZFlagged(EvalSpike(b.mean, b.std, p.count, 101, Knobs()))
    ensures Folded(FoldOf(Knobs()), p, 101, ALPHA, 7200, p.count, sqrt).baselineFrequency != p.baselineFrequency
  {
    assert Spread(50.5, 0.0) == 0.505 && ZScore(101.0, 50.5, 0.0) == 100.0;
    assert Spread(100.0, 0.0) == 1.0 && ZScore(101.0, 100.0, 0.0) == 1.0;
    MeanUnchangedIff(FoldOf(Knobs()), p, 101, ALPHA, 7200, p.count, sqrt);
  }

  // ---- the turn of the hour ----------------------------------------------------------------

  lemma OnTheMean(m: real, std: real)
    ensures ZScore(m, m, std) == 0.0
  {
  }

  /** Folding the mean again leaves it, and a zero variance, where they are. */
  lemma SteadyGlobal(f: BaselineFold, p: Pattern, prevCount: int, sqrt: real -> real)
    requires p.baselineFrequency == 4.0 && p.baselineVariance == 0.0
    ensures var g := GlobalFold(f, p, 4.0, ALPHA, prevCount, sqrt);
      g == p.(baselineFrequency := 4.0, baselineVariance := 0.0)
  {
    if !GlobalRejects(f, p, 4.0, prevCount, sqrt) { FoldedMean(f, p, 4.0, ALPHA, prevCount, sqrt); }
  }

  lemma SteadyBucket(n: nat)
    requires n > 0
    ensures Observe(EWMA(4.0, 0.0, n), 4.0, ALPHA) == EWMA(4.0, 0.0, n + 1)
  {
  }

  lemma SteadyAverage(n: nat)
    requires n > 0
    ensures 4.0 + (4.0 - 4.0) / n as real == 4.0
  {
  }

  /** The first hour's bucket takes the same rate once more. */
  lemma SteadyHour(p: Pattern, n: nat, sqrt: real -> real)
    requires 0 < n && Learned(p, p.count, 4.0, 0.0, 4.0, map[0 := EWMA(4.0, 0.0, n)])
    ensures SeasonalFold(FoldOf(Knobs()), p, 4.0, ALPHA, 0, sqrt)
        == p.(seasonal := p.seasonal[0 := EWMA(4.0, 0.0, n + 1)])
  {
    assert SeasonalIndex(0, HOURS_PER_DAY) == 0 && Resized(p.seasonal, HOURS_PER_DAY) == p.seasonal;
    OnTheMean(4.0, Std(0.0, sqrt));
    SteadyBucket(n);
    CountOne(p.seasonal, 0);
    CountOfUpdate(p.seasonal, 0, EWMA(4.0, 0.0, n + 1));
    SteadyAverage(n + 1);
  }

  lemma FoldedParts(q: Pattern, prevCount: int, sqrt: real -> real)
    ensures var f := FoldOf(Knobs());
      Folded(f, q, 4, ALPHA, 0, prevCount, sqrt)
        == SeasonalFold(f, GlobalFold(f, q, 4.0, ALPHA, prevCount, sqrt), 4.0, ALPHA, 0, sqrt)
  {
    assert Rate(4, 1.0) == 4.0;
  }

  /** One more tick of the same rate in the first hour. */
  lemma SteadyTick(p: Pattern, n: nat, sqrt: real -> real)
    requires 0 < n && Learned(p, 4 * n, 4.0, 0.0, 4.0, map[0 := EWMA(4.0, 0.0, n)])
    ensures Learned(TickStep(FoldOf(Knobs()), p, Tick(4, 0), ALPHA, sqrt), 4 * (n + 1), 4.0, 0.0, 4.0,
        map[0 := EWMA(4.0, 0.0, n + 1)])
  {
    var q := p.(count := p.count + 4);
    SteadyGlobal(FoldOf(Knobs()), q, p.count, sqrt);
    SteadyHour(q, n, sqrt);
    FoldedParts(q, p.count, sqrt);
  }

  function Steady(n: nat): (ticks: seq<Tick>)
    ensures |ticks| == n && Positive(ticks)
    ensures n > 0 ==> ticks[0] == Tick(4, 0) && ticks[1..] == Steady(n - 1)
  {
    if n == 0 then [] else [Tick(4, 0)] + Steady(n - 1)
  }

  lemma {:induction false} SteadyRun(f: BaselineFold, p: Pattern, n: nat, more: nat, sqrt: real -> real)
    requires f == FoldOf(Knobs()) && 0 < n && Learned(p, 4 * n, 4.0, 0.0, 4.0, map[0 := EWMA(4.0, 0.0, n)])
    ensures Learned(TickRun(f, p, Steady(more), ALPHA, sqrt), 4 * (n + more), 4.0, 0.0, 4.0,
        map[0 := EWMA(4.0, 0.0, n + more)])
    decreases more
  {
    if more > 0 {
      SteadyTick(p, n, sqrt);
      SteadyRun(f, TickStep(f, p, Tick(4, 0), ALPHA, sqrt), n + 1, more - 1, sqrt);
    }
  }

  lemma SteadyTicks(n: nat, sqrt: real -> real)
    requires n > 0
    ensures Learned(TickRun(FoldOf(Knobs()), UNLEARNED, Steady(n), ALPHA, sqrt), 4 * n, 4.0, 0.0, 4.0,
        map[0 := EWMA(4.0, 0.0, n)])
  {
    FirstTick(4, 0, sqrt);
    SteadyRun(FoldOf(Knobs()), TickStep(FoldOf(Knobs()), UNLEARNED, Tick(4, 0), ALPHA, sqrt), 1, n - 1, sqrt);
  }

  /** In time_of_day mode, after five or more steady ticks in one hour, a tick flagged at
      the end of that hour is folded in the next: the observation is stamped before the
      fold reads the clock. */
  lemma HourTurnFoldsFlagged(n: nat, sqrt: real -> real)
    requires n >= 5 && sqrt(0.0) == 0.0
    ensures var p := TickRun(FoldOf(Knobs()), UNLEARNED, Steady(n), ALPHA, sqrt);
      var b := ResolveBaseline(p, 3599, ByTimeOfDay, Knobs().minBucketSamples, sqrt);
      && ZFlagged(EvalSpike(b.mean, b.std, p.count, 101, Knobs()))
      && Folded(FoldOf(Knobs()), p, 101, ALPHA, 3600, p.count, sqrt).seasonal != p.seasonal
  {
    SteadyTicks(n, sqrt);
    HourFlagged(TickRun(FoldOf(Knobs()), UNLEARNED, Steady(n), ALPHA, sqrt), n, sqrt);
  }

  lemma HourFlagged(p: Pattern, n: nat, sqrt: real -> real)
    requires n >= 5 && Learned(p, 4 * n, 4.0, 0.0, 4.0, map[0 := EWMA(4.0, 0.0, n)]) && sqrt(0.0) == 0.0
    ensures var b := ResolveBaseline(p, 3599, ByTimeOfDay, Knobs().minBucketSamples, sqrt);
      ZFlagged(EvalSpike(b.mean, b.std, p.count, 101, Knobs()))
    ensures Folded(FoldOf(Knobs()), p, 101, ALPHA, 3600, p.count, sqrt).seasonal != p.seasonal
  {
    assert HourOf(3599) == 0 && SeasonalIndex(3600, HOURS_PER_DAY) == 1;
    assert Spread(4.0, 0.0) == 0.04 && ZScore(101.0, 4.0, 0.0) == 2425.0;
    BucketsUnchangedIff(FoldOf(Knobs()), p, 101, ALPHA, 3600, p.count, sqrt);
  }
}
