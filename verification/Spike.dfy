/** The spike detector and the baseline fold it shares its cutoffs with: one tick is
    scored against the learned rate, then folded into it unless it is an outlier. */
module Spike {
  import opened Stats
  import opened Patterns

  // ---- configuration ----------------------------------------------------------------

  datatype CatalogConfig = CatalogConfig(spikeZ: real, spikeAbsCeiling: int, spikeSustainTicks: int,
                                         spikeMinFrequency: int, spikeMinBaselineCount: int, autoPromoteAfter: int)

  datatype SpikeParams = SpikeParams(z: real, absCeiling: int, sustainTicks: int, minFrequency: int,
                                     minBaselineCount: int, pollSeconds: real, seasonalPeriod: nat,
                                       minBucketSamples: int)

  /** The fold's share of the parameters; the zero value is the legacy fold of raw counts. */
  datatype BaselineFold = BaselineFold(pollSeconds: real, rejectZ: real, seasonalPeriod: nat,
                                       minBaselineCount: int, minBucketSamples: int)

  const NO_FOLD := BaselineFold(0.0, 0.0, 0, 0, 0)
  const MIN_BUCKET_SAMPLES: int := 5
  const DEFAULT_AUTO_PROMOTE_AFTER: int := 100

  function Default(n: int, d: int): int { if n <= 0 then d else n }

  /** Unset knobs take their defaults: 3 sigma, one tick, 5 matches, 20 sightings. */
  function ResolveSpikeParams(cat: CatalogConfig, pollSeconds: real): SpikeParams
  {
    SpikeParams(if cat.spikeZ <= 0.0 then 3.0 else cat.spikeZ,
                if cat.spikeAbsCeiling < 0 then 0 else cat.spikeAbsCeiling,
                Default(cat.spikeSustainTicks, 1), Default(cat.spikeMinFrequency, 5),
                  Default(cat.spikeMinBaselineCount, 20),
                pollSeconds, HOURS_PER_DAY, MIN_BUCKET_SAMPLES)
  }

  function FoldOf(p: SpikeParams): BaselineFold
  {
    BaselineFold(p.pollSeconds, p.z, p.seasonalPeriod, p.minBaselineCount, p.minBucketSamples)
  }

  /** What every resolved configuration guarantees. */
  predicate Resolved(p: SpikeParams)
  {
    p.z > 0.0 && p.absCeiling >= 0 && p.sustainTicks > 0 && p.minFrequency > 0 && p.minBaselineCount > 0
    && p.seasonalPeriod == HOURS_PER_DAY && p.minBucketSamples == MIN_BUCKET_SAMPLES
  }

  // ---- scoring ------------------------------------------------------------------------

  /** The per-second rate of a tick; the raw count when no poll interval is set. */
  function Rate(tickCount: int, pollSeconds: real): real
  {
    if pollSeconds > 0.0 then tickCount as real / pollSeconds else tickCount as real
  }

  datatype SpikeResult = SpikeResult(spike: bool, ceiling: bool, z: real, rate: real)

  /** Score one tick against the baseline before the fold. */
  function EvalSpike(mean: real, std: real, prevCount: int, tickFreq: int, p: SpikeParams): SpikeResult
  {
    var rate := Rate(tickFreq, p.pollSeconds);
    var z := ZScore(rate, mean, std);
    if p.absCeiling > 0 && tickFreq >= p.absCeiling then SpikeResult(true, true, z, rate)
    else if tickFreq < p.minFrequency then SpikeResult(false, false, z, rate)
    else SpikeResult(prevCount >= p.minBaselineCount && mean > 0.0 && z >= p.z, false, z, rate)
  }

  datatype Mode = ByDefault | ByAverage | ByTimeOfDay

  const AVERAGE: string := "average"
  const TIME_OF_DAY: string := "time_of_day"

  /** normalizeBaselineMode after trimming and lower-casing: anything unrecognised is the default. */
  function BaselineMode(mode: string): Mode
  {
    if mode == AVERAGE then ByAverage else if mode == TIME_OF_DAY then ByTimeOfDay else ByDefault
  }

  function ModeOf(p: Pattern, globalMode: Mode): Mode
  {
    if p.spikeBaselineMode != "" then BaselineMode(p.spikeBaselineMode) else globalMode
  }

  datatype Baseline = Baseline(mean: real, std: real)

  /** Which learned baseline a tick at `ts` is scored against. */
  function ResolveBaseline(p: Pattern, ts: int, globalMode: Mode, minBucketSamples: int, sqrt: real -> real): Baseline
  {
    var std := Std(p.baselineVariance, sqrt);
    match ModeOf(p, globalMode)
    case ByAverage => Baseline(p.baselineAvg, std)
    case ByTimeOfDay =>
      if |p.seasonal| == HOURS_PER_DAY && p.seasonal[HourOf(ts)].count >= minBucketSamples then
        Baseline(p.seasonal[HourOf(ts)].mean, Std(p.seasonal[HourOf(ts)].variance, sqrt))
      else Baseline(p.baselineFrequency, std)
    case ByDefault => Baseline(p.baselineFrequency, std)
  }

  // ---- folding ------------------------------------------------------------------------

  predicate Legacy(f: BaselineFold) { f.pollSeconds <= 0.0 && f.seasonalPeriod <= 0 && f.rejectZ <= 0.0 }

  /** The legacy mean-only fold of the raw count. */
  function LegacyFold(p: Pattern, tickCount: int, alpha: real): Pattern
  {
    p.(baselineFrequency := if p.baselineFrequency == 0.0 then tickCount as real
                            else alpha * (tickCount as real) + (1.0 - alpha) * p.baselineFrequency)
  }

  /** A confident outlier against the global baseline is held out. */
  predicate GlobalRejects(f: BaselineFold, p: Pattern, value: real, prevCount: int, sqrt: real -> real)
  {
    p.baselineFrequency != 0.0
    && ShouldReject(value, p.baselineFrequency, Std(p.baselineVariance, sqrt), f.minBaselineCount > 0
        && prevCount >= f.minBaselineCount, f.rejectZ)
  }

  /** The global mean and variance after a tick: seed on zero, hold out outliers, else fold. */
  function GlobalFold(f: BaselineFold, p: Pattern, value: real, alpha: real, prevCount: int,
                      sqrt: real -> real): Pattern
  {
    if p.baselineFrequency == 0.0 then p.(baselineFrequency := value, baselineVariance := 0.0)
    else if GlobalRejects(f, p, value, prevCount, sqrt) then p
    else
      var g := Observe(EWMA(p.baselineFrequency, p.baselineVariance, 2), value, alpha);
      p.(baselineFrequency := g.mean, baselineVariance := g.variance)
  }

  /** Grow or cut the buckets to the period, keeping those that are there. */
  function Resized(buckets: seq<EWMA>, n: nat): (r: seq<EWMA>)
    ensures |r| == n
    ensures forall i :: 0 <= i < n && i < |buckets| ==> r[i] == buckets[i]
    ensures forall i :: |buckets| <= i < n ==> r[i] == EWMA(0.0, 0.0, 0)
  {
    seq(n, i requires 0 <= i => if i < |buckets| then buckets[i] else EWMA(0.0, 0.0, 0))
  }

  function SeasonalIndex(now: int, period: nat): (i: nat)
    requires period > 0
    ensures i < period
  {
    (now / 3600) % period
  }

  /** The number of ticks folded into the buckets. */
  function SeasonalCount(buckets: seq<EWMA>): nat
  {
    if buckets == [] then 0 else SeasonalCount(buckets[..|buckets| - 1]) + buckets[|buckets| - 1].count
  }

  predicate BucketRejects(f: BaselineFold, b: EWMA, value: real, sqrt: real -> real)
  {
    ShouldReject(value, b.mean, Std(b.variance, sqrt), f.minBucketSamples > 0
      && b.count >= f.minBucketSamples, f.rejectZ)
  }

  /** The bucket of the hour the tick falls in, after resizing. */
  function BucketAt(f: BaselineFold, p: Pattern, now: int): EWMA
    requires f.seasonalPeriod > 0
  {
    Resized(p.seasonal, f.seasonalPeriod)[SeasonalIndex(now, f.seasonalPeriod)]
  }

  /** The hour's bucket and the arithmetic mean after a tick, unless the bucket holds it out. */
  function SeasonalFold(f: BaselineFold, p: Pattern, value: real, alpha: real, now: int, sqrt: real -> real): Pattern
    requires f.seasonalPeriod > 0
  {
    var buckets, idx := Resized(p.seasonal, f.seasonalPeriod), SeasonalIndex(now, f.seasonalPeriod);
    if BucketRejects(f, buckets[idx], value, sqrt) then p.(seasonal := buckets)
    else
      var folded := buckets[idx := Observe(buckets[idx], value, alpha)];
      var n := SeasonalCount(folded);
      p.(seasonal := folded, baselineAvg := if n > 0 then p.baselineAvg + (value - p.baselineAvg) / n as real
        else p.baselineAvg)
  }

  /** foldBaseline. */
  function Folded(f: BaselineFold, p: Pattern, tickCount: int, alpha: real, now: int, prevCount: int,
                  sqrt: real -> real): Pattern
  {
    if Legacy(f) then LegacyFold(p, tickCount, alpha)
    else
      var value := Rate(tickCount, f.pollSeconds);
      var g := GlobalFold(f, p, value, alpha, prevCount, sqrt);
      if f.seasonalPeriod > 0 then SeasonalFold(f, g, value, alpha, now, sqrt) else g
  }

  // ---- detector and fold agree ----------------------------------------------------------

  lemma ResolveIsResolved(cat: CatalogConfig, pollSeconds: real)
    ensures Resolved(ResolveSpikeParams(cat, pollSeconds))
  {
  }

  /** A knob that is set is kept; one that is not takes its documented default. */
  lemma KnobsKeptOrDefault(cat: CatalogConfig, pollSeconds: real)
    ensures var p := ResolveSpikeParams(cat, pollSeconds);
      && p.pollSeconds == pollSeconds
      && (if cat.spikeZ > 0.0 then p.z == cat.spikeZ else p.z == 3.0)
      && (if cat.spikeAbsCeiling > 0 then p.absCeiling == cat.spikeAbsCeiling else p.absCeiling == 0)
      && (if cat.spikeSustainTicks > 0 then p.sustainTicks == cat.spikeSustainTicks else p.sustainTicks == 1)
      && (if cat.spikeMinFrequency > 0 then p.minFrequency == cat.spikeMinFrequency else p.minFrequency == 5)
      && (if cat.spikeMinBaselineCount > 0 then p.minBaselineCount == cat.spikeMinBaselineCount
          else p.minBaselineCount == 20)
  {
  }

  /** A tick flagged by its z-score. */
  predicate ZFlagged(r: SpikeResult) { r.spike && !r.ceiling }

  /** On one and the same baseline a tick is z-flagged exactly when the fold holds it
      out of that baseline, it lies above a positive mean, and it is neither below the
      noise floor nor at the ceiling. */
  lemma FlaggedIffHeldOut(mean: real, std: real, prevCount: int, tickFreq: int, p: SpikeParams)
    requires Resolved(p)
    ensures var rate := Rate(tickFreq, p.pollSeconds);
      ZFlagged(EvalSpike(mean, std, prevCount, tickFreq, p)) <==>
        && ShouldReject(rate, mean, std, prevCount >= p.minBaselineCount, FoldOf(p).rejectZ)
        && rate > mean > 0.0 && tickFreq >= p.minFrequency && !(p.absCeiling > 0 && tickFreq >= p.absCeiling)
  {
    var rate := Rate(tickFreq, p.pollSeconds);
    ZScoreSign(rate, mean, std);
  }

  lemma ZScoreSign(value: real, mean: real, std: real)
    ensures ZScore(value, mean, std) * Spread(mean, std) == value - mean
    ensures value > mean <==> ZScore(value, mean, std) > 0.0
  {
    var s, z := Spread(mean, std), ZScore(value, mean, std);
    assert z * s == value - mean;
    if z > 0.0 { assert z * s > 0.0; } else { assert z * s <= 0.0; }
  }

  /** Whatever the flags, the rate is per second and the score is its distance to the mean in
      spreads. */
  lemma ScoreReports(mean: real, std: real, prevCount: int, tickFreq: int, p: SpikeParams)
    ensures var r := EvalSpike(mean, std, prevCount, tickFreq, p);
      && (if p.pollSeconds > 0.0 then r.rate * p.pollSeconds == tickFreq as real else r.rate == tickFreq as real)
      && r.z * Spread(mean, std) == r.rate - mean
  {
    ZScoreSign(Rate(tickFreq, p.pollSeconds), mean, std);
  }

  /** In default mode a z-flagged tick leaves the global mean and variance unchanged. */
  lemma FlaggedTickHeldOut(cat: CatalogConfig, poll: real, p: Pattern, ts: int, tick: int, alpha: real, now: int,
                           globalMode: Mode, sqrt: real -> real)
    requires ModeOf(p, globalMode).ByDefault?
    requires var sp := ResolveSpikeParams(cat, poll);
      var b := ResolveBaseline(p, ts, globalMode, sp.minBucketSamples, sqrt);
      ZFlagged(EvalSpike(b.mean, b.std, p.count, tick, sp))
    ensures var r := Folded(FoldOf(ResolveSpikeParams(cat, poll)), p, tick, alpha, now, p.count, sqrt);
      r.baselineFrequency == p.baselineFrequency && r.baselineVariance == p.baselineVariance
  {
    FlaggedIffHeldOut(p.baselineFrequency, Std(p.baselineVariance, sqrt), p.count, tick, ResolveSpikeParams(cat, poll));
  }

  /** In time_of_day mode, when the hour's bucket is confident and the observation and
      the fold fall in the same hour, a z-flagged tick leaves the buckets and the
      arithmetic mean unchanged. */
  lemma FlaggedHourHeldOut(cat: CatalogConfig, poll: real, p: Pattern, ts: int, tick: int, alpha: real, now: int,
                           globalMode: Mode, sqrt: real -> real)
    requires ModeOf(p, globalMode).ByTimeOfDay? && |p.seasonal| == HOURS_PER_DAY && HourOf(ts) == HourOf(now)
    requires p.seasonal[HourOf(ts)].count >= MIN_BUCKET_SAMPLES
    requires var sp := ResolveSpikeParams(cat, poll);
      var b := ResolveBaseline(p, ts, globalMode, sp.minBucketSamples, sqrt);
      ZFlagged(EvalSpike(b.mean, b.std, p.count, tick, sp))
    ensures var r := Folded(FoldOf(ResolveSpikeParams(cat, poll)), p, tick, alpha, now, p.count, sqrt);
      r.seasonal == p.seasonal && r.baselineAvg == p.baselineAvg
  {
    var sp := ResolveSpikeParams(cat, poll);
    var b := p.seasonal[HourOf(ts)];
    FlaggedIffHeldOut(b.mean, Std(b.variance, sqrt), p.count, tick, sp);
    assert Resized(p.seasonal, HOURS_PER_DAY) == p.seasonal;
    assert SeasonalIndex(now, HOURS_PER_DAY) == HourOf(now);
  }

  /** An accepted tick moves a confident, seeded mean by less than alpha * Z * spread. */
  lemma AcceptedTickMovesLittle(f: BaselineFold, p: Pattern, tick: int, alpha: real, now: int, prevCount: int,
                                sqrt: real -> real)
    requires f.rejectZ > 0.0 && alpha > 0.0 && 0 < f.minBaselineCount <= prevCount && p.baselineFrequency != 0.0
    ensures var r := Folded(f, p, tick, alpha, now, prevCount, sqrt);
      var bound := alpha * f.rejectZ * Spread(p.baselineFrequency, Std(p.baselineVariance, sqrt));
      p.baselineFrequency - bound < r.baselineFrequency < p.baselineFrequency + bound
  {
    FoldedGlobal(f, p, tick, alpha, now, prevCount, sqrt);
    GlobalMoveBound(f, p, Rate(tick, f.pollSeconds), alpha, prevCount, sqrt);
  }

  lemma GlobalMoveBound(f: BaselineFold, p: Pattern, value: real, alpha: real, prevCount: int, sqrt: real -> real)
    requires f.rejectZ > 0.0 && alpha > 0.0 && 0 < f.minBaselineCount <= prevCount && p.baselineFrequency != 0.0
    ensures Abs(GlobalFold(f, p, value, alpha, prevCount, sqrt).baselineFrequency - p.baselineFrequency)
            < alpha * f.rejectZ * Spread(p.baselineFrequency, Std(p.baselineVariance, sqrt))
  {
    var mean, std := p.baselineFrequency, Std(p.baselineVariance, sqrt);
    MoveBound(value, mean, std, alpha, f.rejectZ);
    if !GlobalRejects(f, p, value, prevCount, sqrt) {
      FoldedMean(f, p, value, alpha, prevCount, sqrt);
      Moved(mean, GlobalFold(f, p, value, alpha, prevCount, sqrt).baselineFrequency, alpha * (value - mean),
        alpha * f.rejectZ * Spread(mean, std));
    }
  }

  lemma Moved(m: real, r: real, d: real, bound: real)
    requires r == m + d && Abs(d) < bound
    ensures Abs(r - m) < bound
  {
  }

  /** Folding the hour's bucket leaves the global mean and variance alone. */
  lemma FoldedGlobal(f: BaselineFold, p: Pattern, tick: int, alpha: real, now: int, prevCount: int, sqrt: real -> real)
    requires !Legacy(f)
    ensures var r, g := Folded(f, p, tick, alpha, now, prevCount, sqrt),
        GlobalFold(f, p, Rate(tick, f.pollSeconds), alpha, prevCount, sqrt);
      r.baselineFrequency == g.baselineFrequency && r.baselineVariance == g.baselineVariance
  {
  }

  lemma MoveBound(value: real, mean: real, std: real, alpha: real, rejectZ: real)
    requires alpha > 0.0 && rejectZ > 0.0
    ensures alpha * rejectZ * Spread(mean, std) > 0.0
    ensures !ShouldReject(value, mean, std, true, rejectZ) ==>
        Abs(alpha * (value - mean)) < alpha * rejectZ * Spread(mean, std)
  {
    var s, z := Spread(mean, std), ZScore(value, mean, std);
    Product3(alpha, rejectZ, s);
    ZScoreSign(value, mean, std);
    if Abs(z) < rejectZ { ScaledBound(alpha, z, rejectZ, s); }
  }

  lemma FoldedMean(f: BaselineFold, p: Pattern, value: real, alpha: real, prevCount: int, sqrt: real -> real)
    requires p.baselineFrequency != 0.0 && !GlobalRejects(f, p, value, prevCount, sqrt)
    ensures var g, d := GlobalFold(f, p, value, alpha, prevCount, sqrt), value - p.baselineFrequency;
      g.baselineFrequency == p.baselineFrequency + alpha * d
      && g.baselineVariance == (1.0 - alpha) * (p.baselineVariance + d * (alpha * d))
  {
  }

  lemma Product3(a: real, z: real, s: real)
    requires a > 0.0 && z > 0.0 && s > 0.0
    ensures a * z * s > 0.0
  {
    assert a * z > 0.0;
  }

  lemma ScaledBound(a: real, z: real, limit: real, s: real)
    requires a > 0.0 && s > 0.0 && Abs(z) < limit
    ensures Abs(a * (z * s)) < a * limit * s
  {
    assert a * s > 0.0;
    assert a * (z * s) == z * (a * s) && a * limit * s == limit * (a * s);
    assert z * (a * s) < limit * (a * s) && (-limit) * (a * s) < z * (a * s);
  }

  // ---- exactly when a flagged tick is held out --------------------------------------------

  /** A tick leaves the global mean where it is exactly when the global gate rejects its
      rate or the rate is that mean; an unseeded mean only stays on a rate of zero. */
  lemma MeanUnchangedIff(f: BaselineFold, p: Pattern, tick: int, alpha: real, now: int, prevCount: int,
                         sqrt: real -> real)
    requires !Legacy(f) && alpha > 0.0
    ensures var rate := Rate(tick, f.pollSeconds);
      Folded(f, p, tick, alpha, now, prevCount, sqrt).baselineFrequency == p.baselineFrequency <==>
        if p.baselineFrequency == 0.0 then rate == 0.0
        else GlobalRejects(f, p, rate, prevCount, sqrt) || rate == p.baselineFrequency
  {
    FoldedGlobal(f, p, tick, alpha, now, prevCount, sqrt);
    GlobalUnchangedIff(f, p, Rate(tick, f.pollSeconds), alpha, prevCount, sqrt);
  }

  lemma GlobalUnchangedIff(f: BaselineFold, p: Pattern, rate: real, alpha: real, prevCount: int, sqrt: real -> real)
    requires alpha > 0.0
    ensures GlobalFold(f, p, rate, alpha, prevCount, sqrt).baselineFrequency == p.baselineFrequency <==>
      if p.baselineFrequency == 0.0 then rate == 0.0
      else GlobalRejects(f, p, rate, prevCount, sqrt) || rate == p.baselineFrequency
  {
    if p.baselineFrequency != 0.0 && !GlobalRejects(f, p, rate, prevCount, sqrt) {
      FoldedMean(f, p, rate, alpha, prevCount, sqrt);
      StaysIff(p.baselineFrequency, alpha, rate - p.baselineFrequency);
    }
  }

  lemma StaysIff(m: real, alpha: real, d: real)
    requires alpha > 0.0
    ensures m + alpha * d == m <==> d == 0.0
  {
    if d > 0.0 { assert alpha * d > 0.0; }
    if d < 0.0 { assert alpha * (-d) > 0.0; }
  }

  /** A tick leaves the buckets where they are exactly when they are all there and the
      bucket of the fold's own hour rejects the rate; then the average stays as well. */
  lemma BucketsUnchangedIff(f: BaselineFold, p: Pattern, tick: int, alpha: real, now: int, prevCount: int,
                            sqrt: real -> real)
    requires f.seasonalPeriod > 0
    ensures var r := Folded(f, p, tick, alpha, now, prevCount, sqrt);
      var rejects := BucketRejects(f, BucketAt(f, p, now), Rate(tick, f.pollSeconds), sqrt);
      && (r.seasonal == p.seasonal <==> |p.seasonal| == f.seasonalPeriod && rejects)
      && (rejects ==> r.baselineAvg == p.baselineAvg)
  {
    var rate := Rate(tick, f.pollSeconds);
    var g := GlobalFold(f, p, rate, alpha, prevCount, sqrt);
    assert g.seasonal == p.seasonal && g.baselineAvg == p.baselineAvg;
    HourUnchangedIff(f, g, rate, alpha, now, sqrt);
  }

  lemma HourUnchangedIff(f: BaselineFold, p: Pattern, rate: real, alpha: real, now: int, sqrt: real -> real)
    requires f.seasonalPeriod > 0
    ensures var r := SeasonalFold(f, p, rate, alpha, now, sqrt);
      var rejects := BucketRejects(f, BucketAt(f, p, now), rate, sqrt);
      && (r.seasonal == p.seasonal <==> |p.seasonal| == f.seasonalPeriod && rejects)
      && (rejects ==> r.baselineAvg == p.baselineAvg)
  {
    var buckets, idx := Resized(p.seasonal, f.seasonalPeriod), SeasonalIndex(now, f.seasonalPeriod);
    if |p.seasonal| == f.seasonalPeriod { assert buckets == p.seasonal; }
    if !BucketRejects(f, buckets[idx], rate, sqrt) {
      var folded := buckets[idx := Observe(buckets[idx], rate, alpha)];
      assert folded[idx] != buckets[idx];
    }
  }

  /** In every mode, a z-flagged tick leaves the global mean unchanged exactly when the
      global gate rejects it or it is that mean, and the buckets exactly when the bucket
      of the hour it is folded in rejects it. */
  lemma FlaggedHeldOutIff(cat: CatalogConfig, poll: real, p: Pattern, ts: int, tick: int, alpha: real, now: int,
                          globalMode: Mode, sqrt: real -> real)
    requires alpha > 0.0
    requires var sp := ResolveSpikeParams(cat, poll);
      var b := ResolveBaseline(p, ts, globalMode, sp.minBucketSamples, sqrt);
      ZFlagged(EvalSpike(b.mean, b.std, p.count, tick, sp))
    ensures var f := FoldOf(ResolveSpikeParams(cat, poll));
      var r, rate := Folded(f, p, tick, alpha, now, p.count, sqrt), Rate(tick, poll);
      && (r.baselineFrequency == p.baselineFrequency <==>
            p.baselineFrequency != 0.0 && (GlobalRejects(f, p, rate, p.count, sqrt) || rate == p.baselineFrequency))
      && (r.seasonal == p.seasonal <==>
            |p.seasonal| == HOURS_PER_DAY && BucketRejects(f, BucketAt(f, p, now), rate, sqrt))
  {
    var sp := ResolveSpikeParams(cat, poll);
    var b := ResolveBaseline(p, ts, globalMode, sp.minBucketSamples, sqrt);
    FlaggedIffHeldOut(b.mean, b.std, p.count, tick, sp);
    MeanUnchangedIff(FoldOf(sp), p, tick, alpha, now, p.count, sqrt);
    BucketsUnchangedIff(FoldOf(sp), p, tick, alpha, now, p.count, sqrt);
  }
}
