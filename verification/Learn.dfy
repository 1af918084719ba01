/** The learn cycle as it runs: the in-memory catalog, the log brain with its spike
    streaks, and the worker's loop over a tick's observations. Every method is proved
    to take the step of LearnSpec. */
module Learn {
  import opened Stats
  import opened Patterns
  import opened Spike
  import opened LearnSpec
  import LearnRuns

  class Catalog {
    var patterns: map<string, Pattern>
    var services: map<string, ServiceInfo>
    var dirty: bool
    const fold: BaselineFold
    const sqrt: real -> real

    constructor (fold: BaselineFold, sqrt: real -> real)
      ensures patterns == map[] && services == map[] && !dirty && this.fold == fold && this.sqrt == sqrt
    {
      patterns, services, dirty := map[], map[], false;
      this.fold, this.sqrt := fold, sqrt;
    }

    /** Record a tick of a pattern: create or refresh it, count it, fold its baseline. */
    method Upsert(o: Observation, source: string, alpha: real, now: int) returns (p: Pattern)
      modifies this`patterns, this`dirty
      ensures p == Upserted(fold, old(patterns), o, source, alpha, now, sqrt)
      ensures patterns == old(patterns)[o.key := p] && dirty
    {
      if o.key !in patterns {
        p := NewPattern(o, source, now);
      } else {
        p := Refresh(patterns[o.key], o);
      }
      p := CountAndFold(p, o, if alpha <= 0.0 then 0.2 else alpha, now);
      patterns := patterns[o.key := p];
      dirty := true;
    }

    /** Count the sightings of a tick, then fold them against the count before it. */
    method CountAndFold(pattern: Pattern, o: Observation, alpha: real, now: int) returns (p: Pattern)
      ensures p == Folded(fold, Stamped(pattern, o, now), o.frequency, alpha, now, pattern.count, sqrt)
    {
      var prevCount := pattern.count;
      p := Stamp(pattern, o, now);
      p := FoldBaseline(p, o.frequency, alpha, now, prevCount);
    }

    /** Count the sightings of a tick and take its template and time over. */
    method Stamp(pattern: Pattern, o: Observation, now: int) returns (p: Pattern)
      ensures p == Stamped(pattern, o, now)
    {
      p := pattern.(template := o.template, lastSeen := now);
      p := p.(count := pattern.count + o.frequency);
    }

    /** A later sighting: a named rule supersedes the tag, a real service the attribution. */
    method Refresh(pattern: Pattern, o: Observation) returns (p: Pattern)
      ensures p == Refreshed(pattern, o.ruleName, o.service)
    {
      p := pattern;
      if o.ruleName != "" && o.ruleName != DEFAULT_RULE && p.ruleName != o.ruleName {
        p := p.(ruleName := o.ruleName);
      } else if p.ruleName == "" && o.ruleName != "" {
        p := p.(ruleName := o.ruleName);
      }
      if o.service != "" && o.service != UNKNOWN_SERVICE {
        p := p.(service := o.service);
      }
    }

    /** Fold a tick into the global mean and variance, then into its hour's bucket. */
    method FoldBaseline(pattern: Pattern, tickCount: int, alpha: real, now: int, prevCount: int) returns (p: Pattern)
      ensures p == Folded(fold, pattern, tickCount, alpha, now, prevCount, sqrt)
    {
      p := pattern;
      if fold.pollSeconds <= 0.0 && fold.seasonalPeriod <= 0 && fold.rejectZ <= 0.0 {
        return LegacyFold(p, tickCount, alpha);
      }
      var value := tickCount as real;
      if fold.pollSeconds > 0.0 {
        value := tickCount as real / fold.pollSeconds;
      }
      if p.baselineFrequency == 0.0 {
        p := p.(baselineFrequency := value, baselineVariance := 0.0);
      } else {
        var std := Std(p.baselineVariance, sqrt);
        var confident := fold.minBaselineCount > 0 && prevCount >= fold.minBaselineCount;
        if !ShouldReject(value, p.baselineFrequency, std, confident, fold.rejectZ) {
          var g := Observe(EWMA(p.baselineFrequency, p.baselineVariance, 2), value, alpha);
          p := p.(baselineFrequency := g.mean, baselineVariance := g.variance);
        }
      }
      assert p == GlobalFold(fold, pattern, value, alpha, prevCount, sqrt);
      if fold.seasonalPeriod > 0 {
        p := FoldHour(p, value, alpha, now);
      }
    }

    /** Fold a rate into the current hour's bucket and the arithmetic mean. */
    method FoldHour(pattern: Pattern, value: real, alpha: real, now: int) returns (p: Pattern)
      requires fold.seasonalPeriod > 0
      ensures p == SeasonalFold(fold, pattern, value, alpha, now, sqrt)
    {
      p := pattern.(seasonal := Resized(pattern.seasonal, fold.seasonalPeriod));
      var idx := SeasonalIndex(now, fold.seasonalPeriod);
      var bucket := p.seasonal[idx];
      var confident := fold.minBucketSamples > 0 && bucket.count >= fold.minBucketSamples;
      if !ShouldReject(value, bucket.mean, Std(bucket.variance, sqrt), confident, fold.rejectZ) {
        p := p.(seasonal := p.seasonal[idx := Observe(bucket, value, alpha)]);
        var n := CountFolds(p.seasonal);
        if n > 0 {
          p := p.(baselineAvg := p.baselineAvg + (value - p.baselineAvg) / n as real);
        }
      }
    }

    /** seasonalCount. */
    method CountFolds(buckets: seq<EWMA>) returns (total: nat)
      ensures total == SeasonalCount(buckets)
    {
      total := 0;
      for i := 0 to |buckets|
        invariant total == SeasonalCount(buckets[..i])
      {
        assert buckets[..i + 1][..i] == buckets[..i];
        total := total + buckets[i].count;
      }
      assert buckets[..|buckets|] == buckets;
    }

    /** Track a service at its first sighting. */
    method RegisterService(name: string, now: int) returns (added: bool)
      modifies this`services, this`dirty
      ensures services == Tracked(old(services), name, now) && added == (name !in old(services))
      ensures dirty == (old(dirty) || added)
    {
      if name in services {
        return false;
      }
      services, dirty := services[name := ServiceInfo(DEFAULT_ORG, now, false)], true;
      added := true;
    }

    /** Whether a service is in its grace window; an unknown one is registered and enters it. */
    method IsServiceInGrace(name: string, grace: int, now: int) returns (inGrace: bool)
      modifies this`services, this`dirty
      ensures services == if grace > 0 then Tracked(old(services), name, now) else old(services)
      ensures inGrace == (grace > 0 && now < Tracked(old(services), name, now)[name].firstSeen + grace)
      ensures old(dirty) || services != old(services) ==> dirty
    {
      if grace <= 0 {
        return false;
      }
      if name !in services {
        services, dirty := services[name := ServiceInfo(DEFAULT_ORG, now, false)], true;
      }
      inGrace := now < services[name].firstSeen + grace;
    }

    /** Stamp a pattern as auto-promoted: always in the working set, and through the durable
        store when one is installed, whose edit then decides the answer. */
    method MarkKnown(key: string, installed: bool, curateOk: bool) returns (ok: bool)
      modifies this`patterns, this`dirty
      ensures var changed := key in old(patterns) && old(patterns)[key].verdict != KNOWN;
        && patterns == (if changed then old(patterns)[key := old(patterns)[key].(verdict := KNOWN)] else old(patterns))
        && dirty == (old(dirty) || changed) && ok == if installed then curateOk else changed
    {
      var changed := key in patterns && patterns[key].verdict != KNOWN;
      if changed {
        patterns, dirty := patterns[key := patterns[key].(verdict := KNOWN)], true;
      }
      ok := if installed then curateOk else changed;
    }
  }

  class LogBrain {
    const cfg: LearnConfig
    const catalog: Catalog
    var streak: map<string, nat>

    /** The fold uses the detector's own cutoffs. */
    ghost predicate Valid()
      reads this, catalog
    {
      catalog.fold == FoldConfig(cfg) && catalog.sqrt == cfg.sqrt
    }

    constructor (cfg: LearnConfig)
      ensures Valid() && this.cfg == cfg && fresh(catalog) && State() == BrainState(map[], map[], map[])
    {
      this.cfg, streak := cfg, map[];
      catalog := new Catalog(FoldConfig(cfg), cfg.sqrt);
    }

    function State(): BrainState
      reads this, catalog
    {
      BrainState(catalog.patterns, catalog.services, streak)
    }

    /** The baseline before the fold. */
    method ExpectedBaseline(key: string, ts: int) returns (b: Baseline)
      ensures b == Expected(cfg, catalog.patterns, key, ts)
    {
      if key !in catalog.patterns {
        return Baseline(0.0, 0.0);
      }
      b := ResolveBaseline(catalog.patterns[key], ts, cfg.globalMode, Params(cfg).minBucketSamples, cfg.sqrt);
    }

    method LearnTick(o: Observation, now: int)
      requires Valid()
      modifies catalog`patterns, catalog`dirty
      ensures Valid() && catalog.dirty
      ensures var p := Upserted(FoldConfig(cfg), old(catalog.patterns), o, cfg.source, cfg.alpha, now, cfg.sqrt);
        catalog.patterns == old(catalog.patterns)[o.key := p]
    {
      var _ := catalog.Upsert(o, cfg.source, cfg.alpha, now);
    }

    /** Score an already folded observation against the baseline from before its fold;
        the count from before the fold is recovered from the one after it. */
    method Classify(o: Observation, b: Baseline) returns (v: Class)
      modifies this`streak
      ensures o.key !in catalog.patterns ==> v == VerdictUnknown && streak == old(streak)
      ensures o.key in catalog.patterns ==>
        var p := catalog.patterns[o.key];
        var prevCount := p.count - o.frequency;
        var r := EvalSpike(b.mean, b.std, prevCount, o.frequency, Params(cfg));
        if !IsLogKnown(p.verdict, prevCount, cfg.cat.autoPromoteAfter) then v == VerdictUnknown && streak == old(streak)
        else v == (if Confirmed(old(streak), o.key, r, Params(cfg).sustainTicks) then VerdictSpike else VerdictKnown)
             && streak == StreakAfter(old(streak), o.key, r)
    {
      if o.key !in catalog.patterns {
        return VerdictUnknown;
      }
      var p := catalog.patterns[o.key];
      var prevCount := p.count - o.frequency;
      if IsLogKnown(p.verdict, prevCount, cfg.cat.autoPromoteAfter) {
        var res := EvalSpike(b.mean, b.std, prevCount, o.frequency, Params(cfg));
        var fires := ConfirmSpike(o.key, res);
        return if fires then VerdictSpike else VerdictKnown;
      }
      v := VerdictUnknown;
    }

    /** The sustained-tick debounce. */
    method ConfirmSpike(key: string, res: SpikeResult) returns (fires: bool)
      modifies this`streak
      ensures fires == Confirmed(old(streak), key, res, Params(cfg).sustainTicks)
      ensures streak == StreakAfter(old(streak), key, res)
    {
      if !res.spike {
        streak := streak - {key};
        return false;
      }
      if res.ceiling {
        return true;
      }
      streak := streak[key := StreakOf(streak, key) + 1];
      fires := streak[key] >= Params(cfg).sustainTicks;
    }

    /** Promote a pattern that has reached the threshold, whatever the store answers. */
    method Promote(key: string)
      requires key in catalog.patterns
      modifies catalog`patterns, catalog`dirty
      ensures catalog.patterns == PromotedPatterns(cfg, old(catalog.patterns), key)
      ensures old(catalog.dirty) ==> catalog.dirty
    {
      var p := catalog.patterns[key];
      if p.verdict != KNOWN && IsLogKnown(p.verdict, p.count, cfg.cat.autoPromoteAfter) {
        var installed: bool, curateOk: bool := *, *;
        var _ := catalog.MarkKnown(key, installed, curateOk);
      }
    }
  }

  class Worker {
    const brain: LogBrain
    /** What shadow recorded and what detect emitted, oldest first. */
    var shadow: seq<Surfaced>
    var emitted: seq<Surfaced>

    constructor (brain: LogBrain)
      ensures this.brain == brain && shadow == [] && emitted == []
    {
      this.brain, shadow, emitted := brain, [], [];
    }

    /** The tail of a folded observation: nothing in training; in shadow and detect
        classify it unless its service is in grace, and surface what is not routine. */
    method HandleObservation(mode: string, e: Event, b: Baseline, ghost ps: map<string, Pattern>)
      returns (outcome: Outcome)
      requires brain.Valid() && brain.catalog.patterns == FoldedPatterns(brain.cfg, ps, e)
          && b == Expected(brain.cfg, ps, e.o.key, e.o.timestamp)
      modifies this, brain`streak, brain.catalog`services, brain.catalog`dirty
      ensures brain.Valid() && (old(brain.catalog.dirty) ==> brain.catalog.dirty)
      ensures Handled(brain.cfg, mode, old(brain.State()), ps, e, brain.State(), outcome)
      ensures shadow == old(shadow) + Sunk(mode, SHADOW, Surfaces(e.o, outcome))
      ensures emitted == old(emitted) + Sunk(mode, DETECT, Surfaces(e.o, outcome))
    {
      if mode != SHADOW && mode != DETECT {
        return Learned;
      }
      if brain.cfg.grace > 0 {
        var inGrace := brain.catalog.IsServiceInGrace(e.o.service, brain.cfg.grace, e.graceAt);
        if inGrace {
          return InGrace;
        }
      }
      var v := Judge(e, b, ps);
      outcome := Judged(v);
      Surface(mode, e.o, v);
    }

    /** Classify a folded observation: the verdict is the one from before its fold. */
    method Judge(e: Event, b: Baseline, ghost ps: map<string, Pattern>) returns (v: Class)
      requires brain.catalog.patterns == FoldedPatterns(brain.cfg, ps, e)
          && b == Expected(brain.cfg, ps, e.o.key, e.o.timestamp)
      modifies brain`streak
      ensures v == Judgement(brain.cfg, old(brain.State()).(patterns := ps), e)
      ensures brain.streak == if WasKnown(brain.cfg, ps, e.o.key)
          then StreakAfter(old(brain.streak), e.o.key, Scored(brain.cfg, ps, e))
                              else old(brain.streak)
    {
      LearnRuns.UpsertedCounts(FoldConfig(brain.cfg), ps, e.o, brain.cfg.source, brain.cfg.alpha, e.foldAt,
        brain.cfg.sqrt);
      v := brain.Classify(e.o, b);
    }

    /** Record or emit a verdict that is not routine. */
    method Surface(mode: string, o: Observation, v: Class)
      requires Judging(mode)
      modifies this
      ensures shadow == old(shadow) + Sunk(mode, SHADOW, Surfaces(o, Judged(v)))
      ensures emitted == old(emitted) + Sunk(mode, DETECT, Surfaces(o, Judged(v)))
    {
      if v == VerdictKnown {
        return;
      }
      if mode == SHADOW {
        shadow := shadow + [Surfaced(o, v)];
      } else {
        emitted := emitted + [Surfaced(o, v)];
      }
    }

    /** One observation: register, read the baseline, fold, handle, promote. */
    method ProcessObservation(mode: string, e: Event) returns (outcome: Outcome)
      requires brain.Valid() && e.mode == mode
      modifies this, brain`streak, brain.catalog
      ensures brain.Valid() && brain.catalog.dirty
      ensures StepResult(brain.State(), outcome) == Step(brain.cfg, old(brain.State()), e)
      ensures shadow == old(shadow) + Sunk(mode, SHADOW, Surfaces(e.o, outcome))
      ensures emitted == old(emitted) + Sunk(mode, DETECT, Surfaces(e.o, outcome))
    {
      if e.o.service != "" && e.o.service != UNKNOWN_SERVICE {
        var _ := brain.catalog.RegisterService(e.o.service, e.registerAt);
      }
      ghost var ps := brain.catalog.patterns;
      var b := brain.ExpectedBaseline(e.o.key, e.o.timestamp);
      brain.LearnTick(e.o, e.foldAt);
      outcome := HandleObservation(mode, e, b, ps);
      brain.Promote(e.o.key);
    }

    /** A tick's observations, one at a time, under the mode resolved for the tick. */
    method ProcessObservations(mode: string, events: seq<Event>)
      requires brain.Valid() && forall e <- events :: e.mode == mode
      modifies this, brain`streak, brain.catalog
      ensures brain.Valid() && (events != [] ==> brain.catalog.dirty)
      ensures var r := Run(brain.cfg, old(brain.State()), events);
        brain.State() == r.state && shadow == old(shadow) + r.shadow && emitted == old(emitted) + r.emitted
    {
      ghost var s0 := brain.State();
      ghost var r := RunResult(s0, [], []);
      var i := 0;
      while i < |events|
        invariant 0 <= i <= |events| && brain.Valid() && (i > 0 ==> brain.catalog.dirty)
        invariant r == Run(brain.cfg, s0, events[..i]) && brain.State() == r.state
        invariant shadow == old(shadow) + r.shadow && emitted == old(emitted) + r.emitted
      {
        RunSnoc(brain.cfg, s0, events, i, r);
        var outcome := ProcessObservation(mode, events[i]);
        ghost var n := StepResult(brain.State(), outcome);
        AfterAppends(r, events[i], n, old(shadow), old(emitted));
        r := After(r, events[i], n);
        i := i + 1;
      }
      assert events[..|events|] == events;
    }
  }

  lemma AfterAppends(r: RunResult, e: Event, n: StepResult, shadow: seq<Surfaced>, emitted: seq<Surfaced>)
    ensures shadow + r.shadow + Sunk(e.mode, SHADOW, Surfaces(e.o, n.outcome)) == shadow + After(r, e, n).shadow
    ensures emitted + r.emitted + Sunk(e.mode, DETECT, Surfaces(e.o, n.outcome)) == emitted + After(r, e, n).emitted
  {
  }

  lemma RunSnoc(cfg: LearnConfig, s: BrainState, events: seq<Event>, i: nat, r: RunResult)
    requires i < |events| && r == Run(cfg, s, events[..i])
    ensures Run(cfg, s, events[..i + 1]) == After(r, events[i], Step(cfg, r.state, events[i]))
  {
    assert events[..i + 1][..i] == events[..i];
  }

  /** The tail's effect, given the patterns `ps` before the fold. */
  ghost predicate Handled(cfg: LearnConfig, mode: string, s: BrainState, ps: map<string, Pattern>, e: Event,
                          r: BrainState, outcome: Outcome)
  {
    && r.patterns == s.patterns
    && if !Judging(mode) then r == s && outcome == Learned
       else if ServiceInGrace(cfg, s.services, e)
           then r.services == GraceServices(cfg, s.services, e) && r.streak == s.streak && outcome == InGrace
       else
         && r.services == GraceServices(cfg, s.services, e)
         && r.streak == (if WasKnown(cfg, ps, e.o.key) then StreakAfter(s.streak, e.o.key, Scored(cfg, ps, e))
             else s.streak)
         && outcome == Judged(Judgement(cfg, s.(patterns := ps), e))
  }
}
