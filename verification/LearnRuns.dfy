/** What every run of the learn cycle keeps, over all modes. */
module LearnRuns {
  import opened Stats
  import opened Patterns
  import opened Spike
  import opened LearnSpec

  // ---- learning does not depend on the mode ------------------------------------------

  function LearnRun(cfg: LearnConfig, ps: map<string, Pattern>, events: seq<Event>): map<string, Pattern>
  {
    if events == [] then ps else LearnStep(cfg, LearnRun(cfg, ps, events[..|events| - 1]), events[|events| - 1])
  }

  lemma {:induction false} RunLearns(cfg: LearnConfig, s: BrainState, events: seq<Event>)
    ensures Run(cfg, s, events).state.patterns == LearnRun(cfg, s.patterns, events)
  {
    if events != [] {
      var front := events[..|events| - 1];
      RunLearns(cfg, s, front);
      StepLearns(cfg, Run(cfg, s, front).state, events[|events| - 1]);
    }
  }

  lemma StepLearns(cfg: LearnConfig, s: BrainState, e: Event)
    ensures Step(cfg, s, e).state.patterns == LearnStep(cfg, s.patterns, e)
  {
  }

  /** The same events at the same times, tick by tick in other modes. */
  predicate SameButMode(a: seq<Event>, b: seq<Event>)
  {
    |a| == |b| && forall i :: 0 <= i < |a| ==> a[i].(mode := b[i].mode) == b[i]
  }

  /** What is learned does not depend on the mode, nor on when it is switched, nor on the
      services and streaks the runs start from. */
  lemma {:induction false} LearningIsModeIndependent(cfg: LearnConfig, s: BrainState, t: BrainState, a: seq<Event>,
                                                     b: seq<Event>)
    requires s.patterns == t.patterns && SameButMode(a, b)
    ensures Run(cfg, s, a).state.patterns == Run(cfg, t, b).state.patterns
  {
    if a != [] {
      var n := |a| - 1;
      LearningIsModeIndependent(cfg, s, t, a[..n], b[..n]);
      StepLearns(cfg, Run(cfg, s, a[..n]).state, a[n]);
      StepLearns(cfg, Run(cfg, t, b[..n]).state, b[n]);
      LearnStepIgnoresMode(cfg, Run(cfg, s, a[..n]).state.patterns, a[n], b[n].mode);
    }
  }

  lemma LearnStepIgnoresMode(cfg: LearnConfig, ps: map<string, Pattern>, e: Event, mode: string)
    ensures LearnStep(cfg, ps, e.(mode := mode)) == LearnStep(cfg, ps, e)
  {
  }

  /** Whether two modes judge alike decides everything but the sink. */
  lemma StepInTwin(cfg: LearnConfig, s: BrainState, e: Event, mode: string)
    requires Judging(e.mode) <==> Judging(mode)
    ensures Step(cfg, s, e.(mode := mode)) == Step(cfg, s, e)
  {
    LearnStepIgnoresMode(cfg, s.patterns, e, mode);
    assert Scored(cfg, s.patterns, e.(mode := mode)) == Scored(cfg, s.patterns, e);
  }

  /** Everything surfaced so far, in either sink. */
  lemma {:induction false} TwinsAgree(cfg: LearnConfig, s: BrainState, a: seq<Event>, b: seq<Event>)
    requires SameButMode(a, b) && forall i :: 0 <= i < |a| ==> (Judging(a[i].mode) <==> Judging(b[i].mode))
    ensures Run(cfg, s, a).state == Run(cfg, s, b).state
    ensures |Run(cfg, s, a).shadow| + |Run(cfg, s, a).emitted| == |Run(cfg, s, b).shadow| + |Run(cfg, s, b).emitted|
  {
    if a != [] {
      var n := |a| - 1;
      TwinsAgree(cfg, s, a[..n], b[..n]);
      StepInTwin(cfg, Run(cfg, s, a[..n]).state, a[n], b[n].mode);
    }
  }

  /** Shadow is a faithful preview: over ticks in shadow it records exactly what the same
      ticks in detect emit, in the same order, and ends in the same state. */
  lemma {:induction false} ShadowIsDetect(cfg: LearnConfig, s: BrainState, a: seq<Event>, b: seq<Event>)
    requires SameButMode(a, b) && (forall e <- a :: e.mode == SHADOW) && (forall e <- b :: e.mode == DETECT)
    ensures Run(cfg, s, a).state == Run(cfg, s, b).state && Run(cfg, s, a).shadow == Run(cfg, s, b).emitted
    ensures Run(cfg, s, a).emitted == [] && Run(cfg, s, b).shadow == []
  {
    if a != [] {
      var n := |a| - 1;
      assert a[n] in a && b[n] in b;
      assert (forall e <- a[..n] :: e in a) && (forall e <- b[..n] :: e in b);
      ShadowIsDetect(cfg, s, a[..n], b[..n]);
      StepInTwin(cfg, Run(cfg, s, a[..n]).state, a[n], DETECT);
    }
  }

  /** The service names an event tracks in its mode. */
  predicate Tracks(cfg: LearnConfig, e: Event)
  {
    RealService(e.o.service) || (Judging(e.mode) && cfg.grace > 0)
  }

  ghost predicate Named(cfg: LearnConfig, events: seq<Event>, name: string)
  {
    exists e <- events :: e.o.service == name && Tracks(cfg, e)
  }

  lemma StepServices(cfg: LearnConfig, s: BrainState, e: Event, name: string)
    ensures name in Step(cfg, s, e).state.services <==> name in s.services || (e.o.service == name && Tracks(cfg, e))
  {
  }

  lemma NamedStep(cfg: LearnConfig, front: seq<Event>, last: Event, name: string)
    ensures Named(cfg, front + [last], name) <==>
      Named(cfg, front, name) || (last.o.service == name && Tracks(cfg, last))
  {
    assert last in front + [last];
    assert forall e <- front :: e in front + [last];
  }

  lemma ServicesStep(cfg: LearnConfig, s: BrainState, was: bool, front: seq<Event>, last: Event, name: string)
    requires name in s.services <==> was || Named(cfg, front, name)
    ensures name in Step(cfg, s, last).state.services <==> was || Named(cfg, front + [last], name)
  {
    StepServices(cfg, s, last, name);
    NamedStep(cfg, front, last, name);
  }

  lemma {:induction false} RunServices(cfg: LearnConfig, s: BrainState, events: seq<Event>, name: string)
    ensures name in Run(cfg, s, events).state.services <==> name in s.services || Named(cfg, events, name)
  {
    if events != [] {
      var front, last := events[..|events| - 1], events[|events| - 1];
      assert events == front + [last];
      RunServices(cfg, s, front, name);
      ServicesStep(cfg, Run(cfg, s, front).state, name in s.services, front, last, name);
    }
  }

  /** The service list does depend on the mode: reading the grace window registers the
      sentinel or blank name of an unattributed line, which training never does. The
      lists agree exactly when there is no grace or no such name is new. */
  lemma ServicesAgreeIff(cfg: LearnConfig, s: BrainState, training: seq<Event>, judged: seq<Event>)
    requires SameButMode(training, judged)
    requires (forall e <- training :: !Judging(e.mode)) && (forall e <- judged :: Judging(e.mode))
    ensures Run(cfg, s, training).state.services.Keys == Run(cfg, s, judged).state.services.Keys
            <==> cfg.grace <= 0 || forall e <- judged :: RealService(e.o.service) || e.o.service in s.services
  {
    forall name: string
      ensures name in Run(cfg, s, training).state.services <==> name in s.services || Named(cfg, training, name)
      ensures name in Run(cfg, s, judged).state.services <==> name in s.services || Named(cfg, judged, name) {
      RunServices(cfg, s, training, name);
      RunServices(cfg, s, judged, name);
    }
    NamesAgree(cfg, training, judged, s.services, Run(cfg, s, training).state.services,
      Run(cfg, s, judged).state.services);
  }

  lemma NamedInBoth(cfg: LearnConfig, training: seq<Event>, judged: seq<Event>, name: string)
    requires SameButMode(training, judged)
    requires (forall e <- training :: !Judging(e.mode)) && (forall e <- judged :: Judging(e.mode))
    ensures Named(cfg, training, name) ==> Named(cfg, judged, name) && RealService(name)
    ensures Named(cfg, judged, name) && (RealService(name) || cfg.grace <= 0) ==> Named(cfg, training, name)
  {
    if Named(cfg, training, name) {
      var e :| e in training && e.o.service == name && Tracks(cfg, e);
      var i :| 0 <= i < |training| && training[i] == e;
      assert judged[i] in judged && judged[i].o.service == name;
    }
    if Named(cfg, judged, name) && (RealService(name) || cfg.grace <= 0) {
      var e :| e in judged && e.o.service == name && Tracks(cfg, e);
      var i :| 0 <= i < |judged| && judged[i] == e;
      assert training[i] in training && training[i].o.service == name;
    }
  }

  /** A judged name that training tracks as well is that of a real service. */
  lemma TrackedName(cfg: LearnConfig, training: seq<Event>, judged: seq<Event>, e: Event)
    requires SameButMode(training, judged) && e in judged && cfg.grace > 0
    requires (forall e <- training :: !Judging(e.mode)) && (forall e <- judged :: Judging(e.mode))
    ensures Named(cfg, judged, e.o.service) && (Named(cfg, training, e.o.service) ==> RealService(e.o.service))
  {
    NamedInBoth(cfg, training, judged, e.o.service);
  }

  lemma NameAgrees(cfg: LearnConfig, training: seq<Event>, judged: seq<Event>, was: map<string, ServiceInfo>,
                   name: string)
    requires SameButMode(training, judged)
    requires (forall e <- training :: !Judging(e.mode)) && (forall e <- judged :: Judging(e.mode))
    requires cfg.grace <= 0 || forall e <- judged :: RealService(e.o.service) || e.o.service in was
    ensures name in was || (Named(cfg, training, name) <==> Named(cfg, judged, name))
  {
    NamedInBoth(cfg, training, judged, name);
  }

  lemma NamesAgree(cfg: LearnConfig, training: seq<Event>, judged: seq<Event>, was: map<string, ServiceInfo>,
                   a: map<string, ServiceInfo>, b: map<string, ServiceInfo>)
    requires SameButMode(training, judged)
    requires (forall e <- training :: !Judging(e.mode)) && (forall e <- judged :: Judging(e.mode))
    requires forall name: string :: name in a <==> name in was || Named(cfg, training, name)
    requires forall name: string :: name in b <==> name in was || Named(cfg, judged, name)
    ensures a.Keys == b.Keys <==> cfg.grace <= 0 || forall e <- judged :: RealService(e.o.service) || e.o.service in was
  {
    if cfg.grace > 0 && a.Keys == b.Keys {
      forall e | e in judged ensures RealService(e.o.service) || e.o.service in was {
        TrackedName(cfg, training, judged, e);
        assert e.o.service in a.Keys;
      }
    }
    if cfg.grace <= 0 || forall e <- judged :: RealService(e.o.service) || e.o.service in was {
      forall name: string ensures name in a <==> name in b { NameAgrees(cfg, training, judged, was, name); }
    }
  }

  /** The promotion threshold is the one that is set, or a hundred sightings. */
  lemma ThresholdKeptOrDefault(autoPromoteAfter: int)
    ensures if autoPromoteAfter > 0 then Threshold(autoPromoteAfter) == autoPromoteAfter
        else Threshold(autoPromoteAfter) == 100
  {
  }

  // ---- promotion -------------------------------------------------------------------------

  /** The stored verdict and the readiness view agree on every pattern. */
  ghost predicate KnownIsReady(cfg: LearnConfig, ps: map<string, Pattern>)
  {
    forall k <- ps :: ps[k].verdict == KNOWN <==> Ready(ps[k], cfg.cat.autoPromoteAfter)
  }

  /** Nothing but its count made a pattern known: no operator edits. */
  ghost predicate KnownByCount(cfg: LearnConfig, ps: map<string, Pattern>)
  {
    forall k <- ps :: ps[k].verdict == KNOWN <==> ps[k].count >= Threshold(cfg.cat.autoPromoteAfter)
  }

  function CountOf(ps: map<string, Pattern>, key: string): int { if key in ps then ps[key].count else 0 }

  function VerdictOf(ps: map<string, Pattern>, key: string): string { if key in ps then ps[key].verdict else "" }

  lemma {:induction false} KnownOnlyByCount(cfg: LearnConfig, ps: map<string, Pattern>, events: seq<Event>)
    requires KnownByCount(cfg, ps)
    ensures KnownByCount(cfg, LearnRun(cfg, ps, events))
  {
    if events != [] {
      var front := events[..|events| - 1];
      KnownOnlyByCount(cfg, ps, front);
      StepKeepsKnown(cfg, LearnRun(cfg, ps, front), events[|events| - 1]);
    }
  }

  /** The counters an event touches: its pattern's count grows, a new pattern starts from
      nothing, and the verdict becomes "known" exactly when the pattern is ready. */
  lemma LearnStepCounts(cfg: LearnConfig, ps: map<string, Pattern>, e: Event)
    ensures Counts(cfg, ps, LearnStep(cfg, ps, e), e.o.key, e.o.frequency)
  {
    UpsertedCounts(FoldConfig(cfg), ps, e.o, cfg.source, cfg.alpha, e.foldAt, cfg.sqrt);
    PromotedCounts(cfg, ps, Upserted(FoldConfig(cfg), ps, e.o, cfg.source, cfg.alpha, e.foldAt, cfg.sqrt), e.o.key,
      e.o.frequency);
  }

  ghost predicate Counts(cfg: LearnConfig, ps: map<string, Pattern>, r: map<string, Pattern>, key: string,
                         frequency: nat)
  {
    && r.Keys == ps.Keys + {key}
    && (forall k <- ps :: k != key ==> r[k] == ps[k])
    && r[key].count == CountOf(ps, key) + frequency
    && r[key].verdict == if IsLogKnown(VerdictOf(ps, key), r[key].count, cfg.cat.autoPromoteAfter) then KNOWN
        else VerdictOf(ps, key)
  }

  lemma UpsertedCounts(f: BaselineFold, ps: map<string, Pattern>, o: Observation, source: string, alpha: real,
                       now: int, sqrt: real -> real)
    ensures var r := Upserted(f, ps, o, source, alpha, now, sqrt);
      r.count == CountOf(ps, o.key) + o.frequency && r.verdict == VerdictOf(ps, o.key)
  {
    var p := if o.key in ps then Refreshed(ps[o.key], o.ruleName, o.service) else NewPattern(o, source, now);
    FoldedKeeps(f, Stamped(p, o, now), o.frequency, if alpha <= 0.0 then 0.2 else alpha, now, p.count, sqrt);
  }

  lemma PromotedCounts(cfg: LearnConfig, ps: map<string, Pattern>, p: Pattern, key: string, frequency: nat)
    requires p.count == CountOf(ps, key) + frequency && p.verdict == VerdictOf(ps, key)
    ensures Counts(cfg, ps, PromotedPatterns(cfg, ps[key := p], key), key, frequency)
  {
  }

  /** A fold touches the learned baseline only. */
  lemma FoldedKeeps(f: BaselineFold, p: Pattern, tickCount: int, alpha: real, now: int, prevCount: int,
                    sqrt: real -> real)
    ensures var r := Folded(f, p, tickCount, alpha, now, prevCount, sqrt);
      r == p.(baselineFrequency := r.baselineFrequency, baselineVariance := r.baselineVariance,
        baselineAvg := r.baselineAvg, seasonal := r.seasonal)
  {
  }

  lemma StepKeepsKnown(cfg: LearnConfig, ps: map<string, Pattern>, e: Event)
    ensures KnownByCount(cfg, ps) ==> KnownByCount(cfg, LearnStep(cfg, ps, e))
    ensures KnownIsReady(cfg, ps) ==> KnownIsReady(cfg, LearnStep(cfg, ps, e))
  {
    LearnStepCounts(cfg, ps, e);
    CountsKeepKnown(cfg, ps, LearnStep(cfg, ps, e), e.o.key, e.o.frequency);
  }

  lemma CountsKeepKnown(cfg: LearnConfig, ps: map<string, Pattern>, r: map<string, Pattern>, key: string,
                        frequency: nat)
    requires Counts(cfg, ps, r, key, frequency)
    ensures KnownByCount(cfg, ps) ==> KnownByCount(cfg, r)
    ensures KnownIsReady(cfg, ps) ==> KnownIsReady(cfg, r)
  {
  }

  /** After every processed event of every mode, stored "known" is readiness. */
  lemma StoredKnownIffReady(cfg: LearnConfig, s: BrainState, events: seq<Event>)
    requires KnownIsReady(cfg, s.patterns)
    ensures KnownIsReady(cfg, Run(cfg, s, events).state.patterns)
  {
    RunLearns(cfg, s, events);
    KnownStaysReady(cfg, s.patterns, events);
  }

  lemma {:induction false} KnownStaysReady(cfg: LearnConfig, ps: map<string, Pattern>, events: seq<Event>)
    requires KnownIsReady(cfg, ps)
    ensures KnownIsReady(cfg, LearnRun(cfg, ps, events))
  {
    if events != [] {
      var front := events[..|events| - 1];
      KnownStaysReady(cfg, ps, front);
      StepKeepsKnown(cfg, LearnRun(cfg, ps, front), events[|events| - 1]);
    }
  }

  // ---- counts ----------------------------------------------------------------------------

  /** The sightings of a pattern among these events. */
  function Sightings(events: seq<Event>, key: string): nat
  {
    if events == [] then 0
    else Sightings(events[..|events| - 1], key) + if events[|events| - 1].o.key == key
        then events[|events| - 1].o.frequency else 0
  }

  lemma {:induction false} CountIsSightings(cfg: LearnConfig, events: seq<Event>, key: string)
    ensures CountOf(LearnRun(cfg, map[], events), key) == Sightings(events, key)
  {
    if events != [] {
      var front, last := events[..|events| - 1], events[|events| - 1];
      CountIsSightings(cfg, front, key);
      LearnStepCounts(cfg, LearnRun(cfg, map[], front), last);
      CountsStep(cfg, LearnRun(cfg, map[], front), LearnRun(cfg, map[], events), last.o.key, last.o.frequency, key);
    }
  }

  lemma CountsStep(cfg: LearnConfig, ps: map<string, Pattern>, r: map<string, Pattern>, key: string, frequency: nat,
                   k: string)
    requires Counts(cfg, ps, r, key, frequency)
    ensures CountOf(r, k) == CountOf(ps, k) + if k == key then frequency else 0
  {
  }

  // ---- the verdict in closed form --------------------------------------------------------

  /** What a tick is, read off its frequency and the baseline before it. */
  datatype Kind = Calm | Above | Ceiling

  /** At or over the absolute ceiling, where one is set. */
  predicate AtCeiling(cfg: LearnConfig, e: Event)
  {
    0 < cfg.cat.spikeAbsCeiling <= e.o.frequency
  }

  /** Over the noise floor, against a positive baseline with enough earlier sightings, and Z
      spreads or more above it. */
  predicate FarAbove(cfg: LearnConfig, b: Baseline, earlier: int, e: Event)
  {
    var p := Params(cfg);
    && e.o.frequency >= p.minFrequency && earlier >= p.minBaselineCount && b.mean > 0.0
    && Rate(e.o.frequency, cfg.pollSeconds) - b.mean >= p.z * Spread(b.mean, b.std)
  }

  function KindOf(cfg: LearnConfig, ps: map<string, Pattern>, e: Event): Kind
  {
    if AtCeiling(cfg, e) then Ceiling
    else if FarAbove(cfg, Expected(cfg, ps, e.o.key, e.o.timestamp), CountOf(ps, e.o.key), e) then Above
    else Calm
  }

  /** The detector's two flags are the kind of the tick. */
  lemma ScoredIsKind(cfg: LearnConfig, ps: map<string, Pattern>, e: Event)
    ensures Scored(cfg, ps, e).spike <==> !KindOf(cfg, ps, e).Calm?
    ensures Scored(cfg, ps, e).ceiling <==> KindOf(cfg, ps, e).Ceiling?
  {
    var b := Expected(cfg, ps, e.o.key, e.o.timestamp);
    ResolveIsResolved(cfg.cat, cfg.pollSeconds);
    ScoreAtLeast(Rate(e.o.frequency, cfg.pollSeconds), b.mean, b.std, Params(cfg).z);
  }

  lemma ScoreAtLeast(value: real, mean: real, std: real, z: real)
    ensures ZScore(value, mean, std) >= z <==> value - mean >= z * Spread(mean, std)
  {
    ZScoreSign(value, mean, std);
    OverPositive(ZScore(value, mean, std), z, Spread(mean, std));
  }

  lemma OverPositive(x: real, y: real, s: real)
    requires s > 0.0
    ensures x >= y <==> x * s >= y * s
  {
    if x < y { assert (y - x) * s > 0.0; }
    if x > y { assert (x - y) * s > 0.0; }
  }

  /** The kinds of a pattern's known ticks that were judged, in order. */
  function Kinds(cfg: LearnConfig, s: BrainState, events: seq<Event>, key: string): seq<Kind>
  {
    if events == [] then []
    else
      var front, last := events[..|events| - 1], events[|events| - 1];
      var r := Run(cfg, s, front).state;
      Kinds(cfg, s, front, key)
      + if Counted(cfg, r, last, key) then [KindOf(cfg, r.patterns, last)] else []
  }

  /** The number of spikes below the ceiling since the last calm tick. */
  function SpikesSinceCalm(kinds: seq<Kind>): nat
  {
    if kinds == [] then 0
    else match kinds[|kinds| - 1]
      case Calm => 0
      case Above => SpikesSinceCalm(kinds[..|kinds| - 1]) + 1
      case Ceiling => SpikesSinceCalm(kinds[..|kinds| - 1])
  }

  /** Where the last calm tick is, that number is a plain count of what follows it. */
  lemma {:induction false} SinceCalmCounts(kinds: seq<Kind>, n: nat)
    requires n <= |kinds| && (n == 0 || kinds[n - 1].Calm?) && forall i :: n <= i < |kinds| ==> !kinds[i].Calm?
    ensures SpikesSinceCalm(kinds) == multiset(kinds[n..])[Above]
  {
    if n < |kinds| {
      var front, last := kinds[..|kinds| - 1], kinds[|kinds| - 1];
      SinceCalmCounts(front, n);
      assert kinds[n..] == front[n..] + [last];
    } else {
      assert kinds[n..] == [];
    }
  }

  lemma StepStreak(cfg: LearnConfig, s: BrainState, e: Event, key: string)
    ensures StreakOf(Step(cfg, s, e).state.streak, key) ==
      if Counted(cfg, s, e, key) then
        match KindOf(cfg, s.patterns, e)
        case Calm => 0
        case Above => StreakOf(s.streak, key) + 1
        case Ceiling => StreakOf(s.streak, key)
      else StreakOf(s.streak, key)
  {
    ScoredIsKind(cfg, s.patterns, e);
  }

  lemma SinceCalmStep(before: seq<Kind>, k: Kind)
    ensures SpikesSinceCalm(before + [k])
            == match k case Calm => 0 case Above => SpikesSinceCalm(before) + 1 case Ceiling => SpikesSinceCalm(before)
  {
    assert (before + [k])[..|before|] == before;
  }

  predicate Counted(cfg: LearnConfig, s: BrainState, e: Event, key: string)
  {
    e.o.key == key && WasKnown(cfg, s.patterns, key) && Step(cfg, s, e).outcome.Judged?
  }

  lemma StreakStep(cfg: LearnConfig, s: BrainState, e: Event, key: string, kinds: seq<Kind>)
    requires StreakOf(s.streak, key) == SpikesSinceCalm(kinds)
    ensures StreakOf(Step(cfg, s, e).state.streak, key)
            == SpikesSinceCalm(kinds + if Counted(cfg, s, e, key) then [KindOf(cfg, s.patterns, e)] else [])
  {
    StepStreak(cfg, s, e, key);
    SinceCalmStep(kinds, KindOf(cfg, s.patterns, e));
    assert kinds + [] == kinds;
  }

  lemma {:induction false} StreakIsSpikesSinceCalm(cfg: LearnConfig, s: BrainState, events: seq<Event>, key: string)
    requires s.streak == map[]
    ensures StreakOf(Run(cfg, s, events).state.streak, key) == SpikesSinceCalm(Kinds(cfg, s, events, key))
  {
    if events != [] {
      var front, last := events[..|events| - 1], events[|events| - 1];
      StreakIsSpikesSinceCalm(cfg, s, front, key);
      StreakStep(cfg, Run(cfg, s, front).state, last, key, Kinds(cfg, s, front, key));
    }
  }

  const FRESH := BrainState(map[], map[], map[])

  /** Unknown below the threshold; else a spike at the ceiling, or far above the baseline for
      the SustainTicks-th time since the last calm tick. */
  predicate VerdictIs(cfg: LearnConfig, v: Class, kind: Kind, earlier: int, kinds: seq<Kind>)
  {
    && (v.VerdictUnknown? <==> earlier < Threshold(cfg.cat.autoPromoteAfter))
    && (!v.VerdictUnknown? ==>
          (v.VerdictSpike? <==>
            kind.Ceiling? || (kind.Above? && SpikesSinceCalm(kinds) + 1 >= Params(cfg).sustainTicks)))
  }

  /** With no operator edits, from an empty catalog, every judged tick's verdict is given by
      the sightings before it, its own kind, and the kinds of the ticks judged before it. */
  lemma ClassificationClosedForm(cfg: LearnConfig, events: seq<Event>, e: Event)
    requires var s := Run(cfg, FRESH, events).state; Step(cfg, s, e).outcome.Judged?
    ensures VerdictIs(cfg, Step(cfg, Run(cfg, FRESH, events).state, e).outcome.verdict,
                      KindOf(cfg, LearnRun(cfg, map[], events), e), Sightings(events, e.o.key),
                      Kinds(cfg, FRESH, events, e.o.key))
  {
    RunLearns(cfg, FRESH, events);
    CountIsSightings(cfg, events, e.o.key);
    KnownOnlyByCount(cfg, map[], events);
    StreakIsSpikesSinceCalm(cfg, FRESH, events, e.o.key);
    ClosedFormAt(cfg, Run(cfg, FRESH, events).state, e, Kinds(cfg, FRESH, events, e.o.key));
  }

  /** The verdict from any state where only counts made patterns known. */
  lemma ClosedFormAt(cfg: LearnConfig, s: BrainState, e: Event, kinds: seq<Kind>)
    requires Step(cfg, s, e).outcome.Judged? && KnownByCount(cfg, s.patterns)
    requires StreakOf(s.streak, e.o.key) == SpikesSinceCalm(kinds)
    ensures VerdictIs(cfg, Step(cfg, s, e).outcome.verdict, KindOf(cfg, s.patterns, e), CountOf(s.patterns, e.o.key),
                      kinds)
  {
    ScoredIsKind(cfg, s.patterns, e);
  }

  /** The ceiling is the hard net: a judged tick of a known pattern that reaches it is a spike
      whatever the baseline, the warm-up and the streak, and leaves the streak as it was. */
  lemma CeilingIsSpike(cfg: LearnConfig, s: BrainState, e: Event)
    requires 0 < cfg.cat.spikeAbsCeiling <= e.o.frequency && Step(cfg, s, e).outcome.Judged? && e.o.key in s.patterns
    requires s.patterns[e.o.key].verdict == KNOWN || s.patterns[e.o.key].count >= Threshold(cfg.cat.autoPromoteAfter)
    ensures Step(cfg, s, e).outcome == Judged(VerdictSpike) && Step(cfg, s, e).state.streak == s.streak
  {
    ScoredIsKind(cfg, s.patterns, e);
  }
}
