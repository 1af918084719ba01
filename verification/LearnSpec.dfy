/** One observation through the log brain: register its service, read the baseline,
    fold the tick, classify unless the service is in grace, then promote. Time is an
    input of every step; the regex tag of an observation comes with it. */
module LearnSpec {
  import opened Stats
  import opened Patterns
  import opened Spike

  datatype LearnConfig = LearnConfig(source: string, alpha: real, cat: CatalogConfig, pollSeconds: real,
                                     globalMode: Mode, grace: int, sqrt: real -> real)

  function Params(cfg: LearnConfig): SpikeParams { ResolveSpikeParams(cfg.cat, cfg.pollSeconds) }

  function FoldConfig(cfg: LearnConfig): BaselineFold { FoldOf(Params(cfg)) }

  /** A tick's signals of one pattern. */
  datatype Observation = Observation(key: string, service: string, template: string, timestamp: int, frequency: nat,
                                     ruleName: string)

  /** An observation, the mode of its tick, and the clock at its three reads: registering the
      service, folding, grace. */
  datatype Event = Event(o: Observation, mode: string, registerAt: int, foldAt: int, graceAt: int)

  const DEFAULT_ORG: string := "default"
  const DEFAULT_RULE: string := "default"

  // ---- the catalog -------------------------------------------------------------------

  function NewPattern(o: Observation, source: string, now: int): Pattern
  {
    Pattern(o.key, DEFAULT_ORG, o.template, now, now, 0, 0.0, 0.0, 0.0, [], "", "", o.ruleName, source, o.service, [],
      [])
  }

  /** A later sighting may sharpen the rule tag and re-point the service. */
  function Refreshed(p: Pattern, ruleName: string, service: string): Pattern
  {
    p.(ruleName := if ruleName != "" && (ruleName != DEFAULT_RULE || p.ruleName == "") then ruleName else p.ruleName,
       service := if RealService(service) then service else p.service)
  }

  /** A tick's sightings counted, its template and time taken over. */
  function Stamped(p: Pattern, o: Observation, now: int): Pattern
  {
    p.(template := o.template, lastSeen := now, count := p.count + o.frequency)
  }

  /** Upsert: the pattern after this tick. */
  function Upserted(f: BaselineFold, ps: map<string, Pattern>, o: Observation, source: string, alpha: real, now: int,
                    sqrt: real -> real): Pattern
  {
    var p := if o.key in ps then Refreshed(ps[o.key], o.ruleName, o.service) else NewPattern(o, source, now);
    Folded(f, Stamped(p, o, now), o.frequency, if alpha <= 0.0 then 0.2 else alpha, now, p.count, sqrt)
  }

  /** Track a service name unless it is tracked already. */
  function Tracked(services: map<string, ServiceInfo>, name: string, now: int): map<string, ServiceInfo>
  {
    if name in services then services else services[name := ServiceInfo(DEFAULT_ORG, now, false)]
  }

  // ---- the verdict ---------------------------------------------------------------------

  datatype Class = VerdictUnknown | VerdictKnown | VerdictSpike

  function Threshold(autoPromoteAfter: int): (n: int)
    ensures n > 0
  {
    Default(autoPromoteAfter, DEFAULT_AUTO_PROMOTE_AFTER)
  }

  predicate IsLogKnown(verdict: string, count: int, autoPromoteAfter: int)
  {
    verdict == KNOWN || count >= Threshold(autoPromoteAfter)
  }

  /** LogReadiness.Ready. */
  predicate Ready(p: Pattern, autoPromoteAfter: int) { IsLogKnown(p.verdict, p.count, autoPromoteAfter) }

  function StreakOf(streak: map<string, nat>, key: string): nat { if key in streak then streak[key] else 0 }

  /** The streak after a scored tick: reset by a calm tick, untouched by a ceiling hit. */
  function StreakAfter(streak: map<string, nat>, key: string, r: SpikeResult): map<string, nat>
  {
    if !r.spike then streak - {key} else if r.ceiling then streak else streak[key := StreakOf(streak, key) + 1]
  }

  /** Whether a scored tick fires. */
  predicate Confirmed(streak: map<string, nat>, key: string, r: SpikeResult, sustainTicks: int)
  {
    r.spike && (r.ceiling || StreakOf(streak, key) + 1 >= sustainTicks)
  }

  // ---- the step ------------------------------------------------------------------------

  datatype BrainState = BrainState(patterns: map<string, Pattern>, services: map<string, ServiceInfo>,
                                   streak: map<string, nat>)

  /** What the tail of a step did: learned only, held in grace, or judged. */
  datatype Outcome = Learned | InGrace | Judged(verdict: Class)

  datatype StepResult = StepResult(state: BrainState, outcome: Outcome)

  const SHADOW: string := "shadow"
  const DETECT: string := "detect"

  /** Every other mode, known or not, is treated as training. */
  predicate Judging(mode: string) { mode == SHADOW || mode == DETECT }

  /** The baseline before the fold; zero for a pattern not seen before. */
  function Expected(cfg: LearnConfig, ps: map<string, Pattern>, key: string, ts: int): Baseline
  {
    if key in ps then ResolveBaseline(ps[key], ts, cfg.globalMode, Params(cfg).minBucketSamples, cfg.sqrt)
    else Baseline(0.0, 0.0)
  }

  function FoldedPatterns(cfg: LearnConfig, ps: map<string, Pattern>, e: Event): map<string, Pattern>
  {
    ps[e.o.key := Upserted(FoldConfig(cfg), ps, e.o, cfg.source, cfg.alpha, e.foldAt, cfg.sqrt)]
  }

  /** Promote: a pattern that has just reached the threshold is marked known. */
  function PromotedPatterns(cfg: LearnConfig, ps: map<string, Pattern>, key: string): map<string, Pattern>
    requires key in ps
  {
    if ps[key].verdict != KNOWN && IsLogKnown(ps[key].verdict, ps[key].count, cfg.cat.autoPromoteAfter)
    then ps[key := ps[key].(verdict := KNOWN)] else ps
  }

  /** What one event does to the patterns, whatever the mode. */
  function LearnStep(cfg: LearnConfig, ps: map<string, Pattern>, e: Event): map<string, Pattern>
  {
    PromotedPatterns(cfg, FoldedPatterns(cfg, ps, e), e.o.key)
  }

  function Registered(services: map<string, ServiceInfo>, e: Event): map<string, ServiceInfo>
  {
    if RealService(e.o.service) then Tracked(services, e.o.service, e.registerAt) else services
  }

  /** The read of the grace window registers a service it does not know. */
  function GraceServices(cfg: LearnConfig, services: map<string, ServiceInfo>, e: Event): map<string, ServiceInfo>
  {
    if cfg.grace > 0 then Tracked(services, e.o.service, e.graceAt) else services
  }

  predicate ServiceInGrace(cfg: LearnConfig, services: map<string, ServiceInfo>, e: Event)
  {
    cfg.grace > 0 && e.graceAt < Tracked(services, e.o.service, e.graceAt)[e.o.service].firstSeen + cfg.grace
  }

  /** The tick scored against the baseline before its own fold. */
  function Scored(cfg: LearnConfig, ps: map<string, Pattern>, e: Event): SpikeResult
  {
    var b := Expected(cfg, ps, e.o.key, e.o.timestamp);
    EvalSpike(b.mean, b.std, if e.o.key in ps then ps[e.o.key].count else 0, e.o.frequency, Params(cfg))
  }

  /** Whether the pattern was known before this tick. */
  predicate WasKnown(cfg: LearnConfig, ps: map<string, Pattern>, key: string)
  {
    IsLogKnown(if key in ps then ps[key].verdict else "", if key in ps then ps[key].count else 0,
               cfg.cat.autoPromoteAfter)
  }

  function Judgement(cfg: LearnConfig, s: BrainState, e: Event): Class
  {
    if !WasKnown(cfg, s.patterns, e.o.key) then VerdictUnknown
    else if Confirmed(s.streak, e.o.key, Scored(cfg, s.patterns, e), Params(cfg).sustainTicks) then VerdictSpike
    else VerdictKnown
  }

  function Step(cfg: LearnConfig, s: BrainState, e: Event): StepResult
  {
    var services := Registered(s.services, e);
    var patterns := LearnStep(cfg, s.patterns, e);
    if !Judging(e.mode) then StepResult(BrainState(patterns, services, s.streak), Learned)
    else if ServiceInGrace(cfg, services, e) then
      StepResult(BrainState(patterns, GraceServices(cfg, services, e), s.streak), InGrace)
    else
      var streak := if WasKnown(cfg, s.patterns, e.o.key)
                    then StreakAfter(s.streak, e.o.key, Scored(cfg, s.patterns, e)) else s.streak;
      StepResult(BrainState(patterns, GraceServices(cfg, services, e), streak), Judged(Judgement(cfg, s, e)))
  }

  /** A judged event that is not routine, with its verdict. */
  datatype Surfaced = Surfaced(o: Observation, verdict: Class)

  function Surfaces(o: Observation, outcome: Outcome): seq<Surfaced>
  {
    if outcome.Judged? && !outcome.verdict.VerdictKnown? then [Surfaced(o, outcome.verdict)] else []
  }

  /** What reaches one mode's sink. */
  function Sunk(mode: string, sink: string, xs: seq<Surfaced>): seq<Surfaced> { if mode == sink then xs else [] }

  /** The state after a run, what shadow recorded and what detect emitted. */
  datatype RunResult = RunResult(state: BrainState, shadow: seq<Surfaced>, emitted: seq<Surfaced>)

  function After(r: RunResult, e: Event, n: StepResult): RunResult
  {
    var xs := Surfaces(e.o, n.outcome);
    RunResult(n.state, r.shadow + Sunk(e.mode, SHADOW, xs), r.emitted + Sunk(e.mode, DETECT, xs))
  }

  /** A run over ticks of any modes: each event carries the mode its tick was resolved to. */
  function Run(cfg: LearnConfig, s: BrainState, events: seq<Event>): RunResult
  {
    if events == [] then RunResult(s, [], [])
    else
      var r := Run(cfg, s, events[..|events| - 1]);
      After(r, events[|events| - 1], Step(cfg, r.state, events[|events| - 1]))
  }
}
